/**
 * The mobile navigation menu: the `open` class on the menu and the toggle's
 * `aria-expanded` attribute, driven by toggle clicks, link clicks and window
 * resizes.
 */
module Navigation {

  /** The viewport width (in CSS pixels) from which the desktop layout is
      used and the toggle is hidden. */
  const DesktopWidth: int := 1024

  /** How `setAttribute` renders a boolean. */
  function BoolText(b: bool): (t: string)
    ensures t == "true" || t == "false"
    ensures t == "true" <==> b
  {
    if b then "true" else "false"
  }

  class NavMenu {
    var open: bool
    var ariaExpanded: string

    /** The page's markup decides the starting state. */
    constructor (open0: bool, ariaExpanded0: string)
      ensures open == open0 && ariaExpanded == ariaExpanded0
    {
      open, ariaExpanded := open0, ariaExpanded0;
    }

    /** The toggle's `aria-expanded` tells the truth about the menu. */
    predicate Synced()
      reads this
    {
      ariaExpanded == BoolText(open)
    }

    /** A click on the toggle flips the menu and reports the new state. */
    method OnToggleClick()
      modifies this
      ensures open == !old(open)
      ensures Synced()
    {
      open := !open;
      ariaExpanded := BoolText(open);
    }

    /** A click on a menu link closes the menu below the desktop width and
        does nothing at or above it. */
    method OnLinkClick(width: int)
      modifies this
      ensures width < DesktopWidth ==> !open && ariaExpanded == "false"
      ensures width >= DesktopWidth ==> unchanged(this)
    {
      if width < DesktopWidth {
        open := false;
        ariaExpanded := "false";
      }
    }

    /** A resize to the desktop width or wider closes the menu whatever its
        state; a resize to a narrower width does nothing. */
    method OnResize(width: int)
      modifies this
      ensures width >= DesktopWidth ==> !open && ariaExpanded == "false"
      ensures width < DesktopWidth ==> unchanged(this)
    {
      if width >= DesktopWidth {
        open := false;
        ariaExpanded := "false";
      }
    }
  }
}
