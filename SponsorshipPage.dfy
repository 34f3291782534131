/**
 * The sponsorship form's submit button: on submit it shows a confirmation
 * label, is disabled and recoloured, and a restore step scheduled for later
 * puts back the label it had, enables it and paints it the primary red.
 */
module SponsorshipPage {
  import opened Wrappers

  const PrimaryRed: string := "#D2042D"
  const SecondaryBlue: string := "#0B61A4"
  const SentLabel: string := "Request Sent! We will contact you shortly."

  class SubmitButton {
    var text: string
    var disabled: bool
    var backgroundColor: string
    /** The scheduled restore step, holding the label it will put back. */
    var pending: Option<string>

    /** A restore step is scheduled only while the button is disabled, so a
        second submission cannot happen before it runs. */
    ghost predicate Valid()
      reads this
    {
      pending.Some? ==> disabled
    }

    constructor (text0: string, disabled0: bool, color0: string)
      ensures Valid()
      ensures text == text0 && disabled == disabled0 && backgroundColor == color0 && pending == None
    {
      text, disabled, backgroundColor, pending := text0, disabled0, color0, None;
    }

    /** A submit request. The browser fires the form's submit event only while
        the submit button is enabled; the handler then stores the current
        label for the restore step and shows the confirmation. */
    method Submit() returns (fired: bool)
      requires Valid()
      modifies this
      ensures Valid()
      ensures fired == !old(disabled)
      ensures fired ==> text == SentLabel && disabled && backgroundColor == SecondaryBlue
                        && pending == Some(old(text))
      ensures !fired ==> unchanged(this)
    {
      fired := !disabled;
      if fired {
        var originalText := text;
        text := SentLabel;
        disabled := true;
        backgroundColor := SecondaryBlue;
        pending := Some(originalText);
      }
    }

    /** The scheduled restore step: the stored label comes back, the button is
        enabled and painted the primary red. */
    method Restore()
      requires Valid() && pending.Some?
      modifies this
      ensures Valid()
      ensures text == old(pending.value) && !disabled && backgroundColor == PrimaryRed && pending == None
    {
      text := pending.value;
      disabled := false;
      backgroundColor := PrimaryRed;
      pending := None;
    }
  }

  /** Submitting an enabled, idle button and then running the restore step
      gives back its exact label and leaves it enabled. */
  method SubmitThenRestore(b: SubmitButton)
    requires b.Valid() && !b.disabled
    modifies b
    ensures b.Valid() && b.text == old(b.text) && !b.disabled && b.pending == None
  {
    var fired := b.Submit();
    assert fired && b.pending.Some?;
    b.Restore();
  }
}
