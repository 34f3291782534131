/**
 * The application page's controller: the confirmation modal and the form
 * whose controls `validateField` marks up on blur and on submit.
 */
module ApplyPage {
  import opened Wrappers
  import opened FieldValidation
  import Strings

  /** The confirmation modal's `style.display` and `aria-hidden`, and the
      page body's `style.overflow`, which the modal locks while it is open. */
  class ConfirmationModal {
    var display: string
    var ariaHidden: string
    var bodyOverflow: string

    constructor (display0: string, ariaHidden0: string, bodyOverflow0: string)
      ensures display == display0 && ariaHidden == ariaHidden0 && bodyOverflow == bodyOverflow0
    {
      display, ariaHidden, bodyOverflow := display0, ariaHidden0, bodyOverflow0;
    }

    /** Shown, exposed to assistive technology, page scroll locked. */
    predicate IsOpen()
      reads this
    {
      display == "flex" && ariaHidden == "false" && bodyOverflow == "hidden"
    }

    /** Hidden, hidden from assistive technology, page scroll restored. */
    predicate IsClosed()
      reads this
    {
      display == "none" && ariaHidden == "true" && bodyOverflow == ""
    }

    /** The three writes of a successful submission. */
    method Open()
      modifies this
      ensures IsOpen()
    {
      display := "flex";
      ariaHidden := "false";
      bodyOverflow := "hidden";
    }

    /** `closeModal`: the resulting state does not depend on the state before,
        so closing a closed modal changes nothing. */
    method Close()
      modifies this
      ensures IsClosed()
    {
      display := "none";
      ariaHidden := "true";
      bodyOverflow := "";
    }

    /** A click anywhere in the window closes the modal only when its target
        is the modal's backdrop itself. */
    method OnWindowClick(targetIsBackdrop: bool)
      modifies this
      ensures targetIsBackdrop ==> IsClosed()
      ensures !targetIsBackdrop ==> unchanged(this)
    {
      if targetIsBackdrop {
        Close();
      }
    }
  }

  /** The application form: its controls, the feedback `validateField` has
      left beside each one, the recipient of the "request a copy" mail link,
      and the confirmation modal it opens. */
  class ApplicationForm {
    var controls: seq<Control>
    var feedback: seq<Feedback>
    var mailtoRecipient: Option<string>
    const modal: ConfirmationModal

    ghost predicate Valid()
      reads this
    {
      |feedback| == |controls|
    }

    constructor (controls0: seq<Control>, modal0: ConfirmationModal)
      ensures Valid() && controls == controls0 && modal == modal0 && mailtoRecipient == None
      ensures forall i :: 0 <= i < |feedback| ==> feedback[i] == Feedback("", "", "")
    {
      controls := controls0;
      feedback := seq(|controls0|, _ => Feedback("", "", ""));
      mailtoRecipient := None;
      modal := modal0;
    }

    /** `validateField(controls[i], format, custom)`: decides by `Check`,
        writes the message, the error's visibility and `aria-invalid`, and
        returns whether the control passed. Nothing else changes. */
    method ValidateField(i: nat, format: Option<Format>, custom: Option<string -> bool>) returns (ok: bool)
      requires Valid() && i < |controls|
      modifies this
      ensures Valid() && controls == old(controls) && mailtoRecipient == old(mailtoRecipient)
      ensures var v := Check(controls[i].required, controls[i].value, format, custom);
        ok == v.Valid? && feedback == old(feedback)[i := FeedbackFor(v, controls[i])]
    {
      var c := controls[i];
      var text: string;
      var display := feedback[i].display;
      var ariaInvalid := feedback[i].ariaInvalid;
      ghost var v := Check(c.required, c.value, format, custom);
      ok := true;
      if c.required && Strings.Trim(c.value) == "" {
        text := c.labelText + " is required.";
        ok := false;
      } else if format.Some? && !Matches(format.value, Strings.Trim(c.value)) {
        text := "Please enter a valid " + c.name + " format.";
        ok := false;
      } else if custom.Some? && !custom.value(c.value) {
        text := "Invalid value for " + c.name + ".";
        ok := false;
      } else {
        text := "";
        ariaInvalid := "false";
      }
      if ok {
        display := "none";
        ariaInvalid := "false";
      } else {
        display := "block";
        ariaInvalid := "true";
      }
      feedback := feedback[i := Feedback(text, display, ariaInvalid)];
    }

    /** The blur listener: file and hidden inputs have none; every other
        control is validated with its name's regex. */
    method OnBlur(i: nat)
      requires Valid() && i < |controls|
      modifies this
      ensures Valid() && controls == old(controls) && mailtoRecipient == old(mailtoRecipient)
      ensures CheckedOnBlur(controls[i]) ==>
        feedback == old(feedback)[i := FeedbackFor(NamedRegexVerdict(controls[i]), controls[i])]
      ensures !CheckedOnBlur(controls[i]) ==> feedback == old(feedback)
    {
      if CheckedOnBlur(controls[i]) {
        var _ := ValidateField(i, FormatFor(controls[i].name), None);
      }
    }

    /** The submit handler: every control except file inputs is validated,
        with no short cut after a failure, and the results are and-ed. Only a
        fully valid form records the mail recipient, resets the controls to
        their default values and opens the modal. */
    method Submit() returns (accepted: bool)
      requires Valid()
      modifies this, modal
      ensures Valid() && |controls| == |old(controls)|
      ensures accepted == FormValid(old(controls))
      ensures forall i :: 0 <= i < |feedback| ==> feedback[i] == SubmitFeedback(old(controls)[i], old(feedback)[i])
      ensures accepted ==> modal.IsOpen()
      ensures accepted ==> mailtoRecipient == FirstValueNamed(old(controls), "email")
      ensures accepted ==> forall i :: 0 <= i < |controls| ==>
        controls[i] == old(controls)[i].(value := old(controls)[i].defaultValue)
      ensures !accepted ==> controls == old(controls) && mailtoRecipient == old(mailtoRecipient)
      ensures !accepted ==> unchanged(modal)
    {
      var isFormValid := true;
      var i := 0;
      while i < |controls|
        invariant 0 <= i <= |controls|
        invariant Valid() && controls == old(controls) && mailtoRecipient == old(mailtoRecipient)
        invariant unchanged(modal)
        invariant isFormValid == forall j :: 0 <= j < i ==> PassesSubmit(controls[j])
        invariant forall j :: 0 <= j < i ==> feedback[j] == SubmitFeedback(controls[j], old(feedback)[j])
        invariant forall j :: i <= j < |controls| ==> feedback[j] == old(feedback)[j]
      {
        if CheckedOnSubmit(controls[i]) {
          var ok := ValidateField(i, FormatFor(controls[i].name), None);
          if !ok {
            isFormValid := false;
          }
        }
        i := i + 1;
      }
      accepted := isFormValid;
      if accepted {
        mailtoRecipient := FirstValueNamed(controls, "email");
        var cs := controls;
        controls := seq(|cs|, j requires 0 <= j < |cs| => cs[j].(value := cs[j].defaultValue));
        modal.Open();
      }
    }

    /** The submit handler followed by its last step, moving the focus to the
        modal's close button: on success the control that had the focus
        (`focused`, if any) loses it, and its blur handler then validates its
        reset value. Every other control keeps the submit handler's feedback. */
    method SubmitWithFocus(focused: Option<nat>) returns (accepted: bool)
      requires Valid() && (focused.Some? ==> focused.value < |controls|)
      modifies this, modal
      ensures Valid() && |controls| == |old(controls)|
      ensures accepted == FormValid(old(controls))
      ensures accepted ==> modal.IsOpen() && mailtoRecipient == FirstValueNamed(old(controls), "email")
      ensures accepted ==> forall i :: 0 <= i < |controls| ==>
        controls[i] == old(controls)[i].(value := old(controls)[i].defaultValue)
      ensures forall i :: 0 <= i < |feedback| && !(accepted && focused == Some(i) && CheckedOnBlur(controls[i])) ==>
        feedback[i] == SubmitFeedback(old(controls)[i], old(feedback)[i])
      ensures accepted && focused.Some? && CheckedOnBlur(controls[focused.value]) ==>
        feedback[focused.value] == FeedbackFor(NamedRegexVerdict(controls[focused.value]), controls[focused.value])
      ensures !accepted ==> controls == old(controls) && mailtoRecipient == old(mailtoRecipient) && unchanged(modal)
    {
      accepted := Submit();
      if accepted && focused.Some? {
        OnBlur(focused.value);
      }
    }

    /** `closeModal` as the page runs it: the modal closes and the focus moves
        to the form's first input, so the control that had the focus
        (`blurred`, if any) runs its blur handler. When the first input itself
        had the focus nothing loses it, and the caller passes `None`. */
    method CloseModal(blurred: Option<nat>)
      requires Valid() && (blurred.Some? ==> blurred.value < |controls|)
      modifies this, modal
      ensures Valid() && modal.IsClosed()
      ensures controls == old(controls) && mailtoRecipient == old(mailtoRecipient)
      ensures blurred.Some? && CheckedOnBlur(controls[blurred.value]) ==>
        feedback == old(feedback)[blurred.value := FeedbackFor(NamedRegexVerdict(controls[blurred.value]), controls[blurred.value])]
      ensures !(blurred.Some? && CheckedOnBlur(controls[blurred.value])) ==> feedback == old(feedback)
    {
      modal.Close();
      if blurred.Some? {
        OnBlur(blurred.value);
      }
    }

    /** The window's keydown listener: Escape while the modal's `display` is
        "flex" runs `closeModal`, including its focus move and the blur it
        fires; any other key press changes nothing. */
    method OnKeydown(key: string, blurred: Option<nat>)
      requires Valid() && (blurred.Some? ==> blurred.value < |controls|)
      modifies this, modal
      ensures Valid() && controls == old(controls) && mailtoRecipient == old(mailtoRecipient)
      ensures key == "Escape" && old(modal.display) == "flex" ==> modal.IsClosed()
      ensures key == "Escape" && old(modal.display) == "flex" && blurred.Some? && CheckedOnBlur(controls[blurred.value]) ==>
        feedback == old(feedback)[blurred.value := FeedbackFor(NamedRegexVerdict(controls[blurred.value]), controls[blurred.value])]
      ensures !(key == "Escape" && old(modal.display) == "flex" && blurred.Some? && CheckedOnBlur(controls[blurred.value])) ==>
        feedback == old(feedback)
      ensures !(key == "Escape" && old(modal.display) == "flex") ==> unchanged(modal)
    {
      if key == "Escape" && modal.display == "flex" {
        CloseModal(blurred);
      }
    }
  }

  /** `FormData.get(name)`: the value of the first control with that name. */
  function FirstValueNamed(cs: seq<Control>, name: string): (r: Option<string>)
    ensures r.None? <==> forall i :: 0 <= i < |cs| ==> cs[i].name != name
    ensures r.Some? ==> exists i :: 0 <= i < |cs| && cs[i].name == name && cs[i].value == r.value
                                    && forall j :: 0 <= j < i ==> cs[j].name != name
  {
    if cs == [] then None
    else if cs[0].name == name then Some(cs[0].value)
    else
      var r := FirstValueNamed(cs[1..], name);
      assert r.Some? ==> exists i :: 0 <= i < |cs| && cs[i].name == name && cs[i].value == r.value
                                    && forall j :: 0 <= j < i ==> cs[j].name != name by {
        if r.Some? {
          var k :| 0 <= k < |cs[1..]| && cs[1..][k].name == name && cs[1..][k].value == r.value
                   && forall j :: 0 <= j < k ==> cs[1..][j].name != name;
          assert forall j :: 0 <= j < k + 1 ==> cs[j].name != name by {
            forall j | 0 <= j < k + 1 ensures cs[j].name != name {
              if j > 0 { assert cs[j] == cs[1..][j - 1]; }
            }
          }
        }
      }
      r
  }
}
