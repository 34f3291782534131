/**
 * The decision inside the application form's `validateField`: which of its
 * four branches fires for a control, the message it writes and the feedback
 * state (error text, its visibility, `aria-invalid`) it leaves behind, and the
 * all-fields verdict the submit handler reaches.
 */
module FieldValidation {
  import opened Wrappers
  import opened Strings

  /** The two regular expressions the form hands to `validateField`. */
  datatype Format = EmailFormat | PhoneFormat

  /** `regex.test(s)` for the form's two expressions. */
  predicate Matches(f: Format, s: string) {
    match f
    case EmailFormat => IsEmail(s)
    case PhoneFormat => IsPhone(s)
  }

  /** The regex the blur and submit handlers choose by the control's name. */
  function FormatFor(name: string): (f: Option<Format>)
    ensures f == Some(EmailFormat) <==> name == "email"
    ensures f == Some(PhoneFormat) <==> name == "phone"
  {
    if name == "email" then Some(EmailFormat)
    else if name == "phone" then Some(PhoneFormat)
    else None
  }

  /** Which branch of `validateField` fired. */
  datatype Verdict = Valid | Required | BadFormat | BadValue

  /** One form control as the handlers see it: its DOM `type`, `name`, the
      text of the label before it, the `required` flag, its current value and
      the value `form.reset()` restores. */
  datatype Control = Control(kind: string, name: string, labelText: string, required: bool,
                             value: string, defaultValue: string)

  /** What `validateField` leaves on the page for one control: the error
      element's text and `display` style, and the control's `aria-invalid`.
      The empty string stands for a style or attribute not yet set. */
  datatype Feedback = Feedback(text: string, display: string, ariaInvalid: string)

  /** The first-match-wins decision of `validateField`: required and blank,
      then the regex on the trimmed value, then the custom check on the
      untrimmed value. */
  function Check(required: bool, value: string, format: Option<Format>,
                 custom: Option<string -> bool>): (v: Verdict)
    ensures v == Required <==> required && AllSpace(value)
  {
    TrimEmptyIffAllSpace(value);
    if required && Trim(value) == "" then Required
    else if format.Some? && !Matches(format.value, Trim(value)) then BadFormat
    else if custom.Some? && !custom.value(value) then BadValue
    else Valid
  }

  /** A control passes exactly when every check that applies to it passes:
      the first-match chain loses nothing. */
  lemma {:induction false} ValidIffEveryCheckPasses(required: bool, value: string,
                                                    format: Option<Format>, custom: Option<string -> bool>)
    ensures Check(required, value, format, custom) == Valid
        <==> ((required ==> !AllSpace(value))
              && (format.Some? ==> Matches(format.value, Trim(value)))
              && (custom.Some? ==> custom.value(value)))
  {
  }

  /** A blank required control reports "required" whatever regex or custom
      check is supplied, and a failing regex wins over a custom check. */
  lemma {:induction false} Precedence(required: bool, value: string,
                                      format: Option<Format>, custom: Option<string -> bool>)
    ensures required && AllSpace(value) ==> Check(required, value, format, custom) == Required
    ensures !(required && AllSpace(value)) && format.Some? && !Matches(format.value, Trim(value))
            ==> Check(required, value, format, custom) == BadFormat
    ensures !(required && AllSpace(value)) && (format.Some? ==> Matches(format.value, Trim(value)))
            && custom.Some? && !custom.value(value)
            ==> Check(required, value, format, custom) == BadValue
  {
  }

  /** The message `validateField` writes for a verdict: empty exactly for a
      passing control. */
  function Message(v: Verdict, c: Control): (m: string)
    ensures m == "" <==> v == Valid
  {
    match v
    case Valid => ""
    case Required => c.labelText + " is required."
    case BadFormat => "Please enter a valid " + c.name + " format."
    case BadValue => "Invalid value for " + c.name + "."
  }

  /** The feedback a verdict leaves: a failing control shows a non-empty
      message and is marked invalid; a passing one has its error hidden and
      cleared and is marked valid. */
  function FeedbackFor(v: Verdict, c: Control): (fb: Feedback)
    ensures fb.ariaInvalid == "true" <==> v != Valid
    ensures fb.ariaInvalid == "false" <==> v == Valid
    ensures fb.display == "block" <==> v != Valid
    ensures fb.display == "none" <==> v == Valid
    ensures fb.text == "" <==> v == Valid
    ensures fb.text == Message(v, c)
  {
    if v == Valid then Feedback(Message(v, c), "none", "false")
    else Feedback(Message(v, c), "block", "true")
  }

  /** How the blur and submit handlers validate one control: by its name's
      regex and with no custom check, so "invalid value" never comes up and a
      control named neither "email" nor "phone" can only be blank. */
  function NamedRegexVerdict(c: Control): (v: Verdict)
    ensures v != BadValue
    ensures c.name != "email" && c.name != "phone" ==> (v == Valid || v == Required)
  {
    Check(c.required, c.value, FormatFor(c.name), None)
  }

  /** The submit handler skips file inputs only. */
  predicate CheckedOnSubmit(c: Control) {
    c.kind != "file"
  }

  /** The blur handler is attached to every control that is neither a file
      input nor a hidden input. */
  predicate CheckedOnBlur(c: Control) {
    c.kind != "file" && c.kind != "hidden"
  }

  /** The feedback a control has after the submit handler's pass, given what
      it had before: file inputs keep theirs. */
  function SubmitFeedback(c: Control, prior: Feedback): Feedback {
    if CheckedOnSubmit(c) then FeedbackFor(NamedRegexVerdict(c), c) else prior
  }

  /** The form may be submitted when every control the submit handler looks
      at passes. */
  predicate FormValid(cs: seq<Control>) {
    forall i :: 0 <= i < |cs| ==> PassesSubmit(cs[i])
  }

  /** One control does not stand in the way of submission. */
  predicate PassesSubmit(c: Control) {
    CheckedOnSubmit(c) ==> NamedRegexVerdict(c) == Valid
  }

  /** A blank required control (other than a file input) blocks submission,
      and the feedback it gets names its label. */
  lemma {:induction false} BlankRequiredBlocksSubmit(cs: seq<Control>, i: nat)
    requires i < |cs| && CheckedOnSubmit(cs[i]) && cs[i].required && AllSpace(cs[i].value)
    ensures !FormValid(cs)
    ensures FeedbackFor(NamedRegexVerdict(cs[i]), cs[i]) == Feedback(cs[i].labelText + " is required.", "block", "true")
  {
  }

  /** A field named "email" whose trimmed value is not an email address blocks
      submission, whatever the other fields hold; unless it is a blank required
      field its message is the format message. */
  lemma {:induction false} MalformedEmailBlocksSubmit(cs: seq<Control>, i: nat)
    requires i < |cs| && CheckedOnSubmit(cs[i]) && cs[i].name == "email" && !IsEmail(Trim(cs[i].value))
    ensures !FormValid(cs)
    ensures !(cs[i].required && AllSpace(cs[i].value)) ==>
      FeedbackFor(NamedRegexVerdict(cs[i]), cs[i]).text == "Please enter a valid email format."
  {
  }

  /** A field named "phone" whose trimmed value is not a phone number blocks
      submission; unless it is a blank required field its message is the
      phone format message. */
  lemma {:induction false} MalformedPhoneBlocksSubmit(cs: seq<Control>, i: nat)
    requires i < |cs| && CheckedOnSubmit(cs[i]) && cs[i].name == "phone" && !IsPhone(Trim(cs[i].value))
    ensures !FormValid(cs)
    ensures !(cs[i].required && AllSpace(cs[i].value)) ==>
      FeedbackFor(NamedRegexVerdict(cs[i]), cs[i]).text == "Please enter a valid phone format."
  {
  }

  /** A custom check that rejects a value which passed the earlier checks
      yields the "invalid value" message naming the control, shown and
      marked invalid. */
  lemma {:induction false} FailedCustomCheckFeedback(c: Control, format: Option<Format>, custom: Option<string -> bool>)
    requires !(c.required && AllSpace(c.value))
    requires format.Some? ==> Matches(format.value, Trim(c.value))
    requires custom.Some? && !custom.value(c.value)
    ensures FeedbackFor(Check(c.required, c.value, format, custom), c)
      == Feedback("Invalid value for " + c.name + ".", "block", "true")
  {
  }

  /** A control that `form.reset()` has put back to a blank default and that
      is required is flagged again as soon as the blur handler sees it. */
  lemma {:induction false} BlankDefaultFlaggedOnBlur(c: Control)
    requires CheckedOnBlur(c) && c.required && AllSpace(c.defaultValue)
    ensures var r := c.(value := c.defaultValue);
      FeedbackFor(NamedRegexVerdict(r), r) == Feedback(c.labelText + " is required.", "block", "true")
  {
  }

  /** "abc@" in the email field blocks submission with the format message. */
  lemma {:induction false} AbcAtEmailBlocksSubmit(cs: seq<Control>, i: nat)
    requires i < |cs| && CheckedOnSubmit(cs[i]) && cs[i].name == "email" && cs[i].value == "abc@"
    ensures !FormValid(cs)
    ensures NamedRegexVerdict(cs[i]) == BadFormat
  {
  }

  /** An optional email or phone field left blank still fails: its regex is
      tested against the empty string, which neither expression accepts. */
  lemma {:induction false} BlankOptionalFormattedFieldFails(c: Control)
    requires !c.required && (c.name == "email" || c.name == "phone") && AllSpace(c.value)
    ensures NamedRegexVerdict(c) == BadFormat
  {
    TrimEmptyIffAllSpace(c.value);
    assert FirstIndex("", '@') == None;
  }
}
