# College website scripts — verified model

A Dafny model of the logic inside `main.js`, the one script of a static college
website. The script wires browser events to four small pieces of logic, and
those pieces are what is modelled:

- **Fee estimator** (`FeeCalculator.dfy`). It has two fixed tables: course to
  per-term charges, and duration label to number of terms. `calculateFee`
  turns the two selector values into one of three outcomes: the prompt to
  select both, the missing-data error, or an estimate. The estimate holds
  exact integer totals and the singular/plural "term(s)" flag.
- **Application form** (`Strings.dfy`, `FieldValidation.dfy`, `ApplyPage.dfy`).
  - JavaScript's `trim` and the `\s` whitespace set.
  - The phone and email regular expressions. Each is written as a hand-coded
    predicate and proved equal to a reference reading of its regex.
  - The first-match-wins decision of `validateField`.
  - The feedback it writes: error text, error visibility and `aria-invalid`.
  - The blur handler.
  - The submit handler. It validates every non-file control with no short
    cut, and opens the confirmation modal only when all of them pass.
  - The modal's open and close transitions.
- **Navigation menu** (`Navigation.dfy`): the `open` class and
  `aria-expanded`, under toggle clicks, link clicks and resizes around the
  1024-pixel breakpoint.
- **Sponsorship button** (`SponsorshipPage.dfy`): submit stores the label and
  disables the button. The restore step puts back that exact label.

State the script changes in place is modelled as classes: the fee widget, the
application form and its modal, the navigation menu and the sponsorship
button. Their methods give the complete new state. Pure decisions are
functions, and lemmas state their properties.

Four behaviours of the code worth noting, all modelled as the code has them:

- The sponsorship restore step paints the button `PRIMARY_RED`. It does not
  bring back whatever colour the button had before.
- The blur listener is attached to every control that is neither a file nor a
  hidden input, whether it is required or not.
- A successful application submission calls `form.reset()`. This restores
  each control's default value, which need not be empty.
- A non-required `email` or `phone` control left blank still fails: its regex
  is tested on the empty string (`BlankOptionalFormattedFieldFails`).

## Model

| member | source | states |
|---|---|---|
| `FeeCalculator.CourseFees` | main.js:6-13 | The six courses and their tuition, registration, library and exam charges per term. `EstimateFromTables` and the two worked examples state what the calculator computes from it. |
| `FeeCalculator.DurationMultipliers` | main.js:15-18 | "Term" is one term and "Year" three. `YearIsThreeTerms` states the consequence. |
| `FeeCalculator.CourseOrder` | main.js:6-13 | The table's keys in declaration order, the order `Object.keys` gives. `CourseOptionsAreTheKeys` proves it lists exactly the keys, each once. |
| `FeeCalculator.PerTerm` | main.js:114 | The sum of a course's four charges for one term. `EstimateFromTables` and the worked examples state its values. |
| `FeeCalculator.Priced` | main.js:109 | The negation of the missing-data test: the course is a table key, the duration is a table key, and its multiplier is not the falsy 0. `CalculateFee` reports the error exactly when it fails for two non-empty selections. |
| `FeeCalculator.CalculateFee` | main.js:97-115 | The prompt comes exactly when a selection is empty. The error comes exactly when both are selected but the course is not a table key, or the duration is not a key or maps to the falsy 0. An estimate carries the selected names, `total == perTerm * multiplier` with multiplier at least 1, and plural exactly when the multiplier exceeds 1. |
| `FeeCalculator.EstimateFromTables` | main.js:106-119 | For every tabled course and duration, the estimate is the tuition shown, the exact sum of the four charges, that sum times the multiplier, and the plural flag `multiplier > 1`. |
| `FeeCalculator.ComputerScienceTerm` | main.js:9-16 | Computer Science for a Term gives 97000 per term and 97000 in total, singular. |
| `FeeCalculator.BusinessManagementYear` | main.js:11-17 | Business Management for a Year gives 70000 per term and 210000 in total, plural. |
| `FeeCalculator.YearIsThreeTerms` | main.js:15-17 | For every course, the Year estimate is exactly three times the Term estimate. |
| `FeeCalculator.PluralIffMoreThanOneTerm` | main.js:114-119 | On every estimate the per-term charge is positive, and "terms" is plural exactly when the total exceeds one term's charges. |
| `FeeCalculator.CourseOptionsAreTheKeys` | main.js:90-95 | The options added to the course selector are exactly the fee table's keys, each once. |
| `FeeCalculator.OfferedCoursesAreEstimated` | main.js:106-112 | Any offered course with any tabled duration gives an estimate, never the error. |
| `FeeCalculator.FeeWidget.constructor` | main.js:83-132 | Initialisation appends the table's keys in table order after the page's own options, then renders `CalculateFee` of the current selection. The selected course is one of the options or "". |
| `FeeCalculator.FeeWidget.OnCourseChange` | main.js:128 | A course change to one of the options re-renders the outcome for the new course and the unchanged duration. |
| `FeeCalculator.FeeWidget.OnDurationChange` | main.js:129 | A duration change re-renders the outcome for the unchanged course and the new duration. |
| `Strings.Trim` | main.js:153-156 | `String.prototype.trim` over JavaScript's whitespace set. Its properties are stated by `TrimSpec`, `TrimEmptyIffAllSpace`, `TrimKeepsUnpadded` and `TrimIdempotent`. |
| `Strings.TrimStartSpec` | main.js:153 | Dropping leading whitespace keeps a suffix. Everything dropped is whitespace, and what is kept does not start with whitespace. |
| `Strings.TrimEndSpec` | main.js:153 | Dropping trailing whitespace keeps a prefix. Everything dropped is whitespace, and what is kept does not end with whitespace. |
| `Strings.TrimSpec` | main.js:153-156 | `trim` returns the slice of the value between a leading and a trailing run of whitespace, and neither end of the result is whitespace. |
| `Strings.TrimEmptyIffAllSpace` | main.js:153 | A value trims to "" exactly when every character is whitespace. |
| `Strings.TrimKeepsUnpadded` | main.js:156 | A value with no whitespace at either end is its own trim. |
| `Strings.TrimIdempotent` | main.js:153-156 | Trimming a trimmed value changes nothing. |
| `Strings.IsPhone` | main.js:146 | `phoneRegex.test`, hand-coded. `PhoneMatchesPattern` proves it equal to the regex's reading. |
| `Strings.PhoneMatchesPattern` | main.js:146 | The phone check accepts a string exactly when it is "07" or "+2547" followed by exactly eight decimal digits. |
| `Strings.FirstIndex` | main.js:144 | Gives the position of the first occurrence of a character, with no earlier occurrence, or reports that the character is absent. |
| `Strings.IsEmail` | main.js:144 | `emailRegex.test`, hand-coded as a split at the first '@'. `EmailMatchesPattern` proves it equal to the regex's reading. |
| `Strings.EmailMatchesPattern` | main.js:144 | The email check accepts a string exactly when it is `a@b.c` with `a`, `b` and `c` non-empty and free of whitespace and '@'. |
| `Strings.NoDomainIsNotEmail` | main.js:144 | "abc@" is rejected. |
| `FieldValidation.Matches` | main.js:156 | `regex.test` for the form's two expressions: the email check for the email regex, the phone check for the phone regex. |
| `FieldValidation.FormatFor` | main.js:196 | A control named "email" gets the email regex, one named "phone" the phone regex, and any other none. |
| `FieldValidation.Check` | main.js:153-165 | The verdict is "required" exactly when the field is required and its value is all whitespace. |
| `FieldValidation.ValidIffEveryCheckPasses` | main.js:153-165 | A field passes exactly when each applicable check passes: not blank if required, regex on the trimmed value, custom check on the untrimmed value. |
| `FieldValidation.Precedence` | main.js:153-161 | A blank required field reports "required" whatever else is supplied. Otherwise a failing regex reports "format" whatever the custom check says. Otherwise a failing custom check reports "invalid value". |
| `FieldValidation.Message` | main.js:153-163 | The text written for each verdict. It is empty exactly when the field passes. |
| `FieldValidation.FeedbackFor` | main.js:162-173 | `aria-invalid` is "true" and the error is displayed ("block") exactly when the verdict fails. Otherwise they are "false" and "none". The error text is the verdict's message, empty exactly when the field passes. |
| `FieldValidation.NamedRegexVerdict` | main.js:182-197 | The blur and submit handlers pick the regex by the control's name and pass no custom check. So the verdict is never "invalid value", and a control named neither "email" nor "phone" can fail only as a blank required field. |
| `FieldValidation.CheckedOnBlur` | main.js:180 | A blur listener is attached exactly to controls that are neither file nor hidden inputs. `OnBlur` states what it does. |
| `FieldValidation.CheckedOnSubmit` | main.js:195 | The submit handler validates every control except file inputs. `Submit` states what it does. |
| `FieldValidation.PassesSubmit` | main.js:196-199 | A control does not clear `isFormValid` when it is a file input or passes its name's regex check. |
| `FieldValidation.FormValid` | main.js:192-200 | `isFormValid` ends true exactly when every control passes. `Submit` returns it, and `BlankRequiredBlocksSubmit` and the malformed-value lemmas state what falsifies it. |
| `FieldValidation.BlankRequiredBlocksSubmit` | main.js:153-155 | A blank required non-file control makes the form invalid, and its feedback is "<label> is required.", shown and marked invalid. |
| `FieldValidation.MalformedEmailBlocksSubmit` | main.js:195-200 | A non-file "email" control whose trimmed value is not an email makes the form invalid, whatever the other fields hold. Unless it is a blank required field, its message is the format message. |
| `FieldValidation.MalformedPhoneBlocksSubmit` | main.js:195-200 | A non-file "phone" control whose trimmed value is not a phone number makes the form invalid. Unless it is a blank required field, its message is "Please enter a valid phone format.". |
| `FieldValidation.FailedCustomCheckFeedback` | main.js:159-171 | A value that passes the required and regex checks but fails the custom check gets "Invalid value for <name>.", shown and marked invalid. |
| `FieldValidation.BlankDefaultFlaggedOnBlur` | main.js:182-185 | A required control that the reset put back to a blank default is flagged "<label> is required." when its blur handler runs. |
| `FieldValidation.AbcAtEmailBlocksSubmit` | main.js:195-200 | "abc@" in the email field makes the form invalid with the format verdict. |
| `FieldValidation.BlankOptionalFormattedFieldFails` | main.js:153-157 | A blank optional "email" or "phone" control still gets the format verdict. |
| `ApplyPage.ConfirmationModal.Open` | main.js:214-216 | Opening leaves the modal displayed ("flex"), `aria-hidden` "false" and page scrolling locked ("hidden"). |
| `ApplyPage.ConfirmationModal.Close` | main.js:224-227 | Closing leaves the modal hidden ("none"), `aria-hidden` "true" and scrolling restored (""). The state does not depend on the state before, so closing twice equals closing once. |
| `ApplyPage.ConfirmationModal.OnWindowClick` | main.js:233-237 | A window click closes the modal only when its target is the backdrop. Otherwise nothing changes. |
| `ApplyPage.ApplicationForm.ValidateField` | main.js:149-175 | Returns true exactly when `Check` passes. Only the validated control's feedback changes, and it becomes `FeedbackFor` of the verdict. |
| `ApplyPage.ApplicationForm.OnBlur` | main.js:178-186 | File and hidden controls are left alone. Any other control gets the feedback of its name's regex check, and nothing else changes. |
| `ApplyPage.ApplicationForm.Submit` | main.js:189-220 | Every non-file control, hidden ones included, gets its feedback with no short cut. The result is true exactly when all pass. Only then are the mail recipient recorded, the controls reset to their defaults and the modal opened. Otherwise controls, recipient and modal are unchanged. |
| `ApplyPage.ApplicationForm.SubmitWithFocus` | main.js:182-220 | The submit handler, then its focus move. On success the control that had the focus runs its blur handler on its reset value, and every other control keeps the submit handler's feedback. The form's validity, the reset, the recipient and the open modal are as for `Submit`. |
| `ApplyPage.ApplicationForm.CloseModal` | main.js:224-229 | The modal closes, then the control that loses the focus runs its blur handler. Only that control's feedback changes. When the form's first input already had the focus, no control loses it. |
| `ApplyPage.ApplicationForm.OnKeydown` | main.js:238-242 | Escape while the modal's `display` is "flex" runs the whole of `closeModal`: the modal closes and the control that loses the focus runs its blur handler. Any other key press changes neither the modal nor the form. |
| `ApplyPage.FirstValueNamed` | main.js:204-205 | Gives the value of the first control with the given name, or nothing when no control has it. |
| `Navigation.BoolText` | main.js:28 | A boolean attribute value is written as "true" or "false", and "true" exactly for true. |
| `Navigation.NavMenu.OnToggleClick` | main.js:26-28 | The toggle flips `open`, and `aria-expanded` then states the new value. |
| `Navigation.NavMenu.OnLinkClick` | main.js:38-43 | Below 1024 pixels a link click closes the menu and sets `aria-expanded` to "false". At 1024 or wider nothing changes. |
| `Navigation.NavMenu.OnResize` | main.js:48-52 | A resize to 1024 pixels or wider closes the menu and sets `aria-expanded` to "false". A narrower resize changes nothing. |
| `SponsorshipPage.SubmitButton.Submit` | main.js:249-258 | The handler runs exactly when the button is enabled. It shows the sent label, disables the button, paints it the secondary blue and stores the previous label for the restore step. A scheduled restore implies a disabled button. |
| `SponsorshipPage.SubmitButton.Restore` | main.js:262-266 | The restore step puts back the stored label, enables the button, paints it the primary red and clears the schedule. |
| `SponsorshipPage.SubmitThenRestore` | main.js:253-265 | Submitting an enabled button and then restoring gives back its exact label and leaves it enabled. |

## Left out

- Finding elements, attaching listeners and the page-specific initialisation (main.js:21-25, 71-79). Each controller is modelled as already bound to its elements.
- The HTML markup and colours that `calculateFee` writes, and the `en-KE` thousands grouping (`toLocaleString`, a locale library call). The model returns the values the markup shows.
- CalculateFee: a selector value naming an inherited `Object.prototype` property (such as "constructor") would be a JavaScript lookup hit. The model treats the tables as plain maps, and the selectors only offer table keys.
- The focus move of the navigation toggle (main.js:30-33) and smooth scrolling to anchors (main.js:56-68). They change nothing the model keeps. The focus moves at main.js:217 and 229 do matter: they take the focus from the control that had it, which fires that control's blur handler. `SubmitWithFocus`, `CloseModal` and `ApplicationForm.OnKeydown` model them as an `OnBlur` step after `Submit` or the modal's `Close`, with the caller naming the control that had the focus; which element holds the focus is not itself tracked.
- `alert` and `console.log`. A rejected application submission is `Submit` returning false.
- `FormData` collection, the `JSON.stringify` and `encodeURIComponent` body of the mail link, and FormData's rules for which controls it includes. Only the recipient, the first value named "email", is modelled.
- The three-second `setTimeout` delay. Submit and the later restore are two separate transitions of the sponsorship button. Its `form.reset()` and thank-you alert are not modelled.
- JavaScript strings are UTF-16 code units. The model's characters are Unicode scalar values, so a lone surrogate is not representable.
- The `customCheck` argument of `validateField` is modelled as an optional total predicate. No caller in the script passes one.
