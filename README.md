# FlyDoc contact form and page behaviour, modelled in Dafny

FlyDoc's landing page runs one script, `script.js`. This project models the
parts of it that decide something:

- the contact-form validator: `validateField`, its `trim`, its email and
  phone regular expressions, `showError`, `clearErrors` and `validateForm`;
- the submit handler and the simulated submission that disables the submit
  button, shows a spinner and restores the button when a timer fires;
- the reveal-on-scroll pass that adds `aos-animate` to elements in view;
- the navigation bar's `active` and `scrolled` classes;
- the offset a click on an in-page link scrolls to.

Modules, one per file:

- `Text` (text.dfy): `trim` and the class `\s`. Both use the ECMAScript
  WhiteSpace and LineTerminator characters (ECMA-262, sections 12.2 and 12.3).
- `Patterns` (patterns.dfy): the two regular expressions. Each is written
  twice: once as a predicate read off the pattern, once as a computed test.
  A lemma or a postcondition proves the two agree on every string.
- `Validation` (validation.dfy): `validateField`'s decision for an id, a
  `required` flag and a raw value.
- `Form` (form.dfy): the form's controls, each paired with its `<id>Error`
  element.
  - `ContactForm` is a class whose methods update the table of controls in
    place: `clearErrors`, `showError`, `validateField`, `validateForm` and
    `form.reset()`.
  - Pure functions (`ClearAll`, `Validated`, `ValidateIds`, `SubmitAttempt`)
    specify those methods, and lemmas state what they do.
- `Submission` (submission.dfy):
  - the submit button as a class, with `Start` (the synchronous half of
    `simulateFormSubmission`) and `Complete` (its timer callback);
  - a pure event model of the button: activations and timer firings;
  - the submit handler `OnSubmit`.
- `Reveal` (reveal.dfy): `isElementInViewport` and `handleScrollAnimation`,
  over an array of flags, plus a fold over any series of passes.
- `Navbar` (navbar.dfy): the three navbar handlers, as a class and as a pure
  step function over event sequences.
- `SmoothScroll` (smooth_scroll.dfy): the scroll target of a fragment link.
- `Wrappers` (wrappers.dfy): `Option`.

Geometry, viewport heights and scroll offsets are inputs, given as `real`.
The factor 0.85 is kept exact.

The model follows script.js on these points, which a reader might not
expect:

- A phone value may carry a `+` only as its first character. `555+1` is
  refused.
- On a valid result `validateField` only resets the border. Any error text
  and error visibility the control had stay as they were.
- The timer callback runs `form.reset()`. This puts back each control's
  default value, which need not be empty.
- The timer callback sets `disabled` to false. It does not restore the
  flag's earlier value.

## Model

| member | source | states |
|---|---|---|
| Text.LeadingWhitespace | script.js:124 | the count of leading characters `trim` drops: all of them whitespace, and the next one is not |
| Text.TrailingWhitespaceStart | script.js:124 | where the trailing whitespace `trim` drops begins: everything from there on is whitespace, and the character before it is not |
| Text.Trim | script.js:124 | the trimmed value is empty exactly when the raw value is all whitespace; otherwise it starts and ends with a character that is not whitespace |
| Text.TrimIsSlice | script.js:124 | the trimmed value is one slice of the raw value, and only whitespace lies on either side of it |
| Text.TrimIdempotent | script.js:124 | trimming a trimmed value changes nothing |
| Patterns.IsValidEmail | script.js:135-136 | the computed email test: the first "@" has a non-empty run of characters that are neither whitespace nor "@" before it, and the rest is such a run holding a "." with a character on either side; see EmailTestMatchesPattern for its agreement with the pattern |
| Patterns.EmailTestSound | script.js:135-136 | every value the computed email test accepts splits as local part, "@", domain, ".", top-level part, each a non-empty run of characters that are neither whitespace nor "@" |
| Patterns.EmailTestComplete | script.js:135-136 | every value that splits so is accepted by the computed test |
| Patterns.EmailTestMatchesPattern | script.js:135-136 | the computed email test and the pattern agree on every value, in both directions |
| Patterns.ValidEmailHasOneAt | script.js:135 | an accepted email address holds exactly one "@" |
| Patterns.IsValidPhone | script.js:143-144 | a value passes exactly when it is an optional leading "+" followed by one or more digits, whitespace, "-", "(" or ")"; an accepted value has no "+" after its first character; "+" alone fails |
| Validation.Decide | script.js:128-150 | on the trimmed value: "This field is required" exactly when required and empty, whatever the id; the email message exactly for a non-empty email value the pattern does not match; the phone message exactly for a non-empty phone value the phone pattern does not match; no other outcome |
| Validation.Check | script.js:122-151 | the same decision on the raw value: required-and-blank (all whitespace) first for every id; the email and phone tests on the trimmed value; every other id passes exactly when it is not required-and-blank |
| Validation.CheckSeesOnlyTrimmedValue | script.js:124 | whitespace around a value never changes the outcome |
| Validation.RequiredExamples | script.js:128-131 | an empty or all-whitespace required value fails with the required message; an empty optional value passes |
| Validation.EmailExampleValid | script.js:134-140 | "a@b.com" passes |
| Validation.EmailExampleNoAt | script.js:134-140 | "not-an-email" fails with the email message |
| Validation.EmailExampleTwoAts | script.js:134-140 | "a@b@c.com" fails with the email message |
| Validation.PhoneExamples | script.js:142-148 | an empty optional phone value and "+1 (555) 010-2030" pass; "+" alone and "555+1" fail with the phone message |
| Form.ValidatedEffect | script.js:122-157 | validateField on a control leaves the control itself unchanged; on a pass only the border is reset and the error element is left as it was; on a failure the border turns to the alert colour and the error element shows the outcome's message; validating twice is validating once |
| Form.Validated | script.js:122-157 | a control after validateField; see ValidatedEffect |
| Form.FindField | script.js:107-110 | getElementById: the position of the first control with the id, or none when no control has it |
| Form.Lookup | script.js:107-110 | one position per id, each holding a control with that id and preceded by none |
| Form.ValidateAt | script.js:114-117 | validating controls in turn keeps the table's length and every control's id, value and required flag |
| Form.ValidateAtEffect | script.js:114-117 | after validating the first n looked-up controls, exactly those controls are validated, each once however often it is named, and every other control is as it was |
| Form.ValidateAtPasses | script.js:112-119 | the running flag is true exactly when every validated control passed: there is no short-circuit |
| Form.ValidateIdsEffect | script.js:106-120 | validating a list of ids validates exactly the controls they name and passes exactly when all of those pass |
| Form.ValidateIds | script.js:106-120 | validation of the controls named by a list of ids, in order; see ValidateIdsEffect |
| Form.SubmitAttempt | script.js:76-78 | clearErrors, then validateForm; see SubmitAttemptEffect |
| Form.ClearThenValidateEffect | script.js:76-78 | after clearErrors and validation of a list of ids, a control shows an error, with its own message, exactly when it is named and fails; every other control shows no error and has a neutral border; the attempt passes exactly when no named control fails |
| Form.SubmitAttemptEffect | script.js:76-78 | the same for a submit attempt over name, email, subject and message |
| Form.PhoneNotCheckedOnSubmit | script.js:106-120 | on submit the phone control is only cleared, never validated, whatever its value |
| Form.BlankRequiredBlocksSubmit | script.js:76-82 | a blank required control among the four makes the attempt fail and shows "This field is required" beside it |
| Form.PassingAttemptShowsNoError | script.js:76-81 | after an attempt that passes no control shows an error, the phone control included |
| Form.ClearAll | script.js:93-104 | the table after clearErrors; see ClearAllEffect |
| Form.ClearAllEffect | script.js:93-104 | after clearErrors every error element is hidden and empty, every border is neutral, and no control changes; clearing twice is clearing once |
| Form.ResetAll | script.js:171 | the table after form.reset(); see ResetAllEffect |
| Form.ResetAllEffect | script.js:171 | form.reset() gives every control its default value and changes nothing else; resetting twice is resetting once |
| Form.ContactForm.ClearErrors | script.js:93-104 | the two loops leave the table equal to ClearAll of the old table |
| Form.ContactForm.ShowError | script.js:153-157 | only the given control changes: alert border, the message as error text, the error shown |
| Form.ContactForm.ValidateField | script.js:122-151 | the result is true exactly when the control's outcome is valid, and only that control changes, to Validated of it |
| Form.ContactForm.ValidateNext | script.js:114-117 | one line of validateForm extends the validation of the looked-up controls by one |
| Form.ContactForm.ValidateForm | script.js:106-120 | the new table and the result are ValidateIds of the old table over name, email, subject and message |
| Form.ContactForm.Reset | script.js:171 | the new table is ResetAll of the old one |
| Submission.Started | script.js:160-168 | the synchronous half of simulateFormSubmission; see StartedShowsSending and StartThenCompleteRestores |
| Submission.Completed | script.js:168-176 | the timer callback; see StartThenCompleteRestores |
| Submission.Step | script.js:73-83 | one activation or timer firing; see StepEffect and RunAlternates |
| Submission.StepEffect | script.js:73-83 | an enabled button activated on a valid form is Started; an invalid form leaves it as it is; a disabled button ignores activation; a timer firing completes the oldest pending submission, and does nothing when none is pending |
| Submission.StartedShowsSending | script.js:164-166 | while a submission is pending the button shows "Sending..." and the spinner and is disabled |
| Submission.StartThenCompleteRestores | script.js:159-176 | starting and completing a submission puts back the button's text and icon and leaves it enabled; an enabled button comes back exactly as it was |
| Submission.StartedTwiceEndsSending | script.js:161-174 | two starts before the first timer fires leave the button showing "Sending..." and the spinner once both timers have fired |
| Submission.RunAlternates | script.js:159-176 | under any series of activations and timer firings, a button that starts idle is always either idle with its own text and icon, or busy with one submission that will put them back |
| Submission.SubmitButton.Start | script.js:160-168 | the button's new state is Started of its old state |
| Submission.SubmitButton.Complete | script.js:168-176 | the form is reset, and the button's new state is Completed of its old state |
| Submission.OnSubmit | script.js:73-83 | the form's new table and the result are SubmitAttempt of the old table; the button is started exactly when the attempt passed and is untouched otherwise |
| Reveal.ViewportHeight | script.js:42 | innerHeight, or clientHeight when innerHeight is 0; used by HandleScrollAnimation |
| Reveal.InViewport | script.js:39-45 | top at or above 0.85 of the viewport height and bottom at or below the viewport's top; see InViewportScaled |
| Reveal.Pass | script.js:47-53 | one pass keeps the number of flags; see PassEffect |
| Reveal.Passes | script.js:55-65 | the passes on load, 100 ms later and on each scroll, in order, keep the number of flags; see PassesEffect |
| Reveal.InViewportScaled | script.js:39-45 | the in-view test is the same as 20·top ≤ 17·height with a bottom edge at or below the viewport's top |
| Reveal.PassEffect | script.js:47-53 | a pass keeps every animated element animated, animates every element in view, animates nothing else, and a second pass over the same geometry changes nothing |
| Reveal.PassesEffect | script.js:47-65 | after any series of passes an element is animated exactly when it was animated or was in view in at least one of them |
| Reveal.HandleScrollAnimation | script.js:47-53 | the flags afterwards are one Pass over the old flags, the boxes and the viewport height (innerHeight, or clientHeight when innerHeight is 0) |
| Navbar.Step | script.js:15-33 | one handler run; see StepEffect (what each event changes), ToggleTwice, InSyncPreserved and ScrolledFollowsLastScroll |
| Navbar.StepEffect | script.js:15-33 | a scroll decides `scrolled` from its own offset alone and leaves the hamburger and menu alone; a click never touches `scrolled`; a hamburger click flips both `active` classes; a link click clears both of them |
| Navbar.ToggleTwice | script.js:15-18 | two hamburger clicks undo each other |
| Navbar.InSyncPreserved | script.js:15-25 | a hamburger and a menu that start in step stay in step under any series of events |
| Navbar.ScrolledFollowsLastScroll | script.js:27-33 | `scrolled` holds exactly when the latest scroll offset is above 50, and keeps its initial value when there was no scroll |
| Navbar.NavbarView.OnHamburgerClick | script.js:15-18 | the new state is Step of the old state with a hamburger click |
| Navbar.NavbarView.OnLinkClick | script.js:20-25 | the new state is Step of the old state with a link click |
| Navbar.NavbarView.OnScroll | script.js:27-33 | the new state is Step of the old state with a scroll to the given offset |
| SmoothScroll.ScrollTarget | script.js:184-197 | nothing for "#" or for an id no element has; otherwise an offset that would put the target's top exactly the navbar's height below the viewport's top |

## Left out

- DOM lookups other than getElementById, listener registration and `DOMContentLoaded`. Controls and elements are records, arrays and class fields.
- `e.preventDefault()`. It has no effect on the modelled state.
- The timers (100 ms, 1500 ms) are explicit steps. Timers with the same delay fire in the order they were set, which the queue of pending snapshots reflects.
- `alert` and `window.scrollTo`. ScrollTarget computes the offset passed to it. The smooth animation is not modelled, nor is scrollTo's clamping of the offset to the scrollable range; a clamped scroll may leave the target elsewhere than just below the navbar.
- `getBoundingClientRect`, `innerHeight`, `clientHeight`, `offsetHeight`, `pageYOffset` and `scrollY` are inputs.
- Floating point: geometry is `real`, so the rounding of `h * 0.85` and of the offset arithmetic is not modelled.
- The drone: hover durations (script.js:208-214) and the parallax offset (script.js:216-224) are string and floating-point formatting with no decision in them.
- ValidateField, ValidateForm and the form functions assume every control has its `<id>Error` element. The page would throw if a control without one failed, because showError writes the element's text (script.js:155). A passing control without one does not throw. In the model the pairing of each control with its error element is by construction.
- ValidateForm requires that name, email, subject and message exist. The page would throw on a missing one.
- SmoothScroll.ScrollTarget looks the id up in a map of element ids. An href that is not a plain id selector (`#a.b`, or an invalid selector that makes querySelector throw) is not modelled. Duplicate ids are also not modelled: querySelector takes the first.
- Strings are sequences of code points. A lone UTF-16 surrogate is not modelled.
- Text.IsWhitespace fixes the Unicode Zs category at its current members.
- The blur handler (script.js:85-90) is ContactForm.ValidateField itself. Line 85 also selects `select` elements, which the form does not have.
- Submission.Step: the browser's refusal to activate a disabled submit button is taken as given. StartedTwiceEndsSending shows what would happen without it.
