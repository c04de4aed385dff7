# Contact-form validator

A Dafny model of the client-side contact-form script in `assets/js/custom.js`.
The script binds eight named inputs: `vardas`, `pavarde`, `email`, `telefonas`,
`adresas`, `dizainas`, `turinys` and `patogumas`. It validates each field as it
is edited and formats the phone number on every keystroke. It enables the submit
button only while every field passes. On submit it runs that check once more
before reading the trimmed values.

The model has four modules:

- `Text` (text.dfy): whitespace as `trim` and `\s` see it, ASCII digits, trimming
  (`Trim`), the digit projection `replace(/\D/g, "")` (`Digits`) and decimal
  numerals.
- `Rules` (rules.dfy): the rules of `validateField` as pure functions. These are
  the name, email, address, rating and phone rules and the dispatcher `Check`.
  `Check` returns `None` when no error message is set, or `Some(error)`
  otherwise. Each `Error` has its own non-empty Lithuanian message.
- `PhoneFormat` (phone.dfy): the rewrite done by `handlePhoneInput`, as the pure
  function `NormalizePhone`, with its properties. The properties are the shape
  of its output, idempotence, keeping validity, and the canonical form of valid
  numbers.
- `ContactForm` (form.dfy): the page's mutable state as the class `Form`.
  - `inputs` maps each bound field to its current value. A field with no entry
    has no bound input.
  - `shown` is the error display. It maps a field to the error shown beside it.
  - `submitEnabled` is the submit button's state, and `hasSubmitButton` says
    whether the page has a button at all.

  The methods are the script's functions and event handlers. The loop of
  `updateSubmitState` stays a loop (`Form.UpdateSubmitState`) that calls
  `Form.ValidateField(name, false)` for every field.

Two behaviours of the script are modelled as written:

- The submit guard is `if (submitBtn && submitBtn.disabled) return;`. Without a
  submit button it stops nothing, so the form is read and submitted even when
  fields are invalid (`ContactForm.SubmitWithoutButtonSkipsGuard`).
- A field with no bound input always validates. If such a field exists when the
  form is submitted, reading its `.value` throws. The model gives this outcome
  as `Crashed`.

## Model

| member | source | states |
|---|---|---|
| `Text.IsSpace` | assets/js/custom.js:44 | whitespace is the set `trim` removes and `\s` matches (lines 52 and 59). No whitespace character is a digit, `@` or `.`, so trimming never removes one of those |
| `Text.Trim` | assets/js/custom.js:44 | the trimmed value is no longer than the input and neither starts nor ends with whitespace |
| `Text.TrimCutsOnlySpace` | assets/js/custom.js:44 | the trimmed value is a contiguous slice of the input, and everything cut off on either side is whitespace |
| `Text.TrimIdempotent` | assets/js/custom.js:164-171 | trimming an already trimmed value changes nothing, so the submitted values are fixed points of trimming |
| `Text.Digits` | assets/js/custom.js:80 | the digit projection holds only ASCII digits and is no longer than the value |
| `Text.DigitsOfChar` | assets/js/custom.js:80 | a single character projects to itself when it is a digit and to nothing otherwise |
| `Text.DigitsAppend` | assets/js/custom.js:80 | the projection of two strings joined is the two projections joined. With `DigitsOfChar` this fixes the projection: every digit kept, in order, and nothing else |
| `Text.DigitsOfDigits` | assets/js/custom.js:119 | a string of digits projects to itself |
| `Text.ParseDecimal` | assets/js/custom.js:72 | a leading zero does not change a numeral's value, as with `Number("010")` |
| `Text.DigitsOfTrim` | assets/js/custom.js:80 | trimming the value before projecting its digits (line 44) does not change the digits |
| `Rules.Message` | assets/js/custom.js:93-101 | every error message is non-empty, so `!errorMessage` is true exactly when no error was set |
| `Rules.NameOk` | assets/js/custom.js:52-53 | an accepted name is non-empty and holds no digit and no `@` |
| `Rules.NameJoin` | assets/js/custom.js:51-56 | two accepted names joined by a space or a hyphen are accepted |
| `Rules.EmailPattern` | assets/js/custom.js:59 | any value matching the email pattern has at least five characters and contains both `@` and `.` |
| `Rules.EmailOk` | assets/js/custom.js:59-60 | an accepted email has at least five characters, no whitespace, and neither starts nor ends with `@` |
| `Rules.EmailOkIffPattern` | assets/js/custom.js:58-63 | the email rule accepts exactly the values matching `^[^\s@]+@[^\s@]+\.[^\s@]+$`. That means non-empty text, then `@`, then non-empty text, a `.` and non-empty text, with no whitespace and no other `@` |
| `Rules.EmailOneAt` | assets/js/custom.js:59 | an accepted email contains exactly one `@` |
| `Rules.RatingOk` | assets/js/custom.js:72-73 | an accepted rating is a non-empty string of digits |
| `Rules.RatingLeadingZero` | assets/js/custom.js:72-73 | a leading zero does not change whether a rating is accepted, so `010` passes like `10` |
| `Rules.RatingOfNumber` | assets/js/custom.js:71-76 | a decimal numeral is an accepted rating exactly when its value is between 1 and 10 inclusive |
| `Rules.PhoneShape` | assets/js/custom.js:83-85 | a digit string matching one of the three phone patterns is all digits, between 8 and 11 long |
| `Rules.PhoneOk` | assets/js/custom.js:80-86 | an accepted phone value has at least eight characters, since its digits alone number at least eight |
| `Rules.PhoneOkIff` | assets/js/custom.js:80-89 | a phone value passes exactly when its digit projection is 11 digits starting `3706`, 9 starting `86`, or 8 starting `6` |
| `Rules.RuleExamples` | assets/js/custom.js:51-76 | `Jonas` and `Žemaitė` are names and `Jonas123` is not. `a@b.co` is an email and `a@b` and `a.b@` are not. `1` and `10` are ratings and `0`, `11` and `abc` are not |
| `Rules.RuleOf` | assets/js/custom.js:51-90 | a name gets a rule (besides "required") exactly when it is one of the eight field names |
| `Rules.RuleCheck` | assets/js/custom.js:51-90 | no field rule ever reports "required", a name outside the eight fields gets no error, and the address rule fails exactly below four characters |
| `Rules.Check` | assets/js/custom.js:44-49 | a value fails with the "required" error exactly when it is empty after trimming, for every field name |
| `Rules.FieldValid` | assets/js/custom.js:42-49 | a bound field whose value is blank after trimming is not valid |
| `Rules.AllValid` | assets/js/custom.js:105-111 | all fields pass exactly when every one of the eight names is valid. Then no bound field is blank |
| `Rules.CheckTrimmed` | assets/js/custom.js:44 | validating the trimmed value gives the same verdict and message as validating the raw value |
| `Rules.CheckErrorOfField` | assets/js/custom.js:48-90 | any error other than "required" belongs to one of the eight fields and is that field's own rule error |
| `Rules.AddressLength` | assets/js/custom.js:65-69 | a non-blank address passes exactly when its trimmed length is at least 4 |
| `Rules.PhoneDependsOnDigits` | assets/js/custom.js:78-90 | two non-blank phone values with the same digits get the same result, whatever else they contain |
| `PhoneFormat.Rewrite` | assets/js/custom.js:122-128 | the rewritten digits keep being digits and never start with `86` or a bare `6`. A leading `86` or `6` always ends up as `3706` |
| `PhoneFormat.RewriteKeepsRest` | assets/js/custom.js:122-128 | only the prefix changes. After a leading `86` the remaining digits are kept, and they now follow `3706`. A bare leading `6` is kept whole behind `370`. Any other digit string is returned unchanged |
| `PhoneFormat.NormalizePhone` | assets/js/custom.js:118-135 | the new field value is a digit string with a single `+` in front exactly when the digits start with `370`. Its digits are the rewritten digits of the old value |
| `PhoneFormat.NormalizeIdempotent` | assets/js/custom.js:119-134 | formatting an already formatted value returns it unchanged |
| `PhoneFormat.NormalizeImageIsFixedPoints` | assets/js/custom.js:118-135 | a value is a possible output of the formatter exactly when the formatter leaves it unchanged |
| `PhoneFormat.RewriteKeepsShape` | assets/js/custom.js:122-128 | rewriting a digit string keeps it valid when it was valid and invalid when it was invalid, under the three phone patterns of lines 83-85 |
| `PhoneFormat.PhoneValidIffShape` | assets/js/custom.js:78-89 | the phone field passes exactly when the digits of its raw value match one of the three patterns. A blank value has no digits and matches none |
| `PhoneFormat.NormalizeKeepsValidity` | assets/js/custom.js:141-145 | the phone field's value after formatting passes validation exactly when the typed value does |
| `PhoneFormat.RewriteValidIsCanonical` | assets/js/custom.js:122-128 | each of the three valid digit shapes rewrites to `3706` followed by its last seven digits |
| `PhoneFormat.NormalizeShapeIsCanonical` | assets/js/custom.js:118-135 | a value whose digits have a valid shape is formatted as `+3706` followed by its last seven digits |
| `PhoneFormat.NormalizeValidIsCanonical` | assets/js/custom.js:130-131 | every valid phone value, typed as `3706…`, `86…` or `6…` with any separators, is formatted as `+3706xxxxxxx` |
| `PhoneFormat.NormalizeCanBlankTheField` | assets/js/custom.js:119-133 | `abc` fails as a bad number, but after formatting it is blank and fails as "required". Validity is kept but the message is not |
| `ContactForm.Snapshot` | assets/js/custom.js:163-172 | the record has one entry per field, in field order, and each entry is that field's trimmed value |
| `ContactForm.SubmitResult` | assets/js/custom.js:156-172 | submission is refused exactly when there is a button and some field fails. Values are read and submitted exactly when that guard passes and every field has a bound input. The submitted values are then each field's trimmed value, in field order |
| `ContactForm.SubmittedValuesPass` | assets/js/custom.js:160-172 | with a submit button, the submitted record holds each field's trimmed value, in field order. Each value is already trimmed and passes its own field's rule |
| `ContactForm.SubmitWithoutButtonSkipsGuard` | assets/js/custom.js:161 | without a submit button, a form whose fields are all blank fails validation and is still submitted |
| `ContactForm.Display` | assets/js/custom.js:93-99 | the field shows an error exactly when there is one, and shows that error. Every other field's display is unchanged |
| `ContactForm.DisplayStaysConsistent` | assets/js/custom.js:93-99 | storing a new value in one field and then showing that field's result keeps every displayed error equal to its field's current error |
| `ContactForm.Form.constructor` | assets/js/custom.js:6-18 | at page load the inputs are bound, no error is shown and the button starts disabled |
| `ContactForm.Form.ValidateField` | assets/js/custom.js:41-102 | the result is true exactly when the name has no bound input or its value passes, whatever `showErrors` is. With `showErrors` the field's error is shown or cleared. Otherwise the display is unchanged, and an unbound name never touches it |
| `ContactForm.Form.UpdateSubmitState` | assets/js/custom.js:104-115 | the button is enabled exactly when every field passes, the error display is unchanged, and without a button nothing is enabled |
| `ContactForm.Form.HandlePhoneInput` | assets/js/custom.js:118-135 | the phone input's value becomes the formatted form of the value the event carries, and nothing else changes |
| `ContactForm.Form.ValidateAndRefresh` | assets/js/custom.js:143-144 | after the field's verdict is shown and the button recomputed, every shown error is current. The field's error is shown or cleared, and the button is enabled exactly when all fields pass |
| `ContactForm.Form.OnPhoneInput` | assets/js/custom.js:140-145 | the phone field stores the formatted value, whose validity equals that of the typed value. Its error is shown or cleared, every shown error stays current, and the button is enabled exactly when all fields pass |
| `ContactForm.Form.OnFieldInput` | assets/js/custom.js:146-151 | a field other than the phone stores what was typed. Its error is shown or cleared, every shown error stays current, and the button is enabled exactly when all fields pass |
| `ContactForm.Form.OnInput` | assets/js/custom.js:136-153 | an input event on a bound field runs the listener registered for it. The phone field stores the formatted value and any other field stores what was typed. Validity equals that of the typed value |
| `ContactForm.Form.Submit` | assets/js/custom.js:156-172 | the final check sets the button state and leaves the display alone. The outcome is `SubmitResult` of the current values: refused, submitted with the trimmed values, or crashed on an unbound field |

## Left out

- DOM work is not modelled: CSS class toggling, the creation and insertion of error nodes, and the wiring of event listeners (lines 20-38 and 137-154). The error display is the map `shown`. The event wiring becomes `Form.OnInput`, which is called for a bound field only and runs `Form.OnPhoneInput` or `Form.OnFieldInput`.
- The browser's storing of the typed text in the input is a parameter of `Form.OnInput`. `Form.HandlePhoneInput` takes that text as the event's value.
- The `form.turinis || form.turinys` fallback (line 13) is a DOM lookup. The model takes the set of bound inputs as given.
- `console.log` (line 174) is output only.
- The rating average `((diz+tur+pat)/3).toFixed(1)` (line 179) is floating-point formatting and is not modelled.
- The `innerHTML` summary (lines 181-198) and `showSuccessPopup` with its 2.5-second timer (lines 204-212) are presentation and timing. The model ends with the submitted record.
- Rules.RatingOk: only decimal numerals are accepted. JavaScript's `Number(value)` also accepts forms such as `5.5`, `+5`, `1e1` and `0x5`, and the model rejects them.
- Rules.AddressLength: length is counted in Unicode scalar values. JavaScript's `length` counts UTF-16 code units, so a character outside the Basic Multilingual Plane counts once here and twice in the browser.
- Text.IsSpace: the whitespace set is the fixed list of ECMAScript WhiteSpace and LineTerminator characters of current Unicode. A different Unicode version's space separators are not followed.
