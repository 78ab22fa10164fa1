# Recruitment portal: form validation and form state

This project is a Dafny model of the application form on the recruitment
portal's home page (`src/app/page.tsx`). The page keeps two pieces of state:

- the form record: name, registration number, e-mail, phone number,
  department, year, domain and the selected resume file;
- an error map from field to message.

It handles three events:

- an edit of one input (`handleChange`) replaces one field of the record;
- a validation pass (`validateForm`) runs five regular-expression checks. It
  builds a fresh error map holding one fixed message per failed check,
  installs that map, and reports whether it is empty;
- a submit (`handleSubmit`) validates, then reports success or asks for
  corrections.

The model has four modules:

- `JsRegex` (`regex.dfy`) covers the part of ECMAScript regular expressions
  that the checks use. A pattern is anchored at both ends and made of literal
  characters and `[class]+` terms. Class entries are ranges, single
  characters and the escapes `\d`, `\w`, `\s`. `Matches` answers what
  `RegExp.prototype.test` answers for such a pattern. Lemmas characterise
  `^[c]+$`, a literal, and `^[c]+w$`.
- `FormValidation` (`validation.dfy`) holds the form record and the five
  patterns and messages. Each pattern is written term for term as in the
  source. The file also holds `Validate`, the error map of one pass, built by
  the same five conditional steps in the same order. Lemmas prove that each
  check accepts exactly what a plain predicate describes, for example
  "non-empty, only ASCII letters and whitespace". They also prove which keys
  the error map then holds.
- `RecruitmentPage` (`controller.dfy`) holds the `FormController` class, with
  the fields `formData` and `errors` and the methods `HandleChange`,
  `ValidateForm` and `HandleSubmit`.
- `FormScenarios` (`scenarios.dfy`) holds sample applications and what a
  validation pass and a submit do with them.

Two points where the model follows the code rather than a reading of the form:

- `domain` is plain text. The select offers four values, but the record types
  `domain` as `string`, and `handleChange` stores whatever the input reports.
- `year`, `domain` and `resume` are never validated, although the page marks
  them `required` for the browser.

## Model

| member | source | states |
|---|---|---|
| JsRegex.PlusAloneMatches | src/app/page.tsx:42 | an anchored `^[c]+$` accepts a string iff it is non-empty and every character is in class `c` |
| JsRegex.LiteralMatches | src/app/page.tsx:52 | a literal pattern such as `@srmist\.edu\.in` matches exactly its own text |
| JsRegex.PlusThenLiteralMatches | src/app/page.tsx:52 | `^[c]+w$` accepts `s` iff `s` is longer than `w`, ends with `w`, and every character before that suffix is in `c`; the split point is fixed at `\|s\| - \|w\|` |
| FormValidation.SetChangesOnlyThatField | src/app/page.tsx:32-35 | replacing field `f` of the record gives `f` the new value and leaves every other field unchanged |
| FormValidation.InitialFormData | src/app/page.tsx:17-26 | the initial record has every text field empty, `domain` equal to `R&D` and no resume |
| FormValidation.LettersClassHas | src/app/page.tsx:42 | `[a-zA-Z\s]` holds exactly the ASCII letters and the ECMAScript whitespace and line terminators |
| FormValidation.UpperAlnumClassHas | src/app/page.tsx:47 | `[A-Z0-9]` holds exactly the capital ASCII letters and the digits |
| FormValidation.LocalPartClassHas | src/app/page.tsx:52 | `[\w-.]` holds exactly `A-Z`, `a-z`, `0-9`, `_`, `-` and `.`; the hyphen next to `\w` is literal |
| FormValidation.DigitClassHas | src/app/page.tsx:57 | `\d` holds exactly the ASCII digits |
| FormValidation.LettersCheck | src/app/page.tsx:42-43 | the name (and department) check passes iff the text is non-empty and all ASCII letters or whitespace |
| FormValidation.WhitespaceOnlyPasses | src/app/page.tsx:42-43 | text made only of whitespace passes the name check, even though the message asks for letters |
| FormValidation.RegistrationCheck | src/app/page.tsx:47-48 | the registration-number check passes iff the text is non-empty and all capital letters or digits |
| FormValidation.LowercaseRegistrationFails | src/app/page.tsx:47-48 | one lower-case letter anywhere makes the registration-number check fail |
| FormValidation.PhoneCheck | src/app/page.tsx:57-58 | the phone check passes iff the text is non-empty and all ASCII digits |
| FormValidation.PhoneNumberUnbounded | src/app/page.tsx:57 | the phone check bounds no length: a run of any positive number of digits passes |
| FormValidation.LocalPartThenLiteral | src/app/page.tsx:52 | `^[\w-.]+w$` accepts `s` iff `s` is a non-empty local part over `[A-Za-z0-9_.-]` followed by `w` |
| FormValidation.MailCheck | src/app/page.tsx:52-53 | the e-mail check passes iff the address is `L + "@srmist.edu.in"` for a non-empty local part `L` over `[A-Za-z0-9_.-]` |
| FormValidation.CampusMailShape | src/app/page.tsx:52 | an accepted address is longer than the suffix, ends with `@srmist.edu.in`, and what precedes the suffix is a local part; and the converse |
| FormValidation.CampusMailSplit | src/app/page.tsx:52 | an accepted address contains exactly one `@`, right after the local part, so the local part is unique |
| FormValidation.EmptyFailsEveryCheck | src/app/page.tsx:42-62 | the empty string fails each of the five checks |
| FormValidation.ValidateHas | src/app/page.tsx:39-64 | a field is a key of the error map iff it is one of the five checked fields and fails its check; its entry is that field's fixed message |
| FormValidation.PassesIff | src/app/page.tsx:41-64 | each field passes its check iff its text has the accepted shape; `year`, `domain` and `resume` always pass |
| FormValidation.ValidateKeys | src/app/page.tsx:39-64 | the error map has a key exactly for the fields whose text is not in its accepted shape, each with its fixed message; `year`, `domain` and `resume` never get a key |
| FormValidation.ValidateEmptyIff | src/app/page.tsx:66-69 | a validation pass finds no error iff all five fields have their accepted shapes |
| FormValidation.SingleViolation | src/app/page.tsx:39-64 | when exactly one field is malformed, the error map is that field's message alone; all five checks run, with no short-circuit |
| FormValidation.ValidateIgnoresUnchecked | src/app/page.tsx:39-64 | changing `year`, `domain` or `resume` never changes the error map |
| FormValidation.InitialFailsEveryCheck | src/app/page.tsx:17-26 | validating the initial record reports all five checked fields |
| RecruitmentPage.FirstFile | src/app/page.tsx:34 | `files?.[0] ?? null` is none when the list is absent or empty, and otherwise is the first file |
| RecruitmentPage.EventValue | src/app/page.tsx:34 | a file input stores its first selected file (or none), and any other input stores its text value; either way the value fits the field |
| RecruitmentPage.AlertText | src/app/page.tsx:77-80 | the success alert is shown exactly for an accepted submit and the correction alert exactly for a rejected one |
| RecruitmentPage.Submit | src/app/page.tsx:75-81 | a submit is accepted, logging the current record, iff validation finds no error |
| RecruitmentPage.FormController.constructor | src/app/page.tsx:17-28 | the page starts with the initial record and an empty error map |
| RecruitmentPage.FormController.HandleChange | src/app/page.tsx:30-36 | an edit sets the named field to the event's value, leaves every other field as it was, and leaves the error map untouched |
| RecruitmentPage.FormController.ValidateForm | src/app/page.tsx:38-70 | the error map is replaced wholesale by the map of the current record, with no stale entries; the result is true iff that map is empty; the record is unchanged |
| RecruitmentPage.FormController.HandleSubmit | src/app/page.tsx:72-82 | runs a validation pass, then returns acceptance with the record iff that pass found no error; the record is unchanged either way |
| FormScenarios.SampleFieldsOk | src/app/page.tsx:42-63 | every checked field of a complete sample application has its accepted shape |
| FormScenarios.SampleAccepted | src/app/page.tsx:66-81 | the sample yields an empty error map and is accepted |
| FormScenarios.DigitInNameRejected | src/app/page.tsx:42-43 | the name `John3` yields exactly `{name: "Name should contain only letters."}` and a rejection |
| FormScenarios.ForeignMailRejected | src/app/page.tsx:52-53 | the address `john@gmail.com` yields exactly the e-mail message |
| FormScenarios.LowercaseRegistrationRejected | src/app/page.tsx:47-48 | a lower-case registration number yields exactly the registration-number message |
| FormScenarios.DashedPhoneRejected | src/app/page.tsx:57-58 | the phone number `98-76-54` yields exactly the phone message |
| FormScenarios.DefaultDomainAccepted | src/app/page.tsx:24 | a record left at the default domain `R&D` is accepted, because the domain is not checked |
| FormScenarios.CorrectAndResubmit | src/app/page.tsx:30-82 | filling in the form with a bad name is rejected; correcting the name leaves its error in place until the next pass; resubmitting is accepted |

## Left out

- The page's JSX, styling and navigation bar are presentation only and are not modelled.
- `alert` and `console.log` are output. A submit returns a `SubmitOutcome` instead: the logged record on success, and the alert text through `AlertText`.
- `e.preventDefault()` is event plumbing and is not modelled.
- The browser's own constraint checks are not modelled: the `required` attributes, `type="email"`, `type="tel"` and the four options of the domain select. They are enforced outside this code.
- A `File` is an opaque handle (`FileRef`); its contents are never read.
- React's asynchronous state updates are not modelled: each event runs as one atomic step on the current state.
- RecruitmentPage.FormController.HandleChange requires that the input be a file input exactly when it is named `resume`, which holds for every input the page renders. An event naming a property outside the record cannot be expressed, because `name` is a `Field`.
- JavaScript strings are UTF-16 code units; the model uses Unicode scalar values. No class in the five patterns contains a surrogate or a character outside the Basic Multilingual Plane, so every accept/reject answer is the same. Lone surrogates cannot be written in the model.
