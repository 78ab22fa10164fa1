/** The page component's state and its three event handlers: the form record
    and the error map it holds, edits of one input, a validation pass and a
    submit attempt. Each handler runs as one atomic step. */
module RecruitmentPage {
  import opened JsRegex
  import opened FormValidation

  /** What `handleChange` reads from the input that fired: its `name`, whether
      its `type` is `"file"`, its text `value` and its `files` list (absent
      when the input has none). */
  datatype ChangeEvent = ChangeEvent(
    name: Field,
    isFile: bool,
    value: string,
    files: Option<seq<FileRef>>)

  /** Every input the page renders is a file input exactly when it is named
      `resume`. */
  predicate FromRenderedInput(ev: ChangeEvent) {
    ev.isFile <==> ev.name == Resume
  }

  /** `files?.[0] ?? null`: the first selected file, or none when the list is
      absent or empty. */
  function FirstFile(files: Option<seq<FileRef>>): (r: Option<FileRef>)
    ensures r == None <==> files == None || files.value == []
    ensures r.Some? ==> files.Some? && r.value == files.value[0]
  {
    match files
    case None => None
    case Some(list) => if list == [] then None else Some(list[0])
  }

  /** The value an event stores into its field. */
  function EventValue(ev: ChangeEvent): (v: FieldValue)
    requires FromRenderedInput(ev)
    ensures FitsField(ev.name, v)
    ensures v.File? ==> v.file == FirstFile(ev.files)
    ensures v.Text? ==> v.text == ev.value
  {
    if ev.isFile then File(FirstFile(ev.files)) else Text(ev.value)
  }

  const SuccessAlert: string := "Form submitted successfully!"
  const CorrectionAlert: string := "Please correct the errors in the form."

  /** The result of a submit attempt: the record that is logged on success, or
      a rejection. */
  datatype SubmitOutcome = Accepted(logged: FormData) | Rejected

  /** The alert shown to the user for an outcome. */
  function AlertText(o: SubmitOutcome): (text: string)
    ensures text == SuccessAlert <==> o.Accepted?
    ensures text == CorrectionAlert <==> o.Rejected?
  {
    match o
    case Accepted(_) => SuccessAlert
    case Rejected => CorrectionAlert
  }

  /** What a submit attempt yields for a record: acceptance, logging the
      record, exactly when a validation pass finds no error. */
  function Submit(fd: FormData): (o: SubmitOutcome)
    ensures o.Accepted? <==> Validate(fd) == map[]
    ensures o.Accepted? ==> o.logged == fd
  {
    if Validate(fd) == map[] then Accepted(fd) else Rejected
  }

  class FormController {
    var formData: FormData
    var errors: map<Field, string>

    /** The page as first rendered: every text field empty, `domain` set to
        `R&D`, no resume and no errors. */
    constructor ()
      ensures formData == InitialFormData()
      ensures errors == map[]
    {
      formData := InitialFormData();
      errors := map[];
    }

    /** An edit of one input replaces that field and nothing else; the error
        map is left as the last validation pass made it. */
    method HandleChange(ev: ChangeEvent)
      requires FromRenderedInput(ev)
      modifies this
      ensures formData == Set(old(formData), ev.name, EventValue(ev))
      ensures Get(formData, ev.name) == EventValue(ev)
      ensures forall g :: g != ev.name ==> Get(formData, g) == Get(old(formData), g)
      ensures errors == old(errors)
    {
      var v := EventValue(ev);
      SetChangesOnlyThatField(formData, ev.name, v);
      formData := Set(formData, ev.name, v);
    }

    /** A validation pass: all five checks run, their failures are collected
        in a fresh map that replaces the old one wholesale, and the answer is
        whether that map is empty. The form record is only read. */
    method ValidateForm() returns (ok: bool)
      modifies this
      ensures formData == old(formData)
      ensures errors == Validate(formData)
      ensures ok <==> errors == map[]
    {
      var fd := formData;
      var newErrors: map<Field, string> := map[];
      if !Matches(LettersPattern, fd.name) {
        newErrors := newErrors[Name := NameMessage];
      }
      if !Matches(RegistrationPattern, fd.registrationNumber) {
        newErrors := newErrors[RegistrationNumber := RegistrationMessage];
      }
      if !Matches(MailPattern, fd.mailId) {
        newErrors := newErrors[MailId := MailMessage];
      }
      if !Matches(PhonePattern, fd.phoneNumber) {
        newErrors := newErrors[PhoneNumber := PhoneMessage];
      }
      if !Matches(LettersPattern, fd.department) {
        newErrors := newErrors[Department := DepartmentMessage];
      }
      errors := newErrors;
      assert newErrors == Validate(fd);
      ok := |newErrors| == 0;
    }

    /** A submit attempt: a validation pass, then acceptance with the current
        record exactly when it found no error. */
    method HandleSubmit() returns (outcome: SubmitOutcome)
      modifies this
      ensures formData == old(formData)
      ensures errors == Validate(formData)
      ensures outcome == Submit(formData)
    {
      var ok := ValidateForm();
      if ok {
        outcome := Accepted(formData);
      } else {
        outcome := Rejected;
      }
    }
  }
}
