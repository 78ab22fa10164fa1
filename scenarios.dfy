/** Concrete runs of the validation pass and of a submit attempt on sample
    applications. */
module FormScenarios {
  import opened JsRegex
  import opened FormValidation
  import opened RecruitmentPage

  /** A complete, well-formed application. */
  const Sample: FormData := FormData(
    "John Doe", "RA2011003010123", "john.doe@srmist.edu.in", "9876543210",
    "Computer Science", "3", "WEB DEV", None)

  /** Every field of the sample is in its accepted shape. */
  lemma SampleFieldsOk()
    ensures LettersOrSpace(Sample.name) && UpperAlnum(Sample.registrationNumber)
    ensures CampusMail(Sample.mailId) && AllDigits(Sample.phoneNumber)
    ensures LettersOrSpace(Sample.department)
  {
    assert IsLocalPart("john.doe") && Sample.mailId == "john.doe" + MailSuffix;
  }

  /** The sample passes every check and is accepted. */
  lemma SampleAccepted()
    ensures Validate(Sample) == map[]
    ensures Submit(Sample) == Accepted(Sample)
  {
    SampleFieldsOk();
    ValidateKeys(Sample);
  }

  /** A digit in the name is reported against the name alone. */
  lemma DigitInNameRejected()
    ensures Validate(Sample.(name := "John3")) == map[Name := NameMessage]
    ensures Submit(Sample.(name := "John3")) == Rejected
  {
    var fd := Sample.(name := "John3");
    SampleFieldsOk();
    assert !IsAsciiLetter(fd.name[4]) && !IsJsWhiteSpace(fd.name[4]);
    forall f | f != Name ensures FieldOk(fd, f) {
      assert FieldOk(Sample, f);
    }
    SingleViolation(fd, Name);
    assert Name in Validate(fd);
  }

  /** An address outside `srmist.edu.in` is reported against the e-mail. */
  lemma ForeignMailRejected()
    ensures Validate(Sample.(mailId := "john@gmail.com")) == map[MailId := MailMessage]
  {
    var fd := Sample.(mailId := "john@gmail.com");
    SampleFieldsOk();
    CampusMailShape(fd.mailId);
    forall f | f != MailId ensures FieldOk(fd, f) {
      assert FieldOk(Sample, f);
    }
    SingleViolation(fd, MailId);
  }

  /** A lower-case registration number is reported against that field. */
  lemma LowercaseRegistrationRejected()
    ensures Validate(Sample.(registrationNumber := "ra2011003010123"))
         == map[RegistrationNumber := RegistrationMessage]
  {
    var fd := Sample.(registrationNumber := "ra2011003010123");
    SampleFieldsOk();
    assert !IsAsciiUpper(fd.registrationNumber[0]) && !IsAsciiDigit(fd.registrationNumber[0]);
    forall f | f != RegistrationNumber ensures FieldOk(fd, f) {
      assert FieldOk(Sample, f);
    }
    SingleViolation(fd, RegistrationNumber);
  }

  /** Dashes in the phone number are reported against that field. */
  lemma DashedPhoneRejected()
    ensures Validate(Sample.(phoneNumber := "98-76-54")) == map[PhoneNumber := PhoneMessage]
  {
    var fd := Sample.(phoneNumber := "98-76-54");
    SampleFieldsOk();
    assert !IsAsciiDigit(fd.phoneNumber[2]);
    forall f | f != PhoneNumber ensures FieldOk(fd, f) {
      assert FieldOk(Sample, f);
    }
    SingleViolation(fd, PhoneNumber);
  }

  /** The default domain `R&D` is accepted: the domain is never checked. */
  lemma DefaultDomainAccepted()
    ensures Submit(Sample.(domain := "R&D")) == Accepted(Sample.(domain := "R&D"))
  {
    SampleAccepted();
    ValidateIgnoresUnchecked(Sample, Sample.year, "R&D", Sample.resume);
  }

  /** An applicant fills in the form with a digit in the name, submits, is
      rejected, corrects the name and submits again. Correcting the field
      does not clear its error; the next validation pass does. */
  method CorrectAndResubmit() returns (first: SubmitOutcome, pending: map<Field, string>, second: SubmitOutcome)
    ensures first == Rejected
    ensures pending == map[Name := NameMessage]
    ensures second == Accepted(Sample)
  {
    var page := new FormController();
    page.HandleChange(ChangeEvent(Name, false, "John3", None));
    page.HandleChange(ChangeEvent(RegistrationNumber, false, Sample.registrationNumber, None));
    page.HandleChange(ChangeEvent(MailId, false, Sample.mailId, None));
    page.HandleChange(ChangeEvent(PhoneNumber, false, Sample.phoneNumber, None));
    page.HandleChange(ChangeEvent(Department, false, Sample.department, None));
    page.HandleChange(ChangeEvent(Year, false, Sample.year, None));
    page.HandleChange(ChangeEvent(Domain, false, Sample.domain, None));
    page.HandleChange(ChangeEvent(Resume, true, "", Some([])));
    assert page.formData == Sample.(name := "John3");
    DigitInNameRejected();
    first := page.HandleSubmit();

    page.HandleChange(ChangeEvent(Name, false, "John Doe", None));
    assert page.formData == Sample;
    pending := page.errors;

    SampleAccepted();
    second := page.HandleSubmit();
  }
}
