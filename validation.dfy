/** The recruitment form's record and its five field checks: which strings each
    check accepts, which messages a failed check produces, and the error map
    that one validation pass computes from a form record. */
module FormValidation {
  import opened JsRegex

  datatype Option<T> = None | Some(value: T)

  /** A file the applicant selected. The model never looks inside it; only its
      identity matters. */
  datatype FileRef = FileRef(handle: nat)

  /** The keys of the form record. */
  datatype Field =
    | Name | RegistrationNumber | MailId | PhoneNumber | Department
    | Year | Domain | Resume

  /** The form record. `domain` is plain text: the select offers four values,
      but nothing in the component restricts what is stored. */
  datatype FormData = FormData(
    name: string,
    registrationNumber: string,
    mailId: string,
    phoneNumber: string,
    department: string,
    year: string,
    domain: string,
    resume: Option<FileRef>)

  /** What a field holds: text for every field but `resume`. */
  datatype FieldValue = Text(text: string) | File(file: Option<FileRef>)

  /** A value of the right kind for field `f`. */
  predicate FitsField(f: Field, v: FieldValue) {
    v.File? <==> f == Resume
  }

  function Get(fd: FormData, f: Field): (v: FieldValue)
    ensures FitsField(f, v)
  {
    match f
    case Name => Text(fd.name)
    case RegistrationNumber => Text(fd.registrationNumber)
    case MailId => Text(fd.mailId)
    case PhoneNumber => Text(fd.phoneNumber)
    case Department => Text(fd.department)
    case Year => Text(fd.year)
    case Domain => Text(fd.domain)
    case Resume => File(fd.resume)
  }

  /** The record with field `f` replaced by `v` (`{...prev, [f]: v}`). */
  function Set(fd: FormData, f: Field, v: FieldValue): FormData
    requires FitsField(f, v)
  {
    match f
    case Name => fd.(name := v.text)
    case RegistrationNumber => fd.(registrationNumber := v.text)
    case MailId => fd.(mailId := v.text)
    case PhoneNumber => fd.(phoneNumber := v.text)
    case Department => fd.(department := v.text)
    case Year => fd.(year := v.text)
    case Domain => fd.(domain := v.text)
    case Resume => fd.(resume := v.file)
  }

  /** Replacing one field gives it the new value and leaves the other seven
      as they were. */
  lemma SetChangesOnlyThatField(fd: FormData, f: Field, v: FieldValue)
    requires FitsField(f, v)
    ensures Get(Set(fd, f, v), f) == v
    ensures forall g :: g != f ==> Get(Set(fd, f, v), g) == Get(fd, g)
  {
  }

  /** The record the form starts with. */
  function InitialFormData(): (fd: FormData)
    ensures fd.name == fd.registrationNumber == fd.mailId == fd.phoneNumber == ""
    ensures fd.department == fd.year == ""
    ensures fd.domain == "R&D" && fd.resume == None
  {
    FormData("", "", "", "", "", "", "R&D", None)
  }

  // ---------------------------------------------------------------------------
  // The five checks, as patterns

  /** `[a-zA-Z\s]` */
  const LettersClass: CharClass := [Range('a', 'z'), Range('A', 'Z'), Space]
  /** `[A-Z0-9]` */
  const UpperAlnumClass: CharClass := [Range('A', 'Z'), Range('0', '9')]
  /** `[\w-.]`: the `-` between a class escape and `.` is a literal hyphen
      (Annex B.1.2 of ECMA-262). */
  const LocalPartClass: CharClass := [Word, Single('-'), Single('.')]
  /** `\d` */
  const DigitClass: CharClass := [Digit]

  /** The fixed tail of every accepted e-mail address (`@srmist\.edu\.in`). */
  const MailSuffix: string := "@srmist.edu.in"

  /** `^[a-zA-Z\s]+$`, used for both `name` and `department`. */
  const LettersPattern: Pattern := [Plus(LettersClass)]
  /** `^[A-Z0-9]+$` */
  const RegistrationPattern: Pattern := [Plus(UpperAlnumClass)]
  /** `^[\w-.]+@srmist\.edu\.in$` */
  const MailPattern: Pattern := [Plus(LocalPartClass)] + Literal(MailSuffix)
  /** `^\d+$` */
  const PhonePattern: Pattern := [Plus(DigitClass)]

  const NameMessage: string := "Name should contain only letters."
  const RegistrationMessage: string := "Registration number should be alphanumeric and in capital letters."
  const MailMessage: string := "Email should end with srmist.edu.in."
  const PhoneMessage: string := "Phone number should be numeric."
  const DepartmentMessage: string := "Department should contain only letters."

  /** The fields that the validation pass checks; `year`, `domain` and
      `resume` are not among them. */
  const CheckedFields: set<Field> := {Name, RegistrationNumber, MailId, PhoneNumber, Department}

  /** The rule table: pattern and message of each checked field. */
  function RulePattern(f: Field): Pattern
    requires f in CheckedFields
  {
    match f
    case Name => LettersPattern
    case RegistrationNumber => RegistrationPattern
    case MailId => MailPattern
    case PhoneNumber => PhonePattern
    case Department => LettersPattern
  }

  function Message(f: Field): string
    requires f in CheckedFields
  {
    match f
    case Name => NameMessage
    case RegistrationNumber => RegistrationMessage
    case MailId => MailMessage
    case PhoneNumber => PhoneMessage
    case Department => DepartmentMessage
  }

  /** Whether field `f` of `fd` passes its check; unchecked fields always do. */
  predicate Passes(fd: FormData, f: Field) {
    f !in CheckedFields || Matches(RulePattern(f), Get(fd, f).text)
  }

  /** One check of a validation pass: the errors so far, plus field `f`'s
      message when `f` fails its check. */
  function Record(errs: map<Field, string>, fd: FormData, f: Field): map<Field, string>
    requires f in CheckedFields
  {
    if Passes(fd, f) then errs else errs[f := Message(f)]
  }

  /** The error map of one validation pass: the five checks, each run on a
      fresh map, in the order name, registration number, e-mail, phone,
      department. */
  function Validate(fd: FormData): map<Field, string> {
    var errs := Record(map[], fd, Name);
    var errs := Record(errs, fd, RegistrationNumber);
    var errs := Record(errs, fd, MailId);
    var errs := Record(errs, fd, PhoneNumber);
    Record(errs, fd, Department)
  }

  // ---------------------------------------------------------------------------
  // What each check accepts, stated without patterns

  /** Non-empty, and only ASCII letters and whitespace. */
  predicate LettersOrSpace(s: string) {
    s != [] && forall i :: 0 <= i < |s| ==> IsAsciiLetter(s[i]) || IsJsWhiteSpace(s[i])
  }

  /** Non-empty, and only capital ASCII letters and digits. */
  predicate UpperAlnum(s: string) {
    s != [] && forall i :: 0 <= i < |s| ==> IsAsciiUpper(s[i]) || IsAsciiDigit(s[i])
  }

  /** Non-empty, and only ASCII digits; no bound on the length. */
  predicate AllDigits(s: string) {
    s != [] && forall i :: 0 <= i < |s| ==> IsAsciiDigit(s[i])
  }

  /** A character allowed before the `@`: `[A-Za-z0-9_.-]`. */
  predicate IsLocalPartChar(c: char) {
    IsWordChar(c) || c == '-' || c == '.'
  }

  predicate IsLocalPart(local: string) {
    local != [] && forall i :: 0 <= i < |local| ==> IsLocalPartChar(local[i])
  }

  /** `s` is a non-empty local part followed by `@srmist.edu.in`. */
  ghost predicate CampusMail(s: string) {
    exists local :: IsLocalPart(local) && s == local + MailSuffix
  }

  lemma LettersClassHas(c: char)
    ensures ClassHas(LettersClass, c) <==> IsAsciiLetter(c) || IsJsWhiteSpace(c)
  {
    var cls := LettersClass;
    assert ClassHas(cls, c) <==> ItemHas(cls[0], c) || ClassHas(cls[1..], c);
    assert ClassHas(cls[1..], c) <==> ItemHas(cls[1], c) || ClassHas(cls[2..], c);
    assert ClassHas(cls[2..], c) <==> ItemHas(cls[2], c) || ClassHas(cls[3..], c);
    assert cls[3..] == [];
  }

  lemma UpperAlnumClassHas(c: char)
    ensures ClassHas(UpperAlnumClass, c) <==> IsAsciiUpper(c) || IsAsciiDigit(c)
  {
    var cls := UpperAlnumClass;
    assert ClassHas(cls, c) <==> ItemHas(cls[0], c) || ClassHas(cls[1..], c);
    assert ClassHas(cls[1..], c) <==> ItemHas(cls[1], c) || ClassHas(cls[2..], c);
    assert cls[2..] == [];
  }

  lemma LocalPartClassHas(c: char)
    ensures ClassHas(LocalPartClass, c) <==> IsLocalPartChar(c)
  {
    var cls := LocalPartClass;
    assert ClassHas(cls, c) <==> ItemHas(cls[0], c) || ClassHas(cls[1..], c);
    assert ClassHas(cls[1..], c) <==> ItemHas(cls[1], c) || ClassHas(cls[2..], c);
    assert ClassHas(cls[2..], c) <==> ItemHas(cls[2], c) || ClassHas(cls[3..], c);
    assert cls[3..] == [];
  }

  lemma DigitClassHas(c: char)
    ensures ClassHas(DigitClass, c) <==> IsAsciiDigit(c)
  {
    var cls := DigitClass;
    assert ClassHas(cls, c) <==> ItemHas(cls[0], c) || ClassHas(cls[1..], c);
    assert cls[1..] == [];
  }

  /** `^[a-zA-Z\s]+$` accepts exactly the non-empty strings of letters and
      whitespace. */
  lemma LettersCheck(s: string)
    ensures Matches(LettersPattern, s) <==> LettersOrSpace(s)
  {
    PlusAloneMatches(LettersClass, s);
    forall i | 0 <= i < |s| ensures ClassHas(LettersClass, s[i]) <==> IsAsciiLetter(s[i]) || IsJsWhiteSpace(s[i]) {
      LettersClassHas(s[i]);
    }
  }

  /** `^[A-Z0-9]+$` accepts exactly the non-empty strings of capitals and
      digits. */
  lemma RegistrationCheck(s: string)
    ensures Matches(RegistrationPattern, s) <==> UpperAlnum(s)
  {
    PlusAloneMatches(UpperAlnumClass, s);
    forall i | 0 <= i < |s| ensures ClassHas(UpperAlnumClass, s[i]) <==> IsAsciiUpper(s[i]) || IsAsciiDigit(s[i]) {
      UpperAlnumClassHas(s[i]);
    }
  }

  /** A single lower-case letter anywhere makes the registration number fail. */
  lemma LowercaseRegistrationFails(s: string, i: int)
    requires 0 <= i < |s| && IsAsciiLower(s[i])
    ensures !Matches(RegistrationPattern, s)
  {
    RegistrationCheck(s);
  }

  /** `[a-zA-Z\s]+` also accepts text made of whitespace alone, although the
      message speaks only of letters. */
  lemma WhitespaceOnlyPasses(s: string)
    requires s != [] && forall i :: 0 <= i < |s| ==> IsJsWhiteSpace(s[i])
    ensures Matches(LettersPattern, s)
  {
    LettersCheck(s);
  }

  /** The phone check bounds no length: any number of digits passes. */
  lemma PhoneNumberUnbounded(n: nat)
    requires n > 0
    ensures Matches(PhonePattern, seq(n, _ => '9'))
  {
    PhoneCheck(seq(n, _ => '9'));
  }

  /** `^\d+$` accepts exactly the non-empty strings of digits. */
  lemma PhoneCheck(s: string)
    ensures Matches(PhonePattern, s) <==> AllDigits(s)
  {
    PlusAloneMatches(DigitClass, s);
    forall i | 0 <= i < |s| ensures ClassHas(DigitClass, s[i]) <==> IsAsciiDigit(s[i]) {
      DigitClassHas(s[i]);
    }
  }

  /** `^[\w-.]+w$` for any literal `w`: a non-empty local part followed by
      `w`. */
  lemma LocalPartThenLiteral(w: string, s: string)
    ensures Matches([Plus(LocalPartClass)] + Literal(w), s)
        <==> exists local :: IsLocalPart(local) && s == local + w
  {
    var n := |s| - |w|;
    PlusThenLiteralMatches(LocalPartClass, w, s);
    if Matches([Plus(LocalPartClass)] + Literal(w), s) {
      var local := s[..n];
      forall i | 0 <= i < |local| ensures IsLocalPartChar(local[i]) {
        LocalPartClassHas(local[i]);
      }
      assert s == local + w;
    }
    if exists local :: IsLocalPart(local) && s == local + w {
      var local :| IsLocalPart(local) && s == local + w;
      assert s[..n] == local && s[n..] == w;
      forall i | 0 <= i < n ensures ClassHas(LocalPartClass, s[..n][i]) {
        LocalPartClassHas(local[i]);
      }
    }
  }

  /** `^[\w-.]+@srmist\.edu\.in$` accepts exactly a non-empty local part over
      `[A-Za-z0-9_.-]` followed by `@srmist.edu.in`. */
  lemma MailCheck(s: string)
    ensures Matches(MailPattern, s) <==> CampusMail(s)
  {
    LocalPartThenLiteral(MailSuffix, s);
  }

  /** An accepted address is longer than the suffix, ends with it, and
      what precedes the suffix is a local part. */
  lemma CampusMailShape(s: string)
    ensures CampusMail(s)
        <==> |s| > |MailSuffix| && s[|s| - |MailSuffix|..] == MailSuffix
             && IsLocalPart(s[..|s| - |MailSuffix|])
  {
    var n := |s| - |MailSuffix|;
    if CampusMail(s) {
      var local :| IsLocalPart(local) && s == local + MailSuffix;
      assert s[..n] == local && s[n..] == MailSuffix;
    }
    if n > 0 && s[n..] == MailSuffix && IsLocalPart(s[..n]) {
      assert s == s[..n] + MailSuffix;
    }
  }

  /** An accepted address holds exactly one `@`, and the local part is what
      precedes it, so the split of an accepted address is unique. */
  lemma CampusMailSplit(s: string, local: string)
    requires IsLocalPart(local) && s == local + MailSuffix
    ensures s[|local|] == '@'
    ensures forall i :: 0 <= i < |s| && s[i] == '@' ==> i == |local|
    ensures forall other :: IsLocalPart(other) && s == other + MailSuffix ==> other == local
  {
    forall i | 0 <= i < |s| && s[i] == '@' ensures i == |local| {
    }
    forall other | IsLocalPart(other) && s == other + MailSuffix ensures other == local {
      assert |other| == |local|;
      assert other == s[..|local|];
    }
  }

  /** The empty string fails every one of the five checks. */
  lemma EmptyFailsEveryCheck(f: Field)
    requires f in CheckedFields
    ensures !Matches(RulePattern(f), "")
  {
    var p := RulePattern(f);
    assert p != [];
  }

  // ---------------------------------------------------------------------------
  // The error map

  /** A field is a key of the error map exactly when it is checked and fails
      its check, and then it carries that field's message. */
  lemma ValidateHas(fd: FormData, f: Field)
    ensures f in Validate(fd) <==> f in CheckedFields && !Passes(fd, f)
    ensures f in Validate(fd) ==> Validate(fd)[f] == Message(f)
  {
  }

  /** What each field must look like to pass, stated without patterns;
      `year`, `domain` and `resume` always do. */
  ghost predicate FieldOk(fd: FormData, f: Field) {
    match f
    case Name => LettersOrSpace(fd.name)
    case RegistrationNumber => UpperAlnum(fd.registrationNumber)
    case MailId => CampusMail(fd.mailId)
    case PhoneNumber => AllDigits(fd.phoneNumber)
    case Department => LettersOrSpace(fd.department)
    case Year => true
    case Domain => true
    case Resume => true
  }

  /** Each field's check accepts exactly the contents `FieldOk` describes. */
  lemma PassesIff(fd: FormData, f: Field)
    ensures Passes(fd, f) <==> FieldOk(fd, f)
  {
    match f
    case Name => LettersCheck(fd.name);
    case RegistrationNumber => RegistrationCheck(fd.registrationNumber);
    case MailId => MailCheck(fd.mailId);
    case PhoneNumber => PhoneCheck(fd.phoneNumber);
    case Department => LettersCheck(fd.department);
    case Year =>
    case Domain =>
    case Resume =>
  }

  /** The error map of a validation pass has a key for exactly the fields
      whose contents are not in their accepted shape, each with that field's
      message; `year`, `domain` and `resume` never get one. */
  lemma ValidateKeys(fd: FormData)
    ensures forall f :: f in Validate(fd) <==> !FieldOk(fd, f)
    ensures forall f :: f in Validate(fd) ==> Validate(fd)[f] == Message(f)
    ensures Year !in Validate(fd) && Domain !in Validate(fd) && Resume !in Validate(fd)
  {
    var errs := Validate(fd);
    forall f ensures (f in errs <==> !FieldOk(fd, f)) && (f in errs ==> errs[f] == Message(f)) {
      PassesIff(fd, f);
      ValidateHas(fd, f);
    }
  }

  /** A validation pass finds no error exactly when all five fields are in
      their accepted shapes. */
  lemma ValidateEmptyIff(fd: FormData)
    ensures Validate(fd) == map[]
        <==> LettersOrSpace(fd.name) && UpperAlnum(fd.registrationNumber)
             && CampusMail(fd.mailId) && AllDigits(fd.phoneNumber)
             && LettersOrSpace(fd.department)
  {
    ValidateKeys(fd);
    assert FieldOk(fd, Name) == LettersOrSpace(fd.name);
    assert FieldOk(fd, RegistrationNumber) == UpperAlnum(fd.registrationNumber);
    assert FieldOk(fd, MailId) == CampusMail(fd.mailId);
    assert FieldOk(fd, PhoneNumber) == AllDigits(fd.phoneNumber);
    assert FieldOk(fd, Department) == LettersOrSpace(fd.department);
    if Validate(fd) != map[] {
      var f :| f in Validate(fd);
    }
  }

  /** When exactly one field is not in its accepted shape, the error map
      holds that field's message and nothing else. */
  lemma SingleViolation(fd: FormData, g: Field)
    requires !FieldOk(fd, g)
    requires forall f :: f != g ==> FieldOk(fd, f)
    ensures g in CheckedFields
    ensures Validate(fd) == map[g := Message(g)]
  {
    ValidateKeys(fd);
    assert Validate(fd).Keys == {g};
  }

  /** `year`, `domain` and `resume` play no part in validation. */
  lemma ValidateIgnoresUnchecked(fd: FormData, year: string, domain: string, resume: Option<FileRef>)
    ensures Validate(fd.(year := year, domain := domain, resume := resume)) == Validate(fd)
  {
    var fd' := fd.(year := year, domain := domain, resume := resume);
    forall f | f in CheckedFields ensures Passes(fd', f) == Passes(fd, f) {
      assert Get(fd', f) == Get(fd, f);
    }
  }

  /** The initial record fails all five checks. */
  lemma InitialFailsEveryCheck()
    ensures Validate(InitialFormData()).Keys == CheckedFields
  {
    forall f | f in CheckedFields ensures f in Validate(InitialFormData()) {
      EmptyFailsEveryCheck(f);
    }
  }
}
