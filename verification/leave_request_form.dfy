/** The submission form: field-by-field validation into an error map, the
    change handler that edits one field and clears its message, and the
    submit handler that only hands valid data on and resets the form when
    the hand-over succeeds. */
module LeaveRequestForm {
  import opened Basics
  import opened LeaveModel
  import opened JsString
  import opened EmailPattern

  /** The seven inputs, by their `name` attribute. */
  datatype Field = EmployeeName | EmployeeEmail | StartDate | EndDate | Reason | ManagerEmail | DirectorEmail

  /** `errors`: a message per field that failed. */
  type Errors = map<Field, string>

  const NameRequired := "Çalışan adı gereklidir"
  const EmployeeEmailRequired := "Çalışan email adresi gereklidir"
  const EmailInvalid := "Geçerli bir email adresi giriniz"
  const StartRequired := "Başlangıç tarihi gereklidir"
  const EndRequired := "Bitiş tarihi gereklidir"
  const EndBeforeStart := "Bitiş tarihi başlangıç tarihinden sonra olmalıdır"
  const ReasonRequired := "İzin sebebi gereklidir"
  const ManagerEmailRequired := "Amir email adresi gereklidir"
  const DirectorEmailRequired := "Üst amir email adresi gereklidir"

  function Get(f: FormData, name: Field): string {
    match name
    case EmployeeName => f.employeeName
    case EmployeeEmail => f.employeeEmail
    case StartDate => f.startDate
    case EndDate => f.endDate
    case Reason => f.reason
    case ManagerEmail => f.managerEmail
    case DirectorEmail => f.directorEmail
  }

  /** `{ ...prev, [name]: value }`. */
  function Set(f: FormData, name: Field, value: string): FormData {
    match name
    case EmployeeName => f.(employeeName := value)
    case EmployeeEmail => f.(employeeEmail := value)
    case StartDate => f.(startDate := value)
    case EndDate => f.(endDate := value)
    case Reason => f.(reason := value)
    case ManagerEmail => f.(managerEmail := value)
    case DirectorEmail => f.(directorEmail := value)
  }

  /** The form with every field empty, as it starts and after a success. */
  const EmptyForm := FormData("", "", "", "", "", "", "")

  /** An e-mail field's message: "required" when it is blank after
      trimming, else "invalid" when the pattern test (which sees the
      untrimmed value) fails. */
  function EmailError(value: string, required: string): Option<string> {
    if Trim(value) == [] then Some(required)
    else if !IsEmailLike(value) then Some(EmailInvalid)
    else None
  }

  /** The message `validateForm` leaves for one field, if any. Each check
      writes only its own field; the end date is written twice, by the
      "required" check and then by the order check, whose conditions
      exclude each other. */
  function FieldError(f: FormData, name: Field): Option<string> {
    match name
    case EmployeeName => if Trim(f.employeeName) == [] then Some(NameRequired) else None
    case EmployeeEmail => EmailError(f.employeeEmail, EmployeeEmailRequired)
    case StartDate => if f.startDate == "" then Some(StartRequired) else None
    case EndDate =>
      if f.startDate != "" && f.endDate != "" && StrLess(f.endDate, f.startDate) then Some(EndBeforeStart)
      else if f.endDate == "" then Some(EndRequired)
      else None
    case Reason => if Trim(f.reason) == [] then Some(ReasonRequired) else None
    case ManagerEmail => EmailError(f.managerEmail, ManagerEmailRequired)
    case DirectorEmail => EmailError(f.directorEmail, DirectorEmailRequired)
  }

  const AllFields: set<Field> :=
    {EmployeeName, EmployeeEmail, StartDate, EndDate, Reason, ManagerEmail, DirectorEmail}

  lemma AllFieldsListed()
    ensures forall name: Field :: name in AllFields
  {
    forall name: Field ensures name in AllFields {
      match name
      case EmployeeName =>
      case EmployeeEmail =>
      case StartDate =>
      case EndDate =>
      case Reason =>
      case ManagerEmail =>
      case DirectorEmail =>
    }
  }

  /** The error map `validateForm` builds. */
  function ValidateForm(f: FormData): (errors: Errors)
    ensures forall name :: name in errors <==> FieldError(f, name).Some?
    ensures forall name :: name in errors ==> errors[name] == FieldError(f, name).value
  {
    AllFieldsListed();
    map name | name in AllFields && FieldError(f, name).Some? :: FieldError(f, name).value
  }

  /** When a field fails, stated independently of how the checks are
      written: blank name or reason, a missing date, an end before the
      start, an address that is blank or fails the pattern. */
  ghost predicate Fails(f: FormData, name: Field) {
    match name
    case EmployeeName => Blank(f.employeeName)
    case EmployeeEmail => !EmailAccepted(f.employeeEmail)
    case StartDate => f.startDate == ""
    case EndDate => f.endDate == "" || (f.startDate != "" && StrLess(f.endDate, f.startDate))
    case Reason => Blank(f.reason)
    case ManagerEmail => !EmailAccepted(f.managerEmail)
    case DirectorEmail => !EmailAccepted(f.directorEmail)
  }

  /** `validateForm` flags a field exactly when it fails. */
  lemma ValidateFormFlags(f: FormData, name: Field)
    ensures name in ValidateForm(f) <==> Fails(f, name)
  {
    match name
    case EmployeeEmail => EmailErrorMeaning(f.employeeEmail, EmployeeEmailRequired);
    case ManagerEmail => EmailErrorMeaning(f.managerEmail, ManagerEmailRequired);
    case DirectorEmail => EmailErrorMeaning(f.directorEmail, DirectorEmailRequired);
    case _ =>
  }

  /** The message a flagged field shows. */
  lemma ValidateFormMessages(f: FormData, name: Field)
    requires name in ValidateForm(f)
    ensures ValidateForm(f)[name] == ExpectedMessage(f, name)
  {
    match name
    case EmployeeEmail => EmailErrorMeaning(f.employeeEmail, EmployeeEmailRequired);
    case ManagerEmail => EmailErrorMeaning(f.managerEmail, ManagerEmailRequired);
    case DirectorEmail => EmailErrorMeaning(f.directorEmail, DirectorEmailRequired);
    case _ =>
  }

  /** The message a failing field shows, stated field by field. */
  function ExpectedMessage(f: FormData, name: Field): string {
    match name
    case EmployeeName => NameRequired
    case EmployeeEmail => if Blank(f.employeeEmail) then EmployeeEmailRequired else EmailInvalid
    case StartDate => StartRequired
    case EndDate => if f.endDate == "" then EndRequired else EndBeforeStart
    case Reason => ReasonRequired
    case ManagerEmail => if Blank(f.managerEmail) then ManagerEmailRequired else EmailInvalid
    case DirectorEmail => if Blank(f.directorEmail) then DirectorEmailRequired else EmailInvalid
  }

  /** An e-mail field the form accepts. */
  ghost predicate EmailAccepted(v: string) {
    !Blank(v) && RegexTest(v)
  }

  /** An e-mail field gets a message exactly when it is not accepted: the
      "required" one when blank, otherwise the "invalid" one. */
  lemma EmailErrorMeaning(v: string, required: string)
    ensures EmailError(v, required).Some? <==> !EmailAccepted(v)
    ensures EmailError(v, required).Some? ==>
      EmailError(v, required).value == if Blank(v) then required else EmailInvalid
  {
  }

  /** All checks pass: name and reason are not blank, the three addresses
      are accepted, both dates are given, and the end date is not before
      the start date. */
  ghost predicate ChecksPass(f: FormData) {
    && !Blank(f.employeeName) && !Blank(f.reason)
    && EmailAccepted(f.employeeEmail) && EmailAccepted(f.managerEmail) && EmailAccepted(f.directorEmail)
    && f.startDate != "" && f.endDate != ""
    && !StrLess(f.endDate, f.startDate)
  }

  lemma NoFieldFails(f: FormData)
    ensures (forall name: Field :: !Fails(f, name)) <==> ChecksPass(f)
  {
    if ChecksPass(f) {
      forall name: Field ensures !Fails(f, name) {
        match name
        case EmployeeName =>
        case EmployeeEmail =>
        case StartDate =>
        case EndDate =>
        case Reason =>
        case ManagerEmail =>
        case DirectorEmail =>
      }
    }
    if forall name: Field :: !Fails(f, name) {
      assert !Fails(f, EmployeeName) && !Fails(f, EmployeeEmail) && !Fails(f, StartDate);
      assert !Fails(f, EndDate) && !Fails(f, Reason) && !Fails(f, ManagerEmail) && !Fails(f, DirectorEmail);
    }
  }

  /** `validateForm()` returns true (its error map is empty) exactly when
      all checks pass. */
  lemma ValidIffChecksPass(f: FormData)
    ensures ValidateForm(f) == map[] <==> ChecksPass(f)
  {
    var e := ValidateForm(f);
    forall name: Field ensures name in e <==> Fails(f, name) {
      ValidateFormFlags(f, name);
    }
    if e != map[] {
      var name :| name in e;
    }
    NoFieldFails(f);
  }

  /** A start and end on the same day pass the date check. */
  lemma SameDayAccepted(f: FormData)
    requires f.startDate != "" && f.startDate == f.endDate
    ensures EndDate !in ValidateForm(f)
  {
    StrLessIrreflexive(f.startDate);
  }

  /** For dates from a date input the order check is calendar order: an
      accepted form never ends before it starts. */
  lemma AcceptedDatesInCalendarOrder(f: FormData)
    requires IsIsoDate(f.startDate) && IsIsoDate(f.endDate)
    ensures EndDate !in ValidateForm(f) <==> DateKey(f.startDate) <= DateKey(f.endDate)
  {
    IsoDateOrder(f.endDate, f.startDate);
  }

  /** `handleChange`: the named field takes the value, no other field
      changes, and a shown message for that field (a non-empty one) is
      replaced by "" while every other message stays. */
  function HandleChange(f: FormData, errors: Errors, name: Field, value: string): (r: (FormData, Errors))
    ensures Get(r.0, name) == value
    ensures forall other :: other != name ==> Get(r.0, other) == Get(f, other)
    ensures r.1.Keys == errors.Keys
    ensures forall other :: other in errors && other != name ==> r.1[other] == errors[other]
    ensures name in errors ==> r.1[name] == ""
  {
    var f' := Set(f, name, value);
    if name in errors && errors[name] != "" then (f', errors[name := ""]) else (f', errors)
  }

  /** What a submit leaves behind. */
  datatype SubmitOutcome = SubmitOutcome(
    data: FormData,             // the form's fields afterwards
    errors: Errors,             // the error map `validateForm` stored
    handedOver: Option<FormData>,  // the data `onSubmit` was called with
    showSuccess: bool)          // whether the success banner appears

  /** `handleSubmit`. `onSubmitThrows` says whether the awaited `onSubmit`
      rejected. */
  function HandleSubmit(f: FormData, onSubmitThrows: bool): (o: SubmitOutcome)
    ensures o.errors == ValidateForm(f)
    ensures o.handedOver.Some? <==> ValidateForm(f) == map[]
    ensures o.handedOver.Some? ==> o.handedOver.value == f
    ensures o.showSuccess <==> o.handedOver.Some? && !onSubmitThrows
    ensures o.showSuccess ==> o.data == EmptyForm
    ensures !o.showSuccess ==> o.data == f
  {
    var errors := ValidateForm(f);
    if errors != map[] then SubmitOutcome(f, errors, None, false)
    else if onSubmitThrows then SubmitOutcome(f, errors, Some(f), false)
    else SubmitOutcome(EmptyForm, errors, Some(f), true)
  }

  /** The form as it starts, or right after a success, is never accepted. */
  lemma EmptyFormRejected()
    ensures ValidateForm(EmptyForm) == map[
      EmployeeName := NameRequired, EmployeeEmail := EmployeeEmailRequired,
      StartDate := StartRequired, EndDate := EndRequired, Reason := ReasonRequired,
      ManagerEmail := ManagerEmailRequired, DirectorEmail := DirectorEmailRequired]
  {
  }
}
