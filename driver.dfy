/**
 * The driver details page: the age rule for the date of birth, the years-of-experience
 * check, the field dispatch (with the shared email and phone rules) and the submit handler
 * with its required-field and filled-in-optional-field loops.
 */
module Driver {
  import opened Wrappers
  import opened Numeric
  import opened Text
  import Contact
  import Forms
  import Progress
  import Storage

  /** A calendar date as `getFullYear()`, `getMonth()` and `getDate()` read it. */
  datatype Date = Date(year: int, month: int, day: int)

  /** `d1` is on or before `d2`. */
  predicate NotAfter(d1: Date, d2: Date) {
    || d1.year < d2.year
    || (d1.year == d2.year && (d1.month < d2.month || (d1.month == d2.month && d1.day <= d2.day)))
  }

  const MIN_AGE := 18
  const MAX_AGE := 80
  const MAX_EXPERIENCE := 50

  /** The year difference, less one when today's (month, day) comes before the birthday's. */
  function Age(birth: Date, today: Date): int {
    var age := today.year - birth.year;
    var monthDiff := today.month - birth.month;
    if monthDiff < 0 || (monthDiff == 0 && today.day < birth.day) then age - 1 else age
  }

  /** The age is the number of birthdays reached by `today`: the last one is not after it, the next one is. */
  lemma AgeCountsBirthdays(birth: Date, today: Date)
    ensures var a := Age(birth, today);
            && NotAfter(Date(birth.year + a, birth.month, birth.day), today)
            && !NotAfter(Date(birth.year + a + 1, birth.month, birth.day), today)
  {
  }

  /** A later `today` never gives a smaller age. */
  lemma AgeMonotone(birth: Date, t1: Date, t2: Date)
    requires NotAfter(t1, t2)
    ensures Age(birth, t1) <= Age(birth, t2)
  {
  }

  /** Why `validateLicenseIssueDate` or `validateLicenseExpiryDate` rejects a non-empty date, as decided against the clock. */
  datatype LicenseDateReason =
    | EarlierThan(minYear: int)   // '... cannot be earlier than 1990'
    | LaterThan(maxYear: int)     // '... cannot be later than <year>'
    | InFuture                    // 'License issue date cannot be in the future'

  datatype DriverError =
    | FirstNameRequired                        // 'First name is required'
    | LastNameRequired                         // 'Last name is required'
    | LicenseNumberRequired                    // 'License number is required'
    | LicenseTypeRequired                      // 'License type is required'
    | ContactInvalid(error: Contact.ContactError)
    | TooYoung(minAge: int)                    // 'Driver must be at least 18 years old'
    | TooOld(maxAge: int)                      // 'Driver age cannot exceed 80 years'
    | BornInFuture                             // 'Date of birth cannot be in the future'
    | LicenseIssueInvalid(issue: LicenseDateReason)
    | LicenseExpiryInvalid(expiry: LicenseDateReason)
    | ExperienceNotANumber                     // 'Please enter a valid number'
    | ExperienceNegative                       // 'Years of experience cannot be negative'
    | ExperienceTooHigh(limit: int)            // 'Years of experience cannot exceed 50'
    | ExperienceExceedsAge(maxPossible: int)   // 'Years of experience cannot exceed <n> for your age'

  // ---------------------------------------------------------------- date of birth

  /** `validateDateOfBirth(date)` on an already parsed date: the minimum age, the maximum age, then the future. */
  function ValidateDateOfBirth(birth: Option<Date>, today: Date): Option<DriverError> {
    if birth.None? then None
    else
      var age := Age(birth.value, today);
      if age < MIN_AGE then Some(TooYoung(MIN_AGE))
      else if age > MAX_AGE then Some(TooOld(MAX_AGE))
      else if !NotAfter(birth.value, today) then Some(BornInFuture)
      else None
  }

  /** A date of birth is accepted iff the driver is between 18 and 80 years old. */
  lemma DateOfBirthAccepted(birth: Date, today: Date)
    ensures ValidateDateOfBirth(Some(birth), today) == None <==> MIN_AGE <= Age(birth, today) <= MAX_AGE
  {
  }

  /** The future-date message never appears: a date after today gives an age below 18. */
  lemma FutureBirthMessageUnreachable(birth: Option<Date>, today: Date)
    ensures ValidateDateOfBirth(birth, today) != Some(BornInFuture)
  {
    if birth.Some? && !NotAfter(birth.value, today) {
      assert Age(birth.value, today) <= 0;
    }
  }

  // ---------------------------------------------------------------- experience

  /** `Math.max(0, age - 16)` with the age taken as the bare year difference. */
  function MaxPossibleExperience(birth: Date, today: Date): int {
    Max(0, today.year - birth.year - 16)
  }

  /** `validateYearsOfExperience(years)`, which also reads the form's date of birth. */
  function ValidateYearsOfExperience(years: string, birth: Option<Date>, today: Date): Option<DriverError> {
    if years == "" then None
    else
      var parsed := ParseInt(years);
      if parsed.None? then Some(ExperienceNotANumber)
      else if parsed.value < 0 then Some(ExperienceNegative)
      else if parsed.value > MAX_EXPERIENCE then Some(ExperienceTooHigh(MAX_EXPERIENCE))
      else if birth.Some? && parsed.value > MaxPossibleExperience(birth.value, today) then
        Some(ExperienceExceedsAge(MaxPossibleExperience(birth.value, today)))
      else None
  }

  /** A non-empty value is accepted iff it parses to a number of years between 0, 50 and the age bound. */
  lemma ExperienceAccepted(years: string, birth: Option<Date>, today: Date)
    requires years != ""
    ensures ValidateYearsOfExperience(years, birth, today) == None <==>
              && ParseInt(years).Some?
              && 0 <= ParseInt(years).value <= MAX_EXPERIENCE
              && (birth.Some? ==> ParseInt(years).value <= Max(0, today.year - birth.value.year - 16))
  {
  }

  /** The experience bound reads only the birth year: month and day make no difference. */
  lemma ExperienceIgnoresBirthMonthAndDay(years: string, b1: Date, b2: Date, today: Date)
    requires b1.year == b2.year
    ensures ValidateYearsOfExperience(years, Some(b1), today) == ValidateYearsOfExperience(years, Some(b2), today)
  {
  }

  /** With no date of birth the only bounds are 0 and 50. */
  lemma ExperienceWithoutBirthDate(years: string, today: Date)
    requires ParseInt(years).Some?
    ensures ValidateYearsOfExperience(years, None, today) == None <==> 0 <= ParseInt(years).value <= 50
  {
  }

  // ---------------------------------------------------------------- the form

  datatype DriverField =
    | FirstName | LastName | Email | Phone | DateOfBirth | LicenseNumber | LicenseType
    | LicenseIssueDate | LicenseExpiryDate | YearsOfExperience | ClaimsHistory | Convictions
    | Occupation | Address

  /**
   * The page's form object. The text fields are a map (an absent field holds the empty
   * string); the date input holds its parsed date, `None` while it is empty.
   */
  datatype DriverForm = DriverForm(text: map<DriverField, string>, birthDate: Option<Date>)

  function Value(form: DriverForm, f: DriverField): string {
    if f in form.text then form.text[f] else ""
  }

  /** `!formData[field]`. */
  predicate IsBlank(form: DriverForm, f: DriverField) {
    if f == DateOfBirth then form.birthDate.None? else Value(form, f) == ""
  }

  /** The clock-dependent verdicts on the two licence dates, for non-empty values. */
  datatype LicenseChecks = LicenseChecks(issue: Option<LicenseDateReason>, expiry: Option<LicenseDateReason>)

  /** `validateField(field, value)` on the form's value of `field`. */
  function ValidateField(form: DriverForm, field: DriverField, today: Date, checks: LicenseChecks)
    : Option<DriverError>
  {
    var value := Value(form, field);
    match field
    case DateOfBirth => ValidateDateOfBirth(form.birthDate, today)
    case LicenseIssueDate =>
      if value == "" || checks.issue.None? then None else Some(LicenseIssueInvalid(checks.issue.value))
    case LicenseExpiryDate =>
      if value == "" || checks.expiry.None? then None else Some(LicenseExpiryInvalid(checks.expiry.value))
    case YearsOfExperience => ValidateYearsOfExperience(value, form.birthDate, today)
    case Email =>
      var e := Contact.ValidateEmail(value); if e.Some? then Some(ContactInvalid(e.value)) else None
    case Phone =>
      var e := Contact.ValidatePhone(value); if e.Some? then Some(ContactInvalid(e.value)) else None
    case FirstName => if value == "" then Some(FirstNameRequired) else None
    case LastName => if value == "" then Some(LastNameRequired) else None
    case LicenseNumber => if value == "" then Some(LicenseNumberRequired) else None
    case LicenseType => if value == "" then Some(LicenseTypeRequired) else None
    case _ => None
  }

  /** The four text selects are in error exactly when empty; the fields without a rule always validate. */
  lemma FieldRules(form: DriverForm, field: DriverField, today: Date, checks: LicenseChecks)
    ensures field in {FirstName, LastName, LicenseNumber, LicenseType} ==>
              (ValidateField(form, field, today, checks).Some? <==> Value(form, field) == "")
    ensures field in {ClaimsHistory, Convictions, Occupation, Address} ==> ValidateField(form, field, today, checks) == None
  {
  }

  const REQUIRED_FIELDS: seq<DriverField> := [FirstName, LastName, Email, Phone, LicenseNumber, LicenseType]
  const OPTIONAL_FIELDS: seq<DriverField> := [DateOfBirth, LicenseIssueDate, LicenseExpiryDate, YearsOfExperience]

  lemma EmptyRequiredFieldFails(form: DriverForm, field: DriverField, today: Date, checks: LicenseChecks)
    requires field in REQUIRED_FIELDS && IsBlank(form, field)
    ensures ValidateField(form, field, today, checks).Some?
  {
  }

  /** The optional fields validate when empty, so checking them only when filled in changes nothing. */
  lemma BlankOptionalFieldPasses(form: DriverForm, field: DriverField, today: Date, checks: LicenseChecks)
    requires field in OPTIONAL_FIELDS && IsBlank(form, field)
    ensures ValidateField(form, field, today, checks) == None
  {
  }

  function Label(field: DriverField): string {
    match field
    case FirstName => "First Name"
    case LastName => "Last Name"
    case Email => "Email"
    case Phone => "Phone Number"
    case LicenseNumber => "License Number"
    case LicenseType => "License Type"
    case _ => ""
  }

  // ---------------------------------------------------------------- submit

  function Check(form: DriverForm, today: Date, checks: LicenseChecks): DriverField -> Option<DriverError> {
    f => ValidateField(form, f, today, checks)
  }

  function IsEmpty(form: DriverForm): DriverField -> bool {
    f => IsBlank(form, f)
  }

  /** The error map `handleSubmit` builds over the required and then the optional fields. */
  function SubmitErrors(form: DriverForm, today: Date, checks: LicenseChecks): map<DriverField, DriverError> {
    Forms.ErrorsOf(Check(form, today, checks), REQUIRED_FIELDS + OPTIONAL_FIELDS)
  }

  /** The first loop of `handleSubmit`: validate every required field, noting the empty ones. */
  method CollectRequiredErrors(form: DriverForm, today: Date, checks: LicenseChecks)
    returns (errors: map<DriverField, DriverError>, missing: seq<DriverField>)
    ensures errors == Forms.ErrorsOf(Check(form, today, checks), REQUIRED_FIELDS)
    ensures missing == Forms.EmptyFields(IsEmpty(form), REQUIRED_FIELDS)
  {
    errors := map[];
    missing := [];
    var i := 0;
    while i < |REQUIRED_FIELDS|
      invariant 0 <= i <= |REQUIRED_FIELDS|
      invariant errors == Forms.ErrorsOf(Check(form, today, checks), REQUIRED_FIELDS[..i])
      invariant missing == Forms.EmptyFields(IsEmpty(form), REQUIRED_FIELDS[..i])
    {
      var field := REQUIRED_FIELDS[i];
      var error := ValidateField(form, field, today, checks);
      Forms.ErrorsOfStep(Check(form, today, checks), REQUIRED_FIELDS, i);
      Forms.EmptyFieldsStep(IsEmpty(form), REQUIRED_FIELDS, i);
      if error.Some? {
        errors := errors[field := error.value];
        if IsBlank(form, field) {
          missing := missing + [field];
        }
      } else if IsBlank(form, field) {
        EmptyRequiredFieldFails(form, field, today, checks);
      }
      i := i + 1;
    }
    assert REQUIRED_FIELDS[..i] == REQUIRED_FIELDS;
  }

  /** Checking one more optional field adds its error only when it is filled in and fails. */
  lemma OptionalStep(form: DriverForm, today: Date, checks: LicenseChecks, fields: seq<DriverField>, field: DriverField)
    requires field in OPTIONAL_FIELDS
    ensures Forms.ErrorsOf(Check(form, today, checks), fields + [field]) ==
              var error := ValidateField(form, field, today, checks);
              if !IsBlank(form, field) && error.Some? then Forms.ErrorsOf(Check(form, today, checks), fields)[field := error.value]
              else Forms.ErrorsOf(Check(form, today, checks), fields)
  {
    Forms.ErrorsOfSnoc(Check(form, today, checks), fields, field);
    if IsBlank(form, field) {
      BlankOptionalFieldPasses(form, field, today, checks);
    }
  }

  /** The second loop of `handleSubmit`: add the error of each filled-in optional field that fails. */
  method AddOptionalErrors(form: DriverForm, today: Date, checks: LicenseChecks, required: map<DriverField, DriverError>)
    returns (errors: map<DriverField, DriverError>)
    requires required == Forms.ErrorsOf(Check(form, today, checks), REQUIRED_FIELDS)
    ensures errors == SubmitErrors(form, today, checks)
  {
    errors := required;
    var j := 0;
    assert REQUIRED_FIELDS + OPTIONAL_FIELDS[..0] == REQUIRED_FIELDS;
    while j < |OPTIONAL_FIELDS|
      invariant 0 <= j <= |OPTIONAL_FIELDS|
      invariant errors == Forms.ErrorsOf(Check(form, today, checks), REQUIRED_FIELDS + OPTIONAL_FIELDS[..j])
    {
      var field := OPTIONAL_FIELDS[j];
      assert REQUIRED_FIELDS + OPTIONAL_FIELDS[..j + 1] == (REQUIRED_FIELDS + OPTIONAL_FIELDS[..j]) + [field];
      OptionalStep(form, today, checks, REQUIRED_FIELDS + OPTIONAL_FIELDS[..j], field);
      if !IsBlank(form, field) {
        var error := ValidateField(form, field, today, checks);
        if error.Some? {
          errors := errors[field := error.value];
        }
      }
      j := j + 1;
    }
    assert OPTIONAL_FIELDS[..j] == OPTIONAL_FIELDS;
  }

  /** The two loops of `handleSubmit`: every required field, then each filled-in optional field. */
  method CollectErrors(form: DriverForm, today: Date, checks: LicenseChecks)
    returns (errors: map<DriverField, DriverError>, missing: seq<DriverField>)
    ensures errors == SubmitErrors(form, today, checks)
    ensures missing == Forms.EmptyFields(IsEmpty(form), REQUIRED_FIELDS)
  {
    var required;
    required, missing := CollectRequiredErrors(form, today, checks);
    errors := AddOptionalErrors(form, today, checks, required);
  }

  /** An entry in the error map is exactly a required or optional field that fails, with its error. */
  lemma SubmitErrorsKeys(form: DriverForm, today: Date, checks: LicenseChecks, f: DriverField)
    ensures f in SubmitErrors(form, today, checks) <==>
              (f in REQUIRED_FIELDS || (f in OPTIONAL_FIELDS && !IsBlank(form, f)))
              && ValidateField(form, f, today, checks).Some?
    ensures f in SubmitErrors(form, today, checks) ==>
              SubmitErrors(form, today, checks)[f] == ValidateField(form, f, today, checks).value
  {
    Forms.ErrorsOfEntries(Check(form, today, checks), REQUIRED_FIELDS + OPTIONAL_FIELDS, f);
    if f in OPTIONAL_FIELDS && IsBlank(form, f) {
      BlankOptionalFieldPasses(form, f, today, checks);
    }
  }

  /** The missing-field list names only blank required fields, and every one of them also has an error. */
  lemma MissingAreBlankRequired(form: DriverForm, today: Date, checks: LicenseChecks, f: DriverField)
    ensures f in Forms.EmptyFields(IsEmpty(form), REQUIRED_FIELDS) <==> f in REQUIRED_FIELDS && IsBlank(form, f)
    ensures f in Forms.EmptyFields(IsEmpty(form), REQUIRED_FIELDS) ==> f in SubmitErrors(form, today, checks)
  {
    Forms.EmptyFieldsMembers(IsEmpty(form), REQUIRED_FIELDS, f);
    if f in REQUIRED_FIELDS && IsBlank(form, f) {
      EmptyRequiredFieldFails(form, f, today, checks);
      SubmitErrorsKeys(form, today, checks, f);
    }
  }

  datatype SubmitResult =
    | Rejected(errors: map<DriverField, DriverError>, message: string)
    | Saved

  /**
   * `handleSubmit()`: on any error the field errors and the banner are set and nothing is
   * stored; otherwise the form is stored and the step is marked complete.
   */
  method SubmitDriver(form: DriverForm, today: Date, checks: LicenseChecks,
                      tracker: Progress.ProgressTracker, saved: Storage.Slot<DriverForm>)
    returns (r: SubmitResult)
    modifies tracker, saved
    ensures var errors := SubmitErrors(form, today, checks);
            errors != map[] ==>
              && r == Rejected(errors, Forms.SubmitMessage(Forms.Labels(Label, Forms.EmptyFields(IsEmpty(form), REQUIRED_FIELDS))))
              && unchanged(tracker, saved)
    ensures SubmitErrors(form, today, checks) == map[] ==>
              && r == Saved
              && saved.value == Some(form)
              && tracker.progress == old(tracker.progress)[Progress.DRIVER_DETAILS := 100]
  {
    var errors, missing := CollectErrors(form, today, checks);
    if |errors| > 0 {
      return Rejected(errors, Forms.SubmitMessage(Forms.Labels(Label, missing)));
    }
    assert errors == map[];
    saved.value := Some(form);
    tracker.UpdateStepProgress(Progress.DRIVER_DETAILS, 100);
    r := Saved;
  }

  /** A form is saved only when the driver's email passes the shared email rule, ... */
  lemma SavedFormHasValidEmail(form: DriverForm, today: Date, checks: LicenseChecks)
    requires SubmitErrors(form, today, checks) == map[]
    ensures Contact.ValidateEmail(Value(form, Email)) == None
  {
    Forms.ErrorsOfEntries(Check(form, today, checks), REQUIRED_FIELDS + OPTIONAL_FIELDS, Email);
    assert ValidateField(form, Email, today, checks) == None;
  }

  /** ... the phone number passes the shared phone rule, ... */
  lemma SavedFormHasValidPhone(form: DriverForm, today: Date, checks: LicenseChecks)
    requires SubmitErrors(form, today, checks) == map[]
    ensures Contact.ValidatePhone(Value(form, Phone)) == None
  {
    Forms.ErrorsOfEntries(Check(form, today, checks), REQUIRED_FIELDS + OPTIONAL_FIELDS, Phone);
    assert ValidateField(form, Phone, today, checks) == None;
  }

  /** ... and a given date of birth puts the driver between 18 and 80. */
  lemma SavedFormHasAllowedAge(form: DriverForm, today: Date, checks: LicenseChecks)
    requires SubmitErrors(form, today, checks) == map[]
    requires form.birthDate.Some?
    ensures MIN_AGE <= Age(form.birthDate.value, today) <= MAX_AGE
  {
    Forms.ErrorsOfEntries(Check(form, today, checks), REQUIRED_FIELDS + OPTIONAL_FIELDS, DateOfBirth);
    assert ValidateField(form, DateOfBirth, today, checks) == None;
    DateOfBirthAccepted(form.birthDate.value, today);
  }
}
