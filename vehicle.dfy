/**
 * The vehicle details page: its field validators (model year, registration number, the
 * required selects), the submit handler that collects errors and the empty required fields,
 * and the input handler that resets the model when the make changes.
 */
module Vehicle {
  import opened Wrappers
  import opened Text
  import Forms
  import Progress
  import Storage

  datatype VehicleField =
    | VehicleType | Make | Model | Year | EngineCapacity | FuelType
    | RegistrationNumber | EstimatedValue | Usage | AdditionalInfo | RegistrationDate

  /** The page's form object; a field that is not in the map holds the empty string. */
  type VehicleForm = map<VehicleField, string>

  function Value(form: VehicleForm, f: VehicleField): string {
    if f in form then form[f] else ""
  }

  /** Why `validateRegistrationDate` rejects a non-empty date, as decided against the clock. */
  datatype RegistrationDateReason =
    | EarlierThan(minYear: int)   // 'Registration date cannot be earlier than 1990'
    | LaterThan(maxYear: int)     // 'Registration date cannot be later than <year>'
    | InFuture                    // 'Registration date cannot be in the future'

  datatype VehicleError =
    | VehicleTypeRequired                 // 'Vehicle type is required'
    | MakeRequired                        // 'Vehicle make is required'
    | ModelRequired                       // 'Vehicle model is required'
    | YearRequired                        // 'Year is required'
    | YearTooEarly(minYear: int)          // 'Year cannot be earlier than <minYear>'
    | YearTooLate(maxYear: int)           // 'Year cannot be later than <maxYear>'
    | RegistrationNumberRequired          // 'Registration number is required'
    | RegistrationNumberInvalid           // 'Please enter a valid registration number (...)'
    | RegistrationNumberTooShort          // 'Registration number must be at least 6 characters'
    | RegistrationDateInvalid(reason: RegistrationDateReason)

  const MIN_YEAR := 1950

  function MaxYear(currentYear: int): int { currentYear + 1 }

  // ---------------------------------------------------------------- model year

  /** `validateYear(year)`: required (empty or `NaN`), then the lower bound, then the upper bound. */
  function ValidateYear(year: string, currentYear: int): Option<VehicleError> {
    var parsed := ParseInt(year);
    if year == "" || parsed.None? then Some(YearRequired)
    else if parsed.value < MIN_YEAR then Some(YearTooEarly(MIN_YEAR))
    else if parsed.value > MaxYear(currentYear) then Some(YearTooLate(MaxYear(currentYear)))
    else None
  }

  /** Each verdict of `validateYear`, with the earlier checks taking precedence. */
  lemma ValidateYearVerdicts(year: string, currentYear: int)
    ensures ValidateYear(year, currentYear) == None <==>
              ParseInt(year).Some? && MIN_YEAR <= ParseInt(year).value <= currentYear + 1
    ensures ValidateYear(year, currentYear) == Some(YearRequired) <==> ParseInt(year).None?
    ensures ValidateYear(year, currentYear) == Some(YearTooEarly(1950)) <==>
              ParseInt(year).Some? && ParseInt(year).value < 1950
    ensures ValidateYear(year, currentYear) == Some(YearTooLate(currentYear + 1)) <==>
              ParseInt(year).Some? && 1950 <= ParseInt(year).value && ParseInt(year).value > currentYear + 1
  {
  }

  /** The form's initial year, `currentYear.toString()`, validates. */
  lemma DefaultYearValidates(currentYear: nat)
    requires currentYear >= MIN_YEAR
    ensures ValidateYear(Decimal(currentYear), currentYear) == None
  {
    ParseIntDecimal(currentYear);
  }

  // ---------------------------------------------------------------- registration number

  /** `regNumber.replace(/\s/g, '').toUpperCase()`. */
  function Clean(reg: string): string {
    ToUpper(StripWhitespace(reg))
  }

  /** What `/^[A-Z]{2,4}\d{2,4}[A-Z]{0,3}$/` accepts: the string splits at `a` and `b` into the three runs. */
  ghost predicate MatchesRegistrationPattern(s: string) {
    exists a: nat, b: nat ::
      && 2 <= a <= 4 && a + 2 <= b <= a + 4 && b <= |s| && |s| - b <= 3
      && All(s[..a], IsUpper) && All(s[a..b], IsDigit) && All(s[b..], IsUpper)
  }

  /** The same language read greedily: the leading letters, the digits after them, and letters to the end. */
  predicate IsRegistrationFormat(s: string) {
    var a := Run(s, IsUpper);
    var n := Run(s[a..], IsDigit);
    && 2 <= a <= 4 && 2 <= n <= 4 && |s| - (a + n) <= 3
    && All(s[a + n..], IsUpper)
  }

  lemma PatternImpliesFormat(s: string, a: nat, b: nat)
    requires 2 <= a <= 4 && a + 2 <= b <= a + 4 && b <= |s| && |s| - b <= 3
    requires All(s[..a], IsUpper) && All(s[a..b], IsDigit) && All(s[b..], IsUpper)
    ensures IsRegistrationFormat(s)
  {
    assert IsDigit(s[a..b][0]);
    RunUnique(s, IsUpper, a);
    var t := s[a..];
    assert t[..b - a] == s[a..b];
    if b < |s| {
      assert t[b - a] == s[b..][0];
    }
    RunUnique(t, IsDigit, b - a);
    assert s[a + (b - a)..] == s[b..];
  }

  lemma FormatImpliesPattern(s: string)
    requires IsRegistrationFormat(s)
    ensures MatchesRegistrationPattern(s)
  {
    var a := Run(s, IsUpper);
    var n := Run(s[a..], IsDigit);
    assert s[a..][..n] == s[a..a + n];
    assert All(s[..a], IsUpper) && All(s[a..a + n], IsDigit) && All(s[a + n..], IsUpper);
  }

  /** The greedy reading accepts exactly the strings the regular expression accepts. */
  lemma RegistrationFormatIsPattern(s: string)
    ensures IsRegistrationFormat(s) <==> MatchesRegistrationPattern(s)
  {
    if MatchesRegistrationPattern(s) {
      var a: nat, b: nat :|
        && 2 <= a <= 4 && a + 2 <= b <= a + 4 && b <= |s| && |s| - b <= 3
        && All(s[..a], IsUpper) && All(s[a..b], IsDigit) && All(s[b..], IsUpper);
      PatternImpliesFormat(s, a, b);
    }
    if IsRegistrationFormat(s) {
      FormatImpliesPattern(s);
    }
  }

  /** `validateRegistrationNumber(regNumber)`: required on the raw value, then format and length on the cleaned one. */
  function ValidateRegistrationNumber(reg: string): Option<VehicleError> {
    if reg == "" then Some(RegistrationNumberRequired)
    else
      var clean := Clean(reg);
      if !IsRegistrationFormat(clean) then Some(RegistrationNumberInvalid)
      else if |clean| < 6 then Some(RegistrationNumberTooShort)
      else None
  }

  /** A number is accepted iff its cleaned form matches the pattern and has at least six characters. */
  lemma RegistrationNumberAccepted(reg: string)
    ensures ValidateRegistrationNumber(reg) == None <==>
              reg != "" && MatchesRegistrationPattern(Clean(reg)) && |Clean(reg)| >= 6
  {
    RegistrationFormatIsPattern(Clean(reg));
  }

  /** Accepted numbers have between 6 and 11 characters once cleaned. */
  lemma AcceptedRegistrationLengths(reg: string)
    requires ValidateRegistrationNumber(reg) == None
    ensures 6 <= |Clean(reg)| <= 11
  {
  }

  /**
   * The length message appears only for cleaned numbers that match the pattern with
   * four or five characters, the pattern's shortest strings.
   */
  lemma TooShortOnlyForShortMatches(reg: string)
    ensures ValidateRegistrationNumber(reg) == Some(RegistrationNumberTooShort) <==>
              reg != "" && MatchesRegistrationPattern(Clean(reg)) && 4 <= |Clean(reg)| <= 5
  {
    RegistrationFormatIsPattern(Clean(reg));
  }

  lemma {:induction false} StripCommutesWithUpper(s: string)
    ensures StripWhitespace(ToUpper(s)) == ToUpper(StripWhitespace(s))
  {
    if s != [] {
      UpperCharKeepsClass(s[0]);
      assert ToUpper(s)[1..] == ToUpper(s[1..]);
      StripCommutesWithUpper(s[1..]);
    }
  }

  lemma UpperIdempotent(s: string)
    ensures ToUpper(ToUpper(s)) == ToUpper(s)
  {
    assert forall i :: 0 <= i < |s| ==> UpperChar(UpperChar(s[i])) == UpperChar(s[i]);
  }

  /** Case and whitespace never change the verdict on a non-empty number. */
  lemma OnlyCleanedNumberMatters(r1: string, r2: string)
    requires r1 != "" && r2 != "" && Clean(r1) == Clean(r2)
    ensures ValidateRegistrationNumber(r1) == ValidateRegistrationNumber(r2)
  {
  }

  /** Upper-casing a number before it is validated changes nothing. */
  lemma UpperCaseIsIrrelevant(reg: string)
    ensures ValidateRegistrationNumber(ToUpper(reg)) == ValidateRegistrationNumber(reg)
  {
    calc {
      Clean(ToUpper(reg));
    ==
      ToUpper(StripWhitespace(ToUpper(reg)));
    == { StripCommutesWithUpper(reg); }
      ToUpper(ToUpper(StripWhitespace(reg)));
    == { UpperIdempotent(StripWhitespace(reg)); }
      Clean(reg);
    }
    assert ToUpper(reg) == "" <==> reg == "";
  }

  /** A string of capitals and digits is its own cleaned form. */
  lemma CleanOfCapitalsAndDigits(s: string)
    requires forall i :: 0 <= i < |s| ==> IsUpper(s[i]) || IsDigit(s[i])
    ensures Clean(s) == s
  {
    assert NoWhitespace(s);
    StripWithoutWhitespace(s);
    assert ToUpper(s) == s;
  }

  /** A string of capitals and digits split into the pattern's three runs is its own cleaned form and is judged by length. */
  lemma SplitNumberVerdict(s: string, a: nat, b: nat)
    requires 2 <= a <= 4 && a + 2 <= b <= a + 4 && b <= |s| && |s| - b <= 3
    requires All(s[..a], IsUpper) && All(s[a..b], IsDigit) && All(s[b..], IsUpper)
    ensures ValidateRegistrationNumber(s) == if |s| < 6 then Some(RegistrationNumberTooShort) else None
  {
    forall i | 0 <= i < |s|
      ensures IsUpper(s[i]) || IsDigit(s[i])
    {
      if i < a { assert s[i] == s[..a][i]; }
      else if i < b { assert s[i] == s[a..b][i - a]; }
      else { assert s[i] == s[b..][i - b]; }
    }
    CleanOfCapitalsAndDigits(s);
    PatternImpliesFormat(s, a, b);
  }

  /** The formats the page's message gives as examples are accepted: "ABC123", ... */
  lemma PlainExampleAccepted()
    ensures ValidateRegistrationNumber("ABC123") == None
  {
    var s := "ABC123";
    assert s[..3] == "ABC" && s[3..6] == "123" && s[6..] == "";
    SplitNumberVerdict(s, 3, 6);
  }

  /** ... "ABC123ZM", ... */
  lemma SuffixExampleAccepted()
    ensures ValidateRegistrationNumber("ABC123ZM") == None
  {
    var s := "ABC123ZM";
    assert s[..3] == "ABC" && s[3..6] == "123" && s[6..] == "ZM";
    SplitNumberVerdict(s, 3, 6);
  }

  /** ... and "ABC1234". */
  lemma FourDigitExampleAccepted()
    ensures ValidateRegistrationNumber("ABC1234") == None
  {
    var s := "ABC1234";
    assert s[..3] == "ABC" && s[3..7] == "1234" && s[7..] == "";
    SplitNumberVerdict(s, 3, 7);
  }

  /** A match of four characters gets the length message ... */
  lemma FourCharacterMatchRejected()
    ensures ValidateRegistrationNumber("AB12") == Some(RegistrationNumberTooShort)
  {
    var s := "AB12";
    assert s[..2] == "AB" && s[2..4] == "12" && s[4..] == "";
    SplitNumberVerdict(s, 2, 4);
  }

  /** ... and so does one of five characters. */
  lemma FiveCharacterMatchRejected()
    ensures ValidateRegistrationNumber("ABC12") == Some(RegistrationNumberTooShort)
  {
    var s := "ABC12";
    assert s[..3] == "ABC" && s[3..5] == "12" && s[5..] == "";
    SplitNumberVerdict(s, 3, 5);
  }

  /** The emptiness check reads the raw value: "" is missing, a lone space is malformed. */
  lemma EmptyAndBlankNumbersDiffer()
    ensures ValidateRegistrationNumber("") == Some(RegistrationNumberRequired)
    ensures ValidateRegistrationNumber(" ") == Some(RegistrationNumberInvalid)
  {
    assert StripWhitespace(" ") == "";
    assert Clean(" ") == "";
  }

  // ---------------------------------------------------------------- field dispatch

  /**
   * `validateField(field, value)`. The registration date's verdict depends on the clock;
   * `dateCheck` is that verdict for a non-empty value.
   */
  function ValidateField(field: VehicleField, value: string, currentYear: int,
                         dateCheck: Option<RegistrationDateReason>): Option<VehicleError> {
    match field
    case Year => ValidateYear(value, currentYear)
    case RegistrationDate =>
      if value == "" then None
      else if dateCheck.Some? then Some(RegistrationDateInvalid(dateCheck.value)) else None
    case RegistrationNumber => ValidateRegistrationNumber(value)
    case VehicleType => if value == "" then Some(VehicleTypeRequired) else None
    case Make => if value == "" then Some(MakeRequired) else None
    case Model => if value == "" then Some(ModelRequired) else None
    case _ => None
  }

  /** The three selects are in error exactly when empty, and the fields without a rule always validate. */
  lemma FieldRules(field: VehicleField, value: string, currentYear: int, dateCheck: Option<RegistrationDateReason>)
    ensures field in {VehicleType, Make, Model} ==>
              (ValidateField(field, value, currentYear, dateCheck).Some? <==> value == "")
    ensures field in {EngineCapacity, FuelType, EstimatedValue, Usage, AdditionalInfo} ==>
              ValidateField(field, value, currentYear, dateCheck) == None
    ensures field == RegistrationDate && value == "" ==> ValidateField(field, value, currentYear, dateCheck) == None
  {
  }

  const REQUIRED_FIELDS: seq<VehicleField> := [VehicleType, Make, Model, Year, RegistrationNumber]

  /** Every required field is reported when it is empty. */
  lemma EmptyRequiredFieldFails(field: VehicleField, currentYear: int, dateCheck: Option<RegistrationDateReason>)
    requires field in REQUIRED_FIELDS
    ensures ValidateField(field, "", currentYear, dateCheck).Some?
  {
  }

  function Label(field: VehicleField): string {
    match field
    case VehicleType => "Vehicle Type"
    case Make => "Make"
    case Model => "Model"
    case Year => "Year"
    case RegistrationNumber => "Registration Number"
    case _ => ""
  }

  // ---------------------------------------------------------------- submit

  /** `validateField` applied to the form's value of each field. */
  function Check(form: VehicleForm, currentYear: int, dateCheck: Option<RegistrationDateReason>)
    : VehicleField -> Option<VehicleError>
  {
    f => ValidateField(f, Value(form, f), currentYear, dateCheck)
  }

  /** `!formData[field]`. */
  function IsEmpty(form: VehicleForm): VehicleField -> bool {
    f => Value(form, f) == ""
  }

  /** The error map `handleSubmit` builds: the required fields' errors, then a filled-in date's. */
  function SubmitErrors(form: VehicleForm, currentYear: int, dateCheck: Option<RegistrationDateReason>)
    : map<VehicleField, VehicleError>
  {
    var m := Forms.ErrorsOf(Check(form, currentYear, dateCheck), REQUIRED_FIELDS);
    var date := Value(form, RegistrationDate);
    var e := ValidateField(RegistrationDate, date, currentYear, dateCheck);
    if date != "" && e.Some? then m[RegistrationDate := e.value] else m
  }

  /** The loop of `handleSubmit`: validate every required field, noting the empty ones. */
  method CollectRequiredErrors(form: VehicleForm, currentYear: int, dateCheck: Option<RegistrationDateReason>)
    returns (errors: map<VehicleField, VehicleError>, missing: seq<VehicleField>)
    ensures errors == Forms.ErrorsOf(Check(form, currentYear, dateCheck), REQUIRED_FIELDS)
    ensures missing == Forms.EmptyFields(IsEmpty(form), REQUIRED_FIELDS)
  {
    errors := map[];
    missing := [];
    var i := 0;
    while i < |REQUIRED_FIELDS|
      invariant 0 <= i <= |REQUIRED_FIELDS|
      invariant errors == Forms.ErrorsOf(Check(form, currentYear, dateCheck), REQUIRED_FIELDS[..i])
      invariant missing == Forms.EmptyFields(IsEmpty(form), REQUIRED_FIELDS[..i])
    {
      var field := REQUIRED_FIELDS[i];
      var value := Value(form, field);
      var error := ValidateField(field, value, currentYear, dateCheck);
      Forms.ErrorsOfStep(Check(form, currentYear, dateCheck), REQUIRED_FIELDS, i);
      Forms.EmptyFieldsStep(IsEmpty(form), REQUIRED_FIELDS, i);
      if error.Some? {
        errors := errors[field := error.value];
        if value == "" {
          missing := missing + [field];
        }
      } else if value == "" {
        EmptyRequiredFieldFails(field, currentYear, dateCheck);
      }
      i := i + 1;
    }
    assert REQUIRED_FIELDS[..i] == REQUIRED_FIELDS;
  }

  /**
   * The error and missing-field collection of `handleSubmit` (its two checks, before the
   * banner is chosen).
   */
  method CollectErrors(form: VehicleForm, currentYear: int, dateCheck: Option<RegistrationDateReason>)
    returns (errors: map<VehicleField, VehicleError>, missing: seq<VehicleField>)
    ensures errors == SubmitErrors(form, currentYear, dateCheck)
    ensures missing == Forms.EmptyFields(IsEmpty(form), REQUIRED_FIELDS)
  {
    errors, missing := CollectRequiredErrors(form, currentYear, dateCheck);
    var date := Value(form, RegistrationDate);
    if date != "" {
      var error := ValidateField(RegistrationDate, date, currentYear, dateCheck);
      if error.Some? {
        errors := errors[RegistrationDate := error.value];
      }
    }
  }

  /** An entry in the error map is exactly a checked field that fails, and it holds that field's error. */
  lemma SubmitErrorsKeys(form: VehicleForm, currentYear: int, dateCheck: Option<RegistrationDateReason>, f: VehicleField)
    ensures var e := ValidateField(f, Value(form, f), currentYear, dateCheck);
            && (f in SubmitErrors(form, currentYear, dateCheck) <==>
                  || (f in REQUIRED_FIELDS && e.Some?)
                  || (f == RegistrationDate && Value(form, f) != "" && dateCheck.Some?))
            && (f in SubmitErrors(form, currentYear, dateCheck) ==> SubmitErrors(form, currentYear, dateCheck)[f] == e.value)
  {
    Forms.ErrorsOfEntries(Check(form, currentYear, dateCheck), REQUIRED_FIELDS, f);
  }

  /** The missing-field list names only empty required fields, and all of them. */
  lemma MissingAreEmptyRequired(form: VehicleForm, f: VehicleField)
    ensures f in Forms.EmptyFields(IsEmpty(form), REQUIRED_FIELDS) <==> f in REQUIRED_FIELDS && Value(form, f) == ""
  {
    Forms.EmptyFieldsMembers(IsEmpty(form), REQUIRED_FIELDS, f);
  }

  /** A missing required field always comes with an entry in the error map, so the banner lists it. */
  lemma MissingFieldHasError(form: VehicleForm, currentYear: int, dateCheck: Option<RegistrationDateReason>, f: VehicleField)
    requires f in Forms.EmptyFields(IsEmpty(form), REQUIRED_FIELDS)
    ensures f in SubmitErrors(form, currentYear, dateCheck)
  {
    MissingAreEmptyRequired(form, f);
    EmptyRequiredFieldFails(f, currentYear, dateCheck);
    SubmitErrorsKeys(form, currentYear, dateCheck, f);
  }

  datatype SubmitResult =
    | Rejected(errors: map<VehicleField, VehicleError>, message: string)
    | Saved

  /**
   * `handleSubmit()`: on any error the field errors and the banner are set and nothing is
   * stored; otherwise the form is stored and the step is marked complete.
   */
  method SubmitVehicle(form: VehicleForm, currentYear: int, dateCheck: Option<RegistrationDateReason>,
                       tracker: Progress.ProgressTracker, saved: Storage.Slot<VehicleForm>)
    returns (r: SubmitResult)
    modifies tracker, saved
    ensures var errors := SubmitErrors(form, currentYear, dateCheck);
            errors != map[] ==>
              && r == Rejected(errors, Forms.SubmitMessage(Forms.Labels(Label, Forms.EmptyFields(IsEmpty(form), REQUIRED_FIELDS))))
              && unchanged(tracker, saved)
    ensures SubmitErrors(form, currentYear, dateCheck) == map[] ==>
              && r == Saved
              && saved.value == Some(form)
              && tracker.progress == old(tracker.progress)[Progress.VEHICLE_DETAILS := 100]
  {
    var errors, missing := CollectErrors(form, currentYear, dateCheck);
    if |errors| > 0 {
      return Rejected(errors, Forms.SubmitMessage(Forms.Labels(Label, missing)));
    }
    assert errors == map[];
    saved.value := Some(form);
    tracker.UpdateStepProgress(Progress.VEHICLE_DETAILS, 100);
    r := Saved;
  }

  /** A form is saved iff every required field validates and a filled-in registration date passes. */
  lemma SavedIffAllValid(form: VehicleForm, currentYear: int, dateCheck: Option<RegistrationDateReason>)
    ensures SubmitErrors(form, currentYear, dateCheck) == map[] <==>
              && (forall f :: f in REQUIRED_FIELDS ==> ValidateField(f, Value(form, f), currentYear, dateCheck) == None)
              && (Value(form, RegistrationDate) == "" || dateCheck == None)
  {
    var errors := SubmitErrors(form, currentYear, dateCheck);
    if errors == map[] {
      forall f | f in REQUIRED_FIELDS
        ensures ValidateField(f, Value(form, f), currentYear, dateCheck) == None
      {
        SubmitErrorsKeys(form, currentYear, dateCheck, f);
      }
      SubmitErrorsKeys(form, currentYear, dateCheck, RegistrationDate);
    } else {
      var f :| f in errors;
      SubmitErrorsKeys(form, currentYear, dateCheck, f);
    }
  }

  // ---------------------------------------------------------------- input

  datatype PageState = PageState(form: VehicleForm, errors: map<VehicleField, VehicleError>)

  /**
   * `handleInputChange(field, value)`: store the value, clear the model when the make changes,
   * and record the field's own verdict (a `null` verdict is the absent entry).
   */
  function InputChange(s: PageState, field: VehicleField, value: string, currentYear: int,
                       dateCheck: Option<RegistrationDateReason>): (r: PageState)
    ensures Value(r.form, field) == value
    ensures field == Make ==> Value(r.form, Model) == ""
    ensures forall g :: g != field && (g != Model || field != Make) ==> Value(r.form, g) == Value(s.form, g)
    ensures forall g :: g != field ==> (g in r.errors <==> g in s.errors)
    ensures forall g :: g != field && g in s.errors ==> r.errors[g] == s.errors[g]
    ensures field in r.errors <==> ValidateField(field, value, currentYear, dateCheck).Some?
    ensures field in r.errors ==> Some(r.errors[field]) == ValidateField(field, value, currentYear, dateCheck)
  {
    var form := s.form[field := value];
    var form' := if field == Make then form[Model := ""] else form;
    var error := ValidateField(field, value, currentYear, dateCheck);
    var errors := if error.Some? then s.errors[field := error.value] else s.errors - {field};
    PageState(form', errors)
  }

  /** After the make is changed the model is empty, so the next submit reports it as missing. */
  lemma MakeChangeRequiresModel(s: PageState, make: string, currentYear: int,
                                dateCheck: Option<RegistrationDateReason>)
    ensures var r := InputChange(s, Make, make, currentYear, dateCheck);
            && Model in Forms.EmptyFields(IsEmpty(r.form), REQUIRED_FIELDS)
            && Model in SubmitErrors(r.form, currentYear, dateCheck)
            && SubmitErrors(r.form, currentYear, dateCheck)[Model] == ModelRequired
  {
    var r := InputChange(s, Make, make, currentYear, dateCheck);
    MissingAreEmptyRequired(r.form, Model);
    MissingFieldHasError(r.form, currentYear, dateCheck, Model);
    SubmitErrorsKeys(r.form, currentYear, dateCheck, Model);
  }
}
