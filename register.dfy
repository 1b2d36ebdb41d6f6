/**
 * The registration page: the per-field rules (names, the shared email and phone rules, the
 * password strength rule, the confirmation), the loop that validates every field, the input
 * handler that clears a field's error, and the submit handler's sign-in.
 */
module Register {
  import opened Wrappers
  import opened Text
  import Contact
  import Forms
  import Auth

  datatype RegisterField = FirstName | LastName | Email | Phone | Password | ConfirmPassword

  /** The keys of the form object, in the order `Object.keys` lists them. */
  const FIELDS: seq<RegisterField> := [FirstName, LastName, Email, Phone, Password, ConfirmPassword]

  type RegisterForm = map<RegisterField, string>

  function Value(form: RegisterForm, f: RegisterField): string {
    if f in form then form[f] else ""
  }

  datatype RegisterError =
    | FirstNameRequired        // 'First name is required'
    | FirstNameTooShort        // 'First name must be at least 2 characters'
    | LastNameRequired         // 'Last name is required'
    | LastNameTooShort         // 'Last name must be at least 2 characters'
    | ContactInvalid(error: Contact.ContactError)
    | PasswordRequired         // 'Password is required'
    | PasswordTooShort         // 'Password must be at least 8 characters long'
    | PasswordNeedsLowercase   // 'Password must contain at least one lowercase letter'
    | PasswordNeedsUppercase   // 'Password must contain at least one uppercase letter'
    | PasswordNeedsDigit       // 'Password must contain at least one number'
    | ConfirmationRequired     // 'Please confirm your password'
    | PasswordsDiffer          // 'Passwords do not match'

  const MIN_NAME_LENGTH := 2
  const MIN_PASSWORD_LENGTH := 8

  /** The first-name and last-name rule: required, then at least two characters. */
  function ValidateName(value: string, required: RegisterError, tooShort: RegisterError): Option<RegisterError> {
    if value == "" then Some(required)
    else if |value| < MIN_NAME_LENGTH then Some(tooShort)
    else None
  }

  /** The password rule: required, length, then a lowercase letter, an uppercase letter and a digit somewhere. */
  function ValidatePassword(p: string): Option<RegisterError> {
    if p == "" then Some(PasswordRequired)
    else if |p| < MIN_PASSWORD_LENGTH then Some(PasswordTooShort)
    else if !Any(p, IsLower) then Some(PasswordNeedsLowercase)
    else if !Any(p, IsUpper) then Some(PasswordNeedsUppercase)
    else if !Any(p, IsDigit) then Some(PasswordNeedsDigit)
    else None
  }

  /** A password is accepted iff it has at least 8 characters, a lowercase letter, an uppercase letter and a digit. */
  lemma PasswordAccepted(p: string)
    ensures ValidatePassword(p) == None <==>
              && |p| >= 8
              && (exists i :: 0 <= i < |p| && 'a' <= p[i] <= 'z')
              && (exists i :: 0 <= i < |p| && 'A' <= p[i] <= 'Z')
              && (exists i :: 0 <= i < |p| && '0' <= p[i] <= '9')
  {
  }

  /** The strength checks are ordered: a short password is reported as short whatever it contains. */
  lemma ShortPasswordReportedAsShort(p: string)
    requires 0 < |p| < 8
    ensures ValidatePassword(p) == Some(PasswordTooShort)
  {
  }

  /** `validateField(field, value)`, with the confirmation compared to the form's password. */
  function ValidateField(form: RegisterForm, field: RegisterField): Option<RegisterError> {
    var value := Value(form, field);
    match field
    case FirstName => ValidateName(value, FirstNameRequired, FirstNameTooShort)
    case LastName => ValidateName(value, LastNameRequired, LastNameTooShort)
    case Email =>
      var e := Contact.ValidateEmail(value); if e.Some? then Some(ContactInvalid(e.value)) else None
    case Phone =>
      var e := Contact.ValidatePhone(value); if e.Some? then Some(ContactInvalid(e.value)) else None
    case Password => ValidatePassword(value)
    case ConfirmPassword =>
      if value == "" then Some(ConfirmationRequired)
      else if value != Value(form, Password) then Some(PasswordsDiffer)
      else None
  }

  /** The confirmation passes iff it is non-empty and equal to the password. */
  lemma ConfirmationRule(form: RegisterForm)
    ensures ValidateField(form, ConfirmPassword) == None <==>
              Value(form, ConfirmPassword) != "" && Value(form, ConfirmPassword) == Value(form, Password)
  {
  }

  /** The names pass iff they have at least two characters. */
  lemma NameRule(form: RegisterForm, field: RegisterField)
    requires field == FirstName || field == LastName
    ensures ValidateField(form, field) == None <==> |Value(form, field)| >= 2
  {
  }

  function Check(form: RegisterForm): RegisterField -> Option<RegisterError> {
    f => ValidateField(form, f)
  }

  /** `validateForm()`: validate every field of the form, recording each error, and report whether none failed. */
  method ValidateForm(form: RegisterForm) returns (isValid: bool, errors: map<RegisterField, RegisterError>)
    ensures errors == Forms.ErrorsOf(Check(form), FIELDS)
    ensures isValid <==> errors == map[]
  {
    errors := map[];
    isValid := true;
    var i := 0;
    while i < |FIELDS|
      invariant 0 <= i <= |FIELDS|
      invariant errors == Forms.ErrorsOf(Check(form), FIELDS[..i])
      invariant isValid <==> errors == map[]
    {
      var field := FIELDS[i];
      var error := ValidateField(form, field);
      Forms.ErrorsOfStep(Check(form), FIELDS, i);
      if error.Some? {
        errors := errors[field := error.value];
        assert field in errors;
        isValid := false;
      }
      i := i + 1;
    }
    assert FIELDS[..i] == FIELDS;
  }

  /** The error map has an entry exactly for each failing field, holding its error. */
  lemma FormErrorsKeys(form: RegisterForm, f: RegisterField)
    ensures f in Forms.ErrorsOf(Check(form), FIELDS) <==> ValidateField(form, f).Some?
    ensures f in Forms.ErrorsOf(Check(form), FIELDS) ==> Forms.ErrorsOf(Check(form), FIELDS)[f] == ValidateField(form, f).value
  {
    Forms.ErrorsOfEntries(Check(form), FIELDS, f);
  }

  /** The form is valid iff every field passes its rule. */
  lemma FormValidIffAllFieldsPass(form: RegisterForm)
    ensures Forms.ErrorsOf(Check(form), FIELDS) == map[] <==> forall f :: ValidateField(form, f) == None
  {
    var errors := Forms.ErrorsOf(Check(form), FIELDS);
    if errors == map[] {
      forall f ensures ValidateField(form, f) == None {
        FormErrorsKeys(form, f);
      }
    } else {
      var f :| f in errors;
      FormErrorsKeys(form, f);
    }
  }

  /** A valid form has a strong password that its confirmation repeats. */
  lemma ValidFormHasStrongPassword(form: RegisterForm)
    requires Forms.ErrorsOf(Check(form), FIELDS) == map[]
    ensures ValidatePassword(Value(form, Password)) == None
    ensures Value(form, ConfirmPassword) == Value(form, Password)
  {
    FormErrorsKeys(form, Password);
    FormErrorsKeys(form, ConfirmPassword);
  }

  datatype PageState = PageState(form: RegisterForm, errors: map<RegisterField, RegisterError>, showError: bool)

  /** `handleInputChange(field, value)`: store the value, clear only that field's error, hide the banner. */
  function InputChange(s: PageState, field: RegisterField, value: string): (r: PageState)
    ensures Value(r.form, field) == value
    ensures forall g :: g != field ==> Value(r.form, g) == Value(s.form, g)
    ensures field !in r.errors
    ensures forall g :: g != field ==> (g in r.errors <==> g in s.errors)
    ensures forall g :: g != field && g in s.errors ==> r.errors[g] == s.errors[g]
    ensures !r.showError
  {
    PageState(s.form[field := value], s.errors - {field}, false)
  }

  /** Editing the password clears only the password's error: an error on the confirmation stays. */
  lemma EditingPasswordKeepsConfirmationError(s: PageState, value: string)
    requires ConfirmPassword in s.errors
    ensures ConfirmPassword in InputChange(s, Password, value).errors
  {
  }

  datatype RegisterResult =
    | Rejected(errors: map<RegisterField, RegisterError>)   // 'Please correct the errors before continuing'
    | Registered(route: Auth.Route)

  /** `handleSubmit()`: an invalid form writes nothing; a valid one stores the session and redirects. */
  method SubmitRegistration(form: RegisterForm, session: Auth.Session) returns (r: RegisterResult)
    modifies session
    ensures var errors := Forms.ErrorsOf(Check(form), FIELDS);
            errors != map[] ==> r == Rejected(errors) && unchanged(session)
    ensures Forms.ErrorsOf(Check(form), FIELDS) == map[] ==>
              && r == Registered(Auth.RouteAfterSignIn(old(session.pendingLoginAfterVehicle)))
              && session.isAuthenticated && session.userEmail == Some(Value(form, Email))
              && (old(session.pendingLoginAfterVehicle) == Some(Auth.PENDING_TRUE) ==> session.pendingLoginAfterVehicle == None)
              && (old(session.pendingLoginAfterVehicle) != Some(Auth.PENDING_TRUE) ==>
                    session.pendingLoginAfterVehicle == old(session.pendingLoginAfterVehicle))
  {
    var isValid, errors := ValidateForm(form);
    if !isValid {
      return Rejected(errors);
    }
    var route := session.CompleteSignIn(Value(form, Email));
    r := Registered(route);
  }
}
