/** The login page: its three-guard form check and the submit handler's sign-in. */
module Login {
  import opened Wrappers
  import Contact
  import Auth

  datatype LoginError =
    | EmailMissing      // 'Email is required'
    | PasswordMissing   // 'Password is required'
    | EmailMalformed    // 'Please enter a valid email address'

  /** `validateForm()`: a missing email, then a missing password, then the email pattern. */
  function ValidateLogin(email: string, password: string): Option<LoginError> {
    if email == "" then Some(EmailMissing)
    else if password == "" then Some(PasswordMissing)
    else if !Contact.IsEmailAddress(email) then Some(EmailMalformed)
    else None
  }

  /** The form is accepted iff both values are present and the email matches `^[^\s@]+@[^\s@]+\.[^\s@]+$`. */
  lemma LoginAccepted(email: string, password: string)
    ensures ValidateLogin(email, password) == None <==>
              email != "" && password != "" && Contact.MatchesEmailPattern(email)
  {
    Contact.EmailPatternIsDirectTest(email);
  }

  /** A missing password is reported before a malformed email. */
  lemma MissingPasswordReportedFirst(email: string)
    requires email != "" && !Contact.MatchesEmailPattern(email)
    ensures ValidateLogin(email, "") == Some(PasswordMissing)
  {
  }

  /** There is no strength rule: any non-empty password goes with a well-formed email. */
  lemma AnyPasswordAccepted(email: string, p1: string, p2: string)
    requires p1 != "" && p2 != ""
    ensures ValidateLogin(email, p1) == ValidateLogin(email, p2)
  {
  }

  /** The email check agrees with the driver and registration forms' email rule. */
  lemma SameEmailRuleAsForms(email: string, password: string)
    requires password != ""
    ensures ValidateLogin(email, password) == None <==> Contact.ValidateEmail(email) == None
  {
  }

  datatype LoginResult =
    | Rejected(error: LoginError)
    | SignedIn(route: Auth.Route)

  /**
   * `handleSubmit()`: an invalid form shows its error and writes nothing; a valid one passes
   * the `email && password` test, stores the session and redirects.
   */
  method SubmitLogin(email: string, password: string, session: Auth.Session) returns (r: LoginResult)
    modifies session
    ensures ValidateLogin(email, password).Some? ==>
              r == Rejected(ValidateLogin(email, password).value) && unchanged(session)
    ensures ValidateLogin(email, password) == None ==>
              && r == SignedIn(Auth.RouteAfterSignIn(old(session.pendingLoginAfterVehicle)))
              && session.isAuthenticated && session.userEmail == Some(email)
              && (old(session.pendingLoginAfterVehicle) == Some(Auth.PENDING_TRUE) ==> session.pendingLoginAfterVehicle == None)
              && (old(session.pendingLoginAfterVehicle) != Some(Auth.PENDING_TRUE) ==>
                    session.pendingLoginAfterVehicle == old(session.pendingLoginAfterVehicle))
  {
    var error := ValidateLogin(email, password);
    if error.Some? {
      return Rejected(error.value);
    }
    if email == "" || password == "" {
      // the `throw new Error('Invalid credentials')` branch: the form check already excluded it
      assert false;
    }
    var route := session.CompleteSignIn(email);
    r := SignedIn(route);
  }
}
