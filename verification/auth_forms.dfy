/** The submit handlers of the login and signup forms: the checks made
    before any request, the request itself as an abstract outcome, and what
    the form shows and where it goes afterwards. */
module AuthForms {
  import opened JsValue
  import opened JsString

  /** What the form sends to the auth call. */
  datatype Credentials = Credentials(email: string, password: string)

  /** How the auth call turned out; a rejection carries the message of the
      server's response, when there is one. */
  datatype CallOutcome = Succeeded | Failed(serverMessage: Option<string>)

  /** What one submit did: the successive values given to the error banner
      and to `busy`, the credentials of the auth call if one was made, and
      the route navigated to if any. */
  datatype Submission = Submission(
    errorWrites: seq<string>,
    call: Option<Credentials>,
    busyWrites: seq<bool>,
    navigatedTo: Option<string>)

  const Required: string := "Email and password are required"
  const TooShort: string := "Password must be at least 8 characters"
  const MinPasswordLength: nat := 8
  const DashboardRoute: string := "/dashboard"

  /** The check both forms make first: both fields are filled in. */
  function CheckRequired(email: string, password: string): (r: Option<string>)
    ensures r.None? <==> email != "" && password != ""
    ensures r.Some? ==> r.value == Required
  {
    if email == "" || password == "" then Some(Required) else None
  }

  /** The signup form's checks, in order: both fields, then the length of
      the password in UTF-16 code units. */
  function CheckSignup(email: string, password: string): (r: Option<string>)
    ensures r.None? <==> email != "" && Utf16Length(password) >= MinPasswordLength
    ensures email == "" || password == "" ==> r == Some(Required)
    ensures email != "" && password != "" && Utf16Length(password) < MinPasswordLength ==> r == Some(TooShort)
  {
    if CheckRequired(email, password).Some? then CheckRequired(email, password)
    else if Utf16Length(password) < MinPasswordLength then Some(TooShort)
    else None
  }

  /** The `try`/`catch`/`finally` both forms share, once the checks pass. */
  function Attempt(cred: Credentials, outcome: CallOutcome, failMessage: string): (r: Submission)
    ensures r.call == Some(cred) && r.busyWrites == [true, false]
    ensures r.navigatedTo == (if outcome.Succeeded? then Some(DashboardRoute) else None)
    ensures r.errorWrites == (if outcome.Succeeded? then [""] else ["", OrElse(outcome.serverMessage, failMessage)])
  {
    match outcome
    case Succeeded => Submission([""], Some(cred), [true, false], Some(DashboardRoute))
    case Failed(m) => Submission(["", OrElse(m, failMessage)], Some(cred), [true, false], None)
  }

  /** A submit: clear the error, then either show the first failed check
      or make the call. */
  function Submit(check: Option<string>, cred: Credentials, outcome: CallOutcome, failMessage: string): (r: Submission)
    ensures r.errorWrites != [] && r.errorWrites[0] == ""
    ensures r.call.Some? <==> check.None?
    ensures check.Some? ==> r.errorWrites == ["", check.value] && r.busyWrites == [] && r.navigatedTo.None?
    ensures check.None? ==> r == Attempt(cred, outcome, failMessage)
  {
    match check
    case Some(msg) => Submission(["", msg], None, [], None)
    case None => Attempt(cred, outcome, failMessage)
  }

  /** The message the banner ends up showing. */
  function Shown(s: Submission): string
    requires s.errorWrites != []
  {
    s.errorWrites[|s.errorWrites| - 1]
  }

  const SignupFailed: string := "Signup failed"

  /** The signup form's `onSubmit`. */
  function SignupSubmit(email: string, password: string, outcome: CallOutcome): (r: Submission)
    ensures r.errorWrites != [] && r.errorWrites[0] == ""
    ensures r.call.Some? <==> email != "" && Utf16Length(password) >= MinPasswordLength
    ensures r.call.Some? ==> r.call.value == Credentials(email, password)
    ensures email == "" || password == "" ==> r.errorWrites == ["", Required]
    ensures email != "" && password != "" && Utf16Length(password) < MinPasswordLength ==>
              r.errorWrites == ["", TooShort]
    ensures r.navigatedTo.Some? <==> r.call.Some? && outcome.Succeeded?
    ensures r.navigatedTo.Some? ==> r.navigatedTo.value == DashboardRoute
    ensures r.call.Some? ==> r.busyWrites == [true, false]
    ensures r.call.None? ==> r.busyWrites == []
    ensures r.call.Some? && outcome.Succeeded? ==> r.errorWrites == [""]
    ensures r.call.Some? && outcome.Failed? ==>
              r.errorWrites == ["", OrElse(outcome.serverMessage, SignupFailed)]
  {
    Submit(CheckSignup(email, password), Credentials(email, password), outcome, SignupFailed)
  }

  const LoginFailed: string := "Login failed"

  /** The login form's `onSubmit`. */
  function LoginSubmit(email: string, password: string, outcome: CallOutcome): (r: Submission)
    ensures r.errorWrites != [] && r.errorWrites[0] == ""
    ensures r.call.Some? <==> email != "" && password != ""
    ensures r.call.Some? ==> r.call.value == Credentials(email, password)
    ensures r.call.None? ==> r.errorWrites == ["", Required] && r.busyWrites == []
    ensures r.navigatedTo.Some? <==> r.call.Some? && outcome.Succeeded?
    ensures r.navigatedTo.Some? ==> r.navigatedTo.value == DashboardRoute
    ensures r.call.Some? ==> r.busyWrites == [true, false]
    ensures r.call.Some? && outcome.Succeeded? ==> r.errorWrites == [""]
    ensures r.call.Some? && outcome.Failed? ==>
              r.errorWrites == ["", OrElse(outcome.serverMessage, LoginFailed)]
  {
    Submit(CheckRequired(email, password), Credentials(email, password), outcome, LoginFailed)
  }

  /** Whatever signup accepts, login accepts too, with the same call and
      the same navigation; on the missing-field error both forms agree. */
  lemma SignupStricterThanLogin(email: string, password: string, outcome: CallOutcome)
    ensures SignupSubmit(email, password, outcome).call.Some? ==>
              LoginSubmit(email, password, outcome).call == SignupSubmit(email, password, outcome).call
              && LoginSubmit(email, password, outcome).navigatedTo == SignupSubmit(email, password, outcome).navigatedTo
    ensures LoginSubmit(email, password, outcome).call.None? ==>
              SignupSubmit(email, password, outcome) == LoginSubmit(email, password, outcome)
  {
  }

  /** A banner message is shown exactly when the submit did not navigate,
      and it is never empty then. */
  lemma ErrorShownUnlessNavigated(email: string, password: string, outcome: CallOutcome)
    ensures var s := SignupSubmit(email, password, outcome);
            (Shown(s) == "" <==> s.navigatedTo.Some?)
    ensures var l := LoginSubmit(email, password, outcome);
            (Shown(l) == "" <==> l.navigatedTo.Some?)
  {
  }

  /** The length rule counts UTF-16 code units, so four characters outside
      the Basic Multilingual Plane already make a long enough password. */
  lemma FourAstralCharactersSuffice(email: string, outcome: CallOutcome)
    requires email != ""
    ensures SignupSubmit(email, "\U{1F600}\U{1F600}\U{1F600}\U{1F600}", outcome).call.Some?
  {
    var p := "\U{1F600}\U{1F600}\U{1F600}\U{1F600}";
    assert p[1..][1..][1..][1..] == "";
    assert Utf16Length(p) == 8;
  }
}
