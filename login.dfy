/** The administrator sign-in page. When the server reports that no
    administrator exists yet it runs in setup mode and creates the first one
    (with a confirmed password of at least six characters); otherwise it signs
    in. Both paths go through the session store. */
module Login {
  import opened Wrappers
  import opened JsText
  import AuthContext

  const FillAllText := "Please fill in all fields"
  const MismatchText := "Passwords do not match"
  const ShortPasswordText := "Password must be at least 6 characters"
  const AdminPath := "/admin"

  datatype LoginForm = LoginForm(username: string, password: string, confirmPassword: string)

  /** The request the page sends: the setup of the first administrator, or a
      sign-in. */
  datatype LoginRequest = SetupRequest(username: string, password: string) | SignInRequest(username: string, password: string)

  /** The checks of `handleSubmit`, one per message. */
  datatype LoginFailure = MissingFields | PasswordMismatch | PasswordTooShort

  /** The text shown for each failed check. */
  function FailureMessage(e: LoginFailure): string {
    match e
    case MissingFields => FillAllText
    case PasswordMismatch => MismatchText
    case PasswordTooShort => ShortPasswordText
  }

  /** The checks of `handleSubmit` in their order. Both modes need a
      non-blank username and password; setup mode then checks the
      confirmation before the length (in UTF-16 code units). Sign-in mode
      checks nothing else. */
  function LoginError(f: LoginForm, setupRequired: bool): Option<LoginFailure>
  {
    if Trim(f.username) == "" || Trim(f.password) == "" then Some(MissingFields)
    else if setupRequired && f.password != f.confirmPassword then Some(PasswordMismatch)
    else if setupRequired && JsLength(f.password) < 6 then Some(PasswordTooShort)
    else None
  }

  /** Which check fails, for every form and either mode: blank fields
      first, then in setup mode the confirmation, then the length. */
  lemma LoginErrorCases(f: LoginForm, setupRequired: bool)
    ensures LoginError(f, setupRequired) == Some(MissingFields) <==> IsBlank(f.username) || IsBlank(f.password)
    ensures !setupRequired ==> (LoginError(f, setupRequired).None? <==> !IsBlank(f.username) && !IsBlank(f.password))
    ensures setupRequired ==>
      (LoginError(f, setupRequired).None? <==>
        !IsBlank(f.username) && !IsBlank(f.password) && f.password == f.confirmPassword && JsLength(f.password) >= 6)
    ensures LoginError(f, setupRequired) == Some(PasswordMismatch) <==>
      setupRequired && !IsBlank(f.username) && !IsBlank(f.password) && f.password != f.confirmPassword
    ensures LoginError(f, setupRequired) == Some(PasswordTooShort) <==>
      setupRequired && !IsBlank(f.username) && !IsBlank(f.password) && f.password == f.confirmPassword &&
      JsLength(f.password) < 6
  {
    TrimSpec(f.username);
    TrimSpec(f.password);
  }

  /** Sign-in mode does not look at the confirmation field at all. */
  lemma SignInIgnoresConfirmation(f: LoginForm, otherConfirmation: string)
    ensures LoginError(f, false) == LoginError(f.(confirmPassword := otherConfirmation), false)
  {
  }

  /** The redirect effect: an authenticated session that has finished loading
      goes to the admin page. */
  function LoginRedirect(authLoading: bool, isAuthenticated: bool): (r: Option<string>)
    ensures r.Some? <==> !authLoading && isAuthenticated
    ensures r.Some? ==> r.value == AdminPath
  {
    if !authLoading && isAuthenticated then Some(AdminPath) else None
  }

  class LoginPage {
    var username: string
    var password: string
    var confirmPassword: string
    var error: string
    var loading: bool
    var navigatedTo: Option<string>

    function Form(): LoginForm
      reads this
    {
      LoginForm(username, password, confirmPassword)
    }

    constructor ()
      ensures Form() == LoginForm("", "", "") && error == "" && !loading && navigatedTo == None
    {
      username, password, confirmPassword := "", "", "";
      error, loading, navigatedTo := "", false, None;
    }

    /** `handleSubmit`: a failing check shows its message and calls neither
        `setupAdmin` nor `login`. Otherwise setup mode calls `setupAdmin` and
        sign-in mode calls `login` with the reply `reply`; success navigates
        to the admin page, failure shows the error the store returns. Loading
        is over on every path. */
    method Submit(auth: AuthContext.AuthStore, reply: AuthContext.SessionReply) returns (sent: Option<LoginRequest>)
      requires auth.Valid()
      modifies this, auth
      ensures auth.Valid() && auth.loading == old(auth.loading)
      ensures !loading && Form() == old(Form())
      ensures sent.Some? <==> LoginError(Form(), old(auth.setupRequired)).None?
      ensures sent.None? ==>
        error == FailureMessage(LoginError(Form(), old(auth.setupRequired)).value) && navigatedTo == old(navigatedTo) &&
        auth.token == old(auth.token) && auth.user == old(auth.user) && auth.storage == old(auth.storage) &&
        auth.setupRequired == old(auth.setupRequired)
      ensures sent.Some? && old(auth.setupRequired) ==> sent.value == SetupRequest(username, password)
      ensures sent.Some? && !old(auth.setupRequired) ==> sent.value == SignInRequest(username, password)
      ensures sent.Some? && reply.Issued? ==>
        error == "" && navigatedTo == Some(AdminPath) && !auth.setupRequired &&
        auth.token == Some(reply.token) && auth.user == Some(reply.user) &&
        auth.storage == old(auth.storage)[AuthContext.TokenKey := reply.token]
      ensures sent.Some? && reply.Rejected? ==>
        navigatedTo == old(navigatedTo) && auth.token == old(auth.token) && auth.user == old(auth.user) &&
        auth.storage == old(auth.storage) &&
        auth.setupRequired == old(auth.setupRequired) &&
        error == OrElse(reply.serverError,
                        if old(auth.setupRequired) then AuthContext.SetupFailedText else AuthContext.LoginFailedText)
    {
      error := "";
      loading := true;
      var failure := LoginError(Form(), auth.setupRequired);
      if failure.Some? {
        error := FailureMessage(failure.value);
        loading := false;
        return None;
      }
      var request := Authenticate(auth, reply);
      sent := Some(request);
      loading := false;
    }

    /** The call to the session store once the checks have passed: the
        request it sends, and where a success or failure leaves the page. */
    method Authenticate(auth: AuthContext.AuthStore, reply: AuthContext.SessionReply) returns (request: LoginRequest)
      requires auth.Valid()
      modifies this`error, this`navigatedTo, auth
      ensures auth.Valid() && auth.loading == old(auth.loading)
      ensures request == if old(auth.setupRequired) then SetupRequest(username, password) else SignInRequest(username, password)
      ensures reply.Issued? ==>
        error == old(error) && navigatedTo == Some(AdminPath) && !auth.setupRequired &&
        auth.token == Some(reply.token) && auth.user == Some(reply.user) &&
        auth.storage == old(auth.storage)[AuthContext.TokenKey := reply.token]
      ensures reply.Rejected? ==>
        navigatedTo == old(navigatedTo) && auth.token == old(auth.token) && auth.user == old(auth.user) &&
        auth.storage == old(auth.storage) &&
        auth.setupRequired == old(auth.setupRequired) &&
        error == OrElse(reply.serverError,
                        if old(auth.setupRequired) then AuthContext.SetupFailedText else AuthContext.LoginFailedText)
    {
      var result;
      if auth.setupRequired {
        request := SetupRequest(username, password);
        result := auth.SetupAdmin(reply);
      } else {
        request := SignInRequest(username, password);
        result := auth.Login(reply);
      }
      if result.Succeeded? {
        navigatedTo := Some(AdminPath);
      } else {
        error := result.error;
      }
    }
  }
}
