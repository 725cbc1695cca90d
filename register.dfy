/** The registration page: an ordered chain of form checks in which the first
    failure is shown and nothing is sent, the registration request, and the
    hand-off of the e-mail address and demo code to the verification screen.
    `register` and `isVerified` are not provided by the session store, so
    they are abstract inputs here. */
module Register {
  import opened Wrappers
  import opened JsText
  import VerifyOtp

  const FillAllText := "Please fill in all fields"
  const ShortUsernameText := "Username must be at least 3 characters"
  const ShortPasswordText := "Password must be at least 6 characters"
  const MismatchText := "Passwords do not match"
  const BadEmailText := "Please enter a valid email address"
  const VerifyOtpPath := "/verify-otp"
  const AdminPath := "/admin"

  datatype RegisterForm = RegisterForm(username: string, password: string, confirmPassword: string, email: string)

  /** The reply of the `register(username, password, email)` capability; in
      demo mode a success carries the issued code. */
  datatype RegisterReply = RegisterOk(otp: Option<string>) | RegisterErr(error: string)

  datatype RegisterRequest = RegisterRequest(username: string, password: string, email: string)

  /** A navigation with its transient router state. */
  datatype Navigation = Navigation(path: string, state: map<string, string>)

  /** A run the class `[^\s@]+` matches: non-empty, with no white space and
      no `@`. */
  predicate IsPlainRun(s: string) {
    |s| > 0 && forall k | 0 <= k < |s| :: !IsJsWhitespace(s[k]) && s[k] != '@'
  }

  /** `/^[^\s@]+@[^\s@]+\.[^\s@]+$/.test(s)`, read off the pattern: a plain
      run, `@`, a plain run, a `.`, a plain run, and nothing else. */
  ghost predicate MatchesEmailPattern(s: string) {
    exists i, j | 0 < i < j < |s| ::
      s[i] == '@' && s[j] == '.' &&
      IsPlainRun(s[..i]) && IsPlainRun(s[i + 1..j]) && IsPlainRun(s[j + 1..])
  }

  /** The e-mail rule the page applies: no white space anywhere, exactly one
      `@`, which is not the first character, and after it a `.` with at least
      one character on each side. */
  predicate IsValidEmail(s: string) {
    (forall k | 0 <= k < |s| :: !IsJsWhitespace(s[k])) &&
    exists i | 0 < i < |s| ::
      s[i] == '@' &&
      (forall k | 0 <= k < |s| && k != i :: s[k] != '@') &&
      (exists j | i + 1 < j < |s| - 1 :: s[j] == '.')
  }

  /** The rule and the pattern accept exactly the same addresses. */
  lemma EmailRuleMatchesPattern(s: string)
    ensures IsValidEmail(s) <==> MatchesEmailPattern(s)
  {
    if IsValidEmail(s) {
      RuleImpliesPattern(s);
    }
    if MatchesEmailPattern(s) {
      PatternImpliesRule(s);
    }
  }

  lemma RuleImpliesPattern(s: string)
    requires IsValidEmail(s)
    ensures MatchesEmailPattern(s)
  {
    var i :| 0 < i < |s| && s[i] == '@' &&
      (forall k | 0 <= k < |s| && k != i :: s[k] != '@') &&
      (exists j | i + 1 < j < |s| - 1 :: s[j] == '.');
    var j :| i + 1 < j < |s| - 1 && s[j] == '.';
    var local, domain, top := s[..i], s[i + 1..j], s[j + 1..];
    assert IsPlainRun(local) by {
      forall k | 0 <= k < |local| ensures !IsJsWhitespace(local[k]) && local[k] != '@' {
        assert local[k] == s[k];
      }
    }
    assert IsPlainRun(domain) by {
      forall k | 0 <= k < |domain| ensures !IsJsWhitespace(domain[k]) && domain[k] != '@' {
        assert domain[k] == s[i + 1 + k];
      }
    }
    assert IsPlainRun(top) by {
      forall k | 0 <= k < |top| ensures !IsJsWhitespace(top[k]) && top[k] != '@' {
        assert top[k] == s[j + 1 + k];
      }
    }
  }

  lemma PatternImpliesRule(s: string)
    requires MatchesEmailPattern(s)
    ensures IsValidEmail(s)
  {
    var i, j :| 0 < i < j < |s| &&
      s[i] == '@' && s[j] == '.' &&
      IsPlainRun(s[..i]) && IsPlainRun(s[i + 1..j]) && IsPlainRun(s[j + 1..]);
    forall k | 0 <= k < |s| && k != i
      ensures !IsJsWhitespace(s[k]) && s[k] != '@'
    {
      if k < i {
        assert s[k] == s[..i][k];
      } else if k < j {
        assert s[k] == s[i + 1..j][k - i - 1];
      } else if j < k {
        assert s[k] == s[j + 1..][k - j - 1];
      }
    }
    assert forall k | 0 <= k < |s| :: !IsJsWhitespace(s[k]);
    assert i + 1 < j < |s| - 1;
  }

  /** The checks of `handleSubmit`, one per message. */
  datatype RegisterFailure = MissingFields | ShortUsername | ShortPassword | PasswordMismatch | InvalidEmail

  /** The text shown for each failed check. */
  function FailureMessage(e: RegisterFailure): string {
    match e
    case MissingFields => FillAllText
    case ShortUsername => ShortUsernameText
    case ShortPassword => ShortPasswordText
    case PasswordMismatch => MismatchText
    case InvalidEmail => BadEmailText
  }

  /** The checks of `handleSubmit` in their order; the first that fails is
      reported, and `None` means the request is sent. Blankness is judged on
      the trimmed fields, the lengths (in UTF-16 code units) on the fields as
      typed. */
  function RegisterError(f: RegisterForm): Option<RegisterFailure> {
    if Trim(f.username) == "" || Trim(f.password) == "" || Trim(f.email) == "" then Some(MissingFields)
    else if JsLength(f.username) < 3 then Some(ShortUsername)
    else if JsLength(f.password) < 6 then Some(ShortPassword)
    else if f.password != f.confirmPassword then Some(PasswordMismatch)
    else if !IsValidEmail(f.email) then Some(InvalidEmail)
    else None
  }

  /** Which check fails, for every form: the first in the order above whose
      condition holds. */
  lemma RegisterErrorCases(f: RegisterForm)
    ensures RegisterError(f).None? <==>
      !IsBlank(f.username) && !IsBlank(f.password) && !IsBlank(f.email) &&
      JsLength(f.username) >= 3 && JsLength(f.password) >= 6 && f.password == f.confirmPassword && IsValidEmail(f.email)
    ensures RegisterError(f) == Some(MissingFields) <==> IsBlank(f.username) || IsBlank(f.password) || IsBlank(f.email)
    ensures RegisterError(f) == Some(ShortUsername) <==>
      !IsBlank(f.username) && !IsBlank(f.password) && !IsBlank(f.email) && JsLength(f.username) < 3
    ensures RegisterError(f) == Some(ShortPassword) <==>
      !IsBlank(f.username) && !IsBlank(f.password) && !IsBlank(f.email) && JsLength(f.username) >= 3 &&
      JsLength(f.password) < 6
    ensures RegisterError(f) == Some(PasswordMismatch) <==>
      !IsBlank(f.username) && !IsBlank(f.password) && !IsBlank(f.email) && JsLength(f.username) >= 3 &&
      JsLength(f.password) >= 6 && f.password != f.confirmPassword
    ensures RegisterError(f) == Some(InvalidEmail) <==>
      !IsBlank(f.username) && !IsBlank(f.password) && !IsBlank(f.email) && JsLength(f.username) >= 3 &&
      JsLength(f.password) >= 6 && f.password == f.confirmPassword && !IsValidEmail(f.email)
  {
    TrimSpec(f.username);
    TrimSpec(f.password);
    TrimSpec(f.email);
  }

  /** The router state handed to the verification screen:
      `{email, otp: result.otp}`, with no `otp` key when the reply had none. */
  function HandOffState(email: string, otp: Option<string>): (state: map<string, string>)
    ensures Get(state, "email") == Some(email) && Get(state, "otp") == otp
    ensures state.Keys <= {"email", "otp"}
  {
    map["email" := email] + (if otp.Some? then map["otp" := otp.value] else map[])
  }

  /** The hand-off names the address `email`, but the verification screen
      reads `mobile`: whatever registration returned, the screen it opens
      finds no mobile number and, once authentication has loaded, sends the
      user back to registration. The demo code does arrive. */
  lemma {:induction false} HandOffRedirectsToRegister(email: string, otp: Option<string>, isAuthenticated: bool, isVerified: bool)
    ensures VerifyOtp.MobileOf(HandOffState(email, otp)) == None
    ensures Get(HandOffState(email, otp), "otp") == otp
    ensures VerifyOtp.EntryRedirect(VerifyOtp.MobileOf(HandOffState(email, otp)), false, isAuthenticated, isVerified)
            == Some(VerifyOtp.RegisterPath)
  {
    var state := HandOffState(email, otp);
    assert "mobile" !in state;
  }

  /** The redirect effect: an authenticated and verified session that has
      finished loading is sent to the admin page. */
  function RegisterRedirect(authLoading: bool, isAuthenticated: bool, isVerified: bool): (r: Option<string>)
    ensures r.Some? <==> !authLoading && isAuthenticated && isVerified
    ensures r.Some? ==> r.value == AdminPath
  {
    if !authLoading && isAuthenticated && isVerified then Some(AdminPath) else None
  }

  class RegisterPage {
    var username: string
    var password: string
    var confirmPassword: string
    var email: string
    var error: string
    var loading: bool
    var navigation: Option<Navigation>

    function Form(): RegisterForm
      reads this
    {
      RegisterForm(username, password, confirmPassword, email)
    }

    constructor ()
      ensures Form() == RegisterForm("", "", "", "") && error == "" && !loading && navigation == None
    {
      username, password, confirmPassword, email := "", "", "", "";
      error, loading, navigation := "", false, None;
    }

    /** `handleSubmit`: a failing check shows its message and nothing is sent;
        otherwise the registration request is sent, a success navigates to
        the verification screen with the hand-off state, and a failure shows
        the reply's error. Loading is over on every path and the form is left
        as typed. */
    method Submit(reply: RegisterReply) returns (sent: Option<RegisterRequest>)
      modifies this`error, this`loading, this`navigation
      ensures !loading && Form() == old(Form())
      ensures sent.Some? <==> RegisterError(Form()).None?
      ensures sent.Some? ==> sent.value == RegisterRequest(username, password, email)
      ensures sent.None? ==> error == FailureMessage(RegisterError(Form()).value) && navigation == old(navigation)
      ensures sent.Some? && reply.RegisterOk? ==>
        error == "" && navigation == Some(Navigation(VerifyOtpPath, HandOffState(email, reply.otp)))
      ensures sent.Some? && reply.RegisterErr? ==> error == reply.error && navigation == old(navigation)
    {
      error := "";
      loading := true;
      var failure := RegisterError(Form());
      if failure.Some? {
        error := FailureMessage(failure.value);
        loading := false;
        return None;
      }
      sent := Some(RegisterRequest(username, password, email));
      Settle(reply);
    }

    /** The outcome of a sent registration: a success navigates to the
        verification screen with the hand-off state, a failure shows the
        reply's error. */
    method Settle(reply: RegisterReply)
      modifies this`error, this`loading, this`navigation
      ensures !loading
      ensures reply.RegisterOk? ==>
        error == old(error) && navigation == Some(Navigation(VerifyOtpPath, HandOffState(email, reply.otp)))
      ensures reply.RegisterErr? ==> error == reply.error && navigation == old(navigation)
    {
      match reply {
        case RegisterOk(otp) =>
          navigation := Some(Navigation(VerifyOtpPath, HandOffState(email, otp)));
        case RegisterErr(e) =>
          error := e;
      }
      loading := false;
    }
  }
}
