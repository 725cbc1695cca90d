/** The application-wide session store (`AuthProvider`): the token and user
    of the signed-in administrator, mirrored into browser storage under the
    key `adminToken`, with the operations the pages call. The HTTP replies
    the provider waits for are parameters of its methods. */
module AuthContext {
  import opened Wrappers
  import opened JsText

  const TokenKey := "adminToken"
  const LoginFailedText := "Login failed. Please try again."
  const SetupFailedText := "Setup failed. Please try again."
  const BearerPrefix := "Bearer "

  /** The user descriptor the server returns with a session. */
  datatype User = User(username: string, isAdmin: bool)

  /** What `login` and `setupAdmin` resolve to: `{success: true}` or
      `{success: false, error}`. */
  datatype ActionResult = Succeeded | Failed(error: string)

  /** The reply to `POST /api/auth/login` or `POST /api/auth/setup`: a new
      token with its user, or a rejection with the server's `error` text
      (empty when the response carries none). */
  datatype SessionReply = Issued(token: string, user: User) | Rejected(serverError: string)

  /** The reply to `GET /api/auth/verify`. */
  datatype VerifyReply = TokenAccepted(user: User) | TokenRejected

  /** The reply to `GET /api/auth/setup-status`. */
  datatype SetupStatusReply = SetupStatus(setupRequired: bool) | SetupStatusFailed

  /** The headers `getAuthHeader` returns: an `Authorization` header carrying
      the token after the `Bearer ` scheme when there is a token, and no
      header at all otherwise. */
  function AuthHeader(token: Option<string>): (h: map<string, string>)
    ensures h.Keys <= {"Authorization"}
    ensures "Authorization" in h <==> IsTruthy(token)
    ensures "Authorization" in h ==>
      StartsWith(h["Authorization"], BearerPrefix) && h["Authorization"][|BearerPrefix|..] == token.value
  {
    if IsTruthy(token) then map["Authorization" := BearerPrefix + token.value] else map[]
  }

  class AuthStore {
    var storage: map<string, string>
    var token: Option<string>
    var user: Option<User>
    var loading: bool
    var setupRequired: bool

    /** The token in state is always the one stored under `adminToken`. */
    ghost predicate Valid()
      reads this
    {
      token == Get(storage, TokenKey)
    }

    /** `!!user && !!token`. */
    predicate IsAuthenticated()
      reads this
      ensures IsAuthenticated() <==> user.Some? && "Authorization" in GetAuthHeader()
    {
      user.Some? && IsTruthy(token)
    }

    /** `user?.isAdmin || false`. */
    predicate IsAdmin()
      reads this
      ensures user == None ==> !IsAdmin()
      ensures user.Some? ==> (IsAdmin() <==> user.value.isAdmin)
    {
      user.Some? && user.value.isAdmin
    }

    /** `getAuthHeader()`. */
    function GetAuthHeader(): (h: map<string, string>)
      reads this
      ensures "Authorization" in h <==> IsTruthy(token)
    {
      AuthHeader(token)
    }

    /** The provider as it mounts: the token is read back from storage, no
        user is known yet and verification is pending. */
    constructor (initialStorage: map<string, string>)
      ensures Valid()
      ensures storage == initialStorage && token == Get(initialStorage, TokenKey)
      ensures user == None && loading && !setupRequired
    {
      storage := initialStorage;
      token := Get(initialStorage, TokenKey);
      user := None;
      loading := true;
      setupRequired := false;
    }

    /** `checkSetupStatus`: a successful reply sets and returns the flag; a
        failed request returns false and leaves the flag as it was. */
    method CheckSetupStatus(reply: SetupStatusReply) returns (required: bool)
      modifies this`setupRequired
      ensures reply.SetupStatus? ==> required == reply.setupRequired && setupRequired == reply.setupRequired
      ensures reply.SetupStatusFailed? ==> !required && setupRequired == old(setupRequired)
    {
      match reply
      case SetupStatus(r) =>
        setupRequired := r;
        required := r;
      case SetupStatusFailed =>
        required := false;
    }

    /** The mount effect `verifyToken`: a stored token is checked with the
        server; a rejected token is removed from storage and state. Then the
        setup status is fetched and loading ends, whatever happened. */
    method VerifyToken(verify: VerifyReply, status: SetupStatusReply)
      requires Valid()
      modifies this
      ensures Valid()
      ensures !loading
      ensures IsTruthy(old(token)) && verify.TokenAccepted? ==>
        user == Some(verify.user) && token == old(token) && storage == old(storage)
      ensures IsTruthy(old(token)) && verify.TokenRejected? ==>
        user == None && token == None && storage == old(storage) - {TokenKey}
      ensures !IsTruthy(old(token)) ==>
        user == old(user) && token == old(token) && storage == old(storage)
      ensures setupRequired == (if status.SetupStatus? then status.setupRequired else old(setupRequired))
    {
      if IsTruthy(token) {
        match verify
        case TokenAccepted(u) =>
          user := Some(u);
        case TokenRejected =>
          storage := storage - {TokenKey};
          token := None;
          user := None;
      }
      var _ := CheckSetupStatus(status);
      loading := false;
    }

    /** `login`: an issued token is written to storage and to state together
        with the user; a rejection reports the server's text, or the default
        text, and changes nothing. */
    method Login(reply: SessionReply) returns (result: ActionResult)
      requires Valid()
      modifies this
      ensures Valid()
      ensures loading == old(loading) && setupRequired == old(setupRequired)
      ensures reply.Issued? ==>
        result == Succeeded && token == Some(reply.token) && user == Some(reply.user) &&
        storage == old(storage)[TokenKey := reply.token]
      ensures reply.Rejected? ==>
        result == Failed(OrElse(reply.serverError, LoginFailedText)) &&
        token == old(token) && user == old(user) && storage == old(storage)
    {
      match reply
      case Issued(t, u) =>
        storage := storage[TokenKey := t];
        token := Some(t);
        user := Some(u);
        result := Succeeded;
      case Rejected(e) =>
        result := Failed(OrElse(e, LoginFailedText));
    }

    /** `setupAdmin`: as `login`, and a success also ends setup mode. */
    method SetupAdmin(reply: SessionReply) returns (result: ActionResult)
      requires Valid()
      modifies this
      ensures Valid()
      ensures loading == old(loading)
      ensures reply.Issued? ==>
        result == Succeeded && token == Some(reply.token) && user == Some(reply.user) &&
        storage == old(storage)[TokenKey := reply.token] && !setupRequired
      ensures reply.Rejected? ==>
        result == Failed(OrElse(reply.serverError, SetupFailedText)) &&
        token == old(token) && user == old(user) && storage == old(storage) &&
        setupRequired == old(setupRequired)
    {
      match reply
      case Issued(t, u) =>
        storage := storage[TokenKey := t];
        token := Some(t);
        user := Some(u);
        setupRequired := false;
        result := Succeeded;
      case Rejected(e) =>
        result := Failed(OrElse(e, SetupFailedText));
    }

    /** `logout`: the stored token, the token and the user are dropped, so the
        session is no longer authenticated and sends no credentials. */
    method Logout()
      requires Valid()
      modifies this
      ensures Valid()
      ensures storage == old(storage) - {TokenKey} && token == None && user == None
      ensures loading == old(loading) && setupRequired == old(setupRequired)
      ensures !IsAuthenticated() && !IsAdmin() && GetAuthHeader() == map[]
    {
      storage := storage - {TokenKey};
      token := None;
      user := None;
    }
  }
}
