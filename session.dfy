/**
 * The refresh-token session store as a state machine. The state is the `users` collection
 * with each user's stored `refreshToken`, together with the ledger of signed tokens; each
 * session handler is a step from one state to the next that also says what the client saw.
 *
 * A login or a refresh overwrites the stored token with a freshly signed one, a refresh is
 * accepted only for the token that is stored, logout clears it, and a password change
 * leaves it alone.
 */
module Session {
  import opened Wrappers
  import opened JsString
  import opened Http
  import opened Mongo
  import opened Crypto
  import opened UserModel
  import AuthMiddleware

  /** The state the session handlers act on. */
  datatype World = World(users: seq<User>, jwt: Ledger)

  /** The `data` of the session responses: `{}`, or `{user, accessToken, refreshToken}`. */
  datatype Payload =
    | NoData
    | SessionData(user: Option<PublicUser>, accessToken: string, refreshToken: string)

  /** The state after a request, and what the client saw. */
  datatype Outcome = Outcome(world: World, ex: Exchange<Payload>)

  datatype TokenPair = TokenPair(accessToken: string, refreshToken: string)

  datatype Issued = Issued(world: World, tokens: TokenPair)

  const IssueFailedMessage := "Something went wrong while generating refresh and access token."
  const IdentifierRequiredMessage := "username and email is required"
  const NoSuchUserMessage := "User doesnot exist."
  const BadCredentialsMessage := "Invalid user credentials"
  const LoggedInMessage := "User Logged in Successfully"
  const LoggedOutMessage := "User Logged Out successfully"
  const MissingRefreshTokenMessage := "unauthorized request"
  const InvalidRefreshTokenMessage := "Invalid refreshToken"
  const StaleRefreshTokenMessage := "RefreshToken is expired or used"
  const RefreshedMessage := "RefreshToken Updated"
  const PasswordRequiredMessage := "Password is required"
  const PasswordTooShortMessage := "password must be 8 digits"
  const PasswordMismatchMessage := "New password does not match"
  const WrongOldPasswordMessage := "old password does not match"
  const PasswordChangedMessage := "Password changed successfully"

  /** The response that sets both cookies and returns both tokens next to the user. */
  function SessionReply(user: Option<PublicUser>, t: TokenPair, message: string): Response<Payload> {
    Response(200,
             [SetCookie("accessToken", t.accessToken, SessionCookieOptions),
              SetCookie("refreshToken", t.refreshToken, SessionCookieOptions)],
             ApiResponse(200, SessionData(user, t.accessToken, t.refreshToken), message))
  }

  // ---------------------------------------------------------------------------
  // generateAccessAndRefreshTokens

  /** `generateAccessAndRefreshTokens(userId)`: sign an access token, then a refresh token,
      store the refresh token on the user and save. A missing user makes the first
      `generate…` call fail on `null`; the `catch` turns that into a 500. */
  function Issue(w: World, cfg: Config, id: ObjectId): (r: Result<Issued, Failure>)
    requires w.jwt.Valid()
    ensures r.Err? <==> FindById(w.users, id).None?
    ensures r.Err? ==> r.error == ApiError(500, IssueFailedMessage)
    ensures r.Ok? ==> r.value.world.jwt.Valid()
  {
    match FindById(w.users, id)
    case None => Err(ApiError(500, IssueFailedMessage))
    case Some(u) =>
      var a := SignToken(w.jwt, AccessClaimsOf(u), cfg.accessTokenSecret, cfg.accessTokenExpiry);
      var f := SignToken(a.ledger, RefreshClaimsOf(u), cfg.refreshTokenSecret, cfg.refreshTokenExpiry);
      var saved := PreSave(u.(refreshToken := Some(f.token)), false);
      Ok(Issued(World(Replace(w.users, saved), f.ledger), TokenPair(a.token, f.token)))
  }

  /** Issuing makes the stored refresh token exactly the freshly signed refresh token and
      changes nothing else of that user or of any other; both tokens are new, and each
      verifies under its own secret to the model's claims. Tokens signed before keep their
      verdicts. */
  lemma IssueStoresRefreshToken(w: World, cfg: Config, id: ObjectId)
    requires w.jwt.Valid() && FindById(w.users, id).Some?
    ensures var u := FindById(w.users, id).value;
            var i := Issue(w, cfg, id).value;
            && FindById(i.world.users, id) == Some(u.(refreshToken := Some(i.tokens.refreshToken)))
            && (forall x :: x != id ==> FindById(i.world.users, x) == FindById(w.users, x))
            && i.tokens.accessToken !in w.jwt.minted && i.tokens.refreshToken !in w.jwt.minted
            && i.tokens.accessToken != i.tokens.refreshToken
            && VerifyToken(i.world.jwt, i.tokens.refreshToken, cfg.refreshTokenSecret) == Ok(RefreshClaims(id))
            && VerifyToken(i.world.jwt, i.tokens.accessToken, cfg.accessTokenSecret) == Ok(AccessClaimsOf(u))
            && (forall t, s :: t in w.jwt.minted ==> VerifyToken(i.world.jwt, t, s) == VerifyToken(w.jwt, t, s))
  {
    var u := FindById(w.users, id).value;
    var a := SignToken(w.jwt, AccessClaimsOf(u), cfg.accessTokenSecret, cfg.accessTokenExpiry);
    var f := SignToken(a.ledger, RefreshClaimsOf(u), cfg.refreshTokenSecret, cfg.refreshTokenExpiry);
    SignThenVerify(a.ledger, RefreshClaimsOf(u), cfg.refreshTokenSecret, cfg.refreshTokenExpiry);
    SignThenVerify(w.jwt, AccessClaimsOf(u), cfg.accessTokenSecret, cfg.accessTokenExpiry);
    SignPreservesVerify(a.ledger, RefreshClaimsOf(u), cfg.refreshTokenSecret, cfg.refreshTokenExpiry, a.token, cfg.accessTokenSecret);
    forall t, s | t in w.jwt.minted
      ensures VerifyToken(f.ledger, t, s) == VerifyToken(w.jwt, t, s)
    {
      SignPreservesVerify(w.jwt, AccessClaimsOf(u), cfg.accessTokenSecret, cfg.accessTokenExpiry, t, s);
      SignPreservesVerify(a.ledger, RefreshClaimsOf(u), cfg.refreshTokenSecret, cfg.refreshTokenExpiry, t, s);
    }
  }

  /** Issuing keeps the schema invariants. */
  lemma IssuePreservesWellFormed(w: World, cfg: Config, id: ObjectId)
    requires w.jwt.Valid() && WellFormed(w.users) && FindById(w.users, id).Some?
    ensures WellFormed(Issue(w, cfg, id).value.world.users)
  {
    var u := FindById(w.users, id).value;
    var i := Issue(w, cfg, id).value;
    var saved := u.(refreshToken := Some(i.tokens.refreshToken));
    assert RecordValid(u) by {
      var k := IndexOfId(w.users, id).value;
      assert w.users[k] == u;
    }
    ReplaceKeepsWellFormed(w.users, saved);
  }

  // ---------------------------------------------------------------------------
  // loginUser

  datatype LoginBody = LoginBody(email: Option<string>, username: Option<string>, password: Option<string>)

  /** The `email` filter value, after the schema's `lowercase` and `trim` setters. */
  function EmailQuery(email: Option<string>): Option<string> {
    match email
    case None => None
    case Some(e) => Some(NormalizeEmail(e))
  }

  /** `loginUser`. An unknown login sends 400 without returning, and the following
      `dbUser.isPasswordCorrect` then fails on `null`. */
  function Login(w: World, cfg: Config, b: LoginBody): (o: Outcome)
    requires w.jwt.Valid()
    ensures o.world.jwt.Valid()
    ensures o.ex.sent.Some? || o.ex.escaped.Some?
  {
    if !(Truthy(b.username) || Truthy(b.email)) then Outcome(w, Thrown(ApiError(400, IdentifierRequiredMessage)))
    else match FindByLogin(w.users, EmailQuery(b.email), b.username)
      case None =>
        Outcome(w, Exchange(Some(ErrorReply(400, NoSuchUserMessage)), Some(TypeError(NullReadMessage("isPasswordCorrect")))))
      case Some(u) =>
        match PasswordCorrect(u, b.password)
        case Err(m) => Outcome(w, Thrown(LibraryError(m)))
        case Ok(correct) =>
          if !correct then Outcome(w, Thrown(ApiError(401, BadCredentialsMessage)))
          else match Issue(w, cfg, u.id)
            case Err(f) => Outcome(w, Thrown(f))
            case Ok(i) =>
              Outcome(i.world, Replied(SessionReply(FindPublicById(i.world.users, u.id), i.tokens, LoggedInMessage)))
  }

  /** A login naming neither a username nor an email is refused with 400 and changes
      nothing. */
  lemma LoginWithoutIdentifier(w: World, cfg: Config, b: LoginBody)
    requires w.jwt.Valid() && !Truthy(b.username) && !Truthy(b.email)
    ensures Login(w, cfg, b) == Outcome(w, Thrown(ApiError(400, IdentifierRequiredMessage)))
  {
  }

  /** An unknown login: the client gets 400 "User doesnot exist.", the handler then fails,
      and nothing changes. */
  lemma LoginUnknownUser(w: World, cfg: Config, b: LoginBody)
    requires w.jwt.Valid() && (Truthy(b.username) || Truthy(b.email))
    requires forall j :: 0 <= j < |w.users| ==> !MatchesLogin(w.users[j], EmailQuery(b.email), b.username)
    ensures Login(w, cfg, b).world == w
    ensures Login(w, cfg, b).ex.sent == Some(ErrorReply(400, NoSuchUserMessage))
    ensures Login(w, cfg, b).ex.escaped.Some?
  {
  }

  /** A wrong password is refused with 401 and leaves the store, and so the stored refresh
      token, unchanged. */
  lemma LoginWrongPassword(w: World, cfg: Config, b: LoginBody, p: string)
    requires w.jwt.Valid() && (Truthy(b.username) || Truthy(b.email))
    requires FindByLogin(w.users, EmailQuery(b.email), b.username).Some?
    requires b.password == Some(p)
    requires FindByLogin(w.users, EmailQuery(b.email), b.username).value.password != BcryptHash(p)
    ensures Login(w, cfg, b) == Outcome(w, Thrown(ApiError(401, BadCredentialsMessage)))
  {
  }

  /** A successful login: status 200, the refresh token in the cookie, in the body and in the
      store is one and the same string, the access token in the cookie is the one in the
      body, the user in the body is the one found, without secrets, and the password given
      was that user's. */
  lemma LoginIssuesSession(w: World, cfg: Config, b: LoginBody)
    requires w.jwt.Valid() && UniqueKeys(w.users)
    requires Login(w, cfg, b).ex.escaped.None?
    ensures FindByLogin(w.users, EmailQuery(b.email), b.username).Some?
    ensures var o := Login(w, cfg, b);
            var u := FindByLogin(w.users, EmailQuery(b.email), b.username).value;
            && PasswordCorrect(u, b.password) == Ok(true)
            && o.ex.sent.Some? && o.ex.sent.value.status == 200
            && o.ex.sent.value.body.ApiResponse? && o.ex.sent.value.body.data.SessionData?
            && var d := o.ex.sent.value.body.data;
               && o.ex.sent.value.cookies
                  == [SetCookie("accessToken", d.accessToken, SessionCookieOptions),
                      SetCookie("refreshToken", d.refreshToken, SessionCookieOptions)]
               && d.user == Some(Public(u))
               && FindById(o.world.users, u.id) == Some(u.(refreshToken := Some(d.refreshToken)))
               && VerifyToken(o.world.jwt, d.refreshToken, cfg.refreshTokenSecret) == Ok(RefreshClaims(u.id))
               && VerifyToken(o.world.jwt, d.accessToken, cfg.accessTokenSecret) == Ok(AccessClaimsOf(u))
  {
    assert Truthy(b.username) || Truthy(b.email);
    var u := FindByLogin(w.users, EmailQuery(b.email), b.username).value;
    assert PasswordCorrect(u, b.password) == Ok(true);
    FindStored(w.users, u);
    var i := Issue(w, cfg, u.id).value;
    assert Login(w, cfg, b) == Outcome(i.world, Replied(SessionReply(FindPublicById(i.world.users, u.id), i.tokens, LoggedInMessage)));
    IssueStoresRefreshToken(w, cfg, u.id);
    PublicIgnoresSecrets(u, u.password, Some(i.tokens.refreshToken));
    assert FindPublicById(i.world.users, u.id) == Some(Public(u));
  }

  /** A login that names a stored user and gives that user's password succeeds: status 200,
      nothing escapes, and the world is the issuing step's for that user. */
  lemma LoginSucceeds(w: World, cfg: Config, b: LoginBody, p: string)
    requires w.jwt.Valid() && UniqueKeys(w.users) && (Truthy(b.username) || Truthy(b.email))
    requires FindByLogin(w.users, EmailQuery(b.email), b.username).Some?
    requires b.password == Some(p)
    requires FindByLogin(w.users, EmailQuery(b.email), b.username).value.password == BcryptHash(p)
    ensures var u := FindByLogin(w.users, EmailQuery(b.email), b.username).value;
            var o := Login(w, cfg, b);
            && Issue(w, cfg, u.id).Ok?
            && o.ex.escaped.None? && o.ex.sent.Some? && o.ex.sent.value.status == 200
            && o.world == Issue(w, cfg, u.id).value.world
  {
    var u := FindByLogin(w.users, EmailQuery(b.email), b.username).value;
    FindStored(w.users, u);
    assert PasswordCorrect(u, b.password) == Ok(true);
  }

  /** A login for a stored user without a password: bcrypt throws, and the client gets a
      500 with the library's message; nothing changes. */
  lemma LoginWithoutPassword(w: World, cfg: Config, b: LoginBody)
    requires w.jwt.Valid() && (Truthy(b.username) || Truthy(b.email))
    requires FindByLogin(w.users, EmailQuery(b.email), b.username).Some?
    requires b.password.None?
    ensures Login(w, cfg, b) == Outcome(w, Thrown(LibraryError(MissingArgumentsMessage)))
    ensures Login(w, cfg, b).ex.DeliveredStatus() == Some(500)
  {
  }

  // ---------------------------------------------------------------------------
  // logoutUser

  /** `logoutUser` for the user the gate put on the request: `$unset` the stored refresh
      token, clear both cookies. */
  function Logout(w: World, user: PublicUser): (o: Outcome)
    ensures o.world.jwt == w.jwt
    ensures o.ex.escaped.None? && o.ex.sent.Some? && o.ex.sent.value.status == 200
  {
    Outcome(World(UnsetRefreshToken(w.users, user.id), w.jwt),
            Replied(Response(200,
                             [ClearCookie("accessToken", SessionCookieOptions),
                              ClearCookie("refreshToken", SessionCookieOptions)],
                             ApiResponse(200, NoData, LoggedOutMessage))))
  }

  /** Logging out keeps the schema invariants. */
  lemma LogoutPreservesWellFormed(w: World, user: PublicUser)
    requires WellFormed(w.users)
    ensures WellFormed(Logout(w, user).world.users)
  {
    match FindById(w.users, user.id)
    case None =>
    case Some(u) =>
      assert RecordValid(u) by {
        assert w.users[IndexOfId(w.users, user.id).value] == u;
      }
      ReplaceKeepsWellFormed(w.users, u.(refreshToken := None));
  }

  // ---------------------------------------------------------------------------
  // refreshAccessToken

  datatype Rotated = Rotated(issued: Issued, user: Option<PublicUser>)

  /** The `try` block of `refreshAccessToken` for the presented token `t`: verify it under
      the refresh secret, find its user, insist it is the stored token, then issue a new
      pair. */
  function TryRotate(w: World, cfg: Config, t: string): (r: Result<Rotated, Failure>)
    requires w.jwt.Valid()
    ensures r.Err? ==> Message(r.error) != ""
    ensures r.Ok? ==> r.value.issued.world.jwt.Valid()
  {
    match VerifyToken(w.jwt, t, cfg.refreshTokenSecret)
    case Err(m) => Err(LibraryError(m))
    case Ok(c) =>
      match FindById(w.users, c.id)
      case None => Err(ApiError(401, InvalidRefreshTokenMessage))
      case Some(u) =>
        if Some(t) != u.refreshToken then Err(ApiError(401, StaleRefreshTokenMessage))
        else match Issue(w, cfg, u.id)
          case Err(f) => Err(f)
          case Ok(i) => Ok(Rotated(i, FindPublicById(i.world.users, u.id)))
  }

  /** `refreshAccessToken` with the `refreshToken` cookie and the `refreshToken` field of the
      body; whatever fails inside the `try` block is rethrown as a 401. */
  function Refresh(w: World, cfg: Config, cookie: Option<string>, body: Option<string>): (o: Outcome)
    requires w.jwt.Valid()
    ensures o.world.jwt.Valid()
  {
    var incoming := Or(cookie, body);
    if !Truthy(incoming) then Outcome(w, Thrown(ApiError(401, MissingRefreshTokenMessage)))
    else match TryRotate(w, cfg, incoming.value)
      case Err(f) => Outcome(w, Thrown(Rethrow401(f, InvalidRefreshTokenMessage)))
      case Ok(r) => Outcome(r.issued.world, Replied(SessionReply(r.user, r.issued.tokens, RefreshedMessage)))
  }

  /** A truthy cookie is used whatever the body holds. */
  lemma RefreshPrefersCookie(w: World, cfg: Config, cookie: Option<string>, body1: Option<string>, body2: Option<string>)
    requires w.jwt.Valid() && Truthy(cookie)
    ensures Refresh(w, cfg, cookie, body1) == Refresh(w, cfg, cookie, body2) == Refresh(w, cfg, cookie, None)
  {
  }

  /** Without a token in cookie or body: 401, and the store is unchanged. */
  lemma RefreshWithoutToken(w: World, cfg: Config, cookie: Option<string>, body: Option<string>)
    requires w.jwt.Valid() && !Truthy(cookie) && !Truthy(body)
    ensures Refresh(w, cfg, cookie, body) == Outcome(w, Thrown(ApiError(401, MissingRefreshTokenMessage)))
  {
  }

  /** Every failure of a refresh reaches the client as a 401 carrying the original message,
      nothing is sent before it, and the store is unchanged; a refresh that does not fail
      answers 200. */
  lemma RefreshFailsWith401(w: World, cfg: Config, cookie: Option<string>, body: Option<string>)
    requires w.jwt.Valid()
    ensures var o := Refresh(w, cfg, cookie, body);
            if o.ex.escaped.Some? then
              && o.ex.sent.None? && o.world == w
              && o.ex.escaped.value.ApiError? && o.ex.DeliveredStatus() == Some(401)
              && (Truthy(Or(cookie, body)) ==>
                    && TryRotate(w, cfg, Or(cookie, body).value).Err?
                    && o.ex.escaped.value.message == Message(TryRotate(w, cfg, Or(cookie, body).value).error))
            else o.ex.sent.Some? && o.ex.sent.value.status == 200
  {
  }

  /** A presented token that verifies but is not the one stored is refused with 401
      "RefreshToken is expired or used", and nothing rotates. */
  lemma RefreshMismatchDoesNotRotate(w: World, cfg: Config, cookie: Option<string>, body: Option<string>)
    requires w.jwt.Valid() && Truthy(Or(cookie, body))
    requires var t := Or(cookie, body).value;
             && VerifyToken(w.jwt, t, cfg.refreshTokenSecret).Ok?
             && FindById(w.users, VerifyToken(w.jwt, t, cfg.refreshTokenSecret).value.id).Some?
             && FindById(w.users, VerifyToken(w.jwt, t, cfg.refreshTokenSecret).value.id).value.refreshToken != Some(t)
    ensures Refresh(w, cfg, cookie, body) == Outcome(w, Thrown(ApiError(401, StaleRefreshTokenMessage)))
  {
  }

  /** After a successful refresh the stored token is the new one: presenting the previous
      token again is refused as expired or used, and presenting the new one succeeds. */
  lemma RotationRetiresPreviousToken(w: World, cfg: Config, t: string)
    requires w.jwt.Valid()
    requires Refresh(w, cfg, Some(t), None).ex.escaped.None?
    ensures var o := Refresh(w, cfg, Some(t), None);
            var renewed := o.ex.sent.value.body.data.refreshToken;
            && Refresh(o.world, cfg, Some(t), None) == Outcome(o.world, Thrown(ApiError(401, StaleRefreshTokenMessage)))
            && Refresh(o.world, cfg, Some(renewed), None).ex.escaped.None?
  {
    var c := VerifyToken(w.jwt, t, cfg.refreshTokenSecret).value;
    var u := FindById(w.users, c.id).value;
    var i := Issue(w, cfg, u.id).value;
    IssueStoresRefreshToken(w, cfg, u.id);
    var renewed := i.tokens.refreshToken;
    assert Refresh(w, cfg, Some(t), None).ex.sent.value.body.data.refreshToken == renewed;
    assert t in w.jwt.minted;
    // the previous token still verifies, but it is no longer the stored one
    assert VerifyToken(i.world.jwt, t, cfg.refreshTokenSecret) == Ok(c);
    assert FindById(i.world.users, c.id).value.refreshToken == Some(renewed) != Some(t);
    // the new token verifies to this user and is the stored one
    assert VerifyToken(i.world.jwt, renewed, cfg.refreshTokenSecret) == Ok(RefreshClaims(u.id));
    assert renewed != "";
    assert TryRotate(i.world, cfg, renewed).Ok?;
  }

  /** After logout no token of that user refreshes: every attempt is refused with 401
      "RefreshToken is expired or used" and changes nothing. */
  lemma LogoutRevokesRefresh(w: World, user: PublicUser, cfg: Config, cookie: Option<string>, body: Option<string>)
    requires w.jwt.Valid() && FindById(w.users, user.id).Some?
    requires Truthy(Or(cookie, body))
    requires VerifyToken(w.jwt, Or(cookie, body).value, cfg.refreshTokenSecret).Ok?
    requires VerifyToken(w.jwt, Or(cookie, body).value, cfg.refreshTokenSecret).value.id == user.id
    ensures var after := Logout(w, user).world;
            Refresh(after, cfg, cookie, body) == Outcome(after, Thrown(ApiError(401, StaleRefreshTokenMessage)))
  {
    var after := Logout(w, user).world;
    assert FindById(after.users, user.id).value.refreshToken == None;
  }

  /** An access token stays good after logout: logging out changes no verdict of the gate. */
  lemma GatePassesAfterLogout(w: World, user: PublicUser, cfg: Config, cookie: Option<string>, authorization: Option<string>)
    ensures AuthMiddleware.Gate(Logout(w, user).world.users, Logout(w, user).world.jwt, cfg, cookie, authorization)
         == AuthMiddleware.Gate(w.users, w.jwt, cfg, cookie, authorization)
  {
    AuthMiddleware.GateIgnoresRefreshToken(w.users, w.jwt, cfg, user.id, cookie, authorization);
  }

  /** Refreshing keeps the schema invariants. */
  lemma RefreshPreservesWellFormed(w: World, cfg: Config, cookie: Option<string>, body: Option<string>)
    requires w.jwt.Valid() && WellFormed(w.users)
    ensures WellFormed(Refresh(w, cfg, cookie, body).world.users)
  {
    var incoming := Or(cookie, body);
    if Truthy(incoming) && TryRotate(w, cfg, incoming.value).Ok? {
      var c := VerifyToken(w.jwt, incoming.value, cfg.refreshTokenSecret).value;
      IssuePreservesWellFormed(w, cfg, c.id);
    }
  }

  // ---------------------------------------------------------------------------
  // changeCurrentPassword

  datatype PasswordChange = PasswordChange(oldPassword: Option<string>, newPassword: Option<string>, confirmPassword: Option<string>)

  /** The three checks on the request body, in order; `None` when all pass. */
  function PasswordChecks(b: PasswordChange): (r: Option<Failure>)
    ensures r.None? <==> Truthy(b.newPassword) && b.newPassword == b.confirmPassword && Utf16Length(b.newPassword.value) >= 8
    ensures r.Some? ==> r.value.ApiError? && r.value.status == 401
  {
    if !Truthy(Or(Or(b.newPassword, b.newPassword), b.confirmPassword)) then Some(ApiError(401, PasswordRequiredMessage))
    else if Utf16Length(Or(b.newPassword, b.confirmPassword).value) < 8 then Some(ApiError(401, PasswordTooShortMessage))
    else if b.newPassword != b.confirmPassword then Some(ApiError(401, PasswordMismatchMessage))
    else None
  }

  /** `changeCurrentPassword` for the user the gate put on the request. */
  function ChangePassword(w: World, user: PublicUser, b: PasswordChange): (o: Outcome)
    ensures o.world.jwt == w.jwt
  {
    match PasswordChecks(b)
    case Some(f) => Outcome(w, Thrown(f))
    case None =>
      match FindById(w.users, user.id)
      case None => Outcome(w, Thrown(TypeError(NullReadMessage("isPasswordCorrect"))))
      case Some(u) =>
        match PasswordCorrect(u, b.oldPassword)
        case Err(m) => Outcome(w, Thrown(LibraryError(m)))
        case Ok(correct) =>
          if !correct then Outcome(w, Thrown(ApiError(400, WrongOldPasswordMessage)))
          else
            // `isModified("password")` is false when the new value equals the stored hash
            var saved := PreSave(u.(password := b.newPassword.value), b.newPassword.value != u.password);
            Outcome(World(Replace(w.users, saved), w.jwt),
                    Replied(Response(200, [], ApiResponse(200, NoData, PasswordChangedMessage))))
  }

  /** The checks run in order, the first failing one picks the answer, and none of them
      changes anything. */
  lemma {:induction false} ChangePasswordCheckOrder(w: World, user: PublicUser, b: PasswordChange)
    ensures var n, c := b.newPassword, b.confirmPassword;
            var o := ChangePassword(w, user, b);
            && (!Truthy(n) && !Truthy(c) ==> o == Outcome(w, Thrown(ApiError(401, PasswordRequiredMessage))))
            && (Truthy(n) && Utf16Length(n.value) < 8 ==> o == Outcome(w, Thrown(ApiError(401, PasswordTooShortMessage))))
            && (!Truthy(n) && Truthy(c) && Utf16Length(c.value) < 8 ==> o == Outcome(w, Thrown(ApiError(401, PasswordTooShortMessage))))
            && ((Truthy(Or(n, c)) && Utf16Length(Or(n, c).value) >= 8 && n != c) ==>
                  o == Outcome(w, Thrown(ApiError(401, PasswordMismatchMessage))))
            && ((PasswordChecks(b).None? && FindById(w.users, user.id).Some? && b.oldPassword.Some?
                 && PasswordCorrect(FindById(w.users, user.id).value, b.oldPassword) == Ok(false)) ==>
                  o == Outcome(w, Thrown(ApiError(400, WrongOldPasswordMessage))))
  {
  }

  /** A password change that writes anything has passed every check; it stores the hash of
      the new password, so the new password now checks and no other does, and it leaves the
      refresh token, every other field and every other user as they were. */
  lemma ChangePasswordReplacesOnlyPassword(w: World, user: PublicUser, b: PasswordChange)
    requires ChangePassword(w, user, b).ex.escaped.None?
    ensures PasswordChecks(b).None? && FindById(w.users, user.id).Some?
    ensures var u := FindById(w.users, user.id).value;
            var n := b.newPassword.value;
            var o := ChangePassword(w, user, b);
            && PasswordCorrect(u, b.oldPassword) == Ok(true)
            && FindById(o.world.users, user.id) == Some(u.(password := if n != u.password then BcryptHash(n) else u.password))
            && FindById(o.world.users, user.id).value.refreshToken == u.refreshToken
            && (forall x :: x != user.id ==> FindById(o.world.users, x) == FindById(w.users, x))
            && (n != u.password ==>
                  forall q :: PasswordCorrect(FindById(o.world.users, user.id).value, Some(q)) == Ok(q == n))
  {
    var u := FindById(w.users, user.id).value;
    forall q ensures PasswordCorrect(u.(password := BcryptHash(b.newPassword.value)), Some(q)) == Ok(q == b.newPassword.value) {
      SavedPasswordChecks(u, b.newPassword.value, q);
    }
  }

  /** A new password equal to the stored hash string is not a modification: the hash is
      kept as it is, so the old password still checks and the new one does only if it
      happens to be the old one. */
  lemma ChangePasswordToStoredHashKeepsOld(w: World, user: PublicUser, b: PasswordChange)
    requires ChangePassword(w, user, b).ex.escaped.None?
    requires FindById(w.users, user.id).Some? && b.newPassword == Some(FindById(w.users, user.id).value.password)
    ensures var u := FindById(w.users, user.id).value;
            var o := ChangePassword(w, user, b);
            && o.ex.sent.Some? && o.ex.sent.value.status == 200
            && FindById(o.world.users, user.id) == Some(u)
            && forall q :: PasswordCorrect(FindById(o.world.users, user.id).value, Some(q)) == PasswordCorrect(u, Some(q))
  {
    ChangePasswordReplacesOnlyPassword(w, user, b);
  }

  /** A failed password change changes nothing. */
  lemma ChangePasswordFailureChangesNothing(w: World, user: PublicUser, b: PasswordChange)
    requires ChangePassword(w, user, b).ex.escaped.Some?
    ensures ChangePassword(w, user, b).world == w && ChangePassword(w, user, b).ex.sent.None?
  {
  }

  /** Changing the password keeps the schema invariants. */
  lemma ChangePasswordPreservesWellFormed(w: World, user: PublicUser, b: PasswordChange)
    requires WellFormed(w.users)
    ensures WellFormed(ChangePassword(w, user, b).world.users)
  {
    if ChangePassword(w, user, b).ex.escaped.None? {
      ChangePasswordReplacesOnlyPassword(w, user, b);
      var u := FindById(w.users, user.id).value;
      var n := b.newPassword.value;
      var saved := u.(password := if n != u.password then BcryptHash(n) else u.password);
      assert ChangePassword(w, user, b).world.users == Replace(w.users, saved);
      assert RecordValid(u) by {
        assert w.users[IndexOfId(w.users, user.id).value] == u;
      }
      ReplaceKeepsWellFormed(w.users, saved);
    } else {
      ChangePasswordFailureChangesNothing(w, user, b);
    }
  }

  /** A failed login changes nothing. */
  lemma LoginFailureChangesNothing(w: World, cfg: Config, b: LoginBody)
    requires w.jwt.Valid() && Login(w, cfg, b).ex.escaped.Some?
    ensures Login(w, cfg, b).world == w
  {
  }

  /** A successful login is the issuing step for the user found. */
  lemma LoginSuccessIssues(w: World, cfg: Config, b: LoginBody)
    requires w.jwt.Valid() && Login(w, cfg, b).ex.escaped.None?
    ensures FindByLogin(w.users, EmailQuery(b.email), b.username).Some?
    ensures var id := FindByLogin(w.users, EmailQuery(b.email), b.username).value.id;
            FindById(w.users, id).Some? && Login(w, cfg, b).world == Issue(w, cfg, id).value.world
  {
    assert Truthy(b.username) || Truthy(b.email);
    var u := FindByLogin(w.users, EmailQuery(b.email), b.username).value;
    assert PasswordCorrect(u, b.password) == Ok(true);
  }

  /** Logging in keeps the schema invariants. */
  lemma LoginPreservesWellFormed(w: World, cfg: Config, b: LoginBody)
    requires w.jwt.Valid() && WellFormed(w.users)
    ensures WellFormed(Login(w, cfg, b).world.users)
  {
    if Login(w, cfg, b).ex.escaped.None? {
      LoginSuccessIssues(w, cfg, b);
      var u := FindByLogin(w.users, EmailQuery(b.email), b.username).value;
      IssuePreservesWellFormed(w, cfg, u.id);
    } else {
      LoginFailureChangesNothing(w, cfg, b);
    }
  }
}
