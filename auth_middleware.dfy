/**
 * The `verifyJWT` gate in front of the secured routes: where the access token is read
 * from, the order of its checks, and what it leaves on the request for the handler.
 *
 * Every failure inside the gate is caught and rethrown as a 401 that keeps the message of
 * what was caught, so the client sees the verifier's own message for a bad token.
 */
module AuthMiddleware {
  import opened Wrappers
  import opened JsString
  import opened Http
  import opened Mongo
  import opened Crypto
  import opened UserModel

  const BearerPrefix := "Bearer "
  const UnauthorizedMessage := "Unauthorized request"
  const InvalidAccessTokenMessage := "Invalid access token"

  /** `req.cookies?.accessToken || req.header("Authorization")?.replace("Bearer ", "")`. */
  function ExtractAccessToken(cookie: Option<string>, authorization: Option<string>): Option<string> {
    Or(cookie, match authorization
               case None => None
               case Some(h) => Some(ReplaceFirst(h, BearerPrefix, "")))
  }

  /** A truthy cookie wins over any header. */
  lemma CookieTokenPreferred(cookie: Option<string>, a: Option<string>, b: Option<string>)
    requires Truthy(cookie)
    ensures ExtractAccessToken(cookie, a) == cookie == ExtractAccessToken(cookie, b)
  {
  }

  /** Without a cookie, `Authorization: Bearer <t>` yields `t`. */
  lemma BearerHeaderYieldsToken(cookie: Option<string>, t: string)
    requires !Truthy(cookie)
    ensures ExtractAccessToken(cookie, Some(BearerPrefix + t)) == Some(t)
  {
    ReplaceLeadingPattern(BearerPrefix, t);
  }

  /** A header without "Bearer " is taken as it is. */
  lemma HeaderWithoutBearerTakenWhole(cookie: Option<string>, h: string)
    requires !Truthy(cookie) && !Includes(h, BearerPrefix)
    ensures ExtractAccessToken(cookie, Some(h)) == Some(h)
  {
    ReplaceAbsentPattern(h, BearerPrefix, "");
  }

  /** The check chain inside the `try` block: the user to put on the request, or what was
      thrown there. */
  function Checks(users: seq<User>, jwt: Ledger, cfg: Config, token: Option<string>): (r: Result<PublicUser, Failure>)
    ensures r.Ok? ==> Truthy(token) && VerifyToken(jwt, token.value, cfg.accessTokenSecret).Ok?
    ensures r.Ok? ==> var c := VerifyToken(jwt, token.value, cfg.accessTokenSecret).value;
                      FindById(users, c.id).Some? && r.value == Public(FindById(users, c.id).value)
    ensures r.Err? ==> Message(r.error) != ""
  {
    if !Truthy(token) then Err(ApiError(401, UnauthorizedMessage))
    else match VerifyToken(jwt, token.value, cfg.accessTokenSecret)
      case Err(m) => Err(LibraryError(m))
      case Ok(c) =>
        match FindById(users, c.id)
        case None => Err(ApiError(401, InvalidAccessTokenMessage))
        case Some(u) => Ok(Public(u))
  }

  /** What `verifyJWT` decides: the user for `req.user`, or the error it throws. */
  function Gate(users: seq<User>, jwt: Ledger, cfg: Config, cookie: Option<string>, authorization: Option<string>): (r: Result<PublicUser, Failure>)
    ensures r.Err? ==> r.error.ApiError? && r.error.status == 401
    ensures r.Ok? <==> Checks(users, jwt, cfg, ExtractAccessToken(cookie, authorization)).Ok?
  {
    match Checks(users, jwt, cfg, ExtractAccessToken(cookie, authorization))
    case Ok(u) => Ok(u)
    case Err(f) => Err(Rethrow401(f, InvalidAccessTokenMessage))
  }

  /** No token: 401 "Unauthorized request", and only then. */
  lemma GateWithoutToken(users: seq<User>, jwt: Ledger, cfg: Config, cookie: Option<string>, authorization: Option<string>)
    requires jwt.Valid()
    ensures Gate(users, jwt, cfg, cookie, authorization) == Err(ApiError(401, UnauthorizedMessage))
        <==> !Truthy(ExtractAccessToken(cookie, authorization))
  {
  }

  /** A token the verifier rejects: 401 with the verifier's message. */
  lemma GateReportsVerifierMessage(users: seq<User>, jwt: Ledger, cfg: Config, cookie: Option<string>, authorization: Option<string>)
    requires Truthy(ExtractAccessToken(cookie, authorization))
    requires VerifyToken(jwt, ExtractAccessToken(cookie, authorization).value, cfg.accessTokenSecret).Err?
    ensures Gate(users, jwt, cfg, cookie, authorization)
         == Err(ApiError(401, VerifyToken(jwt, ExtractAccessToken(cookie, authorization).value, cfg.accessTokenSecret).error))
  {
  }

  /** A valid token whose `_id` has no user: 401 "Invalid access token". */
  lemma GateRejectsUnknownUser(users: seq<User>, jwt: Ledger, cfg: Config, cookie: Option<string>, authorization: Option<string>)
    requires Truthy(ExtractAccessToken(cookie, authorization))
    requires VerifyToken(jwt, ExtractAccessToken(cookie, authorization).value, cfg.accessTokenSecret).Ok?
    requires FindById(users, VerifyToken(jwt, ExtractAccessToken(cookie, authorization).value, cfg.accessTokenSecret).value.id).None?
    ensures Gate(users, jwt, cfg, cookie, authorization) == Err(ApiError(401, InvalidAccessTokenMessage))
  {
  }

  /** An access token signed for a stored user admits that user, without password or
      refresh token. */
  lemma GateAdmitsIssuedAccessToken(users: seq<User>, l: Ledger, cfg: Config, u: User, expiresIn: string, authorization: Option<string>)
    requires l.Valid() && FindById(users, u.id) == Some(u)
    ensures var s := SignToken(l, AccessClaimsOf(u), cfg.accessTokenSecret, expiresIn);
            Gate(users, s.ledger, cfg, Some(s.token), authorization) == Ok(Public(u))
  {
    SignThenVerify(l, AccessClaimsOf(u), cfg.accessTokenSecret, expiresIn);
  }

  /** With distinct secrets, a refresh token does not pass the gate. */
  lemma GateRejectsRefreshToken(users: seq<User>, l: Ledger, cfg: Config, u: User, authorization: Option<string>)
    requires l.Valid() && cfg.accessTokenSecret != cfg.refreshTokenSecret
    ensures var s := SignToken(l, RefreshClaimsOf(u), cfg.refreshTokenSecret, cfg.refreshTokenExpiry);
            Gate(users, s.ledger, cfg, Some(s.token), authorization) == Err(ApiError(401, InvalidSignatureMessage))
  {
    SignedRejectsOtherSecret(l, RefreshClaimsOf(u), cfg.refreshTokenSecret, cfg.refreshTokenExpiry, cfg.accessTokenSecret);
  }

  /** The gate never reads refresh tokens: clearing one changes no verdict. */
  lemma GateIgnoresRefreshToken(users: seq<User>, jwt: Ledger, cfg: Config, id: ObjectId, cookie: Option<string>, authorization: Option<string>)
    ensures Gate(UnsetRefreshToken(users, id), jwt, cfg, cookie, authorization) == Gate(users, jwt, cfg, cookie, authorization)
  {
    var t := ExtractAccessToken(cookie, authorization);
    if Truthy(t) && VerifyToken(jwt, t.value, cfg.accessTokenSecret).Ok? {
      var c := VerifyToken(jwt, t.value, cfg.accessTokenSecret).value;
      if c.id == id && FindById(users, id).Some? {
        PublicIgnoresSecrets(FindById(users, id).value, FindById(users, id).value.password, None);
      }
    }
  }

  /** The request as far as the gate is concerned. */
  class Request {
    const accessTokenCookie: Option<string>
    const authorization: Option<string>
    var user: Option<PublicUser>

    constructor (cookie: Option<string>, header: Option<string>)
      ensures accessTokenCookie == cookie && authorization == header && user == None
    {
      accessTokenCookie := cookie;
      authorization := header;
      user := None;
    }

    /** `verifyJWT(req, res, next)`: on success `req.user` is set and `next` is called;
        otherwise the error escapes and `req.user` is left alone. */
    method VerifyJwt(users: UserCollection, jwt: JwtService, cfg: Config) returns (nextCalled: bool, escaped: Option<Failure>)
      modifies this
      ensures match Gate(users.records, jwt.ledger, cfg, accessTokenCookie, authorization)
              case Ok(p) => nextCalled && escaped.None? && user == Some(p)
              case Err(f) => !nextCalled && escaped == Some(f) && user == old(user)
    {
      var accessToken := ExtractAccessToken(accessTokenCookie, authorization);
      var caught: Failure;
      if !Truthy(accessToken) {
        caught := ApiError(401, UnauthorizedMessage);
      } else {
        var decoded := jwt.Verify(accessToken.value, cfg.accessTokenSecret);
        if decoded.Err? {
          caught := LibraryError(decoded.error);
        } else {
          var authUser := users.FindPublic(decoded.value.id);
          if authUser.None? {
            caught := ApiError(401, InvalidAccessTokenMessage);
          } else {
            user := authUser;
            nextCalled, escaped := true, None;
            return;
          }
        }
      }
      nextCalled, escaped := false, Some(Rethrow401(caught, InvalidAccessTokenMessage));
    }
  }
}
