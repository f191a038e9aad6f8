/**
 * The user controller: the session handlers, which fetch a user document, change it and
 * save it, and the validation prefixes and profile counts of the other handlers, which are
 * pure checks and counts.
 *
 * Each session handler is proved to have exactly the effect and the answer of the matching
 * step of the session state machine.
 */
module UserController {
  import opened Wrappers
  import opened JsString
  import opened Http
  import opened Mongo
  import opened Crypto
  import opened UserModel
  import opened Seqs
  import opened Session

  // ---------------------------------------------------------------------------
  // Session handlers

  /** `generateAccessAndRefreshTokens(userId)`. */
  method GenerateAccessAndRefreshTokens(users: UserCollection, jwt: JwtService, cfg: Config, id: ObjectId)
      returns (r: Result<TokenPair, Failure>)
    requires jwt.ledger.Valid()
    modifies users, jwt
    ensures match Issue(World(old(users.records), old(jwt.ledger)), cfg, id)
            case Err(f) => r == Err(f) && users.records == old(users.records) && jwt.ledger == old(jwt.ledger)
            case Ok(i) => r == Ok(i.tokens) && World(users.records, jwt.ledger) == i.world
  {
    var userData := users.FindDocument(id);
    if userData == null {
      // `userData.generateAccessToken()` on null, caught and replaced
      return Err(ApiError(500, IssueFailedMessage));
    }
    var accessToken := userData.GenerateAccessToken(jwt, cfg);
    var refreshToken := userData.GenerateRefreshToken(jwt, cfg);
    userData.SetRefreshToken(Some(refreshToken));
    userData.Save(users);
    r := Ok(TokenPair(accessToken, refreshToken));
  }

  /** `loginUser`. */
  method LoginUser(users: UserCollection, jwt: JwtService, cfg: Config, b: LoginBody, res: Res<Payload>)
      returns (escaped: Option<Failure>)
    requires jwt.ledger.Valid() && res.sent.None?
    modifies users, jwt, res
    ensures var o := Login(World(old(users.records), old(jwt.ledger)), cfg, b);
            World(users.records, jwt.ledger) == o.world && Exchange(res.sent, escaped) == o.ex
  {
    if !(Truthy(b.username) || Truthy(b.email)) {
      return Some(ApiError(400, IdentifierRequiredMessage));
    }
    var dbUser := users.FindLoginDocument(EmailQuery(b.email), b.username);
    if dbUser == null {
      var alreadySent := res.Send(ErrorReply(400, NoSuchUserMessage));
      // no `return`: the next line reads a property of null
      return Some(TypeError(NullReadMessage("isPasswordCorrect")));
    }
    var checkPassword := dbUser.IsPasswordCorrect(b.password);
    if checkPassword.Err? {
      return Some(LibraryError(checkPassword.error));
    }
    if !checkPassword.value {
      return Some(ApiError(401, BadCredentialsMessage));
    }
    var tokens := GenerateAccessAndRefreshTokens(users, jwt, cfg, dbUser.data.id);
    match tokens
    case Err(f) =>
      escaped := Some(f);
    case Ok(pair) =>
      var loggedInUser := users.FindPublic(dbUser.data.id);
      var alreadySent := res.Send(SessionReply(loggedInUser, pair, LoggedInMessage));
      escaped := if alreadySent then Some(HeadersAlreadySent) else None;
  }

  /** `logoutUser`, for the user the gate put on the request. */
  method LogoutUser(users: UserCollection, jwt: JwtService, user: PublicUser, res: Res<Payload>)
      returns (escaped: Option<Failure>)
    requires res.sent.None?
    modifies users, res
    ensures var o := Logout(World(old(users.records), jwt.ledger), user);
            World(users.records, jwt.ledger) == o.world && Exchange(res.sent, escaped) == o.ex
  {
    users.UnsetRefreshTokenOf(user.id);
    var alreadySent := res.Send(Response(200,
                                         [ClearCookie("accessToken", SessionCookieOptions),
                                          ClearCookie("refreshToken", SessionCookieOptions)],
                                         ApiResponse(200, NoData, LoggedOutMessage)));
    escaped := if alreadySent then Some(HeadersAlreadySent) else None;
  }

  /** The `try` block of `refreshAccessToken` up to the reply: verify the presented token,
      find its user, insist it is the stored token, issue a new pair and read the user back. */
  method RotateRefreshToken(users: UserCollection, jwt: JwtService, cfg: Config, incomingRefreshToken: string)
      returns (r: Result<TokenPair, Failure>, dbUser: Option<PublicUser>)
    requires jwt.ledger.Valid()
    modifies users, jwt
    ensures match TryRotate(World(old(users.records), old(jwt.ledger)), cfg, incomingRefreshToken)
            case Err(f) => r == Err(f) && users.records == old(users.records) && jwt.ledger == old(jwt.ledger)
            case Ok(x) => r == Ok(x.issued.tokens) && dbUser == x.user && World(users.records, jwt.ledger) == x.issued.world
  {
    dbUser := None;
    var decodedToken := jwt.Verify(incomingRefreshToken, cfg.refreshTokenSecret);
    if decodedToken.Err? {
      return Err(LibraryError(decodedToken.error)), None;
    }
    var user := users.FindDocument(decodedToken.value.id);
    if user == null {
      return Err(ApiError(401, InvalidRefreshTokenMessage)), None;
    }
    if Some(incomingRefreshToken) != user.data.refreshToken {
      return Err(ApiError(401, StaleRefreshTokenMessage)), None;
    }
    r := GenerateAccessAndRefreshTokens(users, jwt, cfg, user.data.id);
    if r.Ok? {
      dbUser := users.FindPublic(user.data.id);
    }
  }

  /** `refreshAccessToken`, with the `refreshToken` cookie and body field. */
  method RefreshAccessToken(users: UserCollection, jwt: JwtService, cfg: Config,
                            cookie: Option<string>, body: Option<string>, res: Res<Payload>)
      returns (escaped: Option<Failure>)
    requires jwt.ledger.Valid() && res.sent.None?
    modifies users, jwt, res
    ensures var o := Refresh(World(old(users.records), old(jwt.ledger)), cfg, cookie, body);
            World(users.records, jwt.ledger) == o.world && Exchange(res.sent, escaped) == o.ex
  {
    var incomingRefreshToken := Or(cookie, body);
    if !Truthy(incomingRefreshToken) {
      return Some(ApiError(401, MissingRefreshTokenMessage));
    }
    var tokens, dbUser := RotateRefreshToken(users, jwt, cfg, incomingRefreshToken.value);
    match tokens
    case Err(f) =>
      escaped := Some(Rethrow401(f, InvalidRefreshTokenMessage));
    case Ok(pair) =>
      var alreadySent := res.Send(SessionReply(dbUser, pair, RefreshedMessage));
      escaped := if alreadySent then Some(Rethrow401(HeadersAlreadySent, InvalidRefreshTokenMessage)) else None;
  }

  /** `changeCurrentPassword`, for the user the gate put on the request. */
  method ChangeCurrentPassword(users: UserCollection, jwt: JwtService, user: PublicUser, b: PasswordChange,
                               res: Res<Payload>)
      returns (escaped: Option<Failure>)
    requires res.sent.None?
    modifies users, res
    ensures var o := ChangePassword(World(old(users.records), jwt.ledger), user, b);
            World(users.records, jwt.ledger) == o.world && Exchange(res.sent, escaped) == o.ex
  {
    var rejected := PasswordChecks(b);
    if rejected.Some? {
      return rejected;
    }
    var userData := users.FindDocument(user.id);
    if userData == null {
      return Some(TypeError(NullReadMessage("isPasswordCorrect")));
    }
    var isGetPasswordCorrect := userData.IsPasswordCorrect(b.oldPassword);
    if isGetPasswordCorrect.Err? {
      return Some(LibraryError(isGetPasswordCorrect.error));
    }
    if !isGetPasswordCorrect.value {
      return Some(ApiError(400, WrongOldPasswordMessage));
    }
    userData.SetPassword(b.newPassword.value);
    userData.Save(users);
    var alreadySent := res.Send(Response(200, [], ApiResponse(200, NoData, PasswordChangedMessage)));
    escaped := if alreadySent then Some(HeadersAlreadySent) else None;
  }

  // ---------------------------------------------------------------------------
  // registerUser: the checks before the uploads

  datatype RegisterBody = RegisterBody(username: Option<string>, email: Option<string>,
                                       fullName: Option<string>, password: Option<string>)

  const AllFieldsRequiredMessage := "All Fields are required"
  const InvalidEmailMessage := "Invalid email"
  const EmailNotLowercaseMessage := "email must be in lowercase or remove spaces"
  const RemoveSpacesMessage := "remove spaces"
  const PasswordTooShortForRegisterMessage := "password must be above 8 digits"
  const UserExistsMessage := "User with username or email is already exists"
  const UndefinedLengthMessage := "Cannot read properties of undefined (reading 'length')"

  /** The callback given to `some` on the fields: its block body evaluates
      `field?.trim() === ""` and discards it, so it returns `undefined`. */
  function EmptyFieldCallback(field: Option<string>): Option<bool> {
    None
  }

  /** `fields.some(callback)`: some field makes the callback return a truthy value. */
  predicate SomeFieldRejected(fields: seq<Option<string>>) {
    exists i :: 0 <= i < |fields| && EmptyFieldCallback(fields[i]) == Some(true)
  }

  /** The emptiness check rejects no body at all, not even one of empty strings. */
  lemma {:induction false} EmptinessCheckNeverFires(fields: seq<Option<string>>)
    ensures !SomeFieldRejected(fields)
  {
  }

  /** The checks of `registerUser` up to the duplicate lookup; `None` when all pass. */
  function RegisterChecks(users: seq<User>, b: RegisterBody): (r: Option<Failure>)
    ensures r.Some? ==> r.value.ApiError? || r.value.TypeError?
    ensures r.None? ==> b.email.Some? && b.password.Some?
  {
    if SomeFieldRejected([b.username, b.email, b.fullName, b.password]) then Some(ApiError(400, AllFieldsRequiredMessage))
    else if b.email.None? || !Includes(Trim(b.email.value), "@") then Some(ApiError(400, InvalidEmailMessage))
    else if b.email.value != ToLowerCase(b.email.value) then Some(ApiError(400, EmailNotLowercaseMessage))
    else if Includes(Or(b.username, b.email).value, " ") then Some(ApiError(400, RemoveSpacesMessage))
    else if b.password.None? then Some(TypeError(UndefinedLengthMessage))
    else if Utf16Length(b.password.value) < 8 then Some(ApiError(400, PasswordTooShortForRegisterMessage))
    else if FindByLogin(users, EmailQuery(b.email), b.username).Some? then Some(ApiError(409, UserExistsMessage))
    else None
  }

  /** The email and space checks of `registerUser` pass. */
  predicate PassesFormatChecks(b: RegisterBody) {
    && b.email.Some? && Includes(Trim(b.email.value), "@") && b.email.value == ToLowerCase(b.email.value)
    && !Includes(Or(b.username, b.email).value, " ")
  }

  /** The checks run in this order, and the first that fails picks the answer. */
  lemma RegisterCheckOrder(users: seq<User>, b: RegisterBody)
    ensures b.email.None? ==> RegisterChecks(users, b) == Some(ApiError(400, InvalidEmailMessage))
    ensures b.email.Some? && !(exists i :: OccursAt(Trim(b.email.value), "@", i)) ==>
                RegisterChecks(users, b) == Some(ApiError(400, InvalidEmailMessage))
    ensures b.email.Some? && Includes(Trim(b.email.value), "@") && b.email.value != ToLowerCase(b.email.value) ==>
                RegisterChecks(users, b) == Some(ApiError(400, EmailNotLowercaseMessage))
    ensures b.email.Some? && Includes(Trim(b.email.value), "@") && b.email.value == ToLowerCase(b.email.value)
            && ' ' in (if Truthy(b.username) then b.username.value else b.email.value) ==>
                RegisterChecks(users, b) == Some(ApiError(400, RemoveSpacesMessage))
    ensures PassesFormatChecks(b) && b.password.None? ==>
                RegisterChecks(users, b) == Some(TypeError(UndefinedLengthMessage))
    ensures PassesFormatChecks(b) && b.password.Some? && Utf16Length(b.password.value) < 8 ==>
                RegisterChecks(users, b) == Some(ApiError(400, PasswordTooShortForRegisterMessage))
    ensures PassesFormatChecks(b) && b.password.Some? && Utf16Length(b.password.value) >= 8
            && FindByLogin(users, EmailQuery(b.email), b.username).Some? ==>
                RegisterChecks(users, b) == Some(ApiError(409, UserExistsMessage))
    ensures RegisterChecks(users, b).None? ==> Utf16Length(b.password.value) >= 8
    ensures RegisterChecks(users, b).None? <==>
              && b.email.Some? && Includes(Trim(b.email.value), "@") && b.email.value == ToLowerCase(b.email.value)
              && !Includes(Or(b.username, b.email).value, " ")
              && b.password.Some? && Utf16Length(b.password.value) >= 8
              && FindByLogin(users, EmailQuery(b.email), b.username).None?
  {
    EmptinessCheckNeverFires([b.username, b.email, b.fullName, b.password]);
    if b.email.Some? {
      IncludesIff(Trim(b.email.value), "@");
      IncludesChar(Or(b.username, b.email).value, ' ');
    }
  }

  /** A body that passes the checks, with the required fields present, is created without
      a duplicate-key error, and creating it keeps the schema invariants. */
  lemma RegisterChecksRuleOutDuplicates(users: seq<User>, b: RegisterBody, avatar: Media, coverImage: Media, id: ObjectId)
    requires WellFormed(users)
    requires RegisterChecks(users, b).None?
    requires RequiredString(b.username) && RequiredString(b.fullName)
    requires forall j :: 0 <= j < |users| ==> users[j].id != id
    ensures CreateUser(users, NewUser(b.username, b.email, b.fullName, Some(avatar), Some(coverImage), b.password), id).Ok?
    ensures WellFormed(CreateUser(users, NewUser(b.username, b.email, b.fullName, Some(avatar), Some(coverImage), b.password), id).value)
  {
    var n := NewUser(b.username, b.email, b.fullName, Some(avatar), Some(coverImage), b.password);
    RegisterCheckOrder(users, b);
    var e := b.email.value;
    IncludesIff(Trim(e), "@");
    assert NormalizeEmail(e) == Trim(e) != "";
    assert forall j :: 0 <= j < |users| ==> !MatchesLogin(users[j], EmailQuery(b.email), b.username);
    assert forall j :: 0 <= j < |users| ==> users[j].username != b.username.value && users[j].email != NormalizeEmail(e) by {
      forall j | 0 <= j < |users| ensures users[j].username != b.username.value && users[j].email != NormalizeEmail(e) {
        assert !MatchesLogin(users[j], EmailQuery(b.email), b.username);
      }
    }
    CreateUserSucceeds(users, n, id);
    CreatePreservesWellFormed(users, n, id);
  }

  // ---------------------------------------------------------------------------
  // updateAccountDetails: the checks before the update

  const AllFieldsRequiredLowerMessage := "All fields are required"

  /** The checks of `updateAccountDetails`; `None` when both pass. */
  function UpdateAccountChecks(newUsername: Option<string>, newFullName: Option<string>): (r: Option<Failure>)
    ensures r.None? ==> Truthy(newUsername) || Truthy(newFullName)
  {
    if !(Truthy(newUsername) || Truthy(newFullName)) then Some(ApiError(400, AllFieldsRequiredLowerMessage))
    else if Includes(Or(newUsername, newFullName).value, " ") then Some(ApiError(401, RemoveSpacesMessage))
    else None
  }

  /** Only the first truthy field is checked for spaces: with a username given, the full
      name may hold any spaces; without one, a full name with a space is refused. */
  lemma UpdateAccountChecksFirstTruthy(newUsername: Option<string>, newFullName: Option<string>)
    ensures !Truthy(newUsername) && !Truthy(newFullName) ==>
                UpdateAccountChecks(newUsername, newFullName) == Some(ApiError(400, AllFieldsRequiredLowerMessage))
    ensures Truthy(newUsername) ==>
                (UpdateAccountChecks(newUsername, newFullName).None? <==> ' ' !in newUsername.value)
    ensures !Truthy(newUsername) && Truthy(newFullName) ==>
                (UpdateAccountChecks(newUsername, newFullName) == Some(ApiError(401, RemoveSpacesMessage)) <==>
                 ' ' in newFullName.value)
  {
    if Truthy(newUsername) {
      IncludesChar(newUsername.value, ' ');
    } else if Truthy(newFullName) {
      IncludesChar(newFullName.value, ' ');
    }
  }

  // ---------------------------------------------------------------------------
  // getUserChannelProfile

  datatype Subscription = Subscription(subscriber: ObjectId, channel: ObjectId)

  /** The projected channel document. */
  datatype ChannelView = ChannelView(
    id: ObjectId,
    username: string,
    email: string,
    fullName: string,
    avatar: Media,
    coverImage: Media,
    subscriberCount: nat,
    channelsSubscribedToCount: nat,
    isSubscribed: bool)

  const UsernameMissingMessage := "Username is missing in params/url"
  const UsernameSpacesMessage := "remove spaces in params/url"
  const ChannelMissingMessage := "Channel does not exists."
  const ChannelFetchedMessage := "User channel fetched successfully"

  /** The `$match` on `username`. */
  function HasUsername(name: string): User -> bool {
    (u: User) => u.username == name
  }

  /** The `$lookup` of subscriptions whose `channel` is the user ... */
  function ToChannel(id: ObjectId): Subscription -> bool {
    (s: Subscription) => s.channel == id
  }

  /** ... and of those whose `subscriber` is the user. */
  function BySubscriber(id: ObjectId): Subscription -> bool {
    (s: Subscription) => s.subscriber == id
  }

  /** The `$lookup`s, `$addFields` and `$project` of the pipeline, for one user. */
  function ChannelOf(u: User, subs: seq<Subscription>, caller: ObjectId): ChannelView {
    var subscribers := Filter(subs, ToChannel(u.id));
    var subscribedTo := Filter(subs, BySubscriber(u.id));
    ChannelView(u.id, u.username, u.email, u.fullName, u.avatar, u.coverImage,
                |subscribers|, |subscribedTo|,
                exists k :: 0 <= k < |subscribers| && subscribers[k].subscriber == caller)
  }

  /** `getUserChannelProfile` for the `:username` parameter and the caller the gate admitted. */
  function ChannelProfile(users: seq<User>, subs: seq<Subscription>, username: Option<string>, caller: ObjectId): Exchange<ChannelView> {
    if username.None? || Trim(username.value) == "" then Thrown(ApiError(400, UsernameMissingMessage))
    else if Includes(username.value, " ") then Thrown(ApiError(400, UsernameSpacesMessage))
    else
      var channel := Filter(users, HasUsername(username.value));
      if |channel| == 0 then Thrown(ApiError(404, ChannelMissingMessage))
      else Replied(Response(200, [], ApiResponse(200, ChannelOf(channel[0], subs, caller), ChannelFetchedMessage)))
  }

  /** A missing or whitespace-only username, or one with a space, is refused with 400. */
  lemma ChannelRejectsBadUsername(users: seq<User>, subs: seq<Subscription>, username: Option<string>, caller: ObjectId)
    ensures username.None? || AllTrimmable(username.value) ==>
                ChannelProfile(users, subs, username, caller) == Thrown(ApiError(400, UsernameMissingMessage))
    ensures username.Some? && !AllTrimmable(username.value) && ' ' in username.value ==>
                ChannelProfile(users, subs, username, caller) == Thrown(ApiError(400, UsernameSpacesMessage))
  {
    if username.Some? {
      TrimEmptyIff(username.value);
      IncludesChar(username.value, ' ');
    }
  }

  /** No user with that username: 404. */
  lemma ChannelNotFound(users: seq<User>, subs: seq<Subscription>, name: string, caller: ObjectId)
    requires !AllTrimmable(name) && ' ' !in name
    requires forall j :: 0 <= j < |users| ==> users[j].username != name
    ensures ChannelProfile(users, subs, Some(name), caller) == Thrown(ApiError(404, ChannelMissingMessage))
  {
    TrimEmptyIff(name);
    IncludesChar(name, ' ');
    FilterExtremes(users, HasUsername(name));
  }

  /** With unique usernames, the `$match` on a stored user's username selects that user
      first. */
  lemma MatchFindsStoredUser(users: seq<User>, u: User)
    requires forall i, j :: 0 <= i < j < |users| ==> users[i].username != users[j].username
    requires u in users
    ensures |Filter(users, HasUsername(u.username))| > 0 && Filter(users, HasUsername(u.username))[0] == u
  {
    var channel := Filter(users, HasUsername(u.username));
    FilterMembers(users, HasUsername(u.username), u);
    FilterMembers(users, HasUsername(u.username), channel[0]);
    var j :| 0 <= j < |users| && users[j] == u;
    var k :| 0 <= k < |users| && users[k] == channel[0];
    assert !(j < k) && !(k < j);
  }

  /** A stored user with that username: 200 with that user's channel view. */
  lemma ChannelFound(users: seq<User>, subs: seq<Subscription>, u: User, caller: ObjectId)
    requires UniqueKeys(users) && u in users
    requires !AllTrimmable(u.username) && ' ' !in u.username
    ensures ChannelProfile(users, subs, Some(u.username), caller)
         == Replied(Response(200, [], ApiResponse(200, ChannelOf(u, subs, caller), ChannelFetchedMessage)))
  {
    TrimEmptyIff(u.username);
    IncludesChar(u.username, ' ');
    MatchFindsStoredUser(users, u);
  }

  /** `subscriberCount` is the number of subscriptions to the user's channel, and
      `channelsSubscribedToCount` the number of subscriptions the user holds. */
  lemma ChannelCounts(u: User, subs: seq<Subscription>, caller: ObjectId)
    ensures ChannelOf(u, subs, caller).subscriberCount == |set i | 0 <= i < |subs| && subs[i].channel == u.id|
    ensures ChannelOf(u, subs, caller).channelsSubscribedToCount == |set i | 0 <= i < |subs| && subs[i].subscriber == u.id|
  {
    FilterLengthIsCount(subs, ToChannel(u.id));
    FilterLengthIsCount(subs, BySubscriber(u.id));
    assert Positions(subs, ToChannel(u.id)) == set i | 0 <= i < |subs| && subs[i].channel == u.id;
    assert Positions(subs, BySubscriber(u.id)) == set i | 0 <= i < |subs| && subs[i].subscriber == u.id;
  }

  /** `isSubscribed` holds exactly when the caller subscribes to the channel. */
  lemma IsSubscribedIff(u: User, subs: seq<Subscription>, caller: ObjectId)
    ensures ChannelOf(u, subs, caller).isSubscribed <==> Subscription(caller, u.id) in subs
  {
    var subscribers := Filter(subs, ToChannel(u.id));
    var target := Subscription(caller, u.id);
    FilterMembers(subs, ToChannel(u.id), target);
    if target in subs {
      var k :| 0 <= k < |subscribers| && subscribers[k] == target;
      assert subscribers[k].subscriber == caller;
    }
    if ChannelOf(u, subs, caller).isSubscribed {
      var k :| 0 <= k < |subscribers| && subscribers[k].subscriber == caller;
      FilterMembers(subs, ToChannel(u.id), subscribers[k]);
      assert subscribers[k] == target;
    }
  }
}
