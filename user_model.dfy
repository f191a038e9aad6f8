/**
 * The `User` model: the stored record and its schema rules, the pre-save hook that hashes a
 * modified password, the instance methods `isPasswordCorrect`, `generateAccessToken` and
 * `generateRefreshToken`, and the `users` collection the controllers read and write.
 *
 * The collection is a sequence in insertion order, so a query that several documents
 * match returns the first of them, as an unsorted `findOne` does.
 */
module UserModel {
  import opened Wrappers
  import opened JsString
  import opened Mongo
  import opened Crypto

  datatype Media = Media(publicId: string, url: string)

  /** A stored user document. `password` holds the bcrypt hash once the document is saved. */
  datatype User = User(
    id: ObjectId,
    username: string,
    email: string,
    fullName: string,
    avatar: Media,
    coverImage: Media,
    watchHistory: seq<ObjectId>,
    password: string,
    refreshToken: Option<string>)

  /** A user as the controllers expose it: `select('-password -refreshToken')`. */
  datatype PublicUser = PublicUser(
    id: ObjectId,
    username: string,
    email: string,
    fullName: string,
    avatar: Media,
    coverImage: Media,
    watchHistory: seq<ObjectId>)

  function Public(u: User): (p: PublicUser)
    ensures p.id == u.id && p.username == u.username && p.email == u.email
  {
    PublicUser(u.id, u.username, u.email, u.fullName, u.avatar, u.coverImage, u.watchHistory)
  }

  /** The exposed view depends on neither the password hash nor the refresh token. */
  lemma PublicIgnoresSecrets(u: User, h: string, t: Option<string>)
    ensures Public(u.(password := h, refreshToken := t)) == Public(u)
  {
  }

  /** The secrets and expiry settings read from the environment. */
  datatype Config = Config(
    accessTokenSecret: string,
    accessTokenExpiry: string,
    refreshTokenSecret: string,
    refreshTokenExpiry: string)

  // ---------------------------------------------------------------------------
  // Queries

  /** The position of the first document with this `_id`. */
  function IndexOfId(users: seq<User>, id: ObjectId): (r: Option<nat>)
    ensures r.Some? ==> r.value < |users| && users[r.value].id == id
    ensures r.Some? ==> forall j :: 0 <= j < r.value ==> users[j].id != id
    ensures r.None? ==> forall j :: 0 <= j < |users| ==> users[j].id != id
  {
    if users == [] then None
    else if users[0].id == id then Some(0)
    else match IndexOfId(users[1..], id)
      case None => None
      case Some(k) => Some(k + 1)
  }

  /** `User.findById(id)`. */
  function FindById(users: seq<User>, id: ObjectId): (r: Option<User>)
    ensures r.Some? ==> r.value in users && r.value.id == id
    ensures r.None? <==> forall j :: 0 <= j < |users| ==> users[j].id != id
  {
    match IndexOfId(users, id)
    case None => None
    case Some(i) => Some(users[i])
  }

  /** A filter value compared with a stored field. An absent value matches no document,
      since every field queried on is required. */
  predicate FieldMatches(value: Option<string>, stored: string) {
    value == Some(stored)
  }

  /** The document matches `{$or: [{email}, {username}]}`. */
  predicate MatchesLogin(u: User, email: Option<string>, username: Option<string>) {
    FieldMatches(email, u.email) || FieldMatches(username, u.username)
  }

  /** `User.findOne({$or: [{email}, {username}]})`: the first matching document. */
  function FindByLogin(users: seq<User>, email: Option<string>, username: Option<string>): (r: Option<User>)
    ensures r.Some? ==> r.value in users && MatchesLogin(r.value, email, username)
    ensures r.None? <==> forall j :: 0 <= j < |users| ==> !MatchesLogin(users[j], email, username)
  {
    if users == [] then None
    else if MatchesLogin(users[0], email, username) then Some(users[0])
    else FindByLogin(users[1..], email, username)
  }

  /** The document `findOne` returns comes before every other match: no earlier document
      matches either field. */
  lemma {:induction false} FindByLoginFirst(users: seq<User>, email: Option<string>, username: Option<string>)
    requires FindByLogin(users, email, username).Some?
    ensures exists k :: 0 <= k < |users| && users[k] == FindByLogin(users, email, username).value
                        && forall j :: 0 <= j < k ==> !MatchesLogin(users[j], email, username)
  {
    if MatchesLogin(users[0], email, username) {
      assert users[0] == FindByLogin(users, email, username).value;
    } else {
      var tail := users[1..];
      FindByLoginFirst(tail, email, username);
      var k :| 0 <= k < |tail| && tail[k] == FindByLogin(tail, email, username).value
                && forall j :: 0 <= j < k ==> !MatchesLogin(tail[j], email, username);
      assert users[k + 1] == tail[k];
      forall j | 0 <= j < k + 1
        ensures !MatchesLogin(users[j], email, username)
      {
        if j > 0 {
          assert users[j] == tail[j - 1];
        }
      }
    }
  }

  /** `User.findById(id).select('-password -refreshToken')`: the stored document with that
      id, without its secrets. */
  function FindPublicById(users: seq<User>, id: ObjectId): (r: Option<PublicUser>)
    ensures r.None? <==> FindById(users, id).None?
    ensures r.Some? ==> r.value == Public(FindById(users, id).value)
  {
    match FindById(users, id)
    case None => None
    case Some(u) => Some(Public(u))
  }

  // ---------------------------------------------------------------------------
  // Document state and the pre-save hook

  /** The pre-save hook: rehash the password only when it was modified. */
  function PreSave(u: User, passwordModified: bool): (r: User)
    ensures r.refreshToken == u.refreshToken && Public(r) == Public(u)
  {
    if passwordModified then u.(password := BcryptHash(u.password)) else u
  }

  /** Two collections whose documents carry the same `_id`s position by position. */
  predicate SameIds(a: seq<User>, b: seq<User>) {
    |a| == |b| && forall j :: 0 <= j < |a| ==> a[j].id == b[j].id
  }

  /** A lookup by `_id` only depends on the `_id`s. */
  lemma {:induction false} SameIdsSameIndex(a: seq<User>, b: seq<User>, x: ObjectId)
    requires SameIds(a, b)
    ensures IndexOfId(a, x) == IndexOfId(b, x)
  {
    if a != [] {
      assert SameIds(a[1..], b[1..]);
      SameIdsSameIndex(a[1..], b[1..], x);
    }
  }

  /** What `doc.save()` writes for a document fetched from the collection: the document with
      its `_id` is replaced by `u`, every other lookup is unaffected, and nothing changes if no
      document has that `_id`. */
  function Replace(users: seq<User>, u: User): (r: seq<User>)
    ensures SameIds(users, r)
    ensures forall x :: FindById(r, x) == if x == u.id && FindById(users, x).Some? then Some(u) else FindById(users, x)
    ensures FindById(users, u.id).None? ==> r == users
  {
    match IndexOfId(users, u.id)
    case None => users
    case Some(i) =>
      var r := users[i := u];
      assert SameIds(users, r);
      assert forall x :: IndexOfId(r, x) == IndexOfId(users, x) by {
        forall x ensures IndexOfId(r, x) == IndexOfId(users, x) { SameIdsSameIndex(r, users, x); }
      }
      r
  }

  /** `findByIdAndUpdate(id, {$unset: {refreshToken: 1}})`. */
  function UnsetRefreshToken(users: seq<User>, id: ObjectId): (r: seq<User>)
    ensures SameIds(users, r)
    ensures forall x :: x != id ==> FindById(r, x) == FindById(users, x)
    ensures FindById(users, id).None? ==> FindById(r, id).None?
    ensures FindById(users, id).Some? ==> FindById(r, id) == Some(FindById(users, id).value.(refreshToken := None))
  {
    match FindById(users, id)
    case None => users
    case Some(u) => Replace(users, u.(refreshToken := None))
  }

  /** `isPasswordCorrect(plain)`: `bcrypt.compare(plain, this.password)`. */
  function PasswordCorrect(u: User, plain: Option<string>): Result<bool, string> {
    BcryptCompare(plain, u.password)
  }

  /** After `password = p` and a save, `isPasswordCorrect(p)` holds, and only for `p`. */
  lemma SavedPasswordChecks(u: User, p: string, q: string)
    ensures PasswordCorrect(PreSave(u.(password := p), true), Some(q)) == Ok(q == p)
  {
    CompareAcceptsOnlyItsPlaintext(p, q);
  }

  /** A save that did not modify the password keeps the stored hash, whatever else changed. */
  lemma SaveWithoutPasswordChangeKeepsHash(u: User, t: Option<string>)
    ensures PreSave(u.(refreshToken := t), false).password == u.password
  {
  }

  /** The payload of `generateAccessToken`. */
  function AccessClaimsOf(u: User): Claims {
    AccessClaims(u.id, u.email, u.username, u.fullName)
  }

  /** The payload of `generateRefreshToken`. */
  function RefreshClaimsOf(u: User): Claims {
    RefreshClaims(u.id)
  }

  // ---------------------------------------------------------------------------
  // Schema rules and `User.create`

  /** The `lowercase` and `trim` setters on `email`. */
  function NormalizeEmail(e: string): string {
    Trim(ToLowerCase(e))
  }

  /** The `required` validator for a string path: present and not empty. */
  predicate RequiredString(v: Option<string>) {
    v.Some? && v.value != ""
  }

  /** The schema invariants the collection keeps: unique `_id`, unique `username` and
      `email` (unique indexes), non-empty required strings, an `email` stored through its
      setters, a hashed password, and at most one refresh token per user. */
  ghost predicate WellFormed(users: seq<User>) {
    UniqueKeys(users) && AllValid(users)
  }

  /** No two documents share an `_id`, a `username` or an `email`. */
  ghost predicate UniqueKeys(users: seq<User>) {
    && (forall i, j :: 0 <= i < j < |users| ==> users[i].id != users[j].id)
    && (forall i, j :: 0 <= i < j < |users| ==> users[i].username != users[j].username)
    && (forall i, j :: 0 <= i < j < |users| ==> users[i].email != users[j].email)
  }

  ghost predicate AllValid(users: seq<User>) {
    forall i :: 0 <= i < |users| ==> RecordValid(users[i])
  }

  /** One stored document obeys the schema: required strings present, `email` stored
      through its setters, password hashed. */
  ghost predicate RecordValid(u: User) {
    && u.username != "" && u.fullName != "" && u.email != ""
    && u.email == NormalizeEmail(u.email)
    && IsBcryptHash(u.password)
  }

  /** The fields given to `User.create`. */
  datatype NewUser = NewUser(
    username: Option<string>,
    email: Option<string>,
    fullName: Option<string>,
    avatar: Option<Media>,
    coverImage: Option<Media>,
    password: Option<string>)

  datatype CreateError = ValidationFailed(path: string) | DuplicateKey(path: string)

  /** A stored document already has this `_id`. */
  predicate IdTaken(users: seq<User>, id: ObjectId) {
    exists j :: 0 <= j < |users| && users[j].id == id
  }

  /** A stored document already has this username (the unique index on `username`). */
  predicate UsernameTaken(users: seq<User>, username: string) {
    exists j :: 0 <= j < |users| && users[j].username == username
  }

  /** A stored document already has this email (the unique index on `email`). */
  predicate EmailTaken(users: seq<User>, email: string) {
    exists j :: 0 <= j < |users| && users[j].email == email
  }

  /** `User.create(fields)` with a new `_id`: setters, then the required validators in schema
      order, then the pre-save hook (a new document's password counts as modified), then the
      unique indexes on insertion. */
  function CreateUser(users: seq<User>, n: NewUser, id: ObjectId): (r: Result<seq<User>, CreateError>)
    ensures r.Ok? ==> |r.value| == |users| + 1 && r.value[..|users|] == users
  {
    var email := if n.email.Some? then Some(NormalizeEmail(n.email.value)) else None;
    if !RequiredString(n.username) then Err(ValidationFailed("username"))
    else if !RequiredString(email) then Err(ValidationFailed("email"))
    else if !RequiredString(n.fullName) then Err(ValidationFailed("fullName"))
    else if n.avatar.None? then Err(ValidationFailed("avatar"))
    else if n.coverImage.None? then Err(ValidationFailed("coverImage"))
    else if !RequiredString(n.password) then Err(ValidationFailed("password"))
    else if IdTaken(users, id) then Err(DuplicateKey("_id"))
    else if UsernameTaken(users, n.username.value) then Err(DuplicateKey("username"))
    else if EmailTaken(users, email.value) then Err(DuplicateKey("email"))
    else
      var u := User(id, n.username.value, email.value, n.fullName.value, n.avatar.value,
                    n.coverImage.value, [], n.password.value, None);
      var r := users + [PreSave(u, true)];
      assert r[..|users|] == users;
      Ok(r)
  }

  /** The setters are idempotent: a stored email is its own normal form. */
  lemma NormalizeEmailIdempotent(e: string)
    ensures NormalizeEmail(NormalizeEmail(e)) == NormalizeEmail(e)
  {
    var t := Trim(ToLowerCase(e));
    LowercaseIdempotent(e);
    TrimKeepsLowercase(ToLowerCase(e));
    TrimIdempotent(ToLowerCase(e));
  }

  /** Trimming a string without upper-case letters leaves none. */
  lemma TrimKeepsLowercase(s: string)
    requires s == ToLowerCase(s)
    ensures Trim(s) == ToLowerCase(Trim(s))
  {
    LowercaseFixedIff(s);
    TrimStartKeepsNoUpper(s);
    TrimEndKeepsNoUpper(TrimStart(s));
    LowercaseFixedIff(Trim(s));
  }

  /** Adding a record that clashes with none keeps the keys unique ... */
  lemma AppendUnique(users: seq<User>, u: User)
    requires UniqueKeys(users)
    requires forall j :: 0 <= j < |users| ==> users[j].id != u.id
    requires forall j :: 0 <= j < |users| ==> users[j].username != u.username
    requires forall j :: 0 <= j < |users| ==> users[j].email != u.email
    ensures UniqueKeys(users + [u])
  {
    var r := users + [u];
    forall i, j | 0 <= i < j < |r|
      ensures r[i].id != r[j].id && r[i].username != r[j].username && r[i].email != r[j].email
    {
      assert r[i] == users[i];
      if j < |users| {
        assert r[j] == users[j];
      } else {
        assert r[j] == u;
      }
    }
  }

  /** ... and a valid record keeps every record valid. */
  lemma AppendValid(users: seq<User>, u: User)
    requires AllValid(users) && RecordValid(u)
    ensures AllValid(users + [u])
  {
    var r := users + [u];
    forall i | 0 <= i < |r| ensures RecordValid(r[i]) {
      if i < |users| {
        assert r[i] == users[i];
      }
    }
  }

  /** With unique `_id`s, looking a stored document up by its `_id` finds that document. */
  lemma FindStored(users: seq<User>, u: User)
    requires UniqueKeys(users) && u in users
    ensures FindById(users, u.id) == Some(u)
  {
    var j :| 0 <= j < |users| && users[j] == u;
    var k := IndexOfId(users, u.id).value;
    assert !(j < k) && !(k < j);
  }

  /** Overwriting a document by one with the same keys keeps the keys unique ... */
  lemma UpdateKeepsUnique(users: seq<User>, i: nat, v: User)
    requires UniqueKeys(users) && i < |users|
    requires v.id == users[i].id && v.username == users[i].username && v.email == users[i].email
    ensures UniqueKeys(users[i := v])
  {
    var r := users[i := v];
    forall a, b | 0 <= a < b < |r|
      ensures r[a].id != r[b].id && r[a].username != r[b].username && r[a].email != r[b].email
    {
      assert users[a].id != users[b].id && users[a].username != users[b].username && users[a].email != users[b].email;
    }
  }

  /** ... and a valid replacement keeps every document valid. */
  lemma UpdateKeepsValid(users: seq<User>, i: nat, v: User)
    requires AllValid(users) && i < |users| && RecordValid(v)
    ensures AllValid(users[i := v])
  {
    var r := users[i := v];
    forall a | 0 <= a < |r| ensures RecordValid(r[a]) {
      if a != i {
        assert r[a] == users[a];
      }
    }
  }

  /** Replacing a document by one with the same keys that obeys the schema keeps the
      invariants. */
  lemma ReplaceKeepsWellFormed(users: seq<User>, v: User)
    requires WellFormed(users)
    requires FindById(users, v.id).Some?
    requires FindById(users, v.id).value.username == v.username
    requires FindById(users, v.id).value.email == v.email
    requires RecordValid(v)
    ensures WellFormed(Replace(users, v))
  {
    var i := IndexOfId(users, v.id).value;
    assert Replace(users, v) == users[i := v];
    UpdateKeepsUnique(users, i, v);
    UpdateKeepsValid(users, i, v);
  }

  /** `User.create` succeeds when every required field is present and no stored document
      has the new `_id`, the username or the normalized email. */
  lemma CreateUserSucceeds(users: seq<User>, n: NewUser, id: ObjectId)
    requires RequiredString(n.username) && n.email.Some? && NormalizeEmail(n.email.value) != ""
    requires RequiredString(n.fullName) && n.avatar.Some? && n.coverImage.Some? && RequiredString(n.password)
    requires forall j :: 0 <= j < |users| ==> users[j].id != id
    requires forall j :: 0 <= j < |users| ==> users[j].username != n.username.value
    requires forall j :: 0 <= j < |users| ==> users[j].email != NormalizeEmail(n.email.value)
    ensures CreateUser(users, n, id).Ok?
  {
  }

  /** `User.create` succeeds only when every required field is present and no stored
      document has the new `_id`, the username or the normalized email; it appends the
      document with its email through the setters and its password hashed. */
  lemma CreatedRecord(users: seq<User>, n: NewUser, id: ObjectId)
    requires CreateUser(users, n, id).Ok?
    ensures n.username.Some? && n.email.Some? && n.fullName.Some? && n.password.Some?
    ensures n.avatar.Some? && n.coverImage.Some?
    ensures var u := User(id, n.username.value, NormalizeEmail(n.email.value), n.fullName.value, n.avatar.value,
                          n.coverImage.value, [], BcryptHash(n.password.value), None);
            && CreateUser(users, n, id).value == users + [u]
            && u.username != "" && u.email != "" && u.fullName != ""
            && (forall j :: 0 <= j < |users| ==> users[j].id != id)
            && (forall j :: 0 <= j < |users| ==> users[j].username != u.username)
            && (forall j :: 0 <= j < |users| ==> users[j].email != u.email)
  {
    assert !IdTaken(users, id);
    assert !UsernameTaken(users, n.username.value);
    assert !EmailTaken(users, NormalizeEmail(n.email.value));
  }

  /** Creating a user keeps every schema invariant. */
  lemma CreatePreservesWellFormed(users: seq<User>, n: NewUser, id: ObjectId)
    requires WellFormed(users)
    requires CreateUser(users, n, id).Ok?
    ensures WellFormed(CreateUser(users, n, id).value)
  {
    CreatedRecord(users, n, id);
    var u := User(id, n.username.value, NormalizeEmail(n.email.value), n.fullName.value, n.avatar.value,
                  n.coverImage.value, [], BcryptHash(n.password.value), None);
    NormalizeEmailIdempotent(n.email.value);
    assert RecordValid(u);
    AppendUnique(users, u);
    AppendValid(users, u);
  }

  // ---------------------------------------------------------------------------
  // Documents and the collection

  /** A user document fetched from the collection: its current values and whether the
      `password` path has been modified since it was loaded. */
  class UserDocument {
    var data: User
    var passwordModified: bool

    /** A document as `findById` hands it out. */
    constructor Hydrate(u: User)
      ensures data == u && !passwordModified
    {
      data := u;
      passwordModified := false;
    }

    /** `doc.password = p`. Mongoose marks the path modified only when the new value differs
        from the current one, so assigning the stored hash string is not a modification. */
    method SetPassword(p: string)
      modifies this
      ensures data == old(data).(password := p)
      ensures passwordModified == (old(passwordModified) || p != old(data).password)
    {
      passwordModified := passwordModified || p != data.password;
      data := data.(password := p);
    }

    /** `doc.refreshToken = t`; the `password` path stays as it was. */
    method SetRefreshToken(t: Option<string>)
      modifies this
      ensures data == old(data).(refreshToken := t)
      ensures passwordModified == old(passwordModified)
    {
      data := data.(refreshToken := t);
    }

    /** `doc.save({validateBeforeSave: false})`: the pre-save hook runs, then the document is
        written over the stored one. */
    method Save(users: UserCollection)
      modifies this, users
      ensures data == PreSave(old(data), old(passwordModified)) && !passwordModified
      ensures users.records == Replace(old(users.records), data)
    {
      if passwordModified {
        data := data.(password := BcryptHash(data.password));
      }
      passwordModified := false;
      users.records := Replace(users.records, data);
    }

    /** `doc.isPasswordCorrect(plain)`. */
    method IsPasswordCorrect(plain: Option<string>) returns (r: Result<bool, string>)
      ensures r.Err? <==> plain.None?
      ensures r.Err? ==> r.error == MissingArgumentsMessage
      ensures r.Ok? ==> (r.value <==> data.password == BcryptHash(plain.value))
    {
      r := BcryptCompare(plain, data.password);
    }

    /** `doc.generateAccessToken()`: the access claims, under the access secret and expiry. */
    method GenerateAccessToken(jwt: JwtService, cfg: Config) returns (token: string)
      requires jwt.ledger.Valid()
      modifies jwt
      ensures Signed(jwt.ledger, token)
           == SignToken(old(jwt.ledger), AccessClaimsOf(data), cfg.accessTokenSecret, cfg.accessTokenExpiry)
    {
      token := jwt.Sign(AccessClaimsOf(data), cfg.accessTokenSecret, cfg.accessTokenExpiry);
    }

    /** `doc.generateRefreshToken()`: only the `_id`, under the refresh secret and expiry. */
    method GenerateRefreshToken(jwt: JwtService, cfg: Config) returns (token: string)
      requires jwt.ledger.Valid()
      modifies jwt
      ensures Signed(jwt.ledger, token)
           == SignToken(old(jwt.ledger), RefreshClaimsOf(data), cfg.refreshTokenSecret, cfg.refreshTokenExpiry)
    {
      token := jwt.Sign(RefreshClaimsOf(data), cfg.refreshTokenSecret, cfg.refreshTokenExpiry);
    }
  }

  /** The `users` collection. */
  class UserCollection {
    var records: seq<User>

    constructor (users: seq<User>)
      ensures records == users
    {
      records := users;
    }

    /** `User.findById(id)`: a fresh document, or `null`. */
    method FindDocument(id: ObjectId) returns (doc: UserDocument?)
      ensures doc == null <==> FindById(records, id).None?
      ensures doc != null ==> fresh(doc) && doc.data == FindById(records, id).value && !doc.passwordModified
    {
      var found := FindById(records, id);
      if found.None? {
        doc := null;
      } else {
        doc := new UserDocument.Hydrate(found.value);
      }
    }

    /** `User.findOne({$or: [{email}, {username}]})`. */
    method FindLoginDocument(email: Option<string>, username: Option<string>) returns (doc: UserDocument?)
      ensures doc == null <==> FindByLogin(records, email, username).None?
      ensures doc != null ==> fresh(doc) && doc.data == FindByLogin(records, email, username).value && !doc.passwordModified
    {
      var found := FindByLogin(records, email, username);
      if found.None? {
        doc := null;
      } else {
        doc := new UserDocument.Hydrate(found.value);
      }
    }

    /** `User.findById(id).select('-password -refreshToken')`. */
    method FindPublic(id: ObjectId) returns (p: Option<PublicUser>)
      ensures p == FindPublicById(records, id)
    {
      var found := FindById(records, id);
      p := if found.None? then None else Some(Public(found.value));
    }

    /** `User.findByIdAndUpdate(id, {$unset: {refreshToken: 1}})`. */
    method UnsetRefreshTokenOf(id: ObjectId)
      modifies this
      ensures records == UnsetRefreshToken(old(records), id)
    {
      records := UnsetRefreshToken(records, id);
    }
  }
}
