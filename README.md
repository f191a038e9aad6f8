# ytCloneBackend session and comment core, modelled in Dafny

This project models the core of a video-sharing backend written for Express and
Mongoose:

- the session lifecycle: login, logout, refresh-token rotation and password change;
- the access-token gate that guards every protected route;
- the user document, with its pre-save password hook and its two token generators;
- the input checks of registration and account update;
- the counting pipeline of the channel profile;
- the comment handlers: listing a video's comments, and adding, editing and deleting a
  comment.

Modules, one per file:

| file | module | what it holds |
|---|---|---|
| `wrappers.dfy` | `Wrappers` | `Option`, `Result` |
| `js_string.dfy` | `JsString` | JavaScript string semantics: truthiness, logical or, `trim`, `includes`, `replace` of the first occurrence, ASCII `toLowerCase`, UTF-16 `length`, `String(n)`, `parseInt(s, 10)` |
| `seqs.dfy` | `Seqs` | the selection of a `$match`/`$lookup` and the reordering of a descending `$sort` |
| `http.dfy` | `Http` | responses, cookies, thrown failures, the status Express answers with, the response object `Res` |
| `mongo.dfy` | `Mongo` | document ids and their `toString()` |
| `crypto.dfy` | `Crypto` | stand-ins for bcrypt and jsonwebtoken: a ledger of signed tokens, with expiry as an environment step |
| `user_model.dfy` | `UserModel` | the user schema, its queries and setters, the `UserDocument` and `UserCollection` classes |
| `auth_middleware.dfy` | `AuthMiddleware` | `verifyJWT`: token extraction, the check chain, the `Request` class |
| `session.dfy` | `Session` | the session handlers as step functions on (user store, token ledger), with their lemmas |
| `user_controller.dfy` | `UserController` | the session handlers as imperative methods proved equal to those steps; the validators and the channel profile |
| `comment_controller.dfy` | `CommentController` | the comment listing pipeline, the add/edit/delete steps and the `CommentStore` class whose methods are proved equal to them |

The handlers keep the source's control flow exactly, including its quirks:

- Several error branches send a response with `res.status(..).json(..)` and do not
  return. Execution goes on, so the store effects after the check still happen. The next
  `json` call throws `ERR_HTTP_HEADERS_SENT`.
- An `Exchange` records what one request did to the client: the first response that was
  sent and the failure that escaped the handler.
- `Res.Send` returns whether the response had already been sent.

Each imperative handler is proved to produce exactly the state and the `Exchange` of a
pure step function. The lemmas then state what those steps do.

Environment and library calls become parameters or stand-ins:

- The environment configuration (`ACCESS_TOKEN_SECRET` and the others) is a `Config`
  parameter.
- The clock is `now` for a comment's `createdAt`, and `Expire` for token expiry.
- bcrypt is an injective hash carrying the `$2b$10$` prefix.
- jsonwebtoken is a ledger of minted tokens. `verify` accepts a token only under the
  secret it was signed with and only while it has not expired.
- The database is sequences of documents in insertion order. `findOne` returns the first
  match.

Some behaviour of the code differs from what its messages and structure suggest. The
model keeps the behaviour of the code:

- A rejected access token or refresh token is answered with the library's own message
  ("jwt expired", "invalid signature", "jwt malformed"). The catch blocks fall back to
  "Invalid access token" (`src/middlewares/auth.middleware.js:26`) and
  "Invalid refreshToken" (`src/controllers/user.controller.js:207`), but
  `error?.message` comes first, so the fallback is used only for an error without a
  message. See `AuthMiddleware.GateReportsVerifierMessage` and `Session.RefreshFailsWith401`.
- An access token stays accepted after logout until it expires. Logout clears only the
  stored refresh token, and `verifyJWT` never reads that token. See
  `Session.GatePassesAfterLogout`.
- Several handlers send an error response with `res.status(..).json(..)` and do not
  return, so the rest of the handler still runs, and its own reply then throws because
  a response was already sent. The model keeps this fall-through: see, for example,
  `CommentController.NonOwnerStillEdits`, `CommentController.NonOwnerStillDeletes` and
  `Session.LoginUnknownUser`.
- The registration emptiness check (`some` with a block-bodied callback that returns
  nothing) never fires. See `UserController.EmptinessCheckNeverFires`.

## Model

| member | source | states |
|---|---|---|
| JsString.Or | src/controllers/user.controller.js:179 | JavaScript's `or` on possibly absent strings is truthy iff either operand is, and is the first operand when that is truthy, the second otherwise |
| JsString.TrimEmptyIff | src/controllers/user.controller.js:341 | `trim()` yields the empty string exactly when every character is JavaScript whitespace |
| JsString.TrimIdempotent | src/controllers/user.controller.js:42 | trimming a trimmed string changes nothing |
| JsString.IncludesIff | src/controllers/user.controller.js:42 | `includes(p)` holds exactly when `p` occurs at some index |
| JsString.IncludesChar | src/controllers/user.controller.js:48 | `includes(" ")` holds exactly when the string contains a space |
| JsString.ReplaceLeadingPattern | src/middlewares/auth.middleware.js:9 | replacing "Bearer " in "Bearer t" yields `t` |
| JsString.ReplaceAbsentPattern | src/middlewares/auth.middleware.js:9 | `replace` of a pattern that does not occur returns the string unchanged |
| JsString.LowercaseFixedIff | src/controllers/user.controller.js:45 | `s === s.toLowerCase()` exactly when `s` has no upper-case letter |
| JsString.LowercaseIdempotent | src/models/user.models.js:18 | lower-casing twice is lower-casing once |
| JsString.Utf16LengthOfBmp | src/controllers/user.controller.js:51 | `length` counts UTF-16 code units, one per character outside the surrogate range |
| JsString.DecimalRoundTrip | src/controllers/comment.controller.js:80-81 | the digits `String(n)` writes read back as `n` |
| JsString.DecimalInjective | src/controllers/comment.controller.js:144 | distinct numbers have distinct decimal strings |
| JsString.ParseIntDecimal | src/controllers/comment.controller.js:80-81 | `parseInt(String(n), 10)` is `n` |
| JsString.ParseIntNaN | src/controllers/comment.controller.js:80-81 | a string that starts with neither a digit, a sign nor whitespace parses to `NaN` |
| Seqs.FilterLengthIsCount | src/controllers/comment.controller.js:44-46 | the `$size` of a `$lookup` is the number of positions whose record matches |
| Seqs.SortByKeyDescending | src/controllers/comment.controller.js:59-63 | a descending `$sort` yields a permutation of its input ordered largest key first |
| Http.Rethrow401 | src/middlewares/auth.middleware.js:25-27 | the `catch` block's rethrow is a 401 whose message is JavaScript's `or` (`JsString.Or`) of the caught error's message and the fallback |
| Http.Res.Send | src/controllers/comment.controller.js:17 | the first `json` sends; a later one sends nothing and reports that it throws |
| Mongo.IdTextInjective | src/controllers/comment.controller.js:144 | comparing two ids by `toString()` is comparing the ids |
| Crypto.BcryptHashInjective | src/models/user.models.js:59 | different plaintexts hash differently |
| Crypto.BcryptCompare | src/models/user.models.js:66 | `bcrypt.compare` throws exactly when the plaintext is missing, with the library's message |
| Crypto.CompareAcceptsOnlyItsPlaintext | src/models/user.models.js:65-67 | a stored hash accepts its own plaintext and no other |
| Crypto.SignToken | src/models/user.models.js:69-94 | `jwt.sign` mints a token never issued before and records its claims, secret and expiry setting |
| Crypto.VerifyToken | src/middlewares/auth.middleware.js:15 | `jwt.verify` fails only with "jwt malformed", "invalid signature" or "jwt expired" |
| Crypto.VerifyIff | src/middlewares/auth.middleware.js:15 | a token verifies to `c` exactly when it was signed with this secret for `c` and has not expired |
| Crypto.SignThenVerify | src/models/user.models.js:69-82 | a token just signed verifies under its secret to its claims |
| Crypto.SignedRejectsOtherSecret | src/models/user.models.js:84-94 | a token signed with one secret is rejected under another with "invalid signature" |
| Crypto.SignPreservesVerify | src/models/user.models.js:69-94 | signing a token changes the verdict on no other token |
| Crypto.ExpiredTokenFails | src/middlewares/auth.middleware.js:15 | an expired token verifies under no secret |
| Crypto.JwtService.Sign | src/models/user.models.js:70-81 | the service's ledger after `sign` is the ledger `SignToken` computes |
| UserModel.PublicIgnoresSecrets | src/middlewares/auth.middleware.js:18 | `select('-password -refreshToken')` depends on neither the password nor the refresh token |
| UserModel.FindById | src/middlewares/auth.middleware.js:18 | `findById` returns a stored document with that id, and nothing exactly when no document has it |
| UserModel.FindByLogin | src/controllers/user.controller.js:116-118 | `findOne({$or: [{email}, {username}]})` returns a stored document matching either field, and nothing exactly when none does |
| UserModel.FindByLoginFirst | src/controllers/user.controller.js:116-118 | the document returned is the first match in insertion order: no earlier document matches either field |
| UserModel.FindPublicById | src/controllers/user.controller.js:132 | `findById(..).select('-password -refreshToken')` gives nothing exactly when no document has the id, and otherwise that document's public view |
| UserModel.PreSave | src/models/user.models.js:57-61 | the pre-save hook keeps the refresh token and every public field |
| UserModel.Replace | src/controllers/user.controller.js:20 | `save` replaces the document with that id, changes no other lookup, and changes nothing when the id is not stored |
| UserModel.UnsetRefreshToken | src/controllers/user.controller.js:150-162 | `$unset: {refreshToken}` clears that user's token and leaves every other lookup |
| UserModel.SavedPasswordChecks | src/models/user.models.js:57-67 | after a save with a modified password, `isPasswordCorrect` accepts exactly the new password |
| UserModel.SaveWithoutPasswordChangeKeepsHash | src/models/user.models.js:58 | a save with the password not modified keeps the stored hash |
| UserModel.CreateUser | src/models/user.models.js:5-54 | `User.create` appends exactly one document and leaves the stored ones as they were |
| UserModel.NormalizeEmailIdempotent | src/models/user.models.js:18-19 | the `lowercase` and `trim` setters are idempotent |
| UserModel.FindStored | src/models/user.models.js:9 | with unique ids, looking up a stored document's id finds that document |
| UserModel.ReplaceKeepsWellFormed | src/models/user.models.js:5-61 | saving a document that obeys the schema keeps the unique indexes and the field invariants |
| UserModel.CreateUserSucceeds | src/models/user.models.js:5-54 | creation succeeds when the required fields are present and the id, username and email are not taken |
| UserModel.CreatedRecord | src/models/user.models.js:5-61 | creation succeeds only with every required field present and the id, username and email not taken, and then appends exactly the new document with its email through the setters and its password hashed |
| UserModel.CreatePreservesWellFormed | src/models/user.models.js:5-61 | creating a user keeps unique ids, usernames and emails, stored emails in normal form and hashed passwords |
| UserModel.UserDocument.Save | src/models/user.models.js:57-61 | `save` runs the pre-save hook on the document and replaces the stored record with it |
| UserModel.UserDocument.IsPasswordCorrect | src/models/user.models.js:65-67 | `isPasswordCorrect` throws iff the plaintext is missing, and otherwise holds iff the stored hash is that plaintext's |
| UserModel.UserDocument.GenerateAccessToken | src/models/user.models.js:69-82 | signs `{_id, email, username, fullName}` with the access secret and expiry |
| UserModel.UserDocument.GenerateRefreshToken | src/models/user.models.js:84-94 | signs `{_id}` with the refresh secret and expiry |
| UserModel.UserCollection.FindDocument | src/controllers/user.controller.js:14 | `findById` hydrates the stored document with that id, or gives `null` |
| UserModel.UserCollection.FindLoginDocument | src/controllers/user.controller.js:116-118 | the login lookup hydrates the first document matching email or username |
| UserModel.UserDocument.SetPassword | src/controllers/user.controller.js:232 | `userData.password = newPassword` sets the password and marks the path modified only when the value differs from the current one |
| UserModel.UserCollection.FindPublic | src/controllers/user.controller.js:132 | the projection read from the collection is the one `UserModel.FindPublicById` gives for its records |
| UserModel.UserCollection.UnsetRefreshTokenOf | src/controllers/user.controller.js:150-162 | the store after `findByIdAndUpdate` with `$unset` |
| AuthMiddleware.CookieTokenPreferred | src/middlewares/auth.middleware.js:9 | a truthy `accessToken` cookie wins over any `Authorization` header |
| AuthMiddleware.BearerHeaderYieldsToken | src/middlewares/auth.middleware.js:9 | without a cookie, `Authorization: Bearer t` yields `t` |
| AuthMiddleware.HeaderWithoutBearerTakenWhole | src/middlewares/auth.middleware.js:9 | a header without "Bearer " is taken as it is |
| AuthMiddleware.Checks | src/middlewares/auth.middleware.js:10-24 | the `try` block succeeds only with a token that verifies under the access secret to a stored user, whom it returns without secrets |
| AuthMiddleware.Gate | src/middlewares/auth.middleware.js:6-28 | `verifyJWT` either admits a user or throws a 401, and it admits exactly when the check chain succeeds |
| AuthMiddleware.GateWithoutToken | src/middlewares/auth.middleware.js:10-12 | no token in cookie or header gives 401 "Unauthorized request", and only then |
| AuthMiddleware.GateReportsVerifierMessage | src/middlewares/auth.middleware.js:15-27 | a token the verifier rejects gives a 401 with the verifier's own message |
| AuthMiddleware.GateRejectsUnknownUser | src/middlewares/auth.middleware.js:18-21 | a valid token whose `_id` is not stored gives 401 "Invalid access token" |
| AuthMiddleware.GateAdmitsIssuedAccessToken | src/middlewares/auth.middleware.js:9-24 | a freshly signed access token for a stored user admits that user, without password or refresh token |
| AuthMiddleware.GateRejectsRefreshToken | src/middlewares/auth.middleware.js:15 | with distinct secrets, a refresh token is refused with 401 "invalid signature" |
| AuthMiddleware.GateIgnoresRefreshToken | src/middlewares/auth.middleware.js:18 | clearing a stored refresh token changes no verdict of the gate |
| AuthMiddleware.Request.VerifyJwt | src/middlewares/auth.middleware.js:6-28 | sets `req.user` and calls `next()` exactly when the gate admits, and otherwise throws the gate's 401 and leaves `req.user` unchanged |
| Session.Issue | src/controllers/user.controller.js:12-25 | token issuing fails exactly when the user is not stored, and then with 500 "Something went wrong while generating refresh and access token." |
| Session.IssueStoresRefreshToken | src/controllers/user.controller.js:12-25 | issuing stores the new refresh token on that user and changes nothing else; both tokens are new and distinct, each verifies under its own secret, and older tokens keep their verdicts |
| Session.IssuePreservesWellFormed | src/controllers/user.controller.js:19-20 | issuing keeps the schema invariants |
| Session.Login | src/controllers/user.controller.js:104-144 | every login answers the client or throws, and keeps the ledger valid |
| Session.LoginWithoutIdentifier | src/controllers/user.controller.js:113-115 | neither username nor email gives 400 "username and email is required" and no change |
| Session.LoginUnknownUser | src/controllers/user.controller.js:119-126 | an unknown login sends 400 "User doesnot exist.", then the handler throws and nothing changes |
| Session.LoginWrongPassword | src/controllers/user.controller.js:126-129 | a wrong password gives 401 "Invalid user credentials" and no change |
| Session.LoginSucceeds | src/controllers/user.controller.js:112-143 | a login naming a stored user with that user's password answers 200, nothing escapes, and the world is the issuing step's for that user |
| Session.LoginWithoutPassword | src/controllers/user.controller.js:126 | a login for a stored user without a password throws bcrypt's "data and hash arguments required", delivered as 500, and changes nothing |
| Session.LoginIssuesSession | src/controllers/user.controller.js:126-143 | a successful login answers 200 with both cookies; the body's tokens are the cookies' tokens; the refresh token is the stored one; the user is the one found, without secrets; the password was that user's |
| Session.LoginFailureChangesNothing | src/controllers/user.controller.js:104-131 | a login that throws leaves the store and the ledger as they were |
| Session.LoginSuccessIssues | src/controllers/user.controller.js:131 | a successful login is the issuing step for the user found |
| Session.LoginPreservesWellFormed | src/controllers/user.controller.js:104-144 | logging in keeps the schema invariants |
| Session.Logout | src/controllers/user.controller.js:146-173 | logout leaves the ledger and answers 200 without an escaped failure |
| Session.LogoutPreservesWellFormed | src/controllers/user.controller.js:150-162 | logging out keeps the schema invariants |
| Session.TryRotate | src/controllers/user.controller.js:184-205 | every failure inside the refresh `try` block carries a non-empty message |
| Session.Refresh | src/controllers/user.controller.js:175-209 | every refresh keeps the ledger valid |
| Session.RefreshPrefersCookie | src/controllers/user.controller.js:179 | a truthy refresh cookie is used whatever the body holds |
| Session.RefreshWithoutToken | src/controllers/user.controller.js:179-182 | no token in cookie or body gives 401 "unauthorized request" and no change |
| Session.RefreshFailsWith401 | src/controllers/user.controller.js:184-208 | every failed refresh reaches the client as a 401 carrying the message of the failure inside the `try` block, with no change; a refresh that does not fail answers 200 |
| Session.RefreshMismatchDoesNotRotate | src/controllers/user.controller.js:191-193 | a verifying token that is not the stored one gives 401 "RefreshToken is expired or used" and rotates nothing |
| Session.RotationRetiresPreviousToken | src/controllers/user.controller.js:191-205 | after a successful refresh, the previous token is refused as expired or used and the new one refreshes |
| Session.LogoutRevokesRefresh | src/controllers/user.controller.js:150-193 | after logout every refresh with a token of that user is refused with 401 "RefreshToken is expired or used" and changes nothing |
| Session.GatePassesAfterLogout | src/middlewares/auth.middleware.js:15-24 | logout changes no verdict of the access-token gate |
| Session.RefreshPreservesWellFormed | src/controllers/user.controller.js:175-209 | refreshing keeps the schema invariants |
| Session.PasswordChecks | src/controllers/user.controller.js:218-226 | the body checks pass exactly when the new password is truthy, equals the confirmation and has at least 8 code units; each failure is a 401 |
| Session.ChangePassword | src/controllers/user.controller.js:211-235 | a password change never touches the ledger |
| Session.ChangePasswordCheckOrder | src/controllers/user.controller.js:218-231 | the checks run in source order (required, length of the first truthy of `newPassword` and `confirmPassword`, match, old password) and the first failure picks the answer with no change |
| Session.ChangePasswordReplacesOnlyPassword | src/controllers/user.controller.js:227-234 | a completed change passed every check and leaves the refresh token, the other fields and the other users; when the new password differs from the stored hash string it stores the hash of the new password, which alone now checks, and otherwise the stored hash is kept |
| Session.ChangePasswordToStoredHashKeepsOld | src/controllers/user.controller.js:232-234 | a new password equal to the stored hash string is not a modification (`isModified("password")` is false), so the change answers 200 and keeps the stored document and every password verdict |
| Session.ChangePasswordFailureChangesNothing | src/controllers/user.controller.js:217-231 | a failed change sends nothing and changes nothing |
| Session.ChangePasswordPreservesWellFormed | src/controllers/user.controller.js:232-233 | changing the password keeps the schema invariants |
| UserController.GenerateAccessAndRefreshTokens | src/controllers/user.controller.js:12-25 | the method's result and new store and ledger are those of the issuing step |
| UserController.LoginUser | src/controllers/user.controller.js:104-144 | the handler's new store, ledger and exchange are those of the login step |
| UserController.LogoutUser | src/controllers/user.controller.js:146-173 | the handler's new store and exchange are those of the logout step |
| UserController.RotateRefreshToken | src/controllers/user.controller.js:184-196 | the `try` block's verification, lookup, stored-token comparison, issue and read-back give the rotation step's failure, or its tokens, user and new store and ledger |
| UserController.RefreshAccessToken | src/controllers/user.controller.js:175-209 | the handler's new store, ledger and exchange are those of the refresh step |
| UserController.ChangeCurrentPassword | src/controllers/user.controller.js:211-235 | the handler's new store and exchange are those of the password-change step |
| UserController.EmptinessCheckNeverFires | src/controllers/user.controller.js:39-41 | the `some` callback returns `undefined`, so "All Fields are required" is never thrown |
| UserController.RegisterChecks | src/controllers/user.controller.js:38-61 | the registration checks fail only with an `ApiError` or a `TypeError`, and pass only with an email and a password |
| UserController.RegisterCheckOrder | src/controllers/user.controller.js:42-61 | the checks run in source order and the first failure picks the answer: a missing email or one without "@" gives 400 "Invalid email", an email not in lower case the lower-case 400, a space the "remove spaces" 400, then a missing password the `TypeError` on `.length`, a short one the 400 "password must be above 8 digits", and a stored user matching the username or email the 409; the checks pass exactly when the email contains "@" after trimming, is lower-case, the first truthy of `username` and `email` has no space, the password has at least 8 code units and no user matches |
| UserController.RegisterChecksRuleOutDuplicates | src/controllers/user.controller.js:55-95 | a body passing the checks, with the required fields, is created without a duplicate-key error and keeps the schema invariants |
| UserController.UpdateAccountChecks | src/controllers/user.controller.js:246-252 | the update checks pass only with a truthy username or full name |
| UserController.UpdateAccountChecksFirstTruthy | src/controllers/user.controller.js:247-252 | 400 without fields; only the first truthy field is checked for spaces, with 401 "remove spaces" |
| UserController.ChannelRejectsBadUsername | src/controllers/user.controller.js:340-346 | a missing or whitespace-only username gives 400 "Username is missing in params/url", one with a space 400 "remove spaces in params/url" |
| UserController.ChannelNotFound | src/controllers/user.controller.js:347-405 | no user with that username gives 404 "Channel does not exists." |
| UserController.MatchFindsStoredUser | src/controllers/user.controller.js:347-352 | with unique usernames, the `$match` on a stored user's username selects exactly that user first |
| UserController.ChannelFound | src/controllers/user.controller.js:347-406 | a stored username answers 200 with that user's channel view |
| UserController.ChannelCounts | src/controllers/user.controller.js:355-379 | `subscriberCount` counts the subscriptions to the channel and `channelsSubscribedToCount` those the user holds |
| UserController.IsSubscribedIff | src/controllers/user.controller.js:380-386 | `isSubscribed` holds exactly when the caller subscribes to the channel |
| CommentController.FindComment | src/controllers/comment.controller.js:137 | `Comment.findById` returns a stored comment with that id, and nothing exactly when none has it |
| CommentController.SetContent | src/controllers/comment.controller.js:152-154 | `$set: {content}` changes only the content, and an `undefined` content changes nothing |
| CommentController.FindAfterUpdate | src/controllers/comment.controller.js:149-157 | the update reaches the comment with that id and no other |
| CommentController.FindAfterDelete | src/controllers/comment.controller.js:187 | `findByIdAndDelete` removes that comment and leaves every other lookup |
| CommentController.OwnerOf | src/controllers/comment.controller.js:27-49 | a listed comment has an owner exactly when its owner is a stored user |
| CommentController.ListingOfMissingVideo | src/controllers/comment.controller.js:13-91 | a missing video: the client gets 404 "Video not found" and the later 200 throws |
| CommentController.ListingDefaults | src/controllers/comment.controller.js:12-82 | without `page` and `limit` the listing is answered with page 1 and limit 10 |
| CommentController.ListingIsTheVideosComments | src/controllers/comment.controller.js:20-25 | the listing holds the annotation of every stored comment of the video and nothing else |
| CommentController.LikesCountCountsLikes | src/controllers/comment.controller.js:34-46 | `likesCount` is the number of stored likes whose `comment` is that comment |
| CommentController.IsLikedIff | src/controllers/comment.controller.js:50-56 | `isLiked` holds exactly when some like of that comment is by the caller |
| CommentController.ListingNewestFirst | src/controllers/comment.controller.js:59-63 | every listed comment is at least as new as every later one |
| CommentController.AddCreates | src/controllers/comment.controller.js:95-125 | content on an existing video appends one comment with a fresh id, the caller as owner, and answers 201 with it |
| CommentController.AddWithoutContentStillCreates | src/controllers/comment.controller.js:99-124 | without content the 400 is sent, the comment is still created on an existing video, and the 201 throws |
| CommentController.AddToMissingVideo | src/controllers/comment.controller.js:99-115 | on a missing video a comment is created iff the content is truthy (the 404 was the first send); the client gets the first error sent |
| CommentController.AddPreservesValid | src/controllers/comment.controller.js:111-115 | adding keeps comment ids distinct and below the next id |
| CommentController.MissingCommentUntouched | src/controllers/comment.controller.js:137-185 | a missing comment is neither edited nor deleted; the client gets the 404, or the earlier 400, and a failure escapes |
| CommentController.OwnerEdits | src/controllers/comment.controller.js:128-168 | the owner's edit with content replaces that comment's content only and answers 200 with the updated comment |
| CommentController.NonOwnerStillEdits | src/controllers/comment.controller.js:144-157 | a non-owner's edit is answered with 400, and the comment is edited all the same |
| CommentController.UpdateChangesOnlyThatComment | src/controllers/comment.controller.js:149-157 | an edit changes no other comment, no like and no id, and keeps the store valid |
| CommentController.DeleteRemovesCommentAndCallersLikes | src/controllers/comment.controller.js:187-192 | a delete past the ownership check removes the comment and exactly the caller's likes of it; every other like stays, as often as it was stored |
| CommentController.NonOwnerStillDeletes | src/controllers/comment.controller.js:182-192 | a non-owner's delete is answered with 400, and the comment is deleted all the same |
| CommentController.OwnerDeletes | src/controllers/comment.controller.js:194-198 | the owner's delete answers 200 with the comment id |
| CommentController.DeletePreservesValid | src/controllers/comment.controller.js:187 | deleting keeps comment ids distinct and below the next id |
| CommentController.CommentStore.AddComment | src/controllers/comment.controller.js:95-125 | the handler's new store and exchange are those of the add step |
| CommentController.CommentStore.UpdateComment | src/controllers/comment.controller.js:128-169 | the handler's new store and exchange are those of the edit step |
| CommentController.CommentStore.DeleteComment | src/controllers/comment.controller.js:172-199 | the handler's new store and exchange are those of the delete step |

## Left out

- Cloudinary uploads and deletions, and the removal of local temporary files: foreign network and file-system calls.
- `registerUser` after the duplicate lookup: the file paths, the uploads and the re-read of the created user. The model stops at the checks and relates them to `User.create`.
- `updateAccountDetails` after its checks: the `$set` of the two fields. Only the checks are modelled.
- `updateUserAvatar`, `updateUserCoverImage`, `getCurrentUser` and `getWatchHistory`: upload orchestration and projections with no rule to state.
- Multer storage, routing, application wiring and `asyncHandler`: plumbing. A thrown error is the `escaped` half of an `Exchange`.
- The centralized error formatter: an escaped failure is summarized by its status (`ErrorStatus`), not by its body.
- bcrypt internals: salting, the 72-byte input limit and one-wayness. The hash is an injective function of the plaintext.
- jsonwebtoken internals: signatures, the `iat` claim and the clock. Expiry is the environment step `Crypto.Expire`.
- Crypto.SignToken: every signing yields a token never issued before, whereas `jwt.sign` is deterministic: the same claims, secret and `iat` second give the same string. `Session.IssueStoresRefreshToken` (both tokens new) and `Session.RotationRetiresPreviousToken` (the previous token is refused) therefore assume that each signing happens in a later second than the previous one for the same claims; a refresh within the same second as the issue it follows re-issues the identical refresh token, which the model does not capture.
- `aggregatePaginate` slicing: the page carries the whole ordered listing with the parsed `page` and `limit`. The library's slicing is not part of this model.
- The order of comments with equal `createdAt`: MongoDB leaves it unspecified, and the model fixes one order.
- Concurrency: two refreshes racing on the stored refresh token are not modelled. Each request is one atomic step.
- Request body fields are strings or absent (`Option<string>`). A JSON body can carry numbers, booleans or objects: a number password has an undefined `.length`, so it passes the length check and reaches `User.create`, and `field?.trim()` on a number throws a `TypeError`. Those paths are not modelled.
- `toLowerCase` beyond ASCII: only `A`-`Z` are lowered.
- ObjectId casts of request parameters: ids are already numbers, so an invalid id string, and the `CastError` it raises, are not modelled.
- An absent value in a Mongo filter matches no document. Every field queried that way is required by the schema.
- The `min: 8` option on the `password` path: Mongoose ignores `min` on a String path, so it is not modelled as a validator.
- UserModel.CreateUser: a failed `required` validator is reported by the first failing path only (`ValidationFailed(path)`), whereas Mongoose's `ValidationError` lists every failing path; which paths fail together, and the error's message text, are not modelled.
- The Comment, Video and Like schemas: their source is not part of this model. The model assumes that `Comment.create` stores the given fields without validation, so a comment with empty or missing content is created (`CommentController.AddWithoutContentStillCreates`, `CommentController.AddToMissingVideo`). If the schema marks `content` as `required`, `create` throws after the 400 has been sent and stores nothing, which these lemmas do not capture.
- `$set` with an `undefined` content drops the field, as Mongoose 6 and later do.
- Stores are sequences in insertion order rather than keyed collections. Lookups take the first match, and the `Valid` and `WellFormed` invariants make ids unique.
- `req.user` on the comment routes is always set: `verifyJWT` guards all of them.
- Session.Logout: it states the answer and the ledger; the store effect is stated by `Session.LogoutRevokesRefresh` and `UserModel.UnsetRefreshToken`.
