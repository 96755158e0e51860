# auth-backend in Dafny

A model of the authentication and authorization core of `auth-backend`, an
Express/MongoDB service that issues JWT access and refresh tokens. It covers
these parts:

- **Authentication service** (`AuthService`). Registration, login,
  refresh-token rotation, logout and logout-everywhere run as methods of a
  class over two objects that change state: the user collection
  (`UserStore.UserCollection`) and the token signer (`Jwt.TokenSigner`).
  Each record keeps its live refresh tokens as a `seq<string>`. Each signing
  secret is modelled as a keyring, a map from every string it signed to the
  claims and the expiry instant signed into it.
- **Access gate** (`AuthMiddleware`). `authenticate` is the chain from the
  `Authorization` header to the caller's stored record. `authorize(...roles)`
  checks the role of the record `authenticate` loaded.
- **Admin endpoints** (`AdminController`). The listings omit password and
  tokens. The role-change and delete guard chains are given as functions over
  the store plus the methods that run them against it. The dashboard
  counters are included.
- **Request validation** (`Validation`). The empty-body pre-check and the zod
  schemas are reduced to the list of issues each schema reports.
  - A string schema runs all its checks.
  - A missing or mistyped field stops object-level refinements.
  - Lengths count UTF-16 code units.
  - The password-strength regular expression is modelled literally, then
    proved equal to a plain rule.
- **Error handling** (`ErrorMiddleware`). `AppError` and its defaults, and the
  first-match chain that turns a thrown error into a status and message.

Time is a parameter `now` in seconds. The password check (the `User` model's
`comparePassword`, which is not part of the source shown) is a parameter `matches`, and the email-format test is a parameter `isEmail`.
The deployment environment is a parameter `env`.

## Model

| member | source | states |
|---|---|---|
| Types.PublicView | src/controllers/admin.controller.ts:9 | the admin projection of a record keeps id, email, role and verification flag and nothing else |
| Jwt.Verify | src/utils/jwt.utils.ts:17-23 | a token verifies iff its secret signed it and `now` is before its expiry; it then yields the signed payload; a signed token from its expiry on is `TokenExpiredError` |
| Jwt.TokenSigner.SignAccess | src/utils/jwt.utils.ts:5-9 | the new access token is in neither keyring yet; only the access keyring changes, by exactly that token with the payload and expiry `now + 900` |
| Jwt.TokenSigner.SignRefresh | src/utils/jwt.utils.ts:11-15 | the new refresh token is in neither keyring yet; only the refresh keyring changes, by exactly that token with the payload and expiry `now + 604800` |
| UserStore.UserCollection.FindOne | src/services/auth.service.ts:8 | finds a record whose email equals the given string exactly, and finds none iff no such record exists |
| UserStore.UserCollection.Create | src/services/auth.service.ts:13-20 | the unique email index refuses a taken email and changes nothing; otherwise the record is stored under the counter's next id, above every id handed out before, and the counter moves on, so ids are never reused; nothing else changes |
| UserStore.UserCollection.Save | src/services/auth.service.ts:26-27 | overwrites one record, keeps the store's invariants (ids below the counter, unique emails) and leaves the id counter alone |
| UserStore.UserCollection.Delete | src/controllers/admin.controller.ts:85 | removes exactly that record and leaves the id counter alone, so the removed id is not handed out again |
| AuthService.Without | src/services/auth.service.ts:66 | the filtered list holds exactly the elements of the original other than the token |
| AuthService.WithoutCounts | src/services/auth.service.ts:66 | filtering removes every occurrence of the token and keeps every other element as often as it occurred |
| AuthService.WithoutAppend | src/services/auth.service.ts:66 | filtering keeps the order: it distributes over concatenation |
| AuthService.WithoutAbsent | src/services/auth.service.ts:85 | logging out a token the record does not hold leaves its list as it was |
| AuthService.WithoutIdempotent | src/services/auth.service.ts:85 | logging out the same token twice is the same as logging it out once |
| AuthService.PayloadOf | src/services/auth.service.ts:100-104 | the signed payload carries the record's id, email and role |
| AuthService.RefreshCheck | src/services/auth.service.ts:53-77 | a refresh succeeds iff the token verifies with the refresh secret, its subject exists and still lists it; the result is then that subject; every failure is the same 401 'Invalid or expired refresh token' |
| AuthService.Rotated | src/services/auth.service.ts:66-70 | rotation drops the spent token, appends the new one and changes nothing else in the record |
| AuthService.RotatedTokenIsRejected | src/services/auth.service.ts:62-71 | replay defence, in the state right after the rotation: the token just used is refused at any later clock |
| AuthService.RetiredTokenIsRejected | src/services/auth.service.ts:62-64 | while no record holds a retired token, a retired token fails every refresh with the same 401 |
| AuthService.RegisterThenLogin | src/services/auth.service.ts:7-51 | after a successful registration, logging in with the same email and password succeeds and reaches the same record, using only the methods' contracts |
| AuthService.ReplayAfterLogin | src/services/auth.service.ts:33-77 | a refresh token used once is still refused after a later login, using only the methods' contracts |
| AuthService.RotationKeepsOtherSessions | src/services/auth.service.ts:66-71 | a rotation leaves the outcome of refreshing any other token unchanged |
| AuthService.RotatedInTokenIsAccepted | src/services/auth.service.ts:68-71 | the refresh token a rotation hands out is accepted until it expires |
| AuthService.LoggedOutTokenIsRejected | src/services/auth.service.ts:79-87 | after `logout(id, t)` the token `t` of subject `id` no longer refreshes |
| AuthService.LoggedOutEverywhere | src/services/auth.service.ts:89-97 | after `logoutAll(id)` no refresh token of subject `id` refreshes |
| AuthService.RegisteredUserCanLogIn | src/services/auth.service.ts:13-20 | a record created by registration satisfies the login condition for its own password |
| AuthService.AuthService.GenerateTokens | src/services/auth.service.ts:99-110 | two distinct tokens that are new to both keyrings; each keyring gains exactly its token over the record's payload, with the 15-minute and 7-day expiries |
| AuthService.AuthService.Register | src/services/auth.service.ts:7-31 | refused with 400 exactly when the email is taken, with nothing changed; otherwise a new record under the store's next id: role 'user', unverified, holding only the new refresh token; the returned record shows no tokens; the two new tokens are distinct and new to both keyrings |
| AuthService.AuthService.Login | src/services/auth.service.ts:33-51 | an unknown email and a wrong password give the same 401, with nothing changed; otherwise the matching record gains the new refresh token at the end of its list; the two new tokens are distinct and new to both keyrings |
| AuthService.AuthService.RefreshAccessToken | src/services/auth.service.ts:53-77 | fails with 401 and changes nothing exactly when `RefreshCheck` fails; otherwise the subject's record is rotated to the new token, both keyrings gain the new pair, two distinct tokens new to both keyrings, so no existing token is re-pointed, and the used token is retired; the invariant (held tokens are signed for their holder and never retired) is kept |
| AuthService.AuthService.Logout | src/services/auth.service.ts:79-87 | 404 with nothing changed for an unknown id; otherwise every occurrence of the token leaves the record's list, and a token whose subject is that record is retired |
| AuthService.AuthService.LogoutAll | src/services/auth.service.ts:89-97 | 404 with nothing changed for an unknown id; otherwise the record's list becomes empty and every token it held is retired |
| AdminController.GetAllUsers | src/controllers/admin.controller.ts:7-18 | one projected entry per stored record, and the count is the number of records |
| AdminController.ListingHidesSecrets | src/controllers/admin.controller.ts:9-13 | two stores that differ only in passwords and refresh tokens give the same listing |
| AdminController.GetUserById | src/controllers/admin.controller.ts:20-33 | the projected record, or 404 'User not found' exactly when the id is unknown |
| AdminController.SingleViewHidesSecrets | src/controllers/admin.controller.ts:24 | the single-record view does not depend on password or refresh tokens |
| AdminController.RoleChange | src/controllers/admin.controller.ts:40-54 | an unknown role is 400; a known role for an unknown target is 404; the caller demoting themself to 'user' is 403; refusals are only these; a success keeps the same records, gives the target the new known role, and never sets the caller to anything but 'admin' |
| AdminController.RoleCheckedBeforeLookup | src/controllers/admin.controller.ts:40-42 | a role other than 'user' or 'admin' is refused with 400 before the target is looked up |
| AdminController.RoleChangeTouchesOnlyTarget | src/controllers/admin.controller.ts:53-54 | a successful role change rewrites only the target's role |
| AdminController.RoleChangeSucceedsIff | src/controllers/admin.controller.ts:40-54 | a role change succeeds iff the role is known, the target exists and it is not the caller demoting themself |
| AdminController.ActorKeepsAdminRole | src/controllers/admin.controller.ts:49-51 | an admin changing roles stays an admin |
| AdminController.UpdateUserRole | src/controllers/admin.controller.ts:35-70 | on the store, runs the guard chain in source order and answers with id, email and new role; on refusal the store is unchanged |
| AdminController.Deletion | src/controllers/admin.controller.ts:76-85 | refused exactly when the target is unknown (404, checked first) or is the caller (403); a success removes the target and keeps the caller |
| AdminController.DeletionRemovesOnlyTarget | src/controllers/admin.controller.ts:76-85 | a successful delete removes exactly the target, never the caller, and keeps every other record |
| AdminController.DeleteUser | src/controllers/admin.controller.ts:72-95 | on the store: 404 for an unknown id, 403 for the caller, otherwise the record is deleted; on refusal the store is unchanged |
| AdminController.KnownRolesSplit | src/controllers/admin.controller.ts:99-101 | when every stored role is 'user' or 'admin', the admin and user counts add up to the total |
| AdminController.DashboardStats | src/controllers/admin.controller.ts:97-116 | the total is the number of records; `unverifiedUsers` is the number of unverified records; admins plus users equal the total when every role is known |
| AdminController.AdminChangesKeepSessions | src/controllers/admin.controller.ts:53-85 | a role change or a delete keeps the service invariant: every held refresh token stays signed for its holder and none is retired |
| AdminController.DeleteThenRegisterAndRefresh | src/controllers/admin.controller.ts:72-95 | a deleted user's id is not given to a later registration, and after that registration and any user's refresh the deleted user's access token still admits no one, using only the methods' contracts |
| AdminController.AdminsNeverRunOut | src/controllers/admin.controller.ts:49-83 | an admin acting through the role and delete endpoints never leaves the store without an admin |
| AuthMiddleware.BearerToken | src/middlewares/auth.middleware.ts:15-19 | a token is read only from a header that starts with 'Bearer ', and the header is the prefix followed by the token |
| AuthMiddleware.BearerRoundTrip | src/middlewares/auth.middleware.ts:19 | for the header 'Bearer ' + t, the token read is t |
| AuthMiddleware.Authenticate | src/middlewares/auth.middleware.ts:7-36 | admits iff a bearer token verifies with the access secret at `now` and its subject exists; the admitted id is the token's subject and the record is that subject's stored record; every refusal is a 401 |
| AuthMiddleware.MissingBearerRejected | src/middlewares/auth.middleware.ts:15-17 | a missing header, or one without the prefix, is answered 'No token provided' |
| AuthMiddleware.IssuedAccessTokenAdmits | src/middlewares/auth.middleware.ts:22-32 | an unexpired access token of an existing subject admits that subject's record |
| AuthMiddleware.UnverifiedTokenRejected | src/middlewares/auth.middleware.ts:22-35 | an expired token, or one the access secret never signed (a refresh token, say), is answered 'Invalid or expired token' |
| AuthMiddleware.DeletedCallerRejected | src/middlewares/auth.middleware.ts:25-28 | a valid token whose subject was deleted is answered 401 'User not found' |
| AuthMiddleware.AccessOutlivesRevocation | src/middlewares/auth.middleware.ts:22-25 | revoking refresh tokens does not change whom an access token admits |
| AuthMiddleware.Authorize | src/middlewares/auth.middleware.ts:38-50 | allows iff there is a caller whose role is listed; 401 'Unauthorized' without a caller; 403 for an unlisted role |
| AuthMiddleware.EmptyRoleListDeniesAll | src/middlewares/auth.middleware.ts:44-46 | `authorize()` with no roles refuses every caller with 403 |
| AuthMiddleware.Guard | src/routes/admin.routes.ts:7-40 | `authenticate, authorize(...roles)` allows iff `authenticate` admits a caller whose stored role is listed; an authentication refusal is passed on as its 401; an admitted caller with another role gets 403 |
| AuthMiddleware.AdminGateReadsStoredRole | src/middlewares/auth.middleware.ts:7-50 | `authenticate, authorize('admin')` allows iff the token verifies and the subject's stored role, not the role signed into the token, is 'admin' |
| Validation.CheckIssues | src/middlewares/validation.middleware.ts:37-44 | a string value has no issues iff it passes every check of its schema, with at most one issue per check |
| Validation.CheckIssuesAvoid | src/middlewares/validation.middleware.ts:37-44 | a string schema reports only its own check messages |
| Validation.FieldIssues | src/middlewares/validation.middleware.ts:59-62 | a missing required field or a non-string value is one type issue on that field's key |
| Validation.ObjectIssues | src/middlewares/validation.middleware.ts:59-62 | an object has no issues iff none of its fields has any |
| Validation.ObjectIssuesPaths | src/middlewares/validation.middleware.ts:84-99 | no field check of the profile schema reports the change-password rule |
| Validation.Fields | src/middlewares/validation.middleware.ts:59-99 | every schema lists at least one field and each key once; only the profile schema has optional fields; only the role schema has an enumeration |
| Validation.RefineIssues | src/middlewares/validation.middleware.ts:88-99 | the refinement reports nothing or exactly the change-password issue, and only for the profile schema with a non-empty `newPassword` and no non-empty `currentPassword` |
| Validation.SchemaIssues | src/middlewares/validation.middleware.ts:59-99 | a schema without refinement reports exactly its field issues; a body passes iff no field has an issue and the refinement reports nothing |
| Validation.Validate | src/middlewares/validation.middleware.ts:5-33 | a missing or key-less body is refused with the body issue; otherwise the request passes iff the schema reports nothing; every refusal is a 400 with at least one issue |
| Validation.EmptyBodyRefusedFirst | src/middlewares/validation.middleware.ts:8-18 | the empty-body refusal comes first, whatever the schema |
| Validation.MatchesStrengthPattern | src/middlewares/validation.middleware.ts:35 | a string the pattern accepts has at least 8 characters, no line terminator and a special character |
| Validation.StrongPasswordChecksIff | src/middlewares/validation.middleware.ts:35-44 | the strong-password schema, with the regular expression read literally, accepts exactly the passwords of 8 to 128 characters that use only letters, digits and @$!%*?& and contain at least one of each kind |
| Validation.LookaheadIffOccurs | src/middlewares/validation.middleware.ts:35 | in a string without line terminators, `(?=.*[c])` succeeds iff a character of class c occurs |
| Validation.PasswordLengthRules | src/middlewares/validation.middleware.ts:46-49 | the basic password schema accepts exactly 6 to 128 units; the login password accepts exactly 1 to 128 |
| Validation.EmailRule | src/middlewares/validation.middleware.ts:51-57 | an email passes iff it has the email format and 3 to 255 units |
| Validation.RegisterBodyAcceptedIff | src/middlewares/validation.middleware.ts:59-62 | a register body passes iff it carries a well-formed email and a strong password |
| Validation.LoginBodyAcceptedIff | src/middlewares/validation.middleware.ts:69-72 | a login body passes iff it carries a well-formed email and a password of 1 to 128 units |
| Validation.RefreshBodyAcceptedIff | src/middlewares/validation.middleware.ts:74-76 | a refresh body passes iff its `refreshToken` is a non-empty string |
| Validation.RoleBodyAcceptedIff | src/middlewares/validation.middleware.ts:78-82 | a role body passes iff `role` is exactly 'user' or 'admin' |
| Validation.ChangePasswordRuleIff | src/middlewares/validation.middleware.ts:84-99 | the profile schema reports 'Current password is required when changing password' iff every field has its type, `newPassword` is non-empty and `currentPassword` is missing or empty |
| ErrorMiddleware.NewAppError | src/middlewares/error.middleware.ts:10-16 | an `AppError` is operational, keeps message and details, and its status defaults to 500 |
| ErrorMiddleware.FallbackStatus | src/middlewares/error.middleware.ts:73 | the fallback status (`statusCode`, or 500 when it is absent or 0) is never 0 |
| ErrorMiddleware.ErrorHandler | src/middlewares/error.middleware.ts:19-79 | an error that is not an operational `AppError` never gets status 0; in production it only ever gets one of the fixed messages |
| ErrorMiddleware.OperationalAppErrorWins | src/middlewares/error.middleware.ts:41-43 | an operational `AppError` gets its own status, message and details in every environment |
| ErrorMiddleware.ServiceErrorsSurfaceUnchanged | src/middlewares/error.middleware.ts:41-43 | each error the service throws reaches the client with the status and message it was thrown with; an `AppError` with no status is a 500 |
| ErrorMiddleware.ValidationErrorListsFields | src/middlewares/error.middleware.ts:45-51 | a store validation error is 400 'Validation failed', with its field errors |
| ErrorMiddleware.DuplicateKeyBeatsStoreFailure | src/middlewares/error.middleware.ts:53-55 | any error with code 11000 is a 409 unless it is a `ValidationError`, whatever its name, `MongoServerError` included |
| ErrorMiddleware.CastErrorIsBadId | src/middlewares/error.middleware.ts:57-59 | a `CastError` without the duplicate-key code is 400 'Invalid resource ID format' |
| ErrorMiddleware.StoreFailureIsUnavailable | src/middlewares/error.middleware.ts:69-71 | a `MongoError` or `MongoServerError` without the duplicate-key code is 503 'Database operation failed' |
| ErrorMiddleware.TokenErrorsAreUnauthorized | src/middlewares/error.middleware.ts:61-67 | `JsonWebTokenError` and `TokenExpiredError` without the duplicate-key code are 401s with their own messages |
| ErrorMiddleware.ProductionHidesInternalMessages | src/middlewares/error.middleware.ts:73-78 | in production an unclassified error's own message never reaches the reply |
| ErrorMiddleware.FallbackMessage | src/middlewares/error.middleware.ts:73-78 | an unclassified error with any code other than 11000 gets its own status, or 500 when that is absent or 0; outside production it shows its own message, or 'Internal Server Error' when that is empty; in production it shows the fixed text |

### Email matching

Emails are matched exactly as sent:

- `validate` runs `schema.parse(req.body)` and discards the result
  (src/middlewares/validation.middleware.ts:20). The lower-cased and trimmed
  email never reaches the service.
- `findOne({ email })` receives the raw string
  (src/services/auth.service.ts:8 and :34).

`UserStore.EmailTaken` is therefore exact-match, and `Register` refuses only
an exactly equal email. Whether the store's own schema lower-cases emails
cannot be seen, because the `User` model is not part of this model.

## Left out

- Token cryptography. `jsonwebtoken` signing and verification are replaced by
  keyrings. The signer draws each token from a serial counter, so no string
  is signed twice. This freshness is an assumption of the model: a real
  signer is deterministic, and two tokens over the same payload in the same
  clock second are equal strings.
- Token lifetimes: the model fixes them at the defaults '15m' and '7d'.
  src/config.ts:8-9 reads them from `ACCESS_TOKEN_EXPIRES` and
  `REFRESH_TOKEN_EXPIRES`, so other deployments may use other lifetimes.
- Separate secrets: an assumption of the model, not a guarantee of the
  source. `src/config.ts:6-7` reads `JWT_ACCESS_SECRET` and
  `JWT_REFRESH_SECRET` from the environment and nothing checks that they
  differ. The model assumes they do, so that a token signed with one never
  verifies with the other, and keeps the two keyrings disjoint. The
  refresh-token case of `AuthMiddleware.UnverifiedTokenRejected` rests on
  this assumption; with equal secrets a refresh token would pass
  `authenticate`.
- Password hashing: the `User` model's password hashing and
  `comparePassword` are not part of the source shown. They are left to the
  parameter `matches` and the stored `password` string.
- Email format (`z.string().email()`): left to the parameter `isEmail`.
- The `User` Mongoose model: `_id` generation, ObjectId parsing, `select`
  projections and timestamps are not part of this model.
  - Ids are naturals handed out by the collection.
  - A malformed id (Mongoose `CastError`) is not modelled.
- Concurrency. Each service call is one atomic step on the store. The
  find-then-save race between concurrent requests is not modelled, nor is a
  duplicate key raised by a concurrent insert.
- AuthService.AuthService.Register: the source re-reads the record by id
  after saving and pushes the token only `if (userWithTokens)`. The model
  treats that read as always finding the record it just created.
- zod's own wording for type and enum issues: these are `InvalidType` and
  `InvalidEnumValue` issues without a message. Bodies that are not JSON
  objects are not modelled. Keys other than the schema's are allowed in a
  body and ignored, as zod's default strip mode ignores them.
- Validation.Validate: the parsed result is discarded, and the source does
  the same. The lower-casing and trimming transforms therefore change no
  verdict and are not modelled.
- Logging in `errorHandler`, `notFoundHandler`, `asyncHandler` and the
  `ApiResponse` envelope (`success` flag, message text of successful
  answers).
- ErrorMiddleware.ErrorHandler: thrown values are modelled by shape only
  (`name`, `message`, `statusCode`, `code`, field errors). A `statusCode` or
  `code` that is not a number, and other JavaScript falsy values, are not
  modelled.
- AdminController.GetAllUsers: the listing is a map keyed by id.
  `getAllUsers` returns an array in store order, and that order is not
  modelled.
- The controllers' `catch` blocks that answer 500 with the error's message:
  store failures are not modelled.
- `auth.controller.ts`, the route table beyond the admin guard chain,
  `app.ts`, `index.ts`, `config.ts` and the administration scripts are
  request plumbing and one-off tools, not part of this model.
