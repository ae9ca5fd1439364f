# Fitness backend authentication, modelled in Dafny

This project models the authentication core of the fitness-tracker backend:

- **The credential controller.** `register`, `isValidPassword`, `login`, `logout` and the two session gates `verifyAndRefresh` and `verifyAndRefreshSensitive` work over four document collections:
  - users;
  - failed-login counters;
  - lockout markers;
  - refresh-token sessions.
- **The four store schemas.** Their uniqueness keys, defaults and time-to-live rules.
- **The Firebase-based access middleware.** `verify` and `checkAccess`.
- **The profile schema validator.**

Each handler is written twice:

- as a pure transition function in `AuthSpec`, from the collections before a request to the collections after it and the response;
- as an imperative method of the class `Controller.AuthController`, whose fields are the four collections.

Every `AuthController` method is proved to compute its transition and to keep the collections' invariant (`Collections.Valid`). The properties the system promises are proved as lemmas about the transitions, in the modules `LoginProperties` and `SessionProperties`. Examples are:

- lockout precedence;
- the counter-to-lockout transition;
- reset on success;
- the sliding idle timeout;
- the check order of the two gates;
- token rotation;
- revocation on logout.

Modelling choices:

- **Time.** Each request takes the current time `now` in milliseconds (`Date.now()`) as a parameter. TTLs are in seconds.
- **Expiry.** A record is visible exactly while `now < stamp + ttl * 1000`. An expired record reads as absent: the store's background reaper is idealised.
- **Cryptography.** CryptoJS AES and jsonwebtoken are a record of functions (`Crypto.Crypto`). The round-trip facts the controller relies on form the predicate `Crypto.Sound`; lemmas that need them take it as a precondition. AES draws a random salt, so the salt is an input of `register`.
- **Token expiry.** The `exp` check of jsonwebtoken is modelled exactly, in seconds, as `Math.floor(now / 1000) >= exp`. The configured `AUTH.ACCESS_TOKEN_LIFETIME` is a string that jsonwebtoken's `expiresIn` reads with `ms` (a bare "120" means 120 milliseconds). `Config.accessTokenLifetime` is that duration in whole seconds, `floor(ms(value) / 1000)`, which is what jsonwebtoken adds to `iat` to get `exp`.
- **Password length.** `password.length` counts UTF-16 code units (`AuthSpec.Utf16Length`).
- **User lookup.** A user's `_id` is its insertion position. Where several users match the login lookup `$or: [{email}, {username}]`, the store leaves the choice open; the model takes the earliest (see "## Left out").

Behaviours of the code worth noting, which the model keeps:

- `verifyAndRefresh` checks the access token first. A valid access token passes without any session lookup and without touching `lastUsed`. Only the sensitive gate checks the session first. Neither gate touches the session when the access token is valid.
- `logout` with no refresh header throws on `undefined.split` and answers 500. The test at backend/tests/controllers/authController.test.ts:668-685 still expects 200 for that request.
- An expired access token, resent with a live refresh token, is refreshed again rather than refused: rotation does not invalidate the old token.
- An empty `username` or `email` passes both lookups, but the schema's `required` rule refuses the empty string, so the save throws and `register` answers 500.
- Both tokens are deterministic in `sub` and the second of issue. So two successful logins of one user within the same second sign the same refresh token. The second session insert then violates the `(userId, token)` unique index and the request ends in 500, after the failed-login counter and the lockout were already deleted.
- The first wrong password creates a counter of 1 without comparing it with `MAX_FAILED_LOGINS`. A threshold of 1 or less therefore still takes two failures (`LoginProperties.Threshold`).

## Model

| member | source | states |
|---|---|---|
| Crypto.SignedTokenVerifies | backend/src/controllers/authController.ts:193-202 | a token the server signed verifies under the same secret to its own claims unless expired |
| Crypto.AccessTokenLifetime | backend/src/controllers/authController.ts:193-195 | an access token signed at `issued` is accepted exactly while the current second is before `issued` + lifetime |
| Crypto.RefreshTokenNeverExpires | backend/src/controllers/authController.ts:196-202 | a refresh token has no `exp`, so its signature never times out |
| Headers.Split | backend/src/controllers/authController.ts:288 | `split(' ')` yields at least one field, no field holds a space, and joining the fields with spaces gives the header back |
| Headers.SplitJoin | backend/src/controllers/authController.ts:309 | splitting a space-joined list of space-free fields gives the list back |
| Headers.BearerRoundTrip | backend/src/controllers/authController.ts:381 | `Bearer <token>` yields `<token>` as its second field |
| Headers.NoSpaceNoToken | backend/src/controllers/authController.ts:243 | a header with no space has no second field (`undefined`) |
| Headers.BearerField | backend/src/features/auth/controllers/authController.ts:17-26 | after the `Bearer ` check the second field always exists and is the text after `Bearer ` up to the next space |
| Collections.FindByIdentifier | backend/src/controllers/authController.ts:105-107 | the login lookup is None exactly when no user's email or username is the identifier, and otherwise a user that matches (the earliest, as the model chooses) |
| Collections.IdentifierFindsOwner | backend/src/models/user.ts:20-21 | under the unique username and email indexes the lookup finds the account the identifier names |
| Collections.AppendKeepsUnique | backend/src/models/user.ts:20-21 | inserting a user with a new username and a new email keeps both unique indexes |
| Collections.FailedLookup | backend/src/models/failedLoginUserModel.ts:32-35 | the counter lookup finds the stored record exactly while its age from `createdAt` is below the failed-login window |
| Collections.LockoutLookup | backend/src/models/lockedOutUserModel.ts:24-27 | the lockout lookup finds the stored record exactly while its age from `createdAt` is below the lockout time |
| Collections.SessionLookup | backend/src/models/refreshToken.ts:24-27 | the session lookup by `(userId, token)` finds the stored record exactly while the time since `lastUsed` is below the idle timeout, and with a zero timeout not even at the moment it is written |
| Headers.SecondField | backend/src/controllers/authController.ts:243 | `split(' ')[1]` is defined exactly when the header holds a space, and is then a field without spaces |
| AuthSpec.Register | backend/src/controllers/authController.ts:23-81 | registration changes only the users; it answers 201 exactly when it appends, and then it appends one account with the given username and email after passing every check |
| AuthSpec.RecordFailure | backend/src/controllers/authController.ts:139-171 | a wrong password leaves the user with a counter or a lockout, and changes no other user's records, the users or the sessions |
| AuthSpec.LoginSucceeded | backend/src/controllers/authController.ts:182-221 | a correct password removes exactly this user's counter and lockout; the reply is the login reply, with exactly one new session `(userId, refresh token)` used at `now`, or 500 with the sessions unchanged |
| AuthSpec.Login | backend/src/controllers/authController.ts:102-228 | login never changes the users; it answers 401, 429, 500 or the login reply, the last only for the looked-up user whose password decrypts to the one given, and a 429 changes nothing |
| AuthSpec.Logout | backend/src/controllers/authController.ts:237-260 | logout only ever removes sessions and leaves the rest alone; it answers 200, or 500 with nothing changed |
| AuthSpec.Refresh | backend/src/controllers/authController.ts:331-340 | a refresh resets the session to `lastUsed = now`, keeps every other session and collection, and hands on a new access token |
| AuthSpec.VerifyAndRefresh | backend/src/controllers/authController.ts:271-351 | the gate never creates or deletes a session nor touches the other collections, answers `next` or 401, and changes state only when it hands on a new access token |
| AuthSpec.VerifyAndRefreshSensitive | backend/src/controllers/authController.ts:362-443 | the same frame as the plain gate: no session created or deleted, only `next` or 401, state changed only with a new access token |
| AuthSpec.Utf16Length | backend/src/controllers/authController.ts:89 | `length` counts between one and two units per character |
| AuthSpec.IsValidPassword | backend/src/controllers/authController.ts:88-93 | eight characters always pass, fewer than four never do, and on BMP text the rule is exactly length >= 8 |
| AuthSpec.Utf16LengthBmp | backend/src/controllers/authController.ts:89 | on text within the Basic Multilingual Plane `length` is the number of characters |
| AuthSpec.RefreshSubject | backend/src/controllers/authController.ts:307-311 | a refresh header yields a subject exactly when its token verifies under the refresh secret, and then it is that token and the `sub` the verification returned |
| AuthProperties.RegisterKeepsValid | backend/src/controllers/authController.ts:23-81 | registration keeps every collection invariant, in particular the unique indexes |
| AuthProperties.RecordFailureKeepsValid | backend/src/controllers/authController.ts:139-171 | recording a failure keeps each counter between 1 and the threshold |
| AuthProperties.LoginKeepsValid | backend/src/controllers/authController.ts:102-228 | login keeps every collection invariant on every path |
| AuthProperties.LogoutKeepsValid | backend/src/controllers/authController.ts:237-260 | logout keeps every collection invariant |
| AuthProperties.GatesKeepValid | backend/src/controllers/authController.ts:271-443 | both gates keep every collection invariant |
| Controller.AuthController.Register | backend/src/controllers/authController.ts:23-81 | the handler computes `AuthSpec.Register` on the collections and keeps the invariant |
| Controller.AuthController.Login | backend/src/controllers/authController.ts:102-228 | the handler computes `AuthSpec.Login` on the collections and keeps the invariant |
| Controller.AuthController.Logout | backend/src/controllers/authController.ts:237-260 | the handler computes `AuthSpec.Logout` on the collections and keeps the invariant |
| Controller.AuthController.TouchAndRotate | backend/src/controllers/authController.ts:331-340 | a live session gets `lastUsed := now`, and a new access token is signed for its user |
| Controller.AuthController.VerifyAndRefresh | backend/src/controllers/authController.ts:271-351 | the gate computes `AuthSpec.VerifyAndRefresh` on the collections and keeps the invariant |
| Controller.AuthController.VerifyAndRefreshSensitive | backend/src/controllers/authController.ts:362-443 | the gate computes `AuthSpec.VerifyAndRefreshSensitive` on the collections and keeps the invariant |
| LoginProperties.RegisterRejections | backend/src/controllers/authController.ts:26-79 | username taken gives 409, then email taken gives 409, then a weak password gives 422, then an empty username or email fails the save with 500; a rejection stores nothing |
| LoginProperties.RegisterSucceeds | backend/src/controllers/authController.ts:62-74 | a registration with a non-empty username and email that passes the checks appends exactly one user whose password decrypts to the one supplied, answers 201 without tokens and leaves the other collections alone |
| LoginProperties.SecondRegistrationCollides | backend/src/models/user.ts:20-21 | a second registration reusing the username or the email is refused with 409 and changes nothing |
| LoginProperties.LoginUnknownIdentifier | backend/src/controllers/authController.ts:105-116 | an identifier matching nobody answers 401 invalid credentials and changes nothing |
| LoginProperties.UnknownLooksLikeWrongPassword | backend/src/controllers/authController.ts:174-178 | an unknown identifier and a wrong password get the same response |
| LoginProperties.LockoutPrecedence | backend/src/controllers/authController.ts:119-130 | a live lockout answers 429 whatever the password and changes nothing |
| LoginProperties.LoginWrongPassword | backend/src/controllers/authController.ts:138-178 | a wrong password answers 401: it creates a counter at 1, or increments it and locks out at the threshold, keeping `createdAt` |
| LoginProperties.LoginCorrectPassword | backend/src/controllers/authController.ts:182-221 | the correct password deletes the counter and lockout, adds exactly one session `(userId, token, now)` and returns both tokens and the user fields without the password, or answers 500 on a duplicate session |
| LoginProperties.SeveralSessionsPerUser | backend/src/models/refreshToken.ts:36 | only the pair `(userId, token)` is unique: a user with a live session who logs in again keeps it untouched and, on success, holds a second session under another token |
| LoginProperties.ExpiredLockoutIgnored | backend/src/models/lockedOutUserModel.ts:27 | an expired lockout reads as absent, so login goes on to the password check |
| LoginProperties.Threshold | backend/src/controllers/authController.ts:143-157 | the number of failures that lock out is at least 2 and at least the configured maximum, and equals it when that is 2 or more |
| LoginProperties.RepeatedFailures | backend/src/controllers/authController.ts:139-171 | consecutive failures within the window count 1, 2, ... in one record keeping its first `createdAt`, and the one reaching the threshold replaces it by a lockout |
| LoginProperties.FirstFailure | backend/src/controllers/authController.ts:143-150 | a first failure creates the counter at 1 |
| LoginProperties.NextFailure | backend/src/controllers/authController.ts:151-170 | a later failure increments the counter or locks out at the threshold |
| LoginProperties.ThresholdLocksOut | backend/src/controllers/authController.ts:157-166 | after the threshold of failures the next login answers 429 even with the correct password while the lockout lasts |
| LoginProperties.SuccessResetsCounter | backend/src/controllers/authController.ts:182-184 | after a successful login the next wrong password counts from 1 again |
| LoginProperties.FailureWindowFixed | backend/src/models/failedLoginUserModel.ts:35 | incrementing the counter keeps its `createdAt`, so the window stays fixed from the first failure |
| SessionProperties.VerifyAndRefreshOrder | backend/src/controllers/authController.ts:278-329 | no access header gives 401 not authenticated; a valid access token passes unchanged; then a missing refresh header, bad signature or no live session gives 401 session expired |
| SessionProperties.RefreshPath | backend/src/controllers/authController.ts:331-343 | on the refresh path both gates set `lastUsed := now` on the session, change nothing else and pass a new access token for the same user |
| SessionProperties.SensitiveOrder | backend/src/controllers/authController.ts:373-421 | the sensitive gate refuses a missing refresh header, bad signature or dead session before looking at the access header |
| SessionProperties.SensitivePassImpliesPlainPass | backend/src/controllers/authController.ts:362-443 | whatever the sensitive gate lets through, the plain gate lets through with the same state and header |
| SessionProperties.EmptyTokenRefused | backend/src/controllers/authController.ts:286-329 | headers whose second field is empty, such as `Bearer `, hand `jwt.verify` the empty token, which it refuses, so both gates answer 401 session expired and change nothing |
| SessionProperties.GatesDiffer | backend/src/controllers/authController.ts:290-295 | with a dead session the plain gate still passes a valid access token, where the sensitive one refuses |
| SessionProperties.RefreshSlidesExpiry | backend/src/models/refreshToken.ts:27 | after a refresh at `now` the session is visible exactly until `now` + idle timeout |
| SessionProperties.IdleSessionRefused | backend/src/controllers/authController.ts:319-329 | a session idle for the timeout is refused by both gates although the token still verifies |
| SessionProperties.OneRequest | backend/src/controllers/authController.ts:320-343 | a request with a failing access token and a live session is refreshed |
| SessionProperties.ContinuousUseKeepsSession | backend/src/controllers/authController.ts:332-333 | requests whose access token fails, each less than the idle timeout after the previous one, keep the session alive indefinitely, each refreshed and moving `lastUsed` forward |
| SessionProperties.ValidAccessDoesNotExtend | backend/src/controllers/authController.ts:286-329 | a request with a valid access token leaves the session's `lastUsed` alone, so once the idle timeout has run the sensitive gate refuses the same headers |
| SessionProperties.EveryRequestRefreshed | backend/src/controllers/authController.ts:335-343 | every request of such a sequence gets a new access token for the user |
| SessionProperties.RotatedTokenAccepted | backend/src/controllers/authController.ts:336-340 | the token sent in `x-new-access-token`, resent as `Bearer`, passes the plain gate unchanged within its lifetime |
| SessionProperties.LoginTokensPass | backend/src/controllers/authController.ts:193-221 | the two tokens a login returns open the sensitive gate within the access lifetime and the idle timeout |
| SessionProperties.LogoutOutcome | backend/src/controllers/authController.ts:237-260 | logout answers 200 exactly when the refresh token verifies and then deletes that session only; otherwise 500 and no change |
| SessionProperties.LogoutIdempotent | backend/src/controllers/authController.ts:247 | logging out twice with the same header gives the same answer and the second call changes nothing |
| SessionProperties.LogoutRevokes | backend/src/controllers/authController.ts:247 | after a successful logout the sensitive gate refuses that refresh token |
| FirebaseAuth.BearerToken | backend/src/features/auth/controllers/authController.ts:17-26 | a token is handed on exactly when the header starts with `Bearer `, and it is the text after that up to the next space |
| FirebaseAuth.BearerTokenRoundTrip | backend/src/features/auth/controllers/authController.ts:26 | `Bearer <token>` hands on `<token>` |
| FirebaseAuth.VerifiedUid | backend/src/features/auth/controllers/authController.ts:24-35 | a uid comes only from a `Bearer` header, and it is the verifier's answer for the header's second field: the space-free text after `Bearer ` running to the end or the next space |
| FirebaseAuth.Verify | backend/src/features/auth/controllers/authController.ts:15-42 | `next` is called exactly when a uid is verified, which is then written to the request; otherwise 401 and the request is untouched |
| FirebaseAuth.CheckAccess | backend/src/features/auth/controllers/authController.ts:57-87 | a request is let through only with a recorded uid that equals every `userId` present in body or params |
| FirebaseAuth.CheckRequest | backend/src/features/auth/controllers/authController.ts:57-87 | run on a request, the middleware calls `next` exactly when a uid is recorded and every `userId` in body or params is that uid |
| FirebaseAuth.CheckAccessOwnership | backend/src/features/auth/controllers/authController.ts:57-87 | a request passes exactly when a uid is recorded and every `userId` in body or params is strictly equal to it |
| UserProfile.NumericValues | backend/src/features/users/models/userModel.ts:37 | the filter keeps no more members than there are |
| UserProfile.NumericValuesExactly | backend/src/features/users/models/userModel.ts:37 | the filter keeps exactly the numeric members and drops the reverse-mapping names |
| UserProfile.FilterRecoversValues | backend/src/features/users/models/userModel.ts:37-49 | filtering an enum's `Object.values` gives its values back in order |
| UserProfile.SexValues | backend/src/features/users/constants.ts:18-21 | `sex` admits exactly 0 and 1 |
| UserProfile.ActivityLevelValues | backend/src/features/users/constants.ts:26-32 | `activityLevel` admits exactly the whole numbers 0 to 4 |
| UserProfile.WeightGoalValues | backend/src/features/users/constants.ts:37-45 | `weightGoal` admits exactly the whole numbers 0 to 6 |
| UserProfile.Violations | backend/src/features/users/models/userModel.ts:31-57 | a path is reported exactly when one of its fields is unset or out of its rule |
| UserProfile.ValidatesIffAllHold | backend/src/features/users/models/userModel.ts:31-57 | a document validates exactly when every field holds |
| UserProfile.SexHolds | backend/src/features/users/models/userModel.ts:34-38 | the `sex` field holds exactly at 0 and 1 |
| UserProfile.ActivityLevelHolds | backend/src/features/users/models/userModel.ts:41-45 | the `activityLevel` field holds exactly at 0 to 4 |
| UserProfile.WeightGoalHolds | backend/src/features/users/models/userModel.ts:46-50 | the `weightGoal` field holds exactly at 0 to 6 |
| UserProfile.ProfileValidation | backend/src/features/users/models/userModel.ts:33-57 | a profile validates exactly when age is in [0, 150], sex 0 or 1, height and weight in [0, 500], activity level 0..4, weight goal 0..6, `useMetric` a boolean and each goal >= 0, all of them set |
| UserProfile.BoundsAreFields | backend/src/features/users/models/userModel.ts:33-57 | the explicit bounds agree field by field with the schema's rules |
| UserProfile.MissingFieldReported | backend/src/features/users/models/userModel.ts:33 | an unset required field is always reported |

## Left out

- Cryptography internals: AES, HMAC and the token encoding are abstract functions. Only their round trips, that an empty token never verifies, and that a signed token is non-empty and holds no space, are relied on.
- The background TTL reaper's delay: Mongo deletes expired documents up to about a minute late. The model treats a record as gone the instant it expires, and that includes the unique-index check on login.
- Concurrency: the check-then-insert of `register` and the read-increment-save of the counter are not atomic in the source. The model runs one request at a time.
- Store exceptions other than the duplicate session insert and the empty-string `required` failure (lost connection, other validation errors) are left out. A missing `username`, `email` or `password` body field is left out too.
- Non-string body values of `register` and `login`. `express.json()` (backend/src/app.ts:47) lets any JSON value reach the queries, but the model types every body field as a string. As a result it does not capture:
  - an operator object such as `{"$ne": null}` or `{"$regex": "^a"}` as `emailOrUsername`, `username` or `email` (the store reads it as a query operator, so login can hit some user's account and raise its failure counter without naming it);
  - a number, which the store casts to a string;
  - a numeric `password`, whose `length` is undefined, so `isValidPassword` accepts it;
  - a missing `emailOrUsername`.
- Which user the login lookup returns when the identifier is one user's username and another user's email: the store does not fix it. `Collections.FindByIdentifier` picks the earliest registered; `Collections.IdentifierFindsOwner` covers every case where the choice is unambiguous.
- `phone` is passed to `new User` but is not in the schema; strict mode drops it, so it is not modelled.
- Mongoose casting: profile values are taken as already of their JSON kind. A string that Mongoose would cast to a number, `NaN` and `null` are not modelled. `_id`, `createdAt` and `updatedAt` of the profile have no rule and are left out.
- The logger, the rate limiters, Express routing and configuration loading are plumbing with no decision logic. The configuration is the record `AuthSpec.Config`.
- `next()` is a terminal outcome. The case where `next()` throws inside the try block and the gate then answers 401 or 500 is not modelled.
- `verifyIdToken` of Firebase is the parameter `verifyIdToken`. Its result is an input, and a rejected token is `None`.
- The uid header key of the Firebase middleware (`AuthHeaders.Uid`) is not defined in `backend/src/features/auth/constants.ts`. It is the abstract field `Request.uidHeader`, and all 401 messages of that middleware are one `Unauthorized` outcome.
- Headers given as arrays, and `body.userId` values other than strings, are modelled only as "not equal to the uid" (`BodyValue.NonText`).
- UserProfile.NumericValues: its own contract states only a length bound. What the filter keeps is stated by `NumericValuesExactly` and `FilterRecoversValues`.
- UserProfile.Names, UserProfile.Numbers and UserProfile.Range: their own contracts state only the length of the list they build. What the lists hold is stated by `NumericValuesExactly`, `FilterRecoversValues` and `InRange`.
