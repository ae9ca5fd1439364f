/**
 * The credential controller as the source writes it: one object holding the four collections, and
 * handlers that query and update them step by step. Each handler is proved to compute the
 * transition of the same name in `AuthSpec`, and to keep the collections' invariant.
 */
module Controller {
  import opened Wrappers
  import opened Crypto
  import opened Headers
  import opened Collections
  import opened AuthSpec
  import AuthProperties

  class AuthController {
    /** Configuration and the cryptographic libraries. */
    const env: Env
    /** The `User` collection, in insertion order. */
    var users: seq<User>
    /** The `FailedLoginUser` collection, by `userId`. */
    var failed: map<UserId, FailedLoginUser>
    /** The `LockedOutUser` collection, by `userId`. */
    var lockedOut: map<UserId, LockedOutUser>
    /** The `RefreshToken` collection, by `(userId, token)`. */
    var sessions: map<SessionKey, RefreshToken>

    /** The collections as one value. */
    function Snapshot(): Stores
      reads this
    {
      Stores(users, failed, lockedOut, sessions)
    }

    ghost predicate Valid()
      reads this
    {
      Collections.Valid(Snapshot(), env.config.maxFailedLogins)
    }

    constructor (env: Env)
      ensures Valid()
      ensures this.env == env && Snapshot() == Empty()
    {
      this.env := env;
      users, failed, lockedOut, sessions := [], map[], map[], map[];
    }

    method Register(username: string, email: string, password: string, salt: nat, now: int) returns (r: Response)
      requires Valid()
      modifies this
      ensures Valid()
      ensures Step(Snapshot(), r) == AuthSpec.Register(env, old(Snapshot()), username, email, password, salt, now)
    {
      AuthProperties.RegisterKeepsValid(env, Snapshot(), username, email, password, salt, now);
      /* Check if username is already taken */
      if HasUsername(users, username) {
        return Reply(409, UsernameTaken);
      }
      /* Check if email is already taken */
      if HasEmail(users, email) {
        return Reply(409, EmailTaken);
      }
      /* Check the password rule */
      if !IsValidPassword(password) {
        return Reply(422, InvalidPassword);
      }
      /* The schema's `required` rule refuses an empty string, so the save throws */
      if username == "" || email == "" {
        return Reply(500, ServerError);
      }
      var cipher := env.crypto.encrypt(password, env.config.passwordSecret, salt);
      var newUser := User(|users|, username, email, cipher, now, now);
      users := users + [newUser];
      return Reply(201, RegisterSuccessful);
    }

    method Login(identifier: string, password: string, now: int) returns (r: Response)
      requires Valid()
      modifies this
      ensures Valid()
      ensures Step(Snapshot(), r) == AuthSpec.Login(env, old(Snapshot()), identifier, password, now)
    {
      AuthProperties.LoginKeepsValid(env, Snapshot(), identifier, password, now);
      var ttls := env.config.ttls;
      /* Find a user whose email or username is the identifier */
      var found := FindByIdentifier(users, identifier);
      if found.None? {
        return Reply(401, InvalidCredentials);
      }
      var user := users[found.value];
      /* Locked out users are turned away whatever the password */
      var lockedOutUser := FindLockedOut(Snapshot(), ttls, user.id, now);
      if lockedOutUser.Some? {
        return Reply(429, LockedOut);
      }
      var originalPassword := env.crypto.decrypt(user.password, env.config.passwordSecret);
      if originalPassword != password {
        var failedLoginUser := FindFailed(Snapshot(), ttls, user.id, now);
        if failedLoginUser.None? {
          failed := failed[user.id := FailedLoginUser(user.id, 1, now)];
        } else {
          var entry := failedLoginUser.value;
          entry := entry.(numFailed := entry.numFailed + 1);
          if entry.numFailed >= env.config.maxFailedLogins {
            lockedOut := lockedOut[user.id := LockedOutUser(user.id, now)];
            failed := failed - {user.id};
          } else {
            failed := failed[user.id := entry];
          }
        }
        return Reply(401, InvalidCredentials);
      }
      /* Successful login: forget the failed attempts and the lockout */
      failed := failed - {user.id};
      lockedOut := lockedOut - {user.id};
      var accessToken := NewAccessToken(env, user.id, now);
      var refreshToken := NewRefreshToken(env, user.id, now);
      /* The session insert violates the unique index if the same pair is live */
      if FindSession(Snapshot(), ttls, user.id, refreshToken, now).Some? {
        return Reply(500, ServerError);
      }
      sessions := sessions[(user.id, refreshToken) := RefreshToken(user.id, refreshToken, now)];
      return LoggedIn(InfoOf(user), accessToken, refreshToken);
    }

    method Logout(refreshHeader: Option<string>, now: int) returns (r: Response)
      requires Valid()
      modifies this
      ensures Valid()
      ensures Step(Snapshot(), r) == AuthSpec.Logout(env, old(Snapshot()), refreshHeader, now)
    {
      AuthProperties.LogoutKeepsValid(env, Snapshot(), refreshHeader, now);
      if refreshHeader.None? {
        /* `undefined.split` throws */
        return Reply(500, ServerError);
      }
      var refreshToken := TokenOf(refreshHeader.value);
      var payload := VerifyJwt(env.crypto, refreshToken, env.config.refreshTokenSecret, now);
      if payload.None? {
        return Reply(500, ServerError);
      }
      var userId := payload.value.sub;
      sessions := sessions - {(userId, refreshToken.value)};
      return Reply(200, LogoutSuccessful);
    }

    /** Set `lastUsed := now` on a live session and sign a new access token for its user. */
    method TouchAndRotate(userId: UserId, token: string, now: int) returns (r: Response)
      requires Valid()
      requires FindSession(Snapshot(), env.config.ttls, userId, token, now).Some?
      modifies this
      ensures Valid()
      ensures Step(Snapshot(), r) == Refresh(env, old(Snapshot()), userId, token, now)
    {
      var entry := sessions[(userId, token)];
      entry := entry.(lastUsed := now);
      sessions := sessions[(userId, token) := entry];
      var newAccessToken := NewAccessToken(env, userId, now);
      return Next(Some(newAccessToken));
    }

    method VerifyAndRefresh(accessHeader: Option<string>, refreshHeader: Option<string>, now: int) returns (r: Response)
      requires Valid()
      modifies this
      ensures Valid()
      ensures Step(Snapshot(), r) == AuthSpec.VerifyAndRefresh(env, old(Snapshot()), accessHeader, refreshHeader, now)
    {
      if Blank(accessHeader) {
        return Reply(401, NotAuthenticated);
      }
      var accessToken := TokenOf(accessHeader.value);
      if VerifyJwt(env.crypto, accessToken, env.config.accessTokenSecret, now).Some? {
        return Next(None);
      }
      if Blank(refreshHeader) {
        return Reply(401, SessionExpired);
      }
      var refreshToken := TokenOf(refreshHeader.value);
      var payload := VerifyJwt(env.crypto, refreshToken, env.config.refreshTokenSecret, now);
      if payload.None? {
        return Reply(401, SessionExpired);
      }
      var userId := payload.value.sub;
      var entry := FindSession(Snapshot(), env.config.ttls, userId, refreshToken.value, now);
      if entry.None? {
        return Reply(401, SessionExpired);
      }
      r := TouchAndRotate(userId, refreshToken.value, now);
    }

    method VerifyAndRefreshSensitive(accessHeader: Option<string>, refreshHeader: Option<string>, now: int) returns (r: Response)
      requires Valid()
      modifies this
      ensures Valid()
      ensures Step(Snapshot(), r) == AuthSpec.VerifyAndRefreshSensitive(env, old(Snapshot()), accessHeader, refreshHeader, now)
    {
      if Blank(refreshHeader) {
        return Reply(401, SessionExpired);
      }
      var refreshToken := TokenOf(refreshHeader.value);
      var payload := VerifyJwt(env.crypto, refreshToken, env.config.refreshTokenSecret, now);
      if payload.None? {
        return Reply(401, SessionExpired);
      }
      var userId := payload.value.sub;
      var entry := FindSession(Snapshot(), env.config.ttls, userId, refreshToken.value, now);
      if entry.None? {
        return Reply(401, SessionExpired);
      }
      if Blank(accessHeader) {
        return Reply(401, NotAuthenticated);
      }
      var accessToken := TokenOf(accessHeader.value);
      if VerifyJwt(env.crypto, accessToken, env.config.accessTokenSecret, now).Some? {
        return Next(None);
      }
      r := TouchAndRotate(userId, refreshToken.value, now);
    }
  }
}
