/**
 * What registration and login promise: the order of the registration checks, the single user a
 * registration inserts, the indistinguishable failure responses, the precedence of a lockout over
 * the password, the counter-to-lockout transition and its reset on success.
 */
module LoginProperties {
  import opened Wrappers
  import opened Crypto
  import opened Collections
  import opened AuthSpec

  // ---------------------------------------------------------------------------------------------
  // register

  /**
   * The rejections of `register`, in their order: the three checks, then the insert the schema
   * refuses for an empty username or email; a rejected registration stores nothing.
   */
  lemma RegisterRejections(env: Env, st: Stores, username: string, email: string, password: string, salt: nat, now: int)
    ensures var s := Register(env, st, username, email, password, salt, now);
      && (HasUsername(st.users, username) ==> s == Step(st, Reply(409, UsernameTaken)))
      && (!HasUsername(st.users, username) && HasEmail(st.users, email) ==> s == Step(st, Reply(409, EmailTaken)))
      && (!HasUsername(st.users, username) && !HasEmail(st.users, email) && !IsValidPassword(password)
          ==> s == Step(st, Reply(422, InvalidPassword)))
      && (!HasUsername(st.users, username) && !HasEmail(st.users, email) && IsValidPassword(password) && (username == "" || email == "")
          ==> s == Step(st, Reply(500, ServerError)))
      && (s.response.Status() != 201 ==> s.stores == st)
  {
  }

  /**
   * A registration that passes the checks inserts exactly one user, with the given username and
   * email, a password that decrypts to the one supplied and both timestamps at `now`; it answers
   * 201 without any token and leaves the other collections alone.
   */
  lemma RegisterSucceeds(env: Env, st: Stores, username: string, email: string, password: string, salt: nat, now: int)
    requires Sound(env.crypto)
    requires !HasUsername(st.users, username) && !HasEmail(st.users, email) && IsValidPassword(password)
    requires username != "" && email != ""
    ensures var s := Register(env, st, username, email, password, salt, now);
      && s.response == Reply(201, RegisterSuccessful)
      && |s.stores.users| == |st.users| + 1
      && s.stores.users[..|st.users|] == st.users
      && (var u := s.stores.users[|st.users|];
          && u.username == username && u.email == email
          && env.crypto.decrypt(u.password, env.config.passwordSecret) == password
          && u.createdAt == now && u.updatedAt == now)
      && s.stores.failed == st.failed && s.stores.lockedOut == st.lockedOut && s.stores.sessions == st.sessions
  {
    var s := Register(env, st, username, email, password, salt, now);
    assert s.stores.users[..|st.users|] == st.users;
  }

  /** Once a username or an email is registered, a second registration with it collides with 409. */
  lemma SecondRegistrationCollides(env: Env, st: Stores, username: string, email: string, password: string, salt: nat, now: int,
                                   username2: string, email2: string, password2: string, salt2: nat, later: int)
    requires !HasUsername(st.users, username) && !HasEmail(st.users, email) && IsValidPassword(password)
    requires username != "" && email != ""
    requires username2 == username || email2 == email
    ensures var s1 := Register(env, st, username, email, password, salt, now).stores;
      var s2 := Register(env, s1, username2, email2, password2, salt2, later);
      s2.stores == s1 && s2.response.Status() == 409
  {
    var s1 := Register(env, st, username, email, password, salt, now).stores;
    var last := |s1.users| - 1;
    assert s1.users[last].username == username && s1.users[last].email == email;
    if username2 != username {
      assert HasEmail(s1.users, email2);
    }
  }

  // ---------------------------------------------------------------------------------------------
  // login: the four paths

  /** An identifier that is no user's email or username: 401, and nothing changes. */
  lemma LoginUnknownIdentifier(env: Env, st: Stores, identifier: string, password: string, now: int)
    requires forall i :: 0 <= i < |st.users| ==> !Matches(st.users[i], identifier)
    ensures Login(env, st, identifier, password, now) == Step(st, Reply(401, InvalidCredentials))
  {
  }

  /**
   * An unknown identifier and a wrong password for an existing, unlocked account get the same
   * response, so the response does not reveal whether an account exists.
   */
  lemma UnknownLooksLikeWrongPassword(env: Env, st1: Stores, identifier1: string, password1: string,
                                      st2: Stores, identifier2: string, password2: string, now: int)
    requires forall i :: 0 <= i < |st1.users| ==> !Matches(st1.users[i], identifier1)
    requires var found := FindByIdentifier(st2.users, identifier2);
      && found.Some?
      && FindLockedOut(st2, env.config.ttls, st2.users[found.value].id, now).None?
      && env.crypto.decrypt(st2.users[found.value].password, env.config.passwordSecret) != password2
    ensures Login(env, st1, identifier1, password1, now).response == Login(env, st2, identifier2, password2, now).response
  {
  }

  /** A live lockout wins over the password check: 429 whatever the password, and nothing changes. */
  lemma LockoutPrecedence(env: Env, st: Stores, identifier: string, password: string, now: int)
    requires var found := FindByIdentifier(st.users, identifier);
      found.Some? && FindLockedOut(st, env.config.ttls, st.users[found.value].id, now).Some?
    ensures Login(env, st, identifier, password, now) == Step(st, Reply(429, LockedOut))
  {
  }

  /**
   * A wrong password answers 401 in every case, also when it triggers the lockout. Without a live
   * counter it creates one at 1 (without comparing with the threshold); with one it increments it,
   * and at the threshold inserts a lockout and deletes the counter, otherwise saves the counter,
   * keeping its `createdAt`. Users and sessions are untouched.
   */
  lemma LoginWrongPassword(env: Env, st: Stores, identifier: string, password: string, now: int)
    requires var found := FindByIdentifier(st.users, identifier);
      && found.Some?
      && FindLockedOut(st, env.config.ttls, st.users[found.value].id, now).None?
      && env.crypto.decrypt(st.users[found.value].password, env.config.passwordSecret) != password
    ensures var uid := st.users[FindByIdentifier(st.users, identifier).value].id;
      var s := Login(env, st, identifier, password, now);
      && s.response == Reply(401, InvalidCredentials)
      && s.stores.users == st.users && s.stores.sessions == st.sessions
      && match FindFailed(st, env.config.ttls, uid, now)
         case None =>
           s.stores.failed == st.failed[uid := FailedLoginUser(uid, 1, now)] && s.stores.lockedOut == st.lockedOut
         case Some(rec) =>
           if rec.numFailed + 1 >= env.config.maxFailedLogins then
             s.stores.failed == st.failed - {uid} && s.stores.lockedOut == st.lockedOut[uid := LockedOutUser(uid, now)]
           else
             && s.stores.failed == st.failed[uid := rec.(numFailed := rec.numFailed + 1)]
             && s.stores.lockedOut == st.lockedOut
  {
  }

  /**
   * The correct password, with no live lockout: the counter and the lockout are deleted, exactly
   * one session `(userId, refreshToken, lastUsed = now)` is added, and the reply carries both
   * tokens and the user's fields, which leave out the password. Only a refresh token that is already
   * a live session of this user (a second login in the same second) makes the insert fail, with 500.
   */
  lemma LoginCorrectPassword(env: Env, st: Stores, identifier: string, password: string, now: int)
    requires var found := FindByIdentifier(st.users, identifier);
      && found.Some?
      && FindLockedOut(st, env.config.ttls, st.users[found.value].id, now).None?
      && env.crypto.decrypt(st.users[found.value].password, env.config.passwordSecret) == password
    ensures var user := st.users[FindByIdentifier(st.users, identifier).value];
      var s := Login(env, st, identifier, password, now);
      var refresh := NewRefreshToken(env, user.id, now);
      && s.stores.users == st.users
      && s.stores.failed == st.failed - {user.id}
      && s.stores.lockedOut == st.lockedOut - {user.id}
      && if FindSession(st, env.config.ttls, user.id, refresh, now).Some? then
           s.response == Reply(500, ServerError) && s.stores.sessions == st.sessions
         else
           && s.stores.sessions == st.sessions[(user.id, refresh) := RefreshToken(user.id, refresh, now)]
           && s.response == LoggedIn(UserInfo(user.id, user.username, user.email, user.createdAt, user.updatedAt),
                                     NewAccessToken(env, user.id, now), refresh)
  {
  }

  /**
   * Only the pair `(userId, token)` of a session is unique: a user with a live session who logs in
   * again keeps that session untouched, and on success holds a second one under another token.
   */
  lemma SeveralSessionsPerUser(env: Env, st: Stores, user: User, token: string, now: int)
    requires FindSession(st, env.config.ttls, user.id, token, now).Some?
    ensures var r := LoginSucceeded(env, st, user, now);
      && (user.id, token) in r.stores.sessions
      && r.stores.sessions[(user.id, token)] == st.sessions[(user.id, token)]
      && (r.response.LoggedIn? ==>
            && r.response.refreshToken != token
            && (user.id, r.response.refreshToken) in r.stores.sessions)
  {
  }

  /** An expired lockout reads as absent: login goes on to the password check. */
  lemma ExpiredLockoutIgnored(env: Env, st: Stores, identifier: string, password: string, now: int)
    requires var found := FindByIdentifier(st.users, identifier);
      && found.Some?
      && var uid := st.users[found.value].id;
         uid in st.lockedOut && !Alive(st.lockedOut[uid].createdAt, env.config.ttls.lockoutTime, now)
    ensures var user := st.users[FindByIdentifier(st.users, identifier).value];
      Login(env, st, identifier, password, now) ==
        if env.crypto.decrypt(user.password, env.config.passwordSecret) != password
        then Step(RecordFailure(env.config, st, user.id, now), Reply(401, InvalidCredentials))
        else LoginSucceeded(env, st, user, now)
  {
  }

  // ---------------------------------------------------------------------------------------------
  // login: sequences of attempts

  /** The collections after logging in with the same credentials at each of `times` in turn. */
  function Attempts(env: Env, st: Stores, identifier: string, password: string, times: seq<int>): Stores
  {
    if |times| == 0 then st
    else Login(env, Attempts(env, st, identifier, password, times[..|times| - 1]), identifier, password, times[|times| - 1]).stores
  }

  /**
   * How many consecutive failures lock a user out. The first failure is recorded as 1 without a
   * threshold check, so even a threshold of 1 or less needs two.
   */
  function Threshold(maxFailedLogins: int): (n: int)
    ensures n >= 2 && n >= maxFailedLogins
    ensures maxFailedLogins >= 2 ==> n == maxFailedLogins
  {
    if maxFailedLogins < 2 then 2 else maxFailedLogins
  }

  /**
   * From a clean state, consecutive wrong passwords inside the counting window (measured from the
   * first failure) count 1, 2, ... in one record that keeps its first `createdAt`; the attempt that
   * reaches `Threshold(maxFailedLogins)` replaces the counter by a lockout created at that attempt.
   */
  lemma {:induction false} RepeatedFailures(env: Env, st: Stores, identifier: string, password: string, times: seq<int>)
    requires var found := FindByIdentifier(st.users, identifier);
      && found.Some?
      && env.crypto.decrypt(st.users[found.value].password, env.config.passwordSecret) != password
      && st.users[found.value].id !in st.failed && st.users[found.value].id !in st.lockedOut
    requires 1 <= |times| <= Threshold(env.config.maxFailedLogins)
    requires forall k :: 0 <= k < |times| ==> Alive(times[0], env.config.ttls.failedLoginWindow, times[k])
    ensures var uid := st.users[FindByIdentifier(st.users, identifier).value].id;
      var s := Attempts(env, st, identifier, password, times);
      && s.users == st.users && s.sessions == st.sessions
      && (|times| < Threshold(env.config.maxFailedLogins) ==>
           s.failed == st.failed[uid := FailedLoginUser(uid, |times|, times[0])] && s.lockedOut == st.lockedOut)
      && (|times| == Threshold(env.config.maxFailedLogins) ==>
           s.failed == st.failed - {uid} && s.lockedOut == st.lockedOut[uid := LockedOutUser(uid, times[|times| - 1])])
  {
    var uid := st.users[FindByIdentifier(st.users, identifier).value].id;
    var prefix := times[..|times| - 1];
    var now := times[|times| - 1];
    if |times| == 1 {
      assert Attempts(env, st, identifier, password, prefix) == st;
      FirstFailure(env, st, identifier, password, now);
    } else {
      forall k | 0 <= k < |prefix| ensures Alive(prefix[0], env.config.ttls.failedLoginWindow, prefix[k]) {
        assert prefix[k] == times[k];
      }
      RepeatedFailures(env, st, identifier, password, prefix);
      var before := Attempts(env, st, identifier, password, prefix);
      NextFailure(env, before, identifier, password, now, uid, |prefix|, times[0]);
    }
  }

  /** The first failure of a clean user creates the counter at 1. */
  lemma FirstFailure(env: Env, st: Stores, identifier: string, password: string, now: int)
    requires var found := FindByIdentifier(st.users, identifier);
      && found.Some?
      && env.crypto.decrypt(st.users[found.value].password, env.config.passwordSecret) != password
      && st.users[found.value].id !in st.failed && st.users[found.value].id !in st.lockedOut
    ensures var uid := st.users[FindByIdentifier(st.users, identifier).value].id;
      var s := Login(env, st, identifier, password, now).stores;
      && s.users == st.users && s.sessions == st.sessions
      && s.failed == st.failed[uid := FailedLoginUser(uid, 1, now)] && s.lockedOut == st.lockedOut
  {
    LoginWrongPassword(env, st, identifier, password, now);
  }

  /** A failure with a live counter at `n` increments it, or locks the user out at the threshold. */
  lemma NextFailure(env: Env, st: Stores, identifier: string, password: string, now: int, uid: UserId, n: int, first: int)
    requires var found := FindByIdentifier(st.users, identifier);
      && found.Some? && st.users[found.value].id == uid
      && env.crypto.decrypt(st.users[found.value].password, env.config.passwordSecret) != password
    requires uid !in st.lockedOut && uid in st.failed && st.failed[uid] == FailedLoginUser(uid, n, first)
    requires Alive(first, env.config.ttls.failedLoginWindow, now)
    ensures var s := Login(env, st, identifier, password, now).stores;
      && s.users == st.users && s.sessions == st.sessions
      && (n + 1 >= env.config.maxFailedLogins ==>
           s.failed == st.failed - {uid} && s.lockedOut == st.lockedOut[uid := LockedOutUser(uid, now)])
      && (n + 1 < env.config.maxFailedLogins ==>
           s.failed == st.failed[uid := FailedLoginUser(uid, n + 1, first)] && s.lockedOut == st.lockedOut)
  {
    LoginWrongPassword(env, st, identifier, password, now);
  }

  /**
   * After `Threshold(maxFailedLogins)` consecutive wrong passwords the next login, while the
   * lockout lasts, answers 429 even with the correct password.
   */
  lemma ThresholdLocksOut(env: Env, st: Stores, identifier: string, wrong: string, times: seq<int>, password: string, later: int)
    requires var found := FindByIdentifier(st.users, identifier);
      && found.Some?
      && env.crypto.decrypt(st.users[found.value].password, env.config.passwordSecret) != wrong
      && st.users[found.value].id !in st.failed && st.users[found.value].id !in st.lockedOut
    requires |times| == Threshold(env.config.maxFailedLogins)
    requires forall k :: 0 <= k < |times| ==> Alive(times[0], env.config.ttls.failedLoginWindow, times[k])
    requires Alive(times[|times| - 1], env.config.ttls.lockoutTime, later)
    ensures var s := Attempts(env, st, identifier, wrong, times);
      Login(env, s, identifier, password, later) == Step(s, Reply(429, LockedOut))
  {
    RepeatedFailures(env, st, identifier, wrong, times);
  }

  /**
   * A successful login resets the brute-force state: the next wrong password starts counting
   * from 1 again, whatever the counter was before.
   */
  lemma SuccessResetsCounter(env: Env, st: Stores, identifier: string, password: string, wrong: string, now: int, later: int)
    requires var found := FindByIdentifier(st.users, identifier);
      && found.Some?
      && FindLockedOut(st, env.config.ttls, st.users[found.value].id, now).None?
      && env.crypto.decrypt(st.users[found.value].password, env.config.passwordSecret) == password
      && password != wrong
    ensures var uid := st.users[FindByIdentifier(st.users, identifier).value].id;
      var s1 := Login(env, st, identifier, password, now).stores;
      var s2 := Login(env, s1, identifier, wrong, later).stores;
      uid in s2.failed && s2.failed[uid] == FailedLoginUser(uid, 1, later)
  {
    var uid := st.users[FindByIdentifier(st.users, identifier).value].id;
    LoginCorrectPassword(env, st, identifier, password, now);
    var s1 := Login(env, st, identifier, password, now).stores;
    assert s1.users == st.users;
    LoginWrongPassword(env, s1, identifier, wrong, later);
  }

  /**
   * The counting window is fixed from the first failure: incrementing keeps `createdAt`, so the
   * incremented counter is visible at exactly the instants the first one was.
   */
  lemma FailureWindowFixed(cfg: Config, st: Stores, uid: UserId, now: int, t: int)
    requires FindFailed(st, cfg.ttls, uid, now).Some?
    requires FindFailed(st, cfg.ttls, uid, now).value.numFailed + 1 < cfg.maxFailedLogins
    ensures var after := RecordFailure(cfg, st, uid, now);
      FindFailed(after, cfg.ttls, uid, t).Some? <==> Alive(st.failed[uid].createdAt, cfg.ttls.failedLoginWindow, t)
  {
  }
}
