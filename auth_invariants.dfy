/** Every handler keeps the invariant of the collections (`Stores.Valid`). */
module AuthProperties {
  import opened Wrappers
  import opened Crypto
  import opened Collections
  import opened AuthSpec

  /** Registration never breaks the unique indexes: it inserts only a new, non-empty username and email. */
  lemma RegisterKeepsValid(env: Env, st: Stores, username: string, email: string, password: string, salt: nat, now: int)
    requires Valid(st, env.config.maxFailedLogins)
    ensures Valid(Register(env, st, username, email, password, salt, now).stores, env.config.maxFailedLogins)
  {
    if !HasUsername(st.users, username) && !HasEmail(st.users, email) && IsValidPassword(password) && username != "" && email != "" {
      var user := User(|st.users|, username, email, env.crypto.encrypt(password, env.config.passwordSecret, salt), now, now);
      AppendKeepsUnique(st.users, user);
    }
  }

  /** Recording a failure keeps each counter between 1 and the threshold. */
  lemma RecordFailureKeepsValid(cfg: Config, st: Stores, uid: UserId, now: int)
    requires Valid(st, cfg.maxFailedLogins)
    ensures Valid(RecordFailure(cfg, st, uid, now), cfg.maxFailedLogins)
  {
  }

  /** Login keeps the invariant on every path. */
  lemma LoginKeepsValid(env: Env, st: Stores, identifier: string, password: string, now: int)
    requires Valid(st, env.config.maxFailedLogins)
    ensures Valid(Login(env, st, identifier, password, now).stores, env.config.maxFailedLogins)
  {
    match FindByIdentifier(st.users, identifier)
    case None =>
    case Some(i) =>
      RecordFailureKeepsValid(env.config, st, st.users[i].id, now);
  }

  /** Logout only deletes a session. */
  lemma LogoutKeepsValid(env: Env, st: Stores, refreshHeader: Option<string>, now: int)
    requires Valid(st, env.config.maxFailedLogins)
    ensures Valid(Logout(env, st, refreshHeader, now).stores, env.config.maxFailedLogins)
  {
  }

  /** Both gates at most rewrite one session under its own key. */
  lemma GatesKeepValid(env: Env, st: Stores, accessHeader: Option<string>, refreshHeader: Option<string>, now: int)
    requires Valid(st, env.config.maxFailedLogins)
    ensures Valid(VerifyAndRefresh(env, st, accessHeader, refreshHeader, now).stores, env.config.maxFailedLogins)
    ensures Valid(VerifyAndRefreshSensitive(env, st, accessHeader, refreshHeader, now).stores, env.config.maxFailedLogins)
  {
  }
}
