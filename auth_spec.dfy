/**
 * The specification of the credential controller (register, login, logout and the two session
 * gates) as pure transition functions: each takes the collections before a request and gives the
 * collections after it together with the response. The imperative controller in module
 * `Controller` is proved to compute exactly these transitions.
 */
module AuthSpec {
  import opened Wrappers
  import opened Crypto
  import opened Headers
  import opened Collections

  /** `PASSWORD_RULES.MIN_LENGTH`. */
  const MIN_LENGTH: nat := 8

  /**
   * The configuration read with `Config.get`: the three secrets, the access-token lifetime, the
   * lockout threshold and the three TTLs. The lifetime is configured as a string that jsonwebtoken
   * parses with `ms` (a bare number is milliseconds); here it is that duration in whole seconds,
   * `floor(ms(value) / 1000)`, the amount jsonwebtoken adds to `iat` to get `exp`.
   */
  datatype Config = Config(
    passwordSecret: string,
    accessTokenSecret: string,
    refreshTokenSecret: string,
    accessTokenLifetime: int,
    maxFailedLogins: int,
    ttls: Ttls)

  /** Everything a request depends on besides the collections. */
  datatype Env = Env(config: Config, crypto: Crypto)

  /** The `message` of each JSON reply (`AUTH_RESPONSES` and the generic 500). */
  datatype Message =
    | RegisterSuccessful
    | LoginSuccessful
    | LogoutSuccessful
    | InvalidCredentials
    | NotAuthenticated
    | SessionExpired
    | EmailTaken
    | UsernameTaken
    | InvalidPassword
    | LockedOut
    | ServerError

  /** The user fields a successful login returns: the stored document without `password`. */
  datatype UserInfo = UserInfo(id: UserId, username: string, email: string, createdAt: int, updatedAt: int)

  /**
   * What a handler ends with: a JSON reply, the login reply with the user fields and both tokens,
   * or a call of `next()`, with the `x-new-access-token` header when the gate minted one.
   */
  datatype Response =
    | Reply(status: int, message: Message)
    | LoggedIn(info: UserInfo, accessToken: string, refreshToken: string)
    | Next(newAccessToken: Option<string>)
  {
    function Status(): int
    {
      match this
      case Reply(s, _) => s
      case LoggedIn(_, _, _) => 200
      case Next(_) => 200
    }
  }

  /** The collections after a request, and its response. */
  datatype Step = Step(stores: Stores, response: Response)

  /** `password.length`: JavaScript counts UTF-16 code units, two for a character beyond U+FFFF. */
  function Utf16Length(s: string): (n: nat)
    ensures |s| <= n <= 2 * |s|
  {
    if |s| == 0 then 0
    else (if s[0] as int > 0xFFFF then 2 else 1) + Utf16Length(s[1..])
  }

  /** Every character of `s` lies in the Basic Multilingual Plane. */
  predicate AllBmp(s: string)
  {
    forall i :: 0 <= i < |s| ==> s[i] as int <= 0xFFFF
  }

  /**
   * `isValidPassword`: the password is at least `MIN_LENGTH` long. Eight characters always
   * suffice, fewer than four never do, and for text in the Basic Multilingual Plane the rule is
   * exactly "at least eight characters".
   */
  function IsValidPassword(password: string): (ok: bool)
    ensures |password| >= MIN_LENGTH ==> ok
    ensures 2 * |password| < MIN_LENGTH ==> !ok
    ensures AllBmp(password) ==> (ok <==> |password| >= MIN_LENGTH)
  {
    Utf16LengthBmp(password);
    !(Utf16Length(password) < MIN_LENGTH)
  }

  /** On Basic-Multilingual-Plane text, `length` is the number of characters. */
  lemma {:induction false} Utf16LengthBmp(s: string)
    ensures AllBmp(s) ==> Utf16Length(s) == |s|
  {
    if |s| > 0 && AllBmp(s) {
      assert AllBmp(s[1..]) by {
        forall i | 0 <= i < |s[1..]| ensures s[1..][i] as int <= 0xFFFF { assert s[1..][i] == s[i + 1]; }
      }
      Utf16LengthBmp(s[1..]);
    }
  }

  /** `!header`: the header is absent or the empty string. */
  predicate Blank(header: Option<string>)
  {
    header.None? || header.value == ""
  }

  /** The token a header carries: `header.split(' ')[1]`. */
  function TokenOf(header: string): Option<string>
  {
    SecondField(header)
  }

  /** The access token signed for `uid` at `now`. */
  function NewAccessToken(env: Env, uid: UserId, now: int): string
  {
    env.crypto.sign(AccessClaims(uid, now, env.config.accessTokenLifetime), env.config.accessTokenSecret)
  }

  /** The refresh token signed for `uid` at `now`. */
  function NewRefreshToken(env: Env, uid: UserId, now: int): string
  {
    env.crypto.sign(RefreshClaims(uid, now), env.config.refreshTokenSecret)
  }

  // ---------------------------------------------------------------------------------------------
  // register

  /**
   * `register`: username check, then email check, then the password rule, then the insert. The
   * schema's `required` rule refuses an empty username or email, so that insert throws and the
   * request ends in 500. Registration touches only the users, and adds at most the one account.
   */
  function Register(env: Env, st: Stores, username: string, email: string, password: string, salt: nat, now: int): (r: Step)
    ensures r.stores.failed == st.failed && r.stores.lockedOut == st.lockedOut && r.stores.sessions == st.sessions
    ensures r.response == Reply(201, RegisterSuccessful) <==> r.stores.users != st.users
    ensures r.stores.users != st.users ==>
      && |r.stores.users| == |st.users| + 1 && r.stores.users[..|st.users|] == st.users
      && r.stores.users[|st.users|].username == username && r.stores.users[|st.users|].email == email
    ensures r.response == Reply(201, RegisterSuccessful) ==>
      !HasUsername(st.users, username) && !HasEmail(st.users, email) && IsValidPassword(password) && username != "" && email != ""
  {
    if HasUsername(st.users, username) then Step(st, Reply(409, UsernameTaken))
    else if HasEmail(st.users, email) then Step(st, Reply(409, EmailTaken))
    else if !IsValidPassword(password) then Step(st, Reply(422, InvalidPassword))
    else if username == "" || email == "" then Step(st, Reply(500, ServerError))
    else
      var user := User(|st.users|, username, email, env.crypto.encrypt(password, env.config.passwordSecret, salt), now, now);
      assert (st.users + [user])[..|st.users|] == st.users;
      Step(st.(users := st.users + [user]), Reply(201, RegisterSuccessful))
  }

  // ---------------------------------------------------------------------------------------------
  // login

  /**
   * The wrong-password bookkeeping: a first failure creates a counter of 1; a later one increments
   * the counter and, at the threshold, replaces it by a lockout.
   */
  function RecordFailure(cfg: Config, st: Stores, uid: UserId, now: int): (r: Stores)
    ensures r.users == st.users && r.sessions == st.sessions
    ensures uid in r.failed || uid in r.lockedOut
    ensures forall u :: u != uid ==> (u in r.failed <==> u in st.failed) && (u in r.failed ==> r.failed[u] == st.failed[u])
    ensures forall u :: u != uid ==> (u in r.lockedOut <==> u in st.lockedOut) && (u in r.lockedOut ==> r.lockedOut[u] == st.lockedOut[u])
  {
    match FindFailed(st, cfg.ttls, uid, now)
    case None => st.(failed := st.failed[uid := FailedLoginUser(uid, 1, now)])
    case Some(rec) =>
      var n := rec.numFailed + 1;
      if n >= cfg.maxFailedLogins then
        st.(lockedOut := st.lockedOut[uid := LockedOutUser(uid, now)], failed := st.failed - {uid})
      else
        st.(failed := st.failed[uid := rec.(numFailed := n)])
  }

  /** The user document returned by login, without its `password`. */
  function InfoOf(u: User): UserInfo
  {
    UserInfo(u.id, u.username, u.email, u.createdAt, u.updatedAt)
  }

  /**
   * The correct-password path: delete the counter and the lockout, sign both tokens, insert the
   * session. An insert that repeats a live `(userId, token)` pair violates the unique index and the
   * request fails with 500, after the deletes.
   */
  function LoginSucceeded(env: Env, st: Stores, user: User, now: int): (r: Step)
    ensures r.stores.users == st.users
    ensures r.stores.failed == st.failed - {user.id} && r.stores.lockedOut == st.lockedOut - {user.id}
    ensures r.response.LoggedIn? || r.response == Reply(500, ServerError)
    ensures r.response.LoggedIn? ==>
      && r.response.info.id == user.id
      && (user.id, r.response.refreshToken) in r.stores.sessions
      && r.stores.sessions[(user.id, r.response.refreshToken)].lastUsed == now
      && r.stores.sessions.Keys == st.sessions.Keys + {(user.id, r.response.refreshToken)}
    ensures r.response.Reply? ==> r.stores.sessions == st.sessions
  {
    var cleared := st.(failed := st.failed - {user.id}, lockedOut := st.lockedOut - {user.id});
    var access := NewAccessToken(env, user.id, now);
    var refresh := NewRefreshToken(env, user.id, now);
    if FindSession(cleared, env.config.ttls, user.id, refresh, now).Some? then
      Step(cleared, Reply(500, ServerError))
    else
      Step(cleared.(sessions := cleared.sessions[(user.id, refresh) := RefreshToken(user.id, refresh, now)]),
           LoggedIn(InfoOf(user), access, refresh))
  }

  /** `login`: lookup, then the lockout, then the password. */
  function Login(env: Env, st: Stores, identifier: string, password: string, now: int): (r: Step)
    ensures r.stores.users == st.users
    ensures r.response.LoggedIn? || r.response == Reply(401, InvalidCredentials) || r.response == Reply(429, LockedOut)
      || r.response == Reply(500, ServerError)
    ensures r.response.LoggedIn? ==>
      && FindByIdentifier(st.users, identifier).Some?
      && var user := st.users[FindByIdentifier(st.users, identifier).value];
         r.response.info == InfoOf(user) && env.crypto.decrypt(user.password, env.config.passwordSecret) == password
    ensures r.response == Reply(429, LockedOut) ==> r.stores == st
  {
    match FindByIdentifier(st.users, identifier)
    case None => Step(st, Reply(401, InvalidCredentials))
    case Some(i) =>
      var user := st.users[i];
      if FindLockedOut(st, env.config.ttls, user.id, now).Some? then Step(st, Reply(429, LockedOut))
      else if env.crypto.decrypt(user.password, env.config.passwordSecret) != password then
        Step(RecordFailure(env.config, st, user.id, now), Reply(401, InvalidCredentials))
      else LoginSucceeded(env, st, user, now)
  }

  // ---------------------------------------------------------------------------------------------
  // logout

  /**
   * `logout`: take `userId` from the refresh token's payload and delete that session. Any throw
   * (no header, no second field, a bad signature) ends in 500.
   */
  function Logout(env: Env, st: Stores, refreshHeader: Option<string>, now: int): (r: Step)
    ensures r.stores.users == st.users && r.stores.failed == st.failed && r.stores.lockedOut == st.lockedOut
    ensures r.stores.sessions.Keys <= st.sessions.Keys
    ensures forall k :: k in r.stores.sessions ==> r.stores.sessions[k] == st.sessions[k]
    ensures r.response == Reply(200, LogoutSuccessful) || (r.response == Reply(500, ServerError) && r.stores == st)
  {
    if refreshHeader.None? then Step(st, Reply(500, ServerError))
    else
      var token := TokenOf(refreshHeader.value);
      match VerifyJwt(env.crypto, token, env.config.refreshTokenSecret, now)
      case None => Step(st, Reply(500, ServerError))
      case Some(cl) =>
        Step(st.(sessions := st.sessions - {(cl.sub, token.value)}), Reply(200, LogoutSuccessful))
  }

  // ---------------------------------------------------------------------------------------------
  // the two gates

  /** The access token in its header is accepted by `jwt.verify` with the access secret. */
  predicate AccessValid(env: Env, accessHeader: string, now: int)
  {
    VerifyJwt(env.crypto, TokenOf(accessHeader), env.config.accessTokenSecret, now).Some?
  }

  /** The refresh token in its header, when `jwt.verify` accepts it with the refresh secret, and its `sub`. */
  function RefreshSubject(env: Env, refreshHeader: string, now: int): (r: Option<(UserId, string)>)
    ensures r.Some? <==> VerifyJwt(env.crypto, TokenOf(refreshHeader), env.config.refreshTokenSecret, now).Some?
    ensures r.Some? ==>
      && TokenOf(refreshHeader) == Some(r.value.1)
      && r.value.0 == VerifyJwt(env.crypto, TokenOf(refreshHeader), env.config.refreshTokenSecret, now).value.sub
  {
    var token := TokenOf(refreshHeader);
    match VerifyJwt(env.crypto, token, env.config.refreshTokenSecret, now)
    case None => None
    case Some(cl) => Some((cl.sub, token.value))
  }

  /** Touch the session (`lastUsed := now`) and hand on a fresh access token for the same user. */
  function Refresh(env: Env, st: Stores, uid: UserId, token: string, now: int): (r: Step)
    ensures r.stores.users == st.users && r.stores.failed == st.failed && r.stores.lockedOut == st.lockedOut
    ensures (uid, token) in r.stores.sessions && r.stores.sessions[(uid, token)] == RefreshToken(uid, token, now)
    ensures r.stores.sessions.Keys == st.sessions.Keys + {(uid, token)}
    ensures forall k :: k in st.sessions && k != (uid, token) ==> r.stores.sessions[k] == st.sessions[k]
    ensures r.response.Next? && r.response.newAccessToken.Some?
  {
    Step(st.(sessions := st.sessions[(uid, token) := RefreshToken(uid, token, now)]),
         Next(Some(NewAccessToken(env, uid, now))))
  }

  /**
   * `verifyAndRefresh`: access header present, then the access token; only if that fails the
   * refresh header, its signature and its session, and then a refresh.
   */
  function VerifyAndRefresh(env: Env, st: Stores, accessHeader: Option<string>, refreshHeader: Option<string>, now: int): (r: Step)
    ensures r.stores.users == st.users && r.stores.failed == st.failed && r.stores.lockedOut == st.lockedOut
    ensures r.stores.sessions.Keys == st.sessions.Keys
    ensures r.response.Next? || r.response == Reply(401, NotAuthenticated) || r.response == Reply(401, SessionExpired)
    ensures r.stores != st ==> r.response.Next? && r.response.newAccessToken.Some?
  {
    if Blank(accessHeader) then Step(st, Reply(401, NotAuthenticated))
    else if AccessValid(env, accessHeader.value, now) then Step(st, Next(None))
    else if Blank(refreshHeader) then Step(st, Reply(401, SessionExpired))
    else match RefreshSubject(env, refreshHeader.value, now)
      case None => Step(st, Reply(401, SessionExpired))
      case Some((uid, token)) =>
        if FindSession(st, env.config.ttls, uid, token, now).None? then Step(st, Reply(401, SessionExpired))
        else Refresh(env, st, uid, token, now)
  }

  /**
   * `verifyAndRefreshSensitive`: refresh header, its signature and its session first; then the
   * access header and the access token, and a refresh if the access token fails.
   */
  function VerifyAndRefreshSensitive(env: Env, st: Stores, accessHeader: Option<string>, refreshHeader: Option<string>, now: int): (r: Step)
    ensures r.stores.users == st.users && r.stores.failed == st.failed && r.stores.lockedOut == st.lockedOut
    ensures r.stores.sessions.Keys == st.sessions.Keys
    ensures r.response.Next? || r.response == Reply(401, NotAuthenticated) || r.response == Reply(401, SessionExpired)
    ensures r.stores != st ==> r.response.Next? && r.response.newAccessToken.Some?
  {
    if Blank(refreshHeader) then Step(st, Reply(401, SessionExpired))
    else match RefreshSubject(env, refreshHeader.value, now)
      case None => Step(st, Reply(401, SessionExpired))
      case Some((uid, token)) =>
        if FindSession(st, env.config.ttls, uid, token, now).None? then Step(st, Reply(401, SessionExpired))
        else if Blank(accessHeader) then Step(st, Reply(401, NotAuthenticated))
        else if AccessValid(env, accessHeader.value, now) then Step(st, Next(None))
        else Refresh(env, st, uid, token, now)
  }
}
