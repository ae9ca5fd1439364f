/**
 * The four document collections the credential controller reads and writes, with the uniqueness
 * keys, defaults and time-to-live rules their schemas declare.
 *
 * Time is a number of milliseconds (`Date.now()`); every TTL is a number of seconds counted from
 * one timestamp field of the record. The store's background reaper is idealised: a record is
 * visible at time `now` exactly when `now < stamp + ttl * 1000`, and an expired record reads as
 * absent. The maps may still hold expired records; nothing observable depends on them.
 */
module Collections {
  import opened Wrappers
  import opened Crypto

  /** A registered account; `password` holds the AES ciphertext written at registration. */
  datatype User = User(
    id: UserId,
    username: string,
    email: string,
    password: string,
    createdAt: int,
    updatedAt: int)

  /** Recent failed logins of one user; expires `failedLoginWindow` seconds after `createdAt`. */
  datatype FailedLoginUser = FailedLoginUser(userId: UserId, numFailed: int, createdAt: int)

  /** A lockout marker; expires `lockoutTime` seconds after `createdAt`. */
  datatype LockedOutUser = LockedOutUser(userId: UserId, createdAt: int)

  /** A login session; expires `idleTimeout` seconds after `lastUsed`. */
  datatype RefreshToken = RefreshToken(userId: UserId, token: string, lastUsed: int)

  /** The compound unique key `{ userId: 1, token: 1 }` of the session collection. */
  type SessionKey = (UserId, string)

  /** The `expireAfterSeconds` values of the three TTL indexes. */
  datatype Ttls = Ttls(failedLoginWindow: nat, lockoutTime: nat, idleTimeout: nat)

  /** The collections. Users are kept in insertion order; the others are keyed by their unique key. */
  datatype Stores = Stores(
    users: seq<User>,
    failed: map<UserId, FailedLoginUser>,
    lockedOut: map<UserId, LockedOutUser>,
    sessions: map<SessionKey, RefreshToken>)

  /** No collection holds anything. */
  function Empty(): Stores
  {
    Stores([], map[], map[], map[])
  }

  /** A TTL index keeps a record whose timestamp is `stamp` while the clock is before `stamp + ttl`. */
  predicate Alive(stamp: int, ttl: nat, now: int)
  {
    now < stamp + ttl * 1000
  }

  /** `FailedLoginUser.findOne({ userId })`. */
  function FindFailed(st: Stores, ttls: Ttls, uid: UserId, now: int): Option<FailedLoginUser>
  {
    if uid in st.failed && Alive(st.failed[uid].createdAt, ttls.failedLoginWindow, now)
    then Some(st.failed[uid]) else None
  }

  /** `LockedOutUser.findOne({ userId })`. */
  function FindLockedOut(st: Stores, ttls: Ttls, uid: UserId, now: int): Option<LockedOutUser>
  {
    if uid in st.lockedOut && Alive(st.lockedOut[uid].createdAt, ttls.lockoutTime, now)
    then Some(st.lockedOut[uid]) else None
  }

  /** `RefreshToken.findOne({ userId, token })`. */
  function FindSession(st: Stores, ttls: Ttls, uid: UserId, token: string, now: int): Option<RefreshToken>
  {
    if (uid, token) in st.sessions && Alive(st.sessions[(uid, token)].lastUsed, ttls.idleTimeout, now)
    then Some(st.sessions[(uid, token)]) else None
  }

  /** `User.findOne({ username })` found something. */
  predicate HasUsername(users: seq<User>, username: string)
  {
    exists i :: 0 <= i < |users| && users[i].username == username
  }

  /** `User.findOne({ email })` found something. */
  predicate HasEmail(users: seq<User>, email: string)
  {
    exists i :: 0 <= i < |users| && users[i].email == email
  }

  /** The login filter `{ $or: [{ email: x }, { username: x }] }`. */
  predicate Matches(u: User, x: string)
  {
    u.email == x || u.username == x
  }

  /**
   * `User.findOne({ $or: [...] })`: None when no user matches. The store does not say which of
   * several matching users it returns; the model picks the earliest in insertion order.
   */
  function FindByIdentifier(users: seq<User>, x: string): (r: Option<nat>)
    ensures r.None? <==> forall i :: 0 <= i < |users| ==> !Matches(users[i], x)
    ensures r.Some? ==> r.value < |users| && Matches(users[r.value], x)
    ensures r.Some? ==> forall j :: 0 <= j < r.value ==> !Matches(users[j], x)
  {
    if |users| == 0 then None
    else if Matches(users[|users| - 1], x) && FindByIdentifier(users[..|users| - 1], x).None?
    then Some(|users| - 1)
    else FindByIdentifier(users[..|users| - 1], x)
  }

  /**
   * The unique indexes on `username` and on `email`, their `required` rule (which refuses the empty
   * string), and `_id` naming the insertion position.
   */
  predicate UsersValid(users: seq<User>)
  {
    && (forall i :: 0 <= i < |users| ==> users[i].id == i)
    && (forall i :: 0 <= i < |users| ==> users[i].username != "" && users[i].email != "")
    && (forall i, j :: 0 <= i < j < |users| ==> users[i].username != users[j].username)
    && (forall i, j :: 0 <= i < j < |users| ==> users[i].email != users[j].email)
  }

  /**
   * The invariant of the four collections. Each record carries the key it is stored under (the
   * required `userId`, and `token` for sessions). A failed-login counter is at least 1 and stays
   * below the lockout threshold, except that a first failure is recorded as 1 without comparing it
   * with the threshold.
   */
  predicate Valid(st: Stores, maxFailedLogins: int)
  {
    && UsersValid(st.users)
    && (forall u :: u in st.failed ==> st.failed[u].userId == u)
    && (forall u :: u in st.failed ==> 1 <= st.failed[u].numFailed && (st.failed[u].numFailed < maxFailedLogins || st.failed[u].numFailed == 1))
    && (forall u :: u in st.lockedOut ==> st.lockedOut[u].userId == u)
    && (forall k :: k in st.sessions ==> st.sessions[k].userId == k.0 && st.sessions[k].token == k.1)
  }

  /**
   * Under the unique indexes the login lookup finds the one account named by `x`, unless `x` is the
   * email of one account and the username of another.
   */
  lemma IdentifierFindsOwner(users: seq<User>, i: nat, x: string)
    requires UsersValid(users) && i < |users| && Matches(users[i], x)
    requires forall j, k :: 0 <= j < |users| && 0 <= k < |users| && users[j].email == x && users[k].username == x ==> j == k
    ensures FindByIdentifier(users, x) == Some(i)
  {
    assert forall j :: 0 <= j < |users| && j != i ==> !Matches(users[j], x);
  }

  /** Appending a user whose username and email are both new keeps the unique indexes satisfied. */
  lemma AppendKeepsUnique(users: seq<User>, u: User)
    requires UsersValid(users)
    requires !HasUsername(users, u.username) && !HasEmail(users, u.email)
    requires u.username != "" && u.email != ""
    requires u.id == |users|
    ensures UsersValid(users + [u])
  {
    var us := users + [u];
    forall i, j | 0 <= i < j < |us|
      ensures us[i].username != us[j].username && us[i].email != us[j].email
    {
      if j == |users| {
        assert us[i] == users[i];
      }
    }
  }

  /**
   * `FailedLoginUser.findOne` sees a stored counter exactly while its age, counted from
   * `createdAt`, is below the failed-login window.
   */
  lemma FailedLookup(st: Stores, ttls: Ttls, uid: UserId, now: int)
    ensures FindFailed(st, ttls, uid, now).Some? <==>
      uid in st.failed && now - st.failed[uid].createdAt < ttls.failedLoginWindow * 1000
    ensures FindFailed(st, ttls, uid, now).Some? ==> FindFailed(st, ttls, uid, now).value == st.failed[uid]
  {
  }

  /**
   * `LockedOutUser.findOne` sees a stored lockout exactly while its age, counted from `createdAt`,
   * is below the lockout time.
   */
  lemma LockoutLookup(st: Stores, ttls: Ttls, uid: UserId, now: int)
    ensures FindLockedOut(st, ttls, uid, now).Some? <==>
      uid in st.lockedOut && now - st.lockedOut[uid].createdAt < ttls.lockoutTime * 1000
    ensures FindLockedOut(st, ttls, uid, now).Some? ==> FindLockedOut(st, ttls, uid, now).value == st.lockedOut[uid]
  {
  }

  /**
   * `RefreshToken.findOne` sees a stored session exactly while the time since its `lastUsed` is
   * below the idle timeout; with a zero idle timeout a session is hidden from the moment it is written.
   */
  lemma SessionLookup(st: Stores, ttls: Ttls, uid: UserId, token: string, now: int)
    ensures FindSession(st, ttls, uid, token, now).Some? <==>
      (uid, token) in st.sessions && now - st.sessions[(uid, token)].lastUsed < ttls.idleTimeout * 1000
    ensures FindSession(st, ttls, uid, token, now).Some? ==> FindSession(st, ttls, uid, token, now).value == st.sessions[(uid, token)]
    ensures ttls.idleTimeout == 0 && (uid, token) in st.sessions && st.sessions[(uid, token)].lastUsed == now ==>
      FindSession(st, ttls, uid, token, now).None?
  {
  }
}
