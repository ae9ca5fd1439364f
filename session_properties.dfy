/**
 * What the two session gates and logout promise: the order in which each gate consults its
 * inputs, the sliding idle timeout of a session, token rotation, and revocation on logout.
 */
module SessionProperties {
  import opened Wrappers
  import opened Crypto
  import opened Headers
  import opened Collections
  import opened AuthSpec
  import AuthProperties

  // ---------------------------------------------------------------------------------------------
  // verifyAndRefresh

  /**
   * `verifyAndRefresh` in its order: no access header is 401 "not authenticated"; a valid access
   * token passes without looking at sessions; otherwise a missing refresh header, a bad refresh
   * signature or no live `(userId, token)` session is 401 "session expired"; and in none of these
   * cases does anything change.
   */
  lemma VerifyAndRefreshOrder(env: Env, st: Stores, accessHeader: Option<string>, refreshHeader: Option<string>, now: int)
    ensures var s := VerifyAndRefresh(env, st, accessHeader, refreshHeader, now);
      && (Blank(accessHeader) ==> s == Step(st, Reply(401, NotAuthenticated)))
      && (!Blank(accessHeader) && AccessValid(env, accessHeader.value, now) ==> s == Step(st, Next(None)))
      && (!Blank(accessHeader) && !AccessValid(env, accessHeader.value, now) &&
          (Blank(refreshHeader) || RefreshSubject(env, refreshHeader.value, now).None?) ==>
            s == Step(st, Reply(401, SessionExpired)))
      && ((!Blank(accessHeader) && !AccessValid(env, accessHeader.value, now) && !Blank(refreshHeader) &&
           RefreshSubject(env, refreshHeader.value, now).Some? &&
           FindSession(st, env.config.ttls, RefreshSubject(env, refreshHeader.value, now).value.0,
                       RefreshSubject(env, refreshHeader.value, now).value.1, now).None?) ==>
            s == Step(st, Reply(401, SessionExpired)))
  {
  }

  /**
   * The refresh path of either gate sets `lastUsed := now` on the session that was found, changes
   * nothing else, and hands on a new access token for the same `userId`.
   */
  lemma RefreshPath(env: Env, st: Stores, accessHeader: Option<string>, refreshHeader: Option<string>, now: int)
    requires Valid(st, env.config.maxFailedLogins)
    requires !Blank(accessHeader) && !AccessValid(env, accessHeader.value, now) && !Blank(refreshHeader)
    requires RefreshSubject(env, refreshHeader.value, now).Some?
    requires var (uid, token) := RefreshSubject(env, refreshHeader.value, now).value;
      FindSession(st, env.config.ttls, uid, token, now).Some?
    ensures var (uid, token) := RefreshSubject(env, refreshHeader.value, now).value;
      var expected := Step(st.(sessions := st.sessions[(uid, token) := st.sessions[(uid, token)].(lastUsed := now)]),
                           Next(Some(env.crypto.sign(AccessClaims(uid, now, env.config.accessTokenLifetime), env.config.accessTokenSecret))));
      && VerifyAndRefresh(env, st, accessHeader, refreshHeader, now) == expected
      && VerifyAndRefreshSensitive(env, st, accessHeader, refreshHeader, now) == expected
  {
  }

  // ---------------------------------------------------------------------------------------------
  // verifyAndRefreshSensitive

  /**
   * `verifyAndRefreshSensitive` in its order: a missing refresh header, a bad refresh signature or
   * no live session is 401 "session expired", whatever the access header; only then is a missing
   * access header 401 "not authenticated", and a valid access token passes without touching the
   * session.
   */
  lemma SensitiveOrder(env: Env, st: Stores, accessHeader: Option<string>, refreshHeader: Option<string>, now: int)
    ensures var s := VerifyAndRefreshSensitive(env, st, accessHeader, refreshHeader, now);
      && (Blank(refreshHeader) || RefreshSubject(env, refreshHeader.value, now).None? ==>
            s == Step(st, Reply(401, SessionExpired)))
      && (!Blank(refreshHeader) && RefreshSubject(env, refreshHeader.value, now).Some? ==>
          var (uid, token) := RefreshSubject(env, refreshHeader.value, now).value;
          && (FindSession(st, env.config.ttls, uid, token, now).None? ==> s == Step(st, Reply(401, SessionExpired)))
          && (FindSession(st, env.config.ttls, uid, token, now).Some? && Blank(accessHeader) ==>
                s == Step(st, Reply(401, NotAuthenticated)))
          && ((FindSession(st, env.config.ttls, uid, token, now).Some? && !Blank(accessHeader) &&
               AccessValid(env, accessHeader.value, now)) ==> s == Step(st, Next(None))))
  {
  }

  /**
   * The sensitive gate is the stricter one: whenever it lets a request through, the plain gate lets
   * it through too, with the same new state and the same new-access-token header.
   */
  lemma SensitivePassImpliesPlainPass(env: Env, st: Stores, accessHeader: Option<string>, refreshHeader: Option<string>, now: int)
    requires VerifyAndRefreshSensitive(env, st, accessHeader, refreshHeader, now).response.Next?
    ensures VerifyAndRefresh(env, st, accessHeader, refreshHeader, now) == VerifyAndRefreshSensitive(env, st, accessHeader, refreshHeader, now)
  {
  }

  /**
   * A header whose second field is empty, such as `Bearer ` (`Headers.BearerRoundTrip` with the
   * empty token), hands `jwt.verify` the empty token, which it refuses: with such an access header
   * and such a refresh header both gates answer 401 "session expired" and change nothing.
   */
  lemma EmptyTokenRefused(env: Env, st: Stores, accessHeader: string, refreshHeader: string, now: int)
    requires Sound(env.crypto)
    requires TokenOf(accessHeader) == Some("") && TokenOf(refreshHeader) == Some("")
    ensures VerifyAndRefresh(env, st, Some(accessHeader), Some(refreshHeader), now) == Step(st, Reply(401, SessionExpired))
    ensures VerifyAndRefreshSensitive(env, st, Some(accessHeader), Some(refreshHeader), now) == Step(st, Reply(401, SessionExpired))
  {
    assert env.crypto.verify("", env.config.accessTokenSecret) == None;
    assert env.crypto.verify("", env.config.refreshTokenSecret) == None;
  }

  /**
   * Where the two orders differ: with a valid access token the plain gate passes even with no
   * refresh header or a dead session, and the sensitive gate refuses; with no access header the
   * plain gate says "not authenticated" where the sensitive one, for a dead session, says
   * "session expired".
   */
  lemma GatesDiffer(env: Env, st: Stores, accessHeader: Option<string>, refreshHeader: Option<string>, now: int)
    requires Blank(refreshHeader) || RefreshSubject(env, refreshHeader.value, now).None? ||
      (var (uid, token) := RefreshSubject(env, refreshHeader.value, now).value;
       FindSession(st, env.config.ttls, uid, token, now).None?)
    ensures !Blank(accessHeader) && AccessValid(env, accessHeader.value, now) ==>
      VerifyAndRefresh(env, st, accessHeader, refreshHeader, now).response == Next(None)
    ensures Blank(accessHeader) ==>
      VerifyAndRefresh(env, st, accessHeader, refreshHeader, now).response == Reply(401, NotAuthenticated)
    ensures VerifyAndRefreshSensitive(env, st, accessHeader, refreshHeader, now) == Step(st, Reply(401, SessionExpired))
  {
  }

  // ---------------------------------------------------------------------------------------------
  // idle timeout and rotation

  /**
   * The idle timeout slides: a refresh at `now` rewrites `lastUsed`, after which the session is
   * found exactly until `now + idleTimeout`, however old it was.
   */
  lemma RefreshSlidesExpiry(env: Env, st: Stores, uid: UserId, token: string, now: int, t: int)
    ensures var s := Refresh(env, st, uid, token, now).stores;
      FindSession(s, env.config.ttls, uid, token, t).Some? <==> Alive(now, env.config.ttls.idleTimeout, t)
  {
  }

  /**
   * A session not used for `idleTimeout` seconds is gone: a request whose access token fails is
   * refused by both gates, even though the refresh token's signature still checks.
   */
  lemma IdleSessionRefused(env: Env, st: Stores, accessHeader: Option<string>, refreshHeader: Option<string>, now: int)
    requires !Blank(accessHeader) && !AccessValid(env, accessHeader.value, now) && !Blank(refreshHeader)
    requires RefreshSubject(env, refreshHeader.value, now).Some?
    requires var (uid, token) := RefreshSubject(env, refreshHeader.value, now).value;
      (uid, token) in st.sessions && !Alive(st.sessions[(uid, token)].lastUsed, env.config.ttls.idleTimeout, now)
    ensures VerifyAndRefresh(env, st, accessHeader, refreshHeader, now) == Step(st, Reply(401, SessionExpired))
    ensures VerifyAndRefreshSensitive(env, st, accessHeader, refreshHeader, now) == Step(st, Reply(401, SessionExpired))
  {
  }

  /** The collections after the same pair of headers is presented to the plain gate at each of `times`. */
  function Requests(env: Env, st: Stores, accessHeader: Option<string>, refreshHeader: Option<string>, times: seq<int>): Stores
  {
    if |times| == 0 then st
    else VerifyAndRefresh(env, Requests(env, st, accessHeader, refreshHeader, times[..|times| - 1]), accessHeader, refreshHeader, times[|times| - 1]).stores
  }

  /** One request of a continuing session: the access token fails, the session is live, so it is refreshed. */
  lemma OneRequest(env: Env, before: Stores, accessHeader: Option<string>, refreshHeader: Option<string>,
                   uid: UserId, token: string, now: int)
    requires !Blank(accessHeader) && !Blank(refreshHeader) && !AccessValid(env, accessHeader.value, now)
    requires RefreshSubject(env, refreshHeader.value, now) == Some((uid, token))
    requires FindSession(before, env.config.ttls, uid, token, now).Some?
    ensures VerifyAndRefresh(env, before, accessHeader, refreshHeader, now) == Refresh(env, before, uid, token, now)
  {
  }

  /**
   * A session in continuous use on the refresh path never expires: if every request carries an
   * access token that fails and comes less than `idleTimeout` after the previous one, the latest
   * request is refreshed with a new access token for `uid`, however long the whole sequence lasts,
   * the session's `lastUsed` is the time of that request, and nothing else has changed. Requests
   * with a valid access token do not count as use (`ValidAccessDoesNotExtend`).
   */
  lemma {:induction false} ContinuousUseKeepsSession(env: Env, st: Stores, accessHeader: Option<string>, refreshHeader: Option<string>,
                                                     uid: UserId, token: string, times: seq<int>)
    requires !Blank(accessHeader) && !Blank(refreshHeader)
    requires forall k :: 0 <= k < |times| ==> !AccessValid(env, accessHeader.value, times[k])
    requires forall k :: 0 <= k < |times| ==> RefreshSubject(env, refreshHeader.value, times[k]) == Some((uid, token))
    requires |times| > 0 ==> FindSession(st, env.config.ttls, uid, token, times[0]).Some?
    requires forall k :: 0 < k < |times| ==> Alive(times[k - 1], env.config.ttls.idleTimeout, times[k])
    ensures var s := Requests(env, st, accessHeader, refreshHeader, times);
      && s.users == st.users && s.failed == st.failed && s.lockedOut == st.lockedOut
      && (|times| > 0 ==> (uid, token) in s.sessions && s.sessions[(uid, token)].lastUsed == times[|times| - 1])
    ensures |times| > 0 ==>
      VerifyAndRefresh(env, Requests(env, st, accessHeader, refreshHeader, times[..|times| - 1]), accessHeader, refreshHeader, times[|times| - 1]).response
      == Next(Some(NewAccessToken(env, uid, times[|times| - 1])))
  {
    if |times| > 0 {
      var prefix := times[..|times| - 1];
      var now := times[|times| - 1];
      assert forall k :: 0 <= k < |prefix| ==> prefix[k] == times[k];
      ContinuousUseKeepsSession(env, st, accessHeader, refreshHeader, uid, token, prefix);
      var before := Requests(env, st, accessHeader, refreshHeader, prefix);
      if |prefix| > 0 {
        assert Alive(prefix[|prefix| - 1], env.config.ttls.idleTimeout, now);
      }
      assert FindSession(before, env.config.ttls, uid, token, now).Some?;
      OneRequest(env, before, accessHeader, refreshHeader, uid, token, now);
    }
  }

  /**
   * The contrast: a request whose access token is valid passes the plain gate without touching the
   * session, so it does not move `lastUsed`. Once the idle timeout has run from the last refresh,
   * the sensitive gate refuses the same headers, however recently the access token was used.
   */
  lemma ValidAccessDoesNotExtend(env: Env, st: Stores, accessHeader: Option<string>, refreshHeader: Option<string>,
                                 uid: UserId, token: string, now: int, later: int)
    requires !Blank(accessHeader) && AccessValid(env, accessHeader.value, now) && !Blank(refreshHeader)
    requires RefreshSubject(env, refreshHeader.value, later) == Some((uid, token))
    requires (uid, token) in st.sessions && !Alive(st.sessions[(uid, token)].lastUsed, env.config.ttls.idleTimeout, later)
    ensures var s := VerifyAndRefresh(env, st, accessHeader, refreshHeader, now);
      && s == Step(st, Next(None))
      && VerifyAndRefreshSensitive(env, s.stores, accessHeader, refreshHeader, later) == Step(st, Reply(401, SessionExpired))
  {
  }

  /** Every request of a continuing session, not only the latest, is refreshed. */
  lemma EveryRequestRefreshed(env: Env, st: Stores, accessHeader: Option<string>, refreshHeader: Option<string>,
                              uid: UserId, token: string, times: seq<int>, k: nat)
    requires !Blank(accessHeader) && !Blank(refreshHeader)
    requires forall k :: 0 <= k < |times| ==> !AccessValid(env, accessHeader.value, times[k])
    requires forall k :: 0 <= k < |times| ==> RefreshSubject(env, refreshHeader.value, times[k]) == Some((uid, token))
    requires |times| > 0 ==> FindSession(st, env.config.ttls, uid, token, times[0]).Some?
    requires forall k :: 0 < k < |times| ==> Alive(times[k - 1], env.config.ttls.idleTimeout, times[k])
    requires k < |times|
    ensures VerifyAndRefresh(env, Requests(env, st, accessHeader, refreshHeader, times[..k]), accessHeader, refreshHeader, times[k]).response
            == Next(Some(NewAccessToken(env, uid, times[k])))
  {
    var upTo := times[..k + 1];
    assert forall j :: 0 <= j < |upTo| ==> upTo[j] == times[j];
    ContinuousUseKeepsSession(env, st, accessHeader, refreshHeader, uid, token, upTo);
    assert upTo[..k] == times[..k];
  }

  /**
   * Rotation works: the access token a refresh puts in `x-new-access-token`, sent back as
   * `Bearer <token>`, passes the plain gate with no further change until its lifetime runs out.
   */
  lemma RotatedTokenAccepted(env: Env, st: Stores, uid: UserId, token: string, now: int,
                             refreshHeader: Option<string>, later: int)
    requires Sound(env.crypto)
    requires Seconds(later) < Seconds(now) + env.config.accessTokenLifetime
    ensures var s := Refresh(env, st, uid, token, now);
      s.response.Next? && s.response.newAccessToken.Some? &&
      VerifyAndRefresh(env, s.stores, Some("Bearer " + s.response.newAccessToken.value), refreshHeader, later) == Step(s.stores, Next(None))
  {
    var rotated := NewAccessToken(env, uid, now);
    BearerRoundTrip(rotated);
    AccessTokenLifetime(env.crypto, uid, now, env.config.accessTokenLifetime, env.config.accessTokenSecret, later);
  }

  /**
   * The tokens of a successful login open the sensitive gate: sent back as `Bearer` headers within
   * the access token's lifetime and the idle timeout, they pass without changing anything.
   */
  lemma LoginTokensPass(env: Env, st: Stores, identifier: string, password: string, now: int, later: int)
    requires Sound(env.crypto)
    requires Login(env, st, identifier, password, now).response.LoggedIn?
    requires Seconds(later) < Seconds(now) + env.config.accessTokenLifetime
    requires Alive(now, env.config.ttls.idleTimeout, later)
    ensures var s := Login(env, st, identifier, password, now);
      var access := Some("Bearer " + s.response.accessToken);
      var refresh := Some("Bearer " + s.response.refreshToken);
      VerifyAndRefreshSensitive(env, s.stores, access, refresh, later) == Step(s.stores, Next(None))
  {
    var s := Login(env, st, identifier, password, now);
    var uid := s.response.info.id;
    assert s.response.accessToken == NewAccessToken(env, uid, now);
    assert s.response.refreshToken == NewRefreshToken(env, uid, now);
    BearerRoundTrip(s.response.accessToken);
    BearerRoundTrip(s.response.refreshToken);
    AccessTokenLifetime(env.crypto, uid, now, env.config.accessTokenLifetime, env.config.accessTokenSecret, later);
    RefreshTokenNeverExpires(env.crypto, uid, now, env.config.refreshTokenSecret, later);
  }

  // ---------------------------------------------------------------------------------------------
  // logout

  /**
   * `logout` answers 200 exactly when the refresh header carries a token that verifies, and then
   * deletes the session named by the token's `sub` and the token (deleting nothing is not an
   * error); anything that throws answers 500 and changes nothing.
   */
  lemma LogoutOutcome(env: Env, st: Stores, refreshHeader: Option<string>, now: int)
    ensures var s := Logout(env, st, refreshHeader, now);
      && (s.response == Reply(200, LogoutSuccessful) <==> refreshHeader.Some? && RefreshSubject(env, refreshHeader.value, now).Some?)
      && (s.response != Reply(200, LogoutSuccessful) ==> s == Step(st, Reply(500, ServerError)))
      && (s.response == Reply(200, LogoutSuccessful) ==>
            s.stores == st.(sessions := st.sessions - {RefreshSubject(env, refreshHeader.value, now).value}))
  {
  }

  /** Logging out twice with the same header answers the same and the second time changes nothing. */
  lemma LogoutIdempotent(env: Env, st: Stores, refreshHeader: Option<string>, now: int)
    ensures var s := Logout(env, st, refreshHeader, now);
      Logout(env, s.stores, refreshHeader, now) == s
  {
  }

  /** After a logout the revoked refresh token is refused by the sensitive gate from then on. */
  lemma LogoutRevokes(env: Env, st: Stores, refreshHeader: Option<string>, now: int, accessHeader: Option<string>, later: int)
    requires Logout(env, st, refreshHeader, now).response == Reply(200, LogoutSuccessful)
    ensures var s := Logout(env, st, refreshHeader, now).stores;
      VerifyAndRefreshSensitive(env, s, accessHeader, refreshHeader, later) == Step(s, Reply(401, SessionExpired))
  {
  }
}
