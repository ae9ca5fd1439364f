/**
 * The two cryptographic libraries the credential controller calls, CryptoJS AES and jsonwebtoken,
 * are not modelled bit by bit. They are a record of functions, and `Sound` states the only facts
 * the controller relies on: decryption undoes encryption under the same passphrase, verification
 * recovers the claims a token was signed with, an empty token never verifies, and a signed token is
 * not empty and contains no space (so it survives being sent back as `Bearer <token>`). The `exp` check of jsonwebtoken is modelled exactly.
 */
module Crypto {
  import opened Wrappers

  /** A user's identifier (the store's `_id`). */
  type UserId = nat

  /** The payload of a signed token: `sub`, and the `iat` and `exp` claims in seconds. */
  datatype Claims = Claims(sub: UserId, iat: int, exp: Option<int>)

  /**
   * `encrypt(plaintext, passphrase, salt)`: CryptoJS AES with a passphrase draws a random salt,
   * so the salt is an input. `sign(claims, secret)` and `verify(token, secret)` are jsonwebtoken's
   * signature layer; `verify` answers None where the library throws for a bad signature.
   */
  datatype Crypto = Crypto(
    encrypt: (string, string, nat) -> string,
    decrypt: (string, string) -> string,
    sign: (Claims, string) -> string,
    verify: (string, string) -> Option<Claims>)

  /** The round-trip facts assumed of the libraries. */
  ghost predicate Sound(c: Crypto)
  {
    && (forall p, k, salt :: c.decrypt(c.encrypt(p, k, salt), k) == p)
    && (forall cl, k :: c.verify(c.sign(cl, k), k) == Some(cl))
    && (forall cl, k :: ' ' !in c.sign(cl, k))
    && (forall cl, k :: c.sign(cl, k) != "")
    && (forall k :: c.verify("", k) == None)
  }

  /** jsonwebtoken's clock: `Math.floor(Date.now() / 1000)`, from a time in milliseconds. */
  function Seconds(nowMs: int): int
  {
    nowMs / 1000
  }

  /** jsonwebtoken rejects a token whose `exp` claim is at or before the current second. */
  predicate Expired(cl: Claims, now: int)
  {
    cl.exp.Some? && Seconds(now) >= cl.exp.value
  }

  /**
   * `jwt.verify(token, secret)`: None when the library throws, that is when no token was given
   * (`undefined`), the signature does not check, or the token has expired.
   */
  function VerifyJwt(c: Crypto, token: Option<string>, secret: string, now: int): Option<Claims>
  {
    if token.None? then None
    else match c.verify(token.value, secret)
      case None => None
      case Some(cl) => if Expired(cl, now) then None else Some(cl)
  }

  /** The payload of an access token: `{ sub }` signed with `expiresIn` = `lifetime` seconds. */
  function AccessClaims(uid: UserId, now: int, lifetime: int): Claims
  {
    Claims(uid, Seconds(now), Some(Seconds(now) + lifetime))
  }

  /** The payload of a refresh token: `{ sub }` signed without an expiry. */
  function RefreshClaims(uid: UserId, now: int): Claims
  {
    Claims(uid, Seconds(now), None)
  }

  /** A token the server signed verifies, under the same secret, as long as it has not expired. */
  lemma SignedTokenVerifies(c: Crypto, cl: Claims, secret: string, now: int)
    requires Sound(c)
    ensures VerifyJwt(c, Some(c.sign(cl, secret)), secret, now) == if Expired(cl, now) then None else Some(cl)
  {
    assert c.verify(c.sign(cl, secret), secret) == Some(cl);
  }

  /** An access token signed at `issued` is accepted exactly while the clock is before its `exp` second. */
  lemma AccessTokenLifetime(c: Crypto, uid: UserId, issued: int, lifetime: int, secret: string, now: int)
    requires Sound(c)
    ensures VerifyJwt(c, Some(c.sign(AccessClaims(uid, issued, lifetime), secret)), secret, now).Some?
            <==> Seconds(now) < Seconds(issued) + lifetime
  {
    SignedTokenVerifies(c, AccessClaims(uid, issued, lifetime), secret, now);
  }

  /** A refresh token carries no expiry: its signature alone never times out. */
  lemma RefreshTokenNeverExpires(c: Crypto, uid: UserId, issued: int, secret: string, now: int)
    requires Sound(c)
    ensures VerifyJwt(c, Some(c.sign(RefreshClaims(uid, issued), secret)), secret, now) == Some(RefreshClaims(uid, issued))
  {
    SignedTokenVerifies(c, RefreshClaims(uid, issued), secret, now);
  }
}
