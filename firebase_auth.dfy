/**
 * The access middleware of the Firebase-based API: `verify` parses the `Authorization` header and
 * asks Firebase to verify the ID token, recording the token's uid on the request; `checkAccess`
 * lets a request through only when that uid owns every `userId` the request names.
 */
module FirebaseAuth {
  import opened Wrappers
  import opened Headers

  /**
   * A JSON value found at `body.userId`: a string, or any other JSON value, which is never
   * strictly equal to the uid string.
   */
  datatype BodyValue = Text(s: string) | NonText

  /** How a middleware ends: a 401 reply, or a call of `next()`. */
  datatype Outcome = Unauthorized | Next

  /**
   * The parts of an Express request the middleware reads and writes: the `authorization` header,
   * the header where `verify` records the uid, `body.userId` and `params.userId`.
   */
  class Request {
    var authorization: Option<string>
    var uidHeader: Option<string>
    var bodyUserId: Option<BodyValue>
    var paramsUserId: Option<string>

    constructor (authorization: Option<string>, uidHeader: Option<string>, bodyUserId: Option<BodyValue>, paramsUserId: Option<string>)
      ensures this.authorization == authorization && this.uidHeader == uidHeader
      ensures this.bodyUserId == bodyUserId && this.paramsUserId == paramsUserId
    {
      this.authorization := authorization;
      this.uidHeader := uidHeader;
      this.bodyUserId := bodyUserId;
      this.paramsUserId := paramsUserId;
    }
  }

  /**
   * The ID token `verify` hands to Firebase: nothing when the header is absent, empty or does not
   * start with `Bearer `; otherwise its second space-separated field: the text after `Bearer `
   * up to the next space or the end.
   */
  function BearerToken(authorization: Option<string>): (r: Option<string>)
    ensures r.Some? <==> authorization.Some? && StartsWith(authorization.value, "Bearer ")
    ensures r.Some? ==> var h := authorization.value;
      ' ' !in r.value && StartsWith(h[7..], r.value) && (|r.value| == |h| - 7 || h[7 + |r.value|] == ' ')
  {
    if authorization.None? || authorization.value == "" || !StartsWith(authorization.value, "Bearer ") then None
    else
      BearerField(authorization.value);
      SecondField(authorization.value)
  }

  /** `Bearer <token>` carries exactly `<token>`, for a token without spaces. */
  lemma BearerTokenRoundTrip(token: string)
    requires ' ' !in token
    ensures BearerToken(Some("Bearer " + token)) == Some(token)
  {
    BearerRoundTrip(token);
    assert StartsWith("Bearer " + token, "Bearer ");
  }

  /**
   * The uid `verify` records, given the outcome of `verifyIdToken` for each token (`None` when it
   * rejects the token). A uid is only ever taken from a `Bearer` header: it is the verifier's
   * answer for the header's second space-separated field, the space-free text after `Bearer ` that
   * runs to the end or to the next space. For `Bearer <token>` that is `<token>` itself.
   */
  function VerifiedUid(authorization: Option<string>, verifyIdToken: string -> Option<string>): (r: Option<string>)
    ensures r.Some? ==> authorization.Some? && StartsWith(authorization.value, "Bearer ")
    ensures r.Some? ==> exists t :: ' ' !in t && StartsWith(authorization.value, "Bearer " + t) && verifyIdToken(t) == r
    ensures forall t :: ' ' !in t && authorization == Some("Bearer " + t) ==> r == verifyIdToken(t)
    ensures forall t :: authorization.Some? && ' ' !in t && StartsWith(authorization.value, "Bearer " + t) &&
                        (|authorization.value| == 7 + |t| || authorization.value[7 + |t|] == ' ')
                        ==> r == verifyIdToken(t)
  {
    match BearerToken(authorization)
    case None => None
    case Some(token) =>
      var h := authorization.value;
      assert h[..7 + |token|] == "Bearer " + token by {
        assert h[..7] == "Bearer " && h[7..][..|token|] == token;
        assert h[..7 + |token|] == h[..7] + h[7..][..|token|];
      }
      forall t | ' ' !in t && authorization == Some("Bearer " + t) ensures token == t {
        BearerTokenRoundTrip(t);
      }
      forall t | ' ' !in t && StartsWith(h, "Bearer " + t) && (|h| == 7 + |t| || h[7 + |t|] == ' ')
        ensures token == t
      {
        AfterBearer(h, t);
        FieldUnique(h[7..], token, t);
      }
      verifyIdToken(token)
  }

  /** A header that starts with `Bearer ` followed by `t` has `t` at the start of its text after `Bearer `. */
  lemma AfterBearer(h: string, t: string)
    requires StartsWith(h, "Bearer " + t)
    ensures StartsWith(h[7..], t)
    ensures |h| > 7 + |t| ==> h[7..][|t|] == h[7 + |t|]
  {
    assert h[7..][..|t|] == h[..7 + |t|][7..];
  }

  /**
   * The field right after a position is unique: two space-free prefixes of `rest` that each end
   * at the end of `rest` or at a space are the same text.
   */
  lemma FieldUnique(rest: string, a: string, b: string)
    requires ' ' !in a && ' ' !in b && StartsWith(rest, a) && StartsWith(rest, b)
    requires |a| == |rest| || rest[|a|] == ' '
    requires |b| == |rest| || rest[|b|] == ' '
    ensures a == b
  {
    assert forall i :: 0 <= i < |a| ==> rest[i] == a[i] by {
      forall i | 0 <= i < |a| ensures rest[i] == a[i] { assert rest[..|a|][i] == a[i]; }
    }
    assert forall i :: 0 <= i < |b| ==> rest[i] == b[i] by {
      forall i | 0 <= i < |b| ensures rest[i] == b[i] { assert rest[..|b|][i] == b[i]; }
    }
    assert a == rest[..|a|] && b == rest[..|b|];
  }

  /**
   * `verify`: a missing or non-`Bearer` header, or a token the verifier rejects, ends in 401
   * without touching the request; otherwise the token's uid is written to the uid header and
   * `next()` is called.
   */
  method Verify(req: Request, verifyIdToken: string -> Option<string>) returns (outcome: Outcome)
    modifies req`uidHeader
    ensures var uid := VerifiedUid(old(req.authorization), verifyIdToken);
      && (outcome == Next <==> uid.Some?)
      && (uid.Some? ==> req.uidHeader == uid)
      && (uid.None? ==> req.uidHeader == old(req.uidHeader))
  {
    if req.authorization.None? || req.authorization.value == "" || !StartsWith(req.authorization.value, "Bearer ") {
      return Unauthorized;
    }
    var idToken := BearerToken(req.authorization);
    var payload := verifyIdToken(idToken.value);
    if payload.None? {
      return Unauthorized;
    }
    req.uidHeader := payload;
    outcome := Next;
  }

  /**
   * `checkAccess`: no recorded uid is 401; a `body.userId` that is present and not strictly equal
   * to the uid is 401; so is such a `params.userId`; anything else passes.
   */
  function CheckAccess(uidHeader: Option<string>, bodyUserId: Option<BodyValue>, paramsUserId: Option<string>): (r: Outcome)
    ensures r == Next ==> uidHeader.Some?
    ensures r == Next && bodyUserId.Some? ==> bodyUserId.value == Text(uidHeader.value)
    ensures r == Next && paramsUserId.Some? ==> paramsUserId.value == uidHeader.value
  {
    if uidHeader.None? then Unauthorized
    else if bodyUserId.Some? && bodyUserId.value != Text(uidHeader.value) then Unauthorized
    else if paramsUserId.Some? && paramsUserId.value != uidHeader.value then Unauthorized
    else Next
  }

  /**
   * `checkAccess` run on a request: it gets through exactly when a uid is recorded and every
   * `userId` the request names, in its body or in its parameters, is that uid.
   */
  method CheckRequest(req: Request) returns (outcome: Outcome)
    ensures outcome == Next <==>
      && req.uidHeader.Some?
      && (req.bodyUserId.None? || req.bodyUserId.value == Text(req.uidHeader.value))
      && (req.paramsUserId.None? || req.paramsUserId.value == req.uidHeader.value)
    ensures outcome == CheckAccess(req.uidHeader, req.bodyUserId, req.paramsUserId)
  {
    if req.uidHeader.None? {
      return Unauthorized;
    }
    var uid := req.uidHeader.value;
    if req.bodyUserId.Some? && req.bodyUserId.value != Text(uid) {
      return Unauthorized;
    }
    if req.paramsUserId.Some? && req.paramsUserId.value != uid {
      return Unauthorized;
    }
    outcome := Next;
  }

  /**
   * The ownership rule: a request passes exactly when a uid is recorded, `body.userId` is absent
   * or that uid as a string, and `params.userId` is absent or that uid. In particular a request
   * that names no `userId` passes once a uid is recorded.
   */
  lemma CheckAccessOwnership(uidHeader: Option<string>, bodyUserId: Option<BodyValue>, paramsUserId: Option<string>)
    ensures CheckAccess(uidHeader, bodyUserId, paramsUserId) == Next <==>
      && uidHeader.Some?
      && (bodyUserId.None? || bodyUserId.value == Text(uidHeader.value))
      && (paramsUserId.None? || paramsUserId.value == uidHeader.value)
    ensures uidHeader.Some? && bodyUserId.None? && paramsUserId.None? ==> CheckAccess(uidHeader, bodyUserId, paramsUserId) == Next
    ensures bodyUserId == Some(NonText) ==> CheckAccess(uidHeader, bodyUserId, paramsUserId) == Unauthorized
  {
  }
}
