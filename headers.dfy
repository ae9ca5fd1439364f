/**
 * Header parsing shared by both controllers: a token header is `Bearer <token>`, and the code takes
 * the token as `header.split(' ')[1]`. `Split` is JavaScript's `String.prototype.split(' ')`, and
 * `Join` its inverse; together they pin down what "the second space-separated field" is.
 */
module Headers {
  import opened Wrappers

  /** The index of the first space in `s`. */
  function IndexOfSpace(s: string): (i: nat)
    requires ' ' in s
    ensures i < |s| && s[i] == ' ' && ' ' !in s[..i]
  {
    if s[0] == ' ' then 0
    else
      var j := IndexOfSpace(s[1..]);
      assert s[1..][..j] == s[1..j + 1];
      assert s[..j + 1] == [s[0]] + s[1..j + 1];
      j + 1
  }

  /** Fields joined with one space between neighbours: what `split(' ')` undoes. */
  function Join(fields: seq<string>): string
  {
    if |fields| == 0 then ""
    else if |fields| == 1 then fields[0]
    else fields[0] + " " + Join(fields[1..])
  }

  /** `s.split(' ')`: never empty, no field holds a space, and joining the fields gives `s` back. */
  function Split(s: string): (fields: seq<string>)
    ensures |fields| >= 1
    ensures forall k :: 0 <= k < |fields| ==> ' ' !in fields[k]
    ensures Join(fields) == s
    decreases |s|
  {
    if ' ' !in s then [s]
    else
      var i := IndexOfSpace(s);
      var rest := Split(s[i + 1..]);
      assert s == s[..i] + " " + s[i + 1..];
      assert ([s[..i]] + rest)[1..] == rest;
      [s[..i]] + rest
  }

  /** `split` is the inverse of `Join` on space-free fields: the field list of a header is unique. */
  lemma {:induction false} SplitJoin(fields: seq<string>)
    requires |fields| >= 1
    requires forall k :: 0 <= k < |fields| ==> ' ' !in fields[k]
    ensures Split(Join(fields)) == fields
  {
    if |fields| > 1 {
      var s := Join(fields);
      assert s == fields[0] + " " + Join(fields[1..]);
      SplitJoin(fields[1..]);
      assert ' ' in s by { assert s[|fields[0]|] == ' '; }
      var i := IndexOfSpace(s);
      assert s[..|fields[0]|] == fields[0];
      assert i == |fields[0]|;
      assert s[i + 1..] == Join(fields[1..]);
    }
  }

  /**
   * `header.split(' ')[1]`: None where JavaScript yields `undefined`, which is exactly when the
   * header holds no space; otherwise a field without spaces.
   */
  function SecondField(header: string): (r: Option<string>)
    ensures r.Some? <==> ' ' in header
    ensures r.Some? ==> ' ' !in r.value
  {
    var fields := Split(header);
    if |fields| >= 2 then Some(fields[1]) else None
  }

  /** `s.startsWith(prefix)`. */
  predicate StartsWith(s: string, prefix: string)
  {
    |prefix| <= |s| && s[..|prefix|] == prefix
  }

  /** A header the client builds as `Bearer <token>` hands the same token back. */
  lemma BearerRoundTrip(token: string)
    requires ' ' !in token
    ensures SecondField("Bearer " + token) == Some(token)
  {
    assert ' ' !in "Bearer";
    assert Join(["Bearer", token]) == "Bearer " + token;
    SplitJoin(["Bearer", token]);
  }

  /** A header with no space has no second field, so the token passed on is `undefined`. */
  lemma NoSpaceNoToken(header: string)
    requires ' ' !in header
    ensures SecondField(header) == None
  {
  }

  /**
   * The second field of a header that starts with `Bearer `: it always exists, contains no space,
   * and is everything after `Bearer ` up to the next space (or the end).
   */
  lemma {:induction false} BearerField(header: string)
    requires StartsWith(header, "Bearer ")
    ensures SecondField(header).Some?
    ensures var t := SecondField(header).value;
      ' ' !in t && StartsWith(header[7..], t) && (|t| == |header| - 7 || header[7 + |t|] == ' ')
  {
    assert header[6] == ' ' && ' ' !in header[..6];
    var fields := Split(header);
    assert IndexOfSpace(header) == 6;
    var rest := header[7..];
    assert fields == [header[..6]] + Split(rest);
    var rf := Split(rest);
    var t := rf[0];
    if |rf| == 1 {
      assert Join(rf) == t;
    } else {
      assert Join(rf) == t + " " + Join(rf[1..]);
      assert rest[..|t|] == t;
      assert rest[|t|] == ' ';
    }
  }
}
