/** Reading the token from an `Authorization` header: the header is split at every space, and
    when its first field is `Token` or `Bearer` the second field is the token. */
module Auth {
  import opened Js

  /** `s.split(" ")`: the fields between single spaces, so two spaces in a row give an empty
      field, and a string without spaces is one field. */
  function Split(s: string): (fields: seq<string>)
    ensures |fields| >= 1
    ensures forall i :: 0 <= i < |fields| ==> ' ' !in fields[i]
  {
    if s == [] then [""]
    else if s[0] == ' ' then [""] + Split(s[1..])
    else
      var rest := Split(s[1..]);
      [[s[0]] + rest[0]] + rest[1..]
  }

  /** The fields written back with a space between each two. */
  function Join(fields: seq<string>): string
    requires |fields| >= 1
  {
    if |fields| == 1 then fields[0] else fields[0] + " " + Join(fields[1..])
  }

  /** Splitting loses nothing: joining the fields gives the header back. */
  lemma {:induction false} JoinSplit(s: string)
    ensures Join(Split(s)) == s
  {
    if s != [] {
      JoinSplit(s[1..]);
      var rest := Split(s[1..]);
      if s[0] != ' ' {
        if |rest| > 1 {
          assert ([[s[0]] + rest[0]] + rest[1..])[1..] == rest[1..];
        }
      }
    }
  }

  /** Fields without spaces come back from their join unchanged. */
  lemma {:induction false} SplitJoin(fields: seq<string>)
    requires |fields| >= 1 && forall i :: 0 <= i < |fields| ==> ' ' !in fields[i]
    ensures Split(Join(fields)) == fields
  {
    if |fields| == 1 {
      SplitWord(fields[0], None);
    } else {
      SplitJoin(fields[1..]);
      SplitWord(fields[0], Some(Join(fields[1..])));
      assert fields == [fields[0]] + fields[1..];
    }
  }

  /** A word without spaces, then possibly a space and a tail, splits into the word and the
      tail's fields. */
  lemma {:induction false} SplitWord(w: string, tail: Option<string>)
    requires ' ' !in w
    ensures tail.None? ==> Split(w) == [w]
    ensures tail.Some? ==> Split(w + " " + tail.value) == [w] + Split(tail.value)
  {
    var s := if tail.None? then w else w + " " + tail.value;
    if w == [] {
      if tail.Some? {
        assert s[1..] == tail.value;
      }
    } else {
      SplitWord(w[1..], tail);
      assert s[1..] == if tail.None? then w[1..] else w[1..] + " " + tail.value;
      assert [w[0]] + w[1..] == w;
    }
  }

  /** `getTokenFromHeader(req)`: `None` is `undefined`. A missing or empty header, a first
      field other than `Token` or `Bearer` (the scheme is case-sensitive), or a header without
      a second field gives no token. */
  function TokenFromHeader(header: Option<string>): (token: Option<string>)
    ensures token.Some? ==> header.Some? && ' ' !in token.value
    ensures token.Some? <==>
      (header.Some? && header.value != "" && |Split(header.value)| >= 2
       && Split(header.value)[0] in {"Token", "Bearer"})
    ensures token.Some? ==> token.value == Split(header.value)[1]
  {
    if header.None? || header.value == "" then None
    else
      var fields := Split(header.value);
      if fields[0] == "Token" || fields[0] == "Bearer" then
        if |fields| >= 2 then Some(fields[1]) else None
      else None
  }

  /** `Token <t>` and `Bearer <t>` carry the token `t`, whatever follows it after a further
      space. */
  lemma TokenAfterScheme(scheme: string, t: string, rest: Option<string>)
    requires scheme == "Token" || scheme == "Bearer"
    requires ' ' !in t
    ensures rest.None? ==> TokenFromHeader(Some(scheme + " " + t)) == Some(t)
    ensures rest.Some? ==> TokenFromHeader(Some(scheme + " " + t + " " + rest.value)) == Some(t)
  {
    var tail := if rest.None? then t else t + " " + rest.value;
    SplitWord(t, rest);
    SchemeThenFields(scheme, tail);
    if rest.Some? {
      assert scheme + " " + t + " " + rest.value == scheme + " " + tail;
    }
  }

  /** After `Token ` or `Bearer `, the token is the first field of what follows. */
  lemma SchemeThenFields(scheme: string, tail: string)
    requires scheme == "Token" || scheme == "Bearer"
    ensures TokenFromHeader(Some(scheme + " " + tail)) == Some(Split(tail)[0])
  {
    SplitWord(scheme, Some(tail));
  }

  /** Any other first word, such as `bearer` or `Basic`, gives no token. */
  lemma OtherSchemeHasNoToken(scheme: string, rest: string)
    requires ' ' !in scheme && scheme != "Token" && scheme != "Bearer"
    ensures TokenFromHeader(Some(scheme + " " + rest)) == None
  {
    SplitWord(scheme, Some(rest));
  }

  /** A scheme with nothing after it gives no token. */
  lemma SchemeAloneHasNoToken(scheme: string)
    requires ' ' !in scheme
    ensures TokenFromHeader(Some(scheme)) == None
  {
    SplitWord(scheme, None);
  }
}
