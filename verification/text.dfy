/** String helpers the statement builder relies on: joining with a separator,
    Go's `strings.Contains`, and prefix/suffix tests. */
module Text {

  /** `parts` with `sep` between each consecutive pair (the shape Go's
      `strings.Join` produces, and the shape the builder's loops produce). */
  function Join(parts: seq<string>, sep: string): string
  {
    if |parts| == 0 then ""
    else if |parts| == 1 then parts[0]
    else parts[0] + sep + Join(parts[1..], sep)
  }

  predicate StartsWith(s: string, prefix: string)
  {
    |prefix| <= |s| && s[..|prefix|] == prefix
  }

  predicate EndsWith(s: string, suffix: string)
  {
    |suffix| <= |s| && s[|s| - |suffix|..] == suffix
  }

  /** `sub` occurs in `s` starting at position `i`. */
  ghost predicate OccursAt(s: string, sub: string, i: int)
  {
    0 <= i && i + |sub| <= |s| && s[i..i + |sub|] == sub
  }

  /** Go's `strings.Contains`: does `sub` occur anywhere in `s`?
      The empty string occurs in every string. */
  predicate Contains(s: string, sub: string)
  {
    |sub| <= |s| && (s[..|sub|] == sub || Contains(s[1..], sub))
  }

  /** `Contains` holds exactly when there is a position `sub` occurs at. */
  lemma {:induction false} ContainsOccurs(s: string, sub: string)
    ensures Contains(s, sub) <==> exists i :: OccursAt(s, sub, i)
  {
    if |s| < |sub| {
      assert forall i :: !OccursAt(s, sub, i);
    } else if s[..|sub|] == sub {
      assert OccursAt(s, sub, 0);
    } else {
      ContainsOccurs(s[1..], sub);
      ContainsShift(s, sub);
    }
  }

  /** Occurrences in `s` past its first position are the occurrences in `s[1..]`, shifted. */
  lemma ContainsShift(s: string, sub: string)
    requires |sub| <= |s| && s[..|sub|] != sub
    ensures (exists i :: OccursAt(s, sub, i)) <==> (exists j :: OccursAt(s[1..], sub, j))
  {
    if exists i :: OccursAt(s, sub, i) {
      var i :| OccursAt(s, sub, i);
      assert i != 0;
      assert s[1..][i - 1..i - 1 + |sub|] == s[i..i + |sub|];
      assert OccursAt(s[1..], sub, i - 1);
    }
    if exists j :: OccursAt(s[1..], sub, j) {
      var j :| OccursAt(s[1..], sub, j);
      assert s[1..][j..j + |sub|] == s[j + 1..j + 1 + |sub|];
      assert OccursAt(s, sub, j + 1);
    }
  }

  /** Appending one more part adds exactly one separator, before it. */
  lemma {:induction false} JoinAppend(parts: seq<string>, p: string, sep: string)
    requires |parts| > 0
    ensures Join(parts + [p], sep) == Join(parts, sep) + sep + p
  {
    if |parts| == 1 {
      assert parts + [p] == [parts[0], p];
    } else {
      assert (parts + [p])[1..] == parts[1..] + [p];
      JoinAppend(parts[1..], p, sep);
    }
  }

  /** The separator stands exactly between consecutive parts: cutting the
      parts at any inner position splits the joined text at one separator. */
  lemma {:induction false} JoinSplit(parts: seq<string>, sep: string, i: nat)
    requires 0 < i < |parts|
    ensures Join(parts, sep) == Join(parts[..i], sep) + sep + Join(parts[i..], sep)
  {
    if i == 1 {
      assert parts[..1] == [parts[0]];
      assert parts[1..] == parts[i..];
    } else {
      JoinSplit(parts[1..], sep, i - 1);
      assert parts[1..][..i - 1] == parts[..i][1..];
      assert parts[1..][i - 1..] == parts[i..];
    }
  }

  /** What a Go loop that appends part `i` and then, unless `i` is the last
      index, `sep` has produced after its first `k` iterations. */
  function JoinPrefix(parts: seq<string>, sep: string, k: nat): string
    requires k <= |parts|
  {
    Join(parts[..k], sep) + (if 0 < k < |parts| then sep else "")
  }

  /** One more iteration of such a loop extends the prefix; after the last
      iteration the loop has produced exactly `Join(parts, sep)`. */
  lemma JoinPrefixStep(parts: seq<string>, sep: string, k: nat)
    requires k < |parts|
    ensures JoinPrefix(parts, sep, k) + parts[k] + (if k + 1 != |parts| then sep else "")
              == JoinPrefix(parts, sep, k + 1)
    ensures JoinPrefix(parts, sep, |parts|) == Join(parts, sep)
  {
    assert parts[..k + 1] == parts[..k] + [parts[k]];
    if k > 0 {
      JoinAppend(parts[..k], parts[k], sep);
    } else {
      assert parts[..1] == [parts[0]];
    }
    assert parts[..|parts|] == parts;
  }

  /** Three pieces in a row: the first is a prefix, the last two a suffix,
      and nothing else is added. */
  function Concat3(a: string, b: string, c: string): (r: string)
    ensures StartsWith(r, a) && EndsWith(r, b + c)
    ensures |r| == |a| + |b| + |c|
  {
    assert a + b + c == a + (b + c);
    a + b + c
  }

  /** A suffix of a suffix is a suffix. */
  lemma EndsWithTrans(s: string, a: string, b: string, suffix: string)
    requires EndsWith(s, a + b) && EndsWith(b, suffix)
    ensures EndsWith(s, suffix)
  {
    assert s[|s| - |suffix|..] == (a + b)[|a + b| - |suffix|..];
  }

  /** Appending to an accumulator that holds `base + grown` keeps `base` in front. */
  lemma AppendAssoc(base: string, grown: string, piece: string)
    ensures base + grown + piece == base + (grown + piece)
  {
  }
}
