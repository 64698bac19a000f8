/**
 * Classification of one comma group by the regular expression
 * `\[(.+)\]\[(.+)\]|(.+)\[(.+)\]|(.+)`, taking its first match as `strmap`
 * does. A backtracking matcher tries the alternatives in order, and each
 * greedy group as long as the rest still matches, so the match is found by
 * searching from the right.
 */
module Segments {
  import opened RangeTypes

  /** The three shapes a comma group can take. */
  datatype Segment =
    | Nested(outer: string, inner: string)   // [outer][inner]
    | Suffixed(head: string, inner: string)  // head[inner]
    | Plain(text: string)                    // no sub-range

  /** Index of the last `c` in `s`, or -1. */
  function LastIndex(s: string, c: char): (k: int)
    ensures -1 <= k < |s|
    ensures k >= 0 ==> s[k] == c
    ensures forall j :: k < j < |s| ==> s[j] != c
  {
    if s == [] then -1
    else if s[|s| - 1] == c then |s| - 1
    else LastIndex(s[..|s| - 1], c)
  }

  /** The largest k in [2, hi] where "][" starts, or -1. */
  function LastPairAt(s: string, hi: int): (k: int)
    requires hi + 1 < |s|
    ensures k == -1 || (2 <= k <= hi && s[k] == ']' && s[k + 1] == '[')
    ensures forall j :: 2 <= j <= hi && k < j ==> !(s[j] == ']' && s[j + 1] == '[')
    decreases hi
  {
    if hi < 2 then -1
    else if s[hi] == ']' && s[hi + 1] == '[' then hi
    else LastPairAt(s, hi - 1)
  }

  /** The largest k in [1, hi] holding '[', or -1. */
  function LastOpenAt(s: string, hi: int): (k: int)
    requires hi < |s|
    ensures k == -1 || (1 <= k <= hi && s[k] == '[')
    ensures forall j :: 1 <= j <= hi && k < j ==> s[j] != '['
    decreases hi
  {
    if hi < 1 then -1
    else if s[hi] == '[' then hi
    else LastOpenAt(s, hi - 1)
  }

  /**
   * The first match of the segment expression on `s`. The empty text has no
   * match at all. Otherwise the match starts at the front; what follows the
   * last ']' of a bracketed match is not part of it.
   */
  function Classify(s: string): (r: Result<Segment>)
    ensures r.Err? <==> s == []
    ensures r.Err? ==> r.error == NoMatch
    ensures r.Ok? && r.value.Nested? ==>
      var a, b := r.value.outer, r.value.inner;
      a != [] && b != [] && |a| + |b| + 4 <= |s| &&
      s[..|a| + |b| + 4] == "[" + a + "][" + b + "]" && ']' !in s[|a| + |b| + 4..]
    ensures r.Ok? && r.value.Suffixed? ==>
      var x, y := r.value.head, r.value.inner;
      x != [] && y != [] && |x| + |y| + 2 <= |s| &&
      s[..|x| + |y| + 2] == x + "[" + y + "]" && ']' !in s[|x| + |y| + 2..]
    ensures r.Ok? && r.value.Plain? ==> r.value.text == s
  {
    if s == [] then Err(NoMatch)
    else
      var q := LastIndex(s, ']');
      var i := if s[0] == '[' && q >= 5 then LastPairAt(s, q - 3) else -1;
      if i >= 2 then
        NestedSlices(s, i, q);
        Ok(Nested(s[1..i], s[i + 2..q]))
      else
        var p := if q >= 3 then LastOpenAt(s, q - 2) else -1;
        if p >= 1 then
          SuffixedSlices(s, p, q);
          Ok(Suffixed(s[..p], s[p + 1..q]))
        else Ok(Plain(s))
  }

  /** The text up to a closing ']' at q, read as `[A][B]` around the "][" at i. */
  lemma NestedSlices(s: string, i: int, q: int)
    requires 2 <= i && i + 3 <= q < |s|
    requires s[0] == '[' && s[i] == ']' && s[i + 1] == '[' && s[q] == ']'
    ensures s[..q + 1] == "[" + s[1..i] + "][" + s[i + 2..q] + "]"
  {
    assert s[..q + 1] == s[..1] + s[1..i] + s[i..i + 2] + s[i + 2..q] + s[q..q + 1];
  }

  /** The text up to a closing ']' at q, read as `X[Y]` around the '[' at p. */
  lemma SuffixedSlices(s: string, p: int, q: int)
    requires 1 <= p && p + 2 <= q < |s|
    requires s[p] == '[' && s[q] == ']'
    ensures s[..q + 1] == s[..p] + "[" + s[p + 1..q] + "]"
  {
    assert s[..q + 1] == s[..p] + s[p..p + 1] + s[p + 1..q] + s[q..q + 1];
  }

  /** A last ']' closes the text: it is found at the end. */
  lemma LastIndexAtEnd(s: string, c: char)
    requires s != [] && s[|s| - 1] == c
    ensures LastIndex(s, c) == |s| - 1
  {
  }

  /** `[a][b]` is the nested shape, when `b` holds no "][" of its own. */
  lemma ClassifyNested(a: string, b: string)
    requires a != [] && b != []
    requires forall j :: 0 <= j < |b| - 1 ==> !(b[j] == ']' && b[j + 1] == '[')
    ensures Classify("[" + a + "][" + b + "]") == Ok(Segment.Nested(a, b))
  {
    var s := "[" + a + "][" + b + "]";
    var q := |s| - 1;
    LastIndexAtEnd(s, ']');
    var k := LastPairAt(s, q - 3);
    NestedPair(a, b);
    assert s[1..k] == a;
    assert s[k + 2..q] == b;
  }

  /** In `[a][b]`, with no "][" inside `b`, the last "][" before the final ']' follows `a`. */
  lemma NestedPair(a: string, b: string)
    requires a != [] && b != []
    requires forall j :: 0 <= j < |b| - 1 ==> !(b[j] == ']' && b[j + 1] == '[')
    ensures var s := "[" + a + "][" + b + "]"; LastPairAt(s, |s| - 4) == |a| + 1
  {
    var s := "[" + a + "][" + b + "]";
    var q := |s| - 1;
    var i0 := |a| + 1;
    assert s[i0] == ']' && s[i0 + 1] == '[';
    forall j | i0 < j <= q - 3
      ensures !(s[j] == ']' && s[j + 1] == '[')
    {
      if j > i0 + 1 {
        assert s[j] == b[j - i0 - 2] && s[j + 1] == b[j - i0 - 1];
      }
    }
  }

  /** `x[y]` with no '[' in `x` or `y` is the suffixed shape. */
  lemma ClassifySuffixed(x: string, y: string)
    requires x != [] && y != []
    requires '[' !in x && '[' !in y
    ensures Classify(x + "[" + y + "]") == Ok(Segment.Suffixed(x, y))
  {
    var s := x + "[" + y + "]";
    var q := |s| - 1;
    LastIndexAtEnd(s, ']');
    assert s[0] == x[0];
    SuffixedOpen(x, y);
    var p := LastOpenAt(s, q - 2);
    assert s[..p] == x;
    assert s[p + 1..q] == y;
  }

  /** In `x[y]`, with no '[' in `x` or `y`, the last '[' before the final ']' follows `x`. */
  lemma SuffixedOpen(x: string, y: string)
    requires x != [] && y != []
    requires '[' !in x && '[' !in y
    ensures var s := x + "[" + y + "]"; LastOpenAt(s, |s| - 3) == |x|
  {
    var s := x + "[" + y + "]";
    assert s[|x|] == '[';
    forall j | |x| < j <= |s| - 3
      ensures s[j] != '['
    {
      assert s[j] == y[j - |x| - 1];
    }
  }

  /** Non-empty text without both kinds of bracket is plain. */
  lemma ClassifyPlain(t: string)
    requires t != []
    requires '[' !in t || ']' !in t
    ensures Classify(t) == Ok(Segment.Plain(t))
  {
    if ']' in t {
      assert t[0] != '[';
    }
  }
}
