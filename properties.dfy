/**
 * What the range language promises, stated over whole inputs: the shapes
 * `strseq` recognises, the shape rules of `lstranges`, the segment forms of
 * `strmap`, and the worked examples of the source's documentation in general
 * form.
 */
module RangeProperties {
  import opened RangeTypes
  import opened Strings
  import opened Casting
  import opened Tokenizer
  import opened Segments
  import opened Ranges

  // ---------------------------------------------------------------- strseq

  /** Splitting `x`, sep, `y`, sep, `z` with separator-free parts yields exactly the parts. */
  lemma SplitThree(x: string, y: string, z: string, c: char)
    requires c !in x && c !in y && c !in z
    ensures Split(x + [c] + y + [c] + z, c) == [x, y, z]
  {
    var rest := y + [c] + z;
    assert x + [c] + y + [c] + z == x + [c] + rest;
    var tail := Split(rest, c);
    assert tail == [y, z] by {
      SplitAtFirst(y, z, c);
      SplitNoSeparator(z, c);
      assert [y] + [z] == [y, z];
    }
    SplitAtFirst(x, rest, c);
    assert [x] + [y, z] == [x, y, z];
  }

  /** '3' casts to the bare value 3, not to a tuple. */
  lemma StrSeqScalar(n: nat)
    ensures StrSeq(ShowNat(n)) == Ok(Scalar(n))
  {
    DigitsAvoid(ShowNat(n), ':');
    DigitsAvoid(ShowNat(n), '-');
    ParseShow(n);
  }

  /**
   * '-3' is not the integer -3: the '-' is read as a span separator, and the
   * empty text before it fails to cast.
   */
  lemma StrSeqNegative(n: nat)
    ensures StrSeq("-" + ShowNat(n)) == Err(CastFailed(""))
  {
    var x := ShowNat(n);
    var s := "-" + x;
    DigitsAvoid(x, ':');
    DigitsAvoid(x, '-');
    assert s == "" + ['-'] + x;
    assert ':' !in s && '-' in s;
    SplitAtFirst("", x, '-');
    SplitNoSeparator(x, '-');
    assert Split(s, '-') == ["", x];
    CastFirstFails("", x);
  }

  /** A first part that does not cast fails the whole tuple with that part. */
  lemma CastFirstFails(x: string, y: string)
    requires ParseInt(x).None?
    ensures CastAll([x, y]) == Err(CastFailed(x))
  {
    assert [x, y][..1] == [x];
    assert [x][..0] == [];
  }

  /** '3-6' casts to the pair (3, 6). */
  lemma StrSeqSpan(a: nat, b: nat)
    ensures StrSeq(ShowNat(a) + "-" + ShowNat(b)) == Ok(Tup([Scalar(a), Scalar(b)]))
  {
    var x, y := ShowNat(a), ShowNat(b);
    var s := x + "-" + y;
    DigitsAvoid(x, ':');
    DigitsAvoid(y, ':');
    DigitsAvoid(x, '-');
    DigitsAvoid(y, '-');
    assert s == x + ['-'] + y;
    SplitAtFirst(x, y, '-');
    SplitNoSeparator(y, '-');
    assert Split(s, '-') == [x, y];
    assert ':' !in s && '-' in s;
    ParseShow(a);
    ParseShow(b);
    CastPair(x, y, a, b);
    StrSeqTuple(s, '-', [a, b]);
    assert Scalars([a, b]) == [Scalar(a), Scalar(b)];
  }

  /** Two parts that cast to `a` and `b` give the values [a, b]. */
  lemma CastPair(x: string, y: string, a: int, b: int)
    requires ParseInt(x) == Some(a) && ParseInt(y) == Some(b)
    ensures CastAll([x, y]) == Ok([a, b])
  {
    var r := CastAll([x, y]);
    assert |r.value| == 2 && r.value[0] == a && r.value[1] == b;
    assert r.value == [a, b];
  }

  /** '3:2:7' casts to the triple (3, 2, 7); ':' wins over '-', so negative parts are allowed. */
  lemma StrSeqStep(a: int, step: int, b: int)
    ensures StrSeq(Show(a) + ":" + Show(step) + ":" + Show(b)) == Ok(Tup([Scalar(a), Scalar(step), Scalar(b)]))
  {
    var x, y, z := Show(a), Show(step), Show(b);
    ShowAvoidsColon(a);
    ShowAvoidsColon(step);
    ShowAvoidsColon(b);
    var s := x + ":" + y + ":" + z;
    assert s == x + [':'] + y + [':'] + z;
    assert s[|x|] == ':';
    SplitThree(x, y, z, ':');
    ParseShow(a);
    ParseShow(step);
    ParseShow(b);
    CastTriple(x, y, z, a, step, b);
    StrSeqTuple(s, ':', [a, step, b]);
    assert Scalars([a, step, b]) == [Scalar(a), Scalar(step), Scalar(b)];
  }

  /** A leaf split at its separator casts to the tuple of the parts' values. */
  lemma StrSeqTuple(s: string, sep: char, vs: seq<int>)
    requires (sep == ':' && ':' in s) || (sep == '-' && ':' !in s && '-' in s)
    requires CastAll(Split(s, sep)) == Ok(vs)
    ensures StrSeq(s) == Ok(Tup(Scalars(vs)))
  {
  }

  /** 'a:b' casts to the pair (a, b) for all integers: with a `:` present, a `-` is a sign. */
  lemma StrSeqColonPair(a: int, b: int)
    ensures StrSeq(Show(a) + ":" + Show(b)) == Ok(Tup([Scalar(a), Scalar(b)]))
  {
    var x, y := Show(a), Show(b);
    ShowAvoidsColon(a);
    ShowAvoidsColon(b);
    var s := x + ":" + y;
    assert s == x + [':'] + y;
    SplitAtFirst(x, y, ':');
    SplitNoSeparator(y, ':');
    assert Split(s, ':') == [x, y];
    assert s[|x|] == ':';
    ParseShow(a);
    ParseShow(b);
    CastPair(x, y, a, b);
    StrSeqTuple(s, ':', [a, b]);
    assert Scalars([a, b]) == [Scalar(a), Scalar(b)];
  }

  /** Three parts that cast to `a`, `b` and `c` give the values [a, b, c]. */
  lemma CastTriple(x: string, y: string, z: string, a: int, b: int, c: int)
    requires ParseInt(x) == Some(a) && ParseInt(y) == Some(b) && ParseInt(z) == Some(c)
    ensures CastAll([x, y, z]) == Ok([a, b, c])
  {
    var r := CastAll([x, y, z]);
    assert |r.value| == 3 && r.value[0] == a && r.value[1] == b && r.value[2] == c;
    assert r.value == [a, b, c];
  }

  lemma ShowAvoidsColon(n: int)
    ensures ':' !in Show(n)
  {
    if n < 0 {
      DigitsAvoid(ShowNat(-n), ':');
    } else {
      DigitsAvoid(ShowNat(n), ':');
    }
  }

  // ---------------------------------------------------------------- lstranges

  /** A list of scalars expands to itself: same elements, same order, no ranges added. */
  lemma LstRangesScalars(xs: seq<int>)
    ensures LstRanges(Lst(Scalars(xs))) == Ok(Lst(Scalars(xs)))
  {
    var ts := Scalars(xs);
    var parts := seq(|ts|, k requires 0 <= k < |ts| => Spliced(LstRanges(ts[k])));
    ConcatSingles(parts, ts);
  }

  /** A pair of scalars (a, b) expands to the inclusive range a..b. */
  lemma LstRangesSpan(a: int, b: int)
    ensures LstRanges(Tup([Scalar(a), Scalar(b)])) == Ok(Lst(Scalars(ERange(a, b))))
  {
  }

  /** A triple (a, s, b) expands to the stepped range erange(a, s, b); a zero step is an error. */
  lemma LstRangesStep(a: int, step: int, b: int)
    ensures step == 0 ==> LstRanges(Tup([Scalar(a), Scalar(step), Scalar(b)])) == Err(ZeroStep)
    ensures step != 0 ==>
      LstRanges(Tup([Scalar(a), Scalar(step), Scalar(b)])) == Ok(Lst(Scalars(ERangeStep(a, step, b).value)))
  {
  }

  /**
   * Any other tuple of at least two entries is read by its first two entries,
   * each expanded, the head first: a list head gives one [element, tail] pair
   * per element, a scalar head with a list tail the single pair [head, tail],
   * two scalars the inclusive range between them. Further entries are ignored.
   */
  lemma LstRangesPair(xs: seq<Tree>)
    requires |xs| >= 2 && |xs| != 3
    ensures LstRanges(xs[0]).Err? ==> LstRanges(Tup(xs)) == LstRanges(xs[0])
    ensures LstRanges(xs[0]).Ok? && LstRanges(xs[1]).Err? ==> LstRanges(Tup(xs)) == LstRanges(xs[1])
    ensures LstRanges(xs[0]).Ok? && LstRanges(xs[1]).Ok? ==>
      var head, bot, r := LstRanges(xs[0]).value, LstRanges(xs[1]).value, LstRanges(Tup(xs));
      (head.Lst? ==>
         r.Ok? && r.value.Lst? && |r.value.items| == |head.items| &&
         forall k :: 0 <= k < |head.items| ==> r.value.items[k] == Lst([head.items[k], bot])) &&
      (head.Scalar? && bot.Lst? ==> r == Ok(Lst([Lst([head, bot])]))) &&
      (head.Scalar? && bot.Scalar? ==> r == Ok(Lst(Scalars(ERange(head.n, bot.n)))))
  {
  }

  /**
   * A sub-range pair whose head is a span (a, b) and whose tail is a list:
   * one [a + k, tail] pair for every k, in order, the tail expanded once.
   */
  lemma LstRangesSubRange(a: int, b: int, inner: seq<Tree>)
    requires LstRanges(Lst(inner)).Ok?
    ensures var bot := LstRanges(Lst(inner)).value;
      LstRanges(Tup([Tup([Scalar(a), Scalar(b)]), Lst(inner)])) ==
      Ok(Lst(seq(|ERange(a, b)|, k requires 0 <= k < |ERange(a, b)| => Lst([Scalar(a + k), bot]))))
  {
    var xs := [Tup([Scalar(a), Scalar(b)]), Lst(inner)];
    LstRangesSpan(a, b);
    LstRangesListHead(xs, Scalars(ERange(a, b)));
    PairsOfSpan(a, b, LstRanges(Lst(inner)).value);
  }

  /** A list head gives one [element, tail] pair per element of its expansion, in order. */
  lemma LstRangesListHead(xs: seq<Tree>, hs: seq<Tree>)
    requires |xs| >= 2 && |xs| != 3
    requires LstRanges(xs[0]) == Ok(Lst(hs)) && LstRanges(xs[1]).Ok?
    ensures LstRanges(Tup(xs)) ==
      Ok(Lst(seq(|hs|, k requires 0 <= k < |hs| => Lst([hs[k], LstRanges(xs[1]).value]))))
  {
  }

  /** The pairs for the elements of erange(a, b), written by position. */
  lemma PairsOfSpan(a: int, b: int, bot: Tree)
    ensures var hs := Scalars(ERange(a, b));
      seq(|hs|, k requires 0 <= k < |hs| => Lst([hs[k], bot])) ==
      seq(|ERange(a, b)|, k requires 0 <= k < |ERange(a, b)| => Lst([Scalar(a + k), bot]))
  {
  }

  // ---------------------------------------------------------------- strmap

  /** The reference result `[int(x) for x in ps]`: `None` when some cast raises. */
  function IntList(ps: seq<string>): Option<seq<int>>
  {
    if forall i :: 0 <= i < |ps| ==> ParseInt(ps[i]).Some? then
      Some(seq(|ps|, i requires 0 <= i < |ps| => ParseInt(ps[i]).value))
    else None
  }

  /** Without brackets or spaces the comma groups are exactly the comma-separated pieces. */
  lemma TokensCommaList(s: string)
    requires '[' !in s && ']' !in s && ' ' !in s
    ensures Tokens(s) == Ok(Split(s, ','))
  {
    var ps := Split(s, ',');
    RemoveSpacesNoop(s);
    CountZero(s, '[');
    CountZero(s, ']');
    JoinSplit(s, ',');
    forall k | 0 <= k < |ps|
      ensures Balanced(ps[k])
    {
      NoBracketsInPiece(ps, k, s);
      CountZero(ps[k], '[');
      CountZero(ps[k], ']');
    }
    MergeBracketsBalanced(ps);
  }

  /** A bracket-free, range-free piece maps to one cast leaf, or fails when the cast fails. */
  lemma SegmentIntPiece(p: string)
    requires '[' !in p && ':' !in p && '-' !in p
    ensures MapSegment(p).Ok? <==> ParseInt(p).Some?
    ensures MapSegment(p).Ok? ==> MapSegment(p) == Ok([Scalar(ParseInt(p).value)])
  {
    if p != [] {
      ClassifyPlain(p);
    }
  }

  /** A bracket-free, range-free comma list maps to its cast pieces, one leaf each. */
  lemma StrMapCommaList(s: string)
    requires '[' !in s && ']' !in s && ':' !in s && '-' !in s && ' ' !in s
    ensures StrMap(s).Ok? <==> IntList(Split(s, ',')).Some?
    ensures StrMap(s).Ok? ==> StrMap(s).value == Scalars(IntList(Split(s, ',')).value)
  {
    var ps := Split(s, ',');
    TokensCommaList(s);
    JoinSplit(s, ',');
    var parts := seq(|ps|, k requires 0 <= k < |ps| => MapSegment(ps[k]));
    assert StrMap(s) == Concat(parts);
    forall k | 0 <= k < |ps|
      ensures parts[k].Ok? <==> ParseInt(ps[k]).Some?
      ensures parts[k].Ok? ==> parts[k] == Ok([Scalar(ParseInt(ps[k]).value)])
    {
      NoBracketsInPiece(ps, k, s);
      SegmentIntPiece(ps[k]);
    }
    ConcatCasts(ps, parts);
  }

  /** Per-piece results that each hold one cast leaf concatenate to the reference list. */
  lemma ConcatCasts(ps: seq<string>, parts: seq<Result<seq<Tree>>>)
    requires |parts| == |ps|
    requires forall k :: 0 <= k < |ps| ==> (parts[k].Ok? <==> ParseInt(ps[k]).Some?)
    requires forall k :: 0 <= k < |ps| ==> parts[k].Ok? ==> parts[k] == Ok([Scalar(ParseInt(ps[k]).value)])
    ensures Concat(parts).Ok? <==> IntList(ps).Some?
    ensures Concat(parts).Ok? ==> Concat(parts).value == Scalars(IntList(ps).value)
  {
    if IntList(ps).Some? {
      var vs := IntList(ps).value;
      var ts := Scalars(vs);
      forall k | 0 <= k < |parts|
        ensures parts[k] == Ok([ts[k]])
      {
        assert ts[k] == Scalar(vs[k]) && vs[k] == ParseInt(ps[k]).value;
      }
      ConcatSingles(parts, ts);
    }
  }

  /** A piece of a joined text holds no character the text does not hold. */
  lemma NoBracketsInPiece(ps: seq<string>, k: int, s: string)
    requires 0 <= k < |ps| && Join(ps, ",") == s
    ensures forall c :: c in ps[k] ==> c in s
  {
    JoinPieceIn(ps, ",", k);
  }

  lemma {:induction false} JoinPieceIn(ps: seq<string>, sep: string, k: int)
    requires 0 <= k < |ps|
    ensures forall c :: c in ps[k] ==> c in Join(ps, sep)
  {
    if |ps| > 1 {
      if k == 0 {
        assert Join(ps, sep) == ps[0] + (sep + Join(ps[1..], sep));
      } else {
        JoinPieceIn(ps[1..], sep, k - 1);
        assert Join(ps, sep) == ps[0] + sep + Join(ps[1..], sep);
      }
    }
  }

  /**
   * A bracket-free, range-free comma list of integers expands to exactly
   * `[int(x) for x in s.split(',')]`, and fails exactly when that raises.
   */
  lemma ExpandCommaList(s: string)
    requires '[' !in s && ']' !in s && ':' !in s && '-' !in s && ' ' !in s
    ensures Expand(s).Ok? <==> IntList(Split(s, ',')).Some?
    ensures Expand(s).Ok? ==> Expand(s).value == Lst(Scalars(IntList(Split(s, ',')).value))
  {
    StrMapCommaList(s);
    if IntList(Split(s, ',')).Some? {
      LstRangesScalars(IntList(Split(s, ',')).value);
    }
  }

  // ---------------------------------------------------------------- comma groups

  /** Text with no comma, bracket or space: it cannot open or close a group. */
  predicate Bare(t: string) { ',' !in t && '[' !in t && ']' !in t && ' ' !in t }

  lemma BracketCounts(x: string, y: string)
    requires '[' !in x && ']' !in x && '[' !in y && ']' !in y
    ensures Count(x + "[" + y, '[') == 1 && Count(x + "[" + y, ']') == 0
    ensures Count(x + "[" + y + "]", '[') == 1 && Count(x + "[" + y + "]", ']') == 1
  {
    CountZero(x, '[');
    CountZero(x, ']');
    CountZero(y, '[');
    CountZero(y, ']');
    CountAppend(x, "[", '[');
    CountAppend(x, "[", ']');
    CountAppend(x + "[", y, '[');
    CountAppend(x + "[", y, ']');
    CountAppend(x + "[" + y, "]", '[');
    CountAppend(x + "[" + y, "]", ']');
  }

  /** The comma-separated pieces of `x[y1,...,yn]`: x[y1, y2, ..., yn]. */
  function Wrapped(x: string, ys: seq<string>): seq<string>
    requires |ys| >= 1
  {
    var q1 := [x + "[" + ys[0]] + ys[1..];
    q1[..|ys| - 1] + [q1[|ys| - 1] + "]"]
  }

  lemma WrappedSplit(x: string, ys: seq<string>)
    requires |ys| >= 1 && Bare(x)
    requires forall i :: 0 <= i < |ys| ==> Bare(ys[i])
    ensures Split(x + "[" + Join(ys, ",") + "]", ',') == Wrapped(x, ys)
  {
    var n := |ys|;
    var q1 := [x + "[" + ys[0]] + ys[1..];
    var q2 := Wrapped(x, ys);
    JoinExtendHead(x + "[", ys, ",");
    JoinExtendLast(q1, "]", ",");
    forall i | 0 <= i < n
      ensures ',' !in q2[i]
    {
      assert i == 0 || q1[i] == ys[i];
    }
    SplitJoin(q2, ',');
  }

  lemma WrappedPrefixOpen(x: string, ys: seq<string>, k: int)
    requires |ys| >= 1 && Bare(x)
    requires forall i :: 0 <= i < |ys| ==> Bare(ys[i])
    requires 1 <= k < |ys|
    ensures !Balanced(Join(Wrapped(x, ys)[..k], ","))
  {
    var q1 := [x + "[" + ys[0]] + ys[1..];
    var yk := ys[..k];
    assert Wrapped(x, ys)[..k] == q1[..k];
    assert q1[..k] == [q1[0]] + ys[1..k];
    assert yk[1..] == ys[1..k] && yk[0] == ys[0];
    JoinExtendHead(x + "[", yk, ",");
    JoinAvoids(yk, ",", '[');
    JoinAvoids(yk, ",", ']');
    BracketCounts(x, Join(yk, ","));
  }

  /**
   * A comma inside brackets does not separate comma groups: `x[y1,...,yn]`
   * stays one group.
   */
  lemma TokensBracketedList(x: string, ys: seq<string>)
    requires |ys| >= 1 && Bare(x)
    requires forall i :: 0 <= i < |ys| ==> Bare(ys[i])
    ensures Tokens(x + "[" + Join(ys, ",") + "]") == Ok([x + "[" + Join(ys, ",") + "]"])
  {
    WrappedGroup(x, ys);
    TokensOneGroup(x + "[" + Join(ys, ",") + "]");
  }

  /** `x[y1,...,yn]` is space-free and balanced, and its comma pieces merge back into it. */
  lemma WrappedGroup(x: string, ys: seq<string>)
    requires |ys| >= 1 && Bare(x)
    requires forall i :: 0 <= i < |ys| ==> Bare(ys[i])
    ensures var s := x + "[" + Join(ys, ",") + "]";
      RemoveSpaces(s) == s && Balanced(s) && MergeBrackets(Split(s, ',')) == [s]
  {
    var y := Join(ys, ",");
    var s := x + "[" + y + "]";
    JoinAvoids(ys, ",", '[');
    JoinAvoids(ys, ",", ']');
    assert RemoveSpaces(s) == s by {
      JoinAvoids(ys, ",", ' ');
      assert ' ' !in s;
      RemoveSpacesNoop(s);
    }
    assert Balanced(s) by {
      BracketCounts(x, y);
    }
    MergeWrapped(x, ys);
  }

  /** Space-free balanced text whose comma pieces merge back into it is one comma group. */
  lemma TokensOneGroup(s: string)
    requires RemoveSpaces(s) == s && Balanced(s)
    requires MergeBrackets(Split(s, ',')) == [s]
    ensures Tokens(s) == Ok([s])
  {
    TokensUnfold(s);
  }

  /** The comma pieces of `x[y1,...,yn]` merge back into the whole text. */
  lemma MergeWrapped(x: string, ys: seq<string>)
    requires |ys| >= 1 && Bare(x)
    requires forall i :: 0 <= i < |ys| ==> Bare(ys[i])
    ensures MergeBrackets(Split(x + "[" + Join(ys, ",") + "]", ',')) == [x + "[" + Join(ys, ",") + "]"]
  {
    var s := x + "[" + Join(ys, ",") + "]";
    var q2 := Wrapped(x, ys);
    WrappedSplit(x, ys);
    JoinSplit(s, ',');
    forall k | 1 <= k < |q2|
      ensures !Balanced(Join(q2[..k], ","))
    {
      WrappedPrefixOpen(x, ys, k);
    }
    MergeAllOpen(q2);
  }

  /** The comma groups of `s` in terms of the merge of its comma pieces. */
  lemma TokensUnfold(s: string)
    ensures var commas := MergeBrackets(Split(RemoveSpaces(s), ','));
      Tokens(s) == if Balanced(commas[|commas| - 1]) then Ok(commas) else Err(Unbalanced)
  {
  }

  // ---------------------------------------------------------------- segments

  /**
   * A `[A][B]` group: B is parsed first, then one pair (a, strmap(B)) for
   * every tree a of strmap(A), in order, all sharing the same right side.
   */
  lemma SegmentNested(a: string, b: string)
    requires a != [] && b != []
    requires forall j :: 0 <= j < |b| - 1 ==> !(b[j] == ']' && b[j + 1] == '[')
    ensures var r := MapSegment("[" + a + "][" + b + "]");
      (StrMap(b).Err? ==> r == StrMap(b)) &&
      (StrMap(b).Ok? && StrMap(a).Err? ==> r == StrMap(a)) &&
      (StrMap(b).Ok? && StrMap(a).Ok? ==>
         r.Ok? && |r.value| == |StrMap(a).value| &&
         forall k :: 0 <= k < |r.value| ==> r.value[k] == Tup([StrMap(a).value[k], Lst(StrMap(b).value)]))
  {
    ClassifyNested(a, b);
  }

  /** An `X[Y]` group: exactly one pair (strseq(X), strmap(Y)). */
  lemma SegmentSuffixed(x: string, y: string)
    requires x != [] && y != []
    requires '[' !in x && '[' !in y
    ensures var r := MapSegment(x + "[" + y + "]");
      (StrSeq(x).Err? ==> r == Err(StrSeq(x).error)) &&
      (StrSeq(x).Ok? && StrMap(y).Err? ==> r == StrMap(y)) &&
      (StrSeq(x).Ok? && StrMap(y).Ok? ==> r == Ok([Tup([StrSeq(x).value, Lst(StrMap(y).value)])]))
  {
    ClassifySuffixed(x, y);
  }

  /** A plain group: exactly one `strseq` leaf. */
  lemma SegmentPlain(t: string)
    requires t != [] && '[' !in t
    ensures var r := MapSegment(t);
      (r.Ok? <==> StrSeq(t).Ok?) &&
      (r.Ok? ==> r.value == [StrSeq(t).value]) &&
      (r.Err? ==> r.error == StrSeq(t).error)
  {
    ClassifyPlain(t);
  }

  /** A single result concatenates to itself. */
  lemma ConcatOne(r: Result<seq<Tree>>)
    ensures Concat([r]) == r
  {
    assert [r][..0] == [];
    assert Concat([r][..0]) == Ok([]);
    if r.Ok? {
      assert [] + r.value == r.value;
    }
  }

  /** `x[y1,...,yn]` maps to the single pair (strseq(x), strmap(y1,...,yn)). */
  lemma StrMapSuffixed(x: string, ys: seq<string>)
    requires |ys| >= 1 && Bare(x) && x != [] && Join(ys, ",") != []
    requires forall i :: 0 <= i < |ys| ==> Bare(ys[i])
    ensures StrMap(x + "[" + Join(ys, ",") + "]") == MapSegment(x + "[" + Join(ys, ",") + "]")
    ensures var y := Join(ys, ","); var r := StrMap(x + "[" + y + "]");
      (StrSeq(x).Err? ==> r == Err(StrSeq(x).error)) &&
      (StrSeq(x).Ok? && StrMap(y).Err? ==> r == StrMap(y)) &&
      (StrSeq(x).Ok? && StrMap(y).Ok? ==> r == Ok([Tup([StrSeq(x).value, Lst(StrMap(y).value)])]))
  {
    var y := Join(ys, ",");
    var s := x + "[" + y + "]";
    TokensBracketedList(x, ys);
    var parts := seq(1, k requires 0 <= k < 1 => MapSegment([s][k]));
    assert parts == [MapSegment(s)];
    ConcatOne(MapSegment(s));
    JoinAvoids(ys, ",", '[');
    SegmentSuffixed(x, y);
  }

  // ---------------------------------------------------------------- end to end

  /** A group without brackets, commas or spaces maps to the one `strseq` leaf it spells. */
  lemma StrMapSingle(s: string)
    requires s != [] && Bare(s)
    ensures StrSeq(s).Ok? ==> StrMap(s) == Ok([StrSeq(s).value])
    ensures StrSeq(s).Err? ==> StrMap(s) == Err(StrSeq(s).error)
  {
    TokensCommaList(s);
    SplitNoSeparator(s, ',');
    var parts := seq(1, k requires 0 <= k < 1 => MapSegment([s][k]));
    assert parts == [MapSegment(s)];
    ConcatOne(MapSegment(s));
    SegmentPlain(s);
  }

  /** Expanding a one-item list splices in the expansion of that item. */
  lemma LstRangesOne(t: Tree)
    ensures LstRanges(t).Err? ==> LstRanges(Lst([t])) == LstRanges(t)
    ensures LstRanges(t).Ok? && LstRanges(t).value.Lst? ==> LstRanges(Lst([t])) == LstRanges(t)
    ensures LstRanges(t).Ok? && !LstRanges(t).value.Lst? ==> LstRanges(Lst([t])) == Ok(Lst([LstRanges(t).value]))
  {
    var parts := seq(1, k requires 0 <= k < 1 => Spliced(LstRanges([t][k])));
    assert parts == [Spliced(LstRanges(t))];
    ConcatOne(Spliced(LstRanges(t)));
  }

  /** A decimal number is a bare group. */
  lemma ShowNatBare(n: nat)
    ensures Bare(ShowNat(n)) && ':' !in ShowNat(n) && '-' !in ShowNat(n)
  {
    var x := ShowNat(n);
    DigitsAvoid(x, ',');
    DigitsAvoid(x, '[');
    DigitsAvoid(x, ']');
    DigitsAvoid(x, ' ');
    DigitsAvoid(x, ':');
    DigitsAvoid(x, '-');
  }

  /** 'a-b' expands to every integer from a to b inclusive. */
  lemma ExpandSpan(a: nat, b: nat)
    ensures Expand(ShowNat(a) + "-" + ShowNat(b)) == Ok(Lst(Scalars(ERange(a, b))))
  {
    var s := ShowNat(a) + "-" + ShowNat(b);
    ShowNatBare(a);
    ShowNatBare(b);
    StrSeqSpan(a, b);
    StrMapSingle(s);
    LstRangesSpan(a, b);
    LstRangesOne(Tup([Scalar(a), Scalar(b)]));
  }

  /** 'n' expands to the one-element list [n]. */
  lemma ExpandScalar(n: nat)
    ensures Expand(ShowNat(n)) == Ok(Lst([Scalar(n)]))
  {
    ShowNatBare(n);
    StrSeqScalar(n);
    StrMapSingle(ShowNat(n));
    LstRangesOne(Scalar(n));
  }

  /** Decimal text of any integer is a bare group. */
  lemma ShowBare(n: int)
    ensures Bare(Show(n)) && Show(n) != []
  {
    if n < 0 {
      ShowNatBare(-n);
      assert Show(n) == ['-'] + ShowNat(-n);
    } else {
      ShowNatBare(n);
    }
  }

  /** 'a:s:b' expands to erange(a, s, b), and fails with a zero step. */
  lemma ExpandStep(a: int, step: int, b: int)
    ensures var e := Expand(Show(a) + ":" + Show(step) + ":" + Show(b));
      (step == 0 ==> e == Err(ZeroStep)) &&
      (step != 0 ==> e == Ok(Lst(Scalars(ERangeStep(a, step, b).value))))
  {
    var s := Show(a) + ":" + Show(step) + ":" + Show(b);
    ShowBare(a);
    ShowBare(step);
    ShowBare(b);
    assert Bare(s);
    StrSeqStep(a, step, b);
    StrMapSingle(s);
    LstRangesStep(a, step, b);
    LstRangesOne(Tup([Scalar(a), Scalar(step), Scalar(b)]));
  }

  /** `x[y]` with both sides bare maps to the single pair (strseq(x), [strseq(y)]). */
  lemma StrMapSuffixedSingle(x: string, y: string)
    requires Bare(x) && Bare(y) && x != [] && y != []
    requires StrSeq(x).Ok? && StrSeq(y).Ok?
    ensures StrMap(x + "[" + y + "]") == Ok([Tup([StrSeq(x).value, Lst([StrSeq(y).value])])])
  {
    assert Join([y], ",") == y;
    StrMapSuffixed(x, [y]);
    StrMapSingle(y);
  }

  /** The text 'a-b'. */
  function SpanText(a: nat, b: nat): string
  {
    ShowNat(a) + "-" + ShowNat(b)
  }

  /** 'a-b' is a bare group. */
  lemma SpanBare(a: nat, b: nat)
    ensures Bare(SpanText(a, b))
  {
    ShowNatBare(a);
    ShowNatBare(b);
  }

  /** 'a-b[c-d]' maps to the single pair ((a, b), [(c, d)]). */
  lemma StrMapSubRange(a: nat, b: nat, c: nat, d: nat)
    ensures StrMap(SpanText(a, b) + "[" + SpanText(c, d) + "]") ==
      Ok([Tup([Tup([Scalar(a), Scalar(b)]), Lst([Tup([Scalar(c), Scalar(d)])])])])
  {
    SpanBare(a, b);
    SpanBare(c, d);
    StrSeqSpan(a, b);
    StrSeqSpan(c, d);
    StrMapSuffixedSingle(SpanText(a, b), SpanText(c, d));
  }

  /**
   * 'a-b[c-d]' expands to one pair [k, [c, ..., d]] for every k from a to b,
   * in order.
   */
  lemma ExpandSubRange(a: nat, b: nat, c: nat, d: nat)
    ensures Expand(SpanText(a, b) + "[" + SpanText(c, d) + "]") ==
      Ok(Lst(seq(|ERange(a, b)|, k requires 0 <= k < |ERange(a, b)| =>
        Lst([Scalar(a + k), Lst(Scalars(ERange(c, d)))]))))
  {
    StrMapSubRange(a, b, c, d);
    var inner := [Tup([Scalar(c), Scalar(d)])];
    LstRangesSpan(c, d);
    LstRangesOne(Tup([Scalar(c), Scalar(d)]));
    LstRangesSubRange(a, b, inner);
    LstRangesOne(Tup([Tup([Scalar(a), Scalar(b)]), Lst(inner)]));
  }

  /** 'n[c-d]', a scalar head with a list tail, expands to the single pair [n, [c, ..., d]]. */
  lemma ExpandScalarHead(n: nat, c: nat, d: nat)
    ensures Expand(ShowNat(n) + "[" + SpanText(c, d) + "]") ==
      Ok(Lst([Lst([Scalar(n), Lst(Scalars(ERange(c, d)))])]))
  {
    ShowNatBare(n);
    SpanBare(c, d);
    StrSeqScalar(n);
    StrSeqSpan(c, d);
    StrMapSuffixedSingle(ShowNat(n), SpanText(c, d));
    var span := Tup([Scalar(c), Scalar(d)]);
    var pair := Tup([Scalar(n), Lst([span])]);
    LstRangesSpan(c, d);
    LstRangesOne(span);
    LstRangesPair(pair.items);
    LstRangesOne(pair);
  }

  /** The first '[' of `name[rest` is the one after the name when the name has none. */
  lemma FirstIndexAfter(name: string, rest: string)
    requires '[' !in name
    ensures FirstIndex(name + "[" + rest, '[') == |name|
  {
    var s := name + "[" + rest;
    var k := FirstIndex(s, '[');
    assert s[..|name|] == name;
    assert s[|name|] == '[';
  }

  /** After a name free of '[', all the rest is the index text. */
  lemma FileIndexAfterName(name: string, rest: string)
    requires '[' !in name
    ensures FileIndex(name + "[" + rest) == IndexAfter(name, rest)
  {
    var f := name + "[" + rest;
    FirstIndexAfter(name, rest);
    assert f[..|name|] == name;
    assert f[|name| + 1..] == rest;
  }

  /**
   * `name[body]` with a name free of '[' splits into the name and the
   * expansion of the body, a one-element expansion standing for its element.
   */
  lemma FileIndexBracketed(name: string, body: string)
    requires '[' !in name
    ensures var r := FileIndex(name + "[" + body + "]");
      (r.Ok? <==> Expand(body).Ok?) &&
      (r.Ok? ==> r.value == (name, Some(Collapse(Expand(body).value.items)))) &&
      (r.Err? ==> r.error == Expand(body).error)
  {
    var rest := body + "]";
    assert name + "[" + body + "]" == name + "[" + rest;
    assert rest[..|rest| - 1] == body;
    FileIndexAfterName(name, rest);
  }

  /** The closing ']' is optional: `name[body` reads like `name[body]`. */
  lemma FileIndexUnclosed(name: string, body: string)
    requires '[' !in name && body != [] && body[|body| - 1] != ']'
    ensures FileIndex(name + "[" + body) == FileIndex(name + "[" + body + "]")
  {
    FileIndexAfterName(name, body);
    FileIndexBracketed(name, body);
  }

  /** 'file[3]' names the single index 3, not a one-element list. */
  lemma FileIndexScalar(name: string, n: nat)
    requires '[' !in name
    ensures FileIndex(name + "[" + ShowNat(n) + "]") == Ok((name, Some(Scalar(n))))
  {
    FileIndexBracketed(name, ShowNat(n));
    ExpandScalar(n);
  }

  /** 'file[a-b]' names the list of indices a..b inclusive (one index when a == b). */
  lemma FileIndexSpan(name: string, a: nat, b: nat)
    requires '[' !in name
    ensures FileIndex(name + "[" + SpanText(a, b) + "]") == Ok((name, Some(Collapse(Scalars(ERange(a, b))))))
  {
    FileIndexBracketed(name, SpanText(a, b));
    ExpandSpan(a, b);
  }

  // ---------------------------------------------------------------- failures

  /** An empty string has no group the pattern can match. */
  lemma StrMapEmpty()
    ensures StrMap("") == Err(NoMatch)
  {
    TokensCommaList("");
    SplitNoSeparator("", ',');
    var parts := seq(1, k requires 0 <= k < 1 => MapSegment([""][k]));
    assert parts == [MapSegment("")];
    ConcatOne(MapSegment(""));
  }

  /** An empty group between two commas, as in '1,,2', fails once the groups before it succeed. */
  lemma StrMapEmptyGroup(x: string, y: string)
    requires Bare(x) && Bare(y) && x != [] && StrSeq(x).Ok?
    ensures StrMap(x + ",," + y) == Err(NoMatch)
  {
    var tokens := [x, "", y];
    TokensEmptyGroup(x, y);
    var parts := seq(3, k requires 0 <= k < 3 => MapSegment(tokens[k]));
    SegmentPlain(x);
    assert parts[..1] == [parts[0]];
    ConcatOne(parts[0]);
    assert parts[1] == Err(NoMatch);
    ConcatStops(parts, 1);
  }

  /** The comma groups of `x,,y` are `x`, the empty text and `y`. */
  lemma TokensEmptyGroup(x: string, y: string)
    requires Bare(x) && Bare(y)
    ensures Tokens(x + ",," + y) == Ok([x, "", y])
  {
    var s := x + ",," + y;
    assert s == x + [','] + "" + [','] + y;
    SplitThree(x, "", y, ',');
    TokensCommaList(s);
  }

  // ---------------------------------------------------------------- examples
  //
  // Each example receives its text as a parameter fixed by `requires` rather
  // than writing the string literal into the `ensures`: a literal there is
  // unfolded character by character through every function applied to it,
  // which makes the proof far more expensive.

  /** '1-3[2-3]' expands to [[1, [2, 3]], [2, [2, 3]], [3, [2, 3]]]. */
  lemma ExpandSubRangeExample(s: string)
    requires s == "1-3[2-3]"
    ensures Expand(s) ==
      Ok(Lst([Lst([Scalar(1), Lst([Scalar(2), Scalar(3)])]),
              Lst([Scalar(2), Lst([Scalar(2), Scalar(3)])]),
              Lst([Scalar(3), Lst([Scalar(2), Scalar(3)])])]))
  {
    assert s == SpanText(1, 3) + "[" + SpanText(2, 3) + "]";
    ExpandSubRange(1, 3, 2, 3);
    SubRangeValueExample();
  }

  /** The expansion `ExpandSubRange` gives for 1, 3, 2, 3, written out. */
  lemma SubRangeValueExample()
    ensures seq(|ERange(1, 3)|, k requires 0 <= k < |ERange(1, 3)| =>
        Lst([Scalar(1 + k), Lst(Scalars(ERange(2, 3)))])) ==
      [Lst([Scalar(1), Lst([Scalar(2), Scalar(3)])]),
       Lst([Scalar(2), Lst([Scalar(2), Scalar(3)])]),
       Lst([Scalar(3), Lst([Scalar(2), Scalar(3)])])]
  {
    var bot := Lst([Scalar(2), Scalar(3)]);
    assert Scalars(ERange(2, 3)) == [Scalar(2), Scalar(3)];
    var r := seq(|ERange(1, 3)|, k requires 0 <= k < |ERange(1, 3)| =>
      Lst([Scalar(1 + k), Lst(Scalars(ERange(2, 3)))]));
    assert |r| == 3;
    assert r == [Lst([Scalar(1), bot]), Lst([Scalar(2), bot]), Lst([Scalar(3), bot])];
  }

  /** A decimal group maps to its one value. */
  lemma SegmentScalar(n: nat)
    ensures MapSegment(ShowNat(n)) == Ok([Scalar(n)])
  {
    ShowNatBare(n);
    StrSeqScalar(n);
    SegmentPlain(ShowNat(n));
  }

  /** An 'a-b' group maps to its one pair (a, b). */
  lemma SegmentSpan(a: nat, b: nat)
    ensures MapSegment(SpanText(a, b)) == Ok([Tup([Scalar(a), Scalar(b)])])
  {
    SpanBare(a, b);
    StrSeqSpan(a, b);
    SegmentPlain(SpanText(a, b));
  }

  /** The comma groups of '1,2,3-6' are '1', '2' and '3-6'. */
  lemma TokensListExample(s: string)
    requires s == "1,2,3-6"
    ensures Tokens(s) == Ok([ShowNat(1), ShowNat(2), SpanText(3, 6)])
  {
    var tokens := [ShowNat(1), ShowNat(2), SpanText(3, 6)];
    assert s == tokens[0] + [','] + tokens[1] + [','] + tokens[2];
    SplitThree(tokens[0], tokens[1], tokens[2], ',');
    TokensCommaList(s);
  }

  /** '1,2,3-6' maps to the trees 1, 2 and (3, 6). */
  lemma StrMapListExample(s: string)
    requires s == "1,2,3-6"
    ensures StrMap(s) == Ok([Scalar(1), Scalar(2), Tup([Scalar(3), Scalar(6)])])
  {
    TokensListExample(s);
    var tokens := [ShowNat(1), ShowNat(2), SpanText(3, 6)];
    SegmentScalar(1);
    SegmentScalar(2);
    SegmentSpan(3, 6);
    var trees := [Scalar(1), Scalar(2), Tup([Scalar(3), Scalar(6)])];
    var parts := seq(3, k requires 0 <= k < 3 => MapSegment(tokens[k]));
    ConcatSingles(parts, trees);
  }

  /** '1:2:7' expands to [1, 3, 5, 7], both ends included. */
  lemma ExpandStepExample(t: string)
    requires t == "1:2:7"
    ensures Expand(t) == Ok(Lst([Scalar(1), Scalar(3), Scalar(5), Scalar(7)]))
  {
    assert t == Show(1) + ":" + Show(2) + ":" + Show(7) by {
      assert Show(1) == "1" && Show(2) == "2" && Show(7) == "7";
    }
    ExpandStep(1, 2, 7);
    StepValueExample();
    assert Scalars([1, 3, 5, 7]) == [Scalar(1), Scalar(3), Scalar(5), Scalar(7)];
  }

  /** The stepped range from 1 by 2 up to 7. */
  lemma StepValueExample()
    ensures ERangeStep(1, 2, 7) == Ok([1, 3, 5, 7])
  {
    var r := ERangeStep(1, 2, 7).value;
    assert 1 + |r| * 2 > 7;
    assert |r| == 4 && r[0] == 1 && r[1] == 3 && r[2] == 5 && r[3] == 7;
    assert r == [1, 3, 5, 7];
  }

  /** The trees 1, 2 and (3, 6) expand to [1, 2, 3, 4, 5, 6]. */
  lemma LstRangesListExample()
    ensures LstRanges(Lst([Scalar(1), Scalar(2), Tup([Scalar(3), Scalar(6)])])) ==
      Ok(Lst([Scalar(1), Scalar(2), Scalar(3), Scalar(4), Scalar(5), Scalar(6)]))
  {
    var trees := [Scalar(1), Scalar(2), Tup([Scalar(3), Scalar(6)])];
    var span := [Scalar(3), Scalar(4), Scalar(5), Scalar(6)];
    LstRangesSpan(3, 6);
    assert Scalars(ERange(3, 6)) == span;
    var spliced := seq(3, k requires 0 <= k < 3 => Spliced(LstRanges(trees[k])));
    assert spliced[0] == Ok([Scalar(1)]);
    assert spliced[1] == Ok([Scalar(2)]);
    assert spliced[2] == Ok(span);
    assert spliced == [Ok([Scalar(1)]), Ok([Scalar(2)]), Ok(span)];
    ConcatListExample(span);
  }

  /** Splicing [1], [2] and `span` one after the other. */
  lemma ConcatListExample(span: seq<Tree>)
    requires span == [Scalar(3), Scalar(4), Scalar(5), Scalar(6)]
    ensures Concat([Ok([Scalar(1)]), Ok([Scalar(2)]), Ok(span)]) ==
      Ok([Scalar(1), Scalar(2), Scalar(3), Scalar(4), Scalar(5), Scalar(6)])
  {
    var rs := [Ok([Scalar(1)]), Ok([Scalar(2)]), Ok(span)];
    var head := [Scalar(1), Scalar(2)];
    assert rs[..2] == [Ok([Scalar(1)]), Ok([Scalar(2)])];
    ConcatSingles(rs[..2], head);
    ConcatStep(rs, 2, head);
    assert rs[..3] == rs;
    assert head + span == [Scalar(1), Scalar(2), Scalar(3), Scalar(4), Scalar(5), Scalar(6)];
  }

  /** '1,2,3-6' expands to [1, 2, 3, 4, 5, 6]. */
  lemma ExpandListExample(s: string)
    requires s == "1,2,3-6"
    ensures Expand(s) == Ok(Lst([Scalar(1), Scalar(2), Scalar(3), Scalar(4), Scalar(5), Scalar(6)]))
  {
    StrMapListExample(s);
    LstRangesListExample();
  }

  /** 'file[1,2,3-6]' names the file 'file' and the indices [1, 2, 3, 4, 5, 6]. */
  lemma FileIndexExample(f: string)
    requires f == "file[1,2,3-6]"
    ensures FileIndex(f) ==
      Ok(("file", Some(Lst([Scalar(1), Scalar(2), Scalar(3), Scalar(4), Scalar(5), Scalar(6)]))))
  {
    assert f == "file" + "[" + "1,2,3-6" + "]";
    FileIndexBracketed("file", "1,2,3-6");
    ExpandListExample("1,2,3-6");
  }
}
