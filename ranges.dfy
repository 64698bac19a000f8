/**
 * The range language proper: casting leaves (`strseq`), inclusive ranges
 * (`erange`), parsing a whole selection string into a tree (`strmap`),
 * expanding the tree (`lstranges`) and splitting an indexed file name
 * (`fileindex`).
 */
module Ranges {
  import opened RangeTypes
  import opened Strings
  import opened Casting
  import opened Tokenizer
  import opened Segments

  // ---------------------------------------------------------------- strseq

  /** Python `tuple(map(int, parts))`: aborts at the first part the cast rejects. */
  function CastAll(parts: seq<string>): (r: Result<seq<int>>)
    ensures r.Ok? <==> forall i :: 0 <= i < |parts| ==> ParseInt(parts[i]).Some?
    ensures r.Ok? ==> |r.value| == |parts|
    ensures r.Ok? ==> forall i :: 0 <= i < |parts| ==> r.value[i] == ParseInt(parts[i]).value
    ensures r.Err? ==>
      exists i :: 0 <= i < |parts| && r.error == CastFailed(parts[i]) &&
                  ParseInt(parts[i]).None? && forall j :: 0 <= j < i ==> ParseInt(parts[j]).Some?
    decreases |parts|
  {
    if parts == [] then Ok([])
    else
      var init, last := parts[..|parts| - 1], parts[|parts| - 1];
      assert forall i :: 0 <= i < |init| ==> init[i] == parts[i];
      var prev :- CastAll(init);
      match ParseInt(last)
      case None => Err(CastFailed(last))
      case Some(v) => Ok(prev + [v])
  }

  /** What `strseq` promises when it splits `s` at `sep`: a tuple, one cast value per part, in order. */
  ghost predicate CastTuple(s: string, sep: char, r: Result<Tree>)
  {
    var parts := Split(s, sep);
    |parts| >= 2 &&
    (r.Ok? <==> forall i :: 0 <= i < |parts| ==> ParseInt(parts[i]).Some?) &&
    (r.Ok? ==>
       r.value.Tup? && |r.value.items| == |parts| &&
       forall i :: 0 <= i < |parts| ==> r.value.items[i] == Scalar(ParseInt(parts[i]).value)) &&
    (r.Err? ==>
       exists i :: 0 <= i < |parts| && r.error == CastFailed(parts[i]) &&
                   ParseInt(parts[i]).None? && forall j :: 0 <= j < i ==> ParseInt(parts[j]).Some?)
  }

  /**
   * Cast a bracket-free leaf: with ':' it is a tuple of the ':'-separated
   * parts, else with '-' a tuple of the '-'-separated parts, else one value.
   */
  function StrSeq(s: string): (r: Result<Tree>)
    ensures ':' in s ==> CastTuple(s, ':', r)
    ensures ':' !in s && '-' in s ==> CastTuple(s, '-', r)
    ensures ':' !in s && '-' !in s ==>
      (r.Ok? <==> ParseInt(s).Some?) &&
      (r.Ok? ==> r.value == Scalar(ParseInt(s).value)) &&
      (r.Err? ==> r.error == CastFailed(s))
  {
    if ':' in s then
      CountZero(s, ':');
      var vs :- CastAll(Split(s, ':'));
      Ok(Tup(Scalars(vs)))
    else if '-' in s then
      CountZero(s, '-');
      var vs :- CastAll(Split(s, '-'));
      Ok(Tup(Scalars(vs)))
    else
      match ParseInt(s)
      case None => Err(CastFailed(s))
      case Some(v) => Ok(Scalar(v))
  }

  // ---------------------------------------------------------------- erange

  /**
   * Python `range(start, stop, step)` for a non-zero step: start, start+step,
   * ... for as long as the value lies strictly before `stop` in the direction
   * of the step.
   */
  function PyRange(start: int, stop: int, step: int): (r: seq<int>)
    requires step != 0
    ensures forall k :: 0 <= k < |r| ==> r[k] == start + k * step
    ensures forall k :: 0 <= k < |r| ==> if step > 0 then r[k] < stop else r[k] > stop
    ensures if step > 0 then start + |r| * step >= stop else start + |r| * step <= stop
    decreases if step > 0 then stop - start else start - stop
  {
    if (step > 0 && start < stop) || (step < 0 && start > stop) then
      var rest := PyRange(start + step, stop, step);
      assert forall k :: 1 <= k <= |rest| ==> start + step + (k - 1) * step == start + k * step by {
        forall k | 1 <= k <= |rest| ensures start + step + (k - 1) * step == start + k * step {
          assert (k - 1) * step == k * step - step;
        }
      }
      assert start + step + |rest| * step == start + (|rest| + 1) * step;
      [start] + rest
    else []
  }

  /** `erange(a, b)`: every integer from `a` to `b`, both ends included. */
  function ERange(a: int, b: int): (r: seq<int>)
    ensures |r| == if a <= b then b - a + 1 else 0
    ensures forall k :: 0 <= k < |r| ==> r[k] == a + k
  {
    var r := PyRange(a, b + 1, 1);
    assert |r| > 0 ==> r[|r| - 1] == a + |r| - 1;
    r
  }

  /**
   * `erange(a, step, b)`, that is `range(a, b + 1, step)`: a, a+step, ... up
   * to and including `b` for a positive step. A zero step is an error. For a
   * negative step the values stay above b + 1, so `b` itself is never reached.
   */
  function ERangeStep(a: int, step: int, b: int): (r: Result<seq<int>>)
    ensures r.Err? <==> step == 0
    ensures r.Err? ==> r.error == ZeroStep
    ensures r.Ok? ==> forall k :: 0 <= k < |r.value| ==> r.value[k] == a + k * step
    ensures r.Ok? && step > 0 ==>
      (forall k :: 0 <= k < |r.value| ==> r.value[k] <= b) && a + |r.value| * step > b
    ensures r.Ok? && step < 0 ==>
      (forall k :: 0 <= k < |r.value| ==> r.value[k] > b + 1) && a + |r.value| * step <= b + 1
  {
    if step == 0 then Err(ZeroStep) else Ok(PyRange(a, b + 1, step))
  }

  // ---------------------------------------------------------------- strmap

  /**
   * The per-segment results of a comma list, taken in order: the first error
   * aborts everything, otherwise the item lists are concatenated.
   */
  function Concat(rs: seq<Result<seq<Tree>>>): (r: Result<seq<Tree>>)
    ensures r.Ok? <==> forall i :: 0 <= i < |rs| ==> rs[i].Ok?
    ensures r.Err? ==>
      exists i :: 0 <= i < |rs| && rs[i] == Err(r.error) && forall j :: 0 <= j < i ==> rs[j].Ok?
    ensures r.Ok? ==> forall i, j :: 0 <= i < |rs| && 0 <= j < |rs[i].value| ==> rs[i].value[j] in r.value
    ensures r.Ok? ==> forall t :: t in r.value ==> exists i :: 0 <= i < |rs| && t in rs[i].value
    decreases |rs|
  {
    if rs == [] then Ok([])
    else
      var init := rs[..|rs| - 1];
      assert forall i :: 0 <= i < |init| ==> init[i] == rs[i];
      var prev :- Concat(init);
      var last :- rs[|rs| - 1];
      Ok(prev + last)
  }

  /** Once the prefix before a failing part succeeded, the whole list fails with that part's error. */
  lemma ConcatStops(rs: seq<Result<seq<Tree>>>, k: nat)
    requires k < |rs|
    requires Concat(rs[..k]).Ok? && rs[k].Err?
    ensures Concat(rs) == Err(rs[k].error)
  {
    assert forall i :: 0 <= i < k ==> rs[..k][i] == rs[i];
  }

  /** A further successful part extends the concatenation by its items. */
  lemma ConcatStep(rs: seq<Result<seq<Tree>>>, k: nat, l: seq<Tree>)
    requires k < |rs| && Concat(rs[..k]) == Ok(l) && rs[k].Ok?
    ensures Concat(rs[..k + 1]) == Ok(l + rs[k].value)
  {
    assert rs[..k + 1][..k] == rs[..k];
  }

  /** Each part succeeds with exactly one item: the list of those items. */
  lemma {:induction false} ConcatSingles(rs: seq<Result<seq<Tree>>>, ts: seq<Tree>)
    requires |rs| == |ts|
    requires forall i :: 0 <= i < |rs| ==> rs[i] == Ok([ts[i]])
    ensures Concat(rs) == Ok(ts)
    decreases |rs|
  {
    if rs != [] {
      var n := |rs| - 1;
      ConcatSingles(rs[..n], ts[..n]);
      assert ts[..n] + [ts[n]] == ts;
    }
  }

  /**
   * `strmap(int, s)`: the list of parse trees of the comma groups of `s`,
   * in order. A group contributes one or more trees.
   */
  function StrMap(s: string): (r: Result<seq<Tree>>)
    ensures !Balanced(s) ==> r == Err(Unbalanced)
    ensures r.Ok? ==> |r.value| >= 1
    decreases |s|, 2
  {
    var tokens :- Tokens(s);
    var parts := seq(|tokens|, k requires 0 <= k < |tokens| => MapSegment(tokens[k]));
    var r := Concat(parts);
    assert r.Ok? ==> parts[0].value[0] in r.value;
    r
  }

  /**
   * The trees of one comma group: for `[A][B]` one pair (a, strmap(B)) per
   * tree a of strmap(A); for `X[Y]` the single pair (strseq(X), strmap(Y));
   * for plain text the single cast leaf.
   */
  function MapSegment(tok: string): (r: Result<seq<Tree>>)
    ensures r.Ok? ==> |r.value| >= 1
    decreases |tok|, 1
  {
    var seg :- Classify(tok);
    match seg
    case Nested(a, b) =>
      NestedTrees(a, b)
    case Suffixed(x, y) =>
      var head :- StrSeq(x);
      var inner :- StrMap(y);
      Ok([Tup([head, Lst(inner)])])
    case Plain(p) =>
      var v :- StrSeq(p);
      Ok([v])
  }

  /** `strmap` as the source runs it: merge the comma groups, check the last one, then map them in a loop. */
  method ComputeStrMap(s: string) returns (r: Result<seq<Tree>>)
    ensures r == StrMap(s)
    decreases |s|, 3
  {
    var commas := CollectBrackets(Split(RemoveSpaces(s), ','));
    var last := commas[|commas| - 1];
    if Count(last, '[') != Count(last, ']') {
      return Err(Unbalanced);
    }
    assert Tokens(s) == Ok(commas);
    r := MapGroups(|s|, commas);
  }

  /**
   * The loop `for seg in commas` of `strmap`, appending the trees of each
   * group to one list; `n` bounds the length of the groups.
   */
  method MapGroups(ghost n: nat, commas: seq<string>) returns (r: Result<seq<Tree>>)
    requires forall k :: 0 <= k < |commas| ==> |commas[k]| <= n
    ensures r == Concat(seq(|commas|, k requires 0 <= k < |commas| => MapSegment(commas[k])))
    decreases n, 2
  {
    ghost var parts := seq(|commas|, k requires 0 <= k < |commas| => MapSegment(commas[k]));
    var l: seq<Tree> := [];
    for k := 0 to |commas|
      invariant Concat(parts[..k]) == Ok(l)
    {
      var part := ComputeSegment(commas[k]);
      if part.Err? {
        ConcatStops(parts, k);
        return Err(part.error);
      }
      ConcatStep(parts, k, l);
      l := l + part.value;
    }
    assert parts[..|commas|] == parts;
    return Ok(l);
  }

  /** The body of the loop of `strmap` for one comma group. */
  method ComputeSegment(tok: string) returns (r: Result<seq<Tree>>)
    ensures r == MapSegment(tok)
    decreases |tok|, 1
  {
    var seg := Classify(tok);
    if seg.Err? {
      return Err(seg.error);
    }
    match seg.value
    case Nested(a, b) =>
      r := ComputeNested(a, b);
    case Suffixed(x, y) =>
      var head := StrSeq(x);
      if head.Err? {
        return Err(head.error);
      }
      var inner := ComputeStrMap(y);
      if inner.Err? {
        return Err(inner.error);
      }
      return Ok([Tup([head.value, Lst(inner.value)])]);
    case Plain(p) =>
      var v := StrSeq(p);
      if v.Err? {
        return Err(v.error);
      }
      return Ok([v.value]);
  }

  /**
   * The trees of a `[A][B]` group: strmap(B) first, then one pair
   * (a, strmap(B)) for every tree a of strmap(A), in order, all sharing the
   * same right side. Either failure aborts, B's first.
   */
  function NestedTrees(a: string, b: string): (r: Result<seq<Tree>>)
    ensures StrMap(b).Err? ==> r == StrMap(b)
    ensures StrMap(b).Ok? && StrMap(a).Err? ==> r == StrMap(a)
    ensures StrMap(b).Ok? && StrMap(a).Ok? ==>
      r.Ok? && |r.value| == |StrMap(a).value| &&
      forall k :: 0 <= k < |r.value| ==> r.value[k] == Tup([StrMap(a).value[k], Lst(StrMap(b).value)])
    decreases |a| + |b| + 1, 0
  {
    var rhs :- StrMap(b);
    var lhs :- StrMap(a);
    Ok(seq(|lhs|, k requires 0 <= k < |lhs| => Tup([lhs[k], Lst(rhs)])))
  }

  /** A `[A][B]` group as the source runs it: the right side parsed once, then a loop over the left side. */
  method ComputeNested(a: string, b: string) returns (r: Result<seq<Tree>>)
    ensures r == NestedTrees(a, b)
    decreases |a| + |b| + 1, 0
  {
    var rhs := ComputeStrMap(b);
    if rhs.Err? {
      return Err(rhs.error);
    }
    var lhs := ComputeStrMap(a);
    if lhs.Err? {
      return Err(lhs.error);
    }
    var els, bot := lhs.value, Lst(rhs.value);
    var l := PairEach(els, bot);
    assert l == seq(|els|, k requires 0 <= k < |els| => Tup([els[k], bot]));
    return Ok(l);
  }

  /** The loop `for el in strmap(A): l.append((el, rhs))`. */
  method PairEach(els: seq<Tree>, bot: Tree) returns (l: seq<Tree>)
    ensures |l| == |els|
    ensures forall j :: 0 <= j < |els| ==> l[j] == Tup([els[j], bot])
  {
    l := [];
    for k := 0 to |els|
      invariant |l| == k
      invariant forall j :: 0 <= j < k ==> l[j] == Tup([els[j], bot])
    {
      l := l + [Tup([els[k], bot])];
    }
  }

  // ---------------------------------------------------------------- lstranges

  /** How one expanded item joins the result list: a list is spliced in, anything else appended. */
  function Spliced(r: Result<Tree>): (s: Result<seq<Tree>>)
    ensures s.Err? <==> r.Err?
    ensures r.Err? ==> s.error == r.error
    ensures r.Ok? ==> s.value == if r.value.Lst? then r.value.items else [r.value]
  {
    match r
    case Err(e) => Err(e)
    case Ok(v) => if v.Lst? then Ok(v.items) else Ok([v])
  }

  /**
   * `lstranges(t)`: a scalar is returned unchanged; a list or a tuple
   * always becomes a list. A 3-tuple is a stepped range, any other tuple
   * looks at its first two entries, expanded: a list head gives one
   * [element, tail] pair per element, a list tail gives one [head, tail]
   * pair, two scalars give the inclusive range between them.
   */
  function LstRanges(t: Tree): (r: Result<Tree>)
    ensures t.Scalar? ==> r == Ok(t)
    ensures r.Ok? && !t.Scalar? ==> r.value.Lst?
    decreases t
  {
    match t
    case Scalar(_) => Ok(t)
    case Tup(xs) =>
      if |xs| == 3 then
        if xs[0].Scalar? && xs[1].Scalar? && xs[2].Scalar? then
          var rng :- ERangeStep(xs[0].n, xs[1].n, xs[2].n);
          Ok(Lst(Scalars(rng)))
        else Err(BadShape)
      else if |xs| < 2 then Err(BadShape)
      else
        var head :- LstRanges(xs[0]);
        var bot :- LstRanges(xs[1]);
        if head.Lst? then
          Ok(Lst(seq(|head.items|, k requires 0 <= k < |head.items| => Lst([head.items[k], bot]))))
        else if bot.Lst? then Ok(Lst([Lst([head, bot])]))
        else Ok(Lst(Scalars(ERange(head.n, bot.n))))
    case Lst(xs) =>
      var items :- Concat(seq(|xs|, k requires 0 <= k < |xs| => Spliced(LstRanges(xs[k]))));
      Ok(Lst(items))
  }

  /** `lstranges` as the source runs it, accumulating with append and extend. */
  method ComputeLstRanges(t: Tree) returns (r: Result<Tree>)
    ensures r == LstRanges(t)
    decreases t, 1
  {
    match t
    case Scalar(_) =>
      return Ok(t);
    case Tup(xs) =>
      r := ComputeTuple(xs);
    case Lst(xs) =>
      r := ComputeList(xs);
  }

  /** The tuple branch of `lstranges`: a stepped range, or the first two entries expanded. */
  method ComputeTuple(xs: seq<Tree>) returns (r: Result<Tree>)
    ensures r == LstRanges(Tup(xs))
    decreases Tup(xs), 0
  {
    if |xs| == 3 {
      if !(xs[0].Scalar? && xs[1].Scalar? && xs[2].Scalar?) {
        return Err(BadShape);
      }
      var rng := ERangeStep(xs[0].n, xs[1].n, xs[2].n);
      if rng.Err? {
        return Err(rng.error);
      }
      return Ok(Lst(Scalars(rng.value)));
    }
    if |xs| < 2 {
      return Err(BadShape);
    }
    var head := ComputeLstRanges(xs[0]);
    if head.Err? {
      return head;
    }
    var bot := ComputeLstRanges(xs[1]);
    if bot.Err? {
      return bot;
    }
    if head.value.Lst? {
      var l := PairWith(head.value.items, bot.value);
      return Ok(Lst(l));
    } else if bot.value.Lst? {
      return Ok(Lst([Lst([head.value, bot.value])]));
    } else {
      return Ok(Lst(Scalars(ERange(head.value.n, bot.value.n))));
    }
  }

  /** The loop `for el in head: l.append([el, bot])`. */
  method PairWith(hs: seq<Tree>, bot: Tree) returns (l: seq<Tree>)
    ensures l == seq(|hs|, j requires 0 <= j < |hs| => Lst([hs[j], bot]))
  {
    l := [];
    for k := 0 to |hs|
      invariant l == seq(k, j requires 0 <= j < k => Lst([hs[j], bot]))
    {
      l := l + [Lst([hs[k], bot])];
    }
  }

  /** The list branch of `lstranges`: each item expanded, lists extended, the rest appended. */
  method ComputeList(xs: seq<Tree>) returns (r: Result<Tree>)
    ensures r == LstRanges(Lst(xs))
    decreases Lst(xs), 0
  {
    ghost var parts := seq(|xs|, k requires 0 <= k < |xs| => Spliced(LstRanges(xs[k])));
    var l: seq<Tree> := [];
    for k := 0 to |xs|
      invariant Concat(parts[..k]) == Ok(l)
    {
      var ls := ComputeLstRanges(xs[k]);
      if ls.Err? {
        ConcatStops(parts, k);
        return ls;
      }
      ConcatStep(parts, k, l);
      if ls.value.Lst? {
        l := l + ls.value.items;
      } else {
        l := l + [ls.value];
      }
    }
    assert parts[..|xs|] == parts;
    return Ok(Lst(l));
  }

  // ---------------------------------------------------------------- fileindex

  /** `lstranges(strmap(int, s))`: the expanded selection, always a list. */
  function Expand(s: string): (r: Result<Tree>)
    ensures r.Ok? ==> r.value.Lst?
    ensures !Balanced(s) ==> r == Err(Unbalanced)
  {
    var items :- StrMap(s);
    LstRanges(Lst(items))
  }

  /** A one-element expansion stands for its element. */
  function Collapse(rng: seq<Tree>): (r: Tree)
    ensures |rng| == 1 ==> r == rng[0]
    ensures |rng| != 1 ==> r == Lst(rng)
  {
    if |rng| == 1 then rng[0] else Lst(rng)
  }

  /**
   * `fileindex(f)`: without '[' the name alone; otherwise the text before
   * the first '[' is the name and the text after it holds the index.
   */
  function FileIndex(f: string): (r: Result<(string, Option<Tree>)>)
    ensures '[' !in f ==> r == Ok((f, None))
    ensures '[' in f ==> r == IndexAfter(f[..FirstIndex(f, '[')], f[FirstIndex(f, '[') + 1..])
  {
    if '[' !in f then Ok((f, None))
    else
      var pieces := Split(f, '[');
      FileIndexSplit(f);
      IndexAfter(pieces[0], Join(pieces[1..], "["))
  }

  /**
   * The second half of `fileindex`: the text after the first '[', one
   * trailing ']' removed, is expanded; a one-element expansion stands for its
   * element. Nothing after the '[' is an error.
   */
  function IndexAfter(fname: string, rest: string): (r: Result<(string, Option<Tree>)>)
    ensures rest == [] ==> r == Err(EmptyIndex)
    ensures rest != [] ==>
      var body := if rest[|rest| - 1] == ']' then rest[..|rest| - 1] else rest;
      (r.Ok? <==> Expand(body).Ok?) &&
      (r.Ok? ==> r.value == (fname, Some(Collapse(Expand(body).value.items)))) &&
      (r.Err? ==> r.error == Expand(body).error)
  {
    if rest == [] then Err(EmptyIndex)
    else
      var body := if rest[|rest| - 1] == ']' then rest[..|rest| - 1] else rest;
      var rng :- Expand(body);
      if |rng.items| == 1 then Ok((fname, Some(rng.items[0]))) else Ok((fname, Some(rng)))
  }

  /** Splitting on '[' and re-joining all but the first piece cuts `f` at its first '['. */
  lemma FileIndexSplit(f: string)
    requires '[' in f
    ensures var k := FirstIndex(f, '[');
      Split(f, '[')[0] == f[..k] && Join(Split(f, '[')[1..], "[") == f[k + 1..]
  {
    var k := FirstIndex(f, '[');
    assert f == f[..k] + ['['] + f[k + 1..];
    SplitAtFirst(f[..k], f[k + 1..], '[');
    JoinSplit(f[k + 1..], '[');
  }
}
