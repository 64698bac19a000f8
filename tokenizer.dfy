/**
 * The first stage of `strmap`: split on commas, then glue back together the
 * pieces whose brackets are still open, so that a comma inside `[...]` does
 * not separate two segments.
 */
module Tokenizer {
  import opened RangeTypes
  import opened Strings

  /**
   * A piece of text holding as many '[' as ']' (Python `t.count('[') ==
   * t.count(']')`); a balanced group holds both brackets or neither.
   */
  predicate Balanced(t: string)
    ensures Balanced(t) ==> ('[' in t <==> ']' in t)
  {
    CountZero(t, '[');
    CountZero(t, ']');
    Count(t, '[') == Count(t, ']')
  }

  /**
   * What the merge loop of `strmap` computes: scanning from the left, a piece
   * that is balanced is kept, one that is not is joined to its successor with
   * a comma and looked at again. Only the last piece may remain unbalanced.
   */
  function MergeBrackets(ps: seq<string>): (r: seq<string>)
    ensures |r| <= |ps|
    ensures |ps| >= 1 ==> |r| >= 1
    ensures forall k :: 0 <= k < |r| - 1 ==> Balanced(r[k])
    decreases |ps|
  {
    if |ps| <= 1 then ps
    else if Balanced(ps[0]) then [ps[0]] + MergeBrackets(ps[1..])
    else MergeBrackets([ps[0] + "," + ps[1]] + ps[2..])
  }

  /** Merging only ever joins neighbours with ",": the comma-joined text is unchanged. */
  lemma {:induction false} MergeBracketsJoin(ps: seq<string>)
    requires |ps| >= 1
    ensures Join(MergeBrackets(ps), ",") == Join(ps, ",")
    decreases |ps|
  {
    if |ps| > 1 {
      if Balanced(ps[0]) {
        MergeBracketsJoin(ps[1..]);
        JoinCons(ps[0], MergeBrackets(ps[1..]), ",");
        JoinCons(ps[0], ps[1..], ",");
        assert [ps[0]] + ps[1..] == ps;
      } else {
        var glued := [ps[0] + "," + ps[1]] + ps[2..];
        MergeBracketsJoin(glued);
        JoinGlue(ps);
      }
    }
  }

  /** Gluing the first two pieces with a comma does not change the comma-joined text. */
  lemma {:induction false} JoinGlue(ps: seq<string>)
    requires |ps| >= 2
    ensures Join([ps[0] + "," + ps[1]] + ps[2..], ",") == Join(ps, ",")
  {
    var glued := [ps[0] + "," + ps[1]] + ps[2..];
    if |ps| == 2 {
      assert glued == [ps[0] + "," + ps[1]];
      assert ps[1..] == [ps[1]];
    } else {
      var tail := Join(ps[2..], ",");
      JoinCons(ps[0] + "," + ps[1], ps[2..], ",");
      assert Join(glued, ",") == ps[0] + "," + ps[1] + "," + tail;
      JoinCons(ps[1], ps[2..], ",");
      assert [ps[1]] + ps[2..] == ps[1..];
      assert Join(ps[1..], ",") == ps[1] + "," + tail;
      assert Join(ps, ",") == ps[0] + "," + Join(ps[1..], ",");
    }
  }

  /**
   * A bracket left open swallows the pieces that follow: when no proper
   * prefix of the pieces balances, they all merge into one comma group.
   */
  lemma {:induction false} MergeAllOpen(ps: seq<string>)
    requires |ps| >= 1
    requires forall k :: 1 <= k < |ps| ==> !Balanced(Join(ps[..k], ","))
    ensures MergeBrackets(ps) == [Join(ps, ",")]
    decreases |ps|
  {
    if |ps| > 1 {
      assert ps[..1] == [ps[0]];
      var qs := [ps[0] + "," + ps[1]] + ps[2..];
      forall k | 1 <= k < |qs|
        ensures !Balanced(Join(qs[..k], ","))
      {
        var pk := ps[..k + 1];
        assert qs[..k] == [pk[0] + "," + pk[1]] + pk[2..];
        JoinGlue(pk);
      }
      MergeAllOpen(qs);
      JoinGlue(ps);
    }
  }

  /** Pieces that are all balanced are left exactly as they are. */
  lemma {:induction false} MergeBracketsBalanced(ps: seq<string>)
    requires forall k :: 0 <= k < |ps| ==> Balanced(ps[k])
    ensures MergeBrackets(ps) == ps
    decreases |ps|
  {
    if |ps| > 1 {
      MergeBracketsBalanced(ps[1..]);
      assert [ps[0]] + ps[1..] == ps;
    }
  }

  /** The merge loop of `strmap`, updating its list of comma groups in place. */
  method CollectBrackets(pieces: seq<string>) returns (commas: seq<string>)
    ensures commas == MergeBrackets(pieces)
  {
    commas := pieces;
    var i := 0;
    while i < |commas| - 1
      invariant 0 <= i <= |commas|
      invariant commas[..i] + MergeBrackets(commas[i..]) == MergeBrackets(pieces)
      decreases |commas| - i
    {
      if Count(commas[i], '[') == Count(commas[i], ']') {
        MergeKeep(commas, i);
        i := i + 1;
      } else {
        MergeGlue(commas, i);
        commas := commas[..i] + [commas[i] + "," + commas[i + 1]] + commas[i + 2..];
      }
    }
    assert commas[i..] == MergeBrackets(commas[i..]);
    assert commas[..i] + commas[i..] == commas;
  }

  /** A balanced group at `i` is final: the scan moves past it. */
  lemma MergeKeep(commas: seq<string>, i: int)
    requires 0 <= i < |commas| - 1 && Balanced(commas[i])
    ensures commas[..i + 1] + MergeBrackets(commas[i + 1..]) == commas[..i] + MergeBrackets(commas[i..])
  {
    assert commas[i..][1..] == commas[i + 1..];
    assert commas[..i + 1] == commas[..i] + [commas[i]];
  }

  /** An open group at `i` is glued to its successor; the merge result is unchanged. */
  lemma MergeGlue(commas: seq<string>, i: int)
    requires 0 <= i < |commas| - 1 && !Balanced(commas[i])
    ensures var glued := commas[..i] + [commas[i] + "," + commas[i + 1]] + commas[i + 2..];
      |glued| == |commas| - 1 &&
      glued[..i] + MergeBrackets(glued[i..]) == commas[..i] + MergeBrackets(commas[i..])
  {
    var glued := commas[..i] + [commas[i] + "," + commas[i + 1]] + commas[i + 2..];
    assert glued[i..] == [commas[i..][0] + "," + commas[i..][1]] + commas[i..][2..];
    assert glued[..i] == commas[..i];
  }

  /** With every group but the last balanced, the whole text balances exactly when the last group does. */
  lemma {:induction false} BalancedJoin(ps: seq<string>)
    requires |ps| >= 1
    requires forall k :: 0 <= k < |ps| - 1 ==> Balanced(ps[k])
    ensures Balanced(Join(ps, ",")) <==> Balanced(ps[|ps| - 1])
    decreases |ps|
  {
    if |ps| > 1 {
      BalancedJoin(ps[1..]);
      var rest := Join(ps[1..], ",");
      CountAppend(ps[0] + ",", rest, '[');
      CountAppend(ps[0] + ",", rest, ']');
      CountAppend(ps[0], ",", '[');
      CountAppend(ps[0], ",", ']');
    }
  }

  /**
   * The comma groups of `strmap`: spaces removed, split on commas, open
   * brackets merged; an error when the last group does not balance.
   */
  function Tokens(s: string): (r: Result<seq<string>>)
    ensures r.Err? <==> !Balanced(s)
    ensures r.Err? ==> r.error == Unbalanced
    ensures r.Ok? ==> 1 <= |r.value| <= Count(RemoveSpaces(s), ',') + 1
    ensures r.Ok? ==> Join(r.value, ",") == RemoveSpaces(s)
    ensures r.Ok? ==> forall k :: 0 <= k < |r.value| ==> Balanced(r.value[k]) && |r.value[k]| <= |s|
  {
    var stripped := RemoveSpaces(s);
    var pieces := Split(stripped, ',');
    var commas := MergeBrackets(pieces);
    var last := commas[|commas| - 1];
    JoinSplit(stripped, ',');
    MergeBracketsJoin(pieces);
    BalancedJoin(commas);
    RemoveSpacesCount(s, '[');
    RemoveSpacesCount(s, ']');
    assert forall k :: 0 <= k < |commas| ==> |commas[k]| <= |s| by {
      forall k | 0 <= k < |commas| ensures |commas[k]| <= |s| {
        JoinPieceLength(commas, ",", k);
      }
    }
    if Count(last, '[') != Count(last, ']') then Err(Unbalanced) else Ok(commas)
  }
}
