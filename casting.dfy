/**
 * The integer cast that the range language applies to every leaf: Python's
 * `int()` on ASCII text, an optional sign followed by decimal digits.
 */
module Casting {
  import opened RangeTypes

  predicate IsDigit(c: char) { '0' <= c <= '9' }

  predicate AllDigits(s: string) { forall i :: 0 <= i < |s| ==> IsDigit(s[i]) }

  /** Value of a run of decimal digits, most significant first. */
  function DigitsValue(ds: string): nat
    requires AllDigits(ds)
  {
    if ds == [] then 0
    else DigitsValue(ds[..|ds| - 1]) * 10 + ((ds[|ds| - 1] as int) - ('0' as int))
  }

  /** Python `int(s)`: `None` where Python raises ValueError. */
  function ParseInt(s: string): (r: Option<int>)
    ensures r.Some? ==> s != [] && (IsDigit(s[0]) || s[0] == '-' || s[0] == '+')
    ensures r.Some? ==> forall i :: 1 <= i < |s| ==> IsDigit(s[i])
    ensures r.Some? ==> IsDigit(s[|s| - 1])
    ensures s != [] && AllDigits(s) ==> r == Some(DigitsValue(s))
    ensures |s| >= 2 && s[0] == '+' && AllDigits(s[1..]) ==> r == Some(DigitsValue(s[1..]))
    ensures |s| >= 2 && s[0] == '-' && AllDigits(s[1..]) ==> r == Some(-(DigitsValue(s[1..]) as int))
  {
    if s == [] then None
    else if s[0] == '-' || s[0] == '+' then
      if |s| >= 2 && AllDigits(s[1..]) then
        var v: int := DigitsValue(s[1..]);
        Some(if s[0] == '-' then -v else v)
      else None
    else if AllDigits(s) then Some(DigitsValue(s))
    else None
  }

  function Digit(d: nat): (c: char)
    requires d < 10
    ensures IsDigit(c)
  {
    (('0' as int) + d) as char
  }

  /** Decimal text of a natural number, without sign or leading zeros. */
  function ShowNat(n: nat): (r: string)
    ensures |r| >= 1 && AllDigits(r)
  {
    if n < 10 then [Digit(n)] else ShowNat(n / 10) + [Digit(n % 10)]
  }

  /** Decimal text of an integer, with a leading '-' when it is negative. */
  function Show(n: int): string
  {
    if n < 0 then "-" + ShowNat(-n) else ShowNat(n)
  }

  lemma {:induction false} ShowNatValue(n: nat)
    ensures DigitsValue(ShowNat(n)) == n
  {
    if n >= 10 {
      ShowNatValue(n / 10);
      var s := ShowNat(n);
      assert s[..|s| - 1] == ShowNat(n / 10);
    }
  }

  /** Leading zeros do not change the value of a run of digits. */
  lemma {:induction false} DigitsLeadingZero(ds: string)
    requires AllDigits(ds)
    ensures AllDigits("0" + ds) && DigitsValue("0" + ds) == DigitsValue(ds)
  {
    var t := "0" + ds;
    if ds != [] {
      assert t[..|t| - 1] == "0" + ds[..|ds| - 1];
      DigitsLeadingZero(ds[..|ds| - 1]);
    } else {
      assert DigitsValue(t) == DigitsValue(t[..0]) * 10 + 0;
    }
  }

  /** `int('+7')` and `int('007')` are 7: a '+' sign and leading zeros are accepted. */
  lemma ParsePadded(n: nat)
    ensures ParseInt("+" + ShowNat(n)) == Some(n)
    ensures ParseInt("0" + ShowNat(n)) == Some(n)
  {
    var t := ShowNat(n);
    ShowNatValue(n);
    assert ("+" + t)[1..] == t;
    DigitsLeadingZero(t);
  }

  /** The cast reads back every integer the decimal formatter writes. */
  lemma ParseShow(n: int)
    ensures ParseInt(Show(n)) == Some(n)
  {
    var t := Show(n);
    if n < 0 {
      ShowNatValue(-n);
      assert t[0] == '-' && |t| >= 2;
      assert t[1..] == ShowNat(-n);
    } else {
      ShowNatValue(n);
      assert AllDigits(t) && t[0] != '-' && t[0] != '+';
    }
  }

  /** Digit text never holds a character that is not a digit. */
  lemma DigitsAvoid(s: string, c: char)
    requires AllDigits(s) && !IsDigit(c)
    ensures c !in s
  {
  }
}
