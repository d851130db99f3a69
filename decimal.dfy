/**
 * Decimal text of integers, as `StringBuilder.append(int)` writes it and
 * as `Scanner.nextInt()` reads it back.
 */
module Decimal {
  import opened Outcomes
  import opened JavaInt

  predicate IsDigit(c: char) {
    '0' as int <= c as int <= '9' as int
  }

  /** A non-empty run of ASCII digits. */
  predicate IsDigits(s: string) {
    |s| > 0 && forall i :: 0 <= i < |s| ==> IsDigit(s[i])
  }

  function DigitChar(d: nat): (c: char)
    requires d < 10
    ensures IsDigit(c) && (c as int) - ('0' as int) == d
  {
    ('0' as int + d) as char
  }

  /** The value of a run of digits, most significant first. */
  function DigitsValue(s: string): nat
    requires forall i :: 0 <= i < |s| ==> IsDigit(s[i])
  {
    if |s| == 0 then 0
    else
      assert IsDigit(s[|s| - 1]);
      DigitsValue(s[..|s| - 1]) * 10 + ((s[|s| - 1] as int) - ('0' as int))
  }

  /** The shortest decimal text of `n`. */
  function NatToString(n: nat): (s: string)
    ensures IsDigits(s)
    ensures n < 10 <==> |s| == 1
  {
    if n < 10 then [DigitChar(n)] else NatToString(n / 10) + [DigitChar(n % 10)]
  }

  /** `Integer.toString(x)`: a minus sign for negatives, then the digits. */
  function IntToString(x: int): (s: string)
    ensures |s| > 0
    ensures x < 0 <==> s[0] == '-'
    ensures forall i :: 0 < i < |s| ==> IsDigit(s[i])
  {
    if x < 0 then "-" + NatToString(-x) else NatToString(x)
  }

  /**
   * `Scanner.nextInt()` on one token: an optional sign followed by ASCII
   * digits, whose value must fit in an `int`; anything else does not match.
   */
  function ParseInt(s: string): (r: Option<int>)
    ensures r.Some? ==> IsInt32(r.value)
    ensures r.Some? ==> |s| > 0
  {
    var v: Option<int> :=
      if |s| > 0 && (s[0] == '-' || s[0] == '+') && IsDigits(s[1..]) then
        var magnitude: int := DigitsValue(s[1..]);
        Some(if s[0] == '-' then -magnitude else magnitude)
      else if IsDigits(s) then Some(DigitsValue(s))
      else None;
    if v.Some? && IsInt32(v.value) then v else None
  }

  lemma {:induction false} DigitsValueOfNatToString(n: nat)
    ensures DigitsValue(NatToString(n)) == n
  {
    if n >= 10 {
      var s := NatToString(n);
      assert s[..|s| - 1] == NatToString(n / 10);
      DigitsValueOfNatToString(n / 10);
    }
  }

  /** Reading back what was written gives the same `int`. */
  lemma ParseIntOfIntToString(x: int)
    requires IsInt32(x)
    ensures ParseInt(IntToString(x)) == Some(x)
  {
    var s := IntToString(x);
    if x < 0 {
      assert s[1..] == NatToString(-x);
      DigitsValueOfNatToString(-x);
    } else {
      DigitsValueOfNatToString(x);
    }
  }
}
