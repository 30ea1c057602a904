/** Decimal digit strings: the value `parseInt` reads from a run of digits and
    the text a template literal prints for an integer. */
module Decimal {
  import opened Text
  import opened Wrappers

  function DigitValue(c: char): (r: nat)
    requires IsDigit(c)
    ensures r < 10
  {
    c as int - '0' as int
  }

  function DigitChar(d: nat): (r: char)
    requires d < 10
    ensures IsDigit(r) && DigitValue(r) == d
  {
    ('0' as int + d) as char
  }

  /** The value of a run of decimal digits (leading zeros allowed, `""` reads as 0). */
  function DigitsValue(s: string): (v: nat)
    requires AllDigits(s)
  {
    if s == [] then 0 else DigitsValue(s[..|s| - 1]) * 10 + DigitValue(s[|s| - 1])
  }

  /** Decimal text of a natural number, without leading zeros. */
  function ShowNat(n: nat): (r: string)
    ensures |r| > 0 && AllDigits(r)
    ensures (r[0] == '0') <==> n == 0
  {
    if n < 10 then [DigitChar(n)] else ShowNat(n / 10) + [DigitChar(n % 10)]
  }

  /** Reading back the printed digits gives the number. */
  lemma {:induction false} ShowNatRoundTrip(n: nat)
    ensures DigitsValue(ShowNat(n)) == n
  {
    if n >= 10 {
      ShowNatRoundTrip(n / 10);
      var s := ShowNat(n);
      assert s[..|s| - 1] == ShowNat(n / 10);
    }
  }

  /** Decimal text of an integer, `-` first when it is negative. */
  function ShowInt(v: int): (r: string)
    ensures |r| > 0
    ensures (r[0] == '-') <==> v < 0
    ensures forall i :: 0 < i < |r| ==> IsDigit(r[i])
  {
    if v < 0 then "-" + ShowNat(-v) else ShowNat(v)
  }

  /** Inverse of `ShowInt`: an optional `-` followed by at least one digit. */
  function ReadInt(s: string): (r: Option<int>)
  {
    if |s| > 0 && s[0] == '-' then
      (if |s| > 1 && AllDigits(s[1..]) then Some(-(DigitsValue(s[1..]) as int)) else None)
    else if |s| > 0 && AllDigits(s) then Some(DigitsValue(s))
    else None
  }

  lemma ShowIntRoundTrip(v: int)
    ensures ReadInt(ShowInt(v)) == Some(v)
  {
    if v < 0 {
      ShowNatRoundTrip(-v);
      assert ShowInt(v)[1..] == ShowNat(-v);
    } else {
      ShowNatRoundTrip(v);
    }
  }
}
