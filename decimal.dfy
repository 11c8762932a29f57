/** Decimal text for integers, as `QString::number(int)` writes it and `QString::toInt`
    reads it back. */
module Decimal {
  import opened Wrappers

  const INT_MIN: int := -0x8000_0000
  const INT_MAX: int := 0x7FFF_FFFF

  predicate IsDigit(c: char) {
    '0' <= c <= '9'
  }

  predicate AllDigits(s: string) {
    forall i :: 0 <= i < |s| ==> IsDigit(s[i])
  }

  function DigitChar(d: nat): (c: char)
    requires d < 10
    ensures IsDigit(c) && c as int - '0' as int == d
  {
    ('0' as int + d) as char
  }

  /** The value of a string of decimal digits, most significant first. */
  function DigitsValue(s: string): nat
    requires AllDigits(s)
  {
    if |s| == 0 then 0
    else DigitsValue(s[..|s| - 1]) * 10 + (s[|s| - 1] as int - '0' as int)
  }

  /** The shortest decimal digits of `n`: no sign and no leading zero. */
  function NatToDecimal(n: nat): (s: string)
    ensures |s| > 0 && AllDigits(s)
    ensures s[0] == '0' <==> n == 0
    ensures |s| == 1 || s[0] != '0'
  {
    if n < 10 then [DigitChar(n)] else NatToDecimal(n / 10) + [DigitChar(n % 10)]
  }

  /** `QString::number(i)`: a minus sign for negative numbers, then the digits. */
  function IntToDecimal(i: int): (s: string)
    ensures |s| > 0 && AllDigits(s[1..])
    ensures i < 0 <==> s[0] == '-'
    ensures i >= 0 ==> AllDigits(s)
  {
    if i < 0 then "-" + NatToDecimal(-i) else NatToDecimal(i)
  }

  /** An optional sign followed by at least one digit; None for anything else. */
  function ParseSigned(s: string): (r: Option<int>)
    ensures r.Some? ==> |s| > 0
  {
    if |s| > 1 && (s[0] == '-' || s[0] == '+') && AllDigits(s[1..]) then
      Some(if s[0] == '-' then 0 - DigitsValue(s[1..]) as int else DigitsValue(s[1..]))
    else if |s| > 0 && AllDigits(s) then Some(DigitsValue(s))
    else None
  }

  /** `QString::toInt()` in base 10: the value when the text is a number that fits in
      a 32-bit int, and 0 when the conversion fails. */
  function QStringToInt(s: string): (r: int)
    ensures INT_MIN <= r <= INT_MAX
    ensures ParseSigned(s).None? ==> r == 0
    ensures ParseSigned(s).Some? && INT_MIN <= ParseSigned(s).value <= INT_MAX ==> r == ParseSigned(s).value
    ensures ParseSigned(s).Some? && !(INT_MIN <= ParseSigned(s).value <= INT_MAX) ==> r == 0
  {
    match ParseSigned(s)
    case Some(v) => if INT_MIN <= v <= INT_MAX then v else 0
    case None => 0
  }

  lemma {:induction false} DigitsValueOfNatToDecimal(n: nat)
    ensures DigitsValue(NatToDecimal(n)) == n
  {
    if n >= 10 {
      var s := NatToDecimal(n);
      assert s[..|s| - 1] == NatToDecimal(n / 10);
      DigitsValueOfNatToDecimal(n / 10);
    }
  }

  /** The digits of a natural number read back as that number. */
  lemma ParseNatToDecimal(n: nat)
    ensures ParseSigned(NatToDecimal(n)) == Some(n)
  {
    var d := NatToDecimal(n);
    DigitsValueOfNatToDecimal(n);
    assert IsDigit(d[0]);
    assert !(d[0] == '-' || d[0] == '+');
  }

  /** A minus sign and the digits of a positive number read back as its negation. */
  lemma ParseNegated(n: nat)
    requires n > 0
    ensures ParseSigned("-" + NatToDecimal(n)) == Some(-(n as int))
  {
    var s := "-" + NatToDecimal(n);
    assert s[1..] == NatToDecimal(n);
    DigitsValueOfNatToDecimal(n);
    assert |s| > 1 && s[0] == '-' && AllDigits(s[1..]);
  }

  /** Reading back what `QString::number` wrote gives the number again. */
  lemma ParseIntToDecimal(i: int)
    ensures ParseSigned(IntToDecimal(i)) == Some(i)
  {
    if i < 0 {
      ParseNegated(-i);
    } else {
      ParseNatToDecimal(i);
    }
  }

  /** `toInt` inverts `QString::number` on every 32-bit int. */
  lemma ToIntOfNumber(i: int)
    requires INT_MIN <= i <= INT_MAX
    ensures QStringToInt(IntToDecimal(i)) == i
  {
    ParseIntToDecimal(i);
  }
}
