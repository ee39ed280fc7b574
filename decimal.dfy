/** Decimal digit strings: the digits JavaScript prints for an integer
  * (`${n}`) and the value a run of ASCII digits denotes. */
module Decimal {

  predicate IsDigit(c: char)
  {
    '0' <= c <= '9'
  }

  predicate AllDigits(s: string)
  {
    forall i :: 0 <= i < |s| ==> IsDigit(s[i])
  }

  function DigitChar(d: nat): (c: char)
    requires d < 10
    ensures IsDigit(c) && c as int - '0' as int == d
  {
    ('0' as int + d) as char
  }

  /** The value of a digit string read most significant digit first; "" is 0. */
  function DigitsValue(ds: string): nat
    requires AllDigits(ds)
  {
    if ds == [] then 0
    else DigitsValue(ds[..|ds| - 1]) * 10 + (ds[|ds| - 1] as int - '0' as int)
  }

  function Pow10(k: nat): (r: nat)
    ensures r >= 1
  {
    if k == 0 then 1 else 10 * Pow10(k - 1)
  }

  /** The shortest decimal spelling of `n`: digits only, no leading zero. */
  function NatToDecimal(n: nat): (r: string)
    ensures |r| >= 1 && AllDigits(r)
    ensures |r| > 1 ==> r[0] != '0'
  {
    if n < 10 then [DigitChar(n)] else NatToDecimal(n / 10) + [DigitChar(n % 10)]
  }

  /** Reading back the digits of `n` gives `n`. */
  lemma {:induction false} NatToDecimalRoundTrip(n: nat)
    ensures DigitsValue(NatToDecimal(n)) == n
  {
    if n >= 10 {
      var r := NatToDecimal(n);
      NatToDecimalRoundTrip(n / 10);
      assert r[..|r| - 1] == NatToDecimal(n / 10);
    }
  }

  /** A single digit character is the spelling of its own value. */
  lemma SingleDigit(c: char)
    requires IsDigit(c)
    ensures NatToDecimal(c as int - '0' as int) == [c]
    ensures DigitsValue([c]) == c as int - '0' as int
  {
    assert DigitChar(c as int - '0' as int) == c;
    assert [c][..0] == [];
  }

  /** How a template literal prints an integral number of magnitude below
    * 10^21 (beyond that JavaScript switches to exponent form): a minus sign
    * for a negative value, then the digits of its magnitude. */
  function IntToDecimal(i: int): (r: string)
    ensures |r| >= 1
    ensures r[0] == '-' <==> i < 0
  {
    if i < 0 then "-" + NatToDecimal(-i) else NatToDecimal(i)
  }

  /** The printed form determines the integer: sign from the first character,
    * magnitude from the digits after it. */
  lemma IntToDecimalRoundTrip(i: int)
    ensures var r := IntToDecimal(i);
            if r[0] == '-' then AllDigits(r[1..]) && i == -(DigitsValue(r[1..]) as int)
            else AllDigits(r) && i == DigitsValue(r)
  {
    var r := IntToDecimal(i);
    if i < 0 {
      var digits := NatToDecimal(-i);
      assert r == "-" + digits;
      assert r[1..] == digits;
      NatToDecimalRoundTrip(-i);
    } else {
      assert r == NatToDecimal(i);
      NatToDecimalRoundTrip(i);
    }
  }
}
