/** Decimal numerals. */
module Decimal {

  predicate IsDigit(c: char) {
    '0' <= c <= '9'
  }

  predicate AllDigits(s: string) {
    forall i | 0 <= i < |s| :: IsDigit(s[i])
  }

  function DigitValue(c: char): nat
    requires IsDigit(c)
  {
    c as int - '0' as int
  }

  function DigitChar(d: nat): (c: char)
    requires d < 10
    ensures IsDigit(c) && DigitValue(c) == d
  {
    ('0' as int + d) as char
  }

  /** The value of a digit string, leading zeros allowed; the empty string counts as 0. */
  function Value(s: string): nat
    requires AllDigits(s)
  {
    if s == [] then 0 else Value(s[..|s| - 1]) * 10 + DigitValue(s[|s| - 1])
  }

  /** The numeral without leading zeros. */
  function Numeral(n: nat): (s: string)
    ensures s != [] && AllDigits(s)
  {
    if n < 10 then [DigitChar(n)] else Numeral(n / 10) + [DigitChar(n % 10)]
  }

  predicate LeadingZero(s: string) {
    |s| > 1 && s[0] == '0'
  }

  lemma {:induction false} NumeralValue(n: nat)
    ensures Value(Numeral(n)) == n
    ensures !LeadingZero(Numeral(n)) && (n > 0 ==> Numeral(n)[0] != '0')
  {
    var s := Numeral(n);
    if n >= 10 {
      NumeralValue(n / 10);
      assert s[..|s| - 1] == Numeral(n / 10);
    } else {
      assert s[..|s| - 1] == [];
    }
  }
}
