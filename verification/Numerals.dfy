/** Decimal numerals as JavaScript prints them. */
module Numerals {
  function DigitOf(d: nat): char
    requires d < 10
  {
    (d + '0' as int) as char
  }

  predicate IsDigit(c: char) {
    '0' <= c <= '9'
  }

  function DigitValue(c: char): nat
    requires IsDigit(c)
  {
    c as int - '0' as int
  }

  function Decimal(n: nat): string {
    if n < 10 then [DigitOf(n)] else Decimal(n / 10) + [DigitOf(n % 10)]
  }

  /** padStart with zeros. */
  function PadStart(s: string, width: nat): string {
    if |s| >= width then s else "0" + PadStart(s, width - 1)
  }

  predicate AllDigits(s: string) {
    forall i | 0 <= i < |s| :: IsDigit(s[i])
  }

  lemma {:induction false} DecimalDigits(n: nat)
    ensures AllDigits(Decimal(n)) && |Decimal(n)| > 0
  {
    if n < 10 {
    } else {
      DecimalDigits(n / 10);
    }
  }
}
