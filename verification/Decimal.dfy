/** Decimal text of numbers, and the number a text stands for. */
module Decimal {
  function Digit(d: nat): char
    requires d < 10
  {
    "0123456789"[d]
  }

  function DigitValue(c: char): nat {
    if '0' <= c <= '9' then c as nat - '0' as nat else 0
  }

  /** `String(n)` */
  function Text(n: nat): string {
    if n < 10 then [Digit(n)] else Text(n / 10) + [Digit(n % 10)]
  }

  function Value(s: string): nat {
    if s == [] then 0 else Value(s[..|s| - 1]) * 10 + DigitValue(s[|s| - 1])
  }

  lemma DigitValueInverse(d: nat)
    requires d < 10
    ensures DigitValue(Digit(d)) == d
  {
  }

  lemma {:induction false} TextValue(n: nat)
    ensures Value(Text(n)) == n && |Text(n)| >= 1
  {
    DigitValueInverse(n % 10);
    if n >= 10 {
      TextValue(n / 10);
      assert Text(n)[..|Text(n)| - 1] == Text(n / 10);
    } else {
      DigitValueInverse(n);
      assert Text(n)[..0] == [];
    }
  }

  /** Every character of a number's text is a digit. */
  lemma {:induction false} TextIsDigits(n: nat)
    ensures forall i | 0 <= i < |Text(n)| :: '0' <= Text(n)[i] <= '9'
  {
    if n >= 10 { TextIsDigits(n / 10); }
  }

  lemma TextInjective(n: nat, m: nat)
    requires Text(n) == Text(m)
    ensures n == m
  {
    TextValue(n);
    TextValue(m);
  }
}
