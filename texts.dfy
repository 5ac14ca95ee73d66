/**
 * The string conversions the query side relies on: `str.isdigit`, `int(s)`
 * and `str(n)` (ASCII digits only). Query domains hold the text of each
 * value, so statement lines enter them through `IntText`.
 */
module Texts {

  predicate IsDigit(c: char) { '0' <= c <= '9' }

  /** `s.isdigit()`: non-empty and made of digits only. */
  predicate IsDigits(s: string)
  {
    |s| > 0 && forall i :: 0 <= i < |s| ==> IsDigit(s[i])
  }

  function DigitValue(c: char): nat
    requires IsDigit(c)
  {
    c as int - '0' as int
  }

  function DigitChar(d: nat): (c: char)
    requires d < 10
    ensures IsDigit(c) && DigitValue(c) == d
  {
    ('0' as int + d) as char
  }

  /** `int(s)` for a string of digits, read from the most significant end. */
  function DigitsValue(s: string): nat
    requires forall i :: 0 <= i < |s| ==> IsDigit(s[i])
  {
    if s == [] then 0 else DigitsValue(s[..|s| - 1]) * 10 + DigitValue(s[|s| - 1])
  }

  /** `str(n)`: the decimal digits of `n`, without leading zeros. */
  function NatText(n: nat): string
  {
    if n < 10 then [DigitChar(n)] else NatText(n / 10) + [DigitChar(n % 10)]
  }

  /** `int(str(n)) == n`, and `str(n).isdigit()` holds. */
  lemma {:induction false} NatTextRoundTrip(n: nat)
    ensures IsDigits(NatText(n))
    ensures DigitsValue(NatText(n)) == n
  {
    if n >= 10 {
      NatTextRoundTrip(n / 10);
      var s := NatText(n);
      assert s[..|s| - 1] == NatText(n / 10);
    }
  }

  /** `str` is injective on natural numbers. */
  lemma NatTextInjective(m: nat, n: nat)
    requires NatText(m) == NatText(n)
    ensures m == n
  {
    NatTextRoundTrip(m);
    NatTextRoundTrip(n);
  }

  /** `str(l)` for any integer. */
  function IntText(l: int): string
  {
    if l < 0 then "-" + NatText(-l) else NatText(l)
  }

  /** Distinct lines have distinct texts. */
  lemma IntTextInjective(a: int, b: int)
    requires IntText(a) == IntText(b)
    ensures a == b
  {
    NatTextRoundTrip(if a < 0 then -a else a);
    NatTextRoundTrip(if b < 0 then -b else b);
    if a < 0 && b < 0 {
      assert NatText(-a) == IntText(a)[1..];
      NatTextInjective(-a, -b);
    } else if a >= 0 && b >= 0 {
      NatTextInjective(a, b);
    } else if a < 0 {
      NegativeTextDiffers(a, b);
    } else {
      NegativeTextDiffers(b, a);
    }
  }

  /** A negative number's text starts with a sign, a natural number's with a digit. */
  lemma NegativeTextDiffers(a: int, b: nat)
    requires a < 0
    ensures IntText(a) != NatText(b)
  {
    NatTextRoundTrip(b);
    assert IntText(a)[0] == '-';
    assert IsDigit(NatText(b)[0]);
  }
}
