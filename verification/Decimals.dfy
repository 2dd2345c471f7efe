/** Canonical base-10 text: `0`, or digits with no leading zero. */
module Decimals {

  predicate IsDigit(c: char) {
    '0' <= c <= '9'
  }

  predicate IsDecimal(s: string) {
    |s| > 0 && (forall i | 0 <= i < |s| :: IsDigit(s[i])) && (|s| > 1 ==> s[0] != '0')
  }

  function DigitValue(c: char): (d: nat)
    requires IsDigit(c)
    ensures d < 10
  {
    c as int - '0' as int
  }

  function DigitChar(d: nat): (c: char)
    requires d < 10
    ensures IsDigit(c) && DigitValue(c) == d
  {
    ('0' as int + d) as char
  }

  /** The number the digits of `s` denote. */
  function Value(s: string): nat
    requires forall i | 0 <= i < |s| :: IsDigit(s[i])
  {
    if s == [] then 0 else 10 * Value(s[..|s| - 1]) + DigitValue(s[|s| - 1])
  }

  /** The canonical text of `n`. */
  function Text(n: nat): (s: string)
    ensures IsDecimal(s)
    ensures n > 0 ==> s[0] != '0'
    ensures Value(s) == n
  {
    if n < 10 then [DigitChar(n)] else Text(n / 10) + [DigitChar(n % 10)]
  }

  lemma PositiveValue(s: string)
    requires IsDecimal(s) && s[0] != '0'
    ensures Value(s) > 0
  {
    if |s| > 1 {
      PositiveValue(s[..|s| - 1]);
    }
  }

  /** Canonical text is the only text of its number, so text and number determine each other. */
  lemma {:induction false} TextOfValue(s: string)
    requires IsDecimal(s)
    ensures Text(Value(s)) == s
  {
    if |s| > 1 {
      var front := s[..|s| - 1];
      TextOfValue(front);
      PositiveValue(front);
      assert Value(s) / 10 == Value(front);
      assert s == front + [s[|s| - 1]];
    }
  }

  /** A canonical decimal of `n` has at most `k` digits when `n` is below ten to the `k`. */
  lemma {:induction false} TextLength(n: nat, k: nat)
    requires k > 0 && n < PowerOfTen(k)
    ensures |Text(n)| <= k
  {
    if n >= 10 {
      TextLength(n / 10, k - 1);
    }
  }

  function PowerOfTen(k: nat): (p: nat)
    ensures p > 0
  {
    if k == 0 then 1 else 10 * PowerOfTen(k - 1)
  }
}
