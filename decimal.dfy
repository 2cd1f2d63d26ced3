/** Numerals: digit strings in radix 10 or 16, their values, and the decimal
    rendering of a natural number (what a JavaScript template literal prints
    for a non-negative integer). Shared by the duration parser, the
    pagination normaliser and the rate limiter's cache key. */
module Numerals {

  /** The digit value of `c` in radix 36 (`0`-`9`, `a`-`z`, `A`-`Z`), if any. */
  function DigitValue(c: char): (d: int)
    ensures -1 <= d < 36
    ensures '0' <= c <= '9' ==> d == c as int - '0' as int
  {
    if '0' <= c <= '9' then c as int - '0' as int
    else if 'a' <= c <= 'z' then c as int - 'a' as int + 10
    else if 'A' <= c <= 'Z' then c as int - 'A' as int + 10
    else -1
  }

  predicate IsDigitIn(c: char, radix: nat) {
    0 <= DigitValue(c) < radix
  }

  predicate IsDecimalDigit(c: char) {
    IsDigitIn(c, 10)
  }

  predicate AllDigitsIn(s: string, radix: nat) {
    forall i :: 0 <= i < |s| ==> IsDigitIn(s[i], radix)
  }

  /** The value of a digit string, most significant digit first. */
  function ValueIn(s: string, radix: nat): (v: nat)
    requires AllDigitsIn(s, radix)
  {
    if s == [] then 0
    else ValueIn(s[..|s| - 1], radix) * radix + DigitValue(s[|s| - 1])
  }

  /** The decimal digit for `d`. */
  function DigitChar(d: nat): (c: char)
    requires d < 10
    ensures IsDecimalDigit(c) && DigitValue(c) == d
  {
    ['0', '1', '2', '3', '4', '5', '6', '7', '8', '9'][d]
  }

  /** `String(n)` for a natural number: shortest decimal numeral. */
  function ToDecimal(n: nat): (s: string)
    ensures |s| > 0 && AllDigitsIn(s, 10)
    ensures n > 0 ==> s[0] != '0'
    ensures n < 10 <==> |s| == 1
  {
    if n < 10 then [DigitChar(n)] else ToDecimal(n / 10) + [DigitChar(n % 10)]
  }

  /** Reading back a rendered number gives the number. */
  lemma {:induction false} ValueOfToDecimal(n: nat)
    ensures ValueIn(ToDecimal(n), 10) == n
  {
    if n >= 10 {
      var s := ToDecimal(n);
      assert s[..|s| - 1] == ToDecimal(n / 10);
      ValueOfToDecimal(n / 10);
    }
  }

  /** Distinct numbers render differently. */
  lemma ToDecimalInjective(a: nat, b: nat)
    requires ToDecimal(a) == ToDecimal(b)
    ensures a == b
  {
    ValueOfToDecimal(a);
    ValueOfToDecimal(b);
  }
}
