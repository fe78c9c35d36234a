/** Decimal digit strings: the `str(n)` rendering of a natural number, the
    reading of a digit string back into a number, and the sum of the digits
    of a digit string (`sum(int(digit) for digit in s)`).

    Digit strings are read most-significant digit first, and every recursive
    definition here peels off the LAST character, so that `Str(n)`, which
    appends the last digit of `n`, unfolds in step with them.
 */
module Decimal {

  /** True for the ten characters '0' .. '9'. */
  predicate IsDigit(c: char) {
    '0' <= c <= '9'
  }

  /** True when every character of `s` is a decimal digit. */
  predicate AllDigits(s: string) {
    forall i :: 0 <= i < |s| ==> IsDigit(s[i])
  }

  /** `int(c)` for a one-character digit string. */
  function DigitValue(c: char): (d: nat)
    requires IsDigit(c)
    ensures d < 10
  {
    c as int - '0' as int
  }

  /** The character that renders the digit `d`. */
  function DigitChar(d: nat): (c: char)
    requires d < 10
    ensures IsDigit(c)
    ensures DigitValue(c) == d
  {
    ('0' as int + d) as char
  }

  function Pow10(k: nat): (p: nat)
    ensures p >= 1
  {
    if k == 0 then 1 else 10 * Pow10(k - 1)
  }

  /** Python's `str(n)` for a non-negative integer: at least one digit, and no
      leading zero unless the number itself is 0. */
  function Str(n: nat): (s: string)
    ensures |s| >= 1 && AllDigits(s)
    ensures |s| > 1 ==> s[0] != '0'
    ensures |s| == 1 <==> n < 10
    decreases n
  {
    if n < 10 then [DigitChar(n)] else Str(n / 10) + [DigitChar(n % 10)]
  }

  /** The number a digit string denotes (leading zeros allowed). */
  function ParseDecimal(s: string): (n: nat)
    requires AllDigits(s)
    ensures n < Pow10(|s|)
  {
    if |s| == 0 then 0
    else 10 * ParseDecimal(s[..|s| - 1]) + DigitValue(s[|s| - 1])
  }

  /** The sum of the digits of a digit string. */
  function SumDigits(s: string): (total: nat)
    requires AllDigits(s)
    ensures total <= 9 * |s|
  {
    if |s| == 0 then 0
    else SumDigits(s[..|s| - 1]) + DigitValue(s[|s| - 1])
  }

  /** `sum(int(digit) for digit in str(n))`: one step of the life-path
      reduction. */
  function DigitSum(n: nat): (total: nat)
    ensures total % 9 == n % 9
    ensures n > 9 ==> total < n
    ensures n >= 1 ==> total >= 1
  {
    StrRoundTrip(n);
    SumDigitsCongruent(Str(n));
    SumDigitsBelowValue(Str(n));
    SumDigitsZero(Str(n));
    SumDigits(Str(n))
  }

  /** Reading back what `Str` wrote gives the number again. */
  lemma {:induction false} StrRoundTrip(n: nat)
    ensures ParseDecimal(Str(n)) == n
    decreases n
  {
    if n >= 10 {
      StrRoundTrip(n / 10);
      var s := Str(n);
      assert s[..|s| - 1] == Str(n / 10);
    }
  }

  /** Conversely, a digit string without a superfluous leading zero is exactly
      what `Str` writes for its value. */
  lemma {:induction false} ParseDecimalRoundTrip(s: string)
    requires |s| >= 1 && AllDigits(s)
    requires |s| > 1 ==> s[0] != '0'
    ensures Str(ParseDecimal(s)) == s
    decreases |s|
  {
    if |s| > 1 {
      var p := s[..|s| - 1];
      assert p[0] == s[0];
      ParseDecimalLowerBound(p);
      ParseDecimalRoundTrip(p);
      var n := ParseDecimal(s);
      assert n / 10 == ParseDecimal(p);
      assert n % 10 == DigitValue(s[|s| - 1]);
      assert DigitChar(DigitValue(s[|s| - 1])) == s[|s| - 1];
      assert s == p + [s[|s| - 1]];
    }
  }

  /** A digit string that starts with a nonzero digit is worth at least 1. */
  lemma {:induction false} ParseDecimalLowerBound(s: string)
    requires |s| >= 1 && AllDigits(s) && s[0] != '0'
    ensures ParseDecimal(s) >= 1
    decreases |s|
  {
    if |s| > 1 {
      var p := s[..|s| - 1];
      assert p[0] == s[0];
      ParseDecimalLowerBound(p);
    }
  }

  /** Casting out nines: a digit string's digit sum and its value agree
      modulo 9. */
  lemma {:induction false} SumDigitsCongruent(s: string)
    requires AllDigits(s)
    ensures SumDigits(s) % 9 == ParseDecimal(s) % 9
    decreases |s|
  {
    if |s| > 0 {
      var p := s[..|s| - 1];
      SumDigitsCongruent(p);
      var d := DigitValue(s[|s| - 1]);
      var v := ParseDecimal(p);
      assert 10 * v + d == 9 * v + (v + d);
      ModShift(v + d, v);
      ModAdd(SumDigits(p), v, d);
    }
  }

  lemma ModShift(a: nat, v: nat)
    ensures (9 * v + a) % 9 == a % 9
  {
  }

  lemma ModAdd(x: nat, y: nat, d: nat)
    requires x % 9 == y % 9
    ensures (x + d) % 9 == (y + d) % 9
  {
  }

  /** The digit sum never exceeds the value, and falls strictly below it as
      soon as some digit other than the last is nonzero. */
  lemma {:induction false} SumDigitsBelowValue(s: string)
    requires AllDigits(s)
    ensures SumDigits(s) <= ParseDecimal(s)
    ensures |s| >= 1 && ParseDecimal(s[..|s| - 1]) >= 1 ==> SumDigits(s) < ParseDecimal(s)
    decreases |s|
  {
    if |s| > 0 {
      SumDigitsBelowValue(s[..|s| - 1]);
    }
  }

  /** A digit string whose digits sum to 0 denotes 0. */
  lemma {:induction false} SumDigitsZero(s: string)
    requires AllDigits(s)
    ensures SumDigits(s) == 0 ==> ParseDecimal(s) == 0
    decreases |s|
  {
    if |s| > 0 {
      SumDigitsZero(s[..|s| - 1]);
    }
  }

  /** The digit sum of a concatenation is the sum of the digit sums. */
  lemma {:induction false} SumDigitsAppend(a: string, b: string)
    requires AllDigits(a) && AllDigits(b)
    ensures AllDigits(a + b)
    ensures SumDigits(a + b) == SumDigits(a) + SumDigits(b)
    decreases |b|
  {
    if |b| == 0 {
      assert a + b == a;
    } else {
      var b' := b[..|b| - 1];
      SumDigitsAppend(a, b');
      assert (a + b)[..|a + b| - 1] == a + b';
    }
  }

  /** The digit sum of `str(n)` for `n >= 10`: its last digit plus the digit
      sum of `n / 10`. */
  lemma DigitSumStep(n: nat)
    requires n >= 10
    ensures SumDigits(Str(n)) == SumDigits(Str(n / 10)) + n % 10
  {
    var s := Str(n);
    assert s[..|s| - 1] == Str(n / 10);
  }
}
