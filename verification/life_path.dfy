/** The numerology "life path number" of a birthdate: the digits of the date
    written as DDMMYYYY are summed, and the total is replaced by the sum of its
    own digits until a single digit remains.
 */
module LifePath {
  import opened Decimal
  import opened Optional

  /** A calendar date. Whether the day exists in that month and year is the
      date library's business and is taken as given. */
  datatype Date = Date(year: int, month: int, day: int)

  /** The field ranges of a date the date library can represent. */
  predicate ValidDate(d: Date) {
    1 <= d.year <= 9999 && 1 <= d.month <= 12 && 1 <= d.day <= 31
  }

  /** A number below 100 as two zero-padded digits (`%d`, `%m`). */
  function Pad2(n: nat): (s: string)
    requires n < 100
    ensures |s| == 2 && AllDigits(s)
    ensures ParseDecimal(s) == n
  {
    [DigitChar(n / 10), DigitChar(n % 10)]
  }

  /** A number below 10000 as four zero-padded digits (`%Y`). */
  function Pad4(n: nat): (s: string)
    requires n < 10000
    ensures |s| == 4 && AllDigits(s)
    ensures ParseDecimal(s) == n
  {
    var s := Pad2(n / 100) + Pad2(n % 100);
    assert s[..3][..2] == Pad2(n / 100);
    s
  }

  /** `birthdate.strftime("%d%m%Y")`. */
  function Format(d: Date): (s: string)
    requires ValidDate(d)
    ensures |s| == 8 && AllDigits(s)
  {
    Pad2(d.day) + Pad2(d.month) + Pad4(d.year)
  }

  /** Reads a DDMMYYYY string back into a date; None unless the string is
      eight digits. */
  function ParseDate(s: string): (r: Option<Date>)
    ensures r.Some? <==> |s| == 8 && AllDigits(s)
  {
    if |s| == 8 && AllDigits(s) then
      Some(Date(ParseDecimal(s[4..8]), ParseDecimal(s[2..4]), ParseDecimal(s[0..2])))
    else
      None
  }

  /** The digit sum the reduction starts from (app.py line 15). */
  function InitialSum(d: Date): (total: nat)
    requires ValidDate(d)
    ensures 1 <= total <= 72
  {
    var s := Format(d);
    SumDigitsAppend(Pad2(d.day), Pad2(d.month));
    SumDigitsAppend(Pad2(d.day) + Pad2(d.month), Pad4(d.year));
    SumDigits(s)
  }

  /** The reduction loop of app.py lines 16-17 as a recursive function:
      while the total exceeds 9 it is replaced by its digit sum. */
  function Reduce(total: nat): (r: nat)
    ensures r <= 9
    ensures r % 9 == total % 9
    ensures total >= 1 ==> r >= 1
    ensures total <= 9 ==> r == total
    decreases total
  {
    if total > 9 then Reduce(DigitSum(total)) else total
  }

  /** The digital root, stated without any iteration: the unique value in
      1..9 congruent to `n` modulo 9. */
  function DigitalRoot(n: nat): nat
    requires n >= 1
  {
    1 + (n - 1) % 9
  }

  /** `calculate_life_path_number` as a function. */
  function LifePathNumber(d: Date): (r: nat)
    requires ValidDate(d)
    ensures 1 <= r <= 9
    ensures r == DigitalRoot(InitialSum(d))
  {
    ReduceIsDigitalRoot(InitialSum(d));
    Reduce(InitialSum(d))
  }

  /** `calculate_life_path_number` as the source writes it: one pass summing
      the formatted digits, then the reduction loop. */
  method CalculateLifePathNumber(birthdate: Date) returns (total: nat)
    requires ValidDate(birthdate)
    ensures 1 <= total <= 9
    ensures total % 9 == InitialSum(birthdate) % 9
    ensures InitialSum(birthdate) <= 9 ==> total == InitialSum(birthdate)
    ensures total == LifePathNumber(birthdate)
  {
    var digits := Format(birthdate);
    total := 0;
    var i := 0;
    while i < |digits|
      invariant 0 <= i <= |digits|
      invariant total == SumDigits(digits[..i])
    {
      assert digits[..i + 1][..i] == digits[..i];
      total := total + DigitValue(digits[i]);
      i := i + 1;
    }
    assert digits[..i] == digits;
    assert total == InitialSum(birthdate);
    ghost var start := total;
    while total > 9
      invariant 1 <= total
      invariant total % 9 == start % 9
      invariant start <= 9 ==> total == start
      invariant Reduce(total) == Reduce(start)
      decreases total
    {
      total := DigitSum(total);
    }
  }

  /** The reduction always ends at the digital root of a positive start. */
  lemma ReduceIsDigitalRoot(n: nat)
    requires n >= 1
    ensures Reduce(n) == DigitalRoot(n)
  {
    SingleDigitCongruent(Reduce(n), n);
  }

  /** The only value in 1..9 congruent to `n` modulo 9 is `1 + (n - 1) % 9`. */
  lemma SingleDigitCongruent(r: nat, n: nat)
    requires 1 <= r <= 9 && n >= 1
    requires r % 9 == n % 9
    ensures r == 1 + (n - 1) % 9
  {
    var q, k := (n - 1) / 9, (n - 1) % 9;
    assert n == 9 * q + (k + 1);
    ModShift(k + 1, q);
    if k == 8 {
      assert n % 9 == 0;
    } else {
      assert n % 9 == k + 1;
      assert r != 9;
    }
  }

  /** Formatting and reading back a date are inverse. */
  lemma FormatRoundTrip(d: Date)
    requires ValidDate(d)
    ensures ParseDate(Format(d)) == Some(d)
  {
    var s := Format(d);
    assert s[0..2] == Pad2(d.day);
    assert s[2..4] == Pad2(d.month);
    assert s[4..8] == Pad4(d.year);
  }

  /** The digits of a formatted date are those of the day, the month and the
      year, in that order. */
  lemma InitialSumSplits(d: Date)
    requires ValidDate(d)
    ensures InitialSum(d) == d.day / 10 + d.day % 10 + d.month / 10 + d.month % 10
                             + SumDigits(Pad4(d.year))
  {
    SumDigitsAppend(Pad2(d.day), Pad2(d.month));
    SumDigitsAppend(Pad2(d.day) + Pad2(d.month), Pad4(d.year));
    Pad2Sum(d.day);
    Pad2Sum(d.month);
  }

  lemma Pad2Sum(n: nat)
    requires n < 100
    ensures SumDigits(Pad2(n)) == n / 10 + n % 10
  {
    var p := Pad2(n);
    assert p[..1] == [DigitChar(n / 10)];
    assert p[..1][..0] == [];
  }

  /** Whether or not `%Y` pads a year below 1000 with zeros, the digit sum,
      and so the life path number, is the same. */
  lemma YearPaddingIrrelevant(year: nat)
    requires 1 <= year <= 9999
    ensures SumDigits(Pad4(year)) == SumDigits(Str(year))
  {
    SumDigitsAppend(Pad2(year / 100), Pad2(year % 100));
    Pad2Sum(year / 100);
    Pad2Sum(year % 100);
    FourDigits(year);
    StrDigitSum(year);
  }

  /** The digit sum of `str(n)` for `n` below 10000, digit by digit. */
  lemma {:induction false} StrDigitSum(n: nat)
    requires n < 10000
    ensures SumDigits(Str(n)) == n / 1000 + (n / 100) % 10 + (n / 10) % 10 + n % 10
    decreases n
  {
    FourDigits(n);
    if n < 10 {
      assert [DigitChar(n)][..0] == [];
    } else {
      var m := n / 10;
      DigitSumStep(n);
      StrDigitSum(m);
      FourDigits(m);
      assert SumDigits(Str(m)) == m / 1000 + (m / 100) % 10 + (m / 10) % 10 + m % 10;
      assert m / 1000 == 0 && m / 100 == n / 1000 && m / 10 == n / 100;
    }
  }

  /** How the digits of a number below 10000 are regrouped by division. */
  lemma FourDigits(n: nat)
    requires n < 10000
    ensures (n / 10) / 10 == n / 100 && (n / 10) / 100 == n / 1000
    ensures (n / 10) / 1000 == 0 && n / 1000 < 10 && (n / 1000) % 10 == n / 1000
    ensures n < 10 ==> n / 1000 == 0 && (n / 100) % 10 == 0 && (n / 10) % 10 == 0 && n % 10 == n
    ensures (n / 100) / 10 == n / 1000
    ensures (n % 100) / 10 == (n / 10) % 10 && (n % 100) % 10 == n % 10
  {
    var m, e := n / 10, n % 10;
    var p, c := m / 10, m % 10;
    var a, b := p / 10, p % 10;
    assert n == 100 * p + (10 * c + e);
    DivMod(n, 100, p, 10 * c + e);
    assert n == 1000 * a + (100 * b + 10 * c + e);
    DivMod(n, 1000, a, 100 * b + 10 * c + e);
    assert m == 100 * a + (10 * b + c);
    DivMod(m, 100, a, 10 * b + c);
    assert m == 1000 * 0 + m;
    DivMod(m, 1000, 0, m);
    DivMod(10 * c + e, 10, c, e);
  }

  /** Division with remainder by a power of ten has a unique answer. */
  lemma DivMod(x: nat, d: nat, q: nat, r: nat)
    requires d == 10 || d == 100 || d == 1000
    requires x == d * q + r && r < d
    ensures x / d == q && x % d == r
  {
    if d == 10 {
      assert x == 10 * q + r;
    } else if d == 100 {
      assert x == 100 * q + r;
    } else {
      assert x == 1000 * q + r;
    }
  }

  /** 1990-05-15 is written "15051990", whose digits sum to 30, which reduces
      to 3. */
  lemma ExampleMay1990()
    ensures Format(Date(1990, 5, 15)) == "15051990"
    ensures InitialSum(Date(1990, 5, 15)) == 30
    ensures LifePathNumber(Date(1990, 5, 15)) == 3
  {
    InitialSumSplits(Date(1990, 5, 15));
    YearPaddingIrrelevant(1990);
    StrDigitSum(1990);
  }

  /** 2000-01-01 is written "01012000", whose digit sum 4 is already a single
      digit and is returned unchanged. */
  lemma ExampleJanuary2000()
    ensures Format(Date(2000, 1, 1)) == "01012000"
    ensures InitialSum(Date(2000, 1, 1)) == 4
    ensures LifePathNumber(Date(2000, 1, 1)) == 4
  {
    InitialSumSplits(Date(2000, 1, 1));
    YearPaddingIrrelevant(2000);
    StrDigitSum(2000);
  }
}
