/** Decimal numerals as the program prints them. */
module Decimal {

  function DigitChar(d: nat): (c: char)
    requires d < 10
    ensures '0' <= c <= '9'
  {
    '0' + (d as char)
  }

  function DigitValue(c: char): (d: nat)
    requires '0' <= c <= '9'
    ensures d < 10
  {
    (c - '0') as int
  }

  predicate IsNumeral(s: string) {
    forall i :: 0 <= i < |s| ==> '0' <= s[i] <= '9'
  }

  function Numeral(n: nat): (s: string)
    ensures |s| > 0 && IsNumeral(s)
  {
    if n < 10 then [DigitChar(n)] else Numeral(n / 10) + [DigitChar(n % 10)]
  }

  /** The number a numeral denotes; leading zeros do not count. */
  function Value(s: string): nat
    requires IsNumeral(s)
  {
    if s == "" then 0 else 10 * Value(s[..|s| - 1]) + DigitValue(s[|s| - 1])
  }

  lemma {:induction false} ValueOfNumeral(n: nat)
    ensures Value(Numeral(n)) == n
  {
    if n >= 10 {
      ValueOfNumeral(n / 10);
      assert Numeral(n)[..|Numeral(n)| - 1] == Numeral(n / 10);
    } else {
      assert Numeral(n)[..0] == "";
    }
  }

  /** At least `width` digits, with leading zeros. */
  function Padded(n: nat, width: nat): (s: string)
    ensures IsNumeral(s) && |s| >= width
  {
    var s := Numeral(n);
    if |s| < width then Zeros(width - |s|) + s else s
  }

  function Zeros(n: nat): (s: string)
    ensures |s| == n && forall i :: 0 <= i < n ==> s[i] == '0'
  {
    seq(n, i => '0')
  }

  lemma {:induction false} ValueOfZeros(n: nat, s: string)
    requires IsNumeral(s)
    ensures Value(Zeros(n) + s) == Value(s)
    decreases n + |s|
  {
    if s != "" {
      ValueOfZeros(n, s[..|s| - 1]);
      assert (Zeros(n) + s)[..n + |s| - 1] == Zeros(n) + s[..|s| - 1];
    } else if n > 0 {
      ValueOfZeros(n - 1, "");
      assert Zeros(n) + "" == Zeros(n);
      assert Zeros(n - 1) + "" == Zeros(n - 1);
      assert Zeros(n)[..n - 1] == Zeros(n - 1);
    }
  }

  /** Padding keeps the number. */
  lemma ValueOfPadded(n: nat, width: nat)
    ensures Value(Padded(n, width)) == n
  {
    ValueOfNumeral(n);
    ValueOfZeros(if |Numeral(n)| < width then width - |Numeral(n)| else 0, Numeral(n));
  }

  /** A printed number has no leading zero, unless it is zero. */
  lemma {:induction false} NumeralLeads(n: nat)
    ensures n > 0 ==> Numeral(n)[0] != '0'
    ensures n < 10 ==> |Numeral(n)| == 1
  {
    if n >= 10 {
      NumeralLeads(n / 10);
    }
  }

  /** The text is the number `n` in at least `width` digits, and in more only when it needs them. */
  predicate Denotes(text: string, n: nat, width: nat) {
    && IsNumeral(text) && |text| >= width
    && (|text| > width && |text| > 1 ==> text[0] != '0')
    && Value(text) == n
  }

  lemma PaddedDenotes(n: nat, width: nat)
    ensures Denotes(Padded(n, width), n, width)
  {
    ValueOfPadded(n, width);
    NumeralLeads(n);
  }

  lemma PaddedInjective(m: nat, n: nat, width: nat)
    requires Padded(m, width) == Padded(n, width)
    ensures m == n
  {
    ValueOfPadded(m, width);
    ValueOfPadded(n, width);
  }

  lemma TwoDigits(n: nat)
    requires n < 100
    ensures |Padded(n, 2)| == 2
  {
    if n >= 10 {
      assert |Numeral(n / 10)| == 1;
    }
  }

  /** Strings that agree, cut at equal distance from their ends, agree in both parts. */
  lemma SplitEqual(a: string, b: string, c: string, d: string)
    requires a + b == c + d && |b| == |d|
    ensures a == c && b == d
  {
    assert |a| == |c|;
    assert a == (a + b)[..|a|] && c == (c + d)[..|c|];
    assert b == (a + b)[|a|..] && d == (c + d)[|c|..];
  }

  // ----- fractions, rounded to some digits

  function PowerOfTen(p: nat): (n: nat)
    ensures n > 0
  {
    if p == 0 then 1 else 10 * PowerOfTen(p - 1)
  }

  function Quotient(n: nat, d: nat): nat
    requires d > 0
  {
    n / d
  }

  function Remainder(n: nat, d: nat): (r: nat)
    requires d > 0
    ensures r < d
  {
    n % d
  }

  /** The quotient, rounded half up. */
  function Rounded(n: nat, d: nat): nat
    requires d > 0
  {
    Quotient(n + d / 2, d)
  }

  /** A number of units of which `scale` make one. */
  function FixedPoint(units: nat, scale: nat, precision: nat): string
    requires scale > 0
  {
    Numeral(Quotient(units, scale)) + "." + Padded(Remainder(units, scale), precision)
  }

  function FormatDecimal(value: nat, divisor: nat, precision: nat): string
    requires divisor > 0
  {
    FixedPoint(Rounded(value * PowerOfTen(precision), divisor), PowerOfTen(precision), precision)
  }

  lemma {:induction false} NumeralLength(n: nat, p: nat)
    requires p > 0 && n < PowerOfTen(p)
    ensures |Numeral(n)| <= p
  {
    if n >= 10 {
      assert p > 1;
      NumeralLength(n / 10, p - 1);
    }
  }

  lemma RoundedIsNearest(n: nat, d: nat)
    requires d > 0
    ensures -(d as int) < 2 * (Rounded(n, d) * d - n) <= d
  {
    var sum := n + d / 2;
    assert sum == sum / d * d + sum % d;
  }

  lemma QuotientRemainder(n: nat, d: nat)
    requires d > 0
    ensures Quotient(n, d) * d + Remainder(n, d) == n
  {
  }

  lemma PaddedLength(n: nat, p: nat)
    requires p > 0 && n < PowerOfTen(p)
    ensures |Padded(n, p)| == p
  {
    NumeralLength(n, p);
  }

  /** The text has a whole part, a point and exactly `precision` digits (one zero if that is none), and they
      denote the units. */
  lemma FixedPointDenotes(units: nat, precision: nat) returns (whole: string, fraction: string)
    ensures FixedPoint(units, PowerOfTen(precision), precision) == whole + "." + fraction
    ensures IsNumeral(whole) && IsNumeral(fraction)
    ensures |fraction| == if precision == 0 then 1 else precision
    ensures Value(whole) * PowerOfTen(precision) + Value(fraction) == units
  {
    var scale := PowerOfTen(precision);
    var rest := Remainder(units, scale);
    whole, fraction := Numeral(Quotient(units, scale)), Padded(rest, precision);
    ValueOfNumeral(Quotient(units, scale));
    ValueOfPadded(rest, precision);
    QuotientRemainder(units, scale);
    if precision > 0 {
      PaddedLength(rest, precision);
    }
  }

  /** The printed decimal is the nearest one with `precision` digits to the quotient; halves are rounded up. */
  lemma FormatDecimalIsNearest(value: nat, divisor: nat, precision: nat)
    returns (whole: string, fraction: string, units: nat)
    requires divisor > 0
    ensures FormatDecimal(value, divisor, precision) == whole + "." + fraction
    ensures IsNumeral(whole) && IsNumeral(fraction)
    ensures |fraction| == if precision == 0 then 1 else precision
    ensures units == Value(whole) * PowerOfTen(precision) + Value(fraction)
    ensures -(divisor as int) < 2 * (units * divisor - value * PowerOfTen(precision)) <= divisor
  {
    units := Rounded(value * PowerOfTen(precision), divisor);
    whole, fraction := FixedPointDenotes(units, precision);
    RoundedIsNearest(value * PowerOfTen(precision), divisor);
  }
}
