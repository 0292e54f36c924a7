/**
 * The number arithmetic and formatting the comparison sentences rely on:
 * JavaScript's Math.round on the two unit conversions, Number.prototype.toFixed(1)
 * on a quotient, and the coercion of the resulting numeral back to a number.
 * All quantities are natural numbers; a value "to one decimal" is held as a
 * whole number of tenths.
 */
module NumberFormat {

  /** The character of the decimal digit d. */
  function Digit(d: nat): (c: char)
    requires d < 10
    ensures IsDigit(c) && c as int - '0' as int == d
  {
    ('0' as int + d) as char
  }

  predicate IsDigit(c: char) {
    '0' <= c <= '9'
  }

  predicate AllDigits(s: string) {
    forall i :: 0 <= i < |s| ==> IsDigit(s[i])
  }

  /** The value of one digit character. */
  function DigitValue(c: char): (d: nat)
    requires IsDigit(c)
    ensures d < 10 && Digit(d) == c
  {
    c as int - '0' as int
  }

  /** The value of a numeral of decimal digits (the empty numeral is 0). */
  function DecimalValue(s: string): nat
    requires AllDigits(s)
  {
    if s == [] then 0 else 10 * DecimalValue(s[..|s| - 1]) + DigitValue(s[|s| - 1])
  }

  /** How JavaScript writes a whole number: its shortest decimal numeral. */
  function Decimal(n: nat): (s: string)
    ensures 1 <= |s| && AllDigits(s)
    ensures s[0] == '0' ==> n == 0 && s == "0"
    ensures n < 10 <==> |s| == 1
  {
    if n < 10 then [Digit(n)] else Decimal(n / 10) + [Digit(n % 10)]
  }

  lemma {:induction false} DecimalRoundTrip(n: nat)
    ensures DecimalValue(Decimal(n)) == n
  {
    if n >= 10 {
      var s := Decimal(n);
      assert s[..|s| - 1] == Decimal(n / 10);
      DecimalRoundTrip(n / 10);
    }
  }

  /** A numeral with exactly one digit after the decimal point, as toFixed(1) writes it. */
  predicate IsFixed1Numeral(s: string) {
    |s| >= 3 && s[|s| - 2] == '.' && AllDigits(s[..|s| - 2]) && IsDigit(s[|s| - 1])
  }

  /** toFixed(1) of a non-negative number that has already been rounded to t tenths. */
  function Fixed1(t: nat): (s: string)
    ensures IsFixed1Numeral(s)
    ensures s[..|s| - 2] == Decimal(t / 10) && s[|s| - 1] == Digit(t % 10)
  {
    Decimal(t / 10) + "." + [Digit(t % 10)]
  }

  /** The number a one-decimal numeral denotes when JavaScript coerces it, in tenths. */
  function FixedTenths(s: string): nat
    requires IsFixed1Numeral(s)
  {
    10 * DecimalValue(s[..|s| - 2]) + DigitValue(s[|s| - 1])
  }

  /**
   * Reading the numeral that toFixed(1) wrote gives back exactly the rounded value,
   * so comparing the numeral with 1 is comparing the tenths with 10.
   */
  lemma Fixed1RoundTrip(t: nat)
    ensures FixedTenths(Fixed1(t)) == t
  {
    DecimalRoundTrip(t / 10);
  }

  /**
   * (a / b).toFixed(1) as a number of tenths: the whole number of tenths nearest
   * to a / b, a half rounded up (toFixed picks the larger of two equally near values).
   */
  function RatioTenths(a: nat, b: nat): (t: nat)
    requires b > 0
    ensures b * (2 * t - 1) <= 20 * a < b * (2 * t + 1)
  {
    var t := (20 * a + b) / (2 * b);
    DivBounds(20 * a + b, 2 * b);
    assert b * (2 * t - 1) == (2 * b) * t - b && b * (2 * t + 1) == (2 * b) * (t + 1) - b;
    t
  }

  lemma DivBounds(x: nat, d: nat)
    requires d > 0
    ensures d * (x / d) <= x < d * (x / d + 1)
  {
    assert x == d * (x / d) + x % d;
    assert d * (x / d + 1) == d * (x / d) + d;
  }

  /**
   * The rounded ratio is above 1.0 exactly when a / b >= 1.05, and below 1.0
   * exactly when a / b < 0.95; in between it prints as "1.0".
   */
  lemma RatioBands(a: nat, b: nat)
    requires b > 0
    ensures RatioTenths(a, b) > 10 <==> 20 * a >= 21 * b
    ensures RatioTenths(a, b) < 10 <==> 20 * a < 19 * b
    ensures RatioTenths(a, b) == 10 <==> 19 * b <= 20 * a < 21 * b
  {
    var t := RatioTenths(a, b);
    if t > 10 {
      ScaleMonotone(b, 21, 2 * t - 1);
    } else {
      ScaleMonotone(b, 2 * t + 1, 21);
    }
    if t < 10 {
      ScaleMonotone(b, 2 * t + 1, 19);
    } else {
      ScaleMonotone(b, 19, 2 * t - 1);
    }
  }

  lemma ScaleMonotone(b: nat, x: int, y: int)
    requires x <= y
    ensures b * x <= b * y
  {
    assert b * y == b * x + b * (y - x);
  }

  /** Equal quantities always give the ratio 1.0. */
  lemma RatioOfEqual(a: nat)
    requires a > 0
    ensures RatioTenths(a, a) == 10
  {
    RatioBands(a, a);
  }

  /** Math.round(w / 2.21): pounds to the nearest whole kilogram, a kilogram taken as 2.21 pounds. */
  function PoundsToKilograms(w: nat): (k: nat)
    ensures 221 * (2 * k - 1) <= 200 * w < 221 * (2 * k + 1)
  {
    (200 * w + 221) / 442
  }

  /** Math.round(h * 2.54): inches to the nearest whole centimetre, a half rounded up. */
  function InchesToCentimetres(h: nat): (c: nat)
    ensures 50 * (2 * c - 1) <= 254 * h < 50 * (2 * c + 1)
  {
    (254 * h + 50) / 100
  }

  /** Math.round(k * 2.21): the inverse conversion, back to whole pounds. */
  function KilogramsToPounds(k: nat): (w: nat)
    ensures 50 * (2 * w - 1) <= 221 * k < 50 * (2 * w + 1)
  {
    (221 * k + 50) / 100
  }

  /** Math.round(c / 2.54): the inverse conversion, back to whole inches. */
  function CentimetresToInches(c: nat): (h: nat)
    ensures 127 * (2 * h - 1) <= 100 * c < 127 * (2 * h + 1)
  {
    (100 * c + 127) / 254
  }

  /** Converting to kilograms and back loses at most one pound. */
  lemma WeightRoundTrip(w: nat)
    ensures var back := KilogramsToPounds(PoundsToKilograms(w));
            w - 1 <= back <= w + 1
  {
  }

  /** Converting to centimetres and back gives the same number of inches. */
  lemma HeightRoundTrip(h: nat)
    ensures CentimetresToInches(InchesToCentimetres(h)) == h
  {
  }

  /** 220 pounds are 100 kilograms. */
  lemma TwoHundredTwentyPounds()
    ensures PoundsToKilograms(220) == 100
  {
  }
}
