/** `rounded_to_precision` as written in core/core.py and, identically, in
    yat/calcus.py: truncation toward zero at 10^-p for a positive precision p,
    and an error for every other precision. */
module Precision {
  import opened Common

  function Pow10(p: nat): (r: real)
    ensures r >= 1.0
  {
    if p == 0 then 1.0 else 10.0 * Pow10(p - 1)
  }

  /** Python's `math.trunc`: the integer part, rounding toward zero. */
  function Trunc(x: real): int
  {
    if x >= 0.0 then x.Floor else -((-x).Floor)
  }

  lemma TruncBounds(x: real)
    ensures x >= 0.0 ==> 0 <= Trunc(x) && Trunc(x) as real <= x < Trunc(x) as real + 1.0
    ensures x < 0.0 ==> Trunc(x) <= 0 && Trunc(x) as real - 1.0 < x <= Trunc(x) as real
  {
  }

  lemma TruncOfInt(k: int)
    ensures Trunc(k as real) == k
  {
  }

  lemma TruncOfReal(a: real, k: int)
    requires a == k as real
    ensures Trunc(a) == k
  {
    TruncOfInt(k);
  }

  lemma TruncMonotone(x: real, y: real)
    requires x <= y
    ensures Trunc(x) <= Trunc(y)
  {
    TruncBounds(x);
    TruncBounds(y);
  }

  /** Truncation onto the grid of multiples of 1/d, for a scale d >= 1. */
  function TruncScaled(x: real, d: real): real
    requires d >= 1.0
  {
    Trunc(x * d) as real / d
  }

  /** The body of the `precision > 0` branch:
      `math.trunc(number * 10**p) / 10**p`. */
  function TruncTo(x: real, p: nat): (r: real)
    requires p > 0
    ensures OnScaledGrid(r, x, Pow10(p))
  {
    PowerGrid(x, p);
    TruncScaled(x, Pow10(p))
  }

  /** `ScaledOnGrid` at the scale 10^p. */
  lemma PowerGrid(x: real, p: nat)
    ensures OnScaledGrid(TruncScaled(x, Pow10(p)), x, Pow10(p))
  {
    ScaledOnGrid(x, Pow10(p));
  }

  /** The model of `rounded_to_precision(number, precision)`. For p <= 0 the
      source evaluates `float('%d'.format(number))`; `str.format` leaves the
      text "%d" as it is, and `float` rejects it with ValueError. */
  function RoundedToPrecision(x: real, p: int): (r: Result<real>)
    ensures r.Ok? <==> p > 0
    ensures p <= 0 ==> r == Err(ValueError)
    ensures p > 0 ==> r == Ok(TruncTo(x, p))
  {
    if p > 0 then Ok(TruncTo(x, p)) else Err(ValueError)
  }

  lemma DivMonotone(a: real, b: real, d: real)
    requires a <= b && d > 0.0
    ensures a / d <= b / d
  {
    assert b / d - a / d == (b - a) / d;
  }

  lemma DivStrict(a: real, b: real, d: real)
    requires a < b && d > 0.0
    ensures a / d < b / d
  {
    assert b / d - a / d == (b - a) / d;
  }

  lemma ScaleBack(x: real, d: real, k: real)
    requires d >= 1.0
    ensures (x * d) / d == x
    ensures x - k / d == (x * d - k) / d
    ensures x < 0.0 ==> x * d < 0.0
    ensures x >= 0.0 ==> x * d >= 0.0
  {
  }

  /** `r` is `x` truncated onto the multiples of 1/d: `r * d` is the
      integer `trunc(x * d)`. */
  predicate OnScaledGrid(r: real, x: real, d: real)
  {
    r * d == Trunc(x * d) as real
  }

  lemma ScaledOnGrid(x: real, d: real)
    requires d >= 1.0
    ensures TruncScaled(x, d) * d == Trunc(x * d) as real
    ensures OnScaledGrid(TruncScaled(x, d), x, d)
  {
    var k := Trunc(x * d) as real;
    assert (k / d) * d == k;
  }

  /** A non-negative x whose scaled value lies in [k, k+1) sits within 1/d
      above k/d. */
  lemma GridNonNegative(x: real, d: real, k: real)
    requires d >= 1.0 && x >= 0.0 && 0.0 <= k <= x * d < k + 1.0
    ensures 0.0 <= k / d <= x
    ensures 0.0 <= x - k / d < 1.0 / d
  {
    ScaleBack(x, d, k);
    DivMonotone(0.0, k, d);
    DivMonotone(k, x * d, d);
    DivStrict(x * d - k, 1.0, d);
    DivMonotone(0.0, x * d - k, d);
  }

  /** A negative x whose scaled value lies in (k-1, k] sits within 1/d
      below k/d. */
  lemma GridNegative(x: real, d: real, k: real)
    requires d >= 1.0 && x < 0.0 && k - 1.0 < x * d <= k <= 0.0
    ensures x <= k / d <= 0.0
    ensures -1.0 / d < x - k / d <= 0.0
  {
    ScaleBack(x, d, k);
    DivMonotone(x * d, k, d);
    DivMonotone(k, 0.0, d);
    DivStrict(-1.0, x * d - k, d);
    DivMonotone(x * d - k, 0.0, d);
  }

  lemma ScaledTowardZeroNonNegative(x: real, d: real)
    requires d >= 1.0 && x >= 0.0
    ensures 0.0 <= TruncScaled(x, d) <= x
    ensures 0.0 <= x - TruncScaled(x, d) < 1.0 / d
  {
    var k := Trunc(x * d) as real;
    assert TruncScaled(x, d) == k / d;
    ScaleBack(x, d, k);
    TruncBounds(x * d);
    GridNonNegative(x, d, k);
  }

  lemma ScaledTowardZeroNegative(x: real, d: real)
    requires d >= 1.0 && x < 0.0
    ensures x <= TruncScaled(x, d) <= 0.0
    ensures -1.0 / d < x - TruncScaled(x, d) <= 0.0
  {
    var k := Trunc(x * d) as real;
    assert TruncScaled(x, d) == k / d;
    ScaleBack(x, d, k);
    TruncBounds(x * d);
    GridNegative(x, d, k);
  }

  lemma ScaledTowardZero(x: real, d: real)
    requires d >= 1.0
    ensures x >= 0.0 ==> 0.0 <= TruncScaled(x, d) <= x
    ensures x < 0.0 ==> x <= TruncScaled(x, d) <= 0.0
    ensures -1.0 / d < x - TruncScaled(x, d) < 1.0 / d
  {
    DivMonotone(0.0, 1.0, d);
    if x >= 0.0 {
      ScaledTowardZeroNonNegative(x, d);
    } else {
      ScaledTowardZeroNegative(x, d);
    }
  }

  /** A value on the grid of 1/d truncates to itself. */
  lemma ScaledOfGridPoint(y: real, d: real, k: int)
    requires d >= 1.0 && y * d == k as real
    ensures TruncScaled(y, d) == k as real / d
  {
    TruncOfReal(y * d, k);
  }

  lemma ScaledIdempotent(x: real, d: real)
    requires d >= 1.0
    ensures TruncScaled(TruncScaled(x, d), d) == TruncScaled(x, d)
  {
    var k := Trunc(x * d);
    ScaledOnGrid(x, d);
    ScaledOfGridPoint(TruncScaled(x, d), d, k);
  }

  lemma ScaledMonotone(x: real, y: real, d: real)
    requires d >= 1.0 && x <= y
    ensures TruncScaled(x, d) <= TruncScaled(y, d)
  {
    assert y * d - x * d == (y - x) * d;
    TruncMonotone(x * d, y * d);
    DivMonotone(Trunc(x * d) as real, Trunc(y * d) as real, d);
  }

  /** For p > 0 the result lies on the grid of multiples of 10^-p. */
  lemma OnGrid(x: real, p: nat)
    requires p > 0
    ensures TruncTo(x, p) * Pow10(p) == Trunc(x * Pow10(p)) as real
  {
    assert OnScaledGrid(TruncTo(x, p), x, Pow10(p));
  }

  /** Truncation moves toward zero and stays within one grid step of x. */
  lemma TowardZero(x: real, p: nat)
    requires p > 0
    ensures x >= 0.0 ==> 0.0 <= TruncTo(x, p) <= x
    ensures x < 0.0 ==> x <= TruncTo(x, p) <= 0.0
    ensures -1.0 / Pow10(p) < x - TruncTo(x, p) < 1.0 / Pow10(p)
  {
    var d := Pow10(p);
    ScaledTowardZero(x, d);
    assert TruncTo(x, p) == TruncScaled(x, d);
  }

  lemma Idempotent(x: real, p: nat)
    requires p > 0
    ensures TruncTo(TruncTo(x, p), p) == TruncTo(x, p)
  {
    var d := Pow10(p);
    ScaledIdempotent(x, d);
    assert TruncTo(x, p) == TruncScaled(x, d);
  }

  lemma Monotone(x: real, y: real, p: nat)
    requires p > 0 && x <= y
    ensures TruncTo(x, p) <= TruncTo(y, p)
  {
    var d := Pow10(p);
    ScaledMonotone(x, y, d);
    assert TruncTo(x, p) == TruncScaled(x, d) && TruncTo(y, p) == TruncScaled(y, d);
  }

  /** The three `>>>` examples of the docstring (core/core.py) and of the unit
      test (tests/test_rounded_to_precision.py). */
  lemma DocExamples()
    ensures RoundedToPrecision(401.4600001000001002455, 8) == Ok(401.4600001)
    ensures RoundedToPrecision(401.4650001, 2) == Ok(401.46)
    ensures RoundedToPrecision(401.01200000004, 3) == Ok(401.012)
  {
    assert Pow10(8) == 100000000.0;
    assert (401.4600001000001002455 * 100000000.0).Floor == 40146000010;
    assert Pow10(2) == 100.0;
    assert (401.4650001 * 100.0).Floor == 40146;
    assert Pow10(3) == 1000.0;
    assert (401.01200000004 * 1000.0).Floor == 401012;
  }

  // ---------------------------------------------------------------------
  // Finding: the non-positive branch can never succeed.

  /** As written, precision 0 (the default) fails for every number. */
  lemma DefaultPrecisionFails(x: real)
    ensures RoundedToPrecision(x, 0).Err?
  {
  }

  /** What the branch evidently means: `float('%d' % number)`, i.e. the
      integer part of the number, for every p <= 0. */
  function RoundedToPrecisionIntended(x: real, p: int): (r: real)
    ensures p > 0 ==> RoundedToPrecision(x, p) == Ok(r)
  {
    if p > 0 then TruncTo(x, p) else Trunc(x) as real
  }

  /** The corrected function truncates toward zero onto a grid for every
      precision, and its result is always a value, never an error. */
  lemma IntendedTruncates(x: real, p: int)
    ensures var r := RoundedToPrecisionIntended(x, p);
            (x >= 0.0 ==> 0.0 <= r <= x) && (x < 0.0 ==> x <= r <= 0.0)
    ensures p <= 0 ==> RoundedToPrecisionIntended(x, p) == Trunc(x) as real
                       && -1.0 < x - RoundedToPrecisionIntended(x, p) < 1.0
  {
    if p > 0 {
      TowardZero(x, p);
    } else {
      TruncBounds(x);
    }
  }
}
