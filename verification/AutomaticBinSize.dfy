/**
 The automatic price-bin size in exact arithmetic: the readable factor times a
 power of ten that is nearest to the raw size.
 */
module AutomaticBinSize {
  import opened Wrappers

  datatype ResolutionError = NonPositiveMidpoint | NoPriceBins

  const SPAN_FRACTION := 0.0025

  const NICE_FACTORS: seq<real> := [1.0, 2.0, 2.5, 5.0, 10.0]

  /** `m` times the power of ten with exponent `e`. */
  function Scale(m: real, e: int): (r: real)
    ensures m > 0.0 ==> r > 0.0
    decreases if e < 0 then -e else e
  {
    if e == 0 then m else if e > 0 then 10.0 * Scale(m, e - 1) else Scale(m, e + 1) / 10.0
  }

  /** `std::pow(10.0, e)`. */
  function Power10(e: int): (p: real)
    ensures p > 0.0
  {
    Scale(1.0, e)
  }

  lemma {:induction false} InverseShrinks(x: real)
    requires 0.0 < x < 1.0
    ensures 10.0 * x < 1.0 ==> (1.0 / (10.0 * x)).Floor < (1.0 / x).Floor
    ensures (1.0 / x).Floor >= 1
  {
    var inverse := 1.0 / x;
    assert inverse * x == 1.0;
    assert inverse > 1.0;
    assert 1.0 / (10.0 * x) == inverse / 10.0;
  }

  /** `std::floor(std::log10(x))`: the exponent of the decade that holds `x`. */
  function Decade(x: real): (e: int)
    requires x > 0.0
    decreases if x >= 10.0 then x.Floor else if x < 1.0 then (1.0 / x).Floor else 0
  {
    if x >= 10.0 then
      assert (x / 10.0).Floor < x.Floor;
      Decade(x / 10.0) + 1
    else if x < 1.0 then
      InverseShrinks(x);
      Decade(10.0 * x) - 1
    else 0
  }

  /** The number from 1 up to 10 that, scaled to its decade, gives `x` back. */
  function Mantissa(x: real): (m: real)
    requires x > 0.0
    ensures 1.0 <= m < 10.0
    decreases if x >= 10.0 then x.Floor else if x < 1.0 then (1.0 / x).Floor else 0
  {
    if x >= 10.0 then
      assert (x / 10.0).Floor < x.Floor;
      Mantissa(x / 10.0)
    else if x < 1.0 then
      InverseShrinks(x);
      Mantissa(10.0 * x)
    else x
  }

  lemma {:induction false} ScaleStep(m: real, e: int)
    ensures Scale(m, e + 1) == 10.0 * Scale(m, e)
  {}

  lemma {:induction false} MantissaAndDecade(x: real)
    requires x > 0.0
    ensures Scale(Mantissa(x), Decade(x)) == x
    decreases if x >= 10.0 then x.Floor else if x < 1.0 then (1.0 / x).Floor else 0
  {
    if x >= 10.0 {
      assert (x / 10.0).Floor < x.Floor;
      MantissaAndDecade(x / 10.0);
      ScaleStep(Mantissa(x), Decade(x / 10.0));
    } else if x < 1.0 {
      InverseShrinks(x);
      MantissaAndDecade(10.0 * x);
      ScaleStep(Mantissa(x), Decade(10.0 * x) - 1);
    }
  }

  lemma {:induction false} ScaleIsProduct(m: real, e: int)
    ensures Scale(m, e) == m * Power10(e)
    decreases if e < 0 then -e else e
  {
    if e > 0 {
      ScaleIsProduct(m, e - 1);
      TenTimes(m, Power10(e - 1));
    } else if e < 0 {
      ScaleIsProduct(m, e + 1);
      TenTimes(m, Power10(e));
    }
  }

  lemma {:induction false} TenTimes(m: real, p: real)
    ensures m * (10.0 * p) == 10.0 * (m * p)
  {}

  lemma {:induction false} QuotientIs(a: real, m: real, x: real)
    requires m > 0.0 && x * m == a
    ensures a / m == x
  {}

  function Distance(a: real, b: real): real {
    if a < b then b - a else a - b
  }

  predicate IsNearest(factor: real, x: real) {
    && factor in NICE_FACTORS
    && forall i :: 0 <= i < |NICE_FACTORS| ==> Distance(factor, x) <= Distance(NICE_FACTORS[i], x)
  }

  /** The first factor at the least distance, by its thresholds. */
  function Nearest(x: real): real {
    if x <= 1.5 then 1.0
    else if x <= 2.25 then 2.0
    else if x <= 3.75 then 2.5
    else if x <= 7.5 then 5.0
    else 10.0
  }

  /** The same among the first `n` factors. */
  function FirstNearest(x: real, n: nat): real
    requires n <= |NICE_FACTORS|
  {
    if n <= 1 then 1.0
    else if n == 2 then if x <= 1.5 then 1.0 else 2.0
    else if n == 3 then if x <= 1.5 then 1.0 else if x <= 2.25 then 2.0 else 2.5
    else if n == 4 then if x <= 1.5 then 1.0 else if x <= 2.25 then 2.0 else if x <= 3.75 then 2.5 else 5.0
    else Nearest(x)
  }

  method ClosestFactor(normalized: real) returns (closest: real)
    ensures closest == Nearest(normalized)
  {
    closest := NICE_FACTORS[0];
    for i := 0 to |NICE_FACTORS|
      invariant closest == FirstNearest(normalized, i)
    {
      var candidate := NICE_FACTORS[i];
      if Distance(candidate, normalized) < Distance(closest, normalized) {
        closest := candidate;
      }
    }
  }

  function RawBinSize(midpoint: real, bins: nat): (raw: real)
    requires bins > 0
    ensures midpoint > 0.0 ==> raw > 0.0
  {
    midpoint * SPAN_FRACTION / bins as real
  }

  function Resolve(raw: real): real
    requires raw > 0.0
  {
    Scale(Nearest(Mantissa(raw)), Decade(raw))
  }

  method AutomaticPriceBinSize(midpoint: real, priceBinCount: nat) returns (r: Result<real, ResolutionError>)
    ensures r == if midpoint <= 0.0 then Failure(NonPositiveMidpoint)
                 else if priceBinCount == 0 then Failure(NoPriceBins)
                 else Success(Resolve(RawBinSize(midpoint, priceBinCount)))
  {
    if midpoint <= 0.0 {
      return Failure(NonPositiveMidpoint);
    }
    if priceBinCount == 0 {
      return Failure(NoPriceBins);
    }
    var resolved := ResolveBySearch(RawBinSize(midpoint, priceBinCount));
    return Success(resolved);
  }

  method ResolveBySearch(rawBinSize: real) returns (resolved: real)
    requires rawBinSize > 0.0
    ensures resolved == Resolve(rawBinSize)
  {
    var magnitude := Power10(Decade(rawBinSize));
    assert rawBinSize / magnitude == Mantissa(rawBinSize) by {
      MantissaAndDecade(rawBinSize);
      ScaleIsProduct(Mantissa(rawBinSize), Decade(rawBinSize));
      QuotientIs(rawBinSize, magnitude, Mantissa(rawBinSize));
    }
    var closest := ClosestFactor(rawBinSize / magnitude);
    ScaleIsProduct(closest, Decade(rawBinSize));
    resolved := closest * magnitude;
  }

  // ---------- Accuracy ----------

  lemma {:induction false} NearestIsNearest(x: real)
    requires 1.0 <= x < 10.0
    ensures IsNearest(Nearest(x), x)
    ensures 2.0 * x <= 3.0 * Nearest(x) && 3.0 * Nearest(x) <= 4.0 * x
  {
    assert NICE_FACTORS[0] == 1.0 && NICE_FACTORS[1] == 2.0 && NICE_FACTORS[2] == 2.5;
    assert NICE_FACTORS[3] == 5.0 && NICE_FACTORS[4] == 10.0;
  }

  /** A ratio kept within a third is kept by scaling. */
  lemma {:induction false} ScaleKeepsThird(x: real, f: real, e: int)
    requires 2.0 * x <= 3.0 * f && 3.0 * f <= 4.0 * x
    ensures 2.0 * Scale(x, e) <= 3.0 * Scale(f, e) && 3.0 * Scale(f, e) <= 4.0 * Scale(x, e)
    decreases if e < 0 then -e else e
  {
    if e > 0 {
      ScaleKeepsThird(x, f, e - 1);
    } else if e < 0 {
      ScaleKeepsThird(x, f, e + 1);
    }
  }

  /** The resolved size is the nearest readable factor times a power of ten, within a third of the raw size. */
  lemma {:induction false} ResolvedWithinAThird(raw: real)
    requires raw > 0.0
    ensures Resolve(raw) == Scale(Nearest(Mantissa(raw)), Decade(raw))
    ensures raw == Scale(Mantissa(raw), Decade(raw)) && IsNearest(Nearest(Mantissa(raw)), Mantissa(raw))
    ensures 2.0 * raw <= 3.0 * Resolve(raw) <= 4.0 * raw
  {
    MantissaAndDecade(raw);
    NearestIsNearest(Mantissa(raw));
    ScaleKeepsThird(Mantissa(raw), Nearest(Mantissa(raw)), Decade(raw));
  }

  lemma {:induction false} Times(a: real, b: real, n: real)
    requires n > 0.0
    ensures a <= b ==> a * n <= b * n
    ensures a < b ==> a * n < b * n
  {
    var d := b - a;
    assert d * n == b * n - a * n;
    if d > 0.0 {
      assert d * n > 0.0;
    }
  }

  lemma {:induction false} RawTimesBins(midpoint: real, bins: nat)
    requires bins > 0
    ensures RawBinSize(midpoint, bins) * bins as real == midpoint * SPAN_FRACTION
  {}

  lemma {:induction false} TimesThird(raw: real, size: real, n: real, target: real, span: real)
    requires n > 0.0 && raw * n == target && size * n == span
    requires 2.0 * raw <= 3.0 * size && 3.0 * size <= 4.0 * raw
    ensures 2.0 * target <= 3.0 * span <= 4.0 * target
  {
    Times(2.0 * raw, 3.0 * size, n);
    Times(3.0 * size, 4.0 * raw, n);
    assert 2.0 * raw * n == 2.0 * target && 3.0 * size * n == 3.0 * span && 4.0 * raw * n == 4.0 * target;
  }

  lemma {:induction false} SpanOf(raw: real, n: real, target: real)
    requires raw > 0.0 && n > 0.0 && raw * n == target
    ensures 2.0 * target <= 3.0 * (Resolve(raw) * n) <= 4.0 * target
  {
    var size := Resolve(raw);
    assert 2.0 * raw <= 3.0 * size && 3.0 * size <= 4.0 * raw by {
      ResolvedWithinAThird(raw);
    }
    TimesThird(raw, size, n, target, size * n);
  }

  /** The span of all bins, for a bin size resolved from this raw size. */
  function Span(raw: real, bins: nat): real
    requires raw > 0.0
  {
    Resolve(raw) * bins as real
  }

  /** The whole span of all bins is within a third of 0.25% of the midpoint. */
  lemma {:induction false} SpanWithinAThird(midpoint: real, bins: nat, raw: real)
    requires midpoint > 0.0 && bins > 0 && raw == RawBinSize(midpoint, bins)
    ensures 2.0 * (midpoint * SPAN_FRACTION) <= 3.0 * Span(raw, bins) <= 4.0 * (midpoint * SPAN_FRACTION)
  {
    RawTimesBins(midpoint, bins);
    SpanOf(raw, bins as real, midpoint * SPAN_FRACTION);
  }

  // ---------- Monotonicity ----------

  lemma {:induction false} NearestMonotone(x: real, y: real)
    requires x <= y
    ensures 1.0 <= Nearest(x) <= Nearest(y) <= 10.0
  {}

  lemma {:induction false} ScaleMonotone(x: real, y: real, e: int)
    ensures x <= y ==> Scale(x, e) <= Scale(y, e)
    ensures x < y ==> Scale(x, e) < Scale(y, e)
    decreases if e < 0 then -e else e
  {
    if e > 0 {
      ScaleMonotone(x, y, e - 1);
    } else if e < 0 {
      ScaleMonotone(x, y, e + 1);
    }
  }

  lemma {:induction false} LaterDecade(x: real, y: real, d: int, e: int)
    requires 0.0 < x <= 10.0 && 1.0 <= y && d < e
    ensures Scale(x, d) <= Scale(y, e)
    decreases e - d
  {
    if d + 1 == e {
      ScaleStep(y, d);
      ScaleMonotone(x, 10.0 * y, d);
      ScaleTen(y, d);
    } else {
      LaterDecade(x, y, d, e - 1);
      ScaleStep(y, e - 1);
      ScaleMonotone(0.0, y, e - 1);
      ScaleZero(e - 1);
    }
  }

  lemma {:induction false} ScaleZero(e: int)
    ensures Scale(0.0, e) == 0.0
    decreases if e < 0 then -e else e
  {
    if e > 0 {
      ScaleZero(e - 1);
    } else if e < 0 {
      ScaleZero(e + 1);
    }
  }

  lemma {:induction false} ScaleTen(y: real, e: int)
    ensures Scale(10.0 * y, e) == 10.0 * Scale(y, e)
    decreases if e < 0 then -e else e
  {
    if e > 0 {
      ScaleTen(y, e - 1);
    } else if e < 0 {
      ScaleTen(y, e + 1);
    }
  }

  /** A larger raw size never resolves to a smaller bin. */
  lemma {:induction false} ResolveMonotone(a: real, b: real)
    requires 0.0 < a <= b
    ensures Resolve(a) <= Resolve(b)
  {
    MantissaAndDecade(a);
    MantissaAndDecade(b);
    var x, y, d, e := Mantissa(a), Mantissa(b), Decade(a), Decade(b);
    if d == e {
      ScaleMonotone(y, x, d);
      NearestMonotone(if x <= y then x else y, y);
      ScaleMonotone(Nearest(x), Nearest(y), d);
    } else if d < e {
      NearestMonotone(x, x);
      NearestMonotone(y, y);
      LaterDecade(Nearest(x), Nearest(y), d, e);
    } else {
      StrictlyLaterDecade(y, x, e, d);
      assert false;
    }
  }

  lemma {:induction false} StrictlyLaterDecade(x: real, y: real, d: int, e: int)
    requires 0.0 < x < 10.0 && 1.0 <= y && d < e
    ensures Scale(x, d) < Scale(y, e)
  {
    ScaleMonotone(x, 10.0, d);
    LaterDecade(10.0, y, d, e);
  }

  /** The automatic bin size is monotone in the midpoint. */
  lemma {:induction false} AutomaticSizeMonotone(low: real, high: real, bins: nat)
    requires 0.0 < low <= high && bins > 0
    ensures Resolve(RawBinSize(low, bins)) <= Resolve(RawBinSize(high, bins))
  {
    var a, b := RawBinSize(low, bins), RawBinSize(high, bins);
    RawTimesBins(low, bins);
    RawTimesBins(high, bins);
    Times(b, a, bins as real);
    ResolveMonotone(a, b);
  }
}
