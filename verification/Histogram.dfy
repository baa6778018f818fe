/** Latency histograms and the percentiles read from them, over real numbers. */
module Histogram {
  import opened Wrappers

  const BUCKETS: nat := 17

  /** Inclusive upper bounds in milliseconds; the last bucket is open-ended. */
  const BOUNDS: seq<int> := [
    50, 100, 250, 500, 1000, 2000, 3000, 5000, 8000, 10000,
    15000, 30000, 60000, 120000, 300000, 600000, 0x7fff_ffff_ffff_ffff]

  type Hist = h: seq<nat> | |h| == 17 witness seq(17, _ => 0)

  /** A histogram over given bounds. */
  ghost predicate Fits(h: seq<nat>, bounds: seq<int>) {
    && |h| == |bounds| > 0
    && (forall i :: 0 <= i < |bounds| ==> 0 < bounds[i])
    && (forall i, j :: 0 <= i < j < |bounds| ==> bounds[i] < bounds[j])
  }

  lemma BoundsAscend(h: Hist)
    ensures Fits(h, BOUNDS)
  {
  }

  /** The first bucket from `i` on whose bound the latency does not exceed, else the last. */
  function IndexFrom(ms: int, i: nat): (index: nat)
    requires i < BUCKETS
    ensures i <= index < BUCKETS && (ms <= BOUNDS[index] || index == BUCKETS - 1)
    ensures i < index ==> BOUNDS[index - 1] < ms
    decreases BUCKETS - i
  {
    if ms <= BOUNDS[i] || i == BUCKETS - 1 then i else IndexFrom(ms, i + 1)
  }

  method HistogramIndex(ms: int) returns (index: nat)
    ensures index == IndexFrom(ms, 0)
  {
    var clamped := if ms < 0 then 0 else ms;
    for i := 0 to BUCKETS
      invariant i < BUCKETS ==> IndexFrom(ms, 0) == IndexFrom(ms, i)
      invariant i == BUCKETS ==> IndexFrom(ms, 0) == BUCKETS - 1
    {
      if clamped <= BOUNDS[i] {
        return i;
      }
    }
    return BUCKETS - 1;
  }

  // ------------------------------------------------------------- percentiles

  function Cumulative(h: seq<nat>, n: nat): nat
    requires n <= |h|
  {
    if n == 0 then 0 else Cumulative(h, n - 1) + h[n - 1]
  }

  function Size(h: seq<nat>): nat {
    Cumulative(h, |h|)
  }

  lemma {:induction false} CumulativeGrows(h: seq<nat>, m: nat, n: nat)
    requires m <= n <= |h|
    ensures Cumulative(h, m) <= Cumulative(h, n)
    decreases n
  {
    if m < n {
      CumulativeGrows(h, m, n - 1);
    }
  }

  /** The first bucket from `i` on with whose count the running sum reaches the target. */
  function Reaching(h: seq<nat>, target: real, i: nat): (j: nat)
    requires i < |h| && target <= Size(h) as real
    ensures i <= j < |h|
    ensures target <= Cumulative(h, j + 1) as real
    ensures forall k :: i < k <= j ==> Cumulative(h, k) as real < target
    decreases |h| - i
  {
    if Cumulative(h, i + 1) as real >= target || i == |h| - 1 then i else Reaching(h, target, i + 1)
  }

  function Lower(bounds: seq<int>, i: nat): int
    requires i < |bounds|
  {
    if i == 0 then 0 else bounds[i - 1]
  }

  /** The open-ended bucket counts as a point. */
  function Upper(bounds: seq<int>, i: nat): int
    requires i < |bounds|
  {
    if i == |bounds| - 1 then Lower(bounds, i) else bounds[i]
  }

  /** Rounding to the nearest integer, halves away from zero. */
  function Round(x: real): int {
    if x < 0.0 then -((-x + 0.5).Floor) else (x + 0.5).Floor
  }

  function Share(target: real, before: nat, count: nat): real
    requires count > 0
  {
    (target - before as real) / count as real
  }

  /** How far into its bucket the target lies. */
  function Fraction(h: seq<nat>, target: real, i: nat): (f: real)
    requires i < |h| && Cumulative(h, i) as real < target <= Cumulative(h, i + 1) as real
    ensures 0.0 < f <= 1.0
  {
    assert h[i] > 0;
    Ratio(target - Cumulative(h, i) as real, h[i] as real);
    Share(target, Cumulative(h, i), h[i])
  }

  lemma Ratio(a: real, b: real)
    requires 0.0 < a <= b
    ensures 0.0 < a / b <= 1.0
  {
  }

  function Interpolate(lower: int, upper: int, fraction: real): int {
    Round(lower as real + fraction * (upper - lower) as real)
  }

  lemma ReachesInside(h: seq<nat>, target: real)
    requires 0.0 < target <= Size(h) as real
    ensures var i := Reaching(h, target, 0); Cumulative(h, i) as real < target <= Cumulative(h, i + 1) as real
  {
    assert Cumulative(h, 0) == 0;
  }

  function Quantile(h: seq<nat>, bounds: seq<int>, target: real): int
    requires |h| == |bounds| &&  0.0 < target <= Size(h) as real
  {
    ReachesInside(h, target);
    var i := Reaching(h, target, 0);
    Interpolate(Lower(bounds, i), Upper(bounds, i), Fraction(h, target, i))
  }

  /** The value at which the target lies in the bucket that reaches it. */
  method ValueIn(h: seq<nat>, bounds: seq<int>, target: real, i: nat, cumulative: nat, lower: int) returns (value: int)
    requires Fits(h, bounds) && i < |h| && 0.0 < target <= Size(h) as real && i == Reaching(h, target, 0)
    requires cumulative == Cumulative(h, i) && lower == Lower(bounds, i)
    ensures value == Quantile(h, bounds, target)
  {
    ReachesInside(h, target);
    var spanUpper := if i == |h| - 1 then lower else bounds[i];
    value := Interpolate(lower, spanUpper, Share(target, cumulative, h[i]));
  }

  /** Walks the buckets until the running count reaches the target. */
  method Walk(h: seq<nat>, bounds: seq<int>, target: real) returns (v: Option<int>)
    requires 0.0 < target && Fits(h, bounds)
    ensures v.Some? <==> target <= Size(h) as real
    ensures v.Some? ==> v.value == Quantile(h, bounds, target)
  {
    var cumulative, lower := 0, 0;
    for i := 0 to |h|
      invariant cumulative == Cumulative(h, i) && cumulative as real < target
      invariant i < |h| ==> lower == Lower(bounds, i)
      invariant forall k :: 0 < k <= i ==> Cumulative(h, k) as real < target
    {
      var upper := bounds[i];
      if h[i] <= 0 {
        if i != |h| - 1 {
          lower := upper;
        }
        continue;
      }
      if (cumulative + h[i]) as real >= target {
        CumulativeGrows(h, i + 1, |h|);
        FirstReaching(h, target, i);
        var value := ValueIn(h, bounds, target, i, cumulative, lower);
        return Some(value);
      }
      cumulative := cumulative + h[i];
      if i != |h| - 1 {
        lower := upper;
      }
    }
    return None;
  }

  function Scaled(p: real, n: nat): real {
    p * n as real
  }

  function Target(h: seq<nat>, p: real): real {
    Scaled(p, Size(h))
  }

  lemma TargetSize(p: real, n: nat)
    requires n > 0 && p > 0.0
    ensures 0.0 < Scaled(p, n) && (Scaled(p, n) <= n as real <==> p <= 1.0)
  {
    Scale(p, 1.0, n as real);
    Scale(1.0, p, n as real);
  }

  /** A percentile exists exactly for a non-empty histogram and 0 < p <= 1. */
  method Percentile(h: seq<nat>, bounds: seq<int>, p: real) returns (v: Option<int>)
    requires Fits(h, bounds)
    ensures v.Some? <==> Size(h) > 0 && 0.0 < p <= 1.0
    ensures v.Some? ==> 0.0 < Target(h, p) <= Size(h) as real && v.value == Quantile(h, bounds, Target(h, p))
  {
    var total := 0;
    for i := 0 to |h|
      invariant total == Cumulative(h, i)
    {
      total := total + h[i];
    }
    if total <= 0 || p <= 0.0 {
      return None;
    }
    var target := Scaled(p, total);
    TargetSize(p, total);
    v := Walk(h, bounds, target);
  }

  lemma FirstReaching(h: seq<nat>, target: real, i: nat)
    requires i < |h| && target <= Cumulative(h, i + 1) as real && target <= Size(h) as real
    requires forall k :: 0 < k <= i ==> Cumulative(h, k) as real < target
    ensures Reaching(h, target, 0) == i
  {
    var j := Reaching(h, target, 0);
    assert !(0 < j + 1 <= i);
  }

  lemma Scale(p: real, q: real, n: real)
    requires n > 0.0
    ensures p < q ==> p * n < q * n
    ensures p <= q ==> p * n <= q * n
    ensures 0.0 < p ==> 0.0 < p * n
  {
  }

  // ------------------------------------------------------------- main results

  lemma InterpolateInside(lower: int, upper: int, f: real)
    requires 0 <= lower <= upper && 0.0 < f <= 1.0
    ensures lower <= Interpolate(lower, upper, f) <= upper
  {
    var d := (upper - lower) as real;
    assert 0.0 <= f * d <= d by {
      if d > 0.0 {
        Scale(f, 1.0, d);
      }
    }
  }

  /** A percentile lies within the bucket in which the running count first reaches it. */
  lemma QuantileInBucket(h: seq<nat>, bounds: seq<int>, target: real)
    requires Fits(h, bounds) && 0.0 < target <= Size(h) as real
    ensures var i := Reaching(h, target, 0); Lower(bounds, i) <= Quantile(h, bounds, target) <= Upper(bounds, i)
  {
    ReachesInside(h, target);
    var i := Reaching(h, target, 0);
    InterpolateInside(Lower(bounds, i), Upper(bounds, i), Fraction(h, target, i));
  }

  lemma InterpolateMonotone(lower: int, upper: int, f: real, g: real)
    requires 0 <= lower <= upper && 0.0 < f <= g
    ensures Interpolate(lower, upper, f) <= Interpolate(lower, upper, g)
  {
    var d := (upper - lower) as real;
    assert 0.0 <= f * d <= g * d by {
      if d > 0.0 {
        Scale(f, g, d);
      }
    }
  }

  lemma FractionMonotone(h: seq<nat>, s: real, t: real, i: nat)
    requires i < |h| && Cumulative(h, i) as real < s <= t <= Cumulative(h, i + 1) as real
    ensures Fraction(h, s, i) <= Fraction(h, t, i)
  {
    var c, n := Cumulative(h, i) as real, h[i] as real;
    assert n > 0.0;
    Scale(s - c, t - c, 1.0 / n);
  }

  /** Percentiles grow with the target. */
  lemma QuantileMonotone(h: seq<nat>, bounds: seq<int>, s: real, t: real)
    requires Fits(h, bounds) && 0.0 < s <= t <= Size(h) as real
    ensures Quantile(h, bounds, s) <= Quantile(h, bounds, t)
  {
    var i, j := Reaching(h, s, 0), Reaching(h, t, 0);
    ReachesInside(h, s);
    ReachesInside(h, t);
    QuantileInBucket(h, bounds, s);
    QuantileInBucket(h, bounds, t);
    assert !(0 < j + 1 <= i);
    if i == j {
      FractionMonotone(h, s, t, i);
      InterpolateMonotone(Lower(bounds, i), Upper(bounds, i), Fraction(h, s, i), Fraction(h, t, i));
    }
  }

  lemma TargetsInOrder(p: real, q: real, n: real)
    requires n > 0.0 && 0.0 < p <= q <= 1.0
    ensures 0.0 < p * n <= q * n <= n
  {
    Scale(p, q, n);
    Scale(q, 1.0, n);
  }

  /** Percentiles of one histogram are in order, so P50 <= P90 <= P95. */
  lemma PercentilesInOrder(h: Hist, p: real, q: real)
    requires Size(h) > 0 && 0.0 < p <= q <= 1.0
    ensures 0.0 < Target(h, p) <= Target(h, q) <= Size(h) as real
    ensures Quantile(h, BOUNDS, Target(h, p)) <= Quantile(h, BOUNDS, Target(h, q))
  {
    TargetsInOrder(p, q, Size(h) as real);
    BoundsAscend(h);
    QuantileMonotone(h, BOUNDS, Target(h, p), Target(h, q));
  }

  /**
   * A percentile is the whole number nearest to the point that lies as far into its
   * bucket as the target does among the bucket's latencies.
   */
  lemma QuantileIsNearest(h: seq<nat>, bounds: seq<int>, target: real)
    requires Fits(h, bounds) && 0.0 < target <= Size(h) as real
    ensures var i := Reaching(h, target, 0);
            && h[i] > 0
            && var x := Lower(bounds, i) as real + (target - Cumulative(h, i) as real) / h[i] as real * (Upper(bounds, i) - Lower(bounds, i)) as real;
               -0.5 <= Quantile(h, bounds, target) as real - x <= 0.5
  {
    ReachesInside(h, target);
    RoundIsNearest(Lower(bounds, Reaching(h, target, 0)) as real
      + Fraction(h, target, Reaching(h, target, 0)) * (Upper(bounds, Reaching(h, target, 0)) - Lower(bounds, Reaching(h, target, 0))) as real);
  }

  lemma RoundIsNearest(x: real)
    ensures -0.5 <= Round(x) as real - x <= 0.5
  {
  }
}
