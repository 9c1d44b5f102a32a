/**
 What the four `generate_state` searches share: saturating arithmetic on unsigned counts,
 the float-to-unsigned casts, and the argument that looking only at the rounded-down and the
 rounded-up solution of a linear equation is enough.
 */
module HitResults {
  datatype Option<+T> = None | Some(value: T)

  /** Which of several equally accurate results the caller wants. */
  datatype HitResultPriority = BestCase | WorstCase

  /** The builder clamps the requested accuracy to this range. */
  type Accuracy = r: real | 0.0 <= r <= 1.0 witness 0.0

  function Min(a: int, b: int): int {
    if a <= b then a else b
  }

  function Max(a: int, b: int): int {
    if a <= b then b else a
  }

  function MinReal(a: real, b: real): real {
    if a < b then a else b
  }

  function MaxReal(a: real, b: real): real {
    if a < b then b else a
  }

  function SaturatingSub(a: nat, b: nat): nat {
    if a <= b then 0 else a - b
  }

  function Pow2(n: nat): (r: nat)
    ensures r > 0
  {
    if n == 0 then 1 else 2 * Pow2(n - 1)
  }

  function Abs(r: real): real {
    if r < 0.0 then -r else r
  }

  function SumOr0(o: Option<nat>): nat {
    match o case None => 0 case Some(n) => n
  }

  /** A count the caller gave, cut down to what fits; 0 when it was not given. */
  function Clamped(given: Option<nat>, limit: nat): nat {
    match given case None => 0 case Some(n) => Min(n, limit)
  }

  function Cut(o: Option<nat>, limit: nat): (r: Option<nat>)
    ensures r.Some? ==> r.value <= limit
    ensures o.Some? && o.value <= limit ==> r == o
  {
    if o.None? then None else Some(Clamped(o, limit))
  }

  /** `r.floor() as u32`: the cast sends negative values to 0. */
  function FloorCast(r: real): nat {
    Max(0, r.Floor)
  }

  /** `r.ceil() as u32`. */
  function CeilCast(r: real): nat {
    Max(0, -(-r).Floor)
  }

  /** `(acc - accuracy).abs()`; `None` stands for the NaN of an empty play. */
  function Distance(acc: real, accuracy: Option<real>): Option<real> {
    match accuracy case None => None case Some(a) => Some(Abs(acc - a))
  }

  /** `curr < best`, where a missing `best` is infinity and a comparison with NaN fails. */
  predicate IsCloser(curr: Option<real>, best: Option<real>) {
    curr.Some? && (best.None? || curr.value < best.value)
  }

  /** The accuracy of `value` hit points out of `total`; undefined for an empty play. */
  function Ratio(value: nat, total: nat): Option<real> {
    if total == 0 then None else Some(value as real / total as real)
  }

  /** All there is has accuracy 1. */
  lemma RatioOfAll(total: nat)
    requires total > 0
    ensures Ratio(total, total) == Some(1.0)
  {
    var r := total as real / total as real;
    assert r * total as real == total as real;
  }

  /** No accuracy is above 1, and only all there is has it. */
  lemma RatioBounds(value: nat, total: nat)
    requires value <= total && total > 0
    ensures Ratio(value, total).Some? && 0.0 <= Ratio(value, total).value <= 1.0
    ensures Ratio(value, total) == Some(1.0) <==> value == total
  {
    var v, t := value as real, total as real;
    QuotientBounds(v, t, v / t);
  }

  lemma QuotientBounds(v: real, t: real, r: real)
    requires 0.0 <= v <= t && t > 0.0 && r == v / t
    ensures 0.0 <= r <= 1.0 && (r == 1.0 <==> v == t)
  {
    ProductOfQuotient(v, t);
    if r < 0.0 { MulLess(r, 0.0, t); }
    if r > 1.0 { MulLess(1.0, r, t); }
  }

  lemma ProductOfQuotient(v: real, t: real)
    requires t != 0.0
    ensures v / t * t == v
  {}

  /** How far `value` hit points miss the target number of hit points. */
  function Miss(target: real, value: int): real {
    Abs(target - value as real)
  }

  /** Comparing accuracies is comparing hit points. */
  lemma RatioOrder(acc: real, total: nat, v: nat, w: nat)
    requires total > 0
    ensures IsCloser(Distance(acc, Ratio(v, total)), Distance(acc, Ratio(w, total)))
       <==> Miss(acc * total as real, v) < Miss(acc * total as real, w)
  {
    hide Ratio, Distance, Miss;
    var a := DistanceScale(acc, total, v);
    var b := DistanceScale(acc, total, w);
    ScaleOrder(a, b, total as real, Miss(acc * total as real, v), Miss(acc * total as real, w));
  }

  lemma DistanceScale(acc: real, total: nat, v: nat) returns (d: real)
    requires total > 0
    ensures Distance(acc, Ratio(v, total)) == Some(d)
    ensures Miss(acc * total as real, v) == d * total as real
  {
    d := Abs(acc - v as real / total as real);
    RatioScale(acc, total as real, v as real);
  }

  lemma ScaleOrder(a: real, b: real, n: real, aScaled: real, bScaled: real)
    requires n > 0.0 && aScaled == a * n && bScaled == b * n
    ensures a < b <==> aScaled < bScaled
  {
    if a < b {
      MulLess(a, b, n);
    } else {
      MulAtMost(b, a, n);
    }
  }

  lemma RatioScale(acc: real, n: real, v: real)
    requires n > 0.0
    ensures Abs(acc * n - v) == Abs(acc - v / n) * n
  {
    var q := v / n;
    assert q * n == v;
    assert (acc - q) * n == acc * n - v;
    if acc - q < 0.0 {
      MulLess(acc - q, 0.0, n);
    } else {
      MulAtMost(0.0, acc - q, n);
    }
  }

  lemma MulLess(a: real, b: real, n: real)
    requires a < b && n > 0.0
    ensures a * n < b * n
  {}

  lemma MulAtMost(a: real, b: real, n: real)
    requires a <= b && n > 0.0
    ensures a * n <= b * n
  {}

  lemma MulNonNegative(a: real, b: real)
    requires a >= 0.0 && b >= 0.0
    ensures a * b >= 0.0
  {}

  /** Where the rounded solution of `a + slope * k == target` is cut off by `limit`. */
  function WindowLow(raw: real, limit: nat): nat {
    Min(FloorCast(raw), limit)
  }

  function WindowHigh(raw: real, limit: nat): nat {
    Min(CeilCast(raw), limit)
  }

  lemma WindowBounds(raw: real, limit: nat)
    ensures WindowLow(raw, limit) > 0 ==> WindowLow(raw, limit) as real <= raw
    ensures WindowHigh(raw, limit) < limit ==> raw <= WindowHigh(raw, limit) as real
    ensures WindowLow(raw, limit) <= limit && WindowHigh(raw, limit) <= limit
  {}

  lemma WindowNonEmpty(low: real, high: real, limit: nat)
    requires low <= high || low <= 0.0 || (low >= limit as real && high >= limit as real)
    ensures WindowLow(low, limit) <= WindowHigh(high, limit)
  {}

  lemma ScaleAtMost(k: int, raw: real, slope: int)
    requires slope > 0
    ensures k as real <= raw ==> (slope * k) as real <= raw * slope as real
    ensures raw <= k as real ==> raw * slope as real <= (slope * k) as real
  {
    assert (slope * k) as real == k as real * slope as real;
    if k as real <= raw {
      MulAtMost(k as real, raw, slope as real);
    }
    if raw <= k as real {
      MulAtMost(raw, k as real, slope as real);
    }
  }

  lemma ScaleIntAtMost(k: int, m: int, slope: int)
    requires slope > 0 && k <= m
    ensures slope * k <= slope * m
  {}

  /** Moving along a line towards the solution `raw` does not increase the miss. */
  lemma TowardsSolution(target: real, a: int, slope: int, raw: real, k: int, m: int)
    requires slope > 0
    requires raw * slope as real == target - a as real
    requires (k <= m && m as real <= raw) || (m <= k && raw <= m as real)
    ensures Miss(target, a + slope * m) <= Miss(target, a + slope * k)
  {
    ScaleAtMost(m, raw, slope);
    if k <= m && m as real <= raw {
      ScaleIntAtMost(k, m, slope);
    } else {
      ScaleIntAtMost(m, k, slope);
    }
  }

  /** The two rounded solutions are among the nearest points of a line, also on a sub-range
      `[floor, limit]` when both are raised to `floor`. */
  lemma WindowSuffices(target: real, a: int, slope: int, raw: real, floor: nat, limit: nat, k: nat)
    requires slope > 0
    requires raw * slope as real == target - a as real
    requires floor <= k <= limit
    ensures var lo, hi := Max(WindowLow(raw, limit), floor), Max(WindowHigh(raw, limit), floor);
            && floor <= lo <= hi <= limit
            && hi <= lo + 1
            && (k <= lo ==> Miss(target, a + slope * lo) <= Miss(target, a + slope * k))
            && (lo <= k ==> Miss(target, a + slope * hi) <= Miss(target, a + slope * k) || k == lo)
  {
    var lo, hi := Max(WindowLow(raw, limit), floor), Max(WindowHigh(raw, limit), floor);
    if k < lo {
      TowardsSolution(target, a, slope, raw, k, lo);
    } else if hi < k {
      TowardsSolution(target, a, slope, raw, k, hi);
    }
  }

  /** The order in which the one-pass searches prefer values: closer first, lower among equals. */
  ghost predicate Nearer(target: real, v: int, w: int) {
    Miss(target, v) < Miss(target, w) || (Miss(target, v) == Miss(target, w) && v <= w)
  }

  /** Moving along a line towards the solution strictly decreases the miss. */
  lemma StrictlyTowards(target: real, a: int, slope: int, raw: real, k: int, m: int)
    requires slope > 0
    requires raw * slope as real == target - a as real
    requires (k < m && m as real <= raw) || (m < k && raw <= m as real)
    ensures Nearer(target, a + slope * m, a + slope * k)
  {
    ScaleAtMost(m, raw, slope);
    if k < m && m as real <= raw {
      assert slope * k < slope * m;
    } else {
      assert slope * m < slope * k;
    }
  }

  /** One of the two rounded solutions is the preferred value of a whole line. */
  lemma NearestOnLine(target: real, a: int, slope: int, raw: real, limit: nat, k: nat)
    requires slope > 0
    requires raw * slope as real == target - a as real
    requires k <= limit
    ensures var lo, hi := WindowLow(raw, limit), WindowHigh(raw, limit);
            && lo <= hi <= limit && hi <= lo + 1
            && (k <= lo ==> Nearer(target, a + slope * lo, a + slope * k))
            && (hi <= k ==> Nearer(target, a + slope * hi, a + slope * k))
  {
    var lo, hi := WindowLow(raw, limit), WindowHigh(raw, limit);
    if k < lo {
      StrictlyTowards(target, a, slope, raw, k, lo);
    } else if hi < k {
      StrictlyTowards(target, a, slope, raw, k, hi);
    }
  }
}
