/**
 The accuracy searches of osu!mania's `generate_state`: which split of the remaining objects
 over the judgements comes closest to a requested accuracy. Each search looks at a small window
 of candidates; the results here say that no split outside the window is closer.
 */
module ManiaSplits {
  import opened HitResults

  /** How the remaining objects are divided; `n3x0` counts n320 and n300 together. */
  datatype Split = Split(n3x0: nat, n200: nat, n100: nat, n50: nat) {
    function Total(): nat {
      n3x0 + n200 + n100 + n50
    }

    function Value(): nat {
      6 * n3x0 + 4 * n200 + 2 * n100 + n50
    }
  }

  /** The counts a caller fixed, already cut down to the `remaining` non-miss objects. */
  datatype Request = Request(remaining: nat, misses: nat,
                             n320: Option<nat>, n300: Option<nat>, n200: Option<nat>, n100: Option<nat>,
                             n50: Option<nat>)
  {
    predicate Valid() {
      && (n320.Some? ==> n320.value <= remaining)
      && (n300.Some? ==> n300.value <= remaining)
      && (n200.Some? ==> n200.value <= remaining)
      && (n100.Some? ==> n100.value <= remaining)
      && (n50.Some? ==> n50.value <= remaining)
    }

    /** There is something to hit; otherwise every accuracy is undefined. */
    predicate Live() {
      remaining + misses > 0
    }

    function Given3x0(): nat {
      SumOr0(n320) + SumOr0(n300)
    }

    /** The fixed counts can be part of a play with `remaining` non-miss objects. */
    predicate Fits() {
      Given3x0() + SumOr0(n200) + SumOr0(n100) + SumOr0(n50) <= remaining
    }

    predicate Allows3x0(n3x0: nat) {
      if n320.Some? && n300.Some? then n3x0 == Given3x0() else n3x0 >= Given3x0()
    }

    predicate KeepsLower(s: Split) {
      && (n200.Some? ==> s.n200 == n200.value)
      && (n100.Some? ==> s.n100 == n100.value)
      && (n50.Some? ==> s.n50 == n50.value)
    }

    /** What holds of every candidate, even when the fixed counts do not fit. */
    predicate InRange(s: Split) {
      && s.n200 <= remaining && s.n100 <= remaining && s.n50 <= remaining
      && (if n320.Some? && n300.Some? then s.n3x0 <= Given3x0() else Given3x0() <= s.n3x0 <= remaining)
      && ((n320.None? || n300.None?) && n200.None? ==> s.n3x0 + s.n200 <= remaining)
      && (n200.None? && n100.None? ==> s.n200 + s.n100 <= remaining)
      && KeepsLower(s)
    }

    /** `s` is a split of the remaining objects that keeps every fixed count. */
    predicate Allows(s: Split) {
      && s.Total() == remaining
      && Allows3x0(s.n3x0)
      && KeepsLower(s)
    }

    /** The requested accuracy in hit points. */
    function Target(acc: real): real {
      acc * (6 * (remaining + misses)) as real
    }

    /** `pick` is at least as close to the accuracy as any split that keeps the fixed counts. */
    ghost predicate Closest(acc: real, pick: Split) {
      && Allows(pick)
      && forall s: Split | Allows(s) :: Beats(Target(acc), pick, s)
    }
  }

  /** `s` is no closer to `target` hit points than `pick`. */
  ghost predicate Beats(target: real, pick: Split, s: Split) {
    Miss(target, pick.Value()) <= Miss(target, s.Value())
  }

  /** The play's accuracy; undefined for an empty play. */
  function PlayAccuracy(n320: nat, n300: nat, n200: nat, n100: nat, n50: nat, misses: nat): Option<real> {
    Ratio(6 * (n320 + n300) + 4 * n200 + 2 * n100 + n50, 6 * (n320 + n300 + n200 + n100 + n50 + misses))
  }

  /** Accuracies lie between 0 and 1, and 1 takes hits at 320 and 300 only. */
  lemma PerfectExactly(n320: nat, n300: nat, n200: nat, n100: nat, n50: nat, misses: nat)
    requires n320 + n300 + n200 + n100 + n50 + misses > 0
    ensures var a := PlayAccuracy(n320, n300, n200, n100, n50, misses);
      && a.Some? && 0.0 <= a.value <= 1.0
      && (a.value == 1.0 <==> n200 == 0 && n100 == 0 && n50 == 0 && misses == 0)
  {
    RatioBounds(6 * (n320 + n300) + 4 * n200 + 2 * n100 + n50, 6 * (n320 + n300 + n200 + n100 + n50 + misses));
  }

  function DistanceOf(acc: real, s: Split, misses: nat): Option<real> {
    Distance(acc, PlayAccuracy(s.n3x0, 0, s.n200, s.n100, s.n50, misses))
  }

  /** How the window for n3x0 reacts to given counts of n320 and n300. */
  function Adjust(q: Request, low: nat, high: nat, both: nat): (nat, nat) {
    match (q.n320, q.n300)
    case (Some(_), Some(_)) => (both, both)
    case (Some(n320), None) => (Max(low, n320), Max(high, n320))
    case (None, Some(n300)) => (Max(low, n300), Max(high, n300))
    case (None, None) => (low, high)
  }

  /** `acc * f64::from(3 * n_objects)`. */
  function HalfTarget(q: Request, acc: real): (half: real)
    ensures half == q.Target(acc) / 2.0
  {
    acc * (3 * (q.remaining + q.misses)) as real
  }

  lemma TargetNonNegative(q: Request, acc: Accuracy)
    ensures q.Target(acc) >= 0.0
  {
    MulNonNegative(acc, (6 * (q.remaining + q.misses)) as real);
  }

  /** The splits along which n100 is searched. */
  function LineN100(q: Request, n3x0: nat, n200: nat, n100: nat): Split {
    Split(n3x0, n200, n100, SaturatingSub(q.remaining, n3x0 + n200 + n100))
  }

  function LineN200GivenN100(q: Request, n3x0: nat, n100: nat, n200: nat): Split {
    Split(n3x0, n200, n100, SaturatingSub(q.remaining, n3x0 + n200 + n100))
  }

  function LineN200GivenN50(q: Request, n3x0: nat, n50: nat, n200: nat): Split {
    Split(n3x0, n200, SaturatingSub(q.remaining, n3x0 + n200 + n50), n50)
  }

  /** `acc * f64::from(3 * n_remaining)`, which ignores the misses. */
  function HalfTargetWithoutMisses(q: Request, acc: Accuracy): (half: real)
    ensures half <= q.Target(acc) / 2.0 && half + acc * (3 * q.misses) as real == q.Target(acc) / 2.0
  {
    MulNonNegative(acc, (3 * q.misses) as real);
    acc * (3 * q.remaining) as real
  }

  /** For full splits, the floating-point comparison is a comparison of hit points. */
  lemma SplitOrder(q: Request, acc: real, s: Split, t: Split)
    requires q.remaining + q.misses > 0
    requires s.Total() == t.Total() == q.remaining
    ensures IsCloser(DistanceOf(acc, s, q.misses), DistanceOf(acc, t, q.misses))
       <==> !Beats(q.Target(acc), t, s)
  {
    hide Distance, Ratio, Miss, DistanceOf;
    DistanceOfFull(q, acc, s);
    DistanceOfFull(q, acc, t);
    var total := 6 * (q.remaining + q.misses);
    assert q.Target(acc) == acc * total as real;
    RatioOrder(acc, total, s.Value(), t.Value());
    assert DistanceOf(acc, s, q.misses) == Distance(acc, Ratio(s.Value(), total));
    assert DistanceOf(acc, t, q.misses) == Distance(acc, Ratio(t.Value(), total));
  }

  lemma DistanceOfFull(q: Request, acc: real, s: Split)
    requires s.Total() == q.remaining
    ensures DistanceOf(acc, s, q.misses) == Distance(acc, Ratio(s.Value(), 6 * (q.remaining + q.misses)))
  {
    hide Distance, Ratio;
    assert 6 * (s.n3x0 + 0) + 4 * s.n200 + 2 * s.n100 + s.n50 == s.Value();
    assert 6 * (s.n3x0 + 0 + s.n200 + s.n100 + s.n50 + q.misses) == 6 * (q.remaining + q.misses);
  }

  // ---------------------------------------------------------------------------------------------
  // Why the windows suffice. `target` is in hit points, `r` the number of objects to divide.

  /** Along a line of splits whose value grows by `slope`, the two rounded solutions of
      `a + slope * k == target` are as close as any `k` between `floor` and `limit`. */
  lemma ClosestOnLine(target: real, pick: Split, at: nat -> Split, a: int, slope: int, raw: real,
                      floor: nat, limit: nat, lo: nat, hi: nat)
    requires slope > 0 && raw * slope as real == target - a as real && floor <= limit
    requires lo == Max(WindowLow(raw, limit), floor) && hi == Max(WindowHigh(raw, limit), floor)
    requires forall k: nat | k <= limit :: at(k).Value() == a + slope * k
    requires forall k: nat | lo <= k <= hi :: Beats(target, pick, at(k))
    ensures forall k: nat | floor <= k <= limit :: Beats(target, pick, at(k))
  {
    hide WindowLow, WindowHigh, Miss;
    forall k: nat | floor <= k <= limit
      ensures Beats(target, pick, at(k))
    {
      WindowSuffices(target, a, slope, raw, floor, limit, k);
      assert Beats(target, pick, at(lo)) && Beats(target, pick, at(hi));
    }
  }

  lemma BelowN200(target: real, r: nat, pick: Split, n3x0: nat, rawLo: real, lo: nat, s: Split)
    requires n3x0 <= r && rawLo == target / 2.0 - (r + 2 * n3x0) as real
    requires s.Total() == r && s.n3x0 == n3x0 && s.n200 < lo <= r - n3x0 && lo as real <= rawLo
    requires Beats(target, pick, Split(n3x0, lo, r - n3x0 - lo, 0))
    ensures Beats(target, pick, s)
  {
    assert s.Value() <= 2 * r + 4 * n3x0 + 2 * lo;
  }

  lemma AboveN200(target: real, r: nat, pick: Split, n3x0: nat, rawHi: real, hi: nat, s: Split)
    requires n3x0 <= r && rawHi == (target - (r + 5 * n3x0) as real) / 3.0
    requires s.Total() == r && s.n3x0 == n3x0 && hi < s.n200 && rawHi <= hi as real
    requires Beats(target, pick, Split(n3x0, hi, 0, r - n3x0 - hi))
    ensures Beats(target, pick, s)
  {
    assert s.Value() >= r + 5 * n3x0 + 3 * hi;
  }

  /** With n3x0 fixed and n200 free, n200 values outside their window are no closer. */
  lemma ClosestN200(target: real, r: nat, pick: Split, n3x0: nat, rawLo: real, rawHi: real)
    requires n3x0 <= r
    requires rawLo == target / 2.0 - (r + 2 * n3x0) as real
    requires rawHi == (target - (r + 5 * n3x0) as real) / 3.0
    requires forall s: Split | s.Total() == r && s.n3x0 == n3x0
               && WindowLow(rawLo, r - n3x0) <= s.n200 <= WindowHigh(rawHi, r - n3x0) :: Beats(target, pick, s)
    ensures forall s: Split | s.Total() == r && s.n3x0 == n3x0 :: Beats(target, pick, s)
  {
    hide Beats, WindowLow, WindowHigh;
    var left := r - n3x0;
    var lo, hi := WindowLow(rawLo, left), WindowHigh(rawHi, left);
    WindowBounds(rawLo, left);
    WindowBounds(rawHi, left);
    N200Window(target, r, n3x0, rawLo, rawHi);
    WindowNonEmpty(rawLo, rawHi, left);
    forall s: Split | s.Total() == r && s.n3x0 == n3x0
      ensures Beats(target, pick, s)
    {
      if s.n200 < lo {
        BelowN200(target, r, pick, n3x0, rawLo, lo, s);
      } else if hi < s.n200 {
        AboveN200(target, r, pick, n3x0, rawHi, hi, s);
      }
    }
  }

  /** The two solutions for n200 are in order as far as that matters. */
  lemma N200Window(target: real, r: nat, n3x0: nat, rawLo: real, rawHi: real)
    requires n3x0 <= r
    requires rawLo == target / 2.0 - (r + 2 * n3x0) as real
    requires rawHi == (target - (r + 5 * n3x0) as real) / 3.0
    ensures rawLo <= rawHi || rawLo <= 0.0 || (rawLo >= (r - n3x0) as real && rawHi >= (r - n3x0) as real)
  {}

  /** What every adjusted window for n3x0 offers: it is never empty, respects given counts, and an
      admissible n3x0 outside of it lies beyond the solution it was rounded from. */
  lemma AdjustedWindow(q: Request, rawLo: real, rawHi: real, limit: nat, both: nat, lo: nat, hi: nat)
    requires q.Valid() && limit <= q.remaining
    requires (lo, hi) == Adjust(q, WindowLow(rawLo, limit), WindowHigh(rawHi, limit), both)
    requires rawLo <= rawHi || rawLo <= 0.0 || (limit as real <= rawLo && limit as real <= rawHi)
    ensures lo <= hi
    ensures if q.n320.Some? && q.n300.Some? then lo == hi == both else q.Given3x0() <= lo && hi <= q.remaining
    ensures q.Given3x0() <= limit && both == Min(q.remaining, q.Given3x0()) ==>
      && hi <= limit
      && forall x: nat | q.Allows3x0(x) && x <= limit ::
           && (x < lo ==> lo as real <= rawLo)
           && (hi < x ==> rawHi <= hi as real)
  {
    hide WindowLow, WindowHigh;
    WindowBounds(rawLo, limit);
    WindowBounds(rawHi, limit);
    WindowNonEmpty(rawLo, rawHi, limit);
  }

  /** With n200, n100 and n50 free, n3x0 values outside their window are no closer. */
  lemma ClosestAll(target: real, r: nat, pick: Split, lo: nat, hi: nat, s: Split)
    requires s.Total() == r && lo <= hi <= r
    requires s.n3x0 < lo ==> (4 * r + 5 * lo) as real <= target
    requires hi < s.n3x0 ==> target <= (r + 5 * hi) as real || target <= (2 * r + 2 * hi) as real
    requires forall t: Split | t.Total() == r && lo <= t.n3x0 <= hi :: Beats(target, pick, t)
    ensures Beats(target, pick, s)
  {
    if s.n3x0 < lo {
      assert Beats(target, pick, Split(lo, r - lo, 0, 0));
    } else if hi < s.n3x0 {
      AboveAll(target, r, pick, hi, s);
    }
  }

  /** More hits at 300 than the window allows always overshoot what n3x0 == `hi` can reach. */
  lemma AboveAll(target: real, r: nat, pick: Split, hi: nat, s: Split)
    requires s.Total() == r && hi < s.n3x0
    requires target <= (r + 5 * hi) as real || target <= (2 * r + 2 * hi) as real
    requires forall t: Split | t.Total() == r && t.n3x0 == hi :: Beats(target, pick, t)
    ensures Beats(target, pick, s)
  {
    if target <= (r + 5 * hi) as real {
      assert Beats(target, pick, Split(hi, 0, 0, r - hi));
    } else {
      var exact := NearestTowards(target, s.Value());
      hide Miss;
      assert r + 5 * hi <= exact <= 2 * r + 2 * hi;
      var t := Split(hi, 0, exact - r - 5 * hi, 2 * r + 4 * hi - exact);
      assert t.Total() == r && t.Value() == exact;
      assert Beats(target, pick, t);
    }
  }

  /** The integer next to `target` on the side of `v`. */
  lemma NearestTowards(target: real, v: int) returns (exact: int)
    ensures Miss(target, exact) <= Miss(target, v)
    ensures target.Floor <= exact <= target.Floor + 1
    ensures exact as real < target + 1.0
    ensures target.Floor as real == target ==> exact as real == target
  {
    var f := target.Floor;
    exact := if v <= f || f as real == target then f else f + 1;
  }

  /** n200 given: too few hits at 300 undershoot, too many overshoot. */
  lemma ClosestGivenN200(target: real, r: nat, pick: Split, n200: nat, lo: nat, hi: nat, s: Split)
    requires s.Total() == r && s.n200 == n200 && lo <= hi <= r - n200
    requires s.n3x0 < lo ==> (2 * r + 2 * n200 + 4 * lo) as real <= target
    requires hi < s.n3x0 ==> target <= (r + 3 * n200 + 5 * hi) as real
    requires forall t: Split | t.Total() == r && t.n200 == n200 && lo <= t.n3x0 <= hi :: Beats(target, pick, t)
    ensures Beats(target, pick, s)
  {
    if s.n3x0 < lo {
      assert Beats(target, pick, Split(lo, n200, r - n200 - lo, 0));
    } else if hi < s.n3x0 {
      assert Beats(target, pick, Split(hi, n200, 0, r - n200 - hi));
    }
  }

  lemma ClosestGivenN100(target: real, r: nat, pick: Split, n100: nat, lo: nat, hi: nat, s: Split)
    requires s.Total() == r && s.n100 == n100 && lo <= hi <= r - n100
    requires s.n3x0 < lo ==> (4 * r - 2 * n100 + 2 * lo) as real <= target
    requires hi < s.n3x0 ==> target <= (r + n100 + 5 * hi) as real
    requires forall t: Split | t.Total() == r && t.n100 == n100 && lo <= t.n3x0 <= hi :: Beats(target, pick, t)
    ensures Beats(target, pick, s)
  {
    if s.n3x0 < lo {
      assert Beats(target, pick, Split(lo, r - n100 - lo, n100, 0));
    } else if hi < s.n3x0 {
      assert Beats(target, pick, Split(hi, 0, n100, r - n100 - hi));
    }
  }

  lemma ClosestGivenN50(target: real, r: nat, pick: Split, n50: nat, lo: nat, hi: nat, s: Split)
    requires s.Total() == r && s.n50 == n50 && lo <= hi <= r - n50
    requires s.n3x0 < lo ==> (4 * r - 3 * n50 + 2 * lo) as real <= target
    requires hi < s.n3x0 ==> target <= (2 * r - n50 + 4 * hi) as real
    requires forall t: Split | t.Total() == r && t.n50 == n50 && lo <= t.n3x0 <= hi :: Beats(target, pick, t)
    ensures Beats(target, pick, s)
  {
    if s.n3x0 < lo {
      assert Beats(target, pick, Split(lo, r - n50 - lo, 0, n50));
    } else if hi < s.n3x0 {
      assert Beats(target, pick, Split(hi, 0, r - n50 - hi, n50));
    }
  }
}
