/**
 The accuracy searches of osu!standard's `generate_state`. The pick is determined completely:
 it is the closest split, the one worth fewer points among equally close ones, and, when no
 count is given, the shift at the end makes the counts themselves unique.
 */
module OsuSearch {
  import opened HitResults

  /** Where a score comes from decides which slider judgements count for accuracy. */
  datatype OsuScoreOrigin =
    | Stable
    | WithSliderAcc(maxLargeTicks: nat, maxSliderEnds: nat)
    | WithoutSliderAcc(maxLargeTicks: nat, maxSmallTicks: nat)

  datatype SliderHits = SliderHits(sliderEnds: nat, largeTicks: nat, smallTicks: nat)

  function SliderValue(origin: OsuScoreOrigin, hits: SliderHits): nat {
    match origin
    case Stable => 0
    case WithSliderAcc(maxLargeTicks, maxSliderEnds) =>
      150 * Min(hits.sliderEnds, maxSliderEnds) + 30 * Min(hits.largeTicks, maxLargeTicks)
    case WithoutSliderAcc(maxLargeTicks, maxSmallTicks) =>
      30 * Min(hits.largeTicks, maxLargeTicks) + 10 * Min(hits.smallTicks, maxSmallTicks)
  }

  function MaxSliderValue(origin: OsuScoreOrigin): nat {
    match origin
    case Stable => 0
    case WithSliderAcc(maxLargeTicks, maxSliderEnds) => 150 * maxSliderEnds + 30 * maxLargeTicks
    case WithoutSliderAcc(maxLargeTicks, maxSmallTicks) => 30 * maxLargeTicks + 10 * maxSmallTicks
  }

  datatype Split = Split(n300: nat, n100: nat, n50: nat) {
    function Total(): nat {
      n300 + n100 + n50
    }

    function Value(): nat {
      300 * n300 + 100 * n100 + 50 * n50
    }
  }

  /** `NoComboState::accuracy`; an empty play has accuracy 0. */
  function PlayAccuracy(s: Split, misses: nat, origin: OsuScoreOrigin, hits: SliderHits): Option<real> {
    var numerator := s.Value() + SliderValue(origin, hits);
    var denominator := 300 * (s.Total() + misses) + MaxSliderValue(origin);
    if denominator == 0 then Some(0.0) else Ratio(numerator, denominator)
  }

  /** Every tick and slider end that counts has been hit. */
  predicate AllHit(origin: OsuScoreOrigin, hits: SliderHits) {
    match origin
    case Stable => true
    case WithSliderAcc(maxLargeTicks, maxSliderEnds) =>
      maxSliderEnds <= hits.sliderEnds && maxLargeTicks <= hits.largeTicks
    case WithoutSliderAcc(maxLargeTicks, maxSmallTicks) =>
      maxLargeTicks <= hits.largeTicks && maxSmallTicks <= hits.smallTicks
  }

  /** Accuracies lie between 0 and 1, where 1 takes hits at 300 only and all that sliders have to offer. */
  lemma PerfectExactly(s: Split, misses: nat, origin: OsuScoreOrigin, hits: SliderHits)
    requires s.Total() + misses > 0
    ensures var a := PlayAccuracy(s, misses, origin, hits);
      && a.Some? && 0.0 <= a.value <= 1.0
      && (a.value == 1.0 <==> s.n100 == 0 && s.n50 == 0 && misses == 0 && AllHit(origin, hits))
  {
    hide Ratio, SliderValue, MaxSliderValue, AllHit, PlayAccuracy, Split.Value;
    SliderBounds(origin, hits);
    ValueBounds(s);
    AccuracyIsRatio(s, misses, origin, hits);
    var numerator := s.Value() + SliderValue(origin, hits);
    var denominator := 300 * (s.Total() + misses) + MaxSliderValue(origin);
    RatioBounds(numerator, denominator);
  }

  lemma ValueBounds(s: Split)
    ensures s.Value() <= 300 * s.Total() && (s.Value() == 300 * s.Total() <==> s.n100 == 0 && s.n50 == 0)
  {}

  lemma AccuracyIsRatio(s: Split, misses: nat, origin: OsuScoreOrigin, hits: SliderHits)
    requires s.Total() + misses > 0
    ensures PlayAccuracy(s, misses, origin, hits)
         == Ratio(s.Value() + SliderValue(origin, hits), 300 * (s.Total() + misses) + MaxSliderValue(origin))
  {
    hide Ratio, SliderValue, MaxSliderValue, Split.Value, Split.Total;
  }

  lemma SliderBounds(origin: OsuScoreOrigin, hits: SliderHits)
    ensures SliderValue(origin, hits) <= MaxSliderValue(origin)
    ensures SliderValue(origin, hits) == MaxSliderValue(origin) <==> AllHit(origin, hits)
  {}

  /** Without an object or anything of a slider, the accuracy is 0. */
  lemma EmptyPlay(s: Split, misses: nat, origin: OsuScoreOrigin, hits: SliderHits)
    requires s.Total() + misses == 0 && MaxSliderValue(origin) == 0
    ensures PlayAccuracy(s, misses, origin, hits) == Some(0.0)
  {
    hide Ratio, SliderValue, MaxSliderValue, Split.Value, Split.Total;
  }

  datatype Request = Request(remaining: nat, misses: nat, origin: OsuScoreOrigin, hits: SliderHits,
                             n300: Option<nat>, n100: Option<nat>, n50: Option<nat>)
  {
    predicate Valid() {
      && (n300.Some? ==> n300.value <= remaining)
      && (n100.Some? ==> n100.value <= remaining)
      && (n50.Some? ==> n50.value <= remaining)
    }

    predicate Fits() {
      SumOr0(n300) + SumOr0(n100) + SumOr0(n50) <= remaining
    }

    predicate Keeps(s: Split) {
      && (n300.Some? ==> s.n300 == n300.value)
      && (n100.Some? ==> s.n100 == n100.value)
      && (n50.Some? ==> s.n50 == n50.value)
    }

    /** A split of the remaining objects that keeps the given counts. */
    predicate Allows(s: Split) {
      s.Total() == remaining && Keeps(s)
    }

    function Best(): nat {
      300 * (remaining + misses) + MaxSliderValue(origin)
    }

    function Target(acc: real): real {
      acc * Best() as real
    }

    function Points(s: Split): nat {
      s.Value() + SliderValue(origin, hits)
    }

    ghost predicate Prefers(target: real, pick: Split, s: Split) {
      Nearer(target, Points(pick), Points(s))
    }

    /** `pick` comes before every split that keeps the given counts. */
    ghost predicate Nearest(acc: real, pick: Split) {
      && Allows(pick)
      && forall s: Split | Allows(s) :: Prefers(Target(acc), pick, s)
    }
  }

  function DistanceOf(q: Request, acc: real, s: Split): Option<real> {
    Distance(acc, PlayAccuracy(s, q.misses, q.origin, q.hits))
  }

  lemma SplitOrder(q: Request, acc: real, s: Split, t: Split)
    requires s.Total() == t.Total() == q.remaining
    ensures IsCloser(DistanceOf(q, acc, s), DistanceOf(q, acc, t))
       <==> Miss(q.Target(acc), q.Points(s)) < Miss(q.Target(acc), q.Points(t))
  {
    if q.remaining + q.misses == 0 {
      assert s == t;
    } else {
      hide Distance, Ratio, Miss, PlayAccuracy, SliderValue, MaxSliderValue;
      AccuracyOfFull(q, s);
      AccuracyOfFull(q, t);
      var total := q.Best();
      assert q.Target(acc) == acc * total as real;
      RatioOrder(acc, total, q.Points(s), q.Points(t));
    }
  }

  lemma AccuracyOfFull(q: Request, s: Split)
    requires s.Total() == q.remaining && q.remaining + q.misses > 0
    ensures PlayAccuracy(s, q.misses, q.origin, q.hits) == Ratio(q.Points(s), q.Best())
  {
    hide Ratio, SliderValue, MaxSliderValue;
    var numerator := s.Value() + SliderValue(q.origin, q.hits);
    var denominator := 300 * (s.Total() + q.misses) + MaxSliderValue(q.origin);
    assert numerator == q.Points(s);
    assert denominator == q.Best() > 0;
  }

  /** What a search has to know of the distance: all splits have one, and comparing it is comparing how
      far their points are from the target. */
  ghost predicate Measures(q: Request, target: real, dist: Split -> Option<real>) {
    forall s: Split, t: Split | s.Total() == t.Total() == q.remaining ::
      && dist(s).Some?
      && (IsCloser(dist(s), dist(t)) <==> Miss(target, q.Points(s)) < Miss(target, q.Points(t)))
  }

  lemma DistanceMeasures(q: Request, acc: real, dist: Split -> Option<real>)
    requires forall s: Split :: dist(s) == DistanceOf(q, acc, s)
    ensures Measures(q, q.Target(acc), dist)
  {
    hide DistanceOf, Request.Target;
    forall s: Split, t: Split | s.Total() == t.Total() == q.remaining
      ensures dist(s).Some?
      ensures IsCloser(dist(s), dist(t)) <==> Miss(q.Target(acc), q.Points(s)) < Miss(q.Target(acc), q.Points(t))
    {
      assert dist(s) == DistanceOf(q, acc, s) && dist(t) == DistanceOf(q, acc, t);
      DistanceDefined(q, acc, s);
      SplitOrder(q, acc, s, t);
    }
  }

  lemma DistanceDefined(q: Request, acc: real, s: Split)
    ensures DistanceOf(q, acc, s).Some?
  {}

  /** The best candidate so far. */
  ghost predicate Tracks(q: Request, dist: Split -> Option<real>, best: Option<real>, pick: Split) {
    best.Some? ==> q.Allows(pick) && best == dist(pick)
  }

  ghost predicate Done(q: Request, target: real, best: Option<real>, pick: Split, s: Split) {
    best.Some? && q.Prefers(target, pick, s)
  }

  /** One round of a search loop. Candidates come in increasing value. */
  method Consider(q: Request, ghost target: real, dist: Split -> Option<real>, best: Option<real>, pick: Split,
                  candidate: Split)
    returns (best': Option<real>, pick': Split)
    requires Measures(q, target, dist) && Tracks(q, dist, best, pick) && q.Allows(candidate)
    requires best.Some? ==> pick.Value() <= candidate.Value()
    ensures best'.Some? && Tracks(q, dist, best', pick') && Done(q, target, best', pick', candidate)
    ensures pick'.Value() <= candidate.Value()
    ensures forall s | Done(q, target, best, pick, s) :: Done(q, target, best', pick', s)
  {
    hide Miss;
    best', pick' := best, pick;
    var curr := dist(candidate);
    if IsCloser(curr, best) {
      best', pick' := curr, candidate;
    }
  }

  // ---------------------------------------------------------------------------------------------
  // Searching along one line of splits

  /** The loop over one window; `at(k)` is worth more for larger `k`. */
  method Scan(q: Request, ghost target: real, dist: Split -> Option<real>, best: Option<real>, pick: Split,
              lo: nat, hi: nat, at: nat -> Split)
    returns (best': Option<real>, pick': Split)
    requires Measures(q, target, dist) && Tracks(q, dist, best, pick) && lo <= hi
    requires forall k: nat | lo <= k <= hi :: q.Allows(at(k))
    requires forall k: nat, l: nat | lo <= k <= l <= hi :: at(k).Value() <= at(l).Value()
    requires best.Some? ==> pick.Value() <= at(lo).Value()
    ensures best'.Some? && Tracks(q, dist, best', pick') && pick'.Value() <= at(hi).Value()
    ensures forall k: nat | lo <= k <= hi :: Done(q, target, best', pick', at(k))
    ensures forall s | Done(q, target, best, pick, s) :: Done(q, target, best', pick', s)
  {
    hide Measures, Tracks, Done, Request.Allows, Split.Value;
    best', pick' := best, pick;
    for k := lo to hi + 1
      invariant Tracks(q, dist, best', pick')
      invariant lo < k ==> best'.Some? && pick'.Value() <= at(k - 1).Value()
      invariant lo == k ==> (best', pick') == (best, pick)
      invariant forall l: nat | lo <= l < k :: Done(q, target, best', pick', at(l))
      invariant forall s | Done(q, target, best, pick, s) :: Done(q, target, best', pick', s)
    {
      best', pick' := Consider(q, target, dist, best', pick', at(k));
    }
  }

  /** On a line with slope `slope`, the window already holds the preferred split. */
  lemma NearestOnSplits(q: Request, target: real, pick: Split, at: nat -> Split, a: int, slope: int, raw: real,
                        limit: nat)
    requires slope > 0 && raw * slope as real == target - a as real
    requires forall k: nat | k <= limit :: q.Points(at(k)) == a + slope * k
    requires forall k: nat | WindowLow(raw, limit) <= k <= WindowHigh(raw, limit) :: q.Prefers(target, pick, at(k))
    ensures forall k: nat | k <= limit :: q.Prefers(target, pick, at(k))
  {
    hide WindowLow, WindowHigh, Request.Points;
    forall k: nat | k <= limit
      ensures q.Prefers(target, pick, at(k))
    {
      NearestOnLine(target, a, slope, raw, limit, k);
      assert q.Prefers(target, pick, at(WindowLow(raw, limit))) && q.Prefers(target, pick, at(WindowHigh(raw, limit)));
    }
  }

  /** n300 given: n50 takes what n100 leaves. */
  method SearchGivenN300(q: Request, acc: Accuracy) returns (pick: Split)
    requires q.Valid() && q.n300.Some? && q.n100.None? && q.n50.None?
    ensures q.Nearest(acc, pick)
  {
    hide WindowLow, WindowHigh, Request.Target, Measures, DistanceOf, SliderValue, Nearer;
    var n300, nRemaining, target := q.n300.value, q.remaining - q.n300.value, q.Target(acc);
    var a := 50 * nRemaining + 300 * n300 + SliderValue(q.origin, q.hits);
    var raw := (target - a as real) / 50.0;
    var lo, hi := WindowLow(raw, nRemaining), WindowHigh(raw, nRemaining);
    NearestOnLine(target, a, 50, raw, nRemaining, 0);
    var at := (n100: nat) => Split(n300, n100, SaturatingSub(nRemaining, n100));
    var best;
    var dist := (s: Split) => DistanceOf(q, acc, s);
    DistanceMeasures(q, acc, dist);
    best, pick := Scan(q, target, dist, None, Split(n300, 0, 0), lo, hi, at);
    NearestOnSplits(q, target, pick, at, a, 50, raw, nRemaining);
    forall s: Split | q.Allows(s)
      ensures q.Prefers(target, pick, s)
    {
      assert s == at(s.n100);
    }
  }

  /** n100 given: n50 takes what n300 leaves. */
  method SearchGivenN100(q: Request, acc: Accuracy) returns (pick: Split)
    requires q.Valid() && q.n300.None? && q.n100.Some? && q.n50.None?
    ensures q.Nearest(acc, pick)
  {
    hide WindowLow, WindowHigh, Request.Target, Measures, DistanceOf, SliderValue, Nearer;
    var n100, nRemaining, target := q.n100.value, q.remaining - q.n100.value, q.Target(acc);
    var a := 50 * nRemaining + 100 * n100 + SliderValue(q.origin, q.hits);
    var raw := (target - a as real) / 250.0;
    var lo, hi := WindowLow(raw, nRemaining), WindowHigh(raw, nRemaining);
    NearestOnLine(target, a, 250, raw, nRemaining, 0);
    var at := (n300: nat) => Split(n300, n100, SaturatingSub(nRemaining, n300));
    var best;
    var dist := (s: Split) => DistanceOf(q, acc, s);
    DistanceMeasures(q, acc, dist);
    best, pick := Scan(q, target, dist, None, Split(0, n100, 0), lo, hi, at);
    NearestOnSplits(q, target, pick, at, a, 250, raw, nRemaining);
    forall s: Split | q.Allows(s)
      ensures q.Prefers(target, pick, s)
    {
      assert s == at(s.n300);
    }
  }

  /** n50 given: n100 takes what n300 leaves. */
  method SearchGivenN50(q: Request, acc: Accuracy) returns (pick: Split)
    requires q.Valid() && q.n300.None? && q.n100.None? && q.n50.Some?
    ensures q.Nearest(acc, pick)
  {
    hide WindowLow, WindowHigh, Request.Target, Measures, DistanceOf, SliderValue, Nearer;
    var n50, nRemaining, target := q.n50.value, q.remaining - q.n50.value, q.Target(acc);
    var nObjects, sliderValue := q.remaining + q.misses, SliderValue(q.origin, q.hits);
    var raw := (target + (100 * q.misses + 50 * n50) as real - (100 * nObjects + sliderValue) as real) / 200.0;
    var a := 100 * nRemaining + 50 * n50 + sliderValue;
    var lo, hi := WindowLow(raw, nRemaining), WindowHigh(raw, nRemaining);
    NearestOnLine(target, a, 200, raw, nRemaining, 0);
    var at := (n300: nat) => Split(n300, SaturatingSub(nRemaining, n300), n50);
    var best;
    var dist := (s: Split) => DistanceOf(q, acc, s);
    DistanceMeasures(q, acc, dist);
    best, pick := Scan(q, target, dist, None, Split(0, 0, n50), lo, hi, at);
    NearestOnSplits(q, target, pick, at, a, 200, raw, nRemaining);
    forall s: Split | q.Allows(s)
      ensures q.Prefers(target, pick, s)
    {
      assert s == at(s.n300);
    }
  }

  // ---------------------------------------------------------------------------------------------
  // No count given

  lemma NearestAll(q: Request, target: real, pick: Split, raw: real, lo: nat, hi: nat, s: Split)
    requires raw * 250.0 == target - (50 * q.remaining + SliderValue(q.origin, q.hits)) as real
    requires s.Total() == q.remaining && lo <= hi <= q.remaining
    requires s.n300 < lo ==> lo as real <= raw
    requires hi < s.n300 ==> raw <= hi as real
    requires lo < s.n300 ==> hi <= s.n300
    requires forall t: Split | t.Total() == q.remaining && lo <= t.n300 <= hi :: q.Prefers(target, pick, t)
    ensures q.Prefers(target, pick, s)
  {
    hide SliderValue;
    var r := q.remaining;
    if hi < s.n300 {
      assert q.Prefers(target, pick, Split(hi, 0, r - hi));
    } else if s.n300 < lo {
      var points := 5 * s.n300 + s.n100;
      if points < 5 * lo {
        assert q.Prefers(target, pick, Split(lo, 0, r - lo));
      } else {
        var t := Split(lo, points - 5 * lo, r - lo - (points - 5 * lo));
        assert q.Points(t) == q.Points(s);
        assert q.Prefers(target, pick, t);
      }
    }
  }

  /** The window for n100 reaches at most to where the next n300 takes over. */
  lemma WindowBelowNext(raw300: real, raw100: real, r: nat, n300: nat)
    requires WindowLow(raw300, r) <= n300 <= r
    requires raw100 == 5.0 * (raw300 - n300 as real)
    ensures WindowLow(raw100, r - n300) <= WindowHigh(raw100, r - n300) <= 5
    ensures WindowHigh(raw100, r - n300) <= r - n300
  {}

  /** No count given: every candidate n300 gets its own window for n100. */
  method SearchAll(q: Request, acc: Accuracy) returns (pick: Split)
    requires q.Valid() && q.n300.None? && q.n100.None? && q.n50.None?
    ensures q.Nearest(acc, pick)
  {
    hide WindowLow, WindowHigh, Request.Target, Measures, DistanceOf, SliderValue, Nearer, Tracks;
    var nRemaining, target, sliderValue := q.remaining, q.Target(acc), SliderValue(q.origin, q.hits);
    var best: Option<real> := None;
    pick := Split(0, 0, 0);
    var dist := (s: Split) => DistanceOf(q, acc, s);
    DistanceMeasures(q, acc, dist);
    assert Tracks(q, dist, best, pick) by { TracksNone(q, dist, pick); }
    var raw300 := (target - (50 * nRemaining + sliderValue) as real) / 250.0;
    var lo, hi := WindowLow(raw300, nRemaining), WindowHigh(raw300, nRemaining);
    NearestOnLine(target, 50 * nRemaining + sliderValue, 250, raw300, nRemaining, 0);
    WindowBounds(raw300, nRemaining);
    for n300 := lo to hi + 1
      invariant Tracks(q, dist, best, pick)
      invariant best.None? <==> n300 == lo
      invariant best.Some? ==> pick.Value() <= 50 * nRemaining + 250 * n300
      invariant forall s: Split | s.Total() == nRemaining && lo <= s.n300 < n300 :: Done(q, target, best, pick, s)
    {
      best, pick := ScanN100(q, target, dist, best, pick, n300, raw300);
    }
    assert q.Allows(pick) by { TracksAllows(q, dist, best, pick); }
    forall s: Split | q.Allows(s)
      ensures q.Prefers(target, pick, s)
    {
      NearestAll(q, target, pick, raw300, lo, hi, s);
    }
  }

  lemma TracksNone(q: Request, dist: Split -> Option<real>, pick: Split)
    ensures Tracks(q, dist, None, pick)
  {}

  lemma TracksAllows(q: Request, dist: Split -> Option<real>, best: Option<real>, pick: Split)
    requires best.Some? && Tracks(q, dist, best, pick)
    ensures q.Allows(pick)
  {}

  method ScanN100(q: Request, target: real, dist: Split -> Option<real>, best: Option<real>, pick: Split, n300: nat,
                  ghost raw300: real)
    returns (best': Option<real>, pick': Split)
    requires q.Valid() && q.n300.None? && q.n100.None? && q.n50.None?
    requires raw300 == (target - (50 * q.remaining + SliderValue(q.origin, q.hits)) as real) / 250.0
    requires WindowLow(raw300, q.remaining) <= n300 <= q.remaining
    requires Measures(q, target, dist)
    requires Tracks(q, dist, best, pick) && (best.Some? ==> pick.Value() <= 50 * q.remaining + 250 * n300)
    ensures best'.Some? && Tracks(q, dist, best', pick') && pick'.Value() <= 50 * q.remaining + 250 * (n300 + 1)
    ensures forall s: Split | s.Total() == q.remaining && s.n300 == n300 :: Done(q, target, best', pick', s)
    ensures forall s | Done(q, target, best, pick, s) :: Done(q, target, best', pick', s)
  {
    hide WindowLow, WindowHigh, Request.Target, Measures, DistanceOf, SliderValue, Nearer, Tracks;
    var nRemaining, sliderValue := q.remaining, SliderValue(q.origin, q.hits);
    var a, left := 50 * nRemaining + 250 * n300 + sliderValue, nRemaining - n300;
    var raw100 := (target - a as real) / 50.0;
    var lo, hi := WindowLow(raw100, left), WindowHigh(raw100, left);
    WindowBelowNext(raw300, raw100, nRemaining, n300);
    var at := (n100: nat) => Split(n300, n100, SaturatingSub(left, n100));
    best', pick' := Scan(q, target, dist, best, pick, lo, hi, at);
    NearestOnSplits(q, target, pick', at, a, 50, raw100, left);
    forall s: Split | s.Total() == nRemaining && s.n300 == n300
      ensures Done(q, target, best', pick', s)
    {
      assert s == at(s.n100);
    }
  }

  // ---------------------------------------------------------------------------------------------
  // The shift between equally accurate splits

  predicate Shifted(s: Split, priority: HitResultPriority) {
    match priority
    case BestCase => s.n300 == 0 || s.n50 < 4
    case WorstCase => s.n100 < 5
  }

  /** One n300 and four n50 are worth five n100. */
  function Shift(s: Split, priority: HitResultPriority): (r: Split)
    ensures r.Total() == s.Total() && r.Value() == s.Value()
    ensures Shifted(r, priority)
  {
    match priority
    case BestCase =>
      var n := Min(s.n300, s.n50 / 4);
      Split(s.n300 - n, s.n100 + 5 * n, s.n50 - 4 * n)
    case WorstCase =>
      var n := s.n100 / 5;
      Split(s.n300 + n, s.n100 - 5 * n, s.n50 + 4 * n)
  }

  /** The preferred splits differ only by the shift, so the shifted one is unique. */
  lemma NearestUnique(q: Request, acc: real, priority: HitResultPriority, s: Split, t: Split)
    requires q.Valid() && q.Nearest(acc, s) && q.Nearest(acc, t)
    requires q.n300.None? && q.n100.None? && q.n50.None? ==> Shifted(s, priority) && Shifted(t, priority)
    ensures s == t
  {
    hide Miss, Request.Target, SliderValue;
    assert q.Prefers(q.Target(acc), s, t) && q.Prefers(q.Target(acc), t, s);
    assert s.Value() == t.Value();
  }
}
