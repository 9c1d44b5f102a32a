/** The inner search loops of osu!mania's `generate_state`, from the best candidate so far to a better one. */
module ManiaScan {
  import opened HitResults
  import opened ManiaSplits

  /** The best candidate so far: none before the first, a split of all remaining objects after. */
  ghost predicate Tracks(q: Request, acc: real, best: Option<real>, pick: Split) {
    best.Some? ==>
      && q.remaining <= pick.Total()
      && q.InRange(pick)
      && best == DistanceOf(acc, pick, q.misses)
      && (q.Fits() ==> q.Allows(pick))
  }

  /** `s` has been dealt with: the best candidate is at least as close. */
  ghost predicate Done(q: Request, acc: real, best: Option<real>, pick: Split, s: Split) {
    best.Some? && Beats(q.Target(acc), pick, s)
  }

  /** What a search loop keeps: progress, and the first pick until a candidate was closer. */
  ghost predicate Kept(q: Request, acc: real, best: Option<real>, pick: Split, best': Option<real>, pick': Split) {
    && Tracks(q, acc, best', pick')
    && (best'.None? ==> best.None? && pick' == pick)
    && (q.Fits() ==> forall s :: Done(q, acc, best, pick, s) ==> Done(q, acc, best', pick', s))
  }

  /** A candidate may be considered when it is in range and, if the fixed counts fit, keeps them. */
  predicate Candidate(q: Request, s: Split) {
    q.remaining <= s.Total() && q.InRange(s) && (q.Fits() ==> q.Allows(s))
  }

  /** One round of a search loop: `if curr_dist < best_dist { .. }`. */
  method Consider(q: Request, acc: real, best: Option<real>, pick: Split, candidate: Split)
    returns (best': Option<real>, pick': Split)
    requires Tracks(q, acc, best, pick)
    requires Candidate(q, candidate)
    ensures Kept(q, acc, best, pick, best', pick')
    ensures pick' == pick || pick' == candidate
    ensures q.Live() ==> best'.Some?
    ensures q.Live() && q.Fits() ==> Done(q, acc, best', pick', candidate)
  {
    best', pick' := best, pick;
    var curr := DistanceOf(acc, candidate, q.misses);
    if IsCloser(curr, best) {
      best', pick' := curr, candidate;
    }
    if q.Fits() && best.Some? && q.remaining + q.misses > 0 {
      SplitOrder(q, acc, candidate, pick);
    }
  }

  /** The innermost loop of every search: try the splits `at(lo)`, .., `at(hi)`. */
  method Scan(q: Request, acc: Accuracy, best: Option<real>, pick: Split, lo: nat, hi: nat, at: nat -> Split)
    returns (best': Option<real>, pick': Split)
    requires Tracks(q, acc, best, pick) && lo <= hi
    requires forall k: nat | lo <= k <= hi :: Candidate(q, at(k))
    ensures Kept(q, acc, best, pick, best', pick')
    ensures q.Live() ==> best'.Some?
    ensures q.Live() && q.Fits() ==> forall k: nat | lo <= k <= hi :: Done(q, acc, best', pick', at(k))
  {
    hide Candidate, Tracks, Done, Request.Fits;
    best', pick' := best, pick;
    for k := lo to hi + 1
      invariant Kept(q, acc, best, pick, best', pick')
      invariant lo < k && q.Live() ==> best'.Some?
      invariant q.Live() && q.Fits() ==> forall l | lo <= l < k :: Done(q, acc, best', pick', at(l))
    {
      best', pick' := Consider(q, acc, best', pick', at(k));
    }
  }

  /** n100 is searched, n50 takes what is left. */
  method ScanN100(q: Request, acc: Accuracy, best: Option<real>, pick: Split, n3x0: nat, n200: nat)
    returns (best': Option<real>, pick': Split)
    requires Tracks(q, acc, best, pick)
    requires forall k: nat | k <= SaturatingSub(q.remaining, n3x0 + n200) :: Candidate(q, LineN100(q, n3x0, n200, k))
    requires q.Fits() ==> n3x0 + n200 <= q.remaining
    ensures Kept(q, acc, best, pick, best', pick')
    ensures q.Live() ==> best'.Some?
    ensures q.Live() && q.Fits() ==>
      forall s: Split | s.Total() == q.remaining && s.n3x0 == n3x0 && s.n200 == n200 :: Done(q, acc, best', pick', s)
  {
    hide WindowLow, WindowHigh, Request.Target, Miss, DistanceOf, Candidate, Tracks, Request.Fits;
    var target, left := q.Target(acc), SaturatingSub(q.remaining, n3x0 + n200);
    var raw := target - (q.remaining + 5 * n3x0 + 3 * n200) as real;
    var lo, hi := WindowLow(raw, left), WindowHigh(raw, left);
    WindowSuffices(target, q.remaining + 5 * n3x0 + 3 * n200, 1, raw, 0, left, 0);
    var at := (k: nat) => LineN100(q, n3x0, n200, k);
    best', pick' := Scan(q, acc, best, pick, lo, hi, at);
    if q.Live() && q.Fits() {
      ClosestOnLine(target, pick', at, q.remaining + 5 * n3x0 + 3 * n200, 1, raw, 0, left, lo, hi);
      forall s: Split | s.Total() == q.remaining && s.n3x0 == n3x0 && s.n200 == n200
        ensures Done(q, acc, best', pick', s)
      {
        assert s == at(s.n100);
      }
    }
  }

  /** The middle loop when n200 is free too. */
  method ScanN200(q: Request, acc: Accuracy, best: Option<real>, pick: Split, n3x0: nat)
    returns (best': Option<real>, pick': Split)
    requires q.Valid() && q.n200.None? && q.n100.None? && q.n50.None? && Tracks(q, acc, best, pick)
    requires n3x0 <= q.remaining && q.InRange(Split(n3x0, 0, 0, 0)) && (q.Fits() ==> q.Allows3x0(n3x0))
    ensures Kept(q, acc, best, pick, best', pick')
    ensures q.Live() ==> best'.Some?
    ensures q.Live() && q.Fits() ==>
      forall s: Split | s.Total() == q.remaining && s.n3x0 == n3x0 :: Done(q, acc, best', pick', s)
  {
    hide WindowLow, WindowHigh, Request.Target, Miss, DistanceOf, Tracks, Candidate;
    hide Request.Fits, Request.InRange, Request.Allows, Request.Allows3x0;
    CandidatesN200(q, n3x0);
    best', pick' := best, pick;
    var left, half, target := q.remaining - n3x0, HalfTarget(q, acc), q.Target(acc);
    var rawLo := half - (q.remaining + 2 * n3x0) as real;
    var rawHi := (target - (q.remaining + 5 * n3x0) as real) / 3.0;
    var lo, hi := WindowLow(rawLo, left), WindowHigh(rawHi, left);
    WindowNonEmpty(rawLo, rawHi, left);
    WindowBounds(rawHi, left);
    for n200 := lo to hi + 1
      invariant Kept(q, acc, best, pick, best', pick')
      invariant lo < n200 && q.Live() ==> best'.Some?
      invariant q.Live() && q.Fits() ==>
        forall s: Split | s.Total() == q.remaining && s.n3x0 == n3x0 && lo <= s.n200 < n200
          :: Done(q, acc, best', pick', s)
    {
      best', pick' := ScanN100(q, acc, best', pick', n3x0, n200);
    }
    if q.Live() && q.Fits() {
      ClosestN200(target, q.remaining, pick', n3x0, rawLo, rawHi);
    }
  }

  lemma CandidatesN200(q: Request, n3x0: nat)
    requires q.Valid() && q.n200.None? && q.n100.None? && q.n50.None?
    requires n3x0 <= q.remaining && q.InRange(Split(n3x0, 0, 0, 0)) && (q.Fits() ==> q.Allows3x0(n3x0))
    ensures forall n200: nat, k: nat | n3x0 + n200 <= q.remaining && k <= SaturatingSub(q.remaining, n3x0 + n200)
              :: Candidate(q, LineN100(q, n3x0, n200, k))
  {}

  /** n200 is searched with n100 given. */
  method ScanN200GivenN100(q: Request, acc: Accuracy, best: Option<real>, pick: Split, n3x0: nat, n100: nat)
    returns (best': Option<real>, pick': Split)
    requires Tracks(q, acc, best, pick)
    requires forall k: nat | k <= SaturatingSub(q.remaining, n3x0 + n100) ::
      Candidate(q, LineN200GivenN100(q, n3x0, n100, k))
    requires q.Fits() ==> n3x0 + n100 <= q.remaining
    ensures Kept(q, acc, best, pick, best', pick')
    ensures q.Live() ==> best'.Some?
    ensures q.Live() && q.Fits() ==>
      forall s: Split | s.Total() == q.remaining && s.n3x0 == n3x0 && s.n100 == n100 :: Done(q, acc, best', pick', s)
  {
    hide WindowLow, WindowHigh, Request.Target, Miss, DistanceOf, Candidate, Tracks, Request.Fits;
    var target, left := q.Target(acc), SaturatingSub(q.remaining, n3x0 + n100);
    var raw := (target - (q.remaining + 5 * n3x0 + n100) as real) / 3.0;
    var lo, hi := WindowLow(raw, left), WindowHigh(raw, left);
    WindowSuffices(target, q.remaining + 5 * n3x0 + n100, 3, raw, 0, left, 0);
    var at := (k: nat) => LineN200GivenN100(q, n3x0, n100, k);
    best', pick' := Scan(q, acc, best, pick, lo, hi, at);
    if q.Live() && q.Fits() {
      ClosestOnLine(target, pick', at, q.remaining + 5 * n3x0 + n100, 3, raw, 0, left, lo, hi);
      forall s: Split | s.Total() == q.remaining && s.n3x0 == n3x0 && s.n100 == n100
        ensures Done(q, acc, best', pick', s)
      {
        assert s == at(s.n200);
      }
    }
  }

  /** n200 is searched with n50 given; n100 takes what is left. */
  method ScanN200GivenN50(q: Request, acc: Accuracy, best: Option<real>, pick: Split, n3x0: nat, n50: nat)
    returns (best': Option<real>, pick': Split)
    requires Tracks(q, acc, best, pick)
    requires forall k: nat | k <= SaturatingSub(q.remaining, n3x0 + n50) ::
      Candidate(q, LineN200GivenN50(q, n3x0, n50, k))
    requires q.Fits() ==> n3x0 + n50 <= q.remaining
    ensures Kept(q, acc, best, pick, best', pick')
    ensures q.Live() ==> best'.Some?
    ensures q.Live() && q.Fits() ==>
      forall s: Split | s.Total() == q.remaining && s.n3x0 == n3x0 && s.n50 == n50 :: Done(q, acc, best', pick', s)
  {
    hide WindowLow, WindowHigh, Request.Target, Miss, DistanceOf, Candidate, Tracks, Request.Fits;
    var target, left := q.Target(acc), SaturatingSub(q.remaining, n3x0 + n50);
    var raw := (target - (2 * q.remaining + 4 * n3x0) as real + n50 as real) / 2.0;
    var lo, hi := WindowLow(raw, left), WindowHigh(raw, left);
    WindowSuffices(target, 2 * q.remaining + 4 * n3x0 - n50, 2, raw, 0, left, 0);
    var at := (k: nat) => LineN200GivenN50(q, n3x0, n50, k);
    best', pick' := Scan(q, acc, best, pick, lo, hi, at);
    if q.Live() && q.Fits() {
      ClosestOnLine(target, pick', at, 2 * q.remaining + 4 * n3x0 - n50, 2, raw, 0, left, lo, hi);
      forall s: Split | s.Total() == q.remaining && s.n3x0 == n3x0 && s.n50 == n50
        ensures Done(q, acc, best', pick', s)
      {
        assert s == at(s.n200);
      }
    }
  }

  // ---------------------------------------------------------------------------------------------
  // After a scan along one line

  /** What a scan picked, when there was no candidate before it. */
  lemma ScanPicks(q: Request, acc: real, first: Split, best: Option<real>, pick: Split)
    requires Kept(q, acc, None, first, best, pick)
    requires best.None? ==> q.InRange(first) && q.remaining <= first.Total()
    ensures q.InRange(pick) && q.remaining <= pick.Total()
    ensures best.Some? && q.Fits() ==> q.Allows(pick)
  {
    hide Request.InRange, Request.Fits, Request.Allows, Done;
  }

  lemma DoneBeats(q: Request, acc: real, best: Option<real>, pick: Split, s: Split)
    requires best.Some? && Done(q, acc, best, pick, s)
    ensures Beats(q.Target(acc), pick, s)
  {
    hide Request.Target;
  }

  /** With two counts given, all splits that keep them lie on one line. */
  lemma LineIsClosest(q: Request, acc: real, best: Option<real>, pick: Split, at: nat -> Split,
                      a: int, slope: int, raw: real, limit: nat, lo: nat, hi: nat)
    requires q.Allows(pick) && best.Some?
    requires forall k: nat | lo <= k <= hi :: Done(q, acc, best, pick, at(k))
    requires forall s: Split | q.Allows(s) :: s == at(s.n3x0) && s.n3x0 <= limit
    requires if q.n320.Some? && q.n300.Some? then lo == hi == q.Given3x0()
             else
               && slope > 0 && raw * slope as real == q.Target(acc) - a as real && q.Given3x0() <= limit
               && lo == Max(WindowLow(raw, limit), q.Given3x0()) && hi == Max(WindowHigh(raw, limit), q.Given3x0())
               && forall k: nat | k <= limit :: at(k).Value() == a + slope * k
    ensures q.Closest(acc, pick)
  {
    hide WindowLow, WindowHigh, Request.Target, Beats, Done;
    var target := q.Target(acc);
    forall k: nat | lo <= k <= hi
      ensures Beats(target, pick, at(k))
    {
      DoneBeats(q, acc, best, pick, at(k));
    }
    if q.n320.None? || q.n300.None? {
      ClosestOnLine(target, pick, at, a, slope, raw, q.Given3x0(), limit, lo, hi);
    }
  }
}
