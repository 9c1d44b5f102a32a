/** The searches of osu!mania's `generate_state`, one for each set of counts that are given. */
module ManiaSearch {
  import opened HitResults
  import opened ManiaSplits
  import opened ManiaScan

  /** Neither n200, n100, nor n50 given. */
  method SearchAll(q: Request, acc: Accuracy, n3x0Default: nat) returns (pick: Split)
    requires q.Valid() && q.n200.None? && q.n100.None? && q.n50.None? && n3x0Default <= q.remaining
    ensures q.InRange(pick) && q.remaining <= pick.Total()
    ensures q.Live() && q.Fits() ==> q.Closest(acc, pick)
  {
    hide WindowLow, WindowHigh, Request.Target, Miss, DistanceOf;
    var nRemaining, half, target := q.remaining, HalfTarget(q, acc), q.Target(acc);
    var best: Option<real> := None;
    pick := Split(n3x0Default, 0, 0, 0);
    var rawLo := (target - (4 * nRemaining) as real) / 5.0;
    var a, b := (target - nRemaining as real) / 5.0, half - nRemaining as real;
    var rawHi := if a <= b then a else b;
    var both := Min(nRemaining, q.Given3x0());
    var (lo, hi) := Adjust(q, WindowLow(rawLo, nRemaining), WindowHigh(rawHi, nRemaining), both);
    TargetNonNegative(q, acc);
    AdjustedWindow(q, rawLo, rawHi, nRemaining, both, lo, hi);
    for n3x0 := lo to hi + 1
      invariant Tracks(q, acc, best, pick)
      invariant best.None? ==> pick == Split(n3x0Default, 0, 0, 0)
      invariant lo < n3x0 && q.Live() ==> best.Some?
      invariant q.Live() && q.Fits() ==>
        forall s: Split | s.Total() == q.remaining && lo <= s.n3x0 < n3x0 :: Done(q, acc, best, pick, s)
    {
      best, pick := ScanN200(q, acc, best, pick, n3x0);
    }
    if q.Live() && q.Fits() {
      forall s: Split | q.Allows(s)
        ensures Beats(target, pick, s)
      {
        ClosestAll(target, nRemaining, pick, lo, hi, s);
      }
    }
  }

  /** Only n200 given. */
  method SearchGivenN200(q: Request, acc: Accuracy, n3x0Default: nat) returns (pick: Split)
    requires q.Valid() && q.n200.Some? && q.n100.None? && q.n50.None? && n3x0Default <= q.remaining
    ensures q.InRange(pick) && q.remaining <= pick.Total()
    ensures q.Live() && q.Fits() ==> q.Closest(acc, pick)
  {
    hide WindowLow, WindowHigh, Request.Target, Miss, DistanceOf, Beats, Candidate;
    var nRemaining, target, n200 := q.remaining, q.Target(acc), q.n200.value;
    var limit, both := nRemaining - n200, Min(nRemaining, q.Given3x0());
    var best: Option<real> := None;
    pick := Split(n3x0Default, n200, 0, 0);
    var rawLo := (target - (2 * (nRemaining + n200)) as real) / 4.0;
    var rawHi := (target - (nRemaining + 3 * n200) as real) / 5.0;
    var (lo, hi) := Adjust(q, WindowLow(rawLo, limit), WindowHigh(rawHi, limit), both);
    TargetNonNegative(q, acc);
    AdjustedWindow(q, rawLo, rawHi, limit, both, lo, hi);
    for n3x0 := lo to hi + 1
      invariant Tracks(q, acc, best, pick)
      invariant best.None? ==> pick == Split(n3x0Default, n200, 0, 0)
      invariant lo < n3x0 && q.Live() ==> best.Some?
      invariant q.Live() && q.Fits() ==>
        forall s: Split | s.Total() == q.remaining && s.n200 == n200 && lo <= s.n3x0 < n3x0
          :: Done(q, acc, best, pick, s)
    {
      SearchGivenN200Candidates(q, n3x0);
      best, pick := ScanN100(q, acc, best, pick, n3x0, n200);
    }
    if q.Live() && q.Fits() {
      SearchedGivenN200(q, acc, best, pick, rawLo, rawHi, lo, hi);
    }
  }

  lemma SearchedGivenN200(q: Request, acc: real, best: Option<real>, pick: Split, rawLo: real, rawHi: real,
                        lo: nat, hi: nat)
    requires q.Valid() && q.n200.Some? && q.Fits() && best.Some? && q.Allows(pick)
    requires lo <= hi <= q.remaining - q.n200.value
    requires rawLo == (q.Target(acc) - (2 * (q.remaining + q.n200.value)) as real) / 4.0
    requires rawHi == (q.Target(acc) - (q.remaining + 3 * q.n200.value) as real) / 5.0
    requires forall x: nat | q.Allows3x0(x) && x <= q.remaining - q.n200.value ::
      (x < lo ==> lo as real <= rawLo) && (hi < x ==> rawHi <= hi as real)
    requires forall s: Split | s.Total() == q.remaining && s.n200 == q.n200.value && lo <= s.n3x0 <= hi
      :: Done(q, acc, best, pick, s)
    ensures q.Closest(acc, pick)
  {
    hide Request.Target, Beats, Done;
    var target := q.Target(acc);
    forall s: Split | s.Total() == q.remaining && s.n200 == q.n200.value && lo <= s.n3x0 <= hi
      ensures Beats(target, pick, s)
    {
      DoneBeats(q, acc, best, pick, s);
    }
    forall s: Split | q.Allows(s)
      ensures Beats(target, pick, s)
    {
      ClosestGivenN200(target, q.remaining, pick, q.n200.value, lo, hi, s);
    }
  }

  lemma SearchGivenN200Candidates(q: Request, n3x0: nat)
    requires q.Valid() && q.n200.Some? && q.n100.None? && q.n50.None?
    requires if q.n320.Some? && q.n300.Some? then n3x0 == Min(q.remaining, q.Given3x0())
             else q.Given3x0() <= n3x0 <= q.remaining
    requires q.Fits() ==> n3x0 <= q.remaining - q.n200.value
    ensures forall k: nat | k <= SaturatingSub(q.remaining, n3x0 + q.n200.value)
              :: Candidate(q, LineN100(q, n3x0, q.n200.value, k))
  {}

  /** Only n100 given; the lower bound uses the remaining instead of all objects. */
  method SearchGivenN100(q: Request, acc: Accuracy, n3x0Default: nat) returns (pick: Split)
    requires q.Valid() && q.n100.Some? && q.n200.None? && q.n50.None? && n3x0Default <= q.remaining
    ensures q.InRange(pick) && q.remaining <= pick.Total()
    ensures q.Live() && q.Fits() ==> q.Closest(acc, pick)
  {
    hide WindowLow, WindowHigh, Request.Target, Miss, DistanceOf, Beats, Candidate, HalfTargetWithoutMisses;
    var nRemaining, target, n100 := q.remaining, q.Target(acc), q.n100.value;
    var limit, both := nRemaining - n100, Min(nRemaining, q.Given3x0());
    var best: Option<real> := None;
    pick := Split(n3x0Default, 0, n100, 0);
    var rawLo := HalfTargetWithoutMisses(q, acc) - (2 * nRemaining - n100) as real;
    var rawHi := (target - (nRemaining + n100) as real) / 5.0;
    var (lo, hi) := Adjust(q, WindowLow(rawLo, limit), WindowHigh(rawHi, limit), both);
    TargetNonNegative(q, acc);
    AdjustedWindow(q, rawLo, rawHi, limit, both, lo, hi);
    for n3x0 := lo to hi + 1
      invariant Tracks(q, acc, best, pick)
      invariant best.None? ==> pick == Split(n3x0Default, 0, n100, 0)
      invariant lo < n3x0 && q.Live() ==> best.Some?
      invariant q.Live() && q.Fits() ==>
        forall s: Split | s.Total() == q.remaining && s.n100 == n100 && lo <= s.n3x0 < n3x0
          :: Done(q, acc, best, pick, s)
    {
      SearchGivenN100Candidates(q, n3x0);
      best, pick := ScanN200GivenN100(q, acc, best, pick, n3x0, n100);
    }
    if q.Live() && q.Fits() {
      forall s: Split | q.Allows(s)
        ensures Beats(target, pick, s)
      {
        ClosestGivenN100(target, nRemaining, pick, n100, lo, hi, s);
      }
    }
  }

  lemma SearchGivenN100Candidates(q: Request, n3x0: nat)
    requires q.Valid() && q.n100.Some? && q.n200.None? && q.n50.None?
    requires if q.n320.Some? && q.n300.Some? then n3x0 == Min(q.remaining, q.Given3x0())
             else q.Given3x0() <= n3x0 <= q.remaining
    requires q.Fits() ==> n3x0 <= q.remaining - q.n100.value
    ensures forall k: nat | k <= SaturatingSub(q.remaining, n3x0 + q.n100.value)
              :: Candidate(q, LineN200GivenN100(q, n3x0, q.n100.value, k))
  {}

  /** Only n50 given. */
  method SearchGivenN50(q: Request, acc: Accuracy, n3x0Default: nat) returns (pick: Split)
    requires q.Valid() && q.n50.Some? && q.n200.None? && q.n100.None? && n3x0Default <= q.remaining
    ensures q.InRange(pick) && q.remaining <= pick.Total()
    ensures q.Live() && q.Fits() ==> q.Closest(acc, pick)
  {
    hide WindowLow, WindowHigh, Request.Target, Miss, DistanceOf, Beats, Candidate;
    var nRemaining, target, n50 := q.remaining, q.Target(acc), q.n50.value;
    var limit, both := nRemaining - n50, Min(nRemaining, q.Given3x0());
    var best: Option<real> := None;
    pick := Split(n3x0Default, 0, 0, n50);
    var rawLo := (target - (4 * nRemaining - 3 * n50) as real) / 2.0;
    var rawHi := (target - (2 * nRemaining - n50) as real) / 4.0;
    var (lo, hi) := Adjust(q, WindowLow(rawLo, limit), WindowHigh(rawHi, limit), both);
    TargetNonNegative(q, acc);
    AdjustedWindow(q, rawLo, rawHi, limit, both, lo, hi);
    for n3x0 := lo to hi + 1
      invariant Tracks(q, acc, best, pick)
      invariant best.None? ==> pick == Split(n3x0Default, 0, 0, n50)
      invariant lo < n3x0 && q.Live() ==> best.Some?
      invariant q.Live() && q.Fits() ==>
        forall s: Split | s.Total() == q.remaining && s.n50 == n50 && lo <= s.n3x0 < n3x0
          :: Done(q, acc, best, pick, s)
    {
      SearchGivenN50Candidates(q, n3x0);
      best, pick := ScanN200GivenN50(q, acc, best, pick, n3x0, n50);
    }
    if q.Live() && q.Fits() {
      SearchedGivenN50(q, acc, best, pick, rawLo, rawHi, lo, hi);
    }
  }

  lemma SearchedGivenN50(q: Request, acc: real, best: Option<real>, pick: Split, rawLo: real, rawHi: real,
                        lo: nat, hi: nat)
    requires q.Valid() && q.n50.Some? && q.Fits() && best.Some? && q.Allows(pick)
    requires lo <= hi <= q.remaining - q.n50.value
    requires rawLo == (q.Target(acc) - (4 * q.remaining - 3 * q.n50.value) as real) / 2.0
    requires rawHi == (q.Target(acc) - (2 * q.remaining - q.n50.value) as real) / 4.0
    requires forall x: nat | q.Allows3x0(x) && x <= q.remaining - q.n50.value ::
      (x < lo ==> lo as real <= rawLo) && (hi < x ==> rawHi <= hi as real)
    requires forall s: Split | s.Total() == q.remaining && s.n50 == q.n50.value && lo <= s.n3x0 <= hi
      :: Done(q, acc, best, pick, s)
    ensures q.Closest(acc, pick)
  {
    hide Request.Target, Beats, Done;
    var target := q.Target(acc);
    forall s: Split | s.Total() == q.remaining && s.n50 == q.n50.value && lo <= s.n3x0 <= hi
      ensures Beats(target, pick, s)
    {
      DoneBeats(q, acc, best, pick, s);
    }
    forall s: Split | q.Allows(s)
      ensures Beats(target, pick, s)
    {
      ClosestGivenN50(target, q.remaining, pick, q.n50.value, lo, hi, s);
    }
  }

  lemma SearchGivenN50Candidates(q: Request, n3x0: nat)
    requires q.Valid() && q.n50.Some? && q.n200.None? && q.n100.None?
    requires if q.n320.Some? && q.n300.Some? then n3x0 == Min(q.remaining, q.Given3x0())
             else q.Given3x0() <= n3x0 <= q.remaining
    requires q.Fits() ==> n3x0 <= q.remaining - q.n50.value
    ensures forall k: nat | k <= SaturatingSub(q.remaining, n3x0 + q.n50.value)
              :: Candidate(q, LineN200GivenN50(q, n3x0, q.n50.value, k))
  {}

  function LineGivenN100N50(q: Request, n100: nat, n50: nat, n3x0: nat): Split {
    Split(n3x0, SaturatingSub(q.remaining, n3x0 + n100 + n50), n100, n50)
  }

  /** n100 and n50 given; n200 takes what is left. */
  method SearchGivenN100N50(q: Request, acc: Accuracy, n3x0Default: nat) returns (pick: Split)
    requires q.Valid() && q.n100.Some? && q.n50.Some? && q.n200.None? && n3x0Default <= q.remaining
    ensures q.InRange(pick) && q.remaining <= pick.Total()
    ensures q.Live() && q.Fits() ==> q.Closest(acc, pick)
  {
    hide WindowLow, WindowHigh, Request.Target, DistanceOf, Candidate, Kept, LineGivenN100N50;
    var nRemaining, target, n100, n50 := q.remaining, q.Target(acc), q.n100.value, q.n50.value;
    var limit := SaturatingSub(nRemaining, n100 + n50);
    var raw := (target - (4 * nRemaining) as real + (2 * n100 + 3 * n50) as real) / 2.0;
    var (lo, hi) := Adjust(q, WindowLow(raw, limit), WindowHigh(raw, limit), q.Given3x0());
    AdjustedWindow(q, raw, raw, limit, q.Given3x0(), lo, hi);
    var at := (n3x0: nat) => LineGivenN100N50(q, n100, n50, n3x0);
    SearchGivenN100N50Candidates(q, lo, hi);
    var best: Option<real>;
    best, pick := Scan(q, acc, None, Split(n3x0Default, 0, n100, n50), lo, hi, at);
    ScanPicks(q, acc, Split(n3x0Default, 0, n100, n50), best, pick);
    if q.Live() && q.Fits() {
      SearchGivenN100N50Line(q, limit);
      LineIsClosest(q, acc, best, pick, at, 4 * nRemaining - 2 * n100 - 3 * n50, 2, raw, limit, lo, hi);
    }
  }

  lemma SearchGivenN100N50Line(q: Request, limit: nat)
    requires q.Valid() && q.n100.Some? && q.n50.Some? && q.n200.None? && q.Fits()
    requires limit == SaturatingSub(q.remaining, q.n100.value + q.n50.value)
    ensures q.Given3x0() <= limit
    ensures forall s: Split | q.Allows(s) ::
      s == LineGivenN100N50(q, q.n100.value, q.n50.value, s.n3x0) && s.n3x0 <= limit
    ensures forall k: nat | k <= limit ::
      LineGivenN100N50(q, q.n100.value, q.n50.value, k).Value()
      == 4 * q.remaining - 2 * q.n100.value - 3 * q.n50.value + 2 * k
  {}

  lemma SearchGivenN100N50Candidates(q: Request, lo: nat, hi: nat)
    requires q.Valid() && q.n100.Some? && q.n50.Some? && q.n200.None? && lo <= hi
    requires if q.n320.Some? && q.n300.Some? then lo == hi == q.Given3x0() else q.Given3x0() <= lo && hi <= q.remaining
    requires q.Fits() ==> hi <= SaturatingSub(q.remaining, q.n100.value + q.n50.value)
    ensures forall k: nat | lo <= k <= hi :: Candidate(q, LineGivenN100N50(q, q.n100.value, q.n50.value, k))
  {}

  function LineGivenN200N50(q: Request, n200: nat, n50: nat, n3x0: nat): Split {
    Split(n3x0, n200, SaturatingSub(q.remaining, n3x0 + n200 + n50), n50)
  }

  /** n200 and n50 given; n100 takes what is left. */
  method SearchGivenN200N50(q: Request, acc: Accuracy, n3x0Default: nat) returns (pick: Split)
    requires q.Valid() && q.n200.Some? && q.n50.Some? && q.n100.None? && n3x0Default <= q.remaining
    ensures q.InRange(pick) && q.remaining <= pick.Total()
    ensures q.Live() && q.Fits() ==> q.Closest(acc, pick)
  {
    hide WindowLow, WindowHigh, Request.Target, DistanceOf, Candidate, Kept, LineGivenN200N50;
    var nRemaining, target, n200, n50 := q.remaining, q.Target(acc), q.n200.value, q.n50.value;
    var limit := SaturatingSub(nRemaining, n200 + n50);
    var raw := (target - (2 * (nRemaining + n200) - n50) as real) / 4.0;
    var (lo, hi) := Adjust(q, WindowLow(raw, limit), WindowHigh(raw, limit), q.Given3x0());
    AdjustedWindow(q, raw, raw, limit, q.Given3x0(), lo, hi);
    var at := (n3x0: nat) => LineGivenN200N50(q, n200, n50, n3x0);
    SearchGivenN200N50Candidates(q, lo, hi);
    var best: Option<real>;
    best, pick := Scan(q, acc, None, Split(n3x0Default, n200, 0, n50), lo, hi, at);
    ScanPicks(q, acc, Split(n3x0Default, n200, 0, n50), best, pick);
    if q.Live() && q.Fits() {
      SearchGivenN200N50Line(q, limit);
      LineIsClosest(q, acc, best, pick, at, 2 * nRemaining + 2 * n200 - n50, 4, raw, limit, lo, hi);
    }
  }

  lemma SearchGivenN200N50Line(q: Request, limit: nat)
    requires q.Valid() && q.n200.Some? && q.n50.Some? && q.n100.None? && q.Fits()
    requires limit == SaturatingSub(q.remaining, q.n200.value + q.n50.value)
    ensures q.Given3x0() <= limit
    ensures forall s: Split | q.Allows(s) ::
      s == LineGivenN200N50(q, q.n200.value, q.n50.value, s.n3x0) && s.n3x0 <= limit
    ensures forall k: nat | k <= limit ::
      LineGivenN200N50(q, q.n200.value, q.n50.value, k).Value()
      == 2 * q.remaining + 2 * q.n200.value - q.n50.value + 4 * k
  {}

  lemma SearchGivenN200N50Candidates(q: Request, lo: nat, hi: nat)
    requires q.Valid() && q.n200.Some? && q.n50.Some? && q.n100.None? && lo <= hi
    requires if q.n320.Some? && q.n300.Some? then lo == hi == q.Given3x0() else q.Given3x0() <= lo && hi <= q.remaining
    requires q.Fits() ==> hi <= SaturatingSub(q.remaining, q.n200.value + q.n50.value)
    ensures forall k: nat | lo <= k <= hi :: Candidate(q, LineGivenN200N50(q, q.n200.value, q.n50.value, k))
  {}

  function LineGivenN200N100(q: Request, n200: nat, n100: nat, n3x0: nat): Split {
    Split(n3x0, n200, n100, SaturatingSub(q.remaining, n3x0 + n200 + n100))
  }

  /** n200 and n100 given; n50 takes what is left. */
  method SearchGivenN200N100(q: Request, acc: Accuracy, n3x0Default: nat) returns (pick: Split)
    requires q.Valid() && q.n200.Some? && q.n100.Some? && q.n50.None? && n3x0Default <= q.remaining
    ensures q.InRange(pick) && q.remaining <= pick.Total()
    ensures q.Live() && q.Fits() ==> q.Closest(acc, pick)
  {
    hide WindowLow, WindowHigh, Request.Target, DistanceOf, Candidate, Kept, LineGivenN200N100;
    var nRemaining, target, n200, n100 := q.remaining, q.Target(acc), q.n200.value, q.n100.value;
    var limit := SaturatingSub(nRemaining, n200 + n100);
    var raw := (target - (nRemaining + 3 * n200 + n100) as real) / 5.0;
    var (lo, hi) := Adjust(q, WindowLow(raw, limit), WindowHigh(raw, limit), q.Given3x0());
    AdjustedWindow(q, raw, raw, limit, q.Given3x0(), lo, hi);
    var at := (n3x0: nat) => LineGivenN200N100(q, n200, n100, n3x0);
    SearchGivenN200N100Candidates(q, lo, hi);
    var best: Option<real>;
    best, pick := Scan(q, acc, None, Split(n3x0Default, n200, n100, 0), lo, hi, at);
    ScanPicks(q, acc, Split(n3x0Default, n200, n100, 0), best, pick);
    if q.Live() && q.Fits() {
      SearchGivenN200N100Line(q, limit);
      LineIsClosest(q, acc, best, pick, at, nRemaining + 3 * n200 + n100, 5, raw, limit, lo, hi);
    }
  }

  lemma SearchGivenN200N100Line(q: Request, limit: nat)
    requires q.Valid() && q.n200.Some? && q.n100.Some? && q.n50.None? && q.Fits()
    requires limit == SaturatingSub(q.remaining, q.n200.value + q.n100.value)
    ensures q.Given3x0() <= limit
    ensures forall s: Split | q.Allows(s) ::
      s == LineGivenN200N100(q, q.n200.value, q.n100.value, s.n3x0) && s.n3x0 <= limit
    ensures forall k: nat | k <= limit ::
      LineGivenN200N100(q, q.n200.value, q.n100.value, k).Value()
      == q.remaining + 3 * q.n200.value + q.n100.value + 5 * k
  {}

  lemma SearchGivenN200N100Candidates(q: Request, lo: nat, hi: nat)
    requires q.Valid() && q.n200.Some? && q.n100.Some? && q.n50.None? && lo <= hi
    requires if q.n320.Some? && q.n300.Some? then lo == hi == q.Given3x0() else q.Given3x0() <= lo && hi <= q.remaining
    requires q.Fits() ==> hi <= SaturatingSub(q.remaining, q.n200.value + q.n100.value)
    ensures forall k: nat | lo <= k <= hi :: Candidate(q, LineGivenN200N100(q, q.n200.value, q.n100.value, k))
  {}
}
