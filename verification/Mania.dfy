/** osu!mania's `generate_state`: every way of combining given hit results with an accuracy. */
module Mania {
  import opened HitResults
  import opened ManiaSplits
  import ManiaSearch

  /** The five hit results next to the misses. */
  datatype Counts = Counts(n320: nat, n300: nat, n200: nat, n100: nat, n50: nat) {
    function ToSplit(): Split {
      Split(n320 + n300, n200, n100, n50)
    }

    predicate Keeps(q: Request) {
      && (q.n320.Some? ==> n320 == q.n320.value)
      && (q.n300.Some? ==> n300 == q.n300.value)
      && (q.n200.Some? ==> n200 == q.n200.value)
      && (q.n100.Some? ==> n100 == q.n100.value)
      && (q.n50.Some? ==> n50 == q.n50.value)
    }

    predicate AtMost(limit: nat) {
      n320 <= limit && n300 <= limit && n200 <= limit && n100 <= limit && n50 <= limit
    }

    /** Nothing a later clamp or fill would change. */
    predicate Settled(remaining: nat) {
      && AtMost(remaining)
      && remaining <= ToSplit().Total()
    }
  }

  predicate AllGiven(q: Request) {
    q.n320.Some? && q.n300.Some? && q.n200.Some? && q.n100.Some? && q.n50.Some?
  }

  /** The priority decides between n320 and n300 when neither is given, and in the best case no two
      hits at 200 stay that could be one at 320 and one at 100. */
  predicate ByPriority(q: Request, c: Counts, priority: HitResultPriority) {
    && (q.n320.None? && q.n300.None? ==> if priority.BestCase? then c.n300 == 0 else c.n320 == 0)
    && (q.n320.None? && q.n200.None? && q.n100.None? && priority.BestCase? ==> c.n200 <= 1)
  }

  /** How n3x0 is divided: what is not given takes the rest, by priority when neither is. */
  function Divide3x0(q: Request, n3x0: nat, priority: HitResultPriority): (r: (nat, nat))
    requires if q.n320.Some? && q.n300.Some? then true else q.Given3x0() <= n3x0
    ensures q.n320.Some? ==> r.0 == q.n320.value
    ensures q.n300.Some? ==> r.1 == q.n300.value
    ensures q.n320.None? || q.n300.None? ==> r.0 + r.1 == n3x0
  {
    match (q.n320, q.n300)
    case (None, None) => if priority.BestCase? then (n3x0, 0) else (0, n3x0)
    case (Some(n320), None) => (n320, n3x0 - n320)
    case (None, Some(n300)) => (n3x0 - n300, n300)
    case (Some(n320), Some(n300)) => (n320, n300)
  }

  /** Distribute n200 onto n320 and n100: two hits at 200 are worth one at 320 and one at 100. */
  function Redistribute(c: Counts): (r: Counts)
    ensures r.ToSplit().Total() == c.ToSplit().Total() && r.ToSplit().Value() == c.ToSplit().Value()
    ensures r.n200 <= 1
  {
    var n := c.n200 / 2;
    c.(n320 := c.n320 + n, n200 := c.n200 - 2 * n, n100 := c.n100 + n)
  }

  /** The arms of the match that leave at most one unknown. */
  predicate Determined(q: Request) {
    || (q.n200.Some? && q.n100.Some? && q.n50.Some?)
    || (q.n320.Some? && q.n300.Some? && q.n200.Some? && q.n100.Some?)
    || (q.n320.Some? && q.n300.Some? && q.n200.Some? && q.n50.Some?)
    || (q.n320.Some? && q.n300.Some? && q.n100.Some? && q.n50.Some?)
  }

  function Determine(q: Request, priority: HitResultPriority): (c: Counts)
    requires q.Valid() && Determined(q)
    ensures c.Settled(q.remaining)
    ensures !AllGiven(q) ==> c.Keeps(q)
    ensures !AllGiven(q) && q.Fits() ==> q.Allows(c.ToSplit())
    ensures AllGiven(q) && q.Fits() ==> c.ToSplit().Total() == q.remaining
    ensures ByPriority(q, c, priority)
  {
    if AllGiven(q) then
      var c := Counts(q.n320.value, q.n300.value, q.n200.value, q.n100.value, q.n50.value);
      var given := c.n320 + c.n300 + c.n200 + c.n100 + c.n50;
      var remaining := SaturatingSub(q.remaining + q.misses, given + q.misses);
      if priority.BestCase? then c.(n320 := c.n320 + remaining) else c.(n50 := c.n50 + remaining)
    else DetermineOpen(q, priority)
  }

  function DetermineOpen(q: Request, priority: HitResultPriority): (c: Counts)
    requires q.Valid() && Determined(q) && !AllGiven(q)
    ensures c.Settled(q.remaining) && c.Keeps(q) && ByPriority(q, c, priority)
    ensures q.Fits() ==> q.Allows(c.ToSplit())
  {
    var n320, n300, n200, n100, n50 := SumOr0(q.n320), SumOr0(q.n300), SumOr0(q.n200), SumOr0(q.n100), SumOr0(q.n50);
    var nObjects := q.remaining + q.misses;
    if q.n320.None? && q.n300.None? then
      var nRemaining := SaturatingSub(nObjects, n320 + n300 + n200 + n100 + n50 + q.misses);
      if priority.BestCase? then Counts(nRemaining, n300, n200, n100, n50)
      else Counts(n320, nRemaining, n200, n100, n50)
    else if q.n320.None? then
      Counts(SaturatingSub(nObjects, n300 + n200 + n100 + n50 + q.misses), n300, n200, n100, n50)
    else if q.n300.None? then
      Counts(n320, SaturatingSub(nObjects, n320 + n200 + n100 + n50 + q.misses), n200, n100, n50)
    else if q.n200.None? then
      Counts(n320, n300, SaturatingSub(nObjects, n320 + n300 + n100 + n50 + q.misses), n100, n50)
    else if q.n100.None? then
      Counts(n320, n300, n200, SaturatingSub(nObjects, n320 + n300 + n200 + n50 + q.misses), n50)
    else
      Counts(n320, n300, n200, n100, SaturatingSub(nObjects, n320 + n300 + n200 + n100 + q.misses))
  }

  /** The arms that search. */
  method Search(q: Request, acc: Accuracy) returns (pick: Split)
    requires q.Valid() && !Determined(q)
    ensures q.InRange(pick) && q.remaining <= pick.Total()
    ensures q.Live() && q.Fits() ==> q.Closest(acc, pick)
  {
    hide Request.Closest, Request.InRange, Request.Fits;
    var given := SumOr0(q.n320) + SumOr0(q.n300) + SumOr0(q.n200) + SumOr0(q.n100) + SumOr0(q.n50);
    var n3x0 := SaturatingSub(q.remaining + q.misses, given + q.misses);
    match (q.n200, q.n100, q.n50) {
      case (None, Some(_), Some(_)) => pick := ManiaSearch.SearchGivenN100N50(q, acc, n3x0);
      case (Some(_), None, Some(_)) => pick := ManiaSearch.SearchGivenN200N50(q, acc, n3x0);
      case (Some(_), Some(_), None) => pick := ManiaSearch.SearchGivenN200N100(q, acc, n3x0);
      case (Some(_), None, None) => pick := ManiaSearch.SearchGivenN200(q, acc, n3x0);
      case (None, Some(_), None) => pick := ManiaSearch.SearchGivenN100(q, acc, n3x0);
      case (None, None, Some(_)) => pick := ManiaSearch.SearchGivenN50(q, acc, n3x0);
      case (None, None, None) => pick := ManiaSearch.SearchAll(q, acc, n3x0);
    }
  }

  /** Dividing n3x0 after a search. */
  function Divided(q: Request, pick: Split, priority: HitResultPriority): (c: Counts)
    requires q.Valid() && q.InRange(pick) && q.remaining <= pick.Total()
    ensures c.Settled(q.remaining) && c.Keeps(q)
    ensures q.n320.None? && q.n300.None? ==> if priority.BestCase? then c.n300 == 0 else c.n320 == 0
    ensures !(q.n320.None? && q.n200.None? && q.n100.None? && priority.BestCase?) ==> ByPriority(q, c, priority)
    ensures c.ToSplit() == pick.(n3x0 := c.n320 + c.n300)
    ensures q.n320.None? || q.n300.None? || pick.n3x0 == q.Given3x0() ==> c.ToSplit() == pick
    ensures q.n320.None? && q.n200.None? ==> c.n320 + c.n200 <= q.remaining
    ensures q.n200.None? && q.n100.None? ==> c.n200 + c.n100 <= q.remaining
  {
    var (n320, n300) := Divide3x0(q, pick.n3x0, priority);
    Counts(n320, n300, pick.n200, pick.n100, pick.n50)
  }

  lemma RedistributeKeeps(q: Request, c: Counts)
    requires c.Settled(q.remaining) && c.Keeps(q) && q.n320.None? && q.n200.None? && q.n100.None?
    requires c.n320 + c.n200 <= q.remaining && c.n200 + c.n100 <= q.remaining && (q.n300.None? ==> c.n300 == 0)
    ensures var r := Redistribute(c);
      r.Settled(q.remaining) && r.Keeps(q) && ByPriority(q, r, BestCase)
  {}

  /** And, in the best case, n200. */
  function Finish(q: Request, pick: Split, priority: HitResultPriority): (c: Counts)
    requires q.Valid() && q.InRange(pick) && q.remaining <= pick.Total()
    ensures c.Settled(q.remaining) && c.Keeps(q) && ByPriority(q, c, priority)
    ensures q.n320.None? || q.n300.None? || pick.n3x0 == q.Given3x0() ==>
      c.ToSplit().Total() == pick.Total() && c.ToSplit().Value() == pick.Value()
  {
    var c := Divided(q, pick, priority);
    if q.n320.None? && q.n200.None? && q.n100.None? && priority.BestCase? then
      RedistributeKeeps(q, c);
      Redistribute(c)
    else c
  }

  /** The part of `generate_state` for a given accuracy. */
  method WithAccuracy(q: Request, acc: Accuracy, priority: HitResultPriority) returns (c: Counts)
    requires q.Valid()
    ensures c.Settled(q.remaining)
    ensures q.Fits() && q.Live() ==> c.ToSplit().Total() == q.remaining
    ensures !AllGiven(q) ==> c.Keeps(q)
    ensures q.Fits() && !AllGiven(q) && q.Live() ==> q.Closest(acc, c.ToSplit())
    ensures AllGiven(q) ==> c == TopUp(q, priority)
    ensures ByPriority(q, c, priority)
  {
    hide Request.Closest, Request.Fits, Request.InRange, Request.Allows, Counts.Settled, Counts.Keeps, ByPriority,
      TopUp, Counts.ToSplit, Determined, AllGiven;
    if Determined(q) {
      c := Determine(q, priority);
      if AllGiven(q) {
        DetermineTopsUp(q, priority);
      } else {
        OnlySplit(q, acc, c.ToSplit());
        AllowsTotal(q, c.ToSplit());
      }
    } else {
      AllGivenIsDetermined(q);
      var pick := Search(q, acc);
      c := Finish(q, pick, priority);
      if q.Live() && q.Fits() {
        SameValueAsClosest(q, acc, pick, c);
        ClosestTotal(q, acc, c.ToSplit());
      }
    }
  }

  lemma DetermineTopsUp(q: Request, priority: HitResultPriority)
    requires q.Valid() && AllGiven(q) && Determined(q)
    ensures Determine(q, priority) == TopUp(q, priority)
  {}

  lemma AllGivenIsDetermined(q: Request)
    ensures AllGiven(q) ==> Determined(q)
  {}

  lemma AllowsTotal(q: Request, s: Split)
    ensures q.Allows(s) ==> s.Total() == q.remaining
  {}

  lemma ClosestTotal(q: Request, acc: real, s: Split)
    requires q.Closest(acc, s)
    ensures s.Total() == q.remaining
  {}

  lemma SameValueAsClosest(q: Request, acc: real, pick: Split, c: Counts)
    requires q.Valid() && q.Closest(acc, pick) && c.Keeps(q)
    requires q.n320.None? || q.n300.None? || pick.n3x0 == q.Given3x0() ==>
      c.ToSplit().Total() == pick.Total() && c.ToSplit().Value() == pick.Value()
    ensures q.Closest(acc, c.ToSplit())
  {
    hide Miss, Request.Target;
  }

  function TopUp(q: Request, priority: HitResultPriority): Counts
    requires AllGiven(q)
  {
    var c := Counts(q.n320.value, q.n300.value, q.n200.value, q.n100.value, q.n50.value);
    var missing := SaturatingSub(q.remaining, c.ToSplit().Total());
    if priority.BestCase? then c.(n320 := c.n320 + missing) else c.(n50 := c.n50 + missing)
  }

  /** When at most n3x0 or one other count is open, the total leaves no choice. */
  lemma OnlySplit(q: Request, acc: real, s: Split)
    requires q.Valid()
    requires Determined(q) && !AllGiven(q)
    requires q.Fits() ==> q.Allows(s)
    ensures q.Fits() ==> q.Closest(acc, s)
  {
    hide Miss;
    forall t: Split | q.Allows(t) && q.Allows(s)
      ensures Beats(q.Target(acc), s, t)
    {
      assert s == t;
    }
  }

  /** No accuracy: everything unaccounted for goes to the best or the worst open hit result. */
  function Fill(q: Request, priority: HitResultPriority): Counts {
    var remaining := SaturatingSub(q.remaining, Given(q).ToSplit().Total());
    if priority.BestCase? then FillBest(q, Given(q), remaining) else FillWorst(q, Given(q), remaining)
  }

  function Given(q: Request): (c: Counts)
    ensures OpenAreZero(q, c)
    ensures q.Fits() <==> c.ToSplit().Total() <= q.remaining
    ensures q.Valid() ==> c.AtMost(q.remaining)
  {
    Counts(SumOr0(q.n320), SumOr0(q.n300), SumOr0(q.n200), SumOr0(q.n100), SumOr0(q.n50))
  }

  /** What was not given still counts as 0. */
  predicate OpenAreZero(q: Request, c: Counts) {
    && (q.n320.None? ==> c.n320 == 0)
    && (q.n300.None? ==> c.n300 == 0)
    && (q.n200.None? ==> c.n200 == 0)
    && (q.n100.None? ==> c.n100 == 0)
    && (q.n50.None? ==> c.n50 == 0)
  }

  function FillBest(q: Request, c: Counts, remaining: nat): (r: Counts)
    ensures OpenAreZero(q, c) ==> r.ToSplit().Total() == c.ToSplit().Total() + remaining
    ensures c.AtMost(q.remaining) && c.ToSplit().Total() + remaining <= Max(q.remaining, c.ToSplit().Total())
      ==> r.AtMost(q.remaining)
  {
    if q.n320.None? then c.(n320 := remaining)
    else if q.n300.None? then c.(n300 := remaining)
    else if q.n200.None? then c.(n200 := remaining)
    else if q.n100.None? then c.(n100 := remaining)
    else if q.n50.None? then c.(n50 := remaining)
    else c.(n320 := c.n320 + remaining)
  }

  function FillWorst(q: Request, c: Counts, remaining: nat): (r: Counts)
    ensures OpenAreZero(q, c) ==> r.ToSplit().Total() == c.ToSplit().Total() + remaining
    ensures c.AtMost(q.remaining) && c.ToSplit().Total() + remaining <= Max(q.remaining, c.ToSplit().Total())
      ==> r.AtMost(q.remaining)
  {
    if q.n50.None? then c.(n50 := remaining)
    else if q.n100.None? then c.(n100 := remaining)
    else if q.n200.None? then c.(n200 := remaining)
    else if q.n300.None? then c.(n300 := remaining)
    else if q.n320.None? then c.(n320 := remaining)
    else c.(n50 := c.n50 + remaining)
  }

  lemma GivenIsLeast(q: Request, s: Split)
    requires q.Allows(s)
    ensures var g := Given(q);
      g.n320 + g.n300 <= s.n3x0 && g.n200 <= s.n200 && g.n100 <= s.n100 && g.n50 <= s.n50
  {}

  lemma FillSettles(q: Request, priority: HitResultPriority)
    requires q.Valid()
    ensures Fill(q, priority).Settled(q.remaining)
  {
    hide FillBest, FillWorst, Given, OpenAreZero;
  }

  lemma FillTotal(q: Request, priority: HitResultPriority)
    requires q.Valid() && q.Fits()
    ensures Fill(q, priority).ToSplit().Total() == q.remaining
  {
    hide FillBest, FillWorst, Given, OpenAreZero;
  }

  lemma FillKeeps(q: Request, priority: HitResultPriority)
    requires q.Valid()
    ensures AllGiven(q) ==> Fill(q, priority) == TopUp(q, priority)
    ensures !AllGiven(q) ==> Fill(q, priority).Keeps(q)
  {}

  /** Without an accuracy, the best case is the most accurate play that keeps what was given. */
  lemma FillIsBest(q: Request, s: Split)
    requires q.Valid() && q.Fits() && q.Allows(s) && !AllGiven(q)
    ensures s.Value() <= Fill(q, BestCase).ToSplit().Value()
  {
    FillTotal(q, BestCase);
  }

  /** .. and the worst case is the least accurate one. */
  lemma FillIsWorst(q: Request, s: Split)
    requires q.Valid() && q.Fits() && q.Allows(s) && !AllGiven(q)
    ensures Fill(q, WorstCase).ToSplit().Value() <= s.Value()
  {
    hide Fill, Given, OpenAreZero, FillWorst;
    FillTotal(q, WorstCase);
    GivenIsLeast(q, s);
    FillWorstParts(q);
    WorstParts(q, s, Fill(q, WorstCase));
  }

  /** Filling up the worst leaves the given counts alone and adds to the worst open one. */
  ghost predicate AddsToWorst(q: Request, g: Counts, c: Counts) {
    if q.n50.None? then c == g.(n50 := c.n50)
    else if q.n100.None? then c == g.(n100 := c.n100)
    else if q.n200.None? then c == g.(n200 := c.n200)
    else c.ToSplit() == g.ToSplit().(n3x0 := c.n320 + c.n300)
  }

  lemma FillWorstParts(q: Request)
    requires !AllGiven(q)
    ensures AddsToWorst(q, Given(q), Fill(q, WorstCase))
  {
    hide Given;
  }

  lemma WorstParts(q: Request, s: Split, c: Counts)
    requires q.Allows(s) && c.ToSplit().Total() == q.remaining && AddsToWorst(q, Given(q), c)
    requires Given(q).n320 + Given(q).n300 <= s.n3x0 && Given(q).n200 <= s.n200
    requires Given(q).n100 <= s.n100 && Given(q).n50 <= s.n50
    ensures c.ToSplit().Value() <= s.Value()
  {
    GivenKept(q, s);
    hide Given;
  }

  /** What was given is also in every split that is allowed. */
  lemma GivenKept(q: Request, s: Split)
    requires q.Allows(s)
    ensures (q.n200.Some? ==> Given(q).n200 == s.n200) && (q.n100.Some? ==> Given(q).n100 == s.n100)
    ensures q.n50.Some? ==> Given(q).n50 == s.n50
  {}

  /** Where the two differ first, from 320 down, `c` has more. */
  predicate BestFirst(c: Counts, t: Counts) {
    || c.n320 > t.n320
    || (c.n320 == t.n320 && c.n300 > t.n300)
    || (c.n320 == t.n320 && c.n300 == t.n300 && c.n200 > t.n200)
    || (c.n320 == t.n320 && c.n300 == t.n300 && c.n200 == t.n200 && c.n100 >= t.n100)
  }

  /** Where the two differ first, from 50 up, `c` has more. */
  predicate WorstFirst(c: Counts, t: Counts) {
    || c.n50 > t.n50
    || (c.n50 == t.n50 && c.n100 > t.n100)
    || (c.n50 == t.n50 && c.n100 == t.n100 && c.n200 > t.n200)
    || (c.n50 == t.n50 && c.n100 == t.n100 && c.n200 == t.n200 && c.n300 >= t.n300)
  }

  /** All that is open is in the best result, or in the worst one: no play with the given counts has
      more there. */
  ghost predicate Extreme(q: Request, c: Counts, priority: HitResultPriority) {
    forall t: Counts | t.Keeps(q) && t.ToSplit().Total() == q.remaining ::
      if priority.BestCase? then BestFirst(c, t) && t.n320 <= c.n320
      else WorstFirst(c, t) && c.n320 <= t.n320
  }

  lemma FillIsExtreme(q: Request, priority: HitResultPriority)
    requires q.Valid() && q.Fits() && !AllGiven(q)
    ensures Extreme(q, Fill(q, priority), priority)
  {
    hide Fill, Given, OpenAreZero, FillBest, FillWorst;
    var c := Fill(q, priority);
    FillTotal(q, priority);
    forall t: Counts | t.Keeps(q) && t.ToSplit().Total() == q.remaining
      ensures if priority.BestCase? then BestFirst(c, t) && t.n320 <= c.n320 else WorstFirst(c, t) && c.n320 <= t.n320
    {
      if priority.BestCase? {
        FillBestOpens(q);
      } else {
        FillWorstOpens(q);
      }
    }
  }

  /** Only the first open count, from 320 down, is filled. */
  lemma FillBestOpens(q: Request)
    requires q.Valid() && !AllGiven(q)
    ensures var c := Fill(q, BestCase);
      && c.Keeps(q)
      && (q.n300.None? && q.n320.None? ==> c.n300 == 0)
      && (q.n200.None? && (q.n320.None? || q.n300.None?) ==> c.n200 == 0)
      && (q.n100.None? && (q.n320.None? || q.n300.None? || q.n200.None?) ==> c.n100 == 0)
      && (q.n50.None? && (q.n320.None? || q.n300.None? || q.n200.None? || q.n100.None?) ==> c.n50 == 0)
  {}

  /** Only the first open count, from 50 up, is filled. */
  lemma FillWorstOpens(q: Request)
    requires q.Valid() && !AllGiven(q)
    ensures var c := Fill(q, WorstCase);
      && c.Keeps(q)
      && (q.n100.None? && q.n50.None? ==> c.n100 == 0)
      && (q.n200.None? && (q.n50.None? || q.n100.None?) ==> c.n200 == 0)
      && (q.n300.None? && (q.n50.None? || q.n100.None? || q.n200.None?) ==> c.n300 == 0)
      && (q.n320.None? && (q.n50.None? || q.n100.None? || q.n200.None? || q.n300.None?) ==> c.n320 == 0)
  {}

  lemma FillNothing(q: Request, priority: HitResultPriority)
    requires !q.Fits() && !AllGiven(q)
    ensures OpenAreZero(q, Fill(q, priority))
  {}

  datatype ManiaScoreState = ManiaScoreState(counts: Counts, misses: nat)

  /** The part of the performance builder that `generate_state` reads and writes. */
  class ManiaPerformance {
    const passedObjects: nat
    const attrsObjects: nat
    const attrsHoldNotes: nat
    const lazer: bool
    const priority: HitResultPriority
    const acc: Option<Accuracy>
    var n320: Option<nat>
    var n300: Option<nat>
    var n200: Option<nat>
    var n100: Option<nat>
    var n50: Option<nat>
    var misses: Option<nat>

    constructor (passedObjects: nat, attrsObjects: nat, attrsHoldNotes: nat, lazer: bool,
                 priority: HitResultPriority, acc: Option<Accuracy>)
      ensures this.passedObjects == passedObjects && this.attrsObjects == attrsObjects
      ensures this.attrsHoldNotes == attrsHoldNotes && this.lazer == lazer
      ensures this.priority == priority && this.acc == acc
      ensures n320 == n300 == n200 == n100 == n50 == misses == None
    {
      this.passedObjects, this.attrsObjects, this.attrsHoldNotes := passedObjects, attrsObjects, attrsHoldNotes;
      this.lazer, this.priority, this.acc := lazer, priority, acc;
      n320, n300, n200, n100, n50, misses := None, None, None, None, None, None;
    }

    /** The judgements a miss can take; hold tails of lazer scores come on top. */
    function Passed(): nat {
      Min(passedObjects, attrsObjects)
    }

    function Asked(): (q: Request)
      reads this
      ensures q.Valid()
      ensures q.misses == if misses.Some? then Min(misses.value, Min(passedObjects, attrsObjects)) else 0
      ensures q.remaining + q.misses == Min(passedObjects, attrsObjects) + if lazer then attrsHoldNotes else 0
      ensures q.n320 == if n320.Some? then Some(Min(n320.value, q.remaining)) else None
      ensures q.n300 == if n300.Some? then Some(Min(n300.value, q.remaining)) else None
      ensures q.n200 == if n200.Some? then Some(Min(n200.value, q.remaining)) else None
      ensures q.n100 == if n100.Some? then Some(Min(n100.value, q.remaining)) else None
      ensures q.n50 == if n50.Some? then Some(Min(n50.value, q.remaining)) else None
    {
      var m := Clamped(misses, Passed());
      var r := Passed() + (if lazer then attrsHoldNotes else 0) - m;
      Request(r, m, Cut(n320, r), Cut(n300, r), Cut(n200, r), Cut(n100, r), Cut(n50, r))
    }

    /** The fields are what an earlier call left behind. */
    predicate Generated(s: ManiaScoreState)
      reads this
    {
      && n320 == Some(s.counts.n320) && n300 == Some(s.counts.n300) && n200 == Some(s.counts.n200)
      && n100 == Some(s.counts.n100) && n50 == Some(s.counts.n50) && misses == Some(s.misses)
      && s.misses == Asked().misses
      && s.counts.Settled(Asked().remaining)
    }

    /** The counting part of `generate_state`. */
    method Count() returns (c: Counts)
      ensures c.Settled(Asked().remaining) && Answers(Asked(), c)
    {
      hide Request.Closest, Request.Fits, Counts.Settled, Fill, TopUp, ByPriority, Extreme, OpenAreZero;
      var q := Asked();
      if acc.Some? {
        c := WithAccuracy(q, acc.value, priority);
      } else {
        c := Fill(q, priority);
        FillSettles(q, priority);
        FillKeeps(q, priority);
        if q.Fits() {
          FillTotal(q, priority);
        }
        if q.Fits() && !AllGiven(q) {
          FillIsExtreme(q, priority);
        }
        if !q.Fits() && !AllGiven(q) {
          FillNothing(q, priority);
        }
      }
    }

    method GenerateState() returns (s: ManiaScoreState)
      modifies this
      ensures Generated(s) && Asked().remaining == old(Asked()).remaining
      ensures s.misses == old(Asked()).misses
      ensures Answers(old(Asked()), s.counts)
      // a second call changes nothing
      ensures forall t | old(Generated(t)) :: s == t
    {
      hide Answers, Counts.Settled;
      var m := Asked().misses;
      var c := Count();
      forall t | Generated(t)
        ensures t.counts == c && t.misses == m
      {
        GeneratedIsSettled(t, c);
      }
      s := ManiaScoreState(c, m);
      n320, n300, n200, n100, n50 := Some(c.n320), Some(c.n300), Some(c.n200), Some(c.n100), Some(c.n50);
      misses := Some(m);
    }

    lemma GeneratedIsSettled(t: ManiaScoreState, c: Counts)
      requires Generated(t) && Answers(Asked(), c)
      ensures c == t.counts && Asked().misses == t.misses
    {
      hide Request.Closest, Request.Fits;
    }

    /** What the caller gets for a request. */
    ghost predicate Answers(q: Request, c: Counts) {
      && (AllGiven(q) ==> c == TopUp(q, priority))
      && (!AllGiven(q) ==> c.Keeps(q))
      && (q.Fits() && q.Live() ==> c.ToSplit().Total() == q.remaining)
      && (acc.None? && !AllGiven(q) && q.Fits() ==> Extreme(q, c, priority))
      && (acc.None? && !AllGiven(q) && !q.Fits() ==> OpenAreZero(q, c))
      && (acc.Some? && !AllGiven(q) && q.Fits() && q.Live() ==> q.Closest(acc.value, c.ToSplit()))
      && (acc.Some? ==> ByPriority(q, c, priority))
    }
  }

  /** What being closest in hit points means for the accuracy itself. */
  lemma ClosestAccuracy(q: Request, acc: Accuracy, c: Counts, t: Counts, d: real, e: real)
    requires q.Live() && q.Closest(acc, c.ToSplit()) && q.Allows(t.ToSplit())
    requires Distance(acc, PlayAccuracy(c.n320, c.n300, c.n200, c.n100, c.n50, q.misses)) == Some(d)
    requires Distance(acc, PlayAccuracy(t.n320, t.n300, t.n200, t.n100, t.n50, q.misses)) == Some(e)
    ensures d <= e
  {
    hide Distance, Ratio, Miss, DistanceOf;
    AccuracyOfSplit(c, q.misses);
    AccuracyOfSplit(t, q.misses);
    SplitOrder(q, acc, t.ToSplit(), c.ToSplit());
    assert DistanceOf(acc, c.ToSplit(), q.misses) == Some(d) by { DistanceOfPlay(acc, c, q.misses); }
    assert DistanceOf(acc, t.ToSplit(), q.misses) == Some(e) by { DistanceOfPlay(acc, t, q.misses); }
  }

  lemma AccuracyOfSplit(c: Counts, misses: nat)
    ensures PlayAccuracy(c.n320, c.n300, c.n200, c.n100, c.n50, misses)
         == PlayAccuracy(c.n320 + c.n300, 0, c.n200, c.n100, c.n50, misses)
  {
    hide Ratio;
    assert c.n320 + c.n300 + 0 + c.n200 + c.n100 + c.n50 + misses == c.n320 + c.n300 + c.n200 + c.n100 + c.n50 + misses;
    assert 6 * (c.n320 + c.n300 + 0) == 6 * (c.n320 + c.n300);
  }

  lemma DistanceOfPlay(acc: real, c: Counts, misses: nat)
    ensures DistanceOf(acc, c.ToSplit(), misses)
         == Distance(acc, PlayAccuracy(c.n320, c.n300, c.n200, c.n100, c.n50, misses))
  {
    hide Distance, Ratio, PlayAccuracy;
    AccuracyOfSplit(c, misses);
  }
}
