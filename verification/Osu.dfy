/** osu!standard's `generate_state`: every way of combining given hit results with an accuracy. */
module Osu {
  import opened HitResults
  import opened OsuSearch

  predicate AllGiven(q: Request) {
    q.n300.Some? && q.n100.Some? && q.n50.Some?
  }

  function Given(q: Request): (s: Split)
    ensures q.Fits() <==> s.Total() <= q.remaining
    ensures q.Valid() ==> s.n300 <= q.remaining && s.n100 <= q.remaining && s.n50 <= q.remaining
    ensures q.Keeps(s)
    ensures (q.n300.None? ==> s.n300 == 0) && (q.n100.None? ==> s.n100 == 0) && (q.n50.None? ==> s.n50 == 0)
  {
    Split(SumOr0(q.n300), SumOr0(q.n100), SumOr0(q.n50))
  }

  function Missing(q: Request): nat {
    SaturatingSub(q.remaining, Given(q).Total())
  }

  /** All counts given: what they leave unaccounted for still has to go somewhere. */
  function TopUp(q: Request, priority: HitResultPriority): Split {
    var s := Given(q);
    if priority.BestCase? then s.(n300 := s.n300 + Missing(q)) else s.(n50 := s.n50 + Missing(q))
  }

  function FillBest(q: Request): (s: Split)
    ensures AllGiven(q) ==> s == TopUp(q, BestCase)
    ensures !AllGiven(q) ==> q.Keeps(s)
    ensures s.Total() == Given(q).Total() + Missing(q)
  {
    var s := Given(q);
    if q.n300.None? then s.(n300 := Missing(q))
    else if q.n100.None? then s.(n100 := Missing(q))
    else if q.n50.None? then s.(n50 := Missing(q))
    else s.(n300 := s.n300 + Missing(q))
  }

  function FillWorst(q: Request): (s: Split)
    ensures AllGiven(q) ==> s == TopUp(q, WorstCase)
    ensures !AllGiven(q) ==> q.Keeps(s)
    ensures s.Total() == Given(q).Total() + Missing(q)
  {
    var s := Given(q);
    if q.n50.None? then s.(n50 := Missing(q))
    else if q.n100.None? then s.(n100 := Missing(q))
    else if q.n300.None? then s.(n300 := Missing(q))
    else s.(n50 := s.n50 + Missing(q))
  }

  /** No accuracy: the best (or worst) open hit result takes the rest. */
  function Fill(q: Request, priority: HitResultPriority): (s: Split)
    ensures AllGiven(q) ==> s == TopUp(q, priority)
    ensures !AllGiven(q) ==> q.Keeps(s)
    ensures s.Total() == Given(q).Total() + Missing(q)
    ensures q.Fits() ==> s.Total() == q.remaining
  {
    if priority.BestCase? then FillBest(q) else FillWorst(q)
  }

  lemma FillSettles(q: Request, priority: HitResultPriority)
    requires q.Valid()
    ensures Settled(q, Fill(q, priority))
  {}

  lemma GivenIsLeast(q: Request, s: Split)
    requires q.Allows(s)
    ensures Given(q).n300 <= s.n300 && Given(q).n100 <= s.n100 && Given(q).n50 <= s.n50
  {}

  /** Without an accuracy, the best case is the most accurate play that keeps what was given .. */
  lemma FillIsBest(q: Request, s: Split)
    requires q.Valid() && q.Fits() && q.Allows(s) && !AllGiven(q)
    ensures s.Value() <= Fill(q, BestCase).Value()
  {
    GivenIsLeast(q, s);
    var f := Fill(q, BestCase);
    hide Given, Missing, Fill;
    assert f.Total() == s.Total();
    if q.n300.None? {
      assert f.n100 <= s.n100 && f.n50 <= s.n50 by { BestParts(q, s); }
    } else if q.n100.None? {
      assert f.n300 == s.n300 && f.n50 <= s.n50 by { BestParts(q, s); }
    } else {
      assert f == s;
    }
  }

  lemma BestParts(q: Request, s: Split)
    requires q.Fits() && q.Allows(s) && !AllGiven(q)
    ensures q.n300.None? ==> Fill(q, BestCase).n100 <= s.n100 && Fill(q, BestCase).n50 <= s.n50
    ensures q.n300.Some? ==> Fill(q, BestCase).n300 == s.n300
    ensures q.n300.Some? && q.n100.None? ==> Fill(q, BestCase).n50 <= s.n50
  {
    GivenIsLeast(q, s);
  }

  /** .. and the worst case is the least accurate one. */
  lemma FillIsWorst(q: Request, s: Split)
    requires q.Valid() && q.Fits() && q.Allows(s) && !AllGiven(q)
    ensures Fill(q, WorstCase).Value() <= s.Value()
  {
    var f := Fill(q, WorstCase);
    WorstParts(q, s);
    hide Given, Missing, Fill;
    assert f.Total() == s.Total();
  }

  lemma WorstParts(q: Request, s: Split)
    requires q.Fits() && q.Allows(s) && !AllGiven(q)
    ensures Fill(q, WorstCase).n300 <= s.n300
    ensures q.n50.None? ==> Fill(q, WorstCase).n100 <= s.n100
    ensures q.n50.Some? ==> Fill(q, WorstCase).n50 == s.n50
  {
    GivenIsLeast(q, s);
  }

  /** No play with the given counts is worth more, or none is worth less. */
  ghost predicate Extreme(q: Request, s: Split, priority: HitResultPriority) {
    && q.Allows(s)
    && forall t: Split | q.Allows(t) :: if priority.BestCase? then t.Value() <= s.Value() else s.Value() <= t.Value()
  }

  lemma FillIsExtreme(q: Request, priority: HitResultPriority)
    requires q.Valid() && q.Fits() && !AllGiven(q)
    ensures Extreme(q, Fill(q, priority), priority)
  {
    hide Fill, Split.Value;
    forall t: Split | q.Allows(t)
      ensures if priority.BestCase? then t.Value() <= Fill(q, priority).Value()
              else Fill(q, priority).Value() <= t.Value()
    {
      if priority.BestCase? { FillIsBest(q, t); } else { FillIsWorst(q, t); }
    }
  }

  lemma FillNothing(q: Request, priority: HitResultPriority)
    requires !q.Fits() && !AllGiven(q)
    ensures Fill(q, priority) == Given(q)
  {}

  lemma ExtremeUnique(q: Request, priority: HitResultPriority, s: Split, t: Split)
    requires !AllGiven(q) && Extreme(q, s, priority) && Extreme(q, t, priority)
    ensures s == t
  {
    if q.n300.None? && q.n100.None? && q.n50.None? {
      var all := if priority.BestCase? then Split(q.remaining, 0, 0) else Split(0, 0, q.remaining);
      assert q.Allows(all);
    }
  }

  /** Nothing a later clamp or fill would change. */
  predicate Settled(q: Request, s: Split) {
    && s.n300 <= q.remaining && s.n100 <= q.remaining && s.n50 <= q.remaining
    && q.remaining <= s.Total()
  }

  /** At most one count open: the total decides. */
  function Determine(q: Request, priority: HitResultPriority): (s: Split)
    requires q.Valid()
    requires (q.n300.Some? && q.n100.Some?) || (q.n300.Some? && q.n50.Some?) || (q.n100.Some? && q.n50.Some?)
    ensures Settled(q, s)
    ensures if AllGiven(q) then s == TopUp(q, priority) else q.Keeps(s)
    ensures q.Fits() ==> s.Total() == q.remaining
  {
    var nObjects := q.remaining + q.misses;
    match (q.n300, q.n100, q.n50)
    case (Some(n300), Some(n100), Some(n50)) =>
      var remaining := SaturatingSub(nObjects, n300 + n100 + n50 + q.misses);
      if priority.BestCase? then Split(n300 + remaining, n100, n50) else Split(n300, n100, n50 + remaining)
    case (Some(n300), Some(n100), None) => Split(n300, n100, SaturatingSub(nObjects, n300 + n100 + q.misses))
    case (Some(n300), None, Some(n50)) => Split(n300, SaturatingSub(nObjects, n300 + n50 + q.misses), n50)
    case (None, Some(n100), Some(n50)) => Split(SaturatingSub(nObjects, n100 + n50 + q.misses), n100, n50)
  }

  lemma DeterminedIsNearest(q: Request, acc: real, s: Split)
    requires q.Allows(s)
    requires (q.n300.Some? && q.n100.Some?) || (q.n300.Some? && q.n50.Some?) || (q.n100.Some? && q.n50.Some?)
    ensures q.Nearest(acc, s)
  {
    hide Miss, Request.Target, SliderValue;
    forall t: Split | q.Allows(t)
      ensures q.Prefers(q.Target(acc), s, t)
    {
      assert t == s;
    }
  }

  /** The part of `generate_state` for a given accuracy. */
  method WithAccuracy(q: Request, acc: Accuracy, priority: HitResultPriority) returns (s: Split)
    requires q.Valid()
    ensures Settled(q, s)
    ensures if AllGiven(q) then s == TopUp(q, priority) else q.Keeps(s)
    ensures q.Fits() && !AllGiven(q) ==> q.Nearest(acc, s)
    ensures q.Fits() ==> s.Total() == q.remaining
    ensures q.n300.None? && q.n100.None? && q.n50.None? ==> Shifted(s, priority)
  {
    hide Miss, Request.Target, SliderValue;
    match (q.n300, q.n100, q.n50) {
      case (Some(_), None, None) => s := SearchGivenN300(q, acc);
      case (None, Some(_), None) => s := SearchGivenN100(q, acc);
      case (None, None, Some(_)) => s := SearchGivenN50(q, acc);
      case (None, None, None) =>
        var pick := SearchAll(q, acc);
        s := Shift(pick, priority);
        assert q.Points(s) == q.Points(pick);
      case _ =>
        s := Determine(q, priority);
        if q.Fits() && !AllGiven(q) {
          DeterminedIsNearest(q, acc, s);
        }
    }
  }

  /** What the map and the settings say. */
  datatype Setup = Setup(passedObjects: nat, nObjects: nat, nSliders: nat, nLargeTicks: nat, maxCombo: nat,
                         lazer: bool, classicSliderAcc: bool, priority: HitResultPriority, acc: Option<Accuracy>)

  datatype OsuScoreState = OsuScoreState(maxCombo: nat, hits: SliderHits, counts: Split, misses: nat)

  /** The part of the performance builder that `generate_state` reads and writes. */
  class OsuPerformance {
    const setup: Setup
    var combo: Option<nat>
    var sliderEndHits: Option<nat>
    var largeTickHits: Option<nat>
    var smallTickHits: Option<nat>
    var n300: Option<nat>
    var n100: Option<nat>
    var n50: Option<nat>
    var misses: Option<nat>

    constructor (setup: Setup)
      ensures this.setup == setup
      ensures combo == sliderEndHits == largeTickHits == smallTickHits == n300 == n100 == n50 == misses == None
    {
      this.setup := setup;
      combo, sliderEndHits, largeTickHits, smallTickHits := None, None, None, None;
      n300, n100, n50, misses := None, None, None, None;
    }

    function Origin(): OsuScoreOrigin {
      if !setup.lazer then Stable
      else if !setup.classicSliderAcc then WithSliderAcc(setup.nLargeTicks, setup.nSliders)
      else WithoutSliderAcc(setup.nSliders + setup.nLargeTicks, setup.nSliders)
    }

    /** Ticks and slider ends count as hit unless fewer were given. */
    function Hits(): SliderHits
      reads this
    {
      HitsOf(sliderEndHits, largeTickHits, smallTickHits)
    }

    function HitsOf(sliderEndHits: Option<nat>, largeTickHits: Option<nat>, smallTickHits: Option<nat>): SliderHits {
      var orMax := (given: Option<nat>, max: nat) => if given.None? then max else Min(given.value, max);
      match Origin()
      case Stable => SliderHits(0, 0, 0)
      case WithSliderAcc(maxLargeTicks, maxSliderEnds) =>
        SliderHits(orMax(sliderEndHits, maxSliderEnds), orMax(largeTickHits, maxLargeTicks), 0)
      case WithoutSliderAcc(maxLargeTicks, maxSmallTicks) =>
        SliderHits(0, orMax(largeTickHits, maxLargeTicks), orMax(smallTickHits, maxSmallTicks))
    }

    function Asked(): (q: Request)
      reads this
      ensures q.Valid()
      ensures q.remaining + q.misses == Min(setup.passedObjects, setup.nObjects)
      ensures q.misses == if misses.Some? then Min(misses.value, q.remaining + q.misses) else 0
      ensures q.n300 == if n300.Some? then Some(Min(n300.value, q.remaining)) else None
      ensures q.n100 == if n100.Some? then Some(Min(n100.value, q.remaining)) else None
      ensures q.n50 == if n50.Some? then Some(Min(n50.value, q.remaining)) else None
    {
      var nObjects := Min(setup.passedObjects, setup.nObjects);
      var m := Clamped(misses, nObjects);
      var r := nObjects - m;
      Request(r, m, Origin(), Hits(), Cut(n300, r), Cut(n100, r), Cut(n50, r))
    }

    function MaxCombo(): nat
      reads this
    {
      var possible := SaturatingSub(setup.maxCombo, Asked().misses);
      if combo.None? then possible else Min(combo.value, possible)
    }

    /** A combo that the misses allow and that was not asked to be lower. */
    predicate Possible(asked: Option<nat>, misses: nat, c: nat) {
      (c == 0 || c + misses <= setup.maxCombo) && (asked.Some? ==> c <= asked.value)
    }

    lemma LargestCombo()
      ensures Possible(combo, Asked().misses, MaxCombo())
      ensures forall c: nat | Possible(combo, Asked().misses, c) :: c <= MaxCombo()
    {}

    /** What the caller gets for a request. */
    ghost predicate Answers(q: Request, s: Split) {
      && (AllGiven(q) ==> s == TopUp(q, setup.priority))
      && (!AllGiven(q) ==> q.Keeps(s))
      && (q.Fits() ==> s.Total() == q.remaining)
      && (setup.acc.None? && !AllGiven(q) && q.Fits() ==> Extreme(q, s, setup.priority))
      && (setup.acc.None? && !AllGiven(q) && !q.Fits() ==> s == Given(q))
      && (setup.acc.Some? && !AllGiven(q) && q.Fits() ==> q.Nearest(setup.acc.value, s))
      && (setup.acc.Some? && q.n300.None? && q.n100.None? && q.n50.None? ==> Shifted(s, setup.priority))
    }

    /** The fields are what an earlier call left behind. */
    predicate Generated(s: OsuScoreState)
      reads this
    {
      && n300 == Some(s.counts.n300) && n100 == Some(s.counts.n100) && n50 == Some(s.counts.n50)
      && misses == Some(s.misses) && combo == Some(s.maxCombo)
      && sliderEndHits == Some(s.hits.sliderEnds)
      && largeTickHits == Some(s.hits.largeTicks)
      && smallTickHits == Some(s.hits.smallTicks)
      && s.misses == Asked().misses && s.hits == Hits() && s.maxCombo == MaxCombo()
      && Settled(Asked(), s.counts)
    }

    method Count() returns (s: Split)
      ensures Settled(Asked(), s) && Answers(Asked(), s)
    {
      hide Request.Nearest, Settled, Extreme;
      if setup.acc.Some? {
        s := WithAccuracy(Asked(), setup.acc.value, setup.priority);
      } else {
        s := Fill(Asked(), setup.priority);
        FillSettles(Asked(), setup.priority);
        if AllGiven(Asked()) {
        } else if Asked().Fits() {
          FillIsExtreme(Asked(), setup.priority);
        } else {
          FillNothing(Asked(), setup.priority);
        }
      }
    }

    method GenerateState() returns (s: OsuScoreState)
      modifies this
      ensures Generated(s)
      ensures s.misses == old(Asked()).misses && s.hits == old(Hits()) && s.maxCombo == old(MaxCombo())
      ensures Possible(old(combo), s.misses, s.maxCombo)
      ensures forall c: nat | Possible(old(combo), s.misses, c) :: c <= s.maxCombo
      ensures Answers(old(Asked()), s.counts)
      // a second call changes nothing
      ensures forall t | old(Generated(t)) :: s == t
    {
      hide Answers, Settled, Hits;
      LargestCombo();
      var c := Count();
      s := OsuScoreState(MaxCombo(), Hits(), c, Asked().misses);
      forall t | old(Generated(t))
        ensures s == t
      {
        GeneratedIsSettled(t, c);
      }
      Store(s);
    }

    /** Slider hits that fit are not cut again. */
    lemma HitsSettle(sliderEndHits: Option<nat>, largeTickHits: Option<nat>, smallTickHits: Option<nat>)
      ensures var h := HitsOf(sliderEndHits, largeTickHits, smallTickHits);
        HitsOf(Some(h.sliderEnds), Some(h.largeTicks), Some(h.smallTicks)) == h
    {}

    /** The result is written back to the builder. */
    method Store(s: OsuScoreState)
      requires s.misses == Asked().misses && s.hits == Hits() && s.maxCombo == MaxCombo() && Settled(Asked(), s.counts)
      modifies this
      ensures Generated(s)
    {
      hide Settled, HitsOf, Origin;
      HitsSettle(sliderEndHits, largeTickHits, smallTickHits);
      ghost var q := Asked();
      combo, misses := Some(s.maxCombo), Some(s.misses);
      sliderEndHits, largeTickHits, smallTickHits := Some(s.hits.sliderEnds), Some(s.hits.largeTicks),
        Some(s.hits.smallTicks);
      n300, n100, n50 := Some(s.counts.n300), Some(s.counts.n100), Some(s.counts.n50);
      SameRemaining(q, Asked(), s.counts);
    }

    lemma SameRemaining(q: Request, r: Request, s: Split)
      requires q.remaining == r.remaining
      ensures Settled(q, s) <==> Settled(r, s)
    {}

    lemma GeneratedIsSettled(t: OsuScoreState, c: Split)
      requires Generated(t) && Answers(Asked(), c)
      ensures c == t.counts
    {
      hide Request.Nearest;
    }

    /** The answer to a request is unique, with an accuracy if the request can be met. */
    lemma AnswerUnique(q: Request, s: Split, t: Split)
      requires q.Valid() && (setup.acc.Some? ==> q.Fits()) && Answers(q, s) && Answers(q, t)
      ensures s == t
    {
      hide Miss, Request.Nearest, Extreme, Given, Request.Fits;
      if !AllGiven(q) {
        if setup.acc.Some? {
          NearestUnique(q, setup.acc.value, setup.priority, s, t);
        } else if q.Fits() {
          ExtremeUnique(q, setup.priority, s, t);
        }
      }
    }

    // What the map and the settings decide

    /** Whatever counts is hit unless fewer were given: a full play has all of it, at every origin. */
    lemma FullPlayIsPerfect(n: nat)
      requires n > 0
      ensures PlayAccuracy(Split(n, 0, 0), 0, Origin(), HitsOf(None, None, None)) == Some(1.0)
    {
      var total := 300 * n + MaxSliderValue(Origin());
      assert SliderValue(Origin(), HitsOf(None, None, None)) == MaxSliderValue(Origin());
      RatioOfAll(total);
    }

    /** Given hits count as far as the map has so many; what the score does not know is 0. Slider heads
        are large ticks when their accuracy is classic. */
    lemma GivenHits(sliderEndHits: nat, largeTickHits: nat, smallTickHits: nat)
      ensures var h := HitsOf(Some(sliderEndHits), Some(largeTickHits), Some(smallTickHits));
        && h.sliderEnds == (if setup.lazer && !setup.classicSliderAcc then Min(sliderEndHits, setup.nSliders) else 0)
        && h.smallTicks == (if setup.lazer && setup.classicSliderAcc then Min(smallTickHits, setup.nSliders) else 0)
        && h.largeTicks == if !setup.lazer then 0
                           else if setup.classicSliderAcc then Min(largeTickHits, setup.nSliders + setup.nLargeTicks)
                           else Min(largeTickHits, setup.nLargeTicks)
    {}

    /** A count that is not given counts as if all that the map has were. */
    lemma OpenHits(sliderEndHits: Option<nat>, largeTickHits: Option<nat>, smallTickHits: Option<nat>)
      ensures var all := setup.nSliders + setup.nLargeTicks;
        var or := (given: Option<nat>) => if given.Some? then given else Some(all);
        HitsOf(sliderEndHits, largeTickHits, smallTickHits)
        == HitsOf(or(sliderEndHits), or(largeTickHits), or(smallTickHits))
    {}
  }
}
