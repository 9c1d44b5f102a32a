/** osu!taiko's `generate_state`. */
module Taiko {
  import opened HitResults

  datatype Split = Split(n300: nat, n100: nat) {
    function Total(): nat {
      n300 + n100
    }

    function Value(): nat {
      2 * n300 + n100
    }
  }

  /** An empty play has accuracy 0. */
  function PlayAccuracy(n300: nat, n100: nat, misses: nat): Option<real> {
    if n300 + n100 + misses == 0 then Some(0.0)
    else Ratio(2 * n300 + n100, 2 * (n300 + n100 + misses))
  }

  /** Accuracies lie between 0 and 1; 1 takes hits at 300 only, of which one at 100 is worth half. */
  lemma PerfectExactly(n300: nat, n100: nat, misses: nat)
    ensures var a := PlayAccuracy(n300, n100, misses);
      && a.Some? && 0.0 <= a.value <= 1.0
      && (a.value == 1.0 <==> n300 > 0 && n100 == 0 && misses == 0)
      && (n300 + n100 + misses == 0 ==> a.value == 0.0)
    ensures n100 > 0 ==> PlayAccuracy(0, n100, 0) == Some(0.5)
  {
    hide Ratio;
    if n300 + n100 + misses > 0 {
      RatioBounds(2 * n300 + n100, 2 * (n300 + n100 + misses));
    }
    if n100 > 0 {
      assert PlayAccuracy(0, n100, 0) == Ratio(n100, 2 * n100);
      Half(n100);
    }
  }

  lemma Half(n: nat)
    requires n > 0
    ensures Ratio(n, 2 * n) == Some(0.5)
  {
    HalfOf(n as real, (2 * n) as real);
  }

  lemma HalfOf(x: real, y: real)
    requires y == 2.0 * x && x > 0.0
    ensures x / y == 0.5
  {
    var h := x / y;
    ProductOfQuotient(x, y);
    if h < 0.5 { MulLess(h, 0.5, y); }
    if h > 0.5 { MulLess(0.5, h, y); }
  }

  datatype Request = Request(remaining: nat, misses: nat, n300: Option<nat>, n100: Option<nat>) {
    predicate Valid() {
      (n300.Some? ==> n300.value <= remaining) && (n100.Some? ==> n100.value <= remaining)
    }

    predicate Allows(s: Split) {
      && s.Total() == remaining
      && (n300.Some? ==> s.n300 == n300.value)
      && (n100.Some? ==> s.n100 == n100.value)
    }

    /** The most hit points there are. */
    function Best(): nat {
      2 * (remaining + misses)
    }

    function Target(acc: real): real {
      acc * Best() as real
    }

    /** The closest split, and the one worth less if two are equally close. */
    ghost predicate Nearest(acc: real, pick: Split) {
      && Allows(pick)
      && forall s: Split | Allows(s) :: Nearer(Target(acc), pick.Value(), s.Value())
    }
  }

  lemma SplitOrder(q: Request, acc: real, s: Split, t: Split)
    requires s.Total() == t.Total() == q.remaining
    ensures IsCloser(Distance(acc, PlayAccuracy(s.n300, s.n100, q.misses)),
      Distance(acc, PlayAccuracy(t.n300, t.n100, q.misses)))
       <==> Miss(q.Target(acc), s.Value()) < Miss(q.Target(acc), t.Value())
  {
    hide Ratio, Distance, Miss, PlayAccuracy, Request.Best, Request.Target, Split.Value;
    if q.remaining + q.misses == 0 {
      assert s == t;
    } else {
      AccuracyOfFull(q, s);
      AccuracyOfFull(q, t);
      FullOrder(q, acc, s.Value(), t.Value());
    }
  }

  lemma FullOrder(q: Request, acc: real, v: nat, w: nat)
    requires q.Best() > 0
    ensures IsCloser(Distance(acc, Ratio(v, q.Best())), Distance(acc, Ratio(w, q.Best())))
       <==> Miss(q.Target(acc), v) < Miss(q.Target(acc), w)
  {
    hide Ratio, Distance, Miss, Request.Best;
    var total := q.Best();
    assert q.Target(acc) == acc * total as real;
    RatioOrder(acc, total, v, w);
  }

  lemma AccuracyOfFull(q: Request, s: Split)
    requires s.Total() == q.remaining && q.remaining + q.misses > 0
    ensures q.Best() > 0 && PlayAccuracy(s.n300, s.n100, q.misses) == Ratio(s.Value(), q.Best())
  {
    hide Ratio;
    assert 2 * (s.n300 + s.n100 + q.misses) == 2 * (q.remaining + q.misses);
  }

  ghost predicate Tracks(q: Request, acc: real, best: Option<real>, pick: Split) {
    best.Some? ==> q.Allows(pick) && best == Distance(acc, PlayAccuracy(pick.n300, pick.n100, q.misses))
  }

  ghost predicate Done(q: Request, acc: real, best: Option<real>, pick: Split, s: Split) {
    best.Some? && Nearer(q.Target(acc), pick.Value(), s.Value())
  }

  /** One round of the loop: candidates come in increasing value. */
  method Consider(q: Request, acc: Accuracy, best: Option<real>, pick: Split, candidate: Split)
    returns (best': Option<real>, pick': Split)
    requires Tracks(q, acc, best, pick) && q.Allows(candidate)
    requires best.Some? ==> pick.Value() <= candidate.Value()
    ensures best'.Some? && Tracks(q, acc, best', pick') && pick'.Value() <= candidate.Value()
    ensures Done(q, acc, best', pick', candidate)
    ensures forall s | Done(q, acc, best, pick, s) :: Done(q, acc, best', pick', s)
  {
    hide Request.Target, Miss, Distance, PlayAccuracy;
    best', pick' := best, pick;
    var dist := Distance(acc, PlayAccuracy(candidate.n300, candidate.n100, q.misses));
    assert dist.Some? by { DistanceDefined(acc, candidate, q.misses); }
    if IsCloser(dist, best) {
      best', pick' := dist, candidate;
    }
    if best.Some? {
      SplitOrder(q, acc, candidate, pick);
    }
  }

  function At(nRemaining: nat, n300: nat): Split {
    Split(n300, SaturatingSub(nRemaining, n300))
  }

  /** The loop over the window for n300; n100 takes what is left. */
  method Search(q: Request, acc: Accuracy) returns (pick: Split)
    requires q.n300.None? && q.n100.None?
    ensures q.Nearest(acc, pick)
  {
    hide WindowLow, WindowHigh, Request.Target, Tracks, Done;
    var nRemaining := q.remaining;
    var best: Option<real> := None;
    pick := Split(0, 0);
    assert Tracks(q, acc, best, pick) by { TracksNone(q, acc, pick); }
    var raw := q.Target(acc) - nRemaining as real;
    var lo, hi := WindowLow(raw, nRemaining), WindowHigh(raw, nRemaining);
    NearestOnLine(q.Target(acc), nRemaining, 1, raw, nRemaining, 0);
    for n300 := lo to hi + 1
      invariant Tracks(q, acc, best, pick)
      invariant lo < n300 <==> best.Some?
      invariant best.Some? ==> pick.Value() < nRemaining + n300
      invariant forall k: nat | lo <= k < n300 :: Done(q, acc, best, pick, At(nRemaining, k))
    {
      best, pick := Consider(q, acc, best, pick, At(nRemaining, n300));
    }
    WindowNearest(q, acc, best, pick, raw);
  }

  lemma TracksNone(q: Request, acc: real, pick: Split)
    ensures Tracks(q, acc, None, pick)
  {}

  lemma WindowNearest(q: Request, acc: real, best: Option<real>, pick: Split, raw: real)
    requires q.n300.None? && q.n100.None? && raw == q.Target(acc) - q.remaining as real
    requires Tracks(q, acc, best, pick)
    requires forall k: nat | WindowLow(raw, q.remaining) <= k <= WindowHigh(raw, q.remaining) ::
               Done(q, acc, best, pick, At(q.remaining, k))
    ensures q.Nearest(acc, pick)
  {
    hide WindowLow, WindowHigh, Request.Target, Miss, PlayAccuracy, Distance;
    var nRemaining, target := q.remaining, q.Target(acc);
    var lo, hi := WindowLow(raw, nRemaining), WindowHigh(raw, nRemaining);
    NearestOnLine(target, nRemaining, 1, raw, nRemaining, 0);
    assert Done(q, acc, best, pick, At(nRemaining, lo)) && Done(q, acc, best, pick, At(nRemaining, hi));
    forall s: Split | q.Allows(s)
      ensures Nearer(target, pick.Value(), s.Value())
    {
      NearestOnLine(target, nRemaining, 1, raw, nRemaining, s.n300);
    }
  }

  lemma DistanceDefined(acc: real, s: Split, misses: nat)
    ensures Distance(acc, PlayAccuracy(s.n300, s.n100, misses)).Some?
  {}

  datatype TaikoScoreState = TaikoScoreState(maxCombo: nat, counts: Split, misses: nat)

  class TaikoPerformance {
    const passedObjects: nat
    const attrsMaxCombo: nat
    const priority: HitResultPriority
    const acc: Option<Accuracy>
    var combo: Option<nat>
    var n300: Option<nat>
    var n100: Option<nat>
    var misses: Option<nat>

    constructor (passedObjects: nat, attrsMaxCombo: nat, priority: HitResultPriority, acc: Option<Accuracy>)
      ensures this.passedObjects == passedObjects && this.attrsMaxCombo == attrsMaxCombo
      ensures this.priority == priority && this.acc == acc
      ensures combo == n300 == n100 == misses == None
    {
      this.passedObjects, this.attrsMaxCombo := passedObjects, attrsMaxCombo;
      this.priority, this.acc := priority, acc;
      combo, n300, n100, misses := None, None, None, None;
    }

    function Asked(): (q: Request)
      reads this
      ensures q.Valid()
      ensures q.remaining + q.misses == Min(passedObjects, attrsMaxCombo)
      ensures q.misses == if misses.Some? then Min(misses.value, q.remaining + q.misses) else 0
      ensures q.n300 == if n300.Some? then Some(Min(n300.value, q.remaining)) else None
      ensures q.n100 == if n100.Some? then Some(Min(n100.value, q.remaining)) else None
    {
      var total := Min(passedObjects, attrsMaxCombo);
      var m := Clamped(misses, total);
      Request(total - m, m, Cut(n300, total - m), Cut(n100, total - m))
    }

    function MaxCombo(): nat
      reads this
    {
      var possible := SaturatingSub(attrsMaxCombo, Asked().misses);
      if combo.None? then possible else Min(combo.value, possible)
    }

    /** A combo that the misses allow and that was not asked to be lower. */
    predicate Possible(asked: Option<nat>, misses: nat, c: nat) {
      (c == 0 || c + misses <= attrsMaxCombo) && (asked.Some? ==> c <= asked.value)
    }

    lemma LargestCombo()
      ensures Possible(combo, Asked().misses, MaxCombo())
      ensures forall c: nat | Possible(combo, Asked().misses, c) :: c <= MaxCombo()
    {}

    /** The result for every request: the counts given are kept if they fit, and the total is met. */
    ghost predicate Answers(q: Request, s: Split) {
      && s.n300 <= q.remaining && s.n100 <= q.remaining && q.remaining <= s.Total()
      && (SumOr0(q.n300) + SumOr0(q.n100) <= q.remaining ==> s.Total() == q.remaining)
      && match (q.n300, q.n100)
         case (Some(n300), Some(n100)) =>
           var missing := SaturatingSub(q.remaining, n300 + n100);
           s == if priority.BestCase? then Split(n300 + missing, n100) else Split(n300, n100 + missing)
         case (None, None) =>
           if acc.Some? then q.Nearest(acc.value, s)
           else s == if priority.BestCase? then Split(q.remaining, 0) else Split(0, q.remaining)
         case _ => q.Allows(s)
    }

    predicate Generated(s: TaikoScoreState)
      reads this
    {
      && combo == Some(s.maxCombo) && misses == Some(s.misses)
      && n300 == Some(s.counts.n300) && n100 == Some(s.counts.n100)
      && s.misses == Asked().misses && s.maxCombo == MaxCombo()
      && s.counts.n300 <= Asked().remaining && s.counts.n100 <= Asked().remaining
      && Asked().remaining <= s.counts.Total()
    }

    method Count() returns (s: Split)
      ensures Answers(Asked(), s)
    {
      hide Request.Nearest;
      var q := Asked();
      var n300', n100' := SumOr0(q.n300), SumOr0(q.n100);
      var remaining := SaturatingSub(q.remaining + q.misses, n300' + n100' + q.misses);
      match (q.n300, q.n100) {
        case (Some(_), Some(_)) =>
          if priority.BestCase? { n300' := n300' + remaining; } else { n100' := n100' + remaining; }
        case (Some(_), None) => n100' := n100' + remaining;
        case (None, Some(_)) => n300' := n300' + remaining;
        case (None, None) =>
          if acc.Some? {
            s := Search(q, acc.value);
            NearestTotal(q, acc.value, s);
            return;
          }
          if priority.BestCase? { n300' := remaining; } else { n100' := remaining; }
      }
      s := Split(n300', n100');
    }

    lemma NearestTotal(q: Request, acc: real, s: Split)
      requires q.Nearest(acc, s)
      ensures s.Total() == q.remaining
    {}

    method GenerateState() returns (s: TaikoScoreState)
      modifies this
      ensures Generated(s)
      ensures s.misses == old(Asked()).misses && s.maxCombo == old(MaxCombo())
      ensures Possible(old(combo), s.misses, s.maxCombo)
      ensures forall c: nat | Possible(old(combo), s.misses, c) :: c <= s.maxCombo
      ensures Answers(old(Asked()), s.counts)
      // a second call changes nothing
      ensures forall t | old(Generated(t)) :: s == t
    {
      hide Request.Nearest;
      LargestCombo();
      var c := Count();
      s := TaikoScoreState(MaxCombo(), c, Asked().misses);
      combo, misses := Some(s.maxCombo), Some(s.misses);
      n300, n100 := Some(c.n300), Some(c.n100);
    }

    lemma AnswerUnique(q: Request, s: Split, t: Split)
      requires q.Valid() && SumOr0(q.n300) + SumOr0(q.n100) <= q.remaining && Answers(q, s) && Answers(q, t)
      ensures s == t
    {
      hide Miss, Request.Target;
    }
  }
}
