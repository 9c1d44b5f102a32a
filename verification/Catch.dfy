/** osu!catch's `generate_state`: balancing fruits against droplets and searching tiny droplets. */
module Catch {
  import opened HitResults

  datatype Attributes = Attributes(nFruits: nat, nDroplets: nat, nTinyDroplets: nat) {
    function Palpable(): nat {
      nFruits + nDroplets
    }
  }

  /** Undefined for an empty play. */
  function PlayAccuracy(fruits: nat, droplets: nat, tinyDroplets: nat, tinyDropletMisses: nat,
                        misses: nat): Option<real> {
    var numerator := fruits + droplets + tinyDroplets;
    Ratio(numerator, numerator + tinyDropletMisses + misses)
  }

  /** Accuracies lie between 0 and 1, and 1 takes catching everything. */
  lemma PerfectExactly(fruits: nat, droplets: nat, tinyDroplets: nat, tinyDropletMisses: nat, misses: nat)
    requires fruits + droplets + tinyDroplets + tinyDropletMisses + misses > 0
    ensures var a := PlayAccuracy(fruits, droplets, tinyDroplets, tinyDropletMisses, misses);
      && a.Some? && 0.0 <= a.value <= 1.0
      && (a.value == 1.0 <==> tinyDropletMisses == 0 && misses == 0)
  {
    var numerator := fruits + droplets + tinyDroplets;
    RatioBounds(numerator, numerator + tinyDropletMisses + misses);
  }

  // ---------------------------------------------------------------------------------------------
  // Fruits and droplets

  /** The number in `[low, high]` nearest to `n`. */
  function Clamp(n: int, low: int, high: int): int {
    if n < low then low else if high < n then high else n
  }

  /** What the balancing promises: misses and hits account for every fruit and droplet, and what
      was asked for is followed as far as the map's own counts permit. */
  ghost predicate Balanced(a: Attributes, misses: nat, fruits: Option<nat>, droplets: Option<nat>, f: nat, d: nat) {
    && f + d + misses == a.Palpable()
    && match (fruits, droplets)
       case (None, None) => f <= a.nFruits && (d == 0 || f == a.nFruits)
       case (Some(n), None) =>
         && f <= a.nFruits && d <= a.nDroplets
         && f == Clamp(n, Max(0, a.nFruits - misses), Min(a.nFruits, a.Palpable() - misses))
       case (None, Some(n)) =>
         && f <= a.nFruits && d <= a.nDroplets
         && d == Clamp(n, Max(0, a.nDroplets - misses), Min(a.nDroplets, a.Palpable() - misses))
       case (Some(n), Some(m)) =>
         && (n <= a.nFruits && m <= a.nDroplets ==> f <= a.nFruits && d <= a.nDroplets)
         && (n + m + misses <= a.Palpable() ==> n <= f && m <= d)
         && (n + m + misses <= a.Palpable() && m < d ==> d <= a.nDroplets)
         && (n + m + misses <= a.Palpable() && n < f ==> a.nDroplets <= d)
         && (n + m + misses >= a.Palpable() ==> f <= n && d <= m)
         && (n + m + misses >= a.Palpable() && d < m ==> f == 0)
  }

  /** The arm for which both counts are given: what is missing goes to droplets first, what is too much
      is taken from fruits first. */
  method BalanceGiven(a: Attributes, misses: nat, nFruits: nat, nDroplets: nat) returns (f: nat, d: nat)
    requires misses <= a.Palpable()
    ensures Balanced(a, misses, Some(nFruits), Some(nDroplets), f, d)
  {
    f, d := nFruits, nDroplets;
    var nRemaining := SaturatingSub(a.nFruits + a.nDroplets, f + d + misses);
    var newDroplets: nat := Min(nRemaining, SaturatingSub(a.nDroplets, d));
    d := d + newDroplets;
    f := f + (nRemaining - newDroplets);
    f := Min(f, SaturatingSub(a.nFruits + a.nDroplets, d + misses));
    d := Min(d, a.nFruits + a.nDroplets - f - misses);
  }

  /** All subtractions below are on unsigned numbers; none of them underflows. */
  method Balance(a: Attributes, misses: nat, fruits: Option<nat>, droplets: Option<nat>) returns (f: nat, d: nat)
    requires misses <= a.Palpable()
    ensures Balanced(a, misses, fruits, droplets, f, d)
  {
    match (fruits, droplets) {
      case (Some(nFruits), Some(nDroplets)) => f, d := BalanceGiven(a, misses, nFruits, nDroplets);
      case (Some(nFruits), None) =>
        d := SaturatingSub(a.nDroplets, SaturatingSub(misses, SaturatingSub(a.nFruits, nFruits)));
        f := a.nFruits + a.nDroplets - misses - d;
      case (None, Some(nDroplets)) =>
        f := SaturatingSub(a.nFruits, SaturatingSub(misses, SaturatingSub(a.nDroplets, nDroplets)));
        d := a.nFruits + a.nDroplets - misses - f;
      case (None, None) =>
        d := SaturatingSub(a.nDroplets, misses);
        f := a.nFruits - (misses - SaturatingSub(a.nDroplets, d));
    }
  }

  /** The balance leaves no freedom. */
  lemma BalancedUnique(a: Attributes, misses: nat, fruits: Option<nat>, droplets: Option<nat>, f: nat, d: nat,
                       f': nat, d': nat)
    requires Balanced(a, misses, fruits, droplets, f, d) && Balanced(a, misses, fruits, droplets, f', d')
    ensures f == f' && d == d'
  {}

  // ---------------------------------------------------------------------------------------------
  // Tiny droplets

  /** The requested accuracy in caught objects. */
  function Target(a: Attributes, acc: real): real {
    acc * (a.nFruits + a.nDroplets + a.nTinyDroplets) as real
  }

  /** `tiny` caught tiny droplets come closest to the accuracy, fewer if two are equally close. */
  ghost predicate Nearest(a: Attributes, acc: real, caught: nat, tiny: nat) {
    && tiny <= a.nTinyDroplets
    && forall k: nat | k <= a.nTinyDroplets :: NearerTiny(a, acc, caught, tiny, k)
  }

  ghost predicate NearerTiny(a: Attributes, acc: real, caught: nat, tiny: nat, k: nat) {
    Nearer(Target(a, acc), caught + tiny, caught + k)
  }

  lemma TinyOrder(a: Attributes, acc: real, f: nat, d: nat, misses: nat, k: nat, l: nat)
    requires f + d + misses == a.Palpable() && a.Palpable() + a.nTinyDroplets > 0
    requires k <= a.nTinyDroplets && l <= a.nTinyDroplets
    ensures IsCloser(Distance(acc, PlayAccuracy(f, d, k, a.nTinyDroplets - k, misses)),
                     Distance(acc, PlayAccuracy(f, d, l, a.nTinyDroplets - l, misses)))
       <==> Miss(Target(a, acc), f + d + k) < Miss(Target(a, acc), f + d + l)
  {
    hide Ratio, Distance, Miss;
    var total := a.nFruits + a.nDroplets + a.nTinyDroplets;
    assert Target(a, acc) == acc * total as real;
    assert f + d + k + (a.nTinyDroplets - k) + misses == total == f + d + l + (a.nTinyDroplets - l) + misses;
    RatioOrder(acc, total, f + d + k, f + d + l);
  }

  /** A play with `n` tiny droplets caught. */
  function DistanceOf(a: Attributes, acc: real, f: nat, d: nat, misses: nat, n: nat): Option<real>
    requires n <= a.nTinyDroplets
  {
    Distance(acc, PlayAccuracy(f, d, n, a.nTinyDroplets - n, misses))
  }

  ghost predicate Tracks(a: Attributes, acc: real, f: nat, d: nat, misses: nat, best: Option<real>, tiny: nat) {
    best.Some? ==> tiny <= a.nTinyDroplets && best == DistanceOf(a, acc, f, d, misses, tiny)
  }

  /** One round of the loop: candidates come in increasing number. Only an empty play has no distance. */
  method Consider(a: Attributes, acc: Accuracy, f: nat, d: nat, misses: nat, ghost caught: nat, best: Option<real>,
                  tiny: nat, n: nat)
    returns (best': Option<real>, tiny': nat)
    requires f + d == caught && caught + misses == a.Palpable() && n <= a.nTinyDroplets
    requires Tracks(a, acc, f, d, misses, best, tiny) && (best.Some? ==> tiny < n)
    ensures Tracks(a, acc, f, d, misses, best', tiny') && (best'.Some? ==> tiny' <= n)
    ensures best'.None? ==> best.None? && tiny' == tiny
    ensures a.Palpable() + a.nTinyDroplets > 0 ==>
      && best'.Some? && NearerTiny(a, acc, caught, tiny', n)
      && (best.Some? ==> forall k: nat | NearerTiny(a, acc, caught, tiny, k) :: NearerTiny(a, acc, caught, tiny', k))
  {
    hide Distance, PlayAccuracy, Miss, Target;
    best', tiny' := best, tiny;
    var dist := DistanceOf(a, acc, f, d, misses, n);
    if IsCloser(dist, best) {
      best', tiny' := dist, n;
    }
    if a.Palpable() + a.nTinyDroplets > 0 {
      DistanceDefined(acc, f, d, n, a.nTinyDroplets - n, misses);
      if best.Some? {
        TinyOrder(a, acc, f, d, misses, n, tiny);
      }
    }
  }

  /** `find_best_tiny_droplets`; both results stay 0 when the play is empty. */
  method FindBestTinyDroplets(a: Attributes, acc: Accuracy, f: nat, d: nat, misses: nat)
    returns (tinyDroplets: nat, tinyDropletMisses: nat)
    requires f + d + misses == a.Palpable()
    ensures tinyDroplets + tinyDropletMisses == a.nTinyDroplets
    ensures a.Palpable() + a.nTinyDroplets > 0 ==> Nearest(a, acc, f + d, tinyDroplets)
  {
    hide WindowLow, WindowHigh, Tracks, NearerTiny, Nearest, Target;
    tinyDroplets, tinyDropletMisses := 0, 0;
    var best: Option<real> := None;
    assert Tracks(a, acc, f, d, misses, best, tinyDroplets) by { TracksNone(a, acc, f, d, misses, tinyDroplets); }
    ghost var caught := f + d;
    var raw := Target(a, acc) - (f + d) as real;
    var lo, hi := WindowLow(raw, a.nTinyDroplets), WindowHigh(raw, a.nTinyDroplets);
    assert lo <= hi <= a.nTinyDroplets by { WindowOrdered(Target(a, acc), f + d, raw, a.nTinyDroplets); }
    for n := lo to hi + 1
      invariant Tracks(a, acc, f, d, misses, best, tinyDroplets)
      invariant best.None? ==> tinyDroplets == tinyDropletMisses == 0
      invariant best.Some? ==> tinyDroplets < n && tinyDroplets + tinyDropletMisses == a.nTinyDroplets
      invariant lo == n ==> best.None?
      invariant lo < n && a.Palpable() + a.nTinyDroplets > 0 ==> best.Some?
      invariant a.Palpable() + a.nTinyDroplets > 0 ==>
        forall k: nat | lo <= k < n :: NearerTiny(a, acc, caught, tinyDroplets, k)
    {
      best, tinyDroplets := Consider(a, acc, f, d, misses, caught, best, tinyDroplets, n);
      if best.Some? {
        assert tinyDroplets <= a.nTinyDroplets;
        tinyDropletMisses := a.nTinyDroplets - tinyDroplets;
      }
    }
    if a.Palpable() + a.nTinyDroplets > 0 {
      WindowNearest(a, acc, f + d, tinyDroplets, raw);
    }
  }

  lemma TracksNone(a: Attributes, acc: real, f: nat, d: nat, misses: nat, tiny: nat)
    ensures Tracks(a, acc, f, d, misses, None, tiny)
  {}

  lemma WindowOrdered(target: real, caught: nat, raw: real, limit: nat)
    requires raw == target - caught as real
    ensures WindowLow(raw, limit) <= WindowHigh(raw, limit) <= limit
  {
    NearestOnLine(target, caught, 1, raw, limit, 0);
  }

  lemma WindowNearest(a: Attributes, acc: real, caught: nat, tiny: nat, raw: real)
    requires raw == Target(a, acc) - caught as real && tiny <= a.nTinyDroplets
    requires forall k: nat | WindowLow(raw, a.nTinyDroplets) <= k <= WindowHigh(raw, a.nTinyDroplets) ::
               NearerTiny(a, acc, caught, tiny, k)
    ensures Nearest(a, acc, caught, tiny)
  {
    hide WindowLow, WindowHigh, Target, Miss;
    var target := Target(a, acc);
    var lo, hi := WindowLow(raw, a.nTinyDroplets), WindowHigh(raw, a.nTinyDroplets);
    WindowOrdered(target, caught, raw, a.nTinyDroplets);
    assert NearerTiny(a, acc, caught, tiny, lo) && NearerTiny(a, acc, caught, tiny, hi);
    forall k: nat | k <= a.nTinyDroplets
      ensures NearerTiny(a, acc, caught, tiny, k)
    {
      NearestOnLine(target, caught, 1, raw, a.nTinyDroplets, k);
    }
  }

  lemma DistanceDefined(acc: real, f: nat, d: nat, tiny: nat, tinyMisses: nat, misses: nat)
    requires f + d + tiny + tinyMisses + misses > 0
    ensures Distance(acc, PlayAccuracy(f, d, tiny, tinyMisses, misses)).Some?
  {}

  // ---------------------------------------------------------------------------------------------

  datatype CatchScoreState =
    CatchScoreState(maxCombo: nat, fruits: nat, droplets: nat, tinyDroplets: nat, tinyDropletMisses: nat, misses: nat)

  class CatchPerformance {
    const attrs: Attributes
    const acc: Option<Accuracy>
    var combo: Option<nat>
    var fruits: Option<nat>
    var droplets: Option<nat>
    var tinyDroplets: Option<nat>
    var tinyDropletMisses: Option<nat>
    var misses: Option<nat>

    constructor (attrs: Attributes, acc: Option<Accuracy>)
      ensures this.attrs == attrs && this.acc == acc
      ensures combo == fruits == droplets == tinyDroplets == tinyDropletMisses == misses == None
    {
      this.attrs, this.acc := attrs, acc;
      combo, fruits, droplets, tinyDroplets, tinyDropletMisses, misses := None, None, None, None, None, None;
    }

    function Misses(): (m: nat)
      reads this
      ensures m == if misses.Some? then Min(misses.value, attrs.Palpable()) else 0
    {
      Clamped(misses, attrs.nFruits + attrs.nDroplets)
    }

    /** How the given tiny droplet counts and the accuracy decide the tiny droplets. */
    ghost predicate TinyAnswers(tiny: Option<nat>, tinyMisses: Option<nat>, caught: nat, t: nat, m: nat) {
      var n := attrs.nTinyDroplets;
      var searched := t + m == n && (attrs.Palpable() + n > 0 && acc.Some? ==> Nearest(attrs, acc.value, caught, t));
      match (tiny, tinyMisses)
      case (Some(t'), Some(m')) =>
        if t' + m' == n then t == t' && m == m'
        else if acc.Some? then searched
        else m == m' && t == Max(t', n - m')
      case (Some(t'), None) => t == Min(n, t') && t + m == n
      case (None, Some(m')) => m == Min(n, m') && t + m == n
      case (None, None) => if acc.Some? then searched else t == n && m == 0
    }

    /** The fields are what an earlier call left behind. */
    ghost predicate Generated(s: CatchScoreState)
      reads this
    {
      && combo == Some(s.maxCombo) && misses == Some(s.misses)
      && fruits == Some(s.fruits) && droplets == Some(s.droplets)
      && tinyDroplets == Some(s.tinyDroplets) && tinyDropletMisses == Some(s.tinyDropletMisses)
      && s.fruits + s.droplets + s.misses == attrs.Palpable()
      && (acc.Some? ==> s.tinyDroplets + s.tinyDropletMisses == attrs.nTinyDroplets)
      && attrs.nTinyDroplets <= s.tinyDroplets + s.tinyDropletMisses
    }

    /** The tiny droplets, from what is given, the accuracy, and the fruits and droplets caught. */
    method CountTiny(f: nat, d: nat, m: nat) returns (tiny: nat, tinyMisses: nat)
      requires f + d + m == attrs.Palpable()
      ensures TinyAnswers(tinyDroplets, tinyDropletMisses, f + d, tiny, tinyMisses)
      ensures attrs.nTinyDroplets <= tiny + tinyMisses
      ensures acc.Some? ==> tiny + tinyMisses == attrs.nTinyDroplets
    {
      hide Nearest;
      tiny, tinyMisses := 0, 0;
      match (tinyDroplets, tinyDropletMisses) {
        case (Some(nTiny), Some(nMisses)) =>
          if acc.Some? {
            if nTiny + nMisses == attrs.nTinyDroplets {
              tiny, tinyMisses := nTiny, nMisses;
            } else {
              tiny, tinyMisses := FindBestTinyDroplets(attrs, acc.value, f, d, m);
            }
          } else {
            var nRemaining := SaturatingSub(attrs.nTinyDroplets, nTiny + nMisses);
            tiny, tinyMisses := nTiny + nRemaining, nMisses;
          }
        case (Some(nTiny), None) =>
          tiny, tinyMisses := Min(attrs.nTinyDroplets, nTiny), SaturatingSub(attrs.nTinyDroplets, nTiny);
        case (None, Some(nMisses)) =>
          tiny, tinyMisses := SaturatingSub(attrs.nTinyDroplets, nMisses), Min(attrs.nTinyDroplets, nMisses);
        case (None, None) =>
          if acc.Some? {
            tiny, tinyMisses := FindBestTinyDroplets(attrs, acc.value, f, d, m);
          } else {
            tiny := attrs.nTinyDroplets;
          }
      }
    }

    method GenerateState() returns (s: CatchScoreState)
      modifies this
      ensures Generated(s)
      ensures s.misses == old(Misses())
      ensures s.maxCombo == if old(combo).Some? then old(combo).value else attrs.Palpable() - s.misses
      ensures Balanced(attrs, s.misses, old(fruits), old(droplets), s.fruits, s.droplets)
      ensures TinyAnswers(old(tinyDroplets), old(tinyDropletMisses), s.fruits + s.droplets, s.tinyDroplets,
        s.tinyDropletMisses)
      // a second call changes nothing
      ensures forall t | old(Generated(t)) :: s == t
    {
      hide Nearest, TinyAnswers, Balanced;
      var m := Misses();
      var maxCombo := if combo.Some? then combo.value else attrs.nFruits + attrs.nDroplets - m;
      var f, d := Balance(attrs, m, fruits, droplets);
      assert f + d + m == attrs.Palpable() by { BalancedTotal(attrs, m, fruits, droplets, f, d); }
      var tiny, tinyMisses := CountTiny(f, d, m);
      s := CatchScoreState(maxCombo, f, d, tiny, tinyMisses, m);
      forall t | old(Generated(t))
        ensures s == t
      {
        SecondCall(t, s);
      }
      combo, fruits, droplets := Some(s.maxCombo), Some(s.fruits), Some(s.droplets);
      tinyDroplets, tinyDropletMisses, misses := Some(s.tinyDroplets), Some(s.tinyDropletMisses), Some(s.misses);
    }

    lemma SecondCall(t: CatchScoreState, s: CatchScoreState)
      requires Generated(t) && s.misses == Misses()
      requires s.maxCombo == if combo.Some? then combo.value else attrs.Palpable() - s.misses
      requires Balanced(attrs, s.misses, fruits, droplets, s.fruits, s.droplets)
      requires TinyAnswers(tinyDroplets, tinyDropletMisses, s.fruits + s.droplets, s.tinyDroplets, s.tinyDropletMisses)
      ensures t == s
    {
      hide Nearest;
    }
  }

  lemma BalancedTotal(a: Attributes, misses: nat, fruits: Option<nat>, droplets: Option<nat>, f: nat, d: nat)
    requires Balanced(a, misses, fruits, droplets, f, d)
    ensures f + d + misses == a.Palpable()
  {}
}
