/**
 osu!'s legacy score: the simulator that plays a map perfectly, and the nested score per object.
 */
module LegacyScore {
  import HitResults

  datatype NestedKind = Repeat | Tail | Tick

  /** `bonus` is what spinning the spinner scores on top of its 300. */
  datatype OsuObject = Circle | Slider(nested: seq<NestedKind>) | Spinner(bonus: nat)

  /** How much combo the object gives. */
  function ComboOf(o: OsuObject): nat {
    if o.Slider? then 1 + |o.nested| else 1
  }

  function MaxCombo(objects: seq<OsuObject>): nat {
    if objects == [] then 0
    else
      var n := |objects| - 1;
      MaxCombo(objects[..n]) + ComboOf(objects[n])
  }

  function NestedScore(kind: NestedKind): nat {
    if kind.Tick? then 10 else 30
  }

  // ---------------------------------------------------------------------------------------------
  // The simulator

  datatype Sim = Sim(combo: nat, comboScore: real, accuracyScore: int)

  /** Towards zero. */
  function Trunc(r: real): (n: int)
    ensures r >= 0.0 ==> 0.0 <= n as real <= r < n as real + 1.0
    ensures r <= 0.0 ==> n as real - 1.0 < r <= n as real <= 0.0
  {
    if r >= 0.0 then r.Floor else -((-r).Floor)
  }

  function ScoreBonus(combo: nat, scoreIncrease: nat, multiplier: real): real {
    TruncatedProduct(HitResults.Max(0, combo - 1), (scoreIncrease / 25) as real * multiplier)
  }

  function TruncatedProduct(combo: int, perHit: real): real {
    Trunc(combo as real * perHit) as real
  }

  function Hit(sim: Sim, scoreIncrease: nat, addComboMultiplier: bool, increaseCombo: bool, multiplier: real): Sim {
    Sim(if increaseCombo then sim.combo + 1 else sim.combo,
        sim.comboScore + if addComboMultiplier then ScoreBonus(sim.combo, scoreIncrease, multiplier) else 0.0,
        sim.accuracyScore + scoreIncrease)
  }

  function SumOfNested(nested: seq<NestedKind>): nat {
    if nested == [] then 0
    else
      var n := |nested| - 1;
      SumOfNested(nested[..n]) + NestedScore(nested[n])
  }

  /** What playing one object does: a slider is judged after everything inside it. */
  function Play(sim: Sim, o: OsuObject, multiplier: real): Sim {
    var judgedAt := if o.Slider? then sim.combo + ComboOf(o) else sim.combo;
    Sim(sim.combo + ComboOf(o),
        sim.comboScore + ScoreBonus(judgedAt, 300, multiplier),
        sim.accuracyScore + 300 + if o.Slider? then 30 + SumOfNested(o.nested) else 0)
  }

  function Simulated(objects: seq<OsuObject>, multiplier: real): Sim {
    if objects == [] then Sim(0, 0.0, 0)
    else
      var n := |objects| - 1;
      Play(Simulated(objects[..n], multiplier), objects[n], multiplier)
  }

  class SimState {
    var combo: nat
    var comboScore: real
    var accuracyScore: int
    const scoreMultiplier: real

    constructor (scoreMultiplier: real)
      ensures Value() == Sim(0, 0.0, 0) && this.scoreMultiplier == scoreMultiplier
    {
      combo, comboScore, accuracyScore, this.scoreMultiplier := 0, 0.0, 0, scoreMultiplier;
    }

    function Value(): Sim
      reads this
    {
      Sim(combo, comboScore, accuracyScore)
    }

    /** `simulate_hit_generic`. */
    method SimulateHit(scoreIncrease: nat, addComboMultiplier: bool, increaseCombo: bool)
      modifies this
      ensures Value() == Hit(old(Value()), scoreIncrease, addComboMultiplier, increaseCombo, scoreMultiplier)
    {
      hide TruncatedProduct;
      if addComboMultiplier {
        var comboMinus1 := HitResults.Max(0, combo - 1);
        var perHit := (scoreIncrease / 25) as real * scoreMultiplier;
        comboScore := comboScore + TruncatedProduct(comboMinus1, perHit);
      }
      accuracyScore := accuracyScore + scoreIncrease;
      if increaseCombo {
        combo := combo + 1;
      }
    }

    /** `simulate_object`. */
    method SimulateObject(o: OsuObject)
      modifies this
      ensures Value() == Play(old(Value()), o, scoreMultiplier)
    {
      hide ScoreBonus;
      match o {
        case Circle => SimulateHit(300, true, true);
        case Spinner(_) => SimulateHit(300, true, true);
        case Slider(nested) =>
          SimulateHit(30, false, true);
          for i := 0 to |nested|
            invariant Value() == Sim(old(combo) + 1 + i, old(comboScore),
              old(accuracyScore) + 30 + SumOfNested(nested[..i]))
          {
            assert nested[..i + 1][..i] == nested[..i];
            SimulateHit(NestedScore(nested[i]), false, true);
          }
          assert nested[..|nested|] == nested;
          SimulateHit(300, true, false);
      }
    }
  }

  method Simulate(objects: seq<OsuObject>, scoreMultiplier: real) returns (attributes: Sim)
    ensures attributes == Simulated(objects, scoreMultiplier)
  {
    var state := new SimState(scoreMultiplier);
    for i := 0 to |objects|
      invariant state.Value() == Simulated(objects[..i], scoreMultiplier)
    {
      assert objects[..i + 1][..i] == objects[..i];
      state.SimulateObject(objects[i]);
    }
    assert objects[..|objects|] == objects;
    attributes := state.Value();
  }

  /** The simulated combo is the map's maximum combo, for every prefix of every map. */
  lemma {:induction false} SimulatedCombo(objects: seq<OsuObject>, multiplier: real)
    ensures Simulated(objects, multiplier).combo == MaxCombo(objects)
  {
    if objects != [] {
      hide ScoreBonus;
      SimulatedCombo(objects[..|objects| - 1], multiplier);
    }
  }

  lemma {:induction false} ComboScoreNatural(objects: seq<OsuObject>, m: nat)
    ensures Simulated(objects, m as real).comboScore >= 0.0
  {
    hide ScoreBonus;
    if objects != [] {
      var n := |objects| - 1;
      var sim := Simulated(objects[..n], m as real);
      ComboScoreNatural(objects[..n], m);
      BonusNatural(if objects[n].Slider? then sim.combo + ComboOf(objects[n]) else sim.combo, m);
    }
  }

  lemma BonusNatural(combo: nat, m: nat)
    ensures ScoreBonus(combo, 300, m as real) >= 0.0
  {
    hide ScoreBonus;
    BonusExact(combo, m);
    assert 12 * m * HitResults.Max(0, combo - 1) >= 0;
  }

  // ---------------------------------------------------------------------------------------------
  // Maps without sliders

  ghost predicate NoSliders(objects: seq<OsuObject>) {
    forall i | 0 <= i < |objects| :: !objects[i].Slider?
  }

  /** 0 + 0 + 1 + 2 + ... over `n` objects: the combo that counts when each is hit. */
  function Triangle(n: nat): int {
    if n == 0 then 0 else Triangle(n - 1) + HitResults.Max(0, n - 2)
  }

  lemma {:induction false} TriangleClosed(n: nat)
    requires n >= 1
    ensures 2 * Triangle(n) == (n - 1) * (n - 2)
  {
    if n > 1 {
      TriangleClosed(n - 1);
      assert (n - 1) * (n - 2) == (n - 2) * (n - 3) + 2 * (n - 2);
    } else {
      assert Triangle(1) == Triangle(0);
    }
  }

  lemma {:induction false} ComboWithoutSliders(objects: seq<OsuObject>)
    requires NoSliders(objects)
    ensures MaxCombo(objects) == |objects|
  {
    if objects != [] {
      ComboWithoutSliders(objects[..|objects| - 1]);
    }
  }

  lemma BonusExact(combo: nat, m: nat)
    ensures ScoreBonus(combo, 300, m as real) == (12 * m * HitResults.Max(0, combo - 1)) as real
  {
    hide TruncatedProduct;
    var c := HitResults.Max(0, combo - 1);
    IntProduct(12, m);
    ProductExact(c, 12 * m);
    assert c * (12 * m) == 12 * m * c;
  }

  lemma ProductExact(c: int, n: int)
    ensures TruncatedProduct(c, n as real) == (c * n) as real
  {
    hide Trunc;
    IntProduct(c, n);
    TruncInt(c * n);
    assert TruncatedProduct(c, n as real) == Trunc(c as real * n as real) as real;
  }

  lemma IntProduct(a: int, b: int)
    ensures a as real * b as real == (a * b) as real
  {}

  lemma TruncInt(n: int)
    ensures Trunc(n as real) == n
  {}

  /** Circles and spinners alone: the combo score is twelve times the multiplier times a triangular
      number. */
  lemma {:induction false} SimulatedSeries(objects: seq<OsuObject>, m: nat)
    requires NoSliders(objects)
    ensures Simulated(objects, m as real).comboScore == (12 * m * Triangle(|objects|)) as real
    ensures Simulated(objects, m as real).accuracyScore == 300 * |objects|
  {
    if objects != [] {
      hide ScoreBonus;
      var n := |objects| - 1;
      SimulatedSeries(objects[..n], m);
      SimulatedCombo(objects[..n], m as real);
      ComboWithoutSliders(objects[..n]);
      BonusExact(n, m);
      SeriesStep(m, Triangle(n), HitResults.Max(0, n - 1));
    }
  }

  lemma SeriesStep(m: nat, t: int, c: int)
    ensures (12 * m * t) as real + (12 * m * c) as real == (12 * m * (t + c)) as real
  {}

  /** With three objects or more the sum is the closed form (n - 1)(n - 2)/2. */
  lemma SimulatedClosedForm(objects: seq<OsuObject>, m: nat)
    requires NoSliders(objects) && objects != []
    ensures var n := |objects|; 2.0 * Simulated(objects, m as real).comboScore == (12 * m * ((n - 1) * (n - 2))) as real
  {
    hide Simulated, Triangle;
    var n := |objects|;
    SimulatedSeries(objects, m);
    TriangleClosed(n);
    var t := Triangle(n);
    assert 12 * m * (2 * t) == 2 * (12 * m * t);
  }

  // ---------------------------------------------------------------------------------------------
  // Nested score

  function CountKind(nested: seq<NestedKind>, kind: NestedKind): nat {
    if nested == [] then 0
    else
      var n := |nested| - 1;
      CountKind(nested[..n], kind) + if nested[n] == kind then 1 else 0
  }

  function BigTicks(o: OsuObject): nat {
    if o.Slider? then 2 + CountKind(o.nested, Repeat) else 0
  }

  function SmallTicks(o: OsuObject): nat {
    if o.Slider? then CountKind(o.nested, Tick) else 0
  }

  function BonusOf(o: OsuObject): nat {
    if o.Spinner? then o.bonus else 0
  }

  function Sum(objects: seq<OsuObject>, f: OsuObject -> nat): nat {
    if objects == [] then 0
    else
      var n := |objects| - 1;
      Sum(objects[..n], f) + f(objects[n])
  }

  function NestedTotal(objects: seq<OsuObject>): real {
    Sum(objects, BigTicks) as real * 30.0 + Sum(objects, SmallTicks) as real * 10.0 + Sum(objects, BonusOf) as real
  }

  function NestedPerObject(objects: seq<OsuObject>, objectCount: nat): (score: real)
    ensures objectCount > 0 ==> score * objectCount as real == NestedTotal(objects)
  {
    if objectCount == 0 then 0.0 else NestedTotal(objects) / objectCount as real
  }

  /** `calculate_nested_score_per_object`. */
  method CalculateNestedScorePerObject(objects: seq<OsuObject>, objectCount: nat) returns (score: real)
    ensures score == NestedPerObject(objects, objectCount)
  {
    hide NestedTotal;
    if objectCount == 0 {
      return 0.0;
    }
    var total := SumNestedScore(objects);
    score := total / objectCount as real;
  }

  method SumNestedScore(objects: seq<OsuObject>) returns (total: real)
    ensures total == NestedTotal(objects)
  {
    var big, small, spinner := 0, 0, 0;
    for i := 0 to |objects|
      invariant big == Sum(objects[..i], BigTicks) && small == Sum(objects[..i], SmallTicks)
      invariant spinner == Sum(objects[..i], BonusOf)
    {
      assert objects[..i + 1][..i] == objects[..i];
      match objects[i] {
        case Slider(nested) =>
          big := big + 2 + CountKind(nested, Repeat);
          small := small + CountKind(nested, Tick);
        case Spinner(bonus) => spinner := spinner + bonus;
        case Circle =>
      }
    }
    assert objects[..|objects|] == objects;
    total := big as real * 30.0 + small as real * 10.0 + spinner as real;
  }

  lemma {:induction false} NestedSum(nested: seq<NestedKind>)
    ensures SumOfNested(nested) == 30 * CountKind(nested, Repeat) + 10 * CountKind(nested, Tick)
      + 30 * CountKind(nested, Tail)
  {
    if nested != [] {
      NestedSum(nested[..|nested| - 1]);
    }
  }

  function Tails(o: OsuObject): nat {
    if o.Slider? then CountKind(o.nested, Tail) else 0
  }

  function IsSlider(o: OsuObject): nat {
    if o.Slider? then 1 else 0
  }

  /** Both computations score a map the same way up to the spinners' bonus, which only the second
      counts: they agree exactly if there are as many tails as sliders. */
  lemma {:induction false} NestedAgrees(objects: seq<OsuObject>, multiplier: real)
    ensures var simulated := Simulated(objects, multiplier).accuracyScore;
      simulated as real + Sum(objects, BonusOf) as real
      == 300.0 * |objects| as real + NestedTotal(objects)
        + 30.0 * (Sum(objects, Tails) - Sum(objects, IsSlider)) as real
  {
    if objects != [] {
      hide ScoreBonus;
      var n := |objects| - 1;
      NestedAgrees(objects[..n], multiplier);
      if objects[n].Slider? {
        NestedSum(objects[n].nested);
      }
    }
  }
}
