/**
 Difficulty attributes of a growing prefix of an osu! map: the gradual calculator, which keeps its
 state between results, against the batch calculation of one prefix.
 */
module Gradual {
  import opened HitResults
  import opened LegacyScore

  datatype Counts = Counts(maxCombo: nat, nCircles: nat, nSliders: nat, nLargeTicks: nat, nSpinners: nat)

  const NONE: Counts := Counts(0, 0, 0, 0, 0)

  function LargeTicks(o: OsuObject): nat {
    if o.Slider? then CountKind(o.nested, Tick) + CountKind(o.nested, Repeat) else 0
  }

  /** One object more, as in `increment_combo` and in `convert_objects`. */
  function CountObject(c: Counts, o: OsuObject): Counts {
    match o
    case Circle => c.(maxCombo := c.maxCombo + 1, nCircles := c.nCircles + 1)
    case Slider(nested) =>
      c.(maxCombo := c.maxCombo + 1 + |nested|, nSliders := c.nSliders + 1,
        nLargeTicks := c.nLargeTicks + LargeTicks(o))
    case Spinner(_) => c.(maxCombo := c.maxCombo + 1, nSpinners := c.nSpinners + 1)
  }

  function CountsOf(objects: seq<OsuObject>): Counts {
    if objects == [] then NONE
    else
      var n := |objects| - 1;
      CountObject(CountsOf(objects[..n]), objects[n])
  }

  /** `process` updates all skills by the difficulty object with the given index; the first hit
      object has none. `multiplier` is the legacy score multiplier of the whole map. */
  datatype Setup<!S> = Setup(objects: seq<OsuObject>, skills: S, process: (S, nat) -> S, multiplier: real) {
    function DiffObjects(): nat {
      SaturatingSub(|objects|, 1)
    }

    function SkillsAfter(n: nat): S {
      if n == 0 then skills else process(SkillsAfter(n - 1), n - 1)
    }

    /** The result for the first `k` objects. */
    function Prefix(k: nat): Attributes<S>
      requires k <= |objects|
    {
      Attributes(CountsOf(objects[..k]), NestedPerObject(objects[..k], k),
        Simulated(objects[..k], multiplier).comboScore,
                 SkillsAfter(SaturatingSub(k, 1)))
    }
  }

  /** What the evaluation at the end is given; ratings are a function of it. */
  datatype Attributes<S> = Attributes(counts: Counts, nestedScorePerObject: real, maximumLegacyComboScore: real,
                                      skills: S)

  // ---------------------------------------------------------------------------------------------
  // Counting

  lemma {:induction false} CountsAddUp(objects: seq<OsuObject>)
    ensures var c := CountsOf(objects);
      c.maxCombo == MaxCombo(objects) && c.nCircles + c.nSliders + c.nSpinners == |objects|
  {
    if objects != [] {
      CountsAddUp(objects[..|objects| - 1]);
    }
  }

  /** Where the objects of one kind are. */
  ghost function Places(objects: seq<OsuObject>, kind: OsuObject -> bool): set<nat> {
    set i: nat | i < |objects| && kind(objects[i])
  }

  lemma PlacesStep(objects: seq<OsuObject>, kind: OsuObject -> bool)
    requires objects != []
    ensures var n := |objects| - 1;
      |Places(objects, kind)| == |Places(objects[..n], kind)| + if kind(objects[n]) then 1 else 0
  {
    var n := |objects| - 1;
    if kind(objects[n]) {
      assert Places(objects, kind) == Places(objects[..n], kind) + {n};
    } else {
      assert Places(objects, kind) == Places(objects[..n], kind);
    }
  }

  ghost predicate CountsEach(objects: seq<OsuObject>, c: Counts) {
    && c.nCircles == |Places(objects, (o: OsuObject) => o.Circle?)|
    && c.nSliders == |Places(objects, (o: OsuObject) => o.Slider?)|
    && c.nSpinners == |Places(objects, (o: OsuObject) => o.Spinner?)|
    && c.nLargeTicks + Sum(objects, Tails) + |objects| == MaxCombo(objects)
  }

  lemma {:induction false} KindsOf(nested: seq<NestedKind>)
    ensures CountKind(nested, Tick) + CountKind(nested, Repeat) + CountKind(nested, Tail) == |nested|
  {
    if nested != [] {
      KindsOf(nested[..|nested| - 1]);
    }
  }

  lemma NothingCounted()
    ensures CountsEach([], NONE)
  {
    assert Places([], (o: OsuObject) => o.Circle?) == {};
    assert Places([], (o: OsuObject) => o.Slider?) == {};
    assert Places([], (o: OsuObject) => o.Spinner?) == {};
  }

  /** Each count is the number of objects of its kind, and what gives combo but is neither an object nor
      a slider's tail is a large tick. */
  lemma {:induction false} CountsAreCounts(objects: seq<OsuObject>)
    ensures CountsEach(objects, CountsOf(objects))
  {
    if objects == [] {
      NothingCounted();
    } else {
      var n := |objects| - 1;
      CountsAreCounts(objects[..n]);
      PlacesStep(objects, (o: OsuObject) => o.Circle?);
      PlacesStep(objects, (o: OsuObject) => o.Slider?);
      PlacesStep(objects, (o: OsuObject) => o.Spinner?);
      if objects[n].Slider? {
        KindsOf(objects[n].nested);
      }
    }
  }

  /** The combo of the legacy simulator over any prefix is the prefix's maximum combo. */
  lemma PrefixCombo<S>(setup: Setup<S>, k: nat)
    requires k <= |setup.objects|
    ensures Simulated(setup.objects[..k], setup.multiplier).combo == setup.Prefix(k).counts.maxCombo
  {
    CountsAddUp(setup.objects[..k]);
    SimulatedCombo(setup.objects[..k], setup.multiplier);
  }

  /** The counting in `convert_objects`, which looks at all objects but counts only `take`. */
  method ConvertObjects(objects: seq<OsuObject>, take: nat) returns (counts: Counts)
    ensures counts == CountsOf(objects[..Min(take, |objects|)])
  {
    hide CountObject;
    counts := NONE;
    var left := take;
    for i := 0 to |objects|
      invariant left == SaturatingSub(take, i)
      invariant counts == CountsOf(objects[..Min(take, i)])
    {
      if left > 0 {
        left := left - 1;
        assert objects[..i + 1][..i] == objects[..i];
        counts := CountObject(counts, objects[i]);
      }
    }
  }

  /** `DifficultyValues::calculate` for the first `take` objects. */
  method Calculate<S>(setup: Setup<S>, take: nat) returns (r: Attributes<S>)
    ensures r == setup.Prefix(Min(take, |setup.objects|))
  {
    hide CountsOf, NestedPerObject;
    var n := Min(take, |setup.objects|);
    var counts := ConvertObjects(setup.objects, take);
    CountsAddUp(setup.objects[..n]);
    var progressive := setup.objects[..n];
    var nested := CalculateNestedScorePerObject(progressive, counts.nCircles + counts.nSliders + counts.nSpinners);
    var legacy := Simulate(progressive, setup.multiplier);
    var skills := setup.skills;
    var takeDiffObjects := SaturatingSub(n, 1);
    for i := 0 to takeDiffObjects
      invariant skills == setup.SkillsAfter(i)
    {
      skills := setup.process(skills, i);
    }
    r := Attributes(counts, nested, legacy.comboScore, skills);
  }

  // ---------------------------------------------------------------------------------------------
  // The gradual calculator

  class OsuGradualDifficulty<S> {
    const setup: Setup<S>
    var idx: nat
    var counts: Counts
    var nestedScorePerObject: real
    var maximumLegacyComboScore: real
    var skills: S

    constructor (setup: Setup<S>)
      ensures At(0) && this.setup == setup
    {
      this.setup := setup;
      idx, nestedScorePerObject, maximumLegacyComboScore, skills := 0, 0.0, 0.0, setup.skills;
      counts := if setup.objects == [] then NONE else CountObject(NONE, setup.objects[0]);
      assert setup.objects != [] ==> setup.objects[..1][..0] == [];
    }

    /** Everything the calculator holds after `i` results. Counting is one object ahead at first. */
    ghost predicate At(i: nat)
      reads this
    {
      && idx == i && i <= |setup.objects| && Processed(i)
      && (i > 0 ==> nestedScorePerObject == setup.Prefix(i).nestedScorePerObject
                    && maximumLegacyComboScore == setup.Prefix(i).maximumLegacyComboScore)
    }

    /** The same up to the legacy attributes, which `nth` does not keep up to date on its way. */
    ghost predicate Processed(i: nat)
      reads this`counts, this`skills
    {
      var n := if i == 0 && setup.objects != [] then 1 else i;
      && n <= |setup.objects|
      && counts == CountsOf(setup.objects[..n]) && skills == setup.SkillsAfter(SaturatingSub(i, 1))
    }

    /** `len` is right about the results to come, except that an empty map reports one. */
    function Len(): (n: nat)
      requires idx <= |setup.objects|
      reads this
      ensures n == if setup.objects == [] then 1 else |setup.objects| - idx
    {
      setup.DiffObjects() + 1 - idx
    }

    method UpdateLegacyScoreAttributes()
      requires idx <= |setup.objects|
      modifies this`nestedScorePerObject, this`maximumLegacyComboScore
      ensures nestedScorePerObject == setup.Prefix(idx).nestedScorePerObject
      ensures maximumLegacyComboScore == setup.Prefix(idx).maximumLegacyComboScore
    {
      var objects := setup.objects[..idx];
      nestedScorePerObject := CalculateNestedScorePerObject(objects, idx);
      var legacy := Simulate(objects, setup.multiplier);
      maximumLegacyComboScore := legacy.comboScore;
    }

    /** Processing the difficulty object after `i` hit objects; the counts follow. */
    method ProcessNext(i: nat)
      requires 0 < i < |setup.objects|
      requires skills == setup.SkillsAfter(i - 1) && counts == CountsOf(setup.objects[..i])
      modifies this`skills, this`counts
      ensures skills == setup.SkillsAfter(i) && counts == CountsOf(setup.objects[..i + 1])
    {
      hide CountObject;
      assert setup.objects[..i + 1][..i] == setup.objects[..i];
      skills := setup.process(skills, i - 1);
      counts := CountObject(counts, setup.objects[i]);
    }

    /** `next`: each result is the batch result for one object more. */
    method Next() returns (r: Option<Attributes<S>>)
      requires Processed(idx) && (idx == |setup.objects| ==> At(idx))
      modifies this
      ensures r == NextResult(setup, old(idx))
      ensures At(AfterNexts(setup, old(idx), 1))
    {
      hide CountsOf, NestedPerObject, Simulated;
      if idx > 0 {
        if idx - 1 >= setup.DiffObjects() {
          return None;
        }
        ProcessNext(idx);
      } else if setup.objects == [] {
        return None;
      }
      idx := idx + 1;
      UpdateLegacyScoreAttributes();
      r := Some(Attributes(counts, nestedScorePerObject, maximumLegacyComboScore, skills));
    }

    /** `nth`: the same state and result as `n + 1` calls of `next`, or as many as there are left. */
    method Nth(n: nat) returns (r: Option<Attributes<S>>)
      requires At(idx)
      modifies this
      ensures var remaining := |setup.objects| - old(idx);
        At(AfterNexts(setup, old(idx), Min(n + 1, remaining)))
      ensures r == NthResult(setup, old(idx), n)
    {
      hide CountsOf, NestedPerObject, Simulated, Setup.Prefix, Setup.SkillsAfter, OsuGradualDifficulty.Processed;
      var skip := SaturatingSub(idx, 1);
      var take := Min(n, SaturatingSub(Len(), 1));
      if idx == 0 && take > 0 {
        take := take - 1;
        FirstProcessed();
        idx := idx + 1;
      }
      Skip(skip, take);
      r := Next();
    }

    lemma FirstProcessed()
      requires Processed(0) && setup.objects != []
      ensures Processed(1)
    {}

    /** The loop of `nth`. */
    method Skip(skip: nat, take: nat)
      requires Processed(idx) && skip == SaturatingSub(idx, 1)
      requires take > 0 ==> 0 < idx && idx + take < |setup.objects|
      modifies this`idx, this`skills, this`counts
      ensures idx == old(idx) + take && Processed(idx)
    {
      hide CountsOf;
      for j := 0 to take
        invariant idx == old(idx) + j && Processed(idx)
      {
        ProcessNext(skip + j + 1);
        idx := idx + 1;
      }
    }
  }

  /** The result of `next` after `i` results. */
  function NextResult<S>(setup: Setup<S>, i: nat): Option<Attributes<S>> {
    if i < |setup.objects| then Some(setup.Prefix(i + 1)) else None
  }

  /** How many results there have been after `calls` more calls of `next`. */
  function AfterNexts<S>(setup: Setup<S>, i: nat, calls: int): nat
    requires i <= |setup.objects|
  {
    Max(i, Min(i + calls, |setup.objects|))
  }

  function NthResult<S>(setup: Setup<S>, i: nat, n: nat): Option<Attributes<S>> {
    if i < |setup.objects| then Some(setup.Prefix(Min(i + n + 1, |setup.objects|))) else None
  }

  /** An iterator's `nth(n)` is what the last of `n + 1` calls of `next` returns. This one keeps that
      exactly if so many results are left or none at all; otherwise it returns the last one. */
  lemma NthDeviates<S>(setup: Setup<S>, i: nat, n: nat)
    requires i <= |setup.objects|
    ensures NthResult(setup, i, n) == NextResult(setup, AfterNexts(setup, i, n)) <==>
      n < |setup.objects| - i || i == |setup.objects|
  {}
}
