/**
 The aim skill. Evaluating it puts a provisional peak for the unfinished section among the stored ones;
 the next saved section takes it out again.
 */
module AimSkill {
  import opened HitResults
  import opened AimPeaks
  import opened AimSections
  import opened AimStore

  class Aim {
    const setup: Setup
    var currentStrain: real
    var currentSectionPeak: real
    var currentSectionBegin: real
    var currentSectionEnd: real
    var strainPeaks: seq<StrainPeak>
    var totalLength: real
    var queuedStrains: seq<Queued>
    var finalPeak: Option<StrainPeak>
    var objectDifficulties: seq<real>
    var sliderStrains: seq<real>

    constructor (setup: Setup)
      ensures Valid() && this.setup == setup
      ensures Sections() == START && Finished() == EMPTY && finalPeak == None && objectDifficulties == []
    {
      this.setup := setup;
      currentStrain, currentSectionPeak, currentSectionBegin, currentSectionEnd := 0.0, 0.0, 0.0, 0.0;
      strainPeaks, totalLength, queuedStrains, finalPeak := [], 0.0, [], None;
      objectDifficulties, sliderStrains := [], [];
    }

    function Sections(): Cursor
      reads this
    {
      Cursor(currentStrain, currentSectionPeak, currentSectionBegin, currentSectionEnd, queuedStrains)
    }

    /** The stored peaks without the provisional one. */
    function Finished(): Store
      reads this
    {
      Store(if finalPeak.Some? then RemoveFirst(strainPeaks, finalPeak.value) else strainPeaks, totalLength)
    }

    ghost predicate Valid()
      reads this
    {
      && Descending(Finished().peaks)
      && (finalPeak.Some? ==> strainPeaks == InsertPeak(Finished().peaks, finalPeak.value))
    }

    /** The peak of the unfinished section, as if it ended where it may at the latest. */
    function Provisional(): StrainPeak
      reads this
    {
      NewPeak(currentSectionPeak, currentSectionEnd - currentSectionBegin)
    }

    /** The provisional peak, if there is one, is that of the current section. */
    predicate UpToDate()
      reads this
    {
      finalPeak == None || finalPeak == Some(Provisional())
    }

    method InsertStrainPeak(peak: StrainPeak)
      requires Descending(strainPeaks)
      modifies this`strainPeaks
      ensures strainPeaks == InsertPeak(old(strainPeaks), peak)
    {
      var index := PartitionPoint(strainPeaks, peak.value);
      InsertPeakAt(strainPeaks, peak, index);
      strainPeaks := strainPeaks[..index] + [peak] + strainPeaks[index..];
    }

    /** `save_current_peak`. */
    method SaveCurrentPeak(sectionLength: real)
      requires Valid()
      modifies this`strainPeaks, this`totalLength, this`finalPeak
      ensures Valid() && finalPeak == None
      ensures Finished() == Save(old(Finished()), currentSectionPeak, sectionLength)
    {
      hide RemoveFirst, Pruned, TotalLength;
      if finalPeak.Some? {
        strainPeaks := RemoveFirst(strainPeaks, finalPeak.value);
        finalPeak := None;
      }
      InsertKeepsDescending(strainPeaks, NewPeak(currentSectionPeak, sectionLength));
      InsertStrainPeak(NewPeak(currentSectionPeak, sectionLength));
      totalLength := totalLength + sectionLength;
      Prune();
    }

    /** The loop at the end of `save_current_peak`. */
    method Prune()
      requires Valid() && finalPeak == None
      modifies this`strainPeaks, this`totalLength
      ensures Valid() && Finished() == Pruned(old(Finished()))
    {
      while totalLength > MAX_TOTAL_LENGTH
        invariant Descending(strainPeaks)
        invariant Pruned(Finished()) == Pruned(old(Finished()))
        decreases |strainPeaks|
      {
        if strainPeaks == [] {
          break;
        }
        var removed := strainPeaks[|strainPeaks| - 1];
        strainPeaks := strainPeaks[..|strainPeaks| - 1];
        totalLength := totalLength - removed.sectionLength as real;
      }
    }

    /** `backfill_peaks`. */
    method BackfillPeaks(objects: seq<AimObject>, idx: nat)
      requires Valid() && 0 < idx < |objects|
      modifies this`strainPeaks, this`totalLength, this`finalPeak, this`queuedStrains
      modifies this`currentSectionPeak, this`currentSectionBegin, this`currentSectionEnd
      ensures Valid()
      ensures var (c, saved) := Backfill(setup, old(Sections()), objects[idx - 1].start, objects[idx].start);
        && Sections() == c && Finished() == SaveAll(old(Finished()), saved)
        && finalPeak == if saved == [] then old(finalPeak) else None
    {
      hide Save, RemoveFirst, NextSection, Descending, Behind, InsertPeak, InOrder;
      var previousStart, start := objects[idx - 1].start, objects[idx].start;
      ghost var all := Backfill(setup, Sections(), previousStart, start);
      ghost var before := Finished();
      while start > currentSectionEnd
        invariant Valid()
        invariant Backfill(setup, Sections(), previousStart, start).0 == all.0
        invariant SaveAll(Finished(), Backfill(setup, Sections(), previousStart, start).1) == SaveAll(before, all.1)
        invariant (Finished(), finalPeak, Sections()) == old((Finished(), finalPeak, Sections()))
          || (finalPeak == None && all.1 != [])
        decreases |queuedStrains|, Behind(Sections(), start)
      {
        BackfillRound(objects, idx);
      }
    }

    /** One round of the loop. */
    method BackfillRound(objects: seq<AimObject>, idx: nat)
      requires Valid() && 0 < idx < |objects| && objects[idx].start > currentSectionEnd
      modifies this`strainPeaks, this`totalLength, this`finalPeak, this`queuedStrains
      modifies this`currentSectionPeak, this`currentSectionBegin, this`currentSectionEnd
      ensures Valid() && finalPeak == None
      ensures Sections() == NextSection(setup, old(Sections()), objects[idx - 1].start)
      ensures Finished() == old(Save(Finished(), currentSectionPeak, currentSectionEnd - currentSectionBegin))
      ensures |queuedStrains| < |old(queuedStrains)|
           || (|queuedStrains| == |old(queuedStrains)|
             && Behind(Sections(), objects[idx].start) < old(Behind(Sections(), objects[idx].start)))
    {
      hide Save, RemoveFirst, Behind, Descending, InsertPeak, Decayed;
      NextSectionAdvances(setup, Sections(), objects[idx - 1].start, objects[idx].start);
      SaveCurrentPeak(currentSectionEnd - currentSectionBegin);
      currentSectionBegin := currentSectionEnd;
      if queuedStrains == [] {
        currentSectionEnd := currentSectionBegin + MAX_SECTION_LENGTH;
        StartNewSectionFrom(currentSectionBegin, objects, idx);
      } else {
        var queued := queuedStrains[0];
        queuedStrains := queuedStrains[1..];
        currentSectionEnd := queued.start + MAX_SECTION_LENGTH;
        StartNewSectionFrom(currentSectionBegin, objects, idx);
        currentSectionPeak := MaxReal(currentSectionPeak, queued.strain);
      }
    }

    method StartNewSectionFrom(time: real, objects: seq<AimObject>, idx: nat)
      requires 0 < idx < |objects|
      modifies this`currentSectionPeak
      ensures currentSectionPeak == Decayed(setup, currentStrain, time - objects[idx - 1].start)
    {
      currentSectionPeak := Decayed(setup, currentStrain, time - objects[idx - 1].start);
    }

    method StrainValueAt(curr: AimObject) returns (strain: real)
      modifies this`currentStrain, this`sliderStrains
      ensures strain == StrainValue(setup, old(currentStrain), curr)
      ensures currentStrain == CurrentStrain(setup, old(currentStrain), curr)
      ensures sliderStrains == old(sliderStrains) + if curr.isSlider && !setup.autopilot then [strain] else []
    {
      if setup.autopilot {
        return 0.0;
      }
      var decay := setup.decay(curr.strainTime);
      currentStrain := currentStrain * decay;
      currentStrain := currentStrain + curr.difficulty * (1.0 - decay);
      if curr.isSlider {
        sliderStrains := sliderStrains + [currentStrain];
      }
      return currentStrain;
    }

    /** `process`. Whether the skill was evaluated before makes no difference to what is stored. */
    method ProcessObject(objects: seq<AimObject>, idx: nat)
      requires Valid() && idx < |objects|
      modifies this
      ensures Valid()
      ensures var (c, saved) := Process(setup, old(Sections()), objects, idx);
        && Sections() == c && Finished() == SaveAll(old(Finished()), saved)
        && finalPeak == if saved == [] then old(finalPeak) else None
      ensures idx > 0 && old(UpToDate()) ==> UpToDate()
      ensures objectDifficulties == old(objectDifficulties) + [StrainOf(setup, old(Sections()), objects, idx)]
    {
      var difficulty := ProcessInternal(objects, idx);
      objectDifficulties := objectDifficulties + [difficulty];
    }

    method ProcessInternal(objects: seq<AimObject>, idx: nat) returns (difficulty: real)
      requires Valid() && idx < |objects|
      modifies this
      ensures Valid() && objectDifficulties == old(objectDifficulties)
      ensures var (c, saved) := Process(setup, old(Sections()), objects, idx);
        && Sections() == c && Finished() == SaveAll(old(Finished()), saved)
        && finalPeak == if saved == [] then old(finalPeak) else None
      ensures idx > 0 && old(UpToDate()) ==> UpToDate()
      ensures difficulty == StrainOf(setup, old(Sections()), objects, idx)
    {
      hide Backfill, Enter, RemoveFirst, NewPeak, Descending;
      var curr := objects[idx];
      if idx == 0 {
        currentSectionBegin := curr.start;
        currentSectionEnd := currentSectionBegin + MAX_SECTION_LENGTH;
        currentSectionPeak := StrainValueAt(curr);
        return currentSectionPeak;
      }
      ghost var before := Finished();
      ghost var (filled, saved) := Backfill(setup, Sections(), objects[idx - 1].start, curr.start);
      BackfillStrain(setup, Sections(), objects[idx - 1].start, curr.start);
      ghost var last := Enter(setup, filled, curr).1;
      NothingSaved(setup, Sections(), objects, idx);
      SaveAllConcat(before, saved, last);
      BackfillPeaks(objects, idx);
      difficulty := EnterObject(curr);
    }

    /** What follows the backfill. */
    method EnterObject(curr: AimObject) returns (difficulty: real)
      requires Valid()
      modifies this
      ensures Valid() && objectDifficulties == old(objectDifficulties)
      ensures var (c, saved) := Enter(setup, old(Sections()), curr);
        && Sections() == c && Finished() == SaveAll(old(Finished()), saved)
        && finalPeak == if saved == [] then old(finalPeak) else None
      ensures difficulty == StrainValue(setup, old(currentStrain), curr)
    {
      hide StrainValue, CurrentStrain, Save, RemoveFirst, Descending, InsertPeak, Popped;
      difficulty := StrainValueAt(curr);
      if difficulty > currentSectionPeak {
        queuedStrains := [];
        SaveCurrentPeak(curr.start - currentSectionBegin);
        currentSectionBegin := curr.start;
        currentSectionEnd := currentSectionBegin + MAX_SECTION_LENGTH;
        currentSectionPeak := difficulty;
      } else {
        PopQueue(difficulty);
        queuedStrains := queuedStrains + [Queued(difficulty, curr.start)];
      }
    }

    method PopQueue(strain: real)
      modifies this`queuedStrains
      ensures queuedStrains == Popped(old(queuedStrains), strain)
    {
      while queuedStrains != [] && queuedStrains[|queuedStrains| - 1].strain < strain
        invariant Popped(queuedStrains, strain) == Popped(old(queuedStrains), strain)
        decreases |queuedStrains|
      {
        queuedStrains := queuedStrains[..|queuedStrains| - 1];
      }
    }

    /** `get_current_strain_peaks`. Only the provisional peak is added. A peak left over from an
        evaluation before the first object is not replaced by the current one. */
    method GetCurrentStrainPeaks() returns (peaks: seq<StrainPeak>)
      requires Valid()
      modifies this`strainPeaks, this`finalPeak
      ensures Valid() && peaks == strainPeaks
      ensures Finished() == old(Finished()) && finalPeak.Some?
      ensures finalPeak == if old(finalPeak).Some? then old(finalPeak) else Some(Provisional())
      ensures peaks == InsertPeak(Finished().peaks, Provisional()) <==> old(UpToDate())
    {
      if finalPeak.None? {
        RemoveInserted(strainPeaks, Provisional());
        finalPeak := Some(Provisional());
        InsertStrainPeak(Provisional());
      }
      InsertInjective(Finished().peaks, finalPeak.value, Provisional());
      return strainPeaks;
    }
  }

  /** What an evaluation after `n` objects sees: the stored peaks, and the current section as if it
      ended where it may at the latest. */
  function Evaluated(setup: Setup, objects: seq<AimObject>, n: nat): seq<StrainPeak>
    requires n <= |objects|
  {
    var c := Run(setup, objects, n).cursor;
    InsertPeak(Stored(setup, objects, n).peaks, NewPeak(c.peak, c.end - c.begin))
  }

  /** The skill after `n` objects, evaluated on the way or not. */
  ghost predicate Reached(aim: Aim, objects: seq<AimObject>, n: nat)
    requires n <= |objects|
    reads aim
  {
    var p := Run(aim.setup, objects, n);
    && aim.Valid() && aim.Sections() == p.cursor && aim.objectDifficulties == p.strains
    && aim.Finished() == Stored(aim.setup, objects, n)
    && aim.UpToDate() && (n == 0 ==> aim.finalPeak == None)
  }

  /** A whole map, with an evaluation after any of its objects: sections and stored peaks are those of
      a run without evaluations, and so is what each evaluation returns. */
  method Replay(setup: Setup, objects: seq<AimObject>, evaluate: nat -> bool)
    returns (aim: Aim, evaluations: map<nat, seq<StrainPeak>>)
    ensures aim.setup == setup && Reached(aim, objects, |objects|)
    ensures forall n :: n in evaluations <==> 0 < n <= |objects| && evaluate(n)
    ensures forall n | n in evaluations :: evaluations[n] == Evaluated(setup, objects, n)
  {
    hide Reached, Evaluated;
    aim := Fresh(setup, objects);
    evaluations := map[];
    for i := 0 to |objects|
      invariant aim.setup == setup && Reached(aim, objects, i) && fresh(aim)
      invariant forall n :: n in evaluations <==> 0 < n <= i && evaluate(n)
      invariant forall n | n in evaluations :: evaluations[n] == Evaluated(setup, objects, n)
    {
      ReplayObject(aim, objects, i);
      if evaluate(i + 1) {
        var peaks := ReplayEvaluation(aim, objects, i + 1);
        evaluations := evaluations[i + 1 := peaks];
      }
    }
  }

  method Fresh(setup: Setup, objects: seq<AimObject>) returns (aim: Aim)
    ensures fresh(aim) && aim.setup == setup && Reached(aim, objects, 0)
  {
    aim := new Aim(setup);
  }

  method ReplayObject(aim: Aim, objects: seq<AimObject>, n: nat)
    requires n < |objects| && Reached(aim, objects, n)
    modifies aim
    ensures Reached(aim, objects, n + 1)
  {
    StoredStep(aim.setup, objects, n);
    hide Stored, Process, StrainOf;
    aim.ProcessObject(objects, n);
  }

  method ReplayEvaluation(aim: Aim, objects: seq<AimObject>, n: nat) returns (peaks: seq<StrainPeak>)
    requires 0 < n <= |objects| && Reached(aim, objects, n)
    modifies aim
    ensures Reached(aim, objects, n) && peaks == Evaluated(aim.setup, objects, n)
  {
    hide Stored, Run;
    peaks := aim.GetCurrentStrainPeaks();
  }

  /** An evaluation before the first object spoils the next one, whatever the map: the peak of that
      moment is still there, and that of the first section is missing. */
  method EvaluatedTooEarly(setup: Setup, objects: seq<AimObject>) returns (peaks: seq<StrainPeak>)
    requires objects != []
    ensures peaks != Evaluated(setup, objects, 1)
  {
    var aim := EvaluatedSkill(setup);
    FirstObject(setup, objects);
    hide Stored, Process, Run, NewPeak, RemoveFirst, InsertPeak;
    aim.ProcessObject(objects, 0);
    peaks := aim.GetCurrentStrainPeaks();
  }

  method EvaluatedSkill(setup: Setup) returns (aim: Aim)
    ensures fresh(aim) && aim.Valid() && aim.setup == setup
    ensures aim.Sections() == START && aim.Finished() == EMPTY && aim.finalPeak == Some(NewPeak(0.0, 0.0))
  {
    hide NewPeak, RemoveFirst;
    aim := new Aim(setup);
    var peaks := aim.GetCurrentStrainPeaks();
  }

  lemma FirstObject(setup: Setup, objects: seq<AimObject>)
    requires objects != []
    ensures var c := Begin(setup, START, objects[0]);
      && Process(setup, START, objects, 0) == (c, []) && Run(setup, objects, 1).cursor == c
      && Stored(setup, objects, 1) == EMPTY && NewPeak(c.peak, c.end - c.begin) != NewPeak(0.0, 0.0)
  {
    FirstSectionLength(StrainValue(setup, 0.0, objects[0]));
    hide NewPeak;
    assert Run(setup, objects, 0) == Progress(START, [], []);
    assert Run(setup, objects, 1).sections == [] + [];
  }

  lemma FirstSectionLength(peak: real)
    ensures NewPeak(peak, MAX_SECTION_LENGTH) != NewPeak(0.0, 0.0)
  {
    assert NewPeak(peak, MAX_SECTION_LENGTH).sectionLength == 400;
    assert NewPeak(0.0, 0.0).sectionLength == 0;
  }

  /** Only a saved section changes the bounds or the peak of the current one. */
  lemma NothingSaved(setup: Setup, c: Cursor, objects: seq<AimObject>, idx: nat)
    requires 0 < idx < |objects|
    ensures var (c', saved) := Process(setup, c, objects, idx);
      saved == [] ==> Current(c') == Current(c)
  {}

  /** `partition_point`: how many peaks at the front are larger. */
  method PartitionPoint(peaks: seq<StrainPeak>, value: real) returns (index: nat)
    requires Descending(peaks)
    ensures index <= |peaks|
    ensures forall i | 0 <= i < index :: peaks[i].value > value
    ensures forall i | index <= i < |peaks| :: peaks[i].value <= value
  {
    index := 0;
    var high := |peaks|;
    while index < high
      invariant index <= high <= |peaks|
      invariant forall i | 0 <= i < index :: peaks[i].value > value
      invariant forall i | high <= i < |peaks| :: peaks[i].value <= value
    {
      var middle := (index + high) / 2;
      if peaks[middle].value > value { index := middle + 1; } else { high := middle; }
    }
  }
}
