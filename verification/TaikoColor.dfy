/**
 osu!taiko's colour encoding: objects are grouped into streaks, streaks into alternating patterns,
 and those into repeating patterns.
 */
module TaikoColor {
  import opened HitResults

  datatype HitType = Center | Rim | NonHit

  /** `noteIdx` counts the hits before the object; it stays 0 for what is not a hit. */
  datatype TaikoObject = TaikoObject(idx: nat, hitType: HitType, noteIdx: nat) {
    predicate IsHit() {
      !hitType.NonHit?
    }
  }

  datatype TaikoObjects = TaikoObjects(objects: seq<TaikoObject>, noteObjects: seq<TaikoObject>) {
    /** `TaikoDifficultyObject::new` together with `push`. */
    function Push(hitType: HitType): TaikoObjects {
      var o := TaikoObject(|objects|, hitType, if hitType.NonHit? then 0 else |noteObjects|);
      TaikoObjects(objects + [o], if hitType.NonHit? then noteObjects else noteObjects + [o])
    }

    /** `previous_note(curr, 0)`. */
    function PreviousNote(curr: TaikoObject): Option<TaikoObject> {
      if curr.noteIdx == 0 || curr.noteIdx > |noteObjects| then None else Some(noteObjects[curr.noteIdx - 1])
    }
  }

  function Build(types: seq<HitType>): TaikoObjects {
    if types == [] then TaikoObjects([], []) else Build(types[..|types| - 1]).Push(types[|types| - 1])
  }

  /** The last hit among the first `n` objects. */
  function LastHit(objects: seq<TaikoObject>, n: nat): Option<TaikoObject>
    requires n <= |objects|
  {
    if n == 0 then None
    else if objects[n - 1].IsHit() then Some(objects[n - 1]) else LastHit(objects, n - 1)
  }

  ghost predicate Built(data: TaikoObjects) {
    && (forall i | 0 <= i < |data.objects| :: data.objects[i].idx == i)
    && (forall i | 0 <= i < |data.objects| :: PreviousIsLastHit(data, i))
  }

  ghost predicate PreviousIsLastHit(data: TaikoObjects, i: nat)
    requires i < |data.objects|
  {
    data.PreviousNote(data.objects[i]) == if data.objects[i].IsHit() then LastHit(data.objects, i) else None
  }

  lemma {:induction false} LastHitPrefix(a: seq<TaikoObject>, b: seq<TaikoObject>, n: nat)
    requires n <= |a| && a <= b
    ensures LastHit(a, n) == LastHit(b, n)
  {
    if n > 0 {
      LastHitPrefix(a, b, n - 1);
    }
  }

  ghost predicate NotesFollow(data: TaikoObjects) {
    && (forall i | 0 <= i < |data.objects| :: data.objects[i].noteIdx <= |data.noteObjects|)
    && LastHit(data.objects, |data.objects|) ==
       if data.noteObjects == [] then None else Some(data.noteObjects[|data.noteObjects| - 1])
  }

  lemma {:induction false} BuildBuilds(types: seq<HitType>)
    ensures Built(Build(types)) && NotesFollow(Build(types)) && |Build(types).objects| == |types|
  {
    if types != [] {
      hide LastHit;
      BuildBuilds(types[..|types| - 1]);
      PushBuilds(Build(types[..|types| - 1]), types[|types| - 1]);
    } else {
      assert LastHit([], 0) == None;
    }
  }

  lemma PushBuilds(data: TaikoObjects, hitType: HitType)
    requires Built(data) && NotesFollow(data)
    ensures Built(data.Push(hitType)) && NotesFollow(data.Push(hitType))
  {
    var after := data.Push(hitType);
    forall i | 0 <= i < |after.objects|
      ensures PreviousIsLastHit(after, i)
    {
      LastHitPrefix(data.objects, after.objects, if i < |data.objects| then i else |data.objects|);
      if i < |data.objects| {
        assert PreviousIsLastHit(data, i);
        assert after.objects[i] == data.objects[i];
      }
    }
    LastHitPrefix(data.objects, after.objects, |data.objects|);
  }

  // ---------------------------------------------------------------------------------------------
  // Streaks

  datatype MonoStreak = MonoStreak(hitObjects: seq<TaikoObject>) {
    function RunLen(): nat {
      |hitObjects|
    }

    /** Only the first object may be no hit, and all hits have the same colour. */
    ghost predicate SingleColored() {
      && hitObjects != []
      && (forall k | 0 < k < |hitObjects| ::
            hitObjects[k].IsHit() && hitObjects[k].hitType == hitObjects[|hitObjects| - 1].hitType)
      && (hitObjects[0].IsHit() ==> hitObjects[0].hitType == hitObjects[|hitObjects| - 1].hitType)
    }
  }

  function ObjectsOf(streaks: seq<MonoStreak>): seq<TaikoObject> {
    if streaks == [] then [] else streaks[0].hitObjects + ObjectsOf(streaks[1..])
  }

  lemma {:induction false} ObjectsConcat(a: seq<MonoStreak>, b: seq<MonoStreak>)
    ensures ObjectsOf(a + b) == ObjectsOf(a) + ObjectsOf(b)
  {
    if a == [] {
      assert a + b == b;
    } else {
      assert (a + b)[1..] == a[1..] + b;
      ObjectsConcat(a[1..], b);
    }
  }

  /** An object starts a streak unless the note before it has the same type. */
  predicate StartsStreak(data: TaikoObjects, i: nat)
    requires i < |data.objects|
  {
    var previous := data.PreviousNote(data.objects[i]);
    i == 0 || previous.None? || previous.value.hitType != data.objects[i].hitType
  }

  function Extended(streaks: seq<MonoStreak>, o: TaikoObject): seq<MonoStreak>
    requires streaks != []
  {
    var n := |streaks| - 1;
    streaks[..n] + [MonoStreak(streaks[n].hitObjects + [o])]
  }

  /** The streaks of the first `n` objects. */
  function Streaks(data: TaikoObjects, n: nat): (s: seq<MonoStreak>)
    requires n <= |data.objects|
    ensures s == [] <==> n == 0
  {
    if n == 0 then []
    else if StartsStreak(data, n - 1) then Streaks(data, n - 1) + [MonoStreak([data.objects[n - 1]])]
    else Extended(Streaks(data, n - 1), data.objects[n - 1])
  }

  lemma ExtendedObjects(streaks: seq<MonoStreak>, o: TaikoObject)
    requires streaks != []
    ensures ObjectsOf(Extended(streaks, o)) == ObjectsOf(streaks) + [o]
  {
    var n := |streaks| - 1;
    assert streaks == streaks[..n] + [streaks[n]];
    ObjectsConcat(streaks[..n], [streaks[n]]);
    ObjectsConcat(streaks[..n], [MonoStreak(streaks[n].hitObjects + [o])]);
    SingleStreak(streaks[n]);
    SingleStreak(MonoStreak(streaks[n].hitObjects + [o]));
  }

  lemma AddedObjects(streaks: seq<MonoStreak>, o: TaikoObject)
    ensures ObjectsOf(streaks + [MonoStreak([o])]) == ObjectsOf(streaks) + [o]
  {
    ObjectsConcat(streaks, [MonoStreak([o])]);
    SingleStreak(MonoStreak([o]));
  }

  lemma SingleStreak(s: MonoStreak)
    ensures ObjectsOf([s]) == s.hitObjects
  {
    assert [s][1..] == [];
    assert ObjectsOf([]) == [];
  }

  lemma StreaksUnfold(data: TaikoObjects, n: nat)
    requires 0 < n <= |data.objects|
    ensures Streaks(data, n) ==
      if StartsStreak(data, n - 1) then Streaks(data, n - 1) + [MonoStreak([data.objects[n - 1]])]
      else Extended(Streaks(data, n - 1), data.objects[n - 1])
  {}

  lemma FirstStarts(data: TaikoObjects)
    requires data.objects != []
    ensures StartsStreak(data, 0)
  {}

  lemma StreaksStep(data: TaikoObjects, n: nat)
    requires 0 < n <= |data.objects|
    ensures ObjectsOf(Streaks(data, n)) == ObjectsOf(Streaks(data, n - 1)) + [data.objects[n - 1]]
  {
    hide ObjectsOf, Extended, StartsStreak;
    FirstStarts(data);
    if StartsStreak(data, n - 1) {
      AddedObjects(Streaks(data, n - 1), data.objects[n - 1]);
    } else {
      ExtendedObjects(Streaks(data, n - 1), data.objects[n - 1]);
    }
  }

  lemma NoStreaks(data: TaikoObjects)
    ensures Streaks(data, 0) == [] && ObjectsOf([]) == data.objects[..0]
  {}

  lemma TakeOne(objects: seq<TaikoObject>, n: nat)
    requires 0 < n <= |objects|
    ensures objects[..n] == objects[..n - 1] + [objects[n - 1]]
  {}

  /** No object is lost, whatever the objects are. */
  lemma {:induction false} StreaksLossless(data: TaikoObjects, n: nat)
    requires n <= |data.objects|
    ensures ObjectsOf(Streaks(data, n)) == data.objects[..n]
  {
    hide ObjectsOf, Streaks, StartsStreak, Extended;
    if n == 0 {
      NoStreaks(data);
    } else {
      StreaksLossless(data, n - 1);
      StreaksStep(data, n);
      TakeOne(data.objects, n);
    }
  }

  ghost predicate AllSingleColored(streaks: seq<MonoStreak>) {
    forall k | 0 <= k < |streaks| :: streaks[k].SingleColored()
  }

  ghost predicate EndsWith(streaks: seq<MonoStreak>, o: TaikoObject) {
    && streaks != [] && var last := streaks[|streaks| - 1].hitObjects;
    && last != [] && last[|last| - 1] == o && (!o.IsHit() ==> |last| == 1)
  }

  lemma ExtendedColored(data: TaikoObjects, streaks: seq<MonoStreak>, i: nat)
    requires Built(data) && 0 < i < |data.objects| && !StartsStreak(data, i)
    requires AllSingleColored(streaks) && EndsWith(streaks, data.objects[i - 1])
    ensures AllSingleColored(Extended(streaks, data.objects[i]))
      && EndsWith(Extended(streaks, data.objects[i]), data.objects[i])
  {
    var n := |streaks| - 1;
    assert streaks[n].SingleColored() && PreviousIsLastHit(data, i);
    var r := Extended(streaks, data.objects[i]);
    assert r[n].SingleColored();
  }

  lemma AddedColored(streaks: seq<MonoStreak>, o: TaikoObject)
    requires AllSingleColored(streaks)
    ensures AllSingleColored(streaks + [MonoStreak([o])]) && EndsWith(streaks + [MonoStreak([o])], o)
  {
    assert MonoStreak([o]).SingleColored();
  }

  lemma NoneColored(data: TaikoObjects)
    ensures AllSingleColored(Streaks(data, 0))
  {}

  /** Streaks are single-coloured, up to one object at the start that is no hit. */
  lemma {:induction false} StreaksColored(data: TaikoObjects, n: nat)
    requires Built(data) && n <= |data.objects|
    ensures AllSingleColored(Streaks(data, n))
    ensures n > 0 ==> EndsWith(Streaks(data, n), data.objects[n - 1])
  {
    hide Built, Streaks, StartsStreak, Extended, AllSingleColored, EndsWith;
    if n == 0 {
      NoneColored(data);
    } else {
      StreaksColored(data, n - 1);
      FirstStarts(data);
      StreaksUnfold(data, n);
      if StartsStreak(data, n - 1) {
        AddedColored(Streaks(data, n - 1), data.objects[n - 1]);
      } else {
        ExtendedColored(data, Streaks(data, n - 1), n - 1);
      }
    }
  }

  ghost predicate AllHits(data: TaikoObjects) {
    forall i | 0 <= i < |data.objects| :: data.objects[i].IsHit()
  }

  ghost predicate ColorsAlternate(streaks: seq<MonoStreak>) {
    forall k | 0 <= k < |streaks| - 1 && streaks[k].hitObjects != [] && streaks[k + 1].hitObjects != [] ::
      streaks[k].hitObjects[0].hitType != streaks[k + 1].hitObjects[0].hitType
  }

  /** A new streak has another colour than the one before. */
  lemma ColorChanges(data: TaikoObjects, i: nat)
    requires Built(data) && AllHits(data) && 0 < i < |data.objects| && StartsStreak(data, i)
    ensures var before := Streaks(data, i); var last := before[|before| - 1].hitObjects;
      last != [] && last[0].hitType != data.objects[i].hitType
  {
    hide Streaks, StartsStreak;
    StreaksColored(data, i);
    PreviousDiffers(data, i);
    var before := Streaks(data, i);
    assert before[|before| - 1].SingleColored();
    FirstIsHit(data, i, |before| - 1);
  }

  lemma PreviousDiffers(data: TaikoObjects, i: nat)
    requires Built(data) && AllHits(data) && 0 < i < |data.objects| && StartsStreak(data, i)
    ensures data.objects[i - 1].hitType != data.objects[i].hitType
  {
    assert PreviousIsLastHit(data, i);
  }

  lemma AddedAlternates(streaks: seq<MonoStreak>, o: TaikoObject)
    requires ColorsAlternate(streaks)
    requires streaks != [] ==> var last := streaks[|streaks| - 1].hitObjects; last != [] && last[0].hitType != o.hitType
    ensures ColorsAlternate(streaks + [MonoStreak([o])])
  {}

  lemma ExtendedAlternates(streaks: seq<MonoStreak>, o: TaikoObject)
    requires ColorsAlternate(streaks) && streaks != [] && streaks[|streaks| - 1].hitObjects != []
    ensures ColorsAlternate(Extended(streaks, o))
  {}

  /** Where all objects are hits, streaks are as long as they can be: neighbours differ in colour. */
  lemma {:induction false} StreaksMaximal(data: TaikoObjects, n: nat)
    requires Built(data) && AllHits(data) && n <= |data.objects|
    ensures ColorsAlternate(Streaks(data, n))
  {
    hide Streaks, Built, AllHits, StartsStreak, ColorsAlternate, Extended, AllSingleColored, MonoStreak.SingleColored;
    if n == 0 {
      NoneAlternates(data);
    } else {
      var before, o := Streaks(data, n - 1), data.objects[n - 1];
      StreaksMaximal(data, n - 1);
      StreaksColored(data, n - 1);
      FirstStarts(data);
      StreaksUnfold(data, n);
      if StartsStreak(data, n - 1) {
        if n > 1 {
          ColorChanges(data, n - 1);
        }
        AddedAlternates(before, o);
      } else {
        ExtendedAlternates(before, o);
      }
    }
  }

  lemma NoneAlternates(data: TaikoObjects)
    ensures ColorsAlternate(Streaks(data, 0))
  {}

  lemma FirstIsHit(data: TaikoObjects, n: nat, k: nat)
    requires AllHits(data) && n <= |data.objects| && k < |Streaks(data, n)|
    requires Streaks(data, n)[k].hitObjects != []
    ensures Streaks(data, n)[k].hitObjects[0].IsHit()
  {
    var streaks := Streaks(data, n);
    StreaksLossless(data, n);
    assert streaks == streaks[..k] + streaks[k..];
    ObjectsConcat(streaks[..k], streaks[k..]);
    var objects := ObjectsOf(streaks[..k]) + ObjectsOf(streaks[k..]);
    assert objects[|ObjectsOf(streaks[..k])|] == streaks[k].hitObjects[0];
  }

  // ---------------------------------------------------------------------------------------------
  // The type of a streak

  /** The streak's type, which is that of its first object, is the colour of all its hits. */
  ghost predicate TypeIsColor(s: MonoStreak) {
    forall k | 0 <= k < |s.hitObjects| && s.hitObjects[k].IsHit() :: HitTypeOf(s) == Some(s.hitObjects[k].hitType)
  }

  ghost predicate TypesAreColors(streaks: seq<MonoStreak>) {
    forall k | 0 <= k < |streaks| :: TypeIsColor(streaks[k])
  }

  /** Right after something that is no hit, a hit goes on in the colour of the last hit before. */
  predicate ResumesColor(objects: seq<TaikoObject>, i: nat)
    requires i < |objects|
  {
    && i > 0 && !objects[i - 1].IsHit() && objects[i].IsHit()
    && LastHit(objects, i).Some? && LastHit(objects, i).value.hitType == objects[i].hitType
  }

  lemma ResumesIsNoStart(data: TaikoObjects, i: nat)
    requires Built(data) && i < |data.objects| && ResumesColor(data.objects, i)
    ensures !StartsStreak(data, i)
  {
    assert PreviousIsLastHit(data, i);
  }

  /** Extending the last streak by an object that starts none. */
  lemma ExtendedType(data: TaikoObjects, last: MonoStreak, i: nat)
    requires Built(data) && 0 < i < |data.objects| && !StartsStreak(data, i)
    requires EndsWith([last], data.objects[i - 1])
    ensures TypeIsColor(MonoStreak(last.hitObjects + [data.objects[i]])) <==>
      TypeIsColor(last) && !ResumesColor(data.objects, i)
  {
    assert PreviousIsLastHit(data, i);
    var o := data.objects[i];
    var longer := MonoStreak(last.hitObjects + [o]);
    assert HitTypeOf(longer) == HitTypeOf(last);
    assert longer.hitObjects[|last.hitObjects|] == o;
    assert longer.hitObjects[|last.hitObjects| - 1] == data.objects[i - 1];
    assert forall k | 0 <= k < |last.hitObjects| :: longer.hitObjects[k] == last.hitObjects[k];
  }

  lemma StreakTypesStep(data: TaikoObjects, i: nat)
    requires Built(data) && i < |data.objects|
    ensures TypesAreColors(Streaks(data, i + 1)) <==> TypesAreColors(Streaks(data, i)) && !ResumesColor(data.objects, i)
  {
    hide TypeIsColor, Built, ResumesColor;
    var before, o := Streaks(data, i), data.objects[i];
    FirstStarts(data);
    if StartsStreak(data, i) {
      assert TypeIsColor(MonoStreak([o])) by { SingleType(o); }
      assert !ResumesColor(data.objects, i) by { if ResumesColor(data.objects, i) { ResumesIsNoStart(data, i); } }
      PushTypes(before, MonoStreak([o]));
    } else {
      var n := |before| - 1;
      StreaksColored(data, i);
      ExtendedType(data, before[n], i);
      assert before == before[..n] + [before[n]];
      PushTypes(before[..n], before[n]);
      PushTypes(before[..n], MonoStreak(before[n].hitObjects + [o]));
    }
  }

  lemma SingleType(o: TaikoObject)
    ensures TypeIsColor(MonoStreak([o]))
  {}

  lemma PushTypes(streaks: seq<MonoStreak>, s: MonoStreak)
    ensures TypesAreColors(streaks + [s]) <==> TypesAreColors(streaks) && TypeIsColor(s)
  {
    hide TypeIsColor;
    if TypesAreColors(streaks + [s]) {
      assert (streaks + [s])[|streaks|] == s;
      forall k | 0 <= k < |streaks|
        ensures TypeIsColor(streaks[k])
      {
        assert (streaks + [s])[k] == streaks[k];
      }
    }
  }

  predicate NoneResumes(objects: seq<TaikoObject>, n: nat)
    requires n <= |objects|
  {
    forall i: nat | i < n :: !ResumesColor(objects, i)
  }

  lemma NoneResumesStep(objects: seq<TaikoObject>, n: nat)
    requires n < |objects|
    ensures NoneResumes(objects, n + 1) <==> NoneResumes(objects, n) && !ResumesColor(objects, n)
  {
    hide ResumesColor;
  }

  lemma NothingTyped(data: TaikoObjects)
    ensures TypesAreColors(Streaks(data, 0)) && NoneResumes(data.objects, 0)
  {}

  /** A streak's type is the colour of its hits, for all streaks, exactly if no hit resumes the colour
      of the last one right after something that is no hit. */
  lemma {:induction false} StreakTypes(data: TaikoObjects, n: nat)
    requires Built(data) && n <= |data.objects|
    ensures TypesAreColors(Streaks(data, n)) <==> NoneResumes(data.objects, n)
  {
    hide Streaks, TypesAreColors, NoneResumes, ResumesColor, Built;
    if n == 0 {
      NothingTyped(data);
    } else {
      StreakTypes(data, n - 1);
      StreakTypesStep(data, n - 1);
      NoneResumesStep(data.objects, n - 1);
    }
  }

  const EXAMPLE: TaikoObjects :=
    TaikoObjects([TaikoObject(0, Center, 0), TaikoObject(1, NonHit, 0), TaikoObject(2, Center, 1)],
                 [TaikoObject(0, Center, 0), TaikoObject(2, Center, 1)])

  lemma ExampleBuilt()
    ensures Build([Center, NonHit, Center]) == EXAMPLE
  {
    var types := [Center, NonHit, Center];
    assert types[..2] == [Center, NonHit] && types[..2][..1] == [Center] && types[..2][..1][..0] == [];
    assert Build([]) == TaikoObjects([], []);
    assert Build([Center]) == Build([]).Push(Center);
    assert Build([Center, NonHit]) == Build([Center]).Push(NonHit);
  }

  /** After a hit, a drum roll and another hit of the same colour, the second streak consists of the
      roll and the hit, and its type is not the hit's colour. */
  lemma RollHidesColor()
    ensures var data := Build([Center, NonHit, Center]);
      var streaks := Streaks(data, |data.objects|);
      && |streaks| == 2 && |streaks[1].hitObjects| == 2 && HitTypeOf(streaks[1]) == Some(NonHit)
      && streaks[1].hitObjects[1].hitType == Center
  {
    ExampleBuilt();
    hide Build;
    var a, b, c := EXAMPLE.objects[0], EXAMPLE.objects[1], EXAMPLE.objects[2];
    assert StartsStreak(EXAMPLE, 0) && StartsStreak(EXAMPLE, 1) && !StartsStreak(EXAMPLE, 2);
    hide StartsStreak;
    assert Streaks(EXAMPLE, 0) == [];
    assert Streaks(EXAMPLE, 1) == [] + [MonoStreak([a])];
    assert Streaks(EXAMPLE, 2) == [MonoStreak([a]), MonoStreak([b])];
    assert Streaks(EXAMPLE, 2)[..1] == [MonoStreak([a])] && [b] + [c] == [b, c];
    assert Streaks(EXAMPLE, 3) == [MonoStreak([a]), MonoStreak([b, c])];
  }

  method EncodeMonoStreaks(data: TaikoObjects) returns (monoStreaks: seq<MonoStreak>)
    ensures monoStreaks == Streaks(data, |data.objects|)
  {
    if data.objects == [] {
      return [];
    }
    monoStreaks := [MonoStreak([data.objects[0]])];
    assert Streaks(data, 1) == [] + monoStreaks;
    for i := 1 to |data.objects|
      invariant monoStreaks == Streaks(data, i)
    {
      hide Extended;
      var previous := data.PreviousNote(data.objects[i]);
      var starts := previous.None? || data.objects[i].hitType != previous.value.hitType;
      assert starts == StartsStreak(data, i);
      hide StartsStreak;
      monoStreaks := NextObject(monoStreaks, data.objects[i], starts);
    }
  }

  /** One round of the loop. */
  method NextObject(streaks: seq<MonoStreak>, o: TaikoObject, starts: bool) returns (after: seq<MonoStreak>)
    requires streaks != []
    ensures after == if starts then streaks + [MonoStreak([o])] else Extended(streaks, o)
  {
    after := streaks;
    if starts {
      after := after + [MonoStreak([])];
      assert [] + [o] == [o];
    }
    var last := |after| - 1;
    after := after[..last] + [MonoStreak(after[last].hitObjects + [o])];
  }

  // ---------------------------------------------------------------------------------------------
  // Alternating patterns

  datatype AlternatingMonoPattern = AlternatingMonoPattern(monoStreaks: seq<MonoStreak>) {
    ghost predicate SameLength() {
      monoStreaks != [] && forall k | 0 <= k < |monoStreaks| :: monoStreaks[k].RunLen() == monoStreaks[0].RunLen()
    }

    predicate HasIdenticalMonoLen(other: AlternatingMonoPattern)
      requires monoStreaks != [] && other.monoStreaks != []
    {
      monoStreaks[0].RunLen() == other.monoStreaks[0].RunLen()
    }

    predicate IsRepetitionOf(other: AlternatingMonoPattern)
      requires monoStreaks != [] && other.monoStreaks != []
    {
      && HasIdenticalMonoLen(other) && |monoStreaks| == |other.monoStreaks|
      && HitTypeOf(monoStreaks[0]) == HitTypeOf(other.monoStreaks[0])
    }
  }

  function HitTypeOf(s: MonoStreak): Option<HitType> {
    if s.hitObjects == [] then None else Some(s.hitObjects[0].hitType)
  }

  function StreaksOf(patterns: seq<AlternatingMonoPattern>): seq<MonoStreak> {
    if patterns == [] then [] else patterns[0].monoStreaks + StreaksOf(patterns[1..])
  }

  lemma {:induction false} StreaksConcat(a: seq<AlternatingMonoPattern>, b: seq<AlternatingMonoPattern>)
    ensures StreaksOf(a + b) == StreaksOf(a) + StreaksOf(b)
  {
    if a == [] {
      assert a + b == b;
    } else {
      assert (a + b)[1..] == a[1..] + b;
      StreaksConcat(a[1..], b);
    }
  }

  lemma SinglePattern(p: AlternatingMonoPattern)
    ensures StreaksOf([p]) == p.monoStreaks
  {
    assert [p][1..] == [];
    assert StreaksOf([]) == [];
  }

  /** The grouping of streaks by run length: nothing lost, no empty group, equal lengths within a
      group, different ones in neighbouring groups. */
  ghost predicate Alternation(streaks: seq<MonoStreak>, patterns: seq<AlternatingMonoPattern>) {
    && StreaksOf(patterns) == streaks
    && (forall k | 0 <= k < |patterns| :: patterns[k].SameLength())
    && (forall k | 0 <= k < |patterns| - 1 :: LengthsDiffer(patterns, k))
  }

  ghost predicate LengthsDiffer(patterns: seq<AlternatingMonoPattern>, k: nat)
    requires k < |patterns| - 1
  {
    patterns[k].monoStreaks != [] && patterns[k + 1].monoStreaks != [] ==>
      !patterns[k].HasIdenticalMonoLen(patterns[k + 1])
  }

  lemma StartPattern(streaks: seq<MonoStreak>, patterns: seq<AlternatingMonoPattern>, s: MonoStreak)
    requires Alternation(streaks, patterns)
    requires patterns != [] ==> patterns[|patterns| - 1].monoStreaks[0].RunLen() != s.RunLen()
    ensures Alternation(streaks + [s], patterns + [AlternatingMonoPattern([s])])
  {
    var r := patterns + [AlternatingMonoPattern([s])];
    StreaksConcat(patterns, [AlternatingMonoPattern([s])]);
    SinglePattern(AlternatingMonoPattern([s]));
    forall k | 0 <= k < |r| - 1
      ensures LengthsDiffer(r, k)
    {
      assert k < |patterns| - 1 ==> LengthsDiffer(patterns, k);
    }
  }

  lemma ContinuePattern(streaks: seq<MonoStreak>, patterns: seq<AlternatingMonoPattern>, s: MonoStreak)
    requires Alternation(streaks, patterns) && patterns != []
    requires patterns[|patterns| - 1].monoStreaks[0].RunLen() == s.RunLen()
    ensures var n := |patterns| - 1;
      Alternation(streaks + [s], patterns[..n] + [AlternatingMonoPattern(patterns[n].monoStreaks + [s])])
  {
    var n := |patterns| - 1;
    var last, longer := patterns[n], AlternatingMonoPattern(patterns[n].monoStreaks + [s]);
    var r := patterns[..n] + [longer];
    assert patterns == patterns[..n] + [last];
    StreaksConcat(patterns[..n], [last]);
    StreaksConcat(patterns[..n], [longer]);
    SinglePattern(last);
    SinglePattern(longer);
    forall k | 0 <= k < |r| - 1
      ensures LengthsDiffer(r, k)
    {
      assert LengthsDiffer(patterns, k);
    }
  }

  method EncodeAlternatingMonoPattern(data: seq<MonoStreak>) returns (monoPatterns: seq<AlternatingMonoPattern>)
    ensures Alternation(data, monoPatterns)
  {
    if data == [] {
      return [];
    }
    var prevRunLen := data[0].RunLen();
    monoPatterns := [AlternatingMonoPattern([data[0]])];
    SinglePattern(monoPatterns[0]);
    assert data[..1] == [data[0]];
    for i := 1 to |data|
      invariant Alternation(data[..i], monoPatterns) && monoPatterns != []
      invariant monoPatterns[|monoPatterns| - 1].monoStreaks[0].RunLen() == prevRunLen
    {
      hide Alternation, MonoStreak.RunLen;
      assert data[..i + 1] == data[..i] + [data[i]];
      monoPatterns := NextStreak(data[..i], monoPatterns, data[i], prevRunLen);
      prevRunLen := data[i].RunLen();
    }
    assert data[..|data|] == data;
  }

  /** One round of the loop. */
  method NextStreak(ghost streaks: seq<MonoStreak>, patterns: seq<AlternatingMonoPattern>, mono: MonoStreak,
                    prevRunLen: nat)
    returns (after: seq<AlternatingMonoPattern>)
    requires Alternation(streaks, patterns) && patterns != []
    requires patterns[|patterns| - 1].monoStreaks[0].RunLen() == prevRunLen
    ensures Alternation(streaks + [mono], after) && after != []
    ensures after[|after| - 1].monoStreaks != [] && after[|after| - 1].monoStreaks[0].RunLen() == mono.RunLen()
  {
    after := patterns;
    if mono.RunLen() != prevRunLen {
      after := after + [AlternatingMonoPattern([])];
      StartPattern(streaks, patterns, mono);
    } else {
      ContinuePattern(streaks, patterns, mono);
    }
    var last := |after| - 1;
    assert [] + [mono] == [mono];
    assert after[..last] == if mono.RunLen() != prevRunLen then patterns else patterns[..last];
    after := after[..last] + [AlternatingMonoPattern(after[last].monoStreaks + [mono])];
  }
}
