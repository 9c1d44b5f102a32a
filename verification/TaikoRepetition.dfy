/** What it means that a pattern repeats another one. */
module TaikoRepetition {
  import opened TaikoColor
  import opened TaikoPatterns
  import HitResults

  function Types(objects: seq<TaikoObject>): (t: seq<HitType>)
    ensures |t| == |objects| && forall i | 0 <= i < |objects| :: t[i] == objects[i].hitType
  {
    if objects == [] then [] else [objects[0].hitType] + Types(objects[1..])
  }

  function Other(t: HitType): HitType {
    if t.Center? then Rim else Center
  }

  /** `length` times `t`. */
  function Same(t: HitType, length: nat): (s: seq<HitType>)
    ensures |s| == length && forall i | 0 <= i < length :: s[i] == t
  {
    if length == 0 then [] else [t] + Same(t, length - 1)
  }

  /** `count` runs of one length, in turns of one colour and the other. */
  function InTurns(t: HitType, length: nat, count: nat): (s: seq<HitType>)
    ensures count > 0 ==> |s| >= length
    decreases count
  {
    if count == 0 then [] else Same(t, length) + InTurns(Other(t), length, count - 1)
  }

  /** The runs of such a sequence can be read off it. */
  lemma {:induction false} InTurnsInjective(t: HitType, length: nat, count: nat, u: HitType, length': nat, count': nat)
    requires !t.NonHit? && !u.NonHit? && length > 0 && length' > 0 && count > 0 && count' > 0
    requires InTurns(t, length, count) == InTurns(u, length', count')
    ensures t == u && length == length' && count == count'
    decreases count
  {
    FirstRun(t, length, count);
    FirstRun(u, length', count');
    var s := InTurns(t, length, count);
    assert s[0] == t && s[0] == u;
    if count > 1 && count' > 1 {
      assert length == length';
      assert s[length..] == InTurns(Other(t), length, count - 1);
      assert s[length..] == InTurns(Other(t), length, count' - 1);
      InTurnsInjective(Other(t), length, count - 1, Other(t), length, count' - 1);
    }
  }

  lemma FirstRun(t: HitType, length: nat, count: nat)
    requires length > 0 && count > 0
    ensures var s := InTurns(t, length, count);
      && (forall i | 0 <= i < length :: s[i] == t)
      && (count == 1 ==> |s| == length)
      && (count > 1 ==> |s| > length && s[length] == Other(t))
  {
    if count > 1 {
      var rest := InTurns(Other(t), length, count - 1);
      assert rest[0] == Other(t);
    } else {
      assert InTurns(Other(t), length, 0) == [];
    }
  }

  ghost predicate Single(s: MonoStreak, t: HitType, length: nat) {
    |s.hitObjects| == length && forall i | 0 <= i < length :: s.hitObjects[i].hitType == t
  }

  /** Streaks of one length whose colours take turns. */
  ghost predicate Regular(streaks: seq<MonoStreak>, t: HitType, length: nat)
    decreases |streaks|
  {
    streaks != [] ==> Single(streaks[0], t, length) && Regular(streaks[1..], Other(t), length)
  }

  lemma {:induction false} RegularTypes(streaks: seq<MonoStreak>, t: HitType, length: nat)
    requires Regular(streaks, t, length)
    ensures Types(ObjectsOf(streaks)) == InTurns(t, length, |streaks|)
    decreases |streaks|
  {
    if streaks != [] {
      RegularTypes(streaks[1..], Other(t), length);
      TypesConcat(streaks[0].hitObjects, ObjectsOf(streaks[1..]));
      assert Types(streaks[0].hitObjects) == Same(t, length);
    }
  }

  lemma TypesConcat(a: seq<TaikoObject>, b: seq<TaikoObject>)
    ensures Types(a + b) == Types(a) + Types(b)
  {}

  /** What holds of the streaks of maps that have hits only. */
  ghost predicate HitStreaks(streaks: seq<MonoStreak>) {
    && AllSingleColored(streaks) && ColorsAlternate(streaks)
    && forall k | 0 <= k < |streaks| :: streaks[k].hitObjects != [] && streaks[k].hitObjects[0].IsHit()
  }

  lemma {:induction false} HitsAreRegular(streaks: seq<MonoStreak>, length: nat)
    requires HitStreaks(streaks) && streaks != []
    requires forall k | 0 <= k < |streaks| :: streaks[k].RunLen() == length
    ensures Regular(streaks, streaks[0].hitObjects[0].hitType, length)
    decreases |streaks|
  {
    var t := streaks[0].hitObjects[0].hitType;
    assert streaks[0].SingleColored();
    assert Single(streaks[0], t, length);
    if |streaks| > 1 {
      TailStreaks(streaks);
      HitsAreRegular(streaks[1..], length);
      assert streaks[1].hitObjects[0].hitType == Other(t);
    }
  }

  lemma TailStreaks(streaks: seq<MonoStreak>)
    requires HitStreaks(streaks) && streaks != []
    ensures HitStreaks(streaks[1..])
  {
    PartStreaks(streaks[..1], streaks[1..], []);
    assert streaks == streaks[..1] + streaks[1..] + [];
  }

  lemma PartStreaks(a: seq<MonoStreak>, b: seq<MonoStreak>, c: seq<MonoStreak>)
    requires HitStreaks(a + b + c)
    ensures HitStreaks(b)
  {
    var all := a + b + c;
    assert forall k | 0 <= k < |b| :: b[k] == all[|a| + k];
    forall k | 0 <= k < |b|
      ensures b[k].SingleColored() && b[k].hitObjects != [] && b[k].hitObjects[0].IsHit()
    {
      assert all[|a| + k].SingleColored();
    }
    forall k | 0 <= k < |b| - 1
      ensures b[k].hitObjects[0].hitType != b[k + 1].hitObjects[0].hitType
    {
      var i := |a| + k;
      assert all[i] == b[k] && all[i + 1] == b[k + 1];
    }
  }

  lemma PatternStreaks(streaks: seq<MonoStreak>, patterns: seq<AlternatingMonoPattern>, k: nat)
    requires Alternation(streaks, patterns) && HitStreaks(streaks) && k < |patterns|
    ensures patterns[k].monoStreaks != [] && HitStreaks(patterns[k].monoStreaks)
    ensures forall i | 0 <= i < |patterns[k].monoStreaks| ::
              patterns[k].monoStreaks[i].RunLen() == patterns[k].monoStreaks[0].RunLen()
  {
    hide HitStreaks;
    assert patterns[k].SameLength();
    assert patterns == patterns[..k] + [patterns[k]] + patterns[k + 1..];
    StreaksConcat(patterns[..k] + [patterns[k]], patterns[k + 1..]);
    StreaksConcat(patterns[..k], [patterns[k]]);
    SinglePattern(patterns[k]);
    PartStreaks(StreaksOf(patterns[..k]), patterns[k].monoStreaks, StreaksOf(patterns[k + 1..]));
  }

  lemma MapStreaks(data: TaikoObjects)
    requires Built(data) && AllHits(data)
    ensures HitStreaks(Streaks(data, |data.objects|))
  {
    hide Built, AllHits, AllSingleColored, ColorsAlternate;
    var n := |data.objects|;
    var streaks := Streaks(data, n);
    StreaksColored(data, n);
    StreaksMaximal(data, n);
    forall k | 0 <= k < |streaks|
      ensures streaks[k].hitObjects != [] && streaks[k].hitObjects[0].IsHit()
    {
      SomeObject(streaks, k);
      FirstIsHit(data, n, k);
    }
  }

  lemma SomeObject(streaks: seq<MonoStreak>, k: nat)
    requires AllSingleColored(streaks) && k < |streaks|
    ensures streaks[k].hitObjects != []
  {
    assert streaks[k].SingleColored();
  }

  lemma RegularRepetition(p: AlternatingMonoPattern, q: AlternatingMonoPattern)
    requires p.monoStreaks != [] && q.monoStreaks != [] && HitStreaks(p.monoStreaks) && HitStreaks(q.monoStreaks)
    requires p.SameLength() && q.SameLength()
    ensures p.IsRepetitionOf(q) <==> Types(ObjectsOf(p.monoStreaks)) == Types(ObjectsOf(q.monoStreaks))
  {
    var t, u := p.monoStreaks[0].hitObjects[0].hitType, q.monoStreaks[0].hitObjects[0].hitType;
    var length, length' := p.monoStreaks[0].RunLen(), q.monoStreaks[0].RunLen();
    HitsAreRegular(p.monoStreaks, length);
    HitsAreRegular(q.monoStreaks, length');
    RegularTypes(p.monoStreaks, t, length);
    RegularTypes(q.monoStreaks, u, length');
    hide Types, InTurns, Regular, ObjectsOf;
    if Types(ObjectsOf(p.monoStreaks)) == Types(ObjectsOf(q.monoStreaks)) {
      InTurnsInjective(t, length, |p.monoStreaks|, u, length', |q.monoStreaks|);
    }
  }

  /** On a map that has hits only, one pattern repeats another exactly if the same sequence of colours is
      hit in both, although only the first streaks and the number of streaks are looked at. */
  lemma RepetitionIsSameTypes(data: TaikoObjects, patterns: seq<AlternatingMonoPattern>, i: nat, j: nat)
    requires Built(data) && AllHits(data) && Alternation(Streaks(data, |data.objects|), patterns)
    requires i < |patterns| && j < |patterns|
    ensures patterns[i].monoStreaks != [] && patterns[j].monoStreaks != []
    ensures patterns[i].IsRepetitionOf(patterns[j]) <==>
      Types(ObjectsOf(patterns[i].monoStreaks)) == Types(ObjectsOf(patterns[j].monoStreaks))
  {
    hide Built, AllHits, HitStreaks;
    MapStreaks(data);
    PatternStreaks(Streaks(data, |data.objects|), patterns, i);
    PatternStreaks(Streaks(data, |data.objects|), patterns, j);
    RegularRepetition(patterns[i], patterns[j]);
  }

  /** The run lengths a group is told by. */
  function Lengths(group: RepeatingHitPatterns): seq<nat>
    requires NonEmpty(group.alternatingMonoPatterns)
  {
    seq(HitResults.Min(2, |group.alternatingMonoPatterns|),
        k requires 0 <= k < |group.alternatingMonoPatterns| =>
          |group.alternatingMonoPatterns[k].monoStreaks[0].hitObjects|)
  }

  lemma SameLengths(a: RepeatingHitPatterns, b: RepeatingHitPatterns)
    requires NonEmpty(a.alternatingMonoPatterns) && NonEmpty(b.alternatingMonoPatterns)
    ensures Repeats(a, b) <==>
      |a.alternatingMonoPatterns| == |b.alternatingMonoPatterns| && Lengths(a) == Lengths(b)
  {
    if Lengths(a) == Lengths(b) && |a.alternatingMonoPatterns| == |b.alternatingMonoPatterns| {
      forall k | 0 <= k < HitResults.Min(2, |a.alternatingMonoPatterns|)
        ensures a.alternatingMonoPatterns[k].HasIdenticalMonoLen(b.alternatingMonoPatterns[k])
      {
        assert Lengths(a)[k] == Lengths(b)[k];
      }
    }
    if Repeats(a, b) {
      forall k | 0 <= k < |Lengths(a)|
        ensures Lengths(a)[k] == Lengths(b)[k]
      {
        assert a.alternatingMonoPatterns[k].HasIdenticalMonoLen(b.alternatingMonoPatterns[k]);
      }
    }
  }
}
