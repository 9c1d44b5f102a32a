/** Telling every osu!taiko object which groups it belongs to. */
module TaikoAssign {
  import opened HitResults
  import opened TaikoColor
  import opened TaikoPatterns

  /** The groups of an object, by their indices: `idx` of the streak, `idx` of the alternating
      pattern, and the repeating pattern. */
  datatype ColorData = ColorData(repeating: nat, alternating: nat, streak: nat)

  ghost predicate InStreak(o: TaikoObject, streaks: seq<MonoStreak>, j: nat) {
    j < |streaks| && o in streaks[j].hitObjects
  }

  ghost predicate InPattern(o: TaikoObject, patterns: seq<AlternatingMonoPattern>, i: nat, j: nat) {
    i < |patterns| && InStreak(o, patterns[i].monoStreaks, j)
  }

  ghost predicate InGroup(o: TaikoObject, groups: seq<RepeatingHitPatterns>, c: ColorData) {
    c.repeating < |groups| && InPattern(o, groups[c.repeating].alternatingMonoPatterns, c.alternating, c.streak)
  }

  /** The objects from `p` on are those of `list`. */
  ghost predicate Continues(objects: seq<TaikoObject>, p: nat, list: seq<TaikoObject>) {
    p + |list| <= |objects| && objects[p..p + |list|] == list
  }

  lemma ContinuesSplit(objects: seq<TaikoObject>, p: nat, a: seq<TaikoObject>, b: seq<TaikoObject>)
    requires Continues(objects, p, a + b)
    ensures Continues(objects, p, a) && Continues(objects, p + |a|, b)
  {
    assert objects[p..p + |a|] == (a + b)[..|a|] == a;
    assert objects[p + |a|..p + |a| + |b|] == (a + b)[|a|..] == b;
  }

  /** Only the entries from `p` to `q` may have changed. */
  twostate predicate Outside(color: array<Option<ColorData>>, p: nat, q: nat)
    reads color
  {
    forall i | 0 <= i < color.Length && !(p <= i < q) :: color[i] == old(color[i])
  }

  ghost predicate Indexed(objects: seq<TaikoObject>) {
    forall i | 0 <= i < |objects| :: objects[i].idx == i
  }

  method AssignStreak(s: MonoStreak, c: ColorData, color: array<Option<ColorData>>, ghost objects: seq<TaikoObject>,
                      ghost p: nat)
    requires Indexed(objects) && color.Length == |objects| && Continues(objects, p, s.hitObjects)
    modifies color
    ensures forall i | p <= i < p + s.RunLen() :: color[i] == Some(c) && objects[i] in s.hitObjects
    ensures Outside(color, p, p + s.RunLen())
  {
    for k := 0 to |s.hitObjects|
      invariant forall i | p <= i < p + k :: color[i] == Some(c)
      invariant Outside(color, p, p + s.RunLen())
    {
      assert s.hitObjects[k] == objects[p + k];
      color[s.hitObjects[k].idx] := Some(c);
    }
    forall i | p <= i < p + s.RunLen()
      ensures objects[i] in s.hitObjects
    {
      assert objects[i] == s.hitObjects[i - p];
    }
  }

  /** All objects from `p` to `q` know their streak within one alternating pattern. */
  ghost predicate StreaksAssigned(objects: seq<TaikoObject>, color: array<Option<ColorData>>, p: nat, q: nat,
                                  r: nat, a: nat, streaks: seq<MonoStreak>)
    requires color.Length == |objects| && q <= |objects|
    reads color
  {
    forall i | p <= i < q :: color[i].Some? && color[i].value.repeating == r && color[i].value.alternating == a
                             && InStreak(objects[i], streaks, color[i].value.streak)
  }

  method AssignStreaks(streaks: seq<MonoStreak>, r: nat, a: nat, color: array<Option<ColorData>>,
                       ghost objects: seq<TaikoObject>, ghost p: nat)
    requires Indexed(objects) && color.Length == |objects| && Continues(objects, p, ObjectsOf(streaks))
    modifies color
    ensures StreaksAssigned(objects, color, p, p + |ObjectsOf(streaks)|, r, a, streaks)
    ensures Outside(color, p, p + |ObjectsOf(streaks)|)
  {
    ghost var end := p + |ObjectsOf(streaks)|;
    ghost var q: nat := p;
    assert streaks[0..] == streaks;
    for j := 0 to |streaks|
      invariant p <= q && q + |ObjectsOf(streaks[j..])| == end && Continues(objects, q, ObjectsOf(streaks[j..]))
      invariant StreaksAssigned(objects, color, p, q, r, a, streaks)
      invariant Outside(color, p, end)
    {
      hide Indexed, Continues;
      assert streaks[j..][1..] == streaks[j + 1..];
      ContinuesSplit(objects, q, streaks[j].hitObjects, ObjectsOf(streaks[j + 1..]));
      AssignStreak(streaks[j], ColorData(r, a, j), color, objects, q);
      q := q + streaks[j].RunLen();
    }
  }

  ghost predicate PatternsAssigned(objects: seq<TaikoObject>, color: array<Option<ColorData>>, p: nat, q: nat,
                                   r: nat, patterns: seq<AlternatingMonoPattern>)
    requires color.Length == |objects| && q <= |objects|
    reads color
  {
    forall i | p <= i < q :: color[i].Some? && color[i].value.repeating == r
                             && InPattern(objects[i], patterns, color[i].value.alternating, color[i].value.streak)
  }

  function ObjectsIn(patterns: seq<AlternatingMonoPattern>): seq<TaikoObject> {
    ObjectsOf(StreaksOf(patterns))
  }

  lemma ObjectsInFirst(patterns: seq<AlternatingMonoPattern>)
    requires patterns != []
    ensures ObjectsIn(patterns) == ObjectsOf(patterns[0].monoStreaks) + ObjectsIn(patterns[1..])
  {
    ObjectsConcat(patterns[0].monoStreaks, StreaksOf(patterns[1..]));
  }

  method AssignPatterns(patterns: seq<AlternatingMonoPattern>, r: nat, color: array<Option<ColorData>>,
                        ghost objects: seq<TaikoObject>, ghost p: nat)
    requires Indexed(objects) && color.Length == |objects| && Continues(objects, p, ObjectsIn(patterns))
    modifies color
    ensures PatternsAssigned(objects, color, p, p + |ObjectsIn(patterns)|, r, patterns)
    ensures Outside(color, p, p + |ObjectsIn(patterns)|)
  {
    ghost var end := p + |ObjectsIn(patterns)|;
    ghost var q: nat := p;
    assert patterns[0..] == patterns;
    for i := 0 to |patterns|
      invariant p <= q && q + |ObjectsIn(patterns[i..])| == end && Continues(objects, q, ObjectsIn(patterns[i..]))
      invariant PatternsAssigned(objects, color, p, q, r, patterns)
      invariant Outside(color, p, end)
    {
      hide Indexed, Continues, InStreak, ObjectsIn;
      assert patterns[i..][1..] == patterns[i + 1..];
      ObjectsInFirst(patterns[i..]);
      ContinuesSplit(objects, q, ObjectsOf(patterns[i].monoStreaks), ObjectsIn(patterns[i + 1..]));
      AssignStreaks(patterns[i].monoStreaks, r, i, color, objects, q);
      q := q + |ObjectsOf(patterns[i].monoStreaks)|;
    }
  }

  ghost predicate AllAssigned(objects: seq<TaikoObject>, color: array<Option<ColorData>>, q: nat,
                              groups: seq<RepeatingHitPatterns>)
    requires color.Length == |objects| && q <= |objects|
    reads color
  {
    forall i | 0 <= i < q :: color[i].Some? && InGroup(objects[i], groups, color[i].value)
  }

  lemma ObjectsOfGroups(groups: seq<RepeatingHitPatterns>)
    requires groups != []
    ensures ObjectsIn(PatternsOf(groups)) == ObjectsIn(groups[0].alternatingMonoPatterns)
      + ObjectsIn(PatternsOf(groups[1..]))
  {
    var first, rest := groups[0].alternatingMonoPatterns, PatternsOf(groups[1..]);
    StreaksConcat(first, rest);
    ObjectsConcat(StreaksOf(first), StreaksOf(rest));
  }

  /** `process_and_assign`: afterwards every object refers to the groups that contain it. */
  method ProcessAndAssign(data: TaikoObjects, color: array<Option<ColorData>>)
    returns (groups: seq<RepeatingHitPatterns>)
    requires Built(data) && color.Length == |data.objects|
    modifies color
    ensures ObjectsIn(PatternsOf(groups)) == data.objects
    ensures AllAssigned(data.objects, color, |data.objects|, groups)
  {
    hide Alternation, MaximalGroups, Built, Streaks;
    groups := Encode(data);
    BuiltIndexed(data);
    AssignGroups(groups, color, data.objects);
  }

  method AssignGroups(groups: seq<RepeatingHitPatterns>, color: array<Option<ColorData>>,
                      ghost objects: seq<TaikoObject>)
    requires Indexed(objects) && color.Length == |objects| && objects == ObjectsIn(PatternsOf(groups))
    modifies color
    ensures AllAssigned(objects, color, |objects|, groups)
  {
    hide Indexed, Continues, InPattern, ObjectsIn, PatternsOf;
    ghost var q: nat := 0;
    assert Continues(objects, 0, objects) by { ContinuesAll(objects); }
    assert groups[0..] == groups;
    for r := 0 to |groups|
      invariant q + |ObjectsIn(PatternsOf(groups[r..]))| == |objects|
        && Continues(objects, q, ObjectsIn(PatternsOf(groups[r..])))
      invariant AllAssigned(objects, color, q, groups)
    {
      assert groups[r..][1..] == groups[r + 1..];
      ObjectsOfGroups(groups[r..]);
      var patterns := groups[r].alternatingMonoPatterns;
      ContinuesSplit(objects, q, ObjectsIn(patterns), ObjectsIn(PatternsOf(groups[r + 1..])));
      AssignPatterns(patterns, r, color, objects, q);
      q := q + |ObjectsIn(patterns)|;
    }
    assert |ObjectsIn(PatternsOf(groups[|groups|..]))| == 0 by { NoGroups(groups[|groups|..]); }
  }

  lemma ContinuesAll(objects: seq<TaikoObject>)
    ensures Continues(objects, 0, objects)
  {
    assert objects[0..|objects|] == objects;
  }

  lemma NoGroups(groups: seq<RepeatingHitPatterns>)
    requires groups == []
    ensures ObjectsIn(PatternsOf(groups)) == []
  {}

  lemma BuiltIndexed(data: TaikoObjects)
    requires Built(data)
    ensures Indexed(data.objects)
  {}
}
