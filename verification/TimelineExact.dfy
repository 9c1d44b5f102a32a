/** What decoding control points keeps exactly, and what it does not keep. */
module TimelineExact {
  import opened HitResults
  import opened Timeline

  // ---------------------------------------------------------------------------------------------
  // Flags

  lemma {:induction false} FilteredKind(points: seq<Point>, kind: Kind)
    requires Only(points, kind)
    ensures Only(Filtered(points, kind), kind)
  {
    if points != [] {
      FilteredKind(points[..|points| - 1], kind);
    }
  }

  lemma {:induction false} ValueKind(points: seq<Point>, kind: Kind, t: real)
    requires Only(points, kind)
    ensures OfKind(ValueAt(points, t, kind), kind)
  {
    if points != [] {
      ValueKind(points[..|points| - 1], kind, t);
    }
  }

  /** At every time, ticks are generated and kiai is on exactly if one point for each timestamp says so. */
  lemma FlagsDecoded(lines: seq<LinePoints>, t: real)
    requires InOrder(lines)
    ensures var ticks, all := ValueAt(Decoded(lines, Difficulty), t, Difficulty),
                              ValueAt(Unfiltered(Groups(lines), Difficulty), t, Difficulty);
      ticks.DifficultyValue? && all.DifficultyValue? && (ticks.generateTicks <==> all.generateTicks)
    ensures var kiai, all := ValueAt(Decoded(lines, Effect), t, Effect),
                             ValueAt(Unfiltered(Groups(lines), Effect), t, Effect);
      kiai.EffectValue? && all.EffectValue? && (kiai.kiai <==> all.kiai)
  {
    hide Decoded, Unfiltered, Groups, ValueAt;
    KindDecoded(lines, Difficulty, t);
    KindDecoded(lines, Effect, t);
    DecodedMeaning(lines, Difficulty, t);
    DecodedMeaning(lines, Effect, t);
  }

  lemma KindDecoded(lines: seq<LinePoints>, kind: Kind, t: real)
    ensures OfKind(ValueAt(Decoded(lines, kind), t, kind), kind)
    ensures OfKind(ValueAt(Unfiltered(Groups(lines), kind), t, kind), kind)
  {
    hide Decoded, Unfiltered, Groups, ValueAt, Filtered;
    DecodedIsFiltered(lines, kind);
    UnfilteredKind(Groups(lines), kind);
    FilteredKind(Unfiltered(Groups(lines), kind), kind);
    ValueKind(Unfiltered(Groups(lines), kind), kind, t);
    ValueKind(Filtered(Unfiltered(Groups(lines), kind), kind), kind, t);
  }

  // ---------------------------------------------------------------------------------------------
  // Nothing superfluous

  /** What was in force when the `k`-th kept point came. */
  function Before(kept: seq<Point>, k: nat, kind: Kind): Value
    requires k < |kept|
  {
    if k == 0 then Default(kind) else kept[k - 1].value
  }

  ghost predicate EachDiffers(kept: seq<Point>, kind: Kind) {
    forall k | 0 <= k < |kept| :: !Alike(kept[k].value, Before(kept, k, kind))
  }

  /** Filtering is as thorough as it can be: each point that is kept changes something. */
  lemma {:induction false} KeptDiffer(points: seq<Point>, kind: Kind)
    requires StrictlySorted(points) && Only(points, kind) && !kind.Timing?
    ensures EachDiffers(Filtered(points, kind), kind)
  {
    hide Filtered, Alike, Redundant, EachDiffers, StrictlySorted, Only, InForce;
    if points != [] {
      var n := |points| - 1;
      assert StrictlySorted(points[..n]) && Only(points[..n], kind) by { FrontToo(points, kind); }
      KeptDiffer(points[..n], kind);
      KeptDiffersLast(points, kind);
    } else {
      NoneKept(kind);
    }
  }

  lemma FrontToo(points: seq<Point>, kind: Kind)
    requires points != [] && StrictlySorted(points) && Only(points, kind)
    ensures StrictlySorted(points[..|points| - 1]) && Only(points[..|points| - 1], kind)
    ensures OfKind(points[|points| - 1].value, kind)
  {}

  lemma KeptDiffersLast(points: seq<Point>, kind: Kind)
    requires points != [] && StrictlySorted(points) && Only(points, kind) && !kind.Timing?
    requires EachDiffers(Filtered(points[..|points| - 1], kind), kind)
    ensures EachDiffers(Filtered(points, kind), kind)
  {
    hide Filtered, Alike, Redundant, EachDiffers, StrictlySorted, Only, ValueAt, AllBefore;
    var n := |points| - 1;
    FilterUnfold(points, kind);
    RedundantIsAlike(points[n].value, InForce(points, n, kind));
    FrontToo(points, kind);
    LastInForce(Filtered(points[..n], kind), points[n].time, kind);
    if !Redundant(points[n].value, InForce(points, n, kind)) {
      AddedDiffers(Filtered(points[..n], kind), points[n], kind);
    }
  }

  lemma AddedDiffers(kept: seq<Point>, p: Point, kind: Kind)
    requires EachDiffers(kept, kind)
    requires !Alike(p.value, if kept == [] then Default(kind) else kept[|kept| - 1].value)
    ensures EachDiffers(kept + [p], kind)
  {
    hide Alike;
  }

  lemma NoneKept(kind: Kind)
    ensures EachDiffers(Filtered([], kind), kind)
  {}

  lemma LastInForce(points: seq<Point>, t: real, kind: Kind)
    requires AllBefore(points, t)
    ensures ValueAt(points, t, kind) == if points == [] then Default(kind) else points[|points| - 1].value
  {}

  /** So for lines in order, every difficulty and effect point of the decoded map changes something. */
  lemma DecodedDiffer(lines: seq<LinePoints>, kind: Kind)
    requires InOrder(lines) && !kind.Timing?
    ensures EachDiffers(Decoded(lines, kind), kind)
  {
    hide Filtered, Unfiltered, Groups, Decoded;
    DecodedMeaning(lines, kind, 0.0);
    DecodedIsFiltered(lines, kind);
    UnfilteredKind(Groups(lines), kind);
    KeptDiffer(Unfiltered(Groups(lines), kind), kind);
  }

  // ---------------------------------------------------------------------------------------------
  // What a group is

  /** The times of a group's lines follow one another closer than 2^-52. */
  ghost predicate Together(group: Group) {
    forall k | 0 < k < |group.Lines()| :: AbsGap(group.Lines()[k - 1], group.Lines()[k]) < 1.0 / 4503599627370496.0
  }

  function AbsGap(a: LinePoints, b: LinePoints): real {
    if b.time >= a.time then b.time - a.time else a.time - b.time
  }

  ghost predicate AllTogether(groups: seq<Group>) {
    forall k | 0 <= k < |groups| :: Together(groups[k])
  }

  /** And the next group is at least that far away. */
  ghost predicate Distant(groups: seq<Group>) {
    forall k | 0 < k < |groups| ::
      AbsGap(LastLine(groups[k - 1]), groups[k].first) >= 1.0 / 4503599627370496.0
  }

  function LastLine(group: Group): LinePoints {
    group.Lines()[|group.Lines()| - 1]
  }

  lemma AddedLine(groups: seq<Group>, line: LinePoints)
    requires AllTogether(groups) && Distant(groups)
    ensures AllTogether(GroupLine(groups, line)) && Distant(GroupLine(groups, line))
  {
    var n := |groups| - 1;
    if n < 0 || Apart(line.time, groups[n].LastTime()) {
      assert Group(line, []).Lines() == [line];
    } else {
      var longer := groups[n].(rest := groups[n].rest + [line]);
      assert longer.Lines() == groups[n].Lines() + [line];
      assert Together(groups[n]);
    }
  }

  /** Lines are taken together exactly as long as the time does not move on. */
  lemma {:induction false} GroupsAreRuns(lines: seq<LinePoints>)
    ensures AllTogether(Groups(lines)) && Distant(Groups(lines))
  {
    if lines != [] {
      hide AllTogether, Distant, GroupLine;
      GroupsAreRuns(lines[..|lines| - 1]);
      AddedLine(Groups(lines[..|lines| - 1]), lines[|lines| - 1]);
    } else {
      assert Groups([]) == [];
    }
  }
}
