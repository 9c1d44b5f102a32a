/**
 BPM multipliers, which the redundancy check ignores: when they survive it, and when not.
 */
module BpmMultipliers {
  import opened HitResults
  import opened Timeline

  /** Slider velocity and BPM multiplier are two forms of one number exactly when the slider
      velocity was not cut off from below. */
  lemma MultipliersInverse(beatLen: Option<real>)
    ensures var v := NewDifficulty(beatLen);
      v.sliderVelocity * v.bpmMultiplier == 1.0 <==> beatLen.None? || beatLen.value >= -1000.0
  {
    if beatLen.Some? && beatLen.value < 0.0 {
      var b := -beatLen.value;
      SpeedBounds(b);
      if 10.0 <= b <= 1000.0 {
        assert 100.0 / b * (b / 100.0) == 1.0;
      }
    }
  }

  lemma SpeedBounds(b: real)
    requires b > 0.0
    ensures 100.0 / b < 0.1 <==> b > 1000.0
    ensures 100.0 / b > 10.0 <==> b < 10.0
  {
    var s := 100.0 / b;
    assert s * b == 100.0;
    if b > 1000.0 { MulLess(s, 0.1, b); }
  }

  /** Slider velocity and BPM multiplier determine each other. */
  predicate Reciprocal(v: Value) {
    v.DifficultyValue? && v.sliderVelocity * v.bpmMultiplier == 1.0 && v.sliderVelocity >= 0.1
  }

  function Bpm(v: Value): real {
    if v.DifficultyValue? then v.bpmMultiplier else 1.0
  }

  ghost predicate AllReciprocal(points: seq<Point>) {
    forall k | 0 <= k < |points| :: Reciprocal(points[k].value)
  }

  lemma {:induction false} PointReciprocal(points: seq<Point>, t: real)
    requires AllReciprocal(points)
    ensures PointAt(points, t).Some? ==> Reciprocal(PointAt(points, t).value.value)
  {
    hide Reciprocal;
    if points != [] && points[|points| - 1].time > t {
      PointReciprocal(points[..|points| - 1], t);
    }
  }

  lemma ValueReciprocal(points: seq<Point>, t: real)
    requires AllReciprocal(points)
    ensures Reciprocal(ValueAt(points, t, Difficulty))
  {
    hide AllReciprocal, PointAt;
    PointReciprocal(points, t);
  }

  lemma {:induction false} FilteredReciprocal(points: seq<Point>)
    requires AllReciprocal(points)
    ensures AllReciprocal(Filtered(points, Difficulty))
  {
    if points != [] {
      hide Redundant, Reciprocal;
      FilteredReciprocal(points[..|points| - 1]);
    }
  }

  ghost predicate LinesReciprocal(lines: seq<LinePoints>) {
    forall k | 0 <= k < |lines| :: Reciprocal(lines[k].difficulty)
  }

  lemma {:induction false} LastInheritedReciprocal(lines: seq<LinePoints>)
    requires LinesReciprocal(lines)
    ensures LastInherited(lines).Some? ==> Reciprocal(LastInherited(lines).value.difficulty)
  {
    hide Reciprocal;
    if lines != [] {
      LastInheritedReciprocal(lines[..|lines| - 1]);
    }
  }

  lemma {:induction false} UnfilteredReciprocal(groups: seq<Group>)
    requires LinesReciprocal(AllLines(groups))
    ensures AllReciprocal(Unfiltered(groups, Difficulty))
  {
    if groups != [] {
      hide Reciprocal;
      var n := |groups| - 1;
      var before, last := AllLines(groups[..n]), groups[n].Lines();
      assert LinesReciprocal(before) && LinesReciprocal(last) by { PartsReciprocal(before, last); }
      UnfilteredReciprocal(groups[..n]);
      LastInheritedReciprocal(last);
      assert groups[n].first == last[0];
    }
  }

  lemma PartsReciprocal(a: seq<LinePoints>, b: seq<LinePoints>)
    requires LinesReciprocal(a + b)
    ensures LinesReciprocal(a) && LinesReciprocal(b)
  {
    forall k | 0 <= k < |a| ensures Reciprocal(a[k].difficulty) { assert (a + b)[k] == a[k]; }
    forall k | 0 <= k < |b| ensures Reciprocal(b[k].difficulty) { assert (a + b)[|a| + k] == b[k]; }
  }

  lemma ReciprocalBound(v: real, b: real)
    requires v * b == 1.0 && v >= 0.1
    ensures 0.0 < b <= 10.0
  {
    if b > 10.0 { MulLess(10.0, b, v); }
    if b <= 0.0 { MulAtMost(b, 0.0, v); }
  }

  lemma ReciprocalsDiffer(v: real, b: real, w: real, c: real)
    requires v * b == 1.0 && w * c == 1.0
    ensures b - c == b * c * (w - v)
  {
    assert b * (w * c) == b && c * (v * b) == c;
    assert b * c * (w - v) == b * (w * c) - c * (v * b);
  }

  lemma ScaledDistance(x: real, y: real, factor: real)
    requires 0.0 <= factor <= 100.0
    ensures Abs(factor * (x - y)) <= 100.0 * Abs(x - y)
  {
    var d := x - y;
    if d >= 0.0 {
      MulNonNegative(factor, d);
      MulNonNegative(100.0 - factor, d);
      assert (100.0 - factor) * d == 100.0 * d - factor * d;
    } else {
      MulNonNegative(factor, -d);
      MulNonNegative(100.0 - factor, -d);
      assert factor * -d == -(factor * d);
      assert (100.0 - factor) * -d == 100.0 * -d + factor * d;
    }
  }

  lemma AlikeMultipliers(v: Value, w: Value)
    requires Reciprocal(v) && Reciprocal(w) && Close(v.sliderVelocity, w.sliderVelocity)
    ensures Abs(Bpm(v) - Bpm(w)) <= 100.0 * EPS
  {
    var b, c := v.bpmMultiplier, w.bpmMultiplier;
    ReciprocalBound(v.sliderVelocity, b);
    ReciprocalBound(w.sliderVelocity, c);
    ReciprocalsDiffer(v.sliderVelocity, b, w.sliderVelocity, c);
    FactorBound(b, c);
    ScaledDistance(w.sliderVelocity, v.sliderVelocity, b * c);
    assert Abs(w.sliderVelocity - v.sliderVelocity) <= EPS;
  }

  lemma AlikeReciprocal(v: Value, w: Value)
    requires Reciprocal(v) && Reciprocal(w) && Alike(v, w)
    ensures Abs(Bpm(v) - Bpm(w)) <= 100.0 * EPS
  {
    if v != w {
      AlikeMultipliers(v, w);
    }
  }

  lemma FactorBound(b: real, c: real)
    requires 0.0 < b <= 10.0 && 0.0 < c <= 10.0
    ensures 0.0 <= b * c <= 100.0
  {
    MulNonNegative(b, c);
    MulAtMost(b, 10.0, c);
  }

  // ---------------------------------------------------------------------------------------------
  // When the filter keeps the multipliers of a whole map

  ghost predicate SameBpm(v: Value, w: Value) {
    Abs(Bpm(v) - Bpm(w)) <= 100.0 * EPS
  }

  /** The check takes the `i`-th point for redundant although it changes the multiplier. */
  ghost predicate DropsMultiplier(all: seq<Point>, i: nat)
    requires i < |all|
  {
    Redundant(all[i].value, InForce(all, i, Difficulty)) && !SameBpm(all[i].value, InForce(all, i, Difficulty))
  }

  ghost predicate SameBpmAt(all: seq<Point>, t: real) {
    SameBpm(ValueAt(all, t, Difficulty), ValueAt(Filtered(all, Difficulty), t, Difficulty))
  }

  lemma InForcePrefix(all: seq<Point>, n: nat, i: nat)
    requires i < n <= |all|
    ensures InForce(all[..n], i, Difficulty) == InForce(all, i, Difficulty)
    ensures DropsMultiplier(all[..n], i) <==> DropsMultiplier(all, i)
  {
    assert all[..n][..i] == all[..i];
  }

  lemma {:induction false} NothingDropped(all: seq<Point>, t: real)
    requires StrictlySorted(all) && forall i: nat | i < |all| :: !DropsMultiplier(all, i)
    ensures SameBpmAt(all, t)
  {
    if all != [] {
      hide Filtered, ValueAt, Bpm, Redundant, InForce;
      var n := |all| - 1;
      forall i: nat | i < n
        ensures !DropsMultiplier(all[..n], i)
      {
        InForcePrefix(all, n, i);
      }
      NothingDropped(all[..n], t);
      FilterLast(all, Difficulty, t);
      assert !DropsMultiplier(all, n);
    } else {
      assert Filtered(all, Difficulty) == all;
    }
  }

  /** Later points leave the time of an earlier one alone, so the loss stays. */
  lemma {:induction false} DropShows(all: seq<Point>, i: nat)
    requires StrictlySorted(all) && i < |all| && DropsMultiplier(all, i)
    ensures !SameBpmAt(all, all[i].time)
  {
    hide Filtered, ValueAt, Bpm, Redundant;
    var n := |all| - 1;
    FilterLast(all, Difficulty, all[i].time);
    if i < n {
      InForcePrefix(all, n, i);
      DropShows(all[..n], i);
    }
  }

  /** The filter keeps the multipliers at all times exactly if no point that changes the multiplier
      passes for redundant. */
  lemma MultipliersKeptExactly(lines: seq<LinePoints>)
    requires InOrder(lines)
    ensures var all := Unfiltered(Groups(lines), Difficulty);
      (forall t :: SameBpm(ValueAt(all, t, Difficulty), ValueAt(Decoded(lines, Difficulty), t, Difficulty)))
      <==> (forall i: nat | i < |all| :: !DropsMultiplier(all, i))
  {
    hide SameBpm, DropsMultiplier, Unfiltered, ValueAt, Groups, Filtered, Decoded;
    var all := Unfiltered(Groups(lines), Difficulty);
    DecodedMeaning(lines, Difficulty, 0.0);
    DecodedIsFiltered(lines, Difficulty);
    if forall i: nat | i < |all| :: !DropsMultiplier(all, i) {
      forall t
        ensures SameBpm(ValueAt(all, t, Difficulty), ValueAt(Decoded(lines, Difficulty), t, Difficulty))
      {
        NothingDropped(all, t);
      }
    } else {
      var i: nat :| i < |all| && DropsMultiplier(all, i);
      DropShows(all, i);
    }
  }

  lemma SlowDifficulty(b: real)
    requires b <= -1000.0
    ensures NewDifficulty(Some(b)) == DifficultyValue(0.1, Clamp(-b, 10.0, 10000.0) / 100.0, true)
  {
    SpeedBounds(-b);
  }

  lemma FastDifficulty(beatLen: Option<real>)
    requires beatLen.None? || beatLen.value >= -1000.0
    ensures Reciprocal(NewDifficulty(beatLen))
  {
    MultipliersInverse(beatLen);
  }

  /** The guard in beat lengths: unless one of them is below -1000, no change is hidden, and among
      lengths from -1000 down every change of the clamped length is. */
  lemma HiddenChange(x: Option<real>, y: Option<real>)
    ensures Redundant(NewDifficulty(x), NewDifficulty(y)) && !SameBpm(NewDifficulty(x), NewDifficulty(y)) ==>
      (x.Some? && x.value < -1000.0) || (y.Some? && y.value < -1000.0)
    ensures x.Some? && y.Some? && x.value <= -1000.0 && y.value <= -1000.0 ==>
      && Redundant(NewDifficulty(x), NewDifficulty(y))
      && (SameBpm(NewDifficulty(x), NewDifficulty(y)) <==>
          Abs(Clamp(-x.value, 10.0, 10000.0) - Clamp(-y.value, 10.0, 10000.0)) <= 10000.0 * EPS)
  {
    hide NewDifficulty, Reciprocal, Clamp;
    if (x.None? || x.value >= -1000.0) && (y.None? || y.value >= -1000.0) {
      FastDifficulty(x);
      FastDifficulty(y);
      if Redundant(NewDifficulty(x), NewDifficulty(y)) {
        AlikeReciprocal(NewDifficulty(x), NewDifficulty(y));
      }
    }
    if x.Some? && y.Some? && x.value <= -1000.0 && y.value <= -1000.0 {
      SlowDifficulty(x.value);
      SlowDifficulty(y.value);
    }
  }

  /** While no line asks for less than a tenth of the base velocity, the BPM multipliers survive
      the filter as well. */
  lemma MultipliersKept(lines: seq<LinePoints>, t: real)
    requires InOrder(lines) && LinesReciprocal(lines)
    ensures var all := Unfiltered(Groups(lines), Difficulty);
      Abs(Bpm(ValueAt(all, t, Difficulty)) - Bpm(ValueAt(Decoded(lines, Difficulty), t, Difficulty))) <= 100.0 * EPS
  {
    hide Reciprocal, LinesReciprocal, AllReciprocal, Bpm, InOrder, Unfiltered, ValueAt, Groups, Filtered, Decoded;
    var all := Unfiltered(Groups(lines), Difficulty);
    DecodedMeaning(lines, Difficulty, t);
    DecodedIsFiltered(lines, Difficulty);
    GroupsKeepLines(lines);
    UnfilteredReciprocal(Groups(lines));
    FilteredReciprocal(all);
    ValueReciprocal(all, t);
    ValueReciprocal(Filtered(all, Difficulty), t);
    AlikeReciprocal(ValueAt(all, t, Difficulty), ValueAt(Filtered(all, Difficulty), t, Difficulty));
  }

  /** A parsed line is of that kind exactly if its beat length is at least -1000. */
  lemma ParsedReciprocal(line: TimingLine, scrolls: bool)
    requires Parse(line, scrolls).Ok?
    ensures Reciprocal(Parse(line, scrolls).value.difficulty) <==> line.beatLen.None? || line.beatLen.value >= -1000.0
  {
    hide NewEffect;
    MultipliersInverse(line.beatLen);
  }

  /** Beyond that they are lost: of two slow lines, the second is redundant although it doubles the
      BPM multiplier. */
  lemma MultiplierLost()
    ensures var a := Parse(TimingLine(0.0, Some(-1000.0), false, false), false);
      var b := Parse(TimingLine(1.0, Some(-2000.0), false, false), false);
      && a.Ok? && b.Ok?
      && Bpm(ValueAt(Unfiltered(Groups([a.value, b.value]), Difficulty), 1.0, Difficulty)) == 20.0
      && Bpm(ValueAt(Decoded([a.value, b.value], Difficulty), 1.0, Difficulty)) == 10.0
  {
    var a := Parse(TimingLine(0.0, Some(-1000.0), false, false), false);
    var b := Parse(TimingLine(1.0, Some(-2000.0), false, false), false);
    var lines := [a.value, b.value];
    var p, q := PointOf(a.value, Difficulty), PointOf(b.value, Difficulty);
    TwoGroups(a.value, b.value);
    DecodedIsFiltered(lines, Difficulty);
    AppendLookup([p], q, 1.0);
    AppendLookup([], p, 1.0);
    assert [] + [p] == [p];
    TwoFiltered(p, q);
  }

  lemma TwoGroups(a: LinePoints, b: LinePoints)
    requires Apart(b.time, a.time) && !a.timingChange && !b.timingChange
    ensures Unfiltered(Groups([a, b]), Difficulty) == [PointOf(a, Difficulty), PointOf(b, Difficulty)]
  {
    assert [a, b][..1] == [a] && [a][..0] == [];
    assert Groups([]) == [];
    assert Groups([a]) == [Group(a, [])];
    var groups := [Group(a, []), Group(b, [])];
    assert Groups([a, b]) == groups;
    assert groups[..1] == [Group(a, [])] && groups[..1][..0] == [];
    assert Unfiltered([], Difficulty) == [];
    ResolveInherited(a);
    ResolveInherited(b);
    assert Unfiltered(groups[..1], Difficulty) == [PointOf(a, Difficulty)];
  }

  lemma ResolveInherited(line: LinePoints)
    requires !line.timingChange
    ensures Resolve(Group(line, []), Difficulty) == Some(PointOf(line, Difficulty))
  {
    assert Group(line, []).Lines() == [line];
  }

  lemma TwoFiltered(p: Point, q: Point)
    requires p.time < q.time && !Redundant(p.value, Default(Difficulty)) && Redundant(q.value, p.value)
    ensures Filtered([p, q], Difficulty) == [p]
  {
    assert [p, q][..1] == [p] && [p][..0] == [];
    assert Filtered([], Difficulty) == [];
    assert PointAt([], p.time) == None;
    assert Filtered([p], Difficulty) == [p];
    assert PointAt([p], q.time) == Some(p);
  }
}
