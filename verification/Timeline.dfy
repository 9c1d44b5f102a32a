/**
 The control points of a beatmap. Lines with the same time share one pending point of each kind;
 when the time moves on, a pending point is kept only if it differs from the one already in force.
 */
module Timeline {
  import opened HitResults

  /** The distance between 1 and the next `f64`. */
  const EPS: real := 1.0 / 4503599627370496.0

  predicate Close(a: real, b: real) {
    Abs(a - b) <= EPS
  }

  predicate Apart(a: real, b: real) {
    Abs(a - b) >= EPS
  }

  datatype Kind = Timing | Difficulty | Effect

  datatype Value =
    | TimingValue(beatLen: real)
    | DifficultyValue(sliderVelocity: real, bpmMultiplier: real, generateTicks: bool)
    | EffectValue(kiai: bool, scrollSpeed: real)

  datatype Point = Point(time: real, value: Value)

  /** What is in force before the first point. */
  function Default(kind: Kind): Value {
    match kind
    case Timing => TimingValue(1000.0)
    case Difficulty => DifficultyValue(1.0, 1.0, true)
    case Effect => EffectValue(false, 1.0)
  }

  /** Slider velocity and ticks, or kiai and scroll speed, are the same. The BPM multiplier is not
      looked at, and a timing point never is redundant. */
  predicate Redundant(v: Value, existing: Value) {
    || (v.DifficultyValue? && existing.DifficultyValue?
        && v.generateTicks == existing.generateTicks && Close(v.sliderVelocity, existing.sliderVelocity))
    || (v.EffectValue? && existing.EffectValue?
        && v.kiai == existing.kiai && Close(v.scrollSpeed, existing.scrollSpeed))
  }

  // ---------------------------------------------------------------------------------------------
  // One line

  /** `beatLen` is `None` when the file says NaN. */
  datatype TimingLine = TimingLine(time: real, beatLen: Option<real>, timingChange: bool, kiai: bool)

  datatype ParseError = NumberUnderflow | NumberOverflow | TimingControlPointNaN

  datatype Result<+T> = Ok(value: T) | Err(error: ParseError)

  type Timed = v: Value | v.TimingValue? witness TimingValue(1000.0)

  type Paced = v: Value | v.DifficultyValue? witness DifficultyValue(1.0, 1.0, true)

  type Lit = v: Value | v.EffectValue? witness EffectValue(false, 1.0)

  datatype LinePoints = LinePoints(time: real, timingChange: bool, timing: Timed, difficulty: Paced, effect: Lit)

  const MAX_PARSE_VALUE: real := 2147483647.0

  function Clamp(r: real, low: real, high: real): real {
    if r < low then low else if r > high then high else r
  }

  function SpeedMultiplier(beatLen: Option<real>): real {
    if beatLen.Some? && beatLen.value < 0.0 then 100.0 / -beatLen.value else 1.0
  }

  function NewDifficulty(beatLen: Option<real>): Paced {
    DifficultyValue(Clamp(SpeedMultiplier(beatLen), 0.1, 10.0),
                    if beatLen.Some? && beatLen.value < 0.0 then Clamp(-beatLen.value, 10.0, 10000.0) / 100.0 else 1.0,
                    beatLen.Some?)
  }

  function NewEffect(line: TimingLine, scrolls: bool): Lit {
    EffectValue(line.kiai, if scrolls then Clamp(SpeedMultiplier(line.beatLen), 0.01, 10.0) else 1.0)
  }

  /** `scrolls` holds in taiko and mania. */
  function Parse(line: TimingLine, scrolls: bool): Result<LinePoints> {
    if line.beatLen.Some? && line.beatLen.value < -MAX_PARSE_VALUE then Err(NumberUnderflow)
    else if line.beatLen.Some? && line.beatLen.value > MAX_PARSE_VALUE then Err(NumberOverflow)
    else if line.timingChange && line.beatLen.None? then Err(TimingControlPointNaN)
    else
      Ok(LinePoints(line.time, line.timingChange,
                    if line.timingChange then TimingValue(Clamp(line.beatLen.value, 6.0, 60000.0)) else Default(Timing),
                    NewDifficulty(line.beatLen), NewEffect(line, scrolls)))
  }

  // ---------------------------------------------------------------------------------------------
  // Lists of points

  ghost predicate StrictlySorted(points: seq<Point>) {
    forall i, j | 0 <= i < j < |points| :: points[i].time < points[j].time
  }

  /** The point in force at `t`. */
  function PointAt(points: seq<Point>, t: real): Option<Point> {
    if points == [] then None
    else
      var last := points[|points| - 1];
      if last.time <= t then Some(last) else PointAt(points[..|points| - 1], t)
  }

  function ValueAt(points: seq<Point>, t: real, kind: Kind): Value {
    var p := PointAt(points, t);
    if p.Some? then p.value.value else Default(kind)
  }

  /** How many points lie before `t`. */
  function Place(points: seq<Point>, t: real): (i: nat)
    ensures i <= |points|
  {
    if points == [] || points[|points| - 1].time < t then |points| else Place(points[..|points| - 1], t)
  }

  /** A point with the same time is replaced. */
  function Insert(points: seq<Point>, p: Point): seq<Point> {
    var i := Place(points, p.time);
    if i < |points| && points[i].time == p.time then points[i := p]
    else points[..i] + [p] + points[i..]
  }

  lemma {:induction false} PlaceSplits(points: seq<Point>, t: real)
    requires StrictlySorted(points)
    ensures forall k | 0 <= k < Place(points, t) :: points[k].time < t
    ensures forall k | Place(points, t) <= k < |points| :: t <= points[k].time
  {
    if points != [] && points[|points| - 1].time >= t {
      PlaceSplits(points[..|points| - 1], t);
      assert Place(points, t) == Place(points[..|points| - 1], t);
    }
  }

  lemma {:induction false} PointAtIsLast(points: seq<Point>, t: real, i: nat)
    requires StrictlySorted(points) && i <= |points|
    requires forall k | 0 <= k < i :: points[k].time <= t
    requires forall k | i <= k < |points| :: t < points[k].time
    ensures PointAt(points, t) == if i == 0 then None else Some(points[i - 1])
  {
    if i < |points| {
      PointAtIsLast(points[..|points| - 1], t, i);
    }
  }

  lemma InsertSorted(points: seq<Point>, p: Point)
    requires StrictlySorted(points)
    ensures StrictlySorted(Insert(points, p))
    ensures (forall k | 0 <= k < |points| :: points[k].time < p.time) ==> Insert(points, p) == points + [p]
  {
    PlaceSplits(points, p.time);
  }

  /** `binary_search_by` on the times. */
  method BinarySearch(points: seq<Point>, t: real) returns (found: bool, i: nat)
    requires StrictlySorted(points)
    ensures i == Place(points, t) && (found <==> i < |points| && points[i].time == t)
  {
    PlaceSplits(points, t);
    i := 0;
    var high := |points|;
    while i < high
      invariant i <= Place(points, t) <= high <= |points|
    {
      var middle := (i + high) / 2;
      if points[middle].time < t { i := middle + 1; } else { high := middle; }
    }
    found := i < |points| && points[i].time == t;
  }

  /** `difficulty_point_at` and `effect_point_at`. */
  method PointAtBySearch(points: seq<Point>, t: real) returns (p: Option<Point>)
    requires StrictlySorted(points)
    ensures p == PointAt(points, t)
  {
    var found, i := BinarySearch(points, t);
    PlaceSplits(points, t);
    PointAtIsLast(points, t, if found then i + 1 else i);
    if found { return Some(points[i]); }
    if i == 0 { return None; }
    return Some(points[i - 1]);
  }

  /** The timing point in force: before the first one it is the first one already. */
  function TimingAt(points: seq<Point>, t: real): Option<Point> {
    var p := PointAt(points, t);
    if p.None? && points != [] then Some(points[0]) else p
  }

  /** `timing_point_at`. */
  method TimingPointAt(points: seq<Point>, t: real) returns (p: Option<Point>)
    requires StrictlySorted(points)
    ensures p == TimingAt(points, t)
  {
    var found, i := BinarySearch(points, t);
    PlaceSplits(points, t);
    PointAtIsLast(points, t, if found then i + 1 else i);
    var k := if found then i else if i == 0 then 0 else i - 1;
    p := if k < |points| then Some(points[k]) else None;
  }

  // ---------------------------------------------------------------------------------------------
  // The state of the decoder

  /** One kind of points: those kept, and the one pending. */
  datatype Track = Track(kept: seq<Point>, pending: Option<Point>)

  function AddPoint(points: seq<Point>, p: Point, kind: Kind): seq<Point> {
    if Redundant(p.value, ValueAt(points, p.time, kind)) then points else Insert(points, p)
  }

  function Flush(track: Track, kind: Kind): Track {
    if track.pending.None? then track else Track(AddPoint(track.kept, track.pending.value, kind), None)
  }

  /** A timing change goes in front of what is pending, another line behind it. */
  function Push(track: Track, p: Point, timingChange: bool): Track {
    if timingChange && track.pending.Some? then track else track.(pending := Some(p))
  }

  function PointOf(line: LinePoints, kind: Kind): Point {
    var value := match kind
      case Timing => line.timing
      case Difficulty => line.difficulty
      case Effect => line.effect;
    Point(line.time, value)
  }

  function PushLine(track: Track, line: LinePoints, kind: Kind): Track {
    if kind.Timing? && !line.timingChange then track else Push(track, PointOf(line, kind), line.timingChange)
  }

  datatype Timelines = Timelines(time: real, timing: Track, difficulty: Track, effect: Track) {
    function Of(kind: Kind): Track {
      match kind case Timing => timing case Difficulty => difficulty case Effect => effect
    }

    function FlushAll(): Timelines {
      Timelines(time, Flush(timing, Timing), Flush(difficulty, Difficulty), Flush(effect, Effect))
    }
  }

  function AddLine(tl: Timelines, line: LinePoints): Timelines {
    var f := if Apart(line.time, tl.time) then tl.FlushAll() else tl;
    Timelines(line.time, PushLine(f.timing, line, Timing), PushLine(f.difficulty, line, Difficulty),
              PushLine(f.effect, line, Effect))
  }

  const START: Timelines := Timelines(0.0, Track([], None), Track([], None), Track([], None))

  function Run(lines: seq<LinePoints>): Timelines {
    if lines == [] then START else AddLine(Run(lines[..|lines| - 1]), lines[|lines| - 1])
  }

  // ---------------------------------------------------------------------------------------------
  // The same without pending points: groups of lines, and one point for each group

  /** Lines whose time does not move on. */
  datatype Group = Group(first: LinePoints, rest: seq<LinePoints>) {
    function Lines(): seq<LinePoints> {
      [first] + rest
    }

    function LastTime(): real {
      if rest == [] then first.time else rest[|rest| - 1].time
    }
  }

  function Groups(lines: seq<LinePoints>): seq<Group> {
    if lines == [] then [] else GroupLine(Groups(lines[..|lines| - 1]), lines[|lines| - 1])
  }

  /** A line belongs to the last group unless its time lies apart from that of the line before. */
  function GroupLine(groups: seq<Group>, line: LinePoints): (r: seq<Group>)
    ensures r != [] && r[|r| - 1].LastTime() == line.time
  {
    var n := |groups| - 1;
    if n < 0 || Apart(line.time, groups[n].LastTime()) then groups + [Group(line, [])]
    else groups[..n] + [groups[n].(rest := groups[n].rest + [line])]
  }

  /** The last inherited line decides, or else the first line; only timing changes have a timing point. */
  function Resolve(group: Group, kind: Kind): Option<Point> {
    var inherited := LastInherited(group.Lines());
    if kind.Timing? then FirstTiming(group.Lines())
    else Some(PointOf(if inherited.Some? then inherited.value else group.first, kind))
  }

  function LastInherited(lines: seq<LinePoints>): Option<LinePoints> {
    if lines == [] then None
    else
      var n := |lines| - 1;
      if !lines[n].timingChange then Some(lines[n]) else LastInherited(lines[..n])
  }

  function FirstTiming(group: seq<LinePoints>): Option<Point> {
    if group == [] then None
    else if group[0].timingChange then Some(PointOf(group[0], Timing)) else FirstTiming(group[1..])
  }

  /** The points of all groups, none of them left out. */
  function Unfiltered(groups: seq<Group>, kind: Kind): seq<Point> {
    if groups == [] then []
    else
      var n := |groups| - 1;
      WithPoint(Unfiltered(groups[..n], kind), Resolve(groups[n], kind))
  }

  function WithPoint(points: seq<Point>, p: Option<Point>): seq<Point> {
    if p.Some? then points + [p.value] else points
  }

  function Filtered(points: seq<Point>, kind: Kind): seq<Point> {
    if points == [] then []
    else
      var n := |points| - 1;
      AddPoint(Filtered(points[..n], kind), points[n], kind)
  }

  lemma {:induction false} FirstTimingPush(lines: seq<LinePoints>, line: LinePoints)
    ensures var before := FirstTiming(lines);
      FirstTiming(lines + [line]) ==
      if before.None? && line.timingChange then Some(PointOf(line, Timing)) else before
  {
    if lines == [] {
      assert lines + [line] == [line];
    } else {
      assert (lines + [line])[1..] == lines[1..] + [line];
      FirstTimingPush(lines[1..], line);
    }
  }

  lemma PushResolves(track: Track, group: Group, line: LinePoints, kind: Kind)
    requires track.pending == Resolve(group, kind)
    ensures PushLine(track, line, kind) == track.(pending := Resolve(group.(rest := group.rest + [line]), kind))
  {
    var lines := group.Lines();
    assert group.(rest := group.rest + [line]).Lines() == lines + [line];
    FirstTimingPush(lines, line);
    assert (lines + [line])[..|lines|] == lines;
    if LastInherited(lines).None? {
      FirstIsChange(lines);
    }
  }

  lemma {:induction false} FirstIsChange(lines: seq<LinePoints>)
    requires lines != [] && LastInherited(lines).None?
    ensures lines[0].timingChange
  {
    if |lines| > 1 {
      FirstIsChange(lines[..|lines| - 1]);
    }
  }

  lemma PushFirst(track: Track, line: LinePoints, kind: Kind)
    requires track.pending == None
    ensures PushLine(track, line, kind) == track.(pending := Resolve(Group(line, []), kind))
  {
    assert Group(line, []).Lines() == [line];
    assert [line][..0] == [] && [line][1..] == [];
    assert FirstTiming([]) == None && LastInherited([]) == None;
  }

  /** What a kind's track holds after some lines. */
  ghost predicate Tracks(track: Track, groups: seq<Group>, kind: Kind) {
    if groups == [] then track == Track([], None)
    else
      var n := |groups| - 1;
      track == Track(Filtered(Unfiltered(groups[..n], kind), kind), Resolve(groups[n], kind))
  }

  lemma FilterOne(points: seq<Point>, p: Option<Point>, kind: Kind)
    ensures Flush(Track(Filtered(points, kind), p), kind) == Track(Filtered(WithPoint(points, p), kind), None)
  {
    if p.Some? {
      assert (points + [p.value])[..|points|] == points;
    }
  }

  lemma FlushTracked(track: Track, groups: seq<Group>, kind: Kind)
    requires Tracks(track, groups, kind)
    ensures Flush(track, kind) == Track(Filtered(Unfiltered(groups, kind), kind), None)
  {
    if groups != [] {
      hide Filtered, Flush, Resolve, WithPoint;
      var n := |groups| - 1;
      FilterOne(Unfiltered(groups[..n], kind), Resolve(groups[n], kind), kind);
    }
  }

  /** One more line keeps a track in step with the groups. */
  lemma PushTracked(track: Track, groups: seq<Group>, line: LinePoints, kind: Kind)
    requires Tracks(track, groups, kind)
    ensures var apart := groups == [] || Apart(line.time, groups[|groups| - 1].LastTime());
      Tracks(PushLine(if apart then Flush(track, kind) else track, line, kind), GroupLine(groups, line), kind)
  {
    hide Filtered, Flush, Resolve, Unfiltered, PushLine, Apart, Group.LastTime;
    var n := |groups| - 1;
    if groups == [] || Apart(line.time, groups[n].LastTime()) {
      FlushTracked(track, groups, kind);
      PushFirst(Flush(track, kind), line, kind);
      assert (groups + [Group(line, [])])[..n + 1] == groups;
    } else {
      PushResolves(track, groups[n], line, kind);
      assert (groups[..n] + [groups[n].(rest := groups[n].rest + [line])])[..n] == groups[..n];
    }
  }

  /** The pending points implement the groups, whatever the order of the lines. */
  lemma {:induction false} RunFollowsGroups(lines: seq<LinePoints>, kind: Kind)
    ensures Tracks(Run(lines).Of(kind), Groups(lines), kind)
    ensures lines != [] ==> Run(lines).time == lines[|lines| - 1].time
  {
    if lines != [] {
      hide Tracks, Apart, AddLine, GroupLine, Timelines.Of, PushLine, Flush;
      var n := |lines| - 1;
      var tl, groups := Run(lines[..n]), Groups(lines[..n]);
      RunFollowsGroups(lines[..n], kind);
      PushTracked(tl.Of(kind), groups, lines[n], kind);
      AddLineOf(tl, lines[n], kind);
      if n == 0 {
        NothingPending(kind);
      } else {
        assert groups == GroupLine(Groups(lines[..n][..n - 1]), lines[..n][n - 1]);
      }
    }
  }

  lemma AddLineOf(tl: Timelines, line: LinePoints, kind: Kind)
    ensures AddLine(tl, line).time == line.time
    ensures AddLine(tl, line).Of(kind) ==
      PushLine(if Apart(line.time, tl.time) then Flush(tl.Of(kind), kind) else tl.Of(kind), line, kind)
  {}

  /** Before the first line, flushing does nothing. */
  lemma NothingPending(kind: Kind)
    ensures Flush(START.Of(kind), kind) == START.Of(kind)
  {}

  /** The points the decoder ends up with. */
  function Decoded(lines: seq<LinePoints>, kind: Kind): seq<Point> {
    Run(lines).FlushAll().Of(kind).kept
  }

  lemma DecodedIsFiltered(lines: seq<LinePoints>, kind: Kind)
    ensures Decoded(lines, kind) == Filtered(Unfiltered(Groups(lines), kind), kind)
  {
    RunFollowsGroups(lines, kind);
    FlushTracked(Run(lines).Of(kind), Groups(lines), kind);
  }

  // ---------------------------------------------------------------------------------------------
  // What filtering preserves

  /** Whatever the order of the lines, no two kept points have the same time and all are in order. */
  lemma {:induction false} FilteredSorted(points: seq<Point>, kind: Kind)
    ensures StrictlySorted(Filtered(points, kind))
  {
    if points != [] {
      FilteredSorted(points[..|points| - 1], kind);
      InsertSorted(Filtered(points[..|points| - 1], kind), points[|points| - 1]);
    }
  }

  /** The same beat length, or the same ticks and kiai with velocities and speeds that differ by 2^-52 at
      most. It does not say that BPM multipliers agree. */
  ghost predicate Alike(v: Value, w: Value) {
    || (v.TimingValue? && w.TimingValue? && v.beatLen == w.beatLen)
    || (v.DifficultyValue? && w.DifficultyValue? && v.generateTicks == w.generateTicks
        && Abs(v.sliderVelocity - w.sliderVelocity) <= 1.0 / 4503599627370496.0)
    || (v.EffectValue? && w.EffectValue? && v.kiai == w.kiai
        && Abs(v.scrollSpeed - w.scrollSpeed) <= 1.0 / 4503599627370496.0)
  }

  /** The redundancy check finds what is alike, except that timing points never are redundant. */
  lemma RedundantIsAlike(v: Value, w: Value)
    ensures Redundant(v, w) <==> Alike(v, w) && !v.TimingValue?
    ensures Alike(v, v)
  {}

  ghost predicate AlikeAt(kept: seq<Point>, all: seq<Point>, t: real, kind: Kind) {
    Alike(ValueAt(all, t, kind), ValueAt(kept, t, kind))
  }

  ghost predicate AllBefore(points: seq<Point>, t: real) {
    forall k | 0 <= k < |points| :: points[k].time < t
  }

  lemma {:induction false} FilteredBefore(points: seq<Point>, kind: Kind, t: real)
    requires StrictlySorted(points) && AllBefore(points, t)
    ensures AllBefore(Filtered(points, kind), t)
  {
    if points != [] {
      var n := |points| - 1;
      FilteredBefore(points[..n], kind, t);
      FilteredBefore(points[..n], kind, points[n].time);
      FilteredSorted(points[..n], kind);
      InsertSorted(Filtered(points[..n], kind), points[n]);
    }
  }

  lemma AppendLookup(points: seq<Point>, p: Point, t: real)
    ensures PointAt(points + [p], t) == if p.time <= t then Some(p) else PointAt(points, t)
  {
    assert (points + [p])[..|points|] == points;
  }

  lemma {:induction false} LookupAfterEnd(points: seq<Point>, t: real, u: real)
    requires AllBefore(points, t) && t <= u
    ensures PointAt(points, t) == PointAt(points, u)
  {
    if points != [] {
      assert points[|points| - 1].time < t;
    }
  }

  lemma NothingAlike(kind: Kind, t: real)
    ensures AlikeAt(Filtered([], kind), [], t, kind)
  {
    RedundantIsAlike(Default(kind), Default(kind));
  }

  /** The value in force when the `i`-th point comes up for the redundancy check. */
  function InForce(all: seq<Point>, i: nat, kind: Kind): Value
    requires i < |all|
  {
    ValueAt(Filtered(all[..i], kind), all[i].time, kind)
  }

  lemma AppendValueAt(points: seq<Point>, p: Point, t: real, kind: Kind)
    ensures ValueAt(points + [p], t, kind) == if p.time <= t then p.value else ValueAt(points, t, kind)
  {
    hide PointAt;
    AppendLookup(points, p, t);
  }

  lemma ValueAfterEnd(points: seq<Point>, t: real, u: real, kind: Kind)
    requires AllBefore(points, t) && t <= u
    ensures ValueAt(points, t, kind) == ValueAt(points, u, kind)
  {
    hide PointAt;
    LookupAfterEnd(points, t, u);
  }

  lemma FilterUnfold(all: seq<Point>, kind: Kind)
    requires StrictlySorted(all) && all != []
    ensures var n := |all| - 1; var before := Filtered(all[..n], kind);
      && AllBefore(before, all[n].time)
      && Filtered(all, kind) == if Redundant(all[n].value, InForce(all, n, kind)) then before else before + [all[n]]
  {
    hide Redundant, Insert;
    var n := |all| - 1;
    FilteredBefore(all[..n], kind, all[n].time);
    FilteredSorted(all[..n], kind);
    InsertSorted(Filtered(all[..n], kind), all[n]);
  }

  /** One more point, later than all others, as the full and the filtered list see it. */
  lemma FilterLast(all: seq<Point>, kind: Kind, t: real)
    requires StrictlySorted(all) && all != []
    ensures var n := |all| - 1; var p := all[n];
      && ValueAt(all, t, kind) == (if p.time <= t then p.value else ValueAt(all[..n], t, kind))
      && ValueAt(Filtered(all, kind), t, kind) ==
         if p.time <= t then if Redundant(p.value, InForce(all, n, kind)) then InForce(all, n, kind) else p.value
         else ValueAt(Filtered(all[..n], kind), t, kind)
  {
    hide Redundant, Filtered, ValueAt, AllBefore;
    var n := |all| - 1;
    var before, p := Filtered(all[..n], kind), all[n];
    assert all == all[..n] + [p];
    FilterUnfold(all, kind);
    AppendValueAt(all[..n], p, t, kind);
    AppendValueAt(before, p, t, kind);
    if p.time <= t {
      ValueAfterEnd(before, p.time, t, kind);
    }
  }

  /** Dropping redundant points one after the other does not add up: at every time the kept list
      differs from the full one by one tolerance at most. */
  lemma {:induction false} FilteredMeaning(points: seq<Point>, kind: Kind, t: real)
    requires StrictlySorted(points)
    ensures AlikeAt(Filtered(points, kind), points, t, kind)
  {
    if points == [] {
      NothingAlike(kind, t);
    } else {
      hide Filtered, ValueAt, Redundant, InForce, Alike;
      var last := |points| - 1;
      FilteredMeaning(points[..last], kind, t);
      FilterLast(points, kind, t);
      RedundantIsAlike(points[last].value, InForce(points, last, kind));
    }
  }

  ghost predicate InOrder(lines: seq<LinePoints>) {
    forall i, j | 0 <= i <= j < |lines| :: lines[i].time <= lines[j].time
  }

  ghost predicate OrderedUpTo(points: seq<Point>, end: real) {
    StrictlySorted(points) && forall k | 0 <= k < |points| :: points[k].time <= end
  }

  ghost predicate Within(lines: seq<LinePoints>, after: real, end: real) {
    forall k | 0 <= k < |lines| :: after < lines[k].time <= end
  }

  lemma ResolveTime(group: Group, kind: Kind, after: real, end: real)
    requires Within(group.Lines(), after, end)
    ensures var p := Resolve(group, kind); p.Some? ==> after < p.value.time <= end
  {
    LastInheritedTime(group.Lines(), after, end);
    FirstTimingTime(group.Lines(), after, end);
    assert group.Lines()[0] == group.first;
  }

  lemma {:induction false} LastInheritedTime(lines: seq<LinePoints>, after: real, end: real)
    requires Within(lines, after, end)
    ensures LastInherited(lines).Some? ==> after < LastInherited(lines).value.time <= end
  {
    if lines != [] {
      LastInheritedTime(lines[..|lines| - 1], after, end);
    }
  }

  lemma {:induction false} FirstTimingTime(lines: seq<LinePoints>, after: real, end: real)
    requires Within(lines, after, end)
    ensures FirstTiming(lines).Some? ==> after < FirstTiming(lines).value.time <= end
  {
    if lines != [] {
      FirstTimingTime(lines[1..], after, end);
    }
  }

  /** Some time lies between the points of the earlier groups and the lines of the last one. */
  ghost predicate Separated(groups: seq<Group>, kind: Kind, split: real, end: real)
    requires groups != []
  {
    var n := |groups| - 1;
    OrderedUpTo(Unfiltered(groups[..n], kind), split) && Within(groups[n].Lines(), split, end)
  }

  lemma AddGroup(groups: seq<Group>, kind: Kind, split: real, end: real)
    requires groups != [] && Separated(groups, kind, split, end)
    ensures OrderedUpTo(Unfiltered(groups, kind), end)
  {
    hide Resolve, Filtered;
    var g := groups[|groups| - 1];
    assert split < g.Lines()[0].time <= end;
    ResolveTime(g, kind, split, end);
  }

  /** One more line, not earlier than the others, keeps the groups apart. */
  lemma NextSeparated(groups: seq<Group>, line: LinePoints, kind: Kind, split: real, end: real) returns (split': real)
    requires groups != [] && Separated(groups, kind, split, end)
    requires groups[|groups| - 1].LastTime() == end <= line.time
    ensures Separated(GroupLine(groups, line), kind, split', line.time)
  {
    hide OrderedUpTo, Unfiltered, Apart;
    var n := |groups| - 1;
    if Apart(line.time, groups[n].LastTime()) {
      AddGroup(groups, kind, split, end);
      split' := end;
      ApartLater(end, line.time);
      assert (groups + [Group(line, [])])[..n + 1] == groups;
    } else {
      split' := split;
      var g := groups[n];
      assert g.(rest := g.rest + [line]).Lines() == g.Lines() + [line];
      assert split < g.Lines()[0].time <= end;
      assert (groups[..n] + [groups[n].(rest := groups[n].rest + [line])])[..n] == groups[..n];
    }
  }

  lemma ApartLater(a: real, b: real)
    requires a <= b && Apart(b, a)
    ensures a < b
  {}

  lemma {:induction false} GroupsSeparated(lines: seq<LinePoints>, kind: Kind) returns (split: real)
    requires lines != [] && InOrder(lines)
    ensures Separated(Groups(lines), kind, split, lines[|lines| - 1].time)
  {
    var n := |lines| - 1;
    if n == 0 {
      split := lines[0].time - 1.0;
      FirstSeparated(lines[0], kind, split);
    } else {
      hide Separated, GroupLine;
      split := GroupsSeparated(lines[..n], kind);
      assert Groups(lines[..n]) == GroupLine(Groups(lines[..n][..n - 1]), lines[..n][n - 1]);
      split := NextSeparated(Groups(lines[..n]), lines[n], kind, split, lines[n - 1].time);
    }
  }

  lemma FirstSeparated(line: LinePoints, kind: Kind, split: real)
    requires split < line.time
    ensures Separated(GroupLine([], line), kind, split, line.time)
  {
    assert [Group(line, [])][..0] == [];
    assert Unfiltered([], kind) == [];
  }

  /** For lines in order of time: the kept points are strictly sorted, and at every time they mean
      the same as one point for each timestamp with nothing filtered out. */
  lemma DecodedMeaning(lines: seq<LinePoints>, kind: Kind, t: real)
    requires InOrder(lines)
    ensures var all := Unfiltered(Groups(lines), kind);
      && StrictlySorted(all) && StrictlySorted(Decoded(lines, kind))
      && Alike(ValueAt(all, t, kind), ValueAt(Decoded(lines, kind), t, kind))
  {
    var groups := Groups(lines);
    DecodedIsFiltered(lines, kind);
    if lines != [] {
      var split := GroupsSeparated(lines, kind);
      AddGroup(groups, kind, split, lines[|lines| - 1].time);
    }
    FilteredSorted(Unfiltered(groups, kind), kind);
    FilteredMeaning(Unfiltered(groups, kind), kind, t);
  }

  /** Timing points never are redundant: for lines in order the decoder keeps every one of them, and so
      any lookup among them. */
  lemma TimingDecoded(lines: seq<LinePoints>)
    requires InOrder(lines)
    ensures Decoded(lines, Timing) == Unfiltered(Groups(lines), Timing)
  {
    DecodedMeaning(lines, Timing, 0.0);
    DecodedIsFiltered(lines, Timing);
    UnfilteredKind(Groups(lines), Timing);
    NothingFiltered(Unfiltered(Groups(lines), Timing));
  }

  predicate OfKind(v: Value, kind: Kind) {
    match kind case Timing => v.TimingValue? case Difficulty => v.DifficultyValue? case Effect => v.EffectValue?
  }

  ghost predicate Only(points: seq<Point>, kind: Kind) {
    forall k | 0 <= k < |points| :: OfKind(points[k].value, kind)
  }

  lemma {:induction false} NothingFiltered(points: seq<Point>)
    requires StrictlySorted(points) && Only(points, Timing)
    ensures Filtered(points, Timing) == points
  {
    if points != [] {
      var n := |points| - 1;
      NothingFiltered(points[..n]);
      FilterUnfold(points, Timing);
      hide Filtered, InForce;
      assert points == points[..n] + [points[n]];
    } else {
      assert Filtered([], Timing) == [];
    }
  }

  lemma {:induction false} FirstTimingKind(lines: seq<LinePoints>)
    ensures FirstTiming(lines).Some? ==> FirstTiming(lines).value.value.TimingValue?
  {
    if lines != [] {
      FirstTimingKind(lines[1..]);
    }
  }

  lemma {:induction false} UnfilteredKind(groups: seq<Group>, kind: Kind)
    ensures Only(Unfiltered(groups, kind), kind)
  {
    if groups != [] {
      var n := |groups| - 1;
      UnfilteredKind(groups[..n], kind);
      FirstTimingKind(groups[n].Lines());
    }
  }

  // ---------------------------------------------------------------------------------------------
  // Groups are what they should be

  function AllLines(groups: seq<Group>): seq<LinePoints> {
    if groups == [] then []
    else
      var n := |groups| - 1;
      AllLines(groups[..n]) + groups[n].Lines()
  }

  lemma GroupLineKeeps(groups: seq<Group>, line: LinePoints)
    ensures AllLines(GroupLine(groups, line)) == AllLines(groups) + [line]
  {
    var n := |groups| - 1;
    if n < 0 || Apart(line.time, groups[n].LastTime()) {
      assert (groups + [Group(line, [])])[..n + 1] == groups;
    } else {
      assert (groups[..n] + [groups[n].(rest := groups[n].rest + [line])])[..n] == groups[..n];
    }
  }

  /** Grouping keeps every line, in order. */
  lemma {:induction false} GroupsKeepLines(lines: seq<LinePoints>)
    ensures AllLines(Groups(lines)) == lines
  {
    if lines != [] {
      var n := |lines| - 1;
      hide GroupLine, AllLines;
      GroupsKeepLines(lines[..n]);
      assert lines == lines[..n] + [lines[n]];
      GroupLineKeeps(Groups(lines[..n]), lines[n]);
    }
  }
}
