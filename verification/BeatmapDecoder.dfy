/** The decoder's state while it reads timing points. */
module BeatmapDecoder {
  import opened HitResults
  import opened Timeline

  /** One call of `add_pending_point`. */
  function Pend(tl: Timelines, p: Point, kind: Kind, timingChange: bool): Timelines {
    var f := if Apart(p.time, tl.time) then tl.FlushAll() else tl;
    f.(time := p.time,
       timing := if kind.Timing? then Push(f.timing, p, timingChange) else f.timing,
       difficulty := if kind.Difficulty? then Push(f.difficulty, p, timingChange) else f.difficulty,
       effect := if kind.Effect? then Push(f.effect, p, timingChange) else f.effect)
  }

  lemma PendAll(tl: Timelines, line: LinePoints)
    ensures var first := if line.timingChange then Pend(tl, PointOf(line, Timing), Timing, true) else tl;
      Pend(Pend(first, PointOf(line, Difficulty), Difficulty, line.timingChange), PointOf(line, Effect), Effect,
        line.timingChange)
      == AddLine(tl, line)
  {
    hide Flush, Push;
    assert !Apart(line.time, line.time);
  }

  class BeatmapState {
    const scrolls: bool
    var timingPoints: seq<Point>
    var difficultyPoints: seq<Point>
    var effectPoints: seq<Point>
    var pendingControlPointsTime: real
    var pendingTimingPoint: Option<Point>
    var pendingDifficultyPoint: Option<Point>
    var pendingEffectPoint: Option<Point>

    constructor (scrolls: bool)
      ensures Valid() && State() == START && this.scrolls == scrolls
    {
      this.scrolls := scrolls;
      timingPoints, difficultyPoints, effectPoints, pendingControlPointsTime := [], [], [], 0.0;
      pendingTimingPoint, pendingDifficultyPoint, pendingEffectPoint := None, None, None;
    }

    function State(): Timelines
      reads this
    {
      Timelines(pendingControlPointsTime, Track(timingPoints, pendingTimingPoint),
                Track(difficultyPoints, pendingDifficultyPoint), Track(effectPoints, pendingEffectPoint))
    }

    ghost predicate Valid()
      reads this
    {
      StrictlySorted(timingPoints) && StrictlySorted(difficultyPoints) && StrictlySorted(effectPoints)
    }

    /** `flush_pending_points`. */
    method FlushPendingPoints()
      requires Valid()
      modifies this
      ensures Valid() && State() == old(State()).FlushAll()
    {
      if pendingTimingPoint.Some? {
        timingPoints := AddControlPoint(timingPoints, pendingTimingPoint.value, Timing);
        pendingTimingPoint := None;
      }
      if pendingDifficultyPoint.Some? {
        difficultyPoints := AddControlPoint(difficultyPoints, pendingDifficultyPoint.value, Difficulty);
        pendingDifficultyPoint := None;
      }
      if pendingEffectPoint.Some? {
        effectPoints := AddControlPoint(effectPoints, pendingEffectPoint.value, Effect);
        pendingEffectPoint := None;
      }
    }

    /** `add_pending_point`. */
    method AddPendingPoint(time: real, value: Value, kind: Kind, timingChange: bool)
      requires Valid()
      modifies this
      ensures Valid() && State() == Pend(old(State()), Point(time, value), kind, timingChange)
    {
      if Apart(time, pendingControlPointsTime) {
        FlushPendingPoints();
      }
      var p := Some(Point(time, value));
      match kind {
        case Timing => if !timingChange || pendingTimingPoint.None? { pendingTimingPoint := p; }
        case Difficulty => if !timingChange || pendingDifficultyPoint.None? { pendingDifficultyPoint := p; }
        case Effect => if !timingChange || pendingEffectPoint.None? { pendingEffectPoint := p; }
      }
      pendingControlPointsTime := time;
    }

    /** `parse_timing_points`, from where the numbers of the line are known. */
    method ParseTimingPoints(line: TimingLine) returns (r: Result<LinePoints>)
      requires Valid()
      modifies this
      ensures Valid() && r == Parse(line, scrolls)
      ensures State() == match r case Ok(points) => AddLine(old(State()), points) case Err(_) => old(State())
    {
      hide AddLine, Pend, Valid;
      r := Parse(line, scrolls);
      if r.Err? {
        return;
      }
      var points := r.value;
      PendAll(State(), points);
      if points.timingChange {
        AddPendingPoint(line.time, points.timing, Timing, true);
      }
      AddPendingPoint(line.time, points.difficulty, Difficulty, points.timingChange);
      AddPendingPoint(line.time, points.effect, Effect, points.timingChange);
    }
  }

  method AddControlPoint(points: seq<Point>, p: Point, kind: Kind) returns (after: seq<Point>)
    requires StrictlySorted(points)
    ensures after == AddPoint(points, p, kind) && StrictlySorted(after)
  {
    InsertSorted(points, p);
    var existing := PointAtBySearch(points, p.time);
    var redundant := Redundant(p.value, if existing.Some? then existing.value.value else Default(kind));
    if redundant {
      return points;
    }
    var found, i := BinarySearch(points, p.time);
    after := if found then points[i := p] else points[..i] + [p] + points[i..];
  }
}
