/**
 Where the peaks of the aim skill's sections come from: nothing but the strain of an object, or the last
 strain before a break, decayed up to the section's begin.
 */
module AimOrigins {
  import HitResults
  import opened AimSections

  /** The section starts with object `i`, which decides its peak. */
  ghost predicate OpenedBy(objects: seq<AimObject>, strains: seq<real>, i: nat, s: Section)
    requires i < |strains| <= |objects|
  {
    s.begin == objects[i].start && s.end == s.begin + 400.0 && s.peak == strains[i]
  }

  /** Object `k` stands within 400 milliseconds in front of `begin`, and none of those up to `i` that do
      is harder. */
  ghost predicate Anchors(objects: seq<AimObject>, strains: seq<real>, i: nat, k: nat, begin: real)
    requires i < |strains| <= |objects|
  {
    && k <= i && begin - 400.0 <= objects[k].start <= begin
    && forall l | 0 <= l <= i && begin - 400.0 < objects[l].start :: strains[l] <= strains[k]
  }

  ghost predicate NothingWaits(objects: seq<AimObject>, i: nat, begin: real)
    requires i < |objects|
  {
    forall l | 0 <= l <= i :: objects[l].start <= begin - 400.0
  }

  /** What is left of a strain after `ms` milliseconds. */
  function AfterBreak(setup: Setup, strain: real, ms: real): real {
    strain * setup.decay(ms)
  }

  /** The section starts in the break after object `i`, with that one's strain decayed. */
  ghost predicate CarriedFrom(setup: Setup, objects: seq<AimObject>, strains: seq<real>, i: nat, s: Section)
    requires i < |strains| <= |objects|
  {
    && i + 1 < |objects| && objects[i].start <= s.begin < objects[i + 1].start
    && CarriedOn(objects, strains, i, s, AfterBreak(setup, strains[i], s.begin - objects[i].start))
  }

  /** If an object within 400 milliseconds still waits, the hardest such one decides the end, and the peak
      too unless the decayed strain is above it. */
  ghost predicate CarriedOn(objects: seq<AimObject>, strains: seq<real>, i: nat, s: Section, carried: real)
    requires i < |strains| <= |objects|
  {
    || (NothingWaits(objects, i, s.begin) && s.end == s.begin + 400.0 && s.peak == carried)
    || exists k: nat | Anchors(objects, strains, i, k, s.begin) :: Anchored(objects, strains, k, s, carried)
  }

  ghost predicate Anchored(objects: seq<AimObject>, strains: seq<real>, k: nat, s: Section, carried: real)
    requires k < |strains| <= |objects|
  {
    s.end == objects[k].start + 400.0 && s.peak == HitResults.MaxReal(carried, strains[k])
  }

  ghost predicate Origin(setup: Setup, objects: seq<AimObject>, strains: seq<real>, i: nat, s: Section)
    requires i < |strains| <= |objects|
  {
    OpenedBy(objects, strains, i, s) || CarriedFrom(setup, objects, strains, i, s)
  }

  /** `s` lasts as long as `full`, or until a harder object. */
  ghost predicate CutFrom(objects: seq<AimObject>, strains: seq<real>, s: Section, full: Section)
    requires |strains| <= |objects|
  {
    && s.begin == full.begin && s.peak == full.peak
    && (s.end == full.end
        || exists j | 0 <= j < |strains| :: s.end == objects[j].start <= full.end && strains[j] > s.peak)
  }

  ghost predicate Explained(setup: Setup, objects: seq<AimObject>, strains: seq<real>, s: Section)
    requires |strains| <= |objects|
  {
    exists i: nat, full: Section | i < |strains| && Origin(setup, objects, strains, i, full) ::
      CutFrom(objects, strains, s, full)
  }

  ghost predicate AllExplained(setup: Setup, objects: seq<AimObject>, strains: seq<real>, sections: seq<Section>)
    requires |strains| <= |objects|
  {
    forall s | s in sections :: Explained(setup, objects, strains, s)
  }

  // ---------------------------------------------------------------------------------------------
  // What every step keeps

  ghost predicate IsObject(objects: seq<AimObject>, strains: seq<real>, k: int, q: Queued)
    requires |strains| <= |objects|
  {
    0 <= k < |strains| && q == Queued(strains[k], objects[k].start)
  }

  /** Only processed objects wait, and the running strain is that of the last one. */
  ghost predicate Known(setup: Setup, objects: seq<AimObject>, strains: seq<real>, c: Cursor)
    requires 0 < |strains| <= |objects|
  {
    && c.currentStrain == strains[|strains| - 1] && (setup.autopilot ==> c.currentStrain == 0.0)
    && (forall q | q in c.queue :: exists k :: IsObject(objects, strains, k, q))
    && exists i: nat | i < |strains| :: Origin(setup, objects, strains, i, Current(c))
  }

  /** The next section of a break. */
  lemma NextOrigin(setup: Setup, objects: seq<AimObject>, strains: seq<real>, c: Cursor)
    requires 0 < |strains| < |objects| && c.end < objects[|strains|].start
    requires Keeps(c, objects, strains, objects[|strains|].start) && Known(setup, objects, strains, c)
    ensures var n := |strains| - 1;
      CarriedFrom(setup, objects, strains, n, Current(NextSection(setup, c, objects[n].start)))
  {
    hide Origin, AnchorCovered;
    var n := |strains| - 1;
    var next := NextSection(setup, c, objects[n].start);
    if c.queue == [] {
      forall l | 0 <= l <= n
        ensures objects[l].start <= next.begin - 400.0
      {
        assert Anchor(c) < objects[l].start ==> Dominated(c.queue, objects[l].start, strains[l]);
      }
    } else {
      var q := c.queue[0];
      assert q in c.queue;
      var k: nat :| IsObject(objects, strains, k, q);
      forall l | 0 <= l <= n && next.begin - 400.0 < objects[l].start
        ensures strains[l] <= strains[k]
      {
        assert Dominated(c.queue, objects[l].start, strains[l]);
      }
      assert Anchors(objects, strains, n, k, next.begin);
      assert Anchored(objects, strains, k, Current(next), AfterBreak(setup, strains[n], next.begin - objects[n].start));
    }
  }

  lemma NextKnown(setup: Setup, objects: seq<AimObject>, strains: seq<real>, c: Cursor)
    requires 0 < |strains| < |objects| && c.end < objects[|strains|].start
    requires Keeps(c, objects, strains, objects[|strains|].start) && Known(setup, objects, strains, c)
    ensures Known(setup, objects, strains, NextSection(setup, c, objects[|strains| - 1].start))
  {
    hide Keeps;
    NextOrigin(setup, objects, strains, c);
    hide CarriedFrom, IsObject;
    var next := NextSection(setup, c, objects[|strains| - 1].start);
    assert Origin(setup, objects, strains, |strains| - 1, Current(next));
    assert forall q | q in next.queue :: q in c.queue;
  }

  lemma CurrentExplained(setup: Setup, objects: seq<AimObject>, strains: seq<real>, c: Cursor)
    requires 0 < |strains| <= |objects| && Known(setup, objects, strains, c)
    ensures Explained(setup, objects, strains, Current(c))
  {
    hide Origin, IsObject;
    assert CutFrom(objects, strains, Current(c), Current(c));
  }

  lemma {:induction false} BackfillExplained(setup: Setup, objects: seq<AimObject>, strains: seq<real>, c: Cursor)
    requires 0 < |strains| < |objects|
    requires Keeps(c, objects, strains, objects[|strains|].start) && Known(setup, objects, strains, c)
    ensures var (c', saved) := Backfill(setup, c, objects[|strains| - 1].start, objects[|strains|].start);
      Known(setup, objects, strains, c') && AllExplained(setup, objects, strains, saved)
    decreases |c.queue|, Behind(c, objects[|strains|].start)
  {
    var previous, now := objects[|strains| - 1].start, objects[|strains|].start;
    if now > c.end {
      hide Keeps, Known, Explained;
      NextSectionKeeps(setup, c, previous, objects, strains, now);
      NextSectionAdvances(setup, c, previous, now);
      NextKnown(setup, objects, strains, c);
      CurrentExplained(setup, objects, strains, c);
      BackfillExplained(setup, objects, strains, NextSection(setup, c, previous));
    }
  }

  // ---------------------------------------------------------------------------------------------
  // One object more

  lemma CarriedLater(objects: seq<AimObject>, strains: seq<real>, strain: real, i: nat, s: Section, carried: real)
    requires i < |strains| < |objects| && CarriedOn(objects, strains, i, s, carried)
    ensures CarriedOn(objects, strains + [strain], i, s, carried)
  {
    var later := strains + [strain];
    if k: nat :| Anchors(objects, strains, i, k, s.begin) && Anchored(objects, strains, k, s, carried) {
      assert Anchors(objects, later, i, k, s.begin) && Anchored(objects, later, k, s, carried);
    }
  }

  lemma OriginLater(setup: Setup, objects: seq<AimObject>, strains: seq<real>, strain: real, i: nat, s: Section)
    requires i < |strains| < |objects| && Origin(setup, objects, strains, i, s)
    ensures Origin(setup, objects, strains + [strain], i, s)
  {
    hide CarriedOn, AfterBreak;
    if CarriedFrom(setup, objects, strains, i, s) {
      CarriedLater(objects, strains, strain, i, s, AfterBreak(setup, strains[i], s.begin - objects[i].start));
    }
  }

  lemma ExplainedLater(setup: Setup, objects: seq<AimObject>, strains: seq<real>, strain: real, s: Section)
    requires |strains| < |objects| && Explained(setup, objects, strains, s)
    ensures Explained(setup, objects, strains + [strain], s)
  {
    hide Origin;
    var i: nat, full: Section :| i < |strains| && Origin(setup, objects, strains, i, full)
                                 && CutFrom(objects, strains, s, full);
    OriginLater(setup, objects, strains, strain, i, full);
    var later := strains + [strain];
    if s.end != full.end {
      var j :| 0 <= j < |strains| && s.end == objects[j].start <= full.end && strains[j] > s.peak;
      assert later[j] == strains[j];
    }
    assert CutFrom(objects, later, s, full);
  }

  /** A harder object cuts the section and opens its own. */
  lemma HarderExplained(setup: Setup, objects: seq<AimObject>, strains: seq<real>, c: Cursor)
    requires 0 < |strains| < |objects| && Known(setup, objects, strains, c) && objects[|strains|].start <= c.end
    requires StrainValue(setup, c.currentStrain, objects[|strains|]) > c.peak
    ensures var n := |strains|; var later := strains + [StrainValue(setup, c.currentStrain, objects[n])];
      && Known(setup, objects, later, Begin(setup, c, objects[n]).(queue := []))
      && Explained(setup, objects, later, Current(c).(end := objects[n].start))
  {
    hide CarriedFrom, IsObject;
    var n, strain := |strains|, StrainValue(setup, c.currentStrain, objects[|strains|]);
    var later := strains + [strain];
    var i: nat :| i < n && Origin(setup, objects, strains, i, Current(c));
    OriginLater(setup, objects, strains, strain, i, Current(c));
    assert later[n] == strain;
    assert CutFrom(objects, later, Current(c).(end := objects[n].start), Current(c));
    var begun := Begin(setup, c, objects[n]).(queue := []);
    assert Origin(setup, objects, later, n, Current(begun));
    assert Known(setup, objects, later, begun);
  }

  lemma EasierExplained(setup: Setup, objects: seq<AimObject>, strains: seq<real>, c: Cursor)
    requires 0 < |strains| < |objects| && Known(setup, objects, strains, c)
    requires StrainValue(setup, c.currentStrain, objects[|strains|]) <= c.peak
    ensures var n := |strains|; var later := strains + [StrainValue(setup, c.currentStrain, objects[n])];
      Known(setup, objects, later, Enter(setup, c, objects[n]).0)
  {
    hide CarriedFrom, OpenedBy;
    var n, strain := |strains|, StrainValue(setup, c.currentStrain, objects[|strains|]);
    var later, entered := strains + [strain], Enter(setup, c, objects[n]).0;
    var i: nat :| i < n && Origin(setup, objects, strains, i, Current(c));
    OriginLater(setup, objects, strains, strain, i, Current(c));
    assert Origin(setup, objects, later, i, Current(entered));
    forall q | q in entered.queue
      ensures exists k :: IsObject(objects, later, k, q)
    {
      if q in c.queue {
        var k :| IsObject(objects, strains, k, q);
        assert IsObject(objects, later, k, q);
      } else {
        assert IsObject(objects, later, n, q);
      }
    }
  }

  lemma EnterExplained(setup: Setup, objects: seq<AimObject>, strains: seq<real>, c: Cursor)
    requires 0 < |strains| < |objects| && Known(setup, objects, strains, c) && objects[|strains|].start <= c.end
    ensures var n := |strains|; var later := strains + [StrainValue(setup, c.currentStrain, objects[n])];
      var (entered, saved) := Enter(setup, c, objects[n]);
      Known(setup, objects, later, entered) && AllExplained(setup, objects, later, saved)
  {
    hide Known, Explained, StrainValue, CurrentStrain;
    if StrainValue(setup, c.currentStrain, objects[|strains|]) > c.peak {
      HarderExplained(setup, objects, strains, c);
    } else {
      EasierExplained(setup, objects, strains, c);
    }
  }

  ghost predicate Traced(setup: Setup, objects: seq<AimObject>, p: Progress)
    requires 0 < |p.strains| <= |objects|
  {
    Known(setup, objects, p.strains, p.cursor) && AllExplained(setup, objects, p.strains, p.sections)
  }

  lemma ProcessTraced(setup: Setup, objects: seq<AimObject>, p: Progress)
    requires 0 < |p.strains| < |objects| && InOrder(objects) && Sound(p, objects) && Traced(setup, objects, p)
    ensures var n := |p.strains|;
      var (cursor, saved) := Process(setup, p.cursor, objects, n);
      Traced(setup, objects,
        Progress(cursor, p.sections + saved, p.strains + [StrainOf(setup, p.cursor, objects, n)]))
  {
    hide Keeps, Known, Explained, Backfill, Enter, Tiles, AllCover;
    var n := |p.strains|;
    var strain := StrainOf(setup, p.cursor, objects, n);
    KeepsLater(p.cursor, objects, p.strains, objects[n - 1].start, objects[n].start);
    var (filled, saved) := Backfill(setup, p.cursor, objects[n - 1].start, objects[n].start);
    BackfillKeeps(setup, p.cursor, objects[n - 1].start, objects, p.strains, objects[n].start);
    BackfillStrain(setup, p.cursor, objects[n - 1].start, objects[n].start);
    BackfillExplained(setup, objects, p.strains, p.cursor);
    EnterExplained(setup, objects, p.strains, filled);
    forall s | s in p.sections + saved
      ensures Explained(setup, objects, p.strains + [strain], s)
    {
      ExplainedLater(setup, objects, p.strains, strain, s);
    }
  }

  lemma {:induction false} RunTraced(setup: Setup, objects: seq<AimObject>, n: nat)
    requires 0 < n <= |objects| && InOrder(objects)
    ensures Traced(setup, objects, Run(setup, objects, n))
  {
    if n > 1 {
      hide Sound, Traced, Process;
      RunTraced(setup, objects, n - 1);
      RunIsSound(setup, objects, n - 1);
      ProcessTraced(setup, objects, Run(setup, objects, n - 1));
    } else {
      FirstTraced(setup, objects);
    }
  }

  lemma FirstTraced(setup: Setup, objects: seq<AimObject>)
    requires objects != []
    ensures Traced(setup, objects, Run(setup, objects, 1))
  {
    assert Run(setup, objects, 0) == Progress(START, [], []);
    var p := Run(setup, objects, 1);
    assert Origin(setup, objects, p.strains, 0, Current(p.cursor));
  }

  // ---------------------------------------------------------------------------------------------
  // For whole runs

  /** Every section, saved or current, is opened by an object or carried over a break. */
  lemma SectionsExplained(setup: Setup, objects: seq<AimObject>, n: nat)
    requires 0 < n <= |objects| && InOrder(objects)
    ensures var p := Run(setup, objects, n);
      && AllExplained(setup, objects, p.strains, p.sections)
      && exists i: nat | i < n :: Origin(setup, objects, p.strains, i, Current(p.cursor))
  {
    hide Origin, AllExplained;
    RunTraced(setup, objects, n);
  }

  ghost predicate AttainedBy(setup: Setup, objects: seq<AimObject>, strains: seq<real>, i: nat, s: Section)
    requires i < |strains| <= |objects|
  {
    || s.peak == strains[i]
    || (i + 1 < |objects| && objects[i].start <= s.begin < objects[i + 1].start
        && s.peak == strains[i] * setup.decay(s.begin - objects[i].start))
  }

  lemma CarriedAttained(objects: seq<AimObject>, strains: seq<real>, i: nat, s: Section, carried: real)
    requires i < |strains| <= |objects| && CarriedOn(objects, strains, i, s, carried)
    ensures s.peak == carried || exists k: nat | k < |strains| :: s.peak == strains[k]
  {}

  lemma OriginAttained(setup: Setup, objects: seq<AimObject>, strains: seq<real>, i: nat, s: Section)
    requires i < |strains| <= |objects| && Origin(setup, objects, strains, i, s)
    ensures exists k: nat | k < |strains| :: AttainedBy(setup, objects, strains, k, s)
  {
    hide CarriedOn;
    if !AttainedBy(setup, objects, strains, i, s) {
      CarriedAttained(objects, strains, i, s, AfterBreak(setup, strains[i], s.begin - objects[i].start));
      var k: nat :| k < |strains| && s.peak == strains[k];
      assert AttainedBy(setup, objects, strains, k, s);
    }
  }

  /** Every saved peak is the strain of an object, or that of the last object before a break, decayed
      from there to the begin of the section. */
  lemma PeaksAttained(setup: Setup, objects: seq<AimObject>, n: nat, s: Section)
    requires 0 < n <= |objects| && InOrder(objects) && s in Run(setup, objects, n).sections
    ensures exists i: nat | i < n :: AttainedBy(setup, objects, Run(setup, objects, n).strains, i, s)
  {
    hide Origin, AttainedBy, Run;
    SectionsExplained(setup, objects, n);
    var strains := Run(setup, objects, n).strains;
    assert Explained(setup, objects, strains, s);
    var i: nat, full: Section :| i < n && Origin(setup, objects, strains, i, full)
                                 && CutFrom(objects, strains, s, full);
    OriginAttained(setup, objects, strains, i, full);
    var k: nat :| k < n && AttainedBy(setup, objects, strains, k, full);
    assert AttainedBy(setup, objects, strains, k, s) by { SameAttained(setup, objects, strains, k, s, full); }
  }

  lemma SameAttained(setup: Setup, objects: seq<AimObject>, strains: seq<real>, k: nat, s: Section, full: Section)
    requires k < |strains| <= |objects| && s.begin == full.begin && s.peak == full.peak
    ensures AttainedBy(setup, objects, strains, k, full) ==> AttainedBy(setup, objects, strains, k, s)
  {}

  // ---------------------------------------------------------------------------------------------
  // The strains themselves

  lemma {:induction false} RunStrain(setup: Setup, objects: seq<AimObject>, n: nat)
    requires n <= |objects|
    ensures var p := Run(setup, objects, n);
      && p.cursor.currentStrain == (if n == 0 then 0.0 else p.strains[n - 1])
      && (setup.autopilot ==> p.cursor.currentStrain == 0.0)
  {
    if n > 0 {
      hide Backfill;
      RunStrain(setup, objects, n - 1);
      var p := Run(setup, objects, n - 1);
      if n > 1 {
        BackfillStrain(setup, p.cursor, objects[n - 2].start, objects[n - 1].start);
      }
    }
  }

  /** Each strain is the one before it, decayed, with the object's difficulty making up for what decayed. */
  lemma {:induction false} StrainsFollow(setup: Setup, objects: seq<AimObject>, n: nat, i: nat)
    requires i < n <= |objects|
    ensures var strains := Run(setup, objects, n).strains; var kept := setup.decay(objects[i].strainTime);
      strains[i] == if setup.autopilot then 0.0
                    else (if i == 0 then 0.0 else strains[i - 1]) * kept + objects[i].difficulty * (1.0 - kept)
  {
    hide Process;
    if i < n - 1 {
      StrainsFollow(setup, objects, n - 1, i);
    } else {
      RunStrain(setup, objects, n - 1);
    }
  }

  ghost predicate Decays(setup: Setup) {
    forall ms :: 0.0 <= setup.decay(ms) <= 1.0
  }

  ghost predicate NoHarder(objects: seq<AimObject>, d: real) {
    forall i | 0 <= i < |objects| :: 0.0 <= objects[i].difficulty <= d
  }

  lemma Between(a: real, b: real, t: real, d: real)
    requires 0.0 <= t <= 1.0 && 0.0 <= a <= d && 0.0 <= b <= d
    ensures 0.0 <= a * t + b * (1.0 - t) <= d
  {
    HitResults.MulNonNegative(a, t);
    HitResults.MulNonNegative(b, 1.0 - t);
    HitResults.MulNonNegative(d - a, t);
    HitResults.MulNonNegative(d - b, 1.0 - t);
    assert (d - a) * t + (d - b) * (1.0 - t) == d - (a * t + b * (1.0 - t));
  }

  /** No strain is above the hardest object. */
  lemma {:induction false} StrainsBounded(setup: Setup, objects: seq<AimObject>, n: nat, i: nat, d: real)
    requires i < n <= |objects| && Decays(setup) && NoHarder(objects, d)
    ensures 0.0 <= Run(setup, objects, n).strains[i] <= d
    decreases i
  {
    var strains, kept := Run(setup, objects, n).strains, setup.decay(objects[i].strainTime);
    StrainsFollow(setup, objects, n, i);
    hide Run;
    if i > 0 {
      StrainsBounded(setup, objects, n, i - 1, d);
    }
    Between(if i == 0 then 0.0 else strains[i - 1], objects[i].difficulty, kept, d);
  }

  /** And neither is any section. */
  lemma PeaksBounded(setup: Setup, objects: seq<AimObject>, n: nat, s: Section, d: real)
    requires 0 < n <= |objects| && InOrder(objects) && s in Run(setup, objects, n).sections
    requires Decays(setup) && NoHarder(objects, d)
    ensures 0.0 <= s.peak <= d
  {
    hide Run;
    PeaksAttained(setup, objects, n, s);
    var strains := Run(setup, objects, n).strains;
    var i: nat :| i < n && AttainedBy(setup, objects, strains, i, s);
    StrainsBounded(setup, objects, n, i, d);
    Between(strains[i], 0.0, setup.decay(s.begin - objects[i].start), d);
  }
}
