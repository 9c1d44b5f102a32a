/**
 osu!'s aim skill: strain sections of variable length. A section ends 400 milliseconds after the
 object that anchors it, or where a harder object starts; the objects that may anchor later
 sections wait in a queue.
 */
module AimSections {
  import HitResults

  const MAX_SECTION_LENGTH: real := 400.0

  /** `difficulty` is the evaluators' value; `strainTime` is what the decay is taken over. */
  datatype AimObject = AimObject(start: real, strainTime: real, difficulty: real, isSlider: bool)

  datatype Queued = Queued(strain: real, start: real)

  datatype Section = Section(begin: real, end: real, peak: real) {
    function Length(): real {
      end - begin
    }
  }

  datatype Cursor = Cursor(currentStrain: real, peak: real, begin: real, end: real, queue: seq<Queued>)

  datatype Setup = Setup(autopilot: bool, decay: real -> real)

  ghost predicate InOrder(objects: seq<AimObject>) {
    forall i, j | 0 <= i <= j < |objects| :: objects[i].start <= objects[j].start
  }

  function CurrentStrain(setup: Setup, before: real, curr: AimObject): real {
    if setup.autopilot then before
    else before * setup.decay(curr.strainTime) + curr.difficulty * (1.0 - setup.decay(curr.strainTime))
  }

  function Decayed(setup: Setup, strain: real, ms: real): real {
    strain * setup.decay(ms)
  }

  /** `strain_value_at`. */
  function StrainValue(setup: Setup, before: real, curr: AimObject): real {
    if setup.autopilot then 0.0 else CurrentStrain(setup, before, curr)
  }

  // ---------------------------------------------------------------------------------------------
  // The steps, without the stored peaks

  function Current(c: Cursor): Section {
    Section(c.begin, c.end, c.peak)
  }

  /** One round of `backfill_peaks`. */
  function NextSection(setup: Setup, c: Cursor, previousStart: real): Cursor {
    var decayed := Decayed(setup, c.currentStrain, c.end - previousStart);
    if c.queue == [] then c.(begin := c.end, end := c.end + MAX_SECTION_LENGTH, peak := decayed)
    else c.(begin := c.end, end := c.queue[0].start + MAX_SECTION_LENGTH,
            peak := HitResults.MaxReal(decayed, c.queue[0].strain), queue := c.queue[1..])
  }

  /** How far the end of the section lies behind. */
  function Behind(c: Cursor, start: real): nat {
    if start > c.end then (start - c.end).Floor + 1 else 0
  }

  lemma NextSectionAdvances(setup: Setup, c: Cursor, previousStart: real, start: real)
    requires start > c.end
    ensures var c' := NextSection(setup, c, previousStart);
      |c'.queue| < |c.queue| || (|c'.queue| == |c.queue| && Behind(c', start) < Behind(c, start))
  {}

  /** The sections that end before `start`, and the one that does not. */
  function Backfill(setup: Setup, c: Cursor, previousStart: real, start: real): (r: (Cursor, seq<Section>))
    decreases |c.queue|, Behind(c, start)
  {
    if start > c.end then
      NextSectionAdvances(setup, c, previousStart, start);
      var r := Backfill(setup, NextSection(setup, c, previousStart), previousStart, start);
      (r.0, [Current(c)] + r.1)
    else (c, [])
  }

  /** Elements that a later, harder object makes useless leave the back of the queue. */
  function Popped(queue: seq<Queued>, strain: real): (r: seq<Queued>)
    ensures r <= queue
  {
    if queue != [] && queue[|queue| - 1].strain < strain then Popped(queue[..|queue| - 1], strain) else queue
  }

  function Begin(setup: Setup, c: Cursor, curr: AimObject): Cursor {
    c.(currentStrain := CurrentStrain(setup, c.currentStrain, curr), peak := StrainValue(setup, c.currentStrain, curr),
       begin := curr.start, end := curr.start + MAX_SECTION_LENGTH)
  }

  /** What follows the backfill: a harder object starts its own section, another one queues up. */
  function Enter(setup: Setup, c: Cursor, curr: AimObject): (Cursor, seq<Section>) {
    var strain := StrainValue(setup, c.currentStrain, curr);
    if strain > c.peak then (Begin(setup, c, curr).(queue := []), [Current(c).(end := curr.start)])
    else (c.(currentStrain := CurrentStrain(setup, c.currentStrain, curr),
             queue := Popped(c.queue, strain) + [Queued(strain, curr.start)]), [])
  }

  /** `process_internal`: the new state, and the sections to save. */
  function Process(setup: Setup, c: Cursor, objects: seq<AimObject>, idx: nat): (Cursor, seq<Section>)
    requires idx < |objects|
  {
    if idx == 0 then (Begin(setup, c, objects[0]), [])
    else
      var (filled, saved) := Backfill(setup, c, objects[idx - 1].start, objects[idx].start);
      var (entered, last) := Enter(setup, filled, objects[idx]);
      (entered, saved + last)
  }

  /** The state after `n` objects, every section saved so far, and every object's strain. */
  datatype Progress = Progress(cursor: Cursor, sections: seq<Section>, strains: seq<real>)

  const START: Cursor := Cursor(0.0, 0.0, 0.0, 0.0, [])

  function StrainOf(setup: Setup, c: Cursor, objects: seq<AimObject>, idx: nat): real
    requires idx < |objects|
  {
    StrainValue(setup, c.currentStrain, objects[idx])
  }

  function Run(setup: Setup, objects: seq<AimObject>, n: nat): (p: Progress)
    requires n <= |objects|
    ensures |p.strains| == n
  {
    if n == 0 then Progress(START, [], [])
    else
      var p := Run(setup, objects, n - 1);
      var (cursor, saved) := Process(setup, p.cursor, objects, n - 1);
      Progress(cursor, p.sections + saved, p.strains + [StrainOf(setup, p.cursor, objects, n - 1)])
  }

  // ---------------------------------------------------------------------------------------------
  // What every step keeps

  /** Where the object stands that the section's end was measured from. */
  function Anchor(c: Cursor): real {
    c.end - MAX_SECTION_LENGTH
  }

  /** Time-ordered, never getting harder, within the section and not above its peak. */
  ghost predicate QueueOrdered(c: Cursor, now: real) {
    && (forall k | 0 <= k < |c.queue| :: Anchor(c) <= c.queue[k].start <= c.end && c.queue[k].start <= now)
    && (forall k | 0 <= k < |c.queue| :: c.queue[k].strain <= c.peak)
    && (forall k, l | 0 <= k <= l < |c.queue| :: c.queue[k].start <= c.queue[l].start)
    && (forall k, l | 0 <= k <= l < |c.queue| :: c.queue[l].strain <= c.queue[k].strain)
  }

  /** Some waiting object is at least as late and at least as hard. */
  ghost predicate Dominated(queue: seq<Queued>, start: real, strain: real) {
    exists k | 0 <= k < |queue| :: start <= queue[k].start && strain <= queue[k].strain
  }

  ghost predicate AllDominated(c: Cursor, objects: seq<AimObject>, strains: seq<real>)
    requires |strains| <= |objects|
  {
    forall i | 0 <= i < |strains| && Anchor(c) < objects[i].start :: Dominated(c.queue, objects[i].start, strains[i])
  }

  ghost predicate Placed(c: Cursor, objects: seq<AimObject>, n: nat, now: real)
    requires n <= |objects|
  {
    && Anchor(c) <= c.begin <= now && c.begin <= c.end
    && forall i | 0 <= i < n :: objects[i].start <= now && objects[i].start <= c.end
  }

  /** The section's peak covers its anchor and every processed object from there on. */
  ghost predicate PeakCovers(c: Cursor, objects: seq<AimObject>, strains: seq<real>)
    requires |strains| <= |objects|
  {
    forall i | 0 <= i < |strains| && Anchor(c) <= objects[i].start :: strains[i] <= c.peak
  }

  /** Of two objects at one time, the easier one may anchor a section behind the harder one's. Such a
      section is empty, and the backfill leaves it at once. */
  ghost predicate AnchorCovered(c: Cursor, objects: seq<AimObject>, strains: seq<real>, now: real)
    requires |strains| <= |objects|
  {
    PeakCovers(c, objects, strains) || (now > c.end && c.begin == c.end)
  }

  ghost predicate Keeps(c: Cursor, objects: seq<AimObject>, strains: seq<real>, now: real)
    requires |strains| <= |objects|
  {
    && QueueOrdered(c, now) && AllDominated(c, objects, strains) && Placed(c, objects, |strains|, now)
    && AnchorCovered(c, objects, strains, now)
  }

  lemma KeepsPeak(c: Cursor, objects: seq<AimObject>, strains: seq<real>, now: real)
    requires |strains| <= |objects| && Keeps(c, objects, strains, now) && now <= c.end
    ensures PeakCovers(c, objects, strains)
  {}

  /** The queue decides what the next section's peak covers. */
  lemma NextSectionCovers(setup: Setup, c: Cursor, previousStart: real, objects: seq<AimObject>, strains: seq<real>,
                          now: real)
    requires |strains| <= |objects| && now > c.end
    requires QueueOrdered(c, now) && AllDominated(c, objects, strains) && Placed(c, objects, |strains|, now)
    ensures AnchorCovered(NextSection(setup, c, previousStart), objects, strains, now)
  {
    var next := NextSection(setup, c, previousStart);
    if next.end > c.end {
      forall i | 0 <= i < |strains| && Anchor(next) <= objects[i].start
        ensures strains[i] <= next.peak
      {
        assert Dominated(c.queue, objects[i].start, strains[i]);
        var k :| 0 <= k < |c.queue| && objects[i].start <= c.queue[k].start && strains[i] <= c.queue[k].strain;
        assert c.queue[k].strain <= c.queue[0].strain <= next.peak;
      }
    }
  }

  lemma NextSectionKeeps(setup: Setup, c: Cursor, previousStart: real, objects: seq<AimObject>, strains: seq<real>,
                         now: real)
    requires |strains| <= |objects| && Keeps(c, objects, strains, now) && now > c.end
    ensures Keeps(NextSection(setup, c, previousStart), objects, strains, now)
  {
    NextSectionCovers(setup, c, previousStart, objects, strains, now);
    hide PeakCovers, AnchorCovered;
    var c' := NextSection(setup, c, previousStart);
    forall i | 0 <= i < |strains| && Anchor(c') < objects[i].start
      ensures Dominated(c'.queue, objects[i].start, strains[i])
    {
      var k :| 0 <= k < |c.queue| && objects[i].start <= c.queue[k].start && strains[i] <= c.queue[k].strain;
      assert c.queue[k] == c'.queue[k - 1];
    }
  }

  /** The sections follow one another from `first` to `last`, none longer than 400 milliseconds. */
  ghost predicate Tiles(sections: seq<Section>, first: real, last: real) {
    if sections == [] then first == last
    else
      && sections[0].begin == first && 0.0 <= sections[0].Length() <= MAX_SECTION_LENGTH
      && Tiles(sections[1..], sections[0].end, last)
  }

  lemma {:induction false} TilesConcat(a: seq<Section>, b: seq<Section>, first: real, middle: real, last: real)
    requires Tiles(a, first, middle) && Tiles(b, middle, last)
    ensures Tiles(a + b, first, last)
  {
    if a == [] {
      assert a + b == b;
    } else {
      assert (a + b)[1..] == a[1..] + b;
      TilesConcat(a[1..], b, a[0].end, middle, last);
    }
  }

  lemma {:induction false} TilesEnd(sections: seq<Section>, first: real, last: real, j: nat)
    requires Tiles(sections, first, last) && j < |sections|
    ensures first <= sections[j].begin <= sections[j].end <= last
  {
    TilesOrder(sections[1..], sections[0].end, last);
    if j > 0 {
      TilesEnd(sections[1..], sections[0].end, last, j - 1);
    }
  }

  lemma {:induction false} TilesOrder(sections: seq<Section>, first: real, last: real)
    requires Tiles(sections, first, last)
    ensures first <= last
  {
    if sections != [] {
      TilesOrder(sections[1..], sections[0].end, last);
    }
  }

  function SumOfLengths(sections: seq<Section>): real {
    if sections == [] then 0.0 else sections[0].Length() + SumOfLengths(sections[1..])
  }

  lemma {:induction false} TilesLength(sections: seq<Section>, first: real, last: real)
    requires Tiles(sections, first, last)
    ensures SumOfLengths(sections) == last - first
  {
    if sections != [] {
      TilesLength(sections[1..], sections[0].end, last);
    }
  }

  /** A section's peak is at least the strain of every object from its begin up to its end. */
  ghost predicate Covers(s: Section, objects: seq<AimObject>, strains: seq<real>)
    requires |strains| <= |objects|
  {
    forall i | 0 <= i < |strains| && s.begin <= objects[i].start < s.end :: strains[i] <= s.peak
  }

  ghost predicate AllCover(sections: seq<Section>, objects: seq<AimObject>, strains: seq<real>)
    requires |strains| <= |objects|
  {
    forall s | s in sections :: Covers(s, objects, strains)
  }

  lemma {:induction false} BackfillKeeps(setup: Setup, c: Cursor, previousStart: real,
                                         objects: seq<AimObject>, strains: seq<real>, now: real)
    requires |strains| <= |objects| && Keeps(c, objects, strains, now)
    ensures var (c', saved) := Backfill(setup, c, previousStart, now);
      && Keeps(c', objects, strains, now) && now <= c'.end
      && Tiles(saved, c.begin, c'.begin) && AllCover(saved, objects, strains)
    decreases |c.queue|, Behind(c, now)
  {
    if now > c.end {
      hide Keeps;
      var next := NextSection(setup, c, previousStart);
      NextSectionKeeps(setup, c, previousStart, objects, strains, now);
      NextSectionAdvances(setup, c, previousStart, now);
      KeepsCovers(c, objects, strains, now);
      BackfillKeeps(setup, next, previousStart, objects, strains, now);
      var saved := Backfill(setup, next, previousStart, now).1;
      assert ([Current(c)] + saved)[1..] == saved;
    }
  }

  lemma KeepsCovers(c: Cursor, objects: seq<AimObject>, strains: seq<real>, now: real)
    requires |strains| <= |objects| && Keeps(c, objects, strains, now)
    ensures Covers(Current(c), objects, strains)
    ensures forall end | end <= c.end :: Covers(Current(c).(end := end), objects, strains)
    ensures c.begin <= c.end <= c.begin + MAX_SECTION_LENGTH && c.begin <= now
  {}

  lemma {:induction false} PoppedKeeps(queue: seq<Queued>, strain: real)
    requires forall k, l | 0 <= k <= l < |queue| :: queue[l].strain <= queue[k].strain
    ensures forall k | 0 <= k < |Popped(queue, strain)| :: Popped(queue, strain)[k].strain >= strain
    ensures forall k | |Popped(queue, strain)| <= k < |queue| :: queue[k].strain < strain
  {
    if queue != [] && queue[|queue| - 1].strain < strain {
      PoppedKeeps(queue[..|queue| - 1], strain);
      assert Popped(queue, strain) == Popped(queue[..|queue| - 1], strain);
    } else {
      assert forall k | 0 <= k < |queue| :: queue[|queue| - 1].strain <= queue[k].strain;
    }
  }

  /** Whatever the pops discard is dominated by the object that made them. */
  lemma PushDominates(queue: seq<Queued>, curr: Queued, start: real, strain: real)
    requires forall k, l | 0 <= k <= l < |queue| :: queue[l].strain <= queue[k].strain
    requires Dominated(queue, start, strain) && start <= curr.start
    ensures Dominated(Popped(queue, curr.strain) + [curr], start, strain)
  {
    PoppedKeeps(queue, curr.strain);
    var r := Popped(queue, curr.strain) + [curr];
    var k :| 0 <= k < |queue| && start <= queue[k].start && strain <= queue[k].strain;
    if k < |r| - 1 {
      assert r[k] == queue[k];
    } else {
      assert r[|r| - 1] == curr;
    }
  }

  lemma QueueAfterPush(c: Cursor, now: real, curr: Queued)
    requires QueueOrdered(c, now) && Anchor(c) <= now <= c.end && curr.start == now && curr.strain <= c.peak
    ensures QueueOrdered(c.(queue := Popped(c.queue, curr.strain) + [curr]), now)
  {
    PoppedKeeps(c.queue, curr.strain);
  }

  /** A harder object starts its own section. */
  lemma HarderKeeps(setup: Setup, c: Cursor, curr: AimObject, objects: seq<AimObject>, strains: seq<real>)
    requires |strains| < |objects| && objects[|strains|] == curr
    requires Keeps(c, objects, strains, curr.start) && curr.start <= c.end
    requires StrainValue(setup, c.currentStrain, curr) > c.peak
    ensures Keeps(Begin(setup, c, curr).(queue := []), objects, strains + [StrainValue(setup, c.currentStrain, curr)],
      curr.start)
  {}

  lemma EasierKeeps(setup: Setup, c: Cursor, curr: AimObject, objects: seq<AimObject>, strains: seq<real>)
    requires |strains| < |objects| && objects[|strains|] == curr && Keeps(c, objects, strains, curr.start)
    requires StrainValue(setup, c.currentStrain, curr) <= c.peak && curr.start <= c.end
    ensures Keeps(Enter(setup, c, curr).0, objects, strains + [StrainValue(setup, c.currentStrain, curr)], curr.start)
  {
    hide StrainValue;
    var strain := StrainValue(setup, c.currentStrain, curr);
    var c', strains' := Enter(setup, c, curr).0, strains + [strain];
    QueueAfterPush(c, curr.start, Queued(strain, curr.start));
    forall i | 0 <= i < |strains'| && Anchor(c') < objects[i].start
      ensures Dominated(c'.queue, objects[i].start, strains'[i])
    {
      if i < |strains| {
        assert strains'[i] == strains[i];
        PushDominates(c.queue, Queued(strain, curr.start), objects[i].start, strains[i]);
      } else {
        assert c'.queue[|c'.queue| - 1] == Queued(strain, curr.start);
      }
    }
  }

  lemma EnterKeeps(setup: Setup, c: Cursor, curr: AimObject, objects: seq<AimObject>, strains: seq<real>)
    requires |strains| < |objects| && objects[|strains|] == curr
    requires Keeps(c, objects, strains, curr.start) && curr.start <= c.end
    ensures var (c', saved) := Enter(setup, c, curr);
      && Keeps(c', objects, strains + [StrainValue(setup, c.currentStrain, curr)], curr.start)
      && Tiles(saved, c.begin, c'.begin) && AllCover(saved, objects, strains)
  {
    hide Keeps;
    KeepsCovers(c, objects, strains, curr.start);
    if StrainValue(setup, c.currentStrain, curr) > c.peak {
      HarderKeeps(setup, c, curr, objects, strains);
      var saved := Enter(setup, c, curr).1;
      assert saved[1..] == [];
    } else {
      EasierKeeps(setup, c, curr, objects, strains);
    }
  }

  lemma KeepsLater(c: Cursor, objects: seq<AimObject>, strains: seq<real>, now: real, later: real)
    requires |strains| <= |objects| && Keeps(c, objects, strains, now) && now <= later
    ensures Keeps(c, objects, strains, later)
  {
  }

  /** A new object lies behind every saved section. */
  lemma CoverLater(sections: seq<Section>, objects: seq<AimObject>, strains: seq<real>, first: real, last: real,
                   strain: real)
    requires |strains| < |objects| && last <= objects[|strains|].start
    requires Tiles(sections, first, last) && AllCover(sections, objects, strains)
    ensures AllCover(sections, objects, strains + [strain])
  {
    forall s | s in sections
      ensures Covers(s, objects, strains + [strain])
    {
      assert Covers(s, objects, strains);
      var j: nat :| j < |sections| && sections[j] == s;
      TilesEnd(sections, first, last, j);
    }
  }

  /** After every object: the sections tile the time from the first object to the start of the
      current section, each peak covers its section, and so does the current peak. */
  ghost predicate Sound(p: Progress, objects: seq<AimObject>)
    requires 0 < |p.strains| <= |objects|
  {
    && Keeps(p.cursor, objects, p.strains, objects[|p.strains| - 1].start)
    && Tiles(p.sections, objects[0].start, p.cursor.begin)
    && AllCover(p.sections, objects, p.strains)
  }

  lemma {:induction false} RunIsSound(setup: Setup, objects: seq<AimObject>, n: nat)
    requires 0 < n <= |objects| && InOrder(objects)
    ensures Sound(Run(setup, objects, n), objects)
  {
    if n > 1 {
      RunIsSound(setup, objects, n - 1);
      ProcessIsSound(setup, Run(setup, objects, n - 1), objects);
    } else {
      assert Run(setup, objects, 0) == Progress(START, [], []);
    }
  }

  lemma ProcessIsSound(setup: Setup, p: Progress, objects: seq<AimObject>)
    requires 0 < |p.strains| < |objects| && InOrder(objects) && Sound(p, objects)
    ensures var n := |p.strains|;
      var (cursor, saved) := Process(setup, p.cursor, objects, n);
      Sound(Progress(cursor, p.sections + saved, p.strains + [StrainOf(setup, p.cursor, objects, n)]), objects)
  {
    hide Keeps, Tiles, AllCover, Backfill, Enter;
    var n := |p.strains|;
    var curr, first := objects[n], objects[0].start;
    KeepsLater(p.cursor, objects, p.strains, objects[n - 1].start, curr.start);
    var (filled, saved) := Backfill(setup, p.cursor, objects[n - 1].start, curr.start);
    BackfillKeeps(setup, p.cursor, objects[n - 1].start, objects, p.strains, curr.start);
    BackfillStrain(setup, p.cursor, objects[n - 1].start, curr.start);
    var (entered, last) := Enter(setup, filled, curr);
    EnterKeeps(setup, filled, curr, objects, p.strains);
    var strains := p.strains + [StrainOf(setup, p.cursor, objects, n)];
    TilesConcat(saved, last, p.cursor.begin, filled.begin, entered.begin);
    TilesConcat(p.sections, saved + last, first, p.cursor.begin, entered.begin);
    AllCoverConcat(saved, last, objects, p.strains);
    AllCoverConcat(p.sections, saved + last, objects, p.strains);
    BeginBeforeNow(entered, objects, strains, curr.start);
    CoverLater(p.sections + (saved + last), objects, p.strains, first, entered.begin, strains[n]);
  }

  lemma BeginBeforeNow(c: Cursor, objects: seq<AimObject>, strains: seq<real>, now: real)
    requires |strains| <= |objects| && Keeps(c, objects, strains, now)
    ensures c.begin <= now
  {}

  lemma AllCoverConcat(a: seq<Section>, b: seq<Section>, objects: seq<AimObject>, strains: seq<real>)
    requires |strains| <= |objects| && AllCover(a, objects, strains) && AllCover(b, objects, strains)
    ensures AllCover(a + b, objects, strains)
  {}

  lemma {:induction false} BackfillStrain(setup: Setup, c: Cursor, previousStart: real, start: real)
    ensures Backfill(setup, c, previousStart, start).0.currentStrain == c.currentStrain
    decreases |c.queue|, Behind(c, start)
  {
    if start > c.end {
      NextSectionAdvances(setup, c, previousStart, start);
      BackfillStrain(setup, NextSection(setup, c, previousStart), previousStart, start);
    }
  }

  /** The peak of the current section is at least the strain of every processed object from 400
      milliseconds before the section's end on. */
  lemma PeakIsUpperBound(setup: Setup, objects: seq<AimObject>, n: nat, i: nat)
    requires 0 < n <= |objects| && InOrder(objects) && i < n
    ensures var p := Run(setup, objects, n);
      objects[i].start >= p.cursor.end - MAX_SECTION_LENGTH ==> p.strains[i] <= p.cursor.peak
  {
    RunIsSound(setup, objects, n);
    var p := Run(setup, objects, n);
    KeepsPeak(p.cursor, objects, p.strains, objects[n - 1].start);
  }

  /** Every saved section covers its objects, from the one that opened it up to those processed after it
      was saved. */
  lemma SavedPeaksAreUpperBounds(setup: Setup, objects: seq<AimObject>, n: nat, i: nat, j: nat)
    requires n <= |objects| && InOrder(objects) && i < n && j < |Run(setup, objects, n).sections|
    ensures var p := Run(setup, objects, n); var s := p.sections[j];
      s.begin <= objects[i].start < s.end ==> p.strains[i] <= s.peak
  {
    RunIsSound(setup, objects, n);
    var p := Run(setup, objects, n);
    assert Covers(p.sections[j], objects, p.strains);
  }

  /** No time is lost between sections: their lengths add up to the way the section start moved. */
  lemma SectionsTileTime(setup: Setup, objects: seq<AimObject>, n: nat)
    requires 0 < n <= |objects| && InOrder(objects)
    ensures var p := Run(setup, objects, n);
      && Tiles(p.sections, objects[0].start, p.cursor.begin)
      && SumOfLengths(p.sections) == p.cursor.begin - objects[0].start
      && p.cursor.begin <= objects[n - 1].start <= p.cursor.end
  {
    RunIsSound(setup, objects, n);
    var p := Run(setup, objects, n);
    TilesLength(p.sections, objects[0].start, p.cursor.begin);
  }
}
