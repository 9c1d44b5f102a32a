/**
 The stored peaks of the aim skill. When the sections behind them add up to more than 44 seconds, the
 easiest peaks go.
 */
module AimStore {
  import opened HitResults
  import opened AimPeaks
  import opened AimSections

  /** Eleven over `1 - 0.9` sections of 400 milliseconds. */
  const MAX_TOTAL_LENGTH: real := 44000.0

  /** The peaks of finished sections. `total` adds unrounded lengths but drops rounded ones. */
  datatype Store = Store(peaks: seq<StrainPeak>, total: real)

  function Pruned(st: Store): Store
    decreases |st.peaks|
  {
    if st.total > MAX_TOTAL_LENGTH && st.peaks != [] then
      var n := |st.peaks| - 1;
      Pruned(Store(st.peaks[..n], st.total - st.peaks[n].sectionLength as real))
    else st
  }

  function Save(st: Store, peak: real, length: real): Store {
    Pruned(Store(InsertPeak(st.peaks, NewPeak(peak, length)), st.total + length))
  }

  function SaveAll(st: Store, sections: seq<Section>): Store
    decreases |sections|
  {
    if sections == [] then st else SaveAll(Save(st, sections[0].peak, sections[0].Length()), sections[1..])
  }

  lemma {:induction false} SaveAllConcat(st: Store, a: seq<Section>, b: seq<Section>)
    ensures SaveAll(st, a + b) == SaveAll(SaveAll(st, a), b)
    decreases |a|
  {
    if a == [] {
      assert a + b == b;
    } else {
      assert (a + b)[1..] == a[1..] + b;
      SaveAllConcat(Save(st, a[0].peak, a[0].Length()), a[1..], b);
    }
  }

  /** How far the running total is from the lengths that are really stored. */
  function Drift(st: Store): real {
    Abs(st.total - TotalLength(st.peaks) as real)
  }

  lemma DropSmallest(st: Store) returns (next: Store)
    requires st.peaks != []
    ensures var n := |st.peaks| - 1;
      next == Store(st.peaks[..n], st.total - st.peaks[n].sectionLength as real)
    ensures Drift(next) == Drift(st) && (Descending(st.peaks) ==> Descending(next.peaks))
  {
    var n := |st.peaks| - 1;
    LengthsPush(st.peaks[..n], st.peaks[n], 0.0);
    assert st.peaks == st.peaks[..n] + [st.peaks[n]];
    next := Store(st.peaks[..n], st.total - st.peaks[n].sectionLength as real);
  }

  lemma {:induction false} PrunedKeeps(st: Store)
    requires Descending(st.peaks)
    ensures var r := Pruned(st);
      && Descending(r.peaks) && r.peaks <= st.peaks && Drift(r) == Drift(st)
      && (r.total <= MAX_TOTAL_LENGTH || r.peaks == [])
      && (st.total <= MAX_TOTAL_LENGTH ==> r == st)
    decreases |st.peaks|
  {
    if st.total > MAX_TOTAL_LENGTH && st.peaks != [] {
      hide Drift, Descending;
      var next := DropSmallest(st);
      PrunedKeeps(next);
    }
  }

  lemma SaveKeeps(st: Store, peak: real, length: real)
    requires Descending(st.peaks)
    ensures var r := Save(st, peak, length); var added := NewPeak(peak, length);
      && Descending(r.peaks) && r.peaks <= InsertPeak(st.peaks, added)
      && Drift(r) <= Drift(st) + 0.5 && (r.total <= MAX_TOTAL_LENGTH || r.peaks == [])
      && (st.total + length <= MAX_TOTAL_LENGTH ==> r == Store(InsertPeak(st.peaks, added), st.total + length))
  {
    hide Descending, Drift, Pruned, NewPeak, InsertPeak;
    var added := NewPeak(peak, length);
    InsertKeepsDescending(st.peaks, added);
    InsertDrift(st, peak, length);
    PrunedKeeps(Store(InsertPeak(st.peaks, added), st.total + length));
  }

  /** The peaks of all sections, none left out. */
  function Saved(sections: seq<Section>): seq<StrainPeak> {
    if sections == [] then [] else [NewPeak(sections[0].peak, sections[0].Length())] + Saved(sections[1..])
  }

  /** Saving keeps the list ordered, invents no peak, and lets the total drift by at most half a
      millisecond for each section; pruning stops as soon as the total fits. */
  lemma {:induction false} SaveAllKeeps(st: Store, sections: seq<Section>)
    requires Descending(st.peaks)
    ensures var r := SaveAll(st, sections);
      && Descending(r.peaks)
      && Drift(r) <= Drift(st) + 0.5 * |sections| as real
      && multiset(r.peaks) <= multiset(st.peaks) + multiset(Saved(sections))
      && (sections != [] ==> r.total <= 44000.0 || r.peaks == [])
    decreases |sections|
  {
    if sections != [] {
      var s := sections[0];
      var added := NewPeak(s.peak, s.Length());
      SaveKeeps(st, s.peak, s.Length());
      SaveAllKeeps(Save(st, s.peak, s.Length()), sections[1..]);
      InsertMultiset(st.peaks, added);
      PrefixMultiset(Save(st, s.peak, s.Length()).peaks, InsertPeak(st.peaks, added));
    }
  }

  lemma PrefixMultiset(a: seq<StrainPeak>, b: seq<StrainPeak>)
    requires a <= b
    ensures multiset(a) <= multiset(b)
  {
    assert b == a + b[|a|..];
  }

  /** While the sections together last no longer than 44 seconds, every peak is stored. */
  lemma {:induction false} NothingPruned(st: Store, sections: seq<Section>, first: real, last: real)
    requires Descending(st.peaks) && Tiles(sections, first, last) && st.total + (last - first) <= 44000.0
    ensures var r := SaveAll(st, sections);
      multiset(r.peaks) == multiset(st.peaks) + multiset(Saved(sections)) && r.total == st.total + (last - first)
    decreases |sections|
  {
    if sections != [] {
      var s := sections[0];
      TilesOrder(sections[1..], s.end, last);
      SaveKeeps(st, s.peak, s.Length());
      InsertMultiset(st.peaks, NewPeak(s.peak, s.Length()));
      NothingPruned(Save(st, s.peak, s.Length()), sections[1..], s.end, last);
    }
  }

  // ---------------------------------------------------------------------------------------------
  // Which peaks survive

  ghost predicate SectionLike(peaks: seq<StrainPeak>) {
    forall i | 0 <= i < |peaks| :: 0 <= peaks[i].sectionLength <= 400
  }

  /** The same peaks are harder than `v`. */
  ghost predicate SameAbove(a: seq<StrainPeak>, b: seq<StrainPeak>, v: real) {
    LengthAbove(a, v) == LengthAbove(b, v) && forall p: StrainPeak | p.value > v :: multiset(a)[p] == multiset(b)[p]
  }

  lemma {:induction false} AllAbove(peaks: seq<StrainPeak>, v: real)
    requires forall i | 0 <= i < |peaks| :: peaks[i].value > v
    ensures LengthAbove(peaks, v) == TotalLength(peaks)
  {
    if peaks != [] {
      AllAbove(peaks[1..], v);
    }
  }

  lemma {:induction false} LengthAboveBounds(peaks: seq<StrainPeak>, v: real)
    requires SectionLike(peaks)
    ensures 0 <= LengthAbove(peaks, v) <= TotalLength(peaks)
  {
    if peaks != [] {
      LengthAboveBounds(peaks[1..], v);
    }
  }

  lemma DropAbove(peaks: seq<StrainPeak>, v: real)
    requires peaks != []
    ensures var n := |peaks| - 1;
      && LengthAbove(peaks, v) == LengthAbove(peaks[..n], v) + LengthIfAbove(peaks[n], v)
      && (peaks[n].value <= v ==> SameAbove(peaks[..n], peaks, v))
  {
    var n := |peaks| - 1;
    LengthsPush(peaks[..n], peaks[n], v);
    assert peaks == peaks[..n] + [peaks[n]];
  }

  /** Of the peaks harder than `v` all are left, or at least 43.6 seconds, up to the drift; and all are
      if they fit. */
  ghost predicate Retains(before: seq<StrainPeak>, after: seq<StrainPeak>, drift: real, v: real) {
    && (SameAbove(after, before, v) || LengthAbove(after, v) as real + drift > 43600.0)
    && (LengthAbove(before, v) as real + drift <= 44000.0 ==> SameAbove(after, before, v))
  }

  ghost predicate RetainsHardest(before: seq<StrainPeak>, after: seq<StrainPeak>, drift: real) {
    forall v: real :: Retains(before, after, drift, v)
  }

  lemma RetainsRefl(peaks: seq<StrainPeak>, drift: real, v: real)
    ensures Retains(peaks, peaks, drift, v)
  {}

  /** A peak was dropped because the total was too large: if even this one is harder than `v`, so are
      all the others, and they alone take up the total. */
  lemma HardDrop(st: Store, next: Store, v: real)
    requires st.peaks != [] && st.total > MAX_TOTAL_LENGTH && Descending(st.peaks) && SectionLike(st.peaks)
    requires next == Store(st.peaks[..|st.peaks| - 1], st.total - st.peaks[|st.peaks| - 1].sectionLength as real)
    requires st.peaks[|st.peaks| - 1].value > v
    ensures LengthAbove(st.peaks, v) as real + Drift(st) > MAX_TOTAL_LENGTH
    ensures LengthAbove(next.peaks, v) as real + Drift(next) > MAX_TOTAL_LENGTH - 400.0
  {
    AllAbove(st.peaks, v);
    AllAbove(next.peaks, v);
  }

  lemma EasyDrop(st: Store, next: Store, r: seq<StrainPeak>, v: real)
    requires st.peaks != [] && next.peaks == st.peaks[..|st.peaks| - 1] && st.peaks[|st.peaks| - 1].value <= v
    requires Drift(next) == Drift(st) && Retains(next.peaks, r, Drift(next), v)
    ensures Retains(st.peaks, r, Drift(st), v)
  {
    hide LengthAbove, Drift;
    DropAbove(st.peaks, v);
  }

  /** Pruning takes the easiest peaks. */
  lemma {:induction false} PrunedAbove(st: Store, v: real)
    requires Descending(st.peaks) && SectionLike(st.peaks)
    ensures Retains(st.peaks, Pruned(st).peaks, Drift(st), v)
    decreases |st.peaks|
  {
    hide Drift, Descending, LengthAbove, SectionLike, SameAbove;
    if st.total > MAX_TOTAL_LENGTH && st.peaks != [] {
      var next := DropSmallest(st);
      FrontSectionLike(st.peaks);
      PrunedAbove(next, v);
      if st.peaks[|st.peaks| - 1].value > v {
        HardDrop(st, next, v);
        HardStep(st, next, Pruned(next).peaks, v);
      } else {
        EasyDrop(st, next, Pruned(next).peaks, v);
      }
    } else {
      RetainsRefl(st.peaks, Drift(st), v);
    }
  }

  lemma FrontSectionLike(peaks: seq<StrainPeak>)
    requires SectionLike(peaks) && peaks != []
    ensures SectionLike(peaks[..|peaks| - 1])
  {}

  lemma HardStep(st: Store, next: Store, r: seq<StrainPeak>, v: real)
    requires LengthAbove(st.peaks, v) as real + Drift(st) > MAX_TOTAL_LENGTH
    requires LengthAbove(next.peaks, v) as real + Drift(next) > MAX_TOTAL_LENGTH - 400.0
    requires Drift(next) == Drift(st) && Retains(next.peaks, r, Drift(next), v)
    ensures Retains(st.peaks, r, Drift(st), v)
  {
    hide LengthAbove, Drift;
  }

  lemma RetainsWider(before: seq<StrainPeak>, after: seq<StrainPeak>, drift: real, wider: real, v: real)
    requires Retains(before, after, drift, v) && drift <= wider
    ensures Retains(before, after, wider, v)
  {}

  lemma SameAboveConcat(a: seq<StrainPeak>, b: seq<StrainPeak>, c: seq<StrainPeak>, v: real)
    requires SameAbove(a, b, v)
    ensures SameAbove(a + c, b + c, v)
  {
    LengthsConcat(a, c, v);
    LengthsConcat(b, c, v);
  }

  /** What is retained of a first lot is retained of both. */
  lemma RetainsConcat(a: seq<StrainPeak>, b: seq<StrainPeak>, c: seq<StrainPeak>, r: seq<StrainPeak>,
                      drift: real, v: real)
    requires Retains(a, b, drift, v) && Retains(b + c, r, drift, v) && LengthAbove(c, v) >= 0
    ensures Retains(a + c, r, drift, v)
  {
    LengthsConcat(a, c, v);
    LengthsConcat(b, c, v);
    if SameAbove(b, a, v) {
      SameAboveConcat(b, a, c, v);
    }
  }

  lemma SameInserted(peaks: seq<StrainPeak>, peak: StrainPeak, rest: seq<StrainPeak>, r: seq<StrainPeak>,
                     drift: real, v: real)
    requires Retains(InsertPeak(peaks, peak) + rest, r, drift, v)
    ensures Retains(peaks + ([peak] + rest), r, drift, v)
  {
    var a, b := InsertPeak(peaks, peak) + rest, peaks + ([peak] + rest);
    InsertMultiset(peaks, peak);
    InsertLengths(peaks, peak, v);
    LengthsConcat(InsertPeak(peaks, peak), rest, v);
    LengthsConcat(peaks, [peak] + rest, v);
    LengthsConcat([peak], rest, v);
    LengthsPush([], peak, v);
    assert [] + [peak] == [peak];
    assert multiset(a) == multiset(b) && LengthAbove(a, v) == LengthAbove(b, v);
  }

  lemma {:induction false} SavedLengths(sections: seq<Section>, first: real, last: real)
    requires Tiles(sections, first, last)
    ensures SectionLike(Saved(sections))
  {
    if sections != [] {
      SavedLengths(sections[1..], sections[0].end, last);
    }
  }

  lemma InsertSectionLike(peaks: seq<StrainPeak>, peak: StrainPeak)
    requires SectionLike(peaks) && 0 <= peak.sectionLength <= 400 && Descending(peaks)
    ensures SectionLike(InsertPeak(peaks, peak))
  {
    InsertKeepsDescending(peaks, peak);
    var r := InsertPeak(peaks, peak);
    forall i | 0 <= i < |r|
      ensures 0 <= r[i].sectionLength <= 400
    {
      assert r[i] in r;
    }
  }

  lemma InsertDrift(st: Store, peak: real, length: real)
    ensures Drift(Store(InsertPeak(st.peaks, NewPeak(peak, length)), st.total + length)) <= Drift(st) + 0.5
  {
    InsertLengths(st.peaks, NewPeak(peak, length), 0.0);
  }

  lemma NewPeakLength(peak: real, length: real)
    requires 0.0 <= length <= MAX_SECTION_LENGTH
    ensures 0 <= NewPeak(peak, length).sectionLength <= 400
  {}

  lemma PrunedSectionLike(st: Store)
    requires Descending(st.peaks) && SectionLike(st.peaks)
    ensures SectionLike(Pruned(st).peaks)
  {
    PrunedKeeps(st);
  }

  lemma SaveAbove(st: Store, s: Section, drift: real, v: real)
    requires Descending(st.peaks) && SectionLike(st.peaks) && Drift(st) <= drift
    requires 0.0 <= s.Length() <= MAX_SECTION_LENGTH
    ensures var r := Save(st, s.peak, s.Length());
      && Descending(r.peaks) && SectionLike(r.peaks) && Drift(r) <= drift + 0.5
      && Retains(InsertPeak(st.peaks, NewPeak(s.peak, s.Length())), r.peaks, drift + 0.5, v)
  {
    hide Retains, SectionLike, Descending, InsertPeak, Pruned, NewPeak, Drift;
    var added := NewPeak(s.peak, s.Length());
    var inserted := Store(InsertPeak(st.peaks, added), st.total + s.Length());
    NewPeakLength(s.peak, s.Length());
    InsertKeepsDescending(st.peaks, added);
    InsertSectionLike(st.peaks, added);
    InsertDrift(st, s.peak, s.Length());
    PrunedKeeps(inserted);
    PrunedSectionLike(inserted);
    PrunedAbove(inserted, v);
    RetainsWider(inserted.peaks, Pruned(inserted).peaks, Drift(inserted), drift + 0.5, v);
  }

  /** However long the map: of the peaks harder than `v` all are stored, or at least 43.6 seconds; and
      all are if they last no longer than 44 seconds; up to half a millisecond for each section. */
  lemma {:induction false} SaveAllAbove(st: Store, sections: seq<Section>, first: real, last: real,
                                        drift: real, v: real)
    requires Descending(st.peaks) && SectionLike(st.peaks) && Drift(st) <= drift && Tiles(sections, first, last)
    ensures Retains(st.peaks + Saved(sections), SaveAll(st, sections).peaks, drift + 0.5 * |sections| as real, v)
    decreases |sections|
  {
    hide Retains, Descending, SectionLike, Drift, Save;
    var total := drift + 0.5 * |sections| as real;
    if sections == [] {
      assert st.peaks + Saved([]) == st.peaks;
      RetainsRefl(st.peaks, total, v);
    } else {
      var s, rest := sections[0], Saved(sections[1..]);
      var next, added := Save(st, s.peak, s.Length()), NewPeak(s.peak, s.Length());
      var inserted := InsertPeak(st.peaks, added);
      SaveAbove(st, s, drift, v);
      SavedLengths(sections[1..], s.end, last);
      LengthAboveBounds(rest, v);
      SaveAllAbove(next, sections[1..], s.end, last, drift + 0.5, v);
      RetainsWider(inserted, next.peaks, drift + 0.5, total, v);
      RetainsConcat(inserted, next.peaks, rest, SaveAll(st, sections).peaks, total, v);
      SameInserted(st.peaks, added, rest, SaveAll(st, sections).peaks, total, v);
    }
  }

  const EMPTY: Store := Store([], 0.0)

  /** The stored peaks after `n` objects of a map. */
  function Stored(setup: Setup, objects: seq<AimObject>, n: nat): Store
    requires n <= |objects|
  {
    SaveAll(EMPTY, Run(setup, objects, n).sections)
  }

  lemma StoredStep(setup: Setup, objects: seq<AimObject>, n: nat)
    requires n < |objects|
    ensures var p := Run(setup, objects, n);
      Stored(setup, objects, n + 1) == SaveAll(Stored(setup, objects, n), Process(setup, p.cursor, objects, n).1)
  {
    var p := Run(setup, objects, n);
    SaveAllConcat(EMPTY, p.sections, Process(setup, p.cursor, objects, n).1);
  }

  lemma StoredHardest(setup: Setup, objects: seq<AimObject>, n: nat)
    requires 0 < n <= |objects| && InOrder(objects)
    ensures var p := Run(setup, objects, n);
      RetainsHardest(Saved(p.sections), Stored(setup, objects, n).peaks, 0.5 * |p.sections| as real)
  {
    hide Retains, Run, Saved, Tiles;
    var p := Run(setup, objects, n);
    SectionsTileTime(setup, objects, n);
    assert [] + Saved(p.sections) == Saved(p.sections);
    var saved, peaks, drift := Saved(p.sections), Stored(setup, objects, n).peaks, 0.5 * |p.sections| as real;
    forall v: real
      ensures Retains(saved, peaks, drift, v)
    {
      SaveAllAbove(EMPTY, p.sections, objects[0].start, p.cursor.begin, 0.0, v);
    }
  }

  /** For a whole map: ordered, drifting by half a millisecond a section at most, with the hardest peaks
      as far as they fit into 44 seconds, and complete as long as all of them do. */
  lemma StoredIsFaithful(setup: Setup, objects: seq<AimObject>, n: nat)
    requires 0 < n <= |objects| && InOrder(objects)
    ensures var p := Run(setup, objects, n); var st := Stored(setup, objects, n);
      && Descending(st.peaks) && Drift(st) <= 0.5 * |p.sections| as real
      && multiset(st.peaks) <= multiset(Saved(p.sections))
      && RetainsHardest(Saved(p.sections), st.peaks, 0.5 * |p.sections| as real)
      && (p.cursor.begin - objects[0].start <= 44000.0 ==> multiset(st.peaks) == multiset(Saved(p.sections)))
  {
    hide RetainsHardest, Run, Saved;
    var p := Run(setup, objects, n);
    SectionsTileTime(setup, objects, n);
    SaveAllKeeps(EMPTY, p.sections);
    StoredHardest(setup, objects, n);
    if p.cursor.begin - objects[0].start <= 44000.0 {
      NothingPruned(EMPTY, p.sections, objects[0].start, p.cursor.begin);
    }
  }

  /** What an evaluation after `n` objects hands to the reduction: ordered, and no section has a
      negative length or one over 400 milliseconds. */
  lemma EvaluatedPeaks(setup: Setup, objects: seq<AimObject>, n: nat)
    requires 0 < n <= |objects| && InOrder(objects)
    ensures var c := Run(setup, objects, n).cursor;
      var peaks := InsertPeak(Stored(setup, objects, n).peaks, NewPeak(c.peak, c.end - c.begin));
      Descending(peaks) && forall i | 0 <= i < |peaks| :: 0 <= peaks[i].sectionLength <= 400
  {
    hide Keeps, Run, Saved;
    var p := Run(setup, objects, n);
    var st, provisional := Stored(setup, objects, n), NewPeak(p.cursor.peak, p.cursor.end - p.cursor.begin);
    var peaks := InsertPeak(st.peaks, provisional);
    StoredIsFaithful(setup, objects, n);
    SectionsTileTime(setup, objects, n);
    SavedLengths(p.sections, objects[0].start, p.cursor.begin);
    InsertKeepsDescending(st.peaks, provisional);
    CurrentLength(setup, objects, n);
    forall i | 0 <= i < |peaks|
      ensures 0 <= peaks[i].sectionLength <= 400
    {
      assert peaks[i] in peaks;
      if peaks[i] != provisional {
        assert peaks[i] in multiset(st.peaks);
        assert peaks[i] in Saved(p.sections);
      }
    }
  }

  lemma CurrentLength(setup: Setup, objects: seq<AimObject>, n: nat)
    requires 0 < n <= |objects| && InOrder(objects)
    ensures var c := Run(setup, objects, n).cursor; 0.0 <= c.end - c.begin <= MAX_SECTION_LENGTH
  {
    RunIsSound(setup, objects, n);
  }
}
