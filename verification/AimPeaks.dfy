/**
 The peak list of osu!'s aim skill: descending by value, each peak with the length of its section,
 and the pass that splits the hardest four seconds into short, scaled-down chunks.
 */
module AimPeaks {
  import HitResults

  /** Section lengths are rounded to whole milliseconds when a peak is made. */
  datatype StrainPeak = StrainPeak(value: real, sectionLength: int)

  /** Round to the nearest integer, and to the even one half-way between two. */
  function RoundTiesEven(r: real): (n: int)
    ensures r - 0.5 <= n as real <= r + 0.5
    ensures n as real == r - 0.5 || n as real == r + 0.5 ==> n % 2 == 0
  {
    var f := r.Floor;
    var d := r - f as real;
    if d < 0.5 then f else if d > 0.5 then f + 1 else if f % 2 == 0 then f else f + 1
  }

  function NewPeak(value: real, sectionLength: real): (p: StrainPeak)
    ensures p.value == value && sectionLength - 0.5 <= p.sectionLength as real <= sectionLength + 0.5
  {
    StrainPeak(value, RoundTiesEven(sectionLength))
  }

  ghost predicate Descending(peaks: seq<StrainPeak>) {
    forall i, j | 0 <= i <= j < |peaks| :: peaks[i].value >= peaks[j].value
  }

  /** The peak goes in front of the first one that is not larger. */
  function InsertPeak(peaks: seq<StrainPeak>, peak: StrainPeak): (r: seq<StrainPeak>)
    ensures |r| == |peaks| + 1
  {
    if peaks == [] || peaks[0].value <= peak.value then [peak] + peaks
    else [peaks[0]] + InsertPeak(peaks[1..], peak)
  }

  /** `partition_point` and `insert`: on a descending list a binary search finds that place. */
  lemma {:induction false} InsertPeakAt(peaks: seq<StrainPeak>, peak: StrainPeak, index: nat)
    requires Descending(peaks) && index <= |peaks|
    requires forall i | 0 <= i < index :: peaks[i].value > peak.value
    requires forall i | index <= i < |peaks| :: peaks[i].value <= peak.value
    ensures InsertPeak(peaks, peak) == peaks[..index] + [peak] + peaks[index..]
  {
    if index > 0 {
      InsertPeakAt(peaks[1..], peak, index - 1);
      assert peaks[..index] == [peaks[0]] + peaks[1..][..index - 1];
      assert peaks[1..][index - 1..] == peaks[index..];
    } else {
      assert peaks[..0] == [] && peaks[0..] == peaks;
    }
  }

  lemma {:induction false} InsertKeepsDescending(peaks: seq<StrainPeak>, peak: StrainPeak)
    requires Descending(peaks)
    ensures Descending(InsertPeak(peaks, peak))
    ensures forall p | p in InsertPeak(peaks, peak) :: p == peak || p in peaks
  {
    if peaks != [] && peaks[0].value > peak.value {
      InsertKeepsDescending(peaks[1..], peak);
      var r := InsertPeak(peaks[1..], peak);
      forall i | 0 <= i < |r|
        ensures peaks[0].value >= r[i].value
      {
        assert r[i] in r;
      }
    }
  }

  /** Drop the first peak equal to `peak`, if there is one. */
  function RemoveFirst(peaks: seq<StrainPeak>, peak: StrainPeak): seq<StrainPeak> {
    if peaks == [] then [] else if peaks[0] == peak then peaks[1..] else [peaks[0]] + RemoveFirst(peaks[1..], peak)
  }

  /** Inserting a peak and removing it again changes nothing, whatever equals it. */
  lemma {:induction false} RemoveInserted(peaks: seq<StrainPeak>, peak: StrainPeak)
    ensures RemoveFirst(InsertPeak(peaks, peak), peak) == peaks
  {
    if peaks != [] && peaks[0].value > peak.value {
      RemoveInserted(peaks[1..], peak);
    }
  }

  /** Two peaks lead to the same list only if they are equal. */
  lemma InsertInjective(peaks: seq<StrainPeak>, p: StrainPeak, q: StrainPeak)
    ensures InsertPeak(peaks, p) == InsertPeak(peaks, q) ==> p == q
  {
    InsertMultiset(peaks, p);
    InsertMultiset(peaks, q);
    assert p != q ==> (multiset(peaks) + multiset{p})[p] != (multiset(peaks) + multiset{q})[p];
  }

  lemma {:induction false} InsertMultiset(peaks: seq<StrainPeak>, peak: StrainPeak)
    ensures multiset(InsertPeak(peaks, peak)) == multiset(peaks) + multiset{peak}
  {
    if peaks != [] && peaks[0].value > peak.value {
      InsertMultiset(peaks[1..], peak);
      assert peaks == [peaks[0]] + peaks[1..];
    }
  }

  // ---------------------------------------------------------------------------------------------
  // Lengths

  function TotalLength(peaks: seq<StrainPeak>): int {
    if peaks == [] then 0 else peaks[0].sectionLength + TotalLength(peaks[1..])
  }

  /** The length of the peak if it exceeds `v`. */
  function LengthIfAbove(p: StrainPeak, v: real): int {
    if p.value > v then p.sectionLength else 0
  }

  /** For how long the peaks are above `v`. */
  function LengthAbove(peaks: seq<StrainPeak>, v: real): int {
    if peaks == [] then 0 else LengthIfAbove(peaks[0], v) + LengthAbove(peaks[1..], v)
  }

  lemma {:induction false} LengthsConcat(a: seq<StrainPeak>, b: seq<StrainPeak>, v: real)
    ensures TotalLength(a + b) == TotalLength(a) + TotalLength(b)
    ensures LengthAbove(a + b, v) == LengthAbove(a, v) + LengthAbove(b, v)
  {
    if a == [] {
      assert a + b == b;
    } else {
      assert (a + b)[1..] == a[1..] + b;
      LengthsConcat(a[1..], b, v);
    }
  }

  lemma LengthsPush(a: seq<StrainPeak>, p: StrainPeak, v: real)
    ensures TotalLength(a + [p]) == TotalLength(a) + p.sectionLength
    ensures LengthAbove(a + [p], v) == LengthAbove(a, v) + LengthIfAbove(p, v)
  {
    LengthsConcat(a, [p], v);
    assert [p][1..] == [];
  }

  lemma {:induction false} InsertLengths(peaks: seq<StrainPeak>, peak: StrainPeak, v: real)
    ensures TotalLength(InsertPeak(peaks, peak)) == TotalLength(peaks) + peak.sectionLength
    ensures LengthAbove(InsertPeak(peaks, peak), v) == LengthAbove(peaks, v) + LengthIfAbove(peak, v)
  {
    if peaks != [] && peaks[0].value > peak.value {
      InsertLengths(peaks[1..], peak, v);
    } else {
      assert ([peak] + peaks)[1..] == peaks;
    }
  }

  /** The stable descending sort of `sort_by`. */
  function SortPeaks(peaks: seq<StrainPeak>): (r: seq<StrainPeak>)
    ensures |r| == |peaks|
  {
    if peaks == [] then [] else InsertPeak(SortPeaks(peaks[1..]), peaks[0])
  }

  lemma {:induction false} SortPeaksSorts(peaks: seq<StrainPeak>)
    ensures Descending(SortPeaks(peaks)) && multiset(SortPeaks(peaks)) == multiset(peaks)
  {
    if peaks != [] {
      SortPeaksSorts(peaks[1..]);
      InsertKeepsDescending(SortPeaks(peaks[1..]), peaks[0]);
      InsertMultiset(SortPeaks(peaks[1..]), peaks[0]);
      assert peaks == [peaks[0]] + peaks[1..];
    }
  }

  lemma {:induction false} SortPeaksLengths(peaks: seq<StrainPeak>, v: real)
    ensures TotalLength(SortPeaks(peaks)) == TotalLength(peaks)
    ensures LengthAbove(SortPeaks(peaks), v) == LengthAbove(peaks, v)
  {
    if peaks != [] {
      SortPeaksLengths(peaks[1..], v);
      InsertLengths(SortPeaks(peaks[1..]), peaks[0], v);
    }
  }

  /** No section has a negative length. */
  ghost predicate HasLengths(peaks: seq<StrainPeak>) {
    forall i | 0 <= i < |peaks| :: peaks[i].sectionLength >= 0
  }

  function Positive(peaks: seq<StrainPeak>): (r: seq<StrainPeak>)
    ensures forall i | 0 <= i < |r| :: r[i].value > 0.0
    ensures HasLengths(peaks) ==> HasLengths(r)
  {
    if peaks == [] then []
    else if peaks[0].value > 0.0 then [peaks[0]] + Positive(peaks[1..])
    else Positive(peaks[1..])
  }

  // ---------------------------------------------------------------------------------------------
  // Reducing the hardest sections

  const REDUCED_SECTION_TIME: int := 4000
  const REDUCED_STRAIN_BASELINE: real := 0.727
  const CHUNK: int := 20

  function ClampUnit(r: real): real {
    if r < 0.0 then 0.0 else if r > 1.0 then 1.0 else r
  }

  function Lerp(a: real, b: real, t: real): real {
    a * (1.0 - t) + b * t
  }

  /** A function like `log10(1 + 9 * amount)`, which stays within [0, 1] on [0, 1]. */
  ghost predicate UnitScale(scale: real -> real) {
    forall a | 0.0 <= a <= 1.0 :: 0.0 <= scale(a) <= 1.0
  }

  /** The chunk that starts `added` milliseconds into a section which starts at `time`. */
  function Chunk(strain: StrainPeak, time: int, added: int, scale: real -> real): StrainPeak {
    var amount := ClampUnit((time + added) as real / REDUCED_SECTION_TIME as real);
    var left := strain.sectionLength - added;
    StrainPeak(strain.value * Lerp(REDUCED_STRAIN_BASELINE, 1.0, scale(amount)), if CHUNK < left then CHUNK else left)
  }

  lemma ChunkIsReduced(strain: StrainPeak, time: int, added: int, scale: real -> real)
    requires UnitScale(scale) && strain.value > 0.0 && 0 <= added < strain.sectionLength
    ensures var c := Chunk(strain, time, added, scale);
      && REDUCED_STRAIN_BASELINE * strain.value <= c.value <= strain.value && 0.0 < c.value
      && 0 < c.sectionLength <= CHUNK
  {
    var amount := ClampUnit((time + added) as real / REDUCED_SECTION_TIME as real);
    var factor := Lerp(REDUCED_STRAIN_BASELINE, 1.0, scale(amount));
    ScaleBounds(strain.value, factor);
    assert Chunk(strain, time, added, scale).value == strain.value * factor;
  }

  lemma ScaleBounds(v: real, factor: real)
    requires v > 0.0 && REDUCED_STRAIN_BASELINE <= factor <= 1.0
    ensures REDUCED_STRAIN_BASELINE * v <= v * factor <= v && 0.0 < v * factor
  {
    HitResults.MulNonNegative(v, factor - REDUCED_STRAIN_BASELINE);
    HitResults.MulNonNegative(v, 1.0 - factor);
    assert v * (factor - REDUCED_STRAIN_BASELINE) == v * factor - REDUCED_STRAIN_BASELINE * v;
    assert v * (1.0 - factor) == v - v * factor;
  }

  /** What the reduction keeps: no section time is lost, none moves above any value it was not
      above before, and the result can be weighed from the front. */
  ghost predicate Reduces(before: seq<StrainPeak>, after: seq<StrainPeak>) {
    && TotalLength(after) == TotalLength(before)
    && forall v :: LengthAbove(after, v) <= LengthAbove(before, v)
  }

  ghost predicate AllPositive(peaks: seq<StrainPeak>) {
    forall i | 0 <= i < |peaks| :: peaks[i].value > 0.0 && peaks[i].sectionLength >= 0
  }

  /** How much of `strain` the chunks up to `added` have taken over. */
  function Taken(strain: StrainPeak, added: int): int {
    if added < strain.sectionLength then added else strain.sectionLength
  }

  ghost predicate ChunksKeep(strain: StrainPeak, added: int, chunks: seq<StrainPeak>) {
    && AllPositive(chunks) && TotalLength(chunks) == Taken(strain, added)
    && forall v :: LengthAbove(chunks, v) <= if strain.value > v then Taken(strain, added) else 0
  }

  lemma OneChunk(strain: StrainPeak, time: int, added: int, scale: real -> real, chunks: seq<StrainPeak>)
    requires UnitScale(scale) && strain.value > 0.0 && 0 <= added < strain.sectionLength
    requires ChunksKeep(strain, added, chunks)
    ensures ChunksKeep(strain, added + CHUNK, chunks + [Chunk(strain, time, added, scale)])
  {
    var c := Chunk(strain, time, added, scale);
    ChunkIsReduced(strain, time, added, scale);
    forall v
      ensures LengthAbove(chunks + [c], v) <= if strain.value > v then Taken(strain, added + CHUNK) else 0
    {
      LengthsPush(chunks, c, v);
    }
    LengthsPush(chunks, c, 0.0);
  }

  /** The chunks from `added` milliseconds into the section on. */
  function ChunksFrom(strain: StrainPeak, time: int, added: int, scale: real -> real): seq<StrainPeak>
    decreases strain.sectionLength - added
  {
    if added < strain.sectionLength
    then [Chunk(strain, time, added, scale)] + ChunksFrom(strain, time, added + CHUNK, scale)
    else []
  }

  /** The sections after replacing those in front by chunks until enough time is covered. */
  function Reduced(queue: seq<StrainPeak>, time: int, scale: real -> real): seq<StrainPeak>
    requires HasLengths(queue)
    decreases REDUCED_SECTION_TIME - time, |queue|
  {
    if queue == [] || time >= REDUCED_SECTION_TIME then queue
    else
      ChunkLengths(queue[0], time, 0, scale);
      HasLengthsConcat(queue[1..], ChunksFrom(queue[0], time, 0, scale));
      Reduced(queue[1..] + ChunksFrom(queue[0], time, 0, scale), time + queue[0].sectionLength, scale)
  }

  lemma HasLengthsConcat(a: seq<StrainPeak>, b: seq<StrainPeak>)
    requires HasLengths(a) && HasLengths(b)
    ensures HasLengths(a + b)
  {}

  lemma {:induction false} ChunkLengths(strain: StrainPeak, time: int, added: int, scale: real -> real)
    ensures HasLengths(ChunksFrom(strain, time, added, scale))
    ensures strain.sectionLength <= added ==> ChunksFrom(strain, time, added, scale) == []
    decreases strain.sectionLength - added
  {
    if added < strain.sectionLength {
      ChunkLengths(strain, time, added + CHUNK, scale);
      HasLengthsConcat([Chunk(strain, time, added, scale)], ChunksFrom(strain, time, added + CHUNK, scale));
    }
  }

  /** The inner loop: the chunks that replace one section. */
  method SplitSection(strain: StrainPeak, time: int, scale: real -> real) returns (chunks: seq<StrainPeak>)
    requires UnitScale(scale) && strain.value > 0.0 && strain.sectionLength >= 0
    ensures ChunksKeep(strain, strain.sectionLength, chunks)
    ensures chunks == ChunksFrom(strain, time, 0, scale)
  {
    hide ChunksKeep, Chunk;
    chunks := [];
    assert ChunksKeep(strain, 0, []) by { NoChunks(strain); }
    var added := 0;
    while added < strain.sectionLength
      invariant 0 <= added && ChunksKeep(strain, added, chunks)
      invariant chunks + ChunksFrom(strain, time, added, scale) == ChunksFrom(strain, time, 0, scale)
      decreases strain.sectionLength - added
    {
      OneChunk(strain, time, added, scale, chunks);
      chunks := chunks + [Chunk(strain, time, added, scale)];
      added := added + CHUNK;
    }
    TakenAll(strain, added, chunks);
  }

  lemma NoChunks(strain: StrainPeak)
    requires strain.sectionLength >= 0
    ensures ChunksKeep(strain, 0, [])
  {}

  lemma TakenAll(strain: StrainPeak, added: int, chunks: seq<StrainPeak>)
    requires added >= strain.sectionLength && ChunksKeep(strain, added, chunks)
    ensures ChunksKeep(strain, strain.sectionLength, chunks)
  {}

  /** Replacing the section in front by its chunks at the back. */
  lemma ReplaceFirst(before: seq<StrainPeak>, rest: seq<StrainPeak>, chunks: seq<StrainPeak>)
    requires rest != [] && AllPositive(rest) && Reduces(before, rest)
    requires ChunksKeep(rest[0], rest[0].sectionLength, chunks)
    ensures Reduces(before, rest[1..] + chunks) && AllPositive(rest[1..] + chunks)
  {
    forall v
      ensures LengthAbove(rest[1..] + chunks, v) <= LengthAbove(before, v)
    {
      LengthsConcat(rest[1..], chunks, v);
    }
    LengthsConcat(rest[1..], chunks, 0.0);
  }

  lemma SortReduces(before: seq<StrainPeak>, rest: seq<StrainPeak>)
    requires Reduces(before, rest) && AllPositive(rest)
    ensures Reduces(before, SortPeaks(rest)) && Descending(SortPeaks(rest)) && AllPositive(SortPeaks(rest))
  {
    forall v
      ensures LengthAbove(SortPeaks(rest), v) <= LengthAbove(before, v)
    {
      SortPeaksLengths(rest, v);
    }
    SortPeaksLengths(rest, 0.0);
    SortPeaksSorts(rest);
    forall i | 0 <= i < |SortPeaks(rest)|
      ensures SortPeaks(rest)[i].value > 0.0 && SortPeaks(rest)[i].sectionLength >= 0
    {
      assert SortPeaks(rest)[i] in multiset(SortPeaks(rest));
      assert SortPeaks(rest)[i] in rest;
    }
  }

  /** `reduced_strain_peaks`. The loop may come to chunks it pushed itself; the time it has covered
      grows with every section that is not empty. */
  method ReducedStrainPeaks(current: seq<StrainPeak>, scale: real -> real) returns (strains: seq<StrainPeak>)
    requires UnitScale(scale) && HasLengths(current)
    ensures strains == SortPeaks(Reduced(Positive(current), 0, scale))
    ensures Reduces(Positive(current), strains) && Descending(strains) && AllPositive(strains)
  {
    hide Reduces, ChunksKeep, ChunksFrom;
    strains := Positive(current);
    ghost var before := strains;
    assert Reduces(before, before) && AllPositive(before) by { ReducesRefl(before); }
    var time, skipCount := 0, 0;
    assert strains[0..] == strains;
    while |strains| > skipCount && time < REDUCED_SECTION_TIME
      invariant 0 <= time && skipCount <= |strains|
      invariant Reduces(before, strains[skipCount..]) && AllPositive(strains[skipCount..])
      invariant Reduced(strains[skipCount..], time, scale) == Reduced(before, 0, scale)
      decreases REDUCED_SECTION_TIME - time, |strains| - skipCount
    {
      var strain := strains[skipCount];
      ghost var rest := strains[skipCount..];
      assert strain == rest[0];
      ChunkLengths(strain, time, 0, scale);
      var chunks := SplitSection(strain, time, scale);
      ReplaceFirst(before, rest, chunks);
      assert (strains + chunks)[skipCount + 1..] == rest[1..] + chunks;
      strains := strains + chunks;
      time := time + strain.sectionLength;
      skipCount := skipCount + 1;
    }
    strains := strains[skipCount..];
    SortReduces(before, strains);
    strains := SortPeaks(strains);
  }

  lemma ReducesRefl(peaks: seq<StrainPeak>)
    requires forall i | 0 <= i < |peaks| :: peaks[i].value > 0.0 && peaks[i].sectionLength >= 0
    ensures Reduces(peaks, peaks) && AllPositive(peaks)
  {}
}
