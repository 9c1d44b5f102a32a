/** By how much the hardest four seconds of the aim skill's sections are reduced. */
module AimReduction {
  import HitResults
  import opened AimPeaks

  ghost predicate Rising(scale: real -> real) {
    forall a, b | 0.0 <= a <= b <= 1.0 :: scale(a) <= scale(b)
  }

  // ---------------------------------------------------------------------------------------------
  // One chunk

  lemma Quarter(at: int)
    ensures 0 <= at <= 4000 ==> 0.0 <= at as real / 4000.0 <= 1.0
    ensures at >= 4000 ==> at as real / 4000.0 >= 1.0
  {}

  /** Within the first four seconds a chunk loses what is left of 27.3 percent. */
  lemma ChunkValue(strain: StrainPeak, time: int, added: int, scale: real -> real)
    requires 0 <= time + added <= 4000
    ensures Chunk(strain, time, added, scale).value
         == strain.value * (0.727 + 0.273 * scale((time + added) as real / 4000.0))
  {
    Quarter(time + added);
  }

  /** The hardest moment is reduced the most, .. */
  lemma FirstChunk(strain: StrainPeak, scale: real -> real)
    requires scale(0.0) == 0.0
    ensures Chunk(strain, 0, 0, scale).value == 0.727 * strain.value
  {
    ChunkValue(strain, 0, 0, scale);
  }

  /** .. what comes after four seconds not at all, .. */
  lemma LateChunk(strain: StrainPeak, time: int, added: int, scale: real -> real)
    requires time + added >= 4000 && scale(1.0) == 1.0
    ensures Chunk(strain, time, added, scale).value == strain.value
  {
    Quarter(time + added);
  }

  /** .. and in between ever less. */
  lemma ChunkRises(strain: StrainPeak, time: int, added: int, time': int, added': int, scale: real -> real)
    requires strain.value > 0.0 && Rising(scale) && 0 <= time + added <= time' + added'
    ensures Chunk(strain, time, added, scale).value <= Chunk(strain, time', added', scale).value
  {
    var amount, amount' := Amount(time + added), Amount(time' + added');
    AmountRises(time + added, time' + added');
    var low := Lerp(REDUCED_STRAIN_BASELINE, 1.0, scale(amount));
    var high := Lerp(REDUCED_STRAIN_BASELINE, 1.0, scale(amount'));
    assert scale(amount) <= scale(amount');
    HitResults.MulAtMost(low, high, strain.value);
  }

  function Amount(at: int): real {
    ClampUnit(at as real / REDUCED_SECTION_TIME as real)
  }

  lemma AmountRises(a: int, b: int)
    requires 0 <= a <= b
    ensures 0.0 <= Amount(a) <= Amount(b) <= 1.0
  {}

  // ---------------------------------------------------------------------------------------------
  // One section

  /** A section is cut every 20 milliseconds; the last piece is what is left. */
  lemma {:induction false} ChunkAt(strain: StrainPeak, time: int, added: int, scale: real -> real, i: nat)
    requires i < |ChunksFrom(strain, time, added, scale)|
    ensures var c := ChunksFrom(strain, time, added, scale)[i];
      && c == Chunk(strain, time, added + 20 * i, scale) && added + 20 * i < strain.sectionLength
      && c.sectionLength == HitResults.Min(20, strain.sectionLength - (added + 20 * i))
    decreases i
  {
    if i > 0 {
      ChunkAt(strain, time, added + CHUNK, scale, i - 1);
    }
  }

  lemma {:induction false} ChunkCount(strain: StrainPeak, time: int, added: int, scale: real -> real)
    ensures added + 20 * |ChunksFrom(strain, time, added, scale)| >= strain.sectionLength
    decreases strain.sectionLength - added
  {
    if added < strain.sectionLength {
      ChunkCount(strain, time, added + CHUNK, scale);
    }
  }

  // ---------------------------------------------------------------------------------------------
  // The whole pass

  /** How many sections it takes to reach four seconds. */
  function FrontCount(front: seq<StrainPeak>, time: int): (m: nat)
    ensures m <= |front|
  {
    if front == [] || time >= REDUCED_SECTION_TIME then 0
    else 1 + FrontCount(front[1..], time + front[0].sectionLength)
  }

  /** The chunks of the first `m` sections. */
  function FrontChunks(front: seq<StrainPeak>, time: int, m: nat, scale: real -> real): seq<StrainPeak>
    requires m <= |front|
  {
    if m == 0 then []
    else
      ChunksFrom(front[0], time, 0, scale) + FrontChunks(front[1..], time + front[0].sectionLength, m - 1, scale)
  }

  /** They are the fewest that do. */
  lemma {:induction false} FrontCovers(front: seq<StrainPeak>, time: int)
    requires HasLengths(front) && time + TotalLength(front) >= 4000
    ensures var m := FrontCount(front, time);
      && time + TotalLength(front[..m]) >= 4000
      && (m > 0 ==> time + TotalLength(front[..m - 1]) < 4000)
  {
    if front != [] && time < REDUCED_SECTION_TIME {
      var m := FrontCount(front, time);
      FrontCovers(front[1..], time + front[0].sectionLength);
      assert front[..m][1..] == front[1..][..m - 1];
      if m > 1 {
        assert front[..m - 1][1..] == front[1..][..m - 2];
      }
    }
  }

  lemma Regroup<T>(a: seq<T>, b: seq<T>, c: seq<T>, d: seq<T>)
    ensures a + (b + c) + d == a + b + (c + d)
  {}

  /** One round of the loop. */
  lemma OneRound(queue: seq<StrainPeak>, time: int, scale: real -> real)
    requires HasLengths(queue) && queue != [] && time < REDUCED_SECTION_TIME
    ensures var rest := queue[1..] + ChunksFrom(queue[0], time, 0, scale);
      HasLengths(rest) && Reduced(queue, time, scale) == Reduced(rest, time + queue[0].sectionLength, scale)
  {
    hide ChunksFrom, HasLengths;
    ChunkLengths(queue[0], time, 0, scale);
    assert HasLengths(queue[1..]) by { TailLengths(queue); }
    HasLengthsConcat(queue[1..], ChunksFrom(queue[0], time, 0, scale));
  }

  lemma TailLengths(queue: seq<StrainPeak>)
    requires HasLengths(queue) && queue != []
    ensures HasLengths(queue[1..])
  {}

  lemma ReplaceFront(front: seq<StrainPeak>, more: seq<StrainPeak>, time: int, scale: real -> real)
    requires HasLengths(front + more) && front != [] && time < REDUCED_SECTION_TIME
    ensures var rest := front[1..] + (more + ChunksFrom(front[0], time, 0, scale));
      HasLengths(rest) && Reduced(front + more, time, scale) == Reduced(rest, time + front[0].sectionLength, scale)
  {
    hide ChunksFrom, Reduced, HasLengths;
    OneRound(front + more, time, scale);
    assert (front + more)[0] == front[0];
    var chunks := ChunksFrom(front[0], time, 0, scale);
    assert (front + more)[1..] + chunks == front[1..] + (more + chunks);
  }

  lemma NoFront(front: seq<StrainPeak>, more: seq<StrainPeak>, time: int, scale: real -> real)
    requires HasLengths(front + more) && time >= REDUCED_SECTION_TIME
    ensures FrontCount(front, time) == 0
    ensures Reduced(front + more, time, scale) == front[0..] + more + FrontChunks(front, time, 0, scale)
  {
    assert front[0..] + more + [] == front + more;
  }

  /** When the sections last four seconds, exactly those in front that reach as far are replaced, each by
      its own chunks, and the others stay as they are. */
  lemma {:induction false} ReducedFront(front: seq<StrainPeak>, more: seq<StrainPeak>, time: int, scale: real -> real)
    requires HasLengths(front) && HasLengths(more) && time + TotalLength(front) >= 4000
    ensures HasLengths(front + more)
    ensures var m := FrontCount(front, time);
      Reduced(front + more, time, scale) == front[m..] + more + FrontChunks(front, time, m, scale)
    decreases |front|
  {
    hide Reduced, ChunksFrom;
    HasLengthsConcat(front, more);
    if time >= REDUCED_SECTION_TIME {
      NoFront(front, more, time, scale);
    } else {
      var m, chunks := FrontCount(front, time), ChunksFrom(front[0], time, 0, scale);
      ChunkLengths(front[0], time, 0, scale);
      HasLengthsConcat(more, chunks);
      ReplaceFront(front, more, time, scale);
      ReducedFront(front[1..], more + chunks, time + front[0].sectionLength, scale);
      Regroup(front[m..], more, chunks, FrontChunks(front[1..], time + front[0].sectionLength, m - 1, scale));
    }
  }

  /** The sections that are looked at are those above 0, each as often as before. */
  lemma {:induction false} PositiveKeeps(peaks: seq<StrainPeak>, p: StrainPeak)
    ensures multiset(Positive(peaks))[p] == if p.value > 0.0 then multiset(peaks)[p] else 0
  {
    if peaks != [] {
      PositiveKeeps(peaks[1..], p);
      assert peaks == [peaks[0]] + peaks[1..];
    }
  }
}
