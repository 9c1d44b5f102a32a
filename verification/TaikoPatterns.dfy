/** The last stage of osu!taiko's colour encoding, and what all stages together keep. */
module TaikoPatterns {
  import HitResults
  import opened TaikoColor

  datatype RepeatingHitPatterns = RepeatingHitPatterns(alternatingMonoPatterns: seq<AlternatingMonoPattern>)

  function PatternsOf(groups: seq<RepeatingHitPatterns>): seq<AlternatingMonoPattern> {
    if groups == [] then [] else groups[0].alternatingMonoPatterns + PatternsOf(groups[1..])
  }

  ghost predicate NonEmpty(patterns: seq<AlternatingMonoPattern>) {
    forall k | 0 <= k < |patterns| :: patterns[k].monoStreaks != []
  }

  /** A pattern comes back after one other pattern. */
  predicate Couples(queue: seq<AlternatingMonoPattern>, k: nat) {
    && k + 2 < |queue| && queue[k].monoStreaks != [] && queue[k + 2].monoStreaks != []
    && queue[k].IsRepetitionOf(queue[k + 2])
  }

  /** How many patterns leave the front of the queue because they come back. */
  function Coupled(queue: seq<AlternatingMonoPattern>): (n: nat)
    ensures n <= |queue|
    ensures n > 0 ==> n + 2 <= |queue|
  {
    if Couples(queue, 0) then 1 + Coupled(queue[1..]) else 0
  }

  /** The size of the group in front. */
  function GroupSize(queue: seq<AlternatingMonoPattern>): (n: nat)
    requires queue != []
    ensures 0 < n <= |queue|
  {
    if Coupled(queue) == 0 then 1 else Coupled(queue) + 2
  }

  function Groups(queue: seq<AlternatingMonoPattern>): seq<RepeatingHitPatterns>
    decreases |queue|
  {
    if queue == [] then []
    else [RepeatingHitPatterns(queue[..GroupSize(queue)])] + Groups(queue[GroupSize(queue)..])
  }

  /** A single pattern that does not come back, or at least three of which each comes back two
      places later, for as long as this goes on. */
  ghost predicate MaximalExtent(queue: seq<AlternatingMonoPattern>, n: nat) {
    && (n == 1 || n >= 3) && n <= |queue|
    && (n == 1 ==> !Couples(queue, 0))
    && (n >= 3 ==> (forall k: nat | k < n - 2 :: Couples(queue, k)) && !Couples(queue, n - 2))
  }

  ghost predicate MaximalGroups(queue: seq<AlternatingMonoPattern>, groups: seq<RepeatingHitPatterns>)
    decreases |groups|
  {
    if queue == [] || groups == [] then queue == [] && groups == []
    else
      var n := |groups[0].alternatingMonoPatterns|;
      && MaximalExtent(queue, n) && groups[0].alternatingMonoPatterns == queue[..n]
      && MaximalGroups(queue[n..], groups[1..])
  }

  lemma {:induction false} CoupledExtent(queue: seq<AlternatingMonoPattern>)
    ensures forall k: nat | k < Coupled(queue) :: Couples(queue, k)
    ensures !Couples(queue, Coupled(queue))
  {
    if Couples(queue, 0) {
      CoupledExtent(queue[1..]);
      forall k: nat | k < Coupled(queue)
        ensures Couples(queue, k)
      {
        if k > 0 { assert Couples(queue[1..], k - 1); }
      }
      CouplesTail(queue, Coupled(queue[1..]));
    }
  }

  lemma CouplesTail(queue: seq<AlternatingMonoPattern>, k: nat)
    requires queue != []
    ensures Couples(queue[1..], k) <==> Couples(queue, k + 1)
  {}

  lemma {:induction false} GroupsAreMaximal(queue: seq<AlternatingMonoPattern>)
    ensures MaximalGroups(queue, Groups(queue))
    decreases |queue|
  {
    if queue != [] {
      CoupledExtent(queue);
      GroupsAreMaximal(queue[GroupSize(queue)..]);
    }
  }

  lemma ExtentUnique(queue: seq<AlternatingMonoPattern>, m: nat, n: nat)
    requires MaximalExtent(queue, m) && MaximalExtent(queue, n)
    ensures m == n
  {
    var mEnds := Couples(queue, if m == 1 then 0 else m - 2);
    var nEnds := Couples(queue, if n == 1 then 0 else n - 2);
  }

  /** Only one grouping is maximal. */
  lemma {:induction false} MaximalGroupsUnique(queue: seq<AlternatingMonoPattern>, a: seq<RepeatingHitPatterns>,
                                               b: seq<RepeatingHitPatterns>)
    requires MaximalGroups(queue, a) && MaximalGroups(queue, b)
    ensures a == b
    decreases |a|
  {
    if queue != [] {
      var n := |a[0].alternatingMonoPatterns|;
      ExtentUnique(queue, n, |b[0].alternatingMonoPatterns|);
      MaximalGroupsUnique(queue[n..], a[1..], b[1..]);
      assert a[0] == b[0];
    }
  }

  /** Nothing is lost and no group is empty. */
  lemma {:induction false} GroupsLossless(queue: seq<AlternatingMonoPattern>, groups: seq<RepeatingHitPatterns>)
    requires MaximalGroups(queue, groups)
    ensures PatternsOf(groups) == queue
    ensures forall k | 0 <= k < |groups| :: groups[k].alternatingMonoPatterns != []
    decreases |groups|
  {
    if queue != [] {
      var n := |groups[0].alternatingMonoPatterns|;
      GroupsLossless(queue[n..], groups[1..]);
      assert queue == queue[..n] + queue[n..];
    }
  }

  /** `encode_repeating_hit_patterns`. */
  method EncodeRepeatingHitPatterns(input: seq<AlternatingMonoPattern>) returns (hitPatterns: seq<RepeatingHitPatterns>)
    requires NonEmpty(input)
    ensures MaximalGroups(input, hitPatterns)
  {
    hitPatterns := [];
    var data := input;
    while data != []
      invariant NonEmpty(data)
      invariant hitPatterns + Groups(data) == Groups(input)
      decreases |data|
    {
      ghost var before := data;
      var curr;
      curr, data := NextGroup(data);
      assert Groups(before) == [curr] + Groups(data);
      hitPatterns := hitPatterns + [curr];
    }
    assert Groups([]) == [] && hitPatterns + [] == hitPatterns;
    GroupsAreMaximal(input);
  }

  predicate IsCoupled(data: seq<AlternatingMonoPattern>)
    requires NonEmpty(data)
  {
    |data| > 2 && data[0].IsRepetitionOf(data[2])
  }

  /** One round of the loop: the group in front, and what is left of the queue. The two patterns
      drained at the end are always there. */
  method NextGroup(queue: seq<AlternatingMonoPattern>)
    returns (curr: RepeatingHitPatterns, data: seq<AlternatingMonoPattern>)
    requires NonEmpty(queue) && queue != []
    ensures curr == RepeatingHitPatterns(queue[..GroupSize(queue)]) && data == queue[GroupSize(queue)..]
    ensures NonEmpty(data) && |data| < |queue|
  {
    hide AlternatingMonoPattern.IsRepetitionOf;
    var isCoupled := IsCoupled(queue);
    if !isCoupled {
      return RepeatingHitPatterns([queue[0]]), queue[1..];
    }
    var patterns;
    patterns, data := PopCoupled(queue);
    hide NonEmpty, IsCoupled, Coupled;
    assert queue[..|patterns|] == patterns && queue[|patterns|..] == data;
    curr := RepeatingHitPatterns(patterns + data[..2]);
    assert curr.alternatingMonoPatterns == queue[..|patterns| + 2];
    data := data[2..];
    assert data == queue[|patterns| + 2..];
    NonEmptySuffix(queue, |patterns| + 2);
  }

  /** The loop over the patterns that come back. */
  method PopCoupled(queue: seq<AlternatingMonoPattern>)
    returns (patterns: seq<AlternatingMonoPattern>, data: seq<AlternatingMonoPattern>)
    requires NonEmpty(queue) && IsCoupled(queue)
    ensures patterns + data == queue && |data| >= 2 && |patterns| == Coupled(queue) > 0
  {
    hide AlternatingMonoPattern.IsRepetitionOf;
    patterns := [];
    data := queue;
    var isCoupled := true;
    while isCoupled
      invariant patterns + data == queue && NonEmpty(data) && |data| >= 2
      invariant isCoupled == IsCoupled(data)
      invariant |patterns| + Coupled(data) == Coupled(queue)
      decreases |data|
    {
      ghost var before, front := data, patterns;
      CoupledStep(data);
      patterns, data := patterns + [data[0]], data[1..];
      assert patterns + data == front + before;
      isCoupled := IsCoupled(data);
    }
    CoupledEnd(data);
    CoupledStep(queue);
  }

  lemma CoupledStep(queue: seq<AlternatingMonoPattern>)
    requires NonEmpty(queue) && IsCoupled(queue)
    ensures NonEmpty(queue[1..]) && Coupled(queue) == 1 + Coupled(queue[1..])
  {}

  lemma CoupledEnd(queue: seq<AlternatingMonoPattern>)
    requires NonEmpty(queue) && !IsCoupled(queue)
    ensures Coupled(queue) == 0
  {}

  lemma NonEmptySuffix(queue: seq<AlternatingMonoPattern>, n: nat)
    requires NonEmpty(queue) && n <= |queue|
    ensures NonEmpty(queue[n..])
  {}

  // ---------------------------------------------------------------------------------------------

  /** `encode`: taking all groups apart again gives every object, in order, and no group on any
      level is empty. */
  method Encode(data: TaikoObjects) returns (hitPatterns: seq<RepeatingHitPatterns>)
    ensures ObjectsOf(StreaksOf(PatternsOf(hitPatterns))) == data.objects
    ensures StreaksOf(PatternsOf(hitPatterns)) == Streaks(data, |data.objects|)
    ensures Alternation(StreaksOf(PatternsOf(hitPatterns)), PatternsOf(hitPatterns))
    ensures MaximalGroups(PatternsOf(hitPatterns), hitPatterns)
  {
    var monoStreaks := EncodeMonoStreaks(data);
    StreaksLossless(data, |data.objects|);
    assert data.objects[..|data.objects|] == data.objects;
    var alternating := EncodeAlternatingMonoPattern(monoStreaks);
    NoneEmpty(monoStreaks, alternating);
    hitPatterns := EncodeRepeatingHitPatterns(alternating);
    GroupsLossless(alternating, hitPatterns);
  }

  lemma NoneEmpty(streaks: seq<MonoStreak>, patterns: seq<AlternatingMonoPattern>)
    requires Alternation(streaks, patterns)
    ensures NonEmpty(patterns)
  {
    forall k | 0 <= k < |patterns|
      ensures patterns[k].monoStreaks != []
    {
      assert patterns[k].SameLength();
    }
  }

  // ---------------------------------------------------------------------------------------------
  // How long ago a group came up before

  const MAX_REPETITION_INTERVAL: nat := 16

  predicate Repeats(a: RepeatingHitPatterns, b: RepeatingHitPatterns)
    requires NonEmpty(a.alternatingMonoPatterns) && NonEmpty(b.alternatingMonoPatterns)
  {
    && |a.alternatingMonoPatterns| == |b.alternatingMonoPatterns|
    && forall k | 0 <= k < HitResults.Min(2, |a.alternatingMonoPatterns|) ::
         a.alternatingMonoPatterns[k].HasIdenticalMonoLen(b.alternatingMonoPatterns[k])
  }

  ghost predicate AllNonEmpty(groups: seq<RepeatingHitPatterns>) {
    forall k | 0 <= k < |groups| :: NonEmpty(groups[k].alternatingMonoPatterns)
  }

  /** `find_repetition_interval` of the group at `i`; each group knows the one before it. The result
      is the distance to the latest earlier group of the same shape, unless it is 16 or more. */
  method FindRepetitionInterval(groups: seq<RepeatingHitPatterns>, i: nat) returns (interval: nat)
    requires AllNonEmpty(groups) && i < |groups|
    ensures 0 < interval < 16 || interval == 17
    ensures interval < 16 ==> interval <= i && Repeats(groups[i], groups[i - interval])
    ensures forall k | 0 <= k < i && i - k < 16 && i - k < interval :: !Repeats(groups[i], groups[k])
  {
    hide Repeats, NonEmpty;
    if i == 0 {
      return MAX_REPETITION_INTERVAL + 1;
    }
    var other := i - 1;
    interval := 1;
    while interval < MAX_REPETITION_INTERVAL
      invariant 0 < interval <= MAX_REPETITION_INTERVAL && other == i - interval && other >= 0
      invariant forall k | other < k < i :: !Repeats(groups[i], groups[k])
    {
      if Repeats(groups[i], groups[other]) {
        return HitResults.Min(interval, MAX_REPETITION_INTERVAL);
      }
      if other == 0 {
        break;
      }
      other := other - 1;
      interval := interval + 1;
    }
    return MAX_REPETITION_INTERVAL + 1;
  }
}
