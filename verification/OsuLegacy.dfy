/**
 osu!'s legacy quicksort. Its pivot is read again from `keys[mid]` while elements move, so it is
 no general sort. Both callers hand it objects already in order of their start times; on those it
 only exchanges objects that start together, and as soon as two do, some object does move.
 */
module OsuLegacy {
  import opened Sorting
  import HeapSort
  import HitResults

  const QUICK_SORT_DEPTH_THRESHOLD: nat := 32

  /** A hit object: when it starts, and everything the order does not look at. */
  datatype HitObject = HitObject(startTime: real, rest: int)

  function ByStartTime(a: HitObject, b: HitObject): Ordering {
    if a.startTime < b.startTime then Less else if a.startTime == b.startTime then Equal else Greater
  }

  lemma StartTimeIsOrder()
    ensures TotalPreorder(ByStartTime)
  {}

  ghost predicate InOrder(s: seq<HitObject>) {
    forall i, j | 0 <= i <= j < |s| :: s[i].startTime <= s[j].startTime
  }

  ghost predicate SameTimes(s: seq<HitObject>, t: seq<HitObject>) {
    |s| == |t| && forall i | 0 <= i < |s| :: s[i].startTime == t[i].startTime
  }

  /** What a part of the sort leaves behind. */
  ghost predicate Kept(s: seq<HitObject>, t: seq<HitObject>, lo: nat, hi: nat) {
    InOrder(t) && SameTimes(s, t) && Rearranged(s, t, lo, hi)
  }

  lemma KeptTrans(s: seq<HitObject>, t: seq<HitObject>, u: seq<HitObject>, lo: nat, hi: nat, lo': nat, hi': nat)
    requires Kept(s, t, lo, hi) && Kept(t, u, lo', hi') && lo <= lo' && hi' <= hi
    ensures Kept(s, u, lo, hi)
  {
    RearrangedWiden(t, u, lo', hi', lo, hi);
    RearrangedTrans(s, t, u, lo, hi);
  }

  lemma KeptRefl(s: seq<HitObject>, lo: nat, hi: nat)
    requires InOrder(s) && lo <= hi <= |s|
    ensures Kept(s, s, lo, hi)
  {}

  lemma SwapKept(s: seq<HitObject>, i: nat, j: nat, lo: nat, hi: nat)
    requires InOrder(s) && lo <= i < hi <= |s| && lo <= j < hi && s[i].startTime == s[j].startTime
    ensures Kept(s, Swapped(s, i, j), lo, hi)
  {
    SwapRearranges(s, i, j, lo, hi);
  }

  /** The fallback sorts again, which cannot change the sequence of start times either. */
  method HeapSortKept(keys: array<HitObject>, left: nat, right: nat)
    requires left <= right < keys.Length && InOrder(keys[..])
    modifies keys
    ensures Kept(old(keys[..]), keys[..], left, right + 1)
  {
    StartTimeIsOrder();
    ghost var s := keys[..];
    HeapSort.Sort(keys, left, right, ByStartTime);
    ResortKept(s, keys[..], left, right + 1);
  }

  lemma ResortKept(s: seq<HitObject>, t: seq<HitObject>, lo: nat, hi: nat)
    requires InOrder(s) && Rearranged(s, t, lo, hi) && Sorted(ByStartTime, t, lo, hi)
    ensures Kept(s, t, lo, hi)
  {
    StartTimeIsOrder();
    forall i | 0 <= i < |s|
      ensures s[i].startTime == t[i].startTime
    {
      if lo <= i < hi {
        SortedPlaces(ByStartTime, s[lo..hi], t[lo..hi], i - lo);
        SortedPlaces(ByStartTime, t[lo..hi], s[lo..hi], i - lo);
      } else {
        RearrangedOutside(s, t, lo, hi, i);
      }
    }
  }

  lemma NoSwapNeeded(s: seq<HitObject>, a: nat, b: nat)
    requires InOrder(s) && a <= b < |s|
    ensures SwappedIfGreater(ByStartTime, s, a, b) == s
  {}

  // ---------------------------------------------------------------------------------------------
  // Objects that start together

  /** Every object is an entry of its own. */
  ghost predicate Distinct<T>(s: seq<T>) {
    forall x | x in s :: multiset(s)[x] == 1
  }

  lemma TwoPlaces<T>(s: seq<T>, k: nat, l: nat)
    requires k < l < |s| && s[k] == s[l]
    ensures multiset(s)[s[k]] >= 2
  {
    assert s == s[..l] + s[l..];
    assert s[k] in s[..l] && s[k] in s[l..] by { assert s[..l][k] == s[k] && s[l..][0] == s[k]; }
  }

  lemma DistinctPlaces<T>(s: seq<T>, i: nat, j: nat)
    requires Distinct(s) && i < |s| && j < |s| && s[i] == s[j]
    ensures i == j
  {
    if i < j {
      TwoPlaces(s, i, j);
    } else if j < i {
      TwoPlaces(s, j, i);
    }
  }

  /** Two objects of `s[lo..hi]` start together. */
  ghost predicate HasTie(s: seq<HitObject>, lo: nat, hi: nat)
    requires hi <= |s|
  {
    exists x, y | lo <= x < y < hi :: s[x].startTime == s[y].startTime
  }

  /** Without a tie there is only one arrangement with the same times. */
  lemma NoTieNoMove(s: seq<HitObject>, t: seq<HitObject>, lo: nat, hi: nat)
    requires Kept(s, t, lo, hi) && !HasTie(s, lo, hi)
    ensures s == t
  {
    forall i | 0 <= i < |s|
      ensures s[i] == t[i]
    {
      if lo <= i < hi {
        var j := RearrangedSource(s, t, lo, hi, i);
      } else {
        RearrangedOutside(s, t, lo, hi, i);
      }
    }
  }

  /** The partition found the pivot to be the only object of its time, and moved nothing. */
  ghost predicate Untouched(s: seq<HitObject>, t: seq<HitObject>, left: nat, right: nat, i: nat, j: nat)
    requires left <= right < |s|
  {
    var mid := left + (right - left) / 2;
    && t == s && i == mid + 1 && j == HitResults.SaturatingSub(mid, 1)
    && (HasTie(s, left, right + 1) ==> HasTie(s, left, mid) || HasTie(s, mid + 1, right + 1))
  }

  /** The partition exchanged two objects of the pivot's time that the later steps keep apart. */
  ghost predicate Exchanged(s: seq<HitObject>, t: seq<HitObject>, a: nat, b: nat, i: nat, j: nat)
    requires |s| == |t|
  {
    a <= j < i <= b < |s| && t[a] == s[b] && t[b] == s[a]
  }

  lemma LonePivot(s: seq<HitObject>, left: nat, right: nat, mid: nat)
    requires left <= mid <= right < |s|
    requires forall k | left <= k < mid :: s[k].startTime < s[mid].startTime
    requires forall k | mid < k <= right :: s[mid].startTime < s[k].startTime
    ensures HasTie(s, left, right + 1) ==> HasTie(s, left, mid) || HasTie(s, mid + 1, right + 1)
  {}

  /** Both inner loops: on ordered objects they stop at the pivot's start time, at the first and the
      last place of it, and later on they do not move. */
  method Scan(keys: array<HitObject>, left: nat, right: nat, mid: nat, i0: nat, j0: nat) returns (i: nat, j: nat)
    requires left <= i0 <= j0 <= right < keys.Length && InOrder(keys[..])
    requires left <= mid < right
    requires (i0 == left && j0 == right)
          || (keys[i0].startTime == keys[mid].startTime == keys[j0].startTime)
    ensures i0 <= i <= j <= j0 && keys[i].startTime == keys[mid].startTime == keys[j].startTime
    ensures keys[i0].startTime == keys[mid].startTime == keys[j0].startTime ==> i == i0 && j == j0
    ensures i0 == left && j0 == right ==>
      && i <= mid <= j
      && (forall k | left <= k < i :: keys[k].startTime < keys[mid].startTime)
      && (forall k | j < k <= right :: keys[mid].startTime < keys[k].startTime)
  {
    i, j := i0, j0;
    while keys[i].startTime < keys[mid].startTime
      invariant i0 <= i <= right && (i == i0 || i <= mid)
      invariant keys[i0].startTime == keys[mid].startTime ==> i == i0
      invariant forall k | i0 <= k < i :: keys[k].startTime < keys[mid].startTime
      decreases mid - i
    {
      i := i + 1;
    }
    while keys[mid].startTime < keys[j].startTime
      invariant left <= j <= j0 && (j == j0 || mid <= j)
      invariant keys[j0].startTime == keys[mid].startTime ==> j == j0
      invariant forall k | j < k <= j0 :: keys[mid].startTime < keys[k].startTime
      decreases j
    {
      j := j - 1;
    }
  }

  /** Between two rounds of a partition: the objects that start with the pivot stood from `a` to `b`,
      those outside of `i..=j` have changed places. */
  ghost predicate Reversing(start: seq<HitObject>, s: seq<HitObject>, mid: nat, i: nat, j: nat, a: nat, b: nat) {
    && |s| == |start| && a < i <= j < b < |s| && i + j == a + b && a <= mid <= b
    && s[a] == start[b] && s[b] == start[a]
    && s[i].startTime == s[mid].startTime == s[j].startTime
  }

  lemma FirstExchange(s: seq<HitObject>, mid: nat, i: nat, j: nat)
    requires i < j < |s| && i <= mid <= j && InOrder(s) && s[i].startTime == s[j].startTime
    ensures i + 1 <= j - 1 ==> Reversing(s, Swapped(s, i, j), mid, i + 1, j - 1, i, j)
    ensures i + 1 > j - 1 ==> Exchanged(s, Swapped(s, i, j), i, j, i + 1, j - 1)
  {}

  lemma NextExchange(start: seq<HitObject>, s: seq<HitObject>, mid: nat, i: nat, j: nat, a: nat, b: nat)
    requires Reversing(start, s, mid, i, j, a, b) && InOrder(s)
    ensures var t := if i < j then Swapped(s, i, j) else s;
      && (i + 1 <= j - 1 ==> Reversing(start, t, mid, i + 1, j - 1, a, b))
      && (i + 1 > j - 1 ==> Exchanged(start, t, a, b, i + 1, j - 1))
  {}

  lemma ReversingTimes(start: seq<HitObject>, s: seq<HitObject>, mid: nat, i: nat, j: nat, a: nat, b: nat)
    requires Reversing(start, s, mid, i, j, a, b)
    ensures s[i].startTime == s[mid].startTime == s[j].startTime && j > 0
  {}

  lemma NotReversing(start: seq<HitObject>, s: seq<HitObject>, mid: nat, i: nat, j: nat, a: nat, b: nat)
    requires s == start || (i <= a && Reversing(start, s, mid, i, j, a, b))
    ensures s == start
  {}

  /** The first round: an exchange, or a pivot alone in its time. */
  lemma RoundFirst(s: seq<HitObject>, left: nat, right: nat, mid: nat, i: nat, j: nat)
    requires left < right < |s| && mid == left + (right - left) / 2 && left <= i <= mid <= j <= right && InOrder(s)
    requires s[i].startTime == s[mid].startTime == s[j].startTime
    requires forall k | left <= k < i :: s[k].startTime < s[mid].startTime
    requires forall k | j < k <= right :: s[mid].startTime < s[k].startTime
    ensures i < j && i + 1 <= j - 1 ==> Reversing(s, Swapped(s, i, j), mid, i + 1, j - 1, i, j)
    ensures i < j && i + 1 > j - 1 ==> Exchanged(s, Swapped(s, i, j), i, j, i + 1, j - 1)
    ensures i == j ==> Untouched(s, s, left, right, i + 1, HitResults.SaturatingSub(j, 1))
  {
    if i == j {
      LonePivot(s, left, right, mid);
    } else {
      FirstExchange(s, mid, i, j);
    }
  }

  /** One round of the inner loop of a partition. */
  method Round(keys: array<HitObject>, left: nat, right: nat, mid: nat, i0: nat, j0: nat,
               ghost start: seq<HitObject>, ghost a0: nat, ghost b0: nat)
    returns (i: nat, j: nat, done: bool, ghost a: nat, ghost b: nat)
    requires left <= i0 <= j0 <= right < keys.Length && left < right && mid == left + (right - left) / 2
    requires InOrder(keys[..])
    requires (i0 == left && j0 == right && keys[..] == start)
          || (left <= a0 && b0 <= right && Reversing(start, keys[..], mid, i0, j0, a0, b0))
    modifies keys
    ensures Kept(old(keys[..]), keys[..], left, right + 1)
    ensures left <= a && b <= right && i0 < i && j <= j0
    ensures done ==> Untouched(start, keys[..], left, right, i, j) || Exchanged(start, keys[..], a, b, i, j)
    ensures !done ==> i <= j && Reversing(start, keys[..], mid, i, j, a, b)
  {
    hide Rearranged, Kept, Swapped, InOrder, Reversing, Exchanged, Untouched, HasTie;
    ghost var s := keys[..];
    assert Kept(s, s, left, right + 1) by { KeptRefl(s, left, right + 1); }
    if i0 != left || j0 != right {
      ReversingTimes(start, s, mid, i0, j0, a0, b0);
    }
    i, j := Scan(keys, left, right, mid, i0, j0);
    a, b := a0, b0;
    if i0 == left && j0 == right {
      NotReversing(start, s, mid, i0, j0, a0, b0);
      a, b := i, j;
      RoundFirst(s, left, right, mid, i, j);
    } else {
      NextExchange(start, s, mid, i, j, a0, b0);
    }
    if i < j {
      Swap(keys, i, j);
      SwapKept(s, i, j, left, right + 1);
    }
    i := i + 1;
    j := HitResults.SaturatingSub(j, 1);
    done := i > j;
  }

  /** One partition. The scans stop inside the range and the parts are strictly smaller. Either the
      pivot is alone in its time and nothing moves, or the first and the last object of its time
      change places across the parts. */
  method Partition(keys: array<HitObject>, left: nat, right: nat) returns (i: nat, j: nat, ghost a: nat, ghost b: nat)
    requires left < right < keys.Length && InOrder(keys[..])
    modifies keys
    ensures Kept(old(keys[..]), keys[..], left, right + 1)
    ensures left < i <= right && j < i && left <= a && b <= right
    ensures Untouched(old(keys[..]), keys[..], left, right, i, j) || Exchanged(old(keys[..]), keys[..], a, b, i, j)
  {
    hide Rearranged, Kept, SwappedIfGreater, SameTimes, Untouched, Exchanged, Reversing;
    ghost var start := keys[..];
    i, j := left, right;
    var mid := i + (j - i) / 2;
    NoSwapNeeded(start, i, mid);
    NoSwapNeeded(start, i, j);
    NoSwapNeeded(start, mid, j);
    SwapIfGreater(keys, ByStartTime, i, mid);
    SwapIfGreater(keys, ByStartTime, i, j);
    SwapIfGreater(keys, ByStartTime, mid, j);
    hide InOrder;
    KeptRefl(start, left, right + 1);
    a, b := left, right;
    var done := false;
    while !done
      invariant left <= i && j <= right && left <= a && b <= right
      invariant Kept(start, keys[..], left, right + 1) && InOrder(keys[..])
      invariant !done ==> i <= j
      invariant !done ==> (i == left && j == right && keys[..] == start) || Reversing(start, keys[..], mid, i, j, a, b)
      invariant done ==> left < i
      invariant done ==> Untouched(start, keys[..], left, right, i, j) || Exchanged(start, keys[..], a, b, i, j)
      decreases if done then 0 else 1, right - i
    {
      ghost var s := keys[..];
      i, j, done, a, b := Round(keys, left, right, mid, i, j, start, a, b);
      KeptTrans(start, s, keys[..], left, right + 1, left, right + 1);
      KeptInOrder(s, keys[..], left, right + 1);
    }
    OutcomeBounds(start, keys[..], left, right, i, j, a, b);
  }

  lemma OutcomeBounds(s: seq<HitObject>, t: seq<HitObject>, left: nat, right: nat, i: nat, j: nat, a: nat, b: nat)
    requires left < right < |s| == |t| && b <= right
    requires Untouched(s, t, left, right, i, j) || Exchanged(s, t, a, b, i, j)
    ensures i <= right && j < i
  {}

  lemma KeptInOrder(s: seq<HitObject>, t: seq<HitObject>, lo: nat, hi: nat)
    requires Kept(s, t, lo, hi)
    ensures InOrder(t) && |t| == |s|
  {}

  // ---------------------------------------------------------------------------------------------

  /** The range is small enough for the depth limit to leave no tie to the fallback. */
  ghost predicate WithinDepth(left: nat, right: nat, depthLimit: nat) {
    right + 1 - left < HitResults.Pow2(depthLimit + 1)
  }

  /** Outside of the range that is still to be sorted, some object has left its place. */
  ghost predicate Moved(start: seq<HitObject>, s: seq<HitObject>, left: nat, right: nat) {
    |s| == |start| && exists k | 0 <= k < |s| && !(left <= k <= right) :: s[k] != start[k]
  }

  lemma MovedStays(start: seq<HitObject>, s: seq<HitObject>, t: seq<HitObject>, left: nat, right: nat)
    requires Moved(start, s, left, right) && Kept(s, t, left, right + 1)
    ensures Moved(start, t, left, right)
  {
    var k :| 0 <= k < |s| && !(left <= k <= right) && s[k] != start[k];
    RearrangedOutside(s, t, left, right + 1, k);
  }

  /** What the sort knows about a tie of the start: it has moved objects for good, or it has moved
      nothing and is still to come to the tie. */
  ghost predicate TieMoves(start: seq<HitObject>, s: seq<HitObject>, left: nat, right: nat, depthLimit: nat)
    requires |s| == |start| && left <= right < |s|
  {
    Moved(start, s, left, right) || (s == start && HasTie(s, left, right + 1) && WithinDepth(left, right, depthLimit))
  }

  /** What went to another part of the slice does not come back while only this part is rearranged. */
  lemma NotBack(s: seq<HitObject>, t: seq<HitObject>, u: seq<HitObject>, x: nat, y: nat, lo: nat, hi: nat)
    requires |s| == |t| && x < |s| && y < |s| && x != y && t[y] == s[x] && Distinct(t)
    requires Rearranged(t, u, lo, hi) && !(lo <= y < hi)
    ensures u[x] != s[x]
  {
    var c := x;
    if lo <= x < hi {
      c := RearrangedSource(t, u, lo, hi, x);
    } else {
      RearrangedOutside(t, u, lo, hi, x);
    }
    if u[x] == s[x] {
      DistinctPlaces(t, c, y);
    }
  }

  lemma DistinctRearranged<T>(s: seq<T>, t: seq<T>)
    requires Distinct(s) && multiset(s) == multiset(t)
    ensures Distinct(t)
  {
    forall x | x in t
      ensures multiset(t)[x] == 1
    {
      assert x in multiset(t);
    }
  }

  lemma KeptDistinct(s: seq<HitObject>, t: seq<HitObject>, lo: nat, hi: nat)
    requires Distinct(s) && Kept(s, t, lo, hi)
    ensures Distinct(t)
  {
    RearrangedWiden(s, t, lo, hi, 0, |s|);
    assert s[0..|s|] == s && t[0..|s|] == t;
    DistinctRearranged(s, t);
  }

  /** After an exchange, one part is sorted and the other is still to come. */
  lemma ExchangeMoves(start: seq<HitObject>, t: seq<HitObject>, u: seq<HitObject>, a: nat, b: nat, i: nat, j: nat,
                      left: nat, right: nat)
    requires left <= a && b <= right < |start| == |t| && Distinct(t) && Exchanged(start, t, a, b, i, j)
    ensures Kept(t, u, left, j + 1) ==> Moved(start, u, i, right)
    ensures Kept(t, u, i, right + 1) ==> Moved(start, u, left, j)
    ensures left >= j ==> Moved(start, t, i, right)
    ensures i >= right ==> Moved(start, t, left, j)
  {
    hide InOrder, Rearranged, Distinct;
    if Kept(t, u, left, j + 1) {
      NotBack(start, t, u, a, b, left, j + 1);
    }
    if Kept(t, u, i, right + 1) {
      NotBack(start, t, u, b, a, i, right + 1);
    }
    if t[a] == start[a] || t[b] == start[b] {
      DistinctPlaces(t, a, b);
    }
  }

  /** One part is sorted, with or without a tie of its own; the other keeps the rest of the depth. */
  lemma PartMoves(start: seq<HitObject>, u: seq<HitObject>, lo: nat, hi: nat, left: nat, right: nat, depthLimit: nat)
    requires lo <= hi < |start| && left <= right < |start| && (hi < left || right < lo)
    requires Kept(start, u, lo, hi + 1) && (HasTie(start, lo, hi + 1) ==> u != start)
    requires HasTie(start, lo, hi + 1) || HasTie(start, left, right + 1)
    requires WithinDepth(left, right, depthLimit)
    ensures TieMoves(start, u, left, right, depthLimit)
  {
    hide HasTie, WithinDepth, Rearranged, InOrder;
    if HasTie(start, lo, hi + 1) {
      var k :| 0 <= k < |start| && u[k] != start[k];
      if !(lo <= k <= hi) {
        RearrangedOutside(start, u, lo, hi + 1, k);
      }
    } else {
      NoTieNoMove(start, u, lo, hi + 1);
    }
  }

  lemma HalvesWithinDepth(left: nat, right: nat, depthLimit: nat)
    requires left < right && depthLimit > 0 && WithinDepth(left, right, depthLimit)
    ensures var mid := left + (right - left) / 2;
      WithinDepth(mid + 1, right, depthLimit - 1) && WithinDepth(left, HitResults.SaturatingSub(mid, 1), depthLimit - 1)
  {
    assert HitResults.Pow2(depthLimit + 1) == 2 * HitResults.Pow2(depthLimit);
    assert HitResults.Pow2(1) == 2;
  }

  lemma MovedNarrower(start: seq<HitObject>, s: seq<HitObject>, left: nat, right: nat, lo: nat, hi: nat)
    requires Moved(start, s, left, right) && left <= lo && hi <= right
    ensures Moved(start, s, lo, hi)
  {}

  /** The part of a partition that is sorted first, from `lo` to `hi`; too small a part is left alone. */
  ghost predicate PartSorted(t: seq<HitObject>, u: seq<HitObject>, lo: nat, hi: nat, depthLimit: nat) {
    if lo < hi then
      && hi < |t| && Kept(t, u, lo, hi + 1)
      && (Distinct(t) && HasTie(t, lo, hi + 1) && WithinDepth(lo, hi, depthLimit) ==> u != t)
    else u == t
  }

  lemma PartKept(t: seq<HitObject>, u: seq<HitObject>, lo: nat, hi: nat, depthLimit: nat, left: nat, right: nat)
    requires InOrder(t) && left < right < |t| && left <= lo && hi <= right && PartSorted(t, u, lo, hi, depthLimit)
    ensures Kept(t, u, left, right + 1)
  {
    hide Rearranged, SameTimes, Distinct, HasTie, WithinDepth;
    KeptRefl(t, left, right + 1);
    if lo < hi {
      KeptTrans(t, t, u, left, right + 1, lo, hi + 1);
    }
  }

  lemma MovedStep(start: seq<HitObject>, s: seq<HitObject>, t: seq<HitObject>, u: seq<HitObject>, left: nat, right: nat,
                  part: (nat, nat), rest: (nat, nat), depthLimit: nat)
    requires left < right < |start| == |s| && Moved(start, s, left, right) && Kept(s, t, left, right + 1)
    requires left <= part.0 && part.1 <= right && left <= rest.0 && rest.1 <= right
    requires PartSorted(t, u, part.0, part.1, depthLimit)
    ensures |u| == |start| && Moved(start, u, rest.0, rest.1)
  {
    PartKept(t, u, part.0, part.1, depthLimit, left, right);
    hide Kept, PartSorted, Moved;
    MovedStays(start, s, t, left, right);
    MovedStays(start, t, u, left, right);
    MovedNarrower(start, u, left, right, rest.0, rest.1);
  }

  lemma UntouchedStep(start: seq<HitObject>, u: seq<HitObject>, left: nat, right: nat, i: nat, j: nat, depthLimit: nat)
    requires left < right < |start| && InOrder(start) && Distinct(start) && depthLimit > 0
    requires Untouched(start, start, left, right, i, j)
    requires HasTie(start, left, right + 1) && WithinDepth(left, right, depthLimit)
    ensures PartSorted(start, u, left, j, depthLimit - 1) ==>
      |u| == |start| && TieMoves(start, u, i, right, depthLimit - 1)
    ensures left < j && PartSorted(start, u, i, right, depthLimit - 1) ==>
      |u| == |start| && TieMoves(start, u, left, j, depthLimit - 1)
  {
    HalvesWithinDepth(left, right, depthLimit);
    hide WithinDepth, Rearranged, Distinct, TieMoves;
    if PartSorted(start, u, left, j, depthLimit - 1) && left < j {
      PartMoves(start, u, left, j, i, right, depthLimit - 1);
    }
    if PartSorted(start, u, i, right, depthLimit - 1) && left < j {
      if i < right {
        PartMoves(start, u, i, right, left, j, depthLimit - 1);
      }
    }
  }

  lemma ExchangedStep(start: seq<HitObject>, t: seq<HitObject>, u: seq<HitObject>, a: nat, b: nat,
                      i: nat, j: nat, left: nat, right: nat, depthLimit: nat)
    requires left <= a && b <= right < |start| == |t| && i <= right && Distinct(t) && Exchanged(start, t, a, b, i, j)
    ensures PartSorted(t, u, left, j, depthLimit) ==> |u| == |start| && Moved(start, u, i, right)
    ensures PartSorted(t, u, i, right, depthLimit) ==> |u| == |start| && Moved(start, u, left, j)
  {
    ExchangeMoves(start, t, u, a, b, i, j, left, right);
  }

  /** A partition and one of its parts later, the other part being left. */
  lemma StepMoves(start: seq<HitObject>, s: seq<HitObject>, t: seq<HitObject>, u: seq<HitObject>, a: nat, b: nat,
                  i: nat, j: nat, left: nat, right: nat, depthLimit: nat)
    requires left < right < |start| == |s| && depthLimit > 0 && TieMoves(start, s, left, right, depthLimit)
    requires Kept(s, t, left, right + 1) && left < i <= right && j < i && left <= a && b <= right
    requires Distinct(t) && Distinct(start) && InOrder(start)
    requires Untouched(s, t, left, right, i, j) || Exchanged(s, t, a, b, i, j)
    ensures PartSorted(t, u, left, j, depthLimit - 1) ==> |u| == |start| && TieMoves(start, u, i, right, depthLimit - 1)
    ensures left < j && PartSorted(t, u, i, right, depthLimit - 1) ==>
      |u| == |start| && TieMoves(start, u, left, j, depthLimit - 1)
  {
    KeptInOrder(s, t, left, right + 1);
    if Moved(start, s, left, right) {
      hide Moved, Distinct, Kept, PartSorted;
      if PartSorted(t, u, left, j, depthLimit - 1) {
        MovedStep(start, s, t, u, left, right, (left, j), (i, right), depthLimit - 1);
      }
      if left < j && PartSorted(t, u, i, right, depthLimit - 1) {
        MovedStep(start, s, t, u, left, right, (i, right), (left, j), depthLimit - 1);
      }
    } else {
      hide Moved, Distinct, Kept, PartSorted, WithinDepth, HasTie;
      if Untouched(s, t, left, right, i, j) {
        UntouchedStep(start, u, left, right, i, j, depthLimit);
      } else {
        ExchangedStep(start, t, u, a, b, i, j, left, right, depthLimit - 1);
      }
    }
  }

  ghost predicate Watched(start: seq<HitObject>, left: nat, right: nat, depthLimit: nat) {
    right < |start| && Distinct(start) && HasTie(start, left, right + 1) && WithinDepth(left, right, depthLimit)
  }

  lemma WatchStarts(start: seq<HitObject>, left: nat, right: nat, depthLimit: nat)
    requires left < right < |start| && InOrder(start)
    ensures Watched(start, left, right, depthLimit) ==> TieMoves(start, start, left, right, depthLimit)
    ensures Kept(start, start, left, right + 1)
  {}

  /** With no depth left, or nothing left to sort, a watched tie has moved. */
  lemma WatchEnds(start: seq<HitObject>, s: seq<HitObject>, t: seq<HitObject>, left: nat, right: nat, depthLimit: nat)
    requires left <= right < |start| == |s| && TieMoves(start, s, left, right, depthLimit)
    requires Kept(s, t, left, right + 1) && (depthLimit == 0 || left == right)
    ensures t != start
  {
    assert HitResults.Pow2(1) == 2 * HitResults.Pow2(0) == 2;
    if Moved(start, s, left, right) {
      MovedStays(start, s, t, left, right);
    }
  }

  lemma WatchDistinct(start: seq<HitObject>, t: seq<HitObject>, lo: nat, hi: nat, left: nat, right: nat,
                      depthLimit: nat)
    requires Watched(start, left, right, depthLimit) && Kept(start, t, lo, hi)
    ensures Distinct(start) && Distinct(t)
  {
    KeptDistinct(start, t, lo, hi);
  }

  lemma Finish(start: seq<HitObject>, t: seq<HitObject>, left: nat, right: nat, depthLimit: nat)
    requires left < right < |start| && Kept(start, t, left, right + 1)
    requires Watched(start, left, right, depthLimit) ==> t != start
    ensures PartSorted(start, t, left, right, depthLimit)
  {}

  /** One round of the outer loop, seen from the start: what stays, and what happens to a tie. */
  lemma RoundKeeps(start: seq<HitObject>, s: seq<HitObject>, t: seq<HitObject>, u: seq<HitObject>,
                   left: nat, right: nat, lo: nat, hi: nat, left': nat, right': nat, depthLimit: nat)
    requires left' <= left < right <= right' < |start| && left <= lo && hi <= right
    requires Kept(start, s, left', right' + 1) && Kept(s, t, left, right + 1) && PartSorted(t, u, lo, hi, depthLimit)
    ensures Kept(start, u, left', right' + 1) && InOrder(u)
  {
    hide Kept, InOrder, PartSorted;
    KeptInOrder(start, s, left', right' + 1);
    KeptInOrder(s, t, left, right + 1);
    PartKept(t, u, lo, hi, depthLimit, left, right);
    KeptTrans(start, s, t, left', right' + 1, left, right + 1);
    KeptTrans(start, t, u, left', right' + 1, left, right + 1);
    KeptInOrder(t, u, left, right + 1);
  }

  lemma RoundMoves(start: seq<HitObject>, s: seq<HitObject>, t: seq<HitObject>, u: seq<HitObject>, a: nat, b: nat,
                   i: nat, j: nat, left: nat, right: nat, depthLimit: nat, all: (nat, nat, nat))
    requires all.0 <= left < right <= all.1 < |start| && InOrder(start) && depthLimit > 0
    requires Kept(start, s, all.0, all.1 + 1) && Kept(s, t, left, right + 1)
    requires left < i <= right && j < i && left <= a && b <= right
    requires Untouched(s, t, left, right, i, j) || Exchanged(s, t, a, b, i, j)
    requires Watched(start, all.0, all.1, all.2) && TieMoves(start, s, left, right, depthLimit)
    ensures PartSorted(t, u, left, j, depthLimit - 1) ==> |u| == |start| && TieMoves(start, u, i, right, depthLimit - 1)
    ensures left < j && PartSorted(t, u, i, right, depthLimit - 1) ==>
      |u| == |start| && TieMoves(start, u, left, j, depthLimit - 1)
  {
    hide Kept, InOrder, PartSorted, TieMoves, Untouched, Exchanged, Watched, Distinct;
    KeptInOrder(start, s, all.0, all.1 + 1);
    KeptTrans(start, s, t, all.0, all.1 + 1, left, right + 1);
    WatchDistinct(start, t, all.0, all.1 + 1, all.0, all.1, all.2);
    StepMoves(start, s, t, u, a, b, i, j, left, right, depthLimit);
  }

  lemma Conclude(start: seq<HitObject>, t: seq<HitObject>, left: nat, right: nat, depthLimit: nat, all: (nat, nat, nat))
    requires all.0 <= left == right <= all.1 < |start| && all.0 < all.1 && Kept(start, t, all.0, all.1 + 1)
    requires Watched(start, all.0, all.1, all.2) ==> TieMoves(start, t, left, right, depthLimit)
    ensures PartSorted(start, t, all.0, all.1, all.2)
  {
    KeptRefl(t, left, right + 1);
    if Watched(start, all.0, all.1, all.2) {
      WatchEnds(start, t, t, left, right, depthLimit);
    }
    Finish(start, t, all.0, all.1, all.2);
  }

  lemma PartAlone(t: seq<HitObject>, lo: nat, hi: nat, depthLimit: nat)
    requires lo >= hi
    ensures PartSorted(t, t, lo, hi, depthLimit)
  {}

  /** Sorts `keys[left'..=right']`, leaving the start times where they are. If objects start together,
      and the range is not larger than the depth limit is meant for, some object moves. */
  method DepthLimitedQuickSort(keys: array<HitObject>, left': nat, right': nat, depthLimit': nat)
    requires left' < right' < keys.Length && InOrder(keys[..])
    modifies keys
    ensures PartSorted(old(keys[..]), keys[..], left', right', depthLimit')
    decreases depthLimit'
  {
    hide Rearranged, InOrder, SameTimes, Untouched, Exchanged, TieMoves, Watched, Distinct, PartSorted, Kept;
    var left: nat, right: nat, depthLimit: nat := left', right', depthLimit';
    ghost var start := keys[..];
    ghost var all := (left', right', depthLimit');
    WatchStarts(start, left', right', depthLimit');
    while true
      invariant left' <= left < right <= right' && depthLimit <= depthLimit'
      invariant Kept(start, keys[..], left', right' + 1) && InOrder(keys[..])
      invariant Watched(start, left', right', depthLimit') ==> TieMoves(start, keys[..], left, right, depthLimit)
      decreases depthLimit
    {
      ghost var s := keys[..];
      if depthLimit == 0 {
        HeapSortKept(keys, left, right);
        KeptTrans(start, s, keys[..], left', right' + 1, left, right + 1);
        if Watched(start, left', right', depthLimit') {
          WatchEnds(start, s, keys[..], left, right, depthLimit);
        }
        Finish(start, keys[..], left', right', depthLimit');
        return;
      }
      ghost var a, b;
      var i, j;
      i, j, a, b := Partition(keys, left, right);
      ghost var t := keys[..];
      KeptInOrder(s, t, left, right + 1);
      depthLimit := depthLimit - 1;
      if HitResults.SaturatingSub(j, left) <= right - i {
        if left < j {
          DepthLimitedQuickSort(keys, left, j, depthLimit);
        } else {
          PartAlone(t, left, j, depthLimit);
        }
        RoundKeeps(start, s, t, keys[..], left, right, left, j, left', right', depthLimit);
        if Watched(start, left', right', depthLimit') {
          RoundMoves(start, s, t, keys[..], a, b, i, j, left, right, depthLimit + 1, all);
        }
        left := i;
      } else {
        if i < right {
          DepthLimitedQuickSort(keys, i, right, depthLimit);
        } else {
          PartAlone(t, i, right, depthLimit);
        }
        RoundKeeps(start, s, t, keys[..], left, right, i, right, left', right', depthLimit);
        if Watched(start, left', right', depthLimit') {
          RoundMoves(start, s, t, keys[..], a, b, i, j, left, right, depthLimit + 1, all);
        }
        right := j;
      }
      if left >= right {
        Conclude(start, keys[..], left, right, depthLimit, all);
        return;
      }
    }
  }

  lemma {:induction false} Pow2Add(a: nat, b: nat)
    ensures HitResults.Pow2(a + b) == HitResults.Pow2(a) * HitResults.Pow2(b)
  {
    if a > 0 {
      Pow2Add(a - 1, b);
    }
  }

  lemma DepthBound()
    ensures HitResults.Pow2(QUICK_SORT_DEPTH_THRESHOLD + 1) == DEPTH_SUFFICES
  {
    assert HitResults.Pow2(1) == 2;
    hide HitResults.Pow2;
    Pow2Add(1, 1);
    assert HitResults.Pow2(2) == 4;
    Pow2Add(2, 2);
    assert HitResults.Pow2(4) == 16;
    Pow2Add(4, 4);
    assert HitResults.Pow2(8) == 0x100;
    Pow2Add(8, 8);
    assert HitResults.Pow2(16) == 0x1_0000;
    Pow2Add(16, 16);
    Pow2Add(32, 1);
  }

  /** With a depth limit of 32, a range of this size comes down to single objects by halving alone. */
  const DEPTH_SUFFICES: nat := 0x2_0000_0000

  /** The whole slice: the objects are permuted, the sequence of start times stays. Nothing moves if
      all start times differ, and only then: two objects that start together always change the order,
      as long as the slice is not so long that the fallback may get at them first. */
  method Sort(keys: array<HitObject>)
    requires InOrder(keys[..])
    modifies keys
    ensures InOrder(keys[..]) && SameTimes(old(keys[..]), keys[..])
    ensures multiset(keys[..]) == multiset(old(keys[..]))
    ensures !HasTie(old(keys[..]), 0, keys.Length) ==> keys[..] == old(keys[..])
    ensures Distinct(old(keys[..])) && HasTie(old(keys[..]), 0, keys.Length) && keys.Length < DEPTH_SUFFICES ==>
      keys[..] != old(keys[..])
  {
    hide Distinct;
    ghost var start := keys[..];
    if keys.Length < 2 {
      return;
    }
    DepthLimitedQuickSort(keys, 0, keys.Length - 1, QUICK_SORT_DEPTH_THRESHOLD);
    assert keys[..] == keys[..][0..keys.Length] && start == start[0..keys.Length];
    DepthBound();
    if !HasTie(start, 0, keys.Length) {
      NoTieNoMove(start, keys[..], 0, keys.Length);
    }
  }
}
