/** C#'s unstable introspective sort: quicksort, insertion sort on small parts, heap sort in depth. */
module Introsort {
  import opened HitResults
  import opened Sorting
  import HeapSort

  const INTRO_SORT_SIZE_THRESHOLD: nat := 16

  // ---------------------------------------------------------------------------------------------
  // Insertion sort by rotation

  /** `s` after `s[from..=to].rotate_right(1)`. */
  function Rotated<T>(s: seq<T>, from: nat, to: nat): (t: seq<T>)
    requires from <= to < |s|
    ensures |t| == |s|
  {
    s[..from] + [s[to]] + s[from..to] + s[to + 1..]
  }

  method RotateRight<T>(keys: array<T>, from: nat, to: nat)
    requires from <= to < keys.Length
    modifies keys
    ensures keys[..] == Rotated(old(keys[..]), from, to)
  {
    var last := keys[to];
    forall j | from < j <= to {
      keys[j] := keys[j - 1];
    }
    keys[from] := last;
  }

  lemma RotationRearranges<T>(s: seq<T>, from: nat, to: nat, lo: nat, hi: nat)
    requires lo <= from <= to < hi <= |s|
    ensures Rearranged(s, Rotated(s, from, to), lo, hi)
  {
    var t := Rotated(s, from, to);
    assert s[from..to + 1] == s[from..to] + [s[to]];
    assert t[from..to + 1] == [s[to]] + s[from..to];
    assert Rearranged(s, t, from, to + 1);
    RearrangedWiden(s, t, from, to + 1, lo, hi);
  }

  /** Rotating an element into the gap between smaller-or-equal and larger ones keeps the order. */
  lemma InsertKeepsOrder<T(!new)>(cmp: (T, T) -> Ordering, s: seq<T>, lo: nat, from: nat, to: nat)
    requires TotalPreorder(cmp) && lo <= from <= to < |s| && Sorted(cmp, s, lo, to)
    requires forall k | from <= k < to :: cmp(s[to], s[k]).Less?
    requires lo < from ==> !cmp(s[to], s[from - 1]).Less?
    ensures Sorted(cmp, Rotated(s, from, to), lo, to + 1)
  {
    hide TotalPreorder;
    var t := Rotated(s, from, to);
    forall i, j | lo <= i <= j < to + 1
      ensures Leq(cmp, t[i], t[j])
    {
      InsertedPair(cmp, s, lo, from, to, i, j);
    }
  }

  lemma InsertedPair<T(!new)>(cmp: (T, T) -> Ordering, s: seq<T>, lo: nat, from: nat, to: nat, i: nat, j: nat)
    requires TotalPreorder(cmp) && lo <= from <= to < |s| && Sorted(cmp, s, lo, to) && lo <= i <= j <= to
    requires forall k | from <= k < to :: cmp(s[to], s[k]).Less?
    requires lo < from ==> !cmp(s[to], s[from - 1]).Less?
    ensures Leq(cmp, Rotated(s, from, to)[i], Rotated(s, from, to)[j])
  {
    hide TotalPreorder;
    var t := Rotated(s, from, to);
    var i' := if i < from then i else if i == from then to else i - 1;
    var j' := if j < from then j else if j == from then to else j - 1;
    assert t[i] == s[i'] && t[j] == s[j'];
    hide Rotated, Sorted;
    if i < from && j == from {
      assert Leq(cmp, s[i], s[from - 1]) by { SortedPair(cmp, s, lo, to, i, from - 1); }
      LeqTotal(cmp, s[to], s[from - 1]);
      LeqTrans(cmp, s[i], s[from - 1], s[to]);
    } else if i == from {
      LeqTotal(cmp, s[to], s[j']);
    } else {
      SortedPair(cmp, s, lo, to, i', j');
    }
  }

  lemma SortedPair<T(!new)>(cmp: (T, T) -> Ordering, s: seq<T>, lo: nat, hi: nat, i: nat, j: nat)
    requires lo <= i <= j < hi <= |s| && Sorted(cmp, s, lo, hi)
    ensures Leq(cmp, s[i], s[j])
  {}

  /** How many elements in front of `keys[i + 1]` are larger than it. */
  method CountLarger<T(!new)>(keys: array<T>, lo: nat, i: nat, cmp: (T, T) -> Ordering) returns (shift: nat)
    requires lo <= i && i + 1 < keys.Length
    ensures shift <= i + 1 - lo
    ensures forall k | i + 1 - shift <= k < i + 1 :: cmp(keys[i + 1], keys[k]).Less?
    ensures shift < i + 1 - lo ==> !cmp(keys[i + 1], keys[i - shift]).Less?
  {
    shift := 0;
    while shift < i + 1 - lo && cmp(keys[i + 1], keys[i - shift]).Less?
      invariant shift <= i + 1 - lo
      invariant forall k | i + 1 - shift <= k < i + 1 :: cmp(keys[i + 1], keys[k]).Less?
    {
      shift := shift + 1;
    }
  }

  method InsertNext<T(!new)>(keys: array<T>, lo: nat, i: nat, cmp: (T, T) -> Ordering)
    requires TotalPreorder(cmp) && lo <= i && i + 1 < keys.Length && Sorted(cmp, keys[..], lo, i + 1)
    modifies keys
    ensures Sorted(cmp, keys[..], lo, i + 2)
    ensures Rearranged(old(keys[..]), keys[..], lo, i + 2)
  {
    hide Rearranged, TotalPreorder, Rotated, Sorted, Leq;
    ghost var s := keys[..];
    var shift := CountLarger(keys, lo, i, cmp);
    RotateRight(keys, i + 1 - shift, i + 1);
    InsertKeepsOrder(cmp, s, lo, i + 1 - shift, i + 1);
    RotationRearranges(s, i + 1 - shift, i + 1, lo, i + 2);
  }

  method InsertionSort<T(!new)>(keys: array<T>, lo: nat, hi: nat, cmp: (T, T) -> Ordering)
    requires TotalPreorder(cmp) && lo <= hi < keys.Length
    modifies keys
    ensures Sorted(cmp, keys[..], lo, hi + 1)
    ensures Rearranged(old(keys[..]), keys[..], lo, hi + 1)
  {
    hide Rearranged, TotalPreorder, Sorted;
    ghost var start := keys[..];
    RearrangedRefl(start, lo, hi + 1);
    OneSorted(cmp, start, lo);
    for i := lo to hi
      invariant Sorted(cmp, keys[..], lo, i + 1)
      invariant Rearranged(start, keys[..], lo, hi + 1)
    {
      ghost var s := keys[..];
      InsertNext(keys, lo, i, cmp);
      RearrangedWiden(s, keys[..], lo, i + 2, lo, hi + 1);
      RearrangedTrans(start, s, keys[..], lo, hi + 1);
    }
  }

  lemma OneSorted<T(!new)>(cmp: (T, T) -> Ordering, s: seq<T>, lo: nat)
    requires TotalPreorder(cmp) && lo < |s|
    ensures Sorted(cmp, s, lo, lo + 1)
  {
    LeqTotal(cmp, s[lo], s[lo]);
  }

  // ---------------------------------------------------------------------------------------------
  // Partition

  /** The state between two exchanges: all up to `left` are at most the pivot, all from `right` on
      at least, and the pivot waits next to the end. */
  ghost predicate Partitioning<T(!new)>(cmp: (T, T) -> Ordering, s: seq<T>, lo: nat, hi: nat, left: nat, right: nat)
    requires lo + 1 < hi < |s|
  {
    && lo <= left < right <= hi - 1
    && (forall k | lo <= k <= left :: Leq(cmp, s[k], s[hi - 1]))
    && (forall k | right <= k <= hi :: Leq(cmp, s[hi - 1], s[k]))
  }

  /** Every pivot position splits the range into what may stay left and what may stay right. */
  ghost predicate Partitioned<T(!new)>(cmp: (T, T) -> Ordering, s: seq<T>, lo: nat, hi: nat, p: nat)
    requires hi < |s|
  {
    lo < p < hi && Split(cmp, s, lo, p, hi + 1) && Split(cmp, s, lo, p + 1, hi + 1)
  }

  /** Order the first, the middle and the last element and park the middle one. */
  method MedianOfThree<T(!new)>(keys: array<T>, lo: nat, hi: nat, cmp: (T, T) -> Ordering)
    requires TotalPreorder(cmp) && lo + 3 <= hi < keys.Length
    modifies keys
    ensures Partitioning(cmp, keys[..], lo, hi, lo, hi - 1)
    ensures Rearranged(old(keys[..]), keys[..], lo, hi + 1)
  {
    hide Rearranged, TotalPreorder, Leq, Partitioning, Swapped;
    ghost var s0 := keys[..];
    var mid := lo + (hi - lo) / 2;
    OrderThree(keys, cmp, lo, mid, hi);
    ghost var s1 := keys[..];
    Swap(keys, mid, hi - 1);
    SwapRearranges(s1, mid, hi - 1, lo, hi + 1);
    RearrangedTrans(s0, s1, keys[..], lo, hi + 1);
    PivotParked(cmp, s1, lo, mid, hi);
  }

  lemma PivotParked<T(!new)>(cmp: (T, T) -> Ordering, s: seq<T>, lo: nat, mid: nat, hi: nat)
    requires TotalPreorder(cmp) && lo < mid < hi - 1 && hi < |s|
    requires Leq(cmp, s[lo], s[mid]) && Leq(cmp, s[mid], s[hi])
    ensures Partitioning(cmp, Swapped(s, mid, hi - 1), lo, hi, lo, hi - 1)
  {
    LeqTotal(cmp, s[mid], s[mid]);
  }

  /** The first element after `left` that is not before the pivot. */
  method ScanUp<T(!new)>(keys: array<T>, lo: nat, hi: nat, left: nat, right: nat, cmp: (T, T) -> Ordering)
    returns (l: nat)
    requires TotalPreorder(cmp) && lo + 1 < hi < keys.Length && Partitioning(cmp, keys[..], lo, hi, left, right)
    ensures left < l <= right
    ensures forall k | lo <= k < l :: Leq(cmp, keys[k], keys[hi - 1])
    ensures Leq(cmp, keys[hi - 1], keys[l])
  {
    hide TotalPreorder;
    l := left + 1;
    while cmp(keys[l], keys[hi - 1]).Less?
      invariant left < l <= right
      invariant forall k | lo <= k < l :: Leq(cmp, keys[k], keys[hi - 1])
      decreases right - l
    {
      LeqTotal(cmp, keys[l], keys[hi - 1]);
      LeqTotal(cmp, keys[right], keys[hi - 1]);
      l := l + 1;
    }
    LeqTotal(cmp, keys[l], keys[hi - 1]);
  }

  /** The last element before `right` that is not after the pivot. */
  method ScanDown<T(!new)>(keys: array<T>, lo: nat, hi: nat, left: nat, right: nat, cmp: (T, T) -> Ordering)
    returns (r: nat)
    requires TotalPreorder(cmp) && lo + 1 < hi < keys.Length && Partitioning(cmp, keys[..], lo, hi, left, right)
    ensures left <= r < right
    ensures forall k | r < k <= hi :: Leq(cmp, keys[hi - 1], keys[k])
    ensures Leq(cmp, keys[r], keys[hi - 1])
  {
    hide TotalPreorder;
    r := right - 1;
    while cmp(keys[hi - 1], keys[r]).Less?
      invariant left <= r < right
      invariant forall k | r < k <= hi :: Leq(cmp, keys[hi - 1], keys[k])
      decreases r
    {
      LeqTotal(cmp, keys[hi - 1], keys[r]);
      LeqTotal(cmp, keys[hi - 1], keys[left]);
      r := r - 1;
    }
    LeqTotal(cmp, keys[hi - 1], keys[r]);
  }

  lemma ExchangeKeeps<T(!new)>(cmp: (T, T) -> Ordering, s: seq<T>, lo: nat, hi: nat, l: nat, r: nat)
    requires lo < l < r < hi - 1 && hi < |s|
    requires forall k | lo <= k < l :: Leq(cmp, s[k], s[hi - 1])
    requires forall k | r < k <= hi :: Leq(cmp, s[hi - 1], s[k])
    requires Leq(cmp, s[hi - 1], s[l]) && Leq(cmp, s[r], s[hi - 1])
    ensures Partitioning(cmp, Swapped(s, l, r), lo, hi, l, r)
  {}

  /** When the scans have met, the pivot goes between the two parts. */
  lemma PivotPlaced<T(!new)>(cmp: (T, T) -> Ordering, s: seq<T>, lo: nat, hi: nat, l: nat, r: nat)
    requires TotalPreorder(cmp) && lo < l <= hi - 1 && r <= l && hi < |s|
    requires forall k | lo <= k < l :: Leq(cmp, s[k], s[hi - 1])
    requires forall k | r < k <= hi :: Leq(cmp, s[hi - 1], s[k])
    requires Leq(cmp, s[hi - 1], s[l])
    ensures Partitioned(cmp, Swapped(s, l, hi - 1), lo, hi, l)
  {
    var t := Swapped(s, l, hi - 1);
    LeqTotal(cmp, t[l], t[l]);
    assert forall k | lo <= k <= l :: Leq(cmp, t[k], t[l]);
    assert forall k | l <= k <= hi :: Leq(cmp, t[l], t[k]);
  }

  /** The exchange in a round of the partition. */
  method Exchange<T(!new)>(keys: array<T>, lo: nat, hi: nat, l: nat, r: nat, cmp: (T, T) -> Ordering,
                           ghost start: seq<T>)
    requires lo < l < r < hi - 1 && hi < keys.Length && Rearranged(start, keys[..], lo, hi + 1)
    requires forall k | lo <= k < l :: Leq(cmp, keys[k], keys[hi - 1])
    requires forall k | r < k <= hi :: Leq(cmp, keys[hi - 1], keys[k])
    requires Leq(cmp, keys[hi - 1], keys[l]) && Leq(cmp, keys[r], keys[hi - 1])
    modifies keys
    ensures Partitioning(cmp, keys[..], lo, hi, l, r) && Rearranged(start, keys[..], lo, hi + 1)
  {
    hide Rearranged, Leq, Partitioning, Swapped;
    ghost var s := keys[..];
    ExchangeKeeps(cmp, s, lo, hi, l, r);
    SwapRearranges(s, l, r, lo, hi + 1);
    Swap(keys, l, r);
    RearrangedTrans(start, s, keys[..], lo, hi + 1);
  }

  method PickPivotAndPartition<T(!new)>(keys: array<T>, lo: nat, hi: nat, cmp: (T, T) -> Ordering) returns (p: nat)
    requires TotalPreorder(cmp) && lo + 3 <= hi < keys.Length
    modifies keys
    ensures Partitioned(cmp, keys[..], lo, hi, p)
    ensures Rearranged(old(keys[..]), keys[..], lo, hi + 1)
  {
    hide Rearranged, TotalPreorder, Leq, Partitioning, Partitioned, Swapped;
    ghost var start := keys[..];
    MedianOfThree(keys, lo, hi, cmp);
    var left, right := lo, hi - 1;
    PartitioningBounds(cmp, keys[..], lo, hi, left, right);
    while left < right
      invariant lo <= left < right <= hi - 1
      invariant Partitioning(cmp, keys[..], lo, hi, left, right)
      invariant Rearranged(start, keys[..], lo, hi + 1)
      decreases right - left
    {
      var l := ScanUp(keys, lo, hi, left, right, cmp);
      var r := ScanDown(keys, lo, hi, left, right, cmp);
      left, right := l, r;
      if left >= right {
        break;
      }
      Exchange(keys, lo, hi, left, right, cmp, start);
    }
    ghost var s := keys[..];
    Swap(keys, left, hi - 1);
    PivotPlaced(cmp, s, lo, hi, left, right);
    SwapRearranges(s, left, hi - 1, lo, hi + 1);
    RearrangedTrans(start, s, keys[..], lo, hi + 1);
    p := left;
  }

  lemma PartitioningBounds<T(!new)>(cmp: (T, T) -> Ordering, s: seq<T>, lo: nat, hi: nat, left: nat, right: nat)
    requires lo + 1 < hi < |s| && Partitioning(cmp, s, lo, hi, left, right)
    ensures lo <= left < right <= hi - 1
  {}

  // ---------------------------------------------------------------------------------------------
  // The sort

  /** The part above `mid` is finished: sorted, and nothing below belongs into it. */
  ghost predicate Finished<T(!new)>(cmp: (T, T) -> Ordering, s: seq<T>, lo: nat, mid: nat, end: nat)
    requires lo <= mid <= end <= |s|
  {
    Sorted(cmp, s, mid, end) && Split(cmp, s, lo, mid, end)
  }

  lemma FinishedStart<T(!new)>(cmp: (T, T) -> Ordering, s: seq<T>, lo: nat, end: nat)
    requires lo <= end <= |s|
    ensures Finished(cmp, s, lo, end, end)
  {}

  /** Rearranging below `mid` leaves the finished part alone. */
  lemma FinishedKept<T(!new)>(cmp: (T, T) -> Ordering, s: seq<T>, t: seq<T>, lo: nat, mid: nat, end: nat,
                              part: (nat, nat))
    requires lo <= mid <= end <= |s| && Finished(cmp, s, lo, mid, end)
    requires lo <= part.0 && part.1 <= mid && Rearranged(s, t, part.0, part.1)
    ensures Finished(cmp, t, lo, mid, end)
  {
    SplitRearranged(cmp, s, t, lo, mid, end, part);
    forall i: nat | mid <= i < end
      ensures t[i] == s[i]
    {
      RearrangedOutside(s, t, part.0, part.1, i);
    }
  }

  /** Below the finished part: a pivot with a sorted upper side joins it. */
  lemma FinishedGrows<T(!new)>(cmp: (T, T) -> Ordering, s: seq<T>, t: seq<T>, lo: nat, hi: nat, p: nat, end: nat)
    requires TotalPreorder(cmp) && hi < end <= |s| && Partitioned(cmp, s, lo, hi, p)
    requires Finished(cmp, s, lo, hi + 1, end)
    requires Rearranged(s, t, p + 1, hi + 1) && Sorted(cmp, t, p + 1, hi + 1)
    ensures Finished(cmp, t, lo, p, end)
  {
    FinishedKept(cmp, s, t, lo, hi + 1, end, (p + 1, hi + 1));
    SplitRearranged(cmp, s, t, lo, p, hi + 1, (p + 1, hi + 1));
    SplitRearranged(cmp, s, t, lo, p + 1, hi + 1, (p + 1, hi + 1));
    LeqTotal(cmp, t[p], t[p]);
  }

  lemma FinishedAll<T(!new)>(cmp: (T, T) -> Ordering, s: seq<T>, lo: nat, mid: nat, end: nat)
    requires lo <= mid <= end <= |s| && Finished(cmp, s, lo, mid, end) && Sorted(cmp, s, lo, mid)
    ensures Sorted(cmp, s, lo, end)
  {}

  /** The part is small, or too deep for another partition. */
  method SortSmall<T(!new)>(keys: array<T>, lo: nat, hi: nat, cmp: (T, T) -> Ordering)
    requires TotalPreorder(cmp) && lo < hi < keys.Length
    modifies keys
    ensures Sorted(cmp, keys[..], lo, hi + 1)
    ensures Rearranged(old(keys[..]), keys[..], lo, hi + 1)
  {
    var partitionSize := hi - lo + 1;
    if partitionSize == 2 {
      ConditionalSwap(cmp, keys[..], lo, hi, lo, hi + 1);
      SwapIfGreater(keys, cmp, lo, hi);
      LeqTotal(cmp, keys[lo], keys[lo]);
      LeqTotal(cmp, keys[hi], keys[hi]);
    } else if partitionSize == 3 {
      OrderThree(keys, cmp, lo, hi - 1, hi);
      ThreeSorted(cmp, keys[..], lo);
    } else {
      InsertionSort(keys, lo, hi, cmp);
    }
  }

  lemma ThreeSorted<T(!new)>(cmp: (T, T) -> Ordering, s: seq<T>, lo: nat)
    requires TotalPreorder(cmp) && lo + 3 <= |s| && Leq(cmp, s[lo], s[lo + 1]) && Leq(cmp, s[lo + 1], s[lo + 2])
    ensures Sorted(cmp, s, lo, lo + 3)
  {
    LeqTotal(cmp, s[lo], s[lo]);
    LeqTotal(cmp, s[lo + 1], s[lo + 1]);
    LeqTotal(cmp, s[lo + 2], s[lo + 2]);
  }

  method IntroSort<T(!new)>(keys: array<T>, lo: nat, hi': nat, depthLimit': nat, cmp: (T, T) -> Ordering)
    requires TotalPreorder(cmp) && lo <= hi' + 1 && hi' < keys.Length
    modifies keys
    ensures Sorted(cmp, keys[..], lo, hi' + 1)
    ensures Rearranged(old(keys[..]), keys[..], lo, hi' + 1)
    decreases depthLimit', 0
  {
    hide Rearranged, TotalPreorder, Sorted, Finished, Partitioned;
    var hi: nat, depthLimit: nat := hi', depthLimit';
    ghost var start, end := keys[..], hi' + 1;
    RearrangedRefl(start, lo, end);
    FinishedStart(cmp, start, lo, end);
    while hi > lo
      invariant lo <= hi + 1 <= end && depthLimit <= depthLimit'
      invariant Finished(cmp, keys[..], lo, hi + 1, end)
      invariant Rearranged(start, keys[..], lo, end)
      decreases hi
    {
      ghost var s := keys[..];
      if hi - lo + 1 <= INTRO_SORT_SIZE_THRESHOLD || depthLimit == 0 {
        FinishLast(keys, lo, hi, cmp, end);
        RearrangedTrans(start, s, keys[..], lo, end);
        return;
      }
      depthLimit := depthLimit - 1;
      var p := SortUpper(keys, lo, hi, depthLimit, cmp, end);
      RearrangedTrans(start, s, keys[..], lo, end);
      hi := p - 1;
    }
    AtMostOne(cmp, keys[..], lo, hi + 1);
    FinishedAll(cmp, keys[..], lo, hi + 1, end);
  }

  /** The two ways out of the loop: the part is small, or the depth is used up. */
  method FinishLast<T(!new)>(keys: array<T>, lo: nat, hi: nat, cmp: (T, T) -> Ordering, ghost end: nat)
    requires TotalPreorder(cmp) && lo < hi < end <= keys.Length && Finished(cmp, keys[..], lo, hi + 1, end)
    modifies keys
    ensures Sorted(cmp, keys[..], lo, end)
    ensures Rearranged(old(keys[..]), keys[..], lo, end)
  {
    hide Rearranged, TotalPreorder, Sorted, Finished;
    ghost var s := keys[..];
    if hi - lo + 1 <= INTRO_SORT_SIZE_THRESHOLD {
      SortSmall(keys, lo, hi, cmp);
    } else {
      HeapSort.Sort(keys, lo, hi, cmp);
    }
    FinishedKept(cmp, s, keys[..], lo, hi + 1, end, (lo, hi + 1));
    RearrangedWiden(s, keys[..], lo, hi + 1, lo, end);
    FinishedAll(cmp, keys[..], lo, hi + 1, end);
  }

  /** One partition and the recursive sort of what lies above the pivot. */
  method SortUpper<T(!new)>(keys: array<T>, lo: nat, hi: nat, depthLimit: nat, cmp: (T, T) -> Ordering, ghost end: nat)
    returns (p: nat)
    requires TotalPreorder(cmp) && lo + 3 <= hi < end <= keys.Length && Finished(cmp, keys[..], lo, hi + 1, end)
    modifies keys
    ensures lo < p < hi && Finished(cmp, keys[..], lo, p, end)
    ensures Rearranged(old(keys[..]), keys[..], lo, end)
    decreases depthLimit, 1
  {
    hide Rearranged, TotalPreorder, Sorted, Finished, Partitioned, Leq, Split;
    ghost var s := keys[..];
    p := PickPivotAndPartition(keys, lo, hi, cmp);
    ghost var t := keys[..];
    PartitionedBounds(cmp, t, lo, hi, p);
    FinishedKept(cmp, s, t, lo, hi + 1, end, (lo, hi + 1));
    RearrangedWiden(s, t, lo, hi + 1, lo, end);
    IntroSort(keys, p + 1, hi, depthLimit, cmp);
    FinishedGrows(cmp, t, keys[..], lo, hi, p, end);
    RearrangedWiden(t, keys[..], p + 1, hi + 1, lo, end);
    RearrangedTrans(s, t, keys[..], lo, end);
  }

  lemma PartitionedBounds<T(!new)>(cmp: (T, T) -> Ordering, s: seq<T>, lo: nat, hi: nat, p: nat)
    requires hi < |s| && Partitioned(cmp, s, lo, hi, p)
    ensures lo < p < hi
  {}

  lemma AtMostOne<T(!new)>(cmp: (T, T) -> Ordering, s: seq<T>, lo: nat, hi: nat)
    requires TotalPreorder(cmp) && lo <= hi <= lo + 1 && hi <= |s|
    ensures Sorted(cmp, s, lo, hi)
  {
    if lo < hi {
      LeqTotal(cmp, s[lo], s[lo]);
    }
  }

  function Ilog2(n: nat): (log: nat)
    requires n > 0
    ensures Pow2(log) <= n < Pow2(log + 1)
  {
    if n == 1 then 0 else 1 + Ilog2(n / 2)
  }

  /** The whole slice. */
  method Sort<T(!new)>(keys: array<T>, cmp: (T, T) -> Ordering)
    requires TotalPreorder(cmp)
    modifies keys
    ensures Sorted(cmp, keys[..], 0, keys.Length)
    ensures multiset(keys[..]) == multiset(old(keys[..]))
  {
    if keys.Length >= 2 {
      IntroSort(keys, 0, keys.Length - 1, 2 * Ilog2(keys.Length), cmp);
      assert keys[..] == keys[..][0..keys.Length] && old(keys[..]) == old(keys[..])[0..keys.Length];
    } else {
      AtMostOne(cmp, keys[..], 0, keys.Length);
    }
  }
}
