/**
 `TandemSorter`: a stored permutation that is applied in place to any number of slices by following
 its cycles. The top bit of each stored index marks the places that are already done.
 */
module Tandem {
  import opened Sorting

  /** The top bit of a 64-bit index. */
  const MARK: nat := 0x8000_0000_0000_0000

  predicate IsMarked(idx: nat) {
    idx >= MARK
  }

  /** Flipping the top bit of a number below 2^64. */
  function ToggleMark(idx: nat): nat {
    if idx >= MARK then idx - MARK else idx + MARK
  }

  /** `p` lists every place of a slice of its length exactly once. */
  ghost predicate IsPermutation(p: seq<nat>) {
    && (forall k | 0 <= k < |p| :: p[k] < |p|)
    && (forall k, l | 0 <= k < |p| && 0 <= l < |p| && p[k] == p[l] :: k == l)
  }

  /** Index `k` of `idx` holds `p[k]`, marked or not. */
  ghost predicate Stores(idx: seq<nat>, p: seq<nat>) {
    |idx| == |p| && forall k | 0 <= k < |p| :: idx[k] == p[k] || idx[k] == p[k] + MARK
  }

  /** Where marks are set the permutation has been applied, elsewhere nothing has changed. */
  ghost predicate Applied<T(!new)>(idx: seq<nat>, p: seq<nat>, before: seq<T>, now: seq<T>)
    requires |idx| == |p| <= |before| == |now| && IsPermutation(p)
  {
    && (forall k | 0 <= k < |p| && IsMarked(idx[k]) :: now[k] == before[p[k]])
    && (forall k | 0 <= k < |before| && (k < |p| ==> !IsMarked(idx[k])) :: now[k] == before[k])
  }

  /** Marks cover whole cycles. */
  ghost predicate WholeCycles(idx: seq<nat>, p: seq<nat>)
    requires |idx| == |p| && IsPermutation(p)
  {
    forall k | 0 <= k < |p| :: IsMarked(idx[k]) <==> IsMarked(idx[p[k]])
  }

  /** In the middle of the cycle through `i`: everything from `i` up to but not including `j` is
      marked, nothing else has changed. */
  ghost predicate OnCycle(idx: seq<nat>, p: seq<nat>, i: nat, j: nat)
    requires |idx| == |p| && IsPermutation(p) && i < |p| && j < |p|
  {
    && Stores(idx, p) && !IsMarked(idx[j])
    && (forall k | 0 <= k < |p| && IsMarked(idx[k]) :: IsMarked(idx[p[k]]) || p[k] == j)
    && (forall k | 0 <= k < |p| && !IsMarked(idx[k]) :: !IsMarked(idx[p[k]]) || p[k] == i)
    && (j != i ==> IsMarked(idx[i]) && exists k :: 0 <= k < |p| && IsMarked(idx[k]) && p[k] == j)
  }

  /** Marked places are done; the element that started out at `i` waits at `j`. */
  ghost predicate InHand<T(!new)>(idx: seq<nat>, p: seq<nat>, before: seq<T>, now: seq<T>, i: nat, j: nat)
    requires |idx| == |p| <= |before| == |now| && IsPermutation(p) && i < |p| && j < |p|
  {
    && now[j] == before[i]
    && (forall k | 0 <= k < |p| && IsMarked(idx[k]) :: now[k] == before[p[k]])
    && (forall k | 0 <= k < |before| && k != j && (k < |p| ==> !IsMarked(idx[k])) :: now[k] == before[k])
  }

  lemma CycleStart<T(!new)>(idx: seq<nat>, p: seq<nat>, before: seq<T>, now: seq<T>, i: nat)
    requires |idx| == |p| <= |before| == |now| && IsPermutation(p) && |p| <= MARK && i < |p|
    requires Stores(idx, p) && Applied(idx, p, before, now) && WholeCycles(idx, p) && !IsMarked(idx[i])
    ensures OnCycle(idx, p, i, i) && InHand(idx, p, before, now, i, i)
  {}

  /** The next place of the cycle is still open. */
  lemma CycleNext(idx: seq<nat>, p: seq<nat>, i: nat, j: nat)
    requires |idx| == |p| <= MARK && IsPermutation(p) && i < |p| && j < |p|
    requires OnCycle(idx, p, i, j)
    ensures idx[j] == p[j] < |p| && (p[j] != i ==> p[j] != j && !IsMarked(idx[p[j]]))
  {}

  lemma CycleStep(idx: seq<nat>, p: seq<nat>, i: nat, j: nat)
    requires |idx| == |p| <= MARK && IsPermutation(p) && i < |p| && j < |p|
    requires OnCycle(idx, p, i, j) && p[j] != i
    ensures OnCycle(idx[j := ToggleMark(idx[j])], p, i, p[j])
  {
    CycleNext(idx, p, i, j);
    var idx' := idx[j := ToggleMark(idx[j])];
    assert IsMarked(idx'[j]) && p[j] == p[j];
    assert forall k | 0 <= k < |p| && k != j :: idx'[k] == idx[k];
  }

  lemma HandOver<T(!new)>(idx: seq<nat>, p: seq<nat>, before: seq<T>, now: seq<T>, i: nat, j: nat)
    requires |idx| == |p| <= |before| == |now| && IsPermutation(p) && |p| <= MARK && i < |p| && j < |p|
    requires InHand(idx, p, before, now, i, j) && OnCycle(idx, p, i, j) && p[j] != i
    ensures InHand(idx[j := ToggleMark(idx[j])], p, before, Swapped(now, j, p[j]), i, p[j])
  {
    CycleNext(idx, p, i, j);
    hide OnCycle, IsPermutation;
  }

  lemma CycleEndMarks(idx: seq<nat>, p: seq<nat>, i: nat, j: nat)
    requires |idx| == |p| <= MARK && IsPermutation(p) && i < |p| && j < |p|
    requires OnCycle(idx, p, i, j) && p[j] == i
    ensures var idx' := idx[j := ToggleMark(idx[j])];
      Stores(idx', p) && WholeCycles(idx', p) && IsMarked(idx'[i])
  {}

  lemma CycleEndApplied<T(!new)>(idx: seq<nat>, p: seq<nat>, before: seq<T>, now: seq<T>, i: nat, j: nat)
    requires |idx| == |p| <= |before| == |now| && IsPermutation(p) && |p| <= MARK && i < |p| && j < |p|
    requires idx[j] == p[j] && InHand(idx, p, before, now, i, j) && p[j] == i
    ensures Applied(idx[j := ToggleMark(idx[j])], p, before, now)
  {
    hide IsPermutation;
  }

  lemma CycleEnd<T(!new)>(idx: seq<nat>, p: seq<nat>, before: seq<T>, now: seq<T>, i: nat, j: nat)
    requires |idx| == |p| <= |before| == |now| && IsPermutation(p) && |p| <= MARK && i < |p| && j < |p|
    requires OnCycle(idx, p, i, j) && InHand(idx, p, before, now, i, j) && p[j] == i
    ensures var idx' := idx[j := ToggleMark(idx[j])];
      Stores(idx', p) && Applied(idx', p, before, now) && WholeCycles(idx', p) && IsMarked(idx'[i])
  {
    hide IsPermutation, OnCycle, InHand, Applied, WholeCycles, Stores, IsMarked;
    CycleNext(idx, p, i, j);
    CycleEndMarks(idx, p, i, j);
    CycleEndApplied(idx, p, before, now, i, j);
  }

  // ---------------------------------------------------------------------------------------------
  // The stored order

  /** Index `i` goes before index `j`: by what they point at, and by position among equals. */
  predicate Before<T>(cmp: (T, T) -> Ordering, s: seq<T>, i: nat, j: nat)
    requires i < |s| && j < |s|
  {
    cmp(s[i], s[j]).Less? || (cmp(s[i], s[j]).Equal? && i < j)
  }

  function Identity(n: nat): (p: seq<nat>)
    ensures |p| == n && forall k | 0 <= k < n :: p[k] == k
  {
    if n == 0 then [] else Identity(n - 1) + [n - 1]
  }

  predicate ListsBelow(p: seq<nat>, n: nat) {
    |p| == n && forall k | 0 <= k < n :: p[k] < n
  }

  /** `p` lists the first `n` places, sorted, equal elements in their old order. */
  ghost predicate StableUpTo<T(!new)>(cmp: (T, T) -> Ordering, s: seq<T>, n: nat, p: seq<nat>)
    requires n <= |s|
  {
    && multiset(p) == multiset(Identity(n))
    && ListsBelow(p, n)
    && (forall k, l | 0 <= k < l < n :: Before(cmp, s, p[k], p[l]))
  }

  /** The order a stable sort finds. */
  ghost predicate StableOrder<T(!new)>(cmp: (T, T) -> Ordering, s: seq<T>, p: seq<nat>) {
    StableUpTo(cmp, s, |s|, p)
  }

  /** No index goes before itself, so none is listed twice. */
  lemma StableOrderPermutes<T(!new)>(cmp: (T, T) -> Ordering, s: seq<T>, p: seq<nat>)
    requires TotalPreorder(cmp) && StableOrder(cmp, s, p)
    ensures IsPermutation(p)
  {
    forall k, l | 0 <= k < l < |p|
      ensures p[k] != p[l]
    {
      LeqTotal(cmp, s[p[k]], s[p[k]]);
    }
  }

  /** The order of a stable sort as a comparison of indices. */
  function ByKeyThenIndex<T>(cmp: (T, T) -> Ordering, s: seq<T>, i: nat, j: nat): Ordering {
    if i < |s| && j < |s| && !cmp(s[i], s[j]).Equal? then cmp(s[i], s[j])
    else if i < |s| <= j then Less
    else if j < |s| <= i then Greater
    else if i < j then Less
    else if i == j then Equal
    else Greater
  }

  lemma IndexOrder<T(!new)>(cmp: (T, T) -> Ordering, s: seq<T>) returns (order: (nat, nat) -> Ordering)
    requires TotalPreorder(cmp)
    ensures TotalPreorder(order)
    ensures forall i: nat, j: nat :: order(i, j) == ByKeyThenIndex(cmp, s, i, j)
  {
    order := (i: nat, j: nat) => ByKeyThenIndex(cmp, s, i, j);
    forall i: nat, j: nat, k: nat | Leq(order, i, j) && Leq(order, j, k)
      ensures Leq(order, i, k)
    {
      IndexOrderTrans(cmp, s, i, j, k);
    }
  }

  lemma IndexOrderTrans<T(!new)>(cmp: (T, T) -> Ordering, s: seq<T>, i: nat, j: nat, k: nat)
    requires TotalPreorder(cmp)
    requires !ByKeyThenIndex(cmp, s, i, j).Greater? && !ByKeyThenIndex(cmp, s, j, k).Greater?
    ensures !ByKeyThenIndex(cmp, s, i, k).Greater?
  {
    if i < |s| && j < |s| && k < |s| {
      LeqTrans(cmp, s[i], s[j], s[k]);
      LeqTrans(cmp, s[j], s[k], s[i]);
      LeqTrans(cmp, s[k], s[i], s[j]);
    }
  }

  /** There is only one such order, so any stable sort finds the same one. */
  lemma StableOrderUnique<T(!new)>(cmp: (T, T) -> Ordering, s: seq<T>, p: seq<nat>, q: seq<nat>)
    requires TotalPreorder(cmp) && StableOrder(cmp, s, p) && StableOrder(cmp, s, q)
    ensures p == q
  {
    var order := IndexOrder(cmp, s);
    StableOrderSorted(cmp, s, p, order);
    StableOrderSorted(cmp, s, q, order);
    forall i | 0 <= i < |p|
      ensures p[i] == q[i]
    {
      SortedPlaces(order, p, q, i);
      SortedPlaces(order, q, p, i);
      assert order(p[i], q[i]).Equal?;
    }
  }

  lemma StableOrderSorted<T(!new)>(cmp: (T, T) -> Ordering, s: seq<T>, p: seq<nat>, order: (nat, nat) -> Ordering)
    requires StableOrder(cmp, s, p) && TotalPreorder(order)
    requires forall i: nat, j: nat :: order(i, j) == ByKeyThenIndex(cmp, s, i, j)
    ensures Sorted(order, p, 0, |p|)
  {
    forall k, l | 0 <= k <= l < |p|
      ensures Leq(order, p[k], p[l])
    {
      if k < l {
        assert Before(cmp, s, p[k], p[l]);
      } else {
        LeqTotal(order, p[k], p[l]);
      }
    }
  }

  /** Sorting the indices `0..n` by what they point at, keeping equal ones in order. */
  method SortIndices<T(!new)>(s: seq<T>, cmp: (T, T) -> Ordering) returns (p: seq<nat>)
    requires TotalPreorder(cmp)
    ensures StableOrder(cmp, s, p)
  {
    hide StableUpTo, TotalPreorder;
    p := [];
    NoIndices(cmp, s);
    for i := 0 to |s|
      invariant StableUpTo(cmp, s, i, p)
    {
      IndexBounds(cmp, s, i, p);
      var at := i;
      while at > 0 && cmp(s[i], s[p[at - 1]]).Less?
        invariant at <= i
        invariant forall k | at <= k < i :: cmp(s[i], s[p[k]]).Less?
      {
        at := at - 1;
      }
      InsertIndex(cmp, s, p, i, at);
      p := p[..at] + [i] + p[at..];
    }
  }

  lemma NoIndices<T(!new)>(cmp: (T, T) -> Ordering, s: seq<T>)
    ensures StableUpTo(cmp, s, 0, [])
  {}

  lemma IndexBounds<T(!new)>(cmp: (T, T) -> Ordering, s: seq<T>, n: nat, p: seq<nat>)
    requires n <= |s| && StableUpTo(cmp, s, n, p)
    ensures |p| == n && forall k | 0 <= k < n :: p[k] < |s|
  {}

  lemma InsertIndex<T(!new)>(cmp: (T, T) -> Ordering, s: seq<T>, p: seq<nat>, i: nat, at: nat)
    requires TotalPreorder(cmp) && i < |s| && StableUpTo(cmp, s, i, p) && at <= i
    requires forall k | at <= k < i :: cmp(s[i], s[p[k]]).Less?
    requires at > 0 ==> !cmp(s[i], s[p[at - 1]]).Less?
    ensures StableUpTo(cmp, s, i + 1, p[..at] + [i] + p[at..])
  {
    hide Identity, TotalPreorder, Before;
    var q := p[..at] + [i] + p[at..];
    InsertMultiset(p, i, at);
    InsertBelow(p, i, at);
    forall k, l | 0 <= k < l < i + 1
      ensures Before(cmp, s, q[k], q[l])
    {
      InsertPair(cmp, s, p, i, at, k, l);
    }
  }

  lemma InsertBelow(p: seq<nat>, i: nat, at: nat)
    requires ListsBelow(p, i) && at <= i
    ensures ListsBelow(p[..at] + [i] + p[at..], i + 1)
  {}

  /** Any two of the indices after an insertion are in order. */
  lemma InsertPair<T(!new)>(cmp: (T, T) -> Ordering, s: seq<T>, p: seq<nat>, i: nat, at: nat, k: nat, l: nat)
    requires TotalPreorder(cmp) && i < |s| && StableUpTo(cmp, s, i, p) && at <= i && k < l < i + 1
    requires forall k | at <= k < i :: cmp(s[i], s[p[k]]).Less?
    requires at > 0 ==> !cmp(s[i], s[p[at - 1]]).Less?
    ensures var q := p[..at] + [i] + p[at..];
      q[k] < i + 1 && q[l] < i + 1 && Before(cmp, s, q[k], q[l])
  {
    hide Identity, TotalPreorder;
    if l == at {
      NewAfterSmaller(cmp, s, p, i, at, k);
    } else if k == at {
      assert cmp(s[i], s[p[l - 1]]).Less?;
    } else {
      var k', l' := if k < at then k else k - 1, l - if l < at then 0 else 1;
      assert Before(cmp, s, p[k'], p[l']);
    }
  }

  lemma InsertMultiset(p: seq<nat>, i: nat, at: nat)
    requires multiset(p) == multiset(Identity(i)) && at <= |p|
    ensures multiset(p[..at] + [i] + p[at..]) == multiset(Identity(i + 1))
  {
    assert p == p[..at] + p[at..];
    assert Identity(i + 1) == Identity(i) + [i];
  }

  lemma NewAfterSmaller<T(!new)>(cmp: (T, T) -> Ordering, s: seq<T>, p: seq<nat>, i: nat, at: nat, k: nat)
    requires TotalPreorder(cmp) && i < |s| && StableUpTo(cmp, s, i, p) && k < at <= i
    requires !cmp(s[i], s[p[at - 1]]).Less?
    ensures Before(cmp, s, p[k], i)
  {
    if k < at - 1 {
      assert Before(cmp, s, p[k], p[at - 1]);
    }
    LeqTotal(cmp, s[p[at - 1]], s[i]);
    LeqTotal(cmp, s[p[at - 1]], s[p[at - 1]]);
    LeqTrans(cmp, s[p[k]], s[p[at - 1]], s[i]);
  }

  // ---------------------------------------------------------------------------------------------

  lemma NothingApplied<T(!new)>(idx: seq<nat>, p: seq<nat>, s: seq<T>)
    requires |idx| == |p| <= |s| && IsPermutation(p) && |p| <= MARK && idx == p
    ensures Stores(idx, p) && WholeCycles(idx, p) && Applied(idx, p, s, s)
  {}

  lemma AllApplied<T(!new)>(idx: seq<nat>, p: seq<nat>, before: seq<T>, now: seq<T>)
    requires |idx| == |p| <= |before| == |now| && IsPermutation(p) && |p| <= MARK
    requires Stores(idx, p) && Applied(idx, p, before, now) && forall k | 0 <= k < |p| :: IsMarked(idx[k])
    ensures forall k | 0 <= k < |p| :: idx[k] == p[k] + MARK && p[k] < |p| && now[k] == before[p[k]]
    ensures forall k | |p| <= k < |before| :: now[k] == before[k]
  {}

  lemma SwapMultiset<T>(s: seq<T>, i: nat, j: nat)
    requires i < |s| && j < |s|
    ensures multiset(Swapped(s, i, j)) == multiset(s)
  {}

  class TandemSorter {
    const indices: array<nat>
    var shouldReset: bool
    ghost const perm: seq<nat>

    /** Between calls either no place is marked, or all are and the next call starts over. */
    ghost predicate Valid()
      reads this, indices
    {
      && IsPermutation(perm) && |perm| == indices.Length <= MARK
      && forall k | 0 <= k < |perm| :: indices[k] == if shouldReset then perm[k] + MARK else perm[k]
    }

    /** Stores the stable order of `slice`, which itself is left alone. */
    constructor NewStable<T(!new)>(slice: seq<T>, cmp: (T, T) -> Ordering)
      requires TotalPreorder(cmp) && |slice| <= MARK
      ensures Valid() && fresh(indices)
      ensures StableOrder(cmp, slice, perm)
    {
      var p := SortIndices(slice, cmp);
      StableOrderPermutes(cmp, slice, p);
      indices := new nat[|p|](k requires 0 <= k < |p| => p[k]);
      shouldReset := false;
      perm := p;
    }

    /** Apply the stored order to the front of any slice that is long enough. */
    method Sort<T(!new)>(slice: array<T>)
      requires Valid() && indices.Length <= slice.Length
      requires slice as object != indices as object
      modifies this, indices, slice
      ensures Valid() && shouldReset
      ensures forall k | 0 <= k < indices.Length :: slice[k] == old(slice[perm[k]])
      ensures forall k | indices.Length <= k < slice.Length :: slice[k] == old(slice[k])
      ensures multiset(slice[..]) == multiset(old(slice[..]))
    {
      hide WholeCycles, Applied, Stores, IsPermutation;
      if shouldReset {
        ToggleMarks();
        shouldReset := false;
      }
      ghost var before := slice[..];
      NothingApplied(indices[..], perm, before);
      for i := 0 to indices.Length
        invariant |before| == slice.Length && !shouldReset
        invariant Stores(indices[..], perm) && WholeCycles(indices[..], perm)
        invariant Applied(indices[..], perm, before, slice[..])
        invariant forall k | 0 <= k < i :: IsMarked(indices[k])
        invariant multiset(slice[..]) == multiset(before)
      {
        if !IsMarked(indices[i]) {
          FollowCycle(slice, i, before);
        }
      }
      AllApplied(indices[..], perm, before, slice[..]);
      shouldReset := true;
    }

    /** One round of the loop below: the element at `j` finds its place, and its mark is set. */
    method MoveOne<T(!new)>(slice: array<T>, ghost i: nat, j: nat, jIdx: nat, ghost before: seq<T>)
      requires IsPermutation(perm) && |perm| == indices.Length <= MARK && indices.Length <= slice.Length == |before|
      requires slice as object != indices as object
      requires i < indices.Length && j < indices.Length
      requires jIdx == indices[j] == perm[j] < indices.Length && perm[j] != i
      requires OnCycle(indices[..], perm, i, j) && InHand(indices[..], perm, before, slice[..], i, j)
      modifies indices, slice
      ensures OnCycle(indices[..], perm, i, jIdx) && InHand(indices[..], perm, before, slice[..], i, jIdx)
      ensures indices[..] == old(indices[..])[j := ToggleMark(jIdx)]
      ensures multiset(slice[..]) == multiset(old(slice[..]))
    {
      hide OnCycle, InHand, IsPermutation, Swapped, ToggleMark;
      ghost var idx, now := indices[..], slice[..];
      CycleStep(idx, perm, i, j);
      HandOver(idx, perm, before, now, i, j);
      indices[j] := ToggleMark(jIdx);
      Swap(slice, j, jIdx);
      SwapMultiset(now, j, jIdx);
      assert indices[..] == idx[j := ToggleMark(idx[j])];
    }

    /** Move every element of the cycle through `i` to its place, marking as it goes. */
    method FollowCycle<T(!new)>(slice: array<T>, i: nat, ghost before: seq<T>)
      requires IsPermutation(perm) && |perm| == indices.Length <= MARK && indices.Length <= slice.Length == |before|
      requires slice as object != indices as object
      requires i < indices.Length && !IsMarked(indices[i])
      requires Stores(indices[..], perm) && WholeCycles(indices[..], perm)
      requires Applied(indices[..], perm, before, slice[..])
      modifies indices, slice
      ensures Stores(indices[..], perm) && WholeCycles(indices[..], perm)
      ensures Applied(indices[..], perm, before, slice[..])
      ensures multiset(slice[..]) == multiset(old(slice[..]))
      ensures IsMarked(indices[i])
      ensures forall k | 0 <= k < indices.Length && old(IsMarked(indices[k])) :: IsMarked(indices[k])
    {
      hide OnCycle, InHand, WholeCycles, Applied, Stores, IsPermutation, Swapped;
      var j: nat, jIdx: nat := i, indices[i];
      ghost var open := set k: nat | k < indices.Length && !IsMarked(indices[k]);
      CycleStart(indices[..], perm, before, slice[..], i);
      CycleNext(indices[..], perm, i, j);
      while jIdx != i
        invariant j < indices.Length && jIdx == indices[j] == perm[j] && jIdx < indices.Length
        invariant OnCycle(indices[..], perm, i, j) && InHand(indices[..], perm, before, slice[..], i, j)
        invariant forall k | 0 <= k < indices.Length && old(IsMarked(indices[k])) :: IsMarked(indices[k])
        invariant multiset(slice[..]) == multiset(old(slice[..]))
        invariant open == set k: nat | k < indices.Length && !IsMarked(indices[k])
        decreases open
      {
        CycleNext(indices[..], perm, i, j);
        MoveOne(slice, i, j, jIdx, before);
        open := open - {j};
        j := jIdx;
        jIdx := indices[j];
        CycleNext(indices[..], perm, i, j);
      }
      ghost var idx := indices[..];
      CycleEnd(idx, perm, before, slice[..], i, j);
      indices[j] := ToggleMark(jIdx);
      assert indices[..] == idx[j := ToggleMark(idx[j])];
    }

    method ToggleMarks()
      requires Valid() && shouldReset
      modifies indices
      ensures forall k | 0 <= k < indices.Length :: indices[k] == perm[k]
    {
      for k := 0 to indices.Length
        invariant forall l | 0 <= l < k :: indices[l] == perm[l]
        invariant forall l | k <= l < indices.Length :: indices[l] == perm[l] + MARK
      {
        indices[k] := ToggleMark(indices[k]);
      }
    }
  }
}
