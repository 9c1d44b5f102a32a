/** The heap sort that both quicksorts fall back to when they recurse too deeply. */
module HeapSort {
  import opened Sorting

  /** Node `k` of the 1-based heap stored from `lo` on. */
  function Node<T>(s: seq<T>, lo: nat, k: nat): T
    requires 1 <= k && lo + k <= |s|
  {
    s[lo + k - 1]
  }

  ghost predicate Below<T(!new)>(cmp: (T, T) -> Ordering, s: seq<T>, lo: nat, c: nat, p: nat)
    requires 1 <= c && lo + c <= |s| && 1 <= p && lo + p <= |s|
  {
    Leq(cmp, Node(s, lo, c), Node(s, lo, p))
  }

  /** No node exceeds its parent, for parents from `from` on. */
  ghost predicate Heap<T(!new)>(cmp: (T, T) -> Ordering, s: seq<T>, lo: nat, n: nat, from: nat)
    requires lo + n <= |s| && 1 <= from
  {
    forall c: nat | 2 <= c <= n && from <= c / 2 :: Below(cmp, s, lo, c, c / 2)
  }

  /** `Heap`, except that node `k` may be too small for its place; its children still fit under
      its parent. */
  ghost predicate HeapExcept<T(!new)>(cmp: (T, T) -> Ordering, s: seq<T>, lo: nat, n: nat, from: nat, k: nat)
    requires lo + n <= |s| && 1 <= from <= k
  {
    && (forall c: nat | 2 <= c <= n && from <= c / 2 && c / 2 != k :: Below(cmp, s, lo, c, c / 2))
    && (from <= k / 2 ==> forall c: nat | 2 <= c <= n && c / 2 == k :: Below(cmp, s, lo, c, k / 2))
  }

  lemma SiftStep<T(!new)>(cmp: (T, T) -> Ordering, s: seq<T>, t: seq<T>, lo: nat, n: nat, from: nat, k: nat, child: nat)
    requires TotalPreorder(cmp) && lo + n <= |s| && 1 <= from <= k
    requires HeapExcept(cmp, s, lo, n, from, k)
    requires child <= n && child / 2 == k
    requires forall c: nat | 2 <= c <= n && c / 2 == k :: Below(cmp, s, lo, c, child)
    requires cmp(s[lo + k - 1], s[lo + child - 1]).Less?
    requires t == Swapped(s, lo + k - 1, lo + child - 1)
    ensures HeapExcept(cmp, t, lo, n, from, child)
  {
    LeqTotal(cmp, s[lo + k - 1], s[lo + child - 1]);
    assert forall c: nat | 1 <= c <= n && c != k && c != child :: Node(t, lo, c) == Node(s, lo, c);
    assert Node(t, lo, k) == Node(s, lo, child) && Node(t, lo, child) == Node(s, lo, k);
    forall c: nat | 2 <= c <= n && from <= c / 2 && c / 2 != child
      ensures Below(cmp, t, lo, c, c / 2)
    {
      if c == k {
        assert Below(cmp, s, lo, child, k / 2);
      } else if c / 2 == k {
        assert Below(cmp, s, lo, c, child);
      } else {
        assert Below(cmp, s, lo, c, c / 2);
      }
    }
    forall c: nat | 2 <= c <= n && c / 2 == child
      ensures Below(cmp, t, lo, c, child / 2)
    {
      assert Below(cmp, s, lo, c, c / 2);
    }
  }

  /** One round of `down_heap`: stop, or let node `k` change places with its larger child. */
  method Sift<T(!new)>(keys: array<T>, from: nat, k: nat, n: nat, lo: nat, cmp: (T, T) -> Ordering)
    returns (stop: bool, child: nat)
    requires TotalPreorder(cmp) && lo + n <= keys.Length && 1 <= from <= k <= n / 2
    requires HeapExcept(cmp, keys[..], lo, n, from, k)
    modifies keys
    ensures Rearranged(old(keys[..]), keys[..], lo, lo + n)
    ensures stop ==> Heap(cmp, keys[..], lo, n, from)
    ensures !stop ==> k < child <= n && HeapExcept(cmp, keys[..], lo, n, from, child)
  {
    hide HeapExcept, Rearranged, TotalPreorder, Heap, Leq, Below, Swapped;
    ghost var s := keys[..];
    child := 2 * k;
    if child < n && cmp(keys[lo + child - 1], keys[lo + child]).Less? {
      child := child + 1;
    }
    LargerChild(cmp, s, lo, n, k, child);
    stop := !cmp(keys[lo + k - 1], keys[lo + child - 1]).Less?;
    if stop {
      SiftDone(cmp, s, lo, n, from, k, child);
      RearrangedRefl(s, lo, lo + n);
    } else {
      Swap(keys, lo + k - 1, lo + child - 1);
      SiftStep(cmp, s, keys[..], lo, n, from, k, child);
      SwapRearranges(s, lo + k - 1, lo + child - 1, lo, lo + n);
    }
  }

  /** Let node `i` sink until the heap property holds below it. */
  method DownHeap<T(!new)>(keys: array<T>, i: nat, n: nat, lo: nat, cmp: (T, T) -> Ordering)
    requires TotalPreorder(cmp) && lo + n <= keys.Length && 1 <= i
    requires Heap(cmp, keys[..], lo, n, i + 1)
    modifies keys
    ensures Heap(cmp, keys[..], lo, n, i)
    ensures Rearranged(old(keys[..]), keys[..], lo, lo + n)
  {
    hide HeapExcept, Rearranged, TotalPreorder, Heap;
    var k := i;
    ghost var start := keys[..];
    HeapExceptEnds(cmp, start, lo, n, i, k);
    RearrangedRefl(start, lo, lo + n);
    while k <= n / 2
      invariant i <= k
      invariant HeapExcept(cmp, keys[..], lo, n, i, k)
      invariant Rearranged(start, keys[..], lo, lo + n)
      decreases n - k
    {
      ghost var s := keys[..];
      var stop, child := Sift(keys, i, k, n, lo, cmp);
      RearrangedTrans(start, s, keys[..], lo, lo + n);
      if stop {
        return;
      }
      k := child;
    }
    HeapExceptEnds(cmp, keys[..], lo, n, i, k);
  }

  /** A defect at `i` below an otherwise good heap, and a defect without children. */
  lemma HeapExceptEnds<T(!new)>(cmp: (T, T) -> Ordering, s: seq<T>, lo: nat, n: nat, i: nat, k: nat)
    requires lo + n <= |s| && 1 <= i <= k
    ensures i == k && Heap(cmp, s, lo, n, i + 1) ==> HeapExcept(cmp, s, lo, n, i, k)
    ensures n / 2 < k && HeapExcept(cmp, s, lo, n, i, k) ==> Heap(cmp, s, lo, n, i)
  {}

  lemma LargerChild<T(!new)>(cmp: (T, T) -> Ordering, s: seq<T>, lo: nat, n: nat, k: nat, child: nat)
    requires TotalPreorder(cmp) && lo + n <= |s| && 1 <= k && 2 * k <= n
    requires child == if 2 * k < n && cmp(s[lo + 2 * k - 1], s[lo + 2 * k]).Less? then 2 * k + 1 else 2 * k
    ensures forall c: nat | 2 <= c <= n && c / 2 == k :: Below(cmp, s, lo, c, child)
  {
    forall c: nat | 2 <= c <= n && c / 2 == k
      ensures Below(cmp, s, lo, c, child)
    {
      assert c == 2 * k || c == 2 * k + 1;
      LeqTotal(cmp, Node(s, lo, c), Node(s, lo, child));
    }
  }

  lemma SiftDone<T(!new)>(cmp: (T, T) -> Ordering, s: seq<T>, lo: nat, n: nat, from: nat, k: nat, child: nat)
    requires TotalPreorder(cmp) && lo + n <= |s| && 1 <= from <= k && 2 <= child <= n && child / 2 == k
    requires HeapExcept(cmp, s, lo, n, from, k)
    requires forall c: nat | 2 <= c <= n && c / 2 == k :: Below(cmp, s, lo, c, child)
    requires !cmp(s[lo + k - 1], s[lo + child - 1]).Less?
    ensures Heap(cmp, s, lo, n, from)
  {
    LeqTotal(cmp, Node(s, lo, child), Node(s, lo, k));
    forall c: nat | 2 <= c <= n && from <= c / 2
      ensures Below(cmp, s, lo, c, c / 2)
    {
      if c / 2 == k {
        assert Below(cmp, s, lo, c, child) && Below(cmp, s, lo, child, k);
      }
    }
  }

  /** The root of a heap is its largest element. */
  lemma {:induction false} RootIsLargest<T(!new)>(cmp: (T, T) -> Ordering, s: seq<T>, lo: nat, n: nat, c: nat)
    requires TotalPreorder(cmp) && lo + n <= |s| && Heap(cmp, s, lo, n, 1) && 1 <= c <= n
    ensures Below(cmp, s, lo, c, 1)
    decreases c
  {
    if c == 1 {
      LeqTotal(cmp, Node(s, lo, 1), Node(s, lo, 1));
    } else {
      RootIsLargest(cmp, s, lo, n, c / 2);
      assert Below(cmp, s, lo, c, c / 2);
    }
  }

  /** Moving the root behind the heap: it joins the sorted tail. */
  lemma Extract<T(!new)>(cmp: (T, T) -> Ordering, s: seq<T>, t: seq<T>, lo: nat, n: nat, i: nat)
    requires TotalPreorder(cmp) && lo + n <= |s| && 2 <= i <= n
    requires Heap(cmp, s, lo, i, 1) && Sorted(cmp, s, lo + i, lo + n) && Split(cmp, s, lo, lo + i, lo + n)
    requires t == Swapped(s, lo, lo + i - 1)
    ensures Heap(cmp, t, lo, i - 1, 2)
    ensures Sorted(cmp, t, lo + i - 1, lo + n) && Split(cmp, t, lo, lo + i - 1, lo + n)
  {
    forall c: nat | 2 <= c <= i - 1 && 2 <= c / 2
      ensures Below(cmp, t, lo, c, c / 2)
    {
      assert Below(cmp, s, lo, c, c / 2);
    }
    forall x: nat | lo <= x < lo + i
      ensures Leq(cmp, s[x], s[lo])
    {
      RootIsLargest(cmp, s, lo, i, x - lo + 1);
    }
  }

  lemma TailSorted<T(!new)>(cmp: (T, T) -> Ordering, s: seq<T>, t: seq<T>, lo: nat, mid: nat, hi: nat)
    requires lo <= mid <= hi <= |s| && Rearranged(s, t, lo, mid)
    requires Sorted(cmp, s, mid, hi) && Split(cmp, s, lo, mid, hi)
    ensures Sorted(cmp, t, mid, hi) && Split(cmp, t, lo, mid, hi)
  {
    SplitRearranged(cmp, s, t, lo, mid, hi, (lo, mid));
    forall i: nat | mid <= i < hi
      ensures t[i] == s[i]
    {
      RearrangedOutside(s, t, lo, mid, i);
    }
  }

  /** A heap behind which nothing but a sorted tail is left is sorted. */
  lemma OneLeft<T(!new)>(cmp: (T, T) -> Ordering, s: seq<T>, lo: nat, hi: nat)
    requires TotalPreorder(cmp) && lo < hi <= |s|
    requires Sorted(cmp, s, lo + 1, hi) && Split(cmp, s, lo, lo + 1, hi)
    ensures Sorted(cmp, s, lo, hi)
  {
    LeqTotal(cmp, s[lo], s[lo]);
  }

  method BuildHeap<T(!new)>(keys: array<T>, lo: nat, n: nat, cmp: (T, T) -> Ordering)
    requires TotalPreorder(cmp) && lo + n <= keys.Length
    modifies keys
    ensures Heap(cmp, keys[..], lo, n, 1)
    ensures Rearranged(old(keys[..]), keys[..], lo, lo + n)
  {
    hide Rearranged, TotalPreorder, Leq, Below;
    ghost var start := keys[..];
    RearrangedRefl(start, lo, lo + n);
    for i := n / 2 + 1 downto 1
      invariant Heap(cmp, keys[..], lo, n, i)
      invariant Rearranged(start, keys[..], lo, lo + n)
    {
      ghost var s := keys[..];
      DownHeap(keys, i, n, lo, cmp);
      RearrangedTrans(start, s, keys[..], lo, lo + n);
    }
  }

  /** Move the largest of the first `i` elements in front of the sorted tail. */
  method PopLargest<T(!new)>(keys: array<T>, lo: nat, n: nat, i: nat, cmp: (T, T) -> Ordering)
    requires TotalPreorder(cmp) && lo + n <= keys.Length && 2 <= i <= n
    requires Heap(cmp, keys[..], lo, i, 1)
    requires Sorted(cmp, keys[..], lo + i, lo + n) && Split(cmp, keys[..], lo, lo + i, lo + n)
    modifies keys
    ensures Heap(cmp, keys[..], lo, i - 1, 1)
    ensures Sorted(cmp, keys[..], lo + i - 1, lo + n) && Split(cmp, keys[..], lo, lo + i - 1, lo + n)
    ensures Rearranged(old(keys[..]), keys[..], lo, lo + n)
  {
    hide Rearranged, TotalPreorder, Sorted, Sorting.Split, Leq, Below, Heap, Swapped;
    ghost var s := keys[..];
    Swap(keys, lo, lo + i - 1);
    ghost var t := keys[..];
    Extract(cmp, s, t, lo, n, i);
    SwapRearranges(s, lo, lo + i - 1, lo, lo + n);
    DownHeap(keys, 1, i - 1, lo, cmp);
    TailSorted(cmp, t, keys[..], lo, lo + i - 1, lo + n);
    RearrangedWiden(t, keys[..], lo, lo + i - 1, lo, lo + n);
    RearrangedTrans(s, t, keys[..], lo, lo + n);
  }

  /** Sort `keys[lo..=hi]`. */
  method Sort<T(!new)>(keys: array<T>, lo: nat, hi: nat, cmp: (T, T) -> Ordering)
    requires TotalPreorder(cmp) && lo <= hi < keys.Length
    modifies keys
    ensures Sorted(cmp, keys[..], lo, hi + 1)
    ensures Rearranged(old(keys[..]), keys[..], lo, hi + 1)
  {
    hide Rearranged, TotalPreorder, Sorted, Sorting.Split, Heap;
    var n := hi - lo + 1;
    ghost var start := keys[..];
    BuildHeap(keys, lo, n, cmp);
    NoTail(cmp, keys[..], lo, lo + n);
    for i := n + 1 downto 2
      invariant Heap(cmp, keys[..], lo, i - 1, 1)
      invariant Sorted(cmp, keys[..], lo + i - 1, lo + n) && Split(cmp, keys[..], lo, lo + i - 1, lo + n)
      invariant Rearranged(start, keys[..], lo, lo + n)
    {
      ghost var s := keys[..];
      PopLargest(keys, lo, n, i, cmp);
      RearrangedTrans(start, s, keys[..], lo, lo + n);
    }
    OneLeft(cmp, keys[..], lo, lo + n);
  }

  lemma NoTail<T(!new)>(cmp: (T, T) -> Ordering, s: seq<T>, lo: nat, hi: nat)
    requires lo <= hi <= |s|
    ensures Sorted(cmp, s, hi, hi) && Split(cmp, s, lo, hi, hi)
  {}
}
