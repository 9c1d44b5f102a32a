/**
 What the sorting algorithms share: orderings, rearrangements of a part of an array, swaps, and
 the heap sort both quicksorts fall back to.
 */
module Sorting {
  datatype Ordering = Less | Equal | Greater

  /** What every comparison function handed to a sort promises. */
  ghost predicate TotalPreorder<T(!new)>(cmp: (T, T) -> Ordering) {
    && (forall a, b :: cmp(a, b).Less? <==> cmp(b, a).Greater?)
    && (forall a, b, c :: Leq(cmp, a, b) && Leq(cmp, b, c) ==> Leq(cmp, a, c))
  }

  predicate Leq<T>(cmp: (T, T) -> Ordering, a: T, b: T) {
    !cmp(a, b).Greater?
  }

  lemma LeqTotal<T(!new)>(cmp: (T, T) -> Ordering, a: T, b: T)
    requires TotalPreorder(cmp)
    ensures Leq(cmp, a, b) || Leq(cmp, b, a)
    ensures Leq(cmp, a, a)
    ensures !Leq(cmp, b, a) <==> cmp(a, b).Less?
  {}

  /** `s[lo..hi]` is in order. */
  ghost predicate Sorted<T(!new)>(cmp: (T, T) -> Ordering, s: seq<T>, lo: nat, hi: nat)
    requires lo <= hi <= |s|
  {
    forall i, j | lo <= i <= j < hi :: Leq(cmp, s[i], s[j])
  }

  /** No element of `s[lo..mid]` comes after one of `s[mid..hi]`. */
  ghost predicate Split<T(!new)>(cmp: (T, T) -> Ordering, s: seq<T>, lo: nat, mid: nat, hi: nat)
    requires lo <= mid <= hi <= |s|
  {
    forall i, j | lo <= i < mid <= j < hi :: Leq(cmp, s[i], s[j])
  }

  /** `t` is `s` with the elements of `s[lo..hi]` in another order. */
  ghost predicate Rearranged<T>(s: seq<T>, t: seq<T>, lo: nat, hi: nat) {
    && |s| == |t| && lo <= hi <= |s|
    && s[..lo] == t[..lo] && s[hi..] == t[hi..]
    && multiset(s[lo..hi]) == multiset(t[lo..hi])
  }

  lemma RearrangedRefl<T>(s: seq<T>, lo: nat, hi: nat)
    requires lo <= hi <= |s|
    ensures Rearranged(s, s, lo, hi)
  {}

  lemma RearrangedTrans<T>(s: seq<T>, t: seq<T>, u: seq<T>, lo: nat, hi: nat)
    requires Rearranged(s, t, lo, hi) && Rearranged(t, u, lo, hi)
    ensures Rearranged(s, u, lo, hi)
  {}

  lemma RearrangedWiden<T>(s: seq<T>, t: seq<T>, lo: nat, hi: nat, lo': nat, hi': nat)
    requires Rearranged(s, t, lo, hi) && lo' <= lo && hi <= hi' <= |s|
    ensures Rearranged(s, t, lo', hi')
  {
    assert s[..lo'] == s[..lo][..lo'] && t[..lo'] == t[..lo][..lo'];
    assert s[hi'..] == s[hi..][hi' - hi..] && t[hi'..] == t[hi..][hi' - hi..];
    assert s[lo'..lo] == s[..lo][lo'..] && t[lo'..lo] == t[..lo][lo'..];
    assert s[hi..hi'] == s[hi..][..hi' - hi] && t[hi..hi'] == t[hi..][..hi' - hi];
    assert s[lo'..hi'] == s[lo'..lo] + s[lo..hi] + s[hi..hi'];
    assert t[lo'..hi'] == t[lo'..lo] + t[lo..hi] + t[hi..hi'];
  }

  function Swapped<T>(s: seq<T>, i: nat, j: nat): (t: seq<T>)
    requires i < |s| && j < |s|
    ensures |t| == |s|
  {
    s[i := s[j]][j := s[i]]
  }

  lemma SwapRearranges<T>(s: seq<T>, i: nat, j: nat, lo: nat, hi: nat)
    requires lo <= i < hi <= |s| && lo <= j < hi
    ensures Rearranged(s, Swapped(s, i, j), lo, hi)
  {
    var t := Swapped(s, i, j);
    assert t[lo..hi] == s[lo..hi][i - lo := s[j]][j - lo := s[i]];
  }

  /** Everything in a rearranged part came from there. */
  lemma RearrangedSource<T>(s: seq<T>, t: seq<T>, lo: nat, hi: nat, i: nat) returns (j: nat)
    requires Rearranged(s, t, lo, hi) && lo <= i < hi
    ensures lo <= j < hi && t[i] == s[j]
  {
    assert t[i] in multiset(t[lo..hi]) by { assert t[i] == t[lo..hi][i - lo]; }
    assert t[i] in s[lo..hi];
    var k :| 0 <= k < |s[lo..hi]| && s[lo..hi][k] == t[i];
    j := lo + k;
  }

  /** Rearranging within both parts keeps them split. */
  lemma SplitRearranged<T(!new)>(cmp: (T, T) -> Ordering, s: seq<T>, t: seq<T>, lo: nat, mid: nat, hi: nat,
                                 part: (nat, nat))
    requires lo <= mid <= hi <= |s| && Split(cmp, s, lo, mid, hi)
    requires Rearranged(s, t, part.0, part.1)
    requires (lo <= part.0 && part.1 <= mid) || (mid <= part.0 && part.1 <= hi)
    ensures Split(cmp, t, lo, mid, hi)
  {
    forall i, j | lo <= i < mid <= j < hi
      ensures Leq(cmp, t[i], t[j])
    {
      var i', j' := i, j;
      if part.0 <= i < part.1 {
        i' := RearrangedSource(s, t, part.0, part.1, i);
      } else {
        RearrangedOutside(s, t, part.0, part.1, i);
      }
      if part.0 <= j < part.1 {
        j' := RearrangedSource(s, t, part.0, part.1, j);
      } else {
        RearrangedOutside(s, t, part.0, part.1, j);
      }
      assert Leq(cmp, s[i'], s[j']);
    }
  }

  lemma RearrangedOutside<T>(s: seq<T>, t: seq<T>, lo: nat, hi: nat, i: nat)
    requires Rearranged(s, t, lo, hi) && i < |s| && !(lo <= i < hi)
    ensures t[i] == s[i]
  {
    if i < lo {
      assert s[..lo][i] == t[..lo][i];
    } else {
      assert s[hi..][i - hi] == t[hi..][i - hi];
    }
  }

  lemma SubmultisetSize<T>(a: multiset<T>, b: multiset<T>)
    requires a <= b
    ensures |a| <= |b|
  {
    assert b == a + (b - a);
  }

  /** The first `i + 1` elements of one arrangement cannot all avoid the places from `i` on of another. */
  lemma PlacesOverlap<T>(s: seq<T>, t: seq<T>, i: nat) returns (k: nat, l: nat)
    requires multiset(s) == multiset(t) && i < |s| == |t|
    ensures k <= i <= l < |t| && s[k] == t[l]
  {
    var low, rest := multiset(s[..i + 1]), multiset(t[i..]);
    assert s == s[..i + 1] + s[i + 1..] && t == t[..i] + t[i..];
    if forall x | x in low :: x !in rest {
      forall x
        ensures low[x] <= multiset(t[..i])[x]
      {
        assert multiset(s)[x] == low[x] + multiset(s[i + 1..])[x];
        assert multiset(t)[x] == multiset(t[..i])[x] + rest[x];
      }
      SubmultisetSize(low, multiset(t[..i]));
      assert false;
    }
    var x :| x in low && x in rest;
    assert x in s[..i + 1] && x in t[i..];
    k :| 0 <= k < i + 1 && s[..i + 1][k] == x;
    var m :| 0 <= m < |t[i..]| && t[i..][m] == x;
    l := i + m;
  }

  /** What stands at a place of a sorted arrangement is not before what another one has there. */
  lemma SortedPlaces<T(!new)>(cmp: (T, T) -> Ordering, s: seq<T>, t: seq<T>, i: nat)
    requires TotalPreorder(cmp) && multiset(s) == multiset(t) && i < |s| == |t|
    requires Sorted(cmp, s, 0, |s|) && Sorted(cmp, t, 0, |t|)
    ensures Leq(cmp, t[i], s[i])
  {
    var k, l := PlacesOverlap(s, t, i);
    assert Leq(cmp, t[i], t[l]) && Leq(cmp, s[k], s[i]);
  }

  // ---------------------------------------------------------------------------------------------

  method Swap<T>(keys: array<T>, i: nat, j: nat)
    requires i < keys.Length && j < keys.Length
    modifies keys
    ensures keys[..] == Swapped(old(keys[..]), i, j)
  {
    if i != j {
      keys[i], keys[j] := keys[j], keys[i];
    }
  }

  function SwappedIfGreater<T>(cmp: (T, T) -> Ordering, s: seq<T>, a: nat, b: nat): (t: seq<T>)
    requires a < |s| && b < |s|
    ensures |t| == |s|
  {
    if cmp(s[a], s[b]).Greater? then Swapped(s, a, b) else s
  }

  lemma ConditionalSwap<T(!new)>(cmp: (T, T) -> Ordering, s: seq<T>, a: nat, b: nat, lo: nat, hi: nat)
    requires TotalPreorder(cmp) && lo <= a < hi <= |s| && lo <= b < hi
    ensures var t := SwappedIfGreater(cmp, s, a, b);
      && Leq(cmp, t[a], t[b])
      && ((t[a] == s[a] && t[b] == s[b]) || (t[a] == s[b] && t[b] == s[a] && Leq(cmp, s[b], s[a])))
      && (forall k | 0 <= k < |s| && k != a && k != b :: t[k] == s[k])
      && Rearranged(s, t, lo, hi)
  {
    LeqTotal(cmp, s[a], s[b]);
    SwapRearranges(s, a, b, lo, hi);
  }

  method SwapIfGreater<T(!new)>(keys: array<T>, cmp: (T, T) -> Ordering, a: nat, b: nat)
    requires a < keys.Length && b < keys.Length
    modifies keys
    ensures keys[..] == SwappedIfGreater(cmp, old(keys[..]), a, b)
  {
    if a != b && cmp(keys[a], keys[b]).Greater? {
      keys[a], keys[b] := keys[b], keys[a];
    }
  }

  lemma LeqTrans<T(!new)>(cmp: (T, T) -> Ordering, a: T, b: T, c: T)
    requires TotalPreorder(cmp)
    ensures Leq(cmp, a, b) && Leq(cmp, b, c) ==> Leq(cmp, a, c)
  {}

  /** Three conditional swaps put three elements in order. */
  lemma ThreeInOrder<T(!new)>(cmp: (T, T) -> Ordering, s: seq<T>, a: nat, b: nat, c: nat) returns (t: seq<T>)
    requires a < b < c < |s| && TotalPreorder(cmp)
    ensures t == SwappedIfGreater(cmp, SwappedIfGreater(cmp, SwappedIfGreater(cmp, s, a, b), a, c), b, c)
    ensures Leq(cmp, t[a], t[b]) && Leq(cmp, t[b], t[c])
    ensures Rearranged(s, t, a, c + 1)
  {
    hide Rearranged, SwappedIfGreater, TotalPreorder, Leq;
    var s1 := SwappedIfGreater(cmp, s, a, b);
    var s2 := SwappedIfGreater(cmp, s1, a, c);
    t := SwappedIfGreater(cmp, s2, b, c);
    ConditionalSwap(cmp, s, a, b, a, c + 1);
    ConditionalSwap(cmp, s1, a, c, a, c + 1);
    ConditionalSwap(cmp, s2, b, c, a, c + 1);
    LeqTrans(cmp, s1[c], s1[a], s1[b]);
    RearrangedTrans(s, s1, s2, a, c + 1);
    RearrangedTrans(s, s2, t, a, c + 1);
  }

  method OrderThree<T(!new)>(keys: array<T>, cmp: (T, T) -> Ordering, a: nat, b: nat, c: nat)
    requires a < b < c < keys.Length && TotalPreorder(cmp)
    modifies keys
    ensures Leq(cmp, keys[a], keys[b]) && Leq(cmp, keys[b], keys[c])
    ensures Rearranged(old(keys[..]), keys[..], a, c + 1)
  {
    hide Rearranged, SwappedIfGreater, TotalPreorder, Leq;
    ghost var t := ThreeInOrder(cmp, keys[..], a, b, c);
    SwapIfGreater(keys, cmp, a, b);
    SwapIfGreater(keys, cmp, a, c);
    SwapIfGreater(keys, cmp, b, c);
    assert keys[..] == t;
    assert keys[a] == t[a] && keys[b] == t[b] && keys[c] == t[c];
  }
}
