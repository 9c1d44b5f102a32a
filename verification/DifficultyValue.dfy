/**
 `difficulty_value`: a geometrically weighted sum of a skill's section peaks, the largest first.
 Sorting maximises that sum, which makes it monotone and blind to sections without strain.
 */
module DifficultyValue {
  import opened Strains
  import Sorting

  /** Multiplication by name, so that the solver meets products only where they matter. */
  function Times(w: real, x: real): real {
    w * x
  }

  /** `s[0] + w * s[1] + w^2 * s[2] + ..` */
  function WeightedSum(s: seq<real>, w: real): real {
    if s == [] then 0.0 else s[0] + Times(w, WeightedSum(s[1..], w))
  }

  /** The loop of the source. The vector arrives as any sequence of pushes left it. */
  method DifficultyOf(peaks: StrainsVec, decayWeight: real) returns (difficulty: real)
    requires peaks.Valid()
    modifies peaks`inner
    ensures difficulty == WeightedSum(SortDesc(NonZero(old(peaks.Contents()))), decayWeight)
  {
    hide Times, WeightedSum, Expand, Canonical, NonZero;
    difficulty := 0.0;
    var weight := 1.0;
    peaks.RetainNonZeroAndSort();
    ghost var sorted := peaks.Contents();
    assert Times(1.0, WeightedSum(sorted, decayWeight)) == WeightedSum(sorted, decayWeight) by {
      TimesOne(WeightedSum(sorted, decayWeight));
    }
    assert sorted[0..] == sorted;
    for i := 0 to |peaks.inner|
      invariant peaks.inner == Plain(sorted)
      invariant difficulty + Times(weight, WeightedSum(sorted[i..], decayWeight)) == WeightedSum(sorted, decayWeight)
    {
      OneMore(sorted, i, decayWeight, weight);
      var strain := peaks.inner[i].value;
      difficulty := difficulty + strain * weight;
      weight := weight * decayWeight;
    }
    NoneLeft(sorted, decayWeight, weight);
  }

  lemma TimesOne(x: real)
    ensures Times(1.0, x) == x
  {}

  lemma OneMore(s: seq<real>, i: nat, w: real, weight: real)
    requires i < |s|
    ensures Times(weight, WeightedSum(s[i..], w)) == s[i] * weight + Times(weight * w, WeightedSum(s[i + 1..], w))
  {
    assert s[i..][1..] == s[i + 1..];
    Distribute(weight, s[i], w, WeightedSum(s[i + 1..], w));
  }

  lemma Distribute(a: real, x: real, w: real, y: real)
    ensures Times(a, x + Times(w, y)) == x * a + Times(a * w, y)
  {}

  lemma NoneLeft(s: seq<real>, w: real, weight: real)
    ensures Times(weight, WeightedSum(s[|s|..], w)) == 0.0
  {}

  // ---------------------------------------------------------------------------------------------
  // Rearrangement

  lemma TimesMonotone(w: real, x: real, y: real)
    requires w >= 0.0 && x <= y
    ensures Times(w, x) <= Times(w, y)
  {}

  lemma ExchangeGain(w: real, a: real, b: real, rest: real)
    requires 0.0 <= w <= 1.0 && a <= b
    ensures a + Times(w, b + Times(w, rest)) <= b + Times(w, a + Times(w, rest))
  {
    TimesMonotone(1.0 - w, a, b);
    assert Times(1.0 - w, a) == a - w * a && Times(1.0 - w, b) == b - w * b;
    assert Times(w, b + Times(w, rest)) == w * b + w * (w * rest);
    assert Times(w, a + Times(w, rest)) == w * a + w * (w * rest);
  }

  lemma WeightedSumCons(x: real, s: seq<real>, w: real)
    ensures WeightedSum([x] + s, w) == x + Times(w, WeightedSum(s, w))
  {
    assert ([x] + s)[1..] == s;
  }

  /** Moving an element down to its place in a descending sequence only helps. */
  lemma {:induction false} InsertGains(x: real, s: seq<real>, w: real)
    requires 0.0 <= w <= 1.0
    ensures WeightedSum([x] + s, w) <= WeightedSum(InsertDesc(x, s), w)
  {
    hide Times, WeightedSum;
    if s != [] && x < s[0] {
      var rest := WeightedSum(s[1..], w);
      InsertGains(x, s[1..], w);
      assert s == [s[0]] + s[1..];
      WeightedSumCons(x, s, w);
      WeightedSumCons(s[0], s[1..], w);
      WeightedSumCons(x, s[1..], w);
      WeightedSumCons(s[0], InsertDesc(x, s[1..]), w);
      ExchangeGain(w, x, s[0], rest);
      TimesMonotone(w, x + Times(w, rest), WeightedSum(InsertDesc(x, s[1..]), w));
    } else {
      assert InsertDesc(x, s) == [x] + s;
    }
  }

  /** No order of the peaks weighs more than the descending one. */
  lemma {:induction false} SortingGains(s: seq<real>, w: real)
    requires 0.0 <= w <= 1.0
    ensures WeightedSum(s, w) <= WeightedSum(SortDesc(s), w)
  {
    hide Times, WeightedSum;
    if s != [] {
      var t := SortDesc(s[1..]);
      SortingGains(s[1..], w);
      assert s == [s[0]] + s[1..];
      WeightedSumCons(s[0], s[1..], w);
      WeightedSumCons(s[0], t, w);
      TimesMonotone(w, WeightedSum(s[1..], w), WeightedSum(t, w));
      InsertGains(s[0], t, w);
    }
  }

  function Downwards(a: real, b: real): Sorting.Ordering {
    if a > b then Sorting.Less else if a == b then Sorting.Equal else Sorting.Greater
  }

  /** Descending arrangements of the same numbers are the same sequence. */
  lemma DescendingUnique(s: seq<real>, t: seq<real>)
    requires Descending(s) && Descending(t) && multiset(s) == multiset(t)
    ensures s == t
  {
    assert |s| == |multiset(s)| && |t| == |multiset(t)|;
    assert Sorting.TotalPreorder(Downwards);
    forall i | 0 <= i < |s|
      ensures s[i] == t[i]
    {
      Sorting.SortedPlaces(Downwards, s, t, i);
      Sorting.SortedPlaces(Downwards, t, s, i);
    }
  }

  lemma SortDependsOnMultiset(s: seq<real>, t: seq<real>)
    requires multiset(s) == multiset(t)
    ensures SortDesc(s) == SortDesc(t)
  {
    SortDescSorts(s);
    SortDescSorts(t);
    DescendingUnique(SortDesc(s), SortDesc(t));
  }

  /** What `difficulty_value` returns for the plain peaks `s`. */
  function Value(s: seq<real>, w: real): real {
    WeightedSum(SortDesc(NonZero(s)), w)
  }

  // ---------------------------------------------------------------------------------------------
  // Zeros

  ghost predicate AllPositive(s: seq<real>) {
    forall i | 0 <= i < |s| :: s[i] > 0.0
  }

  ghost predicate AllNonNegative(s: seq<real>) {
    forall i | 0 <= i < |s| :: s[i] >= 0.0
  }

  lemma {:induction false} InsertZero(s: seq<real>)
    requires AllPositive(s)
    ensures forall n: nat :: InsertDesc(0.0, s + Repeat(n)) == s + Repeat(n + 1)
  {
    forall n: nat
      ensures InsertDesc(0.0, s + Repeat(n)) == s + Repeat(n + 1)
    {
      var t := s + Repeat(n);
      if s == [] {
        assert t == Repeat(n);
        assert [0.0] + Repeat(n) == Repeat(n + 1);
      } else {
        InsertZero(s[1..]);
        assert t[1..] == s[1..] + Repeat(n);
        assert s[0] in s;
        assert s + Repeat(n + 1) == [s[0]] + (s[1..] + Repeat(n + 1));
      }
    }
  }

  lemma {:induction false} InsertBeforeZeros(x: real, s: seq<real>, n: nat)
    requires x > 0.0
    ensures InsertDesc(x, s + Repeat(n)) == InsertDesc(x, s) + Repeat(n)
  {
    var t := s + Repeat(n);
    if s == [] {
      assert t == Repeat(n);
      assert n > 0 ==> InsertDesc(x, t) == [x] + t;
    } else if x >= s[0] {
      assert [x] + t == ([x] + s) + Repeat(n);
    } else {
      InsertBeforeZeros(x, s[1..], n);
      assert t[1..] == s[1..] + Repeat(n);
    }
  }

  lemma {:induction false} TrailingZeros(s: seq<real>, n: nat, w: real)
    ensures WeightedSum(s + Repeat(n), w) == WeightedSum(s, w)
    decreases |s| + n
  {
    if s == [] {
      assert s + Repeat(n) == Repeat(n);
      if n > 0 {
        assert Repeat(n)[1..] == [] + Repeat(n - 1);
        TrailingZeros([], n - 1, w);
      }
    } else {
      assert (s + Repeat(n))[1..] == s[1..] + Repeat(n);
      TrailingZeros(s[1..], n, w);
    }
  }

  lemma NonZeroFirst(s: seq<real>)
    requires s != []
    ensures NonZero(s) == (if s[0] > 0.0 then [s[0]] else []) + NonZero(s[1..])
  {
    assert s == [s[0]] + s[1..];
    NonZeroConcat([s[0]], s[1..]);
    assert [s[0]][..0] == [];
    assert NonZero([s[0]]) == NonZero([]) + (if s[0] > 0.0 then [s[0]] else []);
  }

  /** Sorting all peaks is sorting the positive ones and appending the zeros. */
  lemma {:induction false} SortWithZeros(s: seq<real>) returns (zeros: nat)
    requires AllNonNegative(s)
    ensures SortDesc(s) == SortDesc(NonZero(s)) + Repeat(zeros)
  {
    if s == [] {
      zeros := 0;
      assert NonZero(s) == [];
    } else {
      var n := SortWithZeros(s[1..]);
      var t := SortDesc(NonZero(s[1..]));
      NonZeroFirst(s);
      assert s[0] in s;
      if s[0] > 0.0 {
        zeros := n;
        assert NonZero(s)[1..] == NonZero(s[1..]);
        InsertBeforeZeros(s[0], t, n);
      } else {
        zeros := n + 1;
        assert NonZero(s) == NonZero(s[1..]);
        PositiveSorted(s[1..]);
        InsertZero(t);
      }
    }
  }

  lemma PositiveSorted(s: seq<real>)
    ensures AllPositive(SortDesc(NonZero(s)))
  {
    var t := NonZero(s);
    SortDescSorts(t);
    forall i | 0 <= i < |SortDesc(t)|
      ensures SortDesc(t)[i] > 0.0
    {
      assert SortDesc(t)[i] in multiset(SortDesc(t));
      assert SortDesc(t)[i] in t;
    }
  }

  /** Leaving out the sections without strain changes nothing. */
  lemma ZerosDoNotCount(s: seq<real>, w: real)
    requires AllNonNegative(s)
    ensures Value(s, w) == WeightedSum(SortDesc(s), w)
  {
    var n := SortWithZeros(s);
    TrailingZeros(SortDesc(NonZero(s)), n, w);
  }

  // ---------------------------------------------------------------------------------------------
  // The theorems

  /** The value is at least the weighted sum of the same peaks in any other order. */
  lemma ValueIsLargest(s: seq<real>, t: seq<real>, w: real)
    requires 0.0 <= w <= 1.0 && AllNonNegative(s)
    requires multiset(s) == multiset(t)
    ensures WeightedSum(t, w) <= Value(s, w)
  {
    ZerosDoNotCount(s, w);
    SortDependsOnMultiset(s, t);
    SortingGains(t, w);
  }

  lemma {:induction false} WeightedSumMonotone(s: seq<real>, t: seq<real>, w: real)
    requires 0.0 <= w && |s| == |t| && forall i | 0 <= i < |s| :: s[i] <= t[i]
    ensures WeightedSum(s, w) <= WeightedSum(t, w)
  {
    if s != [] {
      WeightedSumMonotone(s[1..], t[1..], w);
      TimesMonotone(w, WeightedSum(s[1..], w), WeightedSum(t[1..], w));
    }
  }

  /** Raising a peak never lowers the value: take the old order with the raised peak in it, which
      already weighs at least as much and is one of the orders of the new peaks. */
  lemma RaisingHelps(s: seq<real>, i: nat, x: real, w: real)
    requires 0.0 <= w <= 1.0 && i < |s| && s[i] <= x && AllNonNegative(s)
    ensures Value(s, w) <= Value(s[i := x], w)
  {
    hide Times, WeightedSum, NonZero, SortDesc;
    var k, raised := RaisedOrder(s, i, x);
    ZerosDoNotCount(s, w);
    WeightedSumMonotone(SortDesc(s), raised, w);
    ValueIsLargest(s[i := x], raised, w);
  }

  lemma RaisedOrder(s: seq<real>, i: nat, x: real) returns (k: nat, raised: seq<real>)
    requires i < |s| && s[i] <= x
    ensures k < |s| && raised == SortDesc(s)[k := x] && SortDesc(s)[k] == s[i]
    ensures |raised| == |s| && multiset(s[i := x]) == multiset(raised)
  {
    var sorted := SortDesc(s);
    SortDescSorts(s);
    assert s[i] in multiset(s);
    assert s[i] in sorted;
    k :| 0 <= k < |sorted| && sorted[k] == s[i];
    raised := sorted[k := x];
    assert multiset(raised) == multiset(sorted) - multiset{s[i]} + multiset{x};
    assert multiset(s[i := x]) == multiset(s) - multiset{s[i]} + multiset{x};
  }

  /** More sections never lower the value. */
  lemma MoreSectionsHelp(s: seq<real>, x: real, w: real)
    requires 0.0 <= w <= 1.0 && x >= 0.0 && AllNonNegative(s)
    ensures Value(s, w) <= Value(s + [x], w)
  {
    hide Times, WeightedSum, SortDesc, NonZero;
    var t := s + [0.0];
    AppendedZero(s);
    RaisingHelps(t, |s|, x, w);
    assert t[|s| := x] == s + [x];
  }

  lemma AppendedZero(s: seq<real>)
    ensures NonZero(s + [0.0]) == NonZero(s)
  {
    assert (s + [0.0])[..|s|] == s;
  }
}
