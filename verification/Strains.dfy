/**
 `StrainsVec`: a vector of non-negative strains that stores runs of zeros as a count. It must read
 like the plain vector it stands for.
 */
module Strains {
  import opened HitResults

  /** One slot: a positive strain, or how many zeros follow each other. */
  datatype StrainsEntry = Value(value: real) | Zeros(count: nat)

  // ---------------------------------------------------------------------------------------------
  // What the entries stand for

  function Repeat(n: nat): (s: seq<real>)
    ensures |s| == n
    ensures forall i | 0 <= i < n :: s[i] == 0.0
  {
    if n == 0 then [] else Repeat(n - 1) + [0.0]
  }

  function ExpandEntry(e: StrainsEntry): seq<real> {
    match e case Value(v) => [v] case Zeros(n) => Repeat(n)
  }

  function Expand(inner: seq<StrainsEntry>): seq<real> {
    if inner == [] then [] else Expand(inner[..|inner| - 1]) + ExpandEntry(inner[|inner| - 1])
  }

  /** Only positive values, no empty run, no two runs next to each other. */
  predicate Canonical(inner: seq<StrainsEntry>) {
    && (forall i | 0 <= i < |inner| :: match inner[i] case Value(v) => v > 0.0 case Zeros(n) => n > 0)
    && (forall i | 1 <= i < |inner| :: inner[i].Value? || inner[i - 1].Value?)
  }

  /** What a push does to the entries: anything but a positive value counts as a zero. */
  function PushEntry(inner: seq<StrainsEntry>, value: real): seq<StrainsEntry> {
    if value > 0.0 then inner + [Value(value)]
    else if inner != [] && inner[|inner| - 1].Zeros? then
      inner[..|inner| - 1] + [Zeros(inner[|inner| - 1].count + 1)]
    else inner + [Zeros(1)]
  }

  function NonNegative(value: real): real {
    if value > 0.0 then value else 0.0
  }

  lemma PushExpands(inner: seq<StrainsEntry>, value: real)
    ensures Expand(PushEntry(inner, value)) == Expand(inner) + [NonNegative(value)]
    ensures Canonical(inner) ==> Canonical(PushEntry(inner, value))
  {
    PushCanonical(inner, value);
    hide Canonical;
    var pushed := PushEntry(inner, value);
    if value <= 0.0 && inner != [] && inner[|inner| - 1].Zeros? {
      RunGrows(inner[|inner| - 1].count);
      assert pushed[..|pushed| - 1] == inner[..|inner| - 1];
    } else {
      RunStarts();
      assert pushed[..|pushed| - 1] == inner;
    }
  }

  lemma PushCanonical(inner: seq<StrainsEntry>, value: real)
    ensures Canonical(inner) ==> Canonical(PushEntry(inner, value))
  {}

  lemma RunGrows(n: nat)
    ensures Repeat(n + 1) == Repeat(n) + [0.0]
  {}

  lemma RunStarts()
    ensures Repeat(1) == [0.0]
  {}

  /** The entries after pushing every element of `s`. */
  function Compress(s: seq<real>): seq<StrainsEntry> {
    if s == [] then [] else PushEntry(Compress(s[..|s| - 1]), s[|s| - 1])
  }

  /** Nothing is lost by compressing .. */
  lemma {:induction false} ExpandCompress(s: seq<real>)
    requires forall x | x in s :: x >= 0.0
    ensures Expand(Compress(s)) == s
    ensures Canonical(Compress(s))
  {
    hide PushEntry, ExpandEntry, Canonical;
    if s == [] {
      NothingIsCanonical();
    } else {
      var t := s[..|s| - 1];
      assert forall x | x in t :: x in s;
      ExpandCompress(t);
      PushExpands(Compress(t), s[|s| - 1]);
      assert s == t + [s[|s| - 1]] && s[|s| - 1] in s;
    }
  }

  lemma NothingIsCanonical()
    ensures Canonical([])
  {}

  /** .. and exactly the canonical entries come from compressing what they stand for. */
  lemma CompressExpand(inner: seq<StrainsEntry>)
    ensures Canonical(inner) <==> Compress(Expand(inner)) == inner && forall x | x in Expand(inner) :: x >= 0.0
  {
    if Canonical(inner) {
      CanonicalRoundTrip(inner);
      CanonicalNonNegative(inner);
    } else if forall x | x in Expand(inner) :: x >= 0.0 {
      ExpandCompress(Expand(inner));
    }
  }

  lemma {:induction false} CanonicalNonNegative(inner: seq<StrainsEntry>)
    requires Canonical(inner)
    ensures forall x | x in Expand(inner) :: x >= 0.0
  {
    if inner != [] {
      hide Canonical;
      CanonicalFront(inner);
      CanonicalNonNegative(inner[..|inner| - 1]);
    }
  }

  lemma {:induction false} CanonicalRoundTrip(inner: seq<StrainsEntry>)
    requires Canonical(inner)
    ensures Compress(Expand(inner)) == inner
  {
    hide Canonical, Compress;
    if inner == [] {
      assert Compress([]) == [] by { CompressNothing(); }
    } else {
      CanonicalFront(inner);
      var front, last := inner[..|inner| - 1], inner[|inner| - 1];
      CanonicalRoundTrip(front);
      hide Expand;
      ExpandLast(inner, |inner| - 1);
      match last
      case Value(v) => AppendValue(front, v);
      case Zeros(n) => AppendRun(front, n);
    }
  }

  lemma ExpandLast(inner: seq<StrainsEntry>, i: nat)
    requires i < |inner|
    ensures Expand(inner[..i + 1]) == Expand(inner[..i]) + ExpandEntry(inner[i])
    ensures i + 1 == |inner| ==> inner[..i + 1] == inner
  {
    assert inner[..i + 1][..i] == inner[..i];
  }

  lemma ExpandNothing()
    ensures Expand([]) == []
  {}

  lemma CompressNothing()
    ensures Compress([]) == []
  {}

  lemma CanonicalFront(inner: seq<StrainsEntry>)
    requires inner != [] && Canonical(inner)
    ensures Canonical(inner[..|inner| - 1])
    ensures inner[|inner| - 1].Value? ==> inner[|inner| - 1].value > 0.0
    ensures inner[|inner| - 1].Zeros? ==>
      inner[|inner| - 1].count > 0 && (|inner| > 1 ==> inner[|inner| - 2].Value?)
  {}

  lemma AppendValue(front: seq<StrainsEntry>, v: real)
    requires v > 0.0 && Compress(Expand(front)) == front
    ensures Compress(Expand(front) + [v]) == front + [Value(v)]
  {
    hide Expand;
    var s := Expand(front) + [v];
    assert s[..|s| - 1] == Expand(front);
  }

  lemma CompressPush(s: seq<real>, x: real)
    ensures Compress(s + [x]) == PushEntry(Compress(s), x)
  {
    hide PushEntry;
    assert (s + [x])[..|s|] == s;
  }

  lemma FirstZero(front: seq<StrainsEntry>)
    requires front != [] ==> front[|front| - 1].Value?
    ensures PushEntry(front, 0.0) == front + [Zeros(1)]
    ensures Repeat(0) == []
  {}

  lemma NextZero(front: seq<StrainsEntry>, n: nat)
    ensures PushEntry(front + [Zeros(n)], 0.0) == front + [Zeros(n + 1)]
  {}

  /** Pushing `n` zeros after a value appends one run of `n`. */
  lemma {:induction false} AppendRun(front: seq<StrainsEntry>, n: nat)
    requires n > 0 && Compress(Expand(front)) == front
    requires front != [] ==> front[|front| - 1].Value?
    ensures Compress(Expand(front) + Repeat(n)) == front + [Zeros(n)]
  {
    hide Expand, Compress, Repeat, PushEntry;
    var values := Expand(front);
    RunGrows(n - 1);
    assert values + Repeat(n) == (values + Repeat(n - 1)) + [0.0];
    CompressPush(values + Repeat(n - 1), 0.0);
    if n == 1 {
      FirstZero(front);
      assert values + [] == values;
    } else {
      AppendRun(front, n - 1);
      NextZero(front, n - 1);
    }
  }

  // ---------------------------------------------------------------------------------------------
  // Reading

  function Sum(s: seq<real>): real {
    if s == [] then 0.0 else Sum(s[..|s| - 1]) + s[|s| - 1]
  }

  lemma {:induction false} SumConcat(s: seq<real>, t: seq<real>)
    ensures Sum(s + t) == Sum(s) + Sum(t)
  {
    if t == [] {
      assert s + t == s;
    } else {
      assert (s + t)[..|s + t| - 1] == s + t[..|t| - 1];
      SumConcat(s, t[..|t| - 1]);
    }
  }

  lemma {:induction false} SumRepeat(n: nat)
    ensures Sum(Repeat(n)) == 0.0
  {
    if n > 0 {
      assert Repeat(n)[..n - 1] == Repeat(n - 1);
      SumRepeat(n - 1);
    }
  }

  lemma {:induction false} ExpandConcat(a: seq<StrainsEntry>, b: seq<StrainsEntry>)
    ensures Expand(a + b) == Expand(a) + Expand(b)
  {
    if b == [] {
      assert a + b == a;
    } else {
      assert (a + b)[..|a + b| - 1] == a + b[..|b| - 1];
      ExpandConcat(a, b[..|b| - 1]);
    }
  }

  lemma ExpandFirst(inner: seq<StrainsEntry>)
    requires inner != []
    ensures Expand(inner) == ExpandEntry(inner[0]) + Expand(inner[1..])
  {
    ExpandOne(inner[0]);
    hide Expand, ExpandEntry;
    assert inner == [inner[0]] + inner[1..];
    ExpandConcat([inner[0]], inner[1..]);
  }

  lemma ExpandOne(e: StrainsEntry)
    ensures Expand([e]) == ExpandEntry(e)
  {
    hide ExpandEntry;
    assert [e][..0] == [];
    assert Expand([e]) == Expand([]) + ExpandEntry(e);
  }

  lemma RunFirst(n: nat, tail: seq<real>)
    ensures n > 0 ==> Repeat(n) + tail == [0.0] + (Repeat(n - 1) + tail)
    ensures Repeat(0) + tail == tail
  {
    if n > 0 {
      assert Repeat(n) == [0.0] + Repeat(n - 1);
    }
  }

  lemma Assoc(a: seq<real>, b: seq<real>, c: seq<real>)
    ensures (a + b) + c == a + (b + c)
  {}

  /** The iterator: one entry in hand, counted down in place when it is a run of zeros. */
  class StrainsIter {
    var inner: seq<StrainsEntry>
    var curr: Option<StrainsEntry>
    var len: nat

    /** What is still to come. */
    function Rest(): seq<real>
      reads this
    {
      match curr case None => [] case Some(e) => ExpandEntry(e) + Expand(inner)
    }

    predicate Valid()
      reads this
    {
      len == |Rest()| && (curr.None? ==> inner == [])
    }

    constructor (vec: StrainsVec)
      requires vec.Valid() && vec.len == |vec.Contents()|
      ensures Valid() && Rest() == vec.Contents()
    {
      if vec.inner == [] {
        inner, curr := [], None;
      } else {
        inner, curr := vec.inner[1..], Some(vec.inner[0]);
      }
      len := vec.len;
      new;
      if vec.inner != [] {
        ExpandFirst(vec.inner);
      }
    }

    /** `self.curr = self.inner.next()` */
    method Advance()
      modifies this`inner, this`curr
      ensures Rest() == old(Expand(inner)) && (curr.None? ==> inner == [])
      ensures |inner| == if old(inner) == [] then 0 else old(|inner|) - 1
      ensures curr.Some? <==> old(inner) != []
    {
      if inner == [] {
        curr := None;
      } else {
        ExpandFirst(inner);
        curr, inner := Some(inner[0]), inner[1..];
      }
    }

    /** The current entry is a value: hand it out and move on. */
    method TakeValue() returns (value: real)
      requires Valid() && curr.Some? && curr.value.Value?
      modifies this
      ensures Valid() && old(Rest()) == [value] + Rest()
    {
      hide Expand;
      value := curr.value.value;
      Advance();
      len := len - 1;
    }

    /** The current entry is a run: hand out one zero of it. */
    method TakeZero()
      requires Valid() && curr.Some? && curr.value.Zeros? && curr.value.count > 0
      modifies this
      ensures Valid() && old(Rest()) == [0.0] + Rest()
    {
      hide Expand, Repeat;
      var n := curr.value.count;
      RunFirst(n, Expand(inner));
      curr := Some(Zeros(n - 1));
      len := len - 1;
    }

    method Next() returns (item: Option<real>)
      requires Valid()
      modifies this
      ensures Valid()
      ensures match item case None => old(Rest()) == [] && Rest() == []
                         case Some(x) => old(Rest()) == [x] + Rest()
    {
      hide Expand, Repeat;
      while curr.Some? && curr.value.Zeros? && curr.value.count == 0
        invariant Valid() && Rest() == old(Rest())
        decreases |inner|, curr.Some?
      {
        RunFirst(0, Expand(inner));
        Advance();
      }
      if curr.None? {
        item := None;
      } else if curr.value.Value? {
        var value := TakeValue();
        item := Some(value);
      } else {
        TakeZero();
        item := Some(0.0);
      }
    }
  }

  // ---------------------------------------------------------------------------------------------
  // Dropping zeros and sorting

  function NonZero(s: seq<real>): (t: seq<real>)
    ensures forall x | x in t :: x > 0.0
  {
    if s == [] then []
    else NonZero(s[..|s| - 1]) + (if s[|s| - 1] > 0.0 then [s[|s| - 1]] else [])
  }

  function KeepValues(inner: seq<StrainsEntry>): (r: seq<StrainsEntry>)
    ensures forall e | e in r :: e.Value?
  {
    if inner == [] then []
    else KeepValues(inner[..|inner| - 1])
         + (if inner[|inner| - 1].Value? then [inner[|inner| - 1]] else [])
  }

  lemma {:induction false} NonZeroConcat(s: seq<real>, t: seq<real>)
    ensures NonZero(s + t) == NonZero(s) + NonZero(t)
  {
    if t == [] {
      assert s + t == s;
    } else {
      assert (s + t)[..|s + t| - 1] == s + t[..|t| - 1];
      NonZeroConcat(s, t[..|t| - 1]);
    }
  }

  lemma {:induction false} NonZeroRepeat(n: nat)
    ensures NonZero(Repeat(n)) == []
  {
    if n > 0 {
      assert Repeat(n)[..n - 1] == Repeat(n - 1);
      NonZeroRepeat(n - 1);
    }
  }

  lemma {:induction false} KeepValuesExpands(inner: seq<StrainsEntry>)
    requires Canonical(inner)
    ensures Expand(KeepValues(inner)) == NonZero(Expand(inner))
  {
    if inner != [] {
      hide NonZero, Canonical, KeepValues;
      var front, last := inner[..|inner| - 1], inner[|inner| - 1];
      CanonicalFront(inner);
      KeepValuesExpands(front);
      KeepLast(inner);
      NonZeroConcat(Expand(front), ExpandEntry(last));
      match last {
        case Value(v) =>
          assert NonZero([v]) == [v] by { NonZeroOne(v); }
          assert (KeepValues(front) + [last])[..|KeepValues(front)|] == KeepValues(front);
        case Zeros(n) =>
          NonZeroRepeat(n);
      }
    }
  }

  lemma NonZeroOne(v: real)
    requires v > 0.0
    ensures NonZero([v]) == [v]
  {
    assert [v][..0] == [];
  }

  lemma KeepLast(inner: seq<StrainsEntry>)
    requires inner != []
    ensures var front, last := inner[..|inner| - 1], inner[|inner| - 1];
      KeepValues(inner) == if last.Value? then KeepValues(front) + [last] else KeepValues(front)
  {}

  lemma {:induction false} KeepValuesCanonical(inner: seq<StrainsEntry>)
    requires Canonical(inner)
    ensures Canonical(KeepValues(inner))
  {
    if inner != [] {
      CanonicalFront(inner);
      KeepValuesCanonical(inner[..|inner| - 1]);
    }
  }

  ghost predicate Descending(s: seq<real>) {
    forall i, j | 0 <= i <= j < |s| :: s[i] >= s[j]
  }

  function InsertDesc(x: real, s: seq<real>): seq<real> {
    if s == [] then [x] else if x >= s[0] then [x] + s else [s[0]] + InsertDesc(x, s[1..])
  }

  function SortDesc(s: seq<real>): (t: seq<real>)
    ensures |t| == |s|
  {
    if s == [] then [] else
      InsertLength(s[0], SortDesc(s[1..]));
      InsertDesc(s[0], SortDesc(s[1..]))
  }

  lemma {:induction false} InsertLength(x: real, s: seq<real>)
    ensures |InsertDesc(x, s)| == |s| + 1
  {
    if s != [] && x < s[0] {
      InsertLength(x, s[1..]);
    }
  }

  lemma {:induction false} InsertDescMultiset(x: real, s: seq<real>)
    ensures multiset(InsertDesc(x, s)) == multiset(s) + multiset{x}
  {
    if s != [] && x < s[0] {
      InsertDescMultiset(x, s[1..]);
      assert s == [s[0]] + s[1..];
    }
  }

  lemma PutInFront(first: real, s: seq<real>, x: real, t: seq<real>)
    requires Descending([first] + s) && x < first && Descending(t) && multiset(t) == multiset(s) + multiset{x}
    ensures Descending([first] + t)
  {
    forall i | 0 <= i < |t|
      ensures first >= t[i]
    {
      assert t[i] in multiset(t);
      assert t[i] == x || t[i] in s;
      if t[i] != x {
        var j :| 0 <= j < |s| && s[j] == t[i];
        assert ([first] + s)[0] >= ([first] + s)[j + 1] == s[j];
      }
    }
  }

  lemma {:induction false} InsertSorts(x: real, s: seq<real>)
    requires Descending(s)
    ensures Descending(InsertDesc(x, s)) && multiset(InsertDesc(x, s)) == multiset(s) + multiset{x}
  {
    InsertDescMultiset(x, s);
    if s != [] && x < s[0] {
      InsertSorts(x, s[1..]);
      assert s == [s[0]] + s[1..];
      hide Descending;
      PutInFront(s[0], s[1..], x, InsertDesc(x, s[1..]));
    }
  }

  lemma {:induction false} SortDescSorts(s: seq<real>)
    ensures Descending(SortDesc(s)) && multiset(SortDesc(s)) == multiset(s)
  {
    if s != [] {
      SortDescSorts(s[1..]);
      InsertSorts(s[0], SortDesc(s[1..]));
      assert s == [s[0]] + s[1..];
    }
  }

  function Plain(values: seq<real>): (inner: seq<StrainsEntry>)
    ensures |inner| == |values| && forall i | 0 <= i < |values| :: inner[i] == Value(values[i])
  {
    if values == [] then [] else Plain(values[..|values| - 1]) + [Value(values[|values| - 1])]
  }

  /** Entries without zeros are their values. */
  lemma {:induction false} ExpandPlain(values: seq<real>)
    ensures Expand(Plain(values)) == values
  {
    if values != [] {
      assert Plain(values)[..|values| - 1] == Plain(values[..|values| - 1]);
      ExpandPlain(values[..|values| - 1]);
    }
  }

  lemma NoZerosPlain(inner: seq<StrainsEntry>)
    requires forall e | e in inner :: e.Value?
    ensures inner == Plain(Expand(inner))
  {
    if inner != [] {
      NoZerosPlain(inner[..|inner| - 1]);
      assert (Expand(inner[..|inner| - 1]) + [inner[|inner| - 1].value])[..|inner| - 1] == Expand(inner[..|inner| - 1]);
    }
  }

  // ---------------------------------------------------------------------------------------------

  lemma {:induction false} NonZeroLength(s: seq<real>)
    ensures |NonZero(s)| <= |s|
    ensures |NonZero(s)| == |s| <==> forall x | x in s :: x > 0.0
  {
    if s != [] {
      var front, last := s[..|s| - 1], s[|s| - 1];
      NonZeroLength(front);
      assert forall x | x in s :: x in front || x == last;
      assert last in s && forall x | x in front :: x in s;
    }
  }

  class StrainsVec {
    var inner: seq<StrainsEntry>
    var len: nat

    /** The plain vector this stands for. */
    function Contents(): seq<real>
      reads this
    {
      Expand(inner)
    }

    predicate Valid()
      reads this
    {
      Canonical(inner)
    }

    constructor WithCapacity()
      ensures Valid() && Contents() == [] && len == 0
    {
      inner, len := [], 0;
    }

    method Push(value: real)
      requires Valid()
      modifies this
      ensures Valid() && Contents() == old(Contents()) + [NonNegative(value)]
      ensures len == old(len) + 1
    {
      hide Expand, Canonical, Repeat;
      PushExpands(inner, value);
      if value > 0.0 {
        inner := inner + [Value(value)];
      } else if inner != [] && inner[|inner| - 1].Zeros? {
        inner := inner[..|inner| - 1] + [Zeros(inner[|inner| - 1].count + 1)];
      } else {
        inner := inner + [Zeros(1)];
      }
      len := len + 1;
    }

    /** Pushing one by one: the length agrees, and the entries are the shortest that do. */
    method PushAll(values: seq<real>)
      requires Valid() && Contents() == [] && len == 0
      requires forall x | x in values :: x >= 0.0
      modifies this
      ensures Valid() && Contents() == values && len == |values| && inner == Compress(values)
    {
      for i := 0 to |values|
        invariant Valid() && Contents() == values[..i] && len == i
      {
        assert values[i] in values;
        Push(values[i]);
        assert values[..i + 1] == values[..i] + [values[i]];
      }
      assert values[..|values|] == values;
      CompressExpand(inner);
    }

    /** The stored length still counts the dropped zeros. */
    method RetainNonZero()
      requires Valid()
      modifies this`inner
      ensures Valid() && Contents() == NonZero(old(Contents()))
      ensures forall e | e in inner :: e.Value?
      ensures len == old(|Contents()|) ==> (len == |Contents()| <==> forall x | x in old(Contents()) :: x > 0.0)
    {
      NonZeroLength(Contents());
      KeepValuesExpands(inner);
      KeepValuesCanonical(inner);
      inner := KeepValues(inner);
    }

    method SortDescending()
      requires Valid() && forall e | e in inner :: e.Value?
      modifies this`inner
      ensures Valid() && Contents() == SortDesc(old(Contents()))
      ensures inner == Plain(Contents())
    {
      NoZerosPlain(inner);
      var values := Expand(inner);
      SortDescSorts(values);
      ExpandPlain(SortDesc(values));
      SortedPositive(inner, values);
      inner := Plain(SortDesc(values));
    }

    method RetainNonZeroAndSort()
      requires Valid()
      modifies this`inner
      ensures Valid() && Contents() == SortDesc(NonZero(old(Contents())))
      ensures inner == Plain(Contents())
    {
      RetainNonZero();
      SortDescending();
    }

    method Total() returns (sum: real)
      ensures sum == Sum(Contents())
    {
      hide Expand, Repeat;
      sum := 0.0;
      assert Sum(Expand([])) == 0.0 by { ExpandNothing(); }
      for i := 0 to |inner|
        invariant sum == Sum(Expand(inner[..i]))
      {
        ExpandLast(inner, i);
        SumConcat(Expand(inner[..i]), ExpandEntry(inner[i]));
        match inner[i] {
          case Value(v) =>
            assert [v][..0] == [];
            sum := sum + v;
          case Zeros(n) =>
            SumRepeat(n);
        }
      }
      assert inner[..|inner|] == inner;
    }

    /** Walking through with the iterator yields the plain vector. */
    method Collect() returns (values: seq<real>)
      requires Valid() && len == |Contents()|
      ensures values == Contents()
    {
      hide Expand, Repeat, Canonical, ExpandEntry, StrainsIter.Rest;
      var iter := new StrainsIter(this);
      values := [];
      var item := iter.Next();
      while item.Some?
        invariant iter.Valid() && fresh(iter)
        invariant Contents() == values + (if item.Some? then [item.value] else []) + iter.Rest()
        invariant item.None? ==> iter.Rest() == []
        decreases |iter.Rest()|, item.Some?
      {
        ghost var before, rest := values, iter.Rest();
        values := values + [item.value];
        item := iter.Next();
        assert before + [values[|before|]] + rest == values + rest;
      }
    }

    /** The next stretch of values, up to a run of zeros whose length it returns. */
    method CopyNonZero(from: nat) returns (values: seq<real>, zeroCount: Option<nat>, to: nat)
      requires from <= |inner|
      ensures from <= to <= |inner|
      ensures zeroCount.Some? ==> from < to
      ensures zeroCount.None? ==> to == |inner|
      ensures Expand(inner[..to]) == Expand(inner[..from]) + values
        + (if zeroCount.Some? then Repeat(zeroCount.value) else [])
    {
      hide Expand, Repeat;
      values, to := [], from;
      while to < |inner|
        invariant from <= to <= |inner|
        invariant Expand(inner[..to]) == Expand(inner[..from]) + values
      {
        ExpandLast(inner, to);
        match inner[to] {
          case Zeros(n) =>
            zeroCount, to := Some(n), to + 1;
            return;
          case Value(v) =>
            Assoc(Expand(inner[..from]), values, [v]);
            values, to := values + [v], to + 1;
        }
      }
      zeroCount := None;
    }

    method IntoVec() returns (vec: seq<real>)
      ensures vec == Contents()
    {
      hide Expand, Repeat;
      ExpandNothing();
      var values, zeroCount, to := CopyNonZero(0);
      vec := values;
      while zeroCount.Some?
        invariant to <= |inner| && (zeroCount.None? ==> to == |inner|)
        invariant Expand(inner[..to]) == vec + (if zeroCount.Some? then Repeat(zeroCount.value) else [])
        decreases |inner| - to, zeroCount.Some?
      {
        vec := vec + Repeat(zeroCount.value);
        values, zeroCount, to := CopyNonZero(to);
        vec := vec + values;
      }
      assert inner[..|inner|] == inner;
    }
  }

  lemma SortedPositive(inner: seq<StrainsEntry>, values: seq<real>)
    requires Canonical(inner) && inner == Plain(values)
    ensures Canonical(Plain(SortDesc(values)))
  {
    SortDescSorts(values);
    forall i | 0 <= i < |values|
      ensures SortDesc(values)[i] > 0.0
    {
      assert SortDesc(values)[i] in multiset(SortDesc(values));
      var k :| 0 <= k < |values| && values[k] == SortDesc(values)[i];
      assert inner[k] == Value(values[k]);
    }
  }
}
