/**
 Counting osu!catch objects: the regular builder counts up to a limit, the gradual one keeps what
 every fruit and droplet adds, to be summed up later.
 */
module CatchCounts {
  import HitResults

  /** What the conversion reports, in order. */
  datatype Event = Fruit | Droplet | TinyDroplets(n: nat)

  datatype ObjectCount = ObjectCount(fruits: nat, droplets: nat, tinyDroplets: nat) {
    /** `add_object_count`: a delta that is no fruit is a droplet. */
    function Add(delta: GradualObjectCount): ObjectCount {
      if delta.fruit then ObjectCount(fruits + 1, droplets, tinyDroplets + delta.tinyDroplets)
      else ObjectCount(fruits, droplets + 1, tinyDroplets + delta.tinyDroplets)
    }
  }

  datatype GradualObjectCount = GradualObjectCount(fruit: bool, tinyDroplets: nat)

  datatype Builder =
    | Regular(count: ObjectCount, take: nat)
    | Gradual(delta: GradualObjectCount, all: seq<GradualObjectCount>)

  const NOTHING: ObjectCount := ObjectCount(0, 0, 0)
  const NO_DELTA: GradualObjectCount := GradualObjectCount(false, 0)

  function RecordRegular(count: ObjectCount, take: nat, e: Event): Builder {
    if take == 0 then Regular(count, take)
    else match e
         case Fruit => Regular(count.(fruits := count.fruits + 1), take - 1)
         case Droplet => Regular(count.(droplets := count.droplets + 1), take - 1)
         case TinyDroplets(n) => Regular(count.(tinyDroplets := count.tinyDroplets + n), take)
  }

  function RecordGradual(delta: GradualObjectCount, all: seq<GradualObjectCount>, e: Event): Builder {
    match e
    case Fruit => Gradual(NO_DELTA, all + [delta.(fruit := true)])
    case Droplet => Gradual(NO_DELTA, all + [delta])
    case TinyDroplets(n) => Gradual(delta.(tinyDroplets := delta.tinyDroplets + n), all)
  }

  function Record(b: Builder, e: Event): Builder {
    match b
    case Regular(count, take) => RecordRegular(count, take, e)
    case Gradual(delta, all) => RecordGradual(delta, all, e)
  }

  function RecordAll(b: Builder, trace: seq<Event>): Builder {
    if trace == [] then b else Record(RecordAll(b, trace[..|trace| - 1]), trace[|trace| - 1])
  }

  class ObjectCountBuilder {
    var builder: Builder

    constructor (builder: Builder)
      ensures this.builder == builder
    {
      this.builder := builder;
    }

    method RecordFruit()
      modifies this
      ensures builder == Record(old(builder), Fruit)
    {
      match builder {
        case Regular(count, take) =>
          if take > 0 {
            builder := Regular(count.(fruits := count.fruits + 1), take - 1);
          }
        case Gradual(delta, all) =>
          builder := Gradual(NO_DELTA, all + [delta.(fruit := true)]);
      }
    }

    method RecordDroplet()
      modifies this
      ensures builder == Record(old(builder), Droplet)
    {
      match builder {
        case Regular(count, take) =>
          if take > 0 {
            builder := Regular(count.(droplets := count.droplets + 1), take - 1);
          }
        case Gradual(delta, all) =>
          builder := Gradual(NO_DELTA, all + [delta]);
      }
    }

    method RecordTinyDroplets(n: nat)
      modifies this
      ensures builder == Record(old(builder), TinyDroplets(n))
    {
      match builder {
        case Regular(count, take) =>
          if take > 0 {
            builder := Regular(count.(tinyDroplets := count.tinyDroplets + n), take);
          }
        case Gradual(delta, all) =>
          builder := Gradual(delta.(tinyDroplets := delta.tinyDroplets + n), all);
      }
    }
  }

  /** The attributes after the first deltas have been added. */
  function Sum(deltas: seq<GradualObjectCount>): ObjectCount {
    if deltas == [] then NOTHING else Sum(deltas[..|deltas| - 1]).Add(deltas[|deltas| - 1])
  }

  class CatchDifficultyAttributes {
    var nFruits: nat
    var nDroplets: nat
    var nTinyDroplets: nat

    constructor ()
      ensures Counts() == NOTHING
    {
      nFruits, nDroplets, nTinyDroplets := 0, 0, 0;
    }

    function Counts(): ObjectCount
      reads this
    {
      ObjectCount(nFruits, nDroplets, nTinyDroplets)
    }

    method SetObjectCount(count: ObjectCount)
      modifies this
      ensures Counts() == count
    {
      nFruits, nDroplets, nTinyDroplets := count.fruits, count.droplets, count.tinyDroplets;
    }

    method AddObjectCount(count: GradualObjectCount)
      modifies this
      ensures Counts() == old(Counts()).Add(count)
    {
      if count.fruit {
        nFruits := nFruits + 1;
      } else {
        nDroplets := nDroplets + 1;
      }
      nTinyDroplets := nTinyDroplets + count.tinyDroplets;
    }
  }

  function GradualAfter(trace: seq<Event>): Builder {
    RecordAll(Gradual(NO_DELTA, []), trace)
  }

  function RegularAfter(trace: seq<Event>, take: nat): Builder {
    RecordAll(Regular(NOTHING, take), trace)
  }

  /** Both builders have seen the same events. Beyond the last fruit or droplet, the regular one
      also has the tiny droplets for which the gradual one still waits. */
  ghost predicate Agree(g: Builder, r: Builder, take: nat) {
    && g.Gradual? && r.Regular? && !g.delta.fruit
    && r.take == HitResults.SaturatingSub(take, |g.all|)
    && r.count == if take <= |g.all| then Sum(g.all[..take])
                  else var c := Sum(g.all); c.(tinyDroplets := c.tinyDroplets + g.delta.tinyDroplets)
  }

  lemma SumPush(all: seq<GradualObjectCount>, delta: GradualObjectCount, take: nat)
    ensures Sum(all + [delta]) == Sum(all).Add(delta)
    ensures take <= |all| ==> (all + [delta])[..take] == all[..take]
    ensures take == |all| + 1 ==> (all + [delta])[..take] == all + [delta]
    ensures take == |all| ==> all[..take] == all
  {
    assert (all + [delta])[..|all|] == all;
  }

  lemma RecordAgrees(g: Builder, r: Builder, take: nat, e: Event)
    requires Agree(g, r, take)
    ensures Agree(Record(g, e), Record(r, e), take)
  {
    hide Sum;
    match e {
      case Fruit => SumPush(g.all, g.delta.(fruit := true), take);
      case Droplet => SumPush(g.all, g.delta, take);
      case TinyDroplets(_) =>
    }
  }

  lemma {:induction false} BuildersAgree(trace: seq<Event>, take: nat)
    ensures Agree(GradualAfter(trace), RegularAfter(trace, take), take)
  {
    if trace != [] {
      hide Agree, Record;
      var n := |trace| - 1;
      BuildersAgree(trace[..n], take);
      RecordAgrees(GradualAfter(trace[..n]), RegularAfter(trace[..n], take), take, trace[n]);
    } else {
      assert Sum([]) == NOTHING;
    }
  }

  /** How many fruits and droplets were recorded. */
  function Palpable(trace: seq<Event>): nat {
    if trace == [] then 0
    else Palpable(trace[..|trace| - 1]) + if trace[|trace| - 1].TinyDroplets? then 0 else 1
  }

  lemma {:induction false} OneDeltaEach(trace: seq<Event>)
    ensures var g := GradualAfter(trace); g.Gradual? && |g.all| == Palpable(trace)
  {
    if trace != [] {
      OneDeltaEach(trace[..|trace| - 1]);
    }
  }

  /** Adding the first `i` deltas gives the regular counts for `take == i`, tiny droplets included,
      as long as `i` fruits and droplets were recorded. */
  lemma GradualIsRegular(trace: seq<Event>, i: nat)
    requires i <= Palpable(trace)
    ensures var g := GradualAfter(trace);
      g.Gradual? && i <= |g.all|
      && RegularAfter(trace, i).Regular? && Sum(g.all[..i]) == RegularAfter(trace, i).count
  {
    hide Agree, RecordAll, Sum;
    BuildersAgree(trace, i);
    OneDeltaEach(trace);
    AgreeCounts(GradualAfter(trace), RegularAfter(trace, i), i);
  }

  lemma AgreeCounts(g: Builder, r: Builder, i: nat)
    requires Agree(g, r, i) && i <= |g.all|
    ensures r.count == Sum(g.all[..i])
    ensures r.Regular?
  {}

  /** With a larger limit, the counts differ exactly by tiny droplets behind the last fruit or
      droplet. */
  lemma TrailingTinyDroplets(trace: seq<Event>, take: nat)
    requires take > Palpable(trace)
    ensures var g := GradualAfter(trace);
      g.Gradual? && RegularAfter(trace, take).Regular?
      && (Sum(g.all) == RegularAfter(trace, take).count <==> g.delta.tinyDroplets == 0)
  {
    hide RecordAll, Sum;
    BuildersAgree(trace, take);
    OneDeltaEach(trace);
  }

  /** The batch and the gradual calculation of one map side by side: both builders record the same
      events, then the regular counts are set, and the first deltas are added one by one. */
  method CountBothWays(trace: seq<Event>, take: nat) returns (batch: ObjectCount, gradual: ObjectCount)
    ensures GradualAfter(trace).Gradual?
    ensures batch == gradual <==> take <= Palpable(trace) || GradualAfter(trace).delta.tinyDroplets == 0
  {
    hide RecordAll, Sum, Record;
    var regularBuilder := new ObjectCountBuilder(Regular(NOTHING, take));
    var gradualBuilder := new ObjectCountBuilder(Gradual(NO_DELTA, []));
    RecordTrace(regularBuilder, trace);
    RecordTrace(gradualBuilder, trace);
    BuildersAgree(trace, take);
    OneDeltaEach(trace);
    var attrs := new CatchDifficultyAttributes();
    attrs.SetObjectCount(regularBuilder.builder.count);
    batch := attrs.Counts();
    var all := gradualBuilder.builder.all;
    gradual := AddDeltas(all[..HitResults.Min(take, |all|)]);
    if take <= |all| {
      AgreeCounts(GradualAfter(trace), RegularAfter(trace, take), take);
    } else {
      assert all[..|all|] == all;
      TrailingTinyDroplets(trace, take);
    }
  }

  method RecordTrace(b: ObjectCountBuilder, trace: seq<Event>)
    modifies b
    ensures b.builder == RecordAll(old(b.builder), trace)
  {
    hide Record;
    for i := 0 to |trace|
      invariant b.builder == RecordAll(old(b.builder), trace[..i])
    {
      assert trace[..i + 1][..i] == trace[..i];
      match trace[i] {
        case Fruit => b.RecordFruit();
        case Droplet => b.RecordDroplet();
        case TinyDroplets(n) => b.RecordTinyDroplets(n);
      }
    }
    assert trace[..|trace|] == trace;
  }

  method AddDeltas(deltas: seq<GradualObjectCount>) returns (counts: ObjectCount)
    ensures counts == Sum(deltas)
  {
    hide ObjectCount.Add;
    var attrs := new CatchDifficultyAttributes();
    for i := 0 to |deltas|
      invariant attrs.Counts() == Sum(deltas[..i])
    {
      assert deltas[..i + 1][..i] == deltas[..i];
      attrs.AddObjectCount(deltas[i]);
    }
    assert deltas[..|deltas|] == deltas;
    counts := attrs.Counts();
  }

  // ---------------------------------------------------------------------------------------------
  // Tiny droplets between two events of a juice stream

  function Times(a: real, n: nat): real {
    a * n as real
  }

  /** The time between two events is halved until at most 100 milliseconds remain; there is a tiny
      droplet at every boundary between the pieces. */
  method CountTinyDroplets(sinceLastTick: real) returns (n: nat, ghost k: nat)
    ensures sinceLastTick <= 80.0 ==> n == 0
    ensures sinceLastTick > 80.0 ==> n == HitResults.Pow2(k) - 1 && sinceLastTick <= Times(100.0, HitResults.Pow2(k))
    ensures sinceLastTick > 80.0 && k > 0 ==> Times(100.0, HitResults.Pow2(k - 1)) < sinceLastTick
  {
    hide Times;
    n, k := 0, 0;
    if sinceLastTick > 80.0 {
      var piece := sinceLastTick;
      Whole(piece);
      while piece > 100.0
        invariant piece > 50.0 && Times(piece, HitResults.Pow2(k)) == sinceLastTick
        invariant k > 0 ==> 2.0 * piece > 100.0
        decreases piece.Floor
      {
        Halve(piece, HitResults.Pow2(k));
        piece, k := piece / 2.0, k + 1;
      }
      Scale(piece, 100.0, HitResults.Pow2(k));
      if k > 0 {
        Halve(2.0 * piece, HitResults.Pow2(k - 1));
        Scale(100.0, 2.0 * piece, HitResults.Pow2(k - 1));
      }
      n := CountPieces(piece, sinceLastTick, HitResults.Pow2(k));
    }
  }

  lemma Whole(piece: real)
    ensures Times(piece, 1) == piece
  {}

  lemma Halve(piece: real, pieces: nat)
    ensures Times(piece / 2.0, 2 * pieces) == Times(piece, pieces)
  {
    assert (2 * pieces) as real == 2.0 * pieces as real;
  }

  lemma Scale(a: real, b: real, n: nat)
    requires a <= b
    ensures Times(a, n) <= Times(b, n)
    ensures a < b && n > 0 ==> Times(a, n) < Times(b, n)
  {
    var m := n as real;
    assert Times(a, n) == a * m && Times(b, n) == b * m;
    hide Times;
    if n > 0 {
      HitResults.MulAtMost(a, b, m);
      if a < b { HitResults.MulLess(a, b, m); }
    }
  }

  /** The inner loop: one droplet for every boundary. */
  method CountPieces(piece: real, total: real, ghost pieces: nat) returns (n: nat)
    requires piece > 0.0 && pieces > 0 && Times(piece, pieces) == total
    ensures n == pieces - 1
  {
    hide Times;
    n := 0;
    var t := piece;
    Whole(piece);
    Boundary(piece, 1, pieces);
    while t < total
      invariant t == Times(piece, n + 1) && n + 1 <= pieces && (t < total <==> n + 1 < pieces)
      decreases pieces - n
    {
      NextBoundary(piece, n + 1);
      n := n + 1;
      t := t + piece;
      Boundary(piece, n + 1, pieces);
    }
  }

  lemma Boundary(piece: real, i: nat, pieces: nat)
    requires piece > 0.0 && i <= pieces
    ensures Times(piece, i) < Times(piece, pieces) <==> i < pieces
  {
    if i < pieces {
      HitResults.MulLess(i as real, pieces as real, piece);
    }
  }

  lemma NextBoundary(piece: real, i: nat)
    ensures Times(piece, i + 1) == Times(piece, i) + piece
  {
    assert (i + 1) as real == i as real + 1.0;
  }
}
