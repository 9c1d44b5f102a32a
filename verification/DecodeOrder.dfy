/** How a decoded beatmap brings its hit objects, and with them their sounds, into order. */
module DecodeOrder {
  import Sorting
  import opened OsuLegacy
  import opened Tandem

  /** Place `k` holds what stood at place `order[k]`. */
  ghost predicate Follows<T>(before: seq<T>, after: seq<T>, order: seq<nat>) {
    && |before| == |after| == |order|
    && forall k | 0 <= k < |order| :: order[k] < |before| && after[k] == before[order[k]]
  }

  ghost predicate TimesFollow(before: seq<HitObject>, after: seq<HitObject>, order: seq<nat>) {
    && |before| == |after| == |order|
    && forall k | 0 <= k < |order| :: order[k] < |before| && after[k].startTime == before[order[k]].startTime
  }

  /** Every object still has the sound it came with. */
  ghost predicate KeepsSounds(objects: seq<HitObject>, sounds: seq<int>, objects': seq<HitObject>, sounds': seq<int>)
    requires |objects| == |sounds| && |objects'| == |sounds'|
  {
    forall j, k | 0 <= j < |objects| && 0 <= k < |objects'| && objects'[k] == objects[j] :: sounds'[k] == sounds[j]
  }

  /** Objects and sounds are sorted in tandem, stably by start time. In mania the objects, but not
      the sounds, then pass through the legacy sort. Sounds stay with their start times. They stay with
      their objects exactly if no two objects start together. */
  method SortHitObjects(objects: array<HitObject>, sounds: array<int>, mania: bool) returns (ghost order: seq<nat>)
    requires objects.Length == sounds.Length <= MARK
    modifies objects, sounds
    ensures StableOrder(ByStartTime, old(objects[..]), order) && IsPermutation(order)
    ensures InOrder(objects[..]) && multiset(objects[..]) == multiset(old(objects[..]))
    ensures Follows(old(sounds[..]), sounds[..], order)
    ensures TimesFollow(old(objects[..]), objects[..], order)
    ensures !mania || !HasTie(old(objects[..]), 0, objects.Length) ==> Follows(old(objects[..]), objects[..], order)
    ensures mania && Distinct(old(objects[..])) && objects.Length < DEPTH_SUFFICES ==>
      (Follows(old(objects[..]), objects[..], order) <==> !HasTie(old(objects[..]), 0, objects.Length))
  {
    hide Distinct, HasTie, StableOrder, IsPermutation, InOrder, Follows, TimesFollow, SameTimes;
    ghost var start := objects[..];
    order := SortInTandem(objects, sounds);
    ghost var sorted := objects[..];
    TiesFollow(start, sorted, order);
    if mania {
      OsuLegacy.Sort(objects);
      FollowsUnique(start, sorted, objects[..], order);
    } else {
      SameTimesRefl(sorted);
    }
    SameTimesFollow(start, sorted, objects[..], order);
  }

  /** The tandem sort of the decoder. */
  method SortInTandem(objects: array<HitObject>, sounds: array<int>) returns (ghost order: seq<nat>)
    requires objects.Length == sounds.Length <= MARK
    modifies objects, sounds
    ensures StableOrder(ByStartTime, old(objects[..]), order) && IsPermutation(order)
    ensures InOrder(objects[..]) && multiset(objects[..]) == multiset(old(objects[..]))
    ensures Follows(old(objects[..]), objects[..], order) && Follows(old(sounds[..]), sounds[..], order)
  {
    hide StableOrder, InOrder, Sorting.TotalPreorder;
    StartTimeIsOrder();
    ghost var start := objects[..];
    var sorter := new TandemSorter.NewStable(objects[..], ByStartTime);
    order := sorter.perm;
    StableOrderPermutes(ByStartTime, start, order);
    OrderLength(start, order);
    sorter.Sort(objects);
    ghost var sorted := objects[..];
    sorter.Sort(sounds);
    assert objects[..] == sorted;
    StableIsInOrder(start, order, sorted);
  }

  /** The end of the conversion to mania: a stable sort, then the legacy sort. The sequence of start
      times is that of the stable sort. */
  method SortConverted(objects: array<HitObject>) returns (ghost order: seq<nat>)
    requires objects.Length <= MARK
    modifies objects
    ensures StableOrder(ByStartTime, old(objects[..]), order) && IsPermutation(order)
    ensures InOrder(objects[..]) && multiset(objects[..]) == multiset(old(objects[..]))
    ensures TimesFollow(old(objects[..]), objects[..], order)
  {
    hide StableOrder, IsPermutation, InOrder, Follows, TimesFollow, SameTimes, Distinct, HasTie;
    ghost var start := objects[..];
    order := SortStably(objects);
    ghost var sorted := objects[..];
    OsuLegacy.Sort(objects);
    SameTimesFollow(start, sorted, objects[..], order);
  }

  /** The stable sort by start time of the standard library. */
  method SortStably(objects: array<HitObject>) returns (ghost order: seq<nat>)
    requires objects.Length <= MARK
    modifies objects
    ensures StableOrder(ByStartTime, old(objects[..]), order) && IsPermutation(order)
    ensures InOrder(objects[..]) && multiset(objects[..]) == multiset(old(objects[..]))
    ensures Follows(old(objects[..]), objects[..], order)
  {
    hide StableOrder, InOrder, Sorting.TotalPreorder;
    StartTimeIsOrder();
    ghost var start := objects[..];
    var sorter := new TandemSorter.NewStable(objects[..], ByStartTime);
    order := sorter.perm;
    StableOrderPermutes(ByStartTime, start, order);
    OrderLength(start, order);
    sorter.Sort(objects);
    StableIsInOrder(start, order, objects[..]);
  }

  lemma OrderLength(s: seq<HitObject>, p: seq<nat>)
    requires StableOrder(ByStartTime, s, p)
    ensures |p| == |s|
  {}

  lemma StableIsInOrder(s: seq<HitObject>, p: seq<nat>, t: seq<HitObject>)
    requires StableOrder(ByStartTime, s, p) && |t| == |s| && forall k | 0 <= k < |s| :: t[k] == s[p[k]]
    ensures InOrder(t)
  {
    forall i, j | 0 <= i <= j < |t|
      ensures t[i].startTime <= t[j].startTime
    {
      if i < j {
        assert Before(ByStartTime, s, p[i], p[j]);
      }
    }
  }

  /** The stable sort neither makes nor breaks ties, and keeps objects distinct. */
  lemma TiesFollow(s: seq<HitObject>, t: seq<HitObject>, order: seq<nat>)
    requires StableOrder(ByStartTime, s, order) && IsPermutation(order)
    requires Follows(s, t, order) && multiset(s) == multiset(t)
    ensures HasTie(s, 0, |s|) <==> HasTie(t, 0, |t|)
    ensures Distinct(s) ==> Distinct(t)
  {
    if HasTie(s, 0, |s|) {
      var x, y :| 0 <= x < y < |s| && s[x].startTime == s[y].startTime;
      var k := PlaceOf(s, order, x);
      var l := PlaceOf(s, order, y);
      assert t[k].startTime == t[l].startTime;
    }
    if HasTie(t, 0, |t|) {
      var k, l :| 0 <= k < l < |t| && t[k].startTime == t[l].startTime;
      assert order[k] != order[l] && s[order[k]].startTime == s[order[l]].startTime;
    }
    if Distinct(s) {
      DistinctRearranged(s, t);
    }
  }

  lemma PlaceOf(s: seq<HitObject>, order: seq<nat>, x: nat) returns (k: nat)
    requires StableOrder(ByStartTime, s, order) && x < |s|
    ensures k < |order| && order[k] == x
  {
    assert Identity(|s|)[x] == x;
    assert x in multiset(order);
    k :| k < |order| && order[k] == x;
  }

  lemma SameTimesRefl(s: seq<HitObject>)
    ensures SameTimes(s, s)
  {}

  lemma SameTimesFollow(s: seq<HitObject>, t: seq<HitObject>, u: seq<HitObject>, order: seq<nat>)
    requires Follows(s, t, order) && SameTimes(t, u)
    ensures TimesFollow(s, u, order)
  {}

  lemma FollowsUnique(s: seq<HitObject>, t: seq<HitObject>, u: seq<HitObject>, order: seq<nat>)
    requires Follows(s, t, order) && |u| == |t|
    ensures Follows(s, u, order) <==> t == u
  {}

  /** Where objects, and sounds, can be told apart, an object that left its place lost its sound. */
  lemma SoundsFollow(objects: seq<HitObject>, sounds: seq<int>, objects': seq<HitObject>, sounds': seq<int>,
                     order: seq<nat>)
    requires |objects| == |sounds| && multiset(objects) == multiset(objects') && Distinct(objects)
    requires IsPermutation(order) && |order| == |objects| == |objects'| && Follows(sounds, sounds', order)
    ensures Follows(objects, objects', order) ==> KeepsSounds(objects, sounds, objects', sounds')
    ensures Distinct(sounds) && KeepsSounds(objects, sounds, objects', sounds') ==> Follows(objects, objects', order)
  {
    if Follows(objects, objects', order) {
      forall j, k | 0 <= j < |objects| && 0 <= k < |objects'| && objects'[k] == objects[j]
        ensures sounds'[k] == sounds[j]
      {
        DistinctPlaces(objects, j, order[k]);
      }
    }
    if Distinct(sounds) && KeepsSounds(objects, sounds, objects', sounds') {
      forall k | 0 <= k < |order|
        ensures objects'[k] == objects[order[k]]
      {
        assert objects'[k] in multiset(objects);
        var j: nat :| j < |objects| && objects[j] == objects'[k];
        DistinctPlaces(sounds, j, order[k]);
      }
    }
  }

  /** In mania, each of two objects at the same time ends up with the other's sound. */
  method PairingLost() returns (objects: array<HitObject>, sounds: array<int>)
    ensures objects[..] == [HitObject(0.0, 2), HitObject(0.0, 1)] && sounds[..] == [1, 2]
  {
    hide Distinct, StableOrder, IsPermutation, InOrder, Follows, HasTie;
    objects := new HitObject[2][HitObject(0.0, 1), HitObject(0.0, 2)];
    sounds := new int[2][1, 2];
    ghost var o := objects[..];
    assert o == [HitObject(0.0, 1), HitObject(0.0, 2)] && sounds[..] == [1, 2];
    ExampleTies(o);
    var order := SortHitObjects(objects, sounds, true);
    ExampleOrder(o, order);
    ExampleMoved(o, objects[..], [1, 2], sounds[..], order);
  }

  lemma ExampleTies(o: seq<HitObject>)
    requires o == [HitObject(0.0, 1), HitObject(0.0, 2)]
    ensures Distinct(o) && HasTie(o, 0, 2)
  {
    assert o[0].startTime == o[1].startTime;
  }

  lemma ExampleOrder(o: seq<HitObject>, order: seq<nat>)
    requires o == [HitObject(0.0, 1), HitObject(0.0, 2)] && StableOrder(ByStartTime, o, order)
    ensures order == [0, 1]
  {
    assert Before(ByStartTime, o, order[0], order[1]);
  }

  lemma ExampleMoved(o: seq<HitObject>, u: seq<HitObject>, sounds: seq<int>, sounds': seq<int>, order: seq<nat>)
    requires o == [HitObject(0.0, 1), HitObject(0.0, 2)] && sounds == [1, 2] && order == [0, 1]
    requires multiset(u) == multiset(o) && !Follows(o, u, order) && Follows(sounds, sounds', order)
    ensures u == [HitObject(0.0, 2), HitObject(0.0, 1)] && sounds' == [1, 2]
  {
    assert |u| == |multiset(u)| == 2;
    assert u == [u[0], u[1]];
    assert u[0] in multiset(o) && u[1] in multiset(o);
  }
}
