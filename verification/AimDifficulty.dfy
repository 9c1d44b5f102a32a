/**
 The weighted sum over the aim skill's sections: what a section is worth falls with the time in front
 of it. Reducing the hardest sections lowers the sum.
 */
module AimDifficulty {
  import HitResults
  import opened AimPeaks

  /** `weight(t)` is what all time from `t` milliseconds on is worth, like `0.9` to the power of
      `t / 400`. */
  ghost predicate Falling(weight: int -> real) {
    forall t: int, u: int | t <= u :: weight(u) <= weight(t)
  }

  function Worth(value: real, weight: int -> real, from: int, to: int): real {
    value * (weight(from) - weight(to))
  }

  /** The sum for sections that follow one another from `time` on. */
  function Difficulty(peaks: seq<StrainPeak>, weight: int -> real, time: int): real {
    if peaks == [] then 0.0
    else
      var end := time + peaks[0].sectionLength;
      Worth(peaks[0].value, weight, time, end) + Difficulty(peaks[1..], weight, end)
  }

  /** `difficulty_value`, over the reduced peaks. */
  method DifficultyValue(strains: seq<StrainPeak>, weight: int -> real) returns (difficulty: real)
    ensures difficulty == Difficulty(strains, weight, 0) / (1.0 - 0.9)
  {
    hide Worth;
    var sum, time := 0.0, 0;
    assert strains[0..] == strains;
    for i := 0 to |strains|
      invariant sum + Difficulty(strains[i..], weight, time) == Difficulty(strains, weight, 0)
    {
      assert strains[i..][1..] == strains[i + 1..];
      var startTime, endTime := time, time + strains[i].sectionLength;
      sum := sum + Worth(strains[i].value, weight, startTime, endTime);
      time := endTime;
    }
    difficulty := sum / (1.0 - 0.9);
  }

  /** A map that is equally hard all the time is worth that value for the whole of its time. */
  lemma {:induction false} ConstantDifficulty(peaks: seq<StrainPeak>, value: real, weight: int -> real, time: int)
    requires forall i | 0 <= i < |peaks| :: peaks[i].value == value
    ensures Difficulty(peaks, weight, time) == value * (weight(time) - weight(time + TotalLength(peaks)))
    decreases |peaks|
  {
    if peaks == [] {
      assert weight(time) - weight(time + 0) == 0.0;
    } else {
      var end := time + peaks[0].sectionLength;
      ConstantDifficulty(peaks[1..], value, weight, end);
      WorthSplits(value, weight, time, end, time + TotalLength(peaks));
    }
  }

  // ---------------------------------------------------------------------------------------------
  // Millisecond by millisecond

  function Repeat(n: int, value: real): (s: seq<real>)
    ensures |s| == if n > 0 then n else 0
  {
    if n <= 0 then [] else [value] + Repeat(n - 1, value)
  }

  /** The strain in every millisecond. */
  function Milliseconds(peaks: seq<StrainPeak>): seq<real> {
    if peaks == [] then [] else Repeat(peaks[0].sectionLength, peaks[0].value) + Milliseconds(peaks[1..])
  }

  function Sum(strains: seq<real>, weight: int -> real, time: int): real {
    if strains == [] then 0.0
    else Worth(strains[0], weight, time, time + 1) + Sum(strains[1..], weight, time + 1)
  }

  function CountAbove(strains: seq<real>, v: real): int {
    if strains == [] then 0 else (if strains[0] > v then 1 else 0) + CountAbove(strains[1..], v)
  }

  lemma WorthSplits(value: real, weight: int -> real, from: int, middle: int, to: int)
    ensures Worth(value, weight, from, to) == Worth(value, weight, from, middle) + Worth(value, weight, middle, to)
  {
    var a, b := weight(from) - weight(middle), weight(middle) - weight(to);
    assert value * (a + b) == value * a + value * b;
  }

  lemma NoTime(value: real, weight: int -> real, time: int)
    ensures Worth(value, weight, time, time) == 0.0
  {}

  lemma {:induction false} SumRepeat(n: nat, value: real, rest: seq<real>, weight: int -> real, time: int)
    ensures Sum(Repeat(n, value) + rest, weight, time)
         == Worth(value, weight, time, time + n) + Sum(rest, weight, time + n)
    decreases n
  {
    hide Worth;
    if n == 0 {
      NoTime(value, weight, time);
      assert Repeat(0, value) + rest == rest;
    } else {
      assert Repeat(n, value) + rest == [value] + (Repeat(n - 1, value) + rest);
      SumRepeat(n - 1, value, rest, weight, time + 1);
      WorthSplits(value, weight, time, time + 1, time + n);
    }
  }

  lemma {:induction false} SumIsDifficulty(peaks: seq<StrainPeak>, weight: int -> real, time: int)
    requires HasLengths(peaks)
    ensures Sum(Milliseconds(peaks), weight, time) == Difficulty(peaks, weight, time)
    decreases |peaks|
  {
    hide Worth, Sum;
    if peaks == [] {
      NothingToSum(weight, time);
    } else {
      var end := time + peaks[0].sectionLength;
      SumIsDifficulty(peaks[1..], weight, end);
      SumRepeat(peaks[0].sectionLength, peaks[0].value, Milliseconds(peaks[1..]), weight, time);
    }
  }

  lemma NothingToSum(weight: int -> real, time: int)
    ensures Sum([], weight, time) == 0.0
  {}

  lemma {:induction false} CountRepeat(n: nat, value: real, rest: seq<real>, v: real)
    ensures CountAbove(Repeat(n, value) + rest, v) == (if value > v then n else 0) + CountAbove(rest, v)
  {
    if n == 0 {
      assert Repeat(0, value) + rest == rest;
    } else {
      assert Repeat(n, value) + rest == [value] + (Repeat(n - 1, value) + rest);
      CountRepeat(n - 1, value, rest, v);
    }
  }

  lemma {:induction false} CountIsLength(peaks: seq<StrainPeak>, v: real)
    requires HasLengths(peaks)
    ensures CountAbove(Milliseconds(peaks), v) == LengthAbove(peaks, v)
    ensures |Milliseconds(peaks)| == TotalLength(peaks)
  {
    if peaks != [] {
      CountIsLength(peaks[1..], v);
      CountRepeat(peaks[0].sectionLength, peaks[0].value, Milliseconds(peaks[1..]), v);
    }
  }

  ghost predicate Sinking(strains: seq<real>) {
    forall i, j | 0 <= i <= j < |strains| :: strains[j] <= strains[i]
  }

  lemma {:induction false} RepeatSinks(n: nat, value: real, rest: seq<real>)
    requires Sinking(rest) && forall x | x in rest :: x <= value
    ensures Sinking(Repeat(n, value) + rest)
    ensures forall x | x in Repeat(n, value) + rest :: x == value || x in rest
  {
    if n == 0 {
      assert Repeat(0, value) + rest == rest;
    } else {
      var s := Repeat(n - 1, value) + rest;
      RepeatSinks(n - 1, value, rest);
      assert Repeat(n, value) + rest == [value] + s;
      forall j | 0 <= j < |s|
        ensures s[j] <= value
      {
        assert s[j] in s;
      }
    }
  }

  lemma {:induction false} MillisecondsSink(peaks: seq<StrainPeak>)
    requires HasLengths(peaks) && Descending(peaks)
    ensures Sinking(Milliseconds(peaks))
    ensures forall x | x in Milliseconds(peaks) :: peaks != [] && x <= peaks[0].value
  {
    if peaks != [] {
      MillisecondsSink(peaks[1..]);
      RepeatSinks(peaks[0].sectionLength, peaks[0].value, Milliseconds(peaks[1..]));
    }
  }

  /** In a sinking sequence everything up to a place is at least what stands there. */
  lemma {:induction false} CountFront(strains: seq<real>, v: real, k: nat)
    requires Sinking(strains) && k < |strains|
    ensures strains[k] > v ==> CountAbove(strains, v) > k
    ensures strains[k] <= v ==> CountAbove(strains, v) <= k
  {
    if strains[0] <= v {
      NoneAbove(strains, v);
    } else if k > 0 {
      CountFront(strains[1..], v, k - 1);
    } else {
      CountNatural(strains[1..], v);
    }
  }

  lemma {:induction false} NoneAbove(strains: seq<real>, v: real)
    requires forall i | 0 <= i < |strains| :: strains[i] <= v
    ensures CountAbove(strains, v) == 0
  {
    if strains != [] {
      NoneAbove(strains[1..], v);
    }
  }

  lemma {:induction false} CountNatural(strains: seq<real>, v: real)
    ensures CountAbove(strains, v) >= 0
  {
    if strains != [] {
      CountNatural(strains[1..], v);
    }
  }

  lemma WorthGrows(low: real, high: real, weight: int -> real, from: int, to: int)
    requires low <= high && weight(to) <= weight(from)
    ensures Worth(low, weight, from, to) <= Worth(high, weight, from, to)
  {
    var w := weight(from) - weight(to);
    if w > 0.0 {
      HitResults.MulAtMost(low, high, w);
    }
  }

  lemma {:induction false} SumGrows(low: seq<real>, high: seq<real>, weight: int -> real, time: int)
    requires |low| == |high| && Falling(weight)
    requires forall k | 0 <= k < |low| :: low[k] <= high[k]
    ensures Sum(low, weight, time) <= Sum(high, weight, time)
    decreases |low|
  {
    hide Worth;
    if low != [] {
      WorthGrows(low[0], high[0], weight, time, time + 1);
      SumGrows(low[1..], high[1..], weight, time + 1);
    }
  }

  /** Whatever keeps the time and moves none of it above a value lowers the sum, for every weight that
      falls with time. */
  lemma ReducingLowers(before: seq<StrainPeak>, after: seq<StrainPeak>, weight: int -> real)
    requires Falling(weight) && Reduces(before, after)
    requires HasLengths(before) && HasLengths(after) && Descending(before) && Descending(after)
    ensures Difficulty(after, weight, 0) <= Difficulty(before, weight, 0)
  {
    hide Milliseconds, Difficulty, Sum, CountAbove, LengthAbove, TotalLength, Sinking, Falling;
    var low, high := Milliseconds(after), Milliseconds(before);
    MillisecondsSink(before);
    MillisecondsSink(after);
    CountIsLength(before, 0.0);
    CountIsLength(after, 0.0);
    forall k | 0 <= k < |low|
      ensures low[k] <= high[k]
    {
      var v := high[k];
      CountIsLength(before, v);
      CountIsLength(after, v);
      CountFront(high, v, k);
      CountFront(low, v, k);
    }
    SumGrows(low, high, weight, 0);
    SumIsDifficulty(before, weight, 0);
    SumIsDifficulty(after, weight, 0);
  }

  /** So the reduction of the hardest sections never makes a map harder. */
  method ReducedDifficulty(current: seq<StrainPeak>, scale: real -> real, weight: int -> real)
    returns (difficulty: real)
    requires UnitScale(scale) && HasLengths(current) && Descending(current) && Falling(weight)
    ensures difficulty <= Difficulty(Positive(current), weight, 0) / (1.0 - 0.9)
  {
    var strains := ReducedStrainPeaks(current, scale);
    PositiveDescends(current);
    assert HasLengths(strains);
    ReducingLowers(Positive(current), strains, weight);
    difficulty := DifficultyValue(strains, weight);
  }

  lemma {:induction false} PositiveAmong(peaks: seq<StrainPeak>)
    ensures forall p | p in Positive(peaks) :: p in peaks
  {
    if peaks != [] {
      PositiveAmong(peaks[1..]);
    }
  }

  lemma FirstIsHighest(peaks: seq<StrainPeak>, rest: seq<StrainPeak>)
    requires Descending(peaks) && peaks != [] && Descending(rest) && forall p | p in rest :: p in peaks
    ensures Descending([peaks[0]] + rest)
  {
    forall i | 0 <= i < |rest|
      ensures peaks[0].value >= rest[i].value
    {
      assert rest[i] in rest;
      var j :| 0 <= j < |peaks| && peaks[j] == rest[i];
    }
  }

  lemma {:induction false} PositiveDescends(peaks: seq<StrainPeak>)
    requires Descending(peaks)
    ensures Descending(Positive(peaks))
  {
    if peaks != [] {
      assert Descending(peaks[1..]);
      hide Descending, HasLengths;
      PositiveDescends(peaks[1..]);
      PositiveAmong(peaks[1..]);
      FirstIsHighest(peaks, Positive(peaks[1..]));
    }
  }
}
