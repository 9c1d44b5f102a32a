/** One line of a map's timing section and the points it stands for. */
module TimingLines {
  import opened HitResults
  import opened Timeline

  /** Which lines are rejected, and with which error. */
  lemma Rejected(line: TimingLine, scrolls: bool)
    ensures var r := Parse(line, scrolls);
      && (r == Err(NumberUnderflow) <==> line.beatLen.Some? && line.beatLen.value < -2147483647.0)
      && (r == Err(NumberOverflow) <==> line.beatLen.Some? && line.beatLen.value > 2147483647.0)
      && (r == Err(TimingControlPointNaN) <==> line.beatLen.None? && line.timingChange)
  {}

  lemma Divided(sv: real)
    requires 0.0 < sv
    ensures 100.0 / -(-100.0 / sv) == sv
    ensures 100.0 / sv / 100.0 == 1.0 / sv && -(-100.0 / sv) == 100.0 / sv && 100.0 / sv > 0.0
  {
    var q := 100.0 / sv;
    assert q * sv == 100.0;
    assert -100.0 / sv == -q;
    var p := 100.0 / q;
    assert p * q == 100.0;
    assert (p - sv) * q == 0.0;
    var o := 1.0 / sv;
    assert o * sv == 1.0;
    assert (q / 100.0 - o) * sv == 0.0;
  }

  lemma InRange(sv: real)
    requires 0.1 <= sv <= 10.0
    ensures 10.0 <= 100.0 / sv <= 1000.0
  {
    var q := 100.0 / sv;
    assert q * sv == 100.0;
    if q < 10.0 {
      MulLess(q, 10.0, sv);
    }
    if q > 1000.0 {
      MulLess(1000.0, q, sv);
    }
  }

  /** Reading back what an editor writes for a slider velocity: the line gives it, its reciprocal as BPM
      multiplier, and in the modes that scroll the scroll speed. */
  lemma InheritedRoundTrip(time: real, sv: real, kiai: bool, scrolls: bool)
    requires 0.1 <= sv <= 10.0
    ensures var r := Parse(TimingLine(time, Some(-100.0 / sv), false, kiai), scrolls);
      && r.Ok? && r.value.time == time && !r.value.timingChange
      && r.value.difficulty == DifficultyValue(sv, 1.0 / sv, true)
      && r.value.effect == EffectValue(kiai, if scrolls then sv else 1.0)
  {
    Divided(sv);
    InRange(sv);
  }

  /** A timing change gives the beat length, and everything else its default. */
  lemma TimingRoundTrip(time: real, beatLen: real, kiai: bool, scrolls: bool)
    requires 6.0 <= beatLen <= 60000.0
    ensures Parse(TimingLine(time, Some(beatLen), true, kiai), scrolls)
         == Ok(LinePoints(time, true, TimingValue(beatLen), DifficultyValue(1.0, 1.0, true), EffectValue(kiai, 1.0)))
  {}

  /** With the default tempo and without kiai, it stands for what is in force before the first line. */
  lemma DefaultLine(time: real, scrolls: bool)
    ensures Parse(TimingLine(time, Some(1000.0), true, false), scrolls)
         == Ok(LinePoints(time, true, Default(Timing), Default(Difficulty), Default(Effect)))
  {}

  /** The special beat length NaN turns slider ticks off. */
  lemma NoTicks(time: real, kiai: bool, scrolls: bool)
    ensures var r := Parse(TimingLine(time, None, false, kiai), scrolls);
      && r.Ok? && r.value.difficulty == DifficultyValue(1.0, 1.0, false) && r.value.effect == EffectValue(kiai, 1.0)
  {}

  /** Outside their ranges values are cut: very short and very long beats, very fast and very slow sliders. */
  lemma CutOff(line: TimingLine, scrolls: bool)
    requires Parse(line, scrolls).Ok? && line.beatLen.Some?
    ensures var b, p := line.beatLen.value, Parse(line, scrolls).value;
      && (line.timingChange && b <= 6.0 ==> p.timing.beatLen == 6.0)
      && (line.timingChange && b >= 60000.0 ==> p.timing.beatLen == 60000.0)
      && (-10.0 <= b < 0.0 ==> p.difficulty.sliderVelocity == 10.0 && p.difficulty.bpmMultiplier == 0.1)
      && (b <= -1000.0 ==> p.difficulty.sliderVelocity == 0.1)
      && (b <= -10000.0 ==> p.difficulty.bpmMultiplier == 100.0)
      && (scrolls && -10.0 <= b < 0.0 ==> p.effect.scrollSpeed == 10.0)
      && (scrolls && b <= -10000.0 ==> p.effect.scrollSpeed == 0.01)
  {
    if line.beatLen.value < 0.0 {
      Bounds(-line.beatLen.value);
    }
  }

  lemma Bounds(b: real)
    requires b > 0.0
    ensures (b <= 10.0 ==> 100.0 / b >= 10.0) && (b >= 1000.0 ==> 100.0 / b <= 0.1)
    ensures b >= 10000.0 ==> 100.0 / b <= 0.01
  {
    var q := 100.0 / b;
    assert q * b == 100.0;
    if b <= 10.0 && q < 10.0 {
      MulLess(q, 10.0, b);
    }
    if b >= 1000.0 && q > 0.1 {
      MulLess(0.1, q, b);
    }
    if b >= 10000.0 && q > 0.01 {
      MulLess(0.01, q, b);
    }
  }
}
