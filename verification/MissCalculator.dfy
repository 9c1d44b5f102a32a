/** Estimating misses from a legacy total score. */
module MissCalculator {
  import opened HitResults
  import opened LegacyScore

  datatype Attributes = Attributes(maxCombo: nat, nSliders: nat, legacyScoreBaseMultiplier: real,
                                   nestedScorePerObject: real, maximumLegacyComboScore: real, sliderFactor: real)

  datatype ScoreState = ScoreState(maxCombo: nat, n300: nat, n100: nat, n50: nat, misses: nat)

  /** The combo score of a map without its multiplier. */
  function PlainComboScore(a: Attributes): real {
    var divisor := 12.0 * a.legacyScoreBaseMultiplier;
    if divisor != 0.0 then a.maximumLegacyComboScore / divisor else a.maximumLegacyComboScore
  }

  /** `calculate_relevant_score_combo_per_object`: how much combo one object is worth. */
  function RelevantComboPerObject(a: Attributes): real {
    RelevantCombo(a.maxCombo as real, PlainComboScore(a))
  }

  function RelevantCombo(maxCombo: real, comboScore: real): real {
    (maxCombo - 2.0) * maxCombo / MaxReal(maxCombo + 2.0 * (comboScore - 1.0), 1.0)
  }

  /** The arithmetic series `(r - 1) + (2r - 1) + ...` over the estimated number of objects. */
  function ComboSeries(combo: real, relevant: real): real {
    if relevant > 0.0 then
      var estimated := combo / relevant - 1.0;
      (2.0 * (relevant - 1.0) + (estimated - 1.0) * relevant) * estimated / 2.0
    else 0.0
  }

  /** `pow25` raises to the power of 2.5. */
  datatype Calculator = Calculator(state: ScoreState, attrs: Attributes, modMultiplier: real, accuracy: real,
                                   pow25: real -> real)
  {
    /** `get_legacy_mod_multiplier` has been evaluated; a caller's combo never exceeds the map's. */
    ghost predicate Valid() {
      && state.maxCombo <= attrs.maxCombo
      && forall x | x >= 0.0 :: pow25(x) >= 0.0 && (pow25(x) >= 1.0 <==> x >= 1.0) && (pow25(x) == 0.0 <==> x == 0.0)
    }

    function ScoreAtCombo(combo: real, relevant: real, multiplier: real): real
      requires attrs.maxCombo != 0
    {
      ComboPart(combo, relevant, multiplier) + ObjectsPart(combo)
    }

    function ComboPart(combo: real, relevant: real, multiplier: real): real {
      ComboSeries(combo, relevant) * accuracy * 300.0 / 25.0 * multiplier
    }

    function ObjectsPart(combo: real): real
      requires attrs.maxCombo != 0
    {
      var totalHits := (state.n300 + state.n100 + state.n50 + state.misses) as real;
      var objectsHit := (totalHits - state.misses as real) * combo / attrs.maxCombo as real;
      (300.0 + attrs.nestedScorePerObject) * accuracy * objectsHit
    }

    /** The combo a full combo may at least be expected to have. */
    function FullComboThreshold(): real {
      var factor := MinReal(attrs.sliderFactor, 1.0);
      var portion := 0.04 + 0.06 * (factor * factor);
      attrs.maxCombo as real - MinReal(4.0 + portion * attrs.nSliders as real, attrs.nSliders as real)
    }

    function MaxPossibleSliderBreaks(): nat {
      Min(attrs.nSliders, SaturatingSub(attrs.maxCombo, state.maxCombo) / 2)
    }

    function ImperfectHits(): nat {
      state.n100 + state.n50 + state.misses
    }

    /** `calculate_maximum_combo_based_miss_count`. */
    function MaximumMissCount(): real {
      if attrs.nSliders == 0 then state.misses as real
      else
        var threshold := FullComboThreshold();
        var combo := state.maxCombo as real;
        var estimate := if combo < threshold then pow25(threshold / MaxReal(combo, 1.0)) else 0.0;
        var missCount := MinReal(estimate, ImperfectHits() as real);
        if missCount - state.misses as real > MaxPossibleSliderBreaks() as real
        then (state.misses + MaxPossibleSliderBreaks()) as real else missCount
    }

    function ScoreV1Multiplier(): real {
      attrs.legacyScoreBaseMultiplier * modMultiplier
    }

    /** The score of the longest combo. */
    function ScoreDuringMaxCombo(): real
      requires attrs.maxCombo != 0
    {
      ScoreAtCombo(state.maxCombo as real, RelevantComboPerObject(attrs), ScoreV1Multiplier())
    }

    function RemainingScore(legacyTotalScore: nat): real
      requires attrs.maxCombo != 0
    {
      legacyTotalScore as real - ScoreDuringMaxCombo()
    }

    /** What the rest of the map should have scored. */
    function ExpectedRemainingScore(): real
      requires attrs.maxCombo != 0
    {
      ScoreAtCombo((attrs.maxCombo - state.maxCombo) as real, RelevantComboPerObject(attrs), ScoreV1Multiplier())
    }

    function Disabled(): bool {
      attrs.maxCombo == 0 || modMultiplier == 0.0 || attrs.legacyScoreBaseMultiplier == 0.0
    }

    /** `calculate`. */
    function Calculate(legacyTotalScore: nat): real {
      if attrs.maxCombo == 0 then 0.0
      else if modMultiplier == 0.0 || attrs.legacyScoreBaseMultiplier == 0.0 then 0.0
      else if ScoreV1Multiplier() == 0.0 then 0.0
      else if RemainingScore(legacyTotalScore) <= 0.0 then MaximumMissCount()
      else MinReal(MaxReal(ExpectedRemainingScore() / RemainingScore(legacyTotalScore), 1.0), MaximumMissCount())
    }
  }

  // ---------------------------------------------------------------------------------------------
  // Bounds

  lemma ProductNonZero(a: real, b: real)
    requires a != 0.0 && b != 0.0
    ensures a * b != 0.0
  {
    assert a * b / b == a;
  }

  /** The combo-based estimate needs neither more misses than imperfect hits, nor more slider breaks
      than fit into the missing combo. */
  lemma MaximumMissBounds(c: Calculator)
    requires c.Valid()
    ensures 0.0 <= c.MaximumMissCount() <= (c.state.n100 + c.state.n50 + c.state.misses) as real
    ensures c.MaximumMissCount() <= (c.state.misses + c.MaxPossibleSliderBreaks()) as real
    ensures c.attrs.nSliders == 0 ==> c.MaximumMissCount() == c.state.misses as real
  {
    hide Calculator.FullComboThreshold;
    var threshold := c.FullComboThreshold();
    if c.attrs.nSliders != 0 && c.state.maxCombo as real < threshold {
      var x := threshold / MaxReal(c.state.maxCombo as real, 1.0);
      assert x >= 0.0;
    }
  }

  /** With sliders it is the smallest of three: how many times the longest combo goes into a full one, to
      the power of 2.5, the imperfect hits, and the misses with all slider breaks that fit. */
  lemma MaximumIsSmallest(c: Calculator, times: real)
    requires c.attrs.nSliders > 0 && times * MaxReal(c.state.maxCombo as real, 1.0) == c.FullComboThreshold()
    ensures var imperfect := (c.state.n100 + c.state.n50 + c.state.misses) as real;
      var breaks := (c.state.misses + c.MaxPossibleSliderBreaks()) as real;
      && (c.state.maxCombo as real >= c.FullComboThreshold() ==> c.MaximumMissCount() == 0.0)
      && ((c.state.maxCombo as real) < c.FullComboThreshold() ==>
            c.MaximumMissCount() == MinReal(MinReal(c.pow25(times), imperfect), breaks))
  {
    hide Calculator.FullComboThreshold, Calculator.MaxPossibleSliderBreaks;
    QuotientIs(c.FullComboThreshold(), MaxReal(c.state.maxCombo as real, 1.0), times);
  }

  /** What it takes for the combo-based estimate to be a miss or more. Without sliders a miss is a
      miss. With sliders the longest combo must fall short of a full one, some hit must be imperfect,
      and there must have been a miss or room for a slider break. */
  predicate SeesAMiss(c: Calculator) {
    if c.attrs.nSliders == 0 then c.state.misses >= 1
    else
      && c.FullComboThreshold() >= 1.0 && (c.state.maxCombo as real) < c.FullComboThreshold()
      && c.state.n100 + c.state.n50 + c.state.misses >= 1 && c.state.misses + c.MaxPossibleSliderBreaks() >= 1
  }

  lemma MaximumReachesOne(c: Calculator)
    requires c.Valid()
    ensures c.MaximumMissCount() >= 1.0 <==> SeesAMiss(c)
  {
    hide Calculator.FullComboThreshold;
    var threshold, combo := c.FullComboThreshold(), MaxReal(c.state.maxCombo as real, 1.0);
    if c.attrs.nSliders != 0 && c.state.maxCombo as real < threshold {
      QuotientReachesOne(threshold, combo);
    }
  }

  lemma QuotientReachesOne(a: real, b: real)
    requires b > 0.0
    ensures a / b >= 1.0 <==> a >= b
    ensures a > 0.0 ==> a / b >= 0.0
  {
    var q := a / b;
    assert q * b == a;
    if q >= 1.0 { MulAtMost(1.0, q, b); } else { MulLess(q, 1.0, b); }
  }

  /** The estimate never exceeds the combo-based one. It is at least 1 exactly if that one sees a miss
      and no multiplier is 0: it is not "always at least 1". */
  lemma EstimateBounds(c: Calculator, legacyTotalScore: nat)
    requires c.Valid()
    ensures 0.0 <= c.Calculate(legacyTotalScore) <= c.MaximumMissCount()
    ensures c.Calculate(legacyTotalScore) >= 1.0 <==> !c.Disabled() && SeesAMiss(c)
  {
    hide Calculator.MaximumMissCount, Calculator.RemainingScore, Calculator.ExpectedRemainingScore, SeesAMiss;
    MaximumMissBounds(c);
    MaximumReachesOne(c);
    if !c.Disabled() {
      ProductNonZero(c.attrs.legacyScoreBaseMultiplier, c.modMultiplier);
    }
  }

  /** Where the combo-based estimate is no miss at all. */
  predicate SeesNothing(c: Calculator) {
    if c.attrs.nSliders == 0 then c.state.misses == 0
    else
      || c.FullComboThreshold() <= c.state.maxCombo as real
      || c.state.n100 + c.state.n50 + c.state.misses == 0 || c.state.misses + c.MaxPossibleSliderBreaks() == 0
  }

  lemma MaximumIsZero(c: Calculator)
    requires c.Valid()
    ensures c.MaximumMissCount() == 0.0 <==> SeesNothing(c)
  {
    hide Calculator.FullComboThreshold;
    var threshold, combo := c.FullComboThreshold(), MaxReal(c.state.maxCombo as real, 1.0);
    if c.attrs.nSliders != 0 && (c.state.maxCombo as real) < threshold {
      QuotientReachesOne(threshold, combo);
      assert threshold / combo * combo == threshold;
    }
  }

  /** The estimate is 0 exactly if the combo-based one sees nothing or a multiplier is 0. The total
      score has no say in it. */
  lemma EstimateIsZero(c: Calculator, legacyTotalScore: nat)
    requires c.Valid()
    ensures c.Calculate(legacyTotalScore) == 0.0 <==> c.Disabled() || SeesNothing(c)
  {
    hide Calculator.MaximumMissCount, Calculator.RemainingScore, Calculator.ExpectedRemainingScore, SeesNothing;
    MaximumMissBounds(c);
    MaximumIsZero(c);
    if !c.Disabled() {
      ProductNonZero(c.attrs.legacyScoreBaseMultiplier, c.modMultiplier);
    }
  }

  /** A total score of 0 does not give 0: one miss on a map without sliders counts as one. */
  lemma ZeroScoreIsAMiss(c: Calculator)
    requires c.Valid() && !c.Disabled() && c.attrs.nSliders == 0 && c.state.misses == 1
    ensures c.Calculate(0) == 1.0
  {
    EstimateBounds(c, 0);
    MaximumMissBounds(c);
  }

  /** A higher score never means more misses. */
  lemma HigherScoreFewerMisses(c: Calculator, less: nat, more: nat)
    requires less <= more
    ensures c.Calculate(more) <= c.Calculate(less)
  {
    hide Calculator.MaximumMissCount, Calculator.ScoreDuringMaxCombo, Calculator.ExpectedRemainingScore;
    if !c.Disabled() && c.RemainingScore(less) > 0.0 {
      QuotientFalls(c.ExpectedRemainingScore(), c.RemainingScore(less), c.RemainingScore(more));
    }
  }

  /** Where the estimate comes from. `rest` is what the part of the map outside the longest combo should
      score. If it scored `r` times less, that took `r` misses, at least one and no more than the combo
      allows; if nothing is left for it, as many as the combo allows. */
  lemma MissesOfTheRest(c: Calculator, legacyTotalScore: nat, multiplier: real, r: real)
    requires !c.Disabled() && multiplier == c.attrs.legacyScoreBaseMultiplier * c.modMultiplier
    ensures var relevant := RelevantComboPerObject(c.attrs);
      var during := c.ScoreAtCombo(c.state.maxCombo as real, relevant, multiplier);
      var rest := c.ScoreAtCombo((c.attrs.maxCombo - c.state.maxCombo) as real, relevant, multiplier);
      && (legacyTotalScore as real <= during ==> c.Calculate(legacyTotalScore) == c.MaximumMissCount())
      && (legacyTotalScore as real > during && (legacyTotalScore as real - during) * r == rest ==>
            c.Calculate(legacyTotalScore) == MinReal(MaxReal(r, 1.0), c.MaximumMissCount()))
  {
    hide Calculator.MaximumMissCount, Calculator.ComboPart, Calculator.ObjectsPart, RelevantComboPerObject;
    ProductNonZero(c.attrs.legacyScoreBaseMultiplier, c.modMultiplier);
    assert c.ScoreV1Multiplier() == multiplier;
    hide Calculator.ScoreV1Multiplier;
    var remaining, expected := c.RemainingScore(legacyTotalScore), c.ExpectedRemainingScore();
    if remaining > 0.0 && remaining * r == expected {
      QuotientIs(expected, remaining, r);
    }
  }

  lemma QuotientIs(e: real, x: real, r: real)
    requires x > 0.0 && x * r == e
    ensures e / x == r
  {
    var q := e / x;
    assert q * x == e;
    assert (q - r) * x == 0.0;
  }

  /** As many slider breaks as there are sliders, as long as each costs two of the missing combo. */
  lemma BreaksFit(c: Calculator, breaks: nat)
    requires c.state.maxCombo <= c.attrs.maxCombo
    ensures breaks <= c.MaxPossibleSliderBreaks() <==>
      breaks <= c.attrs.nSliders && c.state.maxCombo + 2 * breaks <= c.attrs.maxCombo
  {}

  /** How far a full combo may fall short: by four slider ends and a part of the others that grows with the
      slider factor from 4 to 10 percent, but by no more than there are. */
  lemma ThresholdEnds(c: Calculator)
    ensures var n := c.attrs.nSliders as real; var short := c.attrs.maxCombo as real - c.FullComboThreshold();
      && (c.attrs.sliderFactor == 0.0 ==> short == MinReal(4.0 + 0.04 * n, n))
      && (c.attrs.sliderFactor == 0.5 ==> short == MinReal(4.0 + 0.055 * n, n))
      && (c.attrs.sliderFactor >= 1.0 ==> short == MinReal(4.0 + 0.1 * n, n))
  {}

  lemma ThresholdFalls(c: Calculator, d: Calculator)
    requires 0.0 <= c.attrs.sliderFactor <= d.attrs.sliderFactor
    requires c.attrs.maxCombo == d.attrs.maxCombo && c.attrs.nSliders == d.attrs.nSliders
    ensures d.FullComboThreshold() <= c.FullComboThreshold()
  {
    var f, g := MinReal(c.attrs.sliderFactor, 1.0), MinReal(d.attrs.sliderFactor, 1.0);
    SquareGrows(f, g);
    var p, q, n := 0.04 + 0.06 * (f * f), 0.04 + 0.06 * (g * g), c.attrs.nSliders as real;
    PartGrows(p, q, n);
    assert c.FullComboThreshold() == c.attrs.maxCombo as real - MinReal(4.0 + p * n, n);
    assert d.FullComboThreshold() == c.attrs.maxCombo as real - MinReal(4.0 + q * n, n);
  }

  lemma SquareGrows(f: real, g: real)
    requires 0.0 <= f <= g
    ensures f * f <= g * g
  {
    MulNonNegative(g - f, g + f);
    assert (g - f) * (g + f) == g * g - f * f;
  }

  lemma PartGrows(p: real, q: real, n: real)
    requires p <= q && n >= 0.0
    ensures p * n <= q * n
  {
    MulNonNegative(q - p, n);
    assert (q - p) * n == q * n - p * n;
  }

  lemma QuotientFalls(e: real, r: real, s: real)
    requires 0.0 < r <= s
    ensures MaxReal(e / s, 1.0) <= MaxReal(e / r, 1.0)
  {
    var p, q := e / r, e / s;
    assert p * r == e == q * s;
    if q > p && q > 1.0 {
      MulAtMost(r, s, q);
      MulLess(p, q, r);
      assert false;
    }
  }

  // ---------------------------------------------------------------------------------------------
  // Agreement with the simulator

  /** The attributes of a map, as far as they concern the legacy score. */
  function AttributesOf(objects: seq<OsuObject>, m: nat): Attributes {
    Attributes(MaxCombo(objects), Sum(objects, IsSlider), m as real,
               NestedPerObject(objects, |objects|),
               Simulated(objects, m as real).comboScore, 0.0)
  }

  lemma DivideScaled(x: real, m: nat, t: int)
    requires m >= 1 && x == (12 * m * t) as real
    ensures x / (12.0 * m as real) == t as real
  {
    assert x == 12.0 * m as real * t as real;
  }

  /** Without sliders an object is worth exactly one combo, if there are at least three; the
      formula breaks down for one or two. */
  lemma RelevantIsOne(objects: seq<OsuObject>, m: nat)
    requires NoSliders(objects) && objects != [] && m >= 1
    ensures RelevantComboPerObject(AttributesOf(objects, m)) == 1.0 <==> |objects| >= 3
    ensures |objects| < 3 ==> RelevantComboPerObject(AttributesOf(objects, m)) <= 0.0
  {
    hide RelevantCombo, PlainComboScore, NestedTotal, Triangle;
    var n := |objects|;
    ComboWithoutSliders(objects);
    SimulatedSeries(objects, m);
    TriangleClosed(n);
    PlainIsTriangle(AttributesOf(objects, m), m, Triangle(n));
    RelevantTriangle(n, Triangle(n));
  }

  lemma PlainIsTriangle(a: Attributes, m: nat, t: int)
    requires m >= 1 && a.legacyScoreBaseMultiplier == m as real && a.maximumLegacyComboScore == (12 * m * t) as real
    ensures PlainComboScore(a) == t as real
  {
    DivideScaled(a.maximumLegacyComboScore, m, t);
  }

  lemma Numerator(n: nat)
    ensures (n as real - 2.0) * n as real == ((n - 2) * n) as real
  {
    IntProduct(n - 2, n);
    assert n as real - 2.0 == (n - 2) as real;
  }

  lemma RelevantTriangle(n: nat, t: int)
    requires n >= 1 && 2 * t == (n - 1) * (n - 2)
    ensures RelevantCombo(n as real, t as real) == 1.0 <==> n >= 3
    ensures n < 3 ==> RelevantCombo(n as real, t as real) <= 0.0
  {
    if n >= 3 {
      ManyObjects(n, t);
    } else {
      assert t == 0;
      FewObjects(n);
    }
  }

  lemma ManyObjects(n: nat, t: int)
    requires n >= 3 && 2 * t == (n - 1) * (n - 2)
    ensures RelevantCombo(n as real, t as real) == 1.0
  {
    Numerator(n);
    Denominator(n, t);
    MulBound(n);
    var product := (n * (n - 2)) as real;
    assert product >= 3.0;
    QuotientOfEquals(product, product);
  }

  lemma FewObjects(n: nat)
    requires 1 <= n <= 2
    ensures RelevantCombo(n as real, 0.0) <= 0.0
  {
    var denominator := MaxReal(n as real + 2.0 * (0.0 - 1.0), 1.0);
    assert denominator == 1.0;
    QuotientOfEquals((n as real - 2.0) * n as real, 1.0);
  }

  lemma QuotientOfEquals(a: real, b: real)
    requires b >= 1.0
    ensures a == b ==> a / b == 1.0
    ensures a <= 0.0 ==> a / b <= 0.0
  {}

  lemma MulBound(n: int)
    requires n >= 3
    ensures n * (n - 2) >= 3
  {}

  lemma Denominator(n: nat, t: int)
    requires 2 * t == (n - 1) * (n - 2)
    ensures n as real + 2.0 * (t as real - 1.0) == (n * (n - 2)) as real
  {
    assert n + 2 * (t - 1) == n * (n - 2);
    assert (n + 2 * (t - 1)) as real == n as real + 2.0 * (t as real - 1.0);
  }

  /** With one combo for each object, the series is the simulator's. */
  lemma SeriesIsTriangle(k: nat)
    requires k >= 1
    ensures ComboSeries(k as real, 1.0) == Triangle(k) as real
  {
    TriangleClosed(k);
    var e := k as real - 1.0;
    assert k as real / 1.0 == k as real;
    IntProduct(k - 2, k - 1);
    assert (e - 1.0) * e == ((k - 2) * (k - 1)) as real;
  }

  /** At full accuracy the combo part of the score at combo `k` is what the simulator computes for
      the first `k` objects, scaled by the mods. */
  lemma ScoreMatchesSimulator(c: Calculator, objects: seq<OsuObject>, m: nat, k: nat)
    requires NoSliders(objects) && m >= 1 && c.attrs == AttributesOf(objects, m)
    requires 1 <= k <= |objects| && c.accuracy == 1.0
    ensures c.attrs.maxCombo == |objects|
    ensures var relevant := RelevantComboPerObject(c.attrs);
      c.ComboPart(k as real, relevant, m as real * c.modMultiplier)
      == Simulated(objects[..k], m as real).comboScore * c.modMultiplier
  {
    hide RelevantComboPerObject, NestedTotal, ComboSeries, Simulated;
    ComboWithoutSliders(objects);
    RelevantIsOne(objects, m);
    if |objects| >= 3 {
      SeriesIsTriangle(k);
    } else {
      NothingCounts(k, RelevantComboPerObject(c.attrs));
    }
    SimulatedSeries(objects[..k], m);
    var t := Triangle(k) as real;
    TripleProduct(12, m, Triangle(k));
    Rearrange(t, m as real, c.modMultiplier);
  }

  /** For one or two objects there is no combo score, neither here nor in the simulator. */
  lemma NothingCounts(k: nat, relevant: real)
    requires 1 <= k <= 2 && relevant <= 0.0
    ensures ComboSeries(k as real, relevant) == 0.0 && Triangle(k) == 0
  {
    TriangleClosed(k);
  }

  lemma TripleProduct(a: int, b: int, c: int)
    ensures (a * b * c) as real == a as real * b as real * c as real
  {}

  lemma Rearrange(t: real, m: real, mods: real)
    ensures t * 1.0 * 300.0 / 25.0 * (m * mods) == 12.0 * m * t * mods
  {
    assert t * 1.0 * 300.0 / 25.0 == 12.0 * t;
    assert 12.0 * t * (m * mods) == 12.0 * m * t * mods;
  }

  /** The series in closed form. */
  lemma SeriesClosed(combo: real, r: real)
    requires r > 0.0
    ensures ComboSeries(combo, r) == (combo - 2.0) * (combo / r - 1.0) / 2.0
  {
    var e := combo / r - 1.0;
    assert r * (e + 1.0) == combo;
    assert 2.0 * (r - 1.0) + (e - 1.0) * r == r * (e + 1.0) - 2.0;
  }

  /** At the full combo the series makes up for what it assumes: for every map, sliders or not, it is
      the simulated combo score without the multiplier. */
  lemma FullComboMatches(a: Attributes)
    requires a.maxCombo >= 3 && PlainComboScore(a) >= 0.0
    ensures RelevantComboPerObject(a) > 0.0
    ensures ComboSeries(a.maxCombo as real, RelevantComboPerObject(a)) == PlainComboScore(a)
  {
    hide PlainComboScore;
    FullSeries(a.maxCombo as real, PlainComboScore(a));
  }

  /** So at full accuracy the score at the full combo is the simulated one, for every map. */
  lemma FullComboScore(c: Calculator, objects: seq<OsuObject>, m: nat)
    requires m >= 1 && c.attrs == AttributesOf(objects, m) && c.attrs.maxCombo >= 3 && c.accuracy == 1.0
    ensures c.ComboPart(c.attrs.maxCombo as real, RelevantComboPerObject(c.attrs), m as real * c.modMultiplier)
         == Simulated(objects, m as real).comboScore * c.modMultiplier
  {
    hide RelevantComboPerObject, NestedTotal, ComboSeries, Simulated, PlainComboScore, Sum, MaxCombo;
    var score := Simulated(objects, m as real).comboScore;
    ComboScoreNatural(objects, m);
    PlainScaled(c.attrs, m, score);
    FullComboMatches(c.attrs);
    Rearrange(PlainComboScore(c.attrs), m as real, c.modMultiplier);
  }

  /** The score at any combo is in proportion to the accuracy. */
  lemma AccuracyScales(c: Calculator, combo: real, relevant: real, multiplier: real)
    requires c.attrs.maxCombo != 0
    ensures c.ScoreAtCombo(combo, relevant, multiplier)
         == c.accuracy * c.(accuracy := 1.0).ScoreAtCombo(combo, relevant, multiplier)
  {
    hide ComboSeries;
    var series, a := ComboSeries(combo, relevant), c.accuracy;
    ComboScales(series, a, multiplier);
    var full := c.(accuracy := 1.0);
    var hits := (c.state.n300 + c.state.n100 + c.state.n50) as real * combo / c.attrs.maxCombo as real;
    ObjectsScale(300.0 + c.attrs.nestedScorePerObject, a, hits);
    var x, y := full.ComboPart(combo, relevant, multiplier), full.ObjectsPart(combo);
    assert a * (x + y) == a * x + a * y;
  }

  lemma ComboScales(series: real, a: real, multiplier: real)
    ensures series * a * 300.0 / 25.0 * multiplier == a * (series * 1.0 * 300.0 / 25.0 * multiplier)
  {
    assert series * a * 300.0 / 25.0 == 12.0 * (series * a) && series * 1.0 * 300.0 / 25.0 == 12.0 * series;
  }

  lemma ObjectsScale(share: real, a: real, hits: real)
    ensures share * a * hits == a * (share * 1.0 * hits)
  {}

  lemma ObjectsAtFull(c: Calculator)
    requires c.attrs.maxCombo != 0
    ensures c.ObjectsPart(c.attrs.maxCombo as real)
         == (300.0 + c.attrs.nestedScorePerObject) * c.accuracy * (c.state.n300 + c.state.n100 + c.state.n50) as real
  {
    var hits, combo := (c.state.n300 + c.state.n100 + c.state.n50) as real, c.attrs.maxCombo as real;
    QuotientIs(hits * combo, combo, hits);
  }

  /** Two stretches of combo share the hits. */
  lemma ObjectsAddUp(c: Calculator, a: real, b: real)
    requires c.attrs.maxCombo != 0
    ensures c.ObjectsPart(a) + c.ObjectsPart(b) == c.ObjectsPart(a + b)
  {
    var hits, combo := (c.state.n300 + c.state.n100 + c.state.n50) as real, c.attrs.maxCombo as real;
    SharesAddUp(hits, a, b, combo);
    var x, y, share := hits * a / combo, hits * b / combo, (300.0 + c.attrs.nestedScorePerObject) * c.accuracy;
    assert share * (x + y) == share * x + share * y;
  }

  lemma SharesAddUp(hits: real, a: real, b: real, combo: real)
    requires combo > 0.0
    ensures hits * a / combo + hits * b / combo == hits * (a + b) / combo
  {
    var x, y := hits * a / combo, hits * b / combo;
    assert x * combo == hits * a && y * combo == hits * b;
    QuotientIs(hits * (a + b), combo, x + y);
  }

  /** A perfect play of any map, sliders and spinners included, scores what the simulator gives for combo
      and hits, and the bonus of its spinners, provided that each slider has one tail. */
  lemma PerfectPlayScore(c: Calculator, objects: seq<OsuObject>, m: nat)
    requires m >= 1 && c.attrs == AttributesOf(objects, m) && c.attrs.maxCombo >= 3 && c.accuracy == 1.0
    requires c.state == ScoreState(c.attrs.maxCombo, |objects|, 0, 0, 0)
    requires Sum(objects, Tails) == Sum(objects, IsSlider)
    ensures var sim := Simulated(objects, m as real);
      c.ScoreAtCombo(c.attrs.maxCombo as real, RelevantComboPerObject(c.attrs), m as real * c.modMultiplier)
      == sim.comboScore * c.modMultiplier + sim.accuracyScore as real + Sum(objects, BonusOf) as real
  {
    hide RelevantComboPerObject, NestedTotal, ComboSeries, Simulated, PlainComboScore, Calculator.ObjectsPart;
    FullComboScore(c, objects, m);
    ObjectsAtFull(c);
    NestedAgrees(objects, m as real);
    var n, nested := |objects| as real, NestedPerObject(objects, |objects|);
    assert (300.0 + nested) * 1.0 * n == 300.0 * n + nested * n;
    NotEmpty(objects);
  }

  lemma NotEmpty(objects: seq<OsuObject>)
    ensures MaxCombo(objects) > 0 ==> |objects| > 0
  {}

  lemma PlainScaled(a: Attributes, m: nat, score: real)
    requires m >= 1 && a.legacyScoreBaseMultiplier == m as real && a.maximumLegacyComboScore == score >= 0.0
    ensures PlainComboScore(a) >= 0.0 && 12.0 * m as real * PlainComboScore(a) == score
  {
    var divisor := 12.0 * m as real;
    QuotientTimes(score, divisor, PlainComboScore(a));
  }

  lemma FullSeries(combo: real, score: real)
    requires combo >= 3.0 && score >= 0.0
    ensures RelevantCombo(combo, score) > 0.0 && ComboSeries(combo, RelevantCombo(combo, score)) == score
  {
    var d := combo + 2.0 * (score - 1.0);
    var r := RelevantCombo(combo, score);
    assert d >= 1.0 && r == (combo - 2.0) * combo / d;
    QuotientTimes((combo - 2.0) * combo, d, r);
    HitResults.MulLess(0.0, combo - 2.0, combo);
    PositiveQuotient((combo - 2.0) * combo, d);
    SeriesClosed(combo, r);
    FullQuotient(combo, d, r);
  }

  lemma QuotientTimes(a: real, b: real, q: real)
    requires b > 0.0 && q == a / b
    ensures q * b == a
  {}

  lemma PositiveQuotient(a: real, b: real)
    requires a > 0.0 && b > 0.0
    ensures a / b > 0.0
  {}

  lemma FullQuotient(combo: real, d: real, r: real)
    requires combo >= 3.0 && r > 0.0 && r * d == (combo - 2.0) * combo
    ensures (combo - 2.0) * (combo / r - 1.0) == d - (combo - 2.0)
  {
    var q := combo / r;
    assert q * r == combo;
    assert (combo - 2.0) * q * r == r * d;
    assert ((combo - 2.0) * q - d) * r == 0.0;
  }

  /** One more short slider: two more combo, judged at the end. */
  lemma ShortSlider(objects: seq<OsuObject>, m: nat)
    ensures var s := Slider([Tail]);
      && MaxCombo(objects + [s]) == MaxCombo(objects) + 2
      && Simulated(objects + [s], m as real).comboScore
         == Simulated(objects, m as real).comboScore + (12 * m * (MaxCombo(objects) + 1)) as real
  {
    hide ScoreBonus;
    var s := Slider([Tail]);
    assert (objects + [s])[..|objects|] == objects;
    SimulatedCombo(objects, m as real);
    BonusExact(MaxCombo(objects) + 2, m);
  }

  lemma ThreeSliders(m: nat)
    ensures var s := Slider([Tail]);
      && MaxCombo([s]) == 2 && Simulated([s], m as real).comboScore == (12 * m) as real
      && MaxCombo([s, s, s]) == 6 && Simulated([s, s, s], m as real).comboScore == (12 * m * 9) as real
  {
    var s := Slider([Tail]);
    NothingPlayed(m as real);
    hide MaxCombo, Simulated;
    assert [] + [s] == [s] && [s] + [s] == [s, s] && [s, s] + [s] == [s, s, s];
    ShortSlider([], m);
    ShortSlider([s], m);
    ShortSlider([s, s], m);
    SeriesStep(m, 1, 3);
    SeriesStep(m, 4, 5);
  }

  lemma NothingPlayed(multiplier: real)
    ensures MaxCombo([]) == 0 && Simulated([], multiplier).comboScore == 0.0
  {}

  /** In between it is an estimate: after the first of three short sliders the series still is 0, but
      the simulator has scored. */
  lemma SlidersDeviate(m: nat)
    requires m >= 1
    ensures var s := Slider([Tail]);
      var a := AttributesOf([s, s, s], m);
      && a.maxCombo == 6 && RelevantComboPerObject(a) > 0.0
      && ComboSeries(MaxCombo([s]) as real, RelevantComboPerObject(a)) == 0.0
      && Simulated([s], m as real).comboScore == (12 * m) as real
  {
    hide MaxCombo, Simulated, RelevantComboPerObject, PlainComboScore, ComboSeries, NestedTotal, Sum;
    var s := Slider([Tail]);
    var a := AttributesOf([s, s, s], m);
    ThreeSliders(m);
    PlainIsTriangle(a, m, 9);
    FullComboMatches(a);
    SeriesClosed(2.0, RelevantComboPerObject(a));
  }

  /** A perfect play of circles scores what the simulator gives it, and is estimated to have missed
      nothing. */
  lemma PerfectPlay(c: Calculator, objects: seq<OsuObject>, m: nat, legacyTotalScore: nat)
    requires (forall i | 0 <= i < |objects| :: objects[i].Circle?) && |objects| >= 3 && m >= 1
    requires c.Valid() && c.attrs == AttributesOf(objects, m) && c.accuracy == 1.0
    requires c.state == ScoreState(|objects|, |objects|, 0, 0, 0)
    ensures c.attrs.maxCombo == |objects|
    ensures var s := Simulated(objects, m as real);
      c.ScoreAtCombo(|objects| as real, RelevantComboPerObject(c.attrs), m as real * c.modMultiplier)
      == s.comboScore * c.modMultiplier + s.accuracyScore as real
    ensures c.Calculate(legacyTotalScore) == 0.0
  {
    hide RelevantComboPerObject, Simulated, Sum, Calculator.Calculate, Calculator.MaximumMissCount,
      Calculator.ComboPart, Calculator.ObjectsPart;
    var n := |objects|;
    ScoreMatchesSimulator(c, objects, m, n);
    assert objects[..n] == objects;
    SimulatedSeries(objects, m);
    NoTicks(objects);
    EstimateBounds(c, legacyTotalScore);
    MaximumMissBounds(c);
    PerfectObjects(c, n as real);
  }

  /** At full accuracy without nested objects, the part besides the combo is 300 for every object. */
  lemma PerfectObjects(c: Calculator, n: real)
    requires n > 0.0 && c.attrs.maxCombo as real == n && c.attrs.nestedScorePerObject == 0.0 && c.accuracy == 1.0
    requires (c.state.n300 + c.state.n100 + c.state.n50) as real == n && c.state.misses == 0
    ensures c.ObjectsPart(n) == 300.0 * n
  {
    Whole(n);
    var hits := (c.state.n300 + c.state.n100 + c.state.n50 + c.state.misses) as real - c.state.misses as real;
    assert hits == n && hits * n / n == n;
    assert c.ObjectsPart(n) == (300.0 + 0.0) * 1.0 * (hits * n / n);
  }

  lemma Whole(n: real)
    requires n > 0.0
    ensures n * n / n == n && 0.0 / n == 0.0
  {}

  lemma {:induction false} NoTicks(objects: seq<OsuObject>)
    requires forall i | 0 <= i < |objects| :: objects[i].Circle?
    ensures Sum(objects, BigTicks) == Sum(objects, SmallTicks) == Sum(objects, BonusOf) == Sum(objects, IsSlider) == 0
  {
    if objects != [] {
      NoTicks(objects[..|objects| - 1]);
    }
  }
}
