/**
  What the Python server module adds to the calculator's engine: rules and
  active rules carry their terms as string tags, `defuzzify` returns 50 early
  for an empty list and picks the output term by comparing tags, and
  `calculate_stress` composes fuzzification, inference, defuzzification and
  the category into one result.
 */
module Server {
  import opened Mamdani
  import Centroid
  import Calculator

  /** The tag the server uses for a screen-time or stress term. */
  function LevelTag(l: Level): string {
    match l
    case Low => "rendah"
    case Medium => "sedang"
    case High => "tinggi"
  }

  /** The tag the server uses for a temperature term. */
  function WarmthTag(w: Warmth): string {
    match w
    case Cold => "dingin"
    case Comfortable => "nyaman"
    case Hot => "panas"
  }

  /** The server's rule table: (screen-time tag, temperature tag, output tag). */
  const Rules: seq<(string, string, string)> := [
    ("rendah", "dingin", "rendah"),
    ("rendah", "nyaman", "rendah"),
    ("rendah", "panas", "sedang"),
    ("sedang", "dingin", "sedang"),
    ("sedang", "nyaman", "sedang"),
    ("sedang", "panas", "tinggi"),
    ("tinggi", "dingin", "tinggi"),
    ("tinggi", "nyaman", "tinggi"),
    ("tinggi", "panas", "tinggi")
  ]

  /**
    Distinct terms have distinct tags, and the server's table spells out the
    calculator's table R1..R9, entry by entry and in the same order.
   */
  lemma RulesMatchCalculatorTable()
    ensures forall l, l' :: LevelTag(l) == LevelTag(l') ==> l == l'
    ensures forall w, w' :: WarmthTag(w) == WarmthTag(w') ==> w == w'
    ensures |Rules| == |Calculator.Table|
    ensures forall k :: 0 <= k < |Rules| ==>
      Rules[k] == (LevelTag(Calculator.Table[k].st), WarmthTag(Calculator.Table[k].temp), LevelTag(Calculator.Table[k].output))
  {
  }

  /**
    The output term picked by tag: "rendah", then "sedang", and any other tag
    falls through to `tinggi`.
   */
  function OutputMu(tag: string, z: real): (r: real)
    ensures 0.0 <= r <= 1.0
  {
    if tag == "rendah" then Calculator.StressLow(z)
    else if tag == "sedang" then Calculator.StressMedium(z)
    else Calculator.StressHigh(z)
  }

  /**
    Picking the output term by its tag gives the calculator's output term, and
    every tag other than "rendah" and "sedang" is read as `tinggi`.
   */
  lemma OutputMuByTag(l: Level, tag: string, z: real)
    ensures OutputMu(LevelTag(l), z) == Calculator.StressMu(l, z)
    ensures tag != "rendah" && tag != "sedang" ==> OutputMu(tag, z) == Calculator.StressMu(High, z)
  {
  }

  /** The inner loop of the server's `defuzzify`: MAX over the rules of MIN(condition, output term by tag at z). */
  method MembershipAt(active: seq<Fired>, z: int) returns (membership: real)
    ensures membership == Calculator.StressCurve(active)(z)
  {
    membership := 0.0;
    var k := 0;
    while k < |active|
      invariant 0 <= k <= |active|
      invariant membership == Aggregate(active[..k], Calculator.StressMu, z as real)
    {
      var rule := active[k];
      var outMu := OutputMu(LevelTag(rule.rule.output), z as real);
      OutputMuByTag(rule.rule.output, "", z as real);
      AggregateExtend(active, k, Calculator.StressMu, z as real);
      membership := Max(membership, Min(rule.alpha, outMu));
      k := k + 1;
    }
    AggregateWhole(active, Calculator.StressMu, z as real);
  }

  /**
    The server's `defuzzify`: 50 for an empty list; otherwise, for z = 0..100,
    the aggregated membership is accumulated into a weighted and a plain sum,
    with 50 for a zero plain sum. It computes exactly the calculator's
    defuzzification.
   */
  method Defuzzify(active: seq<Fired>) returns (level: real)
    ensures level == Calculator.Defuzzify(active)
    ensures |active| == 0 ==> level == 50.0
    ensures 0.0 <= level <= 100.0
  {
    if |active| == 0 {
      return 50.0;
    }
    var f := Calculator.StressCurve(active);
    var numerator, denominator := 0.0, 0.0;
    var z := 0;
    while z < 101
      invariant 0 <= z <= 101
      invariant numerator == Centroid.Moment(f, 0, z)
      invariant denominator == Centroid.Sum(f, 0, z)
    {
      var membership := MembershipAt(active, z);
      Centroid.AccumulateStep(f, z, numerator, denominator, membership);
      numerator := numerator + (z as real) * membership;
      denominator := denominator + membership;
      z := z + 1;
    }
    if denominator == 0.0 {
      level := 50.0;
    } else {
      level := numerator / denominator;
    }
    Centroid.Totals(f, z, numerator, denominator);
  }

  /** The dictionary `calculate_stress` returns. */
  datatype StressResult = StressResult(
    stressValue: real,
    category: Level,
    activeRules: seq<Fired>,
    screentime: LevelDegrees,
    temperature: WarmthDegrees)

  /**
    `calculate_stress`: fuzzify both inputs, evaluate the rules, defuzzify and
    classify. The memberships reported are exactly the ones the rules were
    evaluated on; at least one rule is always active and the summed membership
    is positive, so the stress is a true centroid in [0, 100].
   */
  function CalculateStress(screentime: real, temperature: real): (res: StressResult)
    ensures res.screentime == Calculator.ScreenDegrees(screentime)
    ensures res.temperature == Calculator.TempDegrees(temperature)
    ensures res.activeRules == Calculator.EvaluateRules(res.screentime, res.temperature)
    ensures |res.activeRules| >= 1
    ensures Centroid.Denominator(Calculator.StressCurve(res.activeRules)) > 0.0
    ensures res.stressValue == Calculator.Defuzzify(res.activeRules)
    ensures 0.0 <= res.stressValue <= 100.0
    ensures res.category == Low <==> res.stressValue < 35.0
    ensures res.category == Medium <==> 35.0 <= res.stressValue < 65.0
    ensures res.category == High <==> 65.0 <= res.stressValue
  {
    var st := Calculator.ScreenDegrees(screentime);
    var temp := Calculator.TempDegrees(temperature);
    var active := Calculator.EvaluateRules(st, temp);
    Calculator.FallbackUnreachable(screentime, temperature);
    var level := Calculator.Defuzzify(active);
    StressResult(level, Calculator.Classify(level), active, st, temp)
  }

  /** At 5.5 hours the screen time is fully `sedang`; at 25 degrees the temperature is `nyaman` to degree 0.75. */
  lemma ExampleDegrees()
    ensures Calculator.ScreenDegrees(5.5) == LevelDegrees(0.0, 1.0, 0.0)
    ensures Calculator.TempDegrees(25.0) == WarmthDegrees(0.0, 0.75, 0.0)
  {
  }

  /** With those degrees only R5 fires, with strength 0.75. */
  lemma ExampleActiveRules()
    ensures Calculator.EvaluateRules(LevelDegrees(0.0, 1.0, 0.0), WarmthDegrees(0.0, 0.75, 0.0))
      == [Fired(Calculator.Table[4], 0.75)]
  {
    var st := LevelDegrees(0.0, 1.0, 0.0);
    var temp := WarmthDegrees(0.0, 0.75, 0.0);
    var active := Calculator.EvaluateRules(st, temp);
    var r5 := Fired(Calculator.Table[4], 0.75);
    Calculator.TableLayout();
    assert Strength(Calculator.Table[4], st, temp) == 0.75;
    assert r5 in active;
    forall i | 0 <= i < |active| ensures active[i] == r5 {
      OnlyR5Fires(active[i].rule);
    }
    if |active| > 1 {
      assert false;
    }
  }

  /** R5 is the only rule of the table with a positive strength at those degrees. */
  lemma OnlyR5Fires(r: Rule)
    requires r in Calculator.Table
    requires Strength(r, LevelDegrees(0.0, 1.0, 0.0), WarmthDegrees(0.0, 0.75, 0.0)) > 0.0
    ensures r == Calculator.Table[4]
  {
  }

  /** The aggregated curve of R5 alone at strength 0.75 is `sedang` clipped at 0.75. */
  lemma SingleRuleCurve(z: int)
    ensures Calculator.StressCurve([Fired(Calculator.Table[4], 0.75)])(z)
      == Min(0.75, Calculator.StressMedium(z as real))
  {
    var active := [Fired(Calculator.Table[4], 0.75)];
    assert active[..0] == [];
    assert Calculator.Table[4].output == Medium;
  }

  /** The curve of R5 clipped at 0.75 is symmetric about 50 and has a positive summed membership. */
  lemma ExampleCurveShape()
    ensures Centroid.Mirrored(Calculator.StressCurve([Fired(Calculator.Table[4], 0.75)]))
    ensures Centroid.Denominator(Calculator.StressCurve([Fired(Calculator.Table[4], 0.75)])) > 0.0
  {
    var active := [Fired(Calculator.Table[4], 0.75)];
    var f := Calculator.StressCurve(active);
    forall z | 0 <= z <= Centroid.Points ensures f(z) == f(Centroid.Mirror(z)) {
      Calculator.StressMirror(z as real);
      SingleRuleCurve(z);
      SingleRuleCurve(Centroid.Points - z);
    }
    SingleRuleCurve(50);
    CurveNonNegative(active, Calculator.StressMu);
    Centroid.SumPositive(f, 0, Centroid.Points + 1, 50);
  }

  /** So the centroid of that curve is exactly 50. */
  lemma ExampleCentroid()
    ensures Calculator.Defuzzify([Fired(Calculator.Table[4], 0.75)]) == 50.0
  {
    ExampleCurveShape();
    Centroid.SymmetricCentroid(Calculator.StressCurve([Fired(Calculator.Table[4], 0.75)]));
  }

  /**
    The module's own example, 5.5 hours at 25 degrees: `sedang` is 1 and
    `nyaman` 0.75, only R5 fires with strength 0.75, its clipped curve is
    symmetric about 50, so the stress is exactly 50 and the category `Sedang`.
   */
  lemma WorkedExample()
    ensures CalculateStress(5.5, 25.0) == StressResult(
      50.0, Medium, [Fired(Calculator.Table[4], 0.75)],
      LevelDegrees(0.0, 1.0, 0.0), WarmthDegrees(0.0, 0.75, 0.0))
  {
    ExampleDegrees();
    ExampleActiveRules();
    ExampleCentroid();
  }
}
