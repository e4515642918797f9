/**
  The engine of the utility module: a second instance of the same Mamdani
  scheme, with its membership functions built from the generic trapezoid and
  triangle, its own rule table (listed comfortable before cold, two
  consequents that differ from the calculator's), and a fallback of 0 instead
  of 50 when the summed membership is not positive.
 */
module FuzzyFunctions {
  import opened Mamdani
  import Centroid
  import Shapes
  import Calculator

  // ----- Membership functions -----

  /**
    Degrees of a screen time: `low` = trapezoid(0, 0, 2, 4),
    `medium` = triangle(3, 5.5, 8), `high` = trapezoid(7, 10, 16, 16).
    At most two degrees are non-zero, and some degree is non-zero exactly
    strictly inside (0, 16): both degenerate shoulders give 0 at their edge.
   */
  function ScreenDegrees(x: real): (d: LevelDegrees)
    ensures d.InUnit()
    ensures d.NonZero() <= 2
    ensures d.NonZero() >= 1 <==> 0.0 < x < 16.0
  {
    Shapes.TrapezoidShape(x, 0.0, 0.0, 2.0, 4.0);
    Shapes.TriangleShape(x, 3.0, 5.5, 8.0);
    Shapes.TrapezoidShape(x, 7.0, 10.0, 16.0, 16.0);
    LevelDegrees(
      Shapes.Trapezoid(x, 0.0, 0.0, 2.0, 4.0),
      Shapes.Triangle(x, 3.0, 5.5, 8.0),
      Shapes.Trapezoid(x, 7.0, 10.0, 16.0, 16.0))
  }

  /**
    Degrees of a temperature: `cold` = trapezoid(16, 16, 18, 22),
    `comfortable` = triangle(20, 23, 26), `hot` = trapezoid(24, 28, 35, 35).
    At most two degrees are non-zero, and some degree is non-zero exactly
    strictly inside (16, 35).
   */
  function TempDegrees(x: real): (d: WarmthDegrees)
    ensures d.InUnit()
    ensures d.NonZero() <= 2
    ensures d.NonZero() >= 1 <==> 16.0 < x < 35.0
  {
    Shapes.TrapezoidShape(x, 16.0, 16.0, 18.0, 22.0);
    Shapes.TriangleShape(x, 20.0, 23.0, 26.0);
    Shapes.TrapezoidShape(x, 24.0, 28.0, 35.0, 35.0);
    WarmthDegrees(
      Shapes.Trapezoid(x, 16.0, 16.0, 18.0, 22.0),
      Shapes.Triangle(x, 20.0, 23.0, 26.0),
      Shapes.Trapezoid(x, 24.0, 28.0, 35.0, 35.0))
  }

  /**
    The stress terms: `low` = trapezoid(0, 0, 15, 30),
    `medium` = triangle(25, 45, 65), `high` = trapezoid(60, 80, 100, 100).
   */
  function StressMu(l: Level, z: real): (r: real)
    ensures 0.0 <= r <= 1.0
  {
    match l
    case Low => Shapes.Trapezoid(z, 0.0, 0.0, 15.0, 30.0)
    case Medium => Shapes.Triangle(z, 25.0, 45.0, 65.0)
    case High => Shapes.Trapezoid(z, 60.0, 80.0, 100.0, 100.0)
  }

  /**
    The degenerate shoulders: every input degree vanishes at screen time 0 and
    16 and at temperature 16 and 35, and the outer stress terms vanish at the
    ends 0 and 100 of the sampled range.
   */
  lemma DegenerateEdges()
    ensures ScreenDegrees(0.0) == LevelDegrees(0.0, 0.0, 0.0)
    ensures ScreenDegrees(16.0) == LevelDegrees(0.0, 0.0, 0.0)
    ensures TempDegrees(16.0) == WarmthDegrees(0.0, 0.0, 0.0)
    ensures TempDegrees(35.0) == WarmthDegrees(0.0, 0.0, 0.0)
    ensures StressMu(Low, 0.0) == 0.0 && StressMu(High, 100.0) == 0.0
  {
  }

  /** A sample point at which each stress term is fully on. */
  function Peak(l: Level): (z: int)
    ensures 0 <= z <= Centroid.Points && StressMu(l, z as real) == 1.0
  {
    match l
    case Low => 10
    case Medium => 45
    case High => 90
  }

  // ----- Rule table -----

  const Table: seq<Rule> := [
    Rule("ST Rendah & Suhu Nyaman", Low, Comfortable, Low),
    Rule("ST Rendah & Suhu Dingin", Low, Cold, Low),
    Rule("ST Rendah & Suhu Panas", Low, Hot, Medium),
    Rule("ST Sedang & Suhu Nyaman", Medium, Comfortable, Medium),
    Rule("ST Sedang & Suhu Dingin", Medium, Cold, Medium),
    Rule("ST Sedang & Suhu Panas", Medium, Hot, Medium),
    Rule("ST Tinggi & Suhu Nyaman", High, Comfortable, Medium),
    Rule("ST Tinggi & Suhu Dingin", High, Cold, High),
    Rule("ST Tinggi & Suhu Panas", High, Hot, High)
  ]

  /** Position of a temperature term within a screen-time group of the table. */
  function Slot(w: Warmth): (k: nat)
    ensures k < 3
  {
    match w
    case Comfortable => 0
    case Cold => 1
    case Hot => 2
  }

  /**
    The table lists every (screen time, temperature) pair exactly once,
    grouped by screen time and, within a group, comfortable, cold, hot; so its
    rules are pairwise distinct.
   */
  lemma TableLayout()
    ensures |Table| == 9
    ensures forall k :: 0 <= k < |Table| ==> 3 * Table[k].st.Rank() + Slot(Table[k].temp) == k
    ensures Distinct(Table)
  {
  }

  /** The rule of the table for a given pair of antecedent terms. */
  function RuleFor(s: Level, w: Warmth): (r: Rule)
    ensures r in Table && r.st == s && r.temp == w
  {
    match s
    case Low => (match w case Comfortable => Table[0] case Cold => Table[1] case Hot => Table[2])
    case Medium => (match w case Comfortable => Table[3] case Cold => Table[4] case Hot => Table[5])
    case High => (match w case Comfortable => Table[6] case Cold => Table[7] case Hot => Table[8])
  }

  /**
    Against the calculator's table R1..R9, the consequent for a pair of terms
    differs exactly at (`medium`, `hot`) and (`high`, `comfortable`), where this
    table concludes `medium` and the calculator `tinggi`.
   */
  lemma ConsequentsAgainstCalculator(s: Level, w: Warmth)
    ensures RuleFor(s, w).output != Calculator.RuleFor(s, w).output
      <==> (s, w) == (Medium, Hot) || (s, w) == (High, Comfortable)
    ensures RuleFor(s, w).output != Calculator.RuleFor(s, w).output
      ==> RuleFor(s, w).output == Medium && Calculator.RuleFor(s, w).output == High
  {
  }

  /**
    The consequent never decreases when screen time moves to a higher term,
    and no rule concludes `low` when screen time is `high`.
   */
  lemma TableMonotoneInScreenTime()
    ensures forall i, j ::
      && 0 <= i < |Table| && 0 <= j < |Table|
      && Table[i].temp == Table[j].temp
      && Table[i].st.Rank() <= Table[j].st.Rank()
      ==> Table[i].output.Rank() <= Table[j].output.Rank()
    ensures forall k :: 0 <= k < |Table| && Table[k].st == High ==> Table[k].output != Low
  {
  }

  // ----- Inference -----

  /**
    The listed rules whose firing strength (MIN of the two antecedent degrees)
    is positive, with that strength attached, in listed order.
   */
  function EvaluateRules(st: LevelDegrees, temp: WarmthDegrees): (r: seq<Fired>)
    ensures forall i :: 0 <= i < |r| ==>
      r[i].rule in Table && 0.0 < r[i].alpha == Strength(r[i].rule, st, temp)
    ensures forall k :: 0 <= k < |Table| && Strength(Table[k], st, temp) > 0.0 ==>
      Fired(Table[k], Strength(Table[k], st, temp)) in r
    ensures forall i, j :: 0 <= i < j < |r| ==> Pos(Table, r[i].rule) < Pos(Table, r[j].rule)
    ensures st.InUnit() && temp.InUnit() ==> forall i :: 0 <= i < |r| ==> r[i].alpha <= 1.0
  {
    TableLayout();
    FireSound(Table, st, temp);
    FireComplete(Table, st, temp);
    FireInTableOrder(Table, st, temp);
    Fire(Table, st, temp)
  }

  // ----- Defuzzification -----

  /** The aggregated stress curve of the active rules, sampled at integer z. */
  function StressCurve(rules: seq<Fired>): int -> real {
    Curve(rules, StressMu)
  }

  /**
    Centroid of the aggregated curve over z = 0..100 when its summed
    membership is positive, and 0 otherwise (in particular for no active rule).
   */
  function Defuzzify(rules: seq<Fired>): (r: real)
    ensures |rules| == 0 ==> r == 0.0
    ensures Centroid.Denominator(StressCurve(rules)) == 0.0 ==> r == 0.0
    ensures 0.0 <= r <= 100.0
    ensures Centroid.Denominator(StressCurve(rules)) != 0.0 ==>
      r * Centroid.Denominator(StressCurve(rules)) == Centroid.Numerator(StressCurve(rules))
  {
    var f := StressCurve(rules);
    CurveNonNegative(rules, StressMu);
    Centroid.CentroidInRange(f);
    if |rules| == 0 then EmptyCurve(rules, StressMu); 0.0
    else if Centroid.Denominator(f) > 0.0 then Centroid.Numerator(f) / Centroid.Denominator(f)
    else 0.0
  }

  /** The defuzzified stress does not depend on the order of the active rules. */
  lemma DefuzzifyOrderIndependent(rules: seq<Fired>, other: seq<Fired>)
    requires multiset(rules) == multiset(other)
    ensures Defuzzify(rules) == Defuzzify(other)
  {
    CurveOrderIndependent(rules, other, StressMu);
  }

  /** The inner loop of `defuzzify`: MAX over the active rules of MIN(strength, output term at z). */
  method MaxMembership(active: seq<Fired>, z: int) returns (m: real)
    ensures m == StressCurve(active)(z)
  {
    m := 0.0;
    var k := 0;
    while k < |active|
      invariant 0 <= k <= |active|
      invariant m == Aggregate(active[..k], StressMu, z as real)
    {
      var outputMembership := Min(active[k].alpha, StressMu(active[k].rule.output, z as real));
      AggregateExtend(active, k, StressMu, z as real);
      m := Max(m, outputMembership);
      k := k + 1;
    }
    AggregateWhole(active, StressMu, z as real);
  }

  /**
    The loops of `defuzzify`: for z = 0..100 the aggregated membership is
    accumulated into a weighted and a plain sum; the centroid when the plain
    sum is positive, else 0.
   */
  method DefuzzifyLoop(active: seq<Fired>) returns (stress: real)
    ensures stress == Defuzzify(active)
  {
    var f := StressCurve(active);
    var numerator, denominator := 0.0, 0.0;
    var z := 0;
    while z <= 100
      invariant 0 <= z <= 101
      invariant numerator == Centroid.Moment(f, 0, z)
      invariant denominator == Centroid.Sum(f, 0, z)
    {
      var maxMembership := MaxMembership(active, z);
      Centroid.AccumulateStep(f, z, numerator, denominator, maxMembership);
      numerator := numerator + (z as real) * maxMembership;
      denominator := denominator + maxMembership;
      z := z + 1;
    }
    Centroid.Totals(f, z, numerator, denominator);
    stress := if denominator > 0.0 then numerator / denominator else 0.0;
    DefuzzifyFromTotals(active, numerator, denominator);
  }

  /** Defuzzify is the centroid computed from the two totals, with 0 for a non-positive plain sum. */
  lemma DefuzzifyFromTotals(rules: seq<Fired>, num: real, den: real)
    requires num == Centroid.Numerator(StressCurve(rules)) && den == Centroid.Denominator(StressCurve(rules))
    ensures Defuzzify(rules) == if den > 0.0 then num / den else 0.0
  {
    if |rules| == 0 {
      EmptyCurve(rules, StressMu);
    }
  }

  // ----- Coverage -----

  /** For degrees in [0, 1], some rule fires exactly when each input has a non-zero degree. */
  lemma FiresIffBothCovered(st: LevelDegrees, temp: WarmthDegrees)
    requires st.InUnit() && temp.InUnit()
    ensures |EvaluateRules(st, temp)| >= 1 <==> st.NonZero() >= 1 && temp.NonZero() >= 1
  {
    if st.NonZero() >= 1 && temp.NonZero() >= 1 {
      CoveredFires(st, temp);
    }
    if |EvaluateRules(st, temp)| >= 1 {
      FiredCovered(st, temp);
    }
  }

  lemma CoveredFires(st: LevelDegrees, temp: WarmthDegrees)
    requires st.InUnit() && temp.InUnit()
    requires st.NonZero() >= 1 && temp.NonZero() >= 1
    ensures |EvaluateRules(st, temp)| >= 1
  {
    var s := if st.low > 0.0 then Low else if st.medium > 0.0 then Medium else High;
    var w := if temp.cold > 0.0 then Cold else if temp.comfortable > 0.0 then Comfortable else Hot;
    var r := RuleFor(s, w);
    assert Strength(r, st, temp) > 0.0;
    var k :| 0 <= k < |Table| && Table[k] == r;
    assert Fired(r, Strength(r, st, temp)) in EvaluateRules(st, temp);
  }

  lemma FiredCovered(st: LevelDegrees, temp: WarmthDegrees)
    requires |EvaluateRules(st, temp)| >= 1
    ensures st.NonZero() >= 1 && temp.NonZero() >= 1
  {
    var rules := EvaluateRules(st, temp);
    var s, w := rules[0].rule.st, rules[0].rule.temp;
    assert Strength(rules[0].rule, st, temp) > 0.0;
    assert st.Of(s) > 0.0 && temp.Of(w) > 0.0;
    assert st.NonZero() >= 1 by {
      match s
      case Low =>
      case Medium =>
      case High =>
    }
    assert temp.NonZero() >= 1 by {
      match w
      case Cold =>
      case Comfortable =>
      case Hot =>
    }
  }

  /**
    For rules that all fired, the summed membership of the aggregated curve is
    positive exactly when there is at least one of them.
   */
  lemma DenominatorPositiveIffFired(rules: seq<Fired>)
    requires forall i :: 0 <= i < |rules| ==> rules[i].alpha > 0.0
    ensures Centroid.Denominator(StressCurve(rules)) > 0.0 <==> |rules| >= 1
  {
    var f := StressCurve(rules);
    if |rules| >= 1 {
      var fired := rules[0];
      var z := Peak(fired.rule.output);
      assert Clip(fired, StressMu, z as real) > 0.0;
      assert f(z) == Aggregate(rules, StressMu, z as real);
      CurveNonNegative(rules, StressMu);
      Centroid.SumPositive(f, 0, Centroid.Points + 1, z);
    } else {
      EmptyCurve(rules, StressMu);
    }
  }

  /**
    Some rule fires exactly when both inputs lie strictly inside the box
    (0, 16) x (16, 35); outside it the list of active rules is empty.
   */
  lemma FiresExactlyInsideBox(screentime: real, temperature: real)
    ensures |EvaluateRules(ScreenDegrees(screentime), TempDegrees(temperature))| >= 1
      <==> 0.0 < screentime < 16.0 && 16.0 < temperature < 35.0
  {
    FiresIffBothCovered(ScreenDegrees(screentime), TempDegrees(temperature));
  }

  /** The summed membership of the aggregated curve is positive exactly inside the box. */
  lemma DenominatorExactlyInsideBox(screentime: real, temperature: real)
    ensures Centroid.Denominator(StressCurve(EvaluateRules(ScreenDegrees(screentime), TempDegrees(temperature)))) > 0.0
      <==> 0.0 < screentime < 16.0 && 16.0 < temperature < 35.0
  {
    var rules := EvaluateRules(ScreenDegrees(screentime), TempDegrees(temperature));
    FiresExactlyInsideBox(screentime, temperature);
    DenominatorPositiveIffFired(rules);
  }

  /** Outside the box the stress is the fallback 0. */
  lemma FallbackOutsideBox(screentime: real, temperature: real)
    requires !(0.0 < screentime < 16.0 && 16.0 < temperature < 35.0)
    ensures Defuzzify(EvaluateRules(ScreenDegrees(screentime), TempDegrees(temperature))) == 0.0
  {
    FiresExactlyInsideBox(screentime, temperature);
  }
}
