/**
  The fuzzy stress engine of the calculator component: nine hand-written
  membership functions, the rule table R1..R9, rule evaluation, centroid
  defuzzification with fallback 50, the aggregated curve drawn by the stress
  chart, and the stress category thresholds. The Python server module holds the
  same membership functions and the same table; what is particular to it is in
  module Server.
 */
module Calculator {
  import opened Mamdani
  import Centroid

  // ----- Screen time (hours) -----

  function ScreenLow(x: real): (r: real)
    ensures 0.0 <= r <= 1.0
  {
    if x <= 2.0 then 1.0
    else if x >= 4.0 then 0.0
    else (4.0 - x) / 2.0
  }

  function ScreenMedium(x: real): (r: real)
    ensures 0.0 <= r <= 1.0
  {
    if x <= 3.0 then 0.0
    else if x <= 5.5 then (x - 3.0) / 2.5
    else if x <= 8.0 then (8.0 - x) / 2.5
    else 0.0
  }

  function ScreenHigh(x: real): (r: real)
    ensures 0.0 <= r <= 1.0
  {
    if x <= 7.0 then 0.0
    else if x >= 10.0 then 1.0
    else (x - 7.0) / 3.0
  }

  // ----- Temperature (degrees Celsius) -----

  function TempCold(x: real): (r: real)
    ensures 0.0 <= r <= 1.0
  {
    if x <= 18.0 then 1.0
    else if x >= 22.0 then 0.0
    else (22.0 - x) / 4.0
  }

  function TempComfortable(x: real): (r: real)
    ensures 0.0 <= r <= 1.0
  {
    if x <= 20.0 || x >= 28.0 then 0.0
    else if x <= 24.0 then (x - 20.0) / 4.0
    else if x <= 28.0 then (28.0 - x) / 4.0
    else 0.0
  }

  function TempHot(x: real): (r: real)
    ensures 0.0 <= r <= 1.0
  {
    if x <= 26.0 then 0.0
    else if x >= 30.0 then 1.0
    else (x - 26.0) / 4.0
  }

  // ----- Stress (percent) -----

  function StressLow(z: real): (r: real)
    ensures 0.0 <= r <= 1.0
  {
    if z <= 20.0 then 1.0
    else if z >= 40.0 then 0.0
    else (40.0 - z) / 20.0
  }

  function StressMedium(z: real): (r: real)
    ensures 0.0 <= r <= 1.0
  {
    if z <= 30.0 || z >= 70.0 then 0.0
    else if z <= 50.0 then (z - 30.0) / 20.0
    else (70.0 - z) / 20.0
  }

  function StressHigh(z: real): (r: real)
    ensures 0.0 <= r <= 1.0
  {
    if z <= 60.0 then 0.0
    else if z >= 80.0 then 1.0
    else (z - 60.0) / 20.0
  }

  /** The stress output term named by a rule's consequent. */
  function StressMu(l: Level, z: real): (r: real)
    ensures 0.0 <= r <= 1.0
  {
    match l
    case Low => StressLow(z)
    case Medium => StressMedium(z)
    case High => StressHigh(z)
  }

  // ----- Shapes of the membership functions -----

  /** `rendah` screen time: full up to 2 hours, none from 4 hours, never rising. */
  lemma ScreenLowShape(x: real, y: real)
    ensures x <= 2.0 ==> ScreenLow(x) == 1.0
    ensures x >= 4.0 ==> ScreenLow(x) == 0.0
    ensures x <= y ==> ScreenLow(y) <= ScreenLow(x)
  {
  }

  /** `tinggi` screen time: none up to 7 hours, full from 10 hours, never falling. */
  lemma ScreenHighShape(x: real, y: real)
    ensures x <= 7.0 ==> ScreenHigh(x) == 0.0
    ensures x >= 10.0 ==> ScreenHigh(x) == 1.0
    ensures x <= y ==> ScreenHigh(x) <= ScreenHigh(y)
  {
  }

  /** `sedang` screen time: positive exactly on (3, 8), full exactly at 5.5 hours. */
  lemma ScreenMediumShape(x: real)
    ensures ScreenMedium(x) > 0.0 <==> 3.0 < x < 8.0
    ensures ScreenMedium(x) == 1.0 <==> x == 5.5
  {
  }

  /** `dingin`: full up to 18 degrees, none from 22, never rising. */
  lemma TempColdShape(x: real, y: real)
    ensures x <= 18.0 ==> TempCold(x) == 1.0
    ensures x >= 22.0 ==> TempCold(x) == 0.0
    ensures x <= y ==> TempCold(y) <= TempCold(x)
  {
  }

  /** `nyaman`: positive exactly on (20, 28), full exactly at 24 degrees. */
  lemma TempComfortableShape(x: real)
    ensures TempComfortable(x) > 0.0 <==> 20.0 < x < 28.0
    ensures TempComfortable(x) == 1.0 <==> x == 24.0
  {
  }

  /** `panas`: none up to 26 degrees, full from 30, never falling. */
  lemma TempHotShape(x: real, y: real)
    ensures x <= 26.0 ==> TempHot(x) == 0.0
    ensures x >= 30.0 ==> TempHot(x) == 1.0
    ensures x <= y ==> TempHot(x) <= TempHot(y)
  {
  }

  /**
    The stress terms mirror each other about 50: `rendah` is `tinggi` reflected
    and `sedang` is symmetric, with its peak at 50.
   */
  lemma StressMirror(z: real)
    ensures StressLow(z) == StressHigh(100.0 - z)
    ensures StressMedium(z) == StressMedium(100.0 - z)
    ensures StressMedium(z) == 1.0 <==> z == 50.0
  {
  }

  /** A sample point at which each stress term is fully on. */
  function Peak(l: Level): (z: int)
    ensures 0 <= z <= Centroid.Points && StressMu(l, z as real) == 1.0
  {
    match l
    case Low => 10
    case Medium => 50
    case High => 90
  }

  // ----- Fuzzification -----

  /**
    Degrees of a screen time in `rendah`, `sedang` and `tinggi`. Every real
    input has at least one and at most two non-zero degrees.
   */
  function ScreenDegrees(x: real): (d: LevelDegrees)
    ensures d.InUnit()
    ensures 1 <= d.NonZero() <= 2
  {
    LevelDegrees(ScreenLow(x), ScreenMedium(x), ScreenHigh(x))
  }

  /**
    Degrees of a temperature in `dingin`, `nyaman` and `panas`. Every real
    input has at least one and at most two non-zero degrees.
   */
  function TempDegrees(x: real): (d: WarmthDegrees)
    ensures d.InUnit()
    ensures 1 <= d.NonZero() <= 2
  {
    WarmthDegrees(TempCold(x), TempComfortable(x), TempHot(x))
  }

  // ----- Rule table -----

  const Table: seq<Rule> := [
    Rule("R1", Low, Cold, Low),
    Rule("R2", Low, Comfortable, Low),
    Rule("R3", Low, Hot, Medium),
    Rule("R4", Medium, Cold, Medium),
    Rule("R5", Medium, Comfortable, Medium),
    Rule("R6", Medium, Hot, High),
    Rule("R7", High, Cold, High),
    Rule("R8", High, Comfortable, High),
    Rule("R9", High, Hot, High)
  ]

  /**
    The table lists every (screen time, temperature) pair exactly once, in
    lexicographic order of the terms, so its rules are pairwise distinct.
   */
  lemma TableLayout()
    ensures |Table| == 9
    ensures forall k :: 0 <= k < |Table| ==> 3 * Table[k].st.Rank() + Table[k].temp.Rank() == k
    ensures Distinct(Table)
  {
  }

  /**
    The consequent never decreases when screen time or temperature moves to a
    higher term, and every `tinggi` screen-time rule concludes `tinggi` stress.
   */
  lemma TableMonotone()
    ensures forall i, j ::
      && 0 <= i < |Table| && 0 <= j < |Table|
      && Table[i].st.Rank() <= Table[j].st.Rank()
      && Table[i].temp.Rank() <= Table[j].temp.Rank()
      ==> Table[i].output.Rank() <= Table[j].output.Rank()
    ensures forall k :: 0 <= k < |Table| && Table[k].st == High ==> Table[k].output == High
  {
  }

  /** The rule of the table for a given pair of antecedent terms. */
  function RuleFor(s: Level, w: Warmth): (r: Rule)
    ensures r in Table && r.st == s && r.temp == w
  {
    TableLayout();
    Table[3 * s.Rank() + w.Rank()]
  }

  // ----- Inference -----

  /**
    The rules of the table whose firing strength (MIN of the two antecedent
    degrees) is positive, with that strength attached, in the order R1..R9.
   */
  function EvaluateRules(st: LevelDegrees, temp: WarmthDegrees): (r: seq<Fired>)
    ensures forall i :: 0 <= i < |r| ==>
      r[i].rule in Table && 0.0 < r[i].alpha == Strength(r[i].rule, st, temp)
    ensures forall k :: 0 <= k < |Table| && Strength(Table[k], st, temp) > 0.0 ==>
      Fired(Table[k], Strength(Table[k], st, temp)) in r
    ensures forall i, j :: 0 <= i < j < |r| ==> Pos(Table, r[i].rule) < Pos(Table, r[j].rule)
    ensures st.InUnit() && temp.InUnit() ==> forall i :: 0 <= i < |r| ==> r[i].alpha <= 1.0
  {
    TableLayout();
    FireComplete(Table, st, temp);
    FireInTableOrder(Table, st, temp);
    Fire(Table, st, temp)
  }

  // ----- Defuzzification -----

  /** The aggregated stress curve of the active rules, sampled at integer z. */
  function StressCurve(rules: seq<Fired>): int -> real {
    Curve(rules, StressMu)
  }

  /**
    Centroid of the aggregated curve over z = 0..100, or 50 when its summed
    membership is 0 (in particular when no rule is active).
   */
  function Defuzzify(rules: seq<Fired>): (r: real)
    ensures |rules| == 0 ==> r == 50.0
    ensures Centroid.Denominator(StressCurve(rules)) == 0.0 ==> r == 50.0
    ensures 0.0 <= r <= 100.0
    ensures Centroid.Denominator(StressCurve(rules)) != 0.0 ==>
      r * Centroid.Denominator(StressCurve(rules)) == Centroid.Numerator(StressCurve(rules))
  {
    var f := StressCurve(rules);
    CurveNonNegative(rules, StressMu);
    Centroid.CentroidInRange(f);
    if |rules| == 0 then EmptyCurve(rules, StressMu); 50.0
    else if Centroid.Denominator(f) == 0.0 then 50.0
    else Centroid.Numerator(f) / Centroid.Denominator(f)
  }

  /** The defuzzified stress does not depend on the order of the active rules. */
  lemma DefuzzifyOrderIndependent(rules: seq<Fired>, other: seq<Fired>)
    requires multiset(rules) == multiset(other)
    ensures Defuzzify(rules) == Defuzzify(other)
  {
    CurveOrderIndependent(rules, other, StressMu);
  }

  /**
    For every pair of crisp inputs at least one rule fires and the aggregated
    curve has a positive summed membership, so the fallback 50 is never used.
   */
  lemma FallbackUnreachable(screentime: real, temperature: real)
    ensures |EvaluateRules(ScreenDegrees(screentime), TempDegrees(temperature))| >= 1
    ensures Centroid.Denominator(StressCurve(EvaluateRules(ScreenDegrees(screentime), TempDegrees(temperature)))) > 0.0
  {
    var st, temp := ScreenDegrees(screentime), TempDegrees(temperature);
    var s: Level :| st.Of(s) > 0.0;
    var w: Warmth :| temp.Of(w) > 0.0;
    var rule := RuleFor(s, w);
    TableLayout();
    var k := 3 * s.Rank() + w.Rank();
    var rules := EvaluateRules(st, temp);
    assert Fired(Table[k], Strength(Table[k], st, temp)) in rules;
    var fired := rules[0];
    var z := Peak(fired.rule.output);
    var f := StressCurve(rules);
    assert Clip(fired, StressMu, z as real) > 0.0;
    assert f(z) == Aggregate(rules, StressMu, z as real);
    CurveNonNegative(rules, StressMu);
    Centroid.SumPositive(f, 0, Centroid.Points + 1, z);
  }

  // ----- Stress chart -----

  /** One point of the aggregated curve drawn by the stress chart. */
  datatype Point = Point(x: real, y: real)

  /** MAX over the active rules of the clipped output term at z, as the chart and defuzzify loops compute it. */
  method MaxClip(rules: seq<Fired>, z: real) returns (m: real)
    ensures m == Aggregate(rules, StressMu, z)
  {
    m := 0.0;
    var k := 0;
    while k < |rules|
      invariant 0 <= k <= |rules|
      invariant m == Aggregate(rules[..k], StressMu, z)
    {
      AggregateExtend(rules, k, StressMu, z);
      m := Max(m, Clip(rules[k], StressMu, z));
      k := k + 1;
    }
    AggregateWhole(rules, StressMu, z);
  }

  /** On the stress axis from 0 to 100 in 100 steps, the i-th abscissa is exactly i. */
  lemma ChartAbscissa(lo: real, hi: real, steps: int, i: int)
    requires lo == 0.0 && hi == 100.0 && steps == 100
    ensures lo + (hi - lo) * ((i as real) / (steps as real)) == i as real
  {
  }

  /**
    The 101 points of the aggregated curve drawn by the stress chart. The
    abscissa 0 + (100 - 0) * (i / 100) is exactly i, and each ordinate is the
    aggregate that defuzzification sums.
   */
  method AggregatedPoints(rules: seq<Fired>) returns (pts: seq<Point>)
    ensures |pts| == Centroid.Points + 1
    ensures forall i :: 0 <= i < |pts| ==> pts[i].x == i as real && pts[i].y == StressCurve(rules)(i)
  {
    var lo, hi := 0.0, 100.0;
    var steps := 100;
    pts := [];
    var i := 0;
    while i <= steps
      invariant 0 <= i <= steps + 1
      invariant |pts| == i
      invariant forall k :: 0 <= k < i ==> pts[k].x == k as real && pts[k].y == StressCurve(rules)(k)
    {
      var z := lo + (hi - lo) * ((i as real) / (steps as real));
      ChartAbscissa(lo, hi, steps, i);
      var m := MaxClip(rules, z);
      pts := pts + [Point(z, m)];
      i := i + 1;
    }
  }

  // ----- Category -----

  /** The stress category: `Rendah` below 35, `Sedang` from 35 below 65, `Tinggi` from 65. */
  function Classify(stress: real): (c: Level)
    ensures c == Low <==> stress < 35.0
    ensures c == Medium <==> 35.0 <= stress < 65.0
    ensures c == High <==> 65.0 <= stress
  {
    if stress < 35.0 then Low
    else if stress < 65.0 then Medium
    else High
  }

  /** A higher stress never gets a lower category. */
  lemma ClassifyMonotone(s: real, t: real)
    requires s <= t
    ensures Classify(s).Rank() <= Classify(t).Rank()
  {
  }
}
