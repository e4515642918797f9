# Fuzzy stress engine — a Dafny model

This project models a Mamdani fuzzy inference engine. The engine turns two crisp inputs into a stress percentage and a stress category:

- screen time, in hours per day;
- room temperature, in degrees Celsius.

It works in three stages:

- **Fuzzification.** Piecewise-linear membership functions give each input a degree in three linguistic terms:
  - screen time: `rendah`, `sedang`, `tinggi`;
  - temperature: `dingin`, `nyaman`, `panas`.
- **Inference.** A fixed nine-rule table gives each rule a firing strength α, the MIN of its two antecedent degrees. Only rules with α > 0 are kept.
- **Defuzzification.** Each kept rule's output term is clipped at α. The clipped terms are combined with MAX. The result is the discrete centroid of that curve over z = 0, 1, …, 100. Fixed thresholds at 35 and 65 then name the category.

The repository holds three copies of this engine. The model keeps two of them apart:

- **The calculator engine.** The inline engine of the calculator component and the Python server module have the same membership functions, the same table R1..R9 and the same fallback of 50.
  - The membership functions of the two are identical, branch for branch, so they are modelled once, in module `Calculator`.
  - Module `Server` adds what only the Python module does: string tags, the loop-shaped `defuzzify` with its early return, and `calculate_stress`.
- **The utility engine** (module `FuzzyFunctions`). It builds its shapes from a generic trapezoid and triangle (module `Shapes`), with different breakpoints. It has its own rule table, which lists comfortable before cold and differs in two consequents. Its fallback is 0.

Shared vocabulary is in module `Mamdani`: terms, rules, the α filter and MAX aggregation. The 101-point sums are in module `Centroid`.

All arithmetic is over Dafny `real`, so every degree and every centroid is stated exactly. The weight z·μ(z) of one sample is written `Centroid.Scale`, as repeated addition. `Centroid.ScaleIsProduct` proves that it equals the product.

The main results:

- Every degree lies in [0, 1].
- The rule filter is exact and keeps table order.
- Aggregation does not depend on the order of the active rules.
- The centroid lies in [0, 100].
- Through the calculator engine, every real input pair fires a rule and gives a positive summed membership, so the fallback 50 is never reached.
- The utility engine fires a rule exactly when screen time lies in the open interval (0, 16) and temperature in (16, 35). Everywhere else it returns its fallback 0.
- The server module's own example, 5.5 hours at 25 degrees, gives exactly 50 and `Sedang`.

## Model

| member | source | states |
|---|---|---|
| `Calculator.ScreenLow` | fuzzy-visualizer/src/components/FuzzyStressCalculator.js:6-10 | The `rendah` screen-time degree is in [0, 1] for every real input. |
| `Calculator.ScreenMedium` | fuzzy-visualizer/src/components/FuzzyStressCalculator.js:11-16 | The `sedang` screen-time degree is in [0, 1] for every real input. |
| `Calculator.ScreenHigh` | fuzzy-visualizer/src/components/FuzzyStressCalculator.js:17-21 | The `tinggi` screen-time degree is in [0, 1] for every real input. |
| `Calculator.TempCold` | fuzzy-visualizer/src/components/FuzzyStressCalculator.js:25-29 | The `dingin` degree is in [0, 1] for every real input. |
| `Calculator.TempComfortable` | fuzzy-visualizer/src/components/FuzzyStressCalculator.js:30-35 | The `nyaman` degree is in [0, 1] for every real input. |
| `Calculator.TempHot` | fuzzy-visualizer/src/components/FuzzyStressCalculator.js:36-40 | The `panas` degree is in [0, 1] for every real input. |
| `Calculator.StressLow` | fuzzy-visualizer/src/components/FuzzyStressCalculator.js:44-48 | The `rendah` stress term is in [0, 1]. |
| `Calculator.StressMedium` | fuzzy-visualizer/src/components/FuzzyStressCalculator.js:49-53 | The `sedang` stress term is in [0, 1]. |
| `Calculator.StressHigh` | fuzzy-visualizer/src/components/FuzzyStressCalculator.js:54-58 | The `tinggi` stress term is in [0, 1]. |
| `Calculator.StressMu` | fuzzy-visualizer/src/components/FuzzyStressCalculator.js:43-59 | The output term named by a consequent is a degree in [0, 1]. |
| `Calculator.ScreenLowShape` | fuzzy-visualizer/src/components/FuzzyStressCalculator.js:6-10 | `rendah` is 1 up to 2 hours, 0 from 4 hours, and non-increasing. |
| `Calculator.ScreenHighShape` | fuzzy-visualizer/src/components/FuzzyStressCalculator.js:17-21 | `tinggi` is 0 up to 7 hours, 1 from 10 hours, and non-decreasing. |
| `Calculator.ScreenMediumShape` | fuzzy-visualizer/src/components/FuzzyStressCalculator.js:11-16 | `sedang` is positive exactly on (3, 8) and equals 1 exactly at 5.5. |
| `Calculator.TempColdShape` | fuzzy-visualizer/src/components/FuzzyStressCalculator.js:25-29 | `dingin` is 1 up to 18, 0 from 22, and non-increasing. |
| `Calculator.TempComfortableShape` | fuzzy-visualizer/src/components/FuzzyStressCalculator.js:30-35 | `nyaman` is positive exactly on (20, 28) and equals 1 exactly at 24. |
| `Calculator.TempHotShape` | fuzzy-visualizer/src/components/FuzzyStressCalculator.js:36-40 | `panas` is 0 up to 26, 1 from 30, and non-decreasing. |
| `Calculator.StressMirror` | fuzzy-visualizer/src/components/FuzzyStressCalculator.js:43-59 | `rendah` stress is `tinggi` reflected about 50; `sedang` is symmetric about 50 and equals 1 exactly there. |
| `Calculator.Peak` | fuzzy-visualizer/src/components/FuzzyStressCalculator.js:43-59 | Each stress term equals 1 at some sample point in 0..100. |
| `Calculator.ScreenDegrees` | fuzzy-visualizer/src/components/FuzzyStressCalculator.js:5-22 | For every real screen time, all three degrees are in [0, 1], and at least one and at most two of them are non-zero. |
| `Calculator.TempDegrees` | fuzzy-visualizer/src/components/FuzzyStressCalculator.js:24-41 | For every real temperature, all three degrees are in [0, 1], and at least one and at most two of them are non-zero. |
| `Calculator.TableLayout` | fuzzy-visualizer/src/components/FuzzyStressCalculator.js:63-73 | The nine rules cover every (screen time, temperature) pair exactly once, in lexicographic order, with no duplicates. |
| `Calculator.TableMonotone` | fuzzy-visualizer/src/components/FuzzyStressCalculator.js:63-73 | The consequent never decreases along screen time or along temperature, and every `tinggi` screen-time rule concludes `tinggi`. |
| `Calculator.RuleFor` | fuzzy-visualizer/src/components/FuzzyStressCalculator.js:63-73 | Every pair of antecedent terms has a rule in the table with exactly those antecedents. |
| `Calculator.EvaluateRules` | fuzzy-visualizer/src/components/FuzzyStressCalculator.js:62-81 | It returns exactly the table rules whose strength MIN(st, temp) is positive, with that strength attached and in order R1..R9. For degrees in [0, 1], each strength lies in (0, 1]. |
| `Calculator.Defuzzify` | fuzzy-visualizer/src/components/FuzzyStressCalculator.js:84-106 | It returns 50 for no rules and for a zero summed membership. Otherwise the result r satisfies r·Σμ = Σz·μ, so it is the weighted average of 0..100, and it lies in [0, 100]. |
| `Calculator.DefuzzifyOrderIndependent` | fuzzy-visualizer/src/components/FuzzyStressCalculator.js:93-99 | Permuting the active rules does not change the defuzzified stress. |
| `Calculator.FallbackUnreachable` | fuzzy-visualizer/src/components/FuzzyStressCalculator.js:495-517 | For every pair of real inputs, at least one rule fires and the summed membership is positive. |
| `Calculator.MaxClip` | fuzzy-visualizer/src/components/FuzzyStressCalculator.js:407-415 | The chart's inner loop computes the Mamdani aggregate at z. |
| `Calculator.ChartAbscissa` | fuzzy-visualizer/src/components/FuzzyStressCalculator.js:397-406 | On the range [0, 100] with 100 steps, the chart's i-th abscissa is exactly i. |
| `Calculator.AggregatedPoints` | fuzzy-visualizer/src/components/FuzzyStressCalculator.js:403-417 | The chart draws 101 points. Point i is (i, aggregate at i), the same curve that defuzzification sums. |
| `Calculator.Classify` | fuzzy-visualizer/src/components/FuzzyStressCalculator.js:519-523 | The category is `Rendah` iff stress < 35, `Sedang` iff 35 ≤ stress < 65, and `Tinggi` iff stress ≥ 65. |
| `Calculator.ClassifyMonotone` | fuzzy-visualizer/src/components/FuzzyStressCalculator.js:519-523 | A higher stress never gets a lower category. |
| `Server.RulesMatchCalculatorTable` | Server/fuzzy_logic.py:79-89 | Term tags are one-to-one. `RULES` spells out the calculator's table R1..R9, entry by entry, in the same order. |
| `Server.OutputMu` | Server/fuzzy_logic.py:121-126 | The output term picked by tag is a degree in [0, 1]. |
| `Server.OutputMuByTag` | Server/fuzzy_logic.py:121-126 | A term's own tag selects that term's membership function. Any tag other than "rendah" and "sedang" is evaluated as `tinggi`. |
| `Server.MembershipAt` | Server/fuzzy_logic.py:118-128 | The inner loop computes the aggregated curve at z. |
| `Server.Defuzzify` | Server/fuzzy_logic.py:110-135 | It returns 50 for an empty list. Otherwise its loop returns exactly the calculator's centroid, with 50 for a zero sum. The result is in [0, 100]. |
| `Server.CalculateStress` | Server/fuzzy_logic.py:142-174 | The reported memberships are the degrees the rules were evaluated on, and at least one rule is active. The summed membership is positive, the stress lies in [0, 100], and the category is `Rendah`, `Sedang` or `Tinggi` by the thresholds 35 and 65. |
| `Server.ExampleDegrees` | Server/fuzzy_logic.py:12-43 | At 5.5 hours `sedang` = 1 and the other screen-time degrees are 0. At 25 degrees `nyaman` = 0.75 and the others are 0. |
| `Server.ExampleActiveRules` | Server/fuzzy_logic.py:92-103 | With those degrees, the only active rule is (sedang, nyaman, sedang) with α = 0.75. |
| `Server.OnlyR5Fires` | Server/fuzzy_logic.py:79-89 | With those degrees, no other rule of the table has a positive strength. |
| `Server.SingleRuleCurve` | Server/fuzzy_logic.py:117-128 | The aggregated curve of that single rule is `sedang` clipped at 0.75. |
| `Server.ExampleCurveShape` | Server/fuzzy_logic.py:60-65 | That clipped curve is symmetric about 50 and has a positive summed membership. |
| `Server.ExampleCentroid` | Server/fuzzy_logic.py:130-135 | The centroid of that curve is exactly 50. |
| `Server.WorkedExample` | Server/fuzzy_logic.py:181-182 | `calculate_stress(5.5, 25)` gives stress 50, category `Sedang`, the single active rule R5 at 0.75, and the degrees above. |
| `Mamdani.Fire` | fuzzy-visualizer/src/components/FuzzyStressCalculator.js:75-80 | The filter returns no more rules than the table holds. Each returned rule carries its own strength, which is positive. |
| `Mamdani.FireSound` | Server/fuzzy_logic.py:92-103 | Every returned rule comes from the table. |
| `Mamdani.FireComplete` | Server/fuzzy_logic.py:92-103 | Every table rule with a positive strength is returned, with that strength. |
| `Mamdani.FireInTableOrder` | Server/fuzzy_logic.py:94-102 | For a table without duplicates, the returned rules appear in strictly increasing table position. So the output is a subsequence of the table with no rule repeated. |
| `Mamdani.Aggregate` | fuzzy-visualizer/src/components/FuzzyStressCalculator.js:91-99 | The MAX fold from 0 is non-negative and is at least every clipped term. It is either 0 or one of the clipped terms. |
| `Mamdani.AggregateBelowStrongest` | fuzzy-visualizer/src/components/FuzzyStressCalculator.js:93-99 | The aggregate never exceeds a bound on the rules' strengths, so it lies in [0, max α]. |
| `Mamdani.AggregateDominated` | fuzzy-visualizer/src/components/FuzzyStressCalculator.js:93-99 | Dropping rules never raises the aggregate. |
| `Mamdani.AggregateOrderIndependent` | fuzzy-visualizer/src/components/FuzzyStressCalculator.js:93-99 | Any permutation of the active rules gives the same aggregate. |
| `Mamdani.CurveNonNegative` | fuzzy-visualizer/src/components/FuzzyStressCalculator.js:89-99 | Every sample of an aggregated curve is non-negative. |
| `Mamdani.EmptyCurve` | fuzzy-visualizer/src/components/FuzzyStressCalculator.js:89-105 | With no active rule both sums vanish, so `defuzzify` takes its fallback. |
| `Mamdani.CurveOrderIndependent` | fuzzy-visualizer/src/components/FuzzyStressCalculator.js:89-103 | Permuting the active rules leaves both sums unchanged. |
| `Centroid.ScaleIsProduct` | fuzzy-visualizer/src/components/FuzzyStressCalculator.js:101 | The repeated-addition weight equals z·μ. |
| `Centroid.MomentBounds` | fuzzy-visualizer/src/components/FuzzyStressCalculator.js:89-103 | For a non-negative curve on 0..100, 0 ≤ Σz·μ ≤ 100·Σμ. |
| `Centroid.CentroidInRange` | fuzzy-visualizer/src/components/FuzzyStressCalculator.js:89-105 | For a non-negative curve, the ratio of the sums lies in [0, 100] whenever the denominator is non-zero, and it times the denominator gives back the numerator. |
| `Centroid.SymmetricTotals` | Server/fuzzy_logic.py:117-131 | For a curve symmetric about 50, Σz·μ = 50·Σμ. |
| `Centroid.SymmetricCentroid` | Server/fuzzy_logic.py:133-135 | A curve symmetric about 50 with a non-zero sum has its centroid at exactly 50. |
| `Shapes.Trapezoid` | fuzzy-visualizer/src/utils/fuzzyFunctions.js:4-10 | The trapezoid is in [0, 1] for any breakpoints. Its ramps are taken only strictly inside their intervals, so they never divide by zero. |
| `Shapes.Triangle` | fuzzy-visualizer/src/utils/fuzzyFunctions.js:13-18 | The triangle is in [0, 1] for any breakpoints, and its ramps never divide by zero. |
| `Shapes.TrapezoidShape` | fuzzy-visualizer/src/utils/fuzzyFunctions.js:4-10 | With a ≤ b ≤ c ≤ d, the trapezoid is positive exactly on (a, d), so it is 0 at degenerate shoulders too. It is 1 exactly on the plateau within (a, d). |
| `Shapes.TriangleShape` | fuzzy-visualizer/src/utils/fuzzyFunctions.js:13-18 | With a < b < c, the triangle is positive exactly on (a, c) and equals 1 exactly at b. |
| `FuzzyFunctions.ScreenDegrees` | fuzzy-visualizer/src/utils/fuzzyFunctions.js:21-25 | All screen-time degrees are in [0, 1], and at most two are non-zero. Some degree is non-zero iff 0 < x < 16. |
| `FuzzyFunctions.TempDegrees` | fuzzy-visualizer/src/utils/fuzzyFunctions.js:28-32 | All temperature degrees are in [0, 1], and at most two are non-zero. Some degree is non-zero iff 16 < x < 35. |
| `FuzzyFunctions.StressMu` | fuzzy-visualizer/src/utils/fuzzyFunctions.js:35-39 | Each stress term is a degree in [0, 1]. |
| `FuzzyFunctions.DegenerateEdges` | fuzzy-visualizer/src/utils/fuzzyFunctions.js:21-39 | Every screen-time degree vanishes at 0 and at 16, and every temperature degree at 16 and at 35. The outer stress terms vanish at 0 and at 100. |
| `FuzzyFunctions.Peak` | fuzzy-visualizer/src/utils/fuzzyFunctions.js:35-39 | Each stress term equals 1 at some sample point in 0..100. |
| `FuzzyFunctions.TableLayout` | fuzzy-visualizer/src/utils/fuzzyFunctions.js:43-89 | The nine rules cover every pair exactly once, grouped by screen time. Within a group the order is comfortable, cold, hot, and there are no duplicates. |
| `FuzzyFunctions.RuleFor` | fuzzy-visualizer/src/utils/fuzzyFunctions.js:43-89 | Every pair of antecedent terms has a rule in this table with exactly those antecedents. |
| `FuzzyFunctions.ConsequentsAgainstCalculator` | fuzzy-visualizer/src/utils/fuzzyFunctions.js:69-78 | This table's consequent differs from the calculator's exactly at (medium, hot) and (high, comfortable). At both, this table says `medium` and the calculator says `tinggi`. |
| `FuzzyFunctions.TableMonotoneInScreenTime` | fuzzy-visualizer/src/utils/fuzzyFunctions.js:43-89 | At a fixed temperature term, the consequent never decreases along screen time, and no high-screen-time rule concludes `low`. |
| `FuzzyFunctions.EvaluateRules` | fuzzy-visualizer/src/utils/fuzzyFunctions.js:42-92 | It returns exactly the listed rules whose condition is positive, with that condition attached and in listed order. For degrees in [0, 1], each condition is at most 1. |
| `FuzzyFunctions.Defuzzify` | fuzzy-visualizer/src/utils/fuzzyFunctions.js:95-122 | It returns 0 for no rules and for a zero summed membership. Otherwise the result r satisfies r·Σμ = Σz·μ, and it lies in [0, 100]. |
| `FuzzyFunctions.DefuzzifyOrderIndependent` | fuzzy-visualizer/src/utils/fuzzyFunctions.js:103-115 | Permuting the active rules does not change the result. |
| `FuzzyFunctions.MaxMembership` | fuzzy-visualizer/src/utils/fuzzyFunctions.js:101-115 | The inner loop computes the aggregated curve at z. |
| `FuzzyFunctions.DefuzzifyLoop` | fuzzy-visualizer/src/utils/fuzzyFunctions.js:95-122 | The loops accumulate exactly the two centroid sums. Their guarded ratio is the defuzzified stress. |
| `FuzzyFunctions.DefuzzifyFromTotals` | fuzzy-visualizer/src/utils/fuzzyFunctions.js:121 | The defuzzified stress is numerator / denominator when the denominator is positive, and 0 otherwise. |
| `FuzzyFunctions.FiresIffBothCovered` | fuzzy-visualizer/src/utils/fuzzyFunctions.js:42-91 | For degrees in [0, 1], some rule fires iff each input has a non-zero degree. |
| `FuzzyFunctions.DenominatorPositiveIffFired` | fuzzy-visualizer/src/utils/fuzzyFunctions.js:95-121 | For rules with positive strengths, the summed membership is positive iff the list is non-empty. |
| `FuzzyFunctions.FiresExactlyInsideBox` | fuzzy-visualizer/src/utils/fuzzyFunctions.js:21-32 | Some rule fires iff 0 < screen time < 16 and 16 < temperature < 35. At screen time 0 or 16, or at temperature 16 or 35, the active list is empty. |
| `FuzzyFunctions.DenominatorExactlyInsideBox` | fuzzy-visualizer/src/utils/fuzzyFunctions.js:95-121 | The summed membership is positive exactly inside that box. |
| `FuzzyFunctions.FallbackOutsideBox` | fuzzy-visualizer/src/utils/fuzzyFunctions.js:121 | Outside that box the stress is the fallback 0. |

## Left out

- React rendering is left out: sliders, membership charts, the rule panel, SVG path strings, colours, labels and `App.js`. It is presentation only; the one part of the chart that computes (its aggregated points) is modelled.
- `useState`/`useMemo` recomputation is left out. It is UI reactivity; the model composes the same three stages directly, as `Server.CalculateStress` does.
- IEEE-754 rounding is left out. All degrees, sums and ratios are exact reals. For example, the chart's `i / steps` scaling is exact, and `/ 2.5` carries no rounding.
- The category colours, backgrounds and range strings of `getStressCategory` are left out. Only the level is modelled.
- Python dictionaries keyed by tag are left out: a rule's terms are enum values, so an unknown key cannot occur. The one place where the Python code reads a tag, the output dispatch, is modelled with strings (`Server.OutputMu`).
- The `if __name__ == "__main__"` print is modelled only as the lemma `Server.WorkedExample`.
- Server endpoint plumbing is not part of this model.
- FuzzyFunctions.MaxMembership: the utility dispatch gives 0 for an output tag other than 'low', 'medium' or 'high'. Outputs are enum values here, so that branch is not modelled.
- Centroid sums use a repeated-addition weight, `Centroid.Scale`, in place of `z * membership`. `Centroid.ScaleIsProduct` proves that the two are equal for every sample point.
