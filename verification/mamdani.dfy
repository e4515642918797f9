/**
  Vocabulary shared by every copy of the fuzzy stress engine: the linguistic
  terms, fuzzified inputs, rules and fired rules, the MIN firing strength, the
  filter that keeps the rules with a positive firing strength, and the Mamdani
  aggregation (MAX over rules of the output term clipped at the rule's strength).
 */
module Mamdani {

  import Centroid

  /** The three terms of screen time and of stress: "rendah", "sedang", "tinggi". */
  datatype Level = Low | Medium | High {
    function Rank(): nat {
      match this
      case Low => 0
      case Medium => 1
      case High => 2
    }
  }

  /** The three terms of room temperature: "dingin", "nyaman", "panas". */
  datatype Warmth = Cold | Comfortable | Hot {
    function Rank(): nat {
      match this
      case Cold => 0
      case Comfortable => 1
      case Hot => 2
    }
  }

  /** A fuzzified screen-time value: its degree in each of the three terms. */
  datatype LevelDegrees = LevelDegrees(low: real, medium: real, high: real) {
    function Of(l: Level): real {
      match l
      case Low => low
      case Medium => medium
      case High => high
    }

    predicate InUnit() {
      0.0 <= low <= 1.0 && 0.0 <= medium <= 1.0 && 0.0 <= high <= 1.0
    }

    /** How many of the three degrees are non-zero. */
    function NonZero(): nat {
      (if low != 0.0 then 1 else 0) + (if medium != 0.0 then 1 else 0) + (if high != 0.0 then 1 else 0)
    }
  }

  /** A fuzzified temperature value: its degree in each of the three terms. */
  datatype WarmthDegrees = WarmthDegrees(cold: real, comfortable: real, hot: real) {
    function Of(w: Warmth): real {
      match w
      case Cold => cold
      case Comfortable => comfortable
      case Hot => hot
    }

    predicate InUnit() {
      0.0 <= cold <= 1.0 && 0.0 <= comfortable <= 1.0 && 0.0 <= hot <= 1.0
    }

    function NonZero(): nat {
      (if cold != 0.0 then 1 else 0) + (if comfortable != 0.0 then 1 else 0) + (if hot != 0.0 then 1 else 0)
    }
  }

  /** One row of a rule table: IF screen time is `st` AND temperature is `temp` THEN stress is `output`. */
  datatype Rule = Rule(name: string, st: Level, temp: Warmth, output: Level)

  /** A rule that fired, with its firing strength (the `condition` field of the source). */
  datatype Fired = Fired(rule: Rule, alpha: real)

  function Min(a: real, b: real): real {
    if a <= b then a else b
  }

  function Max(a: real, b: real): real {
    if a >= b then a else b
  }

  /** Firing strength of a rule: the MIN of its two antecedent degrees. */
  function Strength(r: Rule, st: LevelDegrees, temp: WarmthDegrees): real {
    Min(st.Of(r.st), temp.Of(r.temp))
  }

  predicate Distinct(table: seq<Rule>) {
    forall i, j :: 0 <= i < j < |table| ==> table[i] != table[j]
  }

  /** Index of the first occurrence of `x` in `table`. */
  function Pos(table: seq<Rule>, x: Rule): (k: nat)
    requires x in table
    ensures k < |table| && table[k] == x
  {
    if table[0] == x then 0 else 1 + Pos(table[1..], x)
  }

  /**
    The rules of `table` whose firing strength is positive, each with that
    strength attached, in table order.
   */
  function Fire(table: seq<Rule>, st: LevelDegrees, temp: WarmthDegrees): (r: seq<Fired>)
    ensures |r| <= |table|
    ensures forall i :: 0 <= i < |r| ==> r[i].alpha == Strength(r[i].rule, st, temp) > 0.0
  {
    if |table| == 0 then []
    else
      var a := Strength(table[0], st, temp);
      (if a > 0.0 then [Fired(table[0], a)] else []) + Fire(table[1..], st, temp)
  }

  /** Every rule Fire returns is a rule of the table. */
  lemma {:induction false} FireSound(table: seq<Rule>, st: LevelDegrees, temp: WarmthDegrees)
    ensures forall i :: 0 <= i < |Fire(table, st, temp)| ==> Fire(table, st, temp)[i].rule in table
  {
    if |table| > 0 {
      var r := Fire(table, st, temp);
      var r' := Fire(table[1..], st, temp);
      FireSound(table[1..], st, temp);
      var a := Strength(table[0], st, temp);
      var head := if a > 0.0 then [Fired(table[0], a)] else [];
      assert r == head + r';
      var h := |head|;
      forall i | 0 <= i < |r| ensures r[i].rule in table {
        if i >= h {
          assert r[i] == r'[i - h];
          assert r'[i - h].rule in table[1..];
        }
      }
    }
  }

  /** Every rule of the table with a positive firing strength is returned by Fire, with that strength. */
  lemma {:induction false} FireComplete(table: seq<Rule>, st: LevelDegrees, temp: WarmthDegrees)
    ensures forall k :: 0 <= k < |table| && Strength(table[k], st, temp) > 0.0 ==>
      Fired(table[k], Strength(table[k], st, temp)) in Fire(table, st, temp)
  {
    if |table| > 0 {
      FireComplete(table[1..], st, temp);
      forall k | 1 <= k < |table| ensures table[k] == table[1..][k - 1] { }
    }
  }

  lemma PosInTail(table: seq<Rule>, x: Rule)
    requires Distinct(table)
    requires |table| > 0 && x in table[1..]
    ensures x in table && Distinct(table[1..])
    ensures Pos(table, x) == 1 + Pos(table[1..], x)
  {
    var k := Pos(table[1..], x);
    assert table[k + 1] == x;
    assert forall i, j :: 0 <= i < j < |table[1..]| ==> table[1..][i] == table[i + 1] && table[1..][j] == table[j + 1];
  }

  /** Fire keeps the table order, so it never returns the same rule twice. */
  lemma {:induction false} FireInTableOrder(table: seq<Rule>, st: LevelDegrees, temp: WarmthDegrees)
    requires Distinct(table)
    ensures forall i :: 0 <= i < |Fire(table, st, temp)| ==> Fire(table, st, temp)[i].rule in table
    ensures forall i, j :: 0 <= i < j < |Fire(table, st, temp)| ==>
      Pos(table, Fire(table, st, temp)[i].rule) < Pos(table, Fire(table, st, temp)[j].rule)
  {
    FireSound(table, st, temp);
    if |table| > 0 {
      var rest := table[1..];
      assert Distinct(rest) by {
        assert forall i, j :: 0 <= i < j < |rest| ==> rest[i] == table[i + 1] && rest[j] == table[j + 1];
      }
      FireInTableOrder(rest, st, temp);
      forall i, j | 0 <= i < j < |Fire(table, st, temp)|
        ensures Pos(table, Fire(table, st, temp)[i].rule) < Pos(table, Fire(table, st, temp)[j].rule)
      {
        FireOrderStep(table, st, temp, i, j);
      }
    }
  }

  /** One pair of positions of the ordering proof, given the ordering for the tail of the table. */
  lemma FireOrderStep(table: seq<Rule>, st: LevelDegrees, temp: WarmthDegrees, i: int, j: int)
    requires Distinct(table) && |table| > 0
    requires forall k :: 0 <= k < |Fire(table[1..], st, temp)| ==> Fire(table[1..], st, temp)[k].rule in table[1..]
    requires forall i, j :: 0 <= i < j < |Fire(table[1..], st, temp)| ==>
      Pos(table[1..], Fire(table[1..], st, temp)[i].rule) < Pos(table[1..], Fire(table[1..], st, temp)[j].rule)
    requires 0 <= i < j < |Fire(table, st, temp)|
    ensures Fire(table, st, temp)[i].rule in table && Fire(table, st, temp)[j].rule in table
    ensures Pos(table, Fire(table, st, temp)[i].rule) < Pos(table, Fire(table, st, temp)[j].rule)
  {
    var r' := Fire(table[1..], st, temp);
    var a := Strength(table[0], st, temp);
    if a > 0.0 {
      assert Fire(table, st, temp) == [Fired(table[0], a)] + r';
      var x, y := Fire(table, st, temp)[i].rule, Fire(table, st, temp)[j].rule;
      assert y == r'[j - 1].rule;
      PosInTail(table, y);
      if i > 0 {
        assert x == r'[i - 1].rule;
        PosInTail(table, x);
      }
    } else {
      assert Fire(table, st, temp) == r';
      PosInTail(table, r'[i].rule);
      PosInTail(table, r'[j].rule);
    }
  }

  /** The output term of a fired rule, evaluated at `z` and clipped at the rule's strength. */
  function Clip(f: Fired, out: (Level, real) -> real, z: real): real {
    Min(f.alpha, out(f.rule.output, z))
  }

  /**
    Mamdani aggregation at one output point `z`: starting from 0, fold MAX over
    the clipped output terms of the rules, in list order. The result is the
    largest of 0 and all clipped values.
   */
  function Aggregate(rules: seq<Fired>, out: (Level, real) -> real, z: real): (m: real)
    ensures 0.0 <= m
    ensures forall i :: 0 <= i < |rules| ==> Clip(rules[i], out, z) <= m
    ensures m == 0.0 || exists i :: 0 <= i < |rules| && m == Clip(rules[i], out, z)
    decreases |rules|
  {
    if |rules| == 0 then 0.0
    else
      var init := rules[..|rules| - 1];
      assert forall i :: 0 <= i < |init| ==> init[i] == rules[i];
      Max(Aggregate(init, out, z), Clip(rules[|rules| - 1], out, z))
  }

  /** Folding one more rule into a prefix of the list: the running MAX of a left-to-right loop. */
  lemma AggregateExtend(rules: seq<Fired>, k: int, out: (Level, real) -> real, z: real)
    requires 0 <= k < |rules|
    ensures Aggregate(rules[..k + 1], out, z) == Max(Aggregate(rules[..k], out, z), Clip(rules[k], out, z))
  {
    assert rules[..k + 1][..k] == rules[..k];
  }

  /** The whole list as a prefix of itself. */
  lemma AggregateWhole(rules: seq<Fired>, out: (Level, real) -> real, z: real)
    ensures Aggregate(rules[..|rules|], out, z) == Aggregate(rules, out, z)
  {
    assert rules[..|rules|] == rules;
  }

  /** The aggregated output curve sampled at integer points. */
  function Curve(rules: seq<Fired>, out: (Level, real) -> real): int -> real {
    z => Aggregate(rules, out, z as real)
  }

  /** The aggregate never exceeds a bound on the rules' firing strengths. */
  lemma AggregateBelowStrongest(rules: seq<Fired>, out: (Level, real) -> real, z: real, bound: real)
    requires 0.0 <= bound
    requires forall i :: 0 <= i < |rules| ==> rules[i].alpha <= bound
    ensures Aggregate(rules, out, z) <= bound
  {
    var m := Aggregate(rules, out, z);
    if m != 0.0 {
      var i :| 0 <= i < |rules| && m == Clip(rules[i], out, z);
    }
  }

  /** If every rule of `other` is also a rule of `rules`, its aggregate is no larger. */
  lemma AggregateDominated(rules: seq<Fired>, other: seq<Fired>, out: (Level, real) -> real, z: real)
    requires forall x :: x in other ==> x in rules
    ensures Aggregate(other, out, z) <= Aggregate(rules, out, z)
  {
    var m' := Aggregate(other, out, z);
    if m' != 0.0 {
      var j :| 0 <= j < |other| && m' == Clip(other[j], out, z);
      assert other[j] in rules;
      var i :| 0 <= i < |rules| && rules[i] == other[j];
    }
  }

  /** The aggregate does not depend on the order of the active rules. */
  lemma AggregateOrderIndependent(rules: seq<Fired>, other: seq<Fired>, out: (Level, real) -> real, z: real)
    requires multiset(rules) == multiset(other)
    ensures Aggregate(rules, out, z) == Aggregate(other, out, z)
  {
    forall x | x in other ensures x in rules {
      assert x in multiset(other);
    }
    forall x | x in rules ensures x in other {
      assert x in multiset(rules);
    }
    AggregateDominated(rules, other, out, z);
    AggregateDominated(other, rules, out, z);
  }

  /** Every sample of an aggregated curve is a non-negative degree. */
  lemma CurveNonNegative(rules: seq<Fired>, out: (Level, real) -> real)
    ensures Centroid.NonNegative(Curve(rules, out))
  {
    forall z | 0 <= z <= Centroid.Points ensures 0.0 <= Curve(rules, out)(z) {
      assert Curve(rules, out)(z) == Aggregate(rules, out, z as real);
    }
  }

  /** With no active rule the aggregated curve is 0 everywhere, so both centroid sums vanish. */
  lemma EmptyCurve(rules: seq<Fired>, out: (Level, real) -> real)
    requires |rules| == 0
    ensures Centroid.Denominator(Curve(rules, out)) == 0.0
    ensures Centroid.Numerator(Curve(rules, out)) == 0.0
  {
    var f := Curve(rules, out);
    forall z | 0 <= z < Centroid.Points + 1 ensures f(z) == 0.0 {
      assert f(z) == Aggregate(rules, out, z as real);
    }
    Centroid.SumOfZeros(f, 0, Centroid.Points + 1);
    Centroid.MomentOfZeros(f, 0, Centroid.Points + 1);
  }

  /** Permuting the active rules leaves both centroid sums unchanged. */
  lemma CurveOrderIndependent(rules: seq<Fired>, other: seq<Fired>, out: (Level, real) -> real)
    requires multiset(rules) == multiset(other)
    ensures Centroid.Denominator(Curve(rules, out)) == Centroid.Denominator(Curve(other, out))
    ensures Centroid.Numerator(Curve(rules, out)) == Centroid.Numerator(Curve(other, out))
  {
    var f, g := Curve(rules, out), Curve(other, out);
    forall z | 0 <= z < Centroid.Points + 1 ensures f(z) == g(z) {
      AggregateOrderIndependent(rules, other, out, z as real);
    }
    Centroid.SumCongruent(f, g, 0, Centroid.Points + 1);
    Centroid.MomentCongruent(f, g, 0, Centroid.Points + 1);
  }
}
