/**
  Discrete centroid of an output curve sampled at the integer points
  z = 0, 1, ..., 100: the numerator is the sum of z * f(z), the denominator
  the sum of f(z). Sums are accumulated from the low end, as the source loops do.
 */
module Centroid {

  /** The last sample point; the curve is sampled at 0..Points inclusive. */
  const Points: int := 100

  /** Sum of f(z) over lo <= z < hi, adding the terms in increasing z. */
  function Sum(f: int -> real, lo: int, hi: int): real
    decreases hi - lo
  {
    if hi <= lo then 0.0 else Sum(f, lo, hi - 1) + f(hi - 1)
  }

  /**
    The weight z * y of one sample, for a sample point z >= 0, written as
    repeated addition so that the sums stay linear for the solver;
    ScaleIsProduct states that it is the product.
   */
  function Scale(z: int, y: real): real
    decreases z
  {
    if z <= 0 then 0.0 else Scale(z - 1, y) + y
  }

  lemma {:induction false} ScaleIsProduct(z: int, y: real)
    requires 0 <= z
    ensures Scale(z, y) == (z as real) * y
    decreases z
  {
    if z > 0 {
      ScaleIsProduct(z - 1, y);
      Distribute(z as real, 1.0, y);
    }
  }

  lemma {:induction false} ScaleAdd(a: int, b: int, y: real)
    requires 0 <= a && 0 <= b
    ensures Scale(a + b, y) == Scale(a, y) + Scale(b, y)
    decreases b
  {
    if b > 0 {
      ScaleAdd(a, b - 1, y);
    }
  }

  /** Sum of z * f(z) over lo <= z < hi, for 0 <= lo: the first moment of the curve. */
  function Moment(f: int -> real, lo: int, hi: int): real
    decreases hi - lo
  {
    if hi <= lo then 0.0 else Moment(f, lo, hi - 1) + Scale(hi - 1, f(hi - 1))
  }

  function Denominator(f: int -> real): real {
    Sum(f, 0, Points + 1)
  }

  function Numerator(f: int -> real): real {
    Moment(f, 0, Points + 1)
  }

  ghost predicate NonNegative(f: int -> real) {
    forall z :: 0 <= z <= Points ==> 0.0 <= f(z)
  }

  lemma {:induction false} SumNonNegative(f: int -> real, lo: int, hi: int)
    requires forall z :: lo <= z < hi ==> 0.0 <= f(z)
    ensures 0.0 <= Sum(f, lo, hi)
    decreases hi - lo
  {
    if lo < hi {
      SumNonNegative(f, lo, hi - 1);
    }
  }

  /** A sum of non-negative terms with one positive term is positive. */
  lemma {:induction false} SumPositive(f: int -> real, lo: int, hi: int, w: int)
    requires forall z :: lo <= z < hi ==> 0.0 <= f(z)
    requires lo <= w < hi && 0.0 < f(w)
    ensures 0.0 < Sum(f, lo, hi)
    decreases hi - lo
  {
    if w == hi - 1 {
      SumNonNegative(f, lo, hi - 1);
    } else {
      SumPositive(f, lo, hi - 1, w);
    }
  }

  /**
    One step of a loop that accumulates both sums from 0: adding the sample
    y == f(hi) to running sums over [0, hi) gives the sums over [0, hi].
   */
  lemma AccumulateStep(f: int -> real, hi: int, num: real, den: real, y: real)
    requires 0 <= hi && y == f(hi)
    requires num == Moment(f, 0, hi) && den == Sum(f, 0, hi)
    ensures num + (hi as real) * y == Moment(f, 0, hi + 1)
    ensures den + y == Sum(f, 0, hi + 1)
  {
    ScaleIsProduct(hi, y);
  }

  /** Running sums that have reached the last sample point are the centroid's numerator and denominator. */
  lemma Totals(f: int -> real, z: int, num: real, den: real)
    requires z == Points + 1
    requires num == Moment(f, 0, z) && den == Sum(f, 0, z)
    ensures num == Numerator(f) && den == Denominator(f)
  {
  }

  /** Sums of curves that agree on the range are equal. */
  lemma {:induction false} SumCongruent(f: int -> real, g: int -> real, lo: int, hi: int)
    requires forall z :: lo <= z < hi ==> f(z) == g(z)
    ensures Sum(f, lo, hi) == Sum(g, lo, hi)
    decreases hi - lo
  {
    if lo < hi {
      SumCongruent(f, g, lo, hi - 1);
    }
  }

  /** A curve that vanishes on the range sums to zero. */
  lemma {:induction false} SumOfZeros(f: int -> real, lo: int, hi: int)
    requires forall z :: lo <= z < hi ==> f(z) == 0.0
    ensures Sum(f, lo, hi) == 0.0
    decreases hi - lo
  {
    if lo < hi {
      SumOfZeros(f, lo, hi - 1);
    }
  }

  lemma {:induction false} MomentOfZeros(f: int -> real, lo: int, hi: int)
    requires 0 <= lo
    requires forall z :: lo <= z < hi ==> f(z) == 0.0
    ensures Moment(f, lo, hi) == 0.0
    decreases hi - lo
  {
    if lo < hi {
      MomentOfZeros(f, lo, hi - 1);
      ScaleIsProduct(hi - 1, f(hi - 1));
    }
  }

  /** The first term can be split off as well as the last. */
  lemma {:induction false} SumFront(f: int -> real, lo: int, hi: int)
    requires lo < hi
    ensures Sum(f, lo, hi) == f(lo) + Sum(f, lo + 1, hi)
    ensures Moment(f, lo, hi) == Scale(lo, f(lo)) + Moment(f, lo + 1, hi)
    decreases hi - lo
  {
    if lo < hi - 1 {
      SumFront(f, lo, hi - 1);
    }
  }

  lemma {:induction false} MomentCongruent(f: int -> real, g: int -> real, lo: int, hi: int)
    requires forall z :: lo <= z < hi ==> f(z) == g(z)
    ensures Moment(f, lo, hi) == Moment(g, lo, hi)
    decreases hi - lo
  {
    if lo < hi {
      MomentCongruent(f, g, lo, hi - 1);
    }
  }

  /**
    For a non-negative curve on a range inside 0..Points, the moment lies
    between 0 and Points times the plain sum.
   */
  lemma {:induction false} MomentBounds(f: int -> real, lo: int, hi: int)
    requires 0 <= lo && hi <= Points + 1
    requires forall z :: lo <= z < hi ==> 0.0 <= f(z)
    ensures 0.0 <= Sum(f, lo, hi)
    ensures 0.0 <= Moment(f, lo, hi) <= 100.0 * Sum(f, lo, hi)
    decreases hi - lo
  {
    if lo < hi {
      MomentBounds(f, lo, hi - 1);
      TermBounds(hi - 1, f(hi - 1));
      assert Sum(f, lo, hi) == Sum(f, lo, hi - 1) + f(hi - 1);
      assert Moment(f, lo, hi) == Moment(f, lo, hi - 1) + Scale(hi - 1, f(hi - 1));
    }
  }

  /** The weight of a non-negative sample at a point of 0..Points is between 0 and Points times the sample. */
  lemma {:induction false} TermBounds(z: int, y: real)
    requires 0 <= z <= 100 && 0.0 <= y
    ensures 0.0 <= Scale(z, y) <= 100.0 * y
  {
    ScaleIsProduct(z, y);
    ProductNonNegative(z as real, y);
    ProductNonNegative(100.0 - z as real, y);
    Distribute(100.0, z as real, y);
  }

  lemma ProductNonNegative(a: real, b: real)
    requires 0.0 <= a && 0.0 <= b
    ensures 0.0 <= a * b
  {
  }

  lemma Distribute(a: real, b: real, y: real)
    ensures (a - b) * y == a * y - b * y
  {
  }

  /** The sample point opposite z about the middle point 50. */
  function Mirror(z: int): int {
    Points - z
  }

  /** The curve takes the same value at z and at Points - z. */
  ghost predicate Mirrored(f: int -> real) {
    forall z {:trigger Mirror(z)} :: 0 <= z <= Points ==> f(z) == f(Mirror(z))
  }

  lemma RatioBounds(n: real, d: real)
    requires 0.0 < d && 0.0 <= n <= 100.0 * d
    ensures 0.0 <= n / d <= 100.0
    ensures (n / d) * d == n
  {
  }

  lemma RatioOfMultiple(n: real, d: real, c: real)
    requires d != 0.0 && n == c * d
    ensures n / d == c
  {
  }

  /**
    The centroid of a non-negative curve with a positive denominator is a
    convex combination of the sample points, so it lies in [0, Points].
   */
  lemma CentroidInRange(f: int -> real)
    requires NonNegative(f)
    ensures 0.0 <= Denominator(f)
    ensures 0.0 <= Numerator(f) <= 100.0 * Denominator(f)
    ensures Denominator(f) != 0.0 ==> 0.0 <= Numerator(f) / Denominator(f) <= 100.0
    ensures Denominator(f) != 0.0 ==> (Numerator(f) / Denominator(f)) * Denominator(f) == Numerator(f)
  {
    MomentBounds(f, 0, Points + 1);
    if Denominator(f) != 0.0 {
      RatioBounds(Numerator(f), Denominator(f));
    }
  }

  /** Splitting off both end points of a range. */
  lemma SumEnds(f: int -> real, lo: int, hi: int)
    requires lo < hi
    ensures Sum(f, lo, hi + 1) == f(lo) + Sum(f, lo + 1, hi) + f(hi)
    ensures Moment(f, lo, hi + 1) == Scale(lo, f(lo)) + Moment(f, lo + 1, hi) + Scale(hi, f(hi))
  {
    SumFront(f, lo, hi + 1);
  }

  /**
    Balance of a curve about its middle point: if f(z) == f(Points - z) on the
    range, the moments on either side of Points / 2 cancel.
   */
  lemma {:induction false} SymmetricBalance(f: int -> real, lo: int, hi: int)
    requires lo + hi == Points && lo <= hi + 1
    requires Mirrored(f)
    requires 0 <= lo
    ensures Moment(f, lo, hi + 1) == 50.0 * Sum(f, lo, hi + 1)
    decreases hi - lo
  {
    if lo < hi {
      SymmetricBalance(f, lo + 1, hi - 1);
      MirrorAt(f, lo);
      BalanceStep(f, lo, hi);
    } else {
      BalanceBase(f, lo, hi);
    }
  }

  lemma MirrorAt(f: int -> real, z: int)
    requires Mirrored(f) && 0 <= z <= Points
    ensures f(Points - z) == f(z)
  {
    assert f(z) == f(Mirror(z));
  }

  /** The middle point 50 alone, or an empty range, is balanced at 50. */
  lemma BalanceBase(f: int -> real, lo: int, hi: int)
    requires lo + hi == Points && hi <= lo <= hi + 1
    ensures Moment(f, lo, hi + 1) == 50.0 * Sum(f, lo, hi + 1)
  {
    if lo == hi {
      assert lo == 50;
      ScaleIsProduct(50, f(50));
      assert Moment(f, lo, hi + 1) == Scale(50, f(50));
    }
  }

  /** Adding the mirrored end points lo and hi to a range balanced at 50 keeps it balanced. */
  lemma BalanceStep(f: int -> real, lo: int, hi: int)
    requires 0 <= lo < hi && lo + hi == Points && f(hi) == f(lo)
    requires Moment(f, lo + 1, hi) == 50.0 * Sum(f, lo + 1, hi)
    ensures Moment(f, lo, hi + 1) == 50.0 * Sum(f, lo, hi + 1)
  {
    SumEnds(f, lo, hi);
    PairedMoments(lo, hi, f(lo), f(hi), Moment(f, lo + 1, hi), Sum(f, lo + 1, hi));
  }

  /** Two mirrored end terms around an inner range balanced at 50 keep the whole range balanced at 50. */
  lemma PairedMoments(a: int, b: int, y: real, y': real, m: real, s: real)
    requires 0 <= a && 0 <= b && a + b == Points && y == y' && m == 50.0 * s
    ensures Scale(a, y) + m + Scale(b, y') == 50.0 * (y + s + y')
  {
    ScaleAdd(a, b, y);
    ScaleIsProduct(Points, y);
  }

  /** A curve symmetric about 50 has its centroid at 50. */
  lemma SymmetricCentroid(f: int -> real)
    requires Mirrored(f)
    requires Denominator(f) != 0.0
    ensures Numerator(f) / Denominator(f) == 50.0
  {
    SymmetricTotals(f);
    RatioOfMultiple(Numerator(f), Denominator(f), 50.0);
  }

  /** For a mirrored curve the numerator is 50 times the denominator. */
  lemma SymmetricTotals(f: int -> real)
    requires Mirrored(f)
    ensures Numerator(f) == 50.0 * Denominator(f)
  {
    SymmetricBalance(f, 0, Points);
  }
}
