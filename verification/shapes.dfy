/**
  The two generic membership shapes of the utility module: a trapezoid with
  breakpoints a, b, c, d and a triangle with breakpoints a, b, c. Both are
  total over the reals; boundaries belong to the zero region, the plateau
  (or the peak) is closed.
 */
module Shapes {

  /**
    Trapezoid: 0 at or outside [a, d], 1 on the plateau [b, c], a rising ramp
    on (a, b) and a falling ramp on (c, d). A ramp is taken only strictly
    inside its interval, so a degenerate shoulder (a == b or c == d) never
    divides by zero. The result is a degree for any breakpoints.
   */
  function Trapezoid(x: real, a: real, b: real, c: real, d: real): (r: real)
    ensures 0.0 <= r <= 1.0
  {
    if x <= a || x >= d then 0.0
    else if x >= b && x <= c then 1.0
    else if x > a && x < b then RatioInUnit(x - a, b - a); (x - a) / (b - a)
    else if x > c && x < d then RatioInUnit(d - x, d - c); (d - x) / (d - c)
    else 0.0
  }

  /**
    Triangle: 0 at or outside [a, c], a rising ramp on (a, b] reaching 1 at b,
    a falling ramp on (b, c).
   */
  function Triangle(x: real, a: real, b: real, c: real): (r: real)
    ensures 0.0 <= r <= 1.0
  {
    if x <= a || x >= c then 0.0
    else if x > a && x <= b then RatioInUnit(x - a, b - a); (x - a) / (b - a)
    else if x > b && x < c then RatioInUnit(c - x, c - b); (c - x) / (c - b)
    else 0.0
  }

  /**
    With ordered breakpoints the trapezoid is positive exactly strictly inside
    (a, d), and is 1 exactly on the part of the plateau inside (a, d). This
    holds at degenerate shoulders too: Trapezoid(a, a, a, c, d) is 0.
   */
  lemma TrapezoidShape(x: real, a: real, b: real, c: real, d: real)
    requires a <= b <= c <= d
    ensures Trapezoid(x, a, b, c, d) > 0.0 <==> a < x < d
    ensures Trapezoid(x, a, b, c, d) == 1.0 <==> a < x < d && b <= x <= c
  {
    if a < x < b {
      RatioInOpenUnit(x - a, b - a);
    }
    if c < x < d && !(b <= x <= c) {
      RatioInOpenUnit(d - x, d - c);
    }
  }

  /**
    A proper triangle is positive exactly strictly inside (a, c) and reaches 1
    exactly at its peak b.
   */
  lemma TriangleShape(x: real, a: real, b: real, c: real)
    requires a < b < c
    ensures Triangle(x, a, b, c) > 0.0 <==> a < x < c
    ensures Triangle(x, a, b, c) == 1.0 <==> x == b
  {
    if a < x < b {
      RatioInOpenUnit(x - a, b - a);
    }
    if b < x < c {
      RatioInOpenUnit(c - x, c - b);
    }
    if x == b {
      RatioOfSelf(x - a);
    }
  }

  /** A ramp value p / q with 0 <= p <= q and q positive is a degree. */
  lemma RatioInUnit(p: real, q: real)
    requires 0.0 <= p <= q && 0.0 < q
    ensures 0.0 <= p / q <= 1.0
  {
    var r := p / q;
    assert r * q == p;
    if r > 1.0 {
      assert false;
    }
  }

  /** A ramp at its far end: q / q is 1. */
  lemma RatioOfSelf(q: real)
    requires q != 0.0
    ensures q / q == 1.0
  {
  }

  /** A ramp value p / q with 0 < p < q lies strictly between 0 and 1. */
  lemma RatioInOpenUnit(p: real, q: real)
    requires 0.0 < p < q
    ensures 0.0 < p / q < 1.0
  {
    var r := p / q;
    assert r * q == p;
    if r >= 1.0 {
      assert false;
    }
  }
}
