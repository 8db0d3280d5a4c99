/** Exact real counterparts of Math.min, Math.max, clamp and smoothstep. */
module Reals {

  function Min(a: real, b: real): real { if a <= b then a else b }

  function Max(a: real, b: real): real { if a >= b then a else b }

  function Abs(a: real): real { if a >= 0.0 then a else -a }

  function Clamp(v: real, lo: real, hi: real): real {
    if v < lo then lo else if v > hi then hi else v
  }

  function Smoothstep(p: real): real {
    var c := Clamp(p, 0.0, 1.0);
    c * c * (3.0 - 2.0 * c)
  }

  lemma MulMono(a: real, x: real, y: real)
    requires 0.0 <= a && x <= y
    ensures a * x <= a * y
  {}

  /** A quotient, characterised by the product it inverts. */
  lemma DivIs(a: real, b: real, q: real)
    requires b > 0.0 && q * b == a
    ensures a / b == q
  {}

  lemma DivSelf(b: real)
    requires b > 0.0
    ensures b / b == 1.0
  {
    DivIs(b, b, 1.0);
  }

  lemma DivTimes(a: real, b: real)
    requires b > 0.0
    ensures a / b * b == a
  {}

  lemma NonNegProduct(x: real, y: real)
    requires 0.0 <= x && 0.0 <= y
    ensures 0.0 <= x * y
  {}

  lemma SquareNonNeg(x: real)
    ensures 0.0 <= x * x
  {
    if x < 0.0 { NonNegProduct(-x, -x); } else { NonNegProduct(x, x); }
  }

  lemma SmoothstepEnds()
    ensures Smoothstep(0.0) == 0.0 && Smoothstep(1.0) == 1.0
  {}

  /** Smoothstep stays in [0, 1]. */
  lemma SmoothstepRange(p: real)
    ensures 0.0 <= Smoothstep(p) <= 1.0
  {
    var c := Clamp(p, 0.0, 1.0);
    SquareNonNeg(c);
    NonNegProduct(c * c, 3.0 - 2.0 * c);
    SquareNonNeg(1.0 - c);
    NonNegProduct((1.0 - c) * (1.0 - c), 1.0 + 2.0 * c);
    assert 1.0 - c * c * (3.0 - 2.0 * c) == (1.0 - c) * (1.0 - c) * (1.0 + 2.0 * c);
  }

  lemma ChordSlope(c: real, d: real)
    requires 0.0 <= c <= 1.0 && 0.0 <= d <= 1.0
    ensures 0.0 <= 3.0 * (c + d) - 2.0 * (c * c + c * d + d * d) <= 1.5
  {
    var slope := 3.0 * (c + d) - 2.0 * (c * c + c * d + d * d);
    assert slope >= 0.0 by {
      assert slope == c * (3.0 - 2.0 * c - d) + d * (3.0 - 2.0 * d - c);
      NonNegProduct(c, 3.0 - 2.0 * c - d);
      NonNegProduct(d, 3.0 - 2.0 * d - c);
    }
    var u, v := c + d - 1.0, c - d;
    SquareNonNeg(u);
    SquareNonNeg(v);
    assert 1.5 - slope == 1.5 * (u * u) + 0.5 * (v * v);
  }

  /** Smoothstep never climbs faster than 3/2, and never falls. */
  lemma SmoothstepSlope(p: real, q: real)
    requires p <= q
    ensures 0.0 <= Smoothstep(q) - Smoothstep(p) <= 1.5 * (q - p)
  {
    var c, d := Clamp(p, 0.0, 1.0), Clamp(q, 0.0, 1.0);
    var slope := 3.0 * (c + d) - 2.0 * (c * c + c * d + d * d);
    ChordSlope(c, d);
    assert Smoothstep(q) - Smoothstep(p) == (d - c) * slope;
    hide Smoothstep;
    NonNegProduct(d - c, slope);
    NonNegProduct(d - c, 1.5 - slope);
    assert (d - c) * (1.5 - slope) == 1.5 * (d - c) - (d - c) * slope;
  }

  /** The curve is symmetric about its midpoint. */
  lemma SmoothstepMirror(p: real)
    ensures Smoothstep(1.0 - p) == 1.0 - Smoothstep(p)
  {
    var c := Clamp(p, 0.0, 1.0);
    assert Clamp(1.0 - p, 0.0, 1.0) == 1.0 - c;
    assert (1.0 - c) * (1.0 - c) * (3.0 - 2.0 * (1.0 - c)) == 1.0 - c * c * (3.0 - 2.0 * c);
  }

  // ---- going from one number to another ----

  /** b is on the way from a to c. */
  predicate OnTheWay(a: real, b: real, c: real) { a <= b <= c || a >= b >= c }

  /** At the share q of the way from a to c. */
  predicate AtShare(x: real, a: real, c: real, q: real) { x == a + (c - a) * q }

  lemma GoesOn(a: real, c: real, p: real, q: real, x: real, y: real)
    requires 0.0 <= p <= q <= 1.0 && AtShare(x, a, c, p) && AtShare(y, a, c, q)
    ensures OnTheWay(a, x, y) && OnTheWay(x, y, c)
  {
    var d := c - a;
    assert y - x == d * (q - p) && x - a == d * p && c - y == d * (1.0 - q);
    if d >= 0.0 {
      NonNegProduct(d, q - p);
      NonNegProduct(d, p);
      NonNegProduct(d, 1.0 - q);
    } else {
      NonNegProduct(-d, q - p);
      NonNegProduct(-d, p);
      NonNegProduct(-d, 1.0 - q);
    }
  }
}
