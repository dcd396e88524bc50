/**
 Plane vectors over `real`. Length and heading of a vector (`sqrt`, and `cos` and `sin` of `atan2`) are
 parameters: any functions with the Euclidean properties. Rounding is not modelled.
 */
module Geometry {

  datatype Plane = Plane(length: (real, real) -> real, heading: (real, real) -> (real, real))

  function Square(v: real): (r: real)
    ensures r >= 0.0
  {
    v * v
  }

  /** (ux, uy) is a direction. */
  predicate Unit(ux: real, uy: real) {
    Square(ux) + Square(uy) == 1.0
  }

  /** What length and heading say of a vector; the zero vector may have any heading. */
  predicate Measures(p: Plane, x: real, y: real) {
    var d, (ux, uy) := p.length(x, y), p.heading(x, y);
    && d >= 0.0 && Square(d) == Square(x) + Square(y)
    && Unit(ux, uy) && x == d * ux && y == d * uy
  }

  ghost predicate Euclidean(p: Plane) {
    forall x: real, y: real {:trigger Measures(p, x, y)} :: Measures(p, x, y)
  }

  /** Named products: the solver rewrites a comparison of a bare product with zero to signs. */
  lemma MulPositive(a: real, b: real) returns (p: real)
    requires a > 0.0 && b > 0.0
    ensures p == a * b && p > 0.0
  {
    p := a * b;
  }

  lemma MulStep(n: int, x: real)
    ensures (n + 1) as real * x == n as real * x + x
  {
  }

  /** On the non-negative reals, squares are ordered as the numbers are. */
  lemma SquareOrder(a: real, b: real)
    requires a >= 0.0 && b >= 0.0
    ensures Square(a) <= Square(b) <==> a <= b
    ensures Square(a) == Square(b) <==> a == b
  {
    if a < b {
      var p := MulPositive(b - a, a + b);
    } else if b < a {
      var p := MulPositive(a - b, a + b);
    }
  }

  lemma SquareOfScaled(r: real, ux: real, uy: real)
    requires Unit(ux, uy)
    ensures Square(r * ux) + Square(r * uy) == Square(r)
  {
    assert r * ux * (r * ux) == r * r * (ux * ux);
    assert r * uy * (r * uy) == r * r * (uy * uy);
    assert r * r * (ux * ux) + r * r * (uy * uy) == r * r * (ux * ux + uy * uy);
  }

  lemma CancelFactor(r: real, u: real, v: real)
    requires r > 0.0 && r * u == r * v
    ensures u == v
  {
    if u > v {
      var p := MulPositive(r, u - v);
    } else if u < v {
      var p := MulPositive(r, v - u);
    }
  }

  /** A vector given by length and direction has that length, and that direction unless it is zero. */
  lemma MeasureScaled(p: Plane, r: real, ux: real, uy: real, x: real, y: real)
    requires Euclidean(p) && Unit(ux, uy) && r >= 0.0 && x == r * ux && y == r * uy
    ensures p.length(x, y) == r
    ensures Square(x) + Square(y) == Square(r)
    ensures r > 0.0 ==> p.heading(x, y) == (ux, uy)
  {
    assert Measures(p, x, y);
    SquareOfScaled(r, ux, uy);
    SquareOrder(p.length(x, y), r);
    var h := p.heading(x, y);
    if r > 0.0 {
      CancelFactor(r, ux, h.0);
      CancelFactor(r, uy, h.1);
    }
  }
}
