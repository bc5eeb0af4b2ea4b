// Points and straight-line distance.
//
// The program's math.dist is a parameter here: a function `dist` that gives the non-negative square
// root of the squared distance. Everything else about it is proved.
module Plane {
  import opened Basics

  datatype Point = Point(x: real, y: real)

  type Metric = (Point, Point) -> real

  // Products are named so that the solver treats them as terms rather than as polynomials.
  function Mul(a: real, b: real): real { a * b }

  function Sqr(a: real): real { Mul(a, a) }

  function SqDist(a: Point, b: Point): real {
    Sqr(b.x - a.x) + Sqr(b.y - a.y)
  }

  ghost predicate Euclid(dist: Metric, a: Point, b: Point) {
    dist(a, b) >= 0.0 && Sqr(dist(a, b)) == SqDist(a, b)
  }

  ghost predicate IsEuclidean(dist: Metric) {
    forall a, b {:trigger Euclid(dist, a, b)} :: Euclid(dist, a, b)
  }

  function Lerp(a: Point, b: Point, f: real): Point {
    Point(a.x + Mul(b.x - a.x, f), a.y + Mul(b.y - a.y, f))
  }

  // -- arithmetic -----------------------------------------------------------------------------------

  lemma ProductSign(a: real, b: real)
    requires a >= 0.0 && b >= 0.0
    ensures Mul(a, b) >= 0.0
    ensures a > 0.0 && b > 0.0 ==> Mul(a, b) > 0.0
  {
  }

  lemma SquareSign(a: real)
    ensures Sqr(a) >= 0.0
    ensures Sqr(a) == 0.0 <==> a == 0.0
  {
    if a > 0.0 {
      ProductSign(a, a);
    } else if a < 0.0 {
      ProductSign(-a, -a);
      assert Sqr(-a) == Sqr(a);
    }
  }

  lemma SquareOrder(a: real, b: real)
    requires a >= 0.0 && b >= 0.0
    ensures Sqr(a) <= Sqr(b) <==> a <= b
    ensures Sqr(a) == Sqr(b) <==> a == b
  {
    if a < b {
      assert Sqr(b) - Sqr(a) == Mul(b - a, b + a);
      ProductSign(b - a, b + a);
    } else if b < a {
      assert Sqr(a) - Sqr(b) == Mul(a - b, a + b);
      ProductSign(a - b, a + b);
    }
  }

  lemma ProductOfSquares(a: real, b: real)
    ensures Sqr(Mul(a, b)) == Mul(Sqr(a), Sqr(b))
  {
    assert (a * b) * (a * b) == (a * a) * (b * b);
  }

  lemma SquareOfAbs(a: real)
    ensures Sqr(Abs(a)) == Sqr(a)
  {
  }

  // -- distance ---------------------------------------------------------------------------------------

  lemma DistSign(dist: Metric, a: Point, b: Point)
    requires IsEuclidean(dist)
    ensures dist(a, b) >= 0.0
    ensures dist(a, b) == 0.0 <==> a == b
  {
    assert Euclid(dist, a, b);
    SquareSign(b.x - a.x);
    SquareSign(b.y - a.y);
    SquareSign(dist(a, b));
  }

  lemma DistAlongX(dist: Metric, a: Point, b: Point)
    requires IsEuclidean(dist) && a.y == b.y
    ensures dist(a, b) == Abs(b.x - a.x)
  {
    assert Euclid(dist, a, b);
    SquareOfAbs(b.x - a.x);
    assert Sqr(dist(a, b)) == Sqr(Abs(b.x - a.x));
    SquareOrder(dist(a, b), Abs(b.x - a.x));
  }

  lemma DistOrder(dist: Metric, a: Point, b: Point, c: Point, d: Point)
    requires IsEuclidean(dist)
    ensures dist(a, b) <= dist(c, d) <==> SqDist(a, b) <= SqDist(c, d)
  {
    assert Euclid(dist, a, b) && Euclid(dist, c, d);
    SquareOrder(dist(a, b), dist(c, d));
  }

  lemma DistSymmetric(dist: Metric, a: Point, b: Point)
    requires IsEuclidean(dist)
    ensures dist(a, b) == dist(b, a)
  {
    SquareOfNegation(b.x - a.x);
    SquareOfNegation(b.y - a.y);
    assert a.x - b.x == -(b.x - a.x) && a.y - b.y == -(b.y - a.y);
    DistOrder(dist, a, b, b, a);
    DistOrder(dist, b, a, a, b);
  }

  lemma SquareOfNegation(a: real)
    ensures Sqr(-a) == Sqr(a)
  {
  }

  // Moving along a segment is proportional to its length.
  lemma LerpDist(dist: Metric, a: Point, b: Point, f: real, g: real)
    requires IsEuclidean(dist)
    ensures dist(Lerp(a, b, f), Lerp(a, b, g)) == Mul(Abs(g - f), dist(a, b))
  {
    var p, q, d, k := Lerp(a, b, f), Lerp(a, b, g), dist(a, b), g - f;
    assert Euclid(dist, a, b) && Euclid(dist, p, q);
    MulDifference(b.x - a.x, f, g);
    MulDifference(b.y - a.y, f, g);
    ProductOfSquares(k, b.x - a.x);
    ProductOfSquares(k, b.y - a.y);
    MulSum(Sqr(k), Sqr(b.x - a.x), Sqr(b.y - a.y));
    assert SqDist(p, q) == Mul(Sqr(k), Sqr(d));
    SquareOfAbs(k);
    ProductOfSquares(Abs(k), d);
    ProductSign(Abs(k), d);
    SquareOrder(dist(p, q), Mul(Abs(k), d));
  }

  lemma MulDifference(d: real, f: real, g: real)
    ensures Mul(d, g) - Mul(d, f) == Mul(g - f, d)
  {
  }

  lemma MulSum(k: real, a: real, b: real)
    ensures Mul(k, a + b) == Mul(k, a) + Mul(k, b)
  {
  }

  lemma CauchySchwarz(ux: real, uy: real, vx: real, vy: real, u: real, v: real)
    requires u >= 0.0 && v >= 0.0
    requires Sqr(u) == Sqr(ux) + Sqr(uy) && Sqr(v) == Sqr(vx) + Sqr(vy)
    ensures Mul(ux, vx) + Mul(uy, vy) <= Mul(u, v)
  {
    var s, c := Mul(ux, vx) + Mul(uy, vy), Mul(ux, vy) - Mul(uy, vx);
    ProductOfSquares(u, v);
    Lagrange(ux, uy, vx, vy);
    SquareSign(c);
    ProductSign(u, v);
    if s > Mul(u, v) {
      SquareOrder(s, Mul(u, v));
    }
  }

  lemma Lagrange(ux: real, uy: real, vx: real, vy: real)
    ensures Mul(Sqr(ux) + Sqr(uy), Sqr(vx) + Sqr(vy))
         == Sqr(Mul(ux, vx) + Mul(uy, vy)) + Sqr(Mul(ux, vy) - Mul(uy, vx))
  {
    assert (ux * ux + uy * uy) * (vx * vx + vy * vy)
        == (ux * vx + uy * vy) * (ux * vx + uy * vy) + (ux * vy - uy * vx) * (ux * vy - uy * vx);
  }

  lemma SquareOfSum(a: real, b: real)
    ensures Sqr(a + b) == Sqr(a) + 2.0 * Mul(a, b) + Sqr(b)
  {
  }

  lemma Triangle(dist: Metric, a: Point, b: Point, c: Point)
    requires IsEuclidean(dist)
    ensures dist(a, c) <= dist(a, b) + dist(b, c)
  {
    assert Euclid(dist, a, b) && Euclid(dist, b, c) && Euclid(dist, a, c);
    var ux, uy, vx, vy := b.x - a.x, b.y - a.y, c.x - b.x, c.y - b.y;
    var u, v, w := dist(a, b), dist(b, c), dist(a, c);
    CauchySchwarz(ux, uy, vx, vy, u, v);
    assert c.x - a.x == ux + vx && c.y - a.y == uy + vy;
    SquareOfSum(ux, vx);
    SquareOfSum(uy, vy);
    SquareOfSum(u, v);
    SquareOrder(w, u + v);
  }
}
