// Arc-length along a polyline: the point at an arc-length, and the arc-length of a point or of an
// x-coordinate. Polylines may have zero-length segments.
module Polyline {
  import opened Basics
  import opened Plane

  type Path = seq<Point>

  function Seg(dist: Metric, path: Path, i: nat): real
    requires i + 1 < |path|
  {
    dist(path[i], path[i + 1])
  }

  // Arc-length of the i-th vertex.
  function Cum(dist: Metric, path: Path, i: nat): real
    requires i < |path|
  {
    if i == 0 then 0.0 else Cum(dist, path, i - 1) + Seg(dist, path, i - 1)
  }

  function Total(dist: Metric, path: Path): real {
    if path == [] then 0.0 else Cum(dist, path, |path| - 1)
  }

  // The point at fraction f of segment i.
  function At(path: Path, i: nat, f: real): Point
    requires i + 1 < |path|
  {
    Lerp(path[i], path[i + 1], f)
  }

  lemma {:induction false} CumOrder(dist: Metric, path: Path, i: nat, j: nat)
    requires IsEuclidean(dist) && i <= j < |path|
    ensures Cum(dist, path, i) <= Cum(dist, path, j)
    ensures Cum(dist, path, i) == Cum(dist, path, j) ==> path[i] == path[j]
  {
    if i < j {
      CumOrder(dist, path, i, j - 1);
      DistSign(dist, path[j - 1], path[j]);
    }
  }

  // -- the point at an arc-length -------------------------------------------------------------------

  function Fraction(c: real, seg: real, s: real): real {
    if seg == 0.0 then 0.0 else (s - c) / seg
  }

  function PosScan(dist: Metric, path: Path, i: nat, s: real): Point
    requires i < |path|
    decreases |path| - i
  {
    if i == |path| - 1 then path[i]
    else if Cum(dist, path, i) + Seg(dist, path, i) >= s then
      At(path, i, Fraction(Cum(dist, path, i), Seg(dist, path, i), s))
    else PosScan(dist, path, i + 1, s)
  }

  function PosAt(dist: Metric, path: Path, s: real): Option<Point> {
    if path == [] then None
    else if |path| == 1 then Some(path[0])
    else Some(PosScan(dist, path, 0, Max(0.0, s)))
  }

  lemma FractionFacts(c: real, seg: real, s: real)
    requires seg >= 0.0 && c <= s <= c + seg
    ensures var f := Fraction(c, seg, s); 0.0 <= f <= 1.0 && Mul(f, seg) == s - c
  {
    if seg > 0.0 {
      DivMul(s - c, seg);
      var f := (s - c) / seg;
      MulLess(0.0, f, seg);
      MulLess(f, 1.0, seg);
      MulLess(f, 0.0, seg);
      MulLess(1.0, f, seg);
    }
  }

  lemma DivMul(a: real, b: real)
    requires b != 0.0
    ensures Mul(a / b, b) == a
  {
  }

  lemma MulLess(f: real, g: real, d: real)
    requires d > 0.0
    ensures Mul(g, d) - Mul(f, d) == Mul(g - f, d)
    ensures f < g ==> Mul(f, d) < Mul(g, d)
    ensures Mul(0.0, d) == 0.0 && Mul(1.0, d) == d
  {
    if f < g {
      ProductSign(g - f, d);
    }
  }

  lemma MulCancel(f: real, g: real, d: real)
    requires Mul(f, d) == Mul(g, d) && d > 0.0
    ensures f == g
  {
    MulLess(f, g, d);
    MulLess(g, f, d);
  }

  lemma LerpEnds(a: Point, b: Point)
    ensures Lerp(a, b, 0.0) == a && Lerp(a, b, 1.0) == b
    ensures forall f :: Lerp(a, a, f) == a
  {
    forall f ensures Lerp(a, a, f) == a {
      assert Mul(0.0, f) == 0.0;
    }
  }

  lemma FractionOfSegment(seg: real, f: real)
    requires seg >= 0.0 && 0.0 <= f <= 1.0
    ensures 0.0 <= Mul(f, seg) <= seg
    ensures seg > 0.0 && Mul(f, seg) == 0.0 ==> f == 0.0
  {
    ProductSign(f, seg);
    ProductSign(1.0 - f, seg);
    assert Mul(1.0 - f, seg) == seg - Mul(f, seg);
  }

  // The central fact: the point at arc-length Cum(i) + f * Seg(i) is the point at fraction f of
  // segment i, also at vertices and on segments of length zero.
  lemma {:induction false} ScanFinds(dist: Metric, path: Path, k: nat, i: nat, f: real)
    requires IsEuclidean(dist) && k <= i && i + 1 < |path| && 0.0 <= f <= 1.0
    ensures PosScan(dist, path, k, Cum(dist, path, i) + Mul(f, Seg(dist, path, i))) == At(path, i, f)
    decreases i - k
  {
    var s := Cum(dist, path, i) + Mul(f, Seg(dist, path, i));
    DistSign(dist, path[i], path[i + 1]);
    DistSign(dist, path[k], path[k + 1]);
    FractionOfSegment(Seg(dist, path, i), f);
    LerpEnds(path[i], path[i + 1]);
    LerpEnds(path[k], path[k + 1]);
    if k == i {
      if Seg(dist, path, i) > 0.0 {
        FractionFacts(Cum(dist, path, i), Seg(dist, path, i), s);
        MulCancel(f, Fraction(Cum(dist, path, i), Seg(dist, path, i), s), Seg(dist, path, i));
      }
    } else if Cum(dist, path, k) + Seg(dist, path, k) >= s {
      CumOrder(dist, path, k + 1, i);
      if Seg(dist, path, k) > 0.0 {
        FractionFacts(Cum(dist, path, k), Seg(dist, path, k), s);
        assert Mul(1.0, Seg(dist, path, k)) == Seg(dist, path, k);
        MulCancel(1.0, Fraction(Cum(dist, path, k), Seg(dist, path, k), s), Seg(dist, path, k));
      }
    } else {
      ScanFinds(dist, path, k + 1, i, f);
    }
  }

  lemma PosAtIsLerp(dist: Metric, path: Path, i: nat, f: real)
    requires IsEuclidean(dist) && i + 1 < |path| && 0.0 <= f <= 1.0
    ensures PosAt(dist, path, Cum(dist, path, i) + Mul(f, Seg(dist, path, i))) == Some(At(path, i, f))
    ensures 0.0 <= Cum(dist, path, i) + Mul(f, Seg(dist, path, i)) <= Total(dist, path)
  {
    OnSegmentBounds(dist, path, i, f);
    ScanFinds(dist, path, 0, i, f);
  }

  lemma OnSegmentBounds(dist: Metric, path: Path, i: nat, f: real)
    requires IsEuclidean(dist) && i + 1 < |path| && 0.0 <= f <= 1.0
    ensures 0.0 <= Cum(dist, path, i) + Mul(f, Seg(dist, path, i)) <= Total(dist, path)
  {
    var seg := Seg(dist, path, i);
    DistSign(dist, path[i], path[i + 1]);
    FractionOfSegment(seg, f);
    VertexBounds(dist, path, i);
  }

  lemma VertexBounds(dist: Metric, path: Path, i: nat)
    requires IsEuclidean(dist) && i + 1 < |path|
    ensures 0.0 <= Cum(dist, path, i) && Cum(dist, path, i) + Seg(dist, path, i) <= Total(dist, path)
  {
    CumBounds(dist, path, i);
    CumBounds(dist, path, i + 1);
    CumStep(dist, path, i);
  }

  lemma CumBounds(dist: Metric, path: Path, i: nat)
    requires IsEuclidean(dist) && i < |path|
    ensures 0.0 <= Cum(dist, path, i) <= Total(dist, path)
  {
    CumOrder(dist, path, 0, i);
    CumOrder(dist, path, i, |path| - 1);
  }

  lemma CumStep(dist: Metric, path: Path, i: nat)
    requires i + 1 < |path|
    ensures Cum(dist, path, i + 1) == Cum(dist, path, i) + Seg(dist, path, i)
  {
  }

  // -- Lipschitz continuity -----------------------------------------------------------------------

  lemma {:induction false} VertexReach(dist: Metric, path: Path, i: nat, s: real)
    requires IsEuclidean(dist) && i < |path| && Cum(dist, path, i) <= s
    ensures dist(path[i], PosScan(dist, path, i, s)) <= s - Cum(dist, path, i)
    decreases |path| - i
  {
    if i == |path| - 1 {
      DistSign(dist, path[i], path[i]);
    } else if Cum(dist, path, i) + Seg(dist, path, i) >= s {
      StretchInSegment(dist, path, i, Cum(dist, path, i), s);
    } else {
      VertexReach(dist, path, i + 1, s);
      Triangle(dist, path[i], path[i + 1], PosScan(dist, path, i + 1, s));
    }
  }

  // Two arc-lengths of the same segment are as far apart as their points.
  lemma StretchInSegment(dist: Metric, path: Path, i: nat, s: real, t: real)
    requires IsEuclidean(dist) && i + 1 < |path|
    requires Cum(dist, path, i) <= s <= t <= Cum(dist, path, i) + Seg(dist, path, i)
    ensures var c, seg := Cum(dist, path, i), Seg(dist, path, i);
      && dist(At(path, i, Fraction(c, seg, s)), At(path, i, Fraction(c, seg, t))) == t - s
      && (s == c ==> At(path, i, Fraction(c, seg, s)) == path[i])
      && (t == c + seg ==> At(path, i, Fraction(c, seg, t)) == path[i + 1])
  {
    var c, seg := Cum(dist, path, i), Seg(dist, path, i);
    var f, g := Fraction(c, seg, s), Fraction(c, seg, t);
    DistSign(dist, path[i], path[i + 1]);
    FractionFacts(c, seg, s);
    FractionFacts(c, seg, t);
    LerpDist(dist, path[i], path[i + 1], f, g);
    assert Mul(g - f, seg) == Mul(g, seg) - Mul(f, seg);
    assert Mul(f - g, seg) == Mul(f, seg) - Mul(g, seg);
    if g < f {
      ProductSign(f - g, seg);
    }
    LerpEnds(path[i], path[i + 1]);
    if seg > 0.0 {
      assert Mul(0.0, seg) == 0.0 && Mul(1.0, seg) == seg;
      if s == c {
        MulCancel(f, 0.0, seg);
      }
      if t == c + seg {
        MulCancel(g, 1.0, seg);
      }
    }
  }

  lemma {:induction false} ScanLipschitz(dist: Metric, path: Path, i: nat, s: real, t: real)
    requires IsEuclidean(dist) && i < |path| && Cum(dist, path, i) <= s <= t
    ensures dist(PosScan(dist, path, i, s), PosScan(dist, path, i, t)) <= t - s
    decreases |path| - i
  {
    if i == |path| - 1 {
      DistSign(dist, path[i], path[i]);
    } else {
      var next := Cum(dist, path, i) + Seg(dist, path, i);
      if next >= t {
        StretchInSegment(dist, path, i, s, t);
      } else if next >= s {
        StretchInSegment(dist, path, i, s, next);
        VertexReach(dist, path, i + 1, t);
        Triangle(dist, PosScan(dist, path, i, s), path[i + 1], PosScan(dist, path, i + 1, t));
      } else {
        ScanLipschitz(dist, path, i + 1, s, t);
      }
    }
  }

  // Positions are never further apart than their arc-lengths, clamped ends included.
  lemma PosAtLipschitz(dist: Metric, path: Path, s: real, t: real)
    requires IsEuclidean(dist) && path != []
    ensures dist(PosAt(dist, path, s).value, PosAt(dist, path, t).value) <= Abs(t - s)
  {
    if |path| == 1 {
      DistSign(dist, path[0], path[0]);
    } else {
      var a, b := Max(0.0, s), Max(0.0, t);
      if a <= b {
        ScanLipschitz(dist, path, 0, a, b);
      } else {
        ScanLipschitz(dist, path, 0, b, a);
        DistSymmetric(dist, PosScan(dist, path, 0, a), PosScan(dist, path, 0, b));
      }
    }
  }

  // -- the nearest point ------------------------------------------------------------------------------

  // Where the foot of the perpendicular from p falls on the segment, clamped to the segment.
  function Foot(dist: Metric, a: Point, b: Point, p: Point): real {
    var seg := dist(a, b);
    if seg == 0.0 then 0.0
    else
      SquareSign(seg);
      Max(0.0, Min(1.0, (Mul(p.x - a.x, b.x - a.x) + Mul(p.y - a.y, b.y - a.y)) / Sqr(seg)))
  }

  // The best (distance, arc-length) over the first n segments.
  function Best(dist: Metric, path: Path, p: Point, n: nat): (real, real)
    requires n < |path|
  {
    if n == 0 then (1e18, 0.0)
    else
      var best := Best(dist, path, p, n - 1);
      var f := Foot(dist, path[n - 1], path[n], p);
      var d := dist(At(path, n - 1, f), p);
      if d < best.0 then (d, Cum(dist, path, n - 1) + Mul(f, Seg(dist, path, n - 1))) else best
  }

  function ArclenOfPoint(dist: Metric, path: Path, p: Point): (real, real) {
    if path == [] then (0.0, 1e9)
    else if |path| == 1 then (0.0, dist(path[0], p))
    else var best := Best(dist, path, p, |path| - 1); (best.1, best.0)
  }

  // Squared distance from p along the segment, as a quadratic in the fraction.
  lemma AlongSegment(a: Point, b: Point, p: Point, f: real)
    ensures var wx, wy, vx, vy := b.x - a.x, b.y - a.y, p.x - a.x, p.y - a.y;
      SqDist(Lerp(a, b, f), p)
        == Sqr(vx) + Sqr(vy) - 2.0 * Mul(f, Mul(vx, wx) + Mul(vy, wy)) + Mul(Sqr(f), Sqr(wx) + Sqr(wy))
  {
    SquareOfOffset(p.x - a.x, b.x - a.x, f);
    SquareOfOffset(p.y - a.y, b.y - a.y, f);
    MulSum(f, Mul(p.x - a.x, b.x - a.x), Mul(p.y - a.y, b.y - a.y));
    MulSum(Sqr(f), Sqr(b.x - a.x), Sqr(b.y - a.y));
    var q := Lerp(a, b, f);
    assert p.x - q.x == (p.x - a.x) - Mul(b.x - a.x, f);
    assert p.y - q.y == (p.y - a.y) - Mul(b.y - a.y, f);
  }

  lemma SquareOfOffset(v: real, w: real, f: real)
    ensures Sqr(v - Mul(w, f)) == Sqr(v) - 2.0 * Mul(f, Mul(v, w)) + Mul(Sqr(f), Sqr(w))
  {
    assert (v - w * f) * (v - w * f) == v * v - 2.0 * (f * (v * w)) + (f * f) * (w * w);
  }

  // A clamped vertex minimises a quadratic on [0, 1].
  lemma ClampedVertex(n: real, m: real, f: real)
    requires n > 0.0 && 0.0 <= f <= 1.0
    ensures var t := Max(0.0, Min(1.0, m / n));
      Mul(Sqr(t), n) - 2.0 * Mul(t, m) <= Mul(Sqr(f), n) - 2.0 * Mul(f, m)
  {
    var u := m / n;
    var t := Max(0.0, Min(1.0, u));
    DivMul(m, n);
    QuadraticGap(n, m, u, f, t);
    if u < 0.0 {
      ProductSign(f, f - 2.0 * u);
    } else if u > 1.0 {
      ProductSign(1.0 - f, 2.0 * u - 1.0 - f);
      assert Mul(f - 1.0, f + 1.0 - 2.0 * u) == Mul(1.0 - f, 2.0 * u - 1.0 - f);
    } else {
      SquareSign(f - u);
    }
    ProductSign(n, Mul(f - t, f + t - 2.0 * u));
  }

  lemma QuadraticGap(n: real, m: real, u: real, f: real, t: real)
    requires Mul(u, n) == m
    ensures (Mul(Sqr(f), n) - 2.0 * Mul(f, m)) - (Mul(Sqr(t), n) - 2.0 * Mul(t, m))
      == Mul(n, Mul(f - t, f + t - 2.0 * u))
  {
    assert m == u * n;
    assert ((f * f) * n - 2.0 * (f * (u * n))) - ((t * t) * n - 2.0 * (t * (u * n)))
        == n * ((f - t) * (f + t - 2.0 * u));
  }

  // The foot is the nearest point of the segment.
  lemma FootIsNearest(dist: Metric, a: Point, b: Point, p: Point, f: real)
    requires IsEuclidean(dist) && 0.0 <= f <= 1.0
    ensures 0.0 <= Foot(dist, a, b, p) <= 1.0
    ensures dist(Lerp(a, b, Foot(dist, a, b, p)), p) <= dist(Lerp(a, b, f), p)
  {
    var t := Foot(dist, a, b, p);
    DistSign(dist, a, b);
    DistOrder(dist, Lerp(a, b, t), p, Lerp(a, b, f), p);
    if dist(a, b) == 0.0 {
      LerpEnds(a, b);
    } else {
      assert Euclid(dist, a, b);
      SquareSign(dist(a, b));
      AlongSegment(a, b, p, f);
      AlongSegment(a, b, p, t);
      ClampedVertex(SqDist(a, b), Mul(p.x - a.x, b.x - a.x) + Mul(p.y - a.y, b.y - a.y), f);
    }
  }

  // best is (1e18, 0), or the distance from p to the path point at the arc-length it names.
  ghost predicate Attained(dist: Metric, path: Path, p: Point, n: nat, best: (real, real))
    requires n < |path|
  {
    exists i: nat, f: real :: i < n && 0.0 <= f <= 1.0
      && best.1 == Cum(dist, path, i) + Mul(f, Seg(dist, path, i)) && dist(At(path, i, f), p) == best.0
  }

  lemma {:induction false} BestIsBest(dist: Metric, path: Path, p: Point, n: nat, i: nat, f: real)
    requires IsEuclidean(dist) && n < |path| && i < n && 0.0 <= f <= 1.0
    ensures Best(dist, path, p, n).0 <= dist(At(path, i, f), p)
  {
    FootIsNearest(dist, path[n - 1], path[n], p, f);
    if i < n - 1 {
      BestIsBest(dist, path, p, n - 1, i, f);
    }
  }

  lemma {:induction false} BestIsAttained(dist: Metric, path: Path, p: Point, n: nat)
    requires IsEuclidean(dist) && n < |path|
    ensures var best := Best(dist, path, p, n);
      best == (1e18, 0.0) || (best.0 < 1e18 && Attained(dist, path, p, n, best))
  {
    if n > 0 {
      BestIsAttained(dist, path, p, n - 1);
      var f := Foot(dist, path[n - 1], path[n], p);
      FootIsNearest(dist, path[n - 1], path[n], p, 0.0);
      assert Seg(dist, path, n - 1) == dist(path[n - 1], path[n]);
      var best := Best(dist, path, p, n - 1);
      if dist(At(path, n - 1, f), p) >= best.0 && best.0 < 1e18 {
        var i: nat, g: real :| i < n - 1 && 0.0 <= g <= 1.0
          && best.1 == Cum(dist, path, i) + Mul(g, Seg(dist, path, i)) && dist(At(path, i, g), p) == best.0;
      }
    }
  }

  // A point of the polyline, as a fraction of one of its segments.
  ghost predicate OnPath(path: Path, q: Point) {
    exists i: nat, f: real :: i + 1 < |path| && 0.0 <= f <= 1.0 && q == At(path, i, f)
  }

  // arclen_of_point is exact for paths of two or more points: no point of the polyline is nearer
  // than the distance it returns; and if any is nearer than 1e18, the returned arc-length leads,
  // through PosAt, to a point at exactly that distance. Otherwise it returns (0, 1e18).
  lemma ArclenOfPointExact(dist: Metric, path: Path, p: Point)
    requires IsEuclidean(dist) && |path| >= 2
    ensures var (s, d) := ArclenOfPoint(dist, path, p);
      && (forall q :: OnPath(path, q) ==> d <= dist(q, p))
      && 0.0 <= s <= Total(dist, path)
      && (if exists q :: OnPath(path, q) && dist(q, p) < 1e18
          then OnPath(path, PosAt(dist, path, s).value) && dist(PosAt(dist, path, s).value, p) == d
          else s == 0.0 && d == 1e18)
  {
    var n := |path| - 1;
    var (s, d) := ArclenOfPoint(dist, path, p);
    forall q | OnPath(path, q) ensures d <= dist(q, p) {
      var i: nat, f: real :| i + 1 < |path| && 0.0 <= f <= 1.0 && q == At(path, i, f);
      BestIsBest(dist, path, p, n, i, f);
    }
    BestIsAttained(dist, path, p, n);
    CumOrder(dist, path, 0, n);
    if (d, s) != (1e18, 0.0) {
      var i: nat, f: real :| i < n && 0.0 <= f <= 1.0
        && s == Cum(dist, path, i) + Mul(f, Seg(dist, path, i)) && dist(At(path, i, f), p) == d;
      PosAtIsLerp(dist, path, i, f);
      assert OnPath(path, At(path, i, f));
    }
  }

  // -- an x-coordinate --------------------------------------------------------------------------------

  predicate Covers(a: Point, b: Point, x: real) {
    if a.x <= b.x then a.x <= x <= b.x else b.x <= x <= a.x
  }

  function XScan(dist: Metric, path: Path, x: real, i: nat): Option<real>
    requires i < |path|
    decreases |path| - i
  {
    if i == |path| - 1 then None
    else if Covers(path[i], path[i + 1], x) then
      var a, b := path[i], path[i + 1];
      var f := if b.x == a.x then 0.0 else (x - a.x) / (b.x - a.x);
      Some(Cum(dist, path, i) + Mul(f, Seg(dist, path, i)))
    else XScan(dist, path, x, i + 1)
  }

  function ArclenOfX(dist: Metric, path: Path, x: real): Option<real> {
    if |path| < 2 then None else XScan(dist, path, x, 0)
  }

  lemma CoverFraction(a: Point, b: Point, x: real)
    requires Covers(a, b, x)
    ensures var f := if b.x == a.x then 0.0 else (x - a.x) / (b.x - a.x);
      && 0.0 <= f <= 1.0 && Lerp(a, b, f).x == x
      && forall g :: 0.0 <= g <= 1.0 && Lerp(a, b, g).x == x ==> f <= g
  {
    var w := b.x - a.x;
    if w != 0.0 {
      var f := (x - a.x) / w;
      DivMul(x - a.x, w);
      assert Mul(w, f) == Mul(f, w);
      if w > 0.0 {
        FractionFacts(a.x, w, x);
      } else {
        assert (x - a.x) / w == (a.x - x) / (-w) by { NegateRatio(x - a.x, w); }
        FractionFacts(-a.x, -w, -x);
      }
      forall g | 0.0 <= g <= 1.0 && Lerp(a, b, g).x == x ensures f <= g {
        assert Mul(w, g) == Mul(g, w);
        if w > 0.0 {
          MulCancel(f, g, w);
        } else {
          assert Mul(f, -w) == -Mul(f, w) && Mul(g, -w) == -Mul(g, w);
          MulCancel(f, g, -w);
        }
      }
    }
  }

  lemma NegateRatio(a: real, b: real)
    requires b != 0.0
    ensures a / b == (-a) / (-b)
  {
  }

  lemma LerpCovers(a: Point, b: Point, f: real)
    requires 0.0 <= f <= 1.0
    ensures Covers(a, b, Lerp(a, b, f).x)
  {
    var w := b.x - a.x;
    assert Mul(w, f) == Mul(f, w);
    if w >= 0.0 {
      FractionOfSegment(w, f);
    } else {
      FractionOfSegment(-w, f);
      assert Mul(f, -w) == -Mul(f, w);
    }
  }

  // Scanning from vertex i: nothing if no later segment covers x; otherwise the first place.
  lemma {:induction false} XScanFirst(dist: Metric, path: Path, x: real, i: nat)
    requires IsEuclidean(dist) && i < |path|
    ensures match XScan(dist, path, x, i)
      case None => forall j :: i <= j < |path| - 1 ==> !Covers(path[j], path[j + 1], x)
      case Some(s) =>
        && (exists j: nat, f: real :: i <= j < |path| - 1 && 0.0 <= f <= 1.0 && At(path, j, f).x == x
              && s == Cum(dist, path, j) + Mul(f, Seg(dist, path, j)))
        && (forall j: nat, g: real :: i <= j < |path| - 1 && 0.0 <= g <= 1.0 && At(path, j, g).x == x ==>
              s <= Cum(dist, path, j) + Mul(g, Seg(dist, path, j)))
    decreases |path| - i
  {
    if i < |path| - 1 {
      if Covers(path[i], path[i + 1], x) {
        FirstCover(dist, path, x, i);
      } else {
        XScanFirst(dist, path, x, i + 1);
        forall g: real | 0.0 <= g <= 1.0 ensures At(path, i, g).x != x {
          LerpCovers(path[i], path[i + 1], g);
        }
      }
    }
  }

  lemma FirstCover(dist: Metric, path: Path, x: real, i: nat)
    requires IsEuclidean(dist) && i < |path| - 1 && Covers(path[i], path[i + 1], x)
    ensures var s := XScan(dist, path, x, i).value;
      && (exists f: real :: 0.0 <= f <= 1.0 && At(path, i, f).x == x
            && s == Cum(dist, path, i) + Mul(f, Seg(dist, path, i)))
      && (forall j: nat, g: real :: i <= j < |path| - 1 && 0.0 <= g <= 1.0 && At(path, j, g).x == x ==>
            s <= Cum(dist, path, j) + Mul(g, Seg(dist, path, j)))
  {
    var a, b := path[i], path[i + 1];
    var f := if b.x == a.x then 0.0 else (x - a.x) / (b.x - a.x);
    CoverFraction(a, b, x);
    DistSign(dist, a, b);
    FractionOfSegment(Seg(dist, path, i), f);
    forall j: nat, g: real | i <= j < |path| - 1 && 0.0 <= g <= 1.0 && At(path, j, g).x == x
      ensures Cum(dist, path, i) + Mul(f, Seg(dist, path, i)) <= Cum(dist, path, j) + Mul(g, Seg(dist, path, j))
    {
      DistSign(dist, path[j], path[j + 1]);
      FractionOfSegment(Seg(dist, path, j), g);
      if j == i {
        ProductSign(g - f, Seg(dist, path, i));
        assert Mul(g - f, Seg(dist, path, i)) == Mul(g, Seg(dist, path, i)) - Mul(f, Seg(dist, path, i));
      } else {
        CumOrder(dist, path, i + 1, j);
      }
    }
  }

  // arclen_of_x returns None exactly when no segment covers x; otherwise the position at the
  // returned arc-length has that x, and no smaller arc-length of the path does.
  lemma ArclenOfXExact(dist: Metric, path: Path, x: real)
    requires IsEuclidean(dist)
    ensures match ArclenOfX(dist, path, x)
      case None => forall i: nat :: i + 1 < |path| ==> !Covers(path[i], path[i + 1], x)
      case Some(s) =>
        && 0.0 <= s <= Total(dist, path)
        && PosAt(dist, path, s).Some? && PosAt(dist, path, s).value.x == x
        && forall r :: 0.0 <= r < s ==> PosAt(dist, path, r).value.x != x
  {
    if |path| >= 2 {
      XScanFirst(dist, path, x, 0);
      var o := ArclenOfX(dist, path, x);
      if o.Some? {
        var s := o.value;
        var j: nat, f: real :| j < |path| - 1 && 0.0 <= f <= 1.0 && At(path, j, f).x == x
          && s == Cum(dist, path, j) + Mul(f, Seg(dist, path, j));
        PosAtIsLerp(dist, path, j, f);
        forall r | 0.0 <= r < s ensures PosAt(dist, path, r).value.x != x {
          var i, g := Locate(dist, path, 0, r);
          PosAtIsLerp(dist, path, i, g);
        }
      }
    }
  }

  // Every arc-length of the path lies on one of its segments.
  lemma {:induction false} Locate(dist: Metric, path: Path, k: nat, s: real) returns (i: nat, f: real)
    requires IsEuclidean(dist) && k + 1 < |path| && Cum(dist, path, k) <= s <= Total(dist, path)
    ensures i + 1 < |path| && 0.0 <= f <= 1.0 && s == Cum(dist, path, i) + Mul(f, Seg(dist, path, i))
    decreases |path| - k
  {
    DistSign(dist, path[k], path[k + 1]);
    if s <= Cum(dist, path, k) + Seg(dist, path, k) {
      i, f := k, Fraction(Cum(dist, path, k), Seg(dist, path, k), s);
      FractionFacts(Cum(dist, path, k), Seg(dist, path, k), s);
    } else {
      i, f := Locate(dist, path, k + 1, s);
    }
  }

  // -- the program's loops ------------------------------------------------------------------------

  method PathLength(dist: Metric, path: Path) returns (acc: real)
    ensures acc == Total(dist, path)
  {
    acc := 0.0;
    if path == [] {
      return;
    }
    for i := 0 to |path| - 1
      invariant acc == Cum(dist, path, i)
    {
      acc := acc + dist(path[i], path[i + 1]);
    }
  }

  method PosAtArclen(dist: Metric, path: Path, travelled: real) returns (r: Option<Point>)
    ensures r == PosAt(dist, path, travelled)
  {
    if path == [] {
      return None;
    }
    if |path| == 1 {
      return Some(path[0]);
    }
    var s := Max(0.0, travelled);
    var acc := 0.0;
    for i := 0 to |path| - 1
      invariant acc == Cum(dist, path, i)
      invariant PosScan(dist, path, 0, s) == PosScan(dist, path, i, s)
    {
      var a, b := path[i], path[i + 1];
      var seg := dist(a, b);
      if acc + seg >= s {
        var f := if seg == 0.0 then 0.0 else (s - acc) / seg;
        return Some(Lerp(a, b, f));
      }
      acc := acc + seg;
    }
    r := Some(path[|path| - 1]);
  }

  method NearestArclen(dist: Metric, path: Path, p: Point) returns (s: real, d: real)
    ensures (s, d) == ArclenOfPoint(dist, path, p)
  {
    if |path| < 2 {
      return 0.0, if path != [] then dist(path[0], p) else 1e9;
    }
    var acc := 0.0;
    d, s := 1e18, 0.0;
    for i := 0 to |path| - 1
      invariant acc == Cum(dist, path, i)
      invariant (d, s) == Best(dist, path, p, i)
    {
      var a, b := path[i], path[i + 1];
      var f := Foot(dist, a, b, p);
      var near := dist(Lerp(a, b, f), p);
      if near < d {
        d, s := near, acc + Mul(f, dist(a, b));
      }
      acc := acc + dist(a, b);
    }
  }

  method FirstArclenOfX(dist: Metric, path: Path, x: real) returns (r: Option<real>)
    ensures r == ArclenOfX(dist, path, x)
  {
    if |path| < 2 {
      return None;
    }
    var acc := 0.0;
    for i := 0 to |path| - 1
      invariant acc == Cum(dist, path, i)
      invariant XScan(dist, path, x, 0) == XScan(dist, path, x, i)
    {
      var a, b := path[i], path[i + 1];
      var lo, hi := if a.x <= b.x then a.x else b.x, if a.x <= b.x then b.x else a.x;
      if lo <= x <= hi {
        var f := if b.x == a.x then 0.0 else (x - a.x) / (b.x - a.x);
        return Some(acc + Mul(f, dist(a, b)));
      }
      acc := acc + dist(a, b);
    }
    return None;
  }

  function FrozenTime(t: real, brakeTime: Option<real>): real {
    if brakeTime.Some? && t > brakeTime.value then brakeTime.value else t
  }

  // The position of an actor at time t: it has not spawned before spawnT, and is frozen at brakeTime if
  // there is one.
  function Position(dist: Metric, path: Path, speed: real, spawnT: real, t: real, brakeTime: Option<real>)
    : Option<Point>
  {
    if t < spawnT || path == [] then None
    else if |path| == 1 || speed <= 0.0 then Some(path[0])
    else Some(PosScan(dist, path, 0, Min(Mul(speed, FrozenTime(t, brakeTime) - spawnT), Total(dist, path))))
  }

  method PositionAt(dist: Metric, path: Path, speed: real, spawnT: real, t: real, brakeTime: Option<real>)
    returns (r: Option<Point>)
    ensures r == Position(dist, path, speed, spawnT, t, brakeTime)
  {
    if t < spawnT || path == [] {
      return None;
    }
    var u := FrozenTime(t, brakeTime);
    if |path| == 1 || speed <= 0.0 {
      return Some(path[0]);
    }
    var total := PathLength(dist, path);
    var s := Min(Mul(speed, u - spawnT), total);
    var acc := 0.0;
    for i := 0 to |path| - 1
      invariant acc == Cum(dist, path, i)
      invariant PosScan(dist, path, 0, s) == PosScan(dist, path, i, s)
    {
      var a, b := path[i], path[i + 1];
      var seg := dist(a, b);
      if acc + seg >= s {
        var f := if seg == 0.0 then 0.0 else (s - acc) / seg;
        return Some(Lerp(a, b, f));
      }
      acc := acc + seg;
    }
    r := Some(path[|path| - 1]);
  }

  // An actor is nowhere before its spawn time or without a path, at the start of its path when it does not move,
  // and else as far along it as it has come since it spawned, until it braked if it has.
  lemma PositionMeans(dist: Metric, path: Path, speed: real, spawnT: real, t: real, brakeTime: Option<real>)
    requires IsEuclidean(dist)
    ensures var p := Position(dist, path, speed, spawnT, t, brakeTime);
      && (p.None? <==> t < spawnT || path == [])
      && (t >= spawnT && path != [] && speed <= 0.0 ==> p == Some(path[0]))
      && (t >= spawnT && speed > 0.0 && (brakeTime.Some? ==> brakeTime.value >= t) ==>
            p == PosAt(dist, path, Mul(speed, t - spawnT)))
      && (brakeTime.Some? && spawnT <= brakeTime.value <= t && speed > 0.0 ==>
            p == PosAt(dist, path, Mul(speed, brakeTime.value - spawnT)))
  {
    if t >= spawnT && |path| >= 2 && speed > 0.0 {
      PositionIsOnPathIff(dist, path, speed, spawnT, t, brakeTime);
    }
  }

  // A moving actor is where pos_at_arclen puts it, exactly unless its brake time precedes its spawn time
  // and its first segment has a length: it then lies behind the start of its path.
  lemma PositionIsOnPathIff(dist: Metric, path: Path, speed: real, spawnT: real, t: real, brakeTime: Option<real>)
    requires IsEuclidean(dist) && t >= spawnT && |path| >= 2 && speed > 0.0
    ensures Position(dist, path, speed, spawnT, t, brakeTime)
        == PosAt(dist, path, Mul(speed, FrozenTime(t, brakeTime) - spawnT))
      <==> FrozenTime(t, brakeTime) >= spawnT || path[0] == path[1]
  {
    var u := FrozenTime(t, brakeTime);
    var travelled := Mul(speed, u - spawnT);
    DistSign(dist, path[0], path[1]);
    LerpEnds(path[0], path[1]);
    CumOrder(dist, path, 0, |path| - 1);
    if u < spawnT {
      ProductSign(speed, spawnT - u);
      assert Mul(speed, spawnT - u) == -travelled;
      if path[0] != path[1] {
        BehindStart(path[0], path[1], travelled, dist(path[0], path[1]));
      }
      assert Fraction(0.0, dist(path[0], path[1]), 0.0) == 0.0;
    } else {
      ProductSign(speed, u - spawnT);
      if Total(dist, path) < travelled {
        ScanBeyond(dist, path, 0, Total(dist, path), travelled);
      }
    }
  }

  lemma TenMetres(dist: Metric)
    requires IsEuclidean(dist)
    ensures dist(Point(0.0, 0.0), Point(10.0, 0.0)) == 10.0
  {
    var d := dist(Point(0.0, 0.0), Point(10.0, 0.0));
    assert Euclid(dist, Point(0.0, 0.0), Point(10.0, 0.0));
    assert Sqr(d) == Sqr(10.0);
    SquareOrder(d, 10.0);
  }

  // An actor at 10 m/s, spawned at time 1 and frozen at time 0, lies ten metres behind its path.
  lemma FrozenBeforeSpawn(dist: Metric, path: Path)
    requires IsEuclidean(dist) && path == [Point(0.0, 0.0), Point(10.0, 0.0)]
    ensures Position(dist, path, 10.0, 1.0, 2.0, Some(0.0)) == Some(Point(-10.0, 0.0))
  {
    TenMetres(dist);
    CumStep(dist, path, 0);
    assert Seg(dist, path, 0) == 10.0 && Total(dist, path) == 10.0;
    assert Mul(10.0, 0.0 - 1.0) == -10.0 && Mul(0.0, -1.0) == 0.0;
    assert Fraction(0.0, 10.0, -10.0) == -1.0;
    assert PosScan(dist, path, 0, -10.0) == At(path, 0, -1.0);
  }

  lemma BehindStart(a: Point, b: Point, travelled: real, seg: real)
    requires a != b && travelled < 0.0 && seg > 0.0
    ensures Lerp(a, b, travelled / seg) != a
  {
    var f := travelled / seg;
    DivMul(travelled, seg);
    MulLess(0.0, f, seg);
    MulCancel(f, f, seg);
    NonZeroProduct(b.x - a.x, f);
    NonZeroProduct(b.y - a.y, f);
  }

  lemma NonZeroProduct(a: real, b: real)
    requires b != 0.0
    ensures Mul(a, b) == 0.0 ==> a == 0.0
  {
    SquareSign(Mul(a, b));
    ProductOfSquares(a, b);
    SquareSign(a);
    SquareSign(b);
    if a != 0.0 {
      ProductSign(Sqr(a), Sqr(b));
    }
  }

  // Beyond the end the scan stays at the last vertex, where it also arrives at the total.
  lemma {:induction false} ScanBeyond(dist: Metric, path: Path, i: nat, total: real, s: real)
    requires IsEuclidean(dist) && i < |path| && total == Total(dist, path) < s
    ensures PosScan(dist, path, i, s) == path[|path| - 1]
    ensures PosScan(dist, path, i, total) == path[|path| - 1]
    decreases |path| - i
  {
    if i < |path| - 1 {
      CumOrder(dist, path, i + 1, |path| - 1);
      ScanBeyond(dist, path, i + 1, total, s);
      var seg := Seg(dist, path, i);
      DistSign(dist, path[i], path[i + 1]);
      LerpEnds(path[i], path[i + 1]);
      if Cum(dist, path, i) + seg >= total && seg > 0.0 {
        FractionFacts(Cum(dist, path, i), seg, total);
        MulLess(0.0, 1.0, seg);
        MulCancel(1.0, Fraction(Cum(dist, path, i), seg, total), seg);
      }
    }
  }
}
