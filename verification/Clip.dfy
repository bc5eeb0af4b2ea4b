// Line of sight: Liang-Barsky clipping of a segment against an axis-aligned rectangle.
module Clip {
  import opened Basics
  import opened Plane

  // One half-plane constraint on the parameter: pp * t <= qq.
  datatype Bound = Bound(pp: real, qq: real)

  ghost predicate Meets(b: Bound, t: real) { Mul(b.pp, t) <= b.qq }

  function Bounds(p: Point, q: Point, center: Point, size: Point): seq<Bound> {
    var hw, hl := size.x / 2.0, size.y / 2.0;
    var dx, dy := q.x - p.x, q.y - p.y;
    [Bound(-dx, p.x - (center.x - hw)), Bound(dx, (center.x + hw) - p.x),
     Bound(-dy, p.y - (center.y - hl)), Bound(dy, (center.y + hl) - p.y)]
  }

  ghost predicate InRect(a: Point, center: Point, size: Point) {
    && center.x - size.x / 2.0 <= a.x <= center.x + size.x / 2.0
    && center.y - size.y / 2.0 <= a.y <= center.y + size.y / 2.0
  }

  lemma BoundsMeanRect(p: Point, q: Point, center: Point, size: Point, t: real)
    ensures InRect(Lerp(p, q, t), center, size) <==> forall i :: 0 <= i < 4 ==> Meets(Bounds(p, q, center, size)[i], t)
  {
    var bs := Bounds(p, q, center, size);
    var dx, dy := q.x - p.x, q.y - p.y;
    assert Mul(-dx, t) == -Mul(dx, t) && Mul(-dy, t) == -Mul(dy, t);
    assert Meets(bs[0], t) <==> center.x - size.x / 2.0 <= Lerp(p, q, t).x;
    assert Meets(bs[1], t) <==> Lerp(p, q, t).x <= center.x + size.x / 2.0;
    assert Meets(bs[2], t) <==> center.y - size.y / 2.0 <= Lerp(p, q, t).y;
    assert Meets(bs[3], t) <==> Lerp(p, q, t).y <= center.y + size.y / 2.0;
  }

  // A single bound cuts the line at qq / pp.
  lemma BoundCuts(b: Bound, t: real)
    ensures b.pp == 0.0 ==> (Meets(b, t) <==> 0.0 <= b.qq)
    ensures b.pp < 0.0 ==> (Meets(b, t) <==> b.qq / b.pp <= t)
    ensures b.pp > 0.0 ==> (Meets(b, t) <==> t <= b.qq / b.pp)
  {
    if b.pp == 0.0 {
      assert Mul(b.pp, t) == 0.0;
    } else {
      var r := b.qq / b.pp;
      assert Mul(b.pp, r) == b.qq;
      if b.pp > 0.0 {
        ScaleOrder(b.pp, t, r);
      } else {
        ScaleOrder(-b.pp, t, r);
        assert Mul(-b.pp, t) == -Mul(b.pp, t) && Mul(-b.pp, r) == -Mul(b.pp, r);
      }
    }
  }

  lemma ScaleOrder(k: real, s: real, t: real)
    requires k > 0.0
    ensures Mul(k, s) <= Mul(k, t) <==> s <= t
  {
    assert Mul(k, t) - Mul(k, s) == Mul(k, t - s);
    assert Mul(k, s) - Mul(k, t) == Mul(k, s - t);
    if s < t {
      ProductSign(k, t - s);
    } else if t < s {
      ProductSign(k, s - t);
    }
  }

  // The segment meets the closed rectangle, for every segment (a single point included) and every
  // rectangle (an empty one of negative size included). [t0, t1] is at each turn the exact set of
  // parameters that meet the bounds looked at so far.
  method SegIntersectsRect(p: Point, q: Point, center: Point, size: Point) returns (hit: bool)
    ensures hit <==> exists t :: 0.0 <= t <= 1.0 && InRect(Lerp(p, q, t), center, size)
  {
    var bs := Bounds(p, q, center, size);
    var t0, t1 := 0.0, 1.0;
    for i := 0 to |bs|
      invariant t0 <= t1
      invariant forall t {:trigger InRange(t, t0, t1)} ::
        InRange(t, t0, t1) <==> InRange(t, 0.0, 1.0) && forall j :: 0 <= j < i ==> Meets(bs[j], t)
    {
      ghost var s0, s1 := t0, t1;
      var b := bs[i];
      forall t {
        BoundCuts(b, t);
      }
      if b.pp == 0.0 {
        if b.qq < 0.0 {
          Misses(p, q, center, size, t0, t1, i);
          return false;
        }
      } else {
        var r := b.qq / b.pp;
        if b.pp < 0.0 {
          t0 := Max(t0, r);
        } else {
          t1 := Min(t1, r);
        }
        if t0 > t1 {
          Misses(p, q, center, size, s0, s1, i);
          return false;
        }
      }
      assert forall t :: InRange(t, t0, t1) <==> InRange(t, s0, s1) && Meets(b, t);
    }
    assert InRange(t0, t0, t1);
    BoundsMeanRect(p, q, center, size, t0);
    return true;
  }

  ghost predicate InRange(t: real, lo: real, hi: real) { lo <= t <= hi }

  // When the bounds up to i leave nothing of [s0, s1], the segment misses the rectangle.
  lemma Misses(p: Point, q: Point, center: Point, size: Point, s0: real, s1: real, i: nat)
    requires i < 4
    requires forall t {:trigger InRange(t, s0, s1)} ::
      InRange(t, s0, s1) <==> InRange(t, 0.0, 1.0) && forall j :: 0 <= j < i ==> Meets(Bounds(p, q, center, size)[j], t)
    requires forall t :: InRange(t, s0, s1) ==> !Meets(Bounds(p, q, center, size)[i], t)
    ensures !exists t :: 0.0 <= t <= 1.0 && InRect(Lerp(p, q, t), center, size)
  {
    forall t | 0.0 <= t <= 1.0 ensures !InRect(Lerp(p, q, t), center, size) {
      BoundsMeanRect(p, q, center, size, t);
      assert InRange(t, s0, s1) ==> !Meets(Bounds(p, q, center, size)[i], t);
    }
  }
}
