/** Plane geometry shared by the spatial index and the area-of-interest cache.
    Coordinates are mathematical reals. Distances ignore `z`, as the source does. */
module Geometry {

  datatype Vec3 = Vec3(x: real, y: real, z: real) {
    function Plus(o: Vec3): Vec3 { Vec3(x + o.x, y + o.y, z + o.z) }
    function Scale(k: real): Vec3 { Vec3(x * k, y * k, z * k) }
  }

  const ORIGIN := Vec3(0.0, 0.0, 0.0)

  function Sq(a: real): real { a * a }

  /** Squared distance of two points in the x/y plane. */
  function DistSq(p: Vec3, q: Vec3): real { Sq(p.x - q.x) + Sq(p.y - q.y) }

  /** The two points are at Euclidean distance at most `d`. */
  ghost predicate Within(p: Vec3, q: Vec3, d: real) { 0.0 <= d && DistSq(p, q) <= Sq(d) }

  function Min(a: real, b: real): real { if b < a then b else a }
  function Max(a: real, b: real): real { if a < b then b else a }

  lemma SqReflectsOrder(a: real, b: real)
    requires 0.0 <= b && Sq(a) <= Sq(b)
    ensures a <= b
  {
    if a > b {
      SqStrict(b, a - b);
    }
  }

  lemma SqStrict(b: real, gap: real)
    requires 0.0 <= b && 0.0 < gap
    ensures Sq(b) < Sq(b + gap)
  {}

  lemma SqNonNegative(a: real)
    ensures 0.0 <= Sq(a)
  {}

  /** Cauchy-Schwarz for two plane vectors (a, b) and (c, d). */
  lemma CauchySchwarz(a: real, b: real, c: real, d: real)
    ensures Sq(a * c + b * d) <= (Sq(a) + Sq(b)) * (Sq(c) + Sq(d))
  {
    SqNonNegative(a * d - b * c);
    calc {
      (Sq(a) + Sq(b)) * (Sq(c) + Sq(d)) - Sq(a * c + b * d);
      a * a * (d * d) + b * b * (c * c) - 2.0 * (a * c * (b * d));
      Sq(a * d - b * c);
    }
  }

  lemma ProductMonotone(a: real, b: real, c: real, d: real)
    requires 0.0 <= a <= b && 0.0 <= c <= d
    ensures a * c <= b * d
  {}

  /** Lengths of plane vectors (a, b) and (c, d) add up to at least the length of their sum. */
  lemma SumLength(a: real, b: real, c: real, d: real, m: real, n: real)
    requires 0.0 <= m && 0.0 <= n && Sq(a) + Sq(b) <= Sq(m) && Sq(c) + Sq(d) <= Sq(n)
    ensures Sq(a + c) + Sq(b + d) <= Sq(m + n)
  {
    CauchySchwarz(a, b, c, d);
    ProductMonotone(Sq(a) + Sq(b), Sq(m), Sq(c) + Sq(d), Sq(n));
    assert Sq(m) * Sq(n) == Sq(m * n);
    SqReflectsOrder(a * c + b * d, m * n);
    assert Sq(a + c) + Sq(b + d) == Sq(a) + Sq(b) + (Sq(c) + Sq(d)) + 2.0 * (a * c + b * d);
    assert Sq(m + n) == Sq(m) + Sq(n) + 2.0 * (m * n);
  }

  /** The triangle inequality, stated without square roots. */
  lemma Triangle(p: Vec3, q: Vec3, r: Vec3, m: real, n: real)
    requires Within(p, q, m) && Within(q, r, n)
    ensures Within(p, r, m + n)
  {
    SumLength(p.x - q.x, p.y - q.y, q.x - r.x, q.y - r.y, m, n);
  }

  lemma WithinSymmetric(p: Vec3, q: Vec3, d: real)
    ensures Within(p, q, d) == Within(q, p, d)
  {}

  lemma WithinMonotone(p: Vec3, q: Vec3, d: real, e: real)
    requires Within(p, q, d) && d <= e
    ensures Within(p, q, e)
  {}

  /** An axis-aligned rectangle, closed at its low edges and open at its high ones. */
  datatype Bounds = Bounds(x: real, y: real, width: real, height: real) {
    predicate Contains(p: Vec3) {
      x <= p.x < x + width && y <= p.y < y + height
    }

    /** The test that prunes a query: the rectangle's point closest to the centre is in the circle. */
    predicate Intersects(center: Vec3, radius: real) {
      var closestX := Max(x, Min(center.x, x + width));
      var closestY := Max(y, Min(center.y, y + height));
      Sq(center.x - closestX) + Sq(center.y - closestY) <= radius * radius
    }

    function NW(): Bounds { Bounds(x, y, width * 0.5, height * 0.5) }
    function NE(): Bounds { Bounds(x + width * 0.5, y, width * 0.5, height * 0.5) }
    function SW(): Bounds { Bounds(x, y + height * 0.5, width * 0.5, height * 0.5) }
    function SE(): Bounds { Bounds(x + width * 0.5, y + height * 0.5, width * 0.5, height * 0.5) }
  }

  /** The half-open quadrants tile their parent: a point of the parent lies in exactly one of them,
      and a point of a quadrant lies in the parent. */
  lemma QuadrantsTile(b: Bounds, p: Vec3)
    ensures b.Contains(p) <==>
            b.NW().Contains(p) || b.NE().Contains(p) || b.SW().Contains(p) || b.SE().Contains(p)
    ensures b.NW().Contains(p) ==> !b.NE().Contains(p) && !b.SW().Contains(p) && !b.SE().Contains(p)
    ensures b.NE().Contains(p) ==> !b.SW().Contains(p) && !b.SE().Contains(p)
    ensures b.SW().Contains(p) ==> !b.SE().Contains(p)
  {}

  /** On one axis, no point of [lo, hi) is closer to `c` than `c` clamped into the interval. */
  lemma ClampIsClosest(lo: real, hi: real, c: real, p: real)
    requires lo <= p < hi
    ensures Sq(c - Max(lo, Min(c, hi))) <= Sq(p - c)
  {}

  /** Pruning is sound: a rectangle holding a point of the circle is never pruned. */
  lemma PruneSound(b: Bounds, p: Vec3, center: Vec3, radius: real)
    requires b.Contains(p) && DistSq(p, center) <= radius * radius
    ensures b.Intersects(center, radius)
  {
    ClampIsClosest(b.x, b.x + b.width, center.x, p.x);
    ClampIsClosest(b.y, b.y + b.height, center.y, p.y);
  }
}
