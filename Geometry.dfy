/**
 * Plane geometry of the villages. The C++ library's hypot is not given a
 * body: every agent receives it as a parameter, and the facts about distances
 * are proved for any `hypot` that behaves as the Euclidean norm over the reals.
 */
module Geometry {

  datatype Point = Point(x: real, y: real)

  /**
   * `hypot` is the Euclidean norm over the reals (no rounding): its value is
   * the non-negative square root of dx*dx + dy*dy. Its evenness and its value
   * at the origin follow from that, and are listed because the solver's
   * non-linear real arithmetic does not derive them.
   */
  ghost predicate IsHypot(hypot: (real, real) -> real)
  {
    && (forall dx: real, dy: real ::
          0.0 <= hypot(dx, dy) && hypot(dx, dy) * hypot(dx, dy) == dx * dx + dy * dy)
    && (forall dx: real, dy: real :: hypot(-dx, -dy) == hypot(dx, dy))
    && hypot(0.0, 0.0) == 0.0
  }

  /** The distance every agent computes: hypot of the coordinate differences. */
  function Distance(hypot: (real, real) -> real, p: Point, q: Point): real
  {
    hypot(p.x - q.x, p.y - q.y)
  }

  /** The distance is non-negative, symmetric and zero from a point to itself. */
  lemma DistanceLaws(hypot: (real, real) -> real, p: Point, q: Point)
    requires IsHypot(hypot)
    ensures 0.0 <= Distance(hypot, p, q)
    ensures Distance(hypot, p, q) == Distance(hypot, q, p)
    ensures Distance(hypot, p, p) == 0.0
  {
    assert q.x - p.x == -(p.x - q.x);
    assert q.y - p.y == -(p.y - q.y);
  }

  /** Squaring is strictly monotone on the non-negative reals. */
  lemma SquareLess(a: real, b: real)
    requires 0.0 <= a < b
    ensures a * a < b * b
  {
    ProductPositive(b - a, b + a);
    assert (b - a) * (b + a) == b * b - a * a;
  }

  lemma ProductPositive(u: real, v: real)
    requires 0.0 < u && 0.0 < v
    ensures 0.0 < u * v
  {
  }

  /**
   * Under IsHypot, hypot(dx, dy) lies strictly between `lo` and `hi` whenever
   * their squares bracket dx*dx + dy*dy.
   */
  lemma HypotBetween(hypot: (real, real) -> real, dx: real, dy: real, lo: real, hi: real)
    requires IsHypot(hypot)
    requires 0.0 <= lo && 0.0 <= hi && lo * lo < dx * dx + dy * dy < hi * hi
    ensures lo < hypot(dx, dy) < hi
  {
    var h := hypot(dx, dy);
    if h < lo {
      SquareLess(h, lo);
    }
    if hi < h {
      SquareLess(hi, h);
    }
  }

  /** Under IsHypot, hypot(dx, dy) is the non-negative root `r` of dx*dx + dy*dy. */
  lemma HypotIs(hypot: (real, real) -> real, dx: real, dy: real, r: real)
    requires IsHypot(hypot)
    requires 0.0 <= r && r * r == dx * dx + dy * dy
    ensures hypot(dx, dy) == r
  {
    var h := hypot(dx, dy);
    if h < r {
      SquareLess(h, r);
    } else if r < h {
      SquareLess(r, h);
    }
  }
}
