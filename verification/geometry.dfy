/**
 * Plane geometry of the scene: points and vectors (CGPoint, CGVector) with real coordinates,
 * squared distances, and the per-frame linear interpolation used to smooth velocities.
 */
module Geometry {

  /** A point or a vector in world coordinates. */
  datatype Vec = Vec(x: real, y: real)

  const Origin: Vec := Vec(0.0, 0.0)

  function Add(a: Vec, b: Vec): Vec { Vec(a.x + b.x, a.y + b.y) }

  function Scale(a: Vec, k: real): Vec { Vec(a.x * k, a.y * k) }

  function Dot(a: Vec, b: Vec): real { a.x * b.x + a.y * b.y }

  function NormSq(a: Vec): (n: real)
    ensures n >= 0.0
  {
    a.x * a.x + a.y * a.y
  }

  /** The squared Euclidean distance between two points; never negative. */
  function DistSq(a: Vec, b: Vec): (d: real)
    ensures d >= 0.0
  {
    (a.x - b.x) * (a.x - b.x) + (a.y - b.y) * (a.y - b.y)
  }

  /**
   * `hypot(a.x - b.x, a.y - b.y) < r`, the source's proximity test, written on squared
   * distances (WithinIsHypotLess shows the two agree for every r).
   */
  predicate Within(a: Vec, b: Vec, r: real)
  {
    r > 0.0 && DistSq(a, b) < r * r
  }

  /** `h` is the Euclidean length function `hypot`: non-negative and squaring to dx² + dy². */
  ghost predicate IsHypot(h: (real, real) -> real)
  {
    forall dx: real, dy: real :: HypotAt(h, dx, dy)
  }

  /** `h` at one point: non-negative and squaring to dx² + dy². */
  ghost predicate HypotAt(h: (real, real) -> real, dx: real, dy: real)
  {
    h(dx, dy) >= 0.0 && h(dx, dy) * h(dx, dy) == dx * dx + dy * dy
  }

  /** On non-negative reals, squaring preserves and reflects the strict order. */
  lemma SquareLess(a: real, b: real)
    requires a >= 0.0 && b >= 0.0
    ensures a < b <==> a * a < b * b
  {
    assert b * b - a * a == (b - a) * (b + a);
    if a < b {
      PositiveProduct(b - a, b + a);
    } else if b < a {
      PositiveProduct(a - b, a + b);
    }
  }

  lemma PositiveProduct(x: real, y: real)
    requires x > 0.0 && y > 0.0
    ensures x * y > 0.0
  {
  }

  lemma NonNegativeProduct(x: real, y: real)
    requires x >= 0.0 && y >= 0.0
    ensures x * y >= 0.0
  {
  }

  /** Comparing a hypot against a bound is the same as comparing squares, for every bound. */
  lemma HypotLess(h: (real, real) -> real, dx: real, dy: real, r: real)
    requires IsHypot(h)
    ensures h(dx, dy) < r <==> r > 0.0 && dx * dx + dy * dy < r * r
  {
    var d := h(dx, dy);
    assert HypotAt(h, dx, dy);
    if r > 0.0 {
      SquareLess(d, r);
    }
  }

  /** The same for the non-strict comparison `hypot > r` used by the bots' dead zone. */
  lemma HypotGreater(h: (real, real) -> real, dx: real, dy: real, r: real)
    requires IsHypot(h) && r >= 0.0
    ensures h(dx, dy) > r <==> dx * dx + dy * dy > r * r
  {
    var d := h(dx, dy);
    assert HypotAt(h, dx, dy);
    SquareLess(r, d);
  }

  /** Within is exactly the source's `hypot(a - b) < r`. */
  lemma WithinIsHypotLess(h: (real, real) -> real, a: Vec, b: Vec, r: real)
    requires IsHypot(h)
    ensures Within(a, b, r) <==> h(a.x - b.x, a.y - b.y) < r
  {
    HypotLess(h, a.x - b.x, a.y - b.y, r);
  }

  /** `v + (d - v) * k`, one frame of velocity smoothing toward `d`. */
  function Lerp(v: real, d: real, k: real): real
  {
    v + (d - v) * k
  }

  function LerpVec(v: Vec, d: Vec, k: real): Vec
  {
    Vec(Lerp(v.x, d.x, k), Lerp(v.y, d.y, k))
  }

  /** For a factor in [0, 1] the smoothed value lies between the old and the desired value. */
  lemma LerpBetween(v: real, d: real, k: real)
    requires 0.0 <= k <= 1.0
    ensures v <= d ==> v <= Lerp(v, d, k) <= d
    ensures d <= v ==> d <= Lerp(v, d, k) <= v
    ensures Lerp(v, d, k) - d == (v - d) * (1.0 - k)
  {
    if v <= d {
      NonNegativeProduct(d - v, k);
      NonNegativeProduct(d - v, 1.0 - k);
    } else {
      NonNegativeProduct(v - d, k);
      NonNegativeProduct(v - d, 1.0 - k);
    }
  }
}
