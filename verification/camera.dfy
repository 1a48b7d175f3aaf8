/**
 * CameraCalculator: how far from the ground the camera must sit for a span
 * of `distance` plus `padding`, with a 20% margin, to fill a 30° field of
 * view. `tan(15°)` is the parameter `tanHalfFov`.
 */
module Camera {
  import CoursesHelper

  /** The camera never comes closer than 200 metres. */
  const MinimumDistance: real := 200.0
  /** The margin is a fifth of the distance. */
  const MarginRatio: real := 0.2

  /** The long dimension with its margin, `distance + padding + 0.2·distance`. */
  function Span(distance: real, padding: real): (r: real)
    ensures r == 1.2 * distance + padding
  {
    distance + padding + distance * MarginRatio
  }

  /** `calculateCameraDistance(from:with:)`: half the span over tan(15°), but at least 200. */
  function CameraDistance(distance: real, padding: real, tanHalfFov: real): (r: real)
    requires tanHalfFov > 0.0
    ensures r >= MinimumDistance
    ensures r * (2.0 * tanHalfFov) >= Span(distance, padding)
    ensures Span(distance, padding) >= MinimumDistance * (2.0 * tanHalfFov) ==> r * (2.0 * tanHalfFov) == Span(distance, padding)
    ensures Span(distance, padding) < MinimumDistance * (2.0 * tanHalfFov) ==> r == MinimumDistance
  {
    var q := (Span(distance, padding) / 2.0) / tanHalfFov;
    HalfOverTan(Span(distance, padding), tanHalfFov, q);
    CoursesHelper.Max(MinimumDistance, q)
  }

  /** The quotient scales back to the span, and it reaches 200 exactly when the span reaches 200·2·tan. */
  lemma HalfOverTan(s: real, t: real, q: real)
    requires t > 0.0 && q == (s / 2.0) / t
    ensures q * (2.0 * t) == s
    ensures q >= MinimumDistance <==> s >= MinimumDistance * (2.0 * t)
  {
    assert q * t == s / 2.0;
    ScaleOrder(q, MinimumDistance, 2.0 * t);
  }

  /** Multiplying both sides by a positive factor keeps `>=`. */
  lemma ScaleOrder(x: real, y: real, k: real)
    requires k > 0.0
    ensures x >= y <==> x * k >= y * k
  {
    assert x * k - y * k == (x - y) * k;
  }

  /** A longer distance or a larger padding never brings the camera closer. */
  lemma CameraDistanceMonotone(d1: real, p1: real, d2: real, p2: real, tanHalfFov: real)
    requires tanHalfFov > 0.0 && d1 <= d2 && p1 <= p2
    ensures CameraDistance(d1, p1, tanHalfFov) <= CameraDistance(d2, p2, tanHalfFov)
  {
    var k := 2.0 * tanHalfFov;
    var r1, r2 := CameraDistance(d1, p1, tanHalfFov), CameraDistance(d2, p2, tanHalfFov);
    if r1 > MinimumDistance {
      FromScaled(r1, r2, Span(d1, p1), Span(d2, p2), k);
    }
  }

  /** Two values whose scaled images bracket a growing pair keep their order. */
  lemma FromScaled(r1: real, r2: real, s1: real, s2: real, k: real)
    requires k > 0.0 && r1 * k == s1 && s1 <= s2 && s2 <= r2 * k
    ensures r1 <= r2
  {
    ScaleOrder(r2, r1, k);
  }

  /** Nothing to show puts the camera at exactly 200 metres. */
  lemma EmptySpanAtMinimum(tanHalfFov: real)
    requires tanHalfFov > 0.0
    ensures CameraDistance(0.0, 0.0, tanHalfFov) == MinimumDistance
  {
  }
}
