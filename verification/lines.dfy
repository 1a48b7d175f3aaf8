/**
 * GeometricLine and the line helpers of CourseHole: the line
 * a·x + b·y + c = 0 in the plane x = longitude, y = latitude. Every line the
 * engine builds has b = -1, so it reads y = a·x + c.
 */
module Lines {
  import opened Geo
  import CoursesHelper

  datatype Line = Line(a: real, b: real, c: real)

  /** `p` satisfies the line's equation. */
  predicate OnLine(p: Coord, l: Line) {
    l.a * p.lon + l.b * p.lat + l.c == 0.0
  }

  /** The `c` of the line with slope `slope` through `p` (where that line crosses x = 0). */
  function Intercept(p: Coord, slope: real): real {
    p.lat - slope * p.lon
  }

  datatype Side = Right | Left | OnTheLine

  /**
   * `point(featurePoint:isRightTo:)` (y < a·x + c), tried first, then
   * `point(featurePoint:isLeftTo:)` (y > a·x + c); anything else is on the line.
   * Only `a` and `c` are read.
   */
  function SideOf(p: Coord, l: Line): (s: Side)
    ensures s == Right <==> Intercept(p, l.a) < l.c
    ensures s == Left <==> Intercept(p, l.a) > l.c
    ensures s == OnTheLine <==> Intercept(p, l.a) == l.c
  {
    var y := p.lat;
    var axPlusC := l.a * p.lon + l.c;
    if y < axPlusC then Right else if y > axPlusC then Left else OnTheLine
  }

  /** The numerator |a·x + b·y + c| of `distanceFrom(point:to:)`. */
  function Numerator(p: Coord, l: Line): (r: real)
    ensures r >= 0.0
    ensures l.b == -1.0 ==> r == CoursesHelper.Abs(l.c - Intercept(p, l.a))
  {
    CoursesHelper.Abs(l.a * p.lon + l.b * p.lat + l.c)
  }

  /**
   * `distanceFrom(point:to:)`: the numerator over `norm`, which stands for
   * sqrt(a² + b²), positive because b = -1.
   */
  function DistanceToLine(p: Coord, l: Line, norm: real): real
    requires norm > 0.0
  {
    Numerator(p, l) / norm
  }

  /**
   * Against one line every point is divided by the same positive norm, so
   * comparing distances is comparing numerators; the scans below compare
   * numerators only.
   */
  lemma CompareByNumerator(p: Coord, q: Coord, l: Line, norm: real)
    requires norm > 0.0
    ensures DistanceToLine(p, l, norm) > DistanceToLine(q, l, norm) <==> Numerator(p, l) > Numerator(q, l)
  {
    var dp, dq := DistanceToLine(p, l, norm), DistanceToLine(q, l, norm);
    QuotientOrder(dp, dq, Numerator(p, l), Numerator(q, l), norm);
  }

  /** Multiplying by a positive factor keeps a strict order. */
  lemma QuotientOrder(dp: real, dq: real, np: real, nq: real, n: real)
    requires n > 0.0 && dp * n == np && dq * n == nq
    ensures dp > dq <==> np > nq
  {
    assert (dp - dq) * n == np - nq;
    ProductSign(dp - dq, n);
  }

  lemma ProductSign(u: real, n: real)
    requires n > 0.0
    ensures u > 0.0 <==> u * n > 0.0
  {
  }

  /** Slopes `a` and `m` belong to lines at right angles. */
  predicate RightAngled(a: real, m: real) {
    a * m == -1.0
  }

  /** `lineParallel(to:andPassingFrom:)`: same slope, b = -1, through `p`. */
  function LineParallel(l: Line, p: Coord): (r: Line)
    ensures r.a == l.a && r.b == -1.0
    ensures OnLine(p, r) && r.c == Intercept(p, l.a)
  {
    Line(l.a, -1.0, p.lat - l.a * p.lon)
  }

  /** `pointLocation(fromIntersectionOf:and:)`: for two lines with b = -1 and different slopes, a point on both. */
  function Intersection(first: Line, second: Line): (r: Coord)
    requires first.a != second.a
    ensures first.b == -1.0 && second.b == -1.0 ==> OnLine(r, first) && OnLine(r, second)
  {
    var x := (first.c - second.c) / (second.a - first.a);
    var y := first.a * x + first.c;
    assert (second.a - first.a) * x == first.c - second.c;
    Coord(y, x)
  }

  /** Two lines with b = -1 and different slopes meet in exactly one point, the one `Intersection` returns. */
  lemma IntersectionUnique(first: Line, second: Line, p: Coord)
    requires first.a != second.a && first.b == -1.0 && second.b == -1.0
    requires OnLine(p, first) && OnLine(p, second)
    ensures p == Intersection(first, second)
  {
    var d := second.a - first.a;
    assert d * p.lon == first.c - second.c;
    assert p.lon == (first.c - second.c) / d;
  }
}
