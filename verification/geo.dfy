/**
 * Geographic points (CLLocationCoordinate2D / CLLocation), the distance
 * between two of them, and the coordinate-wise mean used for every
 * "centre" the hole engine computes.
 */
module Geo {
  import opened Wrappers

  /** A latitude/longitude pair in degrees; the engine treats longitude as x and latitude as y. */
  datatype Coord = Coord(lat: real, lon: real)

  /**
   * `CLLocation.distance(from:)`, which the model does not compute. All it
   * relies on: a distance is never negative, and it does not depend on
   * which end it is measured from.
   */
  type Metric = d: (Coord, Coord) -> real
    | forall p: Coord, q: Coord :: 0.0 <= d(p, q) && d(p, q) == d(q, p)
    witness (p: Coord, q: Coord) => 0.0

  /** Score of a point by its distance to `target`, written `p.distance(from: target)`. */
  function DistanceTo(dist: Metric, target: Coord): Coord -> real {
    p => dist(p, target)
  }

  /** Score of a point by the distance from `origin`, written `origin.distance(from: p)`. */
  function DistanceFrom(dist: Metric, origin: Coord): Coord -> real {
    p => dist(origin, p)
  }

  function SumLat(pts: seq<Coord>): real
    decreases |pts|
  {
    if |pts| == 0 then 0.0 else SumLat(pts[..|pts| - 1]) + pts[|pts| - 1].lat
  }

  function SumLon(pts: seq<Coord>): real
    decreases |pts|
  {
    if |pts| == 0 then 0.0 else SumLon(pts[..|pts| - 1]) + pts[|pts| - 1].lon
  }

  /**
   * Sum each coordinate, divide by the count; nil for no points. This is
   * how greenCenter, teeCenters, centerCoordinate and centroid all work.
   */
  function Mean(pts: seq<Coord>): (r: Option<Coord>)
    ensures r.None? <==> |pts| == 0
    ensures r.Some? ==> IsMeanOf(r.value, pts)
  {
    if |pts| == 0 then None
    else Some(Coord(SumLat(pts) / (|pts| as real), SumLon(pts) / (|pts| as real)))
  }

  /** `c` times the number of points is the sum of the points, coordinate by coordinate. */
  predicate IsMeanOf(c: Coord, pts: seq<Coord>) {
    c.lat * (|pts| as real) == SumLat(pts) && c.lon * (|pts| as real) == SumLon(pts)
  }

  /** Every latitude lies in [lo, hi] and every longitude in [west, east]. */
  ghost predicate InBox(pts: seq<Coord>, lo: real, hi: real, west: real, east: real) {
    forall i :: 0 <= i < |pts| ==> lo <= pts[i].lat <= hi && west <= pts[i].lon <= east
  }

  /** `x` added to itself `n` times. */
  function Times(n: nat, x: real): real {
    if n == 0 then 0.0 else Times(n - 1, x) + x
  }

  lemma {:induction false} TimesIsProduct(n: nat, x: real)
    ensures Times(n, x) == (n as real) * x
  {
    if n > 0 {
      TimesIsProduct(n - 1, x);
      assert (n as real) * x == ((n - 1) as real) * x + x;
    }
  }

  lemma {:induction false} SumsWithinBox(pts: seq<Coord>, lo: real, hi: real, west: real, east: real)
    requires InBox(pts, lo, hi, west, east)
    ensures Times(|pts|, lo) <= SumLat(pts) <= Times(|pts|, hi)
    ensures Times(|pts|, west) <= SumLon(pts) <= Times(|pts|, east)
    decreases |pts|
  {
    if |pts| > 0 {
      SumsWithinBox(pts[..|pts| - 1], lo, hi, west, east);
    }
  }

  /** From `m * n == s` and `n * lo <= s <= n * hi` with `n > 0`: `lo <= m <= hi`. */
  lemma QuotientBetween(s: real, n: real, m: real, lo: real, hi: real)
    requires n > 0.0 && m * n == s && n * lo <= s <= n * hi
    ensures lo <= m <= hi
  {
    assert (m - lo) * n >= 0.0;
    assert (hi - m) * n >= 0.0;
  }

  /** The mean of a non-empty point set lies inside every latitude/longitude box that holds all the points. */
  lemma {:induction false} MeanWithinBox(pts: seq<Coord>, lo: real, hi: real, west: real, east: real)
    requires |pts| > 0 && InBox(pts, lo, hi, west, east)
    ensures Mean(pts).Some?
    ensures lo <= Mean(pts).value.lat <= hi && west <= Mean(pts).value.lon <= east
  {
    var m := Mean(pts).value;
    SumsWithinBox(pts, lo, hi, west, east);
    MeanBetween(SumLat(pts), |pts|, m.lat, lo, hi);
    MeanBetween(SumLon(pts), |pts|, m.lon, west, east);
  }

  /** A sum of `n` terms between `lo` and `hi` each, divided by `n`, lies between `lo` and `hi`. */
  lemma MeanBetween(s: real, n: nat, m: real, lo: real, hi: real)
    requires n > 0 && m * (n as real) == s && Times(n, lo) <= s <= Times(n, hi)
    ensures lo <= m <= hi
  {
    TimesIsProduct(n, lo);
    TimesIsProduct(n, hi);
    QuotientBetween(s, n as real, m, lo, hi);
  }

  /** A point set made of copies of one point has that point as its mean. */
  lemma {:induction false} MeanOfCopies(pts: seq<Coord>, p: Coord)
    requires |pts| > 0 && forall i :: 0 <= i < |pts| ==> pts[i] == p
    ensures Mean(pts) == Some(p)
  {
    MeanWithinBox(pts, p.lat, p.lat, p.lon, p.lon);
  }
}
