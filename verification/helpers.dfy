/** The pure parts of CoursesHelper: the flat midpoint and the bearing normalisation. */
module CoursesHelper {
  import opened Geo

  function Min(x: real, y: real): real { if x <= y then x else y }
  function Max(x: real, y: real): real { if x <= y then y else x }
  function Abs(x: real): real { if x < 0.0 then -x else x }

  /** `midpointBetween`: halfway in latitude and halfway in longitude (a flat approximation). */
  function Midpoint(start: Coord, end: Coord): (r: Coord)
    ensures r.lat - start.lat == end.lat - r.lat
    ensures r.lon - start.lon == end.lon - r.lon
    ensures Min(start.lat, end.lat) <= r.lat <= Max(start.lat, end.lat)
    ensures Min(start.lon, end.lon) <= r.lon <= Max(start.lon, end.lon)
  {
    Coord((start.lat + end.lat) / 2.0, (start.lon + end.lon) / 2.0)
  }

  /** The midpoint does not depend on the order of its arguments, and the midpoint of a point with itself is that point. */
  lemma MidpointSymmetric(p: Coord, q: Coord)
    ensures Midpoint(p, q) == Midpoint(q, p)
    ensures Midpoint(p, p) == p
  {
  }

  /** The last step of `headingBetweenCoordinates`: a negative bearing `d` becomes `360 - |d|`. */
  function NormalizeBearing(degrees: real): (r: real)
    ensures degrees >= 0.0 ==> r == degrees
    ensures degrees < 0.0 ==> r == degrees + 360.0
    ensures -180.0 <= degrees <= 180.0 ==> 0.0 <= r < 360.0
  {
    if degrees < 0.0 then 360.0 - Abs(degrees) else degrees
  }

  /**
   * `atan2(y, x) * 180 / pi` of the great-circle bearing formula, which the
   * model does not compute; atan2 lies in [-pi, pi], so this lies in [-180, 180].
   */
  type RawBearing = f: (Coord, Coord) -> real
    | forall p: Coord, q: Coord :: -180.0 <= f(p, q) <= 180.0
    witness (p: Coord, q: Coord) => 0.0

  /** `headingBetweenCoordinates(s1, s2)`: a compass heading in [0, 360). */
  function HeadingBetween(s1: Coord, s2: Coord, rawBearing: RawBearing): (r: real)
    ensures 0.0 <= r < 360.0
  {
    NormalizeBearing(rawBearing(s1, s2))
  }
}
