/**
 * LocationWrapper: a mutable coordinate with two lazily computed projections,
 * `location` (a CLLocation) and `point` (a CGPoint with x = longitude,
 * y = latitude). A lazy property is computed on first read and kept, so a
 * later `setCoordinate` does not refresh it. The wrapper is a value here;
 * each read returns the projection together with the wrapper as it is
 * afterwards.
 */
module Locations {
  import opened Wrappers
  import opened Geo

  datatype Point = Point(x: real, y: real)

  datatype LocationWrapper = LocationWrapper(
    coordinate: Coord,
    cachedLocation: Option<Coord>,
    cachedPoint: Option<Point>)

  /** `init(with:longitude:)`: the coordinate, with neither projection computed yet. */
  function Init(latitude: real, longitude: real): (w: LocationWrapper)
    ensures w.coordinate.lat == latitude && w.coordinate.lon == longitude
    ensures w.cachedLocation.None? && w.cachedPoint.None?
  {
    LocationWrapper(Coord(latitude, longitude), None, None)
  }

  /** `setCoordinate(from:)`: replaces the coordinate and leaves both cached projections as they were. */
  function SetCoordinate(w: LocationWrapper, c: Coord): (r: LocationWrapper)
    ensures r.coordinate == c
    ensures r.cachedLocation == w.cachedLocation && r.cachedPoint == w.cachedPoint
  {
    w.(coordinate := c)
  }

  /** Reading `location`: the cached value if there is one, otherwise the current coordinate, which is then cached. */
  function Location(w: LocationWrapper): (r: (Coord, LocationWrapper))
    ensures w.cachedLocation.Some? ==> r.0 == w.cachedLocation.value
    ensures w.cachedLocation.None? ==> r.0 == w.coordinate
    ensures r.1.cachedLocation == Some(r.0)
    ensures r.1.coordinate == w.coordinate && r.1.cachedPoint == w.cachedPoint
  {
    match w.cachedLocation
    case Some(c) => (c, w)
    case None => (w.coordinate, w.(cachedLocation := Some(w.coordinate)))
  }

  /** Reading `point`: the cached value if there is one, otherwise (longitude, latitude) of the current coordinate, which is then cached. */
  function PointOf(w: LocationWrapper): (r: (Point, LocationWrapper))
    ensures w.cachedPoint.Some? ==> r.0 == w.cachedPoint.value
    ensures w.cachedPoint.None? ==> r.0.x == w.coordinate.lon && r.0.y == w.coordinate.lat
    ensures r.1.cachedPoint == Some(r.0)
    ensures r.1.coordinate == w.coordinate && r.1.cachedLocation == w.cachedLocation
  {
    match w.cachedPoint
    case Some(p) => (p, w)
    case None =>
      var p := Point(w.coordinate.lon, w.coordinate.lat);
      (p, w.(cachedPoint := Some(p)))
  }

  /** A fresh wrapper projects to its own coordinate, and reading a projection twice gives the same value. */
  lemma FreshProjections(latitude: real, longitude: real)
    ensures Location(Init(latitude, longitude)).0 == Coord(latitude, longitude)
    ensures PointOf(Init(latitude, longitude)).0 == Point(longitude, latitude)
    ensures Location(Location(Init(latitude, longitude)).1).0 == Coord(latitude, longitude)
  {
  }

  /**
   * Once `location` or `point` has been read, `setCoordinate` leaves them
   * stale: they still describe the old coordinate.
   */
  lemma StaleAfterSetCoordinate(latitude: real, longitude: real, c: Coord)
    ensures
      var w1 := Location(PointOf(Init(latitude, longitude)).1).1;
      var w2 := SetCoordinate(w1, c);
      && w2.coordinate == c
      && Location(w2).0 == Coord(latitude, longitude)
      && PointOf(w2).0 == Point(longitude, latitude)
  {
  }
}
