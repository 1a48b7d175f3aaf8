/**
 * CourseHoleFeature: a typed polygon of a hole, given as its ordered
 * coordinates, with the per-feature queries the hole engine uses.
 */
module Features {
  import opened Wrappers
  import opened Geo
  import opened Selection
  import opened FeatureTypes
  import CoursesHelper

  datatype Feature = Feature(featureId: int, coordinates: seq<Coord>)

  /** `type`: decoded from the feature id; the id never changes, so the lazy value never goes stale. */
  function TypeOf(f: Feature): (t: FeatureType)
    ensures IsKnownId(f.featureId) ==> RawValue(t) == f.featureId
    ensures !IsKnownId(f.featureId) ==> t == Unknown
  {
    FromId(f.featureId)
  }

  /** `centerCoordinate`: nil for a feature without points, otherwise the coordinate-wise mean (Geo.MeanWithinBox bounds it). */
  function CenterCoordinate(f: Feature): (r: Option<Coord>)
    ensures r.None? <==> |f.coordinates| == 0
    ensures r.Some? ==> IsMeanOf(r.value, f.coordinates)
  {
    Mean(f.coordinates)
  }

  /** The `fmax` fold of `max(distanceFromFeatureTo:)`, started from 0. */
  function MaxDistance(pts: seq<Coord>, location: Coord, dist: Metric): (r: real)
    ensures r >= 0.0
    ensures forall i :: 0 <= i < |pts| ==> dist(pts[i], location) <= r
    ensures |pts| == 0 ==> r == 0.0
    ensures |pts| > 0 ==> exists i :: 0 <= i < |pts| && r == dist(pts[i], location)
    decreases |pts|
  {
    if |pts| == 0 then 0.0
    else
      var prefix := pts[..|pts| - 1];
      var before := MaxDistance(prefix, location, dist);
      assert forall i :: 0 <= i < |prefix| ==> prefix[i] == pts[i];
      CoursesHelper.Max(before, dist(pts[|pts| - 1], location))
  }

  /** `max(distanceFromFeatureTo:)`: 0 for an empty feature, otherwise the greatest distance of one of its points. */
  function MaxDistanceFromFeature(f: Feature, location: Coord, dist: Metric): (r: real)
    ensures |f.coordinates| == 0 ==> r == 0.0
    ensures forall p :: p in f.coordinates ==> dist(p, location) <= r
    ensures |f.coordinates| > 0 ==> exists p :: p in f.coordinates && r == dist(p, location)
  {
    MaxDistance(f.coordinates, location, dist)
  }

  /** `Double.greatestFiniteMagnitude`, (2 - 2^-52) * 2^1023. */
  const GreatestFiniteMagnitude: real :=
    179769313486231570814527423731704356798070567525844996598917476803157260780028538760589558632766878171540458953514382464234321326889464182768467546703537516986049910576551282076245490090389328944075868508455133942304583236903222948165808559332123348274797826204144723168738177180919299881250404026184124858368.0

  /** The `fmin` fold of `min(distanceFromFeatureTo:)`, started from the greatest finite double. */
  function MinDistance(pts: seq<Coord>, location: Coord, dist: Metric): (r: real)
    ensures r <= GreatestFiniteMagnitude
    ensures forall i :: 0 <= i < |pts| ==> r <= dist(pts[i], location)
    ensures |pts| == 0 ==> r == GreatestFiniteMagnitude
    ensures r == GreatestFiniteMagnitude || exists i :: 0 <= i < |pts| && r == dist(pts[i], location)
    decreases |pts|
  {
    if |pts| == 0 then GreatestFiniteMagnitude
    else
      var prefix := pts[..|pts| - 1];
      var before := MinDistance(prefix, location, dist);
      assert forall i :: 0 <= i < |prefix| ==> prefix[i] == pts[i];
      CoursesHelper.Min(before, dist(pts[|pts| - 1], location))
  }

  /** `min(distanceFromFeatureTo:)`: greatestFiniteMagnitude for an empty feature, otherwise no more than any point's distance. */
  function MinDistanceFromFeature(f: Feature, location: Coord, dist: Metric): (r: real)
    ensures |f.coordinates| == 0 ==> r == GreatestFiniteMagnitude
    ensures forall p :: p in f.coordinates ==> r <= dist(p, location)
    ensures r == GreatestFiniteMagnitude || exists p :: p in f.coordinates && r == dist(p, location)
  {
    MinDistance(f.coordinates, location, dist)
  }

  /** `closest(locationTo:)`: nil iff the feature is empty, otherwise the first of its points nearest to `location`. */
  function Closest(f: Feature, location: Coord, dist: Metric): (r: Option<Coord>)
    ensures r.None? <==> |f.coordinates| == 0
    ensures r.Some? ==> r.value in f.coordinates
    ensures r.Some? ==> forall p :: p in f.coordinates ==> dist(location, r.value) <= dist(location, p)
    ensures r.Some? ==> exists i :: IsFirstMin(f.coordinates, DistanceFrom(dist, location), i) && f.coordinates[i] == r.value
  {
    ArgMin(f.coordinates, DistanceFrom(dist, location))
  }

  /**
   * The nearest point's distance is the feature's minimum distance, read
   * from either end, as long as distances are finite doubles.
   */
  lemma ClosestAttainsMinDistance(f: Feature, location: Coord, dist: Metric)
    requires |f.coordinates| > 0
    requires forall p :: p in f.coordinates ==> dist(p, location) <= GreatestFiniteMagnitude
    ensures Closest(f, location, dist).Some?
    ensures dist(Closest(f, location, dist).value, location) == MinDistanceFromFeature(f, location, dist)
  {
    var c := Closest(f, location, dist).value;
    var m := MinDistanceFromFeature(f, location, dist);
    assert m <= dist(c, location);
    if m == GreatestFiniteMagnitude {
      assert dist(c, location) <= GreatestFiniteMagnitude;
    } else {
      var p :| p in f.coordinates && m == dist(p, location);
      assert DistanceFrom(dist, location)(p) == dist(location, p);
    }
  }
}
