/**
 * CourseHole: a hole's typed features and everything the map derives from
 * them — the green centre, the furthest tee point, the fairway and green
 * extremes, the hole length and green depth, and the oriented bounding
 * rectangle in the (x = longitude, y = latitude) plane.
 *
 * Every lazy property is a function of the hole's features and of the
 * distance function; the engine never mutates the features, so the cached
 * values are the values of these functions.
 */
module Holes {
  import opened Wrappers
  import opened Geo
  import opened Selection
  import opened FeatureTypes
  import opened Features
  import opened Lines
  import CoursesHelper
  import Distances

  /** The hole record; tees and elevations are serialization data the engine does not read. */
  datatype Hole = Hole(
    mensPar: int,
    womensPar: int,
    mensHandicap: real,
    womensHandicap: real,
    holeId: int,
    courseId: int,
    courseVersion: int,
    features: seq<Feature>)

  /** The points of the features whose type passes `keep`, feature by feature, in order. */
  function FeaturePoints(fs: seq<Feature>, keep: FeatureType -> bool): (r: seq<Coord>)
    ensures forall p :: p in r <==> exists f :: f in fs && keep(TypeOf(f)) && p in f.coordinates
    decreases |fs|
  {
    if |fs| == 0 then []
    else
      var prefix := fs[..|fs| - 1];
      var last := fs[|fs| - 1];
      assert fs == prefix + [last];
      FeaturePoints(prefix, keep) + (if keep(TypeOf(last)) then last.coordinates else [])
  }

  /** No point comes out exactly when every selected feature is empty. */
  lemma {:induction false} NoFeaturePoints(fs: seq<Feature>, keep: FeatureType -> bool)
    ensures |FeaturePoints(fs, keep)| == 0 <==> forall f :: f in fs && keep(TypeOf(f)) ==> |f.coordinates| == 0
  {
    if exists f :: f in fs && keep(TypeOf(f)) && |f.coordinates| > 0 {
      var f :| f in fs && keep(TypeOf(f)) && |f.coordinates| > 0;
      assert f.coordinates[0] in FeaturePoints(fs, keep);
    }
    if |FeaturePoints(fs, keep)| != 0 {
      assert FeaturePoints(fs, keep)[0] in FeaturePoints(fs, keep);
    }
  }

  predicate NotWater(t: FeatureType) { !IsWaterHazard(t) }

  function GreenPoints(h: Hole): seq<Coord> { FeaturePoints(h.features, IsGreen) }
  function TeePoints(h: Hole): seq<Coord> { FeaturePoints(h.features, IsTeeBox) }
  function FairwayPoints(h: Hole): seq<Coord> { FeaturePoints(h.features, IsFairway) }

  /** `featurePointsExcludingWater`: the points of every feature but the water hazards, in order. */
  function PointsExcludingWater(h: Hole): (r: seq<Coord>)
    ensures forall p :: p in r <==> exists f :: f in h.features && !IsWaterHazard(TypeOf(f)) && p in f.coordinates
  {
    FeaturePoints(h.features, NotWater)
  }

  /**
   * `greenCenter`: nil when no green feature has a point, otherwise the
   * coordinate-wise mean of all green points taken together.
   */
  function GreenCenter(h: Hole): (r: Option<Coord>)
    ensures r.None? <==> forall f :: f in h.features && IsGreen(TypeOf(f)) ==> |f.coordinates| == 0
    ensures r.Some? ==> IsMeanOf(r.value, GreenPoints(h))
  {
    NoFeaturePoints(h.features, IsGreen);
    Mean(GreenPoints(h))
  }

  /**
   * `furthestTeeLocation`: nil without a green centre or tee points;
   * otherwise the first tee point whose distance to the green centre is
   * largest.
   */
  function FurthestTeeLocation(h: Hole, dist: Metric): (r: Option<Coord>)
    ensures r.None? <==> GreenCenter(h).None? || |TeePoints(h)| == 0
    ensures r.Some? ==> r.value in TeePoints(h)
    ensures r.Some? ==> forall p :: p in TeePoints(h) ==> dist(p, GreenCenter(h).value) <= dist(r.value, GreenCenter(h).value)
    ensures r.Some? ==> exists i :: IsFirstMax(TeePoints(h), DistanceTo(dist, GreenCenter(h).value), i) && TeePoints(h)[i] == r.value
  {
    match GreenCenter(h)
    case None => None
    case Some(g) =>
      var r := ArgMax(TeePoints(h), DistanceTo(dist, g));
      assert r.Some? ==> forall p :: p in TeePoints(h) ==> DistanceTo(dist, g)(p) <= DistanceTo(dist, g)(r.value);
      r
  }

  /**
   * `furthestFairwayCenterLocation`: nil without a furthest tee point;
   * otherwise the first point of a `fairway` feature (not a
   * `fairwayCenter` one) furthest from that tee point.
   */
  function FurthestFairwayLocation(h: Hole, dist: Metric): (r: Option<Coord>)
    ensures r.None? <==> FurthestTeeLocation(h, dist).None? || |FairwayPoints(h)| == 0
    ensures r.Some? ==> r.value in FairwayPoints(h)
    ensures r.Some? ==>
      var tee := FurthestTeeLocation(h, dist).value;
      forall p :: p in FairwayPoints(h) ==> dist(p, tee) <= dist(r.value, tee)
    ensures r.Some? ==>
      exists i :: IsFirstMax(FairwayPoints(h), DistanceTo(dist, FurthestTeeLocation(h, dist).value), i) && FairwayPoints(h)[i] == r.value
  {
    match FurthestTeeLocation(h, dist)
    case None => None
    case Some(tee) =>
      var r := ArgMax(FairwayPoints(h), DistanceTo(dist, tee));
      assert r.Some? ==> forall p :: p in FairwayPoints(h) ==> DistanceTo(dist, tee)(p) <= DistanceTo(dist, tee)(r.value);
      r
  }

  /** `furthestFairwayCenterLocation ?? furthestTeeLocation`: where the green extremes are measured from. */
  function Reference(h: Hole, dist: Metric): (r: Option<Coord>)
    ensures r.Some? <==> FurthestTeeLocation(h, dist).Some?
    ensures FurthestFairwayLocation(h, dist).Some? ==> r == FurthestFairwayLocation(h, dist)
    ensures FurthestFairwayLocation(h, dist).None? ==> r == FurthestTeeLocation(h, dist)
  {
    match FurthestFairwayLocation(h, dist)
    case Some(f) => Some(f)
    case None => FurthestTeeLocation(h, dist)
  }

  /** A furthest tee point exists only when there is a green centre, and hence a green point. */
  lemma TeeNeedsGreenPoints(h: Hole, dist: Metric)
    requires FurthestTeeLocation(h, dist).Some?
    ensures |GreenPoints(h)| > 0
  {
    NoFeaturePoints(h.features, IsGreen);
  }

  /**
   * `closestGreenLocation`: nil without a reference point; otherwise the
   * first green point nearest to it. It exists exactly when a furthest tee
   * point does.
   */
  function ClosestGreenLocation(h: Hole, dist: Metric): (r: Option<Coord>)
    ensures r.Some? <==> FurthestTeeLocation(h, dist).Some?
    ensures r.Some? ==> r.value in GreenPoints(h)
    ensures r.Some? ==>
      var c := Reference(h, dist).value;
      forall p :: p in GreenPoints(h) ==> dist(r.value, c) <= dist(p, c)
    ensures r.Some? ==>
      exists i :: IsFirstMin(GreenPoints(h), DistanceTo(dist, Reference(h, dist).value), i) && GreenPoints(h)[i] == r.value
  {
    match Reference(h, dist)
    case None => None
    case Some(c) =>
      TeeNeedsGreenPoints(h, dist);
      var r := ArgMin(GreenPoints(h), DistanceTo(dist, c));
      assert forall p :: p in GreenPoints(h) ==> DistanceTo(dist, c)(r.value) <= DistanceTo(dist, c)(p);
      r
  }

  /**
   * `furthestGreenLocation`: nil without a reference point; otherwise the
   * first green point furthest from it. It exists exactly when a furthest
   * tee point does.
   */
  function FurthestGreenLocation(h: Hole, dist: Metric): (r: Option<Coord>)
    ensures r.Some? <==> FurthestTeeLocation(h, dist).Some?
    ensures r.Some? ==> r.value in GreenPoints(h)
    ensures r.Some? ==>
      var c := Reference(h, dist).value;
      forall p :: p in GreenPoints(h) ==> dist(p, c) <= dist(r.value, c)
    ensures r.Some? ==>
      exists i :: IsFirstMax(GreenPoints(h), DistanceTo(dist, Reference(h, dist).value), i) && GreenPoints(h)[i] == r.value
  {
    match Reference(h, dist)
    case None => None
    case Some(c) =>
      TeeNeedsGreenPoints(h, dist);
      var r := ArgMax(GreenPoints(h), DistanceTo(dist, c));
      assert forall p :: p in GreenPoints(h) ==> DistanceTo(dist, c)(p) <= DistanceTo(dist, c)(r.value);
      r
  }

  /**
   * `holeDistance`: the playing length. Via the furthest fairway point when
   * there is one (tee to fairway plus fairway to the far edge of the
   * green), straight from the tee to the far edge of the green otherwise.
   */
  function HoleDistance(h: Hole, dist: Metric): (r: Option<real>)
    ensures r.Some? <==> FurthestTeeLocation(h, dist).Some?
    ensures r.Some? ==> r.value >= 0.0
    ensures r.Some? && FurthestFairwayLocation(h, dist).Some? ==>
      var tee, fw, far := FurthestTeeLocation(h, dist).value, FurthestFairwayLocation(h, dist).value, FurthestGreenLocation(h, dist).value;
      r.value == dist(tee, fw) + dist(fw, far)
    ensures r.Some? && FurthestFairwayLocation(h, dist).None? ==>
      r.value == dist(FurthestTeeLocation(h, dist).value, FurthestGreenLocation(h, dist).value)
  {
    match (FurthestTeeLocation(h, dist), ClosestGreenLocation(h, dist), FurthestGreenLocation(h, dist))
    case (Some(tee), Some(_), Some(far)) =>
      (match FurthestFairwayLocation(h, dist)
       case Some(fw) => Some(dist(tee, fw) + dist(fw, far))
       case None => Some(dist(tee, far)))
    case _ => None
  }

  /**
   * `greenDistance`: the depth of the green seen from the reference point,
   * far edge minus near edge.
   */
  function GreenDistance(h: Hole, dist: Metric): (r: Option<real>)
    ensures r.Some? <==> FurthestTeeLocation(h, dist).Some?
  {
    match (FurthestTeeLocation(h, dist), ClosestGreenLocation(h, dist), FurthestGreenLocation(h, dist))
    case (Some(tee), Some(near), Some(far)) =>
      (match FurthestFairwayLocation(h, dist)
       case Some(fw) => Some(dist(fw, far) - dist(fw, near))
       case None => Some(dist(tee, far) - dist(tee, near)))
    case _ => None
  }

  /**
   * The green depth is the spread of green-point distances from the
   * reference point, so it is never negative and is zero on a green of one
   * point.
   */
  lemma GreenDepth(h: Hole, dist: Metric)
    requires FurthestTeeLocation(h, dist).Some?
    ensures GreenDistance(h, dist).Some?
    ensures
      var c := Reference(h, dist).value;
      GreenDistance(h, dist).value
        == dist(c, FurthestGreenLocation(h, dist).value) - dist(c, ClosestGreenLocation(h, dist).value)
    ensures GreenDistance(h, dist).value >= 0.0
    ensures |GreenPoints(h)| == 1 ==> GreenDistance(h, dist).value == 0.0
  {
    var c := Reference(h, dist).value;
    var near, far := ClosestGreenLocation(h, dist).value, FurthestGreenLocation(h, dist).value;
    assert dist(near, c) <= dist(far, c);
    if |GreenPoints(h)| == 1 {
      assert near == GreenPoints(h)[0] && far == GreenPoints(h)[0];
    }
  }

  /** `heading`: the compass bearing from the furthest tee point to the green centre. */
  function Heading(h: Hole, dist: Metric, rawBearing: CoursesHelper.RawBearing): (r: Option<real>)
    ensures r.Some? <==> FurthestTeeLocation(h, dist).Some?
    ensures r.Some? ==> 0.0 <= r.value < 360.0
  {
    match (FurthestTeeLocation(h, dist), GreenCenter(h))
    case (Some(tee), Some(g)) => Some(CoursesHelper.HeadingBetween(tee, g, rawBearing))
    case _ => None
  }

  /** `teeCenters`: the centre of every tee box that has points, in feature order. */
  function TeeCenters(fs: seq<Feature>): (r: seq<Coord>)
    ensures forall c :: c in r <==> exists f :: f in fs && IsTeeBox(TypeOf(f)) && Mean(f.coordinates) == Some(c)
    ensures |r| <= |fs|
    decreases |fs|
  {
    if |fs| == 0 then []
    else
      var prefix := fs[..|fs| - 1];
      var last := fs[|fs| - 1];
      assert fs == prefix + [last];
      TeeCenters(prefix) + (if IsTeeBox(TypeOf(last)) && |last.coordinates| > 0 then [Mean(last.coordinates).value] else [])
  }

  /**
   * `furthestTeeCenter`: nil without tee centres or a green centre;
   * otherwise the first tee centre furthest from the green centre.
   */
  function FurthestTeeCenter(h: Hole, dist: Metric): (r: Option<Coord>)
    ensures r.None? <==> |TeeCenters(h.features)| == 0 || GreenCenter(h).None?
    ensures r.Some? ==> r.value in TeeCenters(h.features)
    ensures r.Some? ==> forall c :: c in TeeCenters(h.features) ==> dist(GreenCenter(h).value, c) <= dist(GreenCenter(h).value, r.value)
  {
    if |TeeCenters(h.features)| == 0 then None
    else
      match GreenCenter(h)
      case None => None
      case Some(g) =>
        var r := ArgMax(TeeCenters(h.features), DistanceFrom(dist, g));
        assert forall c :: c in TeeCenters(h.features) ==> DistanceFrom(dist, g)(c) <= DistanceFrom(dist, g)(r.value);
        r
  }

  /**
   * `distance()`: zero without a furthest tee centre or green centre;
   * otherwise the longest distance from a tee-box centre to the green
   * centre, attained by the furthest tee centre.
   */
  function DistanceOfHole(h: Hole, dist: Metric): (r: Distances.Distance)
    ensures r.value >= 0.0
    ensures FurthestTeeCenter(h, dist).None? ==> r == Distances.ZeroDistance()
    ensures FurthestTeeCenter(h, dist).Some? ==>
      && r.value == dist(FurthestTeeCenter(h, dist).value, GreenCenter(h).value)
      && forall c :: c in TeeCenters(h.features) ==> dist(c, GreenCenter(h).value) <= r.value
  {
    match (FurthestTeeCenter(h, dist), GreenCenter(h))
    case (Some(tee), Some(g)) => Distances.FromMeters(dist(tee, g))
    case _ => Distances.ZeroDistance()
  }

  // ---------------------------------------------------------------------
  // The bounding rectangle.

  /** How building the rectangle can fail. */
  datatype Trap =
    | CoincidentTeeAndGreen  // the slope divides by zero
    | MissingExtreme         // a force-unwrapped extreme point is nil
    | IndexOutOfRange        // a corner read from an empty corner list

  /** The latitude nudge of the shared-latitude branch, 1e-13. */
  const LatitudeNudge: real := 0.0000000000001
  /** The longitude nudge of the shared-longitude branch, 1e-14. */
  const LongitudeNudge: real := 0.00000000000001

  /**
   * The slope of the tee→green line, rise over run. A tee level with the
   * green gets a rise of 1e-13, a tee due south or north of the green a run
   * of 1e-14, so the slope is never 0 and never divides by zero unless the
   * two points coincide.
   */
  function AxisSlope(tee: Coord, green: Coord): (r: Option<real>)
    ensures r.None? <==> tee == green
    ensures r.Some? ==> r.value != 0.0
    ensures green.lat == tee.lat && r.Some? ==> r.value * (green.lon - tee.lon) == LatitudeNudge
    ensures green.lat != tee.lat && green.lon == tee.lon ==> r.Some? && r.value * LongitudeNudge == green.lat - tee.lat
    ensures green.lat != tee.lat && green.lon != tee.lon ==> r.Some? && r.value * (green.lon - tee.lon) == green.lat - tee.lat
  {
    if green.lat == tee.lat then
      if green.lon == tee.lon then None
      else
        var rise := green.lat - (tee.lat - LatitudeNudge);
        assert rise == LatitudeNudge;
        var slope := rise / (green.lon - tee.lon);
        QuotientTimes(LatitudeNudge, green.lon - tee.lon, slope);
        Some(slope)
    else if green.lon == tee.lon then
      var slope := (green.lat - tee.lat) / (green.lon - (tee.lon - LongitudeNudge));
      QuotientTimes(green.lat - tee.lat, LongitudeNudge, slope);
      Some(slope)
    else
      var slope := (green.lat - tee.lat) / (green.lon - tee.lon);
      QuotientTimes(green.lat - tee.lat, green.lon - tee.lon, slope);
      Some(slope)
  }

  /** A quotient times its divisor gives back the dividend, and is zero only for a zero dividend. */
  lemma QuotientTimes(x: real, y: real, q: real)
    requires y != 0.0 && q == x / y
    ensures q * y == x
    ensures q == 0.0 <==> x == 0.0
  {
  }

  /** The tee→green line y = a·x + c with c = -a·tee.x + tee.y. */
  function AxisLine(tee: Coord, slope: real): (r: Line)
    ensures r.a == slope && r.b == -1.0
    ensures OnLine(tee, r)
  {
    Line(slope, -1.0, (-1.0 * slope * tee.lon) + tee.lat)
  }

  /** When tee and green differ in both coordinates the axis runs through the green as well. */
  lemma AxisThroughGreen(tee: Coord, green: Coord)
    requires green.lat != tee.lat && green.lon != tee.lon
    ensures AxisSlope(tee, green).Some?
    ensures OnLine(green, AxisLine(tee, AxisSlope(tee, green).value))
  {
    var a := AxisSlope(tee, green).value;
    assert a * green.lon - a * tee.lon == green.lat - tee.lat by {
      assert a * (green.lon - tee.lon) == green.lat - tee.lat;
    }
  }

  /** The perpendicular through `mid`: slope -1/a, b = -1. */
  function PerpendicularLine(axis: Line, mid: Coord): (r: Line)
    requires axis.a != 0.0
    ensures r.a * axis.a == -1.0 && r.b == -1.0
    ensures OnLine(mid, r)
  {
    var a := -1.0 * (1.0 / axis.a);
    Line(a, -1.0, mid.lat - (a * mid.lon))
  }

  /** The indices of the extreme points a side scan keeps, one per side of the line. */
  datatype Extremes = Extremes(right: Option<nat>, left: Option<nat>)

  /**
   * Among the first `n` points, `i` is the first of those on `side` of `l`
   * with the greatest distance to it (compared by numerator).
   */
  ghost predicate IsFurthestOnSide(pts: seq<Coord>, n: nat, l: Line, side: Side, i: int)
    requires n <= |pts|
  {
    && 0 <= i < n && SideOf(pts[i], l) == side
    && (forall j :: 0 <= j < n && SideOf(pts[j], l) == side ==> Numerator(pts[j], l) <= Numerator(pts[i], l))
    && (forall j :: 0 <= j < i && SideOf(pts[j], l) == side ==> Numerator(pts[j], l) < Numerator(pts[i], l))
  }

  /** What a scan of the first `n` points keeps for `side`: nothing iff none lies there, else the furthest. */
  ghost predicate IsSideExtreme(pts: seq<Coord>, n: nat, l: Line, side: Side, e: Option<nat>)
    requires n <= |pts|
  {
    && (e.None? <==> forall j :: 0 <= j < n ==> SideOf(pts[j], l) != side)
    && (e.Some? ==> IsFurthestOnSide(pts, n, l, side, e.value))
  }

  /** One step of a scan: a first point is kept; later, only a strictly further point replaces it. */
  function Keep(best: Option<nat>, i: nat, pts: seq<Coord>, l: Line): Option<nat>
    requires i < |pts| && (best.Some? ==> best.value < |pts|)
  {
    match best
    case None => Some(i)
    case Some(b) => if Numerator(pts[i], l) > Numerator(pts[b], l) then Some(i) else best
  }

  /**
   * The loop of steps 2 and 3 over the first `n` points: each point right
   * of the line competes for the right extreme, each point left of it for
   * the left extreme, and points on the line are skipped.
   */
  function ScanUpTo(pts: seq<Coord>, l: Line, n: nat): (e: Extremes)
    requires n <= |pts|
    ensures IsSideExtreme(pts, n, l, Right, e.right)
    ensures IsSideExtreme(pts, n, l, Left, e.left)
    decreases n
  {
    if n == 0 then Extremes(None, None)
    else
      var before := ScanUpTo(pts, l, n - 1);
      var i := n - 1;
      match SideOf(pts[i], l)
      case Right => before.(right := Keep(before.right, i, pts, l))
      case Left => before.(left := Keep(before.left, i, pts, l))
      case OnTheLine => before
  }

  /** The scan over all the points; ScanSidesFindExtremes states what it keeps. */
  function ScanSides(pts: seq<Coord>, l: Line): (e: Extremes)
    ensures e.right.Some? ==> e.right.value < |pts| && SideOf(pts[e.right.value], l) == Right
    ensures e.left.Some? ==> e.left.value < |pts| && SideOf(pts[e.left.value], l) == Left
  {
    ScanUpTo(pts, l, |pts|)
  }

  /** Over all the points, the scan keeps the first furthest point on each side, and nothing for an empty side. */
  lemma ScanSidesFindExtremes(pts: seq<Coord>, l: Line)
    ensures IsSideExtreme(pts, |pts|, l, Right, ScanSides(pts, l).right)
    ensures IsSideExtreme(pts, |pts|, l, Left, ScanSides(pts, l).left)
  {
  }

  /**
   * Against a line y = a·x + c the right extreme has the smallest intercept
   * and the left extreme the largest: every point's intercept y - a·x lies
   * between theirs.
   */
  lemma StripEncloses(pts: seq<Coord>, l: Line, j: nat)
    requires l.b == -1.0 && j < |pts|
    requires ScanSides(pts, l).right.Some? && ScanSides(pts, l).left.Some?
    ensures
      var e := ScanSides(pts, l);
      Intercept(pts[e.right.value], l.a) <= Intercept(pts[j], l.a) <= Intercept(pts[e.left.value], l.a)
  {
    var e := ScanSides(pts, l);
    ScanSidesFindExtremes(pts, l);
    var r, lf := e.right.value, e.left.value;
    assert IsFurthestOnSide(pts, |pts|, l, Right, r);
    assert IsFurthestOnSide(pts, |pts|, l, Left, lf);
    match SideOf(pts[j], l)
    case Right =>
      assert Numerator(pts[j], l) <= Numerator(pts[r], l);
    case Left =>
      assert Numerator(pts[j], l) <= Numerator(pts[lf], l);
    case OnTheLine =>
  }

  /**
   * The six lines of the rectangle: the tee→green axis, its perpendicular
   * through the tee/green midpoint, the two sides parallel to the axis
   * through the left and right extremes, and the two ends parallel to the
   * perpendicular through the top and bottom extremes.
   */
  datatype Frame = Frame(axis: Line, perpendicular: Line, leftSide: Line, rightSide: Line, topEnd: Line, bottomEnd: Line)

  /** Every line is y = a·x + c, the perpendicular is at right angles to the axis, and the sides and ends are parallel to them. */
  ghost predicate WellFormed(fr: Frame) {
    && fr.axis.b == -1.0 && fr.perpendicular.b == -1.0
    && fr.leftSide.b == -1.0 && fr.rightSide.b == -1.0 && fr.topEnd.b == -1.0 && fr.bottomEnd.b == -1.0
    && RightAngled(fr.axis.a, fr.perpendicular.a)
    && fr.leftSide.a == fr.axis.a && fr.rightSide.a == fr.axis.a
    && fr.topEnd.a == fr.perpendicular.a && fr.bottomEnd.a == fr.perpendicular.a
  }

  /** Some point of `pts` lies on `side` of `l`. */
  ghost predicate HasPointOn(pts: seq<Coord>, l: Line, side: Side) {
    exists j :: 0 <= j < |pts| && SideOf(pts[j], l) == side
  }

  /** A scan finds an extreme on a side exactly when some point lies on that side. */
  lemma ScanFindsSide(pts: seq<Coord>, l: Line)
    ensures ScanSides(pts, l).right.Some? <==> HasPointOn(pts, l, Right)
    ensures ScanSides(pts, l).left.Some? <==> HasPointOn(pts, l, Left)
  {
    ScanSidesFindExtremes(pts, l);
  }

  /**
   * The parallels to `l` through its right and left extremes bound every
   * point's intercept: StripEncloses for all points at once.
   */
  lemma ParallelsEnclose(pts: seq<Coord>, l: Line, e: Extremes)
    requires l.b == -1.0 && e == ScanSides(pts, l)
    requires e.right.Some? && e.left.Some?
    ensures forall j :: 0 <= j < |pts| ==>
      LineParallel(l, pts[e.right.value]).c <= Intercept(pts[j], l.a) <= LineParallel(l, pts[e.left.value]).c
  {
    forall j | 0 <= j < |pts|
      ensures LineParallel(l, pts[e.right.value]).c <= Intercept(pts[j], l.a) <= LineParallel(l, pts[e.left.value]).c
    {
      StripEncloses(pts, l, j);
    }
  }

  /**
   * The frame encloses every point: between the right and the left side
   * across the axis, between the top and the bottom end along it.
   */
  ghost predicate Encloses(fr: Frame, pts: seq<Coord>) {
    forall j :: 0 <= j < |pts| ==>
      && fr.rightSide.c <= Intercept(pts[j], fr.axis.a) <= fr.leftSide.c
      && fr.topEnd.c <= Intercept(pts[j], fr.perpendicular.a) <= fr.bottomEnd.c
  }

  /**
   * Steps 2 to 4 up to the lines: scan both sides of the axis and of the
   * perpendicular, then draw the parallels through the four extremes.
   * Force-unwrapping a missing extreme traps.
   */
  function SideLines(axis: Line, perpendicular: Line, pts: seq<Coord>): (r: Result<Frame, Trap>)
    requires axis.b == -1.0 && perpendicular.b == -1.0 && RightAngled(axis.a, perpendicular.a)
    ensures r.Failure? <==>
      !(HasPointOn(pts, axis, Left) && HasPointOn(pts, axis, Right)
        && HasPointOn(pts, perpendicular, Right) && HasPointOn(pts, perpendicular, Left))
    ensures r.Failure? ==> r.error == MissingExtreme
    ensures r.Success? ==> WellFormed(r.value) && r.value.axis == axis && r.value.perpendicular == perpendicular
    ensures r.Success? ==> Encloses(r.value, pts)
  {
    var sides := ScanSides(pts, axis);
    var ends := ScanSides(pts, perpendicular);
    ScanFindsSide(pts, axis);
    ScanFindsSide(pts, perpendicular);
    if sides.left.None? || sides.right.None? || ends.right.None? || ends.left.None? then
      Failure(MissingExtreme)
    else
      Success(FrameThrough(axis, perpendicular, pts, sides, ends))
  }

  /** Step 4's lines: the parallels to the axis through its extremes and to the perpendicular through its extremes. */
  function FrameThrough(axis: Line, perpendicular: Line, pts: seq<Coord>, sides: Extremes, ends: Extremes): (fr: Frame)
    requires axis.b == -1.0 && perpendicular.b == -1.0 && RightAngled(axis.a, perpendicular.a)
    requires sides == ScanSides(pts, axis) && ends == ScanSides(pts, perpendicular)
    requires sides.left.Some? && sides.right.Some? && ends.right.Some? && ends.left.Some?
    ensures WellFormed(fr) && fr.axis == axis && fr.perpendicular == perpendicular
    ensures Encloses(fr, pts)
  {
    var fr := Frame(
      axis, perpendicular,
      LineParallel(axis, pts[sides.left.value]),
      LineParallel(axis, pts[sides.right.value]),
      LineParallel(perpendicular, pts[ends.right.value]),
      LineParallel(perpendicular, pts[ends.left.value]));
    assert Encloses(fr, pts) by {
      ParallelsEnclose(pts, axis, sides);
      ParallelsEnclose(pts, perpendicular, ends);
    }
    fr
  }

  /**
   * Steps 1 to 4 for a tee point and a green centre: the axis through the
   * tee, the perpendicular through the midpoint, and the side lines; a trap
   * when the points coincide or an extreme is missing.
   */
  function FrameFrom(tee: Coord, green: Coord, pts: seq<Coord>): (r: Result<Frame, Trap>)
    ensures r == Failure(CoincidentTeeAndGreen) <==> tee == green
    ensures r.Failure? ==> r.error != IndexOutOfRange
    ensures r.Success? ==> WellFormed(r.value)
    ensures r.Success? ==> OnLine(tee, r.value.axis) && OnLine(CoursesHelper.Midpoint(tee, green), r.value.perpendicular)
    ensures r.Success? ==> Encloses(r.value, pts)
  {
    match AxisSlope(tee, green)
    case None => Failure(CoincidentTeeAndGreen)
    case Some(slope) =>
      var axis := AxisLine(tee, slope);
      SideLines(axis, PerpendicularLine(axis, CoursesHelper.Midpoint(tee, green)), pts)
  }

  /**
   * `cornersOfBoundingRectangle` up to the four lines: nothing without a
   * furthest tee point or green centre, otherwise the frame built from
   * them over the points that are not water.
   */
  function BoundingFrame(h: Hole, dist: Metric): (r: Result<Option<Frame>, Trap>)
    ensures r.Success? && r.value.None? <==> FurthestTeeLocation(h, dist).None?
    ensures r == Failure(CoincidentTeeAndGreen) <==>
      FurthestTeeLocation(h, dist).Some? && FurthestTeeLocation(h, dist).value == GreenCenter(h).value
    ensures r.Failure? ==> r.error != IndexOutOfRange
    ensures r.Success? && r.value.Some? ==> WellFormed(r.value.value)
    ensures r.Success? && r.value.Some? ==> Encloses(r.value.value, PointsExcludingWater(h))
  {
    match (FurthestTeeLocation(h, dist), GreenCenter(h))
    case (Some(tee), Some(green)) =>
      (match FrameFrom(tee, green, PointsExcludingWater(h))
       case Failure(e) => Failure(e)
       case Success(fr) => Success(Some(fr)))
    case _ => Success(None)
  }

  /**
   * The rectangle encloses every point that is not water: between the two
   * sides across the axis, between the two ends along it.
   */
  lemma RectangleEnclosesFeatures(h: Hole, dist: Metric, p: Coord)
    requires BoundingFrame(h, dist).Success? && BoundingFrame(h, dist).value.Some?
    requires p in PointsExcludingWater(h)
    ensures
      var fr := BoundingFrame(h, dist).value.value;
      && fr.rightSide.c <= Intercept(p, fr.axis.a) <= fr.leftSide.c
      && fr.topEnd.c <= Intercept(p, fr.perpendicular.a) <= fr.bottomEnd.c
  {
    var fr := BoundingFrame(h, dist).value.value;
    var pts := PointsExcludingWater(h);
    var j :| 0 <= j < |pts| && pts[j] == p;
  }

  /** A line and one perpendicular to it never share a slope. */
  lemma PerpendicularSlopesDiffer(a: real, m: real)
    requires a * m == -1.0
    ensures a != m
  {
  }

  /** Step 4: the corners top-left, bottom-left, bottom-right, top-right, each where an end meets a side. */
  function FrameCorners(fr: Frame): (cs: seq<Coord>)
    requires WellFormed(fr)
    ensures |cs| == 4
    ensures OnLine(cs[0], fr.topEnd) && OnLine(cs[0], fr.leftSide)
    ensures OnLine(cs[1], fr.bottomEnd) && OnLine(cs[1], fr.leftSide)
    ensures OnLine(cs[2], fr.bottomEnd) && OnLine(cs[2], fr.rightSide)
    ensures OnLine(cs[3], fr.topEnd) && OnLine(cs[3], fr.rightSide)
  {
    PerpendicularSlopesDiffer(fr.axis.a, fr.perpendicular.a);
    [ Intersection(fr.topEnd, fr.leftSide),
      Intersection(fr.bottomEnd, fr.leftSide),
      Intersection(fr.bottomEnd, fr.rightSide),
      Intersection(fr.topEnd, fr.rightSide) ]
  }

  /**
   * `cornersOfBoundingRectangle`: empty without a furthest tee point or
   * green centre, otherwise the four corners (or a trap).
   */
  function BoundingCorners(h: Hole, dist: Metric): (r: Result<seq<Coord>, Trap>)
    ensures r.Success? ==> |r.value| == 0 || |r.value| == 4
    ensures r.Success? && |r.value| == 0 <==> FurthestTeeLocation(h, dist).None?
    ensures r.Failure? <==> BoundingFrame(h, dist).Failure?
    ensures r.Failure? ==> r.error != IndexOutOfRange
  {
    match BoundingFrame(h, dist)
    case Failure(e) => Failure(e)
    case Success(None) => Success([])
    case Success(Some(fr)) => Success(FrameCorners(fr))
  }

  /** The angle at `q` between the directions to `p` and to `r` is right, in the (longitude, latitude) plane. */
  ghost predicate RightAngleAt(p: Coord, q: Coord, r: Coord) {
    (p.lon - q.lon) * (r.lon - q.lon) + (p.lat - q.lat) * (r.lat - q.lat) == 0.0
  }

  /** Two points on y = a·x + c: the rise is a times the run. */
  lemma RiseOverRun(p: Coord, q: Coord, l: Line)
    requires l.b == -1.0 && OnLine(p, l) && OnLine(q, l)
    ensures p.lat - q.lat == l.a * (p.lon - q.lon)
  {
  }

  /** Directions of slopes `a` and `m` with a·m = -1 are orthogonal. */
  lemma OrthogonalDirections(a: real, m: real, dx1: real, dy1: real, dx2: real, dy2: real)
    requires a * m == -1.0 && dy1 == a * dx1 && dy2 == m * dx2
    ensures dx1 * dx2 + dy1 * dy2 == 0.0
  {
    assert dy1 * dy2 == (a * m) * (dx1 * dx2);
  }

  /** The corners where a side and an end meet form a right angle between the corners next to them. */
  lemma CornerIsRight(p: Coord, q: Coord, r: Coord, side: Line, end: Line)
    requires side.b == -1.0 && end.b == -1.0 && side.a * end.a == -1.0
    requires OnLine(p, side) && OnLine(q, side) && OnLine(q, end) && OnLine(r, end)
    ensures RightAngleAt(p, q, r)
  {
    RiseOverRun(p, q, side);
    RiseOverRun(r, q, end);
    OrthogonalDirections(side.a, end.a, p.lon - q.lon, p.lat - q.lat, r.lon - q.lon, r.lat - q.lat);
  }

  lemma DivAdd(x: real, y: real, d: real)
    requires d != 0.0
    ensures x / d + y / d == (x + y) / d
  {
  }

  /** The corners meet at right angles, in the (longitude, latitude) plane. */
  lemma FrameRightAngles(fr: Frame)
    requires WellFormed(fr)
    ensures
      var cs := FrameCorners(fr);
      && RightAngleAt(cs[3], cs[0], cs[1])
      && RightAngleAt(cs[0], cs[1], cs[2])
      && RightAngleAt(cs[1], cs[2], cs[3])
      && RightAngleAt(cs[2], cs[3], cs[0])
  {
    var cs := FrameCorners(fr);
    CornerIsRight(cs[1], cs[0], cs[3], fr.leftSide, fr.topEnd);
    CornerIsRight(cs[0], cs[1], cs[2], fr.leftSide, fr.bottomEnd);
    CornerIsRight(cs[3], cs[2], cs[1], fr.rightSide, fr.bottomEnd);
    CornerIsRight(cs[2], cs[3], cs[0], fr.rightSide, fr.topEnd);
  }

  /**
   * With ends of slope `m` (intercepts cT, cB) and sides of slope m + d
   * (intercepts cL, cR): the x of a corner is (c_end - c_side) / d and its
   * y is m·x + c_end; top-left plus bottom-right equals bottom-left plus
   * top-right in both coordinates.
   */
  lemma DiagonalSums(m: real, d: real, cT: real, cB: real, cL: real, cR: real)
    requires d != 0.0
    ensures (cT - cL) / d + (cB - cR) / d == (cB - cL) / d + (cT - cR) / d
    ensures (m * ((cT - cL) / d) + cT) + (m * ((cB - cR) / d) + cB)
         == (m * ((cB - cL) / d) + cB) + (m * ((cT - cR) / d) + cT)
  {
    var x0, x1, x2, x3 := (cT - cL) / d, (cB - cL) / d, (cB - cR) / d, (cT - cR) / d;
    DivAdd(cT - cL, cB - cR, d);
    DivAdd(cB - cL, cT - cR, d);
    assert x0 + x2 == x1 + x3;
    assert m * x0 + m * x2 == m * (x0 + x2);
    assert m * x1 + m * x3 == m * (x1 + x3);
  }

  /** The diagonals bisect each other: top-left + bottom-right = bottom-left + top-right. */
  lemma FrameDiagonalsBisect(fr: Frame)
    requires WellFormed(fr)
    ensures
      var cs := FrameCorners(fr);
      && cs[0].lon + cs[2].lon == cs[1].lon + cs[3].lon
      && cs[0].lat + cs[2].lat == cs[1].lat + cs[3].lat
  {
    PerpendicularSlopesDiffer(fr.axis.a, fr.perpendicular.a);
    var m, d := fr.perpendicular.a, fr.axis.a - fr.perpendicular.a;
    var cs := FrameCorners(fr);
    CornerFormula(fr.topEnd, fr.leftSide, m, d);
    CornerFormula(fr.bottomEnd, fr.leftSide, m, d);
    CornerFormula(fr.bottomEnd, fr.rightSide, m, d);
    CornerFormula(fr.topEnd, fr.rightSide, m, d);
    DiagonalSums(m, d, fr.topEnd.c, fr.bottomEnd.c, fr.leftSide.c, fr.rightSide.c);
  }

  /** Where an end of slope `m` meets a side of slope m + d: x is (c_end - c_side) / d, y is m·x + c_end. */
  lemma CornerFormula(end: Line, side: Line, m: real, d: real)
    requires d != 0.0 && end.a == m && side.a == m + d
    ensures Intersection(end, side) == Coord(m * ((end.c - side.c) / d) + end.c, (end.c - side.c) / d)
  {
  }

  /** `centroid`: nil for no corners, otherwise the mean of the corners; a trap when the corners trap. */
  function Centroid(h: Hole, dist: Metric): (r: Result<Option<Coord>, Trap>)
    ensures r.Failure? <==> BoundingCorners(h, dist).Failure?
    ensures r.Success? ==> (r.value.None? <==> FurthestTeeLocation(h, dist).None?)
  {
    match BoundingCorners(h, dist)
    case Failure(e) => Failure(e)
    case Success(cs) =>
      assert |cs| == 4 ==> |cs| as real == 4.0;
      Success(Mean(cs))
  }

  lemma SumsOfFour(cs: seq<Coord>)
    requires |cs| == 4
    ensures SumLat(cs) == cs[0].lat + cs[1].lat + cs[2].lat + cs[3].lat
    ensures SumLon(cs) == cs[0].lon + cs[1].lon + cs[2].lon + cs[3].lon
  {
    var c3, c2, c1 := cs[..3], cs[..2], cs[..1];
    assert c3[..2] == c2 && c2[..1] == c1 && c1[..0] == [];
    assert SumLat(c1) == cs[0].lat && SumLon(c1) == cs[0].lon;
    assert SumLat(c2) == SumLat(c1) + cs[1].lat && SumLon(c2) == SumLon(c1) + cs[1].lon;
    assert SumLat(c3) == SumLat(c2) + cs[2].lat && SumLon(c3) == SumLon(c2) + cs[2].lon;
  }

  /** Four times a quarter of 2·(x + y) is 2·(x + y): the quarter is half of x + y. */
  lemma QuarterOfTwice(m: real, s: real, x: real, y: real)
    requires m * 4.0 == s && s == 2.0 * (x + y)
    ensures m == (x + y) / 2.0
  {
  }

  /**
   * Four points whose diagonals bisect each other have as their mean the
   * midpoint of either diagonal.
   */
  lemma MeanOfParallelogram(cs: seq<Coord>)
    requires |cs| == 4
    requires cs[0].lon + cs[2].lon == cs[1].lon + cs[3].lon
    requires cs[0].lat + cs[2].lat == cs[1].lat + cs[3].lat
    ensures Mean(cs) == Some(CoursesHelper.Midpoint(cs[0], cs[2]))
    ensures Mean(cs) == Some(CoursesHelper.Midpoint(cs[1], cs[3]))
  {
    var m := Mean(cs).value;
    SumsOfFour(cs);
    assert |cs| as real == 4.0;
    QuarterOfTwice(m.lat, SumLat(cs), cs[0].lat, cs[2].lat);
    QuarterOfTwice(m.lon, SumLon(cs), cs[0].lon, cs[2].lon);
  }

  /**
   * The centroid is the mean of the four corners, and it is where the
   * rectangle's diagonals cross: the midpoint of either diagonal.
   */
  lemma CentroidIsDiagonalMidpoint(h: Hole, dist: Metric)
    requires Centroid(h, dist).Success? && Centroid(h, dist).value.Some?
    ensures |BoundingCorners(h, dist).value| == 4
    ensures
      var cs := BoundingCorners(h, dist).value;
      var c := Centroid(h, dist).value.value;
      && c.lat * 4.0 == cs[0].lat + cs[1].lat + cs[2].lat + cs[3].lat
      && c.lon * 4.0 == cs[0].lon + cs[1].lon + cs[2].lon + cs[3].lon
      && c == CoursesHelper.Midpoint(cs[0], cs[2])
      && c == CoursesHelper.Midpoint(cs[1], cs[3])
  {
    var fr := BoundingFrame(h, dist).value.value;
    var cs := BoundingCorners(h, dist).value;
    assert cs == FrameCorners(fr);
    FrameDiagonalsBisect(fr);
    MeanOfParallelogram(cs);
  }

  /** `heightOfBoundingRectangle()`: top-left to bottom-left, along the left side; a trap without corners. */
  function Height(h: Hole, dist: Metric): (r: Result<real, Trap>)
    ensures r.Success? <==> BoundingCorners(h, dist).Success? && FurthestTeeLocation(h, dist).Some?
    ensures r == Failure(IndexOutOfRange) <==> BoundingCorners(h, dist) == Success([])
    ensures r.Success? ==> r.value >= 0.0
    ensures r.Success? ==>
      var cs := BoundingCorners(h, dist).value;
      |cs| == 4 && r.value == dist(cs[1], cs[0]) && r.value == dist(cs[0], cs[1])
  {
    match BoundingCorners(h, dist)
    case Failure(e) => Failure(e)
    case Success(cs) => if |cs| < 2 then Failure(IndexOutOfRange) else Success(dist(cs[1], cs[0]))
  }

  /** `widthOfBoundingRectangle()`: bottom-left to bottom-right, along the bottom end; a trap without corners. */
  function Width(h: Hole, dist: Metric): (r: Result<real, Trap>)
    ensures r.Success? <==> BoundingCorners(h, dist).Success? && FurthestTeeLocation(h, dist).Some?
    ensures r == Failure(IndexOutOfRange) <==> BoundingCorners(h, dist) == Success([])
    ensures r.Success? ==> r.value >= 0.0
    ensures r.Success? ==>
      var cs := BoundingCorners(h, dist).value;
      |cs| == 4 && r.value == dist(cs[1], cs[2]) && r.value == dist(cs[2], cs[1])
  {
    match BoundingCorners(h, dist)
    case Failure(e) => Failure(e)
    case Success(cs) => if |cs| < 3 then Failure(IndexOutOfRange) else Success(dist(cs[1], cs[2]))
  }

  /** `calculateLongestSideOfBoundingRectangle()`: the longer of height and width. */
  function LongestSide(h: Hole, dist: Metric): (r: Result<real, Trap>)
    ensures r.Success? <==> Height(h, dist).Success?
    ensures r.Failure? ==> r.error == Height(h, dist).error
    ensures r.Success? ==>
      && Height(h, dist).value <= r.value && Width(h, dist).value <= r.value
      && (r.value == Height(h, dist).value || r.value == Width(h, dist).value)
  {
    match Height(h, dist)
    case Failure(e) => Failure(e)
    case Success(height) =>
      (match Width(h, dist)
       case Failure(e) => Failure(e)
       case Success(width) => Success(CoursesHelper.Max(height, width)))
  }

  /** The points two features contribute: the first one's, then the second one's, each when selected. */
  lemma FeaturePointsOfTwo(f1: Feature, f2: Feature, keep: FeatureType -> bool)
    ensures FeaturePoints([f1, f2], keep)
      == (if keep(TypeOf(f1)) then f1.coordinates else []) + (if keep(TypeOf(f2)) then f2.coordinates else [])
  {
    assert [f1, f2][..1] == [f1];
    assert [f1][..0] == [];
    assert FeaturePoints([f1], keep) == (if keep(TypeOf(f1)) then f1.coordinates else []);
  }

  /**
   * The force-unwrap trap is reachable with ordinary data: when the only
   * points are the tee and the green (in different rows and columns), both
   * lie on the tee→green axis, so there is no point right of it.
   */
  lemma TeeAndGreenOnlyTraps(tee: Coord, green: Coord)
    requires green.lat != tee.lat && green.lon != tee.lon
    ensures FrameFrom(tee, green, [green, tee]) == Failure(MissingExtreme)
  {
    var pts := [green, tee];
    AxisThroughGreen(tee, green);
    var axis := AxisLine(tee, AxisSlope(tee, green).value);
    assert SideOf(green, axis) == OnTheLine && SideOf(tee, axis) == OnTheLine;
    assert !HasPointOn(pts, axis, Right);
  }

  /** A hole whose only features are a one-point green and a one-point tee box traps that way. */
  lemma TwoPointHoleTraps(green: Coord, tee: Coord, dist: Metric)
    requires green.lat != tee.lat && green.lon != tee.lon
    ensures
      var h := Hole(4, 4, 1.0, 1.0, 1, 1, 1, [Feature(1, [green]), Feature(6, [tee])]);
      BoundingFrame(h, dist) == Failure(MissingExtreme)
  {
    var g, t := Feature(1, [green]), Feature(6, [tee]);
    var h := Hole(4, 4, 1.0, 1.0, 1, 1, 1, [g, t]);
    assert TypeOf(g) == Green && TypeOf(t) == Teebox;
    FeaturePointsOfTwo(g, t, IsGreen);
    FeaturePointsOfTwo(g, t, IsTeeBox);
    FeaturePointsOfTwo(g, t, NotWater);
    assert GreenPoints(h) == [green];
    assert TeePoints(h) == [tee];
    assert PointsExcludingWater(h) == [green, tee];
    MeanOfCopies([green], green);
    assert GreenCenter(h) == Some(green);
    assert FurthestTeeLocation(h, dist) == Some(tee);
    TeeAndGreenOnlyTraps(tee, green);
  }
}
