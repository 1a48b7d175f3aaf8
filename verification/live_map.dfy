/**
 * The camera builder of LiveMapViewModel: the calibration table of metres
 * per screen point by camera altitude, the lookup of the entry just above
 * a camera height, the inset arithmetic, and `getCamera`.
 */
module LiveMap {
  import opened Wrappers
  import opened Geo
  import opened Selection
  import CoursesHelper
  import Camera

  /** Metres per screen point, keyed by camera altitude. */
  type Calibration = map<real, real>

  datatype Entry = Entry(altitude: real, metersPerPoint: real)

  function AltitudeOf(e: Entry): real { e.altitude }

  /** Swift's `stride(from:to:by:)`: `start`, `start + step`, … while below `stop`. */
  function Stride(start: int, stop: int, step: int): (r: seq<int>)
    requires step > 0
    ensures |r| == 0 <==> start >= stop
    ensures forall i :: 0 <= i < |r| ==> start <= r[i] < stop
    ensures forall i :: 0 <= i < |r| - 1 ==> r[i + 1] == r[i] + step
    ensures |r| > 0 ==> r[0] == start && r[|r| - 1] + step >= stop
  {
    if start >= stop then []
    else
      var n := (stop - start + step - 1) / step;
      var r := seq(n, i requires 0 <= i < n => start + i * step);
      StrideCount(stop - start, step, n);
      StrideShape(start, stop, step, n, r);
      r
  }

  /** The first `n` multiples of `step` after `start`, when `n` steps are the first to reach `stop`. */
  lemma StrideShape(start: int, stop: int, step: int, n: int, r: seq<int>)
    requires step > 0 && n >= 1 && (n - 1) * step < stop - start <= n * step
    requires |r| == n && forall i :: 0 <= i < n ==> r[i] == start + i * step
    ensures |r| > 0
    ensures forall i :: 0 <= i < |r| ==> start <= r[i] < stop
    ensures forall i :: 0 <= i < |r| - 1 ==> r[i + 1] == r[i] + step
    ensures r[0] == start && r[|r| - 1] + step >= stop
  {
    StrideTerms(step, n);
    forall i | 0 <= i < n ensures start <= r[i] < stop {
      assert 0 <= i * step <= (n - 1) * step;
    }
    forall i | 0 <= i < n - 1 ensures r[i + 1] == r[i] + step {
      assert (i + 1) * step == i * step + step;
    }
  }

  /** Rounding `d / step` up gives the number of steps that stay below `d`. */
  lemma StrideCount(d: int, step: int, n: int)
    requires d > 0 && step > 0 && n == (d + step - 1) / step
    ensures n >= 1 && (n - 1) * step < d <= n * step
  {
    var m := (d + step - 1) % step;
    assert d + step - 1 == n * step + m && 0 <= m < step;
    assert (n - 1) * step == n * step - step;
  }

  /** Below `n` steps, each multiple of `step` lies between 0 and `(n - 1)·step`, and consecutive multiples are `step` apart. */
  lemma StrideTerms(step: int, n: int)
    requires step > 0
    ensures forall i :: 0 <= i < n ==> 0 <= i * step <= (n - 1) * step
    ensures forall i :: 0 <= i < n - 1 ==> (i + 1) * step == i * step + step
  {
    forall i | 0 <= i < n ensures 0 <= i * step <= (n - 1) * step {
      MultipleBelow(i, n, step);
    }
    forall i | 0 <= i < n - 1 ensures (i + 1) * step == i * step + step {
      NextMultiple(i, step);
    }
  }

  lemma MultipleBelow(i: int, n: int, step: int)
    requires step > 0 && 0 <= i < n
    ensures 0 <= i * step <= (n - 1) * step
  {
    NonNegativeProduct(i, step);
    NonNegativeProduct(n - 1 - i, step);
    Distribute(n - 1 - i, i, step);
  }

  lemma NonNegativeProduct(x: int, y: int)
    requires x >= 0 && y >= 0
    ensures x * y >= 0
  {
  }

  lemma Distribute(x: int, y: int, z: int)
    ensures (x + y) * z == x * z + y * z
  {
  }

  lemma NextMultiple(i: int, step: int)
    ensures (i + 1) * step == i * step + step
  {
  }

  /** The calibration stride: from 200 up to, but not including, 5000, every 50. */
  const LowestAltitude: int := 200
  const AltitudeLimit: int := 5000
  const AltitudeStep: int := 50

  /** The altitudes the calibration visits, as distances. */
  function CalibrationAltitudes(): seq<real> {
    var s := Stride(LowestAltitude, AltitudeLimit, AltitudeStep);
    seq(|s|, i requires 0 <= i < |s| => s[i] as real)
  }

  /** The altitudes run from 200 to 4950 in steps of 50; 5000 itself is never visited. */
  lemma AltitudeRange()
    ensures |CalibrationAltitudes()| == 96
    ensures CalibrationAltitudes()[0] == 200.0 && CalibrationAltitudes()[95] == 4950.0
    ensures forall i :: 0 <= i < 95 ==> CalibrationAltitudes()[i + 1] == CalibrationAltitudes()[i] + 50.0
    ensures 5000.0 !in CalibrationAltitudes()
  {
    var s := Stride(LowestAltitude, AltitudeLimit, AltitudeStep);
    var k := |s| - 1;
    assert s[k] == 200 + k * 50;
    assert k == 95;
  }

  /**
   * The loop body of `didLoadMap` run over `altitudes`: after placing the
   * camera at an altitude, the reading (absent without a data source) is
   * stored under that altitude.
   */
  function Record(table: Calibration, altitudes: seq<real>, reading: real -> Option<real>): (r: Calibration)
    ensures forall k :: k in r <==> k in table || (k in altitudes && reading(k).Some?)
    ensures forall k :: k in r ==> r[k] == if k in altitudes && reading(k).Some? then reading(k).value else table[k]
    decreases |altitudes|
  {
    if |altitudes| == 0 then table
    else
      var last := altitudes[|altitudes| - 1];
      var before := Record(table, altitudes[..|altitudes| - 1], reading);
      assert forall k :: k in altitudes <==> k in altitudes[..|altitudes| - 1] || k == last;
      match reading(last)
      case None => before
      case Some(v) => before[last := v]
  }

  /**
   * The calibration part of `didLoadMap`: nothing without a course
   * location; a table that already has entries is kept as it is; an
   * empty one gets one entry per calibration altitude with a reading.
   */
  function Calibrate(table: Calibration, courseLocation: Option<Coord>, reading: real -> Option<real>): (r: Calibration)
    ensures courseLocation.None? || |table| > 0 ==> r == table
    ensures courseLocation.Some? && |table| == 0 ==>
      && (forall k :: k in r <==> k in CalibrationAltitudes() && reading(k).Some?)
      && (forall k :: k in r ==> r[k] == reading(k).value)
  {
    if courseLocation.None? || |table| > 0 then table
    else Record(table, CalibrationAltitudes(), reading)
  }

  /** Calibrating twice changes nothing more than calibrating once. */
  lemma CalibrateIdempotent(table: Calibration, courseLocation: Option<Coord>, reading: real -> Option<real>)
    requires exists i :: 0 <= i < |CalibrationAltitudes()| && reading(CalibrationAltitudes()[i]).Some?
    ensures
      var once := Calibrate(table, courseLocation, reading);
      Calibrate(once, courseLocation, reading) == once
  {
    var once := Calibrate(table, courseLocation, reading);
    if courseLocation.Some? && |table| == 0 {
      var i :| 0 <= i < |CalibrationAltitudes()| && reading(CalibrationAltitudes()[i]).Some?;
      assert CalibrationAltitudes()[i] in once;
    }
  }

  /** No altitude in the table lies above `h`. */
  ghost predicate NoneAbove(table: Calibration, h: real) {
    forall k :: k in table ==> k <= h
  }

  /** `e` is the table's entry with the least altitude strictly above `h`. */
  ghost predicate IsNextAbove(table: Calibration, h: real, e: Entry) {
    && e.altitude in table && table[e.altitude] == e.metersPerPoint
    && e.altitude > h
    && forall k :: k in table && k > h ==> e.altitude <= k
  }

  /** There is at most one such entry. */
  lemma NextAboveUnique(table: Calibration, h: real, e1: Entry, e2: Entry)
    requires IsNextAbove(table, h, e1) && IsNextAbove(table, h, e2)
    ensures e1 == e2
  {
  }

  /** A set that is not empty has an element. */
  lemma HasElement(s: set<real>)
    requires s != {}
    ensures exists x :: x in s
  {
    if forall x :: x !in s {
      assert false;
    }
  }

  /** The table's entries, in some order. */
  method Entries(table: Calibration) returns (es: seq<Entry>)
    ensures forall e :: e in es <==> e.altitude in table && table[e.altitude] == e.metersPerPoint
  {
    var keys := table.Keys;
    es := [];
    while keys != {}
      invariant keys <= table.Keys
      invariant forall e :: e in es <==> e.altitude in table.Keys - keys && table[e.altitude] == e.metersPerPoint
      decreases |keys|
    {
      HasElement(keys);
      var k :| k in keys;
      es := es + [Entry(k, table[k])];
      keys := keys - {k};
    }
  }

  /**
   * `metersPerPointAtAltitude.sorted(by: key <).first(where: key > h)`:
   * sorting by altitude and taking the first entry above `h` gives the
   * entry with the least altitude above `h`, and nothing when no altitude
   * lies above it.
   */
  method EntryAbove(table: Calibration, h: real) returns (r: Option<Entry>)
    ensures r.None? <==> NoneAbove(table, h)
    ensures r.Some? ==> IsNextAbove(table, h, r.value)
  {
    var entries := Entries(table);
    var sorted := SortBy(entries, AltitudeOf);
    ListingFindsNextAbove(table, entries, sorted, h);
    r := FirstWhere(sorted, AboveTest(h));
  }

  /** The test `first(where:)` applies: the altitude lies strictly above `h`. */
  function AboveTest(h: real): Entry -> bool {
    (e: Entry) => e.altitude > h
  }

  /**
   * Any listing of the table's entries, once sorted by altitude, has as its
   * first entry above `h` the next entry above `h`, and none when no
   * altitude lies above `h`.
   */
  lemma ListingFindsNextAbove(table: Calibration, entries: seq<Entry>, sorted: seq<Entry>, h: real)
    requires forall e :: e in entries <==> e.altitude in table && table[e.altitude] == e.metersPerPoint
    requires multiset(sorted) == multiset(entries) && SortedBy(sorted, AltitudeOf)
    ensures FirstWhere(sorted, AboveTest(h)).None? <==> NoneAbove(table, h)
    ensures FirstWhere(sorted, AboveTest(h)).Some? ==> IsNextAbove(table, h, FirstWhere(sorted, AboveTest(h)).value)
  {
    SameElements(sorted, entries);
    var r := FirstWhere(sorted, AboveTest(h));
    if r.None? {
      NothingFoundNoneAbove(table, sorted, h);
    } else {
      var i :| 0 <= i < |sorted| && sorted[i] == r.value && AboveTest(h)(sorted[i])
        && forall j :: 0 <= j < i ==> !AboveTest(h)(sorted[j]);
      FirstFoundIsNextAbove(table, sorted, h, i);
    }
  }

  /** When no entry of a full listing lies above `h`, no altitude in the table does. */
  lemma NothingFoundNoneAbove(table: Calibration, sorted: seq<Entry>, h: real)
    requires forall e :: e in sorted <==> e.altitude in table && table[e.altitude] == e.metersPerPoint
    requires forall j :: 0 <= j < |sorted| ==> !AboveTest(h)(sorted[j])
    ensures NoneAbove(table, h)
  {
    forall k | k in table ensures k <= h {
      assert Entry(k, table[k]) in sorted;
      var j :| 0 <= j < |sorted| && sorted[j] == Entry(k, table[k]);
      assert !AboveTest(h)(sorted[j]);
    }
  }

  /** In a full listing sorted by altitude, the first entry above `h` is the next entry above `h`. */
  lemma FirstFoundIsNextAbove(table: Calibration, sorted: seq<Entry>, h: real, i: nat)
    requires forall e :: e in sorted <==> e.altitude in table && table[e.altitude] == e.metersPerPoint
    requires SortedBy(sorted, AltitudeOf)
    requires i < |sorted| && sorted[i].altitude > h
    requires forall j :: 0 <= j < i ==> !AboveTest(h)(sorted[j])
    ensures IsNextAbove(table, h, sorted[i])
  {
    assert sorted[i] in sorted;
    FirstAboveIsLeast(sorted, h, i);
    forall k | k in table && k > h ensures sorted[i].altitude <= k {
      assert Entry(k, table[k]) in sorted;
    }
  }

  /** In a list sorted by altitude, the first entry above `h` has the least altitude of those above `h`. */
  lemma FirstAboveIsLeast(sorted: seq<Entry>, h: real, i: nat)
    requires SortedBy(sorted, AltitudeOf)
    requires i < |sorted| && sorted[i].altitude > h
    requires forall j :: 0 <= j < i ==> !(sorted[j].altitude > h)
    ensures forall e :: e in sorted && e.altitude > h ==> sorted[i].altitude <= e.altitude
  {
    forall e | e in sorted && e.altitude > h ensures sorted[i].altitude <= e.altitude {
      var j :| 0 <= j < |sorted| && sorted[j] == e;
      if i < j {
        assert AltitudeOf(sorted[i]) <= AltitudeOf(sorted[j]);
      }
    }
  }

  datatype Size = Size(width: real, height: real)
  /** The top and bottom of an edge-inset value; left and right play no part. */
  datatype Insets = Insets(top: real, bottom: real)
  datatype MapCamera = MapCamera(center: Coord, distance: real, pitch: real, heading: real)

  /** The header's height above the map. */
  const HeaderHeight: real := 88.0
  /** The extra points kept clear at each edge. */
  const EdgeAllowance: real := 30.0

  /** The map's insets: the header plus the safe-area top, nothing at the bottom. */
  function MapInsets(safe: Insets): Insets {
    Insets(HeaderHeight + safe.top, 0.0)
  }

  /**
   * How far the centre of the visible part of the map sits below the
   * centre of the map frame, in points: half the difference of the insets,
   * whatever the frame's height.
   */
  function VisibleCenterOffset(frameHeight: real, insets: Insets): (r: real)
    ensures r == (insets.top - insets.bottom) / 2.0
  {
    var visibleMapHeight := frameHeight - (insets.top + insets.bottom);
    var centerOfMap := frameHeight / 2.0;
    var centerOfVisibleMap := visibleMapHeight / 2.0;
    (centerOfVisibleMap + insets.top) - centerOfMap
  }

  /**
   * The padding in metres: each edge's inset beyond the safe area, plus 30
   * points, at `metersPerPoint` metres per point.
   */
  function Padding(insets: Insets, safe: Insets, metersPerPoint: real): (r: real)
    ensures metersPerPoint >= 0.0 ==> r >= 0.0
  {
    var topWithoutInset := CoursesHelper.Abs(insets.top - safe.top);
    var bottomWithoutInset := CoursesHelper.Abs(insets.bottom - safe.bottom);
    (topWithoutInset + EdgeAllowance) * metersPerPoint + (bottomWithoutInset + EdgeAllowance) * metersPerPoint
  }

  /** With the map's own insets the padding is 148 points plus the safe-area bottom, in metres. */
  lemma MapPadding(safe: Insets, metersPerPoint: real)
    ensures Padding(MapInsets(safe), safe, metersPerPoint) == (148.0 + CoursesHelper.Abs(safe.bottom)) * metersPerPoint
  {
    assert CoursesHelper.Abs(MapInsets(safe).top - safe.top) == 88.0;
    assert CoursesHelper.Abs(MapInsets(safe).bottom - safe.bottom) == CoursesHelper.Abs(safe.bottom);
  }

  /** How far the camera centre moves along the heading, in metres: half the map's top inset at `metersPerPoint`. */
  function CenterShift(safe: Insets, metersPerPoint: real): real {
    (HeaderHeight + safe.top) / 2.0 * metersPerPoint
  }

  /** The camera height with the padding is never below the one without it. */
  lemma AdjustedNotBelowInitial(distance: real, safe: Insets, metersPerPoint: real, tanHalfFov: real)
    requires tanHalfFov > 0.0 && metersPerPoint >= 0.0
    ensures Camera.CameraDistance(distance, Padding(MapInsets(safe), safe, metersPerPoint), tanHalfFov)
      >= Camera.CameraDistance(distance, 0.0, tanHalfFov)
  {
    Camera.CameraDistanceMonotone(distance, 0.0, distance, Padding(MapInsets(safe), safe, metersPerPoint), tanHalfFov);
  }

  /**
   * `getCamera`: nothing without the hole's centroid, heading and distance
   * and the map frame. The camera looks at the centroid from the initial
   * height when no calibration altitude lies above that height; otherwise
   * from the height padded for the insets, and, when the calibration also
   * covers that height, at the centroid moved along the heading by the
   * visible-centre offset in metres. `destination(from, bearing, metres)`
   * is the spherical destination point.
   */
  method GetCamera(
    centroid: Option<Coord>, heading: Option<real>, distance: Option<real>, mapFrame: Option<Size>,
    safe: Insets, table: Calibration, tanHalfFov: real, destination: (Coord, real, real) -> Coord)
    returns (cam: Option<MapCamera>)
    requires tanHalfFov > 0.0
    ensures cam.None? <==> centroid.None? || heading.None? || distance.None? || mapFrame.None?
    ensures cam.Some? ==> cam.value.pitch == 0.0 && cam.value.heading == heading.value
    ensures cam.Some? ==>
      var initial := Camera.CameraDistance(distance.value, 0.0, tanHalfFov);
      NoneAbove(table, initial) ==> cam.value == MapCamera(centroid.value, initial, 0.0, heading.value)
    ensures cam.Some? ==>
      var initial := Camera.CameraDistance(distance.value, 0.0, tanHalfFov);
      forall e :: IsNextAbove(table, initial, e) ==>
        var adjusted := Camera.CameraDistance(distance.value, Padding(MapInsets(safe), safe, e.metersPerPoint), tanHalfFov);
        && cam.value.distance == adjusted
        && (NoneAbove(table, adjusted) ==> cam.value.center == centroid.value)
        && forall e2 :: IsNextAbove(table, adjusted, e2) ==>
             cam.value.center == destination(centroid.value, heading.value, CenterShift(safe, e2.metersPerPoint))
  {
    if centroid.None? || heading.None? || distance.None? || mapFrame.None? {
      return None;
    }
    var initialCameraHeight := Camera.CameraDistance(distance.value, 0.0, tanHalfFov);
    var mapInsets := MapInsets(safe);
    var entry := EntryAbove(table, initialCameraHeight);
    if entry.None? {
      return Some(MapCamera(centroid.value, initialCameraHeight, 0.0, heading.value));
    }
    var offset := VisibleCenterOffset(mapFrame.value.height, mapInsets);
    assert offset == (HeaderHeight + safe.top) / 2.0;
    var padding := Padding(mapInsets, safe, entry.value.metersPerPoint);
    var adjustedCameraHeight := Camera.CameraDistance(distance.value, padding, tanHalfFov);
    forall e | IsNextAbove(table, initialCameraHeight, e) ensures e == entry.value {
      NextAboveUnique(table, initialCameraHeight, e, entry.value);
    }
    var adjustedEntry := EntryAbove(table, adjustedCameraHeight);
    if adjustedEntry.None? {
      return Some(MapCamera(centroid.value, adjustedCameraHeight, 0.0, heading.value));
    }
    forall e | IsNextAbove(table, adjustedCameraHeight, e) ensures e == adjustedEntry.value {
      NextAboveUnique(table, adjustedCameraHeight, e, adjustedEntry.value);
    }
    var shift := offset * adjustedEntry.value.metersPerPoint;
    assert shift == CenterShift(safe, adjustedEntry.value.metersPerPoint);
    var center := destination(centroid.value, heading.value, shift);
    return Some(MapCamera(center, adjustedCameraHeight, 0.0, heading.value));
  }
}
