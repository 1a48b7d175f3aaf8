/**
 * The ordering and selection helpers of Course: holes in hole order, tees
 * from the longest down, the men's and women's tees, lookups by id, the
 * localised name and the `isLatest` flag.
 */
module Courses {
  import opened Wrappers
  import opened Geo
  import opened Selection
  import Distances
  import Holes

  datatype CourseTee = CourseTee(teeId: int, name: Option<string>, distance: Distances.Distance)
  datatype LocaleName = LocaleName(locale: string, name: string)

  datatype Course = Course(
    courseId: int,
    name: string,
    location: Coord,
    courseTees: seq<CourseTee>,
    holes: seq<Holes.Hole>,
    courseLocaleName: seq<LocaleName>)

  function HoleKey(h: Holes.Hole): real { h.holeId as real }

  /** Sorting by `tee1.distance > tee2.distance` is sorting by the negated length. */
  function TeeKey(t: CourseTee): real { -t.distance.value }

  /** `orderedHoles`: the holes rearranged into ascending hole id. */
  function OrderedHoles(c: Course): (r: seq<Holes.Hole>)
    ensures multiset(r) == multiset(c.holes)
    ensures forall i, j :: 0 <= i < j < |r| ==> r[i].holeId <= r[j].holeId
  {
    var r := SortBy(c.holes, HoleKey);
    assert forall i, j :: 0 <= i < j < |r| ==> HoleKey(r[i]) <= HoleKey(r[j]);
    r
  }

  /** `firstHole`: the least hole id, nil for a course without holes. */
  function FirstHole(c: Course): (r: Option<int>)
    ensures r.None? <==> |c.holes| == 0
    ensures r.Some? ==> exists h :: h in c.holes && h.holeId == r.value
    ensures r.Some? ==> forall h :: h in c.holes ==> r.value <= h.holeId
  {
    var ordered := OrderedHoles(c);
    SameElements(ordered, c.holes);
    if |ordered| == 0 then None
    else
      assert forall h :: h in ordered ==> ordered[0].holeId <= h.holeId;
      Some(ordered[0].holeId)
  }

  /** `orderedCourseTees`: the tees rearranged from the longest to the shortest. */
  function OrderedCourseTees(c: Course): (r: seq<CourseTee>)
    ensures multiset(r) == multiset(c.courseTees)
    ensures forall i, j :: 0 <= i < j < |r| ==> r[i].distance.value >= r[j].distance.value
  {
    var r := SortBy(c.courseTees, TeeKey);
    assert forall i, j :: 0 <= i < j < |r| ==> TeeKey(r[i]) <= TeeKey(r[j]);
    r
  }

  /**
   * `mensTee`: the second-longest tee when there are two or more, the only
   * tee when there is one, nil when there are none.
   */
  function MensTee(c: Course): (r: Option<CourseTee>)
    ensures r.None? <==> |c.courseTees| == 0
    ensures r.Some? ==> r.value in c.courseTees
    ensures |c.courseTees| >= 2 ==>
      var o := OrderedCourseTees(c);
      r == Some(o[1]) && o[0].distance.value >= r.value.distance.value
      && forall i :: 1 <= i < |o| ==> o[i].distance.value <= r.value.distance.value
  {
    var o := OrderedCourseTees(c);
    SameElements(o, c.courseTees);
    if |o| >= 2 then Some(o[1])
    else if |o| == 1 then Some(o[0])
    else None
  }

  /** `womensTee`: the last tee in order, so a shortest one; nil when there are none. */
  function WomensTee(c: Course): (r: Option<CourseTee>)
    ensures r.None? <==> |c.courseTees| == 0
    ensures r.Some? ==> r.value in c.courseTees
    ensures r.Some? ==> forall t :: t in c.courseTees ==> r.value.distance.value <= t.distance.value
  {
    var o := OrderedCourseTees(c);
    SameElements(o, c.courseTees);
    if |o| == 0 then None
    else
      assert forall t :: t in o ==> o[|o| - 1].distance.value <= t.distance.value;
      Some(o[|o| - 1])
  }

  /** Whenever a course has a tee, the men's tee is never shorter than the women's. */
  lemma MensTeeNotShorter(c: Course)
    requires |c.courseTees| >= 1
    ensures MensTee(c).value.distance.value >= WomensTee(c).value.distance.value
  {
  }

  /** `hole(for:)`: the first hole with that id, nil when there is none. */
  function HoleFor(c: Course, holeId: int): (r: Option<Holes.Hole>)
    ensures r.None? <==> forall h :: h in c.holes ==> h.holeId != holeId
    ensures r.Some? ==> exists i ::
      && 0 <= i < |c.holes| && c.holes[i] == r.value && r.value.holeId == holeId
      && forall j :: 0 <= j < i ==> c.holes[j].holeId != holeId
  {
    FirstWhere(c.holes, (h: Holes.Hole) => h.holeId == holeId)
  }

  /** `teeBox(for:)`: the first tee with that id, nil when there is none. */
  function TeeBoxFor(c: Course, teeId: int): (r: Option<CourseTee>)
    ensures r.None? <==> forall t :: t in c.courseTees ==> t.teeId != teeId
    ensures r.Some? ==> exists i ::
      && 0 <= i < |c.courseTees| && c.courseTees[i] == r.value && r.value.teeId == teeId
      && forall j :: 0 <= j < i ==> c.courseTees[j].teeId != teeId
  {
    FirstWhere(c.courseTees, (t: CourseTee) => t.teeId == teeId)
  }

  /**
   * `localizedName` for the current language code (nil when the locale has
   * none): the name of the first locale entry for that code, or else the
   * course's own name.
   */
  function LocalizedName(c: Course, languageCode: Option<string>): (r: string)
    ensures languageCode.None? ==> r == c.name
    ensures languageCode.Some? && (forall l :: l in c.courseLocaleName ==> l.locale != languageCode.value) ==> r == c.name
    ensures languageCode.Some? && (exists l :: l in c.courseLocaleName && l.locale == languageCode.value) ==>
      exists i ::
        && 0 <= i < |c.courseLocaleName| && c.courseLocaleName[i].locale == languageCode.value
        && r == c.courseLocaleName[i].name
        && forall j :: 0 <= j < i ==> c.courseLocaleName[j].locale != languageCode.value
  {
    match languageCode
    case None => c.name
    case Some(code) =>
      match FirstWhere(c.courseLocaleName, (l: LocaleName) => l.locale == code)
      case None => c.name
      case Some(localized) => localized.name
  }

  /** The decoding rule of `isLatest`: the flag is set by the string "T" and by nothing else. */
  function IsLatestFlag(s: string): (r: bool)
    ensures r <==> |s| == 1 && s[0] == 'T'
  {
    s == "T"
  }

  /** The rule is exact: "t", "true" and "TRUE" all read as false. */
  lemma IsLatestIsExact()
    ensures !IsLatestFlag("t") && !IsLatestFlag("true") && !IsLatestFlag("TRUE") && IsLatestFlag("T")
  {
  }

  /** `distance(fromCourseTo:)`: how far `location` is from the course, in metres. */
  function DistanceFromCourse(c: Course, location: Coord, dist: Metric): (r: Distances.Distance)
    ensures r.value >= 0.0 && r.value == dist(c.location, location)
  {
    Distances.FromMeters(dist(location, c.location))
  }
}
