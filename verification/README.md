# MapSample hole geometry, in Dafny

A model of the logic core of MapSample, the golf course map app. Its centre
is the hole-geometry engine of `CourseHole`. From the typed point lists of
a hole's features it derives:

- the green centre, the furthest tee point, and the fairway and green extremes;
- the playing length, the green depth and the heading;
- an oriented bounding rectangle in the plane x = longitude, y = latitude.

The rectangle is drawn from four lines: the tee→green axis, its
perpendicular through the tee/green midpoint, and parallels through the
extreme points on each side of both. Around the engine sit smaller pieces,
each modelled as well:

- the feature type table and the per-feature queries;
- the `Distance` value with its unit table and plays-like totals;
- the camera-distance formula, the altitude calibration and `getCamera` of the live map;
- the course-level ordering and lookups;
- the snapshot aspect-ratio fit;
- the terrain labels;
- the coordinate wrapper with its cached projections.

Modelling choices:

- Every `Double` is a `real`.
- `CLLocation.distance(from:)` is a parameter `dist` of type `Geo.Metric`: a non-negative, symmetric function.
- `tan(15°)` is a positive parameter `tanHalfFov`.
- The atan2 part of the bearing formula is a parameter ranging over [-180, 180].
- `SphericalUtil.destinationCoordinate` is a function parameter `destination`.
- The square root in `distanceFrom(point:to:)` is the same for every point scanned against one line. The scans therefore compare numerators, and `Lines.CompareByNumerator` proves that this orders points the same way.
- Where the source traps — a force-unwrapped missing extreme, an index into an empty corner list — the model returns a `Failure`.
- A tee that coincides with the green centre also returns a `Failure`. In the source the slope then divides by zero.

Files, one module each:

- `wrappers.dfy`: Option and Result.
- `selection.dfy`: first-max/min scans, `first(where:)`, sorting by a key.
- `geo.dfy`: coordinates, the metric, and the coordinate-wise mean.
- `helpers.dfy`: CoursesHelper.
- `lines.dfy`: GeometricLine and the line helpers.
- `feature_type.dfy`, `feature.dfy`: FeatureType and CourseHoleFeature.
- `distance.dfy`: Distance and PlaysLikeAdjustments.
- `location_wrapper.dfy`: LocationWrapper.
- `holes.dfy`: CourseHole.
- `camera.dfy`: CameraCalculator.
- `live_map.dfy`: LiveMapViewModel.
- `snapshot.dfy`: `highQualityImageSize`.
- `terrain.dfy`: Terrain.
- `course.dfy`: Course.

## Model

| member | source | states |
|---|---|---|
| Geo.Mean | Common/Models/CourseHoleFeature.swift:85-99 | nil exactly for no points; otherwise a point whose latitude and longitude, times the number of points, are the coordinate sums |
| Geo.MeanWithinBox | Common/Models/CourseHoleFeature.swift:89-97 | the mean of a non-empty point list lies inside every latitude/longitude box that holds all the points |
| Geo.MeanOfCopies | Common/Models/CourseHole.swift:136-155 | the mean of copies of one point is that point (a one-point green is its own centre) |
| Selection.FirstWhere | Common/Models/Course.swift:169-179 | `first(where:)`: nil iff no element qualifies; otherwise a qualifying element at an index before which none qualifies |
| Selection.SortBy | Common/Models/Course.swift:37-39 | `sorted(by:)` on a key: the result is in ascending key order and a permutation (same multiset) of the input |
| CoursesHelper.Midpoint | Common/Models/CoursesHelper.swift:32-36 | the midpoint is equally far from both ends in each coordinate and lies between them |
| CoursesHelper.MidpointSymmetric | Common/Models/CoursesHelper.swift:32-36 | the midpoint does not depend on argument order, and the midpoint of p with itself is p |
| CoursesHelper.NormalizeBearing | Common/Models/CoursesHelper.swift:26-28 | a negative bearing d becomes d + 360, a non-negative one is kept, and any d in [-180, 180] lands in [0, 360) |
| CoursesHelper.HeadingBetween | Common/Models/CoursesHelper.swift:16-30 | every heading lies in [0, 360) |
| FeatureTypes.FromId | Common/Models/FeatureType.swift:24-55 | total; a named id (0-10, 27) gives the case with that raw value, any other id gives `unknown` |
| FeatureTypes.RoundTrip | Common/Models/FeatureType.swift:10-55 | decoding a case's raw value gives the case back |
| FeatureTypes.NotInjective | Common/Models/FeatureType.swift:39-52 | unknown ids collapse onto `unknown`, while 6 and 27 give the two distinct tee-box cases |
| FeatureTypes.ClassesExclusive | Common/Models/CourseHoleFeature.swift:53-83 | at most one `is*` predicate holds for a type, and none holds only for `unknown` |
| FeatureTypes.ClassifiedIds | Common/Models/CourseHoleFeature.swift:53-75 | each classification read back to ids: green is 1, sand traps 2 and 3, water 4 and 5, tee boxes 6 and 27, fairway 7, fairway centre 8 |
| Features.TypeOf | Common/Models/CourseHoleFeature.swift:49-51 | a feature's type is the table entry for its id |
| Features.CenterCoordinate | Common/Models/CourseHoleFeature.swift:85-99 | nil iff the feature has no points; otherwise the coordinate-wise mean of its points |
| Features.MaxDistance | Common/Models/CourseHoleFeature.swift:127-133 | the fold from 0 is non-negative, at least every point's distance, and one of them (or 0 for no points) |
| Features.MaxDistanceFromFeature | Common/Models/CourseHoleFeature.swift:127-133 | 0 for an empty feature; otherwise at least every point's distance and attained by a point |
| Features.MinDistance | Common/Models/CourseHoleFeature.swift:135-141 | the fold from the greatest finite double is at most every point's distance, and is either that start value or one of the distances |
| Features.MinDistanceFromFeature | Common/Models/CourseHoleFeature.swift:135-141 | greatest finite double for an empty feature; otherwise at most every point's distance |
| Features.Closest | Common/Models/CourseHoleFeature.swift:151-165 | nil iff empty; otherwise a member point at minimal distance, the first such on ties |
| Features.ClosestAttainsMinDistance | Common/Models/CourseHoleFeature.swift:135-165 | the closest point's distance equals the minimum distance, so the two queries agree |
| Distances.MetersRoundTrip | Common/Models/Distance.swift:59-74 | `init(meters:)` and `metersValue` undo each other; meters → yards → meters scales by 0.999996984 and gives back the distance only at zero |
| Distances.YardsRoundTrip | Common/Models/Distance.swift:63-70 | yards → meters → yards scales by 0.999996984: within 1e-5 relative error, exact only at zero |
| Distances.ExtremeDistances | Common/Models/Distance.swift:46-52 | the zero distance reads 0 in meters, yards and every calculation scale, and no non-negative distance is less than it; the maximum distance is (2^24 - 1)·2^104, the largest finite Float, and no Float-range distance is greater than it |
| Distances.CalcValueIn | Common/Models/Distance.swift:82-111 | the unit table for every preference setting: Japanese yards/meters, metric km/m, otherwise miles/yards/feet |
| Distances.CalcValue | Common/Models/Distance.swift:173-178 | with both preferences hard-coded false: long × 1609 is the meters, medium is yards, short is three times yards |
| Distances.CalcValueMonotone | Common/Models/Distance.swift:82-111 | a longer distance never calculates to less, for every scale and setting |
| Distances.LessThan | Common/Models/Distance.swift:24-29 | false for nil |
| Distances.GreaterThan | Common/Models/Distance.swift:31-36 | false for nil |
| Distances.IsEqual | Common/Models/Distance.swift:38-43 | true only for a Distance object |
| Distances.ComparatorsAgree | Common/Models/Distance.swift:24-43 | `lessThan` is `greaterThan` reversed and agrees with `<`; `isEqual` agrees with `==`; exactly one of <, ==, > holds |
| Distances.PlusLaws | Common/Models/Distance.swift:203-205 | `+` is commutative and associative, with the zero distance as identity |
| Distances.ElevationChange | Common/Models/Distance.swift:219-222 | nil unless both elevations are known; otherwise end + change = start |
| Distances.RoundHalfAwayFromZero | Common/Models/Distance.swift:257 | `round` gives a whole number within 1/2, with halves going away from zero |
| Distances.RoundSymmetric | Common/Models/Distance.swift:257 | rounding commutes with negation |
| Distances.Rounded | Common/Models/Distance.swift:255-258 | 0 for nil; otherwise a whole number within 1/2 of the value in yards |
| Distances.AddedUpTotal | Common/Models/Distance.swift:234-243 | never nil and a whole number, since every term is rounded |
| Distances.AddedUpTotalNoGust | Common/Models/Distance.swift:245-253 | never nil and a whole number |
| Distances.GustDifference | Common/Models/Distance.swift:234-253 | the two totals differ by exactly the rounded gust adjustment, and agree without one |
| Locations.Init | Common/Models/LocationWrapper.swift:25-27 | the given latitude and longitude, with no projection cached |
| Locations.SetCoordinate | Common/Models/LocationWrapper.swift:30-32 | the coordinate is replaced and the cached projections are left as they were |
| Locations.Location | Common/Models/LocationWrapper.swift:17-19 | a cached location is returned as is; otherwise the current coordinate, which becomes cached |
| Locations.PointOf | Common/Models/LocationWrapper.swift:21-23 | a cached point is returned as is; otherwise (longitude, latitude), which becomes cached |
| Locations.FreshProjections | Common/Models/LocationWrapper.swift:17-27 | a fresh wrapper projects to its own coordinate, and a second read gives the same value |
| Locations.StaleAfterSetCoordinate | Common/Models/LocationWrapper.swift:17-32 | after both projections are read, `setCoordinate` leaves them describing the old coordinate |
| Lines.SideOf | Common/Models/CourseHole.swift:512-524 | right iff the point's intercept is below the line's c, left iff above, on the line iff equal |
| Lines.Numerator | Common/Models/CourseHole.swift:526-530 | the numerator is non-negative, and for b = -1 it is the gap between the line's c and the point's intercept |
| Lines.CompareByNumerator | Common/Models/CourseHole.swift:526-530 | against one line, comparing distances is comparing numerators |
| Lines.LineParallel | Common/Models/CourseHole.swift:532-536 | same slope, b = -1, through the given point |
| Lines.Intersection | Common/Models/CourseHole.swift:538-542 | for two lines with b = -1 and different slopes, the point lies on both |
| Lines.IntersectionUnique | Common/Models/CourseHole.swift:538-542 | any point on both such lines is that intersection |
| Holes.FeaturePoints | Common/Models/CourseHole.swift:52-77 | a point is selected iff it belongs to a feature whose type passes the filter |
| Holes.NoFeaturePoints | Common/Models/CourseHole.swift:136-153 | no point is selected iff every selected feature is empty |
| Holes.PointsExcludingWater | Common/Models/CourseHole.swift:213-224 | exactly the points of features that are not water hazards |
| Holes.GreenCenter | Common/Models/CourseHole.swift:136-155 | nil iff no green feature has a point; otherwise the mean of all green points together |
| Holes.FurthestTeeLocation | Common/Models/CourseHole.swift:105-120 | nil iff no green centre or no tee points; otherwise a tee point furthest from the green centre, the first on ties |
| Holes.FurthestFairwayLocation | Common/Models/CourseHole.swift:88-103 | nil iff no furthest tee or no fairway point; otherwise a point of a `fairway` feature furthest from the tee, the first on ties |
| Holes.Reference | Common/Models/CourseHole.swift:159 | the furthest fairway point when there is one, else the furthest tee point |
| Holes.TeeNeedsGreenPoints | Common/Models/CourseHole.swift:105-107 | a furthest tee point implies green points exist |
| Holes.ClosestGreenLocation | Common/Models/CourseHole.swift:157-172 | present iff a furthest tee is; a green point nearest the reference, the first on ties |
| Holes.FurthestGreenLocation | Common/Models/CourseHole.swift:174-189 | present iff a furthest tee is; a green point furthest from the reference, the first on ties |
| Holes.HoleDistance | Common/Models/CourseHole.swift:230-239 | present iff a furthest tee is; tee→fairway→far green with a fairway point, tee→far green without |
| Holes.GreenDistance | Common/Models/CourseHole.swift:241-252 | present iff a furthest tee is |
| Holes.GreenDepth | Common/Models/CourseHole.swift:241-252 | the depth is far-green minus near-green distance from the reference, never negative, zero for a one-point green |
| Holes.Heading | Common/Models/CourseHole.swift:28-31 | present iff a furthest tee is, and in [0, 360) |
| Holes.TeeCenters | Common/Models/CourseHole.swift:191-210 | exactly the means of the non-empty tee boxes, never more than the features |
| Holes.FurthestTeeCenter | Common/Models/CourseHole.swift:122-134 | nil iff no tee centre or no green centre; otherwise the tee centre furthest from the green centre |
| Holes.DistanceOfHole | Common/Models/CourseHole.swift:463-472 | zero without a furthest tee centre; otherwise its distance to the green centre, the longest of any tee centre |
| Holes.AxisSlope | Common/Models/CourseHole.swift:310-318 | nil iff tee = green; never 0; rise over run, with rise 1e-13 for a level tee and run 1e-14 for a tee due north or south |
| Holes.AxisLine | Common/Models/CourseHole.swift:320-324 | slope a, b = -1, through the tee |
| Holes.AxisThroughGreen | Common/Models/CourseHole.swift:310-324 | when tee and green differ in both coordinates the axis passes through the green too |
| Holes.PerpendicularLine | Common/Models/CourseHole.swift:365-370 | slope times the axis slope is -1, b = -1, through the midpoint |
| Holes.ScanUpTo | Common/Models/CourseHole.swift:335-360 | after n points, each side holds nothing iff no point lies there, else the first point furthest from the line |
| Holes.ScanSides | Common/Models/CourseHole.swift:335-360 | a kept index is a point on its own side |
| Holes.ScanSidesFindExtremes | Common/Models/CourseHole.swift:335-360 | over all points, each side keeps the first furthest point, nothing for an empty side |
| Holes.StripEncloses | Common/Models/CourseHole.swift:335-360 | every point's intercept lies between those of the right and left extremes |
| Holes.ScanFindsSide | Common/Models/CourseHole.swift:335-360 | an extreme is kept on a side iff some point lies on that side |
| Holes.ParallelsEnclose | Common/Models/CourseHole.swift:405-408 | the parallels through the two extremes bound every point's intercept |
| Holes.SideLines | Common/Models/CourseHole.swift:331-408 | traps iff one of the four half-planes is empty; otherwise a well-formed frame around every point |
| Holes.FrameThrough | Common/Models/CourseHole.swift:405-408 | the four parallels form a well-formed frame enclosing every point |
| Holes.FrameFrom | Common/Models/CourseHole.swift:306-408 | the slope trap iff tee = green; otherwise a well-formed frame with the axis through the tee, the perpendicular through the midpoint, enclosing every point |
| Holes.BoundingFrame | Common/Models/CourseHole.swift:290-408 | nothing iff no furthest tee; the slope trap iff the tee is the green centre; any frame encloses all non-water points |
| Holes.RectangleEnclosesFeatures | Common/Models/CourseHole.swift:213-408 | every non-water point lies between the two sides and between the two ends |
| Holes.PerpendicularSlopesDiffer | Common/Models/CourseHole.swift:366 | perpendicular slopes are never equal, so every corner intersection is defined |
| Holes.FrameCorners | Common/Models/CourseHole.swift:410-413 | four corners, each on the end and side its name says |
| Holes.BoundingCorners | Common/Models/CourseHole.swift:290-416 | none iff no furthest tee, else four; traps exactly when the frame does |
| Holes.FrameRightAngles | Common/Models/CourseHole.swift:405-413 | the corners meet at right angles in the (longitude, latitude) plane |
| Holes.FrameDiagonalsBisect | Common/Models/CourseHole.swift:405-413 | top-left + bottom-right = bottom-left + top-right: the diagonals bisect each other |
| Holes.Centroid | Common/Models/CourseHole.swift:269-288 | traps iff the corners do; nil iff there is no furthest tee |
| Holes.CentroidIsDiagonalMidpoint | Common/Models/CourseHole.swift:269-288 | the centroid is the mean of the four corners and the midpoint of either diagonal |
| Holes.Height | Common/Models/CourseHole.swift:496-502 | an index trap iff there are no corners; otherwise the distance between corner 1 and corner 0 (the left side, read in either order) |
| Holes.Width | Common/Models/CourseHole.swift:504-510 | an index trap iff there are no corners; otherwise the distance between corner 1 and corner 2 (the bottom end, read in either order) |
| Holes.LongestSide | Common/Models/CourseHole.swift:490-494 | at least height and width, and equal to one of them; the height's trap otherwise |
| Holes.TeeAndGreenOnlyTraps | Common/Models/CourseHole.swift:405-408 | with only the tee and green as points (in different rows and columns) the force-unwrap traps |
| Holes.TwoPointHoleTraps | Common/Models/CourseHole.swift:405-408 | a hole with a one-point green and a one-point tee box reaches that trap |
| Camera.CameraDistance | MapSample/Models/CameraCalculator.swift:13-20 | at least 200; covers the span; exactly half the span over tan(15°) once that reaches 200, else exactly 200 |
| Camera.CameraDistanceMonotone | MapSample/Models/CameraCalculator.swift:14-19 | monotone in distance and in padding |
| Camera.EmptySpanAtMinimum | MapSample/Models/CameraCalculator.swift:14-19 | zero distance and padding give exactly 200 |
| LiveMap.Stride | MapSample/ViewModels/LiveMapViewModel.swift:114 | `stride(from:to:by:)`: empty iff start ≥ stop; values in [start, stop), step apart, from start until the next would reach stop |
| LiveMap.AltitudeRange | MapSample/ViewModels/LiveMapViewModel.swift:114 | the calibration altitudes are 200, 250, …, 4950: 96 values, 5000 excluded |
| LiveMap.Record | MapSample/ViewModels/LiveMapViewModel.swift:114-124 | the loop stores each altitude that has a reading, under that altitude, and keeps the rest |
| LiveMap.Calibrate | MapSample/ViewModels/LiveMapViewModel.swift:112-125 | unchanged without a course location or when already filled; an empty table gets exactly the altitudes with readings |
| LiveMap.CalibrateIdempotent | MapSample/ViewModels/LiveMapViewModel.swift:113 | once any altitude has a reading, calibrating again changes nothing |
| LiveMap.NextAboveUnique | MapSample/ViewModels/LiveMapViewModel.swift:51 | the entry just above a height is unique |
| LiveMap.EntryAbove | MapSample/ViewModels/LiveMapViewModel.swift:51 | sort then `first(where:)`: nil iff no altitude is above h; otherwise the entry with the least altitude above h |
| LiveMap.ListingFindsNextAbove | MapSample/ViewModels/LiveMapViewModel.swift:51 | whatever order the dictionary lists its entries in, sorting by altitude and taking the first above h finds the entry with the least altitude above h |
| LiveMap.VisibleCenterOffset | MapSample/ViewModels/LiveMapViewModel.swift:58-61 | the offset is (top - bottom)/2, whatever the frame height |
| LiveMap.Padding | MapSample/ViewModels/LiveMapViewModel.swift:63-66 | non-negative for a non-negative scale |
| LiveMap.MapPadding | MapSample/ViewModels/LiveMapViewModel.swift:47-66 | with the map's insets the padding is (148 + the safe-area bottom) points, in metres |
| LiveMap.AdjustedNotBelowInitial | MapSample/ViewModels/LiveMapViewModel.swift:46-67 | the padded camera height is never below the initial one |
| LiveMap.GetCamera | MapSample/ViewModels/LiveMapViewModel.swift:41-81 | nil iff an input is missing; pitch 0 and the hole heading; the initial height at the raw centroid without an entry above it; else the padded height, at the raw centroid without a second entry, otherwise shifted along the heading by half the top inset at the second entry's scale |
| Snapshot.HighQualityImageSize | MapSample/Models/MapTileDownloader.swift:61-84 | a wider ratio takes the padded width, any other the padded height; the other side follows the ratio |
| Snapshot.SnapshotFits | MapSample/Models/MapTileDownloader.swift:63-81 | for positive inputs the size is positive, keeps the ratio, and fits the padded screen |
| Terrains.LabelsDistinct | Common/Models/Terrain.swift:22-45 | two labels are equal iff the cases are, or both are tee boxes |
| Terrains.LabelExamples | Common/Models/Terrain.swift:28-41 | the fairway edges read FAIRWAY_LEFT/RIGHT, the short game CHIP, both tee boxes TEEBOX |
| Courses.OrderedHoles | Common/Models/Course.swift:37-39 | a permutation of the holes in ascending hole id |
| Courses.FirstHole | Common/Models/Course.swift:33-35 | nil iff there are no holes; otherwise the least hole id, the id of some hole |
| Courses.OrderedCourseTees | Common/Models/Course.swift:54-58 | a permutation of the tees from the longest down |
| Courses.MensTee | Common/Models/Course.swift:41-48 | nil iff no tees; a member; with two or more, the second in order, no longer than the first and no shorter than any later one |
| Courses.WomensTee | Common/Models/Course.swift:50-52 | nil iff no tees; otherwise a shortest tee |
| Courses.MensTeeNotShorter | Common/Models/Course.swift:41-52 | the men's tee is never shorter than the women's |
| Courses.HoleFor | Common/Models/Course.swift:169-173 | nil iff no hole has the id; otherwise the first hole with it |
| Courses.TeeBoxFor | Common/Models/Course.swift:175-179 | nil iff no tee has the id; otherwise the first tee with it |
| Courses.LocalizedName | Common/Models/Course.swift:60-72 | the course name without a language code or matching locale; otherwise the first matching locale's name |
| Courses.IsLatestFlag | Common/Models/Course.swift:113 | true iff the string is exactly "T" |
| Courses.IsLatestIsExact | Common/Models/Course.swift:113 | "t", "true" and "TRUE" all read as false |
| Courses.DistanceFromCourse | Common/Models/Course.swift:181-183 | the non-negative distance between the location and the course |

## Left out

- Geodesy and trigonometry: the distance between coordinates, atan2/sin/cos in `headingBetweenCoordinates`, `tan`, `sqrt` and `SphericalUtil.destinationCoordinate`. Each is a parameter or an assumption; Dafny has no real trigonometry.
- Geo.Metric: symmetry of the distance is assumed. The source picks the near and far green points by distance-to-reference but measures reference-to-point, so the depth's sign needs it. A geodesic distance is symmetric.
- IEEE-754 rounding, infinities and NaN. This includes whether the 1e-13/1e-14 nudges survive rounding, and division by a zero height or ratio. `Snapshot.HighQualityImageSize` therefore requires non-zero denominators.
- Holes.AxisSlope: a tee that coincides with the green centre returns `CoincidentTeeAndGreen`. Under IEEE arithmetic it yields an infinite or NaN slope instead of trapping.
- Selection.SortBy: Swift's `sorted(by:)` promises no particular order among equal keys; the model is a specific insertion sort. Its contracts state only order and permutation.
- `path`, `rect`, `contains`, `rectanglePath`: CGPath and MKMapRect are graphics libraries.
- The `holeFeatures`, `green`, `sandtrapFeatures` and `fairwayCenterFeatures` lists: the engine does not read them, and FeaturePoints covers the feature filters.
- The unused `visableAngleConstant` and `syncQueue`, and the `getPar`/`getHandicap` accessors.
- Codable and NSSecureCoding: all decoders and encoders, and the serialisation records. Only the `isLatest` rule is kept. The decoder leaves `holes` and `courseLocaleName` empty; the model takes a course as given.
- Distance's display strings (`displayValue`, `displayUnit`, `displayString`): they depend on `String(format:)` and localisation.
- `MapTileDownloader.downloadSnapshots`: concurrency and the map snapshotter.
- `getCameraRegion`, `getCentroidOfCourse`, the selected-hole getters and the Combine subscription. `getCamera` takes the hole's centroid, heading and distance and the map frame as optional inputs.
- The safe-area insets are a parameter. The dataSource's metres-per-point reading is a function from altitude to an optional value, absent without a data source.
- The delegate calls that move the camera.
- The `Terrain` raw values: nothing reads them.
- SwiftUI/UIKit views, colours, fonts and the app entry point.
