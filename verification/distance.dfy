/**
 * Distance: a length held in meters, its unit conversions, the scale table
 * used for calculations, comparison and addition; and the plays-like
 * adjustment totals built on it.
 */
module Distances {
  import opened Wrappers

  const MetersToYards: real := 1.09361
  const YardsToMeters: real := 0.9144
  const MilesToKm: real := 1.609

  /** `Double(MAXFLOAT)`: the largest finite Float, 2^128 - 2^104, widened exactly. */
  const MaxFloat: real := 340282346638528859811704183484516925440.0

  datatype Distance = Distance(value: real)

  datatype DistanceScale = Long | Medium | Short

  /** `init(meters:)`: the value is kept as given. */
  function FromMeters(meters: real): (d: Distance)
    ensures d.value == meters
  {
    Distance(meters)
  }

  /** `init(yards:)`: yards converted with 0.9144 meters per yard. */
  function FromYards(yards: real): (d: Distance)
    ensures d.value == yards * YardsToMeters
  {
    Distance(yards * YardsToMeters)
  }

  /** `yardsValue`: meters converted with 1.09361 yards per meter. */
  function YardsValue(d: Distance): (r: real)
    ensures r == d.value * MetersToYards
  {
    d.value * MetersToYards
  }

  /** `metersValue`: the stored value. */
  function MetersValue(d: Distance): (r: real)
    ensures r == d.value
  {
    d.value
  }

  /** `zeroDistance()`. */
  function ZeroDistance(): (d: Distance)
    ensures d.value == 0.0
  {
    FromMeters(0.0)
  }

  /** `maxDistance()`: the largest Float, in meters. */
  function MaxDistance(): (d: Distance)
    ensures d.value == MaxFloat
  {
    FromMeters(MaxFloat)
  }

  /**
   * The two conversion constants are not inverses of each other: a
   * yards-to-meters-to-yards round trip loses three parts per million, so
   * it is within 1e-5 of the input and exact only at zero.
   */
  lemma YardsRoundTrip(yards: real)
    ensures YardsValue(FromYards(yards)) == yards * 0.999996984
    ensures yards >= 0.0 ==> yards - yards / 100000.0 <= YardsValue(FromYards(yards)) <= yards
    ensures yards <= 0.0 ==> yards <= YardsValue(FromYards(yards)) <= yards - yards / 100000.0
    ensures YardsValue(FromYards(yards)) == yards <==> yards == 0.0
  {
    assert YardsToMeters * MetersToYards == 0.999996984;
  }

  /**
   * `init(meters:)` and `metersValue` are inverse to each other, while the
   * meters-to-yards-to-meters trip through the two constants scales by
   * 0.999996984, like the trip the other way.
   */
  lemma MetersRoundTrip(meters: real, d: Distance)
    ensures MetersValue(FromMeters(meters)) == meters
    ensures FromMeters(MetersValue(d)) == d
    ensures MetersValue(FromYards(YardsValue(d))) == MetersValue(d) * 0.999996984
    ensures FromYards(YardsValue(d)) == d <==> d.value == 0.0
  {
    assert MetersToYards * YardsToMeters == 0.999996984;
  }

  /** A Float holds a value of magnitude at most `MAXFLOAT`. */
  predicate InFloatRange(x: real) {
    -MaxFloat <= x <= MaxFloat
  }

  /**
   * The two named distances are the ends of the range: zero reads as zero
   * in every unit and no length is below it, and the maximum is the largest
   * finite Float, (2^24 - 1) * 2^104, which no Float-sized distance exceeds.
   */
  lemma ExtremeDistances(d: Distance)
    ensures MetersValue(ZeroDistance()) == 0.0 && YardsValue(ZeroDistance()) == 0.0
    ensures forall scale :: CalcValue(ZeroDistance(), scale) == 0.0
    ensures d.value >= 0.0 ==> !LessThan(d, Some(ZeroDistance()))
    ensures MaxDistance().value == 16777215.0 * 20282409603651670423947251286016.0
    ensures InFloatRange(d.value) ==> !GreaterThan(d, Some(MaxDistance()))
    ensures InFloatRange(d.value) ==> !LessThan(MaxDistance(), Some(d))
  {
    forall scale ensures CalcValue(ZeroDistance(), scale) == 0.0 {
      assert scale == Long ==> CalcValue(ZeroDistance(), scale) * 1609.0 == 0.0;
    }
  }

  /**
   * `calcValue(_:)` for any setting of the two preferences: Japanese users
   * get yards except for the short scale (meters); metric users get
   * kilometers for the long scale and meters otherwise; everyone else gets
   * miles, yards, and feet.
   */
  function CalcValueIn(d: Distance, scale: DistanceScale, useMetric: bool, useJapanese: bool): (v: real)
    ensures useJapanese && scale != Short ==> v == YardsValue(d)
    ensures useJapanese && scale == Short ==> v == MetersValue(d)
    ensures !useJapanese && useMetric && scale == Long ==> v * 1000.0 == MetersValue(d)
    ensures !useJapanese && useMetric && scale != Long ==> v == MetersValue(d)
    ensures !useJapanese && !useMetric && scale == Long ==> v * 1000.0 * MilesToKm == MetersValue(d)
    ensures !useJapanese && !useMetric && scale == Medium ==> v == YardsValue(d)
    ensures !useJapanese && !useMetric && scale == Short ==> v == 3.0 * YardsValue(d)
  {
    if useJapanese then
      match scale
      case Long => d.value * MetersToYards
      case Short => d.value
      case Medium => d.value * MetersToYards
    else if useMetric then
      match scale
      case Long => d.value / 1000.0
      case _ => d.value
    else
      match scale
      case Long => d.value / 1000.0 / MilesToKm
      case Short => d.value * MetersToYards * 3.0
      case Medium => d.value * MetersToYards
  }

  /** `useMetric` and `useJapanese` are hard-coded to false. */
  const UseMetric: bool := false
  const UseJapanese: bool := false

  /** `calcValue(_:)` as the app runs it: miles, yards and feet. */
  function CalcValue(d: Distance, scale: DistanceScale): (v: real)
    ensures scale == Long ==> v * 1609.0 == d.value
    ensures scale == Medium ==> v == YardsValue(d)
    ensures scale == Short ==> v == 3.0 * YardsValue(d)
  {
    CalcValueIn(d, scale, UseMetric, UseJapanese)
  }

  /** Every scale grows with the distance: a longer distance never calculates to less. */
  lemma CalcValueMonotone(d: Distance, e: Distance, scale: DistanceScale, useMetric: bool, useJapanese: bool)
    requires d.value <= e.value
    ensures CalcValueIn(d, scale, useMetric, useJapanese) <= CalcValueIn(e, scale, useMetric, useJapanese)
  {
  }

  /** `lessThan(_:)`: false for nil. */
  function LessThan(d: Distance, other: Option<Distance>): (r: bool)
    ensures other.None? ==> !r
  {
    match other
    case None => false
    case Some(o) => d.value < o.value
  }

  /** `greaterThan(_:)`: false for nil. */
  function GreaterThan(d: Distance, other: Option<Distance>): (r: bool)
    ensures other.None? ==> !r
  {
    match other
    case None => false
    case Some(o) => d.value > o.value
  }

  /** What `isEqual(_:)` may be handed: nothing, a Distance, or some other object. */
  datatype AnyObject = DistanceObject(distance: Distance) | OtherObject

  /** `isEqual(_:)`: equal values for a Distance, false for anything else. */
  function IsEqual(d: Distance, obj: Option<AnyObject>): (r: bool)
    ensures r ==> obj.Some? && obj.value.DistanceObject?
  {
    match obj
    case Some(DistanceObject(o)) => d.value == o.value
    case _ => false
  }

  /** The `<` operator. */
  function Less(a: Distance, b: Distance): bool {
    a.value < b.value
  }

  /** The `==` operator. */
  function Equal(a: Distance, b: Distance): bool {
    a.value == b.value
  }

  /**
   * The comparators agree with each other: `lessThan` is `greaterThan` read
   * backwards, both agree with `<`, `isEqual` on a Distance agrees with
   * `==`, and exactly one of `a < b`, `a == b`, `b < a` holds.
   */
  lemma ComparatorsAgree(a: Distance, b: Distance)
    ensures LessThan(a, Some(b)) <==> GreaterThan(b, Some(a))
    ensures LessThan(a, Some(b)) <==> Less(a, b)
    ensures IsEqual(a, Some(DistanceObject(b))) <==> Equal(a, b)
    ensures !IsEqual(a, Some(OtherObject)) && !IsEqual(a, None)
    ensures (if Less(a, b) then 1 else 0) + (if Equal(a, b) then 1 else 0) + (if Less(b, a) then 1 else 0) == 1
    ensures Equal(a, b) <==> a == b
  {
  }

  /** The `+` operator: a new distance holding the sum of the meter values. */
  function Plus(a: Distance, b: Distance): (r: Distance)
    ensures MetersValue(r) == MetersValue(a) + MetersValue(b)
  {
    FromMeters(a.value + b.value)
  }

  /** `+` is commutative and associative, and zeroDistance is its identity. */
  lemma PlusLaws(a: Distance, b: Distance, c: Distance)
    ensures Plus(a, b) == Plus(b, a)
    ensures Plus(Plus(a, b), c) == Plus(a, Plus(b, c))
    ensures Plus(a, ZeroDistance()) == a && Plus(ZeroDistance(), a) == a
  {
  }

  /** The plays-like adjustments of a shot; every adjustment may be missing. */
  datatype PlaysLikeAdjustments = PlaysLikeAdjustments(
    altitude: Option<real>,
    windAdjustment: Option<real>,
    windSpeedKMH: Option<real>,
    windSpeedMPH: Option<real>,
    windGust: Option<real>,
    windGustAdjustment: Option<real>,
    startElevation: Option<real>,
    endElevation: Option<real>,
    elevationChangeAdjustment: Option<real>,
    humidity: Option<real>,
    humidityAdjustment: Option<real>,
    temperature: Option<real>,
    temperatureAdjustment: Option<real>,
    altitudeAdjustment: Option<real>,
    actualDistance: real,
    playsLikeDistance: real,
    windDirection: Option<real>,
    holeBearing: Option<real>)

  /** `kWindGustAdjustmentThreshholdInMeters`. */
  const WindGustAdjustmentThreshold: real := 4.57

  /** `elevationChange`: start minus end, nil unless both are known. */
  function ElevationChange(p: PlaysLikeAdjustments): (r: Option<real>)
    ensures r.Some? <==> p.startElevation.Some? && p.endElevation.Some?
    ensures r.Some? ==> r.value + p.endElevation.value == p.startElevation.value
  {
    match (p.startElevation, p.endElevation)
    case (Some(s), Some(e)) => Some(s - e)
    case _ => None
  }

  /** `x` is an integer. */
  predicate IsWhole(x: real) {
    x == x.Floor as real
  }

  /**
   * Foundation's `round`: the nearest integer, halfway cases away from zero.
   */
  function RoundHalfAwayFromZero(x: real): (r: real)
    ensures IsWhole(r)
    ensures -0.5 <= r - x <= 0.5
    ensures r - x == 0.5 ==> x > 0.0
    ensures x - r == 0.5 ==> x < 0.0
  {
    if x >= 0.0 then
      var n := (x + 0.5).Floor;
      FloorBounds(x + 0.5);
      WholeInt(n);
      n as real
    else
      var n := (-x + 0.5).Floor;
      FloorBounds(-x + 0.5);
      WholeInt(-n);
      (-n) as real
  }

  lemma WholeInt(n: int)
    ensures IsWhole(n as real)
  {
  }

  lemma FloorBounds(y: real)
    ensures y.Floor as real <= y < y.Floor as real + 1.0
  {
  }

  /** Rounding is odd: the sign only moves through it. */
  lemma RoundSymmetric(x: real)
    ensures RoundHalfAwayFromZero(-x) == -RoundHalfAwayFromZero(x)
  {
  }

  /** `rounded(num:)`: 0 for nil, otherwise the value as yards, rounded. */
  function Rounded(num: Option<real>): (r: real)
    ensures num.None? ==> r == 0.0
    ensures IsWhole(r)
    ensures num.Some? ==> -0.5 <= r - CalcValue(FromMeters(num.value), Medium) <= 0.5
  {
    match num
    case None => 0.0
    case Some(n) => RoundHalfAwayFromZero(CalcValue(FromMeters(n), Medium))
  }

  /** The sum every total shares: the rounded distance and all adjustments but the gust. */
  function CommonTotal(p: PlaysLikeAdjustments): real {
    Rounded(Some(p.actualDistance)) + Rounded(p.windAdjustment)
    + Rounded(p.humidityAdjustment) + Rounded(p.temperatureAdjustment)
    + Rounded(p.elevationChangeAdjustment) + Rounded(p.altitudeAdjustment)
  }

  /** `addedUpTotal`: the rounded distance plus every rounded adjustment, gust included; never nil. */
  function AddedUpTotal(p: PlaysLikeAdjustments): (r: Option<real>)
    ensures r.Some? && IsWhole(r.value)
  {
    var processed := Rounded(Some(p.actualDistance));
    var processed := processed + Rounded(p.windAdjustment);
    var processed := processed + Rounded(p.windGustAdjustment);
    var processed := processed + Rounded(p.humidityAdjustment);
    var processed := processed + Rounded(p.temperatureAdjustment);
    var processed := processed + Rounded(p.elevationChangeAdjustment);
    var processed := processed + Rounded(p.altitudeAdjustment);
    WholeSum(Rounded(Some(p.actualDistance)), Rounded(p.windAdjustment), Rounded(p.humidityAdjustment),
      Rounded(p.temperatureAdjustment), Rounded(p.elevationChangeAdjustment), Rounded(p.altitudeAdjustment));
    assert processed == CommonTotal(p) + Rounded(p.windGustAdjustment);
    WholePair(CommonTotal(p), Rounded(p.windGustAdjustment));
    Some(processed)
  }

  /** `addedUpTotalNoGust`: the same sum without the gust adjustment; never nil. */
  function AddedUpTotalNoGust(p: PlaysLikeAdjustments): (r: Option<real>)
    ensures r.Some? && IsWhole(r.value)
  {
    var processed := Rounded(Some(p.actualDistance));
    var processed := processed + Rounded(p.windAdjustment);
    var processed := processed + Rounded(p.humidityAdjustment);
    var processed := processed + Rounded(p.temperatureAdjustment);
    var processed := processed + Rounded(p.elevationChangeAdjustment);
    var processed := processed + Rounded(p.altitudeAdjustment);
    WholeSum(Rounded(Some(p.actualDistance)), Rounded(p.windAdjustment), Rounded(p.humidityAdjustment),
      Rounded(p.temperatureAdjustment), Rounded(p.elevationChangeAdjustment), Rounded(p.altitudeAdjustment));
    Some(processed)
  }

  lemma WholeSum(a: real, b: real, c: real, d: real, e: real, f: real)
    requires IsWhole(a) && IsWhole(b) && IsWhole(c) && IsWhole(d) && IsWhole(e) && IsWhole(f)
    ensures IsWhole(a + b + c + d + e + f)
  {
    assert a + b + c + d + e + f == (a.Floor + b.Floor + c.Floor + d.Floor + e.Floor + f.Floor) as real;
  }

  lemma WholePair(a: real, b: real)
    requires IsWhole(a) && IsWhole(b)
    ensures IsWhole(a + b)
  {
    assert a + b == (a.Floor + b.Floor) as real;
  }

  /**
   * The two totals differ by exactly the rounded gust adjustment, which is
   * zero when there is no gust adjustment.
   */
  lemma GustDifference(p: PlaysLikeAdjustments)
    ensures AddedUpTotal(p).value - AddedUpTotalNoGust(p).value == Rounded(p.windGustAdjustment)
    ensures p.windGustAdjustment.None? ==> AddedUpTotal(p) == AddedUpTotalNoGust(p)
  {
  }
}
