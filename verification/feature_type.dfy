/** FeatureType: the kind of a hole feature, decoded from its numeric feature id. */
module FeatureTypes {

  datatype FeatureType =
    | Unknown | Green | GreenSandtrap | FairwaySandtrap | FairwayWaterHazard
    | GreenWaterHazard | Teebox | TeeboxOld | Fairway | FairwayCenter | Trees | BoundingBox

  /** The enum's raw values. */
  function RawValue(t: FeatureType): int {
    match t
    case Unknown => 0
    case Green => 1
    case GreenSandtrap => 2
    case FairwaySandtrap => 3
    case FairwayWaterHazard => 4
    case GreenWaterHazard => 5
    case Teebox => 6
    case TeeboxOld => 27
    case Fairway => 7
    case FairwayCenter => 8
    case Trees => 9
    case BoundingBox => 10
  }

  /** The ids the switch names. */
  predicate IsKnownId(id: int) {
    0 <= id <= 10 || id == 27
  }

  /** `init(for:)`: total; a named id gives the case with that raw value, any other id gives `unknown`. */
  function FromId(id: int): (t: FeatureType)
    ensures IsKnownId(id) ==> RawValue(t) == id
    ensures !IsKnownId(id) ==> t == Unknown
  {
    match id
    case 0 => Unknown
    case 1 => Green
    case 2 => GreenSandtrap
    case 3 => FairwaySandtrap
    case 4 => FairwayWaterHazard
    case 5 => GreenWaterHazard
    case 6 => Teebox
    case 27 => TeeboxOld
    case 7 => Fairway
    case 8 => FairwayCenter
    case 9 => Trees
    case 10 => BoundingBox
    case _ => Unknown
  }

  /** Decoding the raw value of a case gives that case back. */
  lemma RoundTrip(t: FeatureType)
    ensures IsKnownId(RawValue(t))
    ensures FromId(RawValue(t)) == t
  {
  }

  /** Ids outside the table collapse onto `unknown`, so decoding is not injective; 6 and 27 are two different tee-box cases. */
  lemma NotInjective(id: int)
    requires !IsKnownId(id)
    ensures FromId(id) == FromId(0) && id != 0
    ensures FromId(6) == Teebox && FromId(27) == TeeboxOld && FromId(6) != FromId(27)
  {
  }

  predicate IsGreen(t: FeatureType) { t == Green }
  predicate IsTeeBox(t: FeatureType) { t == Teebox || t == TeeboxOld }
  predicate IsFairway(t: FeatureType) { t == Fairway }
  predicate IsFairwayCenter(t: FeatureType) { t == FairwayCenter }
  predicate IsSandTrap(t: FeatureType) { t == GreenSandtrap || t == FairwaySandtrap }
  predicate IsWaterHazard(t: FeatureType) { t == GreenWaterHazard || t == FairwayWaterHazard }
  predicate IsTree(t: FeatureType) { t == Trees }
  predicate IsBoundingBox(t: FeatureType) { t == BoundingBox }

  /** How many of the classification predicates hold. */
  function ClassCount(t: FeatureType): nat {
    (if IsGreen(t) then 1 else 0) + (if IsTeeBox(t) then 1 else 0)
    + (if IsFairway(t) then 1 else 0) + (if IsFairwayCenter(t) then 1 else 0)
    + (if IsSandTrap(t) then 1 else 0) + (if IsWaterHazard(t) then 1 else 0)
    + (if IsTree(t) then 1 else 0) + (if IsBoundingBox(t) then 1 else 0)
  }

  /** The predicates are pairwise exclusive: every type satisfies at most one, and only `unknown` satisfies none. */
  lemma ClassesExclusive(t: FeatureType)
    ensures ClassCount(t) <= 1
    ensures ClassCount(t) == 0 <==> t == Unknown
  {
  }

  /** Classification read back to feature ids. */
  lemma ClassifiedIds(id: int)
    ensures IsGreen(FromId(id)) <==> id == 1
    ensures IsSandTrap(FromId(id)) <==> id == 2 || id == 3
    ensures IsWaterHazard(FromId(id)) <==> id == 4 || id == 5
    ensures IsTeeBox(FromId(id)) <==> id == 6 || id == 27
    ensures IsFairway(FromId(id)) <==> id == 7
    ensures IsFairwayCenter(FromId(id)) <==> id == 8
  {
  }
}
