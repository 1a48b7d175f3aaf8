/** Terrain: where a shot lies, and the label each kind is reported under. */
module Terrains {

  datatype Terrain =
    | Unknown | Fairway | LeftOfFairway | RightOfFairway | Sand
    | ChipPitch | Green | Fringe | TeeBox | TeeBoxParThree

  /** `stringValue`: one label per case, except that both tee boxes read "TEEBOX". */
  function StringValue(t: Terrain): string {
    match t
    case Unknown => "UNKNOWN"
    case Fairway => "FAIRWAY"
    case LeftOfFairway => "FAIRWAY_LEFT"
    case RightOfFairway => "FAIRWAY_RIGHT"
    case Sand => "SAND"
    case ChipPitch => "CHIP"
    case Green => "GREEN"
    case Fringe => "FRINGE"
    case TeeBox | TeeBoxParThree => "TEEBOX"
  }

  /** The two tee boxes are the only two cases that share a label. */
  lemma LabelsDistinct(s: Terrain, t: Terrain)
    ensures StringValue(s) == StringValue(t) <==> s == t || (s in {TeeBox, TeeBoxParThree} && t in {TeeBox, TeeBoxParThree})
  {
  }

  /** The label names the kind of ground: the edges of the fairway carry its name, the short game is "CHIP". */
  lemma LabelExamples()
    ensures StringValue(LeftOfFairway) == "FAIRWAY_LEFT" && StringValue(RightOfFairway) == "FAIRWAY_RIGHT"
    ensures StringValue(ChipPitch) == "CHIP"
    ensures StringValue(TeeBox) == StringValue(TeeBoxParThree) == "TEEBOX"
  {
  }
}
