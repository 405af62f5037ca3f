/** The values that flow from the output decoder through suppression into the
    report: corner-form boxes, decoded predictions, and integer rounding. */
module Predictions {

  /** Corner-form box [x1, y1, x2, y2] in original-image pixels. */
  datatype Box = Box(x1: int, y1: int, x2: int, y2: int)
  {
    /** Both corners in order, so width and height are not negative. */
    predicate WellFormed() {
      x1 <= x2 && y1 <= y2
    }

    function Width(): int { x2 - x1 }

    function Height(): int { y2 - y1 }

    function Area(): int { Width() * Height() }
  }

  /** One decoded detection: centre-form box and size already divided by the
      letterbox scale, the winning class score and index, that class's name,
      and the rounded corner-form box. */
  datatype Prediction = Prediction(
    x: real, y: real, width: real, height: real,
    confidence: real,
    classIndex: nat,
    className: string,
    box: Box)

  /** Math.round on a mathematical real: the nearest integer, with halves
      rounded towards positive infinity. */
  function Round(v: real): (r: int)
    ensures v - 0.5 < r as real <= v + 0.5
  {
    (v + 0.5).Floor
  }

  /** Rounding never reverses the order of two values. */
  lemma RoundMonotone(a: real, b: real)
    requires a <= b
    ensures Round(a) <= Round(b)
  {
  }
}
