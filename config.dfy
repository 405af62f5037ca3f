/** Fixed configuration of the classifier: the class list whose order is the
    model's output channel order, the two decoder thresholds, and the two
    constants the report builder hard-codes (input size and report gate). */
module Config {
  /** Class names; index c is the class whose score sits in channel 4 + c. */
  const ClassNames: seq<string> := ["Bio-Medical", "Plastic", "Construction", "Horticulture"]

  /** Side of the square model input, in pixels. */
  const InputSize: nat := 768

  /** A decoded prediction is kept only if its best class score reaches this. */
  const ConfidenceThreshold: real := 0.25

  /** Within one class, a later box whose IoU with a kept box exceeds this is dropped. */
  const NmsThreshold: real := 0.45

  /** Second, stricter gate applied when building the report. */
  const FilterThreshold: real := 0.6
}
