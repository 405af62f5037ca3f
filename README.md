# Waste classifier post-processing, modelled in Dafny

This project models the deterministic core of a waste-image classification
service. The service takes a photo of a household's waste and returns:

- a count of detected items per waste class ("Bio-Medical", "Plastic",
  "Construction", "Horticulture");
- the list of detections;
- the caller's house id;
- a verdict: "segregated" when exactly one class was found, "Non - Segregated"
  otherwise;
- a timestamp.

The model covers the steps between the image libraries and the HTTP layer:

- **Image side** (`ImageProcessor`, image_processor.dfy):
  - HEIC sniffing over bytes 4..11;
  - the letterbox scale `S / max(w, h)`;
  - the `/255` normalisation loop into a zero-filled buffer of `3 * S * S`
    samples;
  - the interleaved-to-planar (HWC to CHW) triple loop, on `array<real>`,
    with the index map proved to be a bijection.
- **Output decoding** (`OutputDecoder`, decoder.dfy):
  - the flat output buffer is read in the transposed `[1, 4+K, N]` or the
    standard `[1, N, P]` layout, chosen by `dims[1] == K + 4`;
  - the best class comes from a strict-greater-than scan that starts at
    score 0, index 0; a class score read past the end of the buffer is
    `undefined`, which is never greater, so the scan skips it;
  - a box value read past the end is `undefined` as well, but every class
    score of that prediction lies after its box values, so it scores 0 and
    is skipped;
  - before the loop, the first prediction is logged with `toFixed`: its
    class scores in the transposed layout, the first 4 + K values of the
    buffer in the standard one; an undefined value among them makes
    processOutput throw;
  - a candidate is kept only when its score reaches 0.25;
  - the centre-form box is divided by the scale and rounded into a corner
    box.
- **Suppression** (`Suppression`, `Overlap`, `Ordering`):
  - candidates are grouped by class index; groups are visited in ascending
    index order, which is the key order of an object with integer keys;
  - each group is sorted stably by non-increasing confidence;
  - within a group, the greedy loop over a `used` set drops a later box
    whose IoU with a kept box exceeds 0.45;
  - the merged survivors are sorted again.
  - IoU is `intersection / (union + 1e-6)`, with the intersection sides
    clamped at 0.
- **`ModelService.ProcessOutput`** composes decoding and suppression.
- **Report** (`WasteService`):
  - the 0.6 gate;
  - per-class counts, kept as an insertion-ordered association list, as the
    counts object's keys are;
  - the verdict;
  - the `{class, confidence}` projection;
  - house-id pass-through;
  - the timestamp rewrite of an ISO string.
- `WasteService.ClassifyWaste` composes all of it.

Scores, coordinates and pixel samples are mathematical reals, and
`Math.round` is `floor(v + 0.5)`. The output tensor, the resized pixel
buffer, the original width and height, and the clock's ISO string are
inputs.

Three behaviours of the code are easy to miss, and the model follows the
code in each:

- The non-segregated verdict is the literal `"Non - Segregated"`, with
  spaces.
- A tensor shape that matches neither layout is read as standard rather
  than rejected. `OutputDecoder.MismatchedShapeAliases` gives the address
  arithmetic of the misread. `OutputDecoder.ShortRowsMisread` decodes such a
  tensor: a box coordinate of one prediction becomes the winning class
  score of the one before it.
- Suppression depends on input order when two boxes of one class have
  equal confidence. The stable sort keeps their input order, and that
  order decides which one suppresses the other
  (`Suppression.TieOrderMatters`).

## Model

| member | source | states |
|---|---|---|
| Predictions.Round | src/services/modelService.js:129-132 | Math.round lands within half a unit of its argument, rounding halves upwards |
| Predictions.RoundMonotone | src/services/modelService.js:129-132 | rounding preserves order, so the corners of a non-negative-size box come out ordered |
| Overlap.Overlap1D | src/services/modelService.js:260-265 | the clamped overlap of two intervals is non-negative, positive exactly when both intervals are non-empty and strictly overlap, and no longer than either interval |
| Overlap.IntersectionBounds | src/services/modelService.js:260-265 | the clamped intersection area is non-negative, positive exactly when the boxes strictly overlap and both have positive extent, and for well-formed boxes at most each box's area |
| Overlap.DenominatorNonZero | src/services/modelService.js:268-270 | the `union + 1e-6` denominator is never zero for an integer union |
| Overlap.QuotientBounds | src/services/modelService.js:268-270 | for an intersection between 0 and the union, the quotient lies in [0, 1) and is positive exactly when the intersection is |
| Overlap.CalculateIou | src/services/modelService.js:259-271 | disjoint boxes give IoU 0; well-formed boxes give IoU in [0, 1), positive exactly when they overlap with positive extent |
| Overlap.IouSymmetric | src/services/modelService.js:259-271 | IoU does not depend on argument order |
| Overlap.IouSelf | src/services/modelService.js:259-271 | a well-formed box of positive area has IoU with itself just below 1, within 1e-6 |
| Ordering.InsertByConfidence | src/services/modelService.js:230 | one insertion step of the stable descending sort adds exactly the inserted element |
| Ordering.InsertKeepsOrder | src/services/modelService.js:230 | inserting into a confidence-ordered list keeps it ordered |
| Ordering.SortByConfidence | src/services/modelService.js:230-254 | the sort is a permutation of its input, ordered by non-increasing confidence |
| Ordering.AtConfidence | src/services/modelService.js:230-254 | the predictions of one confidence value, in order, are drawn from the list and are no more than it |
| Ordering.InsertAtConfidence | src/services/modelService.js:230-254 | an insertion step puts the new prediction in front of those of its own confidence and keeps the order among each confidence |
| Ordering.SortStable | src/services/modelService.js:230-254 | the sort is stable: for every confidence value, the predictions with that confidence keep their input order |
| Ordering.SortedMembers | src/services/modelService.js:230 | sorting neither adds nor loses a prediction |
| Ordering.HeadIsMaximal | src/services/modelService.js:230-237 | the first element of a sorted group has the group's highest confidence |
| OutputDecoder.ViewOf | src/services/modelService.js:75-140 | transposed exactly when `dims[1] == K + 4`, with N = `dims[2]`; every other shape is standard, with N = `dims[1]`; a shape with fewer than three dimensions has no predictions |
| OutputDecoder.AddressingPerLayout | src/services/modelService.js:100-173 | channel k of prediction i is at `k*dims[2] + i` in the transposed layout and at `i*dims[2] + k` in the standard one |
| OutputDecoder.AddressesDistinct | src/services/modelService.js:100-173 | no two (prediction, channel) pairs share a cell, when each standard run holds all 4 + K values |
| OutputDecoder.MismatchedShapeAliases | src/services/modelService.js:137-173 | with a standard run one value short, the last class score of a prediction is the first box value of the next |
| OutputDecoder.ValueAt | src/services/modelService.js:109-172 | a read is defined exactly when its address is inside the buffer, and then it is the stored value; what the scan makes of these reads is proved by `OutputDecoder.Argmax` and `OutputDecoder.BoxBeyondEndSkipped` |
| OutputDecoder.Argmax | src/services/modelService.js:106-180 | the confidence is non-negative and at least every defined score; if positive, it is the defined score at the first index reaching it; otherwise it is 0 at index 0; undefined scores are skipped |
| OutputDecoder.ClassScores | src/services/modelService.js:109-172 | the K class-score reads of a prediction, each at its layout's address, undefined when past the end; their properties are carried by `OutputDecoder.Argmax`, `OutputDecoder.ScanClasses` and `OutputDecoder.BoxBeyondEndSkipped` |
| OutputDecoder.ScanClasses | src/services/modelService.js:106-178 | the class loop over the buffer computes exactly Argmax of the prediction's K score reads |
| OutputDecoder.BoxBeyondEndSkipped | src/services/modelService.js:100-182 | a prediction with a positive best score has all four box values inside the buffer, so one with a box read past the end is never pushed |
| OutputDecoder.LogFirstPrediction | src/services/modelService.js:89-158 | the first-prediction logging returns exactly when every value it formats is inside the buffer: prediction 0's class scores in the transposed layout, the first 4 + K values in the standard one whenever `dims[1] > 0` |
| OutputDecoder.DecodePrediction | src/services/modelService.js:100-207 | one iteration yields the record for prediction i when its best score reaches 0.25, and nothing otherwise |
| OutputDecoder.DecodeOutput | src/services/modelService.js:67-209 | throws exactly when the first-prediction logging formats an undefined value; otherwise the decoding loop returns the kept records of all predictions, in prediction order |
| OutputDecoder.DecodedInOrder | src/services/modelService.js:100-208 | the j-th record comes from a strictly increasing prediction index, every prediction that passes appears, and the output is no longer than the prediction count |
| OutputDecoder.ScaledCorner | src/services/modelService.js:128-133 | the scaled corner equals the scaled centre minus or plus half the scaled size |
| OutputDecoder.DecodeAtRecord | src/services/modelService.js:119-206 | a pushed record has confidence ≥ 0.25 equal to the best score, a class index below K with its name, and the rounded corner box of its scaled centre form, ordered when the size is non-negative |
| OutputDecoder.DecodedRecords | src/services/modelService.js:119-207 | every decoded record satisfies the record invariant above |
| OutputDecoder.ShortRowsMisread | src/services/modelService.js:137-178 | a [1, 2, 7] tensor of 14 values is read as standard: prediction 0 takes prediction 1's x (100) as its class-3 score, and prediction 1's class-3 read past the end is skipped |
| OutputDecoder.BoxPastEndTolerated | src/services/modelService.js:137-182 | a [1, 5, 2] tensor of 10 values logs without throwing, decodes its first prediction, and skips its last, whose box reads run past the end |
| OutputDecoder.TwoDimensionalLogging | src/services/modelService.js:139-158 | a [1, n] shape has no predictions; its logging throws exactly when n > 0, n != K + 4 (read as standard) and the buffer is shorter than 4 + K, and a transposed reading or n = 0 logs nothing |
| OutputDecoder.SingleTransposedExample | src/services/modelService.js:82-135 | a one-prediction transposed tensor with scores 0.9/0.1/0.05/0.02 at scale 1 decodes to one Bio-Medical record with box [75, 75, 125, 125] |
| Suppression.ClassMembersCount | src/services/modelService.js:219-225 | grouping puts every occurrence of a prediction into its own class's group and nowhere else |
| Suppression.ClassMembersOfClass | src/services/modelService.js:219-225 | a group holds only input predictions of its class, and a class has a group exactly when it occurs |
| Suppression.AscendingKeys | src/services/modelService.js:229 | the groups are visited in strictly ascending class index, each present class once |
| Suppression.SuppressedStep | src/services/modelService.js:234-250 | after visiting i, j is marked used exactly when it was marked before or i is kept, i < j, and their IoU exceeds the threshold |
| Suppression.KeptIffUnused | src/services/modelService.js:234-235 | position i is kept exactly when no earlier survivor has marked it used |
| Suppression.SkipStep | src/services/modelService.js:235 | skipping a used position leaves the set of used later positions as it was |
| Suppression.MarkOverlapping | src/services/modelService.js:240-250 | the inner loop leaves a later position used exactly when a survivor up to and including i overlaps it by more than the threshold |
| Suppression.GreedyScan | src/services/modelService.js:232-251 | the greedy `used`-set loop over a sorted group pushes exactly that group's survivors, in order |
| Suppression.SuppressClass | src/services/modelService.js:230-251 | sorting one class group and scanning it yields exactly the survivors of the sorted group |
| Suppression.GroupByClass | src/services/modelService.js:219-225 | the grouping loop gives a group for exactly the classes that occur, each holding that class's predictions in input order |
| Suppression.MergeGroups | src/services/modelService.js:227-252 | visiting the groups in the given class order appends each class's survivors to `keep` |
| Suppression.SurvivorsFacts | src/services/modelService.js:232-251 | survivors come from the group, any two have IoU ≤ threshold, and the group's first element always survives |
| Suppression.InsertKeepsCompatible | src/services/modelService.js:254 | the final sort's insertion step keeps same-class pairs separated |
| Suppression.SortKeepsCompatible | src/services/modelService.js:254 | the final sort keeps every same-class pair at IoU ≤ threshold |
| Suppression.KeptOfClassCount | src/services/modelService.js:229-251 | a class's survivors are a sub-multiset of that class's input predictions |
| Suppression.MergedCount | src/services/modelService.js:227-252 | the merged `keep` list holds each prediction exactly as often as its class's survivors do |
| Suppression.MergedCompatible | src/services/modelService.js:227-252 | in the merged list, same-class pairs have IoU ≤ threshold, while different classes are never compared |
| Suppression.ApplyNms | src/services/modelService.js:218-257 | the grouping loop, per-class suppression and final sort compute exactly the suppression function |
| Suppression.NmsFromInput | src/services/modelService.js:218-257 | the result is a sub-multiset of the input, so it is no longer than the input and holds only input predictions |
| Suppression.NmsSeparated | src/services/modelService.js:240-254 | any two results of the same class have IoU ≤ threshold, and the result is ordered by non-increasing confidence |
| Suppression.ClassHead | src/services/modelService.js:219-230 | the head of an occurring class's sorted group is an input prediction of that class with the class's highest confidence |
| Suppression.KeptInNms | src/services/modelService.js:229-257 | a survivor of an occurring class is in the final result |
| Suppression.NmsKeepsClassBest | src/services/modelService.js:229-238 | every class present in the input keeps a prediction of highest confidence among that class's inputs |
| Suppression.NmsPerClass | src/services/modelService.js:229-252 | a class's results are exactly the survivors of suppressing that class's group alone |
| Suppression.NmsClassIndependent | src/services/modelService.js:219-252 | a class's results depend only on that class's inputs |
| Suppression.PairGroup | src/services/modelService.js:219-229 | two predictions of one class form the only group, in input order |
| Suppression.PairSurvivors | src/services/modelService.js:232-251 | in a group of two that overlap beyond the threshold, only the first survives |
| Suppression.TiedPairKeepsFirst | src/services/modelService.js:218-257 | of two tied, overlapping predictions of one class, the one listed first is the only result |
| Suppression.TieOrderMatters | src/services/modelService.js:218-257 | two tied boxes with IoU 90/110 give `[A]` in one input order and `[B]` in the other |
| ModelService.ProcessOutput | src/services/modelService.js:67-216 | throws exactly when the first-prediction logging formats an undefined value; otherwise the decoded, suppressed detections: no more than the prediction count, every one a valid record, ordered by confidence, same-class pairs at IoU ≤ 0.45 |
| ImageProcessor.IsHeic | src/utils/imageProcessor.js:60-75 | false for buffers under 12 bytes; otherwise true exactly when bytes 4..11 are one of ftypheic, ftypheix, ftyphevc, ftyphevx |
| ImageProcessor.LetterboxScale | src/utils/imageProcessor.js:22 | the scale maps the longer side onto the target exactly, is positive for a positive target, and makes both sides fit |
| ImageProcessor.Normalized | src/utils/imageProcessor.js:34-39 | a normalised sample lies in [0, 1] and is 0 beyond the resized buffer |
| ImageProcessor.Normalize | src/utils/imageProcessor.js:34-39 | a freshly allocated buffer has 3·S·S samples, each the resized byte over 255 where one exists and 0 elsewhere |
| ImageProcessor.ChwIndexExpanded | src/utils/imageProcessor.js:100 | the planar index is `c*H*W + h*W + w` |
| ImageProcessor.HwcIndexExpanded | src/utils/imageProcessor.js:99 | the interleaved index is `h*W*3 + w*3 + c` |
| ImageProcessor.ChwCoordinates | src/utils/imageProcessor.js:96-103 | in-range coordinates give a planar index in range, which maps back to their interleaved index |
| ImageProcessor.HwcCoordinates | src/utils/imageProcessor.js:96-103 | in-range coordinates give an interleaved index in range, which maps to their planar index |
| ImageProcessor.PlanarIndexDecodes | src/utils/imageProcessor.js:96-103 | every planar index below 3·H·W is the index of exactly the coordinates it decodes to |
| ImageProcessor.InterleavedIndexDecodes | src/utils/imageProcessor.js:96-103 | every interleaved index below 3·H·W is the index of the coordinates it decodes to (channel s % 3, pixel s / 3 split by W), which are in range |
| ImageProcessor.SourceRoundTrip | src/utils/imageProcessor.js:96-103 | planar to interleaved stays in range and is undone by the reverse map, so no two destinations read the same sample |
| ImageProcessor.SourceOnto | src/utils/imageProcessor.js:96-103 | every interleaved index below 3·H·W is read by some planar index, so no sample is lost |
| ImageProcessor.SourceIndicesInRange | src/utils/imageProcessor.js:96-103 | every destination reads a source index in range |
| ImageProcessor.LoopIndices | src/utils/imageProcessor.js:99-101 | the loop's `srcIdx` and `dstIdx` are the coordinate indices, and `dstIdx` advances by one per step |
| ImageProcessor.ReshapeToChw | src/utils/imageProcessor.js:91-107 | a freshly allocated output has 3·H·W samples, `dst[c*H*W + h*W + w] == src[h*W*3 + w*3 + c]` for all in-range coordinates, and every destination holds its source sample |
| ImageProcessor.PreprocessImage | src/utils/imageProcessor.js:6-53 | the result carries the original size and the letterbox scale, and holds 3·S·S planar samples in [0, 1], each the normalised interleaved sample at the same coordinates |
| WasteService.FilterPredictions | src/services/wasteService.js:53-55 | a prediction is in the result exactly when it is in the input with confidence ≥ threshold |
| WasteService.FilterIsSubsequence | src/services/wasteService.js:53-55 | filtering only deletes, keeping the original order |
| WasteService.FilterCount | src/services/wasteService.js:53-55 | each passing prediction is kept as often as it occurs, and each failing one not at all |
| WasteService.SubsequenceKeepsOrder | src/services/wasteService.js:53-55 | what filtering keeps from a confidence-ordered list stays ordered and comes from that list |
| WasteService.FilterTwice | src/services/wasteService.js:53-55 | for t1 ≤ t2, filtering at t1 then at t2 equals filtering at t2, and the t2 result is a subsequence of the t1 result |
| WasteService.KeyIndex | src/services/wasteService.js:60 | a present key is found at a position that holds that key |
| WasteService.Increment | src/services/wasteService.js:60 | bumping a name adds one to its existing entry in place, or appends it with count 1; keys stay distinct |
| WasteService.CountsOf | src/services/wasteService.js:57-63 | the counts object never has a key twice |
| WasteService.GenerateCounts | src/services/wasteService.js:57-63 | the counting loop builds the counts object, whose keys are exactly the class names that occur, each with its number of occurrences |
| WasteService.CountsKeys | src/services/wasteService.js:57-63 | a class name is a key exactly when some detection has it, so absent classes have no key |
| WasteService.CountsAreOccurrences | src/services/wasteService.js:57-63 | each key's value is its number of occurrences |
| WasteService.TotalUpdate | src/services/wasteService.js:60 | overwriting one entry's count changes the total by the difference |
| WasteService.IncrementTotal | src/services/wasteService.js:60 | one bump adds one to the sum of the counts |
| WasteService.CountsTotal | src/services/wasteService.js:57-63 | the counts sum to the number of detections |
| WasteService.Inference | src/services/wasteService.js:24-25 | the verdict is "segregated" exactly when there is one key, and "Non - Segregated" otherwise; `WasteService.SegregatedIff` states what that means for the detections |
| WasteService.SegregatedIff | src/services/wasteService.js:18-25 | "segregated" exactly when at least one detection passes and all share one class name |
| WasteService.ToDetections | src/services/wasteService.js:39-42 | detections have the filtered list's length and order, each `{class: className, confidence}`; `WasteService.DetectionsAgreeWithCounts` and `WasteService.DetectionsOfGated` relate them to the counts and to the gate |
| WasteService.DetectionsAgreeWithCounts | src/services/wasteService.js:21-42 | the detections list and the counts agree: same total, each key's count is the number of list entries of that class, and every entry's class is a key |
| WasteService.RemoveFirst | src/services/wasteService.js:32 | `replace("Z", "")` removes only the first 'Z', if there is one |
| WasteService.AppendMicros | src/services/wasteService.js:33 | `replace(/(\d{3})$/, "$1000")` appends "000" when the string ends in three digits, and otherwise leaves it unchanged; `WasteService.TimestampOfIso` gives its effect on an ISO string |
| WasteService.TimestampOfIso | src/services/wasteService.js:28-34 | an ISO string `…ss.mmmZ` becomes `…ss.mmm000+00:00` |
| WasteService.TimestampExample | src/services/wasteService.js:28-34 | "2024-05-01T10:20:30.123Z" becomes "2024-05-01T10:20:30.123000+00:00" |
| WasteService.DetectionsOfGated | src/services/wasteService.js:39-42 | the `{class, confidence}` projection keeps each confidence and class name, so bounds on the predictions carry over to the detections |
| WasteService.GatedDetections | src/services/wasteService.js:18-42 | after the 0.6 gate, detections stay confidence-ordered, and each reaches 0.6 and names a configured class |
| WasteService.ClassifyWaste | src/services/wasteService.js:6-50 | rethrows exactly when processOutput's first-prediction logging throws; otherwise the report's counts, detections and verdict come from the gated output of processOutput at the letterbox scale, house_id is returned unchanged, and the timestamp is the rewritten ISO string |

## Left out

- Model loading and inference are not part of this model. This covers
  `ModelService.initialize`, `predict` and `getModelInfo`, the "Model not
  loaded" guard, and ONNX Runtime session creation and `session.run`. The
  output tensor's `dims` and `data` are inputs instead.
- Image decoding is not part of this model. `sharp` metadata, resize with
  grey padding, raw extraction and `heic-convert` are foreign libraries. The
  resized byte buffer and the original width and height are inputs.
  `PreprocessImage` assumes both sides are positive, which `sharp` metadata
  supplies.
- The RGBA case is not modelled. If the raw buffer carried an alpha channel,
  the normalisation loop would write it as if it were RGB; the model treats
  the buffer as an arbitrary byte sequence and copies it the same way, but
  does not interpret channels.
- Clock access is left out. `new Date().toISOString()` becomes the ISO
  string parameter; only the string rewrite is modelled.
- IEEE-754 float32 storage and rounding are not modelled. Scores,
  coordinates and normalised samples are exact reals, so `x / 255` is not
  rounded to float32.
- Log output is not modelled; the throw of the first-prediction logging is
  (`OutputDecoder.LogFirstPrediction`). The try/catch rethrow wrappers and
  the HTTP layer are not part of this model either. That covers routes, the
  controller, the validation and error-handler middleware and the
  application setup.
- OutputDecoder.ViewOf: a shape with fewer than three dimensions gives no
  predictions. The source's loop bound or reads are then undefined, so
  nothing can pass the threshold. Its first-prediction logging is modelled
  on `dims` itself (`OutputDecoder.FirstLogReadable`), so the throw in that
  case is covered.
- WasteService.Increment: requires distinct keys. This is what an object's
  keys always are, so no reachable counts object is excluded.
- Suppression.ApplyNms: groups are visited in ascending class index. That
  is the key order of the source's object with integer-like keys; any other
  iteration order is not modelled.
- Suppression is not claimed to be independent of input order, because it
  is not: `Suppression.TieOrderMatters` gives two tied boxes whose order
  decides which survives. `Suppression.NmsClassIndependent` states the part
  that holds, namely that classes do not influence each other.
