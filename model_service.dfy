/** ModelService.processOutput: decode the raw output, then suppress
    overlapping boxes per class with the configured IoU threshold. The
    inference session that produces the output is not part of this model;
    its shape and buffer are the inputs here. */
module ModelService {
  import opened Wrappers
  import opened Predictions
  import opened Overlap
  import opened Ordering
  import opened OutputDecoder
  import opened Suppression
  import Config

  /** The detections processOutput returns for one output tensor, or the
      error its first-prediction logging throws. */
  method ProcessOutput(dims: seq<nat>, data: seq<real>, classNames: seq<string>, scale: real)
    returns (result: Result<seq<Prediction>>)
    requires scale > 0.0
    ensures result.Failure? <==> !FirstLogReadable(dims, |classNames|, |data|)
    ensures result.Success? ==>
      result.value == Nms(Decoded(ViewOf(dims, |classNames|), data, classNames, scale), Config.NmsThreshold)
    ensures result.Success? ==> |result.value| <= ViewOf(dims, |classNames|).count
    ensures result.Success? ==> forall p | p in result.value :: ValidRecord(p, classNames)
    ensures result.Success? ==> NonIncreasing(result.value)
    ensures result.Success? ==> var detections := result.value;
      forall p, q | 0 <= p < |detections| && 0 <= q < |detections| && p != q &&
        detections[p].classIndex == detections[q].classIndex ::
          CalculateIou(detections[p].box, detections[q].box) <= Config.NmsThreshold
  {
    var decoded := DecodeOutput(dims, data, classNames, scale);
    if decoded.Failure? {
      result := Failure(decoded.error);
      return;
    }
    var predictions := decoded.value;
    var detections := ApplyNms(predictions, Config.NmsThreshold);
    var v := ViewOf(dims, |classNames|);
    DecodedInOrder(v, data, classNames, scale);
    DecodedRecords(v, data, classNames, scale);
    NmsFromInput(predictions, Config.NmsThreshold);
    NmsSeparated(predictions, Config.NmsThreshold);
    result := Success(detections);
  }
}
