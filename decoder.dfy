/** processOutput's decoding stage: reads the model's flat output buffer in
    one of two layouts chosen from its shape, takes the best class per
    prediction, keeps those reaching the confidence threshold, and maps each
    kept box back to original-image pixels. */
module OutputDecoder {
  import opened Wrappers
  import opened Predictions
  import Arith
  import Config

  /** Transposed: [1, 4 + K, N], channel-major. Standard: [1, N, P], one
      contiguous run of P values per prediction. */
  datatype Layout = Transposed | Standard

  /** A stride view over the flat buffer: the layout, the number of
      predictions the loop visits, and the per-prediction run length
      (dims[2]) that the standard layout steps by. */
  datatype View = View(layout: Layout, count: nat, size: nat)

  /** The layout test: transposed exactly when the second dimension is the
      number of classes plus the four box values; every other shape, matching
      or not, is read as standard. */
  function LayoutOf(dims: seq<nat>, numClasses: nat): Layout {
    if |dims| >= 2 && dims[1] == numClasses + 4 then Transposed else Standard
  }

  /** The view processOutput reads. With fewer than three dimensions the
      loop bound or every read is undefined in the source, so no prediction
      can reach the threshold; the view then has no predictions. */
  function ViewOf(dims: seq<nat>, numClasses: nat): (v: View)
    ensures v.layout == LayoutOf(dims, numClasses)
    ensures |dims| >= 3 ==> v.count == (if v.layout == Transposed then dims[2] else dims[1])
    ensures |dims| < 3 ==> v.count == 0
  {
    var layout := LayoutOf(dims, numClasses);
    if |dims| < 3 then View(layout, 0, 0)
    else if layout == Transposed then View(Transposed, dims[2], dims[1])
    else View(Standard, dims[1], dims[2])
  }

  /** Index of channel k (0..3 box, 4 + c class c) of prediction i. */
  function Addr(v: View, i: nat, k: nat): nat {
    match v.layout
    case Transposed => k * v.count + i
    case Standard => i * v.size + k
  }

  /** Every value processOutput's first-prediction logging formats with
      toFixed lies inside the buffer; toFixed throws on an undefined read.
      The transposed branch logs the class scores of prediction 0 when it
      has predictions. The standard branch logs the first 4 + K values
      whenever dims[1] is positive, even when dims has no third entry and
      the view therefore has no predictions. */
  predicate FirstLogReadable(dims: seq<nat>, numClasses: nat, len: nat) {
    var v := ViewOf(dims, numClasses);
    if v.layout == Transposed then
      v.count > 0 ==> forall k | 4 <= k < 4 + numClasses :: Addr(v, 0, k) < len
    else
      |dims| >= 2 && dims[1] > 0 ==> 4 + numClasses <= len
  }

  /** A read of the flat buffer, undefined past its end. */
  function ValueAt(data: seq<real>, a: nat): (r: Option<real>)
    ensures r.Some? <==> a < |data|
    ensures a < |data| ==> r.value == data[a]
  {
    if a < |data| then Some(data[a]) else None
  }

  /** The per-layout addressing, in the source's own terms. */
  lemma AddressingPerLayout(dims: seq<nat>, numClasses: nat, i: nat, k: nat)
    requires |dims| >= 3
    ensures var v := ViewOf(dims, numClasses);
      if dims[1] == numClasses + 4 then v.count == dims[2] && Addr(v, i, k) == k * dims[2] + i
      else v.count == dims[1] && Addr(v, i, k) == i * dims[2] + k
  {
  }

  /** In the transposed layout, and in the standard layout whenever each run
      holds all 4 + K values, no two channels of any predictions share a cell. */
  lemma AddressesDistinct(v: View, numClasses: nat, i: nat, k: nat, i': nat, k': nat)
    requires i < v.count && i' < v.count && k < 4 + numClasses && k' < 4 + numClasses
    requires v.layout == Standard ==> v.size >= 4 + numClasses
    requires (i, k) != (i', k')
    ensures Addr(v, i, k) != Addr(v, i', k')
  {
    if Addr(v, i, k) == Addr(v, i', k') {
      match v.layout
      case Transposed =>
        Arith.MixedRadixInjective(k, i, k', i', v.count);
      case Standard =>
        Arith.MixedRadixInjective(i, k, i', k', v.size);
    }
  }

  /** A shape that matches neither layout is not rejected: with runs shorter
      than 4 + K, the last class score of one prediction is read from the
      first box value of the next. */
  lemma MismatchedShapeAliases(dims: seq<nat>, numClasses: nat, i: nat)
    requires |dims| >= 3 && dims[1] != numClasses + 4
    requires dims[2] == 3 + numClasses && i + 1 < dims[1]
    ensures var v := ViewOf(dims, numClasses);
      v.layout == Standard && Addr(v, i, 4 + numClasses - 1) == Addr(v, i + 1, 0)
  {
  }

  /** The best class seen by the scan and its score. */
  datatype ClassScore = ClassScore(confidence: real, classIndex: nat)

  /** The class scan of processOutput: start from score 0 at index 0 and take
      a later score only when it is strictly greater. An undefined score is
      never greater, so it is skipped. The result is the largest defined
      score if one is positive, at the first index reaching it, and (0, 0)
      when no defined score is positive. */
  function Argmax(scores: seq<Option<real>>): (b: ClassScore)
    ensures b.confidence >= 0.0
    ensures forall c | 0 <= c < |scores| && scores[c].Some? :: scores[c].value <= b.confidence
    ensures b.confidence > 0.0 ==>
      b.classIndex < |scores| && scores[b.classIndex] == Some(b.confidence) &&
      forall c | 0 <= c < b.classIndex && scores[c].Some? :: scores[c].value < b.confidence
    ensures b.confidence == 0.0 ==> b.classIndex == 0
  {
    if |scores| == 0 then ClassScore(0.0, 0)
    else
      var best := Argmax(scores[..|scores| - 1]);
      var last := scores[|scores| - 1];
      if last.Some? && last.value > best.confidence then ClassScore(last.value, |scores| - 1)
      else best
  }

  /** The K class score reads of prediction i. */
  function ClassScores(v: View, data: seq<real>, numClasses: nat, i: nat): (s: seq<Option<real>>)
    ensures |s| == numClasses
    ensures forall c | 0 <= c < numClasses :: s[c] == ValueAt(data, Addr(v, i, 4 + c))
  {
    seq(numClasses, c requires 0 <= c < numClasses => ValueAt(data, Addr(v, i, 4 + c)))
  }

  /** The record pushed for a raw centre-form box (x, y, w, h) and its best
      class: the box and size divided by the scale, and the rounded corners. */
  function MakePrediction(x: real, y: real, w: real, h: real, best: ClassScore, classNames: seq<string>, scale: real): Prediction
    requires scale > 0.0 && best.classIndex < |classNames|
  {
    Prediction(x / scale, y / scale, w / scale, h / scale,
      best.confidence, best.classIndex, classNames[best.classIndex],
      Box(Round((x - w / 2.0) / scale), Round((y - h / 2.0) / scale),
          Round((x + w / 2.0) / scale), Round((y + h / 2.0) / scale)))
  }

  /** A prediction with a box value past the end of the buffer has every
      class score past the end as well, since each class score is stored
      after the four box values of its prediction in both layouts; its scan
      then keeps the initial score 0 and it is never decoded. */
  lemma BoxBeyondEndSkipped(v: View, data: seq<real>, numClasses: nat, i: nat)
    requires i < v.count
    ensures Argmax(ClassScores(v, data, numClasses, i)).confidence > 0.0 ==>
      forall k | 0 <= k < 4 :: Addr(v, i, k) < |data|
  {
    var best := Argmax(ClassScores(v, data, numClasses, i));
    if best.confidence > 0.0 {
      var c := best.classIndex;
      assert Addr(v, i, 4 + c) < |data|;
      forall k | 0 <= k < 4 ensures Addr(v, i, k) < |data| {
        if v.layout == Transposed {
          Arith.MulMonotone(k + 1, 4 + c, v.count);
        }
      }
    }
  }

  /** What prediction i contributes: a record when its best score reaches
      the confidence threshold, nothing otherwise. The box is only used in
      the first case, where BoxBeyondEndSkipped puts its reads in range. */
  function DecodeAt(v: View, data: seq<real>, classNames: seq<string>, scale: real, i: nat): Option<Prediction>
    requires scale > 0.0 && i < v.count
  {
    var best := Argmax(ClassScores(v, data, |classNames|, i));
    if best.confidence >= Config.ConfidenceThreshold then
      BoxBeyondEndSkipped(v, data, |classNames|, i);
      Some(MakePrediction(data[Addr(v, i, 0)], data[Addr(v, i, 1)], data[Addr(v, i, 2)], data[Addr(v, i, 3)],
        best, classNames, scale))
    else None
  }

  /** What each prediction contributes, in prediction order. */
  function Outcomes(v: View, data: seq<real>, classNames: seq<string>, scale: real): (os: seq<Option<Prediction>>)
    requires scale > 0.0
    ensures |os| == v.count
  {
    seq(v.count, i requires 0 <= i < v.count => DecodeAt(v, data, classNames, scale, i))
  }

  /** The records of all predictions that reach the threshold, in order. */
  function Decoded(v: View, data: seq<real>, classNames: seq<string>, scale: real): seq<Prediction>
    requires scale > 0.0
  {
    Collect(Outcomes(v, data, classNames, scale))
  }

  /** The inner class loop of processOutput for prediction i. */
  method ScanClasses(v: View, data: seq<real>, numClasses: nat, i: nat)
    returns (maxClassScore: real, maxClassIndex: nat)
    ensures ClassScore(maxClassScore, maxClassIndex) == Argmax(ClassScores(v, data, numClasses, i))
  {
    ghost var scores := ClassScores(v, data, numClasses, i);
    maxClassScore, maxClassIndex := 0.0, 0;
    var c := 0;
    while c < numClasses
      invariant 0 <= c <= numClasses
      invariant ClassScore(maxClassScore, maxClassIndex) == Argmax(scores[..c])
    {
      var classScore := ValueAt(data, Addr(v, i, 4 + c));
      assert scores[..c + 1][..c] == scores[..c];
      if classScore.Some? && classScore.value > maxClassScore {
        maxClassScore := classScore.value;
        maxClassIndex := c;
      }
      c := c + 1;
    }
    assert scores[..numClasses] == scores;
  }

  /** The body of processOutput's prediction loop for prediction i: read
      the centre-form box, scan the classes, and build the record when the
      best score reaches the threshold. */
  method DecodePrediction(v: View, data: seq<real>, classNames: seq<string>, scale: real, i: nat)
    returns (next: Option<Prediction>)
    requires scale > 0.0 && i < v.count
    ensures next == DecodeAt(v, data, classNames, scale, i)
  {
    var x := ValueAt(data, Addr(v, i, 0));
    var y := ValueAt(data, Addr(v, i, 1));
    var w := ValueAt(data, Addr(v, i, 2));
    var h := ValueAt(data, Addr(v, i, 3));
    var maxClassScore, maxClassIndex := ScanClasses(v, data, |classNames|, i);
    var confidence := maxClassScore;
    if confidence >= Config.ConfidenceThreshold {
      BoxBeyondEndSkipped(v, data, |classNames|, i);
      next := Some(MakePrediction(x.value, y.value, w.value, h.value, ClassScore(confidence, maxClassIndex), classNames, scale));
    } else {
      next := None;
    }
  }

  /** The first-prediction logging of processOutput: the transposed branch
      formats each class score of prediction 0 with toFixed, the standard
      branch the first 4 + K values of the buffer. The result says whether
      every formatted read was defined, that is, whether logging returns
      instead of throwing. */
  method LogFirstPrediction(dims: seq<nat>, data: seq<real>, numClasses: nat) returns (ok: bool)
    ensures ok <==> FirstLogReadable(dims, numClasses, |data|)
  {
    ok := true;
    var v := ViewOf(dims, numClasses);
    if v.layout == Transposed {
      if v.count > 0 {
        var c := 0;
        while c < numClasses
          invariant 0 <= c <= numClasses
          invariant forall k | 4 <= k < 4 + c :: Addr(v, 0, k) < |data|
        {
          if Addr(v, 0, 4 + c) >= |data| {
            ok := false;
            return;
          }
          c := c + 1;
        }
      }
    } else if |dims| >= 2 && dims[1] > 0 {
      var k := 0;
      while k < 4 + numClasses
        invariant 0 <= k <= 4 + numClasses && k <= |data|
      {
        if k >= |data| {
          ok := false;
          return;
        }
        k := k + 1;
      }
    }
  }

  /** Both branches of processOutput up to the suppression call: the layout
      is chosen once from dims, the first prediction's scores are logged,
      then every prediction is scanned in order. */
  method DecodeOutput(dims: seq<nat>, data: seq<real>, classNames: seq<string>, scale: real)
    returns (result: Result<seq<Prediction>>)
    requires scale > 0.0
    ensures result.Failure? <==> !FirstLogReadable(dims, |classNames|, |data|)
    ensures result.Success? ==> result.value == Decoded(ViewOf(dims, |classNames|), data, classNames, scale)
  {
    var v := ViewOf(dims, |classNames|);
    var logged := LogFirstPrediction(dims, data, |classNames|);
    if !logged {
      result := Failure("TypeError: Cannot read properties of undefined (reading 'toFixed')");
      return;
    }
    ghost var outcomes := Outcomes(v, data, classNames, scale);
    var numPredictions := v.count;
    var predictions := [];
    var i := 0;
    while i < numPredictions
      invariant 0 <= i <= numPredictions
      invariant predictions == Collect(outcomes[..i])
    {
      var next := DecodePrediction(v, data, classNames, scale, i);
      CollectStep(outcomes, i);
      if next.Some? {
        predictions := predictions + [next.value];
      }
      i := i + 1;
    }
    assert outcomes[..numPredictions] == outcomes;
    result := Success(predictions);
  }

  /** Acceptance and order: the decoded list holds one record per prediction
      whose best score reaches the threshold, in increasing prediction
      index, and no other; so it is never longer than the prediction count. */
  lemma DecodedInOrder(v: View, data: seq<real>, classNames: seq<string>, scale: real)
    requires scale > 0.0
    ensures var r, idx := Decoded(v, data, classNames, scale), PresentIndices(Outcomes(v, data, classNames, scale));
      && |r| == |idx| <= v.count
      && (forall j | 0 <= j < |idx| :: idx[j] < v.count && DecodeAt(v, data, classNames, scale, idx[j]) == Some(r[j]))
      && (forall j, j' | 0 <= j < j' < |idx| :: idx[j] < idx[j'])
      && (forall i | 0 <= i < v.count ::
            Argmax(ClassScores(v, data, |classNames|, i)).confidence >= Config.ConfidenceThreshold <==> i in idx)
  {
    CollectInOrder(Outcomes(v, data, classNames, scale));
  }

  /** (x - w/2) / s is the scaled centre minus half the scaled size. */
  lemma ScaledCorner(x: real, w: real, scale: real)
    requires scale > 0.0
    ensures (x - w / 2.0) / scale == x / scale - (w / scale) / 2.0
    ensures (x + w / 2.0) / scale == x / scale + (w / scale) / 2.0
  {
    var a, b := x / scale, w / scale;
    assert x == a * scale && w == b * scale;
    assert x - w / 2.0 == (a - b / 2.0) * scale;
    assert x + w / 2.0 == (a + b / 2.0) * scale;
  }

  /** What a record built for prediction i says: its score reaches the
      threshold, its class is a configured one and carries that class's
      name, and its corner box is the rounding of its own scaled centre-form
      box, ordered whenever the scaled size is not negative. */
  predicate ValidRecord(p: Prediction, classNames: seq<string>) {
    && p.confidence >= Config.ConfidenceThreshold
    && p.classIndex < |classNames|
    && p.className == classNames[p.classIndex]
    && p.box == Box(Round(p.x - p.width / 2.0), Round(p.y - p.height / 2.0),
                    Round(p.x + p.width / 2.0), Round(p.y + p.height / 2.0))
    && (p.width >= 0.0 ==> p.box.x1 <= p.box.x2)
    && (p.height >= 0.0 ==> p.box.y1 <= p.box.y2)
  }

  lemma DecodeAtRecord(v: View, data: seq<real>, classNames: seq<string>, scale: real, i: nat)
    requires scale > 0.0 && i < v.count
    requires DecodeAt(v, data, classNames, scale, i).Some?
    ensures ValidRecord(DecodeAt(v, data, classNames, scale, i).value, classNames)
    ensures DecodeAt(v, data, classNames, scale, i).value.confidence ==
      Argmax(ClassScores(v, data, |classNames|, i)).confidence
  {
    var best := Argmax(ClassScores(v, data, |classNames|, i));
    BoxBeyondEndSkipped(v, data, |classNames|, i);
    var x, y, w, h := data[Addr(v, i, 0)], data[Addr(v, i, 1)], data[Addr(v, i, 2)], data[Addr(v, i, 3)];
    var p := MakePrediction(x, y, w, h, best, classNames, scale);
    assert DecodeAt(v, data, classNames, scale, i) == Some(p);
    ScaledCorner(x, w, scale);
    ScaledCorner(y, h, scale);
    if p.width >= 0.0 {
      RoundMonotone(p.x - p.width / 2.0, p.x + p.width / 2.0);
    }
    if p.height >= 0.0 {
      RoundMonotone(p.y - p.height / 2.0, p.y + p.height / 2.0);
    }
  }

  /** Every decoded record is a valid one. */
  lemma DecodedRecords(v: View, data: seq<real>, classNames: seq<string>, scale: real)
    requires scale > 0.0
    ensures forall p | p in Decoded(v, data, classNames, scale) :: ValidRecord(p, classNames)
  {
    var os := Outcomes(v, data, classNames, scale);
    forall p | p in Decoded(v, data, classNames, scale) ensures ValidRecord(p, classNames) {
      CollectMembers(os, p);
      var i :| 0 <= i < |os| && os[i] == Some(p);
      DecodeAtRecord(v, data, classNames, scale, i);
    }
  }

  /** The decoder example: a transposed [1, 8, 1] tensor with box
      (100, 100, 50, 50) and class scores 0.9, 0.1, 0.05, 0.02 at scale 1
      gives one record of class 0 with confidence 0.9 and box
      [75, 75, 125, 125]. */
  lemma SingleTransposedExample()
    ensures var data := [100.0, 100.0, 50.0, 50.0, 0.9, 0.1, 0.05, 0.02];
      var v := ViewOf([1, 8, 1], 4);
      v == View(Transposed, 1, 8) && FirstLogReadable([1, 8, 1], 4, |data|) &&
      Decoded(v, data, Config.ClassNames, 1.0) ==
        [Prediction(100.0, 100.0, 50.0, 50.0, 0.9, 0, "Bio-Medical", Box(75, 75, 125, 125))]
  {
    var data := [100.0, 100.0, 50.0, 50.0, 0.9, 0.1, 0.05, 0.02];
    var v := ViewOf([1, 8, 1], 4);
    assert v == View(Transposed, 1, 8);
    var scores := ClassScores(v, data, 4, 0);
    assert scores == [Some(0.9), Some(0.1), Some(0.05), Some(0.02)];
    assert scores[..1][..0] == [] && scores[..2][..1] == scores[..1];
    assert scores[..3][..2] == scores[..2] && scores[..3] == scores[..4][..3] && scores[..4] == scores;
    assert Argmax(scores[..1]) == ClassScore(0.9, 0);
    assert Argmax(scores[..2]) == ClassScore(0.9, 0);
    assert Argmax(scores[..3]) == ClassScore(0.9, 0);
    assert Argmax(scores) == ClassScore(0.9, 0);
    assert Round(75.0) == 75 && Round(125.0) == 125;
    var os := Outcomes(v, data, Config.ClassNames, 1.0);
    assert os[..0] == [];
  }

  /** The class scans of the [1, 2, 7] example below. */
  lemma ShortRowsScores(data: seq<real>)
    requires data == [10.0, 10.0, 4.0, 4.0, 0.1, 0.2, 0.3, 100.0, 100.0, 4.0, 4.0, 0.5, 0.1, 0.1]
    ensures var v := View(Standard, 2, 7);
      && Argmax(ClassScores(v, data, 4, 0)) == ClassScore(100.0, 3)
      && ClassScores(v, data, 4, 1)[3] == None
      && Argmax(ClassScores(v, data, 4, 1)) == ClassScore(0.5, 0)
  {
    var v := View(Standard, 2, 7);
    var s0 := ClassScores(v, data, 4, 0);
    assert s0 == [Some(0.1), Some(0.2), Some(0.3), Some(100.0)];
    assert s0[..1][..0] == [] && s0[..2][..1] == s0[..1];
    assert s0[..3][..2] == s0[..2] && s0[..3] == s0[..4][..3] && s0[..4] == s0;
    assert Argmax(s0[..1]) == ClassScore(0.1, 0);
    assert Argmax(s0[..2]) == ClassScore(0.2, 1);
    assert Argmax(s0[..3]) == ClassScore(0.3, 2);
    var s1 := ClassScores(v, data, 4, 1);
    assert s1 == [Some(0.5), Some(0.1), Some(0.1), None];
    assert s1[..1][..0] == [] && s1[..2][..1] == s1[..1];
    assert s1[..3][..2] == s1[..2] && s1[..3] == s1[..4][..3] && s1[..4] == s1;
    assert Argmax(s1[..1]) == ClassScore(0.5, 0);
    assert Argmax(s1[..2]) == ClassScore(0.5, 0);
    assert Argmax(s1[..3]) == ClassScore(0.5, 0);
  }

  /** A [1, 2, 7] tensor of 14 values with four classes matches neither
      layout and is read as standard with runs of seven. The first
      prediction's last class score is the second prediction's x (100), so
      it decodes as class 3 with confidence 100; the second prediction's
      last class score lies past the end and is skipped. */
  lemma ShortRowsMisread()
    ensures var data := [10.0, 10.0, 4.0, 4.0, 0.1, 0.2, 0.3, 100.0, 100.0, 4.0, 4.0, 0.5, 0.1, 0.1];
      var v := ViewOf([1, 2, 7], 4);
      && v == View(Standard, 2, 7)
      && FirstLogReadable([1, 2, 7], 4, |data|)
      && ClassScores(v, data, 4, 1)[3] == None
      && DecodeAt(v, data, Config.ClassNames, 1.0, 0).Some?
      && DecodeAt(v, data, Config.ClassNames, 1.0, 0).value.classIndex == 3
      && DecodeAt(v, data, Config.ClassNames, 1.0, 0).value.confidence == 100.0
      && DecodeAt(v, data, Config.ClassNames, 1.0, 1).Some?
      && DecodeAt(v, data, Config.ClassNames, 1.0, 1).value.classIndex == 0
      && DecodeAt(v, data, Config.ClassNames, 1.0, 1).value.confidence == 0.5
  {
    var data := [10.0, 10.0, 4.0, 4.0, 0.1, 0.2, 0.3, 100.0, 100.0, 4.0, 4.0, 0.5, 0.1, 0.1];
    var v := ViewOf([1, 2, 7], 4);
    assert v == View(Standard, 2, 7);
    ShortRowsScores(data);
  }

  /** A [1, 5, 2] tensor of 10 values with four classes is read as standard
      with runs of two, so the predictions overlap. The logging reads only
      the first eight values and returns; the last prediction's box reads
      data[8] to data[11], partly past the end, and it is skipped rather
      than rejected, while the first prediction is decoded. */
  lemma BoxPastEndTolerated()
    ensures var data := [1.0, 1.0, 1.0, 1.0, 0.5, 0.5, 0.5, 0.5, 0.5, 0.5];
      var v := ViewOf([1, 5, 2], 4);
      && v == View(Standard, 5, 2)
      && Addr(v, 4, 2) >= |data|
      && FirstLogReadable([1, 5, 2], 4, |data|)
      && DecodeAt(v, data, Config.ClassNames, 1.0, 0).Some?
      && DecodeAt(v, data, Config.ClassNames, 1.0, 4) == None
  {
    var data := [1.0, 1.0, 1.0, 1.0, 0.5, 0.5, 0.5, 0.5, 0.5, 0.5];
    var v := ViewOf([1, 5, 2], 4);
    assert v == View(Standard, 5, 2);
    assert ClassScores(v, data, 4, 0)[0] == Some(0.5);
    assert ClassScores(v, data, 4, 4)[0] == None;
  }

  /** A two-dimensional shape [1, n] has no predictions. Its logging still
      formats the first 4 + K values when n is positive and the shape is read
      as standard (n != K + 4), so a buffer shorter than that throws; read as
      transposed, or with n = 0, nothing is logged. For example, [1, 3] with
      four classes throws on 5 values and not on 8. */
  lemma TwoDimensionalLogging(n: nat, numClasses: nat, len: nat)
    ensures ViewOf([1, n], numClasses).count == 0
    ensures FirstLogReadable([1, n], numClasses, len) <==>
      (n == 0 || n == numClasses + 4 || 4 + numClasses <= len)
  {
  }
}
