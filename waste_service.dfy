/** WasteService: turns the detections of one image into the report the API
    returns. Detections below the report gate are dropped, the survivors are
    counted per class name in first-seen order, the verdict is "segregated"
    exactly when one class remains, and the clock's ISO string is rewritten
    into a microsecond, offset-suffixed timestamp. */
module WasteService {
  import opened Wrappers
  import opened Predictions
  import opened Ordering
  import opened Overlap
  import Config
  import ImageProcessor
  import OutputDecoder
  import Suppression
  import ModelService

  // ---------------------------------------------------------------------
  // Filtering

  /** The detections whose confidence reaches the threshold, in order. */
  function FilterPredictions(predictions: seq<Prediction>, threshold: real): (r: seq<Prediction>)
    ensures |r| <= |predictions|
    ensures forall p :: p in r <==> p in predictions && p.confidence >= threshold
  {
    if |predictions| == 0 then []
    else
      var rest := FilterPredictions(predictions[1..], threshold);
      if predictions[0].confidence >= threshold then [predictions[0]] + rest else rest
  }

  /** a can be obtained from b by deleting elements. */
  predicate Subsequence(a: seq<Prediction>, b: seq<Prediction>)
    decreases |b|
  {
    if |a| == 0 then true
    else if |b| == 0 then false
    else (a[0] == b[0] && Subsequence(a[1..], b[1..])) || Subsequence(a, b[1..])
  }

  /** Filtering deletes elements and never reorders the ones it keeps. */
  lemma {:induction false} FilterIsSubsequence(predictions: seq<Prediction>, threshold: real)
    ensures Subsequence(FilterPredictions(predictions, threshold), predictions)
    decreases |predictions|
  {
    if |predictions| > 0 {
      FilterIsSubsequence(predictions[1..], threshold);
    }
  }

  /** Each detection is kept as many times as it occurs when it reaches the
      threshold, and not at all otherwise. */
  lemma {:induction false} FilterCount(predictions: seq<Prediction>, threshold: real, x: Prediction)
    ensures multiset(FilterPredictions(predictions, threshold))[x] ==
      if x.confidence >= threshold then multiset(predictions)[x] else 0
    decreases |predictions|
  {
    if |predictions| > 0 {
      FilterCount(predictions[1..], threshold, x);
      assert predictions == [predictions[0]] + predictions[1..];
    }
  }

  /** A subsequence of a confidence-ordered sequence is confidence-ordered. */
  lemma {:induction false} SubsequenceKeepsOrder(a: seq<Prediction>, b: seq<Prediction>)
    requires Subsequence(a, b) && NonIncreasing(b)
    ensures NonIncreasing(a)
    ensures forall p | p in a :: p in b
    decreases |b|
  {
    if |a| > 0 {
      if a[0] == b[0] && Subsequence(a[1..], b[1..]) {
        SubsequenceKeepsOrder(a[1..], b[1..]);
        forall j | 1 <= j < |a| ensures a[0].confidence >= a[j].confidence {
          assert a[j] in a[1..];
          var k :| 0 <= k < |b[1..]| && b[1..][k] == a[j];
          assert b[k + 1] == a[j];
        }
        forall i, j | 0 <= i < j < |a| ensures a[i].confidence >= a[j].confidence {
          if i > 0 {
            assert a[i] == a[1..][i - 1] && a[j] == a[1..][j - 1];
          }
        }
        forall p | p in a ensures p in b {
          if p != a[0] {
            assert p in a[1..];
            assert p in b[1..];
          }
        }
      } else {
        SubsequenceKeepsOrder(a, b[1..]);
      }
    }
  }

  /** Filtering twice keeps what the stricter threshold keeps, so the result
      at the stricter threshold is a subsequence of the result at the looser
      one. */
  lemma {:induction false} FilterTwice(predictions: seq<Prediction>, t1: real, t2: real)
    requires t1 <= t2
    ensures FilterPredictions(FilterPredictions(predictions, t1), t2) == FilterPredictions(predictions, t2)
    ensures Subsequence(FilterPredictions(predictions, t2), FilterPredictions(predictions, t1))
    decreases |predictions|
  {
    FilterIsSubsequence(FilterPredictions(predictions, t1), t2);
    if |predictions| > 0 {
      FilterTwice(predictions[1..], t1, t2);
      var p := predictions[0];
      var rest := FilterPredictions(predictions[1..], t1);
      if p.confidence >= t1 {
        assert FilterPredictions(predictions, t1) == [p] + rest;
        assert ([p] + rest)[1..] == rest;
      }
    }
  }

  // ---------------------------------------------------------------------
  // Counting

  /** One entry of the counts object: a class name and how often it occurs.
      The sequence of entries keeps the object's key order. */
  datatype Tally = Tally(className: string, count: nat)

  /** The class names of the entries, in key order. */
  function Keys(counts: seq<Tally>): (ks: seq<string>)
    ensures |ks| == |counts|
    ensures forall i | 0 <= i < |counts| :: ks[i] == counts[i].className
  {
    seq(|counts|, i requires 0 <= i < |counts| => counts[i].className)
  }

  /** No class name is a key twice. */
  predicate DistinctKeys(counts: seq<Tally>) {
    forall i, j | 0 <= i < j < |counts| :: counts[i].className != counts[j].className
  }

  /** Where the entry of a present key stands. */
  function KeyIndex(counts: seq<Tally>, name: string): (k: nat)
    requires name in Keys(counts)
    ensures k < |counts| && counts[k].className == name
    decreases |counts|
  {
    if counts[0].className == name then 0
    else
      assert name in Keys(counts[1..]) by {
        var j :| 0 <= j < |counts| && Keys(counts)[j] == name;
        assert Keys(counts[1..])[j - 1] == name;
      }
      KeyIndex(counts[1..], name) + 1
  }

  /** counts[name] = (counts[name] || 0) + 1: the entry of name is bumped
      where it stands, or a new entry with count 1 is appended. Keys stay
      distinct, as an object's keys are. */
  function Increment(counts: seq<Tally>, name: string): (r: seq<Tally>)
    requires DistinctKeys(counts)
    ensures DistinctKeys(r)
    ensures |r| == if name in Keys(counts) then |counts| else |counts| + 1
    ensures forall i | 0 <= i < |counts| :: r[i].className == counts[i].className
    ensures name !in Keys(counts) ==> r == counts + [Tally(name, 1)]
    ensures forall i | 0 <= i < |counts| ::
      r[i].count == if counts[i].className == name then counts[i].count + 1 else counts[i].count
  {
    if name in Keys(counts) then
      var k := KeyIndex(counts, name);
      counts[k := Tally(name, counts[k].count + 1)]
    else
      counts + [Tally(name, 1)]
  }

  /** The counts object generateCounts builds from a list of detections. */
  function CountsOf(predictions: seq<Prediction>): (counts: seq<Tally>)
    ensures DistinctKeys(counts)
  {
    if |predictions| == 0 then []
    else Increment(CountsOf(predictions[..|predictions| - 1]), predictions[|predictions| - 1].className)
  }

  /** The class name of every detection, in order: the names in its
      `{class, confidence}` projection. */
  function Names(predictions: seq<Prediction>): (ns: seq<string>)
    ensures |ns| == |predictions|
    ensures forall i | 0 <= i < |predictions| :: ns[i] == predictions[i].className
  {
    DetectionNames(ToDetections(predictions))
  }

  /** How many names in the list equal name. */
  function Occurrences(names: seq<string>, name: string): (n: nat)
    ensures n <= |names|
    ensures n > 0 <==> name in names
  {
    if |names| == 0 then 0
    else Occurrences(names[..|names| - 1], name) + (if names[|names| - 1] == name then 1 else 0)
  }

  /** generateCounts: one pass over the detections, bumping the entry of each
      detection's class name. */
  method GenerateCounts(predictions: seq<Prediction>) returns (counts: seq<Tally>)
    ensures counts == CountsOf(predictions)
    ensures forall name :: name in Keys(counts) <==> name in Names(predictions)
    ensures forall i | 0 <= i < |counts| :: counts[i].count == Occurrences(Names(predictions), counts[i].className)
  {
    counts := [];
    var i := 0;
    while i < |predictions|
      invariant 0 <= i <= |predictions|
      invariant counts == CountsOf(predictions[..i])
    {
      assert predictions[..i + 1][..i] == predictions[..i];
      counts := Increment(counts, predictions[i].className);
      i := i + 1;
    }
    assert predictions[..i] == predictions;
    CountsKeys(predictions);
    CountsAreOccurrences(predictions);
  }

  /** The keys of the counts object are exactly the class names that occur. */
  lemma {:induction false} CountsKeys(predictions: seq<Prediction>)
    ensures forall name :: name in Keys(CountsOf(predictions)) <==> name in Names(predictions)
    decreases |predictions|
  {
    if |predictions| > 0 {
      var n := |predictions| - 1;
      var init := predictions[..n];
      var name := predictions[n].className;
      CountsKeys(init);
      var c := CountsOf(init);
      var r := Increment(c, name);
      assert Names(predictions) == Names(init) + [name];
      forall x ensures x in Keys(r) <==> x in Keys(c) || x == name {
        if x in Keys(r) {
          var k :| 0 <= k < |r| && Keys(r)[k] == x;
          if k < |c| {
            assert Keys(c)[k] == x;
          }
        }
        if x in Keys(c) {
          var k :| 0 <= k < |c| && Keys(c)[k] == x;
          assert Keys(r)[k] == x;
        }
        if x == name && name !in Keys(c) {
          assert Keys(r)[|c|] == x;
        }
      }
    }
  }

  /** Each key's count is the number of detections of that class. */
  lemma {:induction false} CountsAreOccurrences(predictions: seq<Prediction>)
    ensures forall i | 0 <= i < |CountsOf(predictions)| ::
      CountsOf(predictions)[i].count == Occurrences(Names(predictions), CountsOf(predictions)[i].className)
    decreases |predictions|
  {
    if |predictions| > 0 {
      var n := |predictions| - 1;
      var init := predictions[..n];
      var name := predictions[n].className;
      CountsAreOccurrences(init);
      CountsKeys(init);
      var c := CountsOf(init);
      var r := Increment(c, name);
      var names := Names(predictions);
      assert names[..n] == Names(init);
      forall i | 0 <= i < |r| ensures r[i].count == Occurrences(names, r[i].className) {
        var cn := r[i].className;
        assert Occurrences(names, cn) == Occurrences(Names(init), cn) + (if name == cn then 1 else 0);
        if i == |c| {
          assert name !in Keys(c);
          assert Occurrences(Names(init), name) == 0;
        } else {
          assert c[i].className == cn;
        }
      }
    }
  }

  /** The counts add up to the number of detections. */
  lemma {:induction false} CountsTotal(predictions: seq<Prediction>)
    ensures Total(CountsOf(predictions)) == |predictions|
    decreases |predictions|
  {
    if |predictions| > 0 {
      var n := |predictions| - 1;
      CountsTotal(predictions[..n]);
      IncrementTotal(CountsOf(predictions[..n]), predictions[n].className);
    }
  }

  /** The sum of the counts. */
  function Total(counts: seq<Tally>): nat {
    if |counts| == 0 then 0 else Total(counts[..|counts| - 1]) + counts[|counts| - 1].count
  }

  /** Replacing one entry changes the total by the difference of the counts. */
  lemma {:induction false} TotalUpdate(counts: seq<Tally>, k: nat, t: Tally)
    requires k < |counts|
    ensures Total(counts[k := t]) + counts[k].count == Total(counts) + t.count
    decreases |counts|
  {
    var n := |counts| - 1;
    var u := counts[k := t];
    if k == n {
      assert u[..n] == counts[..n];
    } else {
      TotalUpdate(counts[..n], k, t);
      assert u[..n] == counts[..n][k := t];
    }
  }

  /** Bumping one entry adds one to the total. */
  lemma IncrementTotal(counts: seq<Tally>, name: string)
    requires DistinctKeys(counts)
    ensures Total(Increment(counts, name)) == Total(counts) + 1
  {
    if name in Keys(counts) {
      var k := KeyIndex(counts, name);
      TotalUpdate(counts, k, Tally(name, counts[k].count + 1));
    } else {
      assert (counts + [Tally(name, 1)])[..|counts|] == counts;
    }
  }

  // ---------------------------------------------------------------------
  // Verdict

  const Segregated: string := "segregated"
  const NonSegregated: string := "Non - Segregated"

  /** "segregated" when the counts object has exactly one key. */
  function Inference(counts: seq<Tally>): (verdict: string)
    ensures verdict == Segregated || verdict == NonSegregated
    ensures verdict == Segregated <==> |counts| == 1
  {
    if |counts| == 1 then Segregated else NonSegregated
  }

  /** A load is segregated exactly when there is at least one detection and
      every detection has the same class name. */
  lemma {:induction false} SegregatedIff(predictions: seq<Prediction>)
    ensures Inference(CountsOf(predictions)) == Segregated <==>
      (|predictions| > 0 && forall i | 0 <= i < |predictions| :: predictions[i].className == predictions[0].className)
    decreases |predictions|
  {
    if |predictions| > 1 {
      var n := |predictions| - 1;
      var init := predictions[..n];
      SegregatedIff(init);
      CountsKeys(init);
      var c := CountsOf(init);
      var name := predictions[n].className;
      assert Names(init)[0] == init[0].className;
      assert c != [] by { assert init[0].className in Names(init); }
      if |CountsOf(predictions)| == 1 {
        assert |c| == 1 && name in Keys(c);
        forall i | 0 <= i < n ensures init[i].className == c[0].className {
          assert Names(init)[i] == init[i].className;
        }
        assert Keys(c) == [c[0].className];
      }
      if forall i | 0 <= i < |predictions| :: predictions[i].className == predictions[0].className {
        assert forall i | 0 <= i < |init| :: init[i].className == init[0].className;
        assert name == init[0].className;
        assert name in Names(init);
      }
    }
  }

  // ---------------------------------------------------------------------
  // Detections

  /** One entry of the report's detections list. */
  datatype Detection = Detection(className: string, confidence: real)

  /** Each detection reduced to its class name and confidence, in order. */
  function ToDetections(predictions: seq<Prediction>): (ds: seq<Detection>)
    ensures |ds| == |predictions|
    ensures forall i | 0 <= i < |predictions| ::
      ds[i] == Detection(predictions[i].className, predictions[i].confidence)
  {
    seq(|predictions|, i requires 0 <= i < |predictions| =>
      Detection(predictions[i].className, predictions[i].confidence))
  }

  /** The class names of a detections list, in order. */
  function DetectionNames(ds: seq<Detection>): (ns: seq<string>)
    ensures |ns| == |ds|
    ensures forall i | 0 <= i < |ds| :: ns[i] == ds[i].className
  {
    seq(|ds|, i requires 0 <= i < |ds| => ds[i].className)
  }

  /** The detections list and the counts object describe the same
      detections: each key's count is the number of list entries of that
      class, and the list has as many entries as the counts add up to. */
  lemma DetectionsAgreeWithCounts(predictions: seq<Prediction>)
    ensures var ds := ToDetections(predictions);
      var counts := CountsOf(predictions);
      |ds| == Total(counts) &&
      (forall i | 0 <= i < |counts| :: counts[i].count == Occurrences(DetectionNames(ds), counts[i].className)) &&
      (forall i | 0 <= i < |ds| :: ds[i].className in Keys(counts))
  {
    CountsKeys(predictions);
    CountsAreOccurrences(predictions);
    CountsTotal(predictions);
    var ds := ToDetections(predictions);
    assert DetectionNames(ds) == Names(predictions);
    forall i | 0 <= i < |ds| ensures ds[i].className in Keys(CountsOf(predictions)) {
      assert Names(predictions)[i] == ds[i].className;
    }
  }

  // ---------------------------------------------------------------------
  // Timestamp

  /** An occurrence at k in the tail of s is one at k + 1 in s. */
  lemma ShiftOccurrence(s: string, c: char, k: nat)
    requires 0 < |s| && s[0] != c
    requires k < |s| - 1 && s[1..][k] == c && c !in s[1..][..k]
    ensures s[k + 1] == c && c !in s[..k + 1]
    ensures [s[0]] + (s[1..][..k] + s[1..][k + 1..]) == s[..k + 1] + s[k + 2..]
  {
    assert s[..k + 1] == [s[0]] + s[1..][..k];
    assert s[k + 2..] == s[1..][k + 1..];
  }

  /** String.prototype.replace with a string pattern of one character and
      an empty replacement: only the first occurrence is removed. */
  function RemoveFirst(s: string, c: char): (r: string)
    ensures c !in s ==> r == s
    ensures c in s ==> (|r| == |s| - 1 &&
      exists k | 0 <= k < |s| :: s[k] == c && c !in s[..k] && r == s[..k] + s[k + 1..])
  {
    if |s| == 0 then s
    else if s[0] == c then
      assert s[..0] == [] && s == [s[0]] + s[1..];
      s[1..]
    else
      var rest := RemoveFirst(s[1..], c);
      assert s == [s[0]] + s[1..];
      if c in s[1..] then
        var k :| 0 <= k < |s[1..]| && s[1..][k] == c && c !in s[1..][..k] && rest == s[1..][..k] + s[1..][k + 1..];
        ShiftOccurrence(s, c, k);
        [s[0]] + rest
      else
        [s[0]] + rest
  }

  predicate IsDigit(ch: char) {
    '0' <= ch <= '9'
  }

  /** replace(/(\d{3})$/, "$1000"): when the string ends with three digits,
      those digits are kept and "000" follows them; otherwise it is
      unchanged. */
  function AppendMicros(s: string): (r: string)
    ensures (|s| >= 3 && IsDigit(s[|s| - 3]) && IsDigit(s[|s| - 2]) && IsDigit(s[|s| - 1])) ==> r == s + "000"
    ensures !(|s| >= 3 && IsDigit(s[|s| - 3]) && IsDigit(s[|s| - 2]) && IsDigit(s[|s| - 1])) ==> r == s
  {
    if |s| >= 3 && IsDigit(s[|s| - 3]) && IsDigit(s[|s| - 2]) && IsDigit(s[|s| - 1]) then s + "000" else s
  }

  /** The report timestamp built from the clock's ISO string. */
  function FormatTimestamp(iso: string): string {
    AppendMicros(RemoveFirst(iso, 'Z')) + "+00:00"
  }

  /** For a toISOString result, a body ending in three millisecond digits
      followed by one 'Z', the timestamp is the body, three more zeros for
      microseconds, and the "+00:00" offset. */
  lemma TimestampOfIso(body: string)
    requires |body| >= 3 && 'Z' !in body
    requires IsDigit(body[|body| - 3]) && IsDigit(body[|body| - 2]) && IsDigit(body[|body| - 1])
    ensures FormatTimestamp(body + "Z") == body + "000+00:00"
  {
    var s := body + "Z";
    var r := RemoveFirst(s, 'Z');
    assert s[|body|] == 'Z';
    var k :| 0 <= k < |s| && s[k] == 'Z' && 'Z' !in s[..k] && r == s[..k] + s[k + 1..];
    assert k == |body|;
    assert s[..k] == body;
  }

  /** A concrete instance: "2024-05-01T10:20:30.123Z". */
  lemma TimestampExample()
    ensures FormatTimestamp("2024-05-01T10:20:30.123Z") == "2024-05-01T10:20:30.123000+00:00"
  {
    var body := "2024-05-01T10:20:30.123";
    assert body + "Z" == "2024-05-01T10:20:30.123Z";
    assert 'Z' !in body;
    TimestampOfIso(body);
    assert body + "000+00:00" == "2024-05-01T10:20:30.123000+00:00";
  }

  // ---------------------------------------------------------------------
  // The report

  /** The object classifyWaste resolves with; houseId is whatever value the
      caller supplied. */
  datatype Report<H> = Report(
    counts: seq<Tally>,
    detections: seq<Detection>,
    houseId: H,
    inference: string,
    timestamp: string)

  /** The detections the model service returns for one output tensor and
      scale. */
  function ModelDetections(dims: seq<nat>, output: seq<real>, scale: real): seq<Prediction>
    requires scale > 0.0
  {
    Suppression.Nms(OutputDecoder.Decoded(OutputDecoder.ViewOf(dims, |Config.ClassNames|), output, Config.ClassNames, scale),
      Config.NmsThreshold)
  }

  /** Projecting to detections keeps each confidence and class name. */
  lemma DetectionsOfGated(kept: seq<Prediction>, threshold: real)
    requires forall p | p in kept :: p.confidence >= threshold && p.className in Config.ClassNames
    ensures forall d | d in ToDetections(kept) :: d.confidence >= threshold && d.className in Config.ClassNames
  {
    var ds := ToDetections(kept);
    forall d | d in ds ensures d.confidence >= threshold && d.className in Config.ClassNames {
      var i :| 0 <= i < |ds| && ds[i] == d;
      assert kept[i] in kept;
    }
  }

  /** The report gate on decoded, suppressed detections: what passes stays
      in confidence order, and every reported detection reaches the gate
      and names a configured class. */
  lemma GatedDetections(predictions: seq<Prediction>)
    requires forall p | p in predictions :: OutputDecoder.ValidRecord(p, Config.ClassNames)
    requires NonIncreasing(predictions)
    ensures var kept := FilterPredictions(predictions, Config.FilterThreshold);
      && NonIncreasing(kept)
      && forall d | d in ToDetections(kept) :: d.confidence >= Config.FilterThreshold && d.className in Config.ClassNames
  {
    var kept := FilterPredictions(predictions, Config.FilterThreshold);
    FilterIsSubsequence(predictions, Config.FilterThreshold);
    SubsequenceKeepsOrder(kept, predictions);
    forall p | p in kept ensures p.confidence >= Config.FilterThreshold && p.className in Config.ClassNames {
      assert OutputDecoder.ValidRecord(p, Config.ClassNames);
    }
    DetectionsOfGated(kept, Config.FilterThreshold);
  }

  /** classifyWaste after the image has been decoded and resized and the
      model has run: the scale comes from the original size, the detections
      from processOutput, and the report from the detections that reach the
      report gate. The output tensor and the clock's ISO string are inputs. */
  method ClassifyWaste<H>(resized: seq<ImageProcessor.byte>, width: nat, height: nat,
                          dims: seq<nat>, output: seq<real>, houseId: H, iso: string)
    returns (result: Result<Report<H>>)
    requires width > 0 && height > 0
    ensures result.Failure? <==>
      !OutputDecoder.FirstLogReadable(dims, |Config.ClassNames|, |output|)
    ensures result.Success? ==>
      var report := result.value;
      var scale := ImageProcessor.LetterboxScale(Config.InputSize, width, height);
      var kept := FilterPredictions(ModelDetections(dims, output, scale), Config.FilterThreshold);
      && report.counts == CountsOf(kept)
      && report.detections == ToDetections(kept)
      && report.inference == Inference(report.counts)
      && NonIncreasing(kept)
      && report.houseId == houseId
      && report.timestamp == FormatTimestamp(iso)
      && forall d | d in report.detections :: d.confidence >= Config.FilterThreshold && d.className in Config.ClassNames
  {
    var image := ImageProcessor.PreprocessImage(resized, width, height, Config.InputSize);
    var outcome := ModelService.ProcessOutput(dims, output, Config.ClassNames, image.scale);
    if outcome.Failure? {
      result := Failure(outcome.error);
      return;
    }
    var predictions := outcome.value;
    var filtered := FilterPredictions(predictions, Config.FilterThreshold);
    var counts := GenerateCounts(filtered);
    var inference := Inference(counts);
    var timestamp := AppendMicros(RemoveFirst(iso, 'Z')) + "+00:00";
    GatedDetections(predictions);
    result := Success(Report(counts, ToDetections(filtered), houseId, inference, timestamp));
  }
}
