/** applyNMS: per-class greedy non-max suppression. Predictions are grouped
    by class index, each group is sorted by confidence and scanned greedily
    with a set of used positions, and the survivors of all groups are merged
    and sorted again by confidence. */
module Suppression {
  import opened Wrappers
  import opened Predictions
  import opened Overlap
  import opened Ordering

  /** The members of class c, in input order. */
  function ClassMembers(preds: seq<Prediction>, c: nat): seq<Prediction> {
    if preds == [] then []
    else
      ClassMembers(preds[..|preds| - 1], c) +
      if preds[|preds| - 1].classIndex == c then [preds[|preds| - 1]] else []
  }

  /** The class indices that occur. */
  function ClassesOf(preds: seq<Prediction>): set<nat> {
    set p | p in preds :: p.classIndex
  }

  /** A class group holds every copy of each member of that class and
      nothing of any other class. */
  lemma {:induction false} ClassMembersCount(preds: seq<Prediction>, c: nat, x: Prediction)
    ensures multiset(ClassMembers(preds, c))[x] == if x.classIndex == c then multiset(preds)[x] else 0
  {
    if preds != [] {
      var n := |preds| - 1;
      ClassMembersCount(preds[..n], c, x);
      assert preds == preds[..n] + [preds[n]];
    }
  }

  lemma ClassMembersOfClass(preds: seq<Prediction>, c: nat)
    ensures forall x | x in ClassMembers(preds, c) :: x.classIndex == c && x in preds
    ensures c in ClassesOf(preds) <==> ClassMembers(preds, c) != []
  {
    forall x | x in ClassMembers(preds, c) ensures x.classIndex == c && x in preds {
      ClassMembersCount(preds, c, x);
    }
    if c in ClassesOf(preds) {
      var x :| x in preds && x.classIndex == c;
      ClassMembersCount(preds, c, x);
      assert x in multiset(ClassMembers(preds, c));
    }
  }

  /** m is the least element of keys. */
  predicate IsLeast(m: nat, keys: set<nat>) {
    m in keys && forall k | k in keys :: m <= k
  }

  /** A non-empty set of class indices has a least element. */
  lemma {:induction false} MinimumExists(keys: set<nat>)
    requires keys != {}
    ensures exists m :: IsLeast(m, keys)
    decreases keys
  {
    var x :| x in keys;
    var rest := keys - {x};
    if rest == {} {
      assert keys == {x};
      assert IsLeast(x, keys);
    } else {
      MinimumExists(rest);
      var m :| IsLeast(m, rest);
      var least := if x < m then x else m;
      assert IsLeast(least, keys) by {
        forall k | k in keys ensures least <= k {
          if k != x {
            assert k in rest;
          }
        }
      }
    }
  }

  /** Object.values over integer-like keys visits them in ascending order. */
  function AscendingKeys(keys: set<nat>): (r: seq<nat>)
    ensures forall i, j | 0 <= i < j < |r| :: r[i] < r[j]
    ensures forall k :: k in r <==> k in keys
    decreases keys
  {
    if keys == {} then []
    else
      MinimumExists(keys);
      var m :| IsLeast(m, keys);
      [m] + AscendingKeys(keys - {m})
  }

  /** Position j of the sorted group cp survives the greedy scan: no earlier
      surviving position overlaps it by more than the threshold. */
  predicate Kept(cp: seq<Prediction>, iouThreshold: real, j: nat)
    requires j < |cp|
    decreases j
  {
    forall i | 0 <= i < j :: Kept(cp, iouThreshold, i) ==> CalculateIou(cp[i].box, cp[j].box) <= iouThreshold
  }

  /** Position j has been marked used by a surviving position before bound. */
  predicate SuppressedBefore(cp: seq<Prediction>, iouThreshold: real, bound: nat, j: nat)
    requires bound <= |cp| && j < |cp|
  {
    exists i | 0 <= i < bound :: Kept(cp, iouThreshold, i) && CalculateIou(cp[i].box, cp[j].box) > iouThreshold
  }

  function KeptFlags(cp: seq<Prediction>, iouThreshold: real): (os: seq<Option<Prediction>>)
    ensures |os| == |cp|
  {
    seq(|cp|, j requires 0 <= j < |cp| => if Kept(cp, iouThreshold, j) then Some(cp[j]) else None)
  }

  /** The survivors of one sorted group, in group order. */
  function Survivors(cp: seq<Prediction>, iouThreshold: real): seq<Prediction> {
    Collect(KeptFlags(cp, iouThreshold))
  }

  /** The survivors of class c of the input. */
  function KeptOfClass(preds: seq<Prediction>, iouThreshold: real, c: nat): seq<Prediction> {
    Survivors(SortByConfidence(ClassMembers(preds, c)), iouThreshold)
  }

  /** The keep list after visiting the classes in keys, in that order. */
  function Merged(preds: seq<Prediction>, iouThreshold: real, keys: seq<nat>): seq<Prediction> {
    if keys == [] then []
    else Merged(preds, iouThreshold, keys[..|keys| - 1]) + KeptOfClass(preds, iouThreshold, keys[|keys| - 1])
  }

  /** The result of applyNMS. */
  function Nms(preds: seq<Prediction>, iouThreshold: real): seq<Prediction> {
    SortByConfidence(Merged(preds, iouThreshold, AscendingKeys(ClassesOf(preds))))
  }

  lemma SuppressedStep(cp: seq<Prediction>, iouThreshold: real, i: nat, j: nat)
    requires i < |cp| && j < |cp|
    ensures SuppressedBefore(cp, iouThreshold, i + 1, j) <==>
      SuppressedBefore(cp, iouThreshold, i, j) ||
      (Kept(cp, iouThreshold, i) && CalculateIou(cp[i].box, cp[j].box) > iouThreshold)
  {
    if SuppressedBefore(cp, iouThreshold, i + 1, j) {
      var w :| 0 <= w < i + 1 && Kept(cp, iouThreshold, w) && CalculateIou(cp[w].box, cp[j].box) > iouThreshold;
      if w < i {
        assert SuppressedBefore(cp, iouThreshold, i, j);
      }
    }
    if SuppressedBefore(cp, iouThreshold, i, j) {
      var w :| 0 <= w < i && Kept(cp, iouThreshold, w) && CalculateIou(cp[w].box, cp[j].box) > iouThreshold;
      assert 0 <= w < i + 1;
    }
  }

  /** The inner loop of the greedy scan: kept position i marks every later
      unused position it overlaps by more than the threshold, so afterwards
      exactly the positions suppressed by a survivor up to i are used. */
  method MarkOverlapping(cp: seq<Prediction>, iouThreshold: real, i: nat, used: set<nat>) returns (marked: set<nat>)
    requires i < |cp| && Kept(cp, iouThreshold, i)
    requires forall j | i < j < |cp| :: j in used <==> SuppressedBefore(cp, iouThreshold, i, j)
    ensures forall j | i < j < |cp| :: j in marked <==> SuppressedBefore(cp, iouThreshold, i + 1, j)
  {
    marked := used;
    var j := i + 1;
    while j < |cp|
      invariant i + 1 <= j <= |cp|
      invariant forall j' | j <= j' < |cp| :: j' in marked <==> SuppressedBefore(cp, iouThreshold, i, j')
      invariant forall j' | i < j' < j :: j' in marked <==> SuppressedBefore(cp, iouThreshold, i + 1, j')
    {
      SuppressedStep(cp, iouThreshold, i, j);
      if j !in marked {
        var iou := CalculateIou(cp[i].box, cp[j].box);
        if iou > iouThreshold {
          marked := marked + {j};
        }
      }
      j := j + 1;
    }
  }

  /** A position is kept exactly when no earlier survivor marked it used. */
  lemma KeptIffUnused(cp: seq<Prediction>, iouThreshold: real, i: nat)
    requires i < |cp|
    ensures Kept(cp, iouThreshold, i) <==> !SuppressedBefore(cp, iouThreshold, i, i)
  {
  }

  /** Passing over a suppressed position marks nothing new. */
  lemma SkipStep(cp: seq<Prediction>, iouThreshold: real, i: nat)
    requires i < |cp| && !Kept(cp, iouThreshold, i)
    ensures forall j | i < j < |cp| :: SuppressedBefore(cp, iouThreshold, i + 1, j) == SuppressedBefore(cp, iouThreshold, i, j)
  {
    forall j | i < j < |cp|
      ensures SuppressedBefore(cp, iouThreshold, i + 1, j) == SuppressedBefore(cp, iouThreshold, i, j)
    {
      SuppressedStep(cp, iouThreshold, i, j);
    }
  }

  /** The survivors among the first i + 1 positions extend those among the
      first i by position i exactly when it is kept. */
  lemma SurvivorsStep(cp: seq<Prediction>, iouThreshold: real, i: nat)
    requires i < |cp|
    ensures Collect(KeptFlags(cp, iouThreshold)[..i + 1]) ==
      Collect(KeptFlags(cp, iouThreshold)[..i]) + (if Kept(cp, iouThreshold, i) then [cp[i]] else [])
  {
    CollectStep(KeptFlags(cp, iouThreshold), i);
  }

  /** The greedy scan over one sorted class group: keep each position not
      yet used and mark every later unused position that overlaps it by
      more than the threshold. */
  method GreedyScan(cp: seq<Prediction>, iouThreshold: real) returns (kept: seq<Prediction>)
    ensures kept == Survivors(cp, iouThreshold)
  {
    var used: set<nat> := {};
    kept := [];
    var i := 0;
    while i < |cp|
      invariant 0 <= i <= |cp|
      invariant kept == Collect(KeptFlags(cp, iouThreshold)[..i])
      invariant forall j | i <= j < |cp| :: j in used <==> SuppressedBefore(cp, iouThreshold, i, j)
    {
      SurvivorsStep(cp, iouThreshold, i);
      KeptIffUnused(cp, iouThreshold, i);
      if i !in used {
        kept := kept + [cp[i]];
        used := used + {i};
        used := MarkOverlapping(cp, iouThreshold, i, used);
      } else {
        SkipStep(cp, iouThreshold, i);
      }
      i := i + 1;
    }
    assert KeptFlags(cp, iouThreshold)[..|cp|] == KeptFlags(cp, iouThreshold);
  }

  /** The body of applyNMS's forEach: sort one class group by confidence,
      then scan it greedily. */
  method SuppressClass(classPredictions: seq<Prediction>, iouThreshold: real) returns (kept: seq<Prediction>)
    ensures kept == Survivors(SortByConfidence(classPredictions), iouThreshold)
  {
    var cp := SortByConfidence(classPredictions);
    kept := GreedyScan(cp, iouThreshold);
  }

  /** The grouping loop of applyNMS: each class index that occurs maps to
      its members in input order. */
  method GroupByClass(predictions: seq<Prediction>) returns (byClass: map<nat, seq<Prediction>>)
    ensures byClass.Keys == ClassesOf(predictions)
    ensures forall c | c in byClass :: byClass[c] == ClassMembers(predictions, c)
  {
    byClass := map[];
    var n := 0;
    while n < |predictions|
      invariant 0 <= n <= |predictions|
      invariant byClass.Keys == ClassesOf(predictions[..n])
      invariant forall c | c in byClass :: byClass[c] == ClassMembers(predictions[..n], c)
    {
      var pred := predictions[n];
      assert predictions[..n + 1][..n] == predictions[..n];
      assert predictions[..n + 1] == predictions[..n] + [pred];
      if pred.classIndex !in byClass {
        ClassMembersOfClass(predictions[..n], pred.classIndex);
        byClass := byClass[pred.classIndex := []];
      }
      byClass := byClass[pred.classIndex := byClass[pred.classIndex] + [pred]];
      n := n + 1;
    }
    assert predictions[..|predictions|] == predictions;
  }

  /** One step of the merge: visiting one more class appends its survivors. */
  lemma MergedStep(preds: seq<Prediction>, iouThreshold: real, keys: seq<nat>, k: nat)
    requires k < |keys|
    ensures Merged(preds, iouThreshold, keys[..k + 1]) ==
      Merged(preds, iouThreshold, keys[..k]) + KeptOfClass(preds, iouThreshold, keys[k])
  {
    assert keys[..k + 1][..k] == keys[..k];
  }

  /** The forEach over the groups of applyNMS: suppress each group in turn
      and append its survivors to the keep list. */
  method MergeGroups(predictions: seq<Prediction>, iouThreshold: real, byClass: map<nat, seq<Prediction>>, classes: seq<nat>)
    returns (keep: seq<Prediction>)
    requires forall c | c in classes :: c in byClass && byClass[c] == ClassMembers(predictions, c)
    ensures keep == Merged(predictions, iouThreshold, classes)
  {
    keep := [];
    var k := 0;
    while k < |classes|
      invariant 0 <= k <= |classes|
      invariant keep == Merged(predictions, iouThreshold, classes[..k])
    {
      var kept := SuppressClass(byClass[classes[k]], iouThreshold);
      MergedStep(predictions, iouThreshold, classes, k);
      keep := keep + kept;
      k := k + 1;
    }
    assert classes[..|classes|] == classes;
  }

  /** applyNMS: group by class index, suppress within each group in
      ascending class order, then sort the merged keep list by confidence. */
  method ApplyNms(predictions: seq<Prediction>, iouThreshold: real) returns (keep: seq<Prediction>)
    ensures keep == Nms(predictions, iouThreshold)
  {
    var byClass := GroupByClass(predictions);
    var classes := AscendingKeys(byClass.Keys);
    keep := MergeGroups(predictions, iouThreshold, byClass, classes);
    keep := SortByConfidence(keep);
  }

  /** Facts about one group's survivors: they are group members, no two of
      them overlap by more than the threshold, and the group's first
      (highest-confidence) member always survives. */
  lemma SurvivorsFacts(cp: seq<Prediction>, iouThreshold: real)
    ensures multiset(Survivors(cp, iouThreshold)) <= multiset(cp)
    ensures var s := Survivors(cp, iouThreshold);
      forall p, q | 0 <= p < q < |s| :: CalculateIou(s[p].box, s[q].box) <= iouThreshold
    ensures |cp| > 0 ==> cp[0] in Survivors(cp, iouThreshold)
  {
    var os := KeptFlags(cp, iouThreshold);
    CollectSubMultiset(os, cp);
    CollectInOrder(os);
    var s, idx := Collect(os), PresentIndices(os);
    forall p, q | 0 <= p < q < |s| ensures CalculateIou(s[p].box, s[q].box) <= iouThreshold {
      assert os[idx[p]] == Some(s[p]) && os[idx[q]] == Some(s[q]);
      assert Kept(cp, iouThreshold, idx[p]) && Kept(cp, iouThreshold, idx[q]);
    }
    if |cp| > 0 {
      assert Kept(cp, iouThreshold, 0);
      assert 0 in idx;
      var j :| 0 <= j < |idx| && idx[j] == 0;
      assert os[idx[j]] == Some(s[j]);
    }
  }

  /** Two predictions may both survive: different classes, or an overlap
      within the threshold measured either way round. */
  predicate Compatible(a: Prediction, b: Prediction, iouThreshold: real) {
    a.classIndex != b.classIndex ||
    (CalculateIou(a.box, b.box) <= iouThreshold && CalculateIou(b.box, a.box) <= iouThreshold)
  }

  predicate PairwiseCompatible(s: seq<Prediction>, iouThreshold: real) {
    forall p, q | 0 <= p < q < |s| :: Compatible(s[p], s[q], iouThreshold)
  }

  lemma {:induction false} InsertKeepsCompatible(x: Prediction, t: seq<Prediction>, iouThreshold: real)
    requires PairwiseCompatible([x] + t, iouThreshold)
    ensures PairwiseCompatible(InsertByConfidence(x, t), iouThreshold)
  {
    if t == [] || x.confidence >= t[0].confidence {
    } else {
      var t' := t[1..];
      assert [x] + t == [x, t[0]] + t';
      assert PairwiseCompatible([x] + t', iouThreshold) by {
        forall p, q | 0 <= p < q < |[x] + t'|
          ensures Compatible(([x] + t')[p], ([x] + t')[q], iouThreshold)
        {
          if p == 0 {
            assert ([x] + t')[q] == ([x] + t)[q + 1];
            assert Compatible(([x] + t)[0], ([x] + t)[q + 1], iouThreshold);
          } else {
            assert ([x] + t')[p] == ([x] + t)[p + 1];
            assert ([x] + t')[q] == ([x] + t)[q + 1];
          }
        }
      }
      InsertKeepsCompatible(x, t', iouThreshold);
      var rest := InsertByConfidence(x, t');
      var r := [t[0]] + rest;
      forall p, q | 0 <= p < q < |r| ensures Compatible(r[p], r[q], iouThreshold) {
        if p == 0 {
          var e := rest[q - 1];
          assert e in multiset(rest);
          if e == x {
            assert Compatible(([x] + t)[0], ([x] + t)[1], iouThreshold);
          } else {
            assert e in multiset(t');
            var k :| 0 <= k < |t'| && t'[k] == e;
            assert Compatible(([x] + t)[1], ([x] + t)[k + 2], iouThreshold);
          }
        } else {
          assert r[p] == rest[p - 1] && r[q] == rest[q - 1];
        }
      }
    }
  }

  lemma TailCompatible(s: seq<Prediction>, iouThreshold: real)
    requires s != [] && PairwiseCompatible(s, iouThreshold)
    ensures PairwiseCompatible(s[1..], iouThreshold)
  {
    var tail := s[1..];
    forall p, q | 0 <= p < q < |tail| ensures Compatible(tail[p], tail[q], iouThreshold) {
      assert tail[p] == s[p + 1] && tail[q] == s[q + 1];
    }
  }

  lemma ConsCompatible(x: Prediction, t: seq<Prediction>, iouThreshold: real)
    requires PairwiseCompatible(t, iouThreshold)
    requires forall e | e in t :: Compatible(x, e, iouThreshold)
    ensures PairwiseCompatible([x] + t, iouThreshold)
  {
    var u := [x] + t;
    forall p, q | 0 <= p < q < |u| ensures Compatible(u[p], u[q], iouThreshold) {
      if p == 0 {
        assert u[q] == t[q - 1];
      } else {
        assert u[p] == t[p - 1] && u[q] == t[q - 1];
      }
    }
  }

  /** Sorting by confidence keeps every pair compatible. */
  lemma {:induction false} SortKeepsCompatible(s: seq<Prediction>, iouThreshold: real)
    requires PairwiseCompatible(s, iouThreshold)
    ensures PairwiseCompatible(SortByConfidence(s), iouThreshold)
  {
    if s != [] {
      var tail := s[1..];
      TailCompatible(s, iouThreshold);
      SortKeepsCompatible(tail, iouThreshold);
      var sorted := SortByConfidence(tail);
      forall e | e in sorted ensures Compatible(s[0], e, iouThreshold) {
        assert e in multiset(sorted);
        assert e in multiset(tail);
        var k :| 0 <= k < |tail| && tail[k] == e;
        assert s[k + 1] == e;
      }
      ConsCompatible(s[0], sorted, iouThreshold);
      InsertKeepsCompatible(s[0], sorted, iouThreshold);
    }
  }

  /** The survivors of class c are copies of class-c members of the input. */
  lemma KeptOfClassCount(preds: seq<Prediction>, iouThreshold: real, c: nat, x: Prediction)
    ensures multiset(KeptOfClass(preds, iouThreshold, c))[x] <=
      if x.classIndex == c then multiset(preds)[x] else 0
  {
    var members := ClassMembers(preds, c);
    SurvivorsFacts(SortByConfidence(members), iouThreshold);
    ClassMembersCount(preds, c, x);
  }

  /** With the classes visited once each, a prediction occurs in the keep
      list exactly as often as among the survivors of its own class, if that
      class was visited, and not at all otherwise. */
  lemma {:induction false} MergedCount(preds: seq<Prediction>, iouThreshold: real, keys: seq<nat>, x: Prediction)
    requires forall i, j | 0 <= i < j < |keys| :: keys[i] < keys[j]
    ensures multiset(Merged(preds, iouThreshold, keys))[x] ==
      if x.classIndex in keys then multiset(KeptOfClass(preds, iouThreshold, x.classIndex))[x] else 0
  {
    if keys != [] {
      var ks, c := keys[..|keys| - 1], keys[|keys| - 1];
      MergedCount(preds, iouThreshold, ks, x);
      KeptOfClassCount(preds, iouThreshold, c, x);
      assert keys == ks + [c];
      assert c !in ks;
    }
  }

  /** Every pair in the keep list is compatible: pairs from one class come
      from that class's survivors, pairs from two classes differ in class. */
  lemma {:induction false} MergedCompatible(preds: seq<Prediction>, iouThreshold: real, keys: seq<nat>)
    requires forall i, j | 0 <= i < j < |keys| :: keys[i] < keys[j]
    ensures PairwiseCompatible(Merged(preds, iouThreshold, keys), iouThreshold)
  {
    if keys != [] {
      var ks, c := keys[..|keys| - 1], keys[|keys| - 1];
      MergedCompatible(preds, iouThreshold, ks);
      var a, b := Merged(preds, iouThreshold, ks), KeptOfClass(preds, iouThreshold, c);
      SurvivorsFacts(SortByConfidence(ClassMembers(preds, c)), iouThreshold);
      var r := a + b;
      forall p, q | 0 <= p < q < |r| ensures Compatible(r[p], r[q], iouThreshold) {
        if q < |a| {
          assert r[p] == a[p] && r[q] == a[q];
        } else if p >= |a| {
          assert r[p] == b[p - |a|] && r[q] == b[q - |a|];
          IouSymmetric(r[p].box, r[q].box);
        } else {
          var e, f := a[p], b[q - |a|];
          assert e in multiset(a) && f in multiset(b);
          MergedCount(preds, iouThreshold, ks, e);
          KeptOfClassCount(preds, iouThreshold, c, f);
          assert c !in ks;
          assert e.classIndex != f.classIndex;
        }
      }
    }
  }

  /** Every kept prediction comes from the input (as often as it occurs
      there at most), so the result is never longer than the input. */
  lemma NmsFromInput(preds: seq<Prediction>, iouThreshold: real)
    ensures multiset(Nms(preds, iouThreshold)) <= multiset(preds)
    ensures |Nms(preds, iouThreshold)| <= |preds|
    ensures forall p | p in Nms(preds, iouThreshold) :: p in preds
  {
    var keys := AscendingKeys(ClassesOf(preds));
    forall x: Prediction ensures multiset(Nms(preds, iouThreshold))[x] <= multiset(preds)[x] {
      MergedCount(preds, iouThreshold, keys, x);
      KeptOfClassCount(preds, iouThreshold, x.classIndex, x);
    }
    var kept, all := multiset(Nms(preds, iouThreshold)), multiset(preds);
    assert kept <= all;
    assert all == kept + (all - kept);
    forall p | p in Nms(preds, iouThreshold) ensures p in preds {
      assert p in multiset(Nms(preds, iouThreshold));
    }
  }

  /** No two kept predictions of the same class overlap by more than the
      threshold, and the result is ordered by non-increasing confidence. */
  lemma NmsSeparated(preds: seq<Prediction>, iouThreshold: real)
    ensures var r := Nms(preds, iouThreshold);
      forall p, q | 0 <= p < |r| && 0 <= q < |r| && p != q && r[p].classIndex == r[q].classIndex ::
        CalculateIou(r[p].box, r[q].box) <= iouThreshold
    ensures NonIncreasing(Nms(preds, iouThreshold))
  {
    var keys := AscendingKeys(ClassesOf(preds));
    MergedCompatible(preds, iouThreshold, keys);
    SortKeepsCompatible(Merged(preds, iouThreshold, keys), iouThreshold);
    var r := Nms(preds, iouThreshold);
    forall p, q | 0 <= p < |r| && 0 <= q < |r| && p != q && r[p].classIndex == r[q].classIndex
      ensures CalculateIou(r[p].box, r[q].box) <= iouThreshold
    {
      if p < q {
        assert Compatible(r[p], r[q], iouThreshold);
      } else {
        assert Compatible(r[q], r[p], iouThreshold);
      }
    }
  }

  /** A survivor of an occurring class is in the result of applyNMS. */
  lemma KeptInNms(preds: seq<Prediction>, iouThreshold: real, c: nat, x: Prediction)
    requires c in ClassesOf(preds) && x.classIndex == c
    requires x in KeptOfClass(preds, iouThreshold, c)
    ensures x in Nms(preds, iouThreshold)
  {
    var keys := AscendingKeys(ClassesOf(preds));
    MergedCount(preds, iouThreshold, keys, x);
    assert x in multiset(KeptOfClass(preds, iouThreshold, c));
    assert x in multiset(Merged(preds, iouThreshold, keys));
    assert x in multiset(Nms(preds, iouThreshold));
  }

  /** The head of an occurring class's sorted group is a class member of
      highest confidence. */
  lemma ClassHead(preds: seq<Prediction>, c: nat) returns (best: Prediction)
    requires c in ClassesOf(preds)
    ensures |SortByConfidence(ClassMembers(preds, c))| > 0 && best == SortByConfidence(ClassMembers(preds, c))[0]
    ensures best in preds && best.classIndex == c
    ensures forall p | p in preds && p.classIndex == c :: p.confidence <= best.confidence
  {
    var members := ClassMembers(preds, c);
    ClassMembersOfClass(preds, c);
    var cp := SortByConfidence(members);
    SortedMembers(members);
    HeadIsMaximal(cp);
    best := cp[0];
    forall p | p in preds && p.classIndex == c ensures p.confidence <= best.confidence {
      ClassMembersCount(preds, c, p);
      assert p in multiset(members);
    }
  }

  /** Every class that occurs keeps its highest-confidence prediction. */
  lemma NmsKeepsClassBest(preds: seq<Prediction>, iouThreshold: real, c: nat)
    requires c in ClassesOf(preds)
    ensures exists best :: (best in Nms(preds, iouThreshold) && best in preds && best.classIndex == c &&
      forall p | p in preds && p.classIndex == c :: p.confidence <= best.confidence)
  {
    var best := ClassHead(preds, c);
    SurvivorsFacts(SortByConfidence(ClassMembers(preds, c)), iouThreshold);
    KeptInNms(preds, iouThreshold, c, best);
  }

  /** Classes never interact: the kept predictions of class c are, as a
      multiset, the survivors of the class-c group alone. */
  lemma NmsPerClass(preds: seq<Prediction>, iouThreshold: real, c: nat)
    ensures multiset(ClassMembers(Nms(preds, iouThreshold), c)) ==
      multiset(Survivors(SortByConfidence(ClassMembers(preds, c)), iouThreshold))
  {
    var keys := AscendingKeys(ClassesOf(preds));
    var r := Nms(preds, iouThreshold);
    forall x: Prediction ensures multiset(ClassMembers(r, c))[x] == multiset(KeptOfClass(preds, iouThreshold, c))[x] {
      MergedCount(preds, iouThreshold, keys, x);
      ClassMembersCount(r, c, x);
      KeptOfClassCount(preds, iouThreshold, c, x);
      if x.classIndex == c && c !in keys {
        ClassMembersOfClass(preds, c);
        assert ClassMembers(preds, c) == [];
      }
    }
  }

  /** Hence two inputs with the same class-c members keep the same class-c
      predictions, whatever their other classes hold. */
  lemma NmsClassIndependent(preds1: seq<Prediction>, preds2: seq<Prediction>, iouThreshold: real, c: nat)
    requires ClassMembers(preds1, c) == ClassMembers(preds2, c)
    ensures multiset(ClassMembers(Nms(preds1, iouThreshold), c)) == multiset(ClassMembers(Nms(preds2, iouThreshold), c))
  {
    NmsPerClass(preds1, iouThreshold, c);
    NmsPerClass(preds2, iouThreshold, c);
  }

  /** Two predictions of one class form a single group, in input order. */
  lemma PairGroup(a: Prediction, b: Prediction)
    requires a.classIndex == b.classIndex
    ensures ClassesOf([a, b]) == {a.classIndex}
    ensures AscendingKeys(ClassesOf([a, b])) == [a.classIndex]
    ensures ClassMembers([a, b], a.classIndex) == [a, b]
  {
    var c := a.classIndex;
    assert ClassesOf([a, b]) == {c};
    assert IsLeast(c, {c});
    assert forall m | IsLeast(m, {c}) :: m == c;
    assert {c} - {c} == {};
    assert [a, b][..1] == [a] && [a][..0] == [];
    assert ClassMembers([a], c) == [a];
  }

  /** In a sorted pair that overlaps by more than the threshold only the
      first survives. */
  lemma PairSurvivors(a: Prediction, b: Prediction, iouThreshold: real)
    requires CalculateIou(a.box, b.box) > iouThreshold
    ensures Survivors([a, b], iouThreshold) == [a]
  {
    var cp := [a, b];
    assert Kept(cp, iouThreshold, 0);
    assert !Kept(cp, iouThreshold, 1);
    var flags := KeptFlags(cp, iouThreshold);
    assert flags[0] == Some(a) && flags[1] == None;
    CollectStep(flags, 0);
    CollectStep(flags, 1);
    assert flags[..0] == [] && flags[..2] == flags;
  }

  /** Of two tied predictions of one class that overlap by more than the
      threshold, the one that comes first in the input is the one kept. */
  lemma TiedPairKeepsFirst(a: Prediction, b: Prediction, iouThreshold: real)
    requires a.classIndex == b.classIndex && a.confidence == b.confidence
    requires CalculateIou(a.box, b.box) > iouThreshold
    ensures Nms([a, b], iouThreshold) == [a]
  {
    var c := a.classIndex;
    PairGroup(a, b);
    assert [c][..0] == [];
    assert Merged([a, b], iouThreshold, [c]) == KeptOfClass([a, b], iouThreshold, c);
    assert SortByConfidence([b]) == [b];
    assert SortByConfidence([a, b]) == [a, b];
    PairSurvivors(a, b, iouThreshold);
    assert SortByConfidence([a]) == [a];
  }

  /** The result depends on the input order when confidences tie: of two
      equally confident, overlapping boxes of one class, whichever is listed
      first survives. */
  lemma TieOrderMatters()
    ensures var a := Prediction(5.0, 5.0, 10.0, 10.0, 0.5, 0, "Bio-Medical", Box(0, 0, 10, 10));
      var b := Prediction(6.0, 5.0, 10.0, 10.0, 0.5, 0, "Bio-Medical", Box(1, 0, 11, 10));
      a != b && Nms([a, b], 0.45) == [a] && Nms([b, a], 0.45) == [b]
  {
    var a := Prediction(5.0, 5.0, 10.0, 10.0, 0.5, 0, "Bio-Medical", Box(0, 0, 10, 10));
    var b := Prediction(6.0, 5.0, 10.0, 10.0, 0.5, 0, "Bio-Medical", Box(1, 0, 11, 10));
    assert Intersection(a.box, b.box) == 90;
    assert CalculateIou(a.box, b.box) == 90.0 / (110.0 + Epsilon);
    IouSymmetric(a.box, b.box);
    TiedPairKeepsFirst(a, b, 0.45);
    TiedPairKeepsFirst(b, a, 0.45);
  }
}
