/** Array.prototype.sort with the comparator (a, b) => b.confidence - a.confidence.
    The built-in sort is stable, so the result is the unique reordering that
    is non-increasing in confidence and keeps equal-confidence predictions in
    their original relative order; it is written here as an insertion sort. */
module Ordering {
  import opened Predictions

  /** Confidence never increases from left to right. */
  predicate NonIncreasing(s: seq<Prediction>) {
    forall i, j | 0 <= i < j < |s| :: s[i].confidence >= s[j].confidence
  }

  /** Places p in front of the first element it is not below; p goes before
      elements of equal confidence because it came earlier in the input. */
  function InsertByConfidence(p: Prediction, s: seq<Prediction>): (r: seq<Prediction>)
    ensures multiset(r) == multiset(s) + multiset{p}
  {
    if s == [] || p.confidence >= s[0].confidence then
      [p] + s
    else
      assert s == [s[0]] + s[1..];
      [s[0]] + InsertByConfidence(p, s[1..])
  }

  /** Inserting into a non-increasing list keeps it non-increasing. */
  lemma {:induction false} InsertKeepsOrder(p: Prediction, s: seq<Prediction>)
    requires NonIncreasing(s)
    ensures NonIncreasing(InsertByConfidence(p, s))
  {
    if s == [] || p.confidence >= s[0].confidence {
    } else {
      var rest := InsertByConfidence(p, s[1..]);
      InsertKeepsOrder(p, s[1..]);
      var r := [s[0]] + rest;
      forall j | 0 < j < |r| ensures r[0].confidence >= r[j].confidence {
        var x := rest[j - 1];
        assert x in multiset(rest);
        assert x == p || x in multiset(s[1..]);
      }
    }
  }

  /** The stable sort by non-increasing confidence. */
  function SortByConfidence(s: seq<Prediction>): (r: seq<Prediction>)
    ensures multiset(r) == multiset(s)
    ensures |r| == |s|
    ensures NonIncreasing(r)
  {
    if s == [] then []
    else
      assert s == [s[0]] + s[1..];
      InsertKeepsOrder(s[0], SortByConfidence(s[1..]));
      InsertByConfidence(s[0], SortByConfidence(s[1..]))
  }

  /** Every element of the sorted list comes from the input, and back. */
  lemma SortedMembers(s: seq<Prediction>)
    ensures forall x :: x in SortByConfidence(s) <==> x in s
  {
    var r := SortByConfidence(s);
    forall x ensures x in r <==> x in s {
      assert x in r <==> x in multiset(r);
      assert x in s <==> x in multiset(s);
    }
  }

  /** In a non-increasing list the head has the largest confidence. */
  lemma HeadIsMaximal(s: seq<Prediction>)
    requires NonIncreasing(s) && s != []
    ensures forall x | x in s :: x.confidence <= s[0].confidence
  {
  }

  /** The predictions of s whose confidence is v, in their order in s. */
  function AtConfidence(s: seq<Prediction>, v: real): (r: seq<Prediction>)
    ensures |r| <= |s|
    ensures forall p | p in r :: p in s && p.confidence == v
  {
    if s == [] then []
    else (if s[0].confidence == v then [s[0]] else []) + AtConfidence(s[1..], v)
  }

  /** Inserting p puts it in front of the predictions of its own
      confidence and leaves the order among each confidence as it was. */
  lemma {:induction false} InsertAtConfidence(p: Prediction, t: seq<Prediction>, v: real)
    ensures AtConfidence(InsertByConfidence(p, t), v) ==
      (if p.confidence == v then [p] else []) + AtConfidence(t, v)
  {
    var mine := if p.confidence == v then [p] else [];
    if t == [] || p.confidence >= t[0].confidence {
      var u := [p] + t;
      assert InsertByConfidence(p, t) == u;
      assert u[0] == p && u[1..] == t;
      assert AtConfidence(u, v) == mine + AtConfidence(t, v);
    } else {
      var rest := InsertByConfidence(p, t[1..]);
      InsertAtConfidence(p, t[1..], v);
      var u := [t[0]] + rest;
      assert InsertByConfidence(p, t) == u;
      var head := if t[0].confidence == v then [t[0]] else [];
      assert u[0] == t[0] && u[1..] == rest;
      assert AtConfidence(u, v) == head + (mine + AtConfidence(t[1..], v));
      assert AtConfidence(t, v) == head + AtConfidence(t[1..], v);
      var x := AtConfidence(t[1..], v);
      if head == [] {
        assert head + (mine + x) == mine + x && head + x == x;
      } else {
        assert mine == [];
        assert head + (mine + x) == head + x && mine + (head + x) == head + x;
      }
    }
  }

  /** The sort is stable: among predictions of equal confidence it keeps
      the input order. */
  lemma {:induction false} SortStable(s: seq<Prediction>, v: real)
    ensures AtConfidence(SortByConfidence(s), v) == AtConfidence(s, v)
  {
    if s != [] {
      SortStable(s[1..], v);
      InsertAtConfidence(s[0], SortByConfidence(s[1..]), v);
    }
  }
}
