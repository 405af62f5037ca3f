/** An optional value, the outcome of an operation that can throw, and the
    list of the present values of a sequence of optional values. */
module Wrappers {
  datatype Option<+T> = None | Some(value: T)

  /** Either the value an operation returns or the error it throws. */
  datatype Result<+T> = Success(value: T) | Failure(error: string)

  /** The values present in os, in order. */
  function Collect<T>(os: seq<Option<T>>): seq<T> {
    if os == [] then []
    else
      Collect(os[..|os| - 1]) +
      match os[|os| - 1]
      case Some(x) => [x]
      case None => []
  }

  /** The positions of the present values, in order. */
  ghost function PresentIndices<T>(os: seq<Option<T>>): seq<nat> {
    if os == [] then []
    else PresentIndices(os[..|os| - 1]) + if os[|os| - 1].Some? then [|os| - 1] else []
  }

  /** Collect keeps exactly the present values, in increasing position. */
  lemma {:induction false} CollectInOrder<T>(os: seq<Option<T>>)
    ensures var r, idx := Collect(os), PresentIndices(os);
      && |r| == |idx| <= |os|
      && (forall j | 0 <= j < |idx| :: idx[j] < |os| && os[idx[j]] == Some(r[j]))
      && (forall j, j' | 0 <= j < j' < |idx| :: idx[j] < idx[j'])
      && (forall i | 0 <= i < |os| :: os[i].Some? <==> i in idx)
  {
    if os != [] {
      var init := os[..|os| - 1];
      CollectInOrder(init);
      var r0, idx0 := Collect(init), PresentIndices(init);
      var r, idx := Collect(os), PresentIndices(os);
      if os[|os| - 1].Some? {
        assert r == r0 + [os[|os| - 1].value] && idx == idx0 + [|os| - 1];
      } else {
        assert r == r0 && idx == idx0;
      }
    }
  }

  /** Every collected value sits at some position of os. */
  lemma {:induction false} CollectMembers<T>(os: seq<Option<T>>, x: T)
    requires x in Collect(os)
    ensures exists i :: 0 <= i < |os| && os[i] == Some(x)
  {
    CollectInOrder(os);
    var j :| 0 <= j < |Collect(os)| && Collect(os)[j] == x;
    assert os[PresentIndices(os)[j]] == Some(x);
  }

  /** Collecting a longer prefix appends the next present value, if any. */
  lemma CollectStep<T>(os: seq<Option<T>>, n: nat)
    requires n < |os|
    ensures Collect(os[..n + 1]) ==
      Collect(os[..n]) + match os[n] case Some(x) => [x] case None => []
  {
    assert os[..n + 1][..n] == os[..n];
  }

  /** When every present value of os is the element of s at the same
      position, the collected values are a sub-multiset of s. */
  lemma {:induction false} CollectSubMultiset<T>(os: seq<Option<T>>, s: seq<T>)
    requires |os| == |s|
    requires forall i | 0 <= i < |os| :: os[i].Some? ==> os[i].value == s[i]
    ensures multiset(Collect(os)) <= multiset(s)
  {
    if os != [] {
      var n := |os| - 1;
      CollectSubMultiset(os[..n], s[..n]);
      assert s == s[..n] + [s[n]];
    }
  }
}
