/** Intersection over union of two corner-form boxes, as used by the
    per-class suppression. */
module Overlap {
  import opened Predictions
  import opened Arith

  /** Added to the union so that the quotient is always defined. */
  const Epsilon: real := 0.000001

  /** Side of the overlap of [a1, a2] and [b1, b2], clamped at zero. */
  function Overlap1D(a1: int, a2: int, b1: int, b2: int): (r: int)
    ensures r >= 0
    ensures r > 0 <==> b1 < a2 && a1 < b2 && a1 < a2 && b1 < b2
    ensures a1 <= a2 ==> r <= a2 - a1
    ensures b1 <= b2 ==> r <= b2 - b1
  {
    Max(0, Min(a2, b2) - Max(a1, b1))
  }

  /** Area shared by the two boxes. */
  function Intersection(a: Box, b: Box): int {
    Overlap1D(a.x1, a.x2, b.x1, b.x2) * Overlap1D(a.y1, a.y2, b.y1, b.y2)
  }

  /** The two boxes share no area of positive extent along some axis. */
  predicate Disjoint(a: Box, b: Box) {
    a.x2 <= b.x1 || b.x2 <= a.x1 || a.y2 <= b.y1 || b.y2 <= a.y1
  }

  /** calculateIOU: intersection / (area1 + area2 - intersection + 1e-6). */
  function CalculateIou(a: Box, b: Box): (r: real)
    ensures Disjoint(a, b) ==> r == 0.0
    ensures a.WellFormed() && b.WellFormed() ==> 0.0 <= r < 1.0
    ensures a.WellFormed() && b.WellFormed() ==>
      (r > 0.0 <==> !Disjoint(a, b) && a.x1 < a.x2 && a.y1 < a.y2 && b.x1 < b.x2 && b.y1 < b.y2)
  {
    var inter := Intersection(a, b);
    var union := a.Area() + b.Area() - inter;
    IntersectionBounds(a, b);
    DenominatorNonZero(union);
    var r := inter as real / (union as real + Epsilon);
    if a.WellFormed() && b.WellFormed() then
      QuotientBounds(inter, union);
      r
    else
      r
  }

  /** The union is an integer, so adding the epsilon never gives zero. */
  lemma DenominatorNonZero(union: int)
    ensures union as real + Epsilon != 0.0
  {
    if union >= 0 {
    } else {
      assert union as real <= -1.0;
    }
  }

  lemma QuotientBounds(inter: int, union: int)
    requires 0 <= inter <= union
    ensures 0.0 <= inter as real / (union as real + Epsilon) < 1.0
    ensures inter as real / (union as real + Epsilon) > 0.0 <==> inter > 0
  {
    var n, d := inter as real, union as real + Epsilon;
    assert 0.0 <= n < d;
    RealQuotient(n, d);
  }

  lemma RealQuotient(n: real, d: real)
    requires 0.0 <= n < d
    ensures 0.0 <= n / d < 1.0
    ensures n / d > 0.0 <==> n > 0.0
  {
    var q := n / d;
    assert q * d == n;
  }

  /** For well-formed boxes the overlap is at most either area, so the union
      is at least the overlap and the quotient lies in [0, 1). */
  lemma IntersectionBounds(a: Box, b: Box)
    ensures Intersection(a, b) >= 0
    ensures Intersection(a, b) > 0 <==> !Disjoint(a, b) && a.x1 < a.x2 && a.y1 < a.y2 && b.x1 < b.x2 && b.y1 < b.y2
    ensures a.WellFormed() && b.WellFormed() ==>
      Intersection(a, b) <= a.Area() && Intersection(a, b) <= b.Area()
  {
    var iw := Overlap1D(a.x1, a.x2, b.x1, b.x2);
    var ih := Overlap1D(a.y1, a.y2, b.y1, b.y2);
    if a.WellFormed() && b.WellFormed() {
      ProductBound(iw, ih, a.Width(), a.Height());
      ProductBound(iw, ih, b.Width(), b.Height());
    }
  }

  lemma ProductBound(p: int, q: int, m: int, n: int)
    requires 0 <= p <= m && 0 <= q <= n
    ensures p * q <= m * n
  {
    assert p * q <= m * q;
    assert m * q <= m * n;
  }

  /** The overlap measure does not depend on which box comes first. */
  lemma IouSymmetric(a: Box, b: Box)
    ensures CalculateIou(a, b) == CalculateIou(b, a)
  {
    assert Intersection(a, b) == Intersection(b, a);
  }

  /** A box with positive area overlaps itself to within the epsilon of 1. */
  lemma IouSelf(a: Box)
    requires a.WellFormed() && a.Area() > 0
    ensures 1.0 - Epsilon < CalculateIou(a, a) < 1.0
  {
    var area := a.Area() as real;
    assert Intersection(a, a) == a.Area();
    assert CalculateIou(a, a) == area / (area + Epsilon);
    assert area >= 1.0;
    assert area / (area + Epsilon) == 1.0 - Epsilon / (area + Epsilon);
    assert Epsilon / (area + Epsilon) < Epsilon;
  }
}
