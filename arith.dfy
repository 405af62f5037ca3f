/** Integer helpers shared by the modules: the larger and smaller of two
    integers, as Math.max and Math.min give them, and facts about mixed-radix
    index arithmetic (a * n + b with b < n) used by the output-buffer
    addressing and the channel-layout permutation. */
module Arith {

  function Max(a: int, b: int): int { if a >= b then a else b }

  function Min(a: int, b: int): int { if a <= b then a else b }

  lemma MulMonotone(a: nat, b: nat, n: nat)
    requires a <= b
    ensures a * n <= b * n
  {
  }

  /** A digit pair (a, b) with b < n is recovered from a * n + b. */
  lemma MixedRadixInjective(a: nat, b: nat, a': nat, b': nat, n: nat)
    requires b < n && b' < n
    requires a * n + b == a' * n + b'
    ensures a == a' && b == b'
  {
    if a < a' {
      MulMonotone(a + 1, a', n);
      assert false;
    } else if a' < a {
      MulMonotone(a' + 1, a, n);
      assert false;
    }
  }

  /** Division and remainder by n undo a * n + b. */
  lemma DivModOf(a: nat, b: nat, n: nat)
    requires b < n
    ensures (a * n + b) / n == a && (a * n + b) % n == b
  {
    var d := a * n + b;
    var q, r := d / n, d % n;
    assert d == q * n + r;
    MixedRadixInjective(a, b, q, r, n);
  }

  /** The digit bound: a * n + b < m * n when a < m and b < n. */
  lemma MixedRadixBound(a: nat, b: nat, m: nat, n: nat)
    requires a < m && b < n
    ensures a * n + b < m * n
  {
    MulMonotone(a + 1, m, n);
  }

  /** A quotient stays below m when the dividend is below m * n. */
  lemma DivBound(d: nat, m: nat, n: nat)
    requires d < m * n
    ensures n > 0 && d / n < m
  {
    assert n > 0;
    var q := d / n;
    assert d == q * n + d % n;
    if m <= q {
      MulMonotone(m, q, n);
    }
  }
}
