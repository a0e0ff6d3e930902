/** The few facts about Euclidean division on naturals that the scan counters need. */
module Arith {

  /** The successor of t on a dial of m positions. */
  function Wrap(t: nat, m: nat): (u: nat)
    requires t < m
    ensures u < m
  {
    if t + 1 == m then 0 else t + 1
  }

  /** Scaling by n keeps a weak order. */
  lemma MulMono(a: nat, b: nat, n: nat)
    requires a <= b
    ensures a * n <= b * n
  {
    assert b * n == a * n + (b - a) * n;
  }

  /** Quotient and remainder are the only such pair. */
  lemma DivModUnique(x: int, m: int, q: int, r: int)
    requires m > 0 && 0 <= r < m && x == q * m + r
    ensures x / m == q && x % m == r
  {
    var q0, r0 := x / m, x % m;
    assert x == q0 * m + r0;
    if q0 > q {
      MulMono(1, q0 - q, m);
    } else if q0 < q {
      MulMono(1, q - q0, m);
    }
  }

  /** A value already on the dial is its own remainder. */
  lemma ModSmall(t: nat, m: nat)
    requires t < m
    ensures t % m == t
  {
    DivModUnique(t, m, 0, t);
  }

  /** Taking the remainder first does not change the remainder of a sum. */
  lemma ModAddLeft(x: nat, y: nat, m: nat)
    requires m > 0
    ensures ((x % m) + y) % m == (x + y) % m
  {
    var q, r := x / m, x % m;
    var q2, r2 := (r + y) / m, (r + y) % m;
    assert x + y == (q + q2) * m + r2;
    DivModUnique(x + y, m, q + q2, r2);
  }

  /** `Wrap` is the successor modulo m. */
  lemma WrapIsSucc(t: nat, m: nat)
    requires t < m
    ensures Wrap(t, m) == (t + 1) % m
  {
    if t + 1 == m {
      DivModUnique(t + 1, m, 1, 0);
    } else {
      ModSmall(t + 1, m);
    }
  }

  /** Stepping once on the dial and then k-1 more lands where k steps do. */
  lemma WrapThenAdd(t: nat, k: nat, m: nat)
    requires t < m && k >= 1
    ensures (Wrap(t, m) + (k - 1)) % m == (t + k) % m
  {
    WrapIsSucc(t, m);
    ModAddLeft(t + 1, k - 1, m);
  }
}
