/** Facts about Euclidean division that the time breakdowns rest on. */
module Arith {
  /** A quotient and remainder that reconstruct `d` are the quotient and remainder. */
  lemma DivModUnique(d: int, n: int, q: int, r: int)
    requires n > 0 && 0 <= r < n && d == n * q + r
    ensures q == d / n && r == d % n
  {
    var q0, r0 := d / n, d % n;
    assert d == n * q0 + r0;
    assert n * (q - q0) == r0 - r;
    MulSign(n, q - q0);
  }

  /** A multiple of `n` by a non-zero integer is at least `n` away from zero. */
  lemma MulSign(n: int, x: int)
    requires n > 0
    ensures x >= 1 ==> n * x >= n
    ensures x <= -1 ==> n * x <= -n
  {
    if x >= 1 {
      MulMono(n, 1, x);
    }
    if x <= -1 {
      MulMono(n, x, -1);
    }
  }

  lemma MulMono(n: int, x: int, y: int)
    requires n > 0 && x <= y
    ensures n * x <= n * y
  {
  }

  /**
   * Splitting `d` at unit `a` and then at `b` is splitting it at `a * b`: the remainder
   * modulo `a * b`, read in units of `a`, is the count of whole `a` units modulo `b`.
   */
  lemma Split(d: int, a: int, b: int)
    requires d >= 0 && a > 0 && b > 0
    ensures (d % (a * b)) / a == (d / a) % b
    ensures (d % (a * b)) % a == d % a
    ensures d / (a * b) == (d / a) / b
  {
    var q, r := d / a, d % a;
    var q2, r2 := q / b, q % b;
    assert q == b * q2 + r2;
    assert d == a * q + r;
    assert d == (a * b) * q2 + (a * r2 + r) by {
      calc {
        d;
        a * q + r;
        a * (b * q2 + r2) + r;
        (a * b) * q2 + (a * r2 + r);
      }
    }
    assert a * r2 <= a * (b - 1) by { MulMono(a, r2, b - 1); }
    assert 0 <= a * r2;
    DivModUnique(d, a * b, q2, a * r2 + r);
    DivModUnique(a * r2 + r, a, r2, r);
  }
}
