/** Facts about Euclidean division shared by the index arithmetic. */
module Arith {
  /** Euclidean remainders are unique. */
  lemma ModUnique(a: int, n: int, s: int, t: int)
    requires n > 0 && 0 <= t < n && a == n * s + t
    ensures a % n == t && a / n == s
  {
    var q, r := a / n, a % n;
    assert a == n * q + r;
    if q < s {
      assert n * (s - q) == n * s - n * q;
      MulAtLeast(n, s - q);
    } else if q > s {
      assert n * (q - s) == n * q - n * s;
      MulAtLeast(n, q - s);
    }
  }

  lemma {:induction false} MulAtLeast(n: int, d: int)
    requires n > 0 && d >= 1
    ensures n * d >= n
    decreases d
  {
    if d > 1 {
      MulAtLeast(n, d - 1);
      assert n * d == n * (d - 1) + n;
    }
  }

  /** Halving then reducing mod P, doubled, and the low bit put back, is reducing mod 2P. */
  lemma ModDouble(a: int, P: int)
    requires P > 0
    ensures a % (2 * P) == 2 * ((a / 2) % P) + a % 2
  {
    var h := a / 2;
    var s, t := h / P, h % P;
    assert h == P * s + t;
    assert a == 2 * h + a % 2;
    assert a == (2 * P) * s + (2 * t + a % 2) by {
      assert (2 * P) * s == 2 * (P * s);
    }
    ModUnique(a, 2 * P, s, 2 * t + a % 2);
  }

  /** (a + 1) * b == a * b + b. */
  lemma MulSucc(a: int, b: int)
    ensures (a + 1) * b == a * b + b
  {
  }
}
