/** Facts about multiplication and the remainder operator that the indicator proofs need. */
module Arith {

  /** A non-zero multiple of a positive n is at least n away from zero. */
  lemma MulBound(n: int, m: int)
    requires n >= 1
    ensures m >= 1 ==> n * m >= n
    ensures m <= -1 ==> n * m <= -n
  {
    if m >= 1 {
      assert n * m >= n * 1;
    } else if m <= -1 {
      assert n * m <= n * -1;
    }
  }

  /** The remainder is determined by any decomposition a == q * n + r with 0 <= r < n. */
  lemma ModUnique(a: int, n: int, q: int, r: int)
    requires n >= 1 && 0 <= r < n && a == q * n + r
    ensures a % n == r
  {
    var d := a / n - q;
    assert n * d == r - a % n by {
      assert a == n * (a / n) + a % n;
      assert n * d == n * (a / n) - n * q;
    }
    MulBound(n, d);
  }

  /** Counting one further modulo n from a reduced value agrees with reducing the successor. */
  lemma ModSucc(a: nat, n: int)
    requires n >= 1
    ensures (a % n + 1) % n == (a + 1) % n
    ensures (a + 1) % n == if a % n + 1 < n then a % n + 1 else 0
  {
    var q, r := a / n, a % n;
    assert a == q * n + r;
    if r + 1 < n {
      ModUnique(a + 1, n, q, r + 1);
      ModUnique(r + 1, n, 0, r + 1);
    } else {
      ModUnique(a + 1, n, q + 1, 0);
      ModUnique(r + 1, n, 1, 0);
    }
  }
}
