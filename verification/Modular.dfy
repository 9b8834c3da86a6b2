/**
 Division and remainder by a symbolic modulus, for the ring buffers and tables of the model,
 and the moduli of machine words.
 */
module Modular {
  const WORD32: nat := 0x1_0000_0000
  const WORD64: nat := 0x1_0000_0000_0000_0000

  lemma DivMod(a: nat, r: nat)
    requires r > 0
    ensures a == (a / r) * r + a % r
  {
  }

  lemma MulAtLeast(a: nat, b: nat)
    requires a >= 1
    ensures a * b >= b
  {
  }

  /** Quotient and remainder are determined by the number they make up. */
  lemma Unique(r: nat, q: nat, m: nat, p: nat, n: nat)
    requires m < r && n < r && q * r + m == p * r + n
    ensures q == p && m == n
  {
    if q < p {
      assert (p - q) * r == m - n;
      MulAtLeast(p - q, r);
      assert false;
    } else if p < q {
      assert (q - p) * r == n - m;
      MulAtLeast(q - p, r);
      assert false;
    }
  }

  lemma ModIs(x: nat, r: nat, q: nat, m: nat)
    requires m < r && x == q * r + m
    ensures x % r == m && x / r == q
  {
    DivMod(x, r);
    Unique(r, x / r, x % r, q, m);
  }

  lemma ModSmall(x: nat, r: nat)
    requires x < r
    ensures x % r == x
  {
  }

  /** Inside the room left before the modulus, reducing commutes with advancing. */
  lemma ModAdvance(a: nat, d: nat, r: nat)
    requires r > 0 && a % r + d < r
    ensures (a + d) % r == a % r + d
  {
    DivMod(a, r);
    ModIs(a + d, r, a / r, a % r + d);
  }

  /** Advancing past the modulus, by less than a full turn, starts again at zero. */
  lemma ModWrap(a: nat, d: nat, r: nat)
    requires r > 0 && r <= a % r + d < 2 * r
    ensures (a + d) % r == a % r + d - r
  {
    DivMod(a, r);
    assert (a / r + 1) * r == (a / r) * r + r;
    ModIs(a + d, r, a / r + 1, a % r + d - r);
  }

  /** Numbers less than the modulus apart have different remainders. */
  lemma ModDistinct(a: nat, b: nat, r: nat)
    requires a < b < a + r
    ensures a % r != b % r
  {
    var d := b - a;
    if a % r + d < r {
      ModAdvance(a, d, r);
    } else {
      ModWrap(a, d, r);
    }
  }

  lemma ModMultiple(a: nat, r: nat, k: nat)
    requires k > 0 && r > 0 && a % k == 0 && r % k == 0
    ensures a % r % k == 0
  {
    DivMod(a, r);
    DivMod(a, k);
    DivMod(r, k);
    var q, n, m := a / k, r / k, a / r;
    assert m * (n * k) == (m * n) * k;
    assert a % r == (q - m * n) * k;
    assert q >= m * n by {
      if q < m * n { MulAtLeast(m * n - q, k); }
    }
    ModIs(a % r, k, q - m * n, 0);
  }
}
