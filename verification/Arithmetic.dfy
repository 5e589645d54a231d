/** Facts about multiples and quotients. */
module Arithmetic {

  lemma Multiples(a: nat, b: nat, c: nat)
    requires a <= b
    ensures a * c <= b * c
  {
  }

  /** A quotient is the number of whole multiples that fit. */
  lemma DivideAt(c: nat, size: nat, b: nat)
    requires size > 0
    ensures b == c / size <==> b * size <= c < b * size + size
  {
    var q := c / size;
    assert q * size <= c < q * size + size;
    if b < q {
      Multiples(b + 1, q, size);
    } else if b > q {
      Multiples(q + 1, b, size);
    }
  }

  /** Multiply-shift reduction of a 32-bit value to [0, n). */
  function Reduce(x: nat, n: nat): nat {
    x * n / 0x1_0000_0000
  }

  lemma ReduceInRange(x: nat, n: nat)
    requires x < 0x1_0000_0000
    ensures if n == 0 then Reduce(x, n) == 0 else Reduce(x, n) < n
  {
    if n > 0 {
      assert x * n < 0x1_0000_0000 * n;
      BelowProduct(x * n, n);
    }
  }

  lemma BelowProduct(a: nat, n: nat)
    requires a < 0x1_0000_0000 * n
    ensures a / 0x1_0000_0000 < n
  {
  }

  /** The reduction scales [0, 2^32) down to [0, n), rounding down. */
  lemma ReduceScales(x: nat, n: nat)
    ensures Reduce(x, n) * 0x1_0000_0000 <= x * n < (Reduce(x, n) + 1) * 0x1_0000_0000
  {
    DivideAt(x * n, 0x1_0000_0000, Reduce(x, n));
  }

  /** The reduction keeps the order of hashes. */
  lemma ReduceMonotone(x: nat, y: nat, n: nat)
    requires x <= y
    ensures Reduce(x, n) <= Reduce(y, n)
  {
    Multiples(x, y, n);
    QuotientRises(x * n, y * n);
  }

  lemma QuotientRises(a: nat, b: nat)
    requires a <= b
    ensures a / 0x1_0000_0000 <= b / 0x1_0000_0000
  {
  }

  /** Up to 2^32 cells, every cell is hit by some 32-bit hash. */
  lemma ReduceOnto(r: nat, n: nat) returns (x: nat)
    requires r < n <= 0x1_0000_0000
    ensures x < 0x1_0000_0000 && Reduce(x, n) == r
  {
    var a := r * 0x1_0000_0000;
    x := (a + n - 1) / n;
    DivideAt(a + n - 1, n, x);
    DivideAt(x * n, 0x1_0000_0000, r);
    if x >= 0x1_0000_0000 {
      Multiples(0x1_0000_0000, x, n);
    }
  }
}
