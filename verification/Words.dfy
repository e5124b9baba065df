/**
 Machine words: powers of two, the bitwise AND with a mask, and the signed 64-bit
 wrap-around of Java's `long`.

 Cursor values are mathematical integers.  `And` is defined bit by bit on the two's
 complement digits of its first operand (`/` and `%` by 2 are floor division here),
 and `Masked` is what the queue computes when it writes `x & m_mask`.
 */
module Words {

  const TWO_63: int := 0x8000_0000_0000_0000
  const TWO_64: int := 0x1_0000_0000_0000_0000

  function Pow2(k: nat): (p: int)
    ensures p >= 1
  {
    if k == 0 then 1 else 2 * Pow2(k - 1)
  }

  /** Bitwise AND of a two's complement integer with a non-negative mask. */
  function And(x: int, mask: nat): nat
    decreases mask
  {
    if mask == 0 then 0
    else 2 * And(x / 2, mask / 2) + (if x % 2 == 1 && mask % 2 == 1 then 1 else 0)
  }

  /** `x & m_mask`, where the capacity is 2^k and the mask is 2^k - 1. */
  function Masked(x: int, k: nat): nat {
    And(x, Pow2(k) - 1)
  }

  lemma HalfModulus(x: int, n: int)
    requires n >= 1
    ensures x % (2 * n) == 2 * ((x / 2) % n) + x % 2
  {
    var q, r := (x / 2) / n, (x / 2) % n;
    assert x == 2 * (q * n + r) + x % 2;
    assert 2 * (q * n) == q * (2 * n);
    UniqueRemainder(x, 2 * n, q, 2 * r + x % 2);
  }

  /** Division with remainder is unique. */
  lemma UniqueRemainder(x: int, n: int, q: int, r: int)
    requires n >= 1 && 0 <= r < n
    requires x == q * n + r
    ensures x % n == r
  {
    var q' := x / n;
    assert (q' - q) * n == r - x % n;
    MulBound(q' - q, n);
  }

  lemma MulBound(q: int, n: int)
    requires n >= 1
    ensures q >= 1 ==> q * n >= n
    ensures q <= -1 ==> q * n <= -n
    ensures q == 0 ==> q * n == 0
  {
  }

  /** Masking with 2^k - 1 is the remainder modulo 2^k, for negative operands too. */
  lemma {:induction false} MaskIsRemainder(x: int, k: nat)
    ensures Masked(x, k) == x % Pow2(k)
    decreases k
  {
    if k == 0 {
    } else {
      MaskIsRemainder(x / 2, k - 1);
      HalfModulus(x, Pow2(k - 1));
      assert (Pow2(k) - 1) / 2 == Pow2(k - 1) - 1;
    }
  }

  lemma MaskedRange(x: int, k: nat)
    ensures Masked(x, k) < Pow2(k)
  {
    MaskIsRemainder(x, k);
  }

  /** The masked test `(d & mask) == 0` on a distance in 1..N, the producer's "full" test. */
  lemma MaskedFull(d: int, k: nat)
    requires 1 <= d <= Pow2(k)
    ensures Masked(d, k) == 0 <==> d == Pow2(k)
  {
    MaskIsRemainder(d, k);
    if d == Pow2(k) {
      UniqueRemainder(d, Pow2(k), 1, 0);
    } else {
      UniqueRemainder(d, Pow2(k), 0, d);
    }
  }

  /** The masked test on a distance in -(N-1)..0, the consumer's "empty" test. */
  lemma MaskedEmpty(d: int, k: nat)
    requires -Pow2(k) < d <= 0
    ensures Masked(d, k) == 0 <==> d == 0
  {
    MaskIsRemainder(d, k);
    if d < 0 {
      UniqueRemainder(d, Pow2(k), -1, d + Pow2(k));
    }
  }

  /** A distance in 0..N-1 survives masking, the exactness of `size`. */
  lemma MaskedSmall(d: int, k: nat)
    requires 0 <= d < Pow2(k)
    ensures Masked(d, k) == d
  {
    MaskIsRemainder(d, k);
    UniqueRemainder(d, Pow2(k), 0, d);
  }

  /** Sequence numbers less than N apart select different slots. */
  lemma MaskedDistinct(a: int, b: int, k: nat)
    requires a != b && -Pow2(k) < a - b < Pow2(k)
    ensures Masked(a, k) != Masked(b, k)
  {
    MaskIsRemainder(a, k);
    MaskIsRemainder(b, k);
    DistinctRemainders(a, b, Pow2(k));
  }

  lemma DistinctRemainders(a: int, b: int, n: int)
    requires n >= 1 && a != b && -n < a - b < n
    ensures a % n != b % n
  {
    var p, q := a / n, b / n;
    assert a == p * n + a % n && b == q * n + b % n;
    if a % n == b % n {
      assert a - b == (p - q) * n;
      MulBound(p - q, n);
    }
  }

  /** Adding a multiple of the modulus keeps the remainder. */
  lemma AddMultiple(x: int, q: int, n: int)
    requires n >= 1
    ensures (x + q * n) % n == x % n
  {
    var p := x / n;
    assert (p + q) * n == p * n + q * n;
    UniqueRemainder(x + q * n, n, p + q, x % n);
  }

  /** The value a Java `long` holds after arithmetic produced x. */
  function Wrap64(x: int): (w: int)
    ensures -TWO_63 <= w < TWO_63
  {
    (x + TWO_63) % TWO_64 - TWO_63
  }

  lemma Pow2Divides(k: nat, n: nat)
    requires k <= n
    ensures Pow2(n) == Pow2(n - k) * Pow2(k)
    decreases n - k
  {
    if k < n {
      Pow2Divides(k + 1, n);
      assert Pow2(n) == Pow2(n - k - 1) * (2 * Pow2(k));
      assert Pow2(n - k) == 2 * Pow2(n - k - 1);
    }
  }

  lemma Pow2Of64()
    ensures Pow2(64) == TWO_64
  {
    assert Pow2(8) == 256;
    Pow2Divides(8, 16);
    Pow2Divides(16, 32);
    Pow2Divides(32, 64);
  }

  /** Wrapping changes a value by a multiple of 2^64, so it commutes with itself. */
  lemma WrapAbsorbs(x: int, d: int)
    ensures Wrap64(Wrap64(x) + d) == Wrap64(x + d)
  {
    var q := (x + TWO_63) / TWO_64;
    assert Wrap64(x) == x - q * TWO_64;
    var y := x + d + TWO_63;
    UniqueRemainder(y - q * TWO_64, TWO_64, y / TWO_64 - q, y % TWO_64);
  }

  /** A difference of wrapped cursors is the wrapped difference. */
  lemma WrapDifference(x: int, y: int, d: int)
    ensures Wrap64(Wrap64(x) + d - Wrap64(y)) == Wrap64(x + d - y)
  {
    WrapAbsorbs(x, d - Wrap64(y));
    var q := (y + TWO_63) / TWO_64;
    assert Wrap64(y) == y - q * TWO_64;
    var z := x + d - y + TWO_63;
    UniqueRemainder(z + q * TWO_64, TWO_64, z / TWO_64 + q, z % TWO_64);
  }

  /** A power-of-two mask of at most 64 bits cannot see the wrap. */
  lemma MaskedWrap(x: int, k: nat)
    requires k <= 64
    ensures Masked(Wrap64(x), k) == Masked(x, k)
  {
    MaskIsRemainder(x, k);
    MaskIsRemainder(Wrap64(x), k);
    Pow2Divides(k, 64);
    Pow2Of64();
    var q := (x + TWO_63) / TWO_64;
    assert Wrap64(x) == x - q * TWO_64;
    MulAssociates(-q, Pow2(64 - k), Pow2(k));
    AddMultiple(x, -q * Pow2(64 - k), Pow2(k));
  }

  lemma MulAssociates(q: int, m: int, n: int)
    ensures q * (m * n) == (q * m) * n
  {
  }
}
