/**
 * Binary arithmetic on leaf counts and leaf indices: powers of two, shifts, single bits, and the two
 * machine instructions the decomposition relies on (trailing zeros and the position of the top bit).
 * Shifts recurse on halving, so that every fact below is linear for the solver.
 */
module Bits {

  /** Exclusive upper bound of an unsigned 64-bit integer. */
  const U64_LIMIT: nat := 0x1_0000_0000_0000_0000

  /** A machine word: leaf counts, leaf indices, timestamps and periods are all of this type. */
  type U64 = n: nat | n < U64_LIMIT

  /** What an unchecked 64-bit sum or product keeps. */
  function Wrap64(n: nat): U64 {
    n % U64_LIMIT
  }

  function Pow2(h: nat): (r: nat)
    ensures r > 0
  {
    if h == 0 then 1 else 2 * Pow2(h - 1)
  }

  /** `n >> h`. */
  function Shr(n: nat, h: nat): nat
  {
    if h == 0 then n else Shr(n / 2, h - 1)
  }

  /** `x << h`. */
  function Shl(x: nat, h: nat): nat
  {
    if h == 0 then x else 2 * Shl(x, h - 1)
  }

  /** `(n >> h) & 1 == 1`. */
  predicate Bit(n: nat, h: nat)
  {
    Shr(n, h) % 2 == 1
  }

  /** `n % 2^h == 0`, by halving. */
  predicate Aligned(n: nat, h: nat)
  {
    h == 0 || (n % 2 == 0 && Aligned(n / 2, h - 1))
  }

  /** `63 - leading_zeros(m)`: the position of the top set bit. */
  function FloorLog2(m: nat): (r: nat)
    requires m > 0
    ensures Pow2(r) <= m < Pow2(r + 1)
  {
    if m == 1 then 0 else FloorLog2(m / 2) + 1
  }

  /** `trailing_zeros(n)`: the largest alignment of a nonzero index. */
  function TrailingZeros(n: nat): (r: nat)
    requires n > 0
    ensures Aligned(n, r) && !Aligned(n, r + 1)
  {
    if n % 2 == 1 then 0 else TrailingZeros(n / 2) + 1
  }

  lemma {:induction false} Pow2Mono(a: nat, b: nat)
    requires a <= b
    ensures Pow2(a) <= Pow2(b)
    ensures a < b ==> 2 * Pow2(a) <= Pow2(b)
  {
    if a < b { Pow2Mono(a, b - 1); }
  }

  /** Top bits order the same way as the numbers. */
  lemma LogMono(a: nat, b: nat)
    requires 0 < a <= b
    ensures FloorLog2(a) <= FloorLog2(b)
  {
    if FloorLog2(a) > FloorLog2(b) {
      Pow2Mono(FloorLog2(b) + 1, FloorLog2(a));
    }
  }

  lemma LogUnique(n: nat, h: nat)
    requires Pow2(h) <= n < Pow2(h + 1)
    ensures FloorLog2(n) == h
  {
    if FloorLog2(n) < h { Pow2Mono(FloorLog2(n) + 1, h); }
    if FloorLog2(n) > h { Pow2Mono(h + 1, FloorLog2(n)); }
  }

  lemma {:induction false} Pow2Values()
    ensures Pow2(10) == 1024 && Pow2(12) == 4096 && Pow2(16) == 0x1_0000
    ensures Pow2(32) == 0x1_0000_0000 && Pow2(63) == 0x8000_0000_0000_0000
    ensures Pow2(64) == U64_LIMIT
  {
    assert Pow2(8) == 256;
    assert Pow2(16) == 0x1_0000;
    assert Pow2(24) == 0x100_0000;
    assert Pow2(32) == 0x1_0000_0000;
    assert Pow2(40) == 0x100_0000_0000;
    assert Pow2(48) == 0x1_0000_0000_0000;
    assert Pow2(56) == 0x100_0000_0000_0000;
    assert Pow2(64) == U64_LIMIT;
  }

  /** The top bit of a machine word is below 64. */
  lemma LogBelow64(n: nat)
    requires 0 < n < U64_LIMIT
    ensures FloorLog2(n) < 64
  {
    Pow2Values();
    if FloorLog2(n) >= 64 { Pow2Mono(64, FloorLog2(n)); }
  }

  lemma {:induction false} ShrSmall(n: nat, h: nat)
    requires n < Pow2(h)
    ensures Shr(n, h) == 0
  {
    if h > 0 { ShrSmall(n / 2, h - 1); }
  }

  lemma {:induction false} ShrStep(n: nat, h: nat)
    ensures Shr(n, h + 1) == Shr(n, h) / 2
  {
    if h > 0 { ShrStep(n / 2, h - 1); }
  }

  /** A number below `2^h` has no bit at or above `h`. */
  lemma {:induction false} NoHighBit(n: nat, h: nat, k: nat)
    requires n < Pow2(h) && h <= k
    ensures !Bit(n, k)
  {
    Pow2Mono(h, k);
    ShrSmall(n, k);
  }

  lemma {:induction false} BitLower(n: nat, h: nat)
    requires Bit(n, h)
    ensures Pow2(h) <= n
  {
    if n < Pow2(h) { NoHighBit(n, h, h); }
  }

  /** Adding `2^h` to a number whose bit `h` is clear sets that bit and touches no other. */
  lemma {:induction false} SetBit(n: nat, h: nat, k: nat)
    requires !Bit(n, h)
    ensures Bit(n + Pow2(h), k) <==> k == h || Bit(n, k)
  {
    if h == 0 {
      if k > 0 { assert (n + 1) / 2 == n / 2; }
    } else {
      assert (n + Pow2(h)) / 2 == n / 2 + Pow2(h - 1);
      assert (n + Pow2(h)) % 2 == n % 2;
      if k > 0 { SetBit(n / 2, h - 1, k - 1); }
    }
  }

  /** Removing a set bit `h` clears that bit and touches no other. */
  lemma {:induction false} ClearBit(n: nat, h: nat, k: nat)
    requires Bit(n, h)
    ensures n >= Pow2(h)
    ensures Bit(n - Pow2(h), k) <==> k != h && Bit(n, k)
  {
    BitLower(n, h);
    if h == 0 {
      if k > 0 { assert (n - 1) / 2 == n / 2; }
    } else {
      BitLower(n / 2, h - 1);
      assert (n - Pow2(h)) / 2 == n / 2 - Pow2(h - 1);
      assert (n - Pow2(h)) % 2 == n % 2;
      if k > 0 { ClearBit(n / 2, h - 1, k - 1); }
    }
  }

  lemma {:induction false} TopBit(n: nat)
    requires n > 0
    ensures Bit(n, FloorLog2(n))
  {
    var h := FloorLog2(n);
    if n > 1 { TopBit(n / 2); }
  }

  lemma {:induction false} AlignedDown(n: nat, h: nat, g: nat)
    requires Aligned(n, h) && g <= h
    ensures Aligned(n, g)
  {
    if g > 0 { AlignedDown(n / 2, h - 1, g - 1); }
  }

  /** An aligned number has no low bits. */
  lemma {:induction false} AlignedNoBit(n: nat, h: nat, k: nat)
    requires Aligned(n, h) && k < h
    ensures !Bit(n, k)
  {
    if k > 0 { AlignedNoBit(n / 2, h - 1, k - 1); }
  }

  /** Sums and differences of aligned numbers are aligned. */
  lemma {:induction false} AlignedAdd(a: nat, b: nat, h: nat)
    requires Aligned(a, h)
    ensures Aligned(b, h) <==> Aligned(a + b, h)
  {
    if h > 0 {
      if b % 2 == 0 { assert (a + b) / 2 == a / 2 + b / 2; }
      AlignedAdd(a / 2, b / 2, h - 1);
    }
  }

  lemma {:induction false} AlignedPow2(g: nat, h: nat)
    requires h <= g
    ensures Aligned(Pow2(g), h)
  {
    if h > 0 { AlignedPow2(g - 1, h - 1); }
  }

  /** A positive aligned number is at least one whole block. */
  lemma {:induction false} AlignedLower(n: nat, h: nat)
    requires Aligned(n, h) && n > 0
    ensures n >= Pow2(h)
  {
    if h > 0 { AlignedLower(n / 2, h - 1); }
  }

  lemma {:induction false} AlignedZero(h: nat)
    ensures Aligned(0, h)
  {
    if h > 0 { AlignedZero(h - 1); }
  }

  // ---- Products and quotients ----

  lemma MulMono(x: nat, y: nat, d: nat)
    requires x <= y
    ensures x * d <= y * d
  {
  }

  lemma DivExact(x: nat, d: nat)
    requires d > 0
    ensures x / d * d <= x < (x / d + 1) * d
  {
  }

  lemma DivUnique(x: nat, d: nat, q: nat, r: nat)
    requires x == q * d + r && r < d
    ensures x / d == q
  {
    DivExact(x, d);
    assert (q + 1) * d == q * d + d;
  }
}
