/**
 * Bit-level vocabulary shared by the CRC model.  The CRC register is a 64-bit
 * unsigned word (the widest register type the engine supports); a CRC width
 * is a small number in 1..64, kept as a `bv8` so that shifts by it stay cheap.
 */
module Bits {
  /** All 64 bits set. */
  const AllOnes: bv64 := 0xffff_ffff_ffff_ffff

  /** Bit `i` of `v` (bit 0 is the least significant). */
  predicate Bit(v: bv64, i: bv8)
    requires i < 64
  {
    (v >> i) & 1 == 1
  }

  /** `x` has no bit set at or above position `width`. */
  predicate Fits(x: bv64, width: bv8)
    requires 1 <= width <= 64
  {
    width == 64 || x < (1 as bv64) << width
  }

  /** The low `width` bits of `x`. */
  function LowBits(x: bv64, width: bv8): (r: bv64)
    requires 1 <= width <= 64
    ensures Fits(r, width)
    ensures r <= x
  {
    if width == 64 then x else x & (((1 as bv64) << width) - 1)
  }

  /** Exclusive or, named so that proofs can reason about it as an opaque operation. */
  function Xor(a: bv64, b: bv64): bv64 {
    a ^ b
  }

  lemma XorShape(a: bv64, b: bv64)
    ensures Xor(a, b) == a ^ b
  {
  }

  /** Logical right shift, named so that proofs can refer to it without unfolding it. */
  function Shr(x: bv64, k: bv8): bv64
    requires k < 64
  {
    x >> k
  }

  lemma ShrShape(x: bv64, k: bv8)
    requires k < 64
    ensures Shr(x, k) == x >> k
  {
  }

  // Shifting right by k moves bit i + k down to bit i.  The statement is split
  // by ranges of k to keep each proof obligation small.

  lemma ShiftBitLow0(x: bv64, k: bv8, i: bv8)
    requires k < 8 && i < 64 && i + k < 64
    ensures Bit(x >> k, i) == Bit(x, i + k)
  {
  }

  lemma ShiftBitLow8(x: bv64, k: bv8, i: bv8)
    requires 8 <= k < 16 && i < 64 && i + k < 64
    ensures Bit(x >> k, i) == Bit(x, i + k)
  {
  }

  lemma ShiftBitLow16(x: bv64, k: bv8, i: bv8)
    requires 16 <= k < 24 && i < 64 && i + k < 64
    ensures Bit(x >> k, i) == Bit(x, i + k)
  {
  }

  lemma ShiftBitLow24(x: bv64, k: bv8, i: bv8)
    requires 24 <= k < 32 && i < 64 && i + k < 64
    ensures Bit(x >> k, i) == Bit(x, i + k)
  {
  }

  lemma ShiftBitLow32(x: bv64, k: bv8, i: bv8)
    requires 32 <= k < 40 && i < 64 && i + k < 64
    ensures Bit(x >> k, i) == Bit(x, i + k)
  {
  }

  lemma ShiftBitLow40(x: bv64, k: bv8, i: bv8)
    requires 40 <= k < 48 && i < 64 && i + k < 64
    ensures Bit(x >> k, i) == Bit(x, i + k)
  {
  }

  lemma ShiftBitLow48(x: bv64, k: bv8, i: bv8)
    requires 48 <= k < 56 && i < 64 && i + k < 64
    ensures Bit(x >> k, i) == Bit(x, i + k)
  {
  }

  lemma ShiftBitLow56(x: bv64, k: bv8, i: bv8)
    requires 56 <= k < 64 && i < 64 && i + k < 64
    ensures Bit(x >> k, i) == Bit(x, i + k)
  {
  }

  /** Bits shifted in from above are clear. */
  lemma ShiftBitHigh(x: bv64, k: bv8, i: bv8)
    requires k < 64 && i < 64 && 64 <= i + k
    ensures !Bit(x >> k, i)
  {
  }

  /** A right shift by k leaves at most 64 - k significant bits. */
  lemma ShrBound(x: bv64, k: bv8)
    requires 1 <= k < 64
    ensures Shr(x, k) < (1 as bv64) << (64 - k)
  {
  }

  /** Right shift by k moves bit i + k to bit i, and clears the top k bits. */
  lemma ShiftBit(x: bv64, k: bv8, i: bv8)
    requires k < 64 && i < 64
    ensures Bit(Shr(x, k), i) == (i + k < 64 && Bit(x, i + k))
  {
    hide *;
    ShrShape(x, k);
    if 64 <= i + k {
      ShiftBitHigh(x, k, i);
    } else if k < 8 {
      ShiftBitLow0(x, k, i);
    } else if k < 16 {
      ShiftBitLow8(x, k, i);
    } else if k < 24 {
      ShiftBitLow16(x, k, i);
    } else if k < 32 {
      ShiftBitLow24(x, k, i);
    } else if k < 40 {
      ShiftBitLow32(x, k, i);
    } else if k < 48 {
      ShiftBitLow40(x, k, i);
    } else if k < 56 {
      ShiftBitLow48(x, k, i);
    } else {
      ShiftBitLow56(x, k, i);
    }
  }

  // Bounds on register values, and the idempotence of LowBits.

  lemma XorFits(a: bv64, b: bv64, width: bv8)
    requires 1 <= width <= 64 && Fits(a, width) && Fits(b, width)
    ensures Fits(Xor(a, b), width)
  {
  }

  lemma FitsMono(a: bv64, narrow: bv8, wide: bv8)
    requires 1 <= narrow <= wide <= 64 && Fits(a, narrow)
    ensures Fits(a, wide)
  {
  }

  lemma ByteFitsIn(a: bv64, width: bv8)
    requires 8 <= width <= 64 && a < 256
    ensures Fits(a, width)
  {
  }

  lemma LowBitsIdem(v: bv64, width: bv8)
    requires 1 <= width <= 64
    ensures LowBits(LowBits(v, width), width) == LowBits(v, width)
  {
  }
}
