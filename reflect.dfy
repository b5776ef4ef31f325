/**
 * Bit reflection: reversing the order of the low `width` bits of a word, as the
 * engine does for reflected (least-significant-bit-first) CRC variants.  Each
 * sized variant first reverses a whole 8-, 16-, 32- or 64-bit lane with a
 * network of masked swaps, then shifts the reversed lane down so that only
 * `width` bits remain.
 */
module Reflection {
  import opened Bits

  /** Reverses the low 8 bits of `value` and clears every higher bit. */
  function Swap8(value: bv64): bv64 {
    var v1 := ((value & 0x55) << 1) | ((value & 0xaa) >> 1);
    var v2 := ((v1 & 0x33) << 2) | ((v1 & 0xcc) >> 2);
    var v3 := (v2 << 4) | (v2 >> 4);
    v3 & 0xff
  }

  function Reflect8(width: bv8, value: bv64): bv64
    requires 1 <= width <= 8
  {
    Swap8(value) >> (8 - width)
  }

  /** Reverses the low 16 bits of `value`. */
  function Swap16(value: bv64): bv64 {
    var v1 := ((value & 0x5555) << 1) | ((value & 0xaaaa) >> 1);
    var v2 := ((v1 & 0x3333) << 2) | ((v1 & 0xcccc) >> 2);
    var v3 := ((v2 & 0x0f0f) << 4) | ((v2 & 0xf0f0) >> 4);
    var v4 := (v3 << 8) | (v3 >> 8);
    v4 & 0xffff
  }

  function Reflect16(width: bv8, value: bv64): bv64
    requires 1 <= width <= 16
  {
    Swap16(value) >> (16 - width)
  }

  /** Reverses the low 32 bits of `value`. */
  function Swap32(value: bv64): bv64 {
    var v1 := ((value & 0x5555_5555) << 1) | ((value & 0xaaaa_aaaa) >> 1);
    var v2 := ((v1 & 0x3333_3333) << 2) | ((v1 & 0xcccc_cccc) >> 2);
    var v3 := ((v2 & 0x0f0f_0f0f) << 4) | ((v2 & 0xf0f0_f0f0) >> 4);
    var v4 := ((v3 & 0x00ff_00ff) << 8) | ((v3 & 0xff00_ff00) >> 8);
    var v5 := (v4 << 16) | (v4 >> 16);
    v5 & 0xffff_ffff
  }

  function Reflect32(width: bv8, value: bv64): bv64
    requires 1 <= width <= 32
  {
    Swap32(value) >> (32 - width)
  }

  /** Reverses all 64 bits of `value`. */
  function Swap64(value: bv64): bv64 {
    var v1 := ((value & 0x5555_5555_5555_5555) << 1) | ((value & 0xaaaa_aaaa_aaaa_aaaa) >> 1);
    var v2 := ((v1 & 0x3333_3333_3333_3333) << 2) | ((v1 & 0xcccc_cccc_cccc_cccc) >> 2);
    var v3 := ((v2 & 0x0f0f_0f0f_0f0f_0f0f) << 4) | ((v2 & 0xf0f0_f0f0_f0f0_f0f0) >> 4);
    var v4 := ((v3 & 0x00ff_00ff_00ff_00ff) << 8) | ((v3 & 0xff00_ff00_ff00_ff00) >> 8);
    var v5 := ((v4 & 0x0000_ffff_0000_ffff) << 16) | ((v4 & 0xffff_0000_ffff_0000) >> 16);
    var v6 := (v5 << 32) | (v5 >> 32);
    v6 & AllOnes
  }

  function Reflect64(width: bv8, value: bv64): bv64
    requires 1 <= width <= 64
  {
    Swap64(value) >> (64 - width)
  }

  /** The low `width` bits of `value`, in reverse order; the narrowest lane that holds `width` bits is used. */
  function Reflect(width: bv8, value: bv64): bv64
    requires 1 <= width <= 64
  {
    if width > 32 then Reflect64(width, value)
    else if width > 16 then Reflect32(width, value)
    else if width > 8 then Reflect16(width, value)
    else Reflect8(width, value)
  }

  // Each swap network reverses its lane and clears everything above it.

  lemma Swap8Bit(v: bv64, i: bv8)
    requires i < 64
    ensures Bit(Swap8(v), i) == (i < 8 && Bit(v, 7 - i))
  {
  }

  lemma Swap16Bit(v: bv64, i: bv8)
    requires i < 64
    ensures Bit(Swap16(v), i) == (i < 16 && Bit(v, 15 - i))
  {
  }

  lemma Swap32Bit(v: bv64, i: bv8)
    requires i < 64
    ensures Bit(Swap32(v), i) == (i < 32 && Bit(v, 31 - i))
  {
  }

  lemma Swap64Bit(v: bv64, i: bv8)
    requires i < 64
    ensures Bit(Swap64(v), i) == Bit(v, 63 - i)
  {
  }

  // Index arithmetic for an n-bit lane: lane bit `j = i + (n - width)` is input bit `width - 1 - i`.

  lemma LaneIndex8(width: bv8, v: bv64, i: bv8, j: bv8, r: bv64, lane: bv64)
    requires 1 <= width <= 8 && i < 64 && j == i + (8 - width)
    requires Bit(r, i) == (j < 64 && Bit(lane, j))
    requires j < 64 ==> Bit(lane, j) == (j < 8 && Bit(v, 7 - j))
    ensures Bit(r, i) == (i < width && Bit(v, width - 1 - i))
  {
    hide *;
    if i < width {
      assert 7 - j == width - 1 - i;
    }
  }

  lemma LaneIndex16(width: bv8, v: bv64, i: bv8, j: bv8, r: bv64, lane: bv64)
    requires 1 <= width <= 16 && i < 64 && j == i + (16 - width)
    requires Bit(r, i) == (j < 64 && Bit(lane, j))
    requires j < 64 ==> Bit(lane, j) == (j < 16 && Bit(v, 15 - j))
    ensures Bit(r, i) == (i < width && Bit(v, width - 1 - i))
  {
    hide *;
    if i < width {
      assert 15 - j == width - 1 - i;
    }
  }

  lemma LaneIndex32(width: bv8, v: bv64, i: bv8, j: bv8, r: bv64, lane: bv64)
    requires 1 <= width <= 32 && i < 64 && j == i + (32 - width)
    requires Bit(r, i) == (j < 64 && Bit(lane, j))
    requires j < 64 ==> Bit(lane, j) == (j < 32 && Bit(v, 31 - j))
    ensures Bit(r, i) == (i < width && Bit(v, width - 1 - i))
  {
    hide *;
    if i < width {
      assert 31 - j == width - 1 - i;
    }
  }

  lemma LaneIndex64(width: bv8, v: bv64, i: bv8, j: bv8, r: bv64, lane: bv64)
    requires 1 <= width <= 64 && i < 64 && j == i + (64 - width)
    requires Bit(r, i) == (j < 64 && Bit(lane, j))
    requires j < 64 ==> Bit(lane, j) == (j < 64 && Bit(v, 63 - j))
    ensures Bit(r, i) == (i < width && Bit(v, width - 1 - i))
  {
    hide *;
    if i < width {
      assert 63 - j == width - 1 - i;
    }
  }

  lemma Reflect8Shape(width: bv8, v: bv64)
    requires 1 <= width <= 8
    ensures Reflect8(width, v) == Shr(Swap8(v), 8 - width)
  {
  }

  /** The sized variant puts input bit `width - 1 - i` at bit `i`, for every `i < width`, and leaves the rest clear. */
  lemma Reflect8Bit(width: bv8, v: bv64, i: bv8)
    requires 1 <= width <= 8 && i < 64
    ensures Bit(Reflect8(width, v), i) == (i < width && Bit(v, width - 1 - i))
  {
    hide *;
    Reflect8Shape(width, v);
    ShiftBit(Swap8(v), 8 - width, i);
    if i + (8 - width) < 64 {
      Swap8Bit(v, i + (8 - width));
    }
    LaneIndex8(width, v, i, i + (8 - width), Reflect8(width, v), Swap8(v));
  }

  lemma Reflect16Shape(width: bv8, v: bv64)
    requires 1 <= width <= 16
    ensures Reflect16(width, v) == Shr(Swap16(v), 16 - width)
  {
  }

  /** The sized variant puts input bit `width - 1 - i` at bit `i`, for every `i < width`, and leaves the rest clear. */
  lemma Reflect16Bit(width: bv8, v: bv64, i: bv8)
    requires 1 <= width <= 16 && i < 64
    ensures Bit(Reflect16(width, v), i) == (i < width && Bit(v, width - 1 - i))
  {
    hide *;
    Reflect16Shape(width, v);
    ShiftBit(Swap16(v), 16 - width, i);
    if i + (16 - width) < 64 {
      Swap16Bit(v, i + (16 - width));
    }
    LaneIndex16(width, v, i, i + (16 - width), Reflect16(width, v), Swap16(v));
  }

  lemma Reflect32Shape(width: bv8, v: bv64)
    requires 1 <= width <= 32
    ensures Reflect32(width, v) == Shr(Swap32(v), 32 - width)
  {
  }

  /** The sized variant puts input bit `width - 1 - i` at bit `i`, for every `i < width`, and leaves the rest clear. */
  lemma Reflect32Bit(width: bv8, v: bv64, i: bv8)
    requires 1 <= width <= 32 && i < 64
    ensures Bit(Reflect32(width, v), i) == (i < width && Bit(v, width - 1 - i))
  {
    hide *;
    Reflect32Shape(width, v);
    ShiftBit(Swap32(v), 32 - width, i);
    if i + (32 - width) < 64 {
      Swap32Bit(v, i + (32 - width));
    }
    LaneIndex32(width, v, i, i + (32 - width), Reflect32(width, v), Swap32(v));
  }

  lemma Reflect64Shape(width: bv8, v: bv64)
    requires 1 <= width <= 64
    ensures Reflect64(width, v) == Shr(Swap64(v), 64 - width)
  {
  }

  /** The sized variant puts input bit `width - 1 - i` at bit `i`, for every `i < width`, and leaves the rest clear. */
  lemma Reflect64Bit(width: bv8, v: bv64, i: bv8)
    requires 1 <= width <= 64 && i < 64
    ensures Bit(Reflect64(width, v), i) == (i < width && Bit(v, width - 1 - i))
  {
    hide *;
    Reflect64Shape(width, v);
    ShiftBit(Swap64(v), 64 - width, i);
    if i + (64 - width) < 64 {
      Swap64Bit(v, i + (64 - width));
    }
    LaneIndex64(width, v, i, i + (64 - width), Reflect64(width, v), Swap64(v));
  }

  /** Reflection reverses the low `width` bits of `value` and clears every bit above them. */
  lemma ReflectBit(width: bv8, value: bv64, i: bv8)
    requires 1 <= width <= 64 && i < 64
    ensures Bit(Reflect(width, value), i) == (i < width && Bit(value, width - 1 - i))
  {
    if width > 32 {
      Reflect64Bit(width, value, i);
    } else if width > 16 {
      Reflect32Bit(width, value, i);
    } else if width > 8 {
      Reflect16Bit(width, value, i);
    } else {
      Reflect8Bit(width, value, i);
    }
  }

  lemma Reflect8Fits(width: bv8, v: bv64)
    requires 1 <= width <= 8
    ensures Fits(Reflect8(width, v), width)
  {
  }

  lemma Reflect16Fits(width: bv8, v: bv64)
    requires 1 <= width <= 16
    ensures Fits(Reflect16(width, v), width)
  {
  }

  lemma Reflect32Fits(width: bv8, v: bv64)
    requires 1 <= width <= 32
    ensures Fits(Reflect32(width, v), width)
  {
  }

  lemma Reflect64Fits(width: bv8, v: bv64)
    requires 1 <= width <= 64
    ensures Fits(Reflect64(width, v), width)
  {
    hide Reflect64, Swap64, Shr;
    if width < 64 {
      Reflect64Shape(width, v);
      ShrBound(Swap64(v), 64 - width);
      assert 64 - (64 - width) == width;
    }
  }

  /** A reflected value never has a bit set at or above `width`. */
  lemma ReflectFits(width: bv8, value: bv64)
    requires 1 <= width <= 64
    ensures Fits(Reflect(width, value), width)
  {
    if width > 32 {
      Reflect64Fits(width, value);
    } else if width > 16 {
      Reflect32Fits(width, value);
    } else if width > 8 {
      Reflect16Fits(width, value);
    } else {
      Reflect8Fits(width, value);
    }
  }
}
