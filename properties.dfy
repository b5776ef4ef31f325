/**
 * Properties of the engine's building blocks: the mask, parameter set-up,
 * the bounds the registers keep, the table entries, and the CRC of an empty
 * message.
 */
module Properties {
  import opened Bits
  import opened Reflection
  import opened Engine
  import opened Table
  import opened RightAgreement
  import opened Agreement

  lemma MaskByte(width: bv8, reflected: bool, value: bv64)
    requires 1 <= width <= 64 && ByteMode(width, reflected)
    ensures Mask(width, reflected, value) == LowBits(value, 8)
  {
  }

  lemma MaskWide(width: bv8, reflected: bool, value: bv64)
    requires 1 <= width <= 64 && !ByteMode(width, reflected)
    ensures Mask(width, reflected, value) == LowBits(value, width)
  {
  }

  /**
   * The mask keeps the low `MaskWidth` bits: a whole byte for non-reflected
   * CRCs of at most 8 bits, `width` bits otherwise; a 64-bit CRC is unchanged.
   */
  lemma MaskLow(width: bv8, reflected: bool, value: bv64)
    requires 1 <= width <= 64
    ensures Mask(width, reflected, value) == LowBits(value, MaskWidth(width, reflected))
    ensures width == 64 ==> Mask(width, reflected, value) == value
    ensures Fits(Mask(width, reflected, value), MaskWidth(width, reflected))
  {
    hide Mask, LowBits;
    if ByteMode(width, reflected) {
      MaskByte(width, reflected, value);
      assert MaskWidth(width, reflected) == 8;
    } else {
      MaskWide(width, reflected, value);
      assert MaskWidth(width, reflected) == width;
      if width == 64 {
        LowBitsAll(value);
      }
    }
  }

  lemma LowBitsAll(value: bv64)
    ensures LowBits(value, 64) == value
  {
  }

  /** The initial value and the polynomial are brought into the register convention by the same rule. */
  lemma SetupSame(width: bv8, reflected: bool, value: bv64)
    requires 1 <= width <= 64
    ensures SetupState(width, reflected, value) == SetupPoly(width, reflected, value)
  {
  }

  /** In byte mode a set-up value that fits the width is below 256, hence a valid table index. */
  lemma SetupByteBound(width: bv8, value: bv64)
    requires 1 <= width <= 8 && Fits(value, width)
    ensures SetupState(width, false, value) < 256
  {
  }

  /** In the reflected convention every set-up value fits the width. */
  lemma SetupReflectedFits(width: bv8, value: bv64)
    requires 1 <= width <= 64
    ensures Fits(SetupState(width, true, value), width)
  {
    ReflectFits(width, value);
  }

  lemma NarrowSetupBack(width: bv8, iv: bv64)
    requires 1 <= width < 8
    ensures ((iv << (8 - width)) & 0xff) >> (8 - width) == LowBits(iv, width)
  {
    if width == 1 {
    } else if width == 2 {
    } else if width == 3 {
    } else if width == 4 {
    } else if width == 5 {
    } else if width == 6 {
    } else {
    }
  }

  /** Finalizing a freshly set-up register gives back the initial value in the output convention. */
  lemma SetupFinalize(width: bv8, reflected: bool, iv: bv64)
    requires 1 <= width <= 64
    ensures Finalize(width, reflected, SetupState(width, reflected, iv))
         == if reflected then Reflect(width, iv) else LowBits(iv, width)
  {
    if reflected {
    } else if width < 8 {
      NarrowSetupBack(width, iv);
    } else {
      MaskLow(width, reflected, iv);
    }
  }

  /**
   * A reflected register that fits the width still fits it after a data
   * byte, provided the set-up polynomial fits: the bits the byte brings in
   * above the width are shifted out by the eight steps.
   */
  lemma ReflectedUpdateFits(width: bv8, poly: bv64, state: bv64, data: bv8)
    requires 1 <= width <= 64 && Fits(state, width) && Fits(poly, width)
    ensures Fits(UpdateSpec(width, true, poly, state, data), width)
  {
    hide *;
    var m: bv8 := if width < 8 then 8 else width;
    assert 8 <= m && width <= m && m as int - 8 <= width as int;
    FitsMono(state, width, m);
    ByteFitsIn(data as bv64, m);
    XorFits(state, data as bv64, m);
    XorShape(state, data as bv64);
    RightUpdateShape(width, poly, state, data);
    RightStepsFits(8, poly, state ^ (data as bv64), width, m);
  }

  /** A reflected register fits the width after any message. */
  lemma {:induction false} ReflectedProcessFits(width: bv8, poly: bv64, state: bv64, data: seq<bv8>)
    requires 1 <= width <= 64 && Fits(state, width) && Fits(poly, width)
    ensures Fits(Process(width, true, poly, state, data), width)
  {
    if |data| > 0 {
      ReflectedProcessFits(width, poly, state, data[..|data| - 1]);
      ReflectedUpdateFits(width, poly, Process(width, true, poly, state, data[..|data| - 1]), data[|data| - 1]);
    }
  }

  lemma CrcSpecShape(width: bv8, reflected: bool, poly: bv64, iv: bv64, xorout: bv64, data: seq<bv8>)
    requires 1 <= width <= 64
    ensures CrcSpec(width, reflected, poly, iv, xorout, data)
         == Finalize(width, reflected, Process(width, reflected, SetupPoly(width, reflected, poly), SetupState(width, reflected, iv), data)) ^ xorout
  {
    hide Finalize;
  }

  /**
   * In the reflected convention the final register needs no mask: the CRC
   * equals the masked register with the output xor applied.
   */
  lemma ReflectedResultUnmasked(width: bv8, poly: bv64, iv: bv64, xorout: bv64, data: seq<bv8>)
    requires 1 <= width <= 64
    ensures CrcSpec(width, true, poly, iv, xorout, data)
         == Mask(width, true, Process(width, true, SetupPoly(width, true, poly), SetupState(width, true, iv), data)) ^ xorout
  {
    hide *;
    var p := SetupPoly(width, true, poly);
    var x := Process(width, true, p, SetupState(width, true, iv), data);
    SetupReflectedFits(width, poly);
    SetupSame(width, true, poly);
    SetupReflectedFits(width, iv);
    ReflectedProcessFits(width, p, SetupState(width, true, iv), data);
    MaskFits(width, x);
    FinalizeReflected(width, x);
    CrcSpecShape(width, true, poly, iv, xorout, data);
  }

  lemma FinalizeReflected(width: bv8, x: bv64)
    requires 1 <= width <= 64
    ensures Finalize(width, true, x) == x
  {
  }

  /** Every table entry fits the mask width: below 256 in byte mode, below 2^width otherwise. */
  lemma EntryFits(width: bv8, reflected: bool, poly: bv64, i: bv8)
    requires 1 <= width <= 64
    ensures Fits(Entry(width, reflected, poly, i), MaskWidth(width, reflected))
    ensures ByteMode(width, reflected) ==> Entry(width, reflected, poly, i) < 256
  {
    MaskLow(width, reflected, UpdateSpec(width, reflected, SetupPoly(width, reflected, poly), 0, i));
  }

  /** The CRC of the empty message is the initial value in the output convention, xored with `xorout`. */
  lemma EmptyCrc(width: bv8, reflected: bool, poly: bv64, iv: bv64, xorout: bv64)
    requires 1 <= width <= 64
    ensures CrcSpec(width, reflected, poly, iv, xorout, [])
         == (if reflected then Reflect(width, iv) else LowBits(iv, width)) ^ xorout
  {
    hide *;
    var v := if reflected then Reflect(width, iv) else LowBits(iv, width);
    SetupFinalize(width, reflected, iv);
    ProcessEmpty(width, reflected, SetupPoly(width, reflected, poly), SetupState(width, reflected, iv));
    CrcSpecShape(width, reflected, poly, iv, xorout, []);
  }

  lemma ProcessEmpty(width: bv8, reflected: bool, poly: bv64, state: bv64)
    requires 1 <= width <= 64
    ensures Process(width, reflected, poly, state, []) == state
  {
  }

  /** The table-driven CRC of the empty message is the same value. */
  lemma EmptyTableCrc(width: bv8, reflected: bool, poly: bv64, iv: bv64, xorout: bv64)
    requires 1 <= width <= 64 && Indexable(width, reflected, SetupState(width, reflected, iv))
    ensures ByteTable(width, reflected, TableSpec(width, reflected, poly))
    ensures TableCrcSpec(width, reflected, TableSpec(width, reflected, poly), iv, xorout, [])
         == (if reflected then Reflect(width, iv) else LowBits(iv, width)) ^ xorout
  {
    TableCrcAgrees(width, reflected, poly, iv, xorout, []);
    EmptyCrc(width, reflected, poly, iv, xorout);
  }

  /**
   * The table-driven CRC equals the bit-at-a-time CRC whenever, in byte mode,
   * the initial value fits the width.
   */
  lemma TableCrcMatches(width: bv8, reflected: bool, poly: bv64, iv: bv64, xorout: bv64, data: seq<bv8>)
    requires 1 <= width <= 64 && (ByteMode(width, reflected) ==> Fits(iv, width))
    ensures Indexable(width, reflected, SetupState(width, reflected, iv))
    ensures ByteTable(width, reflected, TableSpec(width, reflected, poly))
    ensures TableCrcSpec(width, reflected, TableSpec(width, reflected, poly), iv, xorout, data)
         == CrcSpec(width, reflected, poly, iv, xorout, data)
  {
    if ByteMode(width, reflected) {
      SetupByteBound(width, iv);
    }
    TableCrcAgrees(width, reflected, poly, iv, xorout, data);
  }
}
