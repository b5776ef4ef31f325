/**
 * The table-driven CRC equals the bit-at-a-time CRC: the table register
 * tracks the bitwise register byte by byte, and the result step maps both to
 * the same CRC value.
 */
module Agreement {
  import opened Bits
  import opened Engine
  import opened Table
  import opened RightAgreement
  import opened ByteAgreement
  import opened WideAgreement

  /** How the table register relates to the bitwise register in each convention. */
  predicate Agree(width: bv8, reflected: bool, x: bv64, t: bv64)
    requires 1 <= width <= 64
  {
    if reflected then t == x
    else if width <= 8 then t == LowBits(x, 8)
    else LowBits(t, width) == LowBits(x, width)
  }

  lemma AgreeIndexable(width: bv8, reflected: bool, x: bv64, t: bv64)
    requires 1 <= width <= 64 && Agree(width, reflected, x, t)
    ensures Indexable(width, reflected, t)
  {
  }

  /** One table lookup keeps the table register in step with one bitwise update. */
  lemma AgreeStep(width: bv8, reflected: bool, poly: bv64, x: bv64, t: bv64, data: bv8)
    requires 1 <= width <= 64 && Agree(width, reflected, x, t)
    ensures Indexable(width, reflected, t)
    ensures Agree(width, reflected,
                  UpdateSpec(width, reflected, SetupPoly(width, reflected, poly), x, data),
                  TableUpdate(width, reflected, TableSpec(width, reflected, poly), t, data))
  {
    AgreeIndexable(width, reflected, x, t);
    if reflected {
      RightTableStep(width, poly, t, data);
    } else if width <= 8 {
      ByteTableStep(width, poly, t, x, data);
    } else {
      WideTableStep(width, poly, t, x, data);
    }
  }

  /** Every entry of the table is masked, so in byte mode it is below 256. */
  lemma TableSpecByteTable(width: bv8, reflected: bool, poly: bv64)
    requires 1 <= width <= 64
    ensures ByteTable(width, reflected, TableSpec(width, reflected, poly))
  {
    if ByteMode(width, reflected) {
      var table := TableSpec(width, reflected, poly);
      forall i | 0 <= i < |table|
        ensures table[i] < 256
      {
        TableSpecAt(width, reflected, poly, i);
        ByteMask(width, UpdateSpec(width, reflected, SetupPoly(width, reflected, poly), 0, i as bv8));
      }
    }
  }

  /** The registers stay in step over a whole message. */
  lemma {:induction false} AgreeProcess(width: bv8, reflected: bool, poly: bv64, x: bv64, t: bv64, data: seq<bv8>)
    requires 1 <= width <= 64 && Agree(width, reflected, x, t)
    ensures ByteTable(width, reflected, TableSpec(width, reflected, poly)) && Indexable(width, reflected, t)
    ensures Agree(width, reflected,
                  Process(width, reflected, SetupPoly(width, reflected, poly), x, data),
                  TableProcess(width, reflected, TableSpec(width, reflected, poly), t, data))
  {
    TableSpecByteTable(width, reflected, poly);
    AgreeIndexable(width, reflected, x, t);
    if |data| > 0 {
      var front := data[..|data| - 1];
      AgreeProcess(width, reflected, poly, x, t, front);
      AgreeStep(width, reflected, poly,
                Process(width, reflected, SetupPoly(width, reflected, poly), x, front),
                TableProcess(width, reflected, TableSpec(width, reflected, poly), t, front),
                data[|data| - 1]);
    }
  }

  lemma NarrowFinalize(width: bv8, x: bv64)
    requires 1 <= width < 8
    ensures Finalize(width, false, x) == Shr(LowBits(x, 8), 8 - width)
  {
    hide Mask;
  }

  lemma Byte8Finalize(width: bv8, x: bv64)
    requires width == 8
    ensures Finalize(width, false, x) == LowBits(x, 8)
  {
  }

  lemma ByteFinalize(width: bv8, x: bv64)
    requires 1 <= width <= 8
    ensures Finalize(width, false, x) == Finalize(width, false, LowBits(x, 8))
  {
    hide *;
    LowBitsIdem(x, 8);
    if width < 8 {
      NarrowFinalize(width, x);
      NarrowFinalize(width, LowBits(x, 8));
    } else {
      Byte8Finalize(width, x);
      Byte8Finalize(width, LowBits(x, 8));
    }
  }

  lemma WideFinalize(width: bv8, x: bv64)
    requires 9 <= width <= 64
    ensures Finalize(width, false, x) == LowBits(x, width)
  {
  }

  lemma AgreeCases(width: bv8, reflected: bool, x: bv64, t: bv64)
    requires 1 <= width <= 64 && Agree(width, reflected, x, t)
    ensures reflected ==> t == x
    ensures !reflected && width <= 8 ==> t == LowBits(x, 8)
    ensures !reflected && 8 < width ==> LowBits(t, width) == LowBits(x, width)
  {
  }

  lemma AgreeFinalize(width: bv8, reflected: bool, x: bv64, t: bv64)
    requires 1 <= width <= 64 && Agree(width, reflected, x, t)
    ensures Finalize(width, reflected, t) == Finalize(width, reflected, x)
  {
    hide *;
    AgreeCases(width, reflected, x, t);
    if reflected {
    } else if width <= 8 {
      ByteFinalize(width, x);
    } else {
      WideFinalize(width, x);
      WideFinalize(width, t);
    }
  }

  /** Registers in step give the same CRC value. */
  lemma AgreeResult(width: bv8, reflected: bool, xorout: bv64, x: bv64, t: bv64)
    requires 1 <= width <= 64 && Agree(width, reflected, x, t)
    ensures Result(width, reflected, xorout, t) == Result(width, reflected, xorout, x)
  {
    hide Finalize, Agree;
    AgreeFinalize(width, reflected, x, t);
  }

  /**
   * The table-driven CRC equals the bit-at-a-time CRC for every parameter set
   * and message, provided that in byte mode the set-up initial value is a
   * valid table index.
   */
  lemma TableCrcAgrees(width: bv8, reflected: bool, poly: bv64, iv: bv64, xorout: bv64, data: seq<bv8>)
    requires 1 <= width <= 64 && Indexable(width, reflected, SetupState(width, reflected, iv))
    ensures ByteTable(width, reflected, TableSpec(width, reflected, poly))
    ensures TableCrcSpec(width, reflected, TableSpec(width, reflected, poly), iv, xorout, data)
         == CrcSpec(width, reflected, poly, iv, xorout, data)
  {
    var s := SetupState(width, reflected, iv);
    assert Agree(width, reflected, s, s) by {
      if !reflected && width <= 8 {
        ByteStart(s);
      }
    }
    AgreeProcess(width, reflected, poly, s, s, data);
    AgreeResult(width, reflected, xorout,
                Process(width, reflected, SetupPoly(width, reflected, poly), s, data),
                TableProcess(width, reflected, TableSpec(width, reflected, poly), s, data));
  }

  lemma ByteStart(s: bv64)
    requires s < 256
    ensures s == LowBits(s, 8)
  {
  }
}
