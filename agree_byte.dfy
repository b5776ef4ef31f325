/**
 * Table lookup agrees with the bitwise update in byte mode (non-reflected,
 * at most 8 bits): the register's low byte is the whole table index, and the
 * left shifts never bring higher bits down into it.
 */
module ByteAgreement {
  import opened Bits
  import opened Engine
  import opened Table
  import opened Linear

  /** `n` shift steps that test bit 7. */
  function NarrowSteps(n: nat, poly: bv64, x: bv64): bv64 {
    if n == 0 then x else NarrowSteps(n - 1, poly, NarrowStep(poly, x))
  }

  lemma ByteShape(width: bv8, poly: bv64, x: bv64)
    requires 1 <= width <= 8
    ensures Step(width, false, poly, x) == NarrowStep(poly, x)
  {
    if width == 8 {
      assert (1 as bv64) << (width - 1) == 0x80;
    }
  }

  lemma {:induction false} NarrowStepsShape(n: nat, width: bv8, poly: bv64, x: bv64)
    requires 1 <= width <= 8
    ensures Steps(n, width, false, poly, x) == NarrowSteps(n, poly, x)
  {
    if n > 0 {
      ByteShape(width, poly, x);
      NarrowStepsShape(n - 1, width, poly, NarrowStep(poly, x));
    }
  }

  lemma NarrowStepsUnfold(n: nat, poly: bv64, x: bv64)
    requires 0 < n
    ensures NarrowSteps(n, poly, x) == NarrowSteps(n - 1, poly, NarrowStep(poly, x))
  {
  }

  lemma NarrowStepsZero(poly: bv64, x: bv64)
    ensures NarrowSteps(0, poly, x) == x
  {
  }

  lemma NarrowLowSet(poly: bv64, y: bv64)
    requires y & 0x80 != 0
    ensures LowBits(NarrowStep(poly, y), 8) == LowBits(NarrowStep(poly, LowBits(y, 8)), 8)
  {
  }

  lemma NarrowLowClear(poly: bv64, y: bv64)
    requires y & 0x80 == 0
    ensures LowBits(NarrowStep(poly, y), 8) == LowBits(NarrowStep(poly, LowBits(y, 8)), 8)
  {
  }

  /** The low byte after a narrow step depends only on the low byte before it. */
  lemma NarrowLow(poly: bv64, y: bv64)
    ensures LowBits(NarrowStep(poly, y), 8) == LowBits(NarrowStep(poly, LowBits(y, 8)), 8)
  {
    hide *;
    if y & 0x80 != 0 {
      NarrowLowSet(poly, y);
    } else {
      NarrowLowClear(poly, y);
    }
  }

  lemma LowBitsTwice(x: bv64)
    ensures LowBits(LowBits(x, 8), 8) == LowBits(x, 8)
  {
  }

  /** The low byte after the steps depends only on the low byte before them. */
  lemma {:induction false} NarrowStepsLow(n: nat, poly: bv64, y: bv64)
    ensures LowBits(NarrowSteps(n, poly, y), 8) == LowBits(NarrowSteps(n, poly, LowBits(y, 8)), 8)
  {
    hide *;
    if n == 0 {
      NarrowStepsZero(poly, y);
      NarrowStepsZero(poly, LowBits(y, 8));
      LowBitsTwice(y);
    } else {
      var s := NarrowStep(poly, y);
      var s' := NarrowStep(poly, LowBits(y, 8));
      NarrowStepsUnfold(n, poly, y);
      NarrowStepsUnfold(n, poly, LowBits(y, 8));
      NarrowLow(poly, y);
      NarrowStepsLow(n - 1, poly, s);
      NarrowStepsLow(n - 1, poly, s');
    }
  }

  lemma ByteFeed(width: bv8, state: bv64, data: bv8)
    requires 1 <= width <= 8
    ensures Feed(width, false, state, data) == state ^ (data as bv64)
  {
  }

  lemma ByteMask(width: bv8, value: bv64)
    requires 1 <= width <= 8
    ensures Mask(width, false, value) == LowBits(value, 8)
  {
  }

  lemma ByteUpdateShape(width: bv8, poly: bv64, state: bv64, data: bv8)
    requires 1 <= width <= 8
    ensures UpdateSpec(width, false, poly, state, data) == NarrowSteps(8, poly, state ^ (data as bv64))
  {
    hide *;
    UpdateSpecShape(width, false, poly, state, data);
    ByteFeed(width, state, data);
    NarrowStepsShape(8, width, poly, state ^ (data as bv64));
  }

  lemma UpdateSpecShape(width: bv8, reflected: bool, poly: bv64, state: bv64, data: bv8)
    requires 1 <= width <= 64
    ensures UpdateSpec(width, reflected, poly, state, data) == Steps(8, width, reflected, poly, Feed(width, reflected, state, data))
  {
  }

  lemma ByteEntry(width: bv8, poly: bv64, i: bv64)
    requires 1 <= width <= 8 && i < 256
    ensures Entry(width, false, poly, i as bv8) == LowBits(NarrowSteps(8, SetupPoly(width, false, poly), i), 8)
  {
    hide *;
    var p := SetupPoly(width, false, poly);
    EntryShape(width, false, poly, i as bv8);
    ByteMask(width, UpdateSpec(width, false, p, 0, i as bv8));
    ByteUpdateShape(width, p, 0, i as bv8);
    ByteConvert(i);
  }

  lemma ByteConvert(i: bv64)
    requires i < 256
    ensures 0 ^ ((i as bv8) as bv64) == i
  {
  }

  lemma ByteTableUpdateShape(width: bv8, table: seq<bv64>, state: bv64, data: bv8)
    requires 1 <= width <= 8 && |table| == 256 && state < 256
    ensures Index(width, false, state, data) == (data as bv64) ^ state
    ensures Index(width, false, state, data) < 256
    ensures TableUpdate(width, false, table, state, data) == At(table, Index(width, false, state, data))
  {
  }

  lemma ByteSplit(x: bv64, data: bv8)
    ensures LowBits(x ^ (data as bv64), 8) == (data as bv64) ^ LowBits(x, 8)
    ensures LowBits(x, 8) < 256
  {
  }

  /** In byte mode a table lookup gives the low byte of the bitwise update. */
  lemma ByteTableStep(width: bv8, poly: bv64, state: bv64, x: bv64, data: bv8)
    requires 1 <= width <= 8 && state == LowBits(x, 8)
    ensures state < 256
    ensures TableUpdate(width, false, TableSpec(width, false, poly), state, data) == LowBits(UpdateSpec(width, false, SetupPoly(width, false, poly), x, data), 8)
  {
    hide *;
    var table := TableSpec(width, false, poly);
    var p := SetupPoly(width, false, poly);
    ByteSplit(x, data);
    var idx := Index(width, false, state, data);
    ByteTableUpdateShape(width, table, state, data);
    TableSpecEntry(width, false, poly, idx);
    ByteEntry(width, poly, idx);
    ByteUpdateShape(width, p, x, data);
    NarrowStepsLow(8, p, x ^ (data as bv64));
  }
}
