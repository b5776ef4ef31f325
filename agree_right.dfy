/**
 * Table lookup agrees with the bitwise update in the reflected convention.
 * The fed register is split into its low byte, which indexes the table, and
 * the rest, which the eight right shifts only move down by a byte.
 */
module RightAgreement {
  import opened Bits
  import opened Reflection
  import opened Engine
  import opened Table
  import opened Linear

  /** `n` reflected shift steps. */
  function RightSteps(n: nat, poly: bv64, x: bv64): bv64 {
    if n == 0 then x else RightSteps(n - 1, poly, RightStep(poly, x))
  }

  lemma {:induction false} RightStepsShape(n: nat, width: bv8, reflected: bool, poly: bv64, x: bv64)
    requires 1 <= width <= 64 && reflected
    ensures Steps(n, width, reflected, poly, x) == RightSteps(n, poly, x)
  {
    if n > 0 {
      RightShape(width, reflected, poly, x);
      RightStepsShape(n - 1, width, reflected, poly, RightStep(poly, x));
    }
  }

  lemma RightQuietHop(poly: bv64, z: bv64, k: bv8)
    requires k < 8 && z & 0xff == 0
    ensures RightStep(poly, Shr(z, k)) == Shr(z, k + 1)
  {
  }

  lemma RightStepsUnfold(n: nat, poly: bv64, x: bv64)
    requires 0 < n
    ensures RightSteps(n, poly, x) == RightSteps(n - 1, poly, RightStep(poly, x))
  {
  }

  lemma RightStepsZero(poly: bv64, x: bv64)
    ensures RightSteps(0, poly, x) == x
  {
  }

  /** A register whose low byte is clear is only shifted right by eight reflected steps. */
  lemma RightQuiet(poly: bv64, z: bv64)
    requires z & 0xff == 0
    ensures RightSteps(8, poly, z) == Shr(z, 8)
  {
    hide *;
    ShrShape(z, 0);
    RightQuietHop(poly, z, 0);
    RightStepsUnfold(8, poly, Shr(z, 0));
    RightQuietHop(poly, z, 1);
    RightStepsUnfold(7, poly, Shr(z, 1));
    RightQuietHop(poly, z, 2);
    RightStepsUnfold(6, poly, Shr(z, 2));
    RightQuietHop(poly, z, 3);
    RightStepsUnfold(5, poly, Shr(z, 3));
    RightQuietHop(poly, z, 4);
    RightStepsUnfold(4, poly, Shr(z, 4));
    RightQuietHop(poly, z, 5);
    RightStepsUnfold(3, poly, Shr(z, 5));
    RightQuietHop(poly, z, 6);
    RightStepsUnfold(2, poly, Shr(z, 6));
    RightQuietHop(poly, z, 7);
    RightStepsUnfold(1, poly, Shr(z, 7));
    RightStepsZero(poly, Shr(z, 8));
  }

  lemma ShrFitsSame(a: bv64, width: bv8)
    requires 1 <= width <= 64 && Fits(a, width)
    ensures Fits(Shr(a, 1), width)
  {
  }

  lemma ShrFitsLess(a: bv64, width: bv8)
    requires 2 <= width <= 64 && Fits(a, width)
    ensures Fits(Shr(a, 1), width - 1)
  {
  }

  lemma RightStepSet(poly: bv64, x: bv64)
    requires x & 1 != 0
    ensures RightStep(poly, x) == Xor(Shr(x, 1), poly)
  {
  }

  lemma RightStepClear(poly: bv64, x: bv64)
    requires x & 1 == 0
    ensures RightStep(poly, x) == Shr(x, 1)
  {
  }

  lemma RightStepFits(poly: bv64, x: bv64, width: bv8, m: bv8)
    requires 1 <= width <= m <= 64 && Fits(poly, width) && Fits(x, m)
    ensures Fits(RightStep(poly, x), if m > width then m - 1 else width)
  {
    hide *;
    var m' := if m > width then m - 1 else width;
    if m > width {
      ShrFitsLess(x, m);
      FitsMono(poly, width, m');
    } else {
      ShrFitsSame(x, m);
    }
    if x & 1 != 0 {
      RightStepSet(poly, x);
      XorFits(Shr(x, 1), poly, m');
    } else {
      RightStepClear(poly, x);
    }
  }

  /** Each reflected step lowers a register's bound by one bit, down to the width of the polynomial. */
  lemma {:induction false} RightStepsFits(n: nat, poly: bv64, x: bv64, width: bv8, m: bv8)
    requires 1 <= width <= m <= 64 && Fits(poly, width) && Fits(x, m)
    requires m as int - n <= width as int
    ensures Fits(RightSteps(n, poly, x), width)
  {
    hide *;
    if n == 0 {
      RightStepsZero(poly, x);
      assert m == width;
    } else {
      RightStepsUnfold(n, poly, x);
      RightStepFits(poly, x, width, m);
      RightStepsFits(n - 1, poly, RightStep(poly, x), width, if m > width then m - 1 else width);
    }
  }

  lemma RightTableUpdateShape(width: bv8, table: seq<bv64>, state: bv64, data: bv8)
    requires 1 <= width <= 64 && |table| == 256
    ensures Index(width, true, state, data) < 256
    ensures TableUpdate(width, true, table, state, data) == Xor(At(table, Index(width, true, state, data)), Shr(state, 8))
  {
  }

  lemma RightUpdateShape(width: bv8, poly: bv64, state: bv64, data: bv8)
    requires 1 <= width <= 64
    ensures UpdateSpec(width, true, poly, state, data) == RightSteps(8, poly, state ^ (data as bv64))
  {
    RightStepsShape(8, width, true, poly, state ^ (data as bv64));
  }

  lemma RightSplit(state: bv64, data: bv8)
    ensures state ^ (data as bv64) == Xor(((data as bv64) ^ state) & 0xff, state & 0xffff_ffff_ffff_ff00)
    ensures (state & 0xffff_ffff_ffff_ff00) & 0xff == 0
    ensures Shr(state & 0xffff_ffff_ffff_ff00, 8) == Shr(state, 8)
  {
  }

  lemma RightIndexFeed(width: bv8, state: bv64, data: bv8)
    requires 1 <= width <= 64
    ensures Index(width, true, state, data) == ((data as bv64) ^ state) & 0xff
    ensures 0 ^ ((Index(width, true, state, data) as bv8) as bv64) == ((data as bv64) ^ state) & 0xff
  {
  }

  lemma RightSetupPoly(width: bv8, poly: bv64)
    requires 1 <= width <= 64
    ensures SetupPoly(width, true, poly) == Reflect(width, poly)
  {
  }

  /** A reflected table entry needs no mask: it already fits the width. */
  lemma RightEntry(width: bv8, poly: bv64, i: bv64)
    requires 1 <= width <= 64 && i < 256
    ensures Entry(width, true, poly, i as bv8) == RightSteps(8, SetupPoly(width, true, poly), 0 ^ ((i as bv8) as bv64))
  {
    hide *;
    var p := SetupPoly(width, true, poly);
    var v := 0 ^ ((i as bv8) as bv64);
    assert v < 256;
    ReflectFits(width, poly);
    RightSetupPoly(width, poly);
    EntryShape(width, true, poly, i as bv8);
    RightUpdateShape(width, p, 0, i as bv8);
    var m: bv8 := if width < 8 then 8 else width;
    assert 8 <= m && width <= m && m as int - 8 <= width as int;
    ByteFitsIn(v, m);
    RightStepsFits(8, p, v, width, m);
    MaskFits(width, RightSteps(8, p, v));
  }

  /** In the reflected convention a table lookup is exactly the bitwise update. */
  lemma RightTableStep(width: bv8, poly: bv64, state: bv64, data: bv8)
    requires 1 <= width <= 64
    ensures TableUpdate(width, true, TableSpec(width, true, poly), state, data) == UpdateSpec(width, true, SetupPoly(width, true, poly), state, data)
  {
    hide *;
    var table := TableSpec(width, true, poly);
    var p := SetupPoly(width, true, poly);
    var idx := Index(width, true, state, data);
    var lo := ((data as bv64) ^ state) & 0xff;
    var hi := state & 0xffff_ffff_ffff_ff00;
    RightTableUpdateShape(width, table, state, data);
    RightIndexFeed(width, state, data);
    TableSpecEntry(width, true, poly, idx);
    RightEntry(width, poly, idx);
    RightUpdateShape(width, p, state, data);
    RightSplit(state, data);
    StepsLinear(8, width, true, p, lo, hi);
    RightStepsShape(8, width, true, p, Xor(lo, hi));
    RightStepsShape(8, width, true, p, lo);
    RightStepsShape(8, width, true, p, hi);
    RightQuiet(p, hi);
  }
}
