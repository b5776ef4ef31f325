/**
 * Table lookup agrees with the bitwise update in the wide convention
 * (non-reflected, more than 8 bits), on the low `width` bits of the register.
 * The fed register is split into the top eight CRC bits, which index the
 * table, and the bits below them, which the eight left shifts only move up
 * by a byte.
 */
module WideAgreement {
  import opened Bits
  import opened Engine
  import opened Table
  import opened Linear
  import opened ByteAgreement
  import opened LeftShifts

  /** The mask of the low `width` bits. */
  function Ones(width: bv8): bv64
    requires 1 <= width <= 64
  {
    if width == 64 then AllOnes else ((1 as bv64) << width) - 1
  }

  /** The bit a wide step examines. */
  function Top(width: bv8): bv64
    requires 1 <= width <= 64
  {
    (1 as bv64) << (width - 1)
  }

  lemma WideStepSet(width: bv8, poly: bv64, x: bv64)
    requires 8 <= width <= 64
    ensures Masked(x, Top(width)) != 0 ==> WideStep(width, poly, x) == Xor(Shl1(x), poly)
  {
  }

  lemma WideStepClear(width: bv8, poly: bv64, x: bv64)
    requires 8 <= width <= 64
    ensures Masked(x, Top(width)) == 0 ==> WideStep(width, poly, x) == Shl1(x)
  {
  }

  /** A wide step is the generic left-shifting step that tests the top CRC bit. */
  lemma WideGen(width: bv8, poly: bv64, x: bv64)
    requires 8 <= width <= 64
    ensures Step(width, false, poly, x) == GenStep(Top(width), poly, x)
  {
    hide *;
    WideShape(width, false, poly, x);
    if Masked(x, Top(width)) != 0 {
      WideStepSet(width, poly, x);
      GenStepSet(Top(width), poly, x);
    } else {
      WideStepClear(width, poly, x);
      GenStepClear(Top(width), poly, x);
    }
  }

  lemma {:induction false} GenStepsShape(n: nat, width: bv8, poly: bv64, x: bv64)
    requires 8 <= width <= 64
    ensures Steps(n, width, false, poly, x) == GenSteps(n, Top(width), poly, x)
  {
    if n > 0 {
      WideGen(width, poly, x);
      GenStepsShape(n - 1, width, poly, GenStep(Top(width), poly, x));
    }
  }

  lemma LowBitsOnes(x: bv64, width: bv8)
    requires 1 <= width <= 64
    ensures LowBits(x, width) == Masked(x, Ones(width))
  {
  }

  lemma TopInOnes(width: bv8)
    requires 1 <= width <= 64
    ensures Top(width) & Ones(width) == Top(width)
  {
  }

  lemma OnesDown(width: bv8)
    requires 1 <= width <= 64
    ensures (Ones(width) >> 1) & Ones(width) == Ones(width) >> 1
  {
  }

  /** The low `width` bits after wide steps depend only on the low `width` bits before them. */
  lemma WideStepsLow(n: nat, width: bv8, poly: bv64, y: bv64)
    requires 8 <= width <= 64
    ensures LowBits(Steps(n, width, false, poly, y), width) == LowBits(Steps(n, width, false, poly, LowBits(y, width)), width)
  {
    hide *;
    GenStepsShape(n, width, poly, y);
    GenStepsShape(n, width, poly, LowBits(y, width));
    LowBitsOnes(y, width);
    LowBitsOnes(GenSteps(n, Top(width), poly, y), width);
    LowBitsOnes(GenSteps(n, Top(width), poly, LowBits(y, width)), width);
    TopInOnes(width);
    OnesDown(width);
    GenStepsLow(n, Top(width), Ones(width), poly, y);
  }

  // A register whose bits all lie below the window of the top eight CRC bits
  // is only shifted by the eight steps.

  /** `n` left shifts by one. */
  function ShlN(n: nat, v: bv64): bv64 {
    if n == 0 then v else ShlN(n - 1, Shl1(v))
  }

  lemma ShlNUnfold(n: nat, v: bv64)
    requires 0 < n
    ensures ShlN(n, v) == ShlN(n - 1, Shl1(v))
  {
  }

  lemma ShlNZero(v: bv64)
    ensures ShlN(0, v) == v
  {
  }

  lemma ShlComposed(v: bv64)
    ensures Shl1(Shl1(Shl1(Shl1(Shl1(Shl1(Shl1(Shl1(v)))))))) == v << 8
  {
  }

  lemma ShlEight(v: bv64)
    ensures ShlN(8, v) == v << 8
  {
    hide *;
    var v1 := Shl1(v);
    var v2 := Shl1(v1);
    var v3 := Shl1(v2);
    var v4 := Shl1(v3);
    var v5 := Shl1(v4);
    var v6 := Shl1(v5);
    var v7 := Shl1(v6);
    var v8 := Shl1(v7);
    ShlNUnfold(8, v);
    ShlNUnfold(7, v1);
    ShlNUnfold(6, v2);
    ShlNUnfold(5, v3);
    ShlNUnfold(4, v4);
    ShlNUnfold(3, v5);
    ShlNUnfold(2, v6);
    ShlNUnfold(1, v7);
    ShlNZero(v8);
    ShlComposed(v);
  }

  lemma QuietTop(width: bv8, v: bv64, m: bv8)
    requires 1 <= m < width <= 64 && Fits(v, m)
    ensures Masked(v, Top(width)) == 0
  {
  }

  lemma ShlFits(v: bv64, m: bv8)
    requires 1 <= m < 64 && Fits(v, m)
    ensures Fits(Shl1(v), m + 1)
  {
  }

  lemma QuietStep(width: bv8, poly: bv64, v: bv64, m: bv8)
    requires 1 <= m < width <= 64 && Fits(v, m)
    ensures GenStep(Top(width), poly, v) == Shl1(v)
  {
    QuietTop(width, v, m);
  }

  lemma {:induction false} GenQuiet(n: nat, width: bv8, poly: bv64, v: bv64, m: bv8)
    requires 1 <= m && width <= 64 && m as int + n <= width as int && Fits(v, m)
    ensures GenSteps(n, Top(width), poly, v) == ShlN(n, v)
  {
    hide *;
    if n == 0 {
      GenStepsZero(Top(width), poly, v);
      ShlNZero(v);
    } else {
      QuietStep(width, poly, v, m);
      ShlFits(v, m);
      GenStepsUnfold(n, Top(width), poly, v);
      ShlNUnfold(n, v);
      GenQuiet(n - 1, width, poly, Shl1(v), m + 1);
    }
  }

  /** Byte `i` moved to the top eight bits of a `width`-bit register. */
  function Lift(width: bv8, i: bv64): bv64
    requires 9 <= width <= 64
  {
    i << (width - 8)
  }

  /** The wide feed of a data byte. */
  function WideFeedOf(width: bv8, state: bv64, data: bv8): bv64
    requires 9 <= width <= 64
  {
    state ^ ((data as bv64) << (width - 8))
  }

  /** The wide table index. */
  function WideIndexOf(width: bv8, state: bv64, data: bv8): bv64
    requires 9 <= width <= 64
  {
    ((data as bv64) ^ (state >> (width - 8))) & 0xff
  }

  lemma WideFeedShape(width: bv8, state: bv64, data: bv8)
    requires 9 <= width <= 64
    ensures Feed(width, false, state, data) == WideFeedOf(width, state, data)
  {
  }

  lemma WideIndexShape(width: bv8, state: bv64, data: bv8)
    requires 9 <= width <= 64
    ensures Index(width, false, state, data) == WideIndexOf(width, state, data)
  {
  }

  // Splitting the fed register at the eight-bit window that indexes the table.
  // Stated for each width, where every shift amount is a constant.

  lemma Window9(width: bv8, x: bv64, t: bv64, data: bv8)
    requires width == 9 && LowBits(x, width) == LowBits(t, width)
    ensures LowBits(WideFeedOf(width, x, data), width) == Lift(width, WideIndexOf(width, t, data)) ^ LowBits(t, width - 8)
    ensures LowBits(LowBits(t, width - 8) << 8, width) == LowBits(t << 8, width)
  {
  }

  lemma Window10(width: bv8, x: bv64, t: bv64, data: bv8)
    requires width == 10 && LowBits(x, width) == LowBits(t, width)
    ensures LowBits(WideFeedOf(width, x, data), width) == Lift(width, WideIndexOf(width, t, data)) ^ LowBits(t, width - 8)
    ensures LowBits(LowBits(t, width - 8) << 8, width) == LowBits(t << 8, width)
  {
  }

  lemma Window11(width: bv8, x: bv64, t: bv64, data: bv8)
    requires width == 11 && LowBits(x, width) == LowBits(t, width)
    ensures LowBits(WideFeedOf(width, x, data), width) == Lift(width, WideIndexOf(width, t, data)) ^ LowBits(t, width - 8)
    ensures LowBits(LowBits(t, width - 8) << 8, width) == LowBits(t << 8, width)
  {
  }

  lemma Window12(width: bv8, x: bv64, t: bv64, data: bv8)
    requires width == 12 && LowBits(x, width) == LowBits(t, width)
    ensures LowBits(WideFeedOf(width, x, data), width) == Lift(width, WideIndexOf(width, t, data)) ^ LowBits(t, width - 8)
    ensures LowBits(LowBits(t, width - 8) << 8, width) == LowBits(t << 8, width)
  {
  }

  lemma Window13(width: bv8, x: bv64, t: bv64, data: bv8)
    requires width == 13 && LowBits(x, width) == LowBits(t, width)
    ensures LowBits(WideFeedOf(width, x, data), width) == Lift(width, WideIndexOf(width, t, data)) ^ LowBits(t, width - 8)
    ensures LowBits(LowBits(t, width - 8) << 8, width) == LowBits(t << 8, width)
  {
  }

  lemma Window14(width: bv8, x: bv64, t: bv64, data: bv8)
    requires width == 14 && LowBits(x, width) == LowBits(t, width)
    ensures LowBits(WideFeedOf(width, x, data), width) == Lift(width, WideIndexOf(width, t, data)) ^ LowBits(t, width - 8)
    ensures LowBits(LowBits(t, width - 8) << 8, width) == LowBits(t << 8, width)
  {
  }

  lemma Window15(width: bv8, x: bv64, t: bv64, data: bv8)
    requires width == 15 && LowBits(x, width) == LowBits(t, width)
    ensures LowBits(WideFeedOf(width, x, data), width) == Lift(width, WideIndexOf(width, t, data)) ^ LowBits(t, width - 8)
    ensures LowBits(LowBits(t, width - 8) << 8, width) == LowBits(t << 8, width)
  {
  }

  lemma Window16(width: bv8, x: bv64, t: bv64, data: bv8)
    requires width == 16 && LowBits(x, width) == LowBits(t, width)
    ensures LowBits(WideFeedOf(width, x, data), width) == Lift(width, WideIndexOf(width, t, data)) ^ LowBits(t, width - 8)
    ensures LowBits(LowBits(t, width - 8) << 8, width) == LowBits(t << 8, width)
  {
  }

  lemma Window17(width: bv8, x: bv64, t: bv64, data: bv8)
    requires width == 17 && LowBits(x, width) == LowBits(t, width)
    ensures LowBits(WideFeedOf(width, x, data), width) == Lift(width, WideIndexOf(width, t, data)) ^ LowBits(t, width - 8)
    ensures LowBits(LowBits(t, width - 8) << 8, width) == LowBits(t << 8, width)
  {
  }

  lemma Window18(width: bv8, x: bv64, t: bv64, data: bv8)
    requires width == 18 && LowBits(x, width) == LowBits(t, width)
    ensures LowBits(WideFeedOf(width, x, data), width) == Lift(width, WideIndexOf(width, t, data)) ^ LowBits(t, width - 8)
    ensures LowBits(LowBits(t, width - 8) << 8, width) == LowBits(t << 8, width)
  {
  }

  lemma Window19(width: bv8, x: bv64, t: bv64, data: bv8)
    requires width == 19 && LowBits(x, width) == LowBits(t, width)
    ensures LowBits(WideFeedOf(width, x, data), width) == Lift(width, WideIndexOf(width, t, data)) ^ LowBits(t, width - 8)
    ensures LowBits(LowBits(t, width - 8) << 8, width) == LowBits(t << 8, width)
  {
  }

  lemma Window20(width: bv8, x: bv64, t: bv64, data: bv8)
    requires width == 20 && LowBits(x, width) == LowBits(t, width)
    ensures LowBits(WideFeedOf(width, x, data), width) == Lift(width, WideIndexOf(width, t, data)) ^ LowBits(t, width - 8)
    ensures LowBits(LowBits(t, width - 8) << 8, width) == LowBits(t << 8, width)
  {
  }

  lemma Window21(width: bv8, x: bv64, t: bv64, data: bv8)
    requires width == 21 && LowBits(x, width) == LowBits(t, width)
    ensures LowBits(WideFeedOf(width, x, data), width) == Lift(width, WideIndexOf(width, t, data)) ^ LowBits(t, width - 8)
    ensures LowBits(LowBits(t, width - 8) << 8, width) == LowBits(t << 8, width)
  {
  }

  lemma Window22(width: bv8, x: bv64, t: bv64, data: bv8)
    requires width == 22 && LowBits(x, width) == LowBits(t, width)
    ensures LowBits(WideFeedOf(width, x, data), width) == Lift(width, WideIndexOf(width, t, data)) ^ LowBits(t, width - 8)
    ensures LowBits(LowBits(t, width - 8) << 8, width) == LowBits(t << 8, width)
  {
  }

  lemma Window23(width: bv8, x: bv64, t: bv64, data: bv8)
    requires width == 23 && LowBits(x, width) == LowBits(t, width)
    ensures LowBits(WideFeedOf(width, x, data), width) == Lift(width, WideIndexOf(width, t, data)) ^ LowBits(t, width - 8)
    ensures LowBits(LowBits(t, width - 8) << 8, width) == LowBits(t << 8, width)
  {
  }

  lemma Window24(width: bv8, x: bv64, t: bv64, data: bv8)
    requires width == 24 && LowBits(x, width) == LowBits(t, width)
    ensures LowBits(WideFeedOf(width, x, data), width) == Lift(width, WideIndexOf(width, t, data)) ^ LowBits(t, width - 8)
    ensures LowBits(LowBits(t, width - 8) << 8, width) == LowBits(t << 8, width)
  {
  }

  lemma Window25(width: bv8, x: bv64, t: bv64, data: bv8)
    requires width == 25 && LowBits(x, width) == LowBits(t, width)
    ensures LowBits(WideFeedOf(width, x, data), width) == Lift(width, WideIndexOf(width, t, data)) ^ LowBits(t, width - 8)
    ensures LowBits(LowBits(t, width - 8) << 8, width) == LowBits(t << 8, width)
  {
  }

  lemma Window26(width: bv8, x: bv64, t: bv64, data: bv8)
    requires width == 26 && LowBits(x, width) == LowBits(t, width)
    ensures LowBits(WideFeedOf(width, x, data), width) == Lift(width, WideIndexOf(width, t, data)) ^ LowBits(t, width - 8)
    ensures LowBits(LowBits(t, width - 8) << 8, width) == LowBits(t << 8, width)
  {
  }

  lemma Window27(width: bv8, x: bv64, t: bv64, data: bv8)
    requires width == 27 && LowBits(x, width) == LowBits(t, width)
    ensures LowBits(WideFeedOf(width, x, data), width) == Lift(width, WideIndexOf(width, t, data)) ^ LowBits(t, width - 8)
    ensures LowBits(LowBits(t, width - 8) << 8, width) == LowBits(t << 8, width)
  {
  }

  lemma Window28(width: bv8, x: bv64, t: bv64, data: bv8)
    requires width == 28 && LowBits(x, width) == LowBits(t, width)
    ensures LowBits(WideFeedOf(width, x, data), width) == Lift(width, WideIndexOf(width, t, data)) ^ LowBits(t, width - 8)
    ensures LowBits(LowBits(t, width - 8) << 8, width) == LowBits(t << 8, width)
  {
  }

  lemma Window29(width: bv8, x: bv64, t: bv64, data: bv8)
    requires width == 29 && LowBits(x, width) == LowBits(t, width)
    ensures LowBits(WideFeedOf(width, x, data), width) == Lift(width, WideIndexOf(width, t, data)) ^ LowBits(t, width - 8)
    ensures LowBits(LowBits(t, width - 8) << 8, width) == LowBits(t << 8, width)
  {
  }

  lemma Window30(width: bv8, x: bv64, t: bv64, data: bv8)
    requires width == 30 && LowBits(x, width) == LowBits(t, width)
    ensures LowBits(WideFeedOf(width, x, data), width) == Lift(width, WideIndexOf(width, t, data)) ^ LowBits(t, width - 8)
    ensures LowBits(LowBits(t, width - 8) << 8, width) == LowBits(t << 8, width)
  {
  }

  lemma Window31(width: bv8, x: bv64, t: bv64, data: bv8)
    requires width == 31 && LowBits(x, width) == LowBits(t, width)
    ensures LowBits(WideFeedOf(width, x, data), width) == Lift(width, WideIndexOf(width, t, data)) ^ LowBits(t, width - 8)
    ensures LowBits(LowBits(t, width - 8) << 8, width) == LowBits(t << 8, width)
  {
  }

  lemma Window32(width: bv8, x: bv64, t: bv64, data: bv8)
    requires width == 32 && LowBits(x, width) == LowBits(t, width)
    ensures LowBits(WideFeedOf(width, x, data), width) == Lift(width, WideIndexOf(width, t, data)) ^ LowBits(t, width - 8)
    ensures LowBits(LowBits(t, width - 8) << 8, width) == LowBits(t << 8, width)
  {
  }

  lemma Window33(width: bv8, x: bv64, t: bv64, data: bv8)
    requires width == 33 && LowBits(x, width) == LowBits(t, width)
    ensures LowBits(WideFeedOf(width, x, data), width) == Lift(width, WideIndexOf(width, t, data)) ^ LowBits(t, width - 8)
    ensures LowBits(LowBits(t, width - 8) << 8, width) == LowBits(t << 8, width)
  {
  }

  lemma Window34(width: bv8, x: bv64, t: bv64, data: bv8)
    requires width == 34 && LowBits(x, width) == LowBits(t, width)
    ensures LowBits(WideFeedOf(width, x, data), width) == Lift(width, WideIndexOf(width, t, data)) ^ LowBits(t, width - 8)
    ensures LowBits(LowBits(t, width - 8) << 8, width) == LowBits(t << 8, width)
  {
  }

  lemma Window35(width: bv8, x: bv64, t: bv64, data: bv8)
    requires width == 35 && LowBits(x, width) == LowBits(t, width)
    ensures LowBits(WideFeedOf(width, x, data), width) == Lift(width, WideIndexOf(width, t, data)) ^ LowBits(t, width - 8)
    ensures LowBits(LowBits(t, width - 8) << 8, width) == LowBits(t << 8, width)
  {
  }

  lemma Window36(width: bv8, x: bv64, t: bv64, data: bv8)
    requires width == 36 && LowBits(x, width) == LowBits(t, width)
    ensures LowBits(WideFeedOf(width, x, data), width) == Lift(width, WideIndexOf(width, t, data)) ^ LowBits(t, width - 8)
    ensures LowBits(LowBits(t, width - 8) << 8, width) == LowBits(t << 8, width)
  {
  }

  lemma Window37(width: bv8, x: bv64, t: bv64, data: bv8)
    requires width == 37 && LowBits(x, width) == LowBits(t, width)
    ensures LowBits(WideFeedOf(width, x, data), width) == Lift(width, WideIndexOf(width, t, data)) ^ LowBits(t, width - 8)
    ensures LowBits(LowBits(t, width - 8) << 8, width) == LowBits(t << 8, width)
  {
  }

  lemma Window38(width: bv8, x: bv64, t: bv64, data: bv8)
    requires width == 38 && LowBits(x, width) == LowBits(t, width)
    ensures LowBits(WideFeedOf(width, x, data), width) == Lift(width, WideIndexOf(width, t, data)) ^ LowBits(t, width - 8)
    ensures LowBits(LowBits(t, width - 8) << 8, width) == LowBits(t << 8, width)
  {
  }

  lemma Window39(width: bv8, x: bv64, t: bv64, data: bv8)
    requires width == 39 && LowBits(x, width) == LowBits(t, width)
    ensures LowBits(WideFeedOf(width, x, data), width) == Lift(width, WideIndexOf(width, t, data)) ^ LowBits(t, width - 8)
    ensures LowBits(LowBits(t, width - 8) << 8, width) == LowBits(t << 8, width)
  {
  }

  lemma Window40(width: bv8, x: bv64, t: bv64, data: bv8)
    requires width == 40 && LowBits(x, width) == LowBits(t, width)
    ensures LowBits(WideFeedOf(width, x, data), width) == Lift(width, WideIndexOf(width, t, data)) ^ LowBits(t, width - 8)
    ensures LowBits(LowBits(t, width - 8) << 8, width) == LowBits(t << 8, width)
  {
  }

  lemma Window41(width: bv8, x: bv64, t: bv64, data: bv8)
    requires width == 41 && LowBits(x, width) == LowBits(t, width)
    ensures LowBits(WideFeedOf(width, x, data), width) == Lift(width, WideIndexOf(width, t, data)) ^ LowBits(t, width - 8)
    ensures LowBits(LowBits(t, width - 8) << 8, width) == LowBits(t << 8, width)
  {
  }

  lemma Window42(width: bv8, x: bv64, t: bv64, data: bv8)
    requires width == 42 && LowBits(x, width) == LowBits(t, width)
    ensures LowBits(WideFeedOf(width, x, data), width) == Lift(width, WideIndexOf(width, t, data)) ^ LowBits(t, width - 8)
    ensures LowBits(LowBits(t, width - 8) << 8, width) == LowBits(t << 8, width)
  {
  }

  lemma Window43(width: bv8, x: bv64, t: bv64, data: bv8)
    requires width == 43 && LowBits(x, width) == LowBits(t, width)
    ensures LowBits(WideFeedOf(width, x, data), width) == Lift(width, WideIndexOf(width, t, data)) ^ LowBits(t, width - 8)
    ensures LowBits(LowBits(t, width - 8) << 8, width) == LowBits(t << 8, width)
  {
  }

  lemma Window44(width: bv8, x: bv64, t: bv64, data: bv8)
    requires width == 44 && LowBits(x, width) == LowBits(t, width)
    ensures LowBits(WideFeedOf(width, x, data), width) == Lift(width, WideIndexOf(width, t, data)) ^ LowBits(t, width - 8)
    ensures LowBits(LowBits(t, width - 8) << 8, width) == LowBits(t << 8, width)
  {
  }

  lemma Window45(width: bv8, x: bv64, t: bv64, data: bv8)
    requires width == 45 && LowBits(x, width) == LowBits(t, width)
    ensures LowBits(WideFeedOf(width, x, data), width) == Lift(width, WideIndexOf(width, t, data)) ^ LowBits(t, width - 8)
    ensures LowBits(LowBits(t, width - 8) << 8, width) == LowBits(t << 8, width)
  {
  }

  lemma Window46(width: bv8, x: bv64, t: bv64, data: bv8)
    requires width == 46 && LowBits(x, width) == LowBits(t, width)
    ensures LowBits(WideFeedOf(width, x, data), width) == Lift(width, WideIndexOf(width, t, data)) ^ LowBits(t, width - 8)
    ensures LowBits(LowBits(t, width - 8) << 8, width) == LowBits(t << 8, width)
  {
  }

  lemma Window47(width: bv8, x: bv64, t: bv64, data: bv8)
    requires width == 47 && LowBits(x, width) == LowBits(t, width)
    ensures LowBits(WideFeedOf(width, x, data), width) == Lift(width, WideIndexOf(width, t, data)) ^ LowBits(t, width - 8)
    ensures LowBits(LowBits(t, width - 8) << 8, width) == LowBits(t << 8, width)
  {
  }

  lemma Window48(width: bv8, x: bv64, t: bv64, data: bv8)
    requires width == 48 && LowBits(x, width) == LowBits(t, width)
    ensures LowBits(WideFeedOf(width, x, data), width) == Lift(width, WideIndexOf(width, t, data)) ^ LowBits(t, width - 8)
    ensures LowBits(LowBits(t, width - 8) << 8, width) == LowBits(t << 8, width)
  {
  }

  lemma Window49(width: bv8, x: bv64, t: bv64, data: bv8)
    requires width == 49 && LowBits(x, width) == LowBits(t, width)
    ensures LowBits(WideFeedOf(width, x, data), width) == Lift(width, WideIndexOf(width, t, data)) ^ LowBits(t, width - 8)
    ensures LowBits(LowBits(t, width - 8) << 8, width) == LowBits(t << 8, width)
  {
  }

  lemma Window50(width: bv8, x: bv64, t: bv64, data: bv8)
    requires width == 50 && LowBits(x, width) == LowBits(t, width)
    ensures LowBits(WideFeedOf(width, x, data), width) == Lift(width, WideIndexOf(width, t, data)) ^ LowBits(t, width - 8)
    ensures LowBits(LowBits(t, width - 8) << 8, width) == LowBits(t << 8, width)
  {
  }

  lemma Window51(width: bv8, x: bv64, t: bv64, data: bv8)
    requires width == 51 && LowBits(x, width) == LowBits(t, width)
    ensures LowBits(WideFeedOf(width, x, data), width) == Lift(width, WideIndexOf(width, t, data)) ^ LowBits(t, width - 8)
    ensures LowBits(LowBits(t, width - 8) << 8, width) == LowBits(t << 8, width)
  {
  }

  lemma Window52(width: bv8, x: bv64, t: bv64, data: bv8)
    requires width == 52 && LowBits(x, width) == LowBits(t, width)
    ensures LowBits(WideFeedOf(width, x, data), width) == Lift(width, WideIndexOf(width, t, data)) ^ LowBits(t, width - 8)
    ensures LowBits(LowBits(t, width - 8) << 8, width) == LowBits(t << 8, width)
  {
  }

  lemma Window53(width: bv8, x: bv64, t: bv64, data: bv8)
    requires width == 53 && LowBits(x, width) == LowBits(t, width)
    ensures LowBits(WideFeedOf(width, x, data), width) == Lift(width, WideIndexOf(width, t, data)) ^ LowBits(t, width - 8)
    ensures LowBits(LowBits(t, width - 8) << 8, width) == LowBits(t << 8, width)
  {
  }

  lemma Window54(width: bv8, x: bv64, t: bv64, data: bv8)
    requires width == 54 && LowBits(x, width) == LowBits(t, width)
    ensures LowBits(WideFeedOf(width, x, data), width) == Lift(width, WideIndexOf(width, t, data)) ^ LowBits(t, width - 8)
    ensures LowBits(LowBits(t, width - 8) << 8, width) == LowBits(t << 8, width)
  {
  }

  lemma Window55(width: bv8, x: bv64, t: bv64, data: bv8)
    requires width == 55 && LowBits(x, width) == LowBits(t, width)
    ensures LowBits(WideFeedOf(width, x, data), width) == Lift(width, WideIndexOf(width, t, data)) ^ LowBits(t, width - 8)
    ensures LowBits(LowBits(t, width - 8) << 8, width) == LowBits(t << 8, width)
  {
  }

  lemma Window56(width: bv8, x: bv64, t: bv64, data: bv8)
    requires width == 56 && LowBits(x, width) == LowBits(t, width)
    ensures LowBits(WideFeedOf(width, x, data), width) == Lift(width, WideIndexOf(width, t, data)) ^ LowBits(t, width - 8)
    ensures LowBits(LowBits(t, width - 8) << 8, width) == LowBits(t << 8, width)
  {
  }

  lemma Window57(width: bv8, x: bv64, t: bv64, data: bv8)
    requires width == 57 && LowBits(x, width) == LowBits(t, width)
    ensures LowBits(WideFeedOf(width, x, data), width) == Lift(width, WideIndexOf(width, t, data)) ^ LowBits(t, width - 8)
    ensures LowBits(LowBits(t, width - 8) << 8, width) == LowBits(t << 8, width)
  {
  }

  lemma Window58(width: bv8, x: bv64, t: bv64, data: bv8)
    requires width == 58 && LowBits(x, width) == LowBits(t, width)
    ensures LowBits(WideFeedOf(width, x, data), width) == Lift(width, WideIndexOf(width, t, data)) ^ LowBits(t, width - 8)
    ensures LowBits(LowBits(t, width - 8) << 8, width) == LowBits(t << 8, width)
  {
  }

  lemma Window59(width: bv8, x: bv64, t: bv64, data: bv8)
    requires width == 59 && LowBits(x, width) == LowBits(t, width)
    ensures LowBits(WideFeedOf(width, x, data), width) == Lift(width, WideIndexOf(width, t, data)) ^ LowBits(t, width - 8)
    ensures LowBits(LowBits(t, width - 8) << 8, width) == LowBits(t << 8, width)
  {
  }

  lemma Window60(width: bv8, x: bv64, t: bv64, data: bv8)
    requires width == 60 && LowBits(x, width) == LowBits(t, width)
    ensures LowBits(WideFeedOf(width, x, data), width) == Lift(width, WideIndexOf(width, t, data)) ^ LowBits(t, width - 8)
    ensures LowBits(LowBits(t, width - 8) << 8, width) == LowBits(t << 8, width)
  {
  }

  lemma Window61(width: bv8, x: bv64, t: bv64, data: bv8)
    requires width == 61 && LowBits(x, width) == LowBits(t, width)
    ensures LowBits(WideFeedOf(width, x, data), width) == Lift(width, WideIndexOf(width, t, data)) ^ LowBits(t, width - 8)
    ensures LowBits(LowBits(t, width - 8) << 8, width) == LowBits(t << 8, width)
  {
  }

  lemma Window62(width: bv8, x: bv64, t: bv64, data: bv8)
    requires width == 62 && LowBits(x, width) == LowBits(t, width)
    ensures LowBits(WideFeedOf(width, x, data), width) == Lift(width, WideIndexOf(width, t, data)) ^ LowBits(t, width - 8)
    ensures LowBits(LowBits(t, width - 8) << 8, width) == LowBits(t << 8, width)
  {
  }

  lemma Window63(width: bv8, x: bv64, t: bv64, data: bv8)
    requires width == 63 && LowBits(x, width) == LowBits(t, width)
    ensures LowBits(WideFeedOf(width, x, data), width) == Lift(width, WideIndexOf(width, t, data)) ^ LowBits(t, width - 8)
    ensures LowBits(LowBits(t, width - 8) << 8, width) == LowBits(t << 8, width)
  {
  }

  lemma Window64(width: bv8, x: bv64, t: bv64, data: bv8)
    requires width == 64 && LowBits(x, width) == LowBits(t, width)
    ensures LowBits(WideFeedOf(width, x, data), width) == Lift(width, WideIndexOf(width, t, data)) ^ LowBits(t, width - 8)
    ensures LowBits(LowBits(t, width - 8) << 8, width) == LowBits(t << 8, width)
  {
  }

  lemma WindowInline(width: bv8, x: bv64, t: bv64, data: bv8)
    requires 9 <= width <= 64 && LowBits(x, width) == LowBits(t, width)
    ensures LowBits(WideFeedOf(width, x, data), width) == Lift(width, WideIndexOf(width, t, data)) ^ LowBits(t, width - 8)
    ensures LowBits(LowBits(t, width - 8) << 8, width) == LowBits(t << 8, width)
  {
    hide *;
    if width == 9 {
      Window9(width, x, t, data);
    } else if width == 10 {
      Window10(width, x, t, data);
    } else if width == 11 {
      Window11(width, x, t, data);
    } else if width == 12 {
      Window12(width, x, t, data);
    } else if width == 13 {
      Window13(width, x, t, data);
    } else if width == 14 {
      Window14(width, x, t, data);
    } else if width == 15 {
      Window15(width, x, t, data);
    } else if width == 16 {
      Window16(width, x, t, data);
    } else if width == 17 {
      Window17(width, x, t, data);
    } else if width == 18 {
      Window18(width, x, t, data);
    } else if width == 19 {
      Window19(width, x, t, data);
    } else if width == 20 {
      Window20(width, x, t, data);
    } else if width == 21 {
      Window21(width, x, t, data);
    } else if width == 22 {
      Window22(width, x, t, data);
    } else if width == 23 {
      Window23(width, x, t, data);
    } else if width == 24 {
      Window24(width, x, t, data);
    } else if width == 25 {
      Window25(width, x, t, data);
    } else if width == 26 {
      Window26(width, x, t, data);
    } else if width == 27 {
      Window27(width, x, t, data);
    } else if width == 28 {
      Window28(width, x, t, data);
    } else if width == 29 {
      Window29(width, x, t, data);
    } else if width == 30 {
      Window30(width, x, t, data);
    } else if width == 31 {
      Window31(width, x, t, data);
    } else if width == 32 {
      Window32(width, x, t, data);
    } else if width == 33 {
      Window33(width, x, t, data);
    } else if width == 34 {
      Window34(width, x, t, data);
    } else if width == 35 {
      Window35(width, x, t, data);
    } else if width == 36 {
      Window36(width, x, t, data);
    } else if width == 37 {
      Window37(width, x, t, data);
    } else if width == 38 {
      Window38(width, x, t, data);
    } else if width == 39 {
      Window39(width, x, t, data);
    } else if width == 40 {
      Window40(width, x, t, data);
    } else if width == 41 {
      Window41(width, x, t, data);
    } else if width == 42 {
      Window42(width, x, t, data);
    } else if width == 43 {
      Window43(width, x, t, data);
    } else if width == 44 {
      Window44(width, x, t, data);
    } else if width == 45 {
      Window45(width, x, t, data);
    } else if width == 46 {
      Window46(width, x, t, data);
    } else if width == 47 {
      Window47(width, x, t, data);
    } else if width == 48 {
      Window48(width, x, t, data);
    } else if width == 49 {
      Window49(width, x, t, data);
    } else if width == 50 {
      Window50(width, x, t, data);
    } else if width == 51 {
      Window51(width, x, t, data);
    } else if width == 52 {
      Window52(width, x, t, data);
    } else if width == 53 {
      Window53(width, x, t, data);
    } else if width == 54 {
      Window54(width, x, t, data);
    } else if width == 55 {
      Window55(width, x, t, data);
    } else if width == 56 {
      Window56(width, x, t, data);
    } else if width == 57 {
      Window57(width, x, t, data);
    } else if width == 58 {
      Window58(width, x, t, data);
    } else if width == 59 {
      Window59(width, x, t, data);
    } else if width == 60 {
      Window60(width, x, t, data);
    } else if width == 61 {
      Window61(width, x, t, data);
    } else if width == 62 {
      Window62(width, x, t, data);
    } else if width == 63 {
      Window63(width, x, t, data);
    } else {
      Window64(width, x, t, data);
    }
  }

  lemma Window(width: bv8, x: bv64, t: bv64, data: bv8)
    requires 9 <= width <= 64 && LowBits(x, width) == LowBits(t, width)
    ensures LowBits(Feed(width, false, x, data), width) == Xor(Lift(width, Index(width, false, t, data)), LowBits(t, width - 8))
    ensures LowBits(LowBits(t, width - 8) << 8, width) == LowBits(t << 8, width)
  {
    hide *;
    WindowInline(width, x, t, data);
    WideFeedShape(width, x, data);
    WideIndexShape(width, t, data);
    XorShape(Lift(width, WideIndexOf(width, t, data)), LowBits(t, width - 8));
  }

  lemma ByteWiden(i: bv64)
    requires i < 256
    ensures (i as bv8) as bv64 == i
  {
  }

  lemma LiftFeed(width: bv8, j: bv64)
    requires 9 <= width <= 64 && j < 256
    ensures WideFeedOf(width, 0, j as bv8) == 0 ^ Lift(width, (j as bv8) as bv64)
  {
  }

  lemma XorZero(v: bv64)
    ensures 0 ^ v == v
  {
  }

  lemma WideFeedIndex(width: bv8, i: bv64)
    requires 9 <= width <= 64 && i < 256
    ensures Feed(width, false, 0, i as bv8) == Lift(width, i)
  {
    hide *;
    WideFeedShape(width, 0, i as bv8);
    LiftFeed(width, i);
    ByteWiden(i);
    XorZero(Lift(width, i));
  }

  lemma WideMask(width: bv8, value: bv64)
    requires 9 <= width <= 64
    ensures Mask(width, false, value) == LowBits(value, width)
  {
  }

  lemma WideTableUpdateShape(width: bv8, table: seq<bv64>, state: bv64, data: bv8)
    requires 9 <= width <= 64 && |table| == 256
    ensures Index(width, false, state, data) < 256
    ensures TableUpdate(width, false, table, state, data) == Xor(At(table, Index(width, false, state, data)), state << 8)
  {
  }

  lemma MaskedXorInline(a: bv64, b: bv64, m: bv64)
    ensures Masked(a ^ b, m) == Masked(a, m) ^ Masked(b, m)
  {
  }

  lemma MaskedXor(a: bv64, b: bv64, m: bv64)
    ensures Masked(Xor(a, b), m) == Xor(Masked(a, m), Masked(b, m))
  {
    hide *;
    XorShape(a, b);
    XorShape(Masked(a, m), Masked(b, m));
    MaskedXorInline(a, b, m);
  }

  lemma LowBitsXor(a: bv64, b: bv64, width: bv8)
    requires 1 <= width <= 64
    ensures LowBits(Xor(a, b), width) == Xor(LowBits(a, width), LowBits(b, width))
  {
    hide *;
    LowBitsOnes(a, width);
    LowBitsOnes(b, width);
    LowBitsOnes(Xor(a, b), width);
    MaskedXor(a, b, Ones(width));
  }

  lemma WideEntry(width: bv8, poly: bv64, i: bv64)
    requires 9 <= width <= 64 && i < 256
    ensures Entry(width, false, poly, i as bv8) == LowBits(Steps(8, width, false, SetupPoly(width, false, poly), Lift(width, i)), width)
  {
    hide *;
    var p := SetupPoly(width, false, poly);
    EntryShape(width, false, poly, i as bv8);
    WideMask(width, UpdateSpec(width, false, p, 0, i as bv8));
    UpdateSpecShape(width, false, p, 0, i as bv8);
    WideFeedIndex(width, i);
  }

  /** The table side of a wide update, split at the window. */
  lemma WideTableSide(width: bv8, poly: bv64, state: bv64, data: bv8)
    requires 9 <= width <= 64
    ensures LowBits(TableUpdate(width, false, TableSpec(width, false, poly), state, data), width)
         == Xor(LowBits(Steps(8, width, false, SetupPoly(width, false, poly), Lift(width, Index(width, false, state, data))), width),
                LowBits(state << 8, width))
  {
    hide *;
    var table := TableSpec(width, false, poly);
    var idx := Index(width, false, state, data);
    WideTableUpdateShape(width, table, state, data);
    TableSpecEntry(width, false, poly, idx);
    WideEntry(width, poly, idx);
    LowBitsXor(At(table, idx), state << 8, width);
    LowBitsIdem(Steps(8, width, false, SetupPoly(width, false, poly), Lift(width, idx)), width);
  }

  /** A register whose bits all lie below the window is only shifted by eight wide steps. */
  lemma WideQuiet(width: bv8, poly: bv64, t: bv64)
    requires 9 <= width <= 64
    ensures Steps(8, width, false, poly, LowBits(t, width - 8)) == LowBits(t, width - 8) << 8
  {
    hide *;
    var lo := LowBits(t, width - 8);
    assert (width - 8) as int + 8 <= width as int;
    GenStepsShape(8, width, poly, lo);
    GenQuiet(8, width, poly, lo, width - 8);
    ShlEight(lo);
  }

  /** The bitwise side of a wide update, split at the window. */
  lemma WideBitwiseSide(width: bv8, poly: bv64, x: bv64, t: bv64, data: bv8)
    requires 9 <= width <= 64 && LowBits(x, width) == LowBits(t, width)
    ensures LowBits(UpdateSpec(width, false, poly, x, data), width)
         == Xor(LowBits(Steps(8, width, false, poly, Lift(width, Index(width, false, t, data))), width),
                LowBits(t << 8, width))
  {
    hide *;
    var hi := Lift(width, Index(width, false, t, data));
    var lo := LowBits(t, width - 8);
    var fed := Feed(width, false, x, data);
    UpdateSpecShape(width, false, poly, x, data);
    WideStepsLow(8, width, poly, fed);
    Window(width, x, t, data);
    StepsLinear(8, width, false, poly, hi, lo);
    LowBitsXor(Steps(8, width, false, poly, hi), Steps(8, width, false, poly, lo), width);
    WideQuiet(width, poly, t);
  }

  /** In the wide convention a table lookup agrees with the bitwise update on the low `width` bits. */
  lemma WideTableStep(width: bv8, poly: bv64, state: bv64, x: bv64, data: bv8)
    requires 9 <= width <= 64 && LowBits(x, width) == LowBits(state, width)
    ensures LowBits(TableUpdate(width, false, TableSpec(width, false, poly), state, data), width)
         == LowBits(UpdateSpec(width, false, SetupPoly(width, false, poly), x, data), width)
  {
    hide *;
    WideTableSide(width, poly, state, data);
    WideBitwiseSide(width, SetupPoly(width, false, poly), x, state, data);
  }
}
