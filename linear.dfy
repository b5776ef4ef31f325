/**
 * The shift steps are linear over GF(2): stepping the xor of two registers
 * gives the xor of the stepped registers.  This is what lets a table of
 * 256 single-byte updates stand in for the bit-by-bit engine.
 */
module Linear {
  import opened Bits
  import opened Engine

  // The three register conventions' shift steps, each on its own.

  function RightStep(poly: bv64, x: bv64): bv64 {
    if x & 1 != 0 then (x >> 1) ^ poly else x >> 1
  }

  function NarrowStep(poly: bv64, x: bv64): bv64 {
    if x & 0x80 != 0 then (x << 1) ^ poly else x << 1
  }

  function WideStep(width: bv8, poly: bv64, x: bv64): bv64
    requires 8 <= width <= 64
  {
    if x & ((1 as bv64) << (width - 1)) != 0 then (x << 1) ^ poly else x << 1
  }

  lemma RightShape(width: bv8, reflected: bool, poly: bv64, x: bv64)
    requires 1 <= width <= 64 && reflected
    ensures Step(width, reflected, poly, x) == RightStep(poly, x)
  {
  }

  lemma NarrowShape(width: bv8, reflected: bool, poly: bv64, x: bv64)
    requires 1 <= width < 8 && !reflected
    ensures Step(width, reflected, poly, x) == NarrowStep(poly, x)
  {
  }

  lemma WideShape(width: bv8, reflected: bool, poly: bv64, x: bv64)
    requires 8 <= width <= 64 && !reflected
    ensures Step(width, reflected, poly, x) == WideStep(width, poly, x)
  {
  }

  lemma StepsUnfold(n: nat, width: bv8, reflected: bool, poly: bv64, x: bv64)
    requires 1 <= width <= 64 && 0 < n
    ensures Steps(n, width, reflected, poly, x) == Steps(n - 1, width, reflected, poly, Step(width, reflected, poly, x))
  {
  }

  lemma StepsZero(width: bv8, reflected: bool, poly: bv64, x: bv64)
    requires 1 <= width <= 64
    ensures Steps(0, width, reflected, poly, x) == x
  {
  }

  lemma ShiftLeftXor(a: bv64, b: bv64)
    ensures (a ^ b) << 1 == (a << 1) ^ (b << 1)
  {
  }

  lemma ShiftRightXor(a: bv64, b: bv64)
    ensures (a ^ b) >> 1 == (a >> 1) ^ (b >> 1)
  {
  }

  lemma RightLinear11(poly: bv64, a: bv64, b: bv64)
    requires a & 1 != 0 && b & 1 != 0
    ensures RightStep(poly, a ^ b) == RightStep(poly, a) ^ RightStep(poly, b)
  {
    ShiftRightXor(a, b);
  }

  lemma RightLinear10(poly: bv64, a: bv64, b: bv64)
    requires a & 1 != 0 && b & 1 == 0
    ensures RightStep(poly, a ^ b) == RightStep(poly, a) ^ RightStep(poly, b)
  {
    ShiftRightXor(a, b);
  }

  lemma RightLinear01(poly: bv64, a: bv64, b: bv64)
    requires a & 1 == 0 && b & 1 != 0
    ensures RightStep(poly, a ^ b) == RightStep(poly, a) ^ RightStep(poly, b)
  {
    ShiftRightXor(a, b);
  }

  lemma RightLinear00(poly: bv64, a: bv64, b: bv64)
    requires a & 1 == 0 && b & 1 == 0
    ensures RightStep(poly, a ^ b) == RightStep(poly, a) ^ RightStep(poly, b)
  {
    ShiftRightXor(a, b);
  }

  lemma RightLinear(poly: bv64, a: bv64, b: bv64)
    ensures RightStep(poly, a ^ b) == RightStep(poly, a) ^ RightStep(poly, b)
  {
    hide *;
    if a & 1 != 0 {
      if b & 1 != 0 {
        RightLinear11(poly, a, b);
      } else {
        RightLinear10(poly, a, b);
      }
    } else {
      if b & 1 != 0 {
        RightLinear01(poly, a, b);
      } else {
        RightLinear00(poly, a, b);
      }
    }
  }

  lemma RightLinearXor(poly: bv64, a: bv64, b: bv64)
    ensures RightStep(poly, Xor(a, b)) == Xor(RightStep(poly, a), RightStep(poly, b))
  {
    hide *;
    XorShape(a, b);
    XorShape(RightStep(poly, a), RightStep(poly, b));
    RightLinear(poly, a, b);
  }


  lemma NarrowLinear11(poly: bv64, a: bv64, b: bv64)
    requires a & 0x80 != 0 && b & 0x80 != 0
    ensures NarrowStep(poly, a ^ b) == NarrowStep(poly, a) ^ NarrowStep(poly, b)
  {
    ShiftLeftXor(a, b);
  }

  lemma NarrowLinear10(poly: bv64, a: bv64, b: bv64)
    requires a & 0x80 != 0 && b & 0x80 == 0
    ensures NarrowStep(poly, a ^ b) == NarrowStep(poly, a) ^ NarrowStep(poly, b)
  {
    ShiftLeftXor(a, b);
  }

  lemma NarrowLinear01(poly: bv64, a: bv64, b: bv64)
    requires a & 0x80 == 0 && b & 0x80 != 0
    ensures NarrowStep(poly, a ^ b) == NarrowStep(poly, a) ^ NarrowStep(poly, b)
  {
    ShiftLeftXor(a, b);
  }

  lemma NarrowLinear00(poly: bv64, a: bv64, b: bv64)
    requires a & 0x80 == 0 && b & 0x80 == 0
    ensures NarrowStep(poly, a ^ b) == NarrowStep(poly, a) ^ NarrowStep(poly, b)
  {
    ShiftLeftXor(a, b);
  }

  lemma NarrowLinear(poly: bv64, a: bv64, b: bv64)
    ensures NarrowStep(poly, a ^ b) == NarrowStep(poly, a) ^ NarrowStep(poly, b)
  {
    hide *;
    if a & 0x80 != 0 {
      if b & 0x80 != 0 {
        NarrowLinear11(poly, a, b);
      } else {
        NarrowLinear10(poly, a, b);
      }
    } else {
      if b & 0x80 != 0 {
        NarrowLinear01(poly, a, b);
      } else {
        NarrowLinear00(poly, a, b);
      }
    }
  }
  lemma NarrowLinearXor(poly: bv64, a: bv64, b: bv64)
    ensures NarrowStep(poly, Xor(a, b)) == Xor(NarrowStep(poly, a), NarrowStep(poly, b))
  {
    hide *;
    XorShape(a, b);
    XorShape(NarrowStep(poly, a), NarrowStep(poly, b));
    NarrowLinear(poly, a, b);
  }


  lemma WideLinear11(width: bv8, poly: bv64, a: bv64, b: bv64)
    requires 8 <= width <= 64 && a & ((1 as bv64) << (width - 1)) != 0 && b & ((1 as bv64) << (width - 1)) != 0 && (a ^ b) & ((1 as bv64) << (width - 1)) == 0
    ensures WideStep(width, poly, a ^ b) == WideStep(width, poly, a) ^ WideStep(width, poly, b)
  {
    ShiftLeftXor(a, b);
  }

  lemma WideLinear10(width: bv8, poly: bv64, a: bv64, b: bv64)
    requires 8 <= width <= 64 && a & ((1 as bv64) << (width - 1)) != 0 && b & ((1 as bv64) << (width - 1)) == 0 && (a ^ b) & ((1 as bv64) << (width - 1)) != 0
    ensures WideStep(width, poly, a ^ b) == WideStep(width, poly, a) ^ WideStep(width, poly, b)
  {
    ShiftLeftXor(a, b);
  }

  lemma WideLinear01(width: bv8, poly: bv64, a: bv64, b: bv64)
    requires 8 <= width <= 64 && a & ((1 as bv64) << (width - 1)) == 0 && b & ((1 as bv64) << (width - 1)) != 0 && (a ^ b) & ((1 as bv64) << (width - 1)) != 0
    ensures WideStep(width, poly, a ^ b) == WideStep(width, poly, a) ^ WideStep(width, poly, b)
  {
    ShiftLeftXor(a, b);
  }

  lemma WideLinear00(width: bv8, poly: bv64, a: bv64, b: bv64)
    requires 8 <= width <= 64 && a & ((1 as bv64) << (width - 1)) == 0 && b & ((1 as bv64) << (width - 1)) == 0 && (a ^ b) & ((1 as bv64) << (width - 1)) == 0
    ensures WideStep(width, poly, a ^ b) == WideStep(width, poly, a) ^ WideStep(width, poly, b)
  {
    ShiftLeftXor(a, b);
  }

  lemma TopBitXor11(width: bv8, a: bv64, b: bv64)
    requires 8 <= width <= 64 && a & ((1 as bv64) << (width - 1)) != 0 && b & ((1 as bv64) << (width - 1)) != 0
    ensures (a ^ b) & ((1 as bv64) << (width - 1)) == 0
  {
  }

  lemma TopBitXor10(width: bv8, a: bv64, b: bv64)
    requires 8 <= width <= 64 && a & ((1 as bv64) << (width - 1)) != 0 && b & ((1 as bv64) << (width - 1)) == 0
    ensures (a ^ b) & ((1 as bv64) << (width - 1)) != 0
  {
  }

  lemma TopBitXor01(width: bv8, a: bv64, b: bv64)
    requires 8 <= width <= 64 && a & ((1 as bv64) << (width - 1)) == 0 && b & ((1 as bv64) << (width - 1)) != 0
    ensures (a ^ b) & ((1 as bv64) << (width - 1)) != 0
  {
  }

  lemma TopBitXor00(width: bv8, a: bv64, b: bv64)
    requires 8 <= width <= 64 && a & ((1 as bv64) << (width - 1)) == 0 && b & ((1 as bv64) << (width - 1)) == 0
    ensures (a ^ b) & ((1 as bv64) << (width - 1)) == 0
  {
  }

  lemma WideLinear(width: bv8, poly: bv64, a: bv64, b: bv64)
    requires 8 <= width <= 64
    ensures WideStep(width, poly, a ^ b) == WideStep(width, poly, a) ^ WideStep(width, poly, b)
  {
    hide *;
    if a & ((1 as bv64) << (width - 1)) != 0 {
      if b & ((1 as bv64) << (width - 1)) != 0 {
        TopBitXor11(width, a, b);
        WideLinear11(width, poly, a, b);
      } else {
        TopBitXor10(width, a, b);
        WideLinear10(width, poly, a, b);
      }
    } else {
      if b & ((1 as bv64) << (width - 1)) != 0 {
        TopBitXor01(width, a, b);
        WideLinear01(width, poly, a, b);
      } else {
        TopBitXor00(width, a, b);
        WideLinear00(width, poly, a, b);
      }
    }
  }
  lemma WideXorArgument(width: bv8, poly: bv64, a: bv64, b: bv64)
    requires 8 <= width <= 64
    ensures WideStep(width, poly, Xor(a, b)) == WideStep(width, poly, a ^ b)
  {
    hide *;
    XorShape(a, b);
  }

  lemma WideXorResult(width: bv8, poly: bv64, a: bv64, b: bv64)
    requires 8 <= width <= 64
    ensures Xor(WideStep(width, poly, a), WideStep(width, poly, b)) == WideStep(width, poly, a) ^ WideStep(width, poly, b)
  {
    hide *;
    XorShape(WideStep(width, poly, a), WideStep(width, poly, b));
  }

  lemma WideLinearXor(width: bv8, poly: bv64, a: bv64, b: bv64)
    requires 8 <= width <= 64
    ensures WideStep(width, poly, Xor(a, b)) == Xor(WideStep(width, poly, a), WideStep(width, poly, b))
  {
    hide *;
    WideXorArgument(width, poly, a, b);
    WideXorResult(width, poly, a, b);
    WideLinear(width, poly, a, b);
  }

  lemma RightStepLinear(width: bv8, reflected: bool, poly: bv64, a: bv64, b: bv64)
    requires 1 <= width <= 64 && reflected
    ensures Step(width, reflected, poly, Xor(a, b)) == Xor(Step(width, reflected, poly, a), Step(width, reflected, poly, b))
  {
    hide *;
    RightShape(width, reflected, poly, Xor(a, b));
    RightShape(width, reflected, poly, a);
    RightShape(width, reflected, poly, b);
    RightLinearXor(poly, a, b);
  }

  lemma NarrowStepLinear(width: bv8, reflected: bool, poly: bv64, a: bv64, b: bv64)
    requires 1 <= width < 8 && !reflected
    ensures Step(width, reflected, poly, Xor(a, b)) == Xor(Step(width, reflected, poly, a), Step(width, reflected, poly, b))
  {
    hide *;
    NarrowShape(width, reflected, poly, Xor(a, b));
    NarrowShape(width, reflected, poly, a);
    NarrowShape(width, reflected, poly, b);
    NarrowLinearXor(poly, a, b);
  }

  lemma WideStepLinear(width: bv8, reflected: bool, poly: bv64, a: bv64, b: bv64)
    requires 8 <= width <= 64 && !reflected
    ensures Step(width, reflected, poly, Xor(a, b)) == Xor(Step(width, reflected, poly, a), Step(width, reflected, poly, b))
  {
    hide *;
    WideShape(width, reflected, poly, Xor(a, b));
    WideShape(width, reflected, poly, a);
    WideShape(width, reflected, poly, b);
    WideLinearXor(width, poly, a, b);
  }

  /** One shift step distributes over xor, in every register convention. */
  lemma StepLinear(width: bv8, reflected: bool, poly: bv64, a: bv64, b: bv64)
    requires 1 <= width <= 64
    ensures Step(width, reflected, poly, Xor(a, b)) == Xor(Step(width, reflected, poly, a), Step(width, reflected, poly, b))
  {
    hide *;
    if reflected {
      RightStepLinear(width, reflected, poly, a, b);
    } else if width < 8 {
      NarrowStepLinear(width, reflected, poly, a, b);
    } else {
      WideStepLinear(width, reflected, poly, a, b);
    }
  }

  /** Any number of shift steps distributes over xor. */
  lemma {:induction false} StepsLinear(n: nat, width: bv8, reflected: bool, poly: bv64, a: bv64, b: bv64)
    requires 1 <= width <= 64
    ensures Steps(n, width, reflected, poly, Xor(a, b)) == Xor(Steps(n, width, reflected, poly, a), Steps(n, width, reflected, poly, b))
  {
    hide *;
    if n == 0 {
      StepsZero(width, reflected, poly, Xor(a, b));
      StepsZero(width, reflected, poly, a);
      StepsZero(width, reflected, poly, b);
    } else {
      var sa := Step(width, reflected, poly, a);
      var sb := Step(width, reflected, poly, b);
      StepLinear(width, reflected, poly, a, b);
      StepsLinear(n - 1, width, reflected, poly, sa, sb);
      StepsUnfold(n, width, reflected, poly, Xor(a, b));
      StepsUnfold(n, width, reflected, poly, a);
      StepsUnfold(n, width, reflected, poly, b);
    }
  }
}
