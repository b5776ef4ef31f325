/**
 * A left-shifting register step that tests an arbitrary bit `top`: the
 * non-reflected update steps of the engine are instances of it.  The low bits
 * it produces, under any mask closed under shifting right that covers `top`,
 * depend only on the low bits it starts from.
 */
module LeftShifts {
  import opened Bits

  /** A left-shifting step that tests the bit `top`: the polynomial is added when that bit is shifted out. */
  function GenStep(top: bv64, poly: bv64, x: bv64): bv64 {
    if Masked(x, top) != 0 then Xor(Shl1(x), poly) else Shl1(x)
  }

  function GenSteps(n: nat, top: bv64, poly: bv64, x: bv64): bv64 {
    if n == 0 then x else GenSteps(n - 1, top, poly, GenStep(top, poly, x))
  }

  /** A left shift by one, named so that proofs can treat it as an opaque operation. */
  function Shl1(v: bv64): bv64 {
    v << 1
  }

  lemma GenStepsUnfold(n: nat, top: bv64, poly: bv64, x: bv64)
    requires 0 < n
    ensures GenSteps(n, top, poly, x) == GenSteps(n - 1, top, poly, GenStep(top, poly, x))
  {
  }

  lemma GenStepsZero(top: bv64, poly: bv64, x: bv64)
    ensures GenSteps(0, top, poly, x) == x
  {
  }

  // The low bits of a step depend only on the low bits it starts from.

  /** `y` restricted to the bits of `m`, named so that proofs can treat it as an opaque operation. */
  function Masked(y: bv64, m: bv64): bv64 {
    y & m
  }

  lemma MaskedShape(y: bv64, m: bv64)
    ensures Masked(y, m) == y & m
  {
  }

  lemma GenStepSet(top: bv64, poly: bv64, y: bv64)
    requires Masked(y, top) != 0
    ensures GenStep(top, poly, y) == Xor(Shl1(y), poly)
  {
  }

  lemma GenStepClear(top: bv64, poly: bv64, y: bv64)
    requires Masked(y, top) == 0
    ensures GenStep(top, poly, y) == Shl1(y)
  {
  }

  /** Masking keeps the bit `top` when the mask covers it. */
  lemma TestMasked(top: bv64, m: bv64, y: bv64)
    ensures top & m == top ==> Masked(Masked(y, m), top) == Masked(y, top)
  {
  }

  /** The low bits of a shift with the polynomial added depend only on the low bits shifted. */
  lemma SetLow(m: bv64, poly: bv64, y: bv64)
    ensures (m >> 1) & m == m >> 1 ==> Masked(Xor(Shl1(y), poly), m) == Masked(Xor(Shl1(Masked(y, m)), poly), m)
  {
  }

  /** The low bits of a plain shift depend only on the low bits shifted. */
  lemma ClearLow(m: bv64, y: bv64)
    ensures (m >> 1) & m == m >> 1 ==> Masked(Shl1(y), m) == Masked(Shl1(Masked(y, m)), m)
  {
  }

  lemma GenLow(top: bv64, m: bv64, poly: bv64, y: bv64)
    requires top & m == top && (m >> 1) & m == m >> 1
    ensures Masked(GenStep(top, poly, y), m) == Masked(GenStep(top, poly, Masked(y, m)), m)
  {
    hide *;
    TestMasked(top, m, y);
    if Masked(y, top) != 0 {
      GenStepSet(top, poly, y);
      GenStepSet(top, poly, Masked(y, m));
      SetLow(m, poly, y);
    } else {
      GenStepClear(top, poly, y);
      GenStepClear(top, poly, Masked(y, m));
      ClearLow(m, y);
    }
  }

  lemma MaskedTwice(y: bv64, m: bv64)
    ensures Masked(Masked(y, m), m) == Masked(y, m)
  {
  }

  lemma {:induction false} GenStepsLow(n: nat, top: bv64, m: bv64, poly: bv64, y: bv64)
    requires top & m == top && (m >> 1) & m == m >> 1
    ensures Masked(GenSteps(n, top, poly, y), m) == Masked(GenSteps(n, top, poly, Masked(y, m)), m)
  {
    hide *;
    if n == 0 {
      GenStepsZero(top, poly, y);
      GenStepsZero(top, poly, Masked(y, m));
      MaskedTwice(y, m);
    } else {
      var s := GenStep(top, poly, y);
      var s' := GenStep(top, poly, Masked(y, m));
      GenStepsUnfold(n, top, poly, y);
      GenStepsUnfold(n, top, poly, Masked(y, m));
      GenLow(top, m, poly, y);
      GenStepsLow(n - 1, top, m, poly, s);
      GenStepsLow(n - 1, top, m, poly, s');
    }
  }
}
