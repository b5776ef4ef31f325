/**
 * The bit-at-a-time CRC engine: parameter setup, the per-byte register
 * update, the final result transformation and the whole-message CRC.
 *
 * Three register conventions are used, chosen by the parameters:
 *  - reflected: the register holds the CRC bit-reversed, shifted right;
 *  - narrow (not reflected, width below 8): the CRC sits in the top `width`
 *    bits of the low byte, so that each step examines bit 7;
 *  - wide (not reflected, width 8 or more): the CRC sits in the low `width`
 *    bits and each step examines bit `width - 1`.
 * In the two non-reflected conventions the register is never masked while
 * data is processed; bits shifted past the CRC are cleared by the result step.
 */
module Engine {
  import opened Bits
  import opened Reflection

  /** The register holds a byte-aligned CRC (non-reflected, at most 8 bits) and is masked to one byte. */
  predicate ByteMode(width: bv8, reflected: bool) {
    !reflected && width <= 8
  }

  /** Number of low register bits the mask keeps. */
  function MaskWidth(width: bv8, reflected: bool): bv8 {
    if ByteMode(width, reflected) then 8 else width
  }

  /**
   * Keeps the low bits of a register value that belong to the CRC: a whole
   * byte for narrow non-reflected CRCs, `width` bits otherwise.  For a 64-bit
   * CRC the value is returned unchanged.
   */
  function Mask(width: bv8, reflected: bool, value: bv64): (r: bv64)
    requires 1 <= width <= 64
  {
    if !reflected && width <= 8 then value & 0xff
    else if width == 64 then value
    else value & (((1 as bv64) << width) - 1)
  }

  /** Converts an initial value into the register convention. */
  function SetupState(width: bv8, reflected: bool, iv: bv64): bv64
    requires 1 <= width <= 64
  {
    if reflected then Reflect(width, iv)
    else if width < 8 then iv << (8 - width)
    else iv
  }

  /** Converts a generator polynomial into the register convention. */
  function SetupPoly(width: bv8, reflected: bool, poly: bv64): bv64
    requires 1 <= width <= 64
  {
    if reflected then Reflect(width, poly)
    else if width < 8 then poly << (8 - width)
    else poly
  }

  /** Brings one data byte into the register, ahead of the eight shift steps. */
  function Feed(width: bv8, reflected: bool, state: bv64, data: bv8): bv64
    requires 1 <= width <= 64
  {
    if reflected then state ^ (data as bv64)
    else if width < 8 then state ^ (data as bv64)
    else state ^ ((data as bv64) << (width - 8))
  }

  /** One shift of the register, adding the polynomial when the bit shifted out is set. */
  function Step(width: bv8, reflected: bool, poly: bv64, state: bv64): bv64
    requires 1 <= width <= 64
  {
    if reflected then
      (if state & 1 != 0 then (state >> 1) ^ poly else state >> 1)
    else if width < 8 then
      (if state & 0x80 != 0 then (state << 1) ^ poly else state << 1)
    else
      (if state & ((1 as bv64) << (width - 1)) != 0 then (state << 1) ^ poly else state << 1)
  }

  /** `n` shift steps. */
  function Steps(n: nat, width: bv8, reflected: bool, poly: bv64, state: bv64): bv64
    requires 1 <= width <= 64
  {
    if n == 0 then state else Steps(n - 1, width, reflected, poly, Step(width, reflected, poly, state))
  }

  /** The register after one data byte: the byte is fed in, then the register is shifted eight times. */
  function UpdateSpec(width: bv8, reflected: bool, poly: bv64, state: bv64, data: bv8): bv64
    requires 1 <= width <= 64
  {
    Steps(8, width, reflected, poly, Feed(width, reflected, state, data))
  }

  /** Converts the final register back into an unreflected, right-aligned CRC value. */
  function Finalize(width: bv8, reflected: bool, state: bv64): bv64
    requires 1 <= width <= 64
  {
    if reflected then state
    else if width < 8 then (state & 0xff) >> (8 - width)
    else Mask(width, reflected, state)
  }

  /** The CRC value of the final register: the finalized register with the output xor applied. */
  function Result(width: bv8, reflected: bool, xorout: bv64, state: bv64): bv64
    requires 1 <= width <= 64
  {
    Finalize(width, reflected, state) ^ xorout
  }

  /** The register after a sequence of bytes, starting from `state`; `poly` is already set up. */
  function Process(width: bv8, reflected: bool, poly: bv64, state: bv64, data: seq<bv8>): bv64
    requires 1 <= width <= 64
  {
    if |data| == 0 then state
    else UpdateSpec(width, reflected, poly, Process(width, reflected, poly, state, data[..|data| - 1]), data[|data| - 1])
  }

  /** The CRC of a message, computed one bit at a time. */
  function CrcSpec(width: bv8, reflected: bool, poly: bv64, iv: bv64, xorout: bv64, data: seq<bv8>): bv64
    requires 1 <= width <= 64
  {
    var p := SetupPoly(width, reflected, poly);
    Result(width, reflected, xorout, Process(width, reflected, p, SetupState(width, reflected, iv), data))
  }

  /** Feeds one byte into the register and shifts it eight times, bit by bit. */
  method Update(width: bv8, reflected: bool, poly: bv64, state: bv64, data: bv8) returns (r: bv64)
    requires 1 <= width <= 64
    ensures r == UpdateSpec(width, reflected, poly, state, data)
  {
    r := state;
    var bit := 8;
    if reflected {
      r := r ^ (data as bv64);
      while bit > 0
        invariant 0 <= bit <= 8
        invariant Steps(bit, width, reflected, poly, r) == UpdateSpec(width, reflected, poly, state, data)
      {
        if r & 1 != 0 {
          r := (r >> 1) ^ poly;
        } else {
          r := r >> 1;
        }
        bit := bit - 1;
      }
    } else if width < 8 {
      r := r ^ (data as bv64);
      while bit > 0
        invariant 0 <= bit <= 8
        invariant Steps(bit, width, reflected, poly, r) == UpdateSpec(width, reflected, poly, state, data)
      {
        if r & 0x80 != 0 {
          r := (r << 1) ^ poly;
        } else {
          r := r << 1;
        }
        bit := bit - 1;
      }
    } else {
      r := r ^ ((data as bv64) << (width - 8));
      while bit > 0
        invariant 0 <= bit <= 8
        invariant Steps(bit, width, reflected, poly, r) == UpdateSpec(width, reflected, poly, state, data)
      {
        if r & ((1 as bv64) << (width - 1)) != 0 {
          r := (r << 1) ^ poly;
        } else {
          r := r << 1;
        }
        bit := bit - 1;
      }
    }
  }

  /** Computes the CRC of `data` one bit at a time. */
  method Crc(width: bv8, reflected: bool, poly: bv64, iv: bv64, xorout: bv64, data: array<bv8>) returns (crc: bv64)
    requires 1 <= width <= 64
    ensures crc == CrcSpec(width, reflected, poly, iv, xorout, data[..])
  {
    var p := SetupPoly(width, reflected, poly);
    var state := SetupState(width, reflected, iv);
    var i := 0;
    while i < data.Length
      invariant 0 <= i <= data.Length
      invariant state == Process(width, reflected, p, SetupState(width, reflected, iv), data[..i])
    {
      state := Update(width, reflected, p, state, data[i]);
      assert data[..i + 1][..i] == data[..i];
      i := i + 1;
    }
    assert data[..data.Length] == data[..];
    crc := Result(width, reflected, xorout, state);
  }

  /** A value that already fits the width passes the reflected mask unchanged. */
  lemma MaskFits(width: bv8, value: bv64)
    requires 1 <= width <= 64 && Fits(value, width)
    ensures Mask(width, true, value) == value
  {
  }
}
