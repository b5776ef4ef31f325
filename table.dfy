/**
 * The table-driven CRC engine: a 256-entry table holds the register update
 * for every possible byte, so that each data byte costs one lookup.
 */
module Table {
  import opened Bits
  import opened Reflection
  import opened Engine

  /** Table entry for byte value `i`: one update of an all-zero register, masked. */
  function Entry(width: bv8, reflected: bool, poly: bv64, i: bv8): bv64
    requires 1 <= width <= 64
  {
    Mask(width, reflected, UpdateSpec(width, reflected, SetupPoly(width, reflected, poly), 0, i))
  }

  /** The table that table initialisation fills in. */
  function TableSpec(width: bv8, reflected: bool, poly: bv64): (t: seq<bv64>)
    requires 1 <= width <= 64
    ensures |t| == 256
  {
    seq(256, i requires 0 <= i < 256 => Entry(width, reflected, poly, i as bv8))
  }

  /** Table index for a data byte and the register. */
  function Index(width: bv8, reflected: bool, state: bv64, data: bv8): (i: bv64)
    requires 1 <= width <= 64
    ensures Indexable(width, reflected, state) ==> i < 256
  {
    if reflected then ((data as bv64) ^ state) & 0xff
    else if width <= 8 then (data as bv64) ^ state
    else ((data as bv64) ^ (state >> (width - 8))) & 0xff
  }

  /**
   * A register the table can be used with: in byte mode the register is used
   * as a table index without masking, so it has to be below 256.
   */
  predicate Indexable(width: bv8, reflected: bool, state: bv64) {
    ByteMode(width, reflected) ==> state < 256
  }

  /** Register update for one byte by table lookup. */
  function TableUpdate(width: bv8, reflected: bool, table: seq<bv64>, state: bv64, data: bv8): (r: bv64)
    requires 1 <= width <= 64 && |table| == 256
    requires Indexable(width, reflected, state)
    ensures ByteTable(width, reflected, table) ==> Indexable(width, reflected, r)
  {
    var i := Index(width, reflected, state, data);
    if reflected then table[i as int] ^ (state >> 8)
    else if width <= 8 then table[i as int]
    else table[i as int] ^ (state << 8)
  }

  /** Every entry of a table usable in byte mode is below 256. */
  predicate ByteTable(width: bv8, reflected: bool, table: seq<bv64>) {
    ByteMode(width, reflected) ==> forall i :: 0 <= i < |table| ==> table[i] < 256
  }

  /** The register after a sequence of bytes, by table lookup. */
  function TableProcess(width: bv8, reflected: bool, table: seq<bv64>, state: bv64, data: seq<bv8>): (r: bv64)
    requires 1 <= width <= 64 && |table| == 256
    requires ByteTable(width, reflected, table) && Indexable(width, reflected, state)
    ensures Indexable(width, reflected, r)
  {
    if |data| == 0 then state
    else TableUpdate(width, reflected, table, TableProcess(width, reflected, table, state, data[..|data| - 1]), data[|data| - 1])
  }

  /** The CRC of a message, computed with a table. */
  function TableCrcSpec(width: bv8, reflected: bool, table: seq<bv64>, iv: bv64, xorout: bv64, data: seq<bv8>): bv64
    requires 1 <= width <= 64 && |table| == 256
    requires ByteTable(width, reflected, table) && Indexable(width, reflected, SetupState(width, reflected, iv))
  {
    Result(width, reflected, xorout, TableProcess(width, reflected, table, SetupState(width, reflected, iv), data))
  }

  /** Fills `table` with the update of an all-zero register for each of the 256 byte values. */
  method TableInit(width: bv8, reflected: bool, poly: bv64, table: array<bv64>)
    requires 1 <= width <= 64 && table.Length == 256
    modifies table
    ensures table[..] == TableSpec(width, reflected, poly)
  {
    var p := SetupPoly(width, reflected, poly);
    for i := 0 to 256
      invariant table[..i] == TableSpec(width, reflected, poly)[..i]
    {
      var u := Update(width, reflected, p, 0, i as bv8);
      table[i] := Mask(width, reflected, u);
    }
  }

  /** Computes the CRC of `data` with a table, one lookup per byte. */
  method TableCrc(width: bv8, reflected: bool, table: array<bv64>, iv: bv64, xorout: bv64, data: array<bv8>) returns (crc: bv64)
    requires 1 <= width <= 64 && table.Length == 256
    requires ByteTable(width, reflected, table[..]) && Indexable(width, reflected, SetupState(width, reflected, iv))
    ensures crc == TableCrcSpec(width, reflected, table[..], iv, xorout, data[..])
  {
    var state := SetupState(width, reflected, iv);
    var i := 0;
    while i < data.Length
      invariant 0 <= i <= data.Length
      invariant state == TableProcess(width, reflected, table[..], SetupState(width, reflected, iv), data[..i])
    {
      state := TableUpdate(width, reflected, table[..], state, data[i]);
      assert data[..i + 1][..i] == data[..i];
      i := i + 1;
    }
    assert data[..data.Length] == data[..];
    crc := Result(width, reflected, xorout, state);
  }

  // Access lemmas for the table specification, shared by the agreement proofs.

  lemma EntryShape(width: bv8, reflected: bool, poly: bv64, i: bv8)
    requires 1 <= width <= 64
    ensures Entry(width, reflected, poly, i) == Mask(width, reflected, UpdateSpec(width, reflected, SetupPoly(width, reflected, poly), 0, i))
  {
  }

  lemma TableSpecAt(width: bv8, reflected: bool, poly: bv64, j: int)
    requires 1 <= width <= 64 && 0 <= j < 256
    ensures TableSpec(width, reflected, poly)[j] == Entry(width, reflected, poly, j as bv8)
  {
  }

  lemma IndexConvert(k: bv64)
    requires k < 256
    ensures 0 <= k as int < 256 && (k as int) as bv8 == k as bv8
  {
  }

  /** Table entry `k`, with the index given as a register value. */
  function At(table: seq<bv64>, k: bv64): bv64
    requires |table| == 256 && k < 256
  {
    table[k as int]
  }

  lemma AtShape(table: seq<bv64>, k: bv64)
    requires |table| == 256 && k < 256
    ensures At(table, k) == table[k as int]
  {
  }

  /** Entry `k` of the table is the update of an all-zero register by byte `k`. */
  lemma TableSpecEntry(width: bv8, reflected: bool, poly: bv64, k: bv64)
    requires 1 <= width <= 64 && k < 256
    ensures At(TableSpec(width, reflected, poly), k) == Entry(width, reflected, poly, k as bv8)
  {
    hide *;
    IndexConvert(k);
    AtShape(TableSpec(width, reflected, poly), k);
    TableSpecAt(width, reflected, poly, k as int);
  }
}
