/** A table hash in the shape of a reflected CRC: the hash starts at the
    input length, and each byte replaces it by its upper 24 bits xored with
    the table entry that its low byte and the input byte select. The table
    is not a CRC table: each entry stacks four bytes of a scrambled walk. */
module GeneralizedCrc {
  import opened Words

  /** `x = (x + (x << 1)) & 0xff`: x times three, modulo 256. */
  function Triple(x: bv8): bv8
  {
    x + (x << 1)
  }

  /** `x ^= x >> 1` */
  function Fold(x: bv8): bv8
  {
    x ^ (x >> 1)
  }

  /** One scramble round with increment inc; eight-bit arithmetic keeps x
      within [0, 256). */
  function Round(x: bv8, inc: bv8): bv8
  {
    Fold(Triple(x + inc))
  }

  /** k more rounds with increment inc. */
  function Rounds(x: bv8, inc: bv8, k: nat): bv8
    decreases k
  {
    if k == 0 then x else Rounds(Round(x, inc), inc, k - 1)
  }

  /** One phase: five rounds. */
  function Phase(x: bv8, inc: bv8): bv8
  {
    Rounds(x, inc, 5)
  }

  /** x after the first, second, third and fourth phase, started from i. */
  function Phase1(i: bv8): bv8 { Phase(i, 1) }
  function Phase2(i: bv8): bv8 { Phase(Phase1(i), 2) }
  function Phase3(i: bv8): bv8 { Phase(Phase2(i), 3) }
  function Phase4(i: bv8): bv8 { Phase(Phase3(i), 4) }

  /** `table[i]`: the four phase results xored in at bits 0, 8, 16 and 24. */
  function TableEntry(i: bv8): bv32
  {
    (Phase1(i) as bv32) ^ ((Phase2(i) as bv32) << 8) ^ ((Phase3(i) as bv32) << 16)
      ^ ((Phase4(i) as bv32) << 24)
  }

  /** The four bytes do not overlap: byte k of the entry is x after phase
      k + 1, and the xors act as a plain packing. */
  lemma EntryBytes(i: bv8)
    ensures (TableEntry(i) & 0xFF) as bv8 == Phase1(i)
    ensures ((TableEntry(i) >> 8) & 0xFF) as bv8 == Phase2(i)
    ensures ((TableEntry(i) >> 16) & 0xFF) as bv8 == Phase3(i)
    ensures (TableEntry(i) >> 24) as bv8 == Phase4(i)
  {
  }

  /** The body of a phase loop, statement by statement. */
  method RoundStep(x: bv8, inc: bv8) returns (y: bv8)
    ensures y == Round(x, inc)
  {
    y := x + inc;
    y := y + (y << 1);
    y := y ^ (y >> 1);
  }

  /** One phase loop: `for (j = 0; j < 5; j++)`. */
  method RunPhase(x: bv8, inc: bv8) returns (y: bv8)
    ensures y == Phase(x, inc)
  {
    y := x;
    for j := 0 to 5
      invariant Rounds(y, inc, 5 - j) == Phase(x, inc)
    {
      y := RoundStep(y, inc);
    }
  }

  /** The body of `table()` for index i: four phases carried on from one
      another, each result packed into the next byte of val. */
  method ComputeEntry(i: bv8) returns (val: bv32)
    ensures val == TableEntry(i)
  {
    var x := RunPhase(i, 1);
    val := x as bv32;
    x := RunPhase(x, 2);
    val := val ^ ((x as bv32) << 8);
    x := RunPhase(x, 3);
    val := val ^ ((x as bv32) << 16);
    x := RunPhase(x, 4);
    val := val ^ ((x as bv32) << 24);
  }

  /** `table()`: the 256 entries. */
  method BuildTable() returns (t: array<bv32>)
    ensures fresh(t) && t.Length == 256
    ensures forall d: bv8 :: t[d as int] == TableEntry(d)
  {
    t := new bv32[256];
    for i := 0 to 256
      invariant forall k :: 0 <= k < i ==> t[k] == TableEntry(k as bv8)
    {
      Fill(t, i);
    }
  }

  /** `table[i] = val` for the entry computed for i. */
  method Fill(t: array<bv32>, i: nat)
    requires i < t.Length == 256
    modifies t
    ensures t[i] == TableEntry(i as bv8)
    ensures forall k :: 0 <= k < 256 && k != i ==> t[k] == old(t[k])
  {
    var entry := ComputeEntry(i as bv8);
    t[i] := entry;
  }

  /** The table as a value: entry d at index d. */
  function Table(): (t: seq<bv32>)
    ensures |t| == 256
    ensures forall d: bv8 :: t[d as int] == TableEntry(d)
  {
    seq(256, k requires 0 <= k < 256 => TableEntry(k as bv8))
  }

  /** One byte of the hash loop over table tbl:
      `(hash >>> 8) ^ tbl[(hash & 0xff) ^ b]`. */
  function Step(tbl: seq<bv32>, hash: bv32, b: bv8): bv32
    requires |tbl| == 256
  {
    (hash >> 8) ^ tbl[(((hash & 0xFF) as bv8) ^ b) as int]
  }

  /** The hash after the bytes of data from index i on. */
  function Run(tbl: seq<bv32>, hash: bv32, data: seq<bv8>, i: nat): bv32
    requires |tbl| == 256 && i <= |data|
    decreases |data| - i
  {
    if i == |data| then hash else Run(tbl, Step(tbl, hash, data[i]), data, i + 1)
  }

  /** The hash: the run over the table from the length as a word. */
  function Hash(data: seq<bv8>): bv32
  {
    Run(Table(), LengthWord(|data|), data, 0)
  }

  /** One pass of the hash loop: look the index up in the built table. */
  method TableStep(tbl: array<bv32>, hash: bv32, b: bv8) returns (r: bv32)
    requires tbl.Length == 256
    requires forall d: bv8 :: tbl[d as int] == TableEntry(d)
    ensures r == Step(Table(), hash, b)
  {
    r := (hash >> 8) ^ tbl[(((hash & 0xFF) as bv8) ^ b) as int];
  }

  /** GeneralizedCrc.compute */
  method Compute(data: seq<bv8>) returns (hash: bv32)
    ensures hash == Hash(data)
  {
    hash := LengthWord(|data|);
    var tbl := BuildTable();
    for i := 0 to |data|
      invariant forall d: bv8 :: tbl[d as int] == TableEntry(d)
      invariant Run(Table(), hash, data, i) == Hash(data)
    {
      hash := TableStep(tbl, hash, data[i]);
    }
  }

  /** Starting at index i of a + b, inside a, is finishing a and then
      running b from the hash a leaves. */
  lemma {:induction false} RunSplit(tbl: seq<bv32>, hash: bv32, a: seq<bv8>, b: seq<bv8>, i: nat)
    requires |tbl| == 256 && i <= |a|
    ensures Run(tbl, hash, a + b, i) == Run(tbl, Run(tbl, hash, a, i), b, 0)
    decreases |a| - i
  {
    if i == |a| {
      RunShift(tbl, hash, a, b, 0);
    } else {
      assert (a + b)[i] == a[i];
      RunSplit(tbl, Step(tbl, hash, a[i]), a, b, i + 1);
    }
  }

  /** Past the end of a, a + b runs exactly as b does. */
  lemma {:induction false} RunShift(tbl: seq<bv32>, hash: bv32, a: seq<bv8>, b: seq<bv8>, j: nat)
    requires |tbl| == 256 && j <= |b|
    ensures Run(tbl, hash, a + b, |a| + j) == Run(tbl, hash, b, j)
    decreases |b| - j
  {
    if j < |b| {
      assert (a + b)[|a| + j] == b[j];
      RunShift(tbl, Step(tbl, hash, b[j]), a, b, j + 1);
    }
  }

  /** The byte loop streams; only the starting value depends on the whole
      length, so a hash of a + b is not a function of the hash of a. */
  lemma RunConcat(tbl: seq<bv32>, hash: bv32, a: seq<bv8>, b: seq<bv8>)
    requires |tbl| == 256
    ensures Run(tbl, hash, a + b, 0) == Run(tbl, Run(tbl, hash, a, 0), b, 0)
  {
    RunSplit(tbl, hash, a, b, 0);
  }

  /** Empty input returns its length, 0. */
  lemma EmptyIsZero()
    ensures Hash([]) == 0
  {
  }

  /** The table entries "a" looks up. */
  lemma AEntries()
    ensures TableEntry(0x60) == 0x9DC3_B961
  {
    assert Round(0x60, 1) == 0x32;
    assert Round(0x32, 1) == 0xD5;
    assert Round(0xD5, 1) == 0xC3;
    assert Round(0xC3, 1) == 0x6A;
    assert Round(0x6A, 1) == 0x61;
    assert Phase(0x60, 1) == 0x61;
    assert Round(0x61, 2) == 0x3D;
    assert Round(0x3D, 2) == 0xE3;
    assert Round(0xE3, 2) == 0xF8;
    assert Round(0xF8, 2) == 0x99;
    assert Round(0x99, 2) == 0xB9;
    assert Phase(0x61, 2) == 0xB9;
    assert Round(0xB9, 3) == 0x2E;
    assert Round(0x2E, 3) == 0xDA;
    assert Round(0xDA, 3) == 0xDC;
    assert Round(0xDC, 3) == 0xD3;
    assert Round(0xD3, 3) == 0xC3;
    assert Phase(0xB9, 3) == 0xC3;
    assert Round(0xC3, 4) == 0x7F;
    assert Round(0x7F, 4) == 0xCD;
    assert Round(0xCD, 4) == 0x4A;
    assert Round(0x4A, 4) == 0x9F;
    assert Round(0x9F, 4) == 0x9D;
    assert Phase(0xC3, 4) == 0x9D;
  }

  /** The steps of the hash loop over "a" on any table holding the
      entries it looks up. */
  lemma ASteps(tbl: seq<bv32>)
    requires |tbl| == 256 && forall d: bv8 :: tbl[d as int] == TableEntry(d)
    ensures Step(tbl, 0x0000_0001, 0x61) == 0x9DC3_B961
  {
    AEntries();
    assert tbl[(0x60 as bv8) as int] == 0x9DC3_B961;
  }

  /** The hash loop over "a". */
  lemma ARun(tbl: seq<bv32>)
    requires |tbl| == 256 && forall d: bv8 :: tbl[d as int] == TableEntry(d)
    ensures Run(tbl, 0x0000_0001, [0x61], 0) == 0x9DC3_B961
  {
    ASteps(tbl);
    var d: seq<bv8> := [0x61];
    assert Run(tbl, 0x9DC3_B961, d, 1) == 0x9DC3_B961;
    assert Run(tbl, 0x0000_0001, d, 0) == 0x9DC3_B961;
  }

  /** "a" hashes to 0x9DC3_B961. */
  lemma VectorA()
    ensures Hash([0x61]) == 0x9DC3_B961
  {
    assert LengthWord(1) == 1;
    ARun(Table());
  }

  /** The table entries "abc" looks up. */
  lemma AbcEntries()
    ensures TableEntry(0x62) == 0x8B80_1B9E
    ensures TableEntry(0xFC) == 0x1AFC_BA79
    ensures TableEntry(0x01) == 0x66ED_F9AA
  {
    assert Round(0x62, 1) == 0x3D;
    assert Round(0x3D, 1) == 0xE7;
    assert Round(0xE7, 1) == 0xE4;
    assert Round(0xE4, 1) == 0xF8;
    assert Round(0xF8, 1) == 0x9E;
    assert Phase(0x62, 1) == 0x9E;
    assert Round(0x9E, 2) == 0x90;
    assert Round(0x90, 2) == 0xED;
    assert Round(0xED, 2) == 0xAB;
    assert Round(0xAB, 2) == 0x04;
    assert Round(0x04, 2) == 0x1B;
    assert Phase(0x9E, 2) == 0x1B;
    assert Round(0x1B, 3) == 0x77;
    assert Round(0x77, 3) == 0x59;
    assert Round(0x59, 3) == 0x1E;
    assert Round(0x1E, 3) == 0x52;
    assert Round(0x52, 3) == 0x80;
    assert Phase(0x1B, 3) == 0x80;
    assert Round(0x80, 4) == 0xCA;
    assert Round(0xCA, 4) == 0x5F;
    assert Round(0x5F, 4) == 0x3D;
    assert Round(0x3D, 4) == 0xA2;
    assert Round(0xA2, 4) == 0x8B;
    assert Phase(0x80, 4) == 0x8B;
    assert Round(0xFC, 1) == 0x8C;
    assert Round(0x8C, 1) == 0xF4;
    assert Round(0xF4, 1) == 0xB0;
    assert Round(0xB0, 1) == 0x1A;
    assert Round(0x1A, 1) == 0x79;
    assert Phase(0xFC, 1) == 0x79;
    assert Round(0x79, 2) == 0x49;
    assert Round(0x49, 2) == 0x91;
    assert Round(0x91, 2) == 0xE5;
    assert Round(0xE5, 2) == 0xEF;
    assert Round(0xEF, 2) == 0xBA;
    assert Phase(0x79, 2) == 0xBA;
    assert Round(0xBA, 3) == 0x2C;
    assert Round(0x2C, 3) == 0xCB;
    assert Round(0xCB, 3) == 0x5F;
    assert Round(0x5F, 3) == 0x35;
    assert Round(0x35, 3) == 0xFC;
    assert Phase(0xBA, 3) == 0xFC;
    assert Round(0xFC, 4) == 0x00;
    assert Round(0x00, 4) == 0x0A;
    assert Round(0x0A, 4) == 0x3F;
    assert Round(0x3F, 4) == 0xAD;
    assert Round(0xAD, 4) == 0x1A;
    assert Phase(0xFC, 4) == 0x1A;
    assert Round(0x01, 1) == 0x05;
    assert Round(0x05, 1) == 0x1B;
    assert Round(0x1B, 1) == 0x7E;
    assert Round(0x7E, 1) == 0x43;
    assert Round(0x43, 1) == 0xAA;
    assert Phase(0x01, 1) == 0xAA;
    assert Round(0xAA, 2) == 0x06;
    assert Round(0x06, 2) == 0x14;
    assert Round(0x14, 2) == 0x63;
    assert Round(0x63, 2) == 0x38;
    assert Round(0x38, 2) == 0xF9;
    assert Phase(0xAA, 2) == 0xF9;
    assert Round(0xF9, 3) == 0x8E;
    assert Round(0x8E, 3) == 0xEA;
    assert Round(0xEA, 3) == 0xA4;
    assert Round(0xA4, 3) == 0x8F;
    assert Round(0x8F, 3) == 0xED;
    assert Phase(0xF9, 3) == 0xED;
    assert Round(0xED, 4) == 0xBA;
    assert Round(0xBA, 4) == 0x27;
    assert Round(0x27, 4) == 0xC1;
    assert Round(0xC1, 4) == 0x68;
    assert Round(0x68, 4) == 0x66;
    assert Phase(0xED, 4) == 0x66;
  }

  /** The steps of the hash loop over "abc" on any table holding the
      entries it looks up. */
  lemma AbcSteps(tbl: seq<bv32>)
    requires |tbl| == 256 && forall d: bv8 :: tbl[d as int] == TableEntry(d)
    ensures Step(tbl, 0x0000_0003, 0x61) == 0x8B80_1B9E
    ensures Step(tbl, 0x8B80_1B9E, 0x62) == 0x1A77_3A62
    ensures Step(tbl, 0x1A77_3A62, 0x63) == 0x66F7_8E90
  {
    AbcEntries();
    assert tbl[(0x62 as bv8) as int] == 0x8B80_1B9E;
    assert tbl[(0xFC as bv8) as int] == 0x1AFC_BA79;
    assert tbl[(0x01 as bv8) as int] == 0x66ED_F9AA;
  }

  /** The hash loop over "abc". */
  lemma AbcRun(tbl: seq<bv32>)
    requires |tbl| == 256 && forall d: bv8 :: tbl[d as int] == TableEntry(d)
    ensures Run(tbl, 0x0000_0003, [0x61, 0x62, 0x63], 0) == 0x66F7_8E90
  {
    AbcSteps(tbl);
    var d: seq<bv8> := [0x61, 0x62, 0x63];
    assert Run(tbl, 0x66F7_8E90, d, 3) == 0x66F7_8E90;
    assert Run(tbl, 0x1A77_3A62, d, 2) == 0x66F7_8E90;
    assert Run(tbl, 0x8B80_1B9E, d, 1) == 0x66F7_8E90;
    assert Run(tbl, 0x0000_0003, d, 0) == 0x66F7_8E90;
  }

  /** "abc" hashes to 0x66F7_8E90. */
  lemma VectorAbc()
    ensures Hash([0x61, 0x62, 0x63]) == 0x66F7_8E90
  {
    assert LengthWord(3) == 3;
    AbcRun(Table());
  }

  /** The table entries "123456789" looks up, part 1. */
  lemma DigitsEntries1()
    ensures TableEntry(0x38) == 0x6762_0A8D
    ensures TableEntry(0xBF) == 0x6267_A36A
    ensures TableEntry(0x53) == 0x2B61_58DA
  {
    assert Round(0x38, 1) == 0xFE;
    assert Round(0xFE, 1) == 0x83;
    assert Round(0x83, 1) == 0xCA;
    assert Round(0xCA, 1) == 0x51;
    assert Round(0x51, 1) == 0x8D;
    assert Phase(0x38, 1) == 0x8D;
    assert Round(0x8D, 2) == 0xFB;
    assert Round(0xFB, 2) == 0x8C;
    assert Round(0x8C, 2) == 0xFF;
    assert Round(0xFF, 2) == 0x02;
    assert Round(0x02, 2) == 0x0A;
    assert Phase(0x8D, 2) == 0x0A;
    assert Round(0x0A, 3) == 0x34;
    assert Round(0x34, 3) == 0xF7;
    assert Round(0xF7, 3) == 0x99;
    assert Round(0x99, 3) == 0xBE;
    assert Round(0xBE, 3) == 0x62;
    assert Phase(0x0A, 3) == 0x62;
    assert Round(0x62, 4) == 0x2B;
    assert Round(0x2B, 4) == 0xCB;
    assert Round(0xCB, 4) == 0x5B;
    assert Round(0x5B, 4) == 0x13;
    assert Round(0x13, 4) == 0x67;
    assert Phase(0x62, 4) == 0x67;
    assert Round(0xBF, 1) == 0x60;
    assert Round(0x60, 1) == 0x32;
    assert Round(0x32, 1) == 0xD5;
    assert Round(0xD5, 1) == 0xC3;
    assert Round(0xC3, 1) == 0x6A;
    assert Phase(0xBF, 1) == 0x6A;
    assert Round(0x6A, 2) == 0x66;
    assert Round(0x66, 2) == 0x24;
    assert Round(0x24, 2) == 0x4B;
    assert Round(0x4B, 2) == 0x94;
    assert Round(0x94, 2) == 0xA3;
    assert Phase(0x6A, 2) == 0xA3;
    assert Round(0xA3, 3) == 0x8B;
    assert Round(0x8B, 3) == 0xFF;
    assert Round(0xFF, 3) == 0x05;
    assert Round(0x05, 3) == 0x14;
    assert Round(0x14, 3) == 0x67;
    assert Phase(0xA3, 3) == 0x67;
    assert Round(0x67, 4) == 0x61;
    assert Round(0x61, 4) == 0x38;
    assert Round(0x38, 4) == 0xEE;
    assert Round(0xEE, 4) == 0xBD;
    assert Round(0xBD, 4) == 0x62;
    assert Phase(0x67, 4) == 0x62;
    assert Round(0x53, 1) == 0x82;
    assert Round(0x82, 1) == 0xCD;
    assert Round(0xCD, 1) == 0x5F;
    assert Round(0x5F, 1) == 0x30;
    assert Round(0x30, 1) == 0xDA;
    assert Phase(0x53, 1) == 0xDA;
    assert Round(0xDA, 2) == 0xDE;
    assert Round(0xDE, 2) == 0xF0;
    assert Round(0xF0, 2) == 0xBD;
    assert Round(0xBD, 2) == 0x23;
    assert Round(0x23, 2) == 0x58;
    assert Phase(0xDA, 2) == 0x58;
    assert Round(0x58, 3) == 0x19;
    assert Round(0x19, 3) == 0x7E;
    assert Round(0x7E, 3) == 0xC2;
    assert Round(0xC2, 3) == 0x68;
    assert Round(0x68, 3) == 0x61;
    assert Phase(0x58, 3) == 0x61;
    assert Round(0x61, 4) == 0x38;
    assert Round(0x38, 4) == 0xEE;
    assert Round(0xEE, 4) == 0xBD;
    assert Round(0xBD, 4) == 0x62;
    assert Round(0x62, 4) == 0x2B;
    assert Phase(0x61, 4) == 0x2B;
  }

  /** The table entries "123456789" looks up, part 2. */
  lemma DigitsEntries2()
    ensures TableEntry(0x2F) == 0xE922_8173
    ensures TableEntry(0x1E) == 0x89DC_A282
    ensures TableEntry(0x36) == 0xE192_E2C4
  {
    assert Round(0x2F, 1) == 0xD8;
    assert Round(0xD8, 1) == 0xCE;
    assert Round(0xCE, 1) == 0x5B;
    assert Round(0x5B, 1) == 0x1E;
    assert Round(0x1E, 1) == 0x73;
    assert Phase(0x2F, 1) == 0x73;
    assert Round(0x73, 2) == 0x70;
    assert Round(0x70, 2) == 0x7D;
    assert Round(0x7D, 2) == 0x43;
    assert Round(0x43, 2) == 0xA8;
    assert Round(0xA8, 2) == 0x81;
    assert Phase(0x73, 2) == 0x81;
    assert Round(0x81, 3) == 0xCA;
    assert Round(0xCA, 3) == 0x54;
    assert Round(0x54, 3) == 0x07;
    assert Round(0x07, 3) == 0x11;
    assert Round(0x11, 3) == 0x22;
    assert Phase(0x81, 3) == 0x22;
    assert Round(0x22, 4) == 0x4B;
    assert Round(0x4B, 4) == 0x9B;
    assert Round(0x9B, 4) == 0xB3;
    assert Round(0xB3, 4) == 0x37;
    assert Round(0x37, 4) == 0xE9;
    assert Phase(0x22, 4) == 0xE9;
    assert Round(0x1E, 1) == 0x73;
    assert Round(0x73, 1) == 0x72;
    assert Round(0x72, 1) == 0x75;
    assert Round(0x75, 1) == 0x53;
    assert Round(0x53, 1) == 0x82;
    assert Phase(0x1E, 1) == 0x82;
    assert Round(0x82, 2) == 0xCA;
    assert Round(0xCA, 2) == 0x56;
    assert Round(0x56, 2) == 0x0C;
    assert Round(0x0C, 2) == 0x3F;
    assert Round(0x3F, 2) == 0xA2;
    assert Phase(0x82, 2) == 0xA2;
    assert Round(0xA2, 3) == 0x98;
    assert Round(0x98, 3) == 0xB9;
    assert Round(0xB9, 3) == 0x2E;
    assert Round(0x2E, 3) == 0xDA;
    assert Round(0xDA, 3) == 0xDC;
    assert Phase(0xA2, 3) == 0xDC;
    assert Round(0xDC, 4) == 0xF0;
    assert Round(0xF0, 4) == 0xB2;
    assert Round(0xB2, 4) == 0x33;
    assert Round(0x33, 4) == 0xF7;
    assert Round(0xF7, 4) == 0x89;
    assert Phase(0xDC, 4) == 0x89;
    assert Round(0x36, 1) == 0xF7;
    assert Round(0xF7, 1) == 0x9C;
    assert Round(0x9C, 1) == 0xBC;
    assert Round(0xBC, 1) == 0x2C;
    assert Round(0x2C, 1) == 0xC4;
    assert Phase(0x36, 1) == 0xC4;
    assert Round(0xC4, 2) == 0x7B;
    assert Round(0x7B, 2) == 0x4C;
    assert Round(0x4C, 2) == 0x9F;
    assert Round(0x9F, 2) == 0x92;
    assert Round(0x92, 2) == 0xE2;
    assert Phase(0xC4, 2) == 0xE2;
    assert Round(0xE2, 3) == 0xF8;
    assert Round(0xF8, 3) == 0x89;
    assert Round(0x89, 3) == 0xF6;
    assert Round(0xF6, 3) == 0x9E;
    assert Round(0x9E, 3) == 0x92;
    assert Phase(0xE2, 3) == 0x92;
    assert Round(0x92, 4) == 0xA3;
    assert Round(0xA3, 4) == 0x8F;
    assert Round(0x8F, 4) == 0xE5;
    assert Round(0xE5, 4) == 0xE6;
    assert Round(0xE6, 4) == 0xE1;
    assert Phase(0x92, 4) == 0xE1;
  }

  /** The table entries "123456789" looks up, part 3. */
  lemma DigitsEntries3()
    ensures TableEntry(0x58) == 0x19FD_8906
    ensures TableEntry(0xE9) == 0xA608_57FD
    ensures TableEntry(0x56) == 0x5568_2285
  {
    assert Round(0x58, 1) == 0x0E;
    assert Round(0x0E, 1) == 0x3B;
    assert Round(0x3B, 1) == 0xEE;
    assert Round(0xEE, 1) == 0xAB;
    assert Round(0xAB, 1) == 0x06;
    assert Phase(0x58, 1) == 0x06;
    assert Round(0x06, 2) == 0x14;
    assert Round(0x14, 2) == 0x63;
    assert Round(0x63, 2) == 0x38;
    assert Round(0x38, 2) == 0xF9;
    assert Round(0xF9, 2) == 0x89;
    assert Phase(0x06, 2) == 0x89;
    assert Round(0x89, 3) == 0xF6;
    assert Round(0xF6, 3) == 0x9E;
    assert Round(0x9E, 3) == 0x92;
    assert Round(0x92, 3) == 0xE0;
    assert Round(0xE0, 3) == 0xFD;
    assert Phase(0x89, 3) == 0xFD;
    assert Round(0xFD, 4) == 0x02;
    assert Round(0x02, 4) == 0x1B;
    assert Round(0x1B, 4) == 0x73;
    assert Round(0x73, 4) == 0x57;
    assert Round(0x57, 4) == 0x19;
    assert Phase(0xFD, 4) == 0x19;
    assert Round(0xE9, 1) == 0xE1;
    assert Round(0xE1, 1) == 0xF5;
    assert Round(0xF5, 1) == 0x93;
    assert Round(0x93, 1) == 0xE2;
    assert Round(0xE2, 1) == 0xFD;
    assert Phase(0xE9, 1) == 0xFD;
    assert Round(0xFD, 2) == 0x83;
    assert Round(0x83, 2) == 0xC8;
    assert Round(0xC8, 2) == 0x71;
    assert Round(0x71, 2) == 0x75;
    assert Round(0x75, 2) == 0x57;
    assert Phase(0xFD, 2) == 0x57;
    assert Round(0x57, 3) == 0x09;
    assert Round(0x09, 3) == 0x36;
    assert Round(0x36, 3) == 0xFE;
    assert Round(0xFE, 3) == 0x02;
    assert Round(0x02, 3) == 0x08;
    assert Phase(0x57, 3) == 0x08;
    assert Round(0x08, 4) == 0x36;
    assert Round(0x36, 4) == 0xF9;
    assert Round(0xF9, 4) == 0x8C;
    assert Round(0x8C, 4) == 0xE8;
    assert Round(0xE8, 4) == 0xA6;
    assert Phase(0x08, 4) == 0xA6;
    assert Round(0x56, 1) == 0x07;
    assert Round(0x07, 1) == 0x14;
    assert Round(0x14, 1) == 0x20;
    assert Round(0x20, 1) == 0x52;
    assert Round(0x52, 1) == 0x85;
    assert Phase(0x56, 1) == 0x85;
    assert Round(0x85, 2) == 0xDF;
    assert Round(0xDF, 2) == 0xF2;
    assert Round(0xF2, 2) == 0xB2;
    assert Round(0xB2, 2) == 0x12;
    assert Round(0x12, 2) == 0x22;
    assert Phase(0x85, 2) == 0x22;
    assert Round(0x22, 3) == 0x58;
    assert Round(0x58, 3) == 0x19;
    assert Round(0x19, 3) == 0x7E;
    assert Round(0x7E, 3) == 0xC2;
    assert Round(0xC2, 3) == 0x68;
    assert Phase(0x22, 3) == 0x68;
    assert Round(0x68, 4) == 0x66;
    assert Round(0x66, 4) == 0x21;
    assert Round(0x21, 4) == 0x58;
    assert Round(0x58, 4) == 0x1E;
    assert Round(0x1E, 4) == 0x55;
    assert Phase(0x68, 4) == 0x55;
  }

  /** The steps of the hash loop over "123456789" on any table holding the
      entries it looks up. */
  lemma DigitsSteps(tbl: seq<bv32>)
    requires |tbl| == 256 && forall d: bv8 :: tbl[d as int] == TableEntry(d)
    ensures Step(tbl, 0x0000_0009, 0x31) == 0x6762_0A8D
    ensures Step(tbl, 0x6762_0A8D, 0x32) == 0x6200_C160
    ensures Step(tbl, 0x6200_C160, 0x33) == 0x2B03_581B
    ensures Step(tbl, 0x2B03_581B, 0x34) == 0xE909_822B
    ensures Step(tbl, 0xE909_822B, 0x35) == 0x8935_AB00
    ensures Step(tbl, 0x8935_AB00, 0x36) == 0xE11B_D76F
    ensures Step(tbl, 0xE11B_D76F, 0x37) == 0x191C_92D1
    ensures Step(tbl, 0x191C_92D1, 0x38) == 0xA611_4B6F
    ensures Step(tbl, 0xA611_4B6F, 0x39) == 0x55CE_33CE
  {
    DigitsEntries1();
    DigitsEntries2();
    DigitsEntries3();
    assert tbl[(0x38 as bv8) as int] == 0x6762_0A8D;
    assert tbl[(0xBF as bv8) as int] == 0x6267_A36A;
    assert tbl[(0x53 as bv8) as int] == 0x2B61_58DA;
    assert tbl[(0x2F as bv8) as int] == 0xE922_8173;
    assert tbl[(0x1E as bv8) as int] == 0x89DC_A282;
    assert tbl[(0x36 as bv8) as int] == 0xE192_E2C4;
    assert tbl[(0x58 as bv8) as int] == 0x19FD_8906;
    assert tbl[(0xE9 as bv8) as int] == 0xA608_57FD;
    assert tbl[(0x56 as bv8) as int] == 0x5568_2285;
  }

  /** The hash loop over "123456789". */
  lemma DigitsRun(tbl: seq<bv32>)
    requires |tbl| == 256 && forall d: bv8 :: tbl[d as int] == TableEntry(d)
    ensures Run(tbl, 0x0000_0009, [0x31, 0x32, 0x33, 0x34, 0x35, 0x36, 0x37, 0x38, 0x39], 0) == 0x55CE_33CE
  {
    DigitsSteps(tbl);
    var d: seq<bv8> := [0x31, 0x32, 0x33, 0x34, 0x35, 0x36, 0x37, 0x38, 0x39];
    assert Run(tbl, 0x55CE_33CE, d, 9) == 0x55CE_33CE;
    assert Run(tbl, 0xA611_4B6F, d, 8) == 0x55CE_33CE;
    assert Run(tbl, 0x191C_92D1, d, 7) == 0x55CE_33CE;
    assert Run(tbl, 0xE11B_D76F, d, 6) == 0x55CE_33CE;
    assert Run(tbl, 0x8935_AB00, d, 5) == 0x55CE_33CE;
    assert Run(tbl, 0xE909_822B, d, 4) == 0x55CE_33CE;
    assert Run(tbl, 0x2B03_581B, d, 3) == 0x55CE_33CE;
    assert Run(tbl, 0x6200_C160, d, 2) == 0x55CE_33CE;
    assert Run(tbl, 0x6762_0A8D, d, 1) == 0x55CE_33CE;
    assert Run(tbl, 0x0000_0009, d, 0) == 0x55CE_33CE;
  }

  /** "123456789" hashes to 0x55CE_33CE. */
  lemma VectorDigits()
    ensures Hash([0x31, 0x32, 0x33, 0x34, 0x35, 0x36, 0x37, 0x38, 0x39]) == 0x55CE_33CE
  {
    assert LengthWord(9) == 9;
    DigitsRun(Table());
  }

  /** The table entries "hello world" looks up, part 1. */
  lemma HelloWorldEntries1()
    ensures TableEntry(0x63) == 0xF597_1893
    ensures TableEntry(0xF6) == 0xB744_8816
    ensures TableEntry(0x62) == 0x8B80_1B9E
  {
    assert Round(0x63, 1) == 0x3A;
    assert Round(0x3A, 1) == 0xE9;
    assert Round(0xE9, 1) == 0xE1;
    assert Round(0xE1, 1) == 0xF5;
    assert Round(0xF5, 1) == 0x93;
    assert Phase(0x63, 1) == 0x93;
    assert Round(0x93, 2) == 0xE0;
    assert Round(0xE0, 2) == 0xF5;
    assert Round(0xF5, 2) == 0x97;
    assert Round(0x97, 2) == 0xAE;
    assert Round(0xAE, 2) == 0x18;
    assert Phase(0x93, 2) == 0x18;
    assert Round(0x18, 3) == 0x79;
    assert Round(0x79, 3) == 0x4E;
    assert Round(0x4E, 3) == 0x8A;
    assert Round(0x8A, 3) == 0xF4;
    assert Round(0xF4, 3) == 0x97;
    assert Phase(0x18, 3) == 0x97;
    assert Round(0x97, 4) == 0xB9;
    assert Round(0xB9, 4) == 0x2C;
    assert Round(0x2C, 4) == 0xD8;
    assert Round(0xD8, 4) == 0xDE;
    assert Round(0xDE, 4) == 0xF5;
    assert Phase(0x97, 4) == 0xF5;
    assert Round(0xF6, 1) == 0x97;
    assert Round(0x97, 1) == 0xAC;
    assert Round(0xAC, 1) == 0x04;
    assert Round(0x04, 1) == 0x08;
    assert Round(0x08, 1) == 0x16;
    assert Phase(0xF6, 1) == 0x16;
    assert Round(0x16, 2) == 0x6C;
    assert Round(0x6C, 2) == 0x6F;
    assert Round(0x6F, 2) == 0x7A;
    assert Round(0x7A, 2) == 0x4E;
    assert Round(0x4E, 2) == 0x88;
    assert Phase(0x16, 2) == 0x88;
    assert Round(0x88, 3) == 0xF1;
    assert Round(0xF1, 3) == 0xB2;
    assert Round(0xB2, 3) == 0x10;
    assert Round(0x10, 3) == 0x25;
    assert Round(0x25, 3) == 0x44;
    assert Phase(0x88, 3) == 0x44;
    assert Round(0x44, 4) == 0xB4;
    assert Round(0xB4, 4) == 0x3C;
    assert Round(0x3C, 4) == 0xA0;
    assert Round(0xA0, 4) == 0x9A;
    assert Round(0x9A, 4) == 0xB7;
    assert Phase(0x44, 4) == 0xB7;
    assert Round(0x62, 1) == 0x3D;
    assert Round(0x3D, 1) == 0xE7;
    assert Round(0xE7, 1) == 0xE4;
    assert Round(0xE4, 1) == 0xF8;
    assert Round(0xF8, 1) == 0x9E;
    assert Phase(0x62, 1) == 0x9E;
    assert Round(0x9E, 2) == 0x90;
    assert Round(0x90, 2) == 0xED;
    assert Round(0xED, 2) == 0xAB;
    assert Round(0xAB, 2) == 0x04;
    assert Round(0x04, 2) == 0x1B;
    assert Phase(0x9E, 2) == 0x1B;
    assert Round(0x1B, 3) == 0x77;
    assert Round(0x77, 3) == 0x59;
    assert Round(0x59, 3) == 0x1E;
    assert Round(0x1E, 3) == 0x52;
    assert Round(0x52, 3) == 0x80;
    assert Phase(0x1B, 3) == 0x80;
    assert Round(0x80, 4) == 0xCA;
    assert Round(0xCA, 4) == 0x5F;
    assert Round(0x5F, 4) == 0x3D;
    assert Round(0x3D, 4) == 0xA2;
    assert Round(0xA2, 4) == 0x8B;
    assert Phase(0x80, 4) == 0x8B;
  }

  /** The table entries "hello world" looks up, part 2. */
  lemma HelloWorldEntries2()
    ensures TableEntry(0xED) == 0x5FD3_9866
    ensures TableEntry(0xA3) == 0x1578_6B99
    ensures TableEntry(0x16) == 0x5DAE_C03B
  {
    assert Round(0xED, 1) == 0xAF;
    assert Round(0xAF, 1) == 0x18;
    assert Round(0x18, 1) == 0x6E;
    assert Round(0x6E, 1) == 0x6B;
    assert Round(0x6B, 1) == 0x66;
    assert Phase(0xED, 1) == 0x66;
    assert Round(0x66, 2) == 0x24;
    assert Round(0x24, 2) == 0x4B;
    assert Round(0x4B, 2) == 0x94;
    assert Round(0x94, 2) == 0xA3;
    assert Round(0xA3, 2) == 0x98;
    assert Phase(0x66, 2) == 0x98;
    assert Round(0x98, 3) == 0xB9;
    assert Round(0xB9, 3) == 0x2E;
    assert Round(0x2E, 3) == 0xDA;
    assert Round(0xDA, 3) == 0xDC;
    assert Round(0xDC, 3) == 0xD3;
    assert Phase(0x98, 3) == 0xD3;
    assert Round(0xD3, 4) == 0xC7;
    assert Round(0xC7, 4) == 0x51;
    assert Round(0x51, 4) == 0x80;
    assert Round(0x80, 4) == 0xCA;
    assert Round(0xCA, 4) == 0x5F;
    assert Phase(0xD3, 4) == 0x5F;
    assert Round(0xA3, 1) == 0x9A;
    assert Round(0x9A, 1) == 0xB9;
    assert Round(0xB9, 1) == 0x39;
    assert Round(0x39, 1) == 0xF9;
    assert Round(0xF9, 1) == 0x99;
    assert Phase(0xA3, 1) == 0x99;
    assert Round(0x99, 2) == 0xB9;
    assert Round(0xB9, 2) == 0x29;
    assert Round(0x29, 2) == 0xC1;
    assert Round(0xC1, 2) == 0x6D;
    assert Round(0x6D, 2) == 0x6B;
    assert Phase(0x99, 2) == 0x6B;
    assert Round(0x6B, 3) == 0x6F;
    assert Round(0x6F, 3) == 0x7D;
    assert Round(0x7D, 3) == 0xC0;
    assert Round(0xC0, 3) == 0x6D;
    assert Round(0x6D, 3) == 0x78;
    assert Phase(0x6B, 3) == 0x78;
    assert Round(0x78, 4) == 0x4E;
    assert Round(0x4E, 4) == 0x8D;
    assert Round(0x8D, 4) == 0xEA;
    assert Round(0xEA, 4) == 0xAF;
    assert Round(0xAF, 4) == 0x15;
    assert Phase(0x78, 4) == 0x15;
    assert Round(0x16, 1) == 0x67;
    assert Round(0x67, 1) == 0x24;
    assert Round(0x24, 1) == 0x58;
    assert Round(0x58, 1) == 0x0E;
    assert Round(0x0E, 1) == 0x3B;
    assert Phase(0x16, 1) == 0x3B;
    assert Round(0x3B, 2) == 0xEC;
    assert Round(0xEC, 2) == 0xAF;
    assert Round(0xAF, 2) == 0x1A;
    assert Round(0x1A, 2) == 0x7E;
    assert Round(0x7E, 2) == 0xC0;
    assert Phase(0x3B, 2) == 0xC0;
    assert Round(0xC0, 3) == 0x6D;
    assert Round(0x6D, 3) == 0x78;
    assert Round(0x78, 3) == 0x49;
    assert Round(0x49, 3) == 0x96;
    assert Round(0x96, 3) == 0xAE;
    assert Phase(0xC0, 3) == 0xAE;
    assert Round(0xAE, 4) == 0x1D;
    assert Round(0x1D, 4) == 0x52;
    assert Round(0x52, 4) == 0x03;
    assert Round(0x03, 4) == 0x1F;
    assert Round(0x1F, 4) == 0x5D;
    assert Phase(0xAE, 4) == 0x5D;
  }

  /** The table entries "hello world" looks up, part 3. */
  lemma HelloWorldEntries3()
    ensures TableEntry(0x7F) == 0xEA14_93E4
    ensures TableEntry(0x6C) == 0x1F95_9ACA
    ensures TableEntry(0x90) == 0x390D_9E9A
  {
    assert Round(0x7F, 1) == 0xC0;
    assert Round(0xC0, 1) == 0x62;
    assert Round(0x62, 1) == 0x3D;
    assert Round(0x3D, 1) == 0xE7;
    assert Round(0xE7, 1) == 0xE4;
    assert Phase(0x7F, 1) == 0xE4;
    assert Round(0xE4, 2) == 0xEB;
    assert Round(0xEB, 2) == 0xA4;
    assert Round(0xA4, 2) == 0x8B;
    assert Round(0x8B, 2) == 0xF4;
    assert Round(0xF4, 2) == 0x93;
    assert Phase(0xE4, 2) == 0x93;
    assert Round(0x93, 3) == 0xA3;
    assert Round(0xA3, 3) == 0x8B;
    assert Round(0x8B, 3) == 0xFF;
    assert Round(0xFF, 3) == 0x05;
    assert Round(0x05, 3) == 0x14;
    assert Phase(0x93, 3) == 0x14;
    assert Round(0x14, 4) == 0x6C;
    assert Round(0x6C, 4) == 0x78;
    assert Round(0x78, 4) == 0x4E;
    assert Round(0x4E, 4) == 0x8D;
    assert Round(0x8D, 4) == 0xEA;
    assert Phase(0x14, 4) == 0xEA;
    assert Round(0x6C, 1) == 0x64;
    assert Round(0x64, 1) == 0x38;
    assert Round(0x38, 1) == 0xFE;
    assert Round(0xFE, 1) == 0x83;
    assert Round(0x83, 1) == 0xCA;
    assert Phase(0x6C, 1) == 0xCA;
    assert Round(0xCA, 2) == 0x56;
    assert Round(0x56, 2) == 0x0C;
    assert Round(0x0C, 2) == 0x3F;
    assert Round(0x3F, 2) == 0xA2;
    assert Round(0xA2, 2) == 0x9A;
    assert Phase(0xCA, 2) == 0x9A;
    assert Round(0x9A, 3) == 0xBC;
    assert Round(0xBC, 3) == 0x23;
    assert Round(0x23, 3) == 0x4B;
    assert Round(0x4B, 3) == 0x9F;
    assert Round(0x9F, 3) == 0x95;
    assert Phase(0x9A, 3) == 0x95;
    assert Round(0x95, 4) == 0xAE;
    assert Round(0xAE, 4) == 0x1D;
    assert Round(0x1D, 4) == 0x52;
    assert Round(0x52, 4) == 0x03;
    assert Round(0x03, 4) == 0x1F;
    assert Phase(0x95, 4) == 0x1F;
    assert Round(0x90, 1) == 0xEA;
    assert Round(0xEA, 1) == 0xA1;
    assert Round(0xA1, 1) == 0x95;
    assert Round(0x95, 1) == 0xA3;
    assert Round(0xA3, 1) == 0x9A;
    assert Phase(0x90, 1) == 0x9A;
    assert Round(0x9A, 2) == 0xBE;
    assert Round(0xBE, 2) == 0x60;
    assert Round(0x60, 2) == 0x35;
    assert Round(0x35, 2) == 0xF7;
    assert Round(0xF7, 2) == 0x9E;
    assert Phase(0x9A, 2) == 0x9E;
    assert Round(0x9E, 3) == 0x92;
    assert Round(0x92, 3) == 0xE0;
    assert Round(0xE0, 3) == 0xFD;
    assert Round(0xFD, 3) == 0x00;
    assert Round(0x00, 3) == 0x0D;
    assert Phase(0x9E, 3) == 0x0D;
    assert Round(0x0D, 4) == 0x2A;
    assert Round(0x2A, 4) == 0xCF;
    assert Round(0xCF, 4) == 0x45;
    assert Round(0x45, 4) == 0xB6;
    assert Round(0xB6, 4) == 0x39;
    assert Phase(0x0D, 4) == 0x39;
  }

  /** The table entries "hello world" looks up, part 4. */
  lemma HelloWorldEntries4()
    ensures TableEntry(0x25) == 0x08DD_28C8
    ensures TableEntry(0x4D) == 0x220F_6895
  {
    assert Round(0x25, 1) == 0x4B;
    assert Round(0x4B, 1) == 0x96;
    assert Round(0x96, 1) == 0xA7;
    assert Round(0xA7, 1) == 0x84;
    assert Round(0x84, 1) == 0xC8;
    assert Phase(0x25, 1) == 0xC8;
    assert Round(0xC8, 2) == 0x71;
    assert Round(0x71, 2) == 0x75;
    assert Round(0x75, 2) == 0x57;
    assert Round(0x57, 2) == 0x0E;
    assert Round(0x0E, 2) == 0x28;
    assert Phase(0xC8, 2) == 0x28;
    assert Round(0x28, 3) == 0xC1;
    assert Round(0xC1, 3) == 0x6A;
    assert Round(0x6A, 3) == 0x64;
    assert Round(0x64, 3) == 0x2F;
    assert Round(0x2F, 3) == 0xDD;
    assert Phase(0x28, 3) == 0xDD;
    assert Round(0xDD, 4) == 0xF2;
    assert Round(0xF2, 4) == 0x93;
    assert Round(0x93, 4) == 0xA7;
    assert Round(0xA7, 4) == 0x01;
    assert Round(0x01, 4) == 0x08;
    assert Phase(0xDD, 4) == 0x08;
    assert Round(0x4D, 1) == 0x9F;
    assert Round(0x9F, 1) == 0x90;
    assert Round(0x90, 1) == 0xEA;
    assert Round(0xEA, 1) == 0xA1;
    assert Round(0xA1, 1) == 0x95;
    assert Phase(0x4D, 1) == 0x95;
    assert Round(0x95, 2) == 0xA7;
    assert Round(0xA7, 2) == 0x86;
    assert Round(0x86, 2) == 0xD4;
    assert Round(0xD4, 2) == 0xC3;
    assert Round(0xC3, 2) == 0x68;
    assert Phase(0x95, 2) == 0x68;
    assert Round(0x68, 3) == 0x61;
    assert Round(0x61, 3) == 0x3A;
    assert Round(0x3A, 3) == 0xEC;
    assert Round(0xEC, 3) == 0xAB;
    assert Round(0xAB, 3) == 0x0F;
    assert Phase(0x68, 3) == 0x0F;
    assert Round(0x0F, 4) == 0x25;
    assert Round(0x25, 4) == 0x46;
    assert Round(0x46, 4) == 0xB1;
    assert Round(0xB1, 4) == 0x10;
    assert Round(0x10, 4) == 0x22;
    assert Phase(0x0F, 4) == 0x22;
  }

  /** The steps of the hash loop over "hello world" on any table holding the
      entries it looks up. */
  lemma HelloWorldSteps(tbl: seq<bv32>)
    requires |tbl| == 256 && forall d: bv8 :: tbl[d as int] == TableEntry(d)
    ensures Step(tbl, 0x0000_000B, 0x68) == 0xF597_1893
    ensures Step(tbl, 0xF597_1893, 0x65) == 0xB7B1_1F0E
    ensures Step(tbl, 0xB7B1_1F0E, 0x6C) == 0x8B37_AA81
    ensures Step(tbl, 0x8B37_AA81, 0x6C) == 0x5F58_AFCC
    ensures Step(tbl, 0x5F58_AFCC, 0x6F) == 0x1527_3336
    ensures Step(tbl, 0x1527_3336, 0x20) == 0x5DBB_E708
    ensures Step(tbl, 0x5DBB_E708, 0x77) == 0xEA49_2803
    ensures Step(tbl, 0xEA49_2803, 0x6F) == 0x1F7F_D3E2
    ensures Step(tbl, 0x1F7F_D3E2, 0x72) == 0x3912_E149
    ensures Step(tbl, 0x3912_E149, 0x6C) == 0x08E4_3A29
    ensures Step(tbl, 0x08E4_3A29, 0x64) == 0x2207_8CAF
  {
    HelloWorldEntries1();
    HelloWorldEntries2();
    HelloWorldEntries3();
    HelloWorldEntries4();
    assert tbl[(0x63 as bv8) as int] == 0xF597_1893;
    assert tbl[(0xF6 as bv8) as int] == 0xB744_8816;
    assert tbl[(0x62 as bv8) as int] == 0x8B80_1B9E;
    assert tbl[(0xED as bv8) as int] == 0x5FD3_9866;
    assert tbl[(0xA3 as bv8) as int] == 0x1578_6B99;
    assert tbl[(0x16 as bv8) as int] == 0x5DAE_C03B;
    assert tbl[(0x7F as bv8) as int] == 0xEA14_93E4;
    assert tbl[(0x6C as bv8) as int] == 0x1F95_9ACA;
    assert tbl[(0x90 as bv8) as int] == 0x390D_9E9A;
    assert tbl[(0x25 as bv8) as int] == 0x08DD_28C8;
    assert tbl[(0x4D as bv8) as int] == 0x220F_6895;
  }

  /** The hash loop over "hello world". */
  lemma HelloWorldRun(tbl: seq<bv32>)
    requires |tbl| == 256 && forall d: bv8 :: tbl[d as int] == TableEntry(d)
    ensures Run(tbl, 0x0000_000B, [0x68, 0x65, 0x6C, 0x6C, 0x6F, 0x20, 0x77, 0x6F, 0x72, 0x6C, 0x64], 0) == 0x2207_8CAF
  {
    HelloWorldSteps(tbl);
    var d: seq<bv8> := [0x68, 0x65, 0x6C, 0x6C, 0x6F, 0x20, 0x77, 0x6F, 0x72, 0x6C, 0x64];
    assert Run(tbl, 0x2207_8CAF, d, 11) == 0x2207_8CAF;
    assert Run(tbl, 0x08E4_3A29, d, 10) == 0x2207_8CAF;
    assert Run(tbl, 0x3912_E149, d, 9) == 0x2207_8CAF;
    assert Run(tbl, 0x1F7F_D3E2, d, 8) == 0x2207_8CAF;
    assert Run(tbl, 0xEA49_2803, d, 7) == 0x2207_8CAF;
    assert Run(tbl, 0x5DBB_E708, d, 6) == 0x2207_8CAF;
    assert Run(tbl, 0x1527_3336, d, 5) == 0x2207_8CAF;
    assert Run(tbl, 0x5F58_AFCC, d, 4) == 0x2207_8CAF;
    assert Run(tbl, 0x8B37_AA81, d, 3) == 0x2207_8CAF;
    assert Run(tbl, 0xB7B1_1F0E, d, 2) == 0x2207_8CAF;
    assert Run(tbl, 0xF597_1893, d, 1) == 0x2207_8CAF;
    assert Run(tbl, 0x0000_000B, d, 0) == 0x2207_8CAF;
  }

  /** "hello world" hashes to 0x2207_8CAF. */
  lemma VectorHelloWorld()
    ensures Hash([0x68, 0x65, 0x6C, 0x6C, 0x6F, 0x20, 0x77, 0x6F, 0x72, 0x6C, 0x64]) == 0x2207_8CAF
  {
    assert LengthWord(11) == 11;
    HelloWorldRun(Table());
  }
}
