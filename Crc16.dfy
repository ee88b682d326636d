/** CRC-16/ARC computed the way the source does: a non-reflected table for
    poly 0x8005, each input byte reflected before it is looked up, and the
    final remainder reflected. The 16-bit table engine (Shift, TableEntry,
    BuildTable, Feed, Register, TableStep) is shared with CrcCcitt, whose
    source builds its table the same way with another polynomial. */
module Crc16 {
  import opened Words
  import opened BitReflect

  const POLY: bv16 := 0x8005

  /** One pass of the table's bit loop: shift left, and xor in the poly when
      the top bit was set. The top bit, spread to a mask, selects the poly;
      ShiftStep shows this is the source's `if`. */
  function Shift(r: bv16, poly: bv16): bv16
  {
    (r << 1) ^ (poly & (0 - (r >> 15)))
  }

  /** k passes of the bit loop. */
  function Passes(r: bv16, poly: bv16, k: nat): bv16
    decreases k
  {
    if k == 0 then r else Passes(Shift(r, poly), poly, k - 1)
  }

  /** `table[d]`: eight passes starting from d << 8. */
  function TableEntry(poly: bv16, d: bv8): bv16
  {
    Passes((d as bv16) << 8, poly, 8)
  }

  /** The body of the bit loop, with the source's branch on the top bit. */
  method ShiftStep(r: bv16, poly: bv16) returns (s: bv16)
    ensures s == Shift(r, poly)
  {
    if r & 0x8000 != 0 {
      assert r >> 15 == 1;
      s := (r << 1) ^ poly;
    } else {
      assert r >> 15 == 0;
      s := r << 1;
    }
  }

  /** The inner loop of `table()` for one dividend. */
  method ComputeEntry(poly: bv16, d: bv8) returns (r: bv16)
    ensures r == TableEntry(poly, d)
  {
    r := (d as bv16) << 8;
    var bit := 8;
    while bit > 0
      invariant 0 <= bit <= 8
      invariant Passes(r, poly, bit) == TableEntry(poly, d)
    {
      r := ShiftStep(r, poly);
      bit := bit - 1;
    }
  }

  /** `table()`: the 256 entries, one per dividend. */
  method BuildTable(poly: bv16) returns (t: array<bv16>)
    ensures fresh(t) && t.Length == 256
    ensures forall d: bv8 :: t[d as int] == TableEntry(poly, d)
  {
    t := new bv16[256];
    var dividend := 0;
    while dividend < 256
      invariant 0 <= dividend <= 256
      invariant forall d: bv8 :: d as int < dividend ==> t[d as int] == TableEntry(poly, d)
    {
      var entry := ComputeEntry(poly, dividend as bv8);
      t[dividend] := entry;
      dividend := dividend + 1;
    }
  }

  /** One byte of the table-driven loop, x being the byte as it enters the
      register: `tbl[x ^ (rem >>> 8)] ^ ((rem << 8) & 0xFFFF)`. */
  function Feed(rem: bv16, poly: bv16, x: bv8): bv16
  {
    TableEntry(poly, x ^ ((rem >> 8) as bv8)) ^ (rem << 8)
  }

  /** A byte as it enters the register: mirrored first when the variant
      reflects its input (CRC-16/ARC does, CRC-16/CCITT does not). */
  function Input(b: bv8, reflect: bool): bv8
  {
    if reflect then ReflectByte(b) else b
  }

  /** The register after feeding the bytes of data from index i on. */
  function Register(rem: bv16, poly: bv16, reflect: bool, data: seq<bv8>, i: nat): bv16
    requires i <= |data|
    decreases |data| - i
  {
    if i == |data| then rem
    else Register(Feed(rem, poly, Input(data[i], reflect)), poly, reflect, data, i + 1)
  }

  /** Starting at index i of a + b, inside a, is finishing a and then
      starting b from the register a leaves. */
  lemma {:induction false} RegisterSplit(rem: bv16, poly: bv16, reflect: bool, a: seq<bv8>, b: seq<bv8>, i: nat)
    requires i <= |a|
    ensures Register(rem, poly, reflect, a + b, i)
         == Register(Register(rem, poly, reflect, a, i), poly, reflect, b, 0)
    decreases |a| - i
  {
    if i == |a| {
      RegisterShift(rem, poly, reflect, a, b, 0);
    } else {
      assert (a + b)[i] == a[i];
      RegisterSplit(Feed(rem, poly, Input(a[i], reflect)), poly, reflect, a, b, i + 1);
    }
  }

  /** Past the end of a, a + b is fed exactly as b is. */
  lemma {:induction false} RegisterShift(rem: bv16, poly: bv16, reflect: bool, a: seq<bv8>, b: seq<bv8>, j: nat)
    requires j <= |b|
    ensures Register(rem, poly, reflect, a + b, |a| + j) == Register(rem, poly, reflect, b, j)
    decreases |b| - j
  {
    if j < |b| {
      assert (a + b)[|a| + j] == b[j];
      RegisterShift(Feed(rem, poly, Input(b[j], reflect)), poly, reflect, a, b, j + 1);
    }
  }

  /** The register is streamable: feeding a + b from rem is feeding a, then
      feeding b from where a left off. */
  lemma RegisterConcat(rem: bv16, poly: bv16, reflect: bool, a: seq<bv8>, b: seq<bv8>)
    ensures Register(rem, poly, reflect, a + b, 0)
         == Register(Register(rem, poly, reflect, a, 0), poly, reflect, b, 0)
  {
    RegisterSplit(rem, poly, reflect, a, b, 0);
  }

  /** One pass of a compute loop: look the index up in the built table. */
  method TableStep(tbl: array<bv16>, poly: bv16, rem: bv16, x: bv8) returns (r: bv16)
    requires tbl.Length == 256
    requires forall d: bv8 :: tbl[d as int] == TableEntry(poly, d)
    ensures r == Feed(rem, poly, x)
  {
    r := tbl[(x ^ ((rem >> 8) as bv8)) as int] ^ (rem << 8);
  }

  /** Feeding one byte moves the register on by one index. */
  lemma RegisterStep(rem: bv16, poly: bv16, reflect: bool, data: seq<bv8>, i: nat, next: bv16)
    requires i < |data| && next == Feed(rem, poly, Input(data[i], reflect))
    ensures Register(rem, poly, reflect, data, i) == Register(next, poly, reflect, data, i + 1)
  {
  }

  /** The checksum: the register after the reflected bytes, reflected. */
  function Checksum(data: seq<bv8>): u16
  {
    Pow2Values();
    Reflect(Register(0, POLY, true, data, 0) as int, 16)
  }

  /** Crc16.compute */
  method Compute(data: seq<bv8>) returns (r: u16)
    ensures r == Checksum(data)
  {
    var tbl := BuildTable(POLY);
    var remainder: bv16 := 0;
    for i := 0 to |data|
      invariant forall d: bv8 :: tbl[d as int] == TableEntry(POLY, d)
      invariant Register(remainder, POLY, true, data, i) == Register(0, POLY, true, data, 0)
    {
      var b := ReflectBits(data[i] as int, 8);
      ReflectByteValue(data[i], b);
      var next := TableStep(tbl, POLY, remainder, b as bv8);
      RegisterStep(remainder, POLY, true, data, i, next);
      remainder := next;
    }
    var out := ReflectBits(remainder as int, 16);
    Pow2Values();
    Mask16Identity(out);
    r := Mask16(out);
  }

  /** A checksum of the concatenation continues the register of the first
      part; only the final reflection is applied once. */
  lemma ChecksumConcat(a: seq<bv8>, b: seq<bv8>)
    ensures Checksum(a + b) == Reflect(Register(Register(0, POLY, true, a, 0), POLY, true, b, 0) as int, 16)
  {
    RegisterConcat(0, POLY, true, a, b);
  }

  lemma EmptyIsZero()
    ensures Checksum([]) == 0
  {
    ReflectOfZero(16);
  }

  /** The register's path through the reflected bytes of "123456789". */
  lemma CheckFeedsFirst()
    ensures Feed(0x0000, POLY, 0x8C) == 0x832B
    ensures Feed(0x832B, POLY, 0x4C) == 0x29A2
    ensures Feed(0x29A2, POLY, 0xCC) == 0x205D
    ensures Feed(0x205D, POLY, 0x2C) == 0x5D28
    ensures Feed(0x5D28, POLY, 0xAC) == 0xAA25
  {
  }

  lemma CheckFeedsLast()
    ensures Feed(0xAA25, POLY, 0x6C) == 0x2794
    ensures Feed(0x2794, POLY, 0xEC) == 0x16B9
    ensures Feed(0x16B9, POLY, 0x1C) == 0xB93C
    ensures Feed(0xB93C, POLY, 0x9C) == 0xBCDD
  {
  }

  /** The register after "123456789". */
  lemma CheckRegister()
    ensures Register(0, POLY, true, [0x31, 0x32, 0x33, 0x34, 0x35, 0x36, 0x37, 0x38, 0x39], 0) == 0xBCDD
  {
    DigitsReflected();
    CheckFeedsFirst();
    CheckFeedsLast();
    var d: seq<bv8> := [0x31, 0x32, 0x33, 0x34, 0x35, 0x36, 0x37, 0x38, 0x39];
    assert Register(0xBCDD, POLY, true, d, 9) == 0xBCDD;
    assert Register(0xB93C, POLY, true, d, 8) == 0xBCDD;
    assert Register(0x16B9, POLY, true, d, 7) == 0xBCDD;
    assert Register(0x2794, POLY, true, d, 6) == 0xBCDD;
    assert Register(0xAA25, POLY, true, d, 5) == 0xBCDD;
    assert Register(0x5D28, POLY, true, d, 4) == 0xBCDD;
    assert Register(0x205D, POLY, true, d, 3) == 0xBCDD;
    assert Register(0x29A2, POLY, true, d, 2) == 0xBCDD;
    assert Register(0x832B, POLY, true, d, 1) == 0xBCDD;
    assert Register(0x0000, POLY, true, d, 0) == 0xBCDD;
  }

  /** The final reflection of that register. */
  lemma CheckOutput()
    ensures Reflect(0xBCDD, 16) == 0xBB3D
  {
    assert Reflect(0x1, 1) == 0x1;
    assert Reflect(0x2, 2) == 0x1;
    assert Reflect(0x5, 3) == 0x5;
    assert Reflect(0xB, 4) == 0xD;
    assert Reflect(0x17, 5) == 0x1D;
    assert Reflect(0x2F, 6) == 0x3D;
    assert Reflect(0x5E, 7) == 0x3D;
    assert Reflect(0xBC, 8) == 0x3D;
    assert Reflect(0x179, 9) == 0x13D;
    assert Reflect(0x2F3, 10) == 0x33D;
    assert Reflect(0x5E6, 11) == 0x33D;
    assert Reflect(0xBCD, 12) == 0xB3D;
    assert Reflect(0x179B, 13) == 0x1B3D;
    assert Reflect(0x2F37, 14) == 0x3B3D;
    assert Reflect(0x5E6E, 15) == 0x3B3D;
  }

  /** The check value of CRC-16/ARC: "123456789" gives 0xBB3D. */
  lemma CheckValue()
    ensures Checksum([0x31, 0x32, 0x33, 0x34, 0x35, 0x36, 0x37, 0x38, 0x39]) == 0xBB3D
  {
    CheckRegister();
    CheckOutput();
  }
}
