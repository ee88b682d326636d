/** CRC-32/ISO-HDLC computed the way the source does: a non-reflected table
    for poly 0x04C11DB7 built with left shifts, each input byte reflected
    before it is looked up, the register starting at 0xFFFFFFFF, and the
    final register reflected and xored with 0xFFFFFFFF. */
module Crc32 {
  import opened Words
  import opened BitReflect

  const POLY: bv32 := 0x04C1_1DB7

  /** One pass of the table's bit loop: shift left, and xor in the poly when
      the top bit was set (the top bit, spread to a mask, selects it). */
  function Shift(r: bv32): bv32
  {
    (r << 1) ^ (POLY & (0 - (r >> 31)))
  }

  /** k passes of the bit loop. */
  function Passes(r: bv32, k: nat): bv32
    decreases k
  {
    if k == 0 then r else Passes(Shift(r), k - 1)
  }

  /** `table[d]`: eight passes starting from d << 24. */
  function TableEntry(d: bv8): bv32
  {
    Passes((d as bv32) << 24, 8)
  }

  /** The body of the bit loop, with the source's branch on the top bit. */
  method ShiftStep(r: bv32) returns (s: bv32)
    ensures s == Shift(r)
  {
    if r & 0x8000_0000 != 0 {
      assert r >> 31 == 1;
      s := (r << 1) ^ POLY;
    } else {
      assert r >> 31 == 0;
      s := r << 1;
    }
  }

  /** The inner loop of `table()` for one dividend. */
  method ComputeEntry(d: bv8) returns (r: bv32)
    ensures r == TableEntry(d)
  {
    r := (d as bv32) << 24;
    var bit := 8;
    while bit > 0
      invariant 0 <= bit <= 8
      invariant Passes(r, bit) == TableEntry(d)
    {
      r := ShiftStep(r);
      bit := bit - 1;
    }
  }

  /** `table()`: the 256 entries, one per dividend. */
  method BuildTable() returns (t: array<bv32>)
    ensures fresh(t) && t.Length == 256
    ensures forall d: bv8 :: t[d as int] == TableEntry(d)
  {
    t := new bv32[256];
    var dividend := 0;
    while dividend < 256
      invariant 0 <= dividend <= 256
      invariant forall d: bv8 :: d as int < dividend ==> t[d as int] == TableEntry(d)
    {
      var entry := ComputeEntry(dividend as bv8);
      t[dividend] := entry;
      dividend := dividend + 1;
    }
  }

  /** One byte of the table-driven loop, x being the reflected byte:
      `tbl[x ^ (rem >>> 24)] ^ (rem << 8)`. */
  function Feed(rem: bv32, x: bv8): bv32
  {
    TableEntry(x ^ ((rem >> 24) as bv8)) ^ (rem << 8)
  }

  /** The register after feeding the bytes of data from index i on, each
      reflected as it enters. */
  function Register(rem: bv32, data: seq<bv8>, i: nat): bv32
    requires i <= |data|
    decreases |data| - i
  {
    if i == |data| then rem else Register(Feed(rem, ReflectByte(data[i])), data, i + 1)
  }

  /** Starting at index i of a + b, inside a, is finishing a and then
      starting b from the register a leaves. */
  lemma {:induction false} RegisterSplit(rem: bv32, a: seq<bv8>, b: seq<bv8>, i: nat)
    requires i <= |a|
    ensures Register(rem, a + b, i) == Register(Register(rem, a, i), b, 0)
    decreases |a| - i
  {
    if i == |a| {
      RegisterShift(rem, a, b, 0);
    } else {
      assert (a + b)[i] == a[i];
      RegisterSplit(Feed(rem, ReflectByte(a[i])), a, b, i + 1);
    }
  }

  /** Past the end of a, a + b is fed exactly as b is. */
  lemma {:induction false} RegisterShift(rem: bv32, a: seq<bv8>, b: seq<bv8>, j: nat)
    requires j <= |b|
    ensures Register(rem, a + b, |a| + j) == Register(rem, b, j)
    decreases |b| - j
  {
    if j < |b| {
      assert (a + b)[|a| + j] == b[j];
      RegisterShift(Feed(rem, ReflectByte(b[j])), a, b, j + 1);
    }
  }

  /** The register is streamable: feeding a + b from rem is feeding a, then
      feeding b from where a left off. */
  lemma RegisterConcat(rem: bv32, a: seq<bv8>, b: seq<bv8>)
    ensures Register(rem, a + b, 0) == Register(Register(rem, a, 0), b, 0)
  {
    RegisterSplit(rem, a, b, 0);
  }

  /** One pass of the compute loop: look the index up in the built table. */
  method TableStep(tbl: array<bv32>, rem: bv32, x: bv8) returns (r: bv32)
    requires tbl.Length == 256
    requires forall d: bv8 :: tbl[d as int] == TableEntry(d)
    ensures r == Feed(rem, x)
  {
    r := tbl[(x ^ ((rem >> 24) as bv8)) as int] ^ (rem << 8);
  }

  /** Feeding one byte moves the register on by one index. */
  lemma RegisterStep(rem: bv32, data: seq<bv8>, i: nat, next: bv32)
    requires i < |data| && next == Feed(rem, ReflectByte(data[i]))
    ensures Register(rem, data, i) == Register(next, data, i + 1)
  {
  }

  /** The final transform: reflect all 32 bits, then xor with 0xFFFFFFFF. */
  function Finish(rem: bv32): bv32
  {
    ReflectWord(rem) ^ 0xFFFF_FFFF
  }

  /** The hash: the register after the reflected bytes, finished. */
  function Checksum(data: seq<bv8>): bv32
  {
    Finish(Register(0xFFFF_FFFF, data, 0))
  }

  /** The loop of Crc32.compute: the register after all of data. */
  method Remainder(data: seq<bv8>) returns (remainder: bv32)
    ensures remainder == Register(0xFFFF_FFFF, data, 0)
  {
    var tbl := BuildTable();
    remainder := 0xFFFF_FFFF;
    for i := 0 to |data|
      invariant forall d: bv8 :: tbl[d as int] == TableEntry(d)
      invariant Register(remainder, data, i) == Register(0xFFFF_FFFF, data, 0)
    {
      var b := ReflectBits(data[i] as int, 8);
      ReflectByteValue(data[i], b);
      var next := TableStep(tbl, remainder, b as bv8);
      RegisterStep(remainder, data, i, next);
      remainder := next;
    }
  }

  /** `reflect(remainder, 32)` by the source's bit loop, as a word. */
  method ReflectRemainder(remainder: bv32) returns (w: bv32)
    ensures w == ReflectWord(remainder)
  {
    var out := ReflectBits(remainder as int, 32);
    ReflectWordValue(remainder, out);
    w := out as bv32;
  }

  /** Crc32.compute: the loop, then the reflection and the final xor. */
  method Compute(data: seq<bv8>) returns (r: bv32)
    ensures r == Checksum(data)
  {
    var remainder := Remainder(data);
    var out := ReflectRemainder(remainder);
    r := out ^ 0xFFFF_FFFF;
  }

  /** A hash of the concatenation continues the register of the first part;
      only the final transform is applied once. */
  lemma ChecksumConcat(a: seq<bv8>, b: seq<bv8>)
    ensures Checksum(a + b) == Finish(Register(Register(0xFFFF_FFFF, a, 0), b, 0))
  {
    RegisterConcat(0xFFFF_FFFF, a, b);
  }

  /** Empty input: the all-ones register reflects to itself and the xor
      clears it. */
  lemma EmptyIsZero()
    ensures Checksum([]) == 0
  {
    ReflectOfOnes(32);
    Pow2Values();
    ReflectWordIs(0xFFFF_FFFF, 0xFFFF_FFFF);
  }

  /** The register's path through the reflected bytes of "123456789". */
  lemma CheckFeedsFirst()
    ensures Feed(0xFFFF_FFFF, 0x8C) == 0x1208_C43E
    ensures Feed(0x1208_C43E, 0x4C) == 0x4CDD_350D
    ensures Feed(0x4CDD_350D, 0xCC) == 0xB439_EDEE
    ensures Feed(0xB439_EDEE, 0x2C) == 0x3AF8_3826
    ensures Feed(0x3AF8_3826, 0xAC) == 0xC7A3_502C
  {
  }

  lemma CheckFeedsLast()
    ensures Feed(0xC7A3_502C, 0x6C) == 0x7934_B16F
    ensures Feed(0x7934_B16F, 0xEC) == 0x0669_3FF5
    ensures Feed(0x0669_3FF5, 0x1C) == 0x0AA4_F8A6
    ensures Feed(0x0AA4_F8A6, 0x9C) == 0x9B63_D02C
  {
  }

  /** The register after "123456789". */
  lemma CheckRegister()
    ensures Register(0xFFFF_FFFF, [0x31, 0x32, 0x33, 0x34, 0x35, 0x36, 0x37, 0x38, 0x39], 0) == 0x9B63_D02C
  {
    DigitsReflected();
    CheckFeedsFirst();
    CheckFeedsLast();
    var d: seq<bv8> := [0x31, 0x32, 0x33, 0x34, 0x35, 0x36, 0x37, 0x38, 0x39];
    assert Register(0x9B63_D02C, d, 9) == 0x9B63_D02C;
    assert Register(0x0AA4_F8A6, d, 8) == 0x9B63_D02C;
    assert Register(0x0669_3FF5, d, 7) == 0x9B63_D02C;
    assert Register(0x7934_B16F, d, 6) == 0x9B63_D02C;
    assert Register(0xC7A3_502C, d, 5) == 0x9B63_D02C;
    assert Register(0x3AF8_3826, d, 4) == 0x9B63_D02C;
    assert Register(0xB439_EDEE, d, 3) == 0x9B63_D02C;
    assert Register(0x4CDD_350D, d, 2) == 0x9B63_D02C;
    assert Register(0x1208_C43E, d, 1) == 0x9B63_D02C;
    assert Register(0xFFFF_FFFF, d, 0) == 0x9B63_D02C;
  }

  /** The final reflection of that register. */
  lemma CheckOutput()
    ensures Reflect(0x9B63_D02C, 32) == 0x340B_C6D9
  {
    assert Reflect(0x1, 1) == 0x1;
    assert Reflect(0x2, 2) == 0x1;
    assert Reflect(0x4, 3) == 0x1;
    assert Reflect(0x9, 4) == 0x9;
    assert Reflect(0x13, 5) == 0x19;
    assert Reflect(0x26, 6) == 0x19;
    assert Reflect(0x4D, 7) == 0x59;
    assert Reflect(0x9B, 8) == 0xD9;
    assert Reflect(0x136, 9) == 0xD9;
    assert Reflect(0x26D, 10) == 0x2D9;
    assert Reflect(0x4DB, 11) == 0x6D9;
    assert Reflect(0x9B6, 12) == 0x6D9;
    assert Reflect(0x136C, 13) == 0x6D9;
    assert Reflect(0x26D8, 14) == 0x6D9;
    assert Reflect(0x4DB1, 15) == 0x46D9;
    assert Reflect(0x9B63, 16) == 0xC6D9;
    assert Reflect(0x136C7, 17) == 0x1C6D9;
    assert Reflect(0x26D8F, 18) == 0x3C6D9;
    assert Reflect(0x4DB1E, 19) == 0x3C6D9;
    assert Reflect(0x9B63D, 20) == 0xBC6D9;
    assert Reflect(0x136C7A, 21) == 0xBC6D9;
    assert Reflect(0x26D8F4, 22) == 0xBC6D9;
    assert Reflect(0x4DB1E8, 23) == 0xBC6D9;
    assert Reflect(0x9B63D0, 24) == 0xBC6D9;
    assert Reflect(0x136C7A0, 25) == 0xBC6D9;
    assert Reflect(0x26D8F40, 26) == 0xBC6D9;
    assert Reflect(0x4DB1E81, 27) == 0x40BC6D9;
    assert Reflect(0x9B63D02, 28) == 0x40BC6D9;
    assert Reflect(0x136C7A05, 29) == 0x140BC6D9;
    assert Reflect(0x26D8F40B, 30) == 0x340BC6D9;
    assert Reflect(0x4DB1E816, 31) == 0x340BC6D9;
  }

  /** The check value of CRC-32: "123456789" gives 0xCBF43926. */
  lemma CheckValue()
    ensures Checksum([0x31, 0x32, 0x33, 0x34, 0x35, 0x36, 0x37, 0x38, 0x39]) == 0xCBF4_3926
  {
    CheckRegister();
    CheckOutput();
    ReflectWordIs(0x9B63_D02C, 0x340B_C6D9);
  }
}
