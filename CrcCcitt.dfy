/** CRC-CCITT (false): the 16-bit table engine of Crc16 with poly 0x1021,
    the register starting at 0xFFFF, no reflection of input or output and no
    final xor. */
module CrcCcitt {
  import opened Words
  import opened Crc16

  const CCITT_POLY: bv16 := 0x1021

  /** The checksum: the register after the bytes, as they are. */
  function Checksum(data: seq<bv8>): u16
  {
    Register(0xFFFF, CCITT_POLY, false, data, 0) as int
  }

  /** CrcCcitt.compute */
  method Compute(data: seq<bv8>) returns (r: u16)
    ensures r == Checksum(data)
  {
    var tbl := BuildTable(CCITT_POLY);
    var remainder: bv16 := 0xFFFF;
    for i := 0 to |data|
      invariant forall d: bv8 :: tbl[d as int] == TableEntry(CCITT_POLY, d)
      invariant Register(remainder, CCITT_POLY, false, data, i) == Register(0xFFFF, CCITT_POLY, false, data, 0)
    {
      var next := TableStep(tbl, CCITT_POLY, remainder, data[i]);
      RegisterStep(remainder, CCITT_POLY, false, data, i, next);
      remainder := next;
    }
    r := remainder as int;
  }

  /** With no final transform the checksum is the register itself, so the
      checksum of a + b continues from the checksum of a. */
  lemma ChecksumConcat(a: seq<bv8>, b: seq<bv8>)
    ensures Checksum(a + b) == Register(Checksum(a) as bv16, CCITT_POLY, false, b, 0) as int
  {
    RegisterConcat(0xFFFF, CCITT_POLY, false, a, b);
  }

  /** Empty input leaves the initial register. */
  lemma EmptyIsInit()
    ensures Checksum([]) == 0xFFFF
  {
  }

  /** The register's path through "123456789". */
  lemma CheckFeedsFirst()
    ensures Feed(0xFFFF, CCITT_POLY, 0x31) == 0xC782
    ensures Feed(0xC782, CCITT_POLY, 0x32) == 0x3DBA
    ensures Feed(0x3DBA, CCITT_POLY, 0x33) == 0x5BCE
    ensures Feed(0x5BCE, CCITT_POLY, 0x34) == 0x5349
    ensures Feed(0x5349, CCITT_POLY, 0x35) == 0x4560
  {
  }

  lemma CheckFeedsLast()
    ensures Feed(0x4560, CCITT_POLY, 0x36) == 0x2EF4
    ensures Feed(0x2EF4, CCITT_POLY, 0x37) == 0x7718
    ensures Feed(0x7718, CCITT_POLY, 0x38) == 0xA12B
    ensures Feed(0xA12B, CCITT_POLY, 0x39) == 0x29B1
  {
  }

  /** The check value of CRC-16/CCITT-FALSE: "123456789" gives 0x29B1. */
  lemma CheckValue()
    ensures Checksum([0x31, 0x32, 0x33, 0x34, 0x35, 0x36, 0x37, 0x38, 0x39]) == 0x29B1
  {
    CheckFeedsFirst();
    CheckFeedsLast();
    var d: seq<bv8> := [0x31, 0x32, 0x33, 0x34, 0x35, 0x36, 0x37, 0x38, 0x39];
    assert Register(0x29B1, CCITT_POLY, false, d, 9) == 0x29B1;
    assert Register(0xA12B, CCITT_POLY, false, d, 8) == 0x29B1;
    assert Register(0x7718, CCITT_POLY, false, d, 7) == 0x29B1;
    assert Register(0x2EF4, CCITT_POLY, false, d, 6) == 0x29B1;
    assert Register(0x4560, CCITT_POLY, false, d, 5) == 0x29B1;
    assert Register(0x5349, CCITT_POLY, false, d, 4) == 0x29B1;
    assert Register(0x5BCE, CCITT_POLY, false, d, 3) == 0x29B1;
    assert Register(0x3DBA, CCITT_POLY, false, d, 2) == 0x29B1;
    assert Register(0xC782, CCITT_POLY, false, d, 1) == 0x29B1;
    assert Register(0xFFFF, CCITT_POLY, false, d, 0) == 0x29B1;
  }
}
