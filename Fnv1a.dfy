/** FNV-1a, 32-bit: xor in each byte, then multiply by the FNV prime. */
module Fnv1a {
  import opened Words

  // The offset basis 0x811C9DC5 and the prime 0x01000193 appear as literals
  // in Step and Hash.

  /** One pass of the byte loop: xor in the byte, then `Math.imul` by the
      prime, which is multiplication modulo 2^32. */
  function Step(h: bv32, b: bv8): bv32
  {
    (h ^ (b as bv32)) * 0x0100_0193
  }

  /** The hash of data, one step per byte from the offset basis. */
  function Hash(data: seq<bv8>): bv32
  {
    if data == [] then 0x811C9DC5 else Step(Hash(data[..|data| - 1]), data[|data| - 1])
  }

  /** Fnv1a.compute */
  method Compute(data: seq<bv8>) returns (h: bv32)
    ensures h == Hash(data)
  {
    h := 0x811C9DC5;
    var i := 0;
    while i < |data|
      invariant 0 <= i <= |data|
      invariant h == Hash(data[..i])
    {
      assert data[..i + 1][..i] == data[..i];
      h := Step(h, data[i]);
      i := i + 1;
    }
    assert data[..i] == data;
  }

  /** Multiplying by the prime is the shift-and-add form of the reference. */
  lemma PrimeIsShiftAdd(x: bv32)
    ensures x * 0x0100_0193 == x + (x << 1) + (x << 4) + (x << 7) + (x << 8) + (x << 24)
  {
  }

  lemma EmptyIsOffsetBasis()
    ensures Hash([]) == 0x811C9DC5
  {
  }

  lemma VectorA()
    ensures Hash([0x61]) == 0xE40C292C
  {
    assert [0x61][..0] == [];
  }

  /** The bytes of "bob@smith.com". */
  const EMAIL: seq<bv8> := [98, 111, 98, 64, 115, 109, 105, 116, 104, 46, 99, 111, 109]

  /** The bytes of "bob@smith.com" hash to 966448512. */
  lemma VectorEmail()
    ensures Hash(EMAIL) == 966448512
  {
    assert EMAIL[..0] == [];
    assert Step(0x811C9DC5, 98) == 0xE70C2DE5;
    assert EMAIL[..1][..0] == EMAIL[..0];
    assert Hash(EMAIL[..1]) == 0xE70C2DE5;
    assert Step(0xE70C2DE5, 111) == 0x422BB03E;
    assert EMAIL[..2][..1] == EMAIL[..1];
    assert Hash(EMAIL[..2]) == 0x422BB03E;
    assert Step(0x422BB03E, 98) == 0x86C6A0D4;
    assert EMAIL[..3][..2] == EMAIL[..2];
    assert Hash(EMAIL[..3]) == 0x86C6A0D4;
    assert Step(0x86C6A0D4, 64) == 0xBEAEC8FC;
    assert EMAIL[..4][..3] == EMAIL[..3];
    assert Hash(EMAIL[..4]) == 0xBEAEC8FC;
    assert Step(0xBEAEC8FC, 115) == 0xBC25B91D;
    assert EMAIL[..5][..4] == EMAIL[..4];
    assert Hash(EMAIL[..5]) == 0xBC25B91D;
    assert Step(0xBC25B91D, 109) == 0x9F62EB50;
    assert EMAIL[..6][..5] == EMAIL[..5];
    assert Hash(EMAIL[..6]) == 0x9F62EB50;
    assert Step(0x9F62EB50, 105) == 0x21B84ABB;
    assert EMAIL[..7][..6] == EMAIL[..6];
    assert Hash(EMAIL[..7]) == 0x21B84ABB;
    assert Step(0x21B84ABB, 116) == 0xE41DC3DD;
    assert EMAIL[..8][..7] == EMAIL[..7];
    assert Hash(EMAIL[..8]) == 0xE41DC3DD;
    assert Step(0xE41DC3DD, 104) == 0xCFDB15EF;
    assert EMAIL[..9][..8] == EMAIL[..8];
    assert Hash(EMAIL[..9]) == 0xCFDB15EF;
    assert Step(0xCFDB15EF, 46) == 0xF6E33ED3;
    assert EMAIL[..10][..9] == EMAIL[..9];
    assert Hash(EMAIL[..10]) == 0xF6E33ED3;
    assert Step(0xF6E33ED3, 99) == 0x57BBAF10;
    assert EMAIL[..11][..10] == EMAIL[..10];
    assert Hash(EMAIL[..11]) == 0x57BBAF10;
    assert Step(0x57BBAF10, 111) == 0x9B7544ED;
    assert EMAIL[..12][..11] == EMAIL[..11];
    assert Hash(EMAIL[..12]) == 0x9B7544ED;
    assert Step(0x9B7544ED, 109) == 0x399AD580;
    assert EMAIL[..13][..12] == EMAIL[..12];
    assert Hash(EMAIL[..13]) == 0x399AD580;
    assert EMAIL[..13] == EMAIL;
  }
}
