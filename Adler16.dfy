/** Adler-16: two running sums modulo 251, reduced after every chunk of at
    most 5550 bytes, packed as (b << 8) | a. */
module Adler16 {
  import opened Words

  const MODULUS: int := 251
  const CHUNK: int := 5550

  /** Sum of the bytes of s. */
  function Sum(s: seq<byte>): (r: nat)
  {
    if s == [] then 0 else Sum(s[..|s| - 1]) + s[|s| - 1]
  }

  /** The unreduced `a` after s: one plus the sum of the bytes. */
  function SumA(s: seq<byte>): (r: nat)
  {
    1 + Sum(s)
  }

  /** The unreduced `b` after s: the sum of `a` over every non-empty prefix. */
  function SumB(s: seq<byte>): (r: nat)
  {
    if s == [] then 0 else SumB(s[..|s| - 1]) + SumA(s)
  }

  /** The checksum with the two sums reduced once, at the end. */
  function Checksum(data: seq<byte>): (r: u16)
  {
    0x100 * (SumB(data) % MODULUS) + SumA(data) % MODULUS
  }

  lemma ChecksumOfEmpty()
    ensures Checksum([]) == 1
  {
  }

  /** Both bytes of the checksum are residues modulo 251. */
  lemma ChecksumBytesAreResidues(data: seq<byte>)
    ensures Checksum(data) % 0x100 == SumA(data) % MODULUS < MODULUS
    ensures Checksum(data) / 0x100 == SumB(data) % MODULUS < MODULUS
  {
    DivModOfDecomposition(Checksum(data), 0x100, SumB(data) % MODULUS, SumA(data) % MODULUS);
  }

  /** Adler16.compute: the chunked reduction equals reducing once at the end. */
  method Compute(data: seq<byte>) returns (r: u16)
    ensures r == Checksum(data)
  {
    var a, b := 1, 0;
    var len := |data|;
    var offset := 0;
    while len > 0
      invariant 0 <= offset <= |data| && len == |data| - offset
      invariant 0 <= a < MODULUS && 0 <= b < MODULUS
      invariant a == SumA(data[..offset]) % MODULUS && b == SumB(data[..offset]) % MODULUS
    {
      var tlen := if len < CHUNK then len else CHUNK;
      len := len - tlen;
      // The source's do-while: tlen >= 1, so testing first runs the same iterations.
      var n := tlen;
      CongruentMod(SumA(data[..offset]), a, MODULUS);
      CongruentMod(SumB(data[..offset]), b, MODULUS);
      while n > 0
        invariant 0 <= n && offset + n + len == |data|
        invariant a >= 0 && b >= 0
        invariant Congruent(a, SumA(data[..offset]), MODULUS)
        invariant Congruent(b, SumB(data[..offset]), MODULUS)
      {
        assert data[..offset + 1][..offset] == data[..offset];
        CongruentAdd(a, SumA(data[..offset]), data[offset], data[offset], MODULUS);
        a := a + data[offset];
        offset := offset + 1;
        CongruentAdd(b, SumB(data[..offset - 1]), a, SumA(data[..offset]), MODULUS);
        b := b + a;
        n := n - 1;
      }
      CongruentMod(a, SumA(data[..offset]), MODULUS);
      CongruentMod(b, SumB(data[..offset]), MODULUS);
      a := a % MODULUS;
      b := b % MODULUS;
    }
    assert data[..offset] == data;
    // `(b << 8) | a` is `b * 256 + a` because a < 256.
    r := Mask16(b * 0x100 + a);
  }
}
