/** The checksum and hash kinds a key definition names, the algorithms the
    two factories build from them, and what each algorithm computes over
    the bytes of a key. */
module Algorithms {
  import opened Words
  import opened Results
  import Adler16
  import Crc16
  import CrcCcitt
  import Crc32
  import Fnv1a
  import GeneralizedCrc
  import Jenkins06
  import Jenkins96
  import OneAtATime
  import SuperFast

  /** The `ChecksumType` enum. */
  datatype ChecksumType = Adler16 | Crc16 | CrcCcitt

  /** The `HashType` enum. */
  datatype HashType = Crc32 | Fnv1A | GeneralizedCrc | Jenkins06 | Jenkins96 | OneAtATime | SuperFast

  /** A 16-bit checksum instance; none of them carries state. */
  datatype ChecksumAlgorithm = Adler16Checksum | Crc16Checksum | CrcCcittChecksum

  /** A 32-bit hash instance; only Jenkins06 carries state, its seed, a
      number in [0, 2^32) as `mask32` leaves it. */
  datatype HashAlgorithm =
    | Crc32Hash | Fnv1aHash | GeneralizedCrcHash | Jenkins06Hash(seed: u32)
    | Jenkins96Hash | OneAtATimeHash | SuperFastHash

  /** The kind an algorithm instance was built from. */
  function ChecksumKind(alg: ChecksumAlgorithm): ChecksumType
  {
    match alg
    case Adler16Checksum => Adler16
    case Crc16Checksum => Crc16
    case CrcCcittChecksum => CrcCcitt
  }

  function HashKind(alg: HashAlgorithm): HashType
  {
    match alg
    case Crc32Hash => Crc32
    case Fnv1aHash => Fnv1A
    case GeneralizedCrcHash => GeneralizedCrc
    case Jenkins06Hash(_) => Jenkins06
    case Jenkins96Hash => Jenkins96
    case OneAtATimeHash => OneAtATime
    case SuperFastHash => SuperFast
  }

  /** createChecksum. `None` stands for a value outside the enum, such as the
      never-assigned checksum field of a fresh key definition, which reaches
      the `default` branch. */
  function CreateChecksum(t: Option<ChecksumType>): (r: Result<ChecksumAlgorithm>)
    ensures r.Ok? <==> t.Some?
    ensures r.Ok? ==> ChecksumKind(r.value) == t.value
    ensures r.Err? ==> r.error == UnsupportedChecksumType
  {
    match t
    case None => Err(UnsupportedChecksumType)
    case Some(Adler16) => Ok(Adler16Checksum)
    case Some(Crc16) => Ok(Crc16Checksum)
    case Some(CrcCcitt) => Ok(CrcCcittChecksum)
  }

  /** createHash: every kind is handled; only Jenkins06 keeps the seed,
      stored as `mask32(seed)`. */
  function CreateHash(t: HashType, seed: int := 0): (r: HashAlgorithm)
    ensures HashKind(r) == t
    ensures r.Jenkins06Hash? ==> (r.seed - seed) % TWO32 == 0
  {
    match t
    case Crc32 => Crc32Hash
    case Fnv1A => Fnv1aHash
    case GeneralizedCrc => GeneralizedCrcHash
    case Jenkins06 => Jenkins06Hash(Mask32(seed))
    case Jenkins96 => Jenkins96Hash
    case OneAtATime => OneAtATimeHash
    case SuperFast => SuperFastHash
  }

  /** The bytes of a `Uint8Array` as bit-vectors. */
  function AsBv8(data: seq<byte>): (r: seq<bv8>)
    ensures |r| == |data|
  {
    seq(|data|, i requires 0 <= i < |data| => data[i] as bv8)
  }

  /** What `checksum.compute(data)` returns. */
  function ChecksumOf(alg: ChecksumAlgorithm, data: seq<byte>): u16
  {
    match alg
    case Adler16Checksum => Adler16.Checksum(data)
    case Crc16Checksum => Crc16.Checksum(AsBv8(data))
    case CrcCcittChecksum => CrcCcitt.Checksum(AsBv8(data))
  }

  /** What `hash.compute(data)` returns. */
  function HashOf(alg: HashAlgorithm, data: seq<byte>): u32
  {
    match alg
    case Crc32Hash => Crc32.Checksum(AsBv8(data)) as int
    case Fnv1aHash => Fnv1a.Hash(AsBv8(data)) as int
    case GeneralizedCrcHash => GeneralizedCrc.Hash(AsBv8(data)) as int
    case Jenkins06Hash(seed) => Jenkins06.Hash(seed as bv32, AsBv8(data)) as int
    case Jenkins96Hash => Jenkins96.Hash(AsBv8(data)) as int
    case OneAtATimeHash => OneAtATime.Hash(AsBv8(data)) as int
    case SuperFastHash => SuperFast.Hash(AsBv8(data)) as int
  }

  /** `checksum.compute(data)` runs the algorithm's own loop. */
  method ComputeChecksum(alg: ChecksumAlgorithm, data: seq<byte>) returns (r: u16)
    ensures r == ChecksumOf(alg, data)
  {
    match alg
    case Adler16Checksum =>
      r := Adler16.Compute(data);
    case Crc16Checksum =>
      r := Crc16.Compute(AsBv8(data));
    case CrcCcittChecksum =>
      r := CrcCcitt.Compute(AsBv8(data));
  }

  /** `hash.compute(data)` runs the algorithm's own loop. */
  method ComputeHash(alg: HashAlgorithm, data: seq<byte>) returns (r: u32)
    ensures r == HashOf(alg, data)
  {
    var h: bv32;
    match alg {
    case Crc32Hash =>
      h := Crc32.Compute(AsBv8(data));
    case Fnv1aHash =>
      h := Fnv1a.Compute(AsBv8(data));
    case GeneralizedCrcHash =>
      h := GeneralizedCrc.Compute(AsBv8(data));
    case Jenkins06Hash(seed) =>
      h := Jenkins06.Compute(seed as bv32, AsBv8(data));
    case Jenkins96Hash =>
      h := Jenkins96.Compute(AsBv8(data));
    case OneAtATimeHash =>
      h := OneAtATime.Compute(AsBv8(data));
    case SuperFastHash =>
      h := SuperFast.Compute(AsBv8(data));
    }
    r := h as int;
  }

  /** Every enum value has its algorithm, so the `default` branch of
      createChecksum is reached only from outside the enum. */
  lemma EveryChecksumTypeIsSupported(t: ChecksumType)
    ensures CreateChecksum(Some(t)).Ok?
    ensures ChecksumKind(CreateChecksum(Some(t)).value) == t
  {
  }

  /** The seed reaches Jenkins06 only: every other kind builds the same
      algorithm whatever seed is given, and the seed defaults to 0. */
  lemma SeedIgnored(t: HashType, s1: int, s2: int)
    requires t != Jenkins06
    ensures CreateHash(t, s1) == CreateHash(t, s2) == CreateHash(t)
  {
  }

  /** Jenkins06 is keyed by the supplied seed: every seed is stored as its
      32-bit residue, so a seed already in range is stored unchanged and
      two seeds give the same algorithm exactly when they agree mod 2^32. */
  lemma SeedKept(seed: int, other: int)
    ensures 0 <= seed < TWO32 ==> CreateHash(Jenkins06, seed) == Jenkins06Hash(seed)
    ensures CreateHash(Jenkins06, seed) == CreateHash(Jenkins06, other)
            <==> (seed - other) % TWO32 == 0
  {
    if 0 <= seed < TWO32 {
      Mask32Identity(seed);
    }
    if (seed - other) % TWO32 == 0 {
      CongruentMod(seed, other, TWO32);
    }
    if Mask32(seed) == Mask32(other) {
      DivModSplit(seed, TWO32);
      DivModSplit(other, TWO32);
      DivModOfDecomposition(seed - other, TWO32, seed / TWO32 - other / TWO32, 0);
    }
  }

  /** Jenkins06 built with seeds 1 and 2 hashes "data" apart. */
  lemma SeedMatters(data: seq<bv8>)
    requires data == [0x64, 0x61, 0x74, 0x61]
    ensures Jenkins06.Hash(CreateHash(Jenkins06, 1).seed as bv32, data)
            != Jenkins06.Hash(CreateHash(Jenkins06, 2).seed as bv32, data)
  {
    SeedKept(1, 2);
    SeedKept(2, 1);
    assert CreateHash(Jenkins06, 1).seed as bv32 == 1;
    assert CreateHash(Jenkins06, 2).seed as bv32 == 2;
    Jenkins06.SeedsDiffer();
  }

  /** The empty input: 1 for Adler16 (a starts at 1), 0 for Crc16 and
      0xFFFF for CrcCcitt (its initial remainder). */
  lemma ChecksumOfEmpty()
    ensures ChecksumOf(Adler16Checksum, []) == 1
    ensures ChecksumOf(Crc16Checksum, []) == 0
    ensures ChecksumOf(CrcCcittChecksum, []) == 0xFFFF
  {
    assert AsBv8([]) == [];
    Adler16.ChecksumOfEmpty();
    Crc16.EmptyIsZero();
    CrcCcitt.EmptyIsInit();
  }
}
