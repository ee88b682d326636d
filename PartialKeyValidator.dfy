/** Key validation: the Base32 text back to bytes, the trailing checksum,
    the embedded seed and one subkey at a time. */
module PartialKeyValidator {
  import opened Words
  import opened Results
  import opened Endian
  import opened Algorithms
  import opened Dashes
  import Base32
  import KeyGenerator

  // ---------------------------------------------------------------------
  // From text to bytes

  /** `toUpperCase` on one character, for the ASCII letters. */
  function UpperOf(c: char): (r: char)
    ensures !Base32.IsLower(r)
    ensures !Base32.IsLower(c) ==> r == c
  {
    if Base32.IsLower(c) then (c as int - 32) as char else c
  }

  /** `toUpperCase` character by character. */
  function ToUpper(s: string): (r: string)
    ensures |r| == |s|
    ensures forall j :: 0 <= j < |s| ==> r[j] == UpperOf(s[j])
  {
    if s == [] then [] else [UpperOf(s[0])] + ToUpper(s[1..])
  }

  /** getKeyBytes: dashes removed, letters upper-cased, then Base32-decoded.
      After upper-casing the decoder's lower-case error cannot occur: a key
      fails only on a character outside the alphabet, reported with its
      position in the stripped text. */
  function KeyBytes(key: string): (r: Result<seq<byte>>)
    ensures r.Ok? ==> |r.value| == 5 * |StripDashes(key)| / 8
    ensures r.Err? ==> r.error.InvalidBase32Character? && r.error.pos < |StripDashes(key)|
    ensures r.Err? ==> r.error.ch == UpperOf(StripDashes(key)[r.error.pos])
                       && Base32.CharToVal(r.error.ch).None?
  {
    Base32.Decode(ToUpper(StripDashes(key)))
  }

  lemma {:induction false} ToUpperKeepsUpper(s: string)
    requires forall j :: 0 <= j < |s| ==> !Base32.IsLower(s[j])
    ensures ToUpper(s) == s
    decreases |s|
  {
    if s != [] {
      ToUpperKeepsUpper(s[1..]);
    }
  }

  /** Upper-casing and dash removal commute. */
  lemma {:induction false} ToUpperStripDashes(s: string)
    ensures StripDashes(ToUpper(s)) == ToUpper(StripDashes(s))
    decreases |s|
  {
    if s != [] {
      ToUpperStripDashes(s[1..]);
      assert ToUpper(s)[1..] == ToUpper(s[1..]);
      if s[0] != '-' {
        assert ToUpper([s[0]] + StripDashes(s[1..]))[1..] == ToUpper(StripDashes(s[1..]));
      }
    }
  }

  lemma {:induction false} ToUpperIdempotent(s: string)
    ensures ToUpper(ToUpper(s)) == ToUpper(s)
    decreases |s|
  {
    if s != [] {
      ToUpperIdempotent(s[1..]);
      assert ToUpper(s)[1..] == ToUpper(s[1..]);
    }
  }

  /** A key reads the same with its dashes removed and with its letters in
      either case. */
  lemma KeyBytesIgnoreDashesAndCase(key: string)
    ensures KeyBytes(StripDashes(key)) == KeyBytes(key)
    ensures KeyBytes(ToUpper(key)) == KeyBytes(key)
  {
    StripNoDashes(StripDashes(key));
    ToUpperStripDashes(key);
    ToUpperIdempotent(StripDashes(key));
  }

  /** The text a generator prints decodes back to the bytes it encoded,
      whatever the spacing. */
  lemma KeyBytesOfDashedEncoding(bytes: seq<byte>, spacing: nat)
    ensures KeyBytes(Dashed(Base32.Encode(bytes), spacing)) == Ok(bytes)
  {
    var e := Base32.Encode(bytes);
    Base32.EncodeAlphabet(bytes);
    StripDashed(e, spacing);
    ToUpperKeepsUpper(e);
    Base32.DecodeEncode(bytes);
  }

  // ---------------------------------------------------------------------
  // Checks on the bytes

  /** validateChecksum: at least two bytes, and the last two hold the
      checksum of the others. The checksum is already below 2^16, so the
      source's `& 0xffff` leaves it as it is. */
  function ValidateChecksum(sum: ChecksumAlgorithm, bytes: seq<byte>): (r: bool)
    ensures r <==> |bytes| >= 2 && U16LE(bytes, |bytes| - 2) == ChecksumOf(sum, bytes[..|bytes| - 2])
  {
    if |bytes| < 2 then false
    else U16LE(bytes, |bytes| - 2) == ChecksumOf(sum, bytes[..|bytes| - 2])
  }

  /** validateKeyBytes: a bad checksum gives false before the index is
      looked at; an index whose subkey would reach into the checksum is an
      error; otherwise the stored subkey is compared with the hash of
      `seed ^ base`. */
  function ValidateKeyBytes(hash: HashAlgorithm, sum: ChecksumAlgorithm, bytes: seq<byte>,
                            seed: u32, index: int, base: u32): (r: Result<bool>)
    ensures !ValidateChecksum(sum, bytes) ==> r == Ok(false)
    ensures r.Err? <==> ValidateChecksum(sum, bytes) && (index < 0 || 4 * index + 8 > |bytes| - 2)
    ensures r.Err? ==> r.error == SubkeyIndexOutOfBounds
    ensures r == Ok(true) <==>
              ValidateChecksum(sum, bytes) && 0 <= index && 4 * index + 8 <= |bytes| - 2
              && U32LE(bytes, 4 + 4 * index) == KeyGenerator.Subkey(seed, base, hash)
  {
    if !ValidateChecksum(sum, bytes) then Ok(false)
    else if index < 0 || 4 * index + 8 > |bytes| - 2 then Err(SubkeyIndexOutOfBounds)
    else Ok(U32LE(bytes, 4 + 4 * index) == KeyGenerator.Subkey(seed, base, hash))
  }

  // ---------------------------------------------------------------------
  // The entry points

  /** validateKey: the seed is read from the first four bytes. A key that
      does not decode is an error, as `fromBase32` throws. */
  function ValidateKey(sum: ChecksumAlgorithm, hash: HashAlgorithm, key: string,
                       index: int, base: int): (r: Result<bool>)
    ensures KeyBytes(key).Err? ==> r == Err(KeyBytes(key).error)
    ensures KeyBytes(key).Ok? ==>
              r == ValidateKeyBytes(hash, sum, KeyBytes(key).value, U32LE(KeyBytes(key).value, 0), index, Mask32(base))
  {
    match KeyBytes(key)
    case Err(e) => Err(e)
    case Ok(bytes) => ValidateKeyBytes(hash, sum, bytes, U32LE(bytes, 0), index, Mask32(base))
  }

  /** getSerialNumberFromKey: the seed embedded in the key. */
  function SerialNumberFromKey(key: string): (r: Result<u32>)
    ensures r.Ok? <==> KeyBytes(key).Ok?
    ensures r.Ok? ==> r.value == U32LE(KeyBytes(key).value, 0)
  {
    match KeyBytes(key)
    case Err(e) => Err(e)
    case Ok(bytes) => Ok(U32LE(bytes, 0))
  }

  /** A validator holds the hash that turns a seed string into a serial
      number; the string is given as its UTF-8 bytes. */
  datatype Validator = Validator(defaultHash: HashAlgorithm)
  {
    /** getSerialNumberFromSeed. */
    function SerialNumberFromSeed(seedUtf8: seq<byte>): u32
    {
      HashOf(defaultHash, seedUtf8)
    }

    /** validateKeyWithSeedString: a key that does not decode is an error;
        a seed string that does not hash to the embedded seed gives false;
        otherwise as validateKey. */
    function ValidateKeyWithSeedString(sum: ChecksumAlgorithm, hash: HashAlgorithm, key: string,
                                       index: int, base: int, seedUtf8: seq<byte>): (r: Result<bool>)
      ensures KeyBytes(key).Err? ==> r == Err(KeyBytes(key).error)
      ensures KeyBytes(key).Ok? && SerialNumberFromSeed(seedUtf8) != U32LE(KeyBytes(key).value, 0) ==>
                r == Ok(false)
      ensures KeyBytes(key).Ok? && SerialNumberFromSeed(seedUtf8) == U32LE(KeyBytes(key).value, 0) ==>
                r == ValidateKey(sum, hash, key, index, base)
    {
      match KeyBytes(key)
      case Err(e) => Err(e)
      case Ok(bytes) =>
        var seed := U32LE(bytes, 0);
        if HashOf(defaultHash, seedUtf8) != seed then Ok(false)
        else ValidateKeyBytes(hash, sum, bytes, seed, index, Mask32(base))
    }
  }

  // ---------------------------------------------------------------------
  // Generated keys validate

  /** The blob of a generated key passes the checksum test and holds its
      subkeys in the slots validation reads. */
  lemma BlobValidates(seed: u32, bases: seq<u32>, hashes: seq<HashAlgorithm>, sum: ChecksumAlgorithm, i: nat)
    requires |hashes| > 0 && i < |bases|
    ensures var blob := KeyGenerator.KeyBlob(seed, bases, hashes, sum);
            U32LE(blob, 0) == seed
            && ValidateKeyBytes(hashes[i % |hashes|], sum, blob, seed, i, bases[i]) == Ok(true)
  {
    KeyGenerator.BlobLayout(seed, bases, hashes, sum);
  }

  /** Every subkey of a generated key validates against the base key and
      the hash that made it, whatever the spacing. */
  lemma GeneratedKeyValidates(seed: u32, bases: seq<u32>, hashes: seq<HashAlgorithm>,
                              sum: ChecksumAlgorithm, spacing: nat, i: nat)
    requires |hashes| > 0 && i < |bases|
    ensures ValidateKey(sum, hashes[i % |hashes|], KeyGenerator.Key(seed, bases, hashes, sum, spacing), i, bases[i])
            == Ok(true)
  {
    var blob := KeyGenerator.KeyBlob(seed, bases, hashes, sum);
    assert KeyBytes(KeyGenerator.Key(seed, bases, hashes, sum, spacing)) == Ok(blob) by {
      KeyBytesOfDashedEncoding(blob, spacing);
    }
    BlobValidates(seed, bases, hashes, sum, i);
    Mask32Identity(bases[i]);
  }

  /** The serial number read back from a generated key is its seed. */
  lemma GeneratedKeySerial(seed: u32, bases: seq<u32>, hashes: seq<HashAlgorithm>,
                           sum: ChecksumAlgorithm, spacing: nat)
    requires |hashes| > 0
    ensures SerialNumberFromKey(KeyGenerator.Key(seed, bases, hashes, sum, spacing)) == Ok(seed)
  {
    var blob := KeyGenerator.KeyBlob(seed, bases, hashes, sum);
    assert KeyBytes(KeyGenerator.Key(seed, bases, hashes, sum, spacing)) == Ok(blob) by {
      KeyBytesOfDashedEncoding(blob, spacing);
    }
    KeyGenerator.BlobLayout(seed, bases, hashes, sum);
  }

  /** The serial number read back from a key made from a seed string is
      what getSerialNumberFromSeed gives for that string, when the
      validator hashes strings as the generator does (FNV-1a). */
  lemma SeedStringSerial(seedUtf8: seq<byte>, bases: seq<u32>, hashes: seq<HashAlgorithm>,
                         sum: ChecksumAlgorithm, spacing: nat)
    requires |hashes| > 0
    ensures var key := KeyGenerator.Key(HashOf(Fnv1aHash, seedUtf8), bases, hashes, sum, spacing);
            SerialNumberFromKey(key) == Ok(Validator(Fnv1aHash).SerialNumberFromSeed(seedUtf8))
  {
    GeneratedKeySerial(HashOf(Fnv1aHash, seedUtf8), bases, hashes, sum, spacing);
  }

  /** A key made from a seed string validates together with that string
      when the validator hashes strings as the generator does (FNV-1a). */
  lemma SeedStringKeyValidates(seedUtf8: seq<byte>, bases: seq<u32>, hashes: seq<HashAlgorithm>,
                               sum: ChecksumAlgorithm, spacing: nat, i: nat)
    requires |hashes| > 0 && i < |bases|
    ensures var key := KeyGenerator.Key(HashOf(Fnv1aHash, seedUtf8), bases, hashes, sum, spacing);
            Validator(Fnv1aHash).ValidateKeyWithSeedString(sum, hashes[i % |hashes|], key, i, bases[i], seedUtf8)
            == Ok(true)
  {
    var seed := HashOf(Fnv1aHash, seedUtf8);
    GeneratedKeySerial(seed, bases, hashes, sum, spacing);
    GeneratedKeyValidates(seed, bases, hashes, sum, spacing, i);
  }
}
