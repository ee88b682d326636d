/** Key generation: the 32-bit seed, one 32-bit subkey per base key and a
    16-bit checksum, packed little-endian, Base32-encoded and cut into
    dash-separated groups. */
module KeyGenerator {
  import opened Words
  import opened Results
  import opened Endian
  import opened Algorithms
  import opened Dashes
  import Base32
  import KeyDefinitions

  // ---------------------------------------------------------------------
  // The key as a function of the seed and the generator's settings

  /** The subkey of one base key: the hash of the little-endian bytes of
      `(seed ^ base) >>> 0`. */
  function Subkey(seed: u32, base: u32, hash: HashAlgorithm): u32
  {
    HashOf(hash, LE32(Xor32(seed, base)))
  }

  /** The subkeys in base-key order; base i uses hash number i mod |hashes|. */
  function SubkeyWords(seed: u32, bases: seq<u32>, hashes: seq<HashAlgorithm>): (r: seq<u32>)
    requires |hashes| > 0
    ensures |r| == |bases|
  {
    seq(|bases|, i requires 0 <= i < |bases| => Subkey(seed, bases[i], hashes[i % |hashes|]))
  }

  /** The checksummed part of the key: the seed, then the subkeys. */
  function KeyData(seed: u32, bases: seq<u32>, hashes: seq<HashAlgorithm>): (r: seq<byte>)
    requires |hashes| > 0
    ensures |r| == 4 * |bases| + 4
  {
    LE32(seed) + PackLE(SubkeyWords(seed, bases, hashes))
  }

  /** The unencoded key: the data, then the 16-bit checksum of the data. */
  function KeyBlob(seed: u32, bases: seq<u32>, hashes: seq<HashAlgorithm>, sum: ChecksumAlgorithm): (r: seq<byte>)
    requires |hashes| > 0
    ensures |r| == 4 * |bases| + 6
  {
    KeyData(seed, bases, hashes) + LE16(ChecksumOf(sum, KeyData(seed, bases, hashes)))
  }

  /** The key `generate` returns for a seed already reduced to a word. */
  function Key(seed: u32, bases: seq<u32>, hashes: seq<HashAlgorithm>, sum: ChecksumAlgorithm,
               spacing: nat): string
    requires |hashes| > 0
  {
    Dashed(Base32.Encode(KeyBlob(seed, bases, hashes, sum)), spacing)
  }

  /** The blob holds the seed in bytes 0-3, the subkey of base i in bytes
      4+4i to 7+4i and, in its last two bytes, the checksum of all the bytes
      before them. */
  lemma BlobLayout(seed: u32, bases: seq<u32>, hashes: seq<HashAlgorithm>, sum: ChecksumAlgorithm)
    requires |hashes| > 0
    ensures var blob := KeyBlob(seed, bases, hashes, sum);
            && U32LE(blob, 0) == seed
            && U16LE(blob, |blob| - 2) == ChecksumOf(sum, blob[..|blob| - 2])
            && forall i :: 0 <= i < |bases| ==>
                 U32LE(blob, 4 + 4 * i) == Subkey(seed, bases[i], hashes[i % |hashes|])
  {
    var data := KeyData(seed, bases, hashes);
    var words := SubkeyWords(seed, bases, hashes);
    var c := ChecksumOf(sum, data);
    var blob := KeyBlob(seed, bases, hashes, sum);
    assert blob == LE32(seed) + PackLE(words) + LE16(c);
    PackedBlob(seed, words, c);
    assert blob[..|blob| - 2] == data;
    forall i | 0 <= i < |bases|
      ensures U32LE(blob, 4 + 4 * i) == Subkey(seed, bases[i], hashes[i % |hashes|])
    {
      assert words[i] == Subkey(seed, bases[i], hashes[i % |hashes|]);
    }
  }

  /** Keys of two seeds have their dashes at the same places. */
  lemma KeysShareLayout(s1: u32, s2: u32, bases: seq<u32>, hashes: seq<HashAlgorithm>,
                        sum: ChecksumAlgorithm, spacing: nat)
    requires |hashes| > 0
    ensures |Key(s1, bases, hashes, sum, spacing)| == |Key(s2, bases, hashes, sum, spacing)|
    ensures forall j :: 0 <= j < |Key(s1, bases, hashes, sum, spacing)| ==>
              (Key(s1, bases, hashes, sum, spacing)[j] == '-' <==> Key(s2, bases, hashes, sum, spacing)[j] == '-')
  {
    var e1 := Base32.Encode(KeyBlob(s1, bases, hashes, sum));
    var e2 := Base32.Encode(KeyBlob(s2, bases, hashes, sum));
    Base32.EncodeLength(KeyBlob(s1, bases, hashes, sum));
    Base32.EncodeLength(KeyBlob(s2, bases, hashes, sum));
    Base32.EncodeAlphabet(KeyBlob(s1, bases, hashes, sum));
    Base32.EncodeAlphabet(KeyBlob(s2, bases, hashes, sum));
    SameDashLayout(e1, e2, spacing);
  }

  /** One pass of the subkey loop extends the written prefix by one slot. */
  lemma FillStep(seed: u32, words: seq<u32>, k: nat, o: nat, before: seq<byte>, after: seq<byte>)
    requires k < |words| && o == 4 + 4 * k && o + 4 <= |before|
    requires before[..o] == LE32(seed) + PackLE(words[..k])
    requires after == PutU32LE(before, o, words[k])
    ensures after[..o + 4] == LE32(seed) + PackLE(words[..k + 1])
  {
    PutExtends(before, o, words[k]);
    PackLESnoc(words, k);
  }

  /** One pass of the subkey loop of `generate`: the hash of
      `(seed ^ base) >>> 0`, under the hash the cycling index picks, goes
      into the four bytes after those already written. */
  method WriteSubkey(data: array<byte>, seed: u32, bases: seq<u32>, hashes: seq<HashAlgorithm>,
                     k: nat, hashIdx: nat, offset: nat, ghost words: seq<u32>, ghost written: seq<byte>)
    returns (ghost written': seq<byte>)
    requires |hashes| > 0 && k < |bases| && hashIdx == k % |hashes| && |words| == |bases|
    requires words[k] == Subkey(seed, bases[k], hashes[k % |hashes|])
    requires offset == 4 + 4 * k && data.Length == 4 * |bases| + 4
    requires data[..offset] == written
    requires written == LE32(seed) + PackLE(words[..k])
    modifies data
    ensures data[..offset + 4] == written'
    ensures written' == LE32(seed) + PackLE(words[..k + 1])
  {
    var digit := Xor32(seed, bases[k]);
    var payload := LE32(digit);
    var hval := ComputeHash(hashes[hashIdx], payload);
    assert hval == words[k];
    ghost var before := data[..];
    SetU32LE(data, offset, hval);
    FillStep(seed, words, k, offset, before, data[..]);
    written' := data[..offset + 4];
  }

  /** When the loop has written every word, the whole buffer is the data. */
  lemma FillDone(seed: u32, words: seq<u32>, buffer: seq<byte>, written: seq<byte>)
    requires |buffer| == 4 * |words| + 4
    requires buffer[..4 + 4 * |words|] == written
    requires written == LE32(seed) + PackLE(words[..|words|])
    ensures buffer == LE32(seed) + PackLE(words)
  {
    assert words[..|words|] == words;
    assert buffer == buffer[..4 + 4 * |words|];
  }

  /** The subkey loop of `generate`: the seed in bytes 0-3, then each base
      key's subkey, the hash index cycling through the hashes. `words` are
      the subkeys the loop is to write. */
  method FillWords(seed: u32, bases: seq<u32>, hashes: seq<HashAlgorithm>, ghost words: seq<u32>)
    returns (data: array<byte>)
    requires |hashes| > 0 && |words| == |bases|
    requires forall k :: 0 <= k < |bases| ==> words[k] == Subkey(seed, bases[k], hashes[k % |hashes|])
    ensures fresh(data)
    ensures data[..] == LE32(seed) + PackLE(words)
  {
    var n, numHashes := |bases|, |hashes|;
    data := new byte[4 * n + 4](_ => 0);
    ghost var zeros := data[..];
    SetU32LE(data, 0, seed);
    PutExtends(zeros, 0, seed);
    var hashIdx := 0;
    ZeroMod(numHashes);
    var offset := 4;
    ghost var written := data[..4];
    for k := 0 to n
      invariant offset == 4 + 4 * k && hashIdx == k % numHashes
      invariant data.Length == 4 * n + 4
      invariant data[..offset] == written
      invariant written == LE32(seed) + PackLE(words[..k])
    {
      written := WriteSubkey(data, seed, bases, hashes, k, hashIdx, offset, words, written);
      offset := offset + 4;
      ModSucc(k, numHashes, hashIdx);
      hashIdx := (hashIdx + 1) % numHashes;
    }
    FillDone(seed, words, data[..], written);
  }

  /** Keys are only ever added, so every seed drawn so far stays in the map. */
  lemma DrawnSeedsKept(seeds: seq<u32>, i: nat, before: map<u32, string>, after: map<u32, string>)
    requires i < |seeds| && before.Keys <= after.Keys && seeds[i] in after
    requires forall j :: 0 <= j < i ==> seeds[j] in before
    ensures forall j :: 0 <= j <= i ==> seeds[j] in after
  {
  }

  class PartialKeyGenerator {
    var baseKeys: seq<u32>
    var checksum: ChecksumAlgorithm
    var hashFunctions: seq<HashAlgorithm>
    var spacing: nat

    /** The constructor's checks: at least one base key and one hash. */
    predicate Valid()
      reads this
    {
      |baseKeys| > 0 && |hashFunctions| > 0
    }

    /** The private constructor past its two checks: the keys are stored as
        unsigned words and the spacing as `max(0, spacing | 0)`. */
    constructor (keys: seq<int>, sum: ChecksumAlgorithm, hashes: seq<HashAlgorithm>, sp: int)
      requires |keys| > 0 && |hashes| > 0
      ensures Valid()
      ensures baseKeys == KeyDefinitions.NormalizedKeys(keys) && checksum == sum
      ensures hashFunctions == hashes && spacing == StoredSpacing(sp)
    {
      baseKeys := KeyDefinitions.NormalizedKeys(keys);
      checksum := sum;
      hashFunctions := hashes;
      spacing := StoredSpacing(sp);
    }

    function GetSpacing(): nat
      reads this
    {
      spacing
    }

    method SetSpacing(sp: int)
      modifies this
      ensures spacing == StoredSpacing(sp)
      ensures baseKeys == old(baseKeys) && checksum == old(checksum)
      ensures hashFunctions == old(hashFunctions)
    {
      spacing := StoredSpacing(sp);
    }

    /** The key of a word seed under this generator's settings. */
    function KeyFor(seed: u32): string
      reads this
      requires Valid()
    {
      Key(seed, baseKeys, hashFunctions, checksum, spacing)
    }

    /** The byte array `generate` fills before encoding it. */
    method FillKeyData(seed: u32) returns (data: array<byte>)
      requires Valid()
      ensures fresh(data)
      ensures data[..] == KeyData(seed, baseKeys, hashFunctions)
    {
      ghost var words := SubkeyWords(seed, baseKeys, hashFunctions);
      data := FillWords(seed, baseKeys, hashFunctions, words);
    }

    /** generate: `seed >>> 0`, the blob, its Base32 text and the dashes. */
    method Generate(seed: int) returns (key: string)
      requires Valid()
      ensures key == KeyFor(Mask32(seed))
    {
      var seed32 := Mask32(seed);
      var data := FillKeyData(seed32);
      var sum := ComputeChecksum(checksum, data[..]);
      Mask16Identity(sum);
      var keyBytes := data[..] + LE16(Mask16(sum));
      key := Base32.ToBase32(keyBytes);
      if spacing > 0 {
        key := InsertDashes(key, spacing);
      }
    }

    /** generateFromString, given the UTF-8 bytes of the string: the seed is
        their FNV-1a hash. */
    method GenerateFromString(utf8: seq<byte>) returns (key: string)
      requires Valid()
      ensures key == KeyFor(HashOf(Fnv1aHash, utf8))
    {
      var seed32 := ComputeHash(Fnv1aHash, utf8);
      Mask32Identity(seed32);
      key := Generate(seed32);
    }

    /** Every entry of the map is the key of its seed. */
    ghost predicate Generated(out: map<u32, string>)
      reads this
      requires Valid()
    {
      forall s {:trigger KeyFor(s)} :: s in out ==> out[s] == KeyFor(s)
    }

    lemma GeneratedGrows(out: map<u32, string>, seed: u32, key: string)
      requires Valid() && Generated(out) && key == KeyFor(seed)
      ensures Generated(out[seed := key])
    {
    }

    /** `out.set(seed, this.generate(seed))` for a seed not yet in the map. */
    method AddKey(out: map<u32, string>, seed: u32) returns (next: map<u32, string>)
      requires Valid() && Generated(out) && seed !in out
      ensures Generated(next) && next.Keys == out.Keys + {seed} && |next| == |out| + 1
    {
      Mask32Identity(seed);
      var key := Generate(seed);
      GeneratedGrows(out, seed, key);
      next := out[seed := key];
    }

    /** generateMany, with the random seeds supplied in the order they are
        drawn: seeds already used are skipped until `count` keys are held,
        or here until the supplied seeds run out. */
    method GenerateMany(count: int, seeds: seq<u32>) returns (r: Result<map<u32, string>>)
      requires Valid()
      ensures r.Err? <==> count < 0
      ensures r.Err? ==> r.error == NegativeKeyCount
      ensures r.Ok? ==> |r.value| <= count
      ensures r.Ok? ==> forall s :: s in r.value ==> s in seeds
      ensures r.Ok? ==> Generated(r.value)
      ensures r.Ok? && |r.value| < count ==> forall s :: s in seeds ==> s in r.value
    {
      if count < 0 {
        return Err(NegativeKeyCount);
      }
      var out: map<u32, string> := map[];
      var i := 0;
      while |out| < count && i < |seeds|
        invariant 0 <= i <= |seeds| && |out| <= count
        invariant forall s :: s in out ==> s in seeds
        invariant Generated(out)
        invariant forall j :: 0 <= j < i ==> seeds[j] in out
      {
        var seed := seeds[i];
        ghost var before := out;
        if seed !in out {
          out := AddKey(out, seed);
        }
        DrawnSeedsKept(seeds, i, before, out);
        i := i + 1;
      }
      return Ok(out);
    }
  }

  /** `Math.max(0, spacing | 0)`. */
  function StoredSpacing(spacing: int): (r: nat)
    ensures r == 0 <==> ToInt32(spacing) <= 0
    ensures 0 <= spacing < 0x8000_0000 ==> r == spacing
  {
    if ToInt32(spacing) < 0 then 0 else ToInt32(spacing)
  }

  /** The constructor's two checks, in order, then the constructor. */
  method New(keys: seq<int>, sum: ChecksumAlgorithm, hashes: seq<HashAlgorithm>, sp: int)
    returns (r: Result<PartialKeyGenerator>)
    ensures r.Err? <==> |keys| == 0 || |hashes| == 0
    ensures r.Err? ==> r.error == if |keys| == 0 then EmptyBaseKeys else EmptyHashFunctions
    ensures r.Ok? ==> fresh(r.value) && r.value.Valid()
    ensures r.Ok? ==> r.value.baseKeys == KeyDefinitions.NormalizedKeys(keys)
    ensures r.Ok? ==> r.value.checksum == sum && r.value.hashFunctions == hashes
    ensures r.Ok? ==> r.value.spacing == StoredSpacing(sp)
  {
    if |keys| == 0 {
      return Err(EmptyBaseKeys);
    }
    if |hashes| == 0 {
      return Err(EmptyHashFunctions);
    }
    var g := new PartialKeyGenerator(keys, sum, hashes, sp);
    return Ok(g);
  }

  /** fromKeyDefinition: the arguments are read in order, so an unset
      checksum is reported before a Jenkins06 hash, and both before the
      constructor's checks. */
  method FromKeyDefinition(def: KeyDefinitions.KeyDefinition) returns (r: Result<PartialKeyGenerator>)
    ensures def.checksum.None? ==> r == Err(UnsupportedChecksumType)
    ensures def.checksum.Some? && Jenkins06 in def.hashFunctions ==> r == Err(Jenkins06Unsupported)
    ensures def.checksum.Some? && Jenkins06 !in def.hashFunctions ==>
              (r.Err? <==> def.baseKeys == [] || def.hashFunctions == [])
    ensures def.checksum.Some? && Jenkins06 !in def.hashFunctions && def.baseKeys == [] ==>
              r == Err(EmptyBaseKeys)
    ensures r.Ok? ==> fresh(r.value) && r.value.Valid()
    ensures r.Ok? ==> r.value.baseKeys == def.baseKeys
    ensures r.Ok? ==> ChecksumKind(r.value.checksum) == def.checksum.value
    ensures r.Ok? ==> |r.value.hashFunctions| == |def.hashFunctions|
    ensures r.Ok? ==> forall i :: 0 <= i < |def.hashFunctions| ==>
                        r.value.hashFunctions[i] == CreateHash(def.hashFunctions[i])
    ensures r.Ok? ==> r.value.spacing == StoredSpacing(def.spacing)
  {
    var keys := def.GetBaseKeys();
    var sum := def.GetChecksum();
    if sum.Err? {
      return Err(sum.error);
    }
    var hashes := def.GetHashFunctions();
    if hashes.Err? {
      return Err(hashes.error);
    }
    r := New(keys, sum.value, hashes.value, def.GetSpacing());
    forall k | 0 <= k < |keys|
      ensures KeyDefinitions.NormalizedKeys(keys)[k] == keys[k]
    {
      Mask32Identity(keys[k]);
    }
  }

  /** fromSingleHash: one hash for every base key, no dashes. */
  method FromSingleHash(sum: ChecksumAlgorithm, hash: HashAlgorithm, keys: seq<int>)
    returns (r: Result<PartialKeyGenerator>)
    ensures r.Err? <==> |keys| == 0
    ensures r.Err? ==> r.error == EmptyBaseKeys
    ensures r.Ok? ==> fresh(r.value) && r.value.Valid() && r.value.hashFunctions == [hash]
    ensures r.Ok? ==> r.value.checksum == sum && r.value.spacing == 0
    ensures r.Ok? ==> r.value.baseKeys == KeyDefinitions.NormalizedKeys(keys)
  {
    r := New(keys, sum, [hash], 0);
  }

  /** fromMultipleHashes: the hashes cycle over the base keys, no dashes. */
  method FromMultipleHashes(sum: ChecksumAlgorithm, hashes: seq<HashAlgorithm>, keys: seq<int>)
    returns (r: Result<PartialKeyGenerator>)
    ensures r.Err? <==> |keys| == 0 || |hashes| == 0
    ensures r.Ok? ==> fresh(r.value) && r.value.Valid() && r.value.hashFunctions == hashes
    ensures r.Ok? ==> r.value.checksum == sum && r.value.spacing == 0
    ensures r.Ok? ==> r.value.baseKeys == KeyDefinitions.NormalizedKeys(keys)
  {
    r := New(keys, sum, hashes, 0);
  }
}
