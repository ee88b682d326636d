/** Random key definitions: the drawn checksum kind, base keys and hash
    kinds, and the dash spacing and display mask derived from the length of
    the keys the definition produces. The random draws are parameters. */
module DefinitionGenerator {
  import opened Words
  import opened Results
  import opened Algorithms
  import opened Dashes
  import Base32
  import KeyGenerator
  import opened KeyDefinitions

  // ---------------------------------------------------------------------
  // Key lengths

  /** The Base32 characters of a key over n base keys: its 4n + 6 bytes,
      eight bits each, five bits per character, rounded up. */
  function CodeLength(n: nat): (r: nat)
    ensures 8 * (4 * n + 6) <= 5 * r < 8 * (4 * n + 6) + 5
  {
    (8 * (4 * n + 6) + 4) / 5
  }

  /** The length of the key text once dashes are inserted every `spacing`
      characters. */
  function DisplayLength(n: nat, spacing: nat): nat
  {
    if spacing == 0 then CodeLength(n) else CodeLength(n) + (CodeLength(n) - 1) / spacing
  }

  /** Every key a generator produces has the length its definition predicts,
      whatever the seed. */
  lemma KeyLength(seed: u32, bases: seq<u32>, hashes: seq<HashAlgorithm>, sum: ChecksumAlgorithm, spacing: nat)
    requires |hashes| > 0
    ensures |KeyGenerator.Key(seed, bases, hashes, sum, spacing)| == DisplayLength(|bases|, spacing)
  {
    var blob := KeyGenerator.KeyBlob(seed, bases, hashes, sum);
    var e := Base32.Encode(blob);
    assert |e| == CodeLength(|bases|) by {
      Base32.EncodeLength(blob);
    }
    assert |Dashed(e, spacing)| == DisplayLength(|bases|, spacing) by {
      DashedTextLength(e, |bases|, spacing);
    }
  }

  lemma DashedTextLength(e: string, n: nat, spacing: nat)
    requires |e| == CodeLength(n)
    ensures |Dashed(e, spacing)| == DisplayLength(n, spacing)
  {
    if spacing > 0 {
      DashedLength(e, spacing);
    }
  }

  // ---------------------------------------------------------------------
  // The spacing search

  /** The group sizes tried for one code length, both ends included. */
  datatype Band = Band(min: nat, max: nat)

  /** The band for a code length; from 85 characters on, none. */
  function BandFor(codeLength: nat): (r: Option<Band>)
    ensures r.None? <==> codeLength >= 85
    ensures r.Some? ==> 4 <= r.value.min <= r.value.max <= 20
  {
    if codeLength < 30 then Some(Band(4, 9))
    else if codeLength < 45 then Some(Band(6, 10))
    else if codeLength < 60 then Some(Band(8, 15))
    else if codeLength < 85 then Some(Band(10, 20))
    else None
  }

  /** The first group size from `opt` to `max` that divides the length. */
  function FirstDivisor(codeLength: nat, opt: nat, max: nat): (r: Option<nat>)
    requires opt > 0
    ensures r.Some? ==> opt <= r.value <= max && codeLength % r.value == 0
    ensures r.Some? ==> forall k :: opt <= k < r.value ==> codeLength % k != 0
    ensures r.None? ==> forall k :: opt <= k <= max ==> codeLength % k != 0
    decreases max + 1 - opt
  {
    if opt > max then None
    else if codeLength % opt == 0 then Some(opt)
    else FirstDivisor(codeLength, opt + 1, max)
  }

  function Abs(x: int): int
  {
    if x < 0 then -x else x
  }

  /** `Math.abs((codeLength % opt) - opt)`: the characters the last group
      lacks to be full, or a whole group when it is full. */
  function Score(codeLength: nat, opt: nat): (r: int)
    requires opt > 0
    ensures r == opt - codeLength % opt
    ensures 0 < r <= opt
  {
    Abs(codeLength % opt - opt)
  }

  /** The `scores` map as a sequence: entry j is the score of group size
      `min + j`. */
  function Scores(codeLength: nat, b: Band): (r: seq<int>)
    requires b.min > 0
    ensures |r| == b.max + 1 - b.min || (b.max < b.min && r == [])
  {
    if b.max < b.min then []
    else seq(b.max + 1 - b.min, j requires 0 <= j <= b.max - b.min => Score(codeLength, b.min + j))
  }

  /** The first entry after sorting by score, then by group size: the least
      score, and among equal scores the earliest entry. */
  function LeastScoreIndex(scores: seq<int>): (j: nat)
    requires |scores| > 0
    ensures j < |scores|
    ensures forall k :: 0 <= k < |scores| ==> scores[j] <= scores[k]
    ensures forall k :: 0 <= k < j ==> scores[k] > scores[j]
  {
    if |scores| == 1 then 0
    else
      var j := LeastScoreIndex(scores[..|scores| - 1]);
      if scores[|scores| - 1] < scores[j] then |scores| - 1 else j
  }

  /** The spacing calculateOptimalSpacing chooses for a code length. */
  function OptimalSpacing(codeLength: nat): nat
  {
    match BandFor(codeLength)
    case None => 0
    case Some(b) =>
      match FirstDivisor(codeLength, b.min, b.max)
      case Some(d) => d
      case None => b.min + LeastScoreIndex(Scores(codeLength, b))
  }

  /** No grouping exactly for codes of 85 characters or more; otherwise a
      group size from the length's band. */
  lemma OptimalSpacingBand(codeLength: nat)
    ensures OptimalSpacing(codeLength) == 0 <==> codeLength >= 85
    ensures codeLength < 30 ==> 4 <= OptimalSpacing(codeLength) <= 9
    ensures 30 <= codeLength < 45 ==> 6 <= OptimalSpacing(codeLength) <= 10
    ensures 45 <= codeLength < 60 ==> 8 <= OptimalSpacing(codeLength) <= 15
    ensures 60 <= codeLength < 85 ==> 10 <= OptimalSpacing(codeLength) <= 20
  {
  }

  /** When some group size of the band divides the length, the smallest
      such size is chosen. */
  lemma OptimalSpacingDivides(codeLength: nat, d: nat)
    requires BandFor(codeLength).Some?
    requires BandFor(codeLength).value.min <= d <= BandFor(codeLength).value.max
    requires codeLength % d == 0
    ensures BandFor(codeLength).value.min <= OptimalSpacing(codeLength) <= d
    ensures codeLength % OptimalSpacing(codeLength) == 0
    ensures forall k :: BandFor(codeLength).value.min <= k < OptimalSpacing(codeLength) ==> codeLength % k != 0
  {
  }

  /** When no group size of the band divides the length, the chosen size
      has the least score in the band, and is the smallest of those that
      share it. */
  lemma OptimalSpacingLeastScore(codeLength: nat, opt: nat)
    requires BandFor(codeLength).Some?
    requires forall k :: BandFor(codeLength).value.min <= k <= BandFor(codeLength).value.max ==> codeLength % k != 0
    requires BandFor(codeLength).value.min <= opt <= BandFor(codeLength).value.max
    ensures BandFor(codeLength).value.min <= OptimalSpacing(codeLength) <= BandFor(codeLength).value.max
    ensures Score(codeLength, OptimalSpacing(codeLength)) <= Score(codeLength, opt)
    ensures Score(codeLength, OptimalSpacing(codeLength)) == Score(codeLength, opt) ==> OptimalSpacing(codeLength) <= opt
  {
    var b := BandFor(codeLength).value;
    var scores := Scores(codeLength, b);
    var j := LeastScoreIndex(scores);
    assert scores[opt - b.min] == Score(codeLength, opt);
  }

  /** The scoring loop of calculateOptimalSpacing: one score per group size
      of the band, in increasing order of size. */
  method ScoreGroupSizes(codeLength: nat, min: nat, max: nat) returns (scores: seq<int>)
    requires 0 < min <= max
    ensures scores == Scores(codeLength, Band(min, max))
  {
    scores := [];
    for opt := min to max + 1
      invariant scores == Scores(codeLength, Band(min, max))[..opt - min]
    {
      assert Scores(codeLength, Band(min, max))[..opt + 1 - min]
             == Scores(codeLength, Band(min, max))[..opt - min] + [Score(codeLength, opt)];
      scores := scores + [Abs(codeLength % opt - opt)];
    }
  }

  /** calculateOptimalSpacing past the measurement: the band, then the first
      dividing group size, then the least score with ties to the smaller
      size. The source's final `| 0` leaves a value of at most 20 as it is. */
  method SpacingForLength(codeLength: nat) returns (spacing: nat)
    ensures spacing == OptimalSpacing(codeLength)
  {
    var min, max := 0, 0;
    if codeLength < 30 {
      min, max := 4, 9;
    } else if codeLength < 45 {
      min, max := 6, 10;
    } else if codeLength < 60 {
      min, max := 8, 15;
    } else if codeLength < 85 {
      min, max := 10, 20;
    } else {
      return 0;
    }
    for opt := min to max + 1
      invariant FirstDivisor(codeLength, min, max) == FirstDivisor(codeLength, opt, max)
    {
      if codeLength % opt == 0 {
        return opt;
      }
    }
    var scores := ScoreGroupSizes(codeLength, min, max);
    spacing := min + LeastScoreIndex(scores);
  }

  /** Codes grow with the number of keys: from 12 keys on they reach 85
      characters and are not grouped; up to 11 keys they are. */
  lemma SpacingByKeyCount(n: nat)
    ensures 1 <= n <= 11 ==> OptimalSpacing(CodeLength(n)) > 0
    ensures n >= 12 ==> OptimalSpacing(CodeLength(n)) == 0
  {
    OptimalSpacingBand(CodeLength(n));
  }

  /** One key gives 16 characters, which groups of 4 divide. */
  lemma SpacingOneKey()
    ensures OptimalSpacing(CodeLength(1)) == 4
  {
    assert CodeLength(1) == 16;
  }

  /** Seven keys give 55 characters: 8, 9 and 10 do not divide it, 11 does. */
  lemma SpacingSevenKeys()
    ensures OptimalSpacing(CodeLength(7)) == 11
  {
    assert CodeLength(7) == 55;
    assert FirstDivisor(55, 11, 15) == Some(11);
  }

  /** Three keys give 29 characters, which no size from 4 to 9 divides;
      sizes 5 and 6 both leave one character missing, and 5 is chosen. */
  lemma SpacingThreeKeys()
    ensures OptimalSpacing(CodeLength(3)) == 5
  {
    assert CodeLength(3) == 29;
    OptimalSpacingLeastScore(29, 5);
    OptimalSpacingLeastScore(29, 6);
  }

  // ---------------------------------------------------------------------
  // The mask

  /** `c.repeat(n)`. */
  function Repeat(c: char, n: nat): (r: string)
    ensures |r| == n && forall j :: 0 <= j < n ==> r[j] == c
  {
    seq(n, _ => c)
  }

  lemma RepeatSplit(c: char, n: nat, k: nat)
    requires k <= n
    ensures Repeat(c, n)[..k] == Repeat(c, k)
    ensures Repeat(c, n)[k..] == Repeat(c, n - k)
  {
  }

  /** The mask for a code length: '>' then one 'A' per character, grouped
      like the key. */
  function Mask(codeLength: nat, spacing: nat): string
  {
    ">" + Dashed(Repeat('A', codeLength), spacing)
  }

  /** A mask starts with '>' and holds exactly one 'A' per code character,
      the rest being dashes; spacing 0 leaves it without dashes. */
  lemma MaskShape(codeLength: nat, spacing: nat)
    ensures Mask(codeLength, spacing)[0] == '>'
    ensures StripDashes(Mask(codeLength, spacing)[1..]) == Repeat('A', codeLength)
    ensures spacing == 0 ==> Mask(codeLength, spacing) == ">" + Repeat('A', codeLength)
    ensures spacing > 0 && codeLength > 0 ==>
              |Mask(codeLength, spacing)| == 1 + codeLength + (codeLength - 1) / spacing
  {
    var m := Mask(codeLength, spacing);
    assert m[1..] == Dashed(Repeat('A', codeLength), spacing);
    StripDashed(Repeat('A', codeLength), spacing);
    if spacing > 0 && codeLength > 0 {
      DashedLength(Repeat('A', codeLength), spacing);
    }
  }

  /** A mask and a dash-free text of its length, both dashed for the same
      spacing, have their dashes at the same places past the '>'. */
  lemma MaskMatchesText(e: string, spacing: nat)
    requires '-' !in e
    ensures |Mask(|e|, spacing)| == |Dashed(e, spacing)| + 1
    ensures forall j :: 0 <= j < |Dashed(e, spacing)| ==>
              (Mask(|e|, spacing)[j + 1] == '-' <==> Dashed(e, spacing)[j] == '-')
  {
    SameDashLayout(e, Repeat('A', |e|), spacing);
  }

  /** The mask has its dashes where the keys of the definition have theirs,
      one position on for the leading '>'. */
  lemma MaskMatchesKey(seed: u32, bases: seq<u32>, hashes: seq<HashAlgorithm>, sum: ChecksumAlgorithm, spacing: nat)
    requires |hashes| > 0
    ensures |Mask(CodeLength(|bases|), spacing)| == |KeyGenerator.Key(seed, bases, hashes, sum, spacing)| + 1
    ensures forall j :: 0 <= j < |KeyGenerator.Key(seed, bases, hashes, sum, spacing)| ==>
              (Mask(CodeLength(|bases|), spacing)[j + 1] == '-' <==> KeyGenerator.Key(seed, bases, hashes, sum, spacing)[j] == '-')
  {
    var blob := KeyGenerator.KeyBlob(seed, bases, hashes, sum);
    var e := Base32.Encode(blob);
    assert |e| == CodeLength(|bases|) && '-' !in e by {
      Base32.EncodeLength(blob);
      Base32.EncodeAlphabet(blob);
    }
    MaskMatchesText(e, spacing);
  }

  /** makeMask past the measurement: ">" then groups of `spacing` 'A's
      joined by dashes, or one run of 'A's for spacing 0. A negative spacing
      reaches `"A".repeat` with a negative count, which throws. */
  method MaskLayout(codeLength: nat, spacing: int) returns (r: Result<string>)
    ensures r.Err? <==> spacing < 0 && codeLength > 0
    ensures r.Err? ==> r.error == NegativeRepeatCount
    ensures r.Ok? ==> r.value == Mask(codeLength, if spacing < 0 then 0 else spacing)
  {
    var mask := ">";
    if spacing == 0 {
      return Ok(mask + Repeat('A', codeLength));
    }
    var remaining: nat := codeLength;
    while remaining > 0
      invariant remaining <= codeLength
      invariant spacing < 0 ==> remaining == codeLength && mask == ">"
      invariant spacing > 0 ==> mask + Dashed(Repeat('A', remaining), spacing) == Mask(codeLength, spacing)
      decreases remaining
    {
      var take := if spacing < remaining then spacing else remaining;
      if take < 0 {
        return Err(NegativeRepeatCount);
      }
      RepeatSplit('A', remaining, take);
      mask := mask + Repeat('A', take);
      remaining := remaining - take;
      if remaining > 0 {
        mask := mask + "-";
      }
    }
    return Ok(mask);
  }

  // ---------------------------------------------------------------------
  // Measuring through a generator

  /** The error `fromKeyDefinition` raises for a definition, if any. */
  predicate Unresolvable(def: KeyDefinition)
    reads def
  {
    def.checksum.None? || Jenkins06 in def.hashFunctions || def.baseKeys == [] || def.hashFunctions == []
  }

  /** calculateOptimalSpacing: the key for seed 0 from the generator the
      definition makes (with the definition's own spacing), then the
      search on its length. */
  method CalculateOptimalSpacing(def: KeyDefinition) returns (r: Result<nat>)
    ensures r.Err? <==> Unresolvable(def)
    ensures def.checksum.Some? && Jenkins06 !in def.hashFunctions && def.baseKeys == [] ==> r == Err(EmptyBaseKeys)
    ensures r.Ok? ==>
              r.value == OptimalSpacing(DisplayLength(|def.baseKeys|, KeyGenerator.StoredSpacing(def.spacing)))
  {
    var gen := KeyGenerator.FromKeyDefinition(def);
    if gen.Err? {
      return Err(gen.error);
    }
    var key := gen.value.Generate(0);
    assert |key| == DisplayLength(|def.baseKeys|, KeyGenerator.StoredSpacing(def.spacing)) by {
      KeyLength(0, gen.value.baseKeys, gen.value.hashFunctions, gen.value.checksum, gen.value.spacing);
    }
    var spacing := SpacingForLength(|key|);
    return Ok(spacing);
  }

  /** makeMask: the length of an undashed key from the definition's
      generator, then the layout for the definition's spacing. */
  method MakeMask(def: KeyDefinition) returns (r: Result<string>)
    ensures r.Err? <==> Unresolvable(def) || def.GetSpacing() < 0
    ensures def.checksum.Some? && Jenkins06 !in def.hashFunctions && def.baseKeys == [] ==> r == Err(EmptyBaseKeys)
    ensures r.Err? && !Unresolvable(def) ==> r.error == NegativeRepeatCount
    ensures r.Ok? ==> r.value == Mask(CodeLength(|def.baseKeys|), def.GetSpacing())
  {
    var gen := KeyGenerator.FromKeyDefinition(def);
    if gen.Err? {
      return Err(gen.error);
    }
    gen.value.SetSpacing(0);
    var key := gen.value.Generate(0);
    assert |key| == CodeLength(|def.baseKeys|) by {
      KeyLength(0, gen.value.baseKeys, gen.value.hashFunctions, gen.value.checksum, 0);
    }
    r := MaskLayout(|key|, def.GetSpacing());
  }

  // ---------------------------------------------------------------------
  // Random choices

  /** The values of the `ChecksumType` enum, in declaration order. */
  function AllChecksumTypes(): seq<ChecksumType>
  {
    [Adler16, Crc16, CrcCcitt]
  }

  /** The values of the `HashType` enum, in declaration order. */
  function AllHashTypes(): seq<HashType>
  {
    [Crc32, Fnv1A, GeneralizedCrc, Jenkins06, Jenkins96, OneAtATime, SuperFast]
  }

  /** `all.filter((t) => t !== HashType.Jenkins06)`. */
  function WithoutJenkins06(types: seq<HashType>): (r: seq<HashType>)
    ensures forall t :: t in r <==> t in types && t != Jenkins06
  {
    if types == [] then []
    else (if types[0] == Jenkins06 then [] else [types[0]]) + WithoutJenkins06(types[1..])
  }

  /** The number of hash kinds a random definition draws from. */
  const HASH_CHOICES: nat := 6

  /** The six hash kinds a random definition draws from, in enum order. */
  lemma HashChoices()
    ensures |WithoutJenkins06(AllHashTypes())| == HASH_CHOICES
    ensures WithoutJenkins06(AllHashTypes()) == [Crc32, Fnv1A, GeneralizedCrc, Jenkins96, OneAtATime, SuperFast]
  {
    var all := AllHashTypes();
    assert WithoutJenkins06(all[7..]) == [];
    WithoutJenkins06Step(all, 6);
    WithoutJenkins06Step(all, 5);
    WithoutJenkins06Step(all, 4);
    WithoutJenkins06Step(all, 3);
    WithoutJenkins06Step(all, 2);
    WithoutJenkins06Step(all, 1);
    WithoutJenkins06Step(all, 0);
  }

  /** The filter takes the types one at a time from the front. */
  lemma WithoutJenkins06Step(types: seq<HashType>, i: nat)
    requires i < |types|
    ensures WithoutJenkins06(types[i..])
            == (if types[i] == Jenkins06 then [] else [types[i]]) + WithoutJenkins06(types[i + 1..])
  {
    assert types[i..][1..] == types[i + 1..];
  }

  /** getRandomChecksumFunction, with `draw` the index randomInt picked. */
  function RandomChecksumFunction(draw: nat): ChecksumType
    requires draw < |AllChecksumTypes()|
  {
    AllChecksumTypes()[draw]
  }

  /** Each checksum kind is drawn by exactly one of the three indices, so a
      uniform draw picks each kind with the same chance. */
  lemma RandomChecksumOnePerKind(t: ChecksumType)
    ensures |AllChecksumTypes()| == 3
    ensures exists d :: 0 <= d < 3 && RandomChecksumFunction(d) == t
    ensures forall d, e ::
              0 <= d < 3 && 0 <= e < 3 && RandomChecksumFunction(d) == t && RandomChecksumFunction(e) == t
              ==> d == e
  {
    var d := match t case Adler16 => 0 case Crc16 => 1 case CrcCcitt => 2;
    assert RandomChecksumFunction(d) == t;
  }

  /** getRandomHashFunction, with `draw` the index randomInt picked: never
      Jenkins06, which a definition could not resolve. */
  function RandomHashFunction(draw: nat): (r: HashType)
    requires draw < HASH_CHOICES
    ensures r != Jenkins06 && r in AllHashTypes()
  {
    HashChoices();
    WithoutJenkins06(AllHashTypes())[draw]
  }

  /** The hash kinds of a definition from the indices drawn for them. */
  function HashesDrawn(draws: seq<nat>): (r: seq<HashType>)
    requires forall i :: 0 <= i < |draws| ==> draws[i] < HASH_CHOICES
    ensures |r| == |draws| && Jenkins06 !in r
  {
    if draws == [] then [] else HashesDrawn(draws[..|draws| - 1]) + [RandomHashFunction(draws[|draws| - 1])]
  }

  lemma HashesDrawnSnoc(draws: seq<nat>, i: nat)
    requires i < |draws|
    requires forall k :: 0 <= k < |draws| ==> draws[k] < HASH_CHOICES
    ensures HashesDrawn(draws[..i + 1]) == HashesDrawn(draws[..i]) + [RandomHashFunction(draws[i])]
  {
    assert draws[..i + 1][..i] == draws[..i];
  }

  lemma SnocPrefix<T>(s: seq<T>, i: nat)
    requires i < |s|
    ensures s[..i + 1] == s[..i] + [s[i]]
  {
  }

  /** The loop of makeDefinition: one base key and one hash kind per key,
      drawn in turn. */
  method DrawKeys(numberOfKeys: int, keyDraws: seq<u32>, hashDraws: seq<nat>)
    returns (baseKeys: seq<u32>, hashes: seq<HashType>)
    requires numberOfKeys <= |keyDraws| && numberOfKeys <= |hashDraws|
    requires forall k :: 0 <= k < |hashDraws| ==> hashDraws[k] < HASH_CHOICES
    ensures numberOfKeys <= 0 ==> baseKeys == [] && hashes == []
    ensures numberOfKeys > 0 ==> baseKeys == keyDraws[..numberOfKeys]
    ensures numberOfKeys > 0 ==> hashes == HashesDrawn(hashDraws[..numberOfKeys])
  {
    baseKeys, hashes := [], [];
    var i := 0;
    while i < numberOfKeys
      invariant 0 <= i && (i == 0 || i <= numberOfKeys)
      invariant baseKeys == keyDraws[..i]
      invariant hashes == HashesDrawn(hashDraws[..i])
    {
      SnocPrefix(keyDraws, i);
      HashesDrawnSnoc(hashDraws, i);
      baseKeys := baseKeys + [keyDraws[i]];
      hashes := hashes + [RandomHashFunction(hashDraws[i])];
      i := i + 1;
    }
  }

  /** makeDefinition: a checksum kind, then one base key and one hash kind
      per key, then the spacing and the mask measured on the definition's
      own generator. `checksumDraw`, `keyDraws` and `hashDraws` are what the
      random sources returned, in the order they were called. With no keys
      the generator cannot be built, and the call fails. */
  method MakeDefinition(numberOfKeys: int, checksumDraw: nat, keyDraws: seq<u32>, hashDraws: seq<nat>)
    returns (r: Result<KeyDefinition>)
    requires checksumDraw < |AllChecksumTypes()|
    requires numberOfKeys <= |keyDraws| && numberOfKeys <= |hashDraws|
    requires forall i :: 0 <= i < |hashDraws| ==> hashDraws[i] < HASH_CHOICES
    ensures r.Err? <==> numberOfKeys <= 0
    ensures r.Err? ==> r.error == EmptyBaseKeys
    ensures r.Ok? ==> fresh(r.value)
    ensures r.Ok? ==> r.value.baseKeys == keyDraws[..numberOfKeys]
    ensures r.Ok? ==> r.value.checksum == Some(RandomChecksumFunction(checksumDraw))
    ensures r.Ok? ==> r.value.hashFunctions == HashesDrawn(hashDraws[..numberOfKeys])
    ensures r.Ok? ==> r.value.spacing == OptimalSpacing(CodeLength(numberOfKeys))
    ensures r.Ok? ==> r.value.mask == Mask(CodeLength(numberOfKeys), r.value.spacing)
  {
    var def := new KeyDefinition();
    def.SetChecksumType(RandomChecksumFunction(checksumDraw));
    var baseKeys, hashes := DrawKeys(numberOfKeys, keyDraws, hashDraws);
    def.SetBaseKeys(baseKeys);
    assert def.baseKeys == baseKeys by {
      forall k | 0 <= k < |baseKeys|
        ensures NormalizedKeys(baseKeys)[k] == baseKeys[k]
      {
        Mask32Identity(baseKeys[k]);
      }
    }
    def.SetHashTypes(hashes);
    var spacing := CalculateOptimalSpacing(def);
    if spacing.Err? {
      return Err(spacing.error);
    }
    assert spacing.value == OptimalSpacing(CodeLength(numberOfKeys)) <= 20 by {
      OptimalSpacingBand(CodeLength(numberOfKeys));
    }
    def.SetSpacing(spacing.value);
    var mask := MakeMask(def);
    assert mask.Ok?;
    def.SetMask(mask.value);
    return Ok(def);
  }

  /** A definition of twelve keys is not grouped: its mask has no dash. */
  lemma TwelveKeysUngrouped()
    ensures OptimalSpacing(CodeLength(12)) == 0
    ensures '-' !in Mask(CodeLength(12), 0)
  {
    SpacingByKeyCount(12);
    MaskShape(CodeLength(12), 0);
  }
}
