/** Bob Jenkins' seeded lookup3-style hash (2006): twelve-byte blocks while
    more than twelve bytes remain, a fall-through tail of one to twelve
    bytes, and a final mix; only empty input skips the final mix. */
module Jenkins06 {
  import opened Words

  /** The three words a, b, c of the internal state. */
  datatype State = State(a: bv32, b: bv32, c: bv32)

  /** a = b = c = `mask32(0xDEADBEEF + length + seed)`. */
  function Init(seed: bv32, len: nat): State
  {
    State(0xDEAD_BEEF + LengthWord(len) + seed, 0xDEAD_BEEF + LengthWord(len) + seed,
          0xDEAD_BEEF + LengthWord(len) + seed)
  }

  /** `a = sub32(a, c); a ^= rotl(c, r); c = add32(c, b)` */
  function MixA(s: State, r: bv32): State
    requires 0 < r < 32
  {
    State((s.a - s.c) ^ Rotl(s.c, r), s.b, s.c + s.b)
  }

  /** `b = sub32(b, a); b ^= rotl(a, r); a = add32(a, c)` */
  function MixB(s: State, r: bv32): State
    requires 0 < r < 32
  {
    State(s.a + s.c, (s.b - s.a) ^ Rotl(s.a, r), s.c)
  }

  /** `c = sub32(c, b); c ^= rotl(b, r); b = add32(b, a)` */
  function MixC(s: State, r: bv32): State
    requires 0 < r < 32
  {
    State(s.a, s.b + s.a, (s.c - s.b) ^ Rotl(s.b, r))
  }

  /** `mix`: six lines rotating by 4, 6, 8, 16, 19 and 4. */
  function Mix(s: State): State
  {
    MixC(MixB(MixA(MixC(MixB(MixA(s, 4), 6), 8), 16), 19), 4)
  }

  /** `c ^= b; c = sub32(c, rotl(b, r))` */
  function FinalC(s: State, r: bv32): State
    requires 0 < r < 32
  {
    State(s.a, s.b, (s.c ^ s.b) - Rotl(s.b, r))
  }

  /** `a ^= c; a = sub32(a, rotl(c, r))` */
  function FinalA(s: State, r: bv32): State
    requires 0 < r < 32
  {
    State((s.a ^ s.c) - Rotl(s.c, r), s.b, s.c)
  }

  /** `b ^= a; b = sub32(b, rotl(a, r))` */
  function FinalB(s: State, r: bv32): State
    requires 0 < r < 32
  {
    State(s.a, (s.b ^ s.a) - Rotl(s.a, r), s.c)
  }

  /** `finalMix`: seven lines rotating by 14, 11, 25, 16, 4, 14 and 24. */
  function FinalMix(s: State): State
  {
    FinalC(FinalB(FinalA(FinalC(FinalB(FinalA(FinalC(s, 14), 11), 25), 16), 4), 14), 24)
  }

  /** Four `add32` steps adding bytes b0..b3 at shifts 0, 8, 16 and 24. */
  function AddWord(w: bv32, b0: bv8, b1: bv8, b2: bv8, b3: bv8): bv32
  {
    w + (b0 as bv32) + ((b1 as bv32) << 8) + ((b2 as bv32) << 16) + ((b3 as bv32) << 24)
  }

  /** The twelve additions of one pass of the block loop at offset o. */
  function Absorb(s: State, data: seq<bv8>, o: nat): State
    requires o + 12 <= |data|
  {
    State(AddWord(s.a, data[o], data[o + 1], data[o + 2], data[o + 3]),
          AddWord(s.b, data[o + 4], data[o + 5], data[o + 6], data[o + 7]),
          AddWord(s.c, data[o + 8], data[o + 9], data[o + 10], data[o + 11]))
  }

  /** The state after n more passes of the block loop, the first at offset o. */
  function Blocks(s: State, data: seq<bv8>, o: nat, n: nat): State
    requires o + 12 * n <= |data|
    decreases n
  {
    if n == 0 then s else Blocks(Mix(Absorb(s, data, o)), data, o + 12, n - 1)
  }

  /** How often `while (length > 12)` runs: never for twelve bytes or fewer. */
  function BlockCount(len: nat): (n: nat)
    ensures len == 0 ==> n == 0
    ensures len > 0 ==> 1 <= len - 12 * n <= 12
  {
    if len == 0 then 0 else (len - 1) / 12
  }

  /** Byte j shifted left by sh when it exists; the fall-through switch adds
      exactly the bytes below the remaining length. */
  function Lane(data: seq<bv8>, j: nat, sh: bv32): bv32
    requires sh < 32
  {
    if j < |data| then (data[j] as bv32) << sh else 0
  }

  /** The fall-through switch on the bytes from offset o: byte k goes to a,
      b or c for k < 4, k < 8 or k < 12, shifted by 8 * (k % 4). */
  function Tail(s: State, data: seq<bv8>, o: nat): State
    requires o <= |data| <= o + 12
  {
    State(s.a + Lane(data, o, 0) + Lane(data, o + 1, 8) + Lane(data, o + 2, 16) + Lane(data, o + 3, 24),
          s.b + Lane(data, o + 4, 0) + Lane(data, o + 5, 8) + Lane(data, o + 6, 16) + Lane(data, o + 7, 24),
          s.c + Lane(data, o + 8, 0) + Lane(data, o + 9, 8) + Lane(data, o + 10, 16) + Lane(data, o + 11, 24))
  }

  /** The seeded hash: c of the initial state for empty input, otherwise c
      after the blocks, the tail and the final mix. */
  function Hash(seed: bv32, data: seq<bv8>): bv32
  {
    if |data| == 0 then Init(seed, 0).c
    else FinalMix(Tail(Blocks(Init(seed, |data|), data, 0, BlockCount(|data|)), data,
                       12 * BlockCount(|data|))).c
  }

  /** One pass of the block loop peeled off the front. */
  lemma BlocksUnfold(s: State, data: seq<bv8>, o: nat, n: nat)
    requires 0 < n && o + 12 * n <= |data|
    ensures Blocks(s, data, o, n) == Blocks(Mix(Absorb(s, data, o)), data, o + 12, n - 1)
  {
  }

  /** The block loop of Jenkins06.compute: it stops with one to twelve bytes
      left for non-empty input and none only for empty input. */
  method BlockLoop(seed: bv32, data: seq<bv8>) returns (s: State, offset: nat, length: nat)
    ensures offset == 12 * BlockCount(|data|) && length == |data| - offset
    ensures |data| > 0 <==> 1 <= length <= 12
    ensures s == Blocks(Init(seed, |data|), data, 0, BlockCount(|data|))
  {
    length := |data|;
    s := Init(seed, |data|);
    offset := 0;
    ghost var blocks := BlockCount(|data|);
    while length > 12
      invariant 0 <= blocks && offset == 12 * (BlockCount(|data|) - blocks)
      invariant length == |data| - offset && (length > 12 <==> blocks > 0)
      invariant Blocks(s, data, offset, blocks) == Blocks(Init(seed, |data|), data, 0, BlockCount(|data|))
    {
      BlocksUnfold(s, data, offset, blocks);
      s := Mix(Absorb(s, data, offset));
      offset := offset + 12;
      length := length - 12;
      blocks := blocks - 1;
    }
  }

  /** Jenkins06.compute: after the loop, a remaining length of 0 returns c
      unmixed; any other runs the tail and the final mix. */
  method Compute(seed: bv32, data: seq<bv8>) returns (hash: bv32)
    ensures hash == Hash(seed, data)
  {
    var s, offset, length := BlockLoop(seed, data);
    s := Tail(s, data, offset);
    if length == 0 {
      return s.c;
    }
    s := FinalMix(s);
    hash := s.c;
  }

  /** Empty input returns `mask32(0xDEADBEEF + seed)` for every seed. */
  lemma EmptyIsSeededConstant(seed: bv32)
    ensures Hash(seed, []) == 0xDEAD_BEEF + seed
  {
    assert LengthWord(0) == 0;
  }

  /** Twelve bytes run no block and go through the tail and the final mix,
      unlike lookup3's block loop that would take them as a block. */
  lemma TwelveBytesTakeTheTail(seed: bv32, data: seq<bv8>)
    requires |data| == 12
    ensures BlockCount(|data|) == 0
    ensures Hash(seed, data) == FinalMix(Tail(Init(seed, 12), data, 0)).c
  {
    assert Blocks(Init(seed, 12), data, 0, 0) == Init(seed, 12);
  }

  /** "foo" and "bar" with seed 0. */
  lemma FooBarDiffer()
    ensures Hash(0, [0x66, 0x6F, 0x6F]) == 0xE18F_6896
    ensures Hash(0, [0x62, 0x61, 0x72]) == 0xA6C2_CEB8
  {
    assert LengthWord(3) == 3;
    assert Init(0, 3) == State(0xDEAD_BEF2, 0xDEAD_BEF2, 0xDEAD_BEF2);
    assert Blocks(Init(0, 3), [0x66, 0x6F, 0x6F], 0, 0) == Init(0, 3);
    assert Blocks(Init(0, 3), [0x62, 0x61, 0x72], 0, 0) == Init(0, 3);
    assert Tail(Init(0, 3), [0x66, 0x6F, 0x6F], 0) == State(0xDF1D_2E58, 0xDEAD_BEF2, 0xDEAD_BEF2);
    assert FinalMix(State(0xDF1D_2E58, 0xDEAD_BEF2, 0xDEAD_BEF2)) == State(0xEFFE_49FC, 0xA836_5DFB, 0xE18F_6896);
    assert Tail(Init(0, 3), [0x62, 0x61, 0x72], 0) == State(0xDF20_2054, 0xDEAD_BEF2, 0xDEAD_BEF2);
    assert FinalMix(State(0xDF20_2054, 0xDEAD_BEF2, 0xDEAD_BEF2)) == State(0xF7CF_3254, 0x4E58_B850, 0xA6C2_CEB8);
  }

  /** "data" hashes apart under seeds 1 and 2. */
  lemma SeedsDiffer()
    ensures Hash(1, [0x64, 0x61, 0x74, 0x61]) == 0x4311_C177
    ensures Hash(2, [0x64, 0x61, 0x74, 0x61]) == 0x67D5_7581
  {
    var d: seq<bv8> := [0x64, 0x61, 0x74, 0x61];
    assert LengthWord(4) == 4;
    assert Blocks(Init(1, 4), d, 0, 0) == Init(1, 4) == State(0xDEAD_BEF4, 0xDEAD_BEF4, 0xDEAD_BEF4);
    assert Blocks(Init(2, 4), d, 0, 0) == Init(2, 4) == State(0xDEAD_BEF5, 0xDEAD_BEF5, 0xDEAD_BEF5);
    assert Tail(Init(1, 4), d, 0) == State(0x4022_2058, 0xDEAD_BEF4, 0xDEAD_BEF4);
    assert FinalMix(State(0x4022_2058, 0xDEAD_BEF4, 0xDEAD_BEF4)) == State(0xE717_CDAC, 0xB6BD_4ADF, 0x4311_C177);
    assert Tail(Init(2, 4), d, 0) == State(0x4022_2059, 0xDEAD_BEF5, 0xDEAD_BEF5);
    assert FinalMix(State(0x4022_2059, 0xDEAD_BEF5, 0xDEAD_BEF5)) == State(0x30CC_84D2, 0x5CC0_0127, 0x67D5_7581);
  }
}
