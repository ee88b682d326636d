/** Bob Jenkins' lookup2 hash (1996): twelve-byte blocks absorbed into three
    words and mixed, then a guarded tail with the length in the low byte of
    c, then one last mix; the hash is the final c. */
module Jenkins96 {
  import opened Words

  /** The three words a, b, c of the internal state. */
  datatype State = State(a: bv32, b: bv32, c: bv32)

  /** a = b = the golden ratio 0x9E3779B9, c = 0. */
  function Init(): State
  {
    State(0x9E37_79B9, 0x9E37_79B9, 0)
  }

  /** `a -= b; a -= c; a ^= c >>> sh` */
  function LineA(s: State, sh: bv32): State
    requires sh < 32
  {
    State((s.a - s.b - s.c) ^ (s.c >> sh), s.b, s.c)
  }

  /** `b -= c; b -= a; b ^= a << sh` */
  function LineB(s: State, sh: bv32): State
    requires sh < 32
  {
    State(s.a, (s.b - s.c - s.a) ^ (s.a << sh), s.c)
  }

  /** `c -= a; c -= b; c ^= b >>> sh` */
  function LineC(s: State, sh: bv32): State
    requires sh < 32
  {
    State(s.a, s.b, (s.c - s.a - s.b) ^ (s.b >> sh))
  }

  /** The lookup2 mix: nine lines with shifts 13, 8, 13, 12, 16, 5, 3, 10
      and 15, in the order a, b, c three times over. */
  function Mix(s: State): State
  {
    LineC(LineB(LineA(LineC(LineB(LineA(LineC(LineB(LineA(s, 13), 8), 13), 12), 16), 5), 3), 10), 15)
  }

  /** Four `add32` steps adding bytes b0..b3 at shifts 0, 8, 16 and 24. */
  function AddWord(w: bv32, b0: bv8, b1: bv8, b2: bv8, b3: bv8): bv32
  {
    w + (b0 as bv32) + ((b1 as bv32) << 8) + ((b2 as bv32) << 16) + ((b3 as bv32) << 24)
  }

  /** The twelve additions of one pass of the block loop at offset o. */
  function Absorb(s: State, data: seq<bv8>, o: nat): State
    requires o + 12 <= |data|
  {
    State(AddWord(s.a, data[o], data[o + 1], data[o + 2], data[o + 3]),
          AddWord(s.b, data[o + 4], data[o + 5], data[o + 6], data[o + 7]),
          AddWord(s.c, data[o + 8], data[o + 9], data[o + 10], data[o + 11]))
  }

  /** The state after n more passes of the block loop, the first at offset o. */
  function Blocks(s: State, data: seq<bv8>, o: nat, n: nat): State
    requires o + 12 * n <= |data|
    decreases n
  {
    if n == 0 then s else Blocks(Mix(Absorb(s, data, o)), data, o + 12, n - 1)
  }

  /** Byte j shifted left by sh when j is in range; an `if (i < len)` guard
      that fails adds nothing. */
  function Lane(data: seq<bv8>, j: nat, sh: bv32): bv32
    requires sh < 32
  {
    if j < |data| then (data[j] as bv32) << sh else 0
  }

  /** The tail: c gets the length, then the leftover bytes from offset i go
      to a (bytes 0-3), b (bytes 4-7) and c (bytes 8-10, at shifts 8, 16
      and 24, leaving the low byte of c to the length). */
  function Tail(s: State, data: seq<bv8>, i: nat): State
    requires i <= |data| < i + 12
  {
    State(s.a + Lane(data, i, 0) + Lane(data, i + 1, 8) + Lane(data, i + 2, 16) + Lane(data, i + 3, 24),
          s.b + Lane(data, i + 4, 0) + Lane(data, i + 5, 8) + Lane(data, i + 6, 16) + Lane(data, i + 7, 24),
          s.c + LengthWord(|data|) + Lane(data, i + 8, 8) + Lane(data, i + 9, 16) + Lane(data, i + 10, 24))
  }

  /** The hash: |data| / 12 block passes, the tail, and one more mix, even
      when the length is a multiple of 12. */
  function Hash(data: seq<bv8>): bv32
  {
    Mix(Tail(Blocks(Init(), data, 0, |data| / 12), data, 12 * (|data| / 12))).c
  }

  /** One pass of the block loop peeled off the front. */
  lemma BlocksUnfold(s: State, data: seq<bv8>, o: nat, n: nat)
    requires 0 < n && o + 12 * n <= |data|
    ensures Blocks(s, data, o, n) == Blocks(Mix(Absorb(s, data, o)), data, o + 12, n - 1)
  {
  }

  /** The block loop of Jenkins96.compute: it runs |data| / 12 times and
      leaves i at the first byte of the tail. */
  method BlockLoop(data: seq<bv8>) returns (s: State, i: nat)
    ensures i == 12 * (|data| / 12)
    ensures s == Blocks(Init(), data, 0, |data| / 12)
  {
    var len := |data|;
    s := Init();
    i := 0;
    ghost var blocks := len / 12;
    assert Blocks(s, data, i, blocks) == Blocks(Init(), data, 0, len / 12);
    while i + 12 <= len
      invariant 0 <= blocks && i == 12 * (len / 12 - blocks)
      invariant Blocks(s, data, i, blocks) == Blocks(Init(), data, 0, len / 12)
    {
      BlocksUnfold(s, data, i, blocks);
      s := Mix(Absorb(s, data, i));
      i := i + 12;
      blocks := blocks - 1;
    }
    assert blocks == 0;
  }

  /** Jenkins96.compute: the block loop, the guarded tail, then the last mix. */
  method Compute(data: seq<bv8>) returns (hash: bv32)
    ensures hash == Hash(data)
  {
    var s, i := BlockLoop(data);
    s := Tail(s, data, i);
    s := Mix(s);
    hash := s.c;
  }

  lemma EmptyVector()
    ensures Hash([]) == 0xBD49_D10D
  {
    assert LengthWord(0) == 0;
    assert Blocks(Init(), [], 0, 0) == Init();
    assert Tail(Init(), [], 0) == Init();
    assert Mix(Init()) == State(0x9B2E_C03D, 0xDB2B_69AE, 0xBD49_D10D);
  }

  /** "foo" and "bar" hash apart. */
  lemma FooBarDiffer()
    ensures Hash([0x66, 0x6F, 0x6F]) == 0x7FC1_F406
    ensures Hash([0x62, 0x61, 0x72]) == 0xEFE6_384B
  {
    assert LengthWord(3) == 3;
    assert Blocks(Init(), [0x66, 0x6F, 0x6F], 0, 0) == Init();
    assert Blocks(Init(), [0x62, 0x61, 0x72], 0, 0) == Init();
    assert Tail(Init(), [0x66, 0x6F, 0x6F], 0) == State(0x9EA6_E91F, 0x9E37_79B9, 3);
    assert Mix(State(0x9EA6_E91F, 0x9E37_79B9, 3)) == State(0xE74A_89D9, 0x2A9F_6041, 0x7FC1_F406);
    assert Tail(Init(), [0x62, 0x61, 0x72], 0) == State(0x9EA9_DB1B, 0x9E37_79B9, 3);
    assert Mix(State(0x9EA9_DB1B, 0x9E37_79B9, 3)) == State(0xFF37_5589, 0x4A00_6C08, 0xEFE6_384B);
  }
}
