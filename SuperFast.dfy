/** Paul Hsieh's SuperFastHash over little-endian 16-bit halves: one round
    per four bytes, a tail step for the one to three bytes left over, then a
    six-step avalanche. */
module SuperFast {
  import opened Words

  /** `u16LE` of two bytes. */
  function Half(lo: bv8, hi: bv8): bv32
  {
    (lo as bv32) | ((hi as bv32) << 8)
  }

  /** One pass of the main loop over the bytes b0..b3. */
  function Round(h: bv32, b0: bv8, b1: bv8, b2: bv8, b3: bv8): bv32
  {
    var h1 := h + Half(b0, b1);
    var tmp := (Half(b2, b3) << 11) ^ h1;
    var h2 := (h1 << 16) ^ tmp;
    h2 + (h2 >> 11)
  }

  /** The tail step for three leftover bytes. */
  function Tail3(h: bv32, b0: bv8, b1: bv8, b2: bv8): bv32
  {
    var h1 := h + Half(b0, b1);
    var h2 := h1 ^ (h1 << 16);
    var h3 := h2 ^ ((b2 as bv32) << 18);
    h3 + (h3 >> 11)
  }

  /** The tail step for two leftover bytes. */
  function Tail2(h: bv32, b0: bv8, b1: bv8): bv32
  {
    var h1 := h + Half(b0, b1);
    var h2 := h1 ^ (h1 << 11);
    h2 + (h2 >> 17)
  }

  /** The tail step for one leftover byte. */
  function Tail1(h: bv32, b0: bv8): bv32
  {
    var h1 := h + (b0 as bv32);
    var h2 := h1 ^ (h1 << 10);
    h2 + (h2 >> 1)
  }

  /** The final avalanche: shifts 3, 5, 4, 17, 25 and 6. */
  function Avalanche(h: bv32): bv32
  {
    var h1 := h ^ (h << 3);
    var h2 := h1 + (h1 >> 5);
    var h3 := h2 ^ (h2 << 4);
    var h4 := h3 + (h3 >> 17);
    var h5 := h4 ^ (h4 << 25);
    h5 + (h5 >> 6)
  }

  /** The hash after n more rounds of the main loop, the first over the
      bytes from offset o. */
  function Rounds(h: bv32, data: seq<bv8>, o: nat, n: nat): bv32
    requires o + 4 * n <= |data|
    decreases n
  {
    if n == 0 then h
    else Rounds(Round(h, data[o], data[o + 1], data[o + 2], data[o + 3]), data, o + 4, n - 1)
  }

  /** The tail switch over the bytes from offset o, fewer than four. */
  function Tail(h: bv32, data: seq<bv8>, o: nat): bv32
    requires o <= |data| && |data| - o < 4
  {
    var rem := |data| - o;
    if rem == 3 then Tail3(h, data[o], data[o + 1], data[o + 2])
    else if rem == 2 then Tail2(h, data[o], data[o + 1])
    else if rem == 1 then Tail1(h, data[o])
    else h
  }

  function Hash(data: seq<bv8>): bv32
  {
    var pairs := |data| / 4;
    Avalanche(Tail(Rounds(LengthWord(|data|), data, 0, pairs), data, 4 * pairs))
  }

  /** The tail switch of SuperFast.compute on the bytes from offset o. */
  method ApplyTail(h: bv32, data: seq<bv8>, o: nat) returns (hash: bv32)
    requires o <= |data| && |data| - o < 4
    ensures hash == Tail(h, data, o)
  {
    var rem := |data| - o;
    hash := h;
    if rem == 3 {
      hash := Tail3(hash, data[o], data[o + 1], data[o + 2]);
    } else if rem == 2 {
      hash := Tail2(hash, data[o], data[o + 1]);
    } else if rem == 1 {
      hash := Tail1(hash, data[o]);
    }
  }

  /** SuperFast.compute: the main loop runs len >> 2 times and leaves exactly
      len & 3 bytes for the tail; every read is in bounds. */
  method Compute(data: seq<bv8>) returns (hash: bv32)
    ensures hash == Hash(data)
  {
    var len := |data|;
    hash := LengthWord(len);
    var pairs := len / 4;
    var offset := 0;
    while pairs > 0
      invariant 0 <= pairs && offset == 4 * (len / 4 - pairs)
      invariant Rounds(hash, data, offset, pairs) == Rounds(LengthWord(len), data, 0, len / 4)
    {
      hash := Round(hash, data[offset], data[offset + 1], data[offset + 2], data[offset + 3]);
      offset := offset + 4;
      pairs := pairs - 1;
    }
    assert offset == 4 * (len / 4);
    hash := ApplyTail(hash, data, offset);
    hash := Avalanche(hash);
  }

  lemma EmptyIsZero()
    ensures Hash([]) == 0
  {
    assert LengthWord(0) == 0;
    assert Tail(Rounds(0, [], 0, 0), [], 0) == 0;
    assert Avalanche(0) == 0;
  }

  /** "foo" and "bar" take the three-byte tail and no round. */
  lemma FooBarDiffer()
    ensures Hash([0x66, 0x6F, 0x6F]) == 0x6BF04CAD
    ensures Hash([0x62, 0x61, 0x72]) == 0xE70659E1
  {
    assert Tail3(3, 0x66, 0x6F, 0x6F) == 0x6EE34A16;
    assert Avalanche(0x6EE34A16) == 0x6BF04CAD;
    assert Tail3(3, 0x62, 0x61, 0x72) == 0x60B97711;
    assert Avalanche(0x60B97711) == 0xE70659E1;
  }

  /** "data" takes one round and no tail. */
  lemma DataVector()
    ensures Hash([0x64, 0x61, 0x74, 0x61]) == 0xAF33D2F6
  {
    var d: seq<bv8> := [0x64, 0x61, 0x74, 0x61];
    assert LengthWord(|d|) == 4;
    assert Round(4, 0x64, 0x61, 0x74, 0x61) == 0x62700DE0;
    assert Rounds(4, d, 0, 1) == Rounds(0x62700DE0, d, 4, 0) == 0x62700DE0;
    assert Tail(0x62700DE0, d, 4) == 0x62700DE0;
    assert Avalanche(0x62700DE0) == 0xAF33D2F6;
  }
}
