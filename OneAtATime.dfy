/** Bob Jenkins' one-at-a-time hash: add, shift-add and xor-shift per byte,
    then a three-step finalisation. */
module OneAtATime {
  import opened Words

  /** One pass of the byte loop. */
  function Absorb(h: bv32, b: bv8): bv32
  {
    var h1 := h + (b as bv32);
    var h2 := h1 + (h1 << 10);
    h2 ^ (h2 >> 6)
  }

  /** The three statements after the loop. */
  function Finalize(h: bv32): bv32
  {
    var h1 := h + (h << 3);
    var h2 := h1 ^ (h1 >> 11);
    h2 + (h2 << 15)
  }

  /** The state after the byte loop has consumed data. */
  function Accumulate(data: seq<bv8>): bv32
  {
    if data == [] then 0 else Absorb(Accumulate(data[..|data| - 1]), data[|data| - 1])
  }

  function Hash(data: seq<bv8>): bv32
  {
    Finalize(Accumulate(data))
  }

  /** OneAtATime.compute */
  method Compute(data: seq<bv8>) returns (h: bv32)
    ensures h == Hash(data)
  {
    h := 0;
    var i := 0;
    while i < |data|
      invariant 0 <= i <= |data|
      invariant h == Accumulate(data[..i])
    {
      assert data[..i + 1][..i] == data[..i];
      h := Absorb(h, data[i]);
      i := i + 1;
    }
    assert data[..i] == data;
    h := Finalize(h);
  }

  lemma EmptyIsZero()
    ensures Hash([]) == 0
  {
  }

  /** "foo" and "bar" hash apart. */
  lemma FooBarDiffer()
    ensures Hash([0x66, 0x6F, 0x6F]) == 0x238678DD
    ensures Hash([0x62, 0x61, 0x72]) == 0x80409109
  {
    FooAccumulates();
    BarAccumulates();
  }

  lemma FooAccumulates()
    ensures Accumulate([0x66, 0x6F, 0x6F]) == 0x9290584E
  {
    var s: seq<bv8> := [102, 111, 111];
    assert s[..0] == [];
    assert Absorb(0x00000000, 102) == 0x00019E07;
    assert s[..1][..0] == s[..0];
    assert Accumulate(s[..1]) == 0x00019E07;
    assert Absorb(0x00019E07, 111) == 0x06629BAF;
    assert s[..2][..1] == s[..1];
    assert Accumulate(s[..2]) == 0x06629BAF;
    assert Absorb(0x06629BAF, 111) == 0x9290584E;
    assert s[..3][..2] == s[..2];
    assert Accumulate(s[..3]) == 0x9290584E;
    assert s[..3] == s;
  }

  lemma BarAccumulates()
    ensures Accumulate([0x62, 0x61, 0x72]) == 0x9B85A7ED
  {
    var s: seq<bv8> := [98, 97, 114];
    assert s[..0] == [];
    assert Absorb(0x00000000, 98) == 0x00018E43;
    assert s[..1][..0] == s[..0];
    assert Accumulate(s[..1]) == 0x00018E43;
    assert Absorb(0x00018E43, 97) == 0x0624EEDE;
    assert s[..2][..1] == s[..1];
    assert Accumulate(s[..2]) == 0x0624EEDE;
    assert Absorb(0x0624EEDE, 114) == 0x9B85A7ED;
    assert s[..3][..2] == s[..2];
    assert Accumulate(s[..3]) == 0x9B85A7ED;
    assert s[..3] == s;
  }
}
