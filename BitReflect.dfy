/** The bit reflection shared by Crc16 and Crc32: the low n bits of a value
    mirrored about their centre, bit k going to bit n - 1 - k. */
module BitReflect {
  import opened Words

  /** Bit 0 of x goes to bit n - 1, and the rest of x is reflected into the
      n - 1 bits below it. */
  function Reflect(x: nat, n: nat): (r: nat)
    ensures r < Pow2(n)
  {
    if n == 0 then 0
    else if x % 2 == 1 then Pow2(n - 1) + Reflect(x / 2, n - 1)
    else Reflect(x / 2, n - 1)
  }

  lemma {:induction false} ReflectOfZero(n: nat)
    ensures Reflect(0, n) == 0
  {
    if n > 0 {
      ReflectOfZero(n - 1);
    }
  }

  /** All n low bits set is its own reflection. */
  lemma {:induction false} ReflectOfOnes(n: nat)
    ensures Reflect(Pow2(n) - 1, n) == Pow2(n) - 1
  {
    if n > 0 {
      var p := Pow2(n - 1);
      DivModOfDecomposition(Pow2(n) - 1, 2, p - 1, 1);
      ReflectOfOnes(n - 1);
    }
  }

  /** Dividing by 2^n is halving, then dividing by 2^(n-1); the remainder
      splits the same way. */
  lemma Pow2Split(x: nat, n: nat)
    requires n > 0
    ensures x / Pow2(n) == (x / 2) / Pow2(n - 1)
    ensures x % Pow2(n) == 2 * ((x / 2) % Pow2(n - 1)) + x % 2
  {
    var p := Pow2(n - 1);
    var q, r := (x / 2) / p, (x / 2) % p;
    assert x / 2 == p * q + r;
    assert Pow2(n) == 2 * p;
    assert x == (2 * p) * q + (2 * r + x % 2);
    DivModOfDecomposition(x, 2 * p, q, 2 * r + x % 2);
  }

  /** Splitting the low n + 1 bits of x the other way round: the top bit of
      the n + 1 lands in bit 0. */
  lemma {:induction false} ReflectTopBit(x: nat, n: nat)
    ensures Reflect(x, n + 1) == 2 * Reflect(x, n) + (x / Pow2(n)) % 2
    decreases n
  {
    if n > 0 {
      ReflectTopBit(x / 2, n - 1);
      Pow2Split(x, n);
    }
  }

  /** Only the low n bits take part. */
  lemma {:induction false} ReflectLowBits(x: nat, n: nat)
    ensures Reflect(x, n) == Reflect(x % Pow2(n), n)
    decreases n
  {
    if n > 0 {
      var r := x % Pow2(n);
      Pow2Split(x, n);
      assert r % 2 == x % 2 && r / 2 == (x / 2) % Pow2(n - 1);
      ReflectLowBits(x / 2, n - 1);
    }
  }

  /** `reflect(reflect(x, n), n) == x` on the low n bits. */
  lemma {:induction false} ReflectInvolution(x: nat, n: nat)
    ensures Reflect(Reflect(x, n), n) == x % Pow2(n)
    decreases n
  {
    if n > 0 {
      var m := n - 1;
      var z := Reflect(x / 2, m);
      var y := Reflect(x, n);
      assert y == Pow2(m) * (x % 2) + z;
      DivModOfDecomposition(y, Pow2(m), x % 2, z);
      ReflectTopBit(y, m);
      assert Reflect(y, n) == 2 * Reflect(y, m) + x % 2;
      ReflectLowBits(y, m);
      assert Reflect(y, m) == Reflect(z, m);
      ReflectInvolution(x / 2, m);
      Pow2Split(x, n);
    }
  }

  /** The source's `reflect(data, nBits)`: for each bit from the bottom, set
      the mirrored bit of the result, then shift data right; finally mask to
      nBits. The bit being set is still clear, so `|=` adds it. */
  method ReflectBits(data: nat, nBits: nat) returns (r: nat)
    ensures r == Reflect(data, nBits)
  {
    var reflection := 0;
    var d := data;
    var bit := 0;
    while bit < nBits
      invariant bit <= nBits
      invariant reflection + Reflect(d, nBits - bit) == Reflect(data, nBits)
    {
      assert Reflect(d, nBits - bit) ==
             (if d % 2 == 1 then Pow2(nBits - 1 - bit) else 0) + Reflect(d / 2, nBits - 1 - bit);
      if d % 2 == 1 {
        reflection := reflection + Pow2(nBits - 1 - bit);
      }
      d := d / 2;
      bit := bit + 1;
    }
    assert reflection == Reflect(data, nBits);
    DivModOfDecomposition(reflection, Pow2(nBits), 0, reflection);
    r := reflection % Pow2(nBits);
  }

  /** `reflect(byte, 8)` as a byte. */
  function ReflectByte(b: bv8): bv8
  {
    (Reflect(b as int, 8) % 0x100) as bv8
  }

  /** The eight-bit reflection of a byte is below 256, so it is the byte
      ReflectByte gives. */
  lemma ReflectByteValue(b: bv8, v: nat)
    requires v == Reflect(b as int, 8)
    ensures v < 0x100 && ReflectByte(b) == v as bv8
  {
    Pow2Values();
  }

  /** The same, for a reflection already known as a byte. */
  lemma ReflectByteIs(b: bv8, v: bv8)
    requires Reflect(b as int, 8) == v as int
    ensures ReflectByte(b) == v
  {
    ReflectByteValue(b, v as int);
  }

  /** `reflect(word, 32)` as a word. */
  function ReflectWord(w: bv32): bv32
  {
    (Reflect(w as int, 32) % TWO32) as bv32
  }

  /** The 32-bit reflection of a word is below 2^32, so it is the word
      ReflectWord gives. */
  lemma ReflectWordValue(w: bv32, v: nat)
    requires v == Reflect(w as int, 32)
    ensures v < TWO32 && ReflectWord(w) == v as bv32
  {
    Pow2Values();
  }

  /** The same, for a reflection already known as a word. */
  lemma ReflectWordIs(w: bv32, v: bv32)
    requires Reflect(w as int, 32) == v as int
    ensures ReflectWord(w) == v
  {
    ReflectWordValue(w, v as int);
  }

  /** The eight-bit reflections of the digits "123456789", the standard CRC
      check input. */
  lemma DigitsReflection()
    ensures Reflect(0x31, 8) == 0x8C
    ensures Reflect(0x32, 8) == 0x4C
    ensures Reflect(0x33, 8) == 0xCC
    ensures Reflect(0x34, 8) == 0x2C
    ensures Reflect(0x35, 8) == 0xAC
    ensures Reflect(0x36, 8) == 0x6C
    ensures Reflect(0x37, 8) == 0xEC
    ensures Reflect(0x38, 8) == 0x1C
    ensures Reflect(0x39, 8) == 0x9C
  {
    assert Reflect(0x0, 1) == 0x0;
    assert Reflect(0x0, 2) == 0x0;
    assert Reflect(0x1, 3) == 0x4;
    assert Reflect(0x3, 4) == 0xC;
    assert Reflect(0x6, 5) == 0xC;
    assert Reflect(0xC, 6) == 0xC;
    assert Reflect(0x18, 7) == 0xC;
    assert Reflect(0x0, 1) == 0x0;
    assert Reflect(0x0, 2) == 0x0;
    assert Reflect(0x1, 3) == 0x4;
    assert Reflect(0x3, 4) == 0xC;
    assert Reflect(0x6, 5) == 0xC;
    assert Reflect(0xC, 6) == 0xC;
    assert Reflect(0x19, 7) == 0x4C;
    assert Reflect(0x0, 1) == 0x0;
    assert Reflect(0x0, 2) == 0x0;
    assert Reflect(0x1, 3) == 0x4;
    assert Reflect(0x3, 4) == 0xC;
    assert Reflect(0x6, 5) == 0xC;
    assert Reflect(0xC, 6) == 0xC;
    assert Reflect(0x19, 7) == 0x4C;
    assert Reflect(0x0, 1) == 0x0;
    assert Reflect(0x0, 2) == 0x0;
    assert Reflect(0x1, 3) == 0x4;
    assert Reflect(0x3, 4) == 0xC;
    assert Reflect(0x6, 5) == 0xC;
    assert Reflect(0xD, 6) == 0x2C;
    assert Reflect(0x1A, 7) == 0x2C;
    assert Reflect(0x0, 1) == 0x0;
    assert Reflect(0x0, 2) == 0x0;
    assert Reflect(0x1, 3) == 0x4;
    assert Reflect(0x3, 4) == 0xC;
    assert Reflect(0x6, 5) == 0xC;
    assert Reflect(0xD, 6) == 0x2C;
    assert Reflect(0x1A, 7) == 0x2C;
    assert Reflect(0x0, 1) == 0x0;
    assert Reflect(0x0, 2) == 0x0;
    assert Reflect(0x1, 3) == 0x4;
    assert Reflect(0x3, 4) == 0xC;
    assert Reflect(0x6, 5) == 0xC;
    assert Reflect(0xD, 6) == 0x2C;
    assert Reflect(0x1B, 7) == 0x6C;
    assert Reflect(0x0, 1) == 0x0;
    assert Reflect(0x0, 2) == 0x0;
    assert Reflect(0x1, 3) == 0x4;
    assert Reflect(0x3, 4) == 0xC;
    assert Reflect(0x6, 5) == 0xC;
    assert Reflect(0xD, 6) == 0x2C;
    assert Reflect(0x1B, 7) == 0x6C;
    assert Reflect(0x0, 1) == 0x0;
    assert Reflect(0x0, 2) == 0x0;
    assert Reflect(0x1, 3) == 0x4;
    assert Reflect(0x3, 4) == 0xC;
    assert Reflect(0x7, 5) == 0x1C;
    assert Reflect(0xE, 6) == 0x1C;
    assert Reflect(0x1C, 7) == 0x1C;
    assert Reflect(0x0, 1) == 0x0;
    assert Reflect(0x0, 2) == 0x0;
    assert Reflect(0x1, 3) == 0x4;
    assert Reflect(0x3, 4) == 0xC;
    assert Reflect(0x7, 5) == 0x1C;
    assert Reflect(0xE, 6) == 0x1C;
    assert Reflect(0x1C, 7) == 0x1C;
  }

  /** The same digits reflected as bytes. */
  lemma DigitsReflected()
    ensures ReflectByte(0x31) == 0x8C && ReflectByte(0x32) == 0x4C && ReflectByte(0x33) == 0xCC
    ensures ReflectByte(0x34) == 0x2C && ReflectByte(0x35) == 0xAC && ReflectByte(0x36) == 0x6C
    ensures ReflectByte(0x37) == 0xEC && ReflectByte(0x38) == 0x1C && ReflectByte(0x39) == 0x9C
  {
    DigitsReflection();
    ReflectByteIs(0x31, 0x8C);
    ReflectByteIs(0x32, 0x4C);
    ReflectByteIs(0x33, 0xCC);
    ReflectByteIs(0x34, 0x2C);
    ReflectByteIs(0x35, 0xAC);
    ReflectByteIs(0x36, 0x6C);
    ReflectByteIs(0x37, 0xEC);
    ReflectByteIs(0x38, 0x1C);
    ReflectByteIs(0x39, 0x9C);
  }
}
