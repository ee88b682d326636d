/** Fixed-width word arithmetic shared by the hash and checksum classes.
    JavaScript numbers are modelled as unbounded integers; each helper of the
    source forces its result back into an unsigned range. The hash
    algorithms themselves run on `bv32`, where every such step is built in. */
module Words {

  type byte = x: int | 0 <= x < 0x100
  type u16 = x: int | 0 <= x < 0x1_0000
  type u32 = x: int | 0 <= x < 0x1_0000_0000

  const TWO32: int := 0x1_0000_0000
  const TWO16: int := 0x1_0000

  function Pow2(n: nat): (r: nat)
    ensures r >= 1
  {
    if n == 0 then 1 else 2 * Pow2(n - 1)
  }

  /** `value >>> 0` on an integral number: the unsigned 32-bit residue. */
  function Mask32(v: int): (r: u32)
    ensures (v - r) % TWO32 == 0
  {
    v % TWO32
  }

  /** `value | 0` on an integral number: the signed 32-bit integer with the
      same residue modulo 2^32. */
  function ToInt32(v: int): (r: int)
    ensures -0x8000_0000 <= r < 0x8000_0000
    ensures (v - r) % TWO32 == 0
    ensures -0x8000_0000 <= v < 0x8000_0000 ==> r == v
  {
    if v % TWO32 < 0x8000_0000 then v % TWO32 else v % TWO32 - TWO32
  }

  lemma Mask32Identity(v: int)
    requires 0 <= v < TWO32
    ensures Mask32(v) == v
  {
  }

  lemma Mask32Idempotent(v: int)
    ensures Mask32(Mask32(v)) == Mask32(v)
  {
  }

  /** `(a + b) >>> 0`: wraps once at most when both operands are words. */
  function Add32(a: int, b: int): (r: u32)
    ensures (a + b - r) % TWO32 == 0
    ensures 0 <= a < TWO32 && 0 <= b < TWO32 ==>
              r == if a + b < TWO32 then a + b else a + b - TWO32
  {
    Mask32(a + b)
  }

  /** `(a - b) >>> 0`: a result below zero wraps around to the top of the range. */
  function Sub32(a: int, b: int): (r: u32)
    ensures (a - b - r) % TWO32 == 0
    ensures 0 <= a < TWO32 && 0 <= b < TWO32 ==>
              r == if a >= b then a - b else a - b + TWO32
  {
    Mask32(a - b)
  }

  /** `(a ^ b) >>> 0` on two words: JavaScript's `^` gives a signed 32-bit
      result, which `>>> 0` reads back as the unsigned word of the same bits. */
  function Xor32(a: u32, b: u32): u32
  {
    ((a as bv32) ^ (b as bv32)) as int
  }

  /** `((x << r) | (x >>> (32 - r))) >>> 0`: rotation to the left by r bits,
      which rotation to the right by r undoes. */
  function Rotl(x: bv32, r: bv32): (y: bv32)
    requires 0 < r < 32
    ensures Rotr(y, r) == x
  {
    (x << r) | (x >> (32 - r))
  }

  /** `((x >>> r) | (x << (32 - r))) >>> 0`: rotation to the right by r bits. */
  function Rotr(x: bv32, r: bv32): (y: bv32)
    requires 0 < r < 32
    ensures (y >> (32 - r)) == x & ((1 << r) - 1)
  {
    (x >> r) | (x << (32 - r))
  }

  /** Rotating left by r moves bit k to bit (k + r) mod 32, written
      `(k + r) & 31`. */
  lemma RotlMovesBit(x: bv32, r: bv32, k: bv32)
    requires 0 < r < 32 && k < 32
    ensures (Rotl(x, r) >> ((k + r) & 31)) & 1 == (x >> k) & 1
  {
    var y := (x << r) | (x >> (32 - r));
    assert Rotl(x, r) == y;
  }

  /** A length as a word: `len >>> 0`, the length modulo 2^32. */
  function LengthWord(n: nat): bv32
  {
    (n % TWO32) as bv32
  }

  /** `value & 0xFFFF` on an integral number: the unsigned 16-bit residue. */
  function Mask16(v: int): (r: u16)
    ensures (v - r) % TWO16 == 0
  {
    v % TWO16
  }

  lemma Mask16Identity(v: int)
    requires 0 <= v < TWO16
    ensures Mask16(v) == v
  {
  }

  lemma Mask16Idempotent(v: int)
    ensures Mask16(Mask16(v)) == Mask16(v)
  {
  }

  /** `(a + b) & 0xFFFF`: wraps once at most when both operands are 16-bit. */
  function Add16(a: int, b: int): (r: u16)
    ensures (a + b - r) % TWO16 == 0
    ensures 0 <= a < TWO16 && 0 <= b < TWO16 ==>
              r == if a + b < TWO16 then a + b else a + b - TWO16
  {
    Mask16(a + b)
  }

  /** x % m and x / m are the remainder and quotient of any decomposition
      x == m * k + r with 0 <= r < m. */
  lemma DivModOfDecomposition(x: int, m: int, k: int, r: int)
    requires m > 0 && x == m * k + r && 0 <= r < m
    ensures x % m == r && x / m == k
  {
    var d := k - x / m;
    assert m * d == x % m - r;
    MulOutsideUnit(m, d);
  }

  lemma MulOutsideUnit(m: int, d: int)
    requires m > 0
    ensures d >= 1 ==> m * d >= m
    ensures d <= -1 ==> m * d <= -m
  {
    if d >= 1 {
      assert m * d == m + m * (d - 1);
    } else if d <= -1 {
      assert m * d == -m + m * (d + 1);
    }
  }

  /** x and y leave the same remainder modulo m. */
  predicate Congruent(x: int, y: int, m: int)
    requires m > 0
  {
    (x - y) % m == 0
  }

  lemma CongruentAdd(x: int, y: int, x': int, y': int, m: int)
    requires m > 0 && Congruent(x, y, m) && Congruent(x', y', m)
    ensures Congruent(x + x', y + y', m)
  {
    var k, k' := (x - y) / m, (x' - y') / m;
    assert x - y == m * k && x' - y' == m * k';
    DivModOfDecomposition(x + x' - (y + y'), m, k + k', 0);
  }

  /** Reducing a representative keeps its class, and a representative in
      [0, m) is the canonical remainder. */
  lemma CongruentMod(x: int, y: int, m: int)
    requires m > 0 && Congruent(x, y, m)
    ensures Congruent(x % m, y, m) && y % m == x % m
  {
    var k := (x - y) / m;
    assert x - y == m * k;
    DivModOfDecomposition(y, m, x / m - k, x % m);
    assert x == m * (x / m) + x % m;
    DivModOfDecomposition(x % m - y, m, k - x / m, 0);
  }

  /** Euclidean division of x by m, written out. */
  lemma DivModSplit(x: int, m: int)
    requires m > 0
    ensures x == m * (x / m) + x % m && 0 <= x % m < m
  {
  }

  /** Rounding a quotient up: one more than the floor unless k divides n. */
  lemma CeilDiv(n: int, k: int)
    requires k > 0
    ensures (n + k - 1) / k == n / k + (if n % k == 0 then 0 else 1)
  {
    DivModSplit(n, k);
    if n % k == 0 {
      DivModOfDecomposition(n + k - 1, k, n / k, k - 1);
    } else {
      DivModOfDecomposition(n + k - 1, k, n / k + 1, n % k - 1);
    }
  }

  /** How far n falls short of the next multiple of k. */
  lemma ModComplement(n: int, k: int)
    requires k > 0
    ensures (k - n % k) % k == (if n % k == 0 then 0 else k - n % k)
  {
    if n % k == 0 {
      DivModOfDecomposition(k, k, 1, 0);
    } else {
      DivModOfDecomposition(k - n % k, k, 0, k - n % k);
    }
  }

  /** The number of dashes the key generator inserts into a text of length
      n > 0 cut into groups of k: one fewer than the number of groups, so
      the text after the last dash has 1 to k characters. */
  lemma DashCount(n: int, k: int, g: int)
    requires n > 0 && k > 0 && g == n / k - (if n % k == 0 then 1 else 0)
    ensures 0 <= g && 0 < n - g * k <= k
  {
    DivModSplit(n, k);
    if n % k == 0 {
      assert n / k >= 1;
      assert n - g * k == k * (n / k) - k * (n / k - 1);
    }
  }

  lemma ZeroMod(n: int)
    requires n > 0
    ensures 0 % n == 0
  {
  }

  /** Advancing a cyclic index by one: when h is `k % n`, `(h + 1) % n` is
      `(k + 1) % n`. */
  lemma ModSucc(k: int, n: int, h: int)
    requires n > 0 && h == k % n
    ensures (h + 1) % n == (k + 1) % n
  {
    DivModSplit(k, n);
    if k % n + 1 == n {
      DivModOfDecomposition(k + 1, n, k / n + 1, 0);
    } else {
      DivModOfDecomposition(k + 1, n, k / n, k % n + 1);
    }
  }

  /** While groups remain, one more group still leaves characters after it. */
  lemma GroupStep(i: int, g: int, k: int, n: int)
    requires 0 <= i < g && k > 0 && 0 < n - g * k
    ensures (i + 1) * k == i * k + k && i * k + k < n
  {
    assert (i + 1) * k <= g * k;
  }

  /** Removing one divisor's worth lowers the quotient by one and keeps the remainder. */
  lemma DivStep(n: int, k: int)
    requires k > 0 && n >= k
    ensures n / k == (n - k) / k + 1 && n % k == (n - k) % k
    ensures k <= n - n % k
  {
    DivModSplit(n - k, k);
    DivModOfDecomposition(n, k, (n - k) / k + 1, (n - k) % k);
  }

  lemma MulDouble(x: int, y: int)
    ensures x * (2 * y) == 2 * (x * y)
  {
  }

  /** The remainder by 2m from the remainder of the halved number by m. */
  lemma ModDouble(v: int, m: int)
    requires m > 0
    ensures v % (2 * m) == 2 * ((v / 2) % m) + v % 2
  {
    DivModSplit(v / 2, m);
    DivModSplit(v, 2);
    assert v == (2 * m) * ((v / 2) / m) + (2 * ((v / 2) % m) + v % 2);
    DivModOfDecomposition(v, 2 * m, (v / 2) / m, 2 * ((v / 2) % m) + v % 2);
  }

  /** A number whose remainder by a*b is h*b + l (h < a, l < b): dividing by
      b and reducing by a gives h, and the remainder by b is l. */
  lemma SplitDivMod(x: int, a: int, b: int, h: int, l: int)
    requires a > 0 && b > 0 && 0 <= h < a && 0 <= l < b
    requires x % (a * b) == h * b + l
    ensures (x / b) % a == h && x % b == l
  {
    DivModSplit(x, a * b);
    assert x == b * (a * (x / (a * b)) + h) + l;
    DivModOfDecomposition(x, b, a * (x / (a * b)) + h, l);
    DivModOfDecomposition(a * (x / (a * b)) + h, a, x / (a * b), h);
  }

  /** Shifting x up by a factor k and filling in v < k, all modulo t, a
      multiple of p*k: the remainder by p*k is x's remainder by p shifted
      up, plus v. */
  lemma ShiftMod(x: int, p: int, k: int, v: int, pk: int, t: int, low: int)
    requires p > 0 && k > 0 && 0 <= v < k && pk == p * k && t > 0 && t % pk == 0
    requires x % p == low
    ensures ((x * k + v) % t) % pk == low * k + v
  {
    DivModSplit(x, p);
    assert low * k <= (p - 1) * k;
    assert x * k + v == pk * (x / p) + (low * k + v);
    DivModOfDecomposition(x * k + v, pk, x / p, low * k + v);
    DivModSplit(t, pk);
    ModOfMultiple(x * k + v, pk, t / pk);
  }

  /** 2^n divides 2^32 for n <= 32. */
  lemma Pow2DividesTwo32(n: nat)
    requires n <= 32
    ensures TWO32 % Pow2(n) == 0
  {
    Pow2Add(n, 32 - n);
    Pow2Values();
    DivModOfDecomposition(TWO32, Pow2(n), Pow2(32 - n), 0);
  }

  /** `(x << k) | v` on a 32-bit x, read as unsigned, is (x * 2^k + v) mod
      2^32; its low n + k bits are x's low n bits followed by v. */
  lemma ShiftIn(x: int, n: nat, k: nat, v: int, low: int)
    requires x % Pow2(n) == low && 0 <= v < Pow2(k) && n + k <= 32
    ensures ((x * Pow2(k) + v) % TWO32) % Pow2(n + k) == low * Pow2(k) + v
  {
    Pow2Add(n, k);
    Pow2DividesTwo32(n + k);
    ShiftMod(x, Pow2(n), Pow2(k), v, Pow2(n + k), TWO32, low);
  }

  /** Powers of two multiply by adding exponents. */
  lemma {:induction false} Pow2Add(a: nat, b: nat)
    ensures Pow2(a + b) == Pow2(a) * Pow2(b)
  {
    if a > 0 {
      Pow2Add(a - 1, b);
      assert Pow2(a + b) == 2 * Pow2(a - 1 + b);
    }
  }

  /** Reducing modulo a multiple of m first does not change the remainder by m. */
  lemma ModOfMultiple(y: int, m: int, k: int)
    requires m > 0 && k > 0
    ensures (y % (m * k)) % m == y % m
  {
    var r := y % (m * k);
    assert y == (m * k) * (y / (m * k)) + r;
    assert r == m * (r / m) + r % m;
    assert y == m * (k * (y / (m * k)) + r / m) + r % m;
    DivModOfDecomposition(y, m, k * (y / (m * k)) + r / m, r % m);
  }

  /** 2^8, 2^16 and 2^32, step by step. */
  lemma Pow2Values()
    ensures Pow2(8) == 0x100 && Pow2(16) == TWO16 && Pow2(32) == TWO32
  {
    assert Pow2(1) == 0x2;
    assert Pow2(2) == 0x4;
    assert Pow2(3) == 0x8;
    assert Pow2(4) == 0x10;
    assert Pow2(5) == 0x20;
    assert Pow2(6) == 0x40;
    assert Pow2(7) == 0x80;
    assert Pow2(8) == 0x100;
    assert Pow2(9) == 0x200;
    assert Pow2(10) == 0x400;
    assert Pow2(11) == 0x800;
    assert Pow2(12) == 0x1000;
    assert Pow2(13) == 0x2000;
    assert Pow2(14) == 0x4000;
    assert Pow2(15) == 0x8000;
    assert Pow2(16) == 0x10000;
    assert Pow2(17) == 0x20000;
    assert Pow2(18) == 0x40000;
    assert Pow2(19) == 0x80000;
    assert Pow2(20) == 0x100000;
    assert Pow2(21) == 0x200000;
    assert Pow2(22) == 0x400000;
    assert Pow2(23) == 0x800000;
    assert Pow2(24) == 0x1000000;
    assert Pow2(25) == 0x2000000;
    assert Pow2(26) == 0x4000000;
    assert Pow2(27) == 0x8000000;
    assert Pow2(28) == 0x10000000;
    assert Pow2(29) == 0x20000000;
    assert Pow2(30) == 0x40000000;
    assert Pow2(31) == 0x80000000;
    assert Pow2(32) == 0x100000000;
  }
}
