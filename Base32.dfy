/** Base32 of RFC 4648 without padding, upper case only. Both directions
    are specified on the bit string of the data, most significant bit first:
    encoding cuts it into five-bit symbols and pads the last one with zero
    bits; decoding cuts the symbols' bits into bytes and drops the rest. */
module Base32 {
  import opened Words
  import opened Results

  const ALPHABET: string := "ABCDEFGHIJKLMNOPQRSTUVWXYZ234567"

  /** The letters A-Z stand for 0..25 and the digits 2-7 for 26..31. */
  function SymbolOf(v: nat): char
    requires v < 32
  {
    if v < 26 then ('A' as int + v) as char else ('2' as int + (v - 26)) as char
  }

  lemma AlphabetLayout()
    ensures |ALPHABET| == 32
    ensures forall v :: 0 <= v < 32 ==> ALPHABET[v] == SymbolOf(v)
  {
    assert ALPHABET == seq(32, v requires 0 <= v < 32 => SymbolOf(v));
  }

  /** `CHAR_TO_VAL[c]`: the value of c, which is its index in the alphabet,
      or None when c is not in the alphabet. */
  function CharToVal(c: char): (r: Option<nat>)
    ensures r.Some? ==> r.value < 32 && ALPHABET[r.value] == c
    ensures r.None? ==> forall v :: 0 <= v < 32 ==> ALPHABET[v] != c
  {
    AlphabetLayout();
    if 'A' <= c <= 'Z' then Some(c as int - 'A' as int)
    else if '2' <= c <= '7' then Some(c as int - '2' as int + 26)
    else None
  }

  lemma CharToValOfSymbol(v: nat)
    requires v < 32
    ensures CharToVal(ALPHABET[v]) == Some(v)
  {
    AlphabetLayout();
  }

  /** The initialiser of `CHAR_TO_VAL`: one entry per alphabet position. */
  method BuildCharToVal() returns (m: map<char, nat>)
    ensures forall c :: c in m <==> CharToVal(c).Some?
    ensures forall c :: c in m ==> m[c] == CharToVal(c).value
  {
    AlphabetLayout();
    m := map[];
    for i := 0 to |ALPHABET|
      invariant forall c :: c in m <==> CharToVal(c).Some? && CharToVal(c).value < i
      invariant forall c :: c in m ==> m[c] == CharToVal(c).value
    {
      CharToValOfSymbol(i);
      m := m[ALPHABET[i] := i];
    }
  }

  // ---------------------------------------------------------------------
  // Bit strings

  /** The n low bits of v, most significant first. */
  function NatBits(v: nat, n: nat): (r: seq<bool>)
    ensures |r| == n
  {
    if n == 0 then [] else NatBits(v / 2, n - 1) + [v % 2 == 1]
  }

  /** The number a bit string spells, most significant bit first. */
  function Val(bits: seq<bool>): (r: nat)
    ensures r < Pow2(|bits|)
  {
    if bits == [] then 0
    else 2 * Val(bits[..|bits| - 1]) + (if bits[|bits| - 1] then 1 else 0)
  }

  function Zeros(n: nat): (r: seq<bool>)
    ensures |r| == n && forall j :: 0 <= j < n ==> !r[j]
  {
    seq(n, j => false)
  }

  lemma {:induction false} ValOfNatBits(v: nat, n: nat)
    ensures Val(NatBits(v, n)) == v % Pow2(n)
  {
    if n > 0 {
      ValOfNatBits(v / 2, n - 1);
      assert NatBits(v, n)[..n - 1] == NatBits(v / 2, n - 1);
      ModDouble(v, Pow2(n - 1));
    }
  }

  lemma {:induction false} NatBitsOfVal(bits: seq<bool>)
    ensures NatBits(Val(bits), |bits|) == bits
  {
    if bits != [] {
      var n := |bits|;
      var b := if bits[n - 1] then 1 else 0;
      DivModOfDecomposition(Val(bits), 2, Val(bits[..n - 1]), b);
      NatBitsOfVal(bits[..n - 1]);
      assert bits == bits[..n - 1] + [bits[n - 1]];
    }
  }

  /** Appending bits shifts the value up by their count and adds theirs. */
  lemma {:induction false} ValConcat(a: seq<bool>, b: seq<bool>)
    ensures Val(a + b) == Val(a) * Pow2(|b|) + Val(b)
  {
    if b == [] {
      assert a + b == a;
    } else {
      var n := |b|;
      var l := if b[n - 1] then 1 else 0;
      assert (a + b)[..|a + b| - 1] == a + b[..n - 1];
      ValConcat(a, b[..n - 1]);
      assert Val(a + b) == 2 * Val(a + b[..n - 1]) + l;
      assert Val(b) == 2 * Val(b[..n - 1]) + l;
      assert Pow2(n) == 2 * Pow2(n - 1);
      MulDouble(Val(a), Pow2(n - 1));
    }
  }

  /** A value shifted up by m has the bits of the value followed by m zeros. */
  lemma {:induction false} NatBitsShifted(v: nat, n: nat, m: nat)
    ensures NatBits(v * Pow2(m), n + m) == NatBits(v, n) + Zeros(m)
  {
    if m > 0 {
      var w := v * Pow2(m - 1);
      assert v * Pow2(m) == 2 * w;
      assert (2 * w) / 2 == w && (2 * w) % 2 == 0;
      NatBitsShifted(v, n, m - 1);
      assert Zeros(m) == Zeros(m - 1) + [false];
    }
  }

  /** The whole k-bit groups of a bit string, front to back; fewer than k
      trailing bits make no group. */
  function Groups(bits: seq<bool>, k: nat): (r: seq<nat>)
    requires k > 0
    ensures forall j :: 0 <= j < |r| ==> r[j] < Pow2(k)
    decreases |bits|
  {
    if |bits| < k then [] else [Val(bits[..k])] + Groups(bits[k..], k)
  }

  lemma {:induction false} GroupsLength(bits: seq<bool>, k: nat)
    requires k > 0
    ensures |Groups(bits, k)| == |bits| / k
    decreases |bits|
  {
    if |bits| < k {
      DivModOfDecomposition(|bits|, k, 0, |bits|);
    } else {
      GroupsLength(bits[k..], k);
      DivStep(|bits|, k);
    }
  }

  /** Groups of a concatenation whose first part is whole groups. */
  lemma {:induction false} GroupsAppend(a: seq<bool>, b: seq<bool>, k: nat)
    requires k > 0 && |a| % k == 0
    ensures Groups(a + b, k) == Groups(a, k) + Groups(b, k)
    decreases |a|
  {
    if a == [] {
      assert a + b == b;
    } else {
      assert |a| >= k by {
        if |a| < k { DivModOfDecomposition(|a|, k, 0, |a|); }
      }
      assert (a + b)[..k] == a[..k];
      assert (a + b)[k..] == a[k..] + b;
      DivModOfDecomposition(|a| - k, k, |a| / k - 1, 0);
      GroupsAppend(a[k..], b, k);
    }
  }

  lemma GroupsOfOne(g: seq<bool>, k: nat)
    requires k > 0 && |g| == k
    ensures Groups(g, k) == [Val(g)]
  {
    assert g[..k] == g;
    assert Groups(g[k..], k) == [];
  }

  /** Taking the first k of the pending bits out of a buffer whose low bits
      hold them: `(buffer >>> (n - k)) & (2^k - 1)` is their value, and the
      remainder by 2^(n-k) is the value of the bits after them. */
  lemma SplitPending(x: nat, p: seq<bool>, k: nat)
    requires k <= |p| && x % Pow2(|p|) == Val(p)
    ensures (x / Pow2(|p| - k)) % Pow2(k) == Val(p[..k])
    ensures x % Pow2(|p| - k) == Val(p[k..])
  {
    assert p == p[..k] + p[k..];
    ValConcat(p[..k], p[k..]);
    Pow2Add(k, |p| - k);
    SplitDivMod(x, Pow2(k), Pow2(|p| - k), Val(p[..k]), Val(p[k..]));
  }

  /** Appending the k bits of v < 2^k shifts the value up and adds v. */
  lemma AppendValue(p: seq<bool>, v: nat, k: nat)
    requires v < Pow2(k)
    ensures Val(p + NatBits(v, k)) == Val(p) * Pow2(k) + v
  {
    ValConcat(p, NatBits(v, k));
    ValOfNatBits(v, k);
    DivModOfDecomposition(v, Pow2(k), 0, v);
  }

  // ---------------------------------------------------------------------
  // Encoding

  /** The bits of the bytes, eight per byte, most significant first. */
  function Bits(bytes: seq<byte>): (r: seq<bool>)
    ensures |r| == 8 * |bytes|
  {
    if bytes == [] then [] else Bits(bytes[..|bytes| - 1]) + NatBits(bytes[|bytes| - 1], 8)
  }

  /** The symbol values of the encoding: the whole five-bit groups, then the
      one to four leftover bits with zero bits appended. */
  function Quintets(bits: seq<bool>): (r: seq<nat>)
    ensures forall j :: 0 <= j < |r| ==> r[j] < 32
  {
    Pow2Values();
    assert Pow2(5) == 32;
    var whole := |bits| - |bits| % 5;
    Groups(bits, 5) + if whole == |bits| then [] else [Padded(bits[whole..])]
  }

  /** One to four leftover bits, shifted up to a five-bit value. */
  function Padded(t: seq<bool>): (r: nat)
    requires 0 < |t| < 5
    ensures r < 32 && r == Val(t + Zeros(5 - |t|))
  {
    ValConcat(t, Zeros(5 - |t|));
    Pow2Add(|t|, 5 - |t|);
    ZerosValue(5 - |t|);
    assert Pow2(5) == 32;
    Val(t) * Pow2(5 - |t|)
  }

  lemma {:induction false} ZerosValue(n: nat)
    ensures Val(Zeros(n)) == 0
  {
    if n > 0 {
      assert Zeros(n)[..n - 1] == Zeros(n - 1);
      ZerosValue(n - 1);
    }
  }

  /** The alphabet characters of five-bit values. */
  function Symbols(vals: seq<nat>): (r: string)
    requires forall j :: 0 <= j < |vals| ==> vals[j] < 32
    ensures |r| == |vals|
  {
    if vals == [] then "" else Symbols(vals[..|vals| - 1]) + [ALPHABET[vals[|vals| - 1]]]
  }

  /** The Base32 text of the bytes. */
  function Encode(bytes: seq<byte>): (r: string)
  {
    Symbols(Quintets(Bits(bytes)))
  }

  lemma BitsSnoc(bytes: seq<byte>, i: nat)
    requires i < |bytes|
    ensures Bits(bytes[..i + 1]) == Bits(bytes[..i]) + NatBits(bytes[i], 8)
  {
    assert bytes[..i + 1][..i] == bytes[..i];
  }

  /** A byte shifted into the encoder's buffer lands below its pending bits. */
  lemma EncoderTakesByte(buffer: nat, pending: seq<bool>, b: byte)
    requires |pending| < 5 && buffer % Pow2(|pending|) == Val(pending)
    ensures ((buffer * 0x100 + b) % TWO32) % Pow2(|pending| + 8) == Val(pending + NatBits(b, 8))
  {
    EncoderShift(buffer, |pending|, b, Val(pending));
    AppendByte(pending, b);
  }

  lemma EncoderShift(buffer: nat, n: nat, b: byte, low: nat)
    requires n < 5 && buffer % Pow2(n) == low
    ensures ((buffer * 0x100 + b) % TWO32) % Pow2(n + 8) == low * 0x100 + b
  {
    Pow2Values();
    ShiftIn(buffer, n, 8, b, low);
  }

  lemma AppendByte(p: seq<bool>, b: byte)
    ensures Val(p + NatBits(b, 8)) == Val(p) * 0x100 + b
  {
    Pow2Values();
    AppendValue(p, b, 8);
  }

  /** The top five pending bits leave the encoder's buffer as one symbol. */
  lemma EncoderEmits(buffer: nat, done: seq<bool>, pending: seq<bool>)
    requires |done| % 5 == 0 && 5 <= |pending| && buffer % Pow2(|pending|) == Val(pending)
    ensures (buffer / Pow2(|pending| - 5)) % 32 == Val(pending[..5])
    ensures buffer % Pow2(|pending| - 5) == Val(pending[5..])
    ensures |done + pending[..5]| % 5 == 0
    ensures (done + pending[..5]) + pending[5..] == done + pending
    ensures Symbols(Groups(done + pending[..5], 5))
            == Symbols(Groups(done, 5)) + [ALPHABET[Val(pending[..5])]]
  {
    EmitValue(buffer, pending);
    MoveAcross(done, pending, 5);
    EmitGroup(done, pending[..5]);
  }

  lemma EmitValue(buffer: nat, pending: seq<bool>)
    requires 5 <= |pending| && buffer % Pow2(|pending|) == Val(pending)
    ensures (buffer / Pow2(|pending| - 5)) % 32 == Val(pending[..5])
    ensures buffer % Pow2(|pending| - 5) == Val(pending[5..])
  {
    assert Pow2(5) == 32;
    SplitPending(buffer, pending, 5);
  }

  lemma EmitGroup(done: seq<bool>, g: seq<bool>)
    requires |done| % 5 == 0 && |g| == 5
    ensures |done + g| % 5 == 0
    ensures Symbols(Groups(done + g, 5)) == Symbols(Groups(done, 5)) + [ALPHABET[Val(g)]]
  {
    assert |done + g| % 5 == 0 by {
      DivModSplit(|done|, 5);
      DivModOfDecomposition(|done| + 5, 5, |done| / 5 + 1, 0);
    }
    assert Pow2(5) == 32;
    GroupsOfOne(g, 5);
    GroupsAppend(done, g, 5);
    SymbolsSnoc(Groups(done, 5), Val(g));
  }

  /** When the bytes run out, the symbols so far and the padded leftover bits
      are the whole encoding. */
  lemma EncoderFinishes(bytes: seq<byte>, done: seq<bool>, pending: seq<bool>)
    requires done + pending == Bits(bytes) && |done| % 5 == 0 && |pending| < 5
    ensures |pending| == 0 ==> Encode(bytes) == Symbols(Groups(done, 5))
    ensures |pending| > 0 ==>
              Encode(bytes) == Symbols(Groups(done, 5)) + [ALPHABET[Padded(pending)]]
  {
    var bits := Bits(bytes);
    GroupsAppend(done, pending, 5);
    assert Groups(pending, 5) == [];
    DivModOfDecomposition(|bits|, 5, |done| / 5, |pending|);
    assert bits[|done|..] == pending;
    if |pending| > 0 {
      assert Quintets(bits) == Groups(done, 5) + [Padded(pending)];
      SymbolsSnoc(Groups(done, 5), Padded(pending));
    } else {
      assert Quintets(bits) == Groups(done, 5);
    }
  }

  lemma SymbolsSnoc(vals: seq<nat>, v: nat)
    requires (forall j :: 0 <= j < |vals| ==> vals[j] < 32) && v < 32
    ensures Symbols(vals + [v]) == Symbols(vals) + [ALPHABET[v]]
  {
    assert (vals + [v])[..|vals|] == vals;
  }

  lemma EncodeEmpty()
    ensures Encode([]) == ""
  {
    assert Quintets([]) == [];
  }

  /** One pass of the encoder's byte loop: the byte is shifted into the
      buffer, then while five or more bits are pending the top five leave as
      one symbol; the buffer itself is never masked. */
  method TakeByte(buffer: nat, bitsLeft: nat, out: string,
                  ghost done: seq<bool>, ghost pending: seq<bool>, b: byte)
    returns (buffer': nat, left: nat, out': string, ghost done': seq<bool>, ghost pending': seq<bool>)
    requires |done| % 5 == 0 && |pending| == bitsLeft < 5
    requires buffer % Pow2(bitsLeft) == Val(pending) && out == Symbols(Groups(done, 5))
    ensures done' + pending' == done + pending + NatBits(b, 8)
    ensures |done'| % 5 == 0 && |pending'| == left < 5
    ensures buffer' % Pow2(left) == Val(pending') && out' == Symbols(Groups(done', 5))
  {
    EncoderTakesByte(buffer, pending, b);
    buffer' := (buffer * 0x100 + b) % TWO32;
    left, out', done', pending' := bitsLeft + 8, out, done, pending + NatBits(b, 8);
    while left >= 5
      invariant done' + pending' == done + pending + NatBits(b, 8)
      invariant |done'| % 5 == 0 && |pending'| == left < 13
      invariant buffer' % Pow2(left) == Val(pending') && out' == Symbols(Groups(done', 5))
    {
      EncoderEmits(buffer', done', pending');
      var index := (buffer' / Pow2(left - 5)) % 32;
      left := left - 5;
      out' := out' + [ALPHABET[index]];
      done' := done' + pending'[..5];
      pending' := pending'[5..];
    }
  }

  /** The encoder's byte loop. */
  method EncodeBytes(bytes: seq<byte>)
    returns (buffer: nat, bitsLeft: nat, out: string, ghost done: seq<bool>, ghost pending: seq<bool>)
    ensures done + pending == Bits(bytes)
    ensures |done| % 5 == 0 && |pending| == bitsLeft < 5
    ensures buffer % Pow2(bitsLeft) == Val(pending) && out == Symbols(Groups(done, 5))
  {
    out := "";
    buffer, bitsLeft := 0, 0;
    done, pending := [], [];
    for i := 0 to |bytes|
      invariant done + pending == Bits(bytes[..i])
      invariant |done| % 5 == 0 && |pending| == bitsLeft < 5
      invariant buffer % Pow2(bitsLeft) == Val(pending) && out == Symbols(Groups(done, 5))
    {
      BitsSnoc(bytes, i);
      buffer, bitsLeft, out, done, pending := TakeByte(buffer, bitsLeft, out, done, pending, bytes[i]);
    }
    assert bytes[..|bytes|] == bytes;
  }

  /** Base32.toBase32 on bytes. The buffer is the source's 32-bit `buffer`,
      read as unsigned, so `buffer << 8` is a product reduced modulo 2^32 and
      `buffer >>> n` a quotient; its `bitsLeft` low bits are the pending bits. */
  method ToBase32(bytes: seq<byte>) returns (out: string)
    ensures out == Encode(bytes)
  {
    if |bytes| == 0 {
      EncodeEmpty();
      return "";
    }
    var buffer, bitsLeft;
    ghost var done, pending;
    buffer, bitsLeft, out, done, pending := EncodeBytes(bytes);
    EncoderFinishes(bytes, done, pending);
    if bitsLeft > 0 {
      FinalSymbol(buffer, pending);
      var index := (buffer * Pow2(5 - bitsLeft)) % TWO32 % 32;
      out := out + [ALPHABET[index]];
    }
  }

  /** `(buffer << (5 - bitsLeft)) & 0x1F` is the padded value of the
      leftover bits. */
  lemma FinalSymbol(x: nat, p: seq<bool>)
    requires 0 < |p| < 5 && x % Pow2(|p|) == Val(p)
    ensures (x * Pow2(5 - |p|)) % TWO32 % 32 == Padded(p)
  {
    Pow2Add(|p|, 5 - |p|);
    Pow2DividesTwo32(5);
    Pow2Values();
    assert Pow2(5) == 32;
    ShiftMod(x, Pow2(|p|), Pow2(5 - |p|), 0, 32, TWO32, Val(p));
  }

  // ---------------------------------------------------------------------
  // Decoding

  /** What `/[a-z]/` matches. */
  predicate IsLower(c: char)
  {
    'a' <= c <= 'z'
  }

  predicate AllSymbols(s: string)
  {
    forall j :: 0 <= j < |s| ==> CharToVal(s[j]).Some?
  }

  /** The position of the first character at or after `from` that is not
      in the alphabet, or |s| when there is none. */
  function FirstInvalid(s: string, from: nat): (j: nat)
    requires from <= |s|
    ensures from <= j <= |s|
    ensures j < |s| ==> CharToVal(s[j]).None?
    ensures forall k :: from <= k < j ==> CharToVal(s[k]).Some?
    decreases |s| - from
  {
    if from == |s| then |s|
    else if CharToVal(s[from]).None? then from
    else FirstInvalid(s, from + 1)
  }

  /** The bits of the symbols, five per character. */
  function SymbolBits(s: string): (r: seq<bool>)
    requires AllSymbols(s)
    ensures |r| == 5 * |s|
  {
    if s == [] then [] else SymbolBits(s[..|s| - 1]) + NatBits(CharToVal(s[|s| - 1]).value, 5)
  }

  /** Whole groups of eight bits as bytes. */
  function Octets(bits: seq<bool>): (r: seq<byte>)
    ensures |r| == |bits| / 8
  {
    Pow2Values();
    GroupsLength(bits, 8);
    Groups(bits, 8)
  }

  /** Base32.fromBase32: the empty text, then the lower-case check over the
      whole text, then the first character outside the alphabet; leftover
      bits after the last whole byte are dropped whatever their value. */
  function Decode(s: string): (r: Result<seq<byte>>)
    ensures r.Ok? <==> AllSymbols(s)
    ensures r.Ok? ==> |r.value| == 5 * |s| / 8
    ensures (exists j :: 0 <= j < |s| && IsLower(s[j])) ==> r == Err(LowercaseBase32)
    ensures r.Err? && (forall j :: 0 <= j < |s| ==> !IsLower(s[j])) ==>
              var p := FirstInvalid(s, 0);
              p < |s| && r == Err(InvalidBase32Character(s[p], p))
  {
    if s == [] then Ok([])
    else if exists j :: 0 <= j < |s| && IsLower(s[j]) then Err(LowercaseBase32)
    else if FirstInvalid(s, 0) < |s| then
      Err(InvalidBase32Character(s[FirstInvalid(s, 0)], FirstInvalid(s, 0)))
    else Ok(Octets(SymbolBits(s)))
  }

  method FromBase32(s: string) returns (r: Result<seq<byte>>)
    ensures r == Decode(s)
  {
    if |s| == 0 {
      return Ok([]);
    }
    if exists j :: 0 <= j < |s| && IsLower(s[j]) {
      return Err(LowercaseBase32);
    }
    for i := 0 to |s|
      invariant forall j :: 0 <= j < i ==> CharToVal(s[j]).Some?
    {
      if CharToVal(s[i]).None? {
        return Err(InvalidBase32Character(s[i], i));
      }
    }
    var out := DecodeSymbols(s);
    return Ok(out);
  }

  lemma SymbolBitsSnoc(s: string, i: nat)
    requires AllSymbols(s) && i < |s|
    ensures AllSymbols(s[..i]) && AllSymbols(s[..i + 1])
    ensures SymbolBits(s[..i + 1]) == SymbolBits(s[..i]) + NatBits(CharToVal(s[i]).value, 5)
  {
    assert s[..i + 1][..i] == s[..i];
  }

  /** A symbol shifted into the decoder's buffer lands below its pending bits. */
  lemma DecoderTakesSymbol(buffer: nat, pending: seq<bool>, val: nat)
    requires buffer == Val(pending) && |pending| < 8 && val < 32
    ensures (buffer * 32 + val) % TWO32 == Val(pending + NatBits(val, 5))
  {
    ShiftedStaysSmall(buffer, |pending|, val);
    Pow2Values();
    assert Pow2(5) == 32;
    AppendValue(pending, val, 5);
  }

  /** The top eight pending bits leave the decoder's buffer as one byte. */
  lemma DecoderEmits(buffer: nat, pending: seq<bool>)
    requires 8 <= |pending| && buffer == Val(pending)
    ensures (buffer / Pow2(|pending| - 8)) % 0x100 == Val(pending[..8]) < 0x100
    ensures buffer % Pow2(|pending| - 8) == Val(pending[8..])
  {
    Pow2Values();
    DivModOfDecomposition(buffer, Pow2(|pending|), 0, buffer);
    SplitPending(buffer, pending, 8);
  }

  /** Eight more whole bits add one byte to the decoded output. */
  lemma OctetsSnoc(done: seq<bool>, g: seq<bool>)
    requires |done| % 8 == 0 && |g| == 8
    ensures Val(g) < 0x100
    ensures Octets(done + g) == Octets(done) + [Val(g)]
  {
    Pow2Values();
    GroupsOfOne(g, 8);
    GroupsAppend(done, g, 8);
  }

  /** One pass of the decoder's loop: the symbol's five bits are shifted into
      the buffer; once eight or more are pending, the top eight leave as a
      byte and the buffer keeps only the rest (`buffer &= (1 << bitsLeft) - 1`). */
  method TakeSymbol(buffer: nat, bitsLeft: nat, out: seq<byte>,
                    ghost done: seq<bool>, ghost pending: seq<bool>, val: nat)
    returns (buffer': nat, left: nat, out': seq<byte>, ghost done': seq<bool>, ghost pending': seq<bool>)
    requires |done| % 8 == 0 && |pending| == bitsLeft < 8 && val < 32
    requires buffer == Val(pending) && out == Octets(done)
    ensures done' + pending' == done + pending + NatBits(val, 5)
    ensures |done'| % 8 == 0 && |pending'| == left < 8
    ensures buffer' == Val(pending') && out' == Octets(done')
  {
    DecoderTakesSymbol(buffer, pending, val);
    buffer' := (buffer * 32 + val) % TWO32;
    left, out', done', pending' := bitsLeft + 5, out, done, pending + NatBits(val, 5);
    if left >= 8 {
      DecoderEmits(buffer', pending');
      OctetsSnoc(done', pending'[..8]);
      MoveAcross(done', pending', 8);
      left := left - 8;
      var b: byte := (buffer' / Pow2(left)) % 0x100;
      out' := out' + [b];
      buffer' := buffer' % Pow2(left);
      done' := done' + pending'[..8];
      pending' := pending'[8..];
    }
  }

  /** The decoder's main loop over a text of alphabet characters only. */
  method DecodeSymbols(s: string) returns (out: seq<byte>)
    requires AllSymbols(s)
    ensures out == Octets(SymbolBits(s))
  {
    var buffer: nat := 0;
    var bitsLeft: nat := 0;
    out := [];
    ghost var done: seq<bool> := [];
    ghost var pending: seq<bool> := [];
    for i := 0 to |s|
      invariant AllSymbols(s[..i])
      invariant done + pending == SymbolBits(s[..i])
      invariant |done| % 8 == 0 && |pending| == bitsLeft < 8
      invariant buffer == Val(pending) && out == Octets(done)
    {
      SymbolBitsSnoc(s, i);
      buffer, bitsLeft, out, done, pending :=
        TakeSymbol(buffer, bitsLeft, out, done, pending, CharToVal(s[i]).value);
    }
    assert s[..|s|] == s;
    GroupsAppend(done, pending, 8);
    assert Groups(pending, 8) == [];
  }

  /** The decoder's buffer stays below 2^12, so its shift never wraps. */
  lemma ShiftedStaysSmall(buffer: nat, bitsLeft: nat, val: nat)
    requires bitsLeft < 8 && buffer < Pow2(bitsLeft) && val < 32
    ensures (buffer * 32 + val) % TWO32 == buffer * 32 + val < Pow2(bitsLeft + 5)
  {
    var x := buffer * 32 + val;
    assert x < Pow2(bitsLeft + 5) by {
      Pow2Add(bitsLeft, 5);
      assert Pow2(5) == 32;
    }
    Pow2AtMostTwo32(bitsLeft + 5);
    DivModOfDecomposition(x, TWO32, 0, x);
  }

  lemma Pow2AtMostTwo32(n: nat)
    requires n <= 32
    ensures Pow2(n) <= TWO32
  {
    Pow2Add(n, 32 - n);
    Pow2Values();
  }

  // ---------------------------------------------------------------------
  // Round trip

  /** The k-bit strings of the values, front to back. */
  function Spread(vals: seq<nat>, k: nat): (r: seq<bool>)
    ensures vals == [] ==> r == []
  {
    if vals == [] then [] else NatBits(vals[0], k) + Spread(vals[1..], k)
  }

  lemma {:induction false} SpreadAppend(a: seq<nat>, b: seq<nat>, k: nat)
    ensures Spread(a + b, k) == Spread(a, k) + Spread(b, k)
  {
    if a == [] {
      assert a + b == b;
    } else {
      assert (a + b)[1..] == a[1..] + b;
      SpreadAppend(a[1..], b, k);
    }
  }

  lemma {:induction false} SymbolsAt(vals: seq<nat>)
    requires forall j :: 0 <= j < |vals| ==> vals[j] < 32
    ensures forall j :: 0 <= j < |vals| ==> Symbols(vals)[j] == ALPHABET[vals[j]]
  {
    if vals != [] {
      SymbolsAt(vals[..|vals| - 1]);
    }
  }

  /** The encoder writes upper-case alphabet characters only. */
  lemma SymbolsAreUpperAlphabet(vals: seq<nat>)
    requires forall j :: 0 <= j < |vals| ==> vals[j] < 32
    ensures AllSymbols(Symbols(vals))
    ensures forall j :: 0 <= j < |vals| ==> !IsLower(Symbols(vals)[j])
  {
    SymbolsAt(vals);
    AlphabetLayout();
    forall j | 0 <= j < |vals|
      ensures CharToVal(Symbols(vals)[j]).Some? && !IsLower(Symbols(vals)[j])
    {
      CharToValOfSymbol(vals[j]);
    }
  }

  /** Reading the symbols back gives five bits per value. */
  lemma {:induction false} SymbolBitsOfSymbols(vals: seq<nat>)
    requires forall j :: 0 <= j < |vals| ==> vals[j] < 32
    ensures AllSymbols(Symbols(vals))
    ensures SymbolBits(Symbols(vals)) == Spread(vals, 5)
  {
    if vals != [] {
      var n := |vals|;
      SnocSplit(vals);
      SpreadAppend(vals[..n - 1], [vals[n - 1]], 5);
      SymbolBitsOfSymbols(vals[..n - 1]);
      assert Symbols(vals)[..n - 1] == Symbols(vals[..n - 1]);
      CharToValOfSymbol(vals[n - 1]);
    }
    SymbolsAreUpperAlphabet(vals);
  }

  lemma AppendAssoc<T>(a: seq<T>, b: seq<T>, c: seq<T>)
    ensures (a + b) + c == a + (b + c)
  {
  }

  /** Moving the first k elements of the second part across the join. */
  lemma MoveAcross<T>(a: seq<T>, b: seq<T>, k: nat)
    requires k <= |b|
    ensures (a + b[..k]) + b[k..] == a + b
  {
    assert b == b[..k] + b[k..];
  }

  lemma SnocSplit<T>(s: seq<T>)
    requires s != []
    ensures s == s[..|s| - 1] + [s[|s| - 1]]
  {
  }

  lemma SliceSplit<T>(s: seq<T>, k: nat, e: nat)
    requires k <= e <= |s|
    ensures s[..e] == s[..k] + s[k..][..e - k]
  {
  }

  /** The bits of the whole k-bit groups are the bits up to the last whole group. */
  lemma {:induction false} SpreadGroups(bits: seq<bool>, k: nat)
    requires k > 0
    ensures Spread(Groups(bits, k), k) == bits[..|bits| - |bits| % k]
    decreases |bits|
  {
    if |bits| < k {
      DivModOfDecomposition(|bits|, k, 0, |bits|);
    } else {
      SpreadGroups(bits[k..], k);
      DivStep(|bits|, k);
      NatBitsOfVal(bits[..k]);
      var g := Groups(bits, k);
      assert g[0] == Val(bits[..k]) && g[1..] == Groups(bits[k..], k);
      SliceSplit(bits, k, |bits| - |bits| % k);
    }
  }

  /** The bits of the encoding's symbols are the data's bits followed by the
      zero bits that pad the last symbol. */
  lemma SpreadQuintets(bits: seq<bool>)
    ensures Spread(Quintets(bits), 5) == bits + Zeros((5 - |bits| % 5) % 5)
  {
    ModComplement(|bits|, 5);
    if |bits| % 5 == 0 {
      SpreadWholeQuintets(bits);
    } else {
      SpreadPaddedQuintets(bits);
    }
  }

  lemma SpreadWholeQuintets(bits: seq<bool>)
    requires |bits| % 5 == 0
    ensures Spread(Quintets(bits), 5) == bits + Zeros(0)
  {
    SpreadGroups(bits, 5);
    assert Quintets(bits) == Groups(bits, 5);
    assert bits[..|bits|] == bits + Zeros(0);
  }

  lemma SpreadPaddedQuintets(bits: seq<bool>)
    requires |bits| % 5 != 0
    ensures Spread(Quintets(bits), 5) == bits + Zeros(5 - |bits| % 5)
  {
    var whole := |bits| - |bits| % 5;
    var t := bits[whole..];
    var pad := Zeros(5 - |bits| % 5);
    assert |t| == |bits| % 5;
    calc {
      Spread(Quintets(bits), 5);
      { QuintetsWithPadding(bits, whole); }
      Spread(Groups(bits, 5) + [Padded(t)], 5);
      { SpreadGroups(bits, 5);
        SpreadSnoc(Groups(bits, 5), Padded(t), bits[..whole], t + pad, 5); }
      bits[..whole] + (t + pad);
      { AppendAssoc(bits[..whole], t, pad); }
      (bits[..whole] + t) + pad;
      { assert bits[..whole] + t == bits; }
      bits + pad;
    }
  }

  /** One more value adds its k bits at the end. */
  lemma SpreadSnoc(vals: seq<nat>, x: nat, head: seq<bool>, u: seq<bool>, k: nat)
    requires Spread(vals, k) == head && |u| == k && x == Val(u)
    ensures Spread(vals + [x], k) == head + u
  {
    SpreadAppend(vals, [x], k);
    assert Spread([x], k) == NatBits(x, k);
    NatBitsOfVal(u);
  }

  /** Bytes regrouped from their own bits are the bytes. */
  lemma {:induction false} GroupsOfBits(bytes: seq<byte>)
    ensures Groups(Bits(bytes), 8) == bytes
  {
    if bytes != [] {
      var n := |bytes|;
      var init, last := bytes[..n - 1], bytes[n - 1];
      calc {
        Groups(Bits(bytes), 8);
        Groups(Bits(init) + NatBits(last, 8), 8);
        { assert |Bits(init)| % 8 == 0 by {
            DivModOfDecomposition(8 * (n - 1), 8, n - 1, 0);
          }
          GroupsAppend(Bits(init), NatBits(last, 8), 8); }
        Groups(Bits(init), 8) + Groups(NatBits(last, 8), 8);
        { GroupsOfBits(init); ByteGroup(last); }
        init + [last];
        { SnocSplit(bytes); }
        bytes;
      }
    }
  }

  /** The eight bits of a byte make one group, the byte itself. */
  lemma ByteGroup(b: byte)
    ensures Groups(NatBits(b, 8), 8) == [b]
  {
    Pow2Values();
    GroupsOfOne(NatBits(b, 8), 8);
    ValOfNatBits(b, 8);
    DivModOfDecomposition(b, 0x100, 0, b);
  }

  /** Fewer than eight zero bits after whole bytes make no byte. */
  lemma PaddingDropped(bytes: seq<byte>, p: nat)
    requires p < 8
    ensures Groups(Bits(bytes) + Zeros(p), 8) == Groups(Bits(bytes), 8)
  {
    DivModOfDecomposition(|Bits(bytes)|, 8, |bytes|, 0);
    GroupsAppend(Bits(bytes), Zeros(p), 8);
    assert Groups(Zeros(p), 8) == [];
  }

  /** Every character of an encoding is in the alphabet, so no dash and no
      lower-case letter appears in it. */
  lemma EncodeAlphabet(bytes: seq<byte>)
    ensures AllSymbols(Encode(bytes))
    ensures '-' !in Encode(bytes)
    ensures forall j :: 0 <= j < |Encode(bytes)| ==> !IsLower(Encode(bytes)[j])
  {
    var e := Encode(bytes);
    SymbolsAreUpperAlphabet(Quintets(Bits(bytes)));
  }

  /** Decoding undoes encoding: `fromBase32(toBase32(x))` is x. */
  lemma DecodeEncode(bytes: seq<byte>)
    ensures Decode(Encode(bytes)) == Ok(bytes)
  {
    if bytes == [] {
      EncodeEmpty();
    } else {
      var bits := Bits(bytes);
      var s := Encode(bytes);
      EncodeLength(bytes);
      SymbolsAreUpperAlphabet(Quintets(bits));
      SymbolBitsOfSymbols(Quintets(bits));
      SpreadQuintets(bits);
      ModComplement(|bits|, 5);
      PaddingDropped(bytes, (5 - |bits| % 5) % 5);
      GroupsOfBits(bytes);
      assert FirstInvalid(s, 0) == |s|;
    }
  }

  /** Different data never share an encoding. */
  lemma EncodeInjective(a: seq<byte>, b: seq<byte>)
    ensures Encode(a) == Encode(b) ==> a == b
  {
    DecodeEncode(a);
    DecodeEncode(b);
  }

  /** Eight bits of data become eight fifths of a symbol, rounded up. */
  lemma EncodeLength(bytes: seq<byte>)
    ensures |Encode(bytes)| == (8 * |bytes| + 4) / 5
  {
    Pow2Values();
    GroupsLength(Bits(bytes), 5);
    CeilDiv(8 * |bytes|, 5);
  }

  lemma QuintetsWithPadding(bits: seq<bool>, whole: nat)
    requires whole == |bits| - |bits| % 5 < |bits|
    ensures Quintets(bits) == Groups(bits, 5) + [Padded(bits[whole..])]
  {
  }

  lemma OneByteSymbols(b: byte, hi: seq<bool>, lo: seq<bool>)
    requires |hi| == 5 && |lo| == 3 && NatBits(b, 8) == hi + lo
    ensures Encode([b]) == [ALPHABET[Val(hi)], ALPHABET[Val(lo + Zeros(2))]]
  {
    var bits := Bits([b]);
    assert bits == hi + lo by {
      assert [b][..0] == [];
    }
    var q := Quintets(bits);
    assert q == [Val(hi), Padded(lo)] by {
      OneByteQuintets(hi, lo);
    }
    assert Symbols(q) == [ALPHABET[Val(hi)], ALPHABET[Padded(lo)]] by {
      SymbolsPair(Val(hi), Padded(lo));
    }
  }

  lemma OneByteQuintets(hi: seq<bool>, lo: seq<bool>)
    requires |hi| == 5 && |lo| == 3
    ensures Quintets(hi + lo) == [Val(hi), Padded(lo)]
  {
    GroupsOfHead(hi, lo);
    assert (hi + lo)[5..] == lo;
    QuintetsWithPadding(hi + lo, 5);
  }

  /** Five bits and fewer than five more make one whole group. */
  lemma GroupsOfHead(hi: seq<bool>, lo: seq<bool>)
    requires |hi| == 5 && |lo| < 5
    ensures Groups(hi + lo, 5) == [Val(hi)]
  {
    GroupsAppend(hi, lo, 5);
    GroupsOfOne(hi, 5);
    assert Groups(lo, 5) == [];
  }

  lemma SymbolsPair(x: nat, y: nat)
    requires x < 32 && y < 32
    ensures Symbols([x, y]) == [ALPHABET[x], ALPHABET[y]]
  {
    assert [x, y][..1] == [x];
    assert [x][..0] == [];
  }

  /** A single byte becomes two symbols: its top five bits, then its low
      three bits followed by two zero bits. */
  lemma EncodeOneByte(b: byte)
    ensures Encode([b]) == [ALPHABET[b / 8], ALPHABET[b % 8 * 4]]
  {
    var bits := NatBits(b, 8);
    var hi, lo := bits[..5], bits[5..];
    assert bits == hi + lo;
    OneByteSymbols(b, hi, lo);
    assert |lo| == 3;
    assert Val(bits) == b by {
      ValOfNatBits(b, 8);
      Pow2Values();
      DivModOfDecomposition(b, 0x100, 0, b);
    }
    var h, l := Val(hi), Val(lo);
    assert b == 8 * h + l && l < 8 by {
      ValConcat(hi, lo);
      assert Pow2(3) == 8;
    }
    DivModOfDecomposition(b, 8, h, l);
    assert Val(lo + Zeros(2)) == b % 8 * 4 by {
      ValConcat(lo, Zeros(2));
      ZerosValue(2);
      assert Pow2(2) == 4;
    }
  }

  /** Test vector of RFC 4648 (section 10), without the padding. */
  lemma EncodeVector()
    ensures Encode([0x66]) == "MY"
  {
    EncodeOneByte(0x66);
    assert ALPHABET[12] == 'M' && ALPHABET[24] == 'Y';
  }

  /** The bits of a two-symbol text. */
  lemma PairBits(v0: nat, v1: nat)
    requires v0 < 32 && v1 < 32
    ensures AllSymbols([ALPHABET[v0], ALPHABET[v1]])
    ensures SymbolBits([ALPHABET[v0], ALPHABET[v1]]) == NatBits(v0, 5) + NatBits(v1, 5)
  {
    var s := [ALPHABET[v0], ALPHABET[v1]];
    CharToValOfSymbol(v0);
    CharToValOfSymbol(v1);
    assert s[..1] == [ALPHABET[v0]] && [ALPHABET[v0]][..0] == [];
  }

  /** Ten bits make one whole byte: the five bits of v0 and the top three
      of v1. */
  lemma PairOctet(v0: nat, v1: nat)
    requires v0 < 32 && v1 < 32
    ensures Octets(NatBits(v0, 5) + NatBits(v1, 5)) == [v0 * 8 + v1 / 4]
  {
    var bits := NatBits(v0, 5) + NatBits(v1, 5);
    var q := v1 / 4;
    assert NatBits(v1, 5)[..3] == NatBits(q, 3) by {
      assert NatBits(v1, 5) == NatBits(v1 / 2 / 2, 3) + [v1 / 2 % 2 == 1] + [v1 % 2 == 1];
      assert v1 / 2 / 2 == q;
    }
    assert bits[..8] == NatBits(v0, 5) + NatBits(q, 3);
    assert Val(NatBits(v0, 5)) == v0 by {
      ValOfNatBits(v0, 5);
      assert Pow2(5) == 32;
      DivModOfDecomposition(v0, 32, 0, v0);
    }
    assert Val(NatBits(q, 3)) == q by {
      ValOfNatBits(q, 3);
      assert Pow2(3) == 8;
      DivModOfDecomposition(q, 8, 0, q);
    }
    assert Val(bits[..8]) == v0 * 8 + q by {
      ValConcat(NatBits(v0, 5), NatBits(q, 3));
      assert Pow2(3) == 8;
    }
    assert Groups(bits[8..], 8) == [];
  }

  /** Two symbols carry ten bits: the first eight make one byte and the
      low two bits of the second symbol are dropped without a check, so
      "AB", which no encoder writes, reads as the byte 0 just like "AA". */
  lemma DecodeTwoSymbols(v0: nat, v1: nat)
    requires v0 < 32 && v1 < 32
    ensures Decode([ALPHABET[v0], ALPHABET[v1]]) == Ok([v0 * 8 + v1 / 4])
  {
    PairBits(v0, v1);
    PairOctet(v0, v1);
  }

  /** A symbol value with two low zero bits after a whole one is the
      encoding of one byte. */
  lemma EncodeTwoSymbols(v0: nat, w: nat)
    requires v0 < 32 && w < 32 && w % 4 == 0
    ensures Encode([v0 * 8 + w / 4]) == [ALPHABET[v0], ALPHABET[w]]
  {
    var q := w / 4;
    DivModSplit(w, 4);
    var b: byte := v0 * 8 + q;
    DivModOfDecomposition(b, 8, v0, q);
    EncodeOneByte(b);
  }
}
