/** Little- and big-endian readers and writers over byte arrays.
    A read past the end of the array sees JavaScript's `undefined`, which the
    bitwise operators treat as 0; a write past the end of a typed array is
    dropped. Both behaviours are modelled explicitly. */
module Endian {
  import opened Words

  /** The byte at index i, or 0 where the source would read `undefined`. */
  function At(bs: seq<byte>, i: int): (r: byte)
    ensures 0 <= i < |bs| ==> r == bs[i]
    ensures !(0 <= i < |bs|) ==> r == 0
  {
    if 0 <= i < |bs| then bs[i] else 0
  }

  function U32LE(bs: seq<byte>, o: int): (r: u32)
  {
    At(bs, o) + 0x100 * At(bs, o + 1) + 0x1_0000 * At(bs, o + 2) + 0x100_0000 * At(bs, o + 3)
  }

  function U32BE(bs: seq<byte>, o: int): (r: u32)
  {
    0x100_0000 * At(bs, o) + 0x1_0000 * At(bs, o + 1) + 0x100 * At(bs, o + 2) + At(bs, o + 3)
  }

  function U16LE(bs: seq<byte>, o: int): (r: u16)
  {
    At(bs, o) + 0x100 * At(bs, o + 1)
  }

  function U16BE(bs: seq<byte>, o: int): (r: u16)
  {
    0x100 * At(bs, o) + At(bs, o + 1)
  }

  /** Byte k (0 = least significant) of `value >>> 0`; this is also what
      `value & 0xFF` and `(value >>> 8*k) & 0xFF` give on an integral number. */
  function ByteOf(v: int, k: nat): (r: byte)
    requires k < 4
  {
    var w := Mask32(v);
    if k == 0 then w % 0x100
    else if k == 1 then (w / 0x100) % 0x100
    else if k == 2 then (w / 0x1_0000) % 0x100
    else w / 0x100_0000
  }

  /** The four bytes of a word, least significant first, recombine to the word. */
  lemma ByteOfRecombines(v: int)
    ensures ByteOf(v, 0) + 0x100 * ByteOf(v, 1) + 0x1_0000 * ByteOf(v, 2)
            + 0x100_0000 * ByteOf(v, 3) == Mask32(v)
  {
    var w := Mask32(v);
    var q1 := w / 0x100;
    var q2 := q1 / 0x100;
    var q3 := q2 / 0x100;
    DivModSplit(w, 0x100);
    DivModSplit(q1, 0x100);
    DivModSplit(q2, 0x100);
    var b0, b1, b2 := w % 0x100, q1 % 0x100, q2 % 0x100;
    assert w == 0x1_0000 * q2 + (0x100 * b1 + b0);
    DivModOfDecomposition(w, 0x1_0000, q2, 0x100 * b1 + b0);
    assert w == 0x100_0000 * q3 + (0x1_0000 * b2 + 0x100 * b1 + b0);
    DivModOfDecomposition(w, 0x100_0000, q3, 0x1_0000 * b2 + 0x100 * b1 + b0);
  }

  /** The low two bytes of a number recombine to its 16-bit residue. */
  lemma ByteOfRecombines16(v: int)
    ensures ByteOf(v, 0) + 0x100 * ByteOf(v, 1) == Mask16(v)
  {
    var w := Mask32(v);
    var lo, q := w % 0x100, w / 0x100;
    var mid, hi := q % 0x100, q / 0x100;
    assert v == TWO16 * (hi + TWO16 * (v / TWO32)) + (0x100 * mid + lo);
    DivModOfDecomposition(v, TWO16, hi + TWO16 * (v / TWO32), 0x100 * mid + lo);
  }

  /** The little-endian encoding of `value >>> 0`. */
  function LE32(v: int): (r: seq<byte>)
    ensures |r| == 4 && U32LE(r, 0) == Mask32(v)
  {
    ByteOfRecombines(v);
    [ByteOf(v, 0), ByteOf(v, 1), ByteOf(v, 2), ByteOf(v, 3)]
  }

  /** The little-endian encoding of `value & 0xFFFF`. */
  function LE16(v: int): (r: seq<byte>)
    ensures |r| == 2 && U16LE(r, 0) == Mask16(v)
  {
    ByteOfRecombines16(v);
    [ByteOf(v, 0), ByteOf(v, 1)]
  }

  /** s with the bytes of `vals` written from offset o on; writes that fall
      outside the sequence are dropped, as a typed array drops them. */
  function Put(s: seq<byte>, o: int, vals: seq<byte>): (r: seq<byte>)
    ensures |r| == |s|
    ensures forall i :: 0 <= i < |s| && !(o <= i < o + |vals|) ==> r[i] == s[i]
    ensures forall i :: 0 <= i < |s| && o <= i < o + |vals| ==> r[i] == vals[i - o]
  {
    seq(|s|, i requires 0 <= i < |s| => if o <= i < o + |vals| then vals[i - o] else s[i])
  }

  function PutU32LE(s: seq<byte>, o: int, v: int): (r: seq<byte>)
  {
    Put(s, o, LE32(v))
  }

  function PutU32BE(s: seq<byte>, o: int, v: int): (r: seq<byte>)
  {
    Put(s, o, [ByteOf(v, 3), ByteOf(v, 2), ByteOf(v, 1), ByteOf(v, 0)])
  }

  function PutU16LE(s: seq<byte>, o: int, v: int): (r: seq<byte>)
  {
    Put(s, o, [ByteOf(v, 0), ByteOf(v, 1)])
  }

  function PutU16BE(s: seq<byte>, o: int, v: int): (r: seq<byte>)
  {
    Put(s, o, [ByteOf(v, 1), ByteOf(v, 0)])
  }

  /** setU32LE: writes the four bytes of v, least significant first. */
  method SetU32LE(a: array<byte>, o: int, v: int)
    modifies a
    ensures a[..] == PutU32LE(old(a[..]), o, v)
  {
    ghost var s := a[..];
    var k := 0;
    while k < 4
      invariant 0 <= k <= 4
      invariant a[..] == Put(s, o, LE32(v)[..k])
    {
      if 0 <= o + k < a.Length {
        a[o + k] := ByteOf(v, k);
      }
      k := k + 1;
    }
    assert LE32(v)[..4] == LE32(v);
  }

  /** setU32BE: writes the four bytes of v, most significant first. */
  method SetU32BE(a: array<byte>, o: int, v: int)
    modifies a
    ensures a[..] == PutU32BE(old(a[..]), o, v)
  {
    ghost var s := a[..];
    ghost var vals := [ByteOf(v, 3), ByteOf(v, 2), ByteOf(v, 1), ByteOf(v, 0)];
    var k := 0;
    while k < 4
      invariant 0 <= k <= 4
      invariant a[..] == Put(s, o, vals[..k])
    {
      if 0 <= o + k < a.Length {
        a[o + k] := ByteOf(v, 3 - k);
      }
      k := k + 1;
    }
    assert vals[..4] == vals;
  }

  /** setU16LE: writes the low two bytes of v, least significant first. */
  method SetU16LE(a: array<byte>, o: int, v: int)
    modifies a
    ensures a[..] == PutU16LE(old(a[..]), o, v)
  {
    if 0 <= o < a.Length {
      a[o] := ByteOf(v, 0);
    }
    if 0 <= o + 1 < a.Length {
      a[o + 1] := ByteOf(v, 1);
    }
  }

  /** setU16BE: writes the low two bytes of v, most significant first. */
  method SetU16BE(a: array<byte>, o: int, v: int)
    modifies a
    ensures a[..] == PutU16BE(old(a[..]), o, v)
  {
    if 0 <= o < a.Length {
      a[o] := ByteOf(v, 1);
    }
    if 0 <= o + 1 < a.Length {
      a[o + 1] := ByteOf(v, 0);
    }
  }

  /** Reading back a little-endian word where it was written gives v mod 2^32. */
  lemma ReadAfterWriteU32LE(s: seq<byte>, o: int, v: int)
    requires 0 <= o && o + 4 <= |s|
    ensures U32LE(PutU32LE(s, o, v), o) == Mask32(v)
  {
    var r := PutU32LE(s, o, v);
    assert r[o..o + 4] == LE32(v);
    assert At(r, o) == At(LE32(v), 0) && At(r, o + 1) == At(LE32(v), 1);
    assert At(r, o + 2) == At(LE32(v), 2) && At(r, o + 3) == At(LE32(v), 3);
  }

  lemma ReadAfterWriteU32BE(s: seq<byte>, o: int, v: int)
    requires 0 <= o && o + 4 <= |s|
    ensures U32BE(PutU32BE(s, o, v), o) == Mask32(v)
  {
    ByteOfRecombines(v);
  }

  lemma ReadAfterWriteU16LE(s: seq<byte>, o: int, v: int)
    requires 0 <= o && o + 2 <= |s|
    ensures U16LE(PutU16LE(s, o, v), o) == Mask16(v)
  {
    ByteOfRecombines16(v);
  }

  lemma ReadAfterWriteU16BE(s: seq<byte>, o: int, v: int)
    requires 0 <= o && o + 2 <= |s|
    ensures U16BE(PutU16BE(s, o, v), o) == Mask16(v)
  {
    ByteOfRecombines16(v);
  }

  /** A big-endian read of four bytes is a little-endian read of the same bytes reversed. */
  lemma BigEndianIsReversedLittleEndian(b0: byte, b1: byte, b2: byte, b3: byte)
    ensures U32BE([b0, b1, b2, b3], 0) == U32LE([b3, b2, b1, b0], 0)
  {
  }

  /** Four bytes put together least significant first split back into
      the same four bytes. */
  lemma WordOfBytes(b0: byte, b1: byte, b2: byte, b3: byte)
    ensures var w := b0 + 0x100 * b1 + 0x1_0000 * b2 + 0x100_0000 * b3;
            ByteOf(w, 0) == b0 && ByteOf(w, 1) == b1 && ByteOf(w, 2) == b2 && ByteOf(w, 3) == b3
  {
    var w := b0 + 0x100 * b1 + 0x1_0000 * b2 + 0x100_0000 * b3;
    Mask32Identity(w);
    DivModOfDecomposition(w, 0x100, b1 + 0x100 * b2 + 0x1_0000 * b3, b0);
    DivModOfDecomposition(b1 + 0x100 * b2 + 0x1_0000 * b3, 0x100, b2 + 0x100 * b3, b1);
    DivModOfDecomposition(w, 0x1_0000, b2 + 0x100 * b3, b0 + 0x100 * b1);
    DivModOfDecomposition(b2 + 0x100 * b3, 0x100, b3, b2);
    DivModOfDecomposition(w, 0x100_0000, b3, b0 + 0x100 * b1 + 0x1_0000 * b2);
  }

  /** `u32LE` puts the byte at o + k into byte k of the word. */
  lemma U32LEBytes(bs: seq<byte>, o: int)
    ensures forall k :: 0 <= k < 4 ==> ByteOf(U32LE(bs, o), k) == At(bs, o + k)
  {
    WordOfBytes(At(bs, o), At(bs, o + 1), At(bs, o + 2), At(bs, o + 3));
  }

  /** `u32BE` puts the byte at o + 3 - k into byte k of the word. */
  lemma U32BEBytes(bs: seq<byte>, o: int)
    ensures forall k :: 0 <= k < 4 ==> ByteOf(U32BE(bs, o), k) == At(bs, o + 3 - k)
  {
    WordOfBytes(At(bs, o + 3), At(bs, o + 2), At(bs, o + 1), At(bs, o));
  }

  /** `u16LE` puts the byte at o low and the byte at o + 1 high. */
  lemma U16LEBytes(bs: seq<byte>, o: int)
    ensures ByteOf(U16LE(bs, o), 0) == At(bs, o) && ByteOf(U16LE(bs, o), 1) == At(bs, o + 1)
    ensures ByteOf(U16LE(bs, o), 2) == 0 && ByteOf(U16LE(bs, o), 3) == 0
  {
    WordOfBytes(At(bs, o), At(bs, o + 1), 0, 0);
  }

  /** `u16BE` puts the byte at o high and the byte at o + 1 low. */
  lemma U16BEBytes(bs: seq<byte>, o: int)
    ensures ByteOf(U16BE(bs, o), 1) == At(bs, o) && ByteOf(U16BE(bs, o), 0) == At(bs, o + 1)
    ensures ByteOf(U16BE(bs, o), 2) == 0 && ByteOf(U16BE(bs, o), 3) == 0
  {
    WordOfBytes(At(bs, o + 1), At(bs, o), 0, 0);
  }

  /** Four bytes inside s read the same once more bytes follow s. */
  lemma U32LEOfPrefix(s: seq<byte>, t: seq<byte>, o: int)
    requires 0 <= o && o + 4 <= |s|
    ensures U32LE(s + t, o) == U32LE(s, o)
  {
  }

  /** A word appended to s reads back from offset |s|. */
  lemma U32LEOfSuffix(s: seq<byte>, t: seq<byte>)
    requires |t| == 4
    ensures U32LE(s + t, |s|) == U32LE(t, 0)
  {
  }

  lemma U16LEOfSuffix(s: seq<byte>, t: seq<byte>)
    requires |t| == 2
    ensures U16LE(s + t, |s|) == U16LE(t, 0)
  {
  }

  /** The words one after the other, each as its four little-endian bytes. */
  function PackLE(ws: seq<int>): (r: seq<byte>)
    ensures |r| == 4 * |ws|
  {
    if ws == [] then [] else PackLE(ws[..|ws| - 1]) + LE32(ws[|ws| - 1])
  }

  /** Packing one more word appends its four bytes. */
  lemma PackLESnoc(ws: seq<int>, k: nat)
    requires k < |ws|
    ensures PackLE(ws[..k + 1]) == PackLE(ws[..k]) + LE32(ws[k])
  {
    assert ws[..k + 1][..k] == ws[..k];
  }

  /** Word i of a packed sequence reads back, after any prefix, as that word
      modulo 2^32. */
  lemma {:induction false} PackLEReadBack(prefix: seq<byte>, ws: seq<int>, i: nat, o: int)
    requires i < |ws| && o == |prefix| + 4 * i
    ensures U32LE(prefix + PackLE(ws), o) == Mask32(ws[i])
  {
    var n := |ws| - 1;
    var front := prefix + PackLE(ws[..n]);
    assert prefix + PackLE(ws) == front + LE32(ws[n]);
    if i == n {
      U32LEOfSuffix(front, LE32(ws[n]));
    } else {
      U32LEOfPrefix(front, LE32(ws[n]), o);
      PackLEReadBack(prefix, ws[..n], i, o);
    }
  }

  /** In `head ‖ words ‖ tail`, the head word reads back from offset 0... */
  lemma PackedHead(head: u32, words: seq<u32>, tail: seq<byte>)
    ensures U32LE(LE32(head) + PackLE(words) + tail, 0) == head
  {
    assert LE32(head) + PackLE(words) + tail == LE32(head) + (PackLE(words) + tail);
    U32LEOfPrefix(LE32(head), PackLE(words) + tail, 0);
    Mask32Identity(head);
  }

  /** ...word i from offset 4 + 4i... */
  lemma PackedWord(head: u32, words: seq<u32>, tail: seq<byte>, i: nat)
    requires i < |words|
    ensures U32LE(LE32(head) + PackLE(words) + tail, 4 + 4 * i) == words[i]
  {
    var body := LE32(head) + PackLE(words);
    assert U32LE(body + tail, 4 + 4 * i) == U32LE(body, 4 + 4 * i) by {
      U32LEOfPrefix(body, tail, 4 + 4 * i);
    }
    assert U32LE(body, 4 + 4 * i) == Mask32(words[i]) by {
      PackLEReadBack(LE32(head), words, i, 4 + 4 * i);
    }
    Mask32Identity(words[i]);
  }

  /** ...and a two-byte tail from offset 4 + 4|words|. */
  lemma PackedTail(head: u32, words: seq<u32>, tail: seq<byte>)
    requires |tail| == 2
    ensures U16LE(LE32(head) + PackLE(words) + tail, 4 + 4 * |words|) == U16LE(tail, 0)
  {
    U16LEOfSuffix(LE32(head) + PackLE(words), tail);
  }

  /** A head word, packed words and a 16-bit trailer read back from their
      offsets. */
  lemma PackedBlob(head: u32, words: seq<u32>, c: u16)
    ensures var b := LE32(head) + PackLE(words) + LE16(c);
            && |b| == 4 * |words| + 6
            && b[..|b| - 2] == LE32(head) + PackLE(words)
            && U32LE(b, 0) == head
            && U16LE(b, |b| - 2) == c
            && forall i :: 0 <= i < |words| ==> U32LE(b, 4 + 4 * i) == words[i]
  {
    var tail := LE16(c);
    var b := LE32(head) + PackLE(words) + tail;
    assert b[..|b| - 2] == LE32(head) + PackLE(words);
    PackedHead(head, words, tail);
    PackedTail(head, words, tail);
    Mask16Identity(c);
    forall i | 0 <= i < |words|
      ensures U32LE(b, 4 + 4 * i) == words[i]
    {
      PackedWord(head, words, tail, i);
    }
  }

  /** Writing a word at o, just after a prefix, extends the prefix by the word's bytes. */
  lemma PutExtends(s: seq<byte>, o: nat, v: int)
    requires o + 4 <= |s|
    ensures PutU32LE(s, o, v)[..o + 4] == s[..o] + LE32(v)
  {
  }

  /** toU32ArrayLE: one little-endian word per complete group of four bytes;
      one to three trailing bytes are ignored. */
  method ToU32ArrayLE(bs: seq<byte>) returns (out: seq<u32>)
    ensures |out| == |bs| / 4
    ensures forall j :: 0 <= j < |out| ==> out[j] == U32LE(bs, 4 * j)
  {
    out := [];
    var i := 0;
    while i + 3 < |bs|
      invariant 0 <= i && i % 4 == 0 && i <= |bs| + 3
      invariant i / 4 <= |bs| / 4
      invariant |out| == i / 4
      invariant forall j :: 0 <= j < |out| ==> out[j] == U32LE(bs, 4 * j)
    {
      out := out + [U32LE(bs, i)];
      i := i + 4;
    }
  }

  /** toU32ArrayBE: the big-endian counterpart. */
  method ToU32ArrayBE(bs: seq<byte>) returns (out: seq<u32>)
    ensures |out| == |bs| / 4
    ensures forall j :: 0 <= j < |out| ==> out[j] == U32BE(bs, 4 * j)
  {
    out := [];
    var i := 0;
    while i + 3 < |bs|
      invariant 0 <= i && i % 4 == 0 && i <= |bs| + 3
      invariant i / 4 <= |bs| / 4
      invariant |out| == i / 4
      invariant forall j :: 0 <= j < |out| ==> out[j] == U32BE(bs, 4 * j)
    {
      out := out + [U32BE(bs, i)];
      i := i + 4;
    }
  }
}
