/**
 * The MD5 digest as in RFC 1321: padding (sections 3.1 and 3.2), the table-driven block function (section
 * 3.4), and the digest of a whole message.
 */
module Md5Spec {
  import Arith
  import opened Vector = Md5Vector

  const TWO_TO_32: nat := 0x1_0000_0000

  type Word = Vector.Word
  type Byte = x: int | 0 <= x < 0x100

  // Bitwise operations on words.

  function F(x: Word, y: Word, z: Word): Word {
    Val(Chosen(Bits(x), Bits(y), Bits(z)))
  }

  function G(x: Word, y: Word, z: Word): Word {
    Val((Bits(x) & Bits(z)) | (Bits(y) & !Bits(z)))
  }

  function H(x: Word, y: Word, z: Word): Word {
    Val(Parity(Bits(x), Bits(y), Bits(z)))
  }

  function I(x: Word, y: Word, z: Word): Word {
    Val(Bits(y) ^ (Bits(x) | !Bits(z)))
  }

  function RotateLeft(x: Word, n: nat): Word
    requires 0 < n < 32
  {
    Val(Rotated(Bits(x), n))
  }

  /** Sums wrap at 32 bits. */
  function Wrap(x: nat): Word {
    x % 0x1_0000_0000
  }

  // The tables.

  // The 64 additive constants, one table a round.
  const K1: seq<Word> := [
    0xd76aa478, 0xe8c7b756, 0x242070db, 0xc1bdceee,
    0xf57c0faf, 0x4787c62a, 0xa8304613, 0xfd469501,
    0x698098d8, 0x8b44f7af, 0xffff5bb1, 0x895cd7be,
    0x6b901122, 0xfd987193, 0xa679438e, 0x49b40821
  ]

  const K2: seq<Word> := [
    0xf61e2562, 0xc040b340, 0x265e5a51, 0xe9b6c7aa,
    0xd62f105d, 0x2441453,  0xd8a1e681, 0xe7d3fbc8,
    0x21e1cde6, 0xc33707d6, 0xf4d50d87, 0x455a14ed,
    0xa9e3e905, 0xfcefa3f8, 0x676f02d9, 0x8d2a4c8a
  ]

  const K3: seq<Word> := [
    0xfffa3942, 0x8771f681, 0x6d9d6122, 0xfde5380c,
    0xa4beea44, 0x4bdecfa9, 0xf6bb4b60, 0xbebfbc70,
    0x289b7ec6, 0xeaa127fa, 0xd4ef3085, 0x4881d05,
    0xd9d4d039, 0xe6db99e5, 0x1fa27cf8, 0xc4ac5665
  ]

  const K4: seq<Word> := [
    0xf4292244, 0x432aff97, 0xab9423a7, 0xfc93a039,
    0x655b59c3, 0x8f0ccc92, 0xffeff47d, 0x85845dd1,
    0x6fa87e4f, 0xfe2ce6e0, 0xa3014314, 0x4e0811a1,
    0xf7537e82, 0xbd3af235, 0x2ad7d2bb, 0xeb86d391
  ]

  function K(i: nat): Word
    requires i < 64
  {
    if i < 16 then K1[i] else if i < 32 then K2[i - 16] else if i < 48 then K3[i - 32] else K4[i - 48]
  }

  const R: seq<nat> := [7, 12, 17, 22, 5, 9, 14, 20, 4, 11, 16, 23, 6, 10, 15, 21]

  // The block function.

  datatype Regs = Regs(a: Word, b: Word, c: Word, d: Word)

  const INIT: Regs := Regs(0x67452301, 0xefcdab89, 0x98badcfe, 0x10325476)

  function Mix(r: Regs, i: nat): Word {
    if i < 16 then F(r.b, r.c, r.d)
    else if i < 32 then G(r.b, r.c, r.d)
    else if i < 48 then H(r.b, r.c, r.d)
    else I(r.b, r.c, r.d)
  }

  /** Which word of the block step i uses. */
  function Pick(i: nat): (g: nat)
    ensures g < 16
  {
    if i < 16 then i
    else if i < 32 then (5 * i + 1) % 16
    else if i < 48 then (3 * i + 5) % 16
    else (7 * i) % 16
  }

  function Turn(i: nat): (s: nat)
    requires i < 64
    ensures 0 < s < 32
  {
    R[i / 16 * 4 + i % 4]
  }

  function Line(mix: Word, a: Word, b: Word, x: Word, s: nat, ac: Word): Word
    requires 0 < s < 32
  {
    Wrap(RotateLeft(Wrap(a + mix + x + ac), s) + b)
  }

  function StepAt(r: Regs, w: seq<Word>, i: nat): Regs
    requires |w| == 16 && i < 64
  {
    Regs(r.d, Line(Mix(r, i), r.a, r.b, w[Pick(i)], Turn(i), K(i)), r.b, r.c)
  }

  /** The registers after the first n steps. */
  function Steps(r: Regs, w: seq<Word>, n: nat): Regs
    requires |w| == 16 && n <= 64
  {
    if n == 0 then r else StepAt(Steps(r, w, n - 1), w, n - 1)
  }

  function AddRegs(r: Regs, s: Regs): Regs {
    Regs(Wrap(r.a + s.a), Wrap(r.b + s.b), Wrap(r.c + s.c), Wrap(r.d + s.d))
  }

  /** Four rounds over the words of the block. */
  function Compress(r: Regs, w: seq<Word>): Regs
    requires |w| == 16
  {
    AddRegs(r, Steps(r, w, 4 * |w|))
  }

  // Bytes and words, low-order byte first.

  function ToWord(b0: Byte, b1: Byte, b2: Byte, b3: Byte): Word {
    b0 + 0x100 * (b1 + 0x100 * (b2 + 0x100 * b3))
  }

  function ByteOf(w: Word, k: nat): Byte
    requires k < 4
  {
    (if k == 0 then w else if k == 1 then w / 0x100 else if k == 2 then w / 0x1_0000 else w / 0x100_0000) % 0x100
  }

  function Decode(bytes: seq<Byte>): (w: seq<Word>)
    requires |bytes| % 4 == 0
    ensures |w| == |bytes| / 4
  {
    seq(|bytes| / 4, i requires 0 <= i < |bytes| / 4 =>
      ToWord(bytes[4 * i], bytes[4 * i + 1], bytes[4 * i + 2], bytes[4 * i + 3]))
  }

  function Encode(words: seq<Word>): (b: seq<Byte>)
    ensures |b| == 4 * |words|
  {
    seq(4 * |words|, j requires 0 <= j < 4 * |words| => ByteOf(words[j / 4], j % 4))
  }

  lemma WordOfBytes(w: Word)
    ensures ToWord(ByteOf(w, 0), ByteOf(w, 1), ByteOf(w, 2), ByteOf(w, 3)) == w
  {
    var q1 := w / 0x100;
    var q2 := q1 / 0x100;
    var q3 := q2 / 0x100;
    Arith.DivMod(w, 0x100);
    Arith.DivMod(q1, 0x100);
    Arith.DivMod(q2, 0x100);
    Arith.DivIs(w, 0x1_0000, q2);
    Arith.DivIs(w, 0x100_0000, q3);
    Arith.DivIs(q3, 0x100, 0);
  }

  lemma BytesOfWord(b0: Byte, b1: Byte, b2: Byte, b3: Byte)
    ensures var w := ToWord(b0, b1, b2, b3);
            ByteOf(w, 0) == b0 && ByteOf(w, 1) == b1 && ByteOf(w, 2) == b2 && ByteOf(w, 3) == b3
  {
    var w := ToWord(b0, b1, b2, b3);
    Arith.DivIs(w, 0x100, b1 + 0x100 * (b2 + 0x100 * b3));
    Arith.DivIs(b1 + 0x100 * (b2 + 0x100 * b3), 0x100, b2 + 0x100 * b3);
    Arith.DivIs(b2 + 0x100 * b3, 0x100, b3);
    Arith.DivIs(w, 0x1_0000, b2 + 0x100 * b3);
    Arith.DivIs(w, 0x100_0000, b3);
  }

  lemma Quarter(i: nat, k: nat)
    requires k < 4
    ensures (4 * i + k) / 4 == i && (4 * i + k) % 4 == k
  {
    Arith.DivIs(4 * i + k, 4, i);
  }

  lemma DecodeEncode(words: seq<Word>)
    ensures Decode(Encode(words)) == words
  {
    var b := Encode(words);
    hide ByteOf, ToWord;
    forall i | 0 <= i < |words| ensures Decode(b)[i] == words[i] {
      WordOfBytes(words[i]);
      Quarter(i, 0);
      Quarter(i, 1);
      Quarter(i, 2);
      Quarter(i, 3);
    }
  }

  lemma EncodeDecode(bytes: seq<Byte>)
    requires |bytes| % 4 == 0
    ensures Encode(Decode(bytes)) == bytes
  {
    hide Decode, Encode;
    forall j | 0 <= j < |bytes| ensures Encode(Decode(bytes))[j] == bytes[j] {
      EncodeDecodeAt(bytes, j);
    }
  }

  lemma EncodeDecodeAt(bytes: seq<Byte>, j: nat)
    requires |bytes| % 4 == 0 && j < |bytes|
    ensures Encode(Decode(bytes))[j] == bytes[j]
  {
    hide ByteOf, ToWord;
    var i, k := j / 4, j % 4;
    Arith.DivMod(j, 4);
    assert bytes[j] == bytes[4 * i + k];
    BytesOfWord(bytes[4 * i], bytes[4 * i + 1], bytes[4 * i + 2], bytes[4 * i + 3]);
    assert Encode(Decode(bytes))[j] == ByteOf(Decode(bytes)[i], k);
  }

  // Messages.

  function AbsorbBlock(r: Regs, block: seq<Byte>): Regs
    requires |block| == 64
  {
    Compress(r, Decode(block))
  }

  lemma OneBlockLess(n: nat)
    requires n % 64 == 0
    ensures n >= 64 ==> (n - 64) % 64 == 0
  {
  }

  /** A message that is a whole number of blocks. */
  function Absorb(r: Regs, m: seq<Byte>): Regs
    requires |m| % 64 == 0
    decreases |m|
  {
    hide AbsorbBlock;
    OneBlockLess(|m|);
    if |m| < 64 then r else Absorb(AbsorbBlock(r, m[..64]), m[64..])
  }

  lemma {:induction false} AbsorbConcat(r: Regs, a: seq<Byte>, b: seq<Byte>)
    requires |a| % 64 == 0 && |b| % 64 == 0
    ensures Absorb(r, a + b) == Absorb(Absorb(r, a), b)
    decreases |a|
  {
    hide AbsorbBlock;
    if a == [] {
      assert a + b == b;
    } else {
      assert (a + b)[..64] == a[..64] && (a + b)[64..] == a[64..] + b;
      AbsorbConcat(AbsorbBlock(r, a[..64]), a[64..], b);
    }
  }

  function Zeros(n: nat): (z: seq<Byte>)
    ensures |z| == n
  {
    seq(n, _ => 0)
  }

  /** The bit length mod 2^64, low-order word first. */
  function LengthWords(n: nat): (w: seq<Word>)
    ensures |w| == 2
  {
    [Wrap(8 * n), Wrap(8 * n / TWO_TO_32)]
  }

  lemma LengthIs(n: nat)
    ensures (LengthWords(n)[0] as int) + 0x1_0000_0000 * (LengthWords(n)[1] as int) == 8 * n % 0x1_0000_0000_0000_0000
  {
    var x := 8 * n;
    var q := x / 0x1_0000_0000;
    Arith.DivMod(x, 0x1_0000_0000);
    Arith.DivMod(q, 0x1_0000_0000);
    Arith.DivIs(x, 0x1_0000_0000_0000_0000, q / 0x1_0000_0000);
  }

  /** A one bit, then zeros until the length is 56 mod 64. */
  function Padding(n: nat): (p: seq<Byte>)
    ensures |p| > 0 && (n + |p|) % 64 == 56
  {
    var index := n % 64;
    [0x80] + Zeros(if index < 56 then 55 - index else 119 - index)
  }

  lemma PaddedLength(n: nat, p: nat)
    requires (n + p) % 64 == 56
    ensures (n + p + 8) % 64 == 0
  {
  }

  function Padded(m: seq<Byte>): (p: seq<Byte>)
    ensures |p| % 64 == 0
  {
    hide Encode, Padding, LengthWords;
    PaddedLength(|m|, |Padding(|m|)|);
    m + Padding(|m|) + Encode(LengthWords(|m|))
  }

  function Digest(r: Regs): seq<Byte> {
    Encode([r.a, r.b, r.c, r.d])
  }

  function Md5(m: seq<Byte>): seq<Byte> {
    Digest(Absorb(INIT, Padded(m)))
  }
}
