/**
 * MD5 on the accelerator: the padded word of a number and its digest by the unrolled block function. The
 * table-driven block function beside it is a variant that nothing calls.
 */
module Md5Gpu {
  import Arith
  import opened Md5Spec
  import Md5Kernel
  import opened Md5Vector
  import opened Words

  // The table-driven variant writes the bitwise functions in other forms.

  lemma SecondForm(b: bv32, c: bv32, d: bv32)
    ensures (d & b) | (!d & c) == (b & d) | (c & !d)
  {
  }

  function FirstMix(b: Word, c: Word, d: Word): Word {
    Val((Bits(b) & Bits(c)) | (!Bits(b) & Bits(d)))
  }

  function SecondMix(b: Word, c: Word, d: Word): Word {
    Val((Bits(d) & Bits(b)) | (!Bits(d) & Bits(c)))
  }

  function ThirdMix(b: Word, c: Word, d: Word): Word {
    Val(Bits(b) ^ Bits(c) ^ Bits(d))
  }

  function FourthMix(b: Word, c: Word, d: Word): Word {
    Val(Bits(c) ^ (Bits(b) | !Bits(d)))
  }

  lemma ChoicesAgree(b: Word, c: Word, d: Word)
    ensures F(b, c, d) == FirstMix(b, c, d) && G(b, c, d) == SecondMix(b, c, d)
  {
    hide Val, Bits;
    SecondForm(Bits(b), Bits(c), Bits(d));
  }

  lemma OthersAgree(b: Word, c: Word, d: Word)
    ensures H(b, c, d) == ThirdMix(b, c, d) && I(b, c, d) == FourthMix(b, c, d)
  {
    hide Val, Bits;
  }

  lemma MixesAgree(r: Regs, i: nat)
    ensures Mix(r, i) == (if i < 16 then FirstMix(r.b, r.c, r.d) else if i < 32 then SecondMix(r.b, r.c, r.d)
                          else if i < 48 then ThirdMix(r.b, r.c, r.d) else FourthMix(r.b, r.c, r.d))
  {
    hide F, G, H, I, FirstMix, SecondMix, ThirdMix, FourthMix;
    ChoicesAgree(r.b, r.c, r.d);
    OthersAgree(r.b, r.c, r.d);
  }

  /** One step: the registers move on, and the new b takes in the mix f and the word number g. */
  method Step(i: nat, f: Word, g: nat, r: Regs, w: seq<Word>) returns (s: Regs)
    requires i < 64 && g < 16 && |w| == 16
    ensures s == Regs(r.d, Line(f, r.a, r.b, w[g], Turn(i), K(i)), r.b, r.c)
  {
    hide RotateLeft, Wrap, K, Turn;
    var a, b, c, d := r.a, r.b, r.c, r.d;
    var temp := d;
    d := c;
    c := b;
    b := Wrap(b + RotateLeft(Wrap(a + f + K(i) + w[g]), Turn(i)));
    a := temp;
    s := Regs(a, b, c, d);
    assert b == Line(f, r.a, r.b, w[g], Turn(i), K(i)) by {
      assert r.a + f + K(i) + w[g] == r.a + f + w[g] + K(i);
      assert r.b + RotateLeft(Wrap(r.a + f + w[g] + K(i)), Turn(i)) == RotateLeft(Wrap(r.a + f + w[g] + K(i)), Turn(i)) + r.b;
    }
  }

  /** The uncalled variant, too, is the block function from the initial registers. */
  method TableDriven(w: seq<Word>) returns (r: Regs)
    requires |w| == 16
    ensures r == Compress(INIT, w)
  {
    hide Steps, FirstMix, SecondMix, ThirdMix, FourthMix, Mix, Line, K, Turn;
    StepsStart(INIT, w);
    r := INIT;
    var i := 0;
    while i != 16
      invariant 0 <= i <= 16 && r == Steps(INIT, w, i)
    {
      MixesAgree(r, i);
      NextStep(INIT, w, i);
      r := Step(i, FirstMix(r.b, r.c, r.d), i, r, w);
      i := i + 1;
    }
    while i != 32
      invariant 16 <= i <= 32 && r == Steps(INIT, w, i)
    {
      MixesAgree(r, i);
      NextStep(INIT, w, i);
      r := Step(i, SecondMix(r.b, r.c, r.d), (5 * i + 1) % 16, r, w);
      i := i + 1;
    }
    while i != 48
      invariant 32 <= i <= 48 && r == Steps(INIT, w, i)
    {
      MixesAgree(r, i);
      NextStep(INIT, w, i);
      r := Step(i, ThirdMix(r.b, r.c, r.d), (3 * i + 5) % 16, r, w);
      i := i + 1;
    }
    while i != 64
      invariant 48 <= i <= 64 && r == Steps(INIT, w, i)
    {
      MixesAgree(r, i);
      NextStep(INIT, w, i);
      r := Step(i, FourthMix(r.b, r.c, r.d), (7 * i) % 16, r, w);
      i := i + 1;
    }
    r := Regs(Wrap(r.a + INIT.a), Wrap(r.b + INIT.b), Wrap(r.c + INIT.c), Wrap(r.d + INIT.d));
  }

  lemma StepsStart(r: Regs, w: seq<Word>)
    requires |w| == 16
    ensures Steps(r, w, 0) == r
  {
  }

  lemma NextStep(r: Regs, w: seq<Word>, i: nat)
    requires |w| == 16 && i < 64
    ensures var s := Steps(r, w, i);
            Steps(r, w, i + 1) == Regs(s.d, Line(Mix(s, i), s.a, s.b, w[Pick(i)], Turn(i), K(i)), s.b, s.c)
  {
    hide Mix, Line, K, Turn;
  }

  // From a number to a padded block.

  /** The alphabet: small letters, capitals, and the zero that ends the string. */
  function Letter(digit: nat): Byte
    requires digit <= NUM_OF_CHARS
  {
    if digit < 26 then 97 + digit else if digit < 52 then 65 + (digit - 26) else 0
  }

  /** The letters stand in their order, small ones first; behind the last one stands the zero. */
  lemma LetterIs(digit: nat)
    requires digit < 52
    ensures Letter(0) == 'a' as int && Letter(25) == 'z' as int && Letter(26) == 'A' as int && Letter(51) == 'Z' as int
    ensures digit != 25 && digit != 51 ==> Letter(digit + 1) == Letter(digit) + 1
    ensures Letter(52) == 0
  {
  }

  function Text(word: seq<nat>): (m: seq<Byte>)
    requires forall i :: 0 <= i < |word| ==> word[i] <= NUM_OF_CHARS
    ensures |m| == |word|
  {
    seq(|word|, i requires 0 <= i < |word| => Letter(word[i]))
  }

  /** The first k bytes of a word, low-order byte first. */
  function Packed(m: seq<Byte>, from: nat, k: nat): Word
    requires k <= 4 && from + k <= |m|
  {
    ToWord(if k > 0 then m[from] else 0, if k > 1 then m[from + 1] else 0,
           if k > 2 then m[from + 2] else 0, if k > 3 then m[from + 3] else 0)
  }

  function Shifted(byte: Byte, offset: nat): Word
    requires offset in {0, 8, 16, 24}
  {
    if offset == 0 then byte else if offset == 8 then byte * 0x100
    else if offset == 16 then byte * 0x1_0000 else byte * 0x100_0000
  }

  lemma PackOne(m: seq<Byte>, from: nat, k: nat)
    requires k < 4 && from + k < |m|
    ensures Packed(m, from, k) + Shifted(m[from + k], 8 * k) == Packed(m, from, k + 1)
  {
  }

  /** The block of a six-letter message. */
  function SixBlock(m: seq<Byte>): (w: seq<Word>)
    requires |m| == 6
    ensures |w| == 16
  {
    [Packed(m, 0, 4), ToWord(m[4], m[5], 0x80, 0)] + seq(12, _ => 0) + [48, 0]
  }

  lemma PaddedSix(m: seq<Byte>)
    requires |m| == 6
    ensures |Padded(m)| == 64 && Decode(Padded(m)) == SixBlock(m)
  {
    var p := Padded(m);
    var length := Encode(LengthWords(6));
    assert LengthWords(6) == [48, 0];
    assert length == [48, 0, 0, 0, 0, 0, 0, 0] by {
      assert length[0] == ByteOf(48, 0) && length[1] == ByteOf(48, 1) && length[2] == ByteOf(48, 2) && length[3] == ByteOf(48, 3);
      assert length[4] == ByteOf(0, 0) && length[5] == ByteOf(0, 1) && length[6] == ByteOf(0, 2) && length[7] == ByteOf(0, 3);
    }
    assert p == m + ([0x80] + Zeros(49)) + length;
    assert forall j :: 7 <= j < 56 ==> p[j] == 0;
    assert p[6] == 0x80 && p[56] == 48 && forall j :: 57 <= j < 64 ==> p[j] == 0;
    forall i | 0 <= i < 16 ensures Decode(p)[i] == SixBlock(m)[i] {
    }
  }

  /** The digits from here on, given the number that remains. */
  lemma DigitOf(n: nat, k: nat)
    requires k > 0 && n < Power(k)
    ensures var step := Power(k - 1);
            && n / step < NUM_OF_CHARS && n % step < step && n - n / step * step == n % step
            && Canonical(n, k) == [n / step] + Canonical(n % step, k - 1)
            && (n < step ==> n / step == 0 && n % step == n)
  {
    var step := Power(k - 1);
    Arith.DivMod(n, step);
    Arith.Commute(n / step, step);
    QuotientSmall(n, step, NUM_OF_CHARS);
    if n < step {
      ModSmall(n, step);
    }
  }

  function StepSize(i: nat): nat
    requires i < ORIGINAL_WORD_LENGTH
  {
    Power(ORIGINAL_WORD_LENGTH - 1 - i)
  }

  /** The letter index for position i, and what is left of the number; a number below the step has index 0. */
  method TakeDigit(n: nat, i: nat) returns (digit: nat, rest: nat)
    requires i < ORIGINAL_WORD_LENGTH && n < Power(ORIGINAL_WORD_LENGTH - i)
    ensures digit < NUM_OF_CHARS && rest < Power(ORIGINAL_WORD_LENGTH - 1 - i)
    ensures Canonical(n, ORIGINAL_WORD_LENGTH - i) == [digit] + Canonical(rest, ORIGINAL_WORD_LENGTH - 1 - i)
  {
    hide Power, Canonical;
    DigitOf(n, 6 - i);
    digit, rest := 0, n;
    if n >= StepSize(i) || i == ORIGINAL_WORD_LENGTH - 1 {
      digit := n / StepSize(i);
      rest := n - digit * StepSize(i);
    }
  }

  method NumberToPaddedWord(number: nat) returns (w: seq<Word>)
    requires number < Power(ORIGINAL_WORD_LENGTH)
    ensures Proper(Canonical(number, ORIGINAL_WORD_LENGTH))
    ensures w == SixBlock(Text(Canonical(number, ORIGINAL_WORD_LENGTH)))
  {
    CanonicalIs(number, 6);
    hide Power, Canonical, ToWord, Letter, Shifted, Value, Packed;
    ghost var m := Text(Canonical(number, 6));
    var word := new Word[16](_ => 0);
    var next := PackLetters(number, word, m);
    LastPacked(m);
    next := next + Shifted(0x80, 16);
    word[1] := next;
    Finish(word, 2);
    w := word[..];
    assert w[0] == word[..2][0] && w[1] == word[..2][1];
    assert w[2..14] == seq(12, _ => 0);
    SixBlockIs(w, m);
  }

  lemma SixBlockIs(w: seq<Word>, m: seq<Byte>)
    requires |m| == 6 && |w| == 16 && w[0] == Packed(m, 0, 4) && w[1] == ToWord(m[4], m[5], 0x80, 0)
    requires w[2..14] == seq(12, _ => 0) && w[14] == 48 && w[15] == 0
    ensures w == SixBlock(m)
  {
    hide Packed, ToWord;
    var b := SixBlock(m);
    forall i | 2 <= i < 14 ensures w[i] == b[i] {
      assert w[i] == w[2..14][i - 2];
    }
    assert forall i :: 0 <= i < 16 ==> w[i] == b[i];
  }

  /** Packs the letters into words; the last two are left over. */
  method PackLetters(number: nat, word: array<Word>, ghost m: seq<Byte>) returns (next: Word)
    requires number < Power(ORIGINAL_WORD_LENGTH) && word.Length == 16
    requires Proper(Canonical(number, ORIGINAL_WORD_LENGTH)) && m == Text(Canonical(number, ORIGINAL_WORD_LENGTH))
    modifies word
    ensures word[0] == Packed(m, 0, 4) && next == Packed(m, 4, 2)
  {
    hide Power, Canonical, ToWord, Letter, Shifted, Packed;
    ghost var all := Canonical(number, 6);
    var n: nat := number;
    next := 0;
    var dst, offset := 0, 0;
    PackNone(m);
    assert all[0..] == all;
    for i := 0 to ORIGINAL_WORD_LENGTH
      invariant n < Power(6 - i) && all[i..] == Canonical(n, 6 - i)
      invariant dst == i / 4 && offset == 8 * (i % 4) && next == Packed(m, 4 * dst, i % 4)
      invariant dst == 1 ==> word[0] == Packed(m, 0, 4)
    {
      var digit, rest := TakeDigit(n, i);
      assert all[i..][0] == all[i] && all[i..][1..] == all[i + 1..];
      assert all[i] == digit && all[i + 1..] == Canonical(rest, 5 - i);
      n := rest;
      PackOne(m, 4 * dst, i % 4);
      next, offset := next + Shifted(Letter(digit), offset), offset + 8;
      if offset > 24 {
        word[dst] := next;
        dst, offset, next := dst + 1, 0, 0;
        PackNone(m);
      }
    }
  }

  /** Zeros behind the message, then its length in bits. */
  method Finish(word: array<Word>, start: nat)
    requires word.Length == 16 && start <= 14
    modifies word
    ensures word[..start] == old(word[..start])
    ensures word[start..14] == seq(14 - start, _ => 0) && word[14] == ORIGINAL_WORD_LENGTH * 8 && word[15] == 0
  {
    var dst := start;
    while dst < 16
      invariant start <= dst <= 16 && word[..start] == old(word[..start])
      invariant forall j :: start <= j < dst ==> word[j] == 0
    {
      word[dst] := 0;
      dst := dst + 1;
    }
    word[14] := ORIGINAL_WORD_LENGTH * 8;
  }

  lemma PackNone(m: seq<Byte>)
    requires |m| >= 4
    ensures Packed(m, 0, 0) == 0 && Packed(m, 4, 0) == 0
  {
  }

  lemma LastPacked(m: seq<Byte>)
    requires |m| == 6
    ensures Packed(m, 4, 2) + Shifted(0x80, 16) == ToWord(m[4], m[5], 0x80, 0)
  {
  }

  /** The accelerator's digest of number n is the MD5 digest of the word of n. */
  method DigestOfNumber(number: nat) returns (digest: seq<Byte>)
    requires number < Power(ORIGINAL_WORD_LENGTH)
    ensures Proper(Canonical(number, ORIGINAL_WORD_LENGTH))
    ensures digest == Md5(Text(Canonical(number, ORIGINAL_WORD_LENGTH)))
  {
    hide Md5, Absorb, Compress, Digest, SixBlock, Canonical, Letter, Padded, Decode;
    var w := NumberToPaddedWord(number);
    var r := Md5Kernel.BlockDigest(w);
    ghost var m := Text(Canonical(number, ORIGINAL_WORD_LENGTH));
    PaddedSix(m);
    OneBlock(INIT, Padded(m));
    digest := Digest(r);
    DigestIs(m, r);
  }

  lemma OneBlock(r: Regs, p: seq<Byte>)
    requires |p| == 64
    ensures Absorb(r, p) == Compress(r, Decode(p))
  {
    hide Compress, Decode;
    assert p[..64] == p && p[64..] == [];
  }

  lemma DigestIs(m: seq<Byte>, r: Regs)
    requires r == Absorb(INIT, Padded(m))
    ensures Digest(r) == Md5(m)
  {
    hide Absorb, Digest;
  }

  // Both sides of the search.

  predicate Indices(word: seq<nat>) {
    forall i :: 0 <= i < |word| ==> word[i] <= NUM_OF_CHARS
  }

  /** The conversion never leaves the string that holds the alphabet. */
  lemma {:induction false} ConvertedIndices(n: nat, len: nat)
    requires len > 0 && n <= Power(len)
    ensures Indices(Converted(n, len))
    decreases len
  {
    if len == 1 {
      assert Power(1) == NUM_OF_CHARS * Power(0);
    } else {
      var step := Power(len - 1);
      if n <= step {
        ConvertedIndices(n, len - 1);
      } else {
        Arith.DivMod(n, step);
        ConvertedIndices(n % step, len - 1);
        QuotientSmall(n, step, NUM_OF_CHARS + 1);
      }
    }
  }

  lemma LettersDiffer(a: nat, b: nat)
    requires a <= NUM_OF_CHARS && b <= NUM_OF_CHARS && Letter(a) == Letter(b)
    ensures a == b
  {
  }

  /**
   * For a number n the processor, resuming there, and the accelerator hash the same message exactly if the
   * conversion is exact at n.
   */
  lemma SidesAgree(n: nat)
    requires n < Power(ORIGINAL_WORD_LENGTH)
    ensures Indices(Converted(n, ORIGINAL_WORD_LENGTH)) && Indices(Canonical(n, ORIGINAL_WORD_LENGTH))
    ensures Text(Converted(n, ORIGINAL_WORD_LENGTH)) == Text(Canonical(n, ORIGINAL_WORD_LENGTH))
            <==> !MeetsStep(n, ORIGINAL_WORD_LENGTH)
  {
    var a, b := Converted(n, ORIGINAL_WORD_LENGTH), Canonical(n, ORIGINAL_WORD_LENGTH);
    ConvertedIndices(n, ORIGINAL_WORD_LENGTH);
    CanonicalIs(n, ORIGINAL_WORD_LENGTH);
    ConvertedExact(n, ORIGINAL_WORD_LENGTH);
    if Text(a) == Text(b) {
      forall i | 0 <= i < |a| ensures a[i] == b[i] {
        assert Text(a)[i] == Text(b)[i];
        LettersDiffer(a[i], b[i]);
      }
      assert a == b;
    }
  }
}
