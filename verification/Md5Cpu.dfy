/** The MD5 digest on the CPU: the unrolled block function, and updates of any length. */
module Md5Cpu {
  import opened Md5Spec

  const S11 := 7
  const S12 := 12
  const S13 := 17
  const S14 := 22
  const S21 := 5
  const S22 := 9
  const S23 := 14
  const S24 := 20
  const S31 := 4
  const S32 := 11
  const S33 := 16
  const S34 := 23
  const S41 := 6
  const S42 := 10
  const S43 := 15
  const S44 := 21

  function FF(a: Word, b: Word, c: Word, d: Word, x: Word, s: nat, ac: Word): Word
    requires 0 < s < 32
  {
    Line(F(b, c, d), a, b, x, s, ac)
  }

  function GG(a: Word, b: Word, c: Word, d: Word, x: Word, s: nat, ac: Word): Word
    requires 0 < s < 32
  {
    Line(G(b, c, d), a, b, x, s, ac)
  }

  function HH(a: Word, b: Word, c: Word, d: Word, x: Word, s: nat, ac: Word): Word
    requires 0 < s < 32
  {
    Line(H(b, c, d), a, b, x, s, ac)
  }

  function II(a: Word, b: Word, c: Word, d: Word, x: Word, s: nat, ac: Word): Word
    requires 0 < s < 32
  {
    Line(I(b, c, d), a, b, x, s, ac)
  }

  /** Four lines of the unrolled form are four steps of the table-driven form. */
  lemma FourFF(r: Regs, x: seq<Word>, i: nat)
    requires |x| == 16 && 0 <= i <= 12 && i % 4 == 0
    ensures var s := Steps(r, x, i);
            var a := FF(s.a, s.b, s.c, s.d, x[Pick(i)], Turn(i), K(i));
            var d := FF(s.d, a, s.b, s.c, x[Pick(i + 1)], Turn(i + 1), K(i + 1));
            var c := FF(s.c, d, a, s.b, x[Pick(i + 2)], Turn(i + 2), K(i + 2));
            var b := FF(s.b, c, d, a, x[Pick(i + 3)], Turn(i + 3), K(i + 3));
            Steps(r, x, i + 4) == Regs(a, b, c, d)
  {
    hide F, G, H, I, Line;
    assert Steps(r, x, i + 2) == StepAt(StepAt(Steps(r, x, i), x, i), x, i + 1);
    assert Steps(r, x, i + 4) == StepAt(StepAt(Steps(r, x, i + 2), x, i + 2), x, i + 3);
  }

  /** Four lines of the unrolled form are four steps of the table-driven form. */
  lemma FourGG(r: Regs, x: seq<Word>, i: nat)
    requires |x| == 16 && 16 <= i <= 28 && i % 4 == 0
    ensures var s := Steps(r, x, i);
            var a := GG(s.a, s.b, s.c, s.d, x[Pick(i)], Turn(i), K(i));
            var d := GG(s.d, a, s.b, s.c, x[Pick(i + 1)], Turn(i + 1), K(i + 1));
            var c := GG(s.c, d, a, s.b, x[Pick(i + 2)], Turn(i + 2), K(i + 2));
            var b := GG(s.b, c, d, a, x[Pick(i + 3)], Turn(i + 3), K(i + 3));
            Steps(r, x, i + 4) == Regs(a, b, c, d)
  {
    hide F, G, H, I, Line;
    assert Steps(r, x, i + 2) == StepAt(StepAt(Steps(r, x, i), x, i), x, i + 1);
    assert Steps(r, x, i + 4) == StepAt(StepAt(Steps(r, x, i + 2), x, i + 2), x, i + 3);
  }

  /** Four lines of the unrolled form are four steps of the table-driven form. */
  lemma FourHH(r: Regs, x: seq<Word>, i: nat)
    requires |x| == 16 && 32 <= i <= 44 && i % 4 == 0
    ensures var s := Steps(r, x, i);
            var a := HH(s.a, s.b, s.c, s.d, x[Pick(i)], Turn(i), K(i));
            var d := HH(s.d, a, s.b, s.c, x[Pick(i + 1)], Turn(i + 1), K(i + 1));
            var c := HH(s.c, d, a, s.b, x[Pick(i + 2)], Turn(i + 2), K(i + 2));
            var b := HH(s.b, c, d, a, x[Pick(i + 3)], Turn(i + 3), K(i + 3));
            Steps(r, x, i + 4) == Regs(a, b, c, d)
  {
    hide F, G, H, I, Line;
    assert Steps(r, x, i + 2) == StepAt(StepAt(Steps(r, x, i), x, i), x, i + 1);
    assert Steps(r, x, i + 4) == StepAt(StepAt(Steps(r, x, i + 2), x, i + 2), x, i + 3);
  }

  /** Four lines of the unrolled form are four steps of the table-driven form. */
  lemma FourII(r: Regs, x: seq<Word>, i: nat)
    requires |x| == 16 && 48 <= i <= 60 && i % 4 == 0
    ensures var s := Steps(r, x, i);
            var a := II(s.a, s.b, s.c, s.d, x[Pick(i)], Turn(i), K(i));
            var d := II(s.d, a, s.b, s.c, x[Pick(i + 1)], Turn(i + 1), K(i + 1));
            var c := II(s.c, d, a, s.b, x[Pick(i + 2)], Turn(i + 2), K(i + 2));
            var b := II(s.b, c, d, a, x[Pick(i + 3)], Turn(i + 3), K(i + 3));
            Steps(r, x, i + 4) == Regs(a, b, c, d)
  {
    hide F, G, H, I, Line;
    assert Steps(r, x, i + 2) == StepAt(StepAt(Steps(r, x, i), x, i), x, i + 1);
    assert Steps(r, x, i + 4) == StepAt(StepAt(Steps(r, x, i + 2), x, i + 2), x, i + 3);
  }

  lemma Constants1()
    ensures K(0) == 0xd76aa478 && K(1) == 0xe8c7b756 && K(2) == 0x242070db && K(3) == 0xc1bdceee
    ensures K(4) == 0xf57c0faf && K(5) == 0x4787c62a && K(6) == 0xa8304613 && K(7) == 0xfd469501
    ensures K(8) == 0x698098d8 && K(9) == 0x8b44f7af && K(10) == 0xffff5bb1 && K(11) == 0x895cd7be
    ensures K(12) == 0x6b901122 && K(13) == 0xfd987193 && K(14) == 0xa679438e && K(15) == 0x49b40821
  {
  }

  lemma Indices1()
    ensures Pick(0) == 0 && Pick(1) == 1 && Pick(2) == 2 && Pick(3) == 3
    ensures Turn(0) == S11 && Turn(1) == S12 && Turn(2) == S13 && Turn(3) == S14
    ensures Pick(4) == 4 && Pick(5) == 5 && Pick(6) == 6 && Pick(7) == 7
    ensures Turn(4) == S11 && Turn(5) == S12 && Turn(6) == S13 && Turn(7) == S14
    ensures Pick(8) == 8 && Pick(9) == 9 && Pick(10) == 10 && Pick(11) == 11
    ensures Turn(8) == S11 && Turn(9) == S12 && Turn(10) == S13 && Turn(11) == S14
    ensures Pick(12) == 12 && Pick(13) == 13 && Pick(14) == 14 && Pick(15) == 15
    ensures Turn(12) == S11 && Turn(13) == S12 && Turn(14) == S13 && Turn(15) == S14
  {
  }

  method Round1(x: seq<Word>, a0: Word, b0: Word, c0: Word, d0: Word, ghost r: Regs)
    returns (a: Word, b: Word, c: Word, d: Word)
    requires |x| == 16 && Steps(r, x, 0) == Regs(a0, b0, c0, d0)
    ensures Steps(r, x, 16) == Regs(a, b, c, d)
  {
    hide FF, Steps, K, Pick, Turn;
    a, b, c, d := a0, b0, c0, d0;
    Constants1();
    Indices1();
    a := FF(a, b, c, d, x[0], S11, 0xd76aa478);
    d := FF(d, a, b, c, x[1], S12, 0xe8c7b756);
    c := FF(c, d, a, b, x[2], S13, 0x242070db);
    b := FF(b, c, d, a, x[3], S14, 0xc1bdceee);
    FourFF(r, x, 0);
    a := FF(a, b, c, d, x[4], S11, 0xf57c0faf);
    d := FF(d, a, b, c, x[5], S12, 0x4787c62a);
    c := FF(c, d, a, b, x[6], S13, 0xa8304613);
    b := FF(b, c, d, a, x[7], S14, 0xfd469501);
    FourFF(r, x, 4);
    a := FF(a, b, c, d, x[8], S11, 0x698098d8);
    d := FF(d, a, b, c, x[9], S12, 0x8b44f7af);
    c := FF(c, d, a, b, x[10], S13, 0xffff5bb1);
    b := FF(b, c, d, a, x[11], S14, 0x895cd7be);
    FourFF(r, x, 8);
    a := FF(a, b, c, d, x[12], S11, 0x6b901122);
    d := FF(d, a, b, c, x[13], S12, 0xfd987193);
    c := FF(c, d, a, b, x[14], S13, 0xa679438e);
    b := FF(b, c, d, a, x[15], S14, 0x49b40821);
    FourFF(r, x, 12);
  }

  lemma Constants2()
    ensures K(16) == 0xf61e2562 && K(17) == 0xc040b340 && K(18) == 0x265e5a51 && K(19) == 0xe9b6c7aa
    ensures K(20) == 0xd62f105d && K(21) == 0x2441453 && K(22) == 0xd8a1e681 && K(23) == 0xe7d3fbc8
    ensures K(24) == 0x21e1cde6 && K(25) == 0xc33707d6 && K(26) == 0xf4d50d87 && K(27) == 0x455a14ed
    ensures K(28) == 0xa9e3e905 && K(29) == 0xfcefa3f8 && K(30) == 0x676f02d9 && K(31) == 0x8d2a4c8a
  {
  }

  lemma Indices2()
    ensures Pick(16) == 1 && Pick(17) == 6 && Pick(18) == 11 && Pick(19) == 0
    ensures Turn(16) == S21 && Turn(17) == S22 && Turn(18) == S23 && Turn(19) == S24
    ensures Pick(20) == 5 && Pick(21) == 10 && Pick(22) == 15 && Pick(23) == 4
    ensures Turn(20) == S21 && Turn(21) == S22 && Turn(22) == S23 && Turn(23) == S24
    ensures Pick(24) == 9 && Pick(25) == 14 && Pick(26) == 3 && Pick(27) == 8
    ensures Turn(24) == S21 && Turn(25) == S22 && Turn(26) == S23 && Turn(27) == S24
    ensures Pick(28) == 13 && Pick(29) == 2 && Pick(30) == 7 && Pick(31) == 12
    ensures Turn(28) == S21 && Turn(29) == S22 && Turn(30) == S23 && Turn(31) == S24
  {
  }

  method Round2(x: seq<Word>, a0: Word, b0: Word, c0: Word, d0: Word, ghost r: Regs)
    returns (a: Word, b: Word, c: Word, d: Word)
    requires |x| == 16 && Steps(r, x, 16) == Regs(a0, b0, c0, d0)
    ensures Steps(r, x, 32) == Regs(a, b, c, d)
  {
    hide GG, Steps, K, Pick, Turn;
    a, b, c, d := a0, b0, c0, d0;
    Constants2();
    Indices2();
    a := GG(a, b, c, d, x[1], S21, 0xf61e2562);
    d := GG(d, a, b, c, x[6], S22, 0xc040b340);
    c := GG(c, d, a, b, x[11], S23, 0x265e5a51);
    b := GG(b, c, d, a, x[0], S24, 0xe9b6c7aa);
    FourGG(r, x, 16);
    a := GG(a, b, c, d, x[5], S21, 0xd62f105d);
    d := GG(d, a, b, c, x[10], S22, 0x2441453);
    c := GG(c, d, a, b, x[15], S23, 0xd8a1e681);
    b := GG(b, c, d, a, x[4], S24, 0xe7d3fbc8);
    FourGG(r, x, 20);
    a := GG(a, b, c, d, x[9], S21, 0x21e1cde6);
    d := GG(d, a, b, c, x[14], S22, 0xc33707d6);
    c := GG(c, d, a, b, x[3], S23, 0xf4d50d87);
    b := GG(b, c, d, a, x[8], S24, 0x455a14ed);
    FourGG(r, x, 24);
    a := GG(a, b, c, d, x[13], S21, 0xa9e3e905);
    d := GG(d, a, b, c, x[2], S22, 0xfcefa3f8);
    c := GG(c, d, a, b, x[7], S23, 0x676f02d9);
    b := GG(b, c, d, a, x[12], S24, 0x8d2a4c8a);
    FourGG(r, x, 28);
  }

  lemma Constants3()
    ensures K(32) == 0xfffa3942 && K(33) == 0x8771f681 && K(34) == 0x6d9d6122 && K(35) == 0xfde5380c
    ensures K(36) == 0xa4beea44 && K(37) == 0x4bdecfa9 && K(38) == 0xf6bb4b60 && K(39) == 0xbebfbc70
    ensures K(40) == 0x289b7ec6 && K(41) == 0xeaa127fa && K(42) == 0xd4ef3085 && K(43) == 0x4881d05
    ensures K(44) == 0xd9d4d039 && K(45) == 0xe6db99e5 && K(46) == 0x1fa27cf8 && K(47) == 0xc4ac5665
  {
  }

  lemma Indices3()
    ensures Pick(32) == 5 && Pick(33) == 8 && Pick(34) == 11 && Pick(35) == 14
    ensures Turn(32) == S31 && Turn(33) == S32 && Turn(34) == S33 && Turn(35) == S34
    ensures Pick(36) == 1 && Pick(37) == 4 && Pick(38) == 7 && Pick(39) == 10
    ensures Turn(36) == S31 && Turn(37) == S32 && Turn(38) == S33 && Turn(39) == S34
    ensures Pick(40) == 13 && Pick(41) == 0 && Pick(42) == 3 && Pick(43) == 6
    ensures Turn(40) == S31 && Turn(41) == S32 && Turn(42) == S33 && Turn(43) == S34
    ensures Pick(44) == 9 && Pick(45) == 12 && Pick(46) == 15 && Pick(47) == 2
    ensures Turn(44) == S31 && Turn(45) == S32 && Turn(46) == S33 && Turn(47) == S34
  {
  }

  method Round3(x: seq<Word>, a0: Word, b0: Word, c0: Word, d0: Word, ghost r: Regs)
    returns (a: Word, b: Word, c: Word, d: Word)
    requires |x| == 16 && Steps(r, x, 32) == Regs(a0, b0, c0, d0)
    ensures Steps(r, x, 48) == Regs(a, b, c, d)
  {
    hide HH, Steps, K, Pick, Turn;
    a, b, c, d := a0, b0, c0, d0;
    Constants3();
    Indices3();
    a := HH(a, b, c, d, x[5], S31, 0xfffa3942);
    d := HH(d, a, b, c, x[8], S32, 0x8771f681);
    c := HH(c, d, a, b, x[11], S33, 0x6d9d6122);
    b := HH(b, c, d, a, x[14], S34, 0xfde5380c);
    FourHH(r, x, 32);
    a := HH(a, b, c, d, x[1], S31, 0xa4beea44);
    d := HH(d, a, b, c, x[4], S32, 0x4bdecfa9);
    c := HH(c, d, a, b, x[7], S33, 0xf6bb4b60);
    b := HH(b, c, d, a, x[10], S34, 0xbebfbc70);
    FourHH(r, x, 36);
    a := HH(a, b, c, d, x[13], S31, 0x289b7ec6);
    d := HH(d, a, b, c, x[0], S32, 0xeaa127fa);
    c := HH(c, d, a, b, x[3], S33, 0xd4ef3085);
    b := HH(b, c, d, a, x[6], S34, 0x4881d05);
    FourHH(r, x, 40);
    a := HH(a, b, c, d, x[9], S31, 0xd9d4d039);
    d := HH(d, a, b, c, x[12], S32, 0xe6db99e5);
    c := HH(c, d, a, b, x[15], S33, 0x1fa27cf8);
    b := HH(b, c, d, a, x[2], S34, 0xc4ac5665);
    FourHH(r, x, 44);
  }

  lemma Constants4()
    ensures K(48) == 0xf4292244 && K(49) == 0x432aff97 && K(50) == 0xab9423a7 && K(51) == 0xfc93a039
    ensures K(52) == 0x655b59c3 && K(53) == 0x8f0ccc92 && K(54) == 0xffeff47d && K(55) == 0x85845dd1
    ensures K(56) == 0x6fa87e4f && K(57) == 0xfe2ce6e0 && K(58) == 0xa3014314 && K(59) == 0x4e0811a1
    ensures K(60) == 0xf7537e82 && K(61) == 0xbd3af235 && K(62) == 0x2ad7d2bb && K(63) == 0xeb86d391
  {
  }

  lemma Indices4()
    ensures Pick(48) == 0 && Pick(49) == 7 && Pick(50) == 14 && Pick(51) == 5
    ensures Turn(48) == S41 && Turn(49) == S42 && Turn(50) == S43 && Turn(51) == S44
    ensures Pick(52) == 12 && Pick(53) == 3 && Pick(54) == 10 && Pick(55) == 1
    ensures Turn(52) == S41 && Turn(53) == S42 && Turn(54) == S43 && Turn(55) == S44
    ensures Pick(56) == 8 && Pick(57) == 15 && Pick(58) == 6 && Pick(59) == 13
    ensures Turn(56) == S41 && Turn(57) == S42 && Turn(58) == S43 && Turn(59) == S44
    ensures Pick(60) == 4 && Pick(61) == 11 && Pick(62) == 2 && Pick(63) == 9
    ensures Turn(60) == S41 && Turn(61) == S42 && Turn(62) == S43 && Turn(63) == S44
  {
  }

  method Round4(x: seq<Word>, a0: Word, b0: Word, c0: Word, d0: Word, ghost r: Regs)
    returns (a: Word, b: Word, c: Word, d: Word)
    requires |x| == 16 && Steps(r, x, 48) == Regs(a0, b0, c0, d0)
    ensures Steps(r, x, 64) == Regs(a, b, c, d)
  {
    hide II, Steps, K, Pick, Turn;
    a, b, c, d := a0, b0, c0, d0;
    Constants4();
    Indices4();
    a := II(a, b, c, d, x[0], S41, 0xf4292244);
    d := II(d, a, b, c, x[7], S42, 0x432aff97);
    c := II(c, d, a, b, x[14], S43, 0xab9423a7);
    b := II(b, c, d, a, x[5], S44, 0xfc93a039);
    FourII(r, x, 48);
    a := II(a, b, c, d, x[12], S41, 0x655b59c3);
    d := II(d, a, b, c, x[3], S42, 0x8f0ccc92);
    c := II(c, d, a, b, x[10], S43, 0xffeff47d);
    b := II(b, c, d, a, x[1], S44, 0x85845dd1);
    FourII(r, x, 52);
    a := II(a, b, c, d, x[8], S41, 0x6fa87e4f);
    d := II(d, a, b, c, x[15], S42, 0xfe2ce6e0);
    c := II(c, d, a, b, x[6], S43, 0xa3014314);
    b := II(b, c, d, a, x[13], S44, 0x4e0811a1);
    FourII(r, x, 56);
    a := II(a, b, c, d, x[4], S41, 0xf7537e82);
    d := II(d, a, b, c, x[11], S42, 0xbd3af235);
    c := II(c, d, a, b, x[2], S43, 0x2ad7d2bb);
    b := II(b, c, d, a, x[9], S44, 0xeb86d391);
    FourII(r, x, 60);
  }


  /** One block: four unrolled rounds, then the sums. */
  method TransformWords(state: Regs, x: seq<Word>) returns (r: Regs)
    requires |x| == 16
    ensures r == Compress(state, x)
  {
    hide Steps;
    StepsNone(state, x);
    var a, b, c, d := Round1(x, state.a, state.b, state.c, state.d, state);
    a, b, c, d := Round2(x, a, b, c, d, state);
    a, b, c, d := Round3(x, a, b, c, d, state);
    a, b, c, d := Round4(x, a, b, c, d, state);
    r := Regs(Wrap(state.a + a), Wrap(state.b + b), Wrap(state.c + c), Wrap(state.d + d));
  }

  lemma StepsNone(r: Regs, x: seq<Word>)
    requires |x| == 16
    ensures Steps(r, x, 0) == r
  {
  }

  /** Four bytes a word. */
  method DecodeBytes(bytes: seq<Byte>) returns (words: seq<Word>)
    requires |bytes| % 4 == 0
    ensures words == Decode(bytes)
  {
    hide ToWord;
    words := [];
    var i, j := 0, 0;
    while j < |bytes|
      invariant j == 4 * i && j <= |bytes| && words == Decode(bytes)[..i]
    {
      words := words + [ToWord(bytes[j], bytes[j + 1], bytes[j + 2], bytes[j + 3])];
      i, j := i + 1, j + 4;
    }
  }

  method EncodeWords(words: seq<Word>) returns (bytes: seq<Byte>)
    ensures bytes == Encode(words)
  {
    hide ByteOf;
    bytes := [];
    var i, j := 0, 0;
    while i < |words|
      invariant j == 4 * i && i <= |words| && bytes == Encode(words)[..j]
    {
      FourBytes(words, i);
      bytes := bytes + [ByteOf(words[i], 0), ByteOf(words[i], 1), ByteOf(words[i], 2), ByteOf(words[i], 3)];
      i, j := i + 1, j + 4;
    }
  }

  lemma FourBytes(words: seq<Word>, i: nat)
    requires i < |words|
    ensures Encode(words)[4 * i..4 * i + 4] ==
            [ByteOf(words[i], 0), ByteOf(words[i], 1), ByteOf(words[i], 2), ByteOf(words[i], 3)]
  {
    hide ByteOf;
    Quarter(i, 0);
    Quarter(i, 1);
    Quarter(i, 2);
    Quarter(i, 3);
  }
}
