/**
 * A digest of the test suite in section A.5 of RFC 1321, that of "abc", worked out step by step. Together with
 * AbsorbConcat it fixes every operation that the digest of a message is made of.
 */
module Md5Suite {
  import opened Md5Spec

  ghost predicate Reaches(r: Regs, w: seq<Word>, n: nat, s: Regs)
    requires |w| == 16 && n <= 64
  {
    Steps(r, w, n) == s
  }

  /** One step, from its bitwise function, its sum and its rotation. */
  lemma StepBy(r: Regs, w: seq<Word>, i: nat, mix: Word, sum: Word, turned: Word, s: Regs, t: Regs)
    requires |w| == 16 && i < 64 && Reaches(r, w, i, s)
    requires Mix(s, i) == mix && Wrap(s.a + mix + w[Pick(i)] + K(i)) == sum && RotateLeft(sum, Turn(i)) == turned
    requires t == Regs(s.d, Wrap(turned + s.b), s.b, s.c)
    ensures Reaches(r, w, i + 1, t)
  {
    hide Mix, K, Pick, Turn, RotateLeft, Wrap;
  }

  lemma NoSteps(r: Regs, w: seq<Word>)
    requires |w| == 16
    ensures Reaches(r, w, 0, r)
  {
  }

  function AbcWords(): (w: seq<Word>)
    ensures |w| == 16
  {
    [0x80636261, 0x0, 0x0, 0x0, 0x0, 0x0, 0x0, 0x0, 0x0, 0x0, 0x0, 0x0, 0x0, 0x0, 0x18, 0x0]
  }

  lemma AbcMixes8()
    ensures F(0xefcdab89, 0x98badcfe, 0x10325476) == 0x98badcfe
    ensures F(0xd6d117b4, 0xefcdab89, 0x98badcfe) == 0xceebcbca
    ensures F(0x344a8432, 0xd6d117b4, 0xefcdab89) == 0xdfc52fb9
    ensures F(0x2f6fbd72, 0x344a8432, 0xd6d117b4) == 0xf4da86b6
    ensures F(0x7ad956f2, 0x2f6fbd72, 0x344a8432) == 0x2e4b9472
    ensures F(0xc73741ef, 0x7ad956f2, 0x2f6fbd72) == 0x6a59fcf2
    ensures F(0x8bac3051, 0xc73741ef, 0x7ad956f2) == 0xf37546e3
    ensures F(0x207dc67b, 0x8bac3051, 0xc73741ef) == 0xc72e01d5
  {
  }

  lemma AbcTurns8()
    ensures RotateLeft(0x57ce06d8, 7) == 0xe7036c2b
    ensures RotateLeft(0xc7e5d796, 12) == 0x5d796c7e
    ensures RotateLeft(0x9ca07d92, 17) == 0xfb253940
    ensures RotateLeft(0xa666012d, 22) == 0x4b699980
    ensures RotateLeft(0xfa98bbd5, 7) == 0x4c5deafd
    ensures RotateLeft(0xe62c474e, 12) == 0xc474ee62
    ensures RotateLeft(0xcb154a68, 17) == 0x94d1962a
    ensures RotateLeft(0x3f4dedc8, 22) == 0x720fd37b
  {
  }

  lemma AbcSteps8(r: Regs, w: seq<Word>)
    requires |w| == 16 && r == Regs(0x67452301, 0xefcdab89, 0x98badcfe, 0x10325476) && w == AbcWords()
    ensures Reaches(r, w, 8, Regs(0xc73741ef, 0x928d99f6, 0x207dc67b, 0x8bac3051))
  {
    hide F, G, H, I, RotateLeft, Reaches;
    AbcMixes8();
    AbcTurns8();
    NoSteps(r, w);
    StepBy(r, w, 0, 0x98badcfe, 0x57ce06d8, 0xe7036c2b,
           Regs(0x67452301, 0xefcdab89, 0x98badcfe, 0x10325476), Regs(0x10325476, 0xd6d117b4, 0xefcdab89, 0x98badcfe));
    StepBy(r, w, 1, 0xceebcbca, 0xc7e5d796, 0x5d796c7e,
           Regs(0x10325476, 0xd6d117b4, 0xefcdab89, 0x98badcfe), Regs(0x98badcfe, 0x344a8432, 0xd6d117b4, 0xefcdab89));
    StepBy(r, w, 2, 0xdfc52fb9, 0x9ca07d92, 0xfb253940,
           Regs(0x98badcfe, 0x344a8432, 0xd6d117b4, 0xefcdab89), Regs(0xefcdab89, 0x2f6fbd72, 0x344a8432, 0xd6d117b4));
    StepBy(r, w, 3, 0xf4da86b6, 0xa666012d, 0x4b699980,
           Regs(0xefcdab89, 0x2f6fbd72, 0x344a8432, 0xd6d117b4), Regs(0xd6d117b4, 0x7ad956f2, 0x2f6fbd72, 0x344a8432));
    StepBy(r, w, 4, 0x2e4b9472, 0xfa98bbd5, 0x4c5deafd,
           Regs(0xd6d117b4, 0x7ad956f2, 0x2f6fbd72, 0x344a8432), Regs(0x344a8432, 0xc73741ef, 0x7ad956f2, 0x2f6fbd72));
    StepBy(r, w, 5, 0x6a59fcf2, 0xe62c474e, 0xc474ee62,
           Regs(0x344a8432, 0xc73741ef, 0x7ad956f2, 0x2f6fbd72), Regs(0x2f6fbd72, 0x8bac3051, 0xc73741ef, 0x7ad956f2));
    StepBy(r, w, 6, 0xf37546e3, 0xcb154a68, 0x94d1962a,
           Regs(0x2f6fbd72, 0x8bac3051, 0xc73741ef, 0x7ad956f2), Regs(0x7ad956f2, 0x207dc67b, 0x8bac3051, 0xc73741ef));
    StepBy(r, w, 7, 0xc72e01d5, 0x3f4dedc8, 0x720fd37b,
           Regs(0x7ad956f2, 0x207dc67b, 0x8bac3051, 0xc73741ef), Regs(0xc73741ef, 0x928d99f6, 0x207dc67b, 0x8bac3051));
  }

  lemma AbcMixes16()
    ensures F(0x928d99f6, 0x207dc67b, 0x8bac3051) == 0x92da073
    ensures F(0x854b3712, 0x928d99f6, 0x207dc67b) == 0xa03dd17b
    ensures F(0x74e2f284, 0x854b3712, 0x928d99f6) == 0x864f3b72
    ensures F(0x3020401c, 0x74e2f284, 0x854b3712) == 0xb56b7706
    ensures F(0x5ed49596, 0x3020401c, 0x74e2f284) == 0x30226214
    ensures F(0xdda9b9a6, 0x5ed49596, 0x3020401c) == 0x7c80d19e
    ensures F(0xa1051895, 0xdda9b9a6, 0x5ed49596) == 0xdfd19d86
    ensures F(0xe396856b, 0xa1051895, 0xdda9b9a6) == 0xbd2d3885
  {
  }

  lemma AbcTurns16()
    ensures RotateLeft(0x39e57b3a, 7) == 0xf2bd9d1c
    ensures RotateLeft(0xb72ef97b, 12) == 0xef97bb72
    ensures RotateLeft(0xa6cc5d9e, 17) == 0xbb3d4d98
    ensures RotateLeft(0xd155e8ba, 22) == 0x2eb4557a
    ensures RotateLeft(0x20fdaa48, 7) == 0x7ed52410
    ensures RotateLeft(0xeefc35b5, 12) == 0xc35b5eef
    ensures RotateLeft(0xb66b2148, 17) == 0x42916cd6
    ensures RotateLeft(0x65b5d63c, 22) == 0x8f196d75
  {
  }

  lemma AbcSteps16(r: Regs, w: seq<Word>)
    requires |w| == 16 && r == Regs(0x67452301, 0xefcdab89, 0x98badcfe, 0x10325476) && w == AbcWords()
    ensures Reaches(r, w, 16, Regs(0xdda9b9a6, 0x72aff2e0, 0xe396856b, 0xa1051895))
  {
    hide F, G, H, I, RotateLeft, Reaches;
    AbcMixes16();
    AbcTurns16();
    AbcSteps8(r, w);
    StepBy(r, w, 8, 0x92da073, 0x39e57b3a, 0xf2bd9d1c,
           Regs(0xc73741ef, 0x928d99f6, 0x207dc67b, 0x8bac3051), Regs(0x8bac3051, 0x854b3712, 0x928d99f6, 0x207dc67b));
    StepBy(r, w, 9, 0xa03dd17b, 0xb72ef97b, 0xef97bb72,
           Regs(0x8bac3051, 0x854b3712, 0x928d99f6, 0x207dc67b), Regs(0x207dc67b, 0x74e2f284, 0x854b3712, 0x928d99f6));
    StepBy(r, w, 10, 0x864f3b72, 0xa6cc5d9e, 0xbb3d4d98,
           Regs(0x207dc67b, 0x74e2f284, 0x854b3712, 0x928d99f6), Regs(0x928d99f6, 0x3020401c, 0x74e2f284, 0x854b3712));
    StepBy(r, w, 11, 0xb56b7706, 0xd155e8ba, 0x2eb4557a,
           Regs(0x928d99f6, 0x3020401c, 0x74e2f284, 0x854b3712), Regs(0x854b3712, 0x5ed49596, 0x3020401c, 0x74e2f284));
    StepBy(r, w, 12, 0x30226214, 0x20fdaa48, 0x7ed52410,
           Regs(0x854b3712, 0x5ed49596, 0x3020401c, 0x74e2f284), Regs(0x74e2f284, 0xdda9b9a6, 0x5ed49596, 0x3020401c));
    StepBy(r, w, 13, 0x7c80d19e, 0xeefc35b5, 0xc35b5eef,
           Regs(0x74e2f284, 0xdda9b9a6, 0x5ed49596, 0x3020401c), Regs(0x3020401c, 0xa1051895, 0xdda9b9a6, 0x5ed49596));
    StepBy(r, w, 14, 0xdfd19d86, 0xb66b2148, 0x42916cd6,
           Regs(0x3020401c, 0xa1051895, 0xdda9b9a6, 0x5ed49596), Regs(0x5ed49596, 0xe396856b, 0xa1051895, 0xdda9b9a6));
    StepBy(r, w, 15, 0xbd2d3885, 0x65b5d63c, 0x8f196d75,
           Regs(0x5ed49596, 0xe396856b, 0xa1051895, 0xdda9b9a6), Regs(0xdda9b9a6, 0x72aff2e0, 0xe396856b, 0xa1051895));
  }

  lemma AbcMixes24()
    ensures G(0x72aff2e0, 0xe396856b, 0xa1051895) == 0x629795ea
    ensures G(0x3e9e9126, 0x72aff2e0, 0xe396856b) == 0x32bff3a2
    ensures G(0x4a1d804e, 0x3e9e9126, 0x72aff2e0) == 0x4e1d8146
    ensures G(0xe25e1652, 0x4a1d804e, 0x3e9e9126) == 0x621f104a
    ensures G(0xb5b204e4, 0xe25e1652, 0x4a1d804e) == 0xa0521654
    ensures G(0x59a8ffda, 0xb5b204e4, 0xe25e1652) == 0x55a816f6
    ensures G(0x6d002f1e, 0x59a8ffda, 0xb5b204e4) == 0x6d08ff1e
    ensures G(0xabfc7920, 0x6d002f1e, 0x59a8ffda) == 0x2da87904
  {
  }

  lemma AbcTurns24()
    ensures RotateLeft(0x365f74f2, 5) == 0xcbee9e46
    ensures RotateLeft(0x9405bf77, 9) == 0xb7eef28
    ensures RotateLeft(0x58126102, 14) == 0x98409604
    ensures RotateLeft(0x3ee92d35, 20) == 0xd353ee92
    ensures RotateLeft(0xb51fb7d7, 5) == 0xa3f6faf6
    ensures RotateLeft(0xa209ab97, 9) == 0x13572f44
    ensures RotateLeft(0x2808fbf1, 14) == 0x3efc4a02
    ensures RotateLeft(0xcb2e79b0, 20) == 0x9b0cb2e7
  {
  }

  lemma AbcSteps24(r: Regs, w: seq<Word>)
    requires |w| == 16 && r == Regs(0x67452301, 0xefcdab89, 0x98badcfe, 0x10325476) && w == AbcWords()
    ensures Reaches(r, w, 24, Regs(0x59a8ffda, 0x47092c07, 0xabfc7920, 0x6d002f1e))
  {
    hide F, G, H, I, RotateLeft, Reaches;
    AbcMixes24();
    AbcTurns24();
    AbcSteps16(r, w);
    StepBy(r, w, 16, 0x629795ea, 0x365f74f2, 0xcbee9e46,
           Regs(0xdda9b9a6, 0x72aff2e0, 0xe396856b, 0xa1051895), Regs(0xa1051895, 0x3e9e9126, 0x72aff2e0, 0xe396856b));
    StepBy(r, w, 17, 0x32bff3a2, 0x9405bf77, 0xb7eef28,
           Regs(0xa1051895, 0x3e9e9126, 0x72aff2e0, 0xe396856b), Regs(0xe396856b, 0x4a1d804e, 0x3e9e9126, 0x72aff2e0));
    StepBy(r, w, 18, 0x4e1d8146, 0x58126102, 0x98409604,
           Regs(0xe396856b, 0x4a1d804e, 0x3e9e9126, 0x72aff2e0), Regs(0x72aff2e0, 0xe25e1652, 0x4a1d804e, 0x3e9e9126));
    StepBy(r, w, 19, 0x621f104a, 0x3ee92d35, 0xd353ee92,
           Regs(0x72aff2e0, 0xe25e1652, 0x4a1d804e, 0x3e9e9126), Regs(0x3e9e9126, 0xb5b204e4, 0xe25e1652, 0x4a1d804e));
    StepBy(r, w, 20, 0xa0521654, 0xb51fb7d7, 0xa3f6faf6,
           Regs(0x3e9e9126, 0xb5b204e4, 0xe25e1652, 0x4a1d804e), Regs(0x4a1d804e, 0x59a8ffda, 0xb5b204e4, 0xe25e1652));
    StepBy(r, w, 21, 0x55a816f6, 0xa209ab97, 0x13572f44,
           Regs(0x4a1d804e, 0x59a8ffda, 0xb5b204e4, 0xe25e1652), Regs(0xe25e1652, 0x6d002f1e, 0x59a8ffda, 0xb5b204e4));
    StepBy(r, w, 22, 0x6d08ff1e, 0x2808fbf1, 0x3efc4a02,
           Regs(0xe25e1652, 0x6d002f1e, 0x59a8ffda, 0xb5b204e4), Regs(0xb5b204e4, 0xabfc7920, 0x6d002f1e, 0x59a8ffda));
    StepBy(r, w, 23, 0x2da87904, 0xcb2e79b0, 0x9b0cb2e7,
           Regs(0xb5b204e4, 0xabfc7920, 0x6d002f1e, 0x59a8ffda), Regs(0x59a8ffda, 0x47092c07, 0xabfc7920, 0x6d002f1e));
  }

  lemma AbcMixes32()
    ensures G(0x47092c07, 0xabfc7920, 0x6d002f1e) == 0xc7fc7c26
    ensures G(0xb7f268cf, 0x47092c07, 0xabfc7920) == 0xe7f16c07
    ensures G(0x9388eff, 0xb7f268cf, 0x47092c07) == 0xb1fa4ccf
    ensures G(0xfe1623b1, 0x9388eff, 0xb7f268cf) == 0xbe1aa6b1
    ensures G(0x786acb8f, 0xfe1623b1, 0x9388eff) == 0xfe2eab8f
    ensures G(0x790a77fb, 0x786acb8f, 0xfe1623b1) == 0x786aebbf
    ensures G(0x9f47e4f8, 0x790a77fb, 0x786acb8f) == 0x1942f4f8
    ensures G(0xa62884aa, 0x9f47e4f8, 0x790a77fb) == 0xa64d84aa
  {
  }

  lemma AbcTurns32()
    ensures RotateLeft(0x438749e6, 5) == 0x70e93cc8
    ensures RotateLeft(0x1828a313, 9) == 0x51462630
    ensures RotateLeft(0x52cbd376, 14) == 0xf4dd94b2
    ensures RotateLeft(0x4a7de7a5, 20) == 0x7a54a7de
    ensures RotateLeft(0x6004fd63, 5) == 0x9fac6c
    ensures RotateLeft(0x7e931eb6, 9) == 0x263d6cfd
    ensures RotateLeft(0x7ec81b82, 14) == 0x6e09fb2
    ensures RotateLeft(0xabe29cc3, 20) == 0xcc3abe29
  {
  }

  lemma AbcSteps32(r: Regs, w: seq<Word>)
    requires |w| == 16 && r == Regs(0x67452301, 0xefcdab89, 0x98badcfe, 0x10325476) && w == AbcWords()
    ensures Reaches(r, w, 32, Regs(0x790a77fb, 0x726342d3, 0xa62884aa, 0x9f47e4f8))
  {
    hide F, G, H, I, RotateLeft, Reaches;
    AbcMixes32();
    AbcTurns32();
    AbcSteps24(r, w);
    StepBy(r, w, 24, 0xc7fc7c26, 0x438749e6, 0x70e93cc8,
           Regs(0x59a8ffda, 0x47092c07, 0xabfc7920, 0x6d002f1e), Regs(0x6d002f1e, 0xb7f268cf, 0x47092c07, 0xabfc7920));
    StepBy(r, w, 25, 0xe7f16c07, 0x1828a313, 0x51462630,
           Regs(0x6d002f1e, 0xb7f268cf, 0x47092c07, 0xabfc7920), Regs(0xabfc7920, 0x9388eff, 0xb7f268cf, 0x47092c07));
    StepBy(r, w, 26, 0xb1fa4ccf, 0x52cbd376, 0xf4dd94b2,
           Regs(0xabfc7920, 0x9388eff, 0xb7f268cf, 0x47092c07), Regs(0x47092c07, 0xfe1623b1, 0x9388eff, 0xb7f268cf));
    StepBy(r, w, 27, 0xbe1aa6b1, 0x4a7de7a5, 0x7a54a7de,
           Regs(0x47092c07, 0xfe1623b1, 0x9388eff, 0xb7f268cf), Regs(0xb7f268cf, 0x786acb8f, 0xfe1623b1, 0x9388eff));
    StepBy(r, w, 28, 0xfe2eab8f, 0x6004fd63, 0x9fac6c,
           Regs(0xb7f268cf, 0x786acb8f, 0xfe1623b1, 0x9388eff), Regs(0x9388eff, 0x790a77fb, 0x786acb8f, 0xfe1623b1));
    StepBy(r, w, 29, 0x786aebbf, 0x7e931eb6, 0x263d6cfd,
           Regs(0x9388eff, 0x790a77fb, 0x786acb8f, 0xfe1623b1), Regs(0xfe1623b1, 0x9f47e4f8, 0x790a77fb, 0x786acb8f));
    StepBy(r, w, 30, 0x1942f4f8, 0x7ec81b82, 0x6e09fb2,
           Regs(0xfe1623b1, 0x9f47e4f8, 0x790a77fb, 0x786acb8f), Regs(0x786acb8f, 0xa62884aa, 0x9f47e4f8, 0x790a77fb));
    StepBy(r, w, 31, 0xa64d84aa, 0xabe29cc3, 0xcc3abe29,
           Regs(0x786acb8f, 0xa62884aa, 0x9f47e4f8, 0x790a77fb), Regs(0x790a77fb, 0x726342d3, 0xa62884aa, 0x9f47e4f8));
  }

  lemma AbcMixes40()
    ensures H(0x726342d3, 0xa62884aa, 0x9f47e4f8) == 0x4b0c2281
    ensures H(0xb3707ebf, 0x726342d3, 0xa62884aa) == 0x673bb8c6
    ensures H(0x60127b2e, 0xb3707ebf, 0x726342d3) == 0xa1014742
    ensures H(0x8d212ff5, 0x60127b2e, 0xb3707ebf) == 0x5e432a64
    ensures H(0x3b0875c7, 0x8d212ff5, 0x60127b2e) == 0xd63b211c
    ensures H(0x21b117b9, 0x3b0875c7, 0x8d212ff5) == 0x97984d8b
    ensures H(0x6e7429d5, 0x21b117b9, 0x3b0875c7) == 0x74cd4bab
    ensures H(0x3575227e, 0x6e7429d5, 0x21b117b9) == 0x7ab01c12
  {
  }

  lemma AbcTurns40()
    ensures RotateLeft(0xc410d3be, 4) == 0x410d3bec
    ensures RotateLeft(0x8df5943f, 11) == 0xaca1fc6f
    ensures RotateLeft(0xb4c72d0e, 16) == 0x2d0eb4c7
    ensures RotateLeft(0xce8ba55b, 23) == 0xade745d2
    ensures RotateLeft(0x2e6a8a1f, 4) == 0xe6a8a1f2
    ensures RotateLeft(0x43899862, 11) == 0x4cc3121c
    ensures RotateLeft(0xf8a9c700, 16) == 0xc700f8a9
    ensures RotateLeft(0x74784e49, 23) == 0x24ba3c27
  {
  }

  lemma AbcSteps40(r: Regs, w: seq<Word>)
    requires |w| == 16 && r == Regs(0x67452301, 0xefcdab89, 0x98badcfe, 0x10325476) && w == AbcWords()
    ensures Reaches(r, w, 40, Regs(0x21b117b9, 0x5a2f5ea5, 0x3575227e, 0x6e7429d5))
  {
    hide F, G, H, I, RotateLeft, Reaches;
    AbcMixes40();
    AbcTurns40();
    AbcSteps32(r, w);
    StepBy(r, w, 32, 0x4b0c2281, 0xc410d3be, 0x410d3bec,
           Regs(0x790a77fb, 0x726342d3, 0xa62884aa, 0x9f47e4f8), Regs(0x9f47e4f8, 0xb3707ebf, 0x726342d3, 0xa62884aa));
    StepBy(r, w, 33, 0x673bb8c6, 0x8df5943f, 0xaca1fc6f,
           Regs(0x9f47e4f8, 0xb3707ebf, 0x726342d3, 0xa62884aa), Regs(0xa62884aa, 0x60127b2e, 0xb3707ebf, 0x726342d3));
    StepBy(r, w, 34, 0xa1014742, 0xb4c72d0e, 0x2d0eb4c7,
           Regs(0xa62884aa, 0x60127b2e, 0xb3707ebf, 0x726342d3), Regs(0x726342d3, 0x8d212ff5, 0x60127b2e, 0xb3707ebf));
    StepBy(r, w, 35, 0x5e432a64, 0xce8ba55b, 0xade745d2,
           Regs(0x726342d3, 0x8d212ff5, 0x60127b2e, 0xb3707ebf), Regs(0xb3707ebf, 0x3b0875c7, 0x8d212ff5, 0x60127b2e));
    StepBy(r, w, 36, 0xd63b211c, 0x2e6a8a1f, 0xe6a8a1f2,
           Regs(0xb3707ebf, 0x3b0875c7, 0x8d212ff5, 0x60127b2e), Regs(0x60127b2e, 0x21b117b9, 0x3b0875c7, 0x8d212ff5));
    StepBy(r, w, 37, 0x97984d8b, 0x43899862, 0x4cc3121c,
           Regs(0x60127b2e, 0x21b117b9, 0x3b0875c7, 0x8d212ff5), Regs(0x8d212ff5, 0x6e7429d5, 0x21b117b9, 0x3b0875c7));
    StepBy(r, w, 38, 0x74cd4bab, 0xf8a9c700, 0xc700f8a9,
           Regs(0x8d212ff5, 0x6e7429d5, 0x21b117b9, 0x3b0875c7), Regs(0x3b0875c7, 0x3575227e, 0x6e7429d5, 0x21b117b9));
    StepBy(r, w, 39, 0x7ab01c12, 0x74784e49, 0x24ba3c27,
           Regs(0x3b0875c7, 0x3575227e, 0x6e7429d5, 0x21b117b9), Regs(0x21b117b9, 0x5a2f5ea5, 0x3575227e, 0x6e7429d5));
  }

  lemma AbcMixes48()
    ensures H(0x5a2f5ea5, 0x3575227e, 0x6e7429d5) == 0x12e550e
    ensures H(0x11de1779, 0x5a2f5ea5, 0x3575227e) == 0x7e846ba2
    ensures H(0xfadcaa38, 0x11de1779, 0x5a2f5ea5) == 0xb12de3e4
    ensures H(0x31c465ca, 0xfadcaa38, 0x11de1779) == 0xdac6d88b
    ensures H(0x4c6124f4, 0x31c465ca, 0xfadcaa38) == 0x8779eb06
    ensures H(0x7f2e507b, 0x4c6124f4, 0x31c465ca) == 0x28b1145
    ensures H(0x99d9679d, 0x7f2e507b, 0x4c6124f4) == 0xaa961312
    ensures H(0x8fae6399, 0x99d9679d, 0x7f2e507b) == 0x6959547f
  {
  }

  lemma AbcTurns48()
    ensures RotateLeft(0x4b7aeb8d, 4) == 0xb7aeb8d4
    ensures RotateLeft(0x57fd1fd2, 11) == 0xe8fe92bf
    ensures RotateLeft(0xbb9236e7, 16) == 0x36e7bb92
    ensures RotateLeft(0x397e5435, 23) == 0x1a9cbf2a
    ensures RotateLeft(0x732cd2b8, 4) == 0x32cd2b87
    ensures RotateLeft(0xe4435562, 11) == 0x1aab1722
    ensures RotateLeft(0xfbfcf5d4, 16) == 0xf5d4fbfc
    ensures RotateLeft(0x7a66cfd8, 23) == 0xec3d3367
  {
  }

  lemma AbcSteps48(r: Regs, w: seq<Word>)
    requires |w| == 16 && r == Regs(0x67452301, 0xefcdab89, 0x98badcfe, 0x10325476) && w == AbcWords()
    ensures Reaches(r, w, 48, Regs(0x7f2e507b, 0x7beb9700, 0x8fae6399, 0x99d9679d))
  {
    hide F, G, H, I, RotateLeft, Reaches;
    AbcMixes48();
    AbcTurns48();
    AbcSteps40(r, w);
    StepBy(r, w, 40, 0x12e550e, 0x4b7aeb8d, 0xb7aeb8d4,
           Regs(0x21b117b9, 0x5a2f5ea5, 0x3575227e, 0x6e7429d5), Regs(0x6e7429d5, 0x11de1779, 0x5a2f5ea5, 0x3575227e));
    StepBy(r, w, 41, 0x7e846ba2, 0x57fd1fd2, 0xe8fe92bf,
           Regs(0x6e7429d5, 0x11de1779, 0x5a2f5ea5, 0x3575227e), Regs(0x3575227e, 0xfadcaa38, 0x11de1779, 0x5a2f5ea5));
    StepBy(r, w, 42, 0xb12de3e4, 0xbb9236e7, 0x36e7bb92,
           Regs(0x3575227e, 0xfadcaa38, 0x11de1779, 0x5a2f5ea5), Regs(0x5a2f5ea5, 0x31c465ca, 0xfadcaa38, 0x11de1779));
    StepBy(r, w, 43, 0xdac6d88b, 0x397e5435, 0x1a9cbf2a,
           Regs(0x5a2f5ea5, 0x31c465ca, 0xfadcaa38, 0x11de1779), Regs(0x11de1779, 0x4c6124f4, 0x31c465ca, 0xfadcaa38));
    StepBy(r, w, 44, 0x8779eb06, 0x732cd2b8, 0x32cd2b87,
           Regs(0x11de1779, 0x4c6124f4, 0x31c465ca, 0xfadcaa38), Regs(0xfadcaa38, 0x7f2e507b, 0x4c6124f4, 0x31c465ca));
    StepBy(r, w, 45, 0x28b1145, 0xe4435562, 0x1aab1722,
           Regs(0xfadcaa38, 0x7f2e507b, 0x4c6124f4, 0x31c465ca), Regs(0x31c465ca, 0x99d9679d, 0x7f2e507b, 0x4c6124f4));
    StepBy(r, w, 46, 0xaa961312, 0xfbfcf5d4, 0xf5d4fbfc,
           Regs(0x31c465ca, 0x99d9679d, 0x7f2e507b, 0x4c6124f4), Regs(0x4c6124f4, 0x8fae6399, 0x99d9679d, 0x7f2e507b));
    StepBy(r, w, 47, 0x6959547f, 0x7a66cfd8, 0xec3d3367,
           Regs(0x4c6124f4, 0x8fae6399, 0x99d9679d, 0x7f2e507b), Regs(0x7f2e507b, 0x7beb9700, 0x8fae6399, 0x99d9679d));
  }

  lemma AbcMixes56()
    ensures I(0x7beb9700, 0x8fae6399, 0x99d9679d) == 0xf041fcfb
    ensures I(0x7b201df8, 0x7beb9700, 0x8fae6399) == 0x9a0afe
    ensures I(0xf4e8e96e, 0x7b201df8, 0x7beb9700) == 0x8fdcf407
    ensures I(0xb298cefd, 0xf4e8e96e, 0x7b201df8) == 0x42370791
    ensures I(0x8bf025c4, 0xb298cefd, 0xf4e8e96e) == 0x396ff928
    ensures I(0x6cc5e8a, 0x8bf025c4, 0xb298cefd) == 0xc41f5a4e
    ensures I(0x5b0d97aa, 0x6cc5e8a, 0x8bf025c4) == 0x79c38131
    ensures I(0x7d632dd0, 0x5b0d97aa, 0x6cc5e8a) == 0xa67e3a5f
  {
  }

  lemma AbcTurns56()
    ensures RotateLeft(0xe3fcd21b, 6) == 0xff3486f8
    ensures RotateLeft(0xdd9e7232, 10) == 0x79c8cb76
    ensures RotateLeft(0xcb1f7b5f, 15) == 0xbdafe58f
    ensures RotateLeft(0xbab63eca, 21) == 0xd95756c7
    ensures RotateLeft(0x19eb70e3, 6) == 0x7adc38c6
    ensures RotateLeft(0x4815104e, 10) == 0x54413920
    ensures RotateLeft(0x2c4c44ab, 15) == 0x22559626
    ensures RotateLeft(0xb7f2bdf4, 21) == 0xbe96fe57
  {
  }

  lemma AbcSteps56(r: Regs, w: seq<Word>)
    requires |w| == 16 && r == Regs(0x67452301, 0xefcdab89, 0x98badcfe, 0x10325476) && w == AbcWords()
    ensures Reaches(r, w, 56, Regs(0x6cc5e8a, 0x3bfa2c27, 0x7d632dd0, 0x5b0d97aa))
  {
    hide F, G, H, I, RotateLeft, Reaches;
    AbcMixes56();
    AbcTurns56();
    AbcSteps48(r, w);
    StepBy(r, w, 48, 0xf041fcfb, 0xe3fcd21b, 0xff3486f8,
           Regs(0x7f2e507b, 0x7beb9700, 0x8fae6399, 0x99d9679d), Regs(0x99d9679d, 0x7b201df8, 0x7beb9700, 0x8fae6399));
    StepBy(r, w, 49, 0x9a0afe, 0xdd9e7232, 0x79c8cb76,
           Regs(0x99d9679d, 0x7b201df8, 0x7beb9700, 0x8fae6399), Regs(0x8fae6399, 0xf4e8e96e, 0x7b201df8, 0x7beb9700));
    StepBy(r, w, 50, 0x8fdcf407, 0xcb1f7b5f, 0xbdafe58f,
           Regs(0x8fae6399, 0xf4e8e96e, 0x7b201df8, 0x7beb9700), Regs(0x7beb9700, 0xb298cefd, 0xf4e8e96e, 0x7b201df8));
    StepBy(r, w, 51, 0x42370791, 0xbab63eca, 0xd95756c7,
           Regs(0x7beb9700, 0xb298cefd, 0xf4e8e96e, 0x7b201df8), Regs(0x7b201df8, 0x8bf025c4, 0xb298cefd, 0xf4e8e96e));
    StepBy(r, w, 52, 0x396ff928, 0x19eb70e3, 0x7adc38c6,
           Regs(0x7b201df8, 0x8bf025c4, 0xb298cefd, 0xf4e8e96e), Regs(0xf4e8e96e, 0x6cc5e8a, 0x8bf025c4, 0xb298cefd));
    StepBy(r, w, 53, 0xc41f5a4e, 0x4815104e, 0x54413920,
           Regs(0xf4e8e96e, 0x6cc5e8a, 0x8bf025c4, 0xb298cefd), Regs(0xb298cefd, 0x5b0d97aa, 0x6cc5e8a, 0x8bf025c4));
    StepBy(r, w, 54, 0x79c38131, 0x2c4c44ab, 0x22559626,
           Regs(0xb298cefd, 0x5b0d97aa, 0x6cc5e8a, 0x8bf025c4), Regs(0x8bf025c4, 0x7d632dd0, 0x5b0d97aa, 0x6cc5e8a));
    StepBy(r, w, 55, 0xa67e3a5f, 0xb7f2bdf4, 0xbe96fe57,
           Regs(0x8bf025c4, 0x7d632dd0, 0x5b0d97aa, 0x6cc5e8a), Regs(0x6cc5e8a, 0x3bfa2c27, 0x7d632dd0, 0x5b0d97aa));
  }

  lemma AbcMixes64()
    ensures I(0x3bfa2c27, 0x7d632dd0, 0x5b0d97aa) == 0xc29941a7
    ensures I(0x7f81cc35, 0x3bfa2c27, 0x7d632dd0) == 0xc467f218
    ensures I(0x94454ab, 0x7f81cc35, 0x3bfa2c27) == 0xb2c41bce
    ensures I(0x4f9dbe3f, 0x94454ab, 0x7f81cc35) == 0xc6bbeb54
    ensures I(0x7327d604, 0x4f9dbe3f, 0x94454ab) == 0xb822416b
    ensures I(0x310ade8f, 0x7327d604, 0x4f9dbe3f) == 0xc24d09cb
    ensures I(0x624d8cb2, 0x310ade8f, 0x7327d604) == 0xdfd77374
    ensures I(0xe484b9d8, 0x624d8cb2, 0x310ade8f) == 0x8cb8354a
  {
  }

  lemma AbcTurns64()
    ensures RotateLeft(0x390e1e80, 6) == 0x4387a00e
    ensures RotateLeft(0x1da270a2, 10) == 0x89c28876
    ensures RotateLeft(0xd3288cb2, 15) == 0x46596994
    ensures RotateLeft(0x50be291c, 21) == 0x238a17c5
    ensures RotateLeft(0x2ef78c22, 6) == 0xbde3088b
    ensures RotateLeft(0x88cc50ab, 10) == 0x3142ae23
    ensures RotateLeft(0x5a4d046e, 15) == 0x82372d26
    ensures RotateLeft(0xeb66dedf, 21) == 0xdbfd6cdb
  {
  }

  lemma AbcSteps64(r: Regs, w: seq<Word>)
    requires |w| == 16 && r == Regs(0x67452301, 0xefcdab89, 0x98badcfe, 0x10325476) && w == AbcWords()
    ensures Reaches(r, w, 64, Regs(0x310ade8f, 0xc08226b3, 0xe484b9d8, 0x624d8cb2))
  {
    hide F, G, H, I, RotateLeft, Reaches;
    AbcMixes64();
    AbcTurns64();
    AbcSteps56(r, w);
    StepBy(r, w, 56, 0xc29941a7, 0x390e1e80, 0x4387a00e,
           Regs(0x6cc5e8a, 0x3bfa2c27, 0x7d632dd0, 0x5b0d97aa), Regs(0x5b0d97aa, 0x7f81cc35, 0x3bfa2c27, 0x7d632dd0));
    StepBy(r, w, 57, 0xc467f218, 0x1da270a2, 0x89c28876,
           Regs(0x5b0d97aa, 0x7f81cc35, 0x3bfa2c27, 0x7d632dd0), Regs(0x7d632dd0, 0x94454ab, 0x7f81cc35, 0x3bfa2c27));
    StepBy(r, w, 58, 0xb2c41bce, 0xd3288cb2, 0x46596994,
           Regs(0x7d632dd0, 0x94454ab, 0x7f81cc35, 0x3bfa2c27), Regs(0x3bfa2c27, 0x4f9dbe3f, 0x94454ab, 0x7f81cc35));
    StepBy(r, w, 59, 0xc6bbeb54, 0x50be291c, 0x238a17c5,
           Regs(0x3bfa2c27, 0x4f9dbe3f, 0x94454ab, 0x7f81cc35), Regs(0x7f81cc35, 0x7327d604, 0x4f9dbe3f, 0x94454ab));
    StepBy(r, w, 60, 0xb822416b, 0x2ef78c22, 0xbde3088b,
           Regs(0x7f81cc35, 0x7327d604, 0x4f9dbe3f, 0x94454ab), Regs(0x94454ab, 0x310ade8f, 0x7327d604, 0x4f9dbe3f));
    StepBy(r, w, 61, 0xc24d09cb, 0x88cc50ab, 0x3142ae23,
           Regs(0x94454ab, 0x310ade8f, 0x7327d604, 0x4f9dbe3f), Regs(0x4f9dbe3f, 0x624d8cb2, 0x310ade8f, 0x7327d604));
    StepBy(r, w, 62, 0xdfd77374, 0x5a4d046e, 0x82372d26,
           Regs(0x4f9dbe3f, 0x624d8cb2, 0x310ade8f, 0x7327d604), Regs(0x7327d604, 0xe484b9d8, 0x624d8cb2, 0x310ade8f));
    StepBy(r, w, 63, 0x8cb8354a, 0xeb66dedf, 0xdbfd6cdb,
           Regs(0x7327d604, 0xe484b9d8, 0x624d8cb2, 0x310ade8f), Regs(0x310ade8f, 0xc08226b3, 0xe484b9d8, 0x624d8cb2));
  }

  lemma AbcBlock(w: seq<Word>)
    requires |w| == 16 && w == AbcWords()
    ensures Compress(Regs(0x67452301, 0xefcdab89, 0x98badcfe, 0x10325476), w) == Regs(0x98500190, 0xb04fd23c, 0x7d3f96d6, 0x727fe128)
  {
    hide Steps, AbcWords;
    AbcSteps64(Regs(0x67452301, 0xefcdab89, 0x98badcfe, 0x10325476), w);
  }

  // The message.

  const ABC: seq<Byte> := [0x61, 0x62, 0x63]

  lemma AbcPadded()
    ensures Padded(ABC) == ABC + [0x80] + Zeros(52) + [24, 0, 0, 0, 0, 0, 0, 0]
  {
    hide *;
    AbcLength();
    AbcPadding();
    AbcUnfolds();
  }

  lemma AbcUnfolds()
    ensures Padded(ABC) == ABC + Padding(3) + Encode(LengthWords(3))
  {
    hide Padding, Encode, LengthWords;
  }

  lemma AbcPadding()
    ensures ABC + Padding(3) == ABC + [0x80] + Zeros(52)
  {
  }

  lemma AbcLength()
    ensures Encode(LengthWords(3)) == [24, 0, 0, 0, 0, 0, 0, 0]
  {
    assert LengthWords(3) == [24, 0];
  }

  lemma AbcDecoded(block: seq<Byte>)
    requires |block| == 64 && block == ABC + [0x80] + Zeros(52) + [24, 0, 0, 0, 0, 0, 0, 0]
    ensures Decode(block) == AbcWords()
  {
    hide ToWord, Zeros;
    AbcByteValues(block);
    AbcWordValues();
    assert forall i :: 0 <= i < 16 ==>
      Decode(block)[i] == ToWord(block[4 * i], block[4 * i + 1], block[4 * i + 2], block[4 * i + 3]);
    assert forall i :: 1 <= i < 14 ==> Decode(block)[i] == 0;
  }

  lemma AbcByteValues(block: seq<Byte>)
    requires |block| == 64 && block == ABC + [0x80] + Zeros(52) + [24, 0, 0, 0, 0, 0, 0, 0]
    ensures block[0] == 0x61 && block[1] == 0x62 && block[2] == 0x63 && block[3] == 0x80 && block[56] == 24
    ensures forall j :: 4 <= j < 64 && j != 56 ==> block[j] == 0
  {
  }

  lemma AbcWordValues()
    ensures ToWord(0x61, 0x62, 0x63, 0x80) == 0x80636261 && ToWord(0, 0, 0, 0) == 0 && ToWord(24, 0, 0, 0) == 24
  {
    hide ToWord;
    WordFrom(0x61, 0x62, 0x63, 0x80, 0x80636261);
    WordFrom(0, 0, 0, 0, 0);
    WordFrom(24, 0, 0, 0, 24);
  }

  lemma WordFrom(b0: Byte, b1: Byte, b2: Byte, b3: Byte, w: Word)
    requires w == b0 + 0x100 * b1 + 0x1_0000 * b2 + 0x100_0000 * b3
    ensures ToWord(b0, b1, b2, b3) == w
  {
  }

  /** The digest of "abc". */
  lemma Md5OfAbc()
    ensures Md5(['a' as int, 'b' as int, 'c' as int]) ==
            [0x90, 0x1, 0x50, 0x98, 0x3c, 0xd2, 0x4f, 0xb0,
             0xd6, 0x96, 0x3f, 0x7d, 0x28, 0xe1, 0x7f, 0x72]
  {
    hide Compress, Decode, AbcWords, Encode, Padded;
    AbcPadded();
    var block := Padded(ABC);
    assert |block| == 64;
    AbcDecoded(block);
    AbcBlock(AbcWords());
    assert block[..64] == block && block[64..] == [];
    assert Absorb(INIT, block) == Compress(INIT, AbcWords());
    AbcEncoded();
  }

  lemma AbcEncoded()
    ensures Encode([0x98500190, 0xb04fd23c, 0x7d3f96d6, 0x727fe128]) ==
            [0x90, 0x1, 0x50, 0x98, 0x3c, 0xd2, 0x4f, 0xb0,
             0xd6, 0x96, 0x3f, 0x7d, 0x28, 0xe1, 0x7f, 0x72]
  {
    hide ByteOf;
    AbcBytes();
    var w: seq<Word> := [0x98500190, 0xb04fd23c, 0x7d3f96d6, 0x727fe128];
    assert forall j :: 0 <= j < 16 ==> Encode(w)[j] == ByteOf(w[j / 4], j % 4);
  }

  lemma AbcBytes()
    ensures ByteOf(0x98500190, 0) == 0x90 && ByteOf(0x98500190, 1) == 0x1 && ByteOf(0x98500190, 2) == 0x50 && ByteOf(0x98500190, 3) == 0x98
    ensures ByteOf(0xb04fd23c, 0) == 0x3c && ByteOf(0xb04fd23c, 1) == 0xd2 && ByteOf(0xb04fd23c, 2) == 0x4f && ByteOf(0xb04fd23c, 3) == 0xb0
    ensures ByteOf(0x7d3f96d6, 0) == 0xd6 && ByteOf(0x7d3f96d6, 1) == 0x96 && ByteOf(0x7d3f96d6, 2) == 0x3f && ByteOf(0x7d3f96d6, 3) == 0x7d
    ensures ByteOf(0x727fe128, 0) == 0x28 && ByteOf(0x727fe128, 1) == 0xe1 && ByteOf(0x727fe128, 2) == 0x7f && ByteOf(0x727fe128, 3) == 0x72
  {
  }
}
