/**
 * The unrolled MD5 block function that the accelerator's search runs, with its own decimal constants. Its
 * macros have the same form as the lines on the processor; only the constants are written out again.
 */
module Md5Kernel {
  import opened Md5Spec
  import opened Md5Cpu

  method KernelRound1(w: seq<Word>, a0: Word, b0: Word, c0: Word, d0: Word, ghost r: Regs)
    returns (a: Word, b: Word, c: Word, d: Word)
    requires |w| == 16 && Steps(r, w, 0) == Regs(a0, b0, c0, d0)
    ensures Steps(r, w, 16) == Regs(a, b, c, d)
  {
    hide FF, Steps, K, Pick, Turn;
    a, b, c, d := a0, b0, c0, d0;
    Constants1();
    Indices1();
    a := FF(a, b, c, d, w[0], S11, 3614090360);
    d := FF(d, a, b, c, w[1], S12, 3905402710);
    c := FF(c, d, a, b, w[2], S13, 606105819);
    b := FF(b, c, d, a, w[3], S14, 3250441966);
    FourFF(r, w, 0);
    a := FF(a, b, c, d, w[4], S11, 4118548399);
    d := FF(d, a, b, c, w[5], S12, 1200080426);
    c := FF(c, d, a, b, w[6], S13, 2821735955);
    b := FF(b, c, d, a, w[7], S14, 4249261313);
    FourFF(r, w, 4);
    a := FF(a, b, c, d, w[8], S11, 1770035416);
    d := FF(d, a, b, c, w[9], S12, 2336552879);
    c := FF(c, d, a, b, w[10], S13, 4294925233);
    b := FF(b, c, d, a, w[11], S14, 2304563134);
    FourFF(r, w, 8);
    a := FF(a, b, c, d, w[12], S11, 1804603682);
    d := FF(d, a, b, c, w[13], S12, 4254626195);
    c := FF(c, d, a, b, w[14], S13, 2792965006);
    b := FF(b, c, d, a, w[15], S14, 1236535329);
    FourFF(r, w, 12);
  }

  method KernelRound2(w: seq<Word>, a0: Word, b0: Word, c0: Word, d0: Word, ghost r: Regs)
    returns (a: Word, b: Word, c: Word, d: Word)
    requires |w| == 16 && Steps(r, w, 16) == Regs(a0, b0, c0, d0)
    ensures Steps(r, w, 32) == Regs(a, b, c, d)
  {
    hide GG, Steps, K, Pick, Turn;
    a, b, c, d := a0, b0, c0, d0;
    Constants2();
    Indices2();
    a := GG(a, b, c, d, w[1], S21, 4129170786);
    d := GG(d, a, b, c, w[6], S22, 3225465664);
    c := GG(c, d, a, b, w[11], S23, 643717713);
    b := GG(b, c, d, a, w[0], S24, 3921069994);
    FourGG(r, w, 16);
    a := GG(a, b, c, d, w[5], S21, 3593408605);
    d := GG(d, a, b, c, w[10], S22, 38016083);
    c := GG(c, d, a, b, w[15], S23, 3634488961);
    b := GG(b, c, d, a, w[4], S24, 3889429448);
    FourGG(r, w, 20);
    a := GG(a, b, c, d, w[9], S21, 568446438);
    d := GG(d, a, b, c, w[14], S22, 3275163606);
    c := GG(c, d, a, b, w[3], S23, 4107603335);
    b := GG(b, c, d, a, w[8], S24, 1163531501);
    FourGG(r, w, 24);
    a := GG(a, b, c, d, w[13], S21, 2850285829);
    d := GG(d, a, b, c, w[2], S22, 4243563512);
    c := GG(c, d, a, b, w[7], S23, 1735328473);
    b := GG(b, c, d, a, w[12], S24, 2368359562);
    FourGG(r, w, 28);
  }

  method KernelRound3(w: seq<Word>, a0: Word, b0: Word, c0: Word, d0: Word, ghost r: Regs)
    returns (a: Word, b: Word, c: Word, d: Word)
    requires |w| == 16 && Steps(r, w, 32) == Regs(a0, b0, c0, d0)
    ensures Steps(r, w, 48) == Regs(a, b, c, d)
  {
    hide HH, Steps, K, Pick, Turn;
    a, b, c, d := a0, b0, c0, d0;
    Constants3();
    Indices3();
    a := HH(a, b, c, d, w[5], S31, 4294588738);
    d := HH(d, a, b, c, w[8], S32, 2272392833);
    c := HH(c, d, a, b, w[11], S33, 1839030562);
    b := HH(b, c, d, a, w[14], S34, 4259657740);
    FourHH(r, w, 32);
    a := HH(a, b, c, d, w[1], S31, 2763975236);
    d := HH(d, a, b, c, w[4], S32, 1272893353);
    c := HH(c, d, a, b, w[7], S33, 4139469664);
    b := HH(b, c, d, a, w[10], S34, 3200236656);
    FourHH(r, w, 36);
    a := HH(a, b, c, d, w[13], S31, 681279174);
    d := HH(d, a, b, c, w[0], S32, 3936430074);
    c := HH(c, d, a, b, w[3], S33, 3572445317);
    b := HH(b, c, d, a, w[6], S34, 76029189);
    FourHH(r, w, 40);
    a := HH(a, b, c, d, w[9], S31, 3654602809);
    d := HH(d, a, b, c, w[12], S32, 3873151461);
    c := HH(c, d, a, b, w[15], S33, 530742520);
    b := HH(b, c, d, a, w[2], S34, 3299628645);
    FourHH(r, w, 44);
  }

  method KernelRound4(w: seq<Word>, a0: Word, b0: Word, c0: Word, d0: Word, ghost r: Regs)
    returns (a: Word, b: Word, c: Word, d: Word)
    requires |w| == 16 && Steps(r, w, 48) == Regs(a0, b0, c0, d0)
    ensures Steps(r, w, 64) == Regs(a, b, c, d)
  {
    hide II, Steps, K, Pick, Turn;
    a, b, c, d := a0, b0, c0, d0;
    Constants4();
    Indices4();
    a := II(a, b, c, d, w[0], S41, 4096336452);
    d := II(d, a, b, c, w[7], S42, 1126891415);
    c := II(c, d, a, b, w[14], S43, 2878612391);
    b := II(b, c, d, a, w[5], S44, 4237533241);
    FourII(r, w, 48);
    a := II(a, b, c, d, w[12], S41, 1700485571);
    d := II(d, a, b, c, w[3], S42, 2399980690);
    c := II(c, d, a, b, w[10], S43, 4293915773);
    b := II(b, c, d, a, w[1], S44, 2240044497);
    FourII(r, w, 52);
    a := II(a, b, c, d, w[8], S41, 1873313359);
    d := II(d, a, b, c, w[15], S42, 4264355552);
    c := II(c, d, a, b, w[6], S43, 2734768916);
    b := II(b, c, d, a, w[13], S44, 1309151649);
    FourII(r, w, 56);
    a := II(a, b, c, d, w[4], S41, 4149444226);
    d := II(d, a, b, c, w[11], S42, 3174756917);
    c := II(c, d, a, b, w[2], S43, 718787259);
    b := II(b, c, d, a, w[9], S44, 3951481745);
    FourII(r, w, 60);
  }

  /** The digest registers of one block, from the initial ones. */
  method BlockDigest(w: seq<Word>) returns (r: Regs)
    requires |w| == 16
    ensures r == Compress(INIT, w)
  {
    hide Steps;
    StepsNone(INIT, w);
    var a, b, c, d := KernelRound1(w, INIT.a, INIT.b, INIT.c, INIT.d, INIT);
    a, b, c, d := KernelRound2(w, a, b, c, d, INIT);
    a, b, c, d := KernelRound3(w, a, b, c, d, INIT);
    a, b, c, d := KernelRound4(w, a, b, c, d, INIT);
    r := Regs(Wrap(a + INIT.a), Wrap(b + INIT.b), Wrap(c + INIT.c), Wrap(d + INIT.d));
  }
}
