/** Vectors of 32 bits: their values, their halves, and rotation one position after the other. */
module Md5Vector {

  type Word = x: int | 0 <= x < 0x1_0000_0000

  /** The value of a vector. */
  function Val(b: bv32): Word {
    b as int
  }

  function Bits(x: Word): bv32 {
    x as bv32
  }

  /** The vector without its last bit, and that bit. */
  function Half(b: bv32): bv32 {
    b >> 1
  }

  predicate Odd(b: bv32) {
    b & 1 == 1
  }

  function Chosen(a: bv32, b: bv32, c: bv32): bv32 {
    (a & b) | (!a & c)
  }

  function Parity(a: bv32, b: bv32, c: bv32): bv32 {
    a ^ b ^ c
  }

  function Rotated(b: bv32, n: nat): bv32
    requires 0 < n < 32
  {
    (b << n) | (b >> (32 - n))
  }

  lemma DoubledBits(b: bv32)
    requires b < 0x8000_0000
    ensures (b << 1) as int == 2 * (b as int)
    ensures ((b << 1) | 1) as int == 2 * (b as int) + 1
  {
  }

  lemma Doubled(b: bv32)
    requires b < 0x8000_0000
    ensures Val(b << 1) == 2 * Val(b) && Val((b << 1) | 1) == 2 * Val(b) + 1
  {
    DoubledBits(b);
  }

  lemma TopBit(b: bv32)
    ensures b < 0x8000_0000 <==> Val(b) < 0x8000_0000
  {
    if b < 0x8000_0000 {
      Doubled(b);
    } else {
      TopBitSet(b);
    }
  }

  lemma TopBitSet(b: bv32)
    ensures b >= 0x8000_0000 ==> b as int >= 0x8000_0000
  {
  }

  lemma ThereAndBack(b: bv32)
    ensures Bits(Val(b)) == b
  {
  }

  lemma ZeroAndOne()
    ensures Val(0) == 0 && Val(1) == 1
  {
  }

  /** Every word is the value of its bits. */
  lemma {:induction false} BitsOf(x: Word) returns (b: bv32)
    ensures Val(b) == x && Bits(x) == b
    decreases x
  {
    hide Val, Bits;
    if x == 0 {
      ZeroAndOne();
      b := 0;
    } else {
      var h := BitsOf(x / 2);
      TopBit(h);
      Doubled(h);
      b := if x % 2 == 0 then h << 1 else (h << 1) | 1;
    }
    ThereAndBack(b);
  }

  lemma LastBit(b: bv32)
    ensures b >> 1 < 0x8000_0000
    ensures (b == (b >> 1) << 1 && b & 1 == 0) || (b == ((b >> 1) << 1) | 1 && b & 1 == 1)
  {
  }

  /** Halving a vector halves its value. */
  lemma Halved(b: bv32)
    ensures Val(Half(b)) == Val(b) / 2 && (Odd(b) <==> Val(b) % 2 == 1)
  {
    hide Val;
    LastBit(b);
    Doubled(b >> 1);
  }

  /** Halving a word halves its vector. */
  lemma HalfOf(x: Word)
    ensures Bits(x / 2) == Half(Bits(x)) && (Odd(Bits(x)) <==> x % 2 == 1)
  {
    hide Val, Bits, Half, Odd;
    var b := BitsOf(x);
    Halved(b);
    ThereAndBack(Half(b));
  }

  lemma ChosenHalf(a: bv32, b: bv32, c: bv32)
    ensures ((a & b) | (!a & c)) >> 1 == ((a >> 1) & (b >> 1)) | (!(a >> 1) & (c >> 1))
    ensures ((a & b) | (!a & c)) & 1 == if a & 1 == 1 then b & 1 else c & 1
  {
  }

  lemma ChosenHalves(a: bv32, b: bv32, c: bv32)
    ensures Half(Chosen(a, b, c)) == Chosen(Half(a), Half(b), Half(c))
    ensures Odd(Chosen(a, b, c)) <==> if Odd(a) then Odd(b) else Odd(c)
  {
    hide Chosen;
    ChosenIs(a, b, c);
    ChosenIs(a >> 1, b >> 1, c >> 1);
    ChosenHalf(a, b, c);
  }

  lemma ChosenIs(a: bv32, b: bv32, c: bv32)
    ensures Chosen(a, b, c) == (a & b) | (!a & c)
  {
  }

  lemma ParityHalf(a: bv32, b: bv32, c: bv32)
    ensures (a ^ b ^ c) >> 1 == (a >> 1) ^ (b >> 1) ^ (c >> 1)
    ensures (a ^ b ^ c) & 1 == (a & 1) ^ (b & 1) ^ (c & 1)
  {
  }

  lemma ParityHalves(a: bv32, b: bv32, c: bv32)
    ensures Half(Parity(a, b, c)) == Parity(Half(a), Half(b), Half(c))
    ensures Odd(Parity(a, b, c)) <==> ((Odd(a) != Odd(b)) != Odd(c))
  {
    ParityHalf(a, b, c);
  }

  lemma RotatedOneBits(b: bv32)
    ensures ((b << 1) | (b >> 31)) as int == 2 * (b as int) - (if b < 0x8000_0000 then 0 else 0xFFFF_FFFF)
  {
  }

  lemma RotatedIs(b: bv32, n: nat)
    requires 0 < n < 32
    ensures Rotated(b, n) == (b << n) | (b >> (32 - n))
  {
  }

  lemma ValIs(b: bv32)
    ensures Val(b) == b as int
  {
  }

  lemma RotatedOne(b: bv32)
    ensures Val(Rotated(b, 1)) == 2 * Val(b) - (if b < 0x8000_0000 then 0 else 0xFFFF_FFFF)
  {
    hide Rotated, Val;
    RotatedIs(b, 1);
    ValIs(b);
    ValIs((b << 1) | (b >> 31));
    RotatedOneBits(b);
  }

  // Rotation.

  lemma Rotated2(b: bv32)
    ensures Rotated(b, 2) == Rotated(Rotated(b, 1), 1)
  {
    assert (b << 2) | (b >> 30) ==
           (((b << 1) | (b >> 31)) << 1) | (((b << 1) | (b >> 31)) >> 31);
  }

  lemma Rotated3(b: bv32)
    ensures Rotated(b, 3) == Rotated(Rotated(b, 2), 1)
  {
    assert (b << 3) | (b >> 29) ==
           (((b << 2) | (b >> 30)) << 1) | (((b << 2) | (b >> 30)) >> 31);
  }

  lemma Rotated4(b: bv32)
    ensures Rotated(b, 4) == Rotated(Rotated(b, 3), 1)
  {
    assert (b << 4) | (b >> 28) ==
           (((b << 3) | (b >> 29)) << 1) | (((b << 3) | (b >> 29)) >> 31);
  }

  lemma Rotated5(b: bv32)
    ensures Rotated(b, 5) == Rotated(Rotated(b, 4), 1)
  {
    assert (b << 5) | (b >> 27) ==
           (((b << 4) | (b >> 28)) << 1) | (((b << 4) | (b >> 28)) >> 31);
  }

  lemma Rotated6(b: bv32)
    ensures Rotated(b, 6) == Rotated(Rotated(b, 5), 1)
  {
    assert (b << 6) | (b >> 26) ==
           (((b << 5) | (b >> 27)) << 1) | (((b << 5) | (b >> 27)) >> 31);
  }

  lemma Rotated7(b: bv32)
    ensures Rotated(b, 7) == Rotated(Rotated(b, 6), 1)
  {
    assert (b << 7) | (b >> 25) ==
           (((b << 6) | (b >> 26)) << 1) | (((b << 6) | (b >> 26)) >> 31);
  }

  lemma Rotated8(b: bv32)
    ensures Rotated(b, 8) == Rotated(Rotated(b, 7), 1)
  {
    assert (b << 8) | (b >> 24) ==
           (((b << 7) | (b >> 25)) << 1) | (((b << 7) | (b >> 25)) >> 31);
  }

  lemma Rotated9(b: bv32)
    ensures Rotated(b, 9) == Rotated(Rotated(b, 8), 1)
  {
    assert (b << 9) | (b >> 23) ==
           (((b << 8) | (b >> 24)) << 1) | (((b << 8) | (b >> 24)) >> 31);
  }

  lemma Rotated10(b: bv32)
    ensures Rotated(b, 10) == Rotated(Rotated(b, 9), 1)
  {
    assert (b << 10) | (b >> 22) ==
           (((b << 9) | (b >> 23)) << 1) | (((b << 9) | (b >> 23)) >> 31);
  }

  lemma Rotated11(b: bv32)
    ensures Rotated(b, 11) == Rotated(Rotated(b, 10), 1)
  {
    assert (b << 11) | (b >> 21) ==
           (((b << 10) | (b >> 22)) << 1) | (((b << 10) | (b >> 22)) >> 31);
  }

  lemma Rotated12(b: bv32)
    ensures Rotated(b, 12) == Rotated(Rotated(b, 11), 1)
  {
    assert (b << 12) | (b >> 20) ==
           (((b << 11) | (b >> 21)) << 1) | (((b << 11) | (b >> 21)) >> 31);
  }

  lemma Rotated13(b: bv32)
    ensures Rotated(b, 13) == Rotated(Rotated(b, 12), 1)
  {
    assert (b << 13) | (b >> 19) ==
           (((b << 12) | (b >> 20)) << 1) | (((b << 12) | (b >> 20)) >> 31);
  }

  lemma Rotated14(b: bv32)
    ensures Rotated(b, 14) == Rotated(Rotated(b, 13), 1)
  {
    assert (b << 14) | (b >> 18) ==
           (((b << 13) | (b >> 19)) << 1) | (((b << 13) | (b >> 19)) >> 31);
  }

  lemma Rotated15(b: bv32)
    ensures Rotated(b, 15) == Rotated(Rotated(b, 14), 1)
  {
    assert (b << 15) | (b >> 17) ==
           (((b << 14) | (b >> 18)) << 1) | (((b << 14) | (b >> 18)) >> 31);
  }

  lemma Rotated16(b: bv32)
    ensures Rotated(b, 16) == Rotated(Rotated(b, 15), 1)
  {
    assert (b << 16) | (b >> 16) ==
           (((b << 15) | (b >> 17)) << 1) | (((b << 15) | (b >> 17)) >> 31);
  }

  lemma Rotated17(b: bv32)
    ensures Rotated(b, 17) == Rotated(Rotated(b, 16), 1)
  {
    assert (b << 17) | (b >> 15) ==
           (((b << 16) | (b >> 16)) << 1) | (((b << 16) | (b >> 16)) >> 31);
  }

  lemma Rotated18(b: bv32)
    ensures Rotated(b, 18) == Rotated(Rotated(b, 17), 1)
  {
    assert (b << 18) | (b >> 14) ==
           (((b << 17) | (b >> 15)) << 1) | (((b << 17) | (b >> 15)) >> 31);
  }

  lemma Rotated19(b: bv32)
    ensures Rotated(b, 19) == Rotated(Rotated(b, 18), 1)
  {
    assert (b << 19) | (b >> 13) ==
           (((b << 18) | (b >> 14)) << 1) | (((b << 18) | (b >> 14)) >> 31);
  }

  lemma Rotated20(b: bv32)
    ensures Rotated(b, 20) == Rotated(Rotated(b, 19), 1)
  {
    assert (b << 20) | (b >> 12) ==
           (((b << 19) | (b >> 13)) << 1) | (((b << 19) | (b >> 13)) >> 31);
  }

  lemma Rotated21(b: bv32)
    ensures Rotated(b, 21) == Rotated(Rotated(b, 20), 1)
  {
    assert (b << 21) | (b >> 11) ==
           (((b << 20) | (b >> 12)) << 1) | (((b << 20) | (b >> 12)) >> 31);
  }

  lemma Rotated22(b: bv32)
    ensures Rotated(b, 22) == Rotated(Rotated(b, 21), 1)
  {
    assert (b << 22) | (b >> 10) ==
           (((b << 21) | (b >> 11)) << 1) | (((b << 21) | (b >> 11)) >> 31);
  }

  lemma Rotated23(b: bv32)
    ensures Rotated(b, 23) == Rotated(Rotated(b, 22), 1)
  {
    assert (b << 23) | (b >> 9) ==
           (((b << 22) | (b >> 10)) << 1) | (((b << 22) | (b >> 10)) >> 31);
  }

  lemma Rotated24(b: bv32)
    ensures Rotated(b, 24) == Rotated(Rotated(b, 23), 1)
  {
    assert (b << 24) | (b >> 8) ==
           (((b << 23) | (b >> 9)) << 1) | (((b << 23) | (b >> 9)) >> 31);
  }

  lemma Rotated25(b: bv32)
    ensures Rotated(b, 25) == Rotated(Rotated(b, 24), 1)
  {
    assert (b << 25) | (b >> 7) ==
           (((b << 24) | (b >> 8)) << 1) | (((b << 24) | (b >> 8)) >> 31);
  }

  lemma Rotated26(b: bv32)
    ensures Rotated(b, 26) == Rotated(Rotated(b, 25), 1)
  {
    assert (b << 26) | (b >> 6) ==
           (((b << 25) | (b >> 7)) << 1) | (((b << 25) | (b >> 7)) >> 31);
  }

  lemma Rotated27(b: bv32)
    ensures Rotated(b, 27) == Rotated(Rotated(b, 26), 1)
  {
    assert (b << 27) | (b >> 5) ==
           (((b << 26) | (b >> 6)) << 1) | (((b << 26) | (b >> 6)) >> 31);
  }

  lemma Rotated28(b: bv32)
    ensures Rotated(b, 28) == Rotated(Rotated(b, 27), 1)
  {
    assert (b << 28) | (b >> 4) ==
           (((b << 27) | (b >> 5)) << 1) | (((b << 27) | (b >> 5)) >> 31);
  }

  lemma Rotated29(b: bv32)
    ensures Rotated(b, 29) == Rotated(Rotated(b, 28), 1)
  {
    assert (b << 29) | (b >> 3) ==
           (((b << 28) | (b >> 4)) << 1) | (((b << 28) | (b >> 4)) >> 31);
  }

  lemma Rotated30(b: bv32)
    ensures Rotated(b, 30) == Rotated(Rotated(b, 29), 1)
  {
    assert (b << 30) | (b >> 2) ==
           (((b << 29) | (b >> 3)) << 1) | (((b << 29) | (b >> 3)) >> 31);
  }

  lemma Rotated31(b: bv32)
    ensures Rotated(b, 31) == Rotated(Rotated(b, 30), 1)
  {
    assert (b << 31) | (b >> 1) ==
           (((b << 30) | (b >> 2)) << 1) | (((b << 30) | (b >> 2)) >> 31);
  }

  /** One more position is one position more. */
  lemma RotatedOneMore(b: bv32, n: nat)
    requires 2 <= n < 32
    ensures Rotated(b, n) == Rotated(Rotated(b, n - 1), 1)
  {
    hide Rotated;
    match n
    case 2 => Rotated2(b);
    case 3 => Rotated3(b);
    case 4 => Rotated4(b);
    case 5 => Rotated5(b);
    case 6 => Rotated6(b);
    case 7 => Rotated7(b);
    case 8 => Rotated8(b);
    case 9 => Rotated9(b);
    case 10 => Rotated10(b);
    case 11 => Rotated11(b);
    case 12 => Rotated12(b);
    case 13 => Rotated13(b);
    case 14 => Rotated14(b);
    case 15 => Rotated15(b);
    case 16 => Rotated16(b);
    case 17 => Rotated17(b);
    case 18 => Rotated18(b);
    case 19 => Rotated19(b);
    case 20 => Rotated20(b);
    case 21 => Rotated21(b);
    case 22 => Rotated22(b);
    case 23 => Rotated23(b);
    case 24 => Rotated24(b);
    case 25 => Rotated25(b);
    case 26 => Rotated26(b);
    case 27 => Rotated27(b);
    case 28 => Rotated28(b);
    case 29 => Rotated29(b);
    case 30 => Rotated30(b);
    case _ => Rotated31(b);
  }
}
