/** What the operations on the bits of a word are in terms of its value. */
module Md5Bits {
  import opened Md5Spec
  import opened Md5Vector
  import Arith

  function Power2(n: nat): (p: nat)
    ensures p > 0
  {
    if n == 0 then 1 else 2 * Power2(n - 1)
  }

  // Rotation.

  lemma RotateOne(x: Word)
    ensures RotateLeft(x, 1) == 2 * x - (if x < 0x8000_0000 then 0 else 0xFFFF_FFFF)
  {
    hide Rotated, Val, Bits;
    var b := BitsOf(x);
    TopBit(b);
    RotatedOne(b);
  }

  lemma RotateOneMore(x: Word, n: nat)
    requires 2 <= n < 32
    ensures RotateLeft(x, n) == RotateLeft(RotateLeft(x, n - 1), 1)
  {
    hide Rotated, Val, Bits;
    RotatedOneMore(Bits(x), n);
    ThereAndBack(Rotated(Bits(x), n - 1));
  }

  /** Rotation in terms of the value: the low bits move up by n, the high ones come in below. */
  lemma {:induction false} RotateIs(x: Word, n: nat)
    requires 0 < n < 32
    ensures RotateLeft(x, n) == x * Power2(n) % 0x1_0000_0000 + x / Power2(32 - n)
    decreases n
  {
    hide RotateLeft;
    Power31();
    if n == 1 {
      RotateOne(x);
      TwoMod(x);
    } else {
      RotateIs(x, n - 1);
      RotateOneMore(x, n);
      RotateOne(RotateLeft(x, n - 1));
      OnceMore(x, n, RotateLeft(x, n - 1));
    }
  }

  lemma Power31()
    ensures Power2(1) == 2 && Power2(31) == 0x8000_0000
  {
    assert Power2(0) == 1;
    PowerSplit(16, 15);
    PowerSplit(8, 8);
    PowerSplit(8, 7);
    PowerSplit(4, 4);
    PowerSplit(4, 3);
    assert Power2(4) == 16 by { assert Power2(2) == 4; assert Power2(3) == 8; }
  }

  lemma {:induction false} PowerSplit(a: nat, b: nat)
    ensures Power2(a + b) == Power2(a) * Power2(b)
    decreases a
  {
    if a > 0 {
      PowerSplit(a - 1, b);
      TwiceProduct(Power2(a - 1), Power2(b));
    }
  }

  lemma TwiceProduct(a: nat, b: nat)
    ensures 2 * (a * b) == (2 * a) * b
  {
  }

  lemma TwoMod(x: Word)
    ensures x * 2 % 0x1_0000_0000 + x / 0x8000_0000 == 2 * x - (if x < 0x8000_0000 then 0 else 0xFFFF_FFFF)
  {
  }

  /** x in three parts: the bits above, the next bit, and the rest. */
  lemma OnceMore(x: Word, n: nat, r: Word)
    requires 2 <= n < 32 && r == x * Power2(n - 1) % 0x1_0000_0000 + x / Power2(33 - n)
    ensures 2 * r - (if r < 0x8000_0000 then 0 else 0xFFFF_FFFF) == x * Power2(n) % 0x1_0000_0000 + x / Power2(32 - n)
  {
    PowerSplit(n - 1, 32 - n);
    Power31();
    assert Power2(n) == 2 * Power2(n - 1) && Power2(33 - n) == 2 * Power2(32 - n);
    hide Power2;
    TurnOnce(x, Power2(n - 1), Power2(32 - n), r);
  }

  lemma TurnOnce(x: Word, p: nat, q: nat, r: Word)
    requires p > 0 && q > 0 && p * q == 0x8000_0000 && r == x * p % 0x1_0000_0000 + x / (2 * q)
    ensures 2 * r - (if r < 0x8000_0000 then 0 else 0xFFFF_FFFF) == x * (2 * p) % 0x1_0000_0000 + x / q
  {
    var y, low := x / q, x % q;
    Arith.DivMod(x, q);
    var high, bit := y / 2, y % 2;
    Arith.DivMod(y, 2);
    SplitPower(x, p, q, y, low);
    SplitHigh(x, q, high, bit, low);
    LowBelow(p, q, low);
    HighBelow(x, p, q, high, bit, low);
    TurnedParts(r, high, bit, p, p * low);
  }

  lemma TurnedParts(r: nat, high: nat, bit: nat, p: nat, low: nat)
    requires r == 0x8000_0000 * bit + low + high && bit < 2 && high < p && low <= 0x8000_0000 - p
    ensures 2 * r - (if r < 0x8000_0000 then 0 else 0xFFFF_FFFF) == 2 * low + (2 * high + bit)
  {
  }

  lemma LowBelow(p: nat, q: nat, low: nat)
    requires p > 0 && low < q && p * q == 0x8000_0000
    ensures p * low <= 0x8000_0000 - p
  {
    Arith.MulMono(p, low, q - 1);
    Arith.Distribute(p, q, -1);
  }

  lemma HighBelow(x: Word, p: nat, q: nat, high: nat, bit: nat, low: nat)
    requires q > 0 && p * q == 0x8000_0000 && x == q * (2 * high + bit) + low
    ensures high < p
  {
    assert high >= p ==> q * (2 * p) <= q * (2 * high + bit) by {
      if high >= p {
        Arith.MulMono(q, 2 * p, 2 * high + bit);
      }
    }
    assert q * (2 * p) == 2 * (p * q);
  }

  lemma SplitPower(x: Word, p: nat, q: nat, y: nat, low: nat)
    requires p > 0 && low < q && p * q == 0x8000_0000 && x == q * y + low
    ensures x * p == 0x8000_0000 * y + p * low
    ensures x * p % 0x1_0000_0000 == 0x8000_0000 * (y % 2) + p * low
    ensures x * (2 * p) % 0x1_0000_0000 == 2 * (p * low)
  {
    LowBelow(p, q, low);
    SpreadOver(x, p, q, y, low);
    ParityOnly(x * p, y, p * low);
    assert x * (2 * p) == 2 * (x * p);
  }

  lemma SpreadOver(x: int, p: int, q: int, y: int, low: int)
    requires x == q * y + low
    ensures x * p == (p * q) * y + p * low
  {
    Arith.Commute(x, p);
    Arith.Distribute(p, q * y, low);
    assert p * (q * y) == (p * q) * y;
  }

  lemma ParityOnly(a: nat, y: nat, b: nat)
    requires a == 0x8000_0000 * y + b && b < 0x8000_0000
    ensures a % 0x1_0000_0000 == 0x8000_0000 * (y % 2) + b
    ensures 2 * a % 0x1_0000_0000 == 2 * b
  {
    Arith.DivMod(y, 2);
    Arith.DivIs(a, 0x1_0000_0000, y / 2);
    Arith.DivIs(2 * a, 0x1_0000_0000, y);
  }

  lemma SplitHigh(x: Word, q: nat, high: nat, bit: nat, low: nat)
    requires q > 0 && low < q && bit < 2 && x == q * (2 * high + bit) + low
    ensures x / (2 * q) == high
  {
    assert q * (2 * high + bit) == (2 * q) * high + q * bit by {
      Arith.Distribute(q, 2 * high, bit);
      assert q * (2 * high) == (2 * q) * high;
    }
    assert q * bit <= q by { Arith.MulMono(q, bit, 1); }
    Arith.DivIs(x, 2 * q, high);
  }

  // The functions of three words, bit by bit.

  /** Each bit of F is that of y where x has a one, and that of z elsewhere. */
  lemma FChooses(x: Word, y: Word, z: Word)
    ensures F(x, y, z) % 2 == (if x % 2 == 1 then y % 2 else z % 2) && F(x, y, z) / 2 == F(x / 2, y / 2, z / 2)
  {
    hide Chosen, Val, Bits, Half, Odd;
    HalfOf(x);
    HalfOf(y);
    HalfOf(z);
    Halved(Chosen(Bits(x), Bits(y), Bits(z)));
    ChosenHalves(Bits(x), Bits(y), Bits(z));
  }

  /** Each bit of G is that of x where z has a one, and that of y elsewhere. */
  lemma GChooses(x: Word, y: Word, z: Word)
    ensures G(x, y, z) == F(z, x, y)
  {
    hide Val, Bits;
    ChosenTurned(Bits(x), Bits(y), Bits(z));
  }

  lemma ChosenTurned(a: bv32, b: bv32, c: bv32)
    ensures (a & c) | (b & !c) == Chosen(c, a, b)
  {
  }

  /** Each bit of H is a one where an odd number of the three are. */
  lemma HAdds(x: Word, y: Word, z: Word)
    ensures H(x, y, z) % 2 == (x % 2 + y % 2 + z % 2) % 2 && H(x, y, z) / 2 == H(x / 2, y / 2, z / 2)
  {
    hide Parity, Val, Bits, Half, Odd;
    HalfOf(x);
    HalfOf(y);
    HalfOf(z);
    Halved(Parity(Bits(x), Bits(y), Bits(z)));
    ParityHalves(Bits(x), Bits(y), Bits(z));
  }
}
