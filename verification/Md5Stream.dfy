/** Streaming MD5 on the CPU: a message arrives in updates of any length. */
module Md5Stream {
  import Arith
  import opened Md5Spec
  import opened Md5Cpu

  /** The whole blocks of n bytes. */
  function Whole(n: nat): nat {
    n / 64 * 64
  }

  lemma WholeIs(n: nat)
    ensures Whole(n) <= n < Whole(n) + 64 && Whole(n) % 64 == 0 && n - Whole(n) == n % 64
  {
    Arith.DivIs(Whole(n), 64, n / 64);
  }

  lemma WholeFrom(n: nat, w: nat)
    requires w % 64 == 0 && w <= n < w + 64
    ensures Whole(n) == w && n % 64 == n - w
  {
    Arith.DivIs(n, 64, w / 64);
  }

  /** The position in the buffer can be read off the low counter word. */
  lemma CountIndex(n: nat)
    ensures Wrap(8 * n) / 8 % 64 == n % 64
  {
    var q := 8 * n / TWO_TO_32;
    Arith.DivMod(8 * n, TWO_TO_32);
    var low := n - 0x2000_0000 * q;
    assert Wrap(8 * n) == 8 * low;
    Arith.DivIs(8 * low, 8, low);
    Arith.DivMod(n, 64);
    Arith.DivIs(low, 64, n / 64 - 0x80_0000 * q);
  }

  /** Adding to the two-word counter, with the carry as the code computes it. */
  lemma CountAdds(n: nat, k: nat)
    ensures var low := Wrap(Wrap(8 * n) + Wrap(8 * k));
            && low == Wrap(8 * (n + k))
            && Wrap(8 * (n + k) / TWO_TO_32) ==
               Wrap(Wrap(Wrap(8 * n / TWO_TO_32) + (if low < Wrap(8 * k) then 1 else 0)) + k / 0x2000_0000)
  {
    var q, p := 8 * n / TWO_TO_32, 8 * k / TWO_TO_32;
    Arith.DivMod(8 * n, TWO_TO_32);
    Arith.DivMod(8 * k, TWO_TO_32);
    Arith.DivMod(k, 0x2000_0000);
    Arith.DivIs(8 * k, TWO_TO_32, k / 0x2000_0000);
    var sum := Wrap(8 * n) + Wrap(8 * k);
    var carry := if sum >= TWO_TO_32 then 1 else 0;
    Arith.DivIs(8 * (n + k), TWO_TO_32, q + p + carry);
    Arith.DivIs(sum, TWO_TO_32, carry);
    WrapSum(q, carry, p);
  }

  lemma WrapSum(a: nat, b: nat, c: nat)
    ensures Wrap(Wrap(Wrap(a) + b) + c) == Wrap(a + b + c)
  {
    WrapAdd(a, b);
    WrapAdd(a + b, c);
  }

  lemma WrapAdd(a: nat, b: nat)
    ensures Wrap(Wrap(a) + b) == Wrap(a + b)
  {
    Arith.DivMod(a, TWO_TO_32);
    Arith.DivMod(Wrap(a) + b, TWO_TO_32);
    Arith.DivIs(a + b, TWO_TO_32, a / TWO_TO_32 + (Wrap(a) + b) / TWO_TO_32);
  }

  /**
   * In an update of this many bytes the 32-bit sum of the loop test stays exact; `first` bytes complete the
   * buffer.
   */
  predicate TestExact(first: nat, length: nat) {
    length < first || length < TWO_TO_32 - 64 + first % 64
  }

  /** The loop test is evaluated for i == first, first + 64, ... up to the length; that is all of them. */
  lemma TestExactIs(first: nat, length: nat)
    requires 1 <= first <= 64 && length < TWO_TO_32
    ensures TestExact(first, length) <==>
            forall i :: first <= i <= length && i % 64 == first % 64 ==> i + 64 < TWO_TO_32
  {
    var last := TWO_TO_32 - 64 + first % 64;
    Arith.DivIs(last, 64, 0x400_0000 - 1);
    forall i | first <= i <= length && i % 64 == first % 64 && TestExact(first, length) ensures i + 64 < TWO_TO_32 {
      Arith.DivMod(i, 64);
      assert 64 * (i / 64) < TWO_TO_32 - 64;
    }
    if !TestExact(first, length) {
      assert first <= last <= length && last % 64 == first % 64;
    }
  }

  lemma SumExact(first: nat, length: nat, i: nat)
    requires 1 <= first <= 64 && length < TWO_TO_32 && TestExact(first, length)
    requires first <= i <= length && i % 64 == first % 64
    ensures Wrap(i + 64) == i + 64
  {
    TestExactIs(first, length);
  }

  /** The loop as written, with its 32-bit sum, gets to i and absorbs the 64 bytes from there on. */
  ghost predicate Absorbs(first: nat, length: nat, i: nat) {
    && first <= i < TWO_TO_32 && i % 64 == first % 64
    && forall j :: first <= j <= i && j % 64 == first % 64 ==> Wrap(j + 64) <= length
  }

  /** The updates whose loop never absorbs a byte past the input are exactly those with an exact test. */
  lemma InsideExactly(first: nat, length: nat)
    requires 1 <= first <= 64 && first <= length < TWO_TO_32
    ensures TestExact(first, length) <==> forall i: nat :: Absorbs(first, length, i) ==> i + 64 <= length
  {
    if TestExact(first, length) {
      TestExactIs(first, length);
      forall i: nat | Absorbs(first, length, i) ensures i + 64 <= length {
        if i > length {
          BlockAcross(first, length);
        }
      }
    } else {
      PastTheEnd(first, length);
    }
  }

  /** The last i up to the length: the block from there on would not fit. */
  lemma BlockAcross(first: nat, length: nat)
    requires 1 <= first <= length
    ensures exists k :: first <= k <= length < k + 64 && k % 64 == first % 64
  {
    var k := length - (length - first) % 64;
    Arith.DivMod(length - first, 64);
    Arith.DivMod(first, 64);
    assert k == 64 * ((length - first) / 64 + first / 64) + first % 64;
    Arith.DivIs(k, 64, (length - first) / 64 + first / 64);
    assert first <= k <= length < k + 64 && k % 64 == first % 64;
  }

  /** Where the test is not exact, the loop absorbs a block that begins inside the input and ends outside. */
  lemma PastTheEnd(first: nat, length: nat)
    requires 1 <= first <= 64 && first <= length < TWO_TO_32 && !TestExact(first, length)
    ensures var i := TWO_TO_32 - 64 + first % 64; Absorbs(first, length, i) && i <= length < i + 64
  {
    var last := TWO_TO_32 - 64 + first % 64;
    Arith.DivIs(last, 64, 0x400_0000 - 1);
    forall j | first <= j <= last && j % 64 == first % 64 ensures Wrap(j + 64) <= length {
      Arith.DivMod(j, 64);
      Arith.DivMod(last, 64);
      assert j < last ==> j / 64 < last / 64;
      assert j < last ==> j + 64 <= last;
    }
  }

  /** One call for the longest input, right after an empty one: its last block reaches one byte too far. */
  lemma LongestUpdate()
    ensures !TestExact(64, 0xFFFF_FFFF)
    ensures Absorbs(64, 0xFFFF_FFFF, 0xFFFF_FFC0) && 0xFFFF_FFC0 + 64 == 0xFFFF_FFFF + 1
  {
    PastTheEnd(64, 0xFFFF_FFFF);
  }

  lemma AbsorbOne(r: Regs, a: seq<Byte>, block: seq<Byte>)
    requires |a| % 64 == 0 && |block| == 64
    ensures Absorb(r, a + block) == AbsorbBlock(Absorb(r, a), block)
  {
    hide AbsorbBlock;
    AbsorbConcat(r, a, block);
    assert block[..64] == block;
  }

  lemma NextBlock(r: Regs, m: seq<Byte>, k: nat)
    requires k % 64 == 0 && k + 64 <= |m|
    ensures Absorb(r, m[..k + 64]) == AbsorbBlock(Absorb(r, m[..k]), m[k..k + 64])
  {
    assert m[..k + 64] == m[..k] + m[k..k + 64];
    AbsorbOne(r, m[..k], m[k..k + 64]);
  }

  lemma FirstBlock(r: Regs, m: seq<Byte>, input: seq<Byte>, w: nat)
    requires w % 64 == 0 && w <= |m| < w + 64 <= |m| + |input|
    ensures var all := m + input; Absorb(r, all[..w + 64]) == AbsorbBlock(Absorb(r, m[..w]), all[w..w + 64])
  {
    var all := m + input;
    assert all[..w] == m[..w];
    NextBlock(r, all, w);
  }

  class Digester {
    const buffer: array<Byte>
    var count0: Word
    var count1: Word
    var state: Regs
    var digest: seq<Byte>
    var finalized: bool
    ghost var message: seq<Byte>

    ghost predicate Valid()
      reads this, buffer
    {
      && buffer.Length == 64
      && count0 == Wrap(8 * |message|)
      && count1 == Wrap(8 * |message| / TWO_TO_32)
      && Whole(|message|) <= |message| && Whole(|message|) % 64 == 0
      && state == Absorb(INIT, message[..Whole(|message|)])
      && |message| % 64 == |message| - Whole(|message|)
      && buffer[..|message| % 64] == message[Whole(|message|)..]
    }

    constructor ()
      ensures Valid() && fresh(buffer) && message == [] && !finalized
    {
      buffer := new Byte[64](_ => 0);
      count0, count1, state, digest, finalized, message := 0, 0, INIT, [], false, [];
    }

    /** Copies bytes into the buffer. */
    method Copy(index: nat, bytes: seq<Byte>)
      requires index + |bytes| <= buffer.Length
      modifies buffer
      ensures buffer[..index] == old(buffer[..index])
      ensures buffer[index..index + |bytes|] == bytes
    {
      for j := 0 to |bytes|
        invariant buffer[..index] == old(buffer[..index])
        invariant buffer[index..index + j] == bytes[..j]
      {
        buffer[index + j] := bytes[j];
      }
    }

    method Transform(block: seq<Byte>)
      requires |block| == 64
      modifies this`state
      ensures state == AbsorbBlock(old(state), block)
    {
      var x := DecodeBytes(block);
      state := TransformWords(state, x);
    }

    method AddCount(length: nat)
      requires count0 == Wrap(8 * |message|) && count1 == Wrap(8 * |message| / TWO_TO_32)
      modifies this`count0, this`count1
      ensures count0 == Wrap(8 * (|message| + length)) && count1 == Wrap(8 * (|message| + length) / TWO_TO_32)
    {
      CountAdds(|message|, length);
      count0 := Wrap(count0 + Wrap(8 * length));
      if count0 < Wrap(8 * length) {
        count1 := Wrap(count1 + 1);
      }
      count1 := Wrap(count1 + length / 0x2000_0000);
    }

    method Update(input: seq<Byte>)
      requires Valid() && |input| < TWO_TO_32 && TestExact(64 - |message| % 64, |input|)
      modifies this`count0, this`count1, this`state, this`message, buffer
      ensures Valid() && message == old(message) + input
    {
      hide Absorb, Whole, Wrap;
      CountIndex(|message|);
      WholeIs(|message|);
      var index := count0 / 8 % 64;
      AddCount(|input|);
      var firstPart := 64 - index;
      if |input| >= firstPart {
        Blocks(input, index);
      } else {
        Keep(input, index);
      }
    }

    /** An update too short to complete the buffer. */
    method Keep(input: seq<Byte>, index: nat)
      requires buffer.Length == 64 && index == |message| % 64 && index + |input| < 64
      requires Whole(|message|) % 64 == 0 && index == |message| - Whole(|message|)
      requires state == Absorb(INIT, message[..Whole(|message|)]) && buffer[..index] == message[Whole(|message|)..]
      requires count0 == Wrap(8 * (|message| + |input|)) && count1 == Wrap(8 * (|message| + |input|) / TWO_TO_32)
      modifies this`message, buffer
      ensures Valid() && message == old(message) + input
    {
      hide Absorb, Whole, Wrap;
      ghost var w := Whole(|message|);
      Copy(index, input);
      WholeFrom(|message| + |input|, w);
      assert (message + input)[..w] == message[..w];
      assert (message + input)[w..] == message[w..] + input;
      message := message + input;
      assert buffer[..index + |input|] == buffer[..index] + buffer[index..index + |input|];
    }
  
    /** Completes the buffer, absorbs whole blocks straight from the input, and keeps the rest. */
    method Blocks(input: seq<Byte>, index: nat)
      requires buffer.Length == 64 && index == |message| % 64 && 64 - index <= |input| < TWO_TO_32
      requires Whole(|message|) % 64 == 0 && index == |message| - Whole(|message|)
      requires state == Absorb(INIT, message[..Whole(|message|)]) && buffer[..index] == message[Whole(|message|)..]
      requires TestExact(64 - index, |input|)
      requires count0 == Wrap(8 * (|message| + |input|)) && count1 == Wrap(8 * (|message| + |input|) / TWO_TO_32)
      modifies this`state, this`message, buffer
      ensures Valid() && message == old(message) + input
    {
      hide Absorb, AbsorbBlock, Whole, Wrap, TestExact;
      ghost var all := message + input;
      Complete(input, index);
      var firstPart := 64 - index;
      var i := WholeBlocks(input, firstPart, all);
      Copy(0, input[i..]);
      message := all;
      WholeFrom(|all|, |all| - |input| + i);
      assert all[Whole(|all|)..] == input[i..];
    }

    /** Fills the buffer up and absorbs it. */
    method Complete(input: seq<Byte>, index: nat)
      requires buffer.Length == 64 && index < 64 && 64 - index <= |input| && index <= |message|
      requires (|message| - index) % 64 == 0 && buffer[..index] == message[|message| - index..]
      requires state == Absorb(INIT, message[..|message| - index])
      modifies this`state, buffer
      ensures var n := |message| + 64 - index; n % 64 == 0 && state == Absorb(INIT, (message + input)[..n])
    {
      hide Absorb, AbsorbBlock;
      ghost var all, w := message + input, |message| - index;
      var firstPart := 64 - index;
      Copy(index, input[..firstPart]);
      assert buffer[..] == all[w..w + 64] by {
        assert buffer[..] == buffer[..index] + buffer[index..index + firstPart];
        assert all[w..w + 64] == message[w..] + input[..firstPart];
      }
      FirstBlock(INIT, message, input, w);
      Transform(buffer[..]);
    }

    method WholeBlocks(input: seq<Byte>, firstPart: nat, ghost all: seq<Byte>) returns (i: nat)
      requires 1 <= firstPart <= 64 && firstPart <= |input| < TWO_TO_32 && TestExact(firstPart, |input|)
      requires |input| <= |all| && all[|all| - |input|..] == input && (|all| - |input| + firstPart) % 64 == 0
      requires state == Absorb(INIT, all[..|all| - |input| + firstPart])
      modifies this`state
      ensures firstPart <= i <= |input| < i + 64 && (|all| - |input| + i) % 64 == 0
      ensures state == Absorb(INIT, all[..|all| - |input| + i])
    {
      hide Absorb, AbsorbBlock, TestExact, Wrap;
      ghost var n := |all| - |input|;
      i := firstPart;
      SumExact(firstPart, |input|, i);
      while Wrap(i + 64) <= |input|
        invariant firstPart <= i <= |input| && i % 64 == firstPart % 64 && (n + i) % 64 == 0
        invariant state == Absorb(INIT, all[..n + i]) && Wrap(i + 64) == i + 64
        decreases |input| - i
      {
        NextBlock(INIT, all, n + i);
        assert input[i..i + 64] == all[n + i..n + i + 64];
        Transform(input[i..i + 64]);
        i := i + 64;
        SumExact(firstPart, |input|, i);
      }
    }
  
    /** Appends padding and length, and leaves the digest. A second call changes nothing. */
    method Finalize()
      requires !finalized ==> Valid()
      modifies this, buffer
      ensures finalized
      ensures !old(finalized) ==> digest == Md5(old(message)) && count0 == count1 == 0 && buffer[..] == Zeros(buffer.Length)
      ensures old(finalized) ==> digest == old(digest)
    {
      hide *;
      if !finalized {
        AppendPadding();
        IsDigest(state, old(message));
        digest := EncodeWords([state.a, state.b, state.c, state.d]);
        ZeroBuffer();
        count0, count1, finalized := 0, 0, true;
      }
    }

    method ZeroBuffer()
      modifies buffer
      ensures buffer[..] == Zeros(buffer.Length)
    {
      for j := 0 to buffer.Length
        invariant buffer[..j] == Zeros(j)
      {
        buffer[j] := 0;
      }
    }

    method AppendPadding()
      requires Valid()
      modifies this`count0, this`count1, this`state, this`message, buffer
      ensures Valid() && state == Absorb(INIT, Padded(old(message)))
    {
      ghost var n := |message|;
      hide Absorb;
      var bits := EncodeWords([count0, count1]);
      assert bits == Encode(LengthWords(n));
      CountIndex(n);
      var index := count0 / 8 % 64;
      var padLen := if index < 56 then 56 - index else 120 - index;
      var padding := [0x80] + Zeros(63);
      PaddingIs(n, padLen);
      ShortUpdate(64 - n % 64, padLen);
      Update(padding[..padLen]);
      ShortUpdate(64 - |message| % 64, 8);
      Update(bits);
      PaddedWhole(old(message));
      assert message == Padded(old(message));
      assert message[..|message|] == message;
    }
  }

  lemma IsDigest(r: Regs, m: seq<Byte>)
    requires r == Absorb(INIT, Padded(m))
    ensures Md5(m) == Encode([r.a, r.b, r.c, r.d])
  {
  }

  lemma PaddingIs(n: nat, padLen: nat)
    requires padLen == if n % 64 < 56 then 56 - n % 64 else 120 - n % 64
    ensures padLen <= 64 && ([0x80] + Zeros(63))[..padLen] == Padding(n)
  {
  }

  lemma ShortUpdate(first: nat, length: nat)
    requires length <= 64
    ensures TestExact(first, length)
  {
  }

  lemma PaddedWhole(m: seq<Byte>)
    ensures Whole(|Padded(m)|) == |Padded(m)|
  {
    WholeFrom(|Padded(m)|, |Padded(m)|);
  }

  function Flatten(chunks: seq<seq<Byte>>): seq<Byte> {
    if chunks == [] then [] else Flatten(chunks[..|chunks| - 1]) + chunks[|chunks| - 1]
  }

  /** Main theorem: however a message is cut into updates, the digest is the digest of the whole. */
  method Hash(chunks: seq<seq<Byte>>) returns (digest: seq<Byte>)
    requires forall i :: 0 <= i < |chunks| ==> |chunks[i]| < TWO_TO_32 - 64
    ensures digest == Md5(Flatten(chunks))
  {
    hide Md5, Absorb;
    var d := new Digester();
    for i := 0 to |chunks|
      invariant d.Valid() && fresh(d) && fresh(d.buffer) && !d.finalized
      invariant d.message == Flatten(chunks[..i])
    {
      assert chunks[..i + 1][..i] == chunks[..i];
      d.Update(chunks[i]);
    }
    assert chunks[..|chunks|] == chunks;
    d.Finalize();
    digest := d.digest;
  }
}
