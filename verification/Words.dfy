/** Enumeration of the search space: words over 52 letters, numbered in base 52. */
module Words {
  import Arith

  const NUM_OF_CHARS: nat := 52
  const ORIGINAL_WORD_LENGTH: nat := 6

  function Power(k: nat): (p: nat)
    ensures p > 0
  {
    if k == 0 then 1 else NUM_OF_CHARS * Power(k - 1)
  }

  /** The number a word stands for, most significant digit first. */
  function Value(word: seq<nat>): nat {
    if word == [] then 0 else word[0] * Power(|word| - 1) + Value(word[1..])
  }

  /** Every digit is a letter of the alphabet. */
  predicate Proper(word: seq<nat>) {
    forall i :: 0 <= i < |word| ==> word[i] < NUM_OF_CHARS
  }

  /** The word of a number: the only proper one with that value. */
  function Canonical(n: nat, len: nat): (word: seq<nat>)
    ensures |word| == len
  {
    if len == 0 then [] else [n / Power(len - 1)] + Canonical(n % Power(len - 1), len - 1)
  }

  lemma {:induction false} CanonicalIs(n: nat, len: nat)
    requires n < Power(len)
    ensures Proper(Canonical(n, len)) && Value(Canonical(n, len)) == n
  {
    if len > 0 {
      var p := Power(len - 1);
      Arith.DivMod(n, p);
      CanonicalIs(n % p, len - 1);
      QuotientSmall(n, p, NUM_OF_CHARS);
      assert Canonical(n, len)[1..] == Canonical(n % p, len - 1);
    }
  }

  lemma QuotientSmall(n: nat, p: nat, k: nat)
    requires p > 0 && n < k * p
    ensures n / p < k
  {
    Arith.DivMod(n, p);
    if n / p >= k {
      Arith.MulMono(p, k, n / p);
    }
  }

  lemma {:induction false} ValueBound(word: seq<nat>)
    requires Proper(word)
    ensures Value(word) < Power(|word|)
  {
    if word != [] {
      ValueBound(word[1..]);
      Arith.MulMono(Power(|word| - 1), word[0], NUM_OF_CHARS - 1);
    }
  }

  lemma {:induction false} ProperUnique(word: seq<nat>)
    requires Proper(word)
    ensures Canonical(Value(word), |word|) == word
  {
    if word != [] {
      ProperUnique(word[1..]);
      ValueBound(word[1..]);
      Arith.DivIs(Value(word), Power(|word| - 1), word[0]);
    }
  }

  lemma ValueCons(d: nat, rest: seq<nat>)
    ensures Value([d] + rest) == d * Power(|rest|) + Value(rest)
    ensures Proper([d] + rest) <==> d < NUM_OF_CHARS && Proper(rest)
  {
    hide Power, Proper;
    var word := [d] + rest;
    assert word[1..] == rest;
    ProperCons(d, rest);
  }

  lemma ProperCons(d: nat, rest: seq<nat>)
    ensures Proper([d] + rest) <==> d < NUM_OF_CHARS && Proper(rest)
  {
    var word := [d] + rest;
    if d < NUM_OF_CHARS && Proper(rest) {
      forall i | 0 <= i < |word| ensures word[i] < NUM_OF_CHARS {
        assert i > 0 ==> word[i] == rest[i - 1];
      }
    }
    if Proper(word) {
      assert word[0] == d;
      forall i | 0 <= i < |rest| ensures rest[i] < NUM_OF_CHARS {
        assert rest[i] == word[i + 1];
      }
    }
  }

  // From a number to a word.

  /** What the conversion computes: a remaining number equal to the step is left for the next position. */
  function Converted(n: nat, len: nat): (word: seq<nat>)
    requires len > 0
    ensures |word| == len
  {
    if len == 1 then [n]
    else
      var step := Power(len - 1);
      if n <= step then [0] + Converted(n, len - 1) else [n / step] + Converted(n % step, len - 1)
  }

  /** At some position the remaining number is exactly the step. */
  predicate MeetsStep(n: nat, len: nat) {
    exists k :: 1 <= k < len && n % Power(k + 1) == Power(k)
  }

  /** The value is right for every number. */
  lemma {:induction false} ConvertedValue(n: nat, len: nat)
    requires len > 0
    ensures Value(Converted(n, len)) == n
  {
    if len == 1 {
      ValueCons(n, []);
    } else {
      var step := Power(len - 1);
      if n <= step {
        ConvertedValue(n, len - 1);
        ValueCons(0, Converted(n, len - 1));
      } else {
        Arith.DivMod(n, step);
        ConvertedValue(n % step, len - 1);
        ValueCons(n / step, Converted(n % step, len - 1));
        Arith.Commute(n / step, step);
      }
    }
  }

  lemma ModSmall(n: nat, p: nat)
    requires n < p
    ensures n % p == n && n / p == 0
  {
    Arith.DivIs(n, p, 0);
  }

  /** Remainders of remainders. */
  lemma ModMod(n: nat, j: nat, k: nat)
    requires j <= k
    ensures n % Power(k) % Power(j) == n % Power(j)
  {
    PowerSplit(j, k - j);
    ModOfMod(n, Power(j), Power(k - j));
  }

  lemma ModOfMod(n: nat, p: nat, q: nat)
    requires p > 0 && q > 0 && p * q > 0
    ensures n % (p * q) % p == n % p
  {
    var r := n % (p * q);
    var a, b := n / (p * q), r / p;
    Arith.DivMod(n, p * q);
    Arith.DivMod(r, p);
    assert n == p * (q * a + b) + r % p by {
      assert (p * q) * a == p * (q * a);
      assert p * (q * a + b) == p * (q * a) + p * b;
    }
    Arith.DivIs(n, p, q * a + b);
  }

  lemma {:induction false} PowerSplit(j: nat, k: nat)
    ensures Power(j + k) == Power(j) * Power(k)
  {
    if j > 0 {
      PowerSplit(j - 1, k);
      assert NUM_OF_CHARS * (Power(j - 1) * Power(k)) == (NUM_OF_CHARS * Power(j - 1)) * Power(k);
    }
  }

  /** Below the top position, only the remainder matters. */
  lemma MeetsBelow(n: nat, len: nat)
    requires len > 1 && n < Power(len) && n != Power(len - 1)
    ensures MeetsStep(n, len) <==> MeetsStep(n % Power(len - 1), len - 1)
  {
    hide Power;
    var r := n % Power(len - 1);
    ModSmall(n, Power(len));
    if MeetsStep(n, len) {
      var k :| 1 <= k < len && n % Power(k + 1) == Power(k);
      assert k != len - 1;
      ModMod(n, k + 1, len - 1);
      assert r % Power(k + 1) == Power(k);
    }
    if MeetsStep(r, len - 1) {
      var k :| 1 <= k < len - 1 && r % Power(k + 1) == Power(k);
      ModMod(n, k + 1, len - 1);
      assert n % Power(k + 1) == Power(k);
    }
  }

  lemma {:induction false} ConvertedProper(n: nat, len: nat)
    requires len > 0 && n < Power(len)
    ensures Proper(Converted(n, len)) <==> !MeetsStep(n, len)
    decreases len
  {
    if len == 1 {
      assert Power(1) == NUM_OF_CHARS * Power(0);
    } else {
      var step := Power(len - 1);
      if n == step {
        StepSpills(len);
      } else {
        hide Converted, MeetsStep, Proper;
        MeetsBelow(n, len);
        ProperSplit(n, len);
        ConvertedProper(n % step, len - 1);
      }
    }
  }

  lemma ProperSplit(n: nat, len: nat)
    requires len > 1 && n < Power(len) && n != Power(len - 1)
    ensures n % Power(len - 1) < Power(len - 1)
    ensures Proper(Converted(n, len)) <==> Proper(Converted(n % Power(len - 1), len - 1))
  {
    hide Converted, Proper;
    var step := Power(len - 1);
    Arith.DivMod(n, step);
    QuotientSmall(n, step, NUM_OF_CHARS);
    ConvertedSplit(n, len);
    ValueCons(n / step, Converted(n % step, len - 1));
  }

  lemma ConvertedSplit(n: nat, len: nat)
    requires len > 1 && n != Power(len - 1)
    ensures Converted(n, len) == [n / Power(len - 1)] + Converted(n % Power(len - 1), len - 1)
  {
    if n < Power(len - 1) {
      ModSmall(n, Power(len - 1));
    }
  }

  /** A number equal to the step is converted with a digit that is no letter. */
  lemma StepSpills(len: nat)
    requires len > 1
    ensures !Proper(Converted(Power(len - 1), len)) && MeetsStep(Power(len - 1), len)
  {
    var step := Power(len - 1);
    var rest := Converted(step, len - 1);
    ConvertedValue(step, len - 1);
    ValueCons(0, rest);
    if Proper(rest) {
      ValueBound(rest);
    }
    assert Power(len) == NUM_OF_CHARS * step;
    ModSmall(step, Power(len));
    assert step % Power(len - 1 + 1) == Power(len - 1);
  }

  /** The conversion yields the word of the number exactly if no remainder meets its step. */
  lemma ConvertedExact(n: nat, len: nat)
    requires len > 0 && n < Power(len)
    ensures Converted(n, len) == Canonical(n, len) <==> !MeetsStep(n, len)
    ensures Proper(Converted(n, len)) <==> !MeetsStep(n, len)
  {
    CanonicalIs(n, len);
    ConvertedValue(n, len);
    ConvertedProper(n, len);
    if Proper(Converted(n, len)) {
      ProperUnique(Converted(n, len));
    }
  }

  lemma PowersOf52()
    ensures Power(1) == 52 && Power(2) == 2704 && Power(3) == 140608
    ensures Power(4) == 7311616 && Power(5) == 380204032 && Power(6) == 19770609664
  {
    assert Power(1) == 52 * Power(0);
    assert Power(2) == 52 * Power(1);
    assert Power(3) == 52 * Power(2);
    assert Power(4) == 52 * Power(3);
    assert Power(5) == 52 * Power(4);
    assert Power(6) == 52 * Power(5);
  }

  /** The conversion; false where the program ends because the number is too large. */
  method Number2IndexWord(number: nat) returns (ok: bool, word: seq<nat>)
    ensures ok == (number <= Power(ORIGINAL_WORD_LENGTH))
    ensures ok ==> word == Converted(number, ORIGINAL_WORD_LENGTH) && Value(word) == number
  {
    PowersOf52();
    ok, word := number <= 19770609664, [];
    if ok {
      ConvertedValue(number, 6);
      word := Convert(number);
    }
  }

  /** The loop visits each position once or twice: a division is followed by a step down. */
  method Convert(number: nat) returns (word: seq<nat>)
    ensures word == Converted(number, ORIGINAL_WORD_LENGTH)
  {
    PowersOf52();
    var n: nat := number;
    var x, step := 0, 380204032;
    word := [0];
    AtPosition(number, 0, 6);
    assert Converting(number, n, word, x);
    hide Power, Converting;
    while x < ORIGINAL_WORD_LENGTH - 1
      invariant x <= 5 && |word| == x + 1 && step == Power(5 - x)
      invariant Converting(number, n, word, x)
      decreases 5 - x, n
    {
      if n <= step {
        NextPosition(number, n, word, x);
        StepIs(step, 5 - x);
        x, step, word := x + 1, step / NUM_OF_CHARS, word + [0];
      } else {
        var temp := n / step;
        DigitFound(number, n, word, x);
        word := word[x := temp];
        n := n - temp * step;
      }
    }
    ConversionEnds(number, n, word);
    word := word[..5] + [n];
  }

  /** Before position x is decided: what is written, and what will be. */
  ghost predicate Converting(number: nat, n: nat, word: seq<nat>, x: nat) {
    && x <= 5 && |word| == x + 1
    && (x == 5 ==> word[..5] + [n] == Converted(number, 6))
    && (x < 5 ==> word[..x] + Pending(n, word[x], 6 - x) == Converted(number, 6))
    && (x < 5 && n > Power(5 - x) ==> word[x] == 0)
  }

  lemma NextPosition(number: nat, n: nat, word: seq<nat>, x: nat)
    requires Converting(number, n, word, x) && x < 5 && n <= Power(5 - x)
    ensures Converting(number, n, word + [0], x + 1)
  {
    hide Converted, Power, Pending;
    StepDown(n, word[x], 6 - x);
    var longer := word + [0];
    assert longer[..x + 1] == word[..x] + [word[x]];
    var rest := if x == 4 then [n] else Pending(n, 0, 5 - x);
    assert word[..x] + ([word[x]] + rest) == (word[..x] + [word[x]]) + rest;
  }

  lemma DigitFound(number: nat, n: nat, word: seq<nat>, x: nat)
    requires Converting(number, n, word, x) && x < 5 && n > Power(5 - x)
    ensures var step := Power(5 - x);
            n - n / step * step == n % step < step && n % step < n
            && Converting(number, n % step, word[x := n / step], x)
  {
    Divided(n, 6 - x);
    assert word[x := n / Power(5 - x)][..x] == word[..x];
  }

  lemma ConversionEnds(number: nat, n: nat, word: seq<nat>)
    requires Converting(number, n, word, 5)
    ensures word[..5] + [n] == Converted(number, 6)
  {
  }

  /** What the positions from here on become: the digit d is final once the rest is at most the step. */
  function Pending(n: nat, d: nat, len: nat): seq<nat>
    requires len > 1
  {
    if n <= Power(len - 1) then [d] + Converted(n, len - 1) else Converted(n, len)
  }

  lemma AtPosition(n: nat, d: nat, len: nat)
    requires len > 1 && d == 0
    ensures Pending(n, d, len) == Converted(n, len)
    ensures [d][..0] + Pending(n, d, len) == Converted(n, len)
  {
  }

  lemma StepDown(n: nat, d: nat, len: nat)
    requires len > 1 && n <= Power(len - 1)
    ensures Pending(n, d, len) == [d] + (if len == 2 then [n] else Pending(n, 0, len - 1))
  {
    if len > 2 {
      AtPosition(n, 0, len - 1);
    }
  }

  lemma StepIs(step: nat, k: nat)
    requires k > 0 && step == Power(k)
    ensures step / NUM_OF_CHARS == Power(k - 1)
  {
    Arith.DivIs(step, NUM_OF_CHARS, Power(k - 1));
  }

  lemma Divided(n: nat, len: nat)
    requires len > 1 && n > Power(len - 1)
    ensures var step := Power(len - 1);
            n - n / step * step == n % step < step && Pending(n % step, n / step, len) == Pending(n, 0, len)
  {
    var step := Power(len - 1);
    Arith.DivMod(n, step);
    Arith.Commute(n / step, step);
  }

  // From one word to the next.

  /** One up at the last position, with carries to the left. */
  function Next(word: seq<nat>): (r: seq<nat>)
    ensures |r| == |word|
  {
    if word == [] then []
    else
      var last := |word| - 1;
      if word[last] < NUM_OF_CHARS - 1 then word[..last] + [word[last] + 1] else Next(word[..last]) + [0]
  }

  /** Some position still has a letter to go. */
  predicate HasNext(word: seq<nat>) {
    exists i :: 0 <= i < |word| && word[i] < NUM_OF_CHARS - 1
  }

  /** Counts up from the last position; false if there is no carry left to absorb. */
  method NextIndexWord(word: array<nat>) returns (left: bool)
    modifies word
    ensures word[..] == Next(old(word[..]))
    ensures left == (word.Length == 0 || HasNext(old(word[..])))
  {
    hide Next;
    NextOfNone();
    ghost var was := word[..];
    var overflow := false;
    var i := word.Length;
    assert was + [] == was;
    while i > 0 && (overflow || i == word.Length)
      invariant 0 <= i <= word.Length && word[..i] == was[..i]
      invariant i == word.Length ==> !overflow
      invariant overflow || i == word.Length ==> Next(was) == Next(was[..i]) + word[i..]
      invariant !overflow && i < word.Length ==> Next(was) == word[..] && was[i] < NUM_OF_CHARS - 1
      invariant overflow || i == word.Length ==> forall j :: i <= j < word.Length ==> was[j] >= NUM_OF_CHARS - 1
      decreases i
    {
      ghost var tail := word[i..];
      i := i - 1;
      overflow := false;
      NextEnd(was[..i + 1]);
      assert was[..i + 1][..i] == was[..i];
      if word[i] < NUM_OF_CHARS - 1 {
        word[i] := word[i] + 1;
        assert word[..] == was[..i] + [was[i] + 1] + tail;
      } else {
        word[i] := 0;
        overflow := true;
        assert word[i..] == [0] + tail;
        assert Next(was[..i]) + [0] + tail == Next(was[..i]) + ([0] + tail);
      }
    }
    left := !overflow;
    if i == 0 && overflow {
      assert Next(was[..0]) == [] && [] + word[0..] == word[..];
    }
    assert left && word.Length > 0 ==> HasNext(was);
  }

  lemma NextOfNone()
    ensures Next([]) == []
  {
  }

  lemma NextEnd(word: seq<nat>)
    requires word != []
    ensures var last := |word| - 1;
            Next(word) == if word[last] < NUM_OF_CHARS - 1 then word[..last] + [word[last] + 1] else Next(word[..last]) + [0]
  {
  }

  lemma {:induction false} ValueSnoc(word: seq<nat>, d: nat)
    ensures Value(word + [d]) == NUM_OF_CHARS * Value(word) + d
    ensures Proper(word + [d]) <==> Proper(word) && d < NUM_OF_CHARS
  {
    var w := word + [d];
    assert forall i :: 0 <= i < |word| ==> w[i] == word[i];
    assert Proper(w) ==> w[|word|] < NUM_OF_CHARS;
    if word == [] {
      assert w[1..] == [];
    } else {
      assert w[1..] == word[1..] + [d];
      ValueSnoc(word[1..], d);
      SnocPower(word[0], Power(|word| - 1));
    }
  }

  lemma SnocPower(a: nat, p: nat)
    ensures a * (NUM_OF_CHARS * p) == NUM_OF_CHARS * (a * p)
  {
  }

  /** The next word stands for the next number; after the last word comes the first. */
  lemma {:induction false} NextAddsOne(word: seq<nat>)
    requires Proper(word)
    ensures Proper(Next(word))
    ensures HasNext(word) <==> Value(word) + 1 < Power(|word|)
    ensures Value(Next(word)) == if HasNext(word) then Value(word) + 1 else 0
    decreases |word|
  {
    if word != [] {
      var last := |word| - 1;
      var front, d := word[..last], word[last];
      assert word == front + [d];
      ValueSnoc(front, d);
      NextEnd(word);
      NextAddsOne(front);
      ValueBound(front);
      if d < NUM_OF_CHARS - 1 {
        ValueSnoc(front, d + 1);
        assert HasNext(word);
        Arith.MulMono(NUM_OF_CHARS, Value(front), Power(last) - 1);
      } else {
        ValueSnoc(Next(front), 0);
        HasNextFront(word);
      }
    }
  }

  lemma HasNextFront(word: seq<nat>)
    requires word != [] && word[|word| - 1] >= NUM_OF_CHARS - 1
    ensures HasNext(word) <==> HasNext(word[..|word| - 1])
  {
    var front := word[..|word| - 1];
    if HasNext(word) {
      var i :| 0 <= i < |word| && word[i] < NUM_OF_CHARS - 1;
      assert front[i] == word[i];
    }
    if HasNext(front) {
      var i :| 0 <= i < |front| && front[i] < NUM_OF_CHARS - 1;
      assert word[i] == front[i];
    }
  }

  // Whole batches.

  function Iterate(word: seq<nat>, k: nat): (r: seq<nat>)
    ensures |r| == |word|
  {
    if k == 0 then word else Next(Iterate(word, k - 1))
  }

  lemma {:induction false} IterateCanonical(n: nat, len: nat, k: nat)
    requires n + k < Power(len)
    ensures Iterate(Canonical(n, len), k) == Canonical(n + k, len)
    decreases k
  {
    if k > 0 {
      IterateCanonical(n, len, k - 1);
      CanonicalIs(n + k - 1, len);
      NextAddsOne(Canonical(n + k - 1, len));
      ProperUnique(Next(Canonical(n + k - 1, len)));
    }
  }

  /** Counting up adds at most one, and makes no word out of digits that are not all letters unless it adds less. */
  lemma {:induction false} NextAtMostOne(word: seq<nat>)
    ensures Value(Next(word)) <= Value(word) + 1
    ensures Value(Next(word)) == Value(word) + 1 && Proper(Next(word)) ==> Proper(word)
    decreases |word|
  {
    if word != [] {
      var last := |word| - 1;
      var front, d := word[..last], word[last];
      assert word == front + [d];
      ValueSnoc(front, d);
      NextEnd(word);
      if d < NUM_OF_CHARS - 1 {
        ValueSnoc(front, d + 1);
      } else {
        NextAtMostOne(front);
        ValueSnoc(Next(front), 0);
        Arith.MulMono(NUM_OF_CHARS, Value(Next(front)), Value(front) + 1);
      }
    }
  }

  lemma {:induction false} IterateBehind(word: seq<nat>, k: nat)
    requires !Proper(word)
    ensures Value(Iterate(word, k)) <= Value(word) + k
    ensures Value(Iterate(word, k)) == Value(word) + k ==> !Proper(Iterate(word, k))
    decreases k
  {
    if k > 0 {
      IterateBehind(word, k - 1);
      NextAtMostOne(Iterate(word, k - 1));
    }
  }

  /** A batch that starts where the conversion is not exact never makes up for it: it leaves its last word out. */
  lemma SkipsLast(n: nat, k: nat, j: nat)
    requires n + k < Power(ORIGINAL_WORD_LENGTH) && MeetsStep(n, ORIGINAL_WORD_LENGTH) && j <= k
    ensures Iterate(Converted(n, ORIGINAL_WORD_LENGTH), j) != Canonical(n + k, ORIGINAL_WORD_LENGTH)
  {
    ConvertedExact(n, ORIGINAL_WORD_LENGTH);
    ConvertedValue(n, ORIGINAL_WORD_LENGTH);
    IterateBehind(Converted(n, ORIGINAL_WORD_LENGTH), j);
    CanonicalIs(n + k, ORIGINAL_WORD_LENGTH);
  }

  /** After any number of increments the word is the right one exactly if the conversion at the start was exact. */
  lemma Resume(n: nat, k: nat)
    requires n + k < Power(ORIGINAL_WORD_LENGTH)
    ensures Iterate(Converted(n, ORIGINAL_WORD_LENGTH), k) == Canonical(n + k, ORIGINAL_WORD_LENGTH)
            <==> !MeetsStep(n, ORIGINAL_WORD_LENGTH)
  {
    if MeetsStep(n, ORIGINAL_WORD_LENGTH) {
      SkipsLast(n, k, k);
    } else {
      ConvertedExact(n, ORIGINAL_WORD_LENGTH);
      IterateCanonical(n, ORIGINAL_WORD_LENGTH, k);
    }
  }

  /** Batch 65 of 500 words starts where it is not: 32500 == 12 * 52 * 52 + 52. */
  lemma Batch65()
    ensures MeetsStep(32500, ORIGINAL_WORD_LENGTH)
    ensures Converted(32500, 6) == [0, 0, 0, 12, 0, 52]
    ensures Canonical(32500, 6) == Next(Converted(32500, 6))
  {
    PowersOf52();
    assert 32500 % Power(2) == Power(1);
    assert Converted(52, 1) == [52];
    assert Converted(52, 2) == [0, 52];
    assert Converted(32500, 3) == [12] + [0, 52];
    assert Converted(32500, 4) == [0] + [12, 0, 52];
    assert Converted(32500, 5) == [0] + [0, 12, 0, 52];
    assert Converted(32500, 6) == [0] + [0, 0, 12, 0, 52];
    var w := [0, 0, 0, 12, 0, 52];
    assert w[..5] == [0, 0, 0, 12, 0] && w[..5][..4] == [0, 0, 0, 12];
    assert Next(w[..5]) == [0, 0, 0, 12, 1];
    assert Next(w) == [0, 0, 0, 12, 1, 0];
    ValueOf32500();
    ProperUnique([0, 0, 0, 12, 1, 0]);
  }

  lemma ValueOf32500()
    ensures Value([0, 0, 0, 12, 1, 0]) == 32500
  {
    hide Power, Proper;
    PowersOf52();
    ValueCons(0, []);
    ValueCons(1, [0]);
    ValueCons(12, [1, 0]);
    ValueCons(0, [12, 1, 0]);
    ValueCons(0, [0, 12, 1, 0]);
    ValueCons(0, [0, 0, 12, 1, 0]);
    assert [1] + [0] == [1, 0] && [12] + [1, 0] == [12, 1, 0] && [0] + [12, 1, 0] == [0, 12, 1, 0];
    assert [0] + [0, 12, 1, 0] == [0, 0, 12, 1, 0] && [0] + [0, 0, 12, 1, 0] == [0, 0, 0, 12, 1, 0];
  }

  /** So that batch lags one word behind, and never tests word 32999; the next batch starts at 33000. */
  lemma Batch65SkipsWord(k: nat)
    requires k < 500
    ensures Iterate(Converted(32500, ORIGINAL_WORD_LENGTH), k) != Canonical(32999, ORIGINAL_WORD_LENGTH)
  {
    Batch65();
    PowersOf52();
    SkipsLast(32500, 499, k);
  }
}
