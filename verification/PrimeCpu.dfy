/** The checkpointed factorisation worker, CPU side: trial division cut into batches. */
module PrimeCpu {
  import Arith
  import opened Primes

  const FACTORS_TO_FIND: nat := 1000
  const TWO_TO_64: nat := 0x1_0000_0000_0000_0000

  /** The first k entries of the result arrays. */
  function Table(primes: seq<nat>, exponents: seq<nat>, k: nat): (fs: seq<Factor>)
    requires k <= |primes| && k <= |exponents|
    ensures |fs| == k
  {
    seq(k, i requires 0 <= i < k => Factor(primes[i], exponents[i]))
  }

  /** Factors fs found, rest left, everything below b sifted out. */
  ghost predicate Sieved(n: nat, fs: seq<Factor>, rest: nat, b: nat) {
    && 1 <= n < TWO_TO_64 && rest >= 1 && b >= 3
    && n == Product(fs) * rest
    && IsFactorisation(fs)
    && (forall i :: 0 <= i < |fs| ==> fs[i].prime < b)
    && Sifted(rest, b)
  }

  /** A prime d was divided out e times. */
  lemma FactorFound(n: nat, fs: seq<Factor>, rest: nat, d: nat, e: nat)
    requires 1 <= n < TWO_TO_64 && rest >= 1 && d >= 2 && n == Product(fs) * (Pow(d, e) * rest)
    requires IsFactorisation(fs) && (forall i :: 0 <= i < |fs| ==> fs[i].prime < d)
    requires Sifted(rest, d + 1) && (e > 0 ==> IsPrime(d))
    ensures Sieved(n, Found(fs, d, e), rest, d + 1)
  {
    FoundProduct(fs, rest, d, e);
  }

  /** The table with a found factor. */
  function Found(fs: seq<Factor>, d: nat, e: nat): seq<Factor> {
    if e > 0 then fs + [Factor(d, e)] else fs
  }

  lemma FoundProduct(fs: seq<Factor>, rest: nat, d: nat, e: nat)
    ensures Product(Found(fs, d, e)) * rest == Product(fs) * (Pow(d, e) * rest)
  {
    if e > 0 {
      ProductConcat(fs, [Factor(d, e)]);
      ProductSingle(Factor(d, e));
      MulAssoc(Product(fs), Pow(d, e), rest);
    } else {
      assert Pow(d, e) == 1;
    }
  }

  /** One more division by d. */
  lemma DividedOnce(n: nat, fs: seq<Factor>, rest: nat, d: nat, e: nat)
    requires n == Product(fs) * (Pow(d, e) * rest) && d >= 2 && rest >= 1 && Divides(d, rest)
    ensures n == Product(fs) * (Pow(d, e + 1) * (rest / d)) && 1 <= rest / d < rest
  {
    var k := Quotient(d, rest);
    Regroup(d, Pow(d, e), k);
  }

  lemma Regroup(d: nat, p: nat, k: nat)
    ensures (d * p) * k == p * (d * k)
  {
    MulAssoc(d, p, k);
    MulSwap(d, p, k);
  }

  /** What is left when the sieve passed the root is the last prime. */
  lemma LastPrime(n: nat, fs: seq<Factor>, rest: nat, b: nat)
    requires Sieved(n, fs, rest, b) && rest > 1 && CeilSqrt(rest) < b
    ensures IsFactorisation(fs + [Factor(rest, 1)]) && Product(fs + [Factor(rest, 1)]) == n
  {
    SiftedPastRoot(rest, b);
    assert rest % rest == 0;
    assert Divides(rest, rest);
    ProductConcat(fs, [Factor(rest, 1)]);
    ProductSingle(Factor(rest, 1));
    assert Pow(rest, 1) == rest * Pow(rest, 0);
  }

  lemma SieveBounds(n: nat, fs: seq<Factor>, rest: nat, b: nat)
    requires Sieved(n, fs, rest, b)
    ensures |fs| < 64 && CeilSqrt(rest) <= CeilSqrt(n)
  {
    FewPrimes(fs, rest);
    ProductPositive(fs);
    Arith.MulMono(rest, 1, Product(fs));
    CeilSqrtMonotone(rest, n);
  }

  class Worker {
    const numberToTest: nat
    var remainder: nat
    var currentDivisor: nat
    var currentSquareRoot: nat
    var nextIndex: nat
    const primes: array<nat>
    const exponents: array<nat>
    var foundSolution: bool

    ghost predicate Shape()
      reads this, primes, exponents
    {
      && primes != exponents && primes.Length == exponents.Length == FACTORS_TO_FIND
      && nextIndex <= FACTORS_TO_FIND
      && forall i :: nextIndex <= i < FACTORS_TO_FIND ==> exponents[i] == 0
    }

    ghost function Factors(): seq<Factor>
      requires nextIndex <= primes.Length && nextIndex <= exponents.Length
      reads this, primes, exponents
    {
      Table(primes[..], exponents[..], nextIndex)
    }

    /** Everything below b is done. */
    ghost predicate DoneBelow(b: nat)
      reads this, primes, exponents
    {
      && Shape()
      && Sieved(numberToTest, Factors(), remainder, b)
      && currentSquareRoot == CeilSqrt(remainder)
      && currentDivisor % 2 == 1
    }

    /** Between two candidates, with more to do. */
    ghost predicate Working()
      reads this, primes, exponents
    {
      DoneBelow(currentDivisor) && currentDivisor <= CeilSqrt(numberToTest) + 2
    }

    ghost predicate Complete()
      reads this, primes, exponents
    {
      Shape() && remainder == 1 && IsFactorisation(Factors()) && Product(Factors()) == numberToTest
    }

    /** The result arrays start zeroed; factors of two are stripped first. */
    constructor (n: nat)
      requires 1 <= n < TWO_TO_64
      ensures fresh(primes) && fresh(exponents) && numberToTest == n && Working()
    {
      numberToTest := n;
      remainder, currentDivisor, nextIndex, currentSquareRoot, foundSolution := n, 3, 0, 0, false;
      primes := new nat[FACTORS_TO_FIND](_ => 0);
      exponents := new nat[FACTORS_TO_FIND](_ => 0);
      new;
      StripTwos();
      currentSquareRoot := CeilSqrt(remainder);
      CeilSqrtMonotone(1, n);
    }

    method StripTwos()
      requires Shape() && 1 <= remainder == numberToTest < TWO_TO_64 && nextIndex == 0
      modifies this`remainder, this`nextIndex, primes, exponents
      ensures Shape() && Sieved(numberToTest, Factors(), remainder, 3)
    {
      ghost var e := 0;
      while remainder > 1 && remainder % 2 == 0
        invariant remainder >= 1 && numberToTest == Product([]) * (Pow(2, e) * remainder)
        invariant nextIndex == (if e > 0 then 1 else 0) && exponents[0] == e && (e > 0 ==> primes[0] == 2)
        invariant forall i :: 1 <= i < FACTORS_TO_FIND ==> exponents[i] == 0
      {
        DividedOnce(numberToTest, [], remainder, 2, e);
        remainder := remainder / 2;
        primes[0] := 2;
        exponents[0] := exponents[0] + 1;
        nextIndex := 1;
        e := e + 1;
      }
      FactorFound(numberToTest, [], remainder, 2, e);
      assert Factors() == Found([], 2, e);
    }

    /** Divides the current divisor out. */
    method TestCandidate()
      requires DoneBelow(currentDivisor)
      modifies this`remainder, this`nextIndex, this`currentSquareRoot, primes, exponents
      ensures DoneBelow(currentDivisor + 1)
      ensures remainder <= old(remainder)
    {
      ghost var fs, d := Factors(), currentDivisor;
      FewPrimes(fs, remainder);
      var isDivisor, e := DivideOut(fs);
      FactorFound(numberToTest, fs, remainder, d, e);
      if isDivisor {
        currentSquareRoot := CeilSqrt(remainder);
        nextIndex := nextIndex + 1;
        assert Factors() == Found(fs, d, e);
      }
    }

    method DivideOut(ghost fs: seq<Factor>) returns (isDivisor: bool, ghost e: nat)
      requires DoneBelow(currentDivisor) && fs == Factors() && nextIndex < FACTORS_TO_FIND
      modifies this`remainder, primes, exponents
      ensures 1 <= remainder <= old(remainder) && Sifted(remainder, currentDivisor + 1)
      ensures numberToTest == Product(fs) * (Pow(currentDivisor, e) * remainder)
      ensures isDivisor == (e > 0) && (e > 0 ==> primes[nextIndex] == currentDivisor && IsPrime(currentDivisor))
      ensures e == 0 ==> remainder == old(remainder)
      ensures Factors() == fs && exponents[nextIndex] == e
      ensures forall i :: nextIndex < i < FACTORS_TO_FIND ==> exponents[i] == 0
    {
      isDivisor, e := false, 0;
      while remainder % currentDivisor == 0
        invariant 1 <= remainder <= old(remainder) && Sifted(remainder, currentDivisor)
        invariant isDivisor == (e > 0) && (e > 0 ==> primes[nextIndex] == currentDivisor && IsPrime(currentDivisor))
        invariant e == 0 ==> remainder == old(remainder)
        invariant exponents[nextIndex] == e && Factors() == fs
        invariant forall i :: nextIndex < i < FACTORS_TO_FIND ==> exponents[i] == 0
        invariant numberToTest == Product(fs) * (Pow(currentDivisor, e) * remainder)
        decreases remainder
      {
        LeastDivisorIsPrime(remainder, currentDivisor);
        SiftedQuotient(remainder, currentDivisor, currentDivisor);
        DividedOnce(numberToTest, fs, remainder, currentDivisor, e);
        remainder := remainder / currentDivisor;
        primes[nextIndex] := currentDivisor;
        exponents[nextIndex] := exponents[nextIndex] + 1;
        isDivisor := true;
        e := e + 1;
      }
    }

    /** Non-zero while there is more to do; at the end an unfinished remainder is the last prime. */
    method CheckResults() returns (workStatus: nat)
      requires DoneBelow(currentDivisor) && 5 <= currentDivisor <= CeilSqrt(numberToTest) + 4
      modifies this`remainder, this`nextIndex, this`foundSolution, primes, exponents
      ensures workStatus != 0 ==> Working() && workStatus == currentDivisor && remainder == old(remainder)
      ensures workStatus == 0 ==> Complete() && foundSolution == (nextIndex != 1 || old(foundSolution))
    {
      SieveBounds(numberToTest, Factors(), remainder, currentDivisor);
      if nextIndex < FACTORS_TO_FIND && remainder > 1 && currentDivisor - 2 <= currentSquareRoot {
        return currentDivisor;
      }
      if remainder != 1 && currentDivisor > currentSquareRoot && nextIndex < FACTORS_TO_FIND {
        TakeRemainder();
      }
      if nextIndex != 1 {
        foundSolution := true;
      }
      workStatus := 0;
    }

    /** What remains is the last prime. */
    method TakeRemainder()
      requires DoneBelow(currentDivisor) && 5 <= currentDivisor
      requires remainder > 1 && nextIndex < FACTORS_TO_FIND && currentDivisor > currentSquareRoot
      modifies this`remainder, this`nextIndex, primes, exponents
      ensures Complete() && nextIndex == old(nextIndex) + 1
    {
      ghost var fs, rest := Factors(), remainder;
      LastPrime(numberToTest, fs, rest, currentDivisor);
      primes[nextIndex] := remainder;
      exponents[nextIndex] := exponents[nextIndex] + 1;
      nextIndex := nextIndex + 1;
      remainder := 1;
      assert Factors() == fs + [Factor(rest, 1)];
    }

    /** Even numbers are skipped. */
    method NextCandidate() returns (workStatus: nat)
      requires Working()
      modifies this`remainder, this`nextIndex, this`currentSquareRoot, this`currentDivisor, this`foundSolution, primes, exponents
      ensures workStatus != 0 ==> Working() && currentDivisor == old(currentDivisor) + 2
      ensures workStatus == 0 ==> Complete()
    {
      TestCandidate();
      SkipEven(remainder, currentDivisor);
      currentDivisor := currentDivisor + 2;
      workStatus := CheckResults();
    }

    /** A batch of candidates, from one checkpoint to the next. */
    method CpuMain(batch: nat) returns (workStatus: nat)
      requires Working() && batch > 0
      modifies this`remainder, this`nextIndex, this`currentSquareRoot, this`currentDivisor, this`foundSolution, primes, exponents
      ensures workStatus != 0 ==> Working() && currentDivisor == old(currentDivisor) + 2 * batch
      ensures workStatus == 0 ==> Complete()
    {
      workStatus := 1;
      var candidates := 0;
      while candidates < batch && workStatus != 0
        invariant candidates <= batch
        invariant workStatus != 0 ==> Working() && currentDivisor == old(currentDivisor) + 2 * candidates
        invariant workStatus == 0 ==> Complete() && candidates > 0
        decreases batch - candidates
      {
        workStatus := NextCandidate();
        candidates := candidates + 1;
      }
    }
  }

  /** What it means that fs is the factorisation of n. */
  ghost predicate Factorises(fs: seq<Factor>, n: nat) {
    && IsFactorisation(fs) && Product(fs) == n && |fs| < 64
    && (forall i :: 0 <= i < |fs| ==>
          Divides(Pow(fs[i].prime, fs[i].exponent), n) && !Divides(Pow(fs[i].prime, fs[i].exponent + 1), n))
    && (forall p :: IsPrime(p) && Divides(p, n) ==> exists i :: 0 <= i < |fs| && fs[i].prime == p)
  }

  lemma CompleteFactorises(fs: seq<Factor>, n: nat)
    requires n < TWO_TO_64 && IsFactorisation(fs) && Product(fs) == n
    ensures Factorises(fs, n)
  {
    FewPrimes(fs, 1);
    forall i | 0 <= i < |fs|
      ensures Divides(Pow(fs[i].prime, fs[i].exponent), n) && !Divides(Pow(fs[i].prime, fs[i].exponent + 1), n)
    {
      ExactMultiplicity(fs, i);
    }
    forall p | IsPrime(p) && Divides(p, n) ensures exists i :: 0 <= i < |fs| && fs[i].prime == p {
      PrimeDivisorListed(p, fs);
    }
  }

  /** However two computations were cut into batches, they found the same. */
  lemma BatchesIrrelevant(fs: seq<Factor>, gs: seq<Factor>, n: nat)
    requires Factorises(fs, n) && Factorises(gs, n)
    ensures fs == gs
  {
    Unique(fs, gs);
  }

  /** The whole computation, cut into batches in any way: the kernel may stop it after each. */
  method Factorise(n: nat, batches: nat -> nat) returns (fs: seq<Factor>)
    requires 1 <= n < TWO_TO_64 && forall k :: batches(k) > 0
    ensures Factorises(fs, n)
  {
    var w := new Worker(n);
    var k := 0;
    var workStatus := 1;
    while workStatus != 0
      invariant fresh(w) && fresh(w.primes) && fresh(w.exponents) && w.numberToTest == n
      invariant if workStatus != 0 then w.Working() else w.Complete()
      decreases if workStatus != 0 then 1 else 0, CeilSqrt(n) + 2 - w.currentDivisor
    {
      workStatus := w.CpuMain(batches(k));
      k := k + 1;
    }
    fs := Table(w.primes[..], w.exponents[..], w.nextIndex);
    CompleteFactorises(fs, n);
  }
}
