/** Divisibility, primes, and factorisations as lists of prime powers. */
module Primes {
  import Arith

  predicate Divides(d: nat, n: nat) {
    d > 0 && n % d == 0
  }

  predicate IsPrime(p: nat) {
    p >= 2 && forall d :: 2 <= d < p ==> !Divides(d, p)
  }

  lemma MultipleDivides(d: nat, k: nat)
    requires d > 0
    ensures Divides(d, d * k) && (d * k) / d == k
  {
    Arith.DivIs(d * k, d, k);
  }

  lemma Quotient(d: nat, n: nat) returns (k: nat)
    requires Divides(d, n)
    ensures n == d * k && k == n / d
  {
    k := n / d;
  }

  lemma DividesTransitive(a: nat, b: nat, c: nat)
    requires Divides(a, b) && Divides(b, c)
    ensures Divides(a, c)
  {
    var j := Quotient(a, b);
    var k := Quotient(b, c);
    assert c == a * (j * k) by {
      assert (a * j) * k == a * (j * k);
    }
    MultipleDivides(a, j * k);
  }

  lemma DividesProduct(d: nat, a: nat, b: nat)
    requires Divides(d, a)
    ensures Divides(d, a * b) && Divides(d, b * a)
  {
    var k := Quotient(d, a);
    assert (d * k) * b == d * (k * b);
    MultipleDivides(d, k * b);
  }

  lemma MulSign(d: nat, k: int)
    requires d > 0 && d * k >= 0
    ensures k >= 0
  {
    if k < 0 {
      Arith.MulMono(d, k, -1);
    }
  }

  lemma MulAssoc(a: nat, b: nat, c: nat)
    ensures (a * b) * c == a * (b * c)
  {
  }

  lemma MulSwap(a: nat, b: nat, c: nat)
    ensures a * (b * c) == b * (a * c)
  {
  }

  lemma DividesDifference(d: nat, a: nat, b: nat)
    requires Divides(d, a) && Divides(d, b) && b <= a
    ensures Divides(d, a - b)
  {
    var j := Quotient(d, a);
    var k := Quotient(d, b);
    assert a - b == d * (j - k);
    MulSign(d, j - k);
    MultipleDivides(d, j - k);
  }

  lemma DivisorIsSmaller(d: nat, n: nat)
    requires Divides(d, n) && n > 0
    ensures d <= n
  {
    var k := Quotient(d, n);
    if k >= 1 {
      assert d * k >= d * 1;
    }
  }

  /** Euclid's lemma. */
  lemma {:induction false} Euclid(p: nat, a: nat, b: nat)
    requires IsPrime(p) && Divides(p, a * b)
    ensures Divides(p, a) || Divides(p, b)
    decreases a
  {
    if a == 0 {
      assert 0 % p == 0;
    } else if a >= p {
      var r := a - p;
      assert a * b == p * b + r * b;
      MultipleDivides(p, b);
      DividesDifference(p, a * b, p * b);
      Euclid(p, r, b);
      if Divides(p, r) {
        var k := Quotient(p, r);
        assert a == p * (k + 1);
        MultipleDivides(p, k + 1);
      }
    } else if a > 1 {
      var q, r := p / a, p % a;
      assert p == a * q + r && r < a;
      assert !Divides(a, p);
      assert p * b == (a * b) * q + r * b by {
        assert (a * q + r) * b == (a * q) * b + r * b;
        assert (a * q) * b == (a * b) * q;
      }
      MultipleDivides(p, b);
      DividesProduct(p, a * b, q);
      DividesDifference(p, p * b, (a * b) * q);
      Euclid(p, r, b);
      if Divides(p, r) {
        DivisorIsSmaller(p, r);
      }
    }
  }

  function Pow(b: nat, e: nat): (r: nat)
    ensures b > 0 ==> r > 0
  {
    if e == 0 then 1 else
      assert b > 0 ==> b * Pow(b, e - 1) > 0;
      b * Pow(b, e - 1)
  }

  lemma {:induction false} PowAdd(b: nat, d: nat, e: nat)
    ensures Pow(b, d + e) == Pow(b, d) * Pow(b, e)
  {
    if d > 0 {
      PowAdd(b, d - 1, e);
      MulAssoc(b, Pow(b, d - 1), Pow(b, e));
    }
  }

  lemma {:induction false} PrimeDividesPow(p: nat, b: nat, e: nat)
    requires IsPrime(p) && IsPrime(b) && Divides(p, Pow(b, e))
    ensures p == b && e > 0
  {
    if e == 0 {
      DivisorIsSmaller(p, 1);
    } else {
      Euclid(p, b, Pow(b, e - 1));
      if Divides(p, b) {
        DivisorIsSmaller(p, b);
      } else {
        PrimeDividesPow(p, b, e - 1);
      }
    }
  }

  // Factorisations.

  datatype Factor = Factor(prime: nat, exponent: nat)

  function Product(fs: seq<Factor>): nat {
    if fs == [] then 1 else Pow(fs[0].prime, fs[0].exponent) * Product(fs[1..])
  }

  /** Strictly increasing primes with positive exponents. */
  ghost predicate IsFactorisation(fs: seq<Factor>) {
    && (forall i :: 0 <= i < |fs| ==> IsPrime(fs[i].prime) && fs[i].exponent > 0)
    && (forall i, j :: 0 <= i < j < |fs| ==> fs[i].prime < fs[j].prime)
  }

  lemma {:induction false} ProductConcat(a: seq<Factor>, b: seq<Factor>)
    ensures Product(a + b) == Product(a) * Product(b)
  {
    if a == [] {
      assert a + b == b;
    } else {
      assert (a + b)[1..] == a[1..] + b;
      ProductConcat(a[1..], b);
      MulAssoc(Pow(a[0].prime, a[0].exponent), Product(a[1..]), Product(b));
    }
  }

  lemma ProductSingle(f: Factor)
    ensures Product([f]) == Pow(f.prime, f.exponent)
  {
    assert [f][1..] == [];
  }

  lemma {:induction false} ProductPositive(fs: seq<Factor>)
    requires IsFactorisation(fs)
    ensures Product(fs) > 0 && (fs != [] ==> Product(fs) > 1)
  {
    if fs != [] {
      ProductPositive(fs[1..]);
      var p, e := fs[0].prime, fs[0].exponent;
      Arith.MulMono(p, 1, Pow(p, e - 1));
      MulBoth(2, Pow(p, e), 1, Product(fs[1..]));
    }
  }

  /** A prime that divides the product is one of the primes. */
  lemma {:induction false} PrimeDivisorListed(p: nat, fs: seq<Factor>)
    requires IsPrime(p) && IsFactorisation(fs) && Divides(p, Product(fs))
    ensures exists i :: 0 <= i < |fs| && fs[i].prime == p
  {
    if fs == [] {
      DivisorIsSmaller(p, 1);
    } else {
      Euclid(p, Pow(fs[0].prime, fs[0].exponent), Product(fs[1..]));
      if Divides(p, Pow(fs[0].prime, fs[0].exponent)) {
        PrimeDividesPow(p, fs[0].prime, fs[0].exponent);
        assert fs[0].prime == p;
      } else {
        PrimeDivisorListed(p, fs[1..]);
        var i :| 0 <= i < |fs[1..]| && fs[1..][i].prime == p;
        assert fs[i + 1].prime == p;
      }
    }
  }

  lemma ListedDivides(fs: seq<Factor>, i: nat)
    requires IsFactorisation(fs) && i < |fs|
    ensures Divides(fs[i].prime, Product(fs))
  {
    var p, e := fs[i].prime, fs[i].exponent;
    assert fs == fs[..i] + ([fs[i]] + fs[i + 1..]);
    ProductConcat(fs[..i], [fs[i]] + fs[i + 1..]);
    ProductConcat([fs[i]], fs[i + 1..]);
    ProductSingle(fs[i]);
    MultipleDivides(p, Pow(p, e - 1));
    DividesProduct(p, Pow(p, e), Product(fs[i + 1..]));
    DividesProduct(p, Product([fs[i]] + fs[i + 1..]), Product(fs[..i]));
  }

  lemma CancelFactor(k: nat, a: nat, b: nat)
    requires k > 0 && k * a == k * b
    ensures a == b
  {
    MultipleDivides(k, a);
    MultipleDivides(k, b);
  }

  /** The first prime does not divide the rest. */
  lemma FirstNotInRest(fs: seq<Factor>)
    requires IsFactorisation(fs) && fs != []
    ensures !Divides(fs[0].prime, Product(fs[1..]))
  {
    if Divides(fs[0].prime, Product(fs[1..])) {
      PrimeDivisorListed(fs[0].prime, fs[1..]);
    }
  }

  lemma LeastPrimeAgrees(fs: seq<Factor>, gs: seq<Factor>)
    requires IsFactorisation(fs) && IsFactorisation(gs) && fs != [] && gs != [] && Product(fs) == Product(gs)
    ensures fs[0].prime == gs[0].prime
  {
    ListedDivides(fs, 0);
    PrimeDivisorListed(fs[0].prime, gs);
    ListedDivides(gs, 0);
    PrimeDivisorListed(gs[0].prime, fs);
  }

  lemma LeastExponentBounded(fs: seq<Factor>, gs: seq<Factor>)
    requires IsFactorisation(fs) && IsFactorisation(gs) && fs != [] && gs != [] && Product(fs) == Product(gs)
    requires fs[0].prime == gs[0].prime
    ensures gs[0].exponent <= fs[0].exponent
  {
    var p, d, e := fs[0].prime, fs[0].exponent, gs[0].exponent;
    if d < e {
      PowAdd(p, d, e - d);
      MulAssoc(Pow(p, d), Pow(p, e - d), Product(gs[1..]));
      CancelFactor(Pow(p, d), Product(fs[1..]), Pow(p, e - d) * Product(gs[1..]));
      PrimeDividesOwnPow(p, e - d, Product(gs[1..]));
      FirstNotInRest(fs);
    }
  }

  lemma PrimeDividesOwnPow(p: nat, e: nat, k: nat)
    requires p > 0 && e > 0
    ensures Divides(p, Pow(p, e) * k)
  {
    MultipleDivides(p, Pow(p, e - 1));
    DividesProduct(p, Pow(p, e), k);
  }

  /** Unique factorisation. */
  lemma {:induction false} Unique(fs: seq<Factor>, gs: seq<Factor>)
    requires IsFactorisation(fs) && IsFactorisation(gs) && Product(fs) == Product(gs)
    ensures fs == gs
  {
    ProductPositive(fs);
    ProductPositive(gs);
    if fs != [] && gs != [] {
      LeastPrimeAgrees(fs, gs);
      LeastExponentBounded(fs, gs);
      LeastExponentBounded(gs, fs);
      CancelFactor(Pow(fs[0].prime, fs[0].exponent), Product(fs[1..]), Product(gs[1..]));
      Unique(fs[1..], gs[1..]);
    }
  }

  /** An exponent is the exact multiplicity of its prime in the product. */
  lemma ExactMultiplicity(fs: seq<Factor>, i: nat)
    requires IsFactorisation(fs) && i < |fs|
    ensures Divides(Pow(fs[i].prime, fs[i].exponent), Product(fs))
    ensures !Divides(Pow(fs[i].prime, fs[i].exponent + 1), Product(fs))
  {
    var p, e := fs[i].prime, fs[i].exponent;
    var others := fs[..i] + fs[i + 1..];
    assert forall j :: 0 <= j < |others| ==> others[j].prime != p;
    ProductWithout(fs, i);
    MultipleDivides(Pow(p, e), Product(others));
    if Divides(Pow(p, e + 1), Product(fs)) {
      HigherPower(p, e, Product(others), Product(fs));
      PrimeDivisorListed(p, others);
    }
  }

  lemma HigherPower(p: nat, e: nat, m: nat, n: nat)
    requires p > 0 && n == Pow(p, e) * m && Divides(Pow(p, e + 1), n)
    ensures Divides(p, m)
  {
    var k := Quotient(Pow(p, e + 1), n);
    MulAssoc(p, Pow(p, e), k);
    MulSwap(p, Pow(p, e), k);
    CancelFactor(Pow(p, e), m, p * k);
    MultipleDivides(p, k);
  }

  lemma ProductWithout(fs: seq<Factor>, i: nat)
    requires i < |fs|
    ensures Product(fs) == Pow(fs[i].prime, fs[i].exponent) * Product(fs[..i] + fs[i + 1..])
  {
    var a, f, b := fs[..i], fs[i], fs[i + 1..];
    assert fs == a + ([f] + b);
    ProductConcat(a, [f] + b);
    ProductConcat([f], b);
    ProductConcat(a, b);
    ProductSingle(f);
    MulSwap(Product(a), Pow(f.prime, f.exponent), Product(b));
  }

  /** k powers multiply to at least 2^k. */
  lemma {:induction false} ProductGrows(fs: seq<Factor>)
    requires forall i :: 0 <= i < |fs| ==> fs[i].prime >= 2 && fs[i].exponent > 0
    ensures Product(fs) >= Pow(2, |fs|)
  {
    if fs != [] {
      ProductGrows(fs[1..]);
      var p, e := fs[0].prime, fs[0].exponent;
      Arith.MulMono(p, 1, Pow(p, e - 1));
      MulBoth(2, Pow(p, e), Pow(2, |fs| - 1), Product(fs[1..]));
    }
  }

  lemma MulBoth(a: nat, b: nat, c: nat, d: nat)
    requires a <= b && c <= d
    ensures a * c <= b * d
  {
    Arith.MulMono(a, c, d);
    Arith.MulMono(d, a, b);
  }

  lemma {:induction false} PowMonotone(d: nat, e: nat)
    requires d <= e
    ensures Pow(2, d) <= Pow(2, e)
  {
    if d < e {
      PowMonotone(d, e - 1);
    }
  }

  lemma TwoTo64()
    ensures Pow(2, 64) == 0x1_0000_0000_0000_0000
  {
    assert Pow(2, 4) == 16 by {
      assert Pow(2, 2) == 4;
    }
    PowAdd(2, 4, 4);
    PowAdd(2, 8, 8);
    PowAdd(2, 16, 16);
    PowAdd(2, 32, 32);
  }

  /** A 64-bit number splits into fewer than 64 such powers, even if a remainder is still open. */
  lemma FewPrimes(fs: seq<Factor>, rest: nat)
    requires forall i :: 0 <= i < |fs| ==> fs[i].prime >= 2 && fs[i].exponent > 0
    requires rest >= 1 && Product(fs) * rest < 0x1_0000_0000_0000_0000
    ensures |fs| < 64
  {
    ProductGrows(fs);
    Arith.MulMono(Product(fs), 1, rest);
    TwoTo64();
    if |fs| >= 64 {
      PowMonotone(64, |fs|);
    }
  }

  // Trial division.

  /** The least r with r * r >= n. */
  function CeilSqrt(n: nat): (r: nat)
    ensures r * r >= n && (r > 0 ==> (r - 1) * (r - 1) < n)
  {
    CeilSqrtFrom(n, 0)
  }

  function CeilSqrtFrom(n: nat, r: nat): (s: nat)
    requires r > 0 ==> (r - 1) * (r - 1) < n
    ensures s * s >= n && (s > 0 ==> (s - 1) * (s - 1) < n)
    decreases n - r * r
  {
    if r * r >= n then r else CeilSqrtFrom(n, r + 1)
  }

  lemma CeilSqrtMonotone(m: nat, n: nat)
    requires m <= n
    ensures CeilSqrt(m) <= CeilSqrt(n)
  {
    var r, s := CeilSqrt(m), CeilSqrt(n);
    if s < r {
      MulBoth(s, r - 1, s, r - 1);
    }
  }

  /** No number from 2 up to, but not including, b divides n. */
  ghost predicate Sifted(n: nat, b: nat) {
    forall d :: 2 <= d < b ==> !Divides(d, n)
  }

  /** A divisor of a number without smaller divisors is prime. */
  lemma LeastDivisorIsPrime(n: nat, d: nat)
    requires Sifted(n, d) && d >= 2 && Divides(d, n)
    ensures IsPrime(d)
  {
    forall c | 2 <= c < d ensures !Divides(c, d) {
      if Divides(c, d) {
        DividesTransitive(c, d, n);
      }
    }
  }

  lemma SiftedQuotient(n: nat, d: nat, b: nat)
    requires Sifted(n, b) && Divides(d, n)
    ensures Sifted(n / d, b)
  {
    var k := Quotient(d, n);
    forall c | 2 <= c < b ensures !Divides(c, n / d) {
      if Divides(c, k) {
        DividesProduct(c, k, d);
      }
    }
  }

  /** Sifting up to the root leaves a prime. */
  lemma SiftedSquare(n: nat, b: nat)
    requires n > 1 && Sifted(n, b) && b * b > n
    ensures IsPrime(n)
  {
    forall d | 2 <= d < n ensures !Divides(d, n) {
      if Divides(d, n) {
        var k := Quotient(d, n);
        Arith.Commute(d, k);
        MultipleDivides(k, d);
        if d >= b && k >= b {
          MulBoth(b, d, b, k);
        }
      }
    }
  }

  lemma SiftedPastRoot(n: nat, b: nat)
    requires n > 1 && Sifted(n, b) && CeilSqrt(n) < b
    ensures IsPrime(n)
  {
    MulBoth(CeilSqrt(n) + 1, b, CeilSqrt(n) + 1, b);
    SiftedSquare(n, b);
  }

  /** Once 2 is gone, even numbers need no test. */
  lemma SkipEven(n: nat, d: nat)
    requires d >= 2 && d % 2 == 1 && Sifted(n, d + 1)
    ensures Sifted(n, d + 2)
  {
    if Divides(d + 1, n) {
      assert Divides(2, d + 1);
      DividesTransitive(2, d + 1, n);
    }
  }
}
