/**
 * The factorisation kernel on the accelerator: any number of threads divide their candidates out of one
 * shared remainder with compare-and-swap, in any interleaving.
 */
module PrimeGpu {
  import Arith
  import opened Primes

  const FACTORS_TO_FIND: nat := 1000

  /** Where a thread stands in its candidate's test; `seen` and `index` are its stale copies. */
  datatype Pc =
    | Start | Divide(seen: nat) | ReadIndex | ClaimIndex(index: nat) | WritePrime(index: nat) | WriteExponent(index: nat)
    | ReadRemainder | SetRoot(seen: nat) | CheckRoot(seen: nat) | Done

  /** Candidate d has been divided out e times by this thread. */
  datatype Thread = Thread(d: nat, pc: Pc, e: nat)

  /** `owners`: the threads that claimed an index, in the order of the indices (history). */
  datatype State = State(remainder: nat, nextIndex: nat, primes: seq<nat>, exponents: seq<nat>, root: nat,
                         threads: seq<Thread>, owners: seq<nat>)

  /** The result arrays at the launch. */
  datatype Launch = Launch(remainder: nat, found: seq<Factor>, root: nat)

  ghost predicate Init(l: Launch, s: State) {
    && s.remainder == l.remainder >= 1 && s.root == l.root && s.owners == []
    && s.nextIndex == |l.found| && |s.primes| == |s.exponents| == FACTORS_TO_FIND
    && (forall i :: 0 <= i < |l.found| ==> l.found[i].prime >= 2 && l.found[i].exponent > 0)
    && Product(l.found) * l.remainder < 0x1_0000_0000_0000_0000
    && (forall t :: 0 <= t < |s.threads| ==> s.threads[t].d >= 2 && s.threads[t].e == 0 && s.threads[t].pc == Start)
  }

  predicate Enabled(s: State, t: nat) {
    t < |s.threads| && s.threads[t].pc != Done && s.threads[t].d > 0
    && match s.threads[t].pc
       case WritePrime(i) => i < |s.primes|
       case WriteExponent(i) => i < |s.exponents|
       case _ => true
  }

  function Goto(s: State, t: nat, pc: Pc): State
    requires t < |s.threads|
  {
    s.(threads := s.threads[t := s.threads[t].(pc := pc)])
  }

  /** One atomic step of thread t. */
  function Step(s: State, t: nat): State
    requires Enabled(s, t)
  {
    var th := s.threads[t];
    match th.pc
    case Start => Goto(s, t, Divide(s.remainder))
    case Divide(seen) =>
      if seen % th.d == 0 then
        if s.remainder == seen then
          s.(remainder := seen / th.d, threads := s.threads[t := Thread(th.d, Divide(seen / th.d), th.e + 1)])
        else Goto(s, t, Divide(s.remainder))
      else Goto(s, t, if th.e > 0 then ReadIndex else Done)
    case ReadIndex => Goto(s, t, ClaimIndex(s.nextIndex))
    case ClaimIndex(i) =>
      if s.nextIndex == i then Goto(s, t, WritePrime(i)).(nextIndex := i + 1, owners := s.owners + [t])
      else Goto(s, t, ReadIndex)
    case WritePrime(i) => Goto(s, t, WriteExponent(i)).(primes := s.primes[i := th.d])
    case WriteExponent(i) => Goto(s, t, ReadRemainder).(exponents := s.exponents[i := th.e])
    case ReadRemainder => Goto(s, t, SetRoot(s.remainder))
    case SetRoot(seen) => Goto(s, t, CheckRoot(seen)).(root := CeilSqrt(seen))
    case CheckRoot(seen) => Goto(s, t, if seen != s.remainder then ReadRemainder else Done)
    case Done => s
  }

  // The invariant.

  /** The thread still divides, or has yet to claim an index. */
  predicate Unclaimed(th: Thread) {
    th.pc.Start? || th.pc.Divide? || th.pc.ReadIndex? || th.pc.ClaimIndex? || (th.pc.Done? && th.e == 0)
  }

  /** What threads divided out and have not claimed an index for. */
  function Pending(threads: seq<Thread>): nat {
    if threads == [] then 1
    else (if Unclaimed(threads[0]) then Pow(threads[0].d, threads[0].e) else 1) * Pending(threads[1..])
  }

  /** What was divided out by the owners of claimed indices. */
  function Claims(threads: seq<Thread>, owners: seq<nat>): (fs: seq<Factor>)
    requires forall i :: 0 <= i < |owners| ==> owners[i] < |threads|
    ensures |fs| == |owners|
  {
    seq(|owners|, i requires 0 <= i < |owners| => Factor(threads[owners[i]].d, threads[owners[i]].e))
  }

  ghost predicate OwnersOk(l: Launch, s: State) {
    && s.nextIndex == |l.found| + |s.owners|
    && (forall i :: 0 <= i < |s.owners| ==> s.owners[i] < |s.threads|)
    && (forall i, j :: 0 <= i < j < |s.owners| ==> s.owners[i] != s.owners[j])
    && (forall i :: 0 <= i < |s.owners| ==> OwnerOk(l, s, i))
  }

  /** An owner holds its own index, and its result is in the arrays as soon as it is written. */
  ghost predicate OwnerOk(l: Launch, s: State, i: nat)
    requires i < |s.owners| && s.owners[i] < |s.threads|
  {
    var th, k := s.threads[s.owners[i]], |l.found| + i;
    && !Unclaimed(th) && th.e > 0
    && (th.pc.WritePrime? ==> th.pc.index == k)
    && (th.pc.WriteExponent? ==> th.pc.index == k)
    && (!th.pc.WritePrime? ==> k < |s.primes| && s.primes[k] == th.d)
    && (!th.pc.WritePrime? && !th.pc.WriteExponent? ==> k < |s.exponents| && s.exponents[k] == th.e)
  }

  ghost predicate ThreadOk(s: State, t: nat)
    requires t < |s.threads|
  {
    var th := s.threads[t];
    && th.d >= 2
    && (Unclaimed(th) || t in s.owners)
    && (th.pc.Start? ==> th.e == 0)
    && (th.pc.ReadIndex? || th.pc.ClaimIndex? ==> th.e > 0)
    && (th.pc.Divide? ==> Divides(s.remainder, th.pc.seen))
    && (!th.pc.Start? && !th.pc.Divide? ==> !Divides(th.d, s.remainder))
  }

  /** A thread that will yet write a root for the final remainder, or find that its root is stale. */
  ghost predicate WillFixRoot(s: State, t: nat)
    requires t < |s.threads|
  {
    var th := s.threads[t];
    th.e > 0 && !th.pc.Done? && (th.pc.CheckRoot? ==> th.pc.seen != s.remainder)
  }

  ghost predicate RootOk(l: Launch, s: State) {
    || s.remainder == l.remainder
    || s.root == CeilSqrt(s.remainder)
    || exists t :: 0 <= t < |s.threads| && WillFixRoot(s, t)
  }

  ghost predicate Conserved(l: Launch, s: State)
    requires forall i :: 0 <= i < |s.owners| ==> s.owners[i] < |s.threads|
  {
    s.remainder * (Pending(s.threads) * Product(Claims(s.threads, s.owners))) == l.remainder
  }

  ghost predicate LaunchOk(l: Launch) {
    && l.remainder >= 1
    && (forall i :: 0 <= i < |l.found| ==> l.found[i].prime >= 2 && l.found[i].exponent > 0)
    && Product(l.found) * l.remainder < 0x1_0000_0000_0000_0000
  }

  ghost predicate Inv(l: Launch, s: State) {
    && LaunchOk(l)
    && |s.primes| == |s.exponents| == FACTORS_TO_FIND
    && s.remainder >= 1
    && OwnersOk(l, s)
    && (forall t :: 0 <= t < |s.threads| ==> ThreadOk(s, t))
    && Conserved(l, s)
    && RootOk(l, s)
  }

  // Conservation.

  function Share(th: Thread): nat {
    if Unclaimed(th) then Pow(th.d, th.e) else 1
  }

  /** Changing one thread changes its factor only. */
  lemma {:induction false} PendingUpdate(threads: seq<Thread>, t: nat, th: Thread)
    requires t < |threads|
    ensures Pending(threads[t := th]) * Share(threads[t]) == Pending(threads) * Share(th)
  {
    var us := threads[t := th];
    if t == 0 {
      assert us[1..] == threads[1..];
      MulSwap(Share(th), Share(threads[0]), Pending(threads[1..]));
    } else {
      assert us[1..] == threads[1..][t - 1 := th];
      PendingUpdate(threads[1..], t - 1, th);
      MulAssoc(Share(threads[0]), Pending(us[1..]), Share(threads[t]));
      MulAssoc(Share(threads[0]), Pending(threads[1..]), Share(th));
    }
  }

  lemma {:induction false} PendingPositive(threads: seq<Thread>)
    requires forall t :: 0 <= t < |threads| ==> threads[t].d > 0
    ensures Pending(threads) > 0
  {
    if threads != [] {
      PendingPositive(threads[1..]);
      MulBoth(1, Share(threads[0]), 1, Pending(threads[1..]));
    }
  }

  lemma PowPositive(th: Thread)
    requires th.d >= 2
    ensures Share(th) > 0
  {
  }

  lemma PendingSame(threads: seq<Thread>, t: nat, th: Thread)
    requires t < |threads| && Share(threads[t]) == Share(th) > 0
    ensures Pending(threads[t := th]) == Pending(threads)
  {
    PendingUpdate(threads, t, th);
    Arith.Commute(Share(th), Pending(threads[t := th]));
    Arith.Commute(Share(th), Pending(threads));
    CancelFactor(Share(th), Pending(threads[t := th]), Pending(threads));
  }

  /** A successful swap moves one d from the remainder to the thread's power. */
  lemma PendingDivided(threads: seq<Thread>, t: nat, th: Thread)
    requires t < |threads| && threads[t].pc.Divide? && th.pc.Divide? && th.d == threads[t].d >= 2 && th.e == threads[t].e + 1
    ensures Pending(threads[t := th]) == Pending(threads) * th.d
  {
    PendingUpdate(threads, t, th);
    var p := Share(threads[t]);
    MulAssoc(Pending(threads), th.d, p);
    Arith.Commute(p, Pending(threads[t := th]));
    Arith.Commute(p, Pending(threads) * th.d);
    CancelFactor(p, Pending(threads[t := th]), Pending(threads) * th.d);
  }

  lemma SwapConserves(r: nat, q: nat, d: nat, pending: nat, claimed: nat)
    requires r == d * q
    ensures q * ((pending * d) * claimed) == r * (pending * claimed)
  {
    MulAssoc(pending, d, claimed);
    MulSwap(pending, d, claimed);
    MulAssoc(d, q, pending * claimed);
    MulSwap(q, d, pending * claimed);
  }

  lemma ClaimConserves(p: nat, p': nat, c: nat, x: nat)
    requires p' * x == p
    ensures p' * (c * x) == p * c
  {
    MulSwap(p', c, x);
    Arith.Commute(c, p);
  }

  lemma ClaimsSame(threads: seq<Thread>, owners: seq<nat>, t: nat, th: Thread)
    requires t < |threads| && forall i :: 0 <= i < |owners| ==> owners[i] < |threads|
    requires t in owners ==> th.d == threads[t].d && th.e == threads[t].e
    ensures Claims(threads[t := th], owners) == Claims(threads, owners)
  {
  }

  lemma ClaimedHasFactor(l: Launch, s: State, t: nat)
    requires OwnersOk(l, s) && t < |s.threads| && ThreadOk(s, t)
    ensures t in s.owners ==> !Unclaimed(s.threads[t])
    ensures !Unclaimed(s.threads[t]) ==> s.threads[t].e > 0
  {
    if t in s.owners {
      var i :| 0 <= i < |s.owners| && s.owners[i] == t;
      assert OwnerOk(l, s, i);
    }
  }

  predicate Swaps(s: State, t: nat) {
    Enabled(s, t) && s.threads[t].pc.Divide? && s.threads[t].pc.seen % s.threads[t].d == 0
    && s.remainder == s.threads[t].pc.seen
  }

  predicate Claiming(s: State, t: nat) {
    Enabled(s, t) && s.threads[t].pc.ClaimIndex? && s.nextIndex == s.threads[t].pc.index
  }

  lemma SwapKeepsProduct(l: Launch, s: State, t: nat)
    requires OwnersOk(l, s) && Conserved(l, s) && Swaps(s, t) && ThreadOk(s, t) && t !in s.owners
    ensures Conserved(l, Step(s, t))
  {
    var th, s' := s.threads[t], Step(s, t);
    ClaimsSame(s.threads, s.owners, t, s'.threads[t]);
    PendingDivided(s.threads, t, s'.threads[t]);
    var q := Quotient(th.d, s.remainder);
    SwapConserves(s.remainder, q, th.d, Pending(s.threads), Product(Claims(s.threads, s.owners)));
  }

  lemma ClaimKeepsProduct(l: Launch, s: State, t: nat)
    requires OwnersOk(l, s) && Conserved(l, s) && Claiming(s, t) && ThreadOk(s, t) && t !in s.owners
    ensures Conserved(l, Step(s, t))
  {
    var th, s' := s.threads[t], Step(s, t);
    ClaimsSame(s.threads, s.owners, t, s'.threads[t]);
    PendingUpdate(s.threads, t, s'.threads[t]);
    var f := Factor(th.d, th.e);
    assert Claims(s'.threads, s'.owners) == Claims(s.threads, s.owners) + [f];
    ProductConcat(Claims(s.threads, s.owners), [f]);
    ProductSingle(f);
    ClaimConserves(Pending(s.threads), Pending(s'.threads), Product(Claims(s.threads, s.owners)), Share(th));
  }

  lemma OtherStepsKeepProduct(l: Launch, s: State, t: nat)
    requires OwnersOk(l, s) && Conserved(l, s) && Enabled(s, t) && ThreadOk(s, t) && !Swaps(s, t) && !Claiming(s, t)
    ensures Conserved(l, Step(s, t))
  {
    var th, s' := s.threads[t], Step(s, t);
    ClaimedHasFactor(l, s, t);
    PowPositive(th);
    ClaimsSame(s.threads, s.owners, t, s'.threads[t]);
    PendingSame(s.threads, t, s'.threads[t]);
  }

  lemma ConservationKept(l: Launch, s: State, t: nat)
    requires Inv(l, s) && Enabled(s, t)
    ensures Conserved(l, Step(s, t))
  {
    assert ThreadOk(s, t);
    ClaimedHasFactor(l, s, t);
    if Swaps(s, t) {
      SwapKeepsProduct(l, s, t);
    } else if Claiming(s, t) {
      ClaimKeepsProduct(l, s, t);
    } else {
      OtherStepsKeepProduct(l, s, t);
    }
  }

  // The other parts of the invariant.

  lemma RemainderShrinks(s: State, t: nat)
    requires Enabled(s, t) && s.remainder >= 1 && s.threads[t].d >= 2
    ensures 1 <= Step(s, t).remainder && Divides(Step(s, t).remainder, s.remainder)
  {
    var th := s.threads[t];
    assert s.remainder % s.remainder == 0;
    if th.pc.Divide? && th.pc.seen % th.d == 0 && s.remainder == th.pc.seen {
      var q := Quotient(th.d, s.remainder);
      Arith.Commute(q, th.d);
      MultipleDivides(q, th.d);
    }
  }

  lemma ThreadKept(l: Launch, s: State, t: nat, u: nat)
    requires Inv(l, s) && Enabled(s, t) && u < |s.threads|
    ensures ThreadOk(Step(s, t), u)
  {
    hide Conserved, RootOk, OwnerOk, CeilSqrt;
    var s', th := Step(s, t), s.threads[u];
    assert ThreadOk(s, u) && ThreadOk(s, t);
    RemainderShrinks(s, t);
    assert u in s.owners ==> u in s'.owners;
    if Divides(th.d, s'.remainder) {
      DividesTransitive(th.d, s'.remainder, s.remainder);
    }
    if th.pc.Divide? {
      DividesTransitive(s'.remainder, s.remainder, th.pc.seen);
      if Divides(th.d, s'.remainder) {
        DividesTransitive(th.d, s'.remainder, th.pc.seen);
      }
    }
    assert s'.remainder % s'.remainder == 0;
  }

  lemma OwnerKept(l: Launch, s: State, t: nat, i: nat)
    requires Inv(l, s) && Enabled(s, t) && i < |s.owners|
    ensures OwnerOk(l, Step(s, t), i)
  {
    assert OwnerOk(l, s, i);
    var s', th := Step(s, t), s.threads[t];
    if t != s.owners[i] && (th.pc.WritePrime? || th.pc.WriteExponent?) {
      assert ThreadOk(s, t) && t in s.owners;
      var j :| 0 <= j < |s.owners| && s.owners[j] == t;
      assert OwnerOk(l, s, j);
      assert j != i;
    }
  }

  lemma OwnersKept(l: Launch, s: State, t: nat)
    requires Inv(l, s) && Enabled(s, t)
    ensures OwnersOk(l, Step(s, t))
  {
    hide Conserved, RootOk, Divides, CeilSqrt;
    var s', th := Step(s, t), s.threads[t];
    assert ThreadOk(s, t);
    forall i | 0 <= i < |s.owners| ensures OwnerOk(l, s', i) && (th.pc.ClaimIndex? ==> s.owners[i] != t) {
      assert OwnerOk(l, s, i);
      OwnerKept(l, s, t, i);
    }
  }

  lemma RootKept(l: Launch, s: State, t: nat)
    requires Inv(l, s) && Enabled(s, t)
    ensures RootOk(l, Step(s, t))
  {
    var s', th := Step(s, t), s.threads[t];
    assert ThreadOk(s, t);
    ClaimedHasFactor(l, s, t);
    if s'.remainder == s.remainder {
      if w :| 0 <= w < |s.threads| && WillFixRoot(s, w) {
        assert w != t ==> WillFixRoot(s', w);
      }
    }
    assert WillFixRoot(s', t) || s'.threads[t].e == 0 || s'.threads[t].pc.Done? || s'.threads[t].pc.CheckRoot?;
  }

  /** Every step keeps the invariant. */
  lemma StepKeepsInv(l: Launch, s: State, t: nat)
    requires Inv(l, s) && Enabled(s, t)
    ensures Inv(l, Step(s, t))
  {
    assert ThreadOk(s, t);
    RemainderShrinks(s, t);
    ConservationKept(l, s, t);
    OwnersKept(l, s, t);
    RootKept(l, s, t);
    forall u | 0 <= u < |s.threads| ensures ThreadOk(Step(s, t), u) {
      ThreadKept(l, s, t, u);
    }
  }

  // Whole runs.

  /** The scheduler picks the threads one after the other. */
  ghost predicate Run(s: State, schedule: seq<nat>, x: State)
    decreases |schedule|
  {
    if schedule == [] then s == x
    else Enabled(s, schedule[0]) && Run(Step(s, schedule[0]), schedule[1..], x)
  }

  lemma {:induction false} RunKeepsInv(l: Launch, s: State, schedule: seq<nat>, x: State)
    requires Inv(l, s) && Run(s, schedule, x)
    ensures Inv(l, x)
    decreases |schedule|
  {
    if schedule != [] {
      StepKeepsInv(l, s, schedule[0]);
      RunKeepsInv(l, Step(s, schedule[0]), schedule[1..], x);
    }
  }

  lemma {:induction false} NothingPending(threads: seq<Thread>)
    requires forall t :: 0 <= t < |threads| ==> Share(threads[t]) == 1
    ensures Pending(threads) == 1
  {
    if threads != [] {
      NothingPending(threads[1..]);
    }
  }

  lemma InitInv(l: Launch, s: State)
    requires Init(l, s)
    ensures Inv(l, s)
  {
    NothingPending(s.threads);
    assert Claims(s.threads, s.owners) == [];
  }

  /**
   * In every state of every run: what was divided out and what is left multiply to the start, no thread
   * writes outside the arrays, and an index has one owner, which holds a factor of its own.
   */
  lemma Conservation(l: Launch, s: State, schedule: seq<nat>, x: State)
    requires Init(l, s) && Run(s, schedule, x)
    ensures OwnersOk(l, x) && Conserved(l, x)
    ensures x.nextIndex < 64
    ensures forall t :: 0 <= t < |x.threads| && x.threads[t].pc != Done ==> Enabled(x, t)
  {
    InitInv(l, s);
    RunKeepsInv(l, s, schedule, x);
    var claims := Claims(x.threads, x.owners);
    ClaimsProper(l, x);
    FoundProper(l, claims);
    ProductConcat(l.found, claims);
    ClaimsFit(l, x);
    FewPrimes(l.found + claims, 1);
    forall t | 0 <= t < |x.threads| && x.threads[t].pc != Done ensures Enabled(x, t) {
      assert ThreadOk(x, t);
      IndexInBounds(l, x, t);
    }
  }

  lemma ClaimsProper(l: Launch, s: State)
    requires Inv(l, s)
    ensures forall i :: 0 <= i < |s.owners| ==>
              Claims(s.threads, s.owners)[i].prime >= 2 && Claims(s.threads, s.owners)[i].exponent > 0
  {
    forall i | 0 <= i < |s.owners| ensures s.threads[s.owners[i]].d >= 2 && s.threads[s.owners[i]].e > 0 {
      assert OwnerOk(l, s, i) && ThreadOk(s, s.owners[i]);
    }
  }

  lemma FoundProper(l: Launch, claims: seq<Factor>)
    requires LaunchOk(l) && forall i :: 0 <= i < |claims| ==> claims[i].prime >= 2 && claims[i].exponent > 0
    ensures var all := l.found + claims; forall i :: 0 <= i < |all| ==> all[i].prime >= 2 && all[i].exponent > 0
  {
  }

  /** The claims are a divisor of the remainder at the launch. */
  lemma ClaimsFit(l: Launch, s: State)
    requires Inv(l, s)
    ensures Product(l.found) * Product(Claims(s.threads, s.owners)) < 0x1_0000_0000_0000_0000
  {
    forall t | 0 <= t < |s.threads| ensures s.threads[t].d > 0 { assert ThreadOk(s, t); }
    PendingPositive(s.threads);
    var c, p := Product(Claims(s.threads, s.owners)), Pending(s.threads);
    MulBoth(1, p, c, c);
    MulBoth(1, s.remainder, p * c, p * c);
    Arith.MulMono(Product(l.found), c, l.remainder);
  }

  lemma IndexInBounds(l: Launch, s: State, t: nat)
    requires Inv(l, s) && t < |s.threads| && s.nextIndex < 64
    ensures s.threads[t].pc.WritePrime? || s.threads[t].pc.WriteExponent? ==> s.threads[t].pc.index < s.nextIndex
  {
    assert ThreadOk(s, t);
    if s.threads[t].pc.WritePrime? || s.threads[t].pc.WriteExponent? {
      var i :| 0 <= i < |s.owners| && s.owners[i] == t;
      assert OwnerOk(l, s, i);
    }
  }

  ghost predicate AllDone(s: State) {
    forall t :: 0 <= t < |s.threads| ==> s.threads[t].pc == Done
  }

  /** What the result arrays hold from the launch's index on. */
  function Results(s: State, k: nat): seq<Factor>
    requires k <= s.nextIndex <= |s.primes| && s.nextIndex <= |s.exponents|
  {
    seq(s.nextIndex - k, i requires 0 <= i < s.nextIndex - k => Factor(s.primes[k + i], s.exponents[k + i]))
  }

  /**
   * When all threads have left: the new table entries and the remainder multiply to the start, no candidate
   * divides the remainder any more, and the root fits the remainder if anything was divided out.
   */
  lemma Quiescence(l: Launch, s: State, schedule: seq<nat>, x: State)
    requires Init(l, s) && Run(s, schedule, x) && AllDone(x)
    ensures |l.found| <= x.nextIndex < 64 && |x.primes| == |x.exponents| == FACTORS_TO_FIND
    ensures x.remainder * Product(Results(x, |l.found|)) == l.remainder
    ensures forall t :: 0 <= t < |x.threads| ==> !Divides(x.threads[t].d, x.remainder)
    ensures x.remainder != l.remainder ==> x.root == CeilSqrt(x.remainder)
    ensures OwnersOk(l, x) && Results(x, |l.found|) == Claims(x.threads, x.owners)
  {
    InitInv(l, s);
    RunKeepsInv(l, s, schedule, x);
    Conservation(l, s, schedule, x);
    forall t | 0 <= t < |x.threads| ensures !Divides(x.threads[t].d, x.remainder) && Share(x.threads[t]) == 1 {
      assert ThreadOk(x, t);
    }
    NothingPending(x.threads);
    forall i | 0 <= i < |x.owners| ensures Results(x, |l.found|)[i] == Claims(x.threads, x.owners)[i] {
      assert OwnerOk(l, x, i);
    }
    assert Results(x, |l.found|) == Claims(x.threads, x.owners);
  }

  /** With distinct prime candidates every new entry is a prime with its exact multiplicity in the start. */
  lemma ExactExponents(l: Launch, s: State, schedule: seq<nat>, x: State, i: nat)
    requires Init(l, s) && Run(s, schedule, x) && AllDone(x) && i < |x.owners|
    requires forall t :: 0 <= t < |x.threads| ==> IsPrime(x.threads[t].d)
    requires forall t, u :: 0 <= t < u < |x.threads| ==> x.threads[t].d != x.threads[u].d
    ensures |l.found| + i < x.nextIndex <= FACTORS_TO_FIND && |x.primes| == |x.exponents| == FACTORS_TO_FIND
    ensures var p, e := x.primes[|l.found| + i], x.exponents[|l.found| + i];
            Divides(Pow(p, e), l.remainder) && !Divides(Pow(p, e + 1), l.remainder)
  {
    InitInv(l, s);
    RunKeepsInv(l, s, schedule, x);
    Quiescence(l, s, schedule, x);
    var fs := Claims(x.threads, x.owners);
    var p, e := fs[i].prime, fs[i].exponent;
    assert Results(x, |l.found|)[i] == fs[i];
    ProductWithout(fs, i);
    var others := fs[..i] + fs[i + 1..];
    MulSwap(x.remainder, Pow(p, e), Product(others));
    MultipleDivides(Pow(p, e), x.remainder * Product(others));
    if Divides(Pow(p, e + 1), l.remainder) {
      HigherPower(p, e, x.remainder * Product(others), l.remainder);
      Euclid(p, x.remainder, Product(others));
      PowersOfOthers(p, others);
    }
  }

  /** A prime does not divide a product of powers of other primes. */
  lemma {:induction false} PowersOfOthers(p: nat, fs: seq<Factor>)
    requires IsPrime(p) && forall i :: 0 <= i < |fs| ==> IsPrime(fs[i].prime) && fs[i].prime != p
    ensures !Divides(p, Product(fs))
  {
    if fs == [] {
      if Divides(p, 1) { DivisorIsSmaller(p, 1); }
    } else {
      PowersOfOthers(p, fs[1..]);
      if Divides(p, Product(fs)) {
        Euclid(p, Pow(fs[0].prime, fs[0].exponent), Product(fs[1..]));
        PrimeDividesPow(p, fs[0].prime, fs[0].exponent);
      }
    }
  }

  // The candidate filter.

  /** The truncated square root. */
  function FloorSqrt(n: nat): (r: nat)
    ensures r * r <= n < (r + 1) * (r + 1)
  {
    if CeilSqrt(n) * CeilSqrt(n) == n then CeilSqrt(n) else CeilSqrt(n) - 1
  }

  /** Trial division up to the root. */
  method IsPrimeCandidate(d: nat) returns (prime: bool)
    ensures d >= 2 ==> prime == IsPrime(d)
    ensures d < 2 ==> prime
  {
    var root := FloorSqrt(d) + 1;
    var i := 2;
    while i < root
      invariant 2 <= i && Sifted(d, i)
    {
      MulBoth(i, root - 1, i, root - 1);
      MulBoth(2, i, 1, i);
      if d % i == 0 {
        assert Divides(i, d);
        return false;
      }
      i := i + 1;
    }
    MulBoth(root, i, root, i);
    if d >= 2 {
      SiftedSquare(d, i);
    }
    prime := true;
  }
}
