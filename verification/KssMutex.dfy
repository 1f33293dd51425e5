/**
 * The mutexes of the kernel extension: one over the list of computing units, one per run queue. Every
 * system call is a script of takes and drops; what the data decide about it is a parameter of the call.
 */
module KssMutex {
  import opened Collections

  datatype Lock = Units | Queue(unit: nat)

  datatype Op = Take(lock: Lock) | Drop(lock: Lock)

  /** One attempt of an allocation: the unit chosen, how often the caller slept, whether the unit went offline. */
  datatype Attempt = Attempt(unit: nat, naps: nat, retire: bool)

  /** A unit visited by the first balancing pass, and whether it supplied a better candidate. */
  datatype Visit = Visit(unit: nat, better: bool)

  datatype Balance = Balance(first: seq<Visit>, second: seq<nat>)

  datatype Call =
    | Alloc(attempts: seq<Attempt>, found: bool, fault: Option<nat>)
    | Rerequest(unit: nat, offered: bool)
    | Free(unit: nat, follow: Follow)
    | Add(balance: Option<Balance>)
    | Del(unit: nat, tidied: bool)
    | Query

  datatype Follow = Nothing | Retire | Rebalance(balance: Balance)

  function Pair(l: Lock): seq<Op> {
    [Take(l), Drop(l)]
  }

  /** Asleep, a task gives up the mutex of the queue. */
  function Naps(u: nat, n: nat): seq<Op> {
    if n == 0 then [] else [Drop(Queue(u)), Take(Queue(u))] + Naps(u, n - 1)
  }

  function AttemptScript(a: Attempt): seq<Op> {
    Pair(Units) + ([Take(Queue(a.unit))] + (Naps(a.unit, a.naps) + ([Drop(Queue(a.unit))] +
    (if a.retire then [Take(Units)] + (Pair(Queue(a.unit)) + [Drop(Units)]) else []))))
  }

  function AttemptScripts(attempts: seq<Attempt>): seq<Op> {
    if attempts == [] then [] else AttemptScript(attempts[0]) + AttemptScripts(attempts[1..])
  }

  /** The first pass holds the mutex of its candidate's queue while it visits the next unit. */
  function FirstPass(visits: seq<Visit>, candidate: Option<nat>): seq<Op> {
    if visits == [] then Release(candidate)
    else
      var u := visits[0].unit;
      if visits[0].better then [Take(Queue(u))] + (Release(candidate) + FirstPass(visits[1..], Some(u)))
      else Pair(Queue(u)) + FirstPass(visits[1..], candidate)
  }

  function Release(candidate: Option<nat>): seq<Op> {
    if candidate.None? then [] else [Drop(Queue(candidate.value))]
  }

  function SecondPass(units: seq<nat>): seq<Op> {
    if units == [] then [] else Pair(Queue(units[0])) + SecondPass(units[1..])
  }

  function BalanceScript(b: Balance): seq<Op> {
    FirstPass(b.first, None) + SecondPass(b.second)
  }

  function Script(c: Call): seq<Op> {
    match c
    case Alloc(attempts, found, fault) =>
      AttemptScripts(attempts) + ((if found then [] else Pair(Units))
      + (if fault.None? then [] else Pair(Queue(fault.value))))
    case Rerequest(u, offered) => Pair(Queue(u)) + (if offered then Pair(Units) else [])
    case Free(u, follow) =>
      Pair(Queue(u)) +
      (match follow
       case Nothing => []
       case Retire => [Take(Units)] + (Pair(Queue(u)) + [Drop(Units)])
       case Rebalance(b) => [Take(Units)] + (BalanceScript(b) + [Drop(Units)]))
    case Add(b) =>
      [Take(Units)] + ((if b.None? then [] else BalanceScript(b.value)) + [Drop(Units)])
    case Del(u, tidied) =>
      [Take(Units)] + ((if tidied then Pair(Queue(u)) else []) + (Pair(Queue(u)) + [Drop(Units)]))
    case Query => Pair(Units)
  }

  /** The list iteration visits each unit once. */
  predicate Distinct(visits: seq<Visit>) {
    forall i, j :: 0 <= i < j < |visits| ==> visits[i].unit != visits[j].unit
  }

  predicate WellFormed(c: Call) {
    match c
    case Free(_, Rebalance(b)) => Distinct(b.first)
    case Add(Some(b)) => Distinct(b.first)
    case _ => true
  }

  // The discipline.

  /** What may be taken or dropped by a thread that holds `held`. */
  predicate Allowed(held: set<Lock>, op: Op) {
    match op
    case Take(l) => l !in held && (held == {} || (l.Queue? && Units in held))
    case Drop(l) => l in held && (l == Units ==> held == {Units})
  }

  function Held(held: set<Lock>, op: Op): set<Lock> {
    match op
    case Take(l) => held + {l}
    case Drop(l) => held - {l}
  }

  /** The locks held after a script, or None if it breaks the discipline on the way. */
  function Outcome(held: set<Lock>, ops: seq<Op>): Option<set<Lock>>
    decreases |ops|
  {
    if ops == [] then Some(held)
    else if Allowed(held, ops[0]) then Outcome(Held(held, ops[0]), ops[1..]) else None
  }

  lemma {:induction false} OutcomeConcat(held: set<Lock>, a: seq<Op>, b: seq<Op>)
    requires Outcome(held, a).Some?
    ensures Outcome(held, a + b) == Outcome(Outcome(held, a).value, b)
    decreases |a|
  {
    if a == [] {
      assert a + b == b;
    } else {
      assert (a + b)[1..] == a[1..] + b;
      OutcomeConcat(Held(held, a[0]), a[1..], b);
    }
  }

  lemma PairOutcome(held: set<Lock>, l: Lock)
    requires Allowed(held, Take(l)) && (l == Units ==> held == {})
    ensures Outcome(held, Pair(l)) == Some(held)
  {
    var h := held + {l};
    assert Pair(l)[1..] == [Drop(l)] && [Drop(l)][1..] == [];
    assert h - {l} == held;
    assert Outcome(h, [Drop(l)]) == Outcome(held, []);
  }

  lemma OneOutcome(held: set<Lock>, op: Op)
    requires Allowed(held, op)
    ensures Outcome(held, [op]) == Some(Held(held, op))
  {
    assert [op][1..] == [];
    assert Outcome(Held(held, op), []) == Some(Held(held, op));
  }

  lemma {:induction false} NapsOutcome(u: nat, n: nat)
    ensures Outcome({Queue(u)}, Naps(u, n)) == Some({Queue(u)})
  {
    if n > 0 {
      var nap := [Drop(Queue(u)), Take(Queue(u))];
      assert nap == [Drop(Queue(u))] + [Take(Queue(u))];
      OneOutcome({Queue(u)}, Drop(Queue(u)));
      assert Held({Queue(u)}, Drop(Queue(u))) == {};
      OneOutcome({}, Take(Queue(u)));
      assert Held({}, Take(Queue(u))) == {Queue(u)};
      OutcomeConcat({Queue(u)}, [Drop(Queue(u))], [Take(Queue(u))]);
      NapsOutcome(u, n - 1);
      OutcomeConcat({Queue(u)}, nap, Naps(u, n - 1));
    }
  }

  /** A take, something balanced, and the drop. */
  lemma Bracket(held: set<Lock>, l: Lock, ops: seq<Op>)
    requires Allowed(held, Take(l)) && (l == Units ==> held == {}) && Outcome(held + {l}, ops) == Some(held + {l})
    ensures Outcome(held, [Take(l)] + (ops + [Drop(l)])) == Some(held)
  {
    OneOutcome(held, Take(l));
    OutcomeConcat(held, [Take(l)], ops + [Drop(l)]);
    OutcomeConcat(held + {l}, ops, [Drop(l)]);
    OneOutcome(held + {l}, Drop(l));
    assert held + {l} - {l} == held;
  }

  ghost function CandidateLocks(candidate: Option<nat>): set<Lock> {
    if candidate.None? then {Units} else {Units, Queue(candidate.value)}
  }

  lemma ReleaseOutcome(held: set<Lock>, candidate: Option<nat>)
    requires Units in held && (candidate.Some? ==> Queue(candidate.value) in held)
    ensures Outcome(held, Release(candidate)) ==
            Some(if candidate.None? then held else held - {Queue(candidate.value)})
  {
    if candidate.Some? {
      OneOutcome(held, Drop(Queue(candidate.value)));
    }
  }

  lemma {:induction false} FirstPassOutcome(visits: seq<Visit>, candidate: Option<nat>)
    requires Distinct(visits)
    requires candidate.Some? ==> forall i :: 0 <= i < |visits| ==> visits[i].unit != candidate.value
    ensures Outcome(CandidateLocks(candidate), FirstPass(visits, candidate)) == Some({Units})
    decreases |visits|
  {
    var held := CandidateLocks(candidate);
    if visits == [] {
      ReleaseOutcome(held, candidate);
      assert candidate.Some? ==> held - {Queue(candidate.value)} == {Units};
    } else {
      var u := visits[0].unit;
      if visits[0].better {
        var rest := FirstPass(visits[1..], Some(u));
        OneOutcome(held, Take(Queue(u)));
        OutcomeConcat(held, [Take(Queue(u))], Release(candidate) + rest);
        ReleaseOutcome(held + {Queue(u)}, candidate);
        OutcomeConcat(held + {Queue(u)}, Release(candidate), rest);
        BetterLocks(candidate, u);
        FirstPassOutcome(visits[1..], Some(u));
      } else {
        PairOutcome(held, Queue(u));
        OutcomeConcat(held, Pair(Queue(u)), FirstPass(visits[1..], candidate));
        FirstPassOutcome(visits[1..], candidate);
      }
    }
  }

  lemma BetterLocks(candidate: Option<nat>, u: nat)
    requires candidate.Some? ==> candidate.value != u
    ensures var held := CandidateLocks(candidate) + {Queue(u)};
            (if candidate.None? then held else held - {Queue(candidate.value)}) == CandidateLocks(Some(u))
  {
  }

  lemma {:induction false} SecondPassOutcome(units: seq<nat>)
    ensures Outcome({Units}, SecondPass(units)) == Some({Units})
  {
    if units != [] {
      PairOutcome({Units}, Queue(units[0]));
      OutcomeConcat({Units}, Pair(Queue(units[0])), SecondPass(units[1..]));
      SecondPassOutcome(units[1..]);
    }
  }

  lemma BalanceOutcome(b: Balance)
    requires Distinct(b.first)
    ensures Outcome({Units}, BalanceScript(b)) == Some({Units})
  {
    FirstPassOutcome(b.first, None);
    SecondPassOutcome(b.second);
    OutcomeConcat({Units}, FirstPass(b.first, None), SecondPass(b.second));
  }

  lemma RetireOutcome(u: nat)
    ensures Outcome({}, [Take(Units)] + (Pair(Queue(u)) + [Drop(Units)])) == Some({})
  {
    PairOutcome({Units}, Queue(u));
    assert {} + {Units} == {Units};
    Bracket({}, Units, Pair(Queue(u)));
  }

  lemma AttemptOutcome(a: Attempt)
    ensures Outcome({}, AttemptScript(a)) == Some({})
  {
    var last := if a.retire then [Take(Units)] + (Pair(Queue(a.unit)) + [Drop(Units)]) else [];
    RetireOutcome(a.unit);
    assert Outcome({}, last) == Some({});
    var q := Queue(a.unit);
    OneOutcome({q}, Drop(q));
    assert Held({q}, Drop(q)) == {};
    OutcomeConcat({q}, [Drop(q)], last);
    NapsOutcome(a.unit, a.naps);
    OutcomeConcat({q}, Naps(a.unit, a.naps), [Drop(q)] + last);
    OneOutcome({}, Take(q));
    assert {} + {q} == {q};
    OutcomeConcat({}, [Take(q)], Naps(a.unit, a.naps) + ([Drop(q)] + last));
    PairOutcome({}, Units);
    OutcomeConcat({}, Pair(Units), [Take(q)] + (Naps(a.unit, a.naps) + ([Drop(q)] + last)));
  }

  lemma {:induction false} AttemptsOutcome(attempts: seq<Attempt>)
    ensures Outcome({}, AttemptScripts(attempts)) == Some({})
  {
    if attempts != [] {
      AttemptOutcome(attempts[0]);
      AttemptsOutcome(attempts[1..]);
      OutcomeConcat({}, AttemptScript(attempts[0]), AttemptScripts(attempts[1..]));
    }
  }

  lemma TwoOutcomes(a: seq<Op>, b: seq<Op>)
    requires Outcome({}, a) == Some({}) && Outcome({}, b) == Some({})
    ensures Outcome({}, a + b) == Some({})
  {
    OutcomeConcat({}, a, b);
  }

  lemma MaybePair(wanted: bool, l: Lock)
    ensures Outcome({}, if wanted then Pair(l) else []) == Some({})
  {
    PairOutcome({}, l);
  }

  lemma MaybeBalance(b: Balance)
    requires Distinct(b.first)
    ensures Outcome({}, [Take(Units)] + (BalanceScript(b) + [Drop(Units)])) == Some({})
  {
    BalanceOutcome(b);
    assert {} + {Units} == {Units};
    Bracket({}, Units, BalanceScript(b));
  }

  /** Every system call obeys the discipline and ends holding nothing. */
  lemma CallsDisciplined(c: Call)
    requires WellFormed(c)
    ensures Outcome({}, Script(c)) == Some({})
  {
    assert {} + {Units} == {Units};
    match c
    case Alloc(attempts, found, fault) =>
      AttemptsOutcome(attempts);
      MaybePair(!found, Units);
      MaybePair(fault.Some?, Queue(if fault.Some? then fault.value else 0));
      TwoOutcomes(if found then [] else Pair(Units), if fault.None? then [] else Pair(Queue(fault.value)));
      TwoOutcomes(AttemptScripts(attempts), (if found then [] else Pair(Units))
                  + (if fault.None? then [] else Pair(Queue(fault.value))));
    case Rerequest(u, offered) =>
      PairOutcome({}, Queue(u));
      MaybePair(offered, Units);
      TwoOutcomes(Pair(Queue(u)), if offered then Pair(Units) else []);
    case Free(u, follow) =>
      PairOutcome({}, Queue(u));
      RetireOutcome(u);
      if follow.Rebalance? {
        MaybeBalance(follow.balance);
        TwoOutcomes(Pair(Queue(u)), [Take(Units)] + (BalanceScript(follow.balance) + [Drop(Units)]));
      } else {
        TwoOutcomes(Pair(Queue(u)), [Take(Units)] + (Pair(Queue(u)) + [Drop(Units)]));
        TwoOutcomes(Pair(Queue(u)), []);
      }
    case Add(b) =>
      if b.Some? {
        MaybeBalance(b.value);
      } else {
        Bracket({}, Units, []);
      }
    case Del(u, tidied) =>
      var q := Pair(Queue(u));
      PairOutcome({Units}, Queue(u));
      var middle := (if tidied then q else []) + q;
      OutcomeConcat({Units}, if tidied then q else [], q);
      Bracket({}, Units, middle);
      assert middle + [Drop(Units)] == (if tidied then q else []) + (q + [Drop(Units)]);
    case Query =>
      PairOutcome({}, Units);
  }

  // Which mutexes a call comes to hold.

  ghost function Taken(ops: seq<Op>): set<Lock> {
    set op | op in ops && op.Take? :: op.lock
  }

  lemma TakenBoth(a: seq<Op>, b: seq<Op>)
    ensures Taken(a + b) == Taken(a) + Taken(b)
  {
    forall l ensures l in Taken(a + b) <==> l in Taken(a) + Taken(b) {
      if l in Taken(a + b) {
        assert Take(l) in a + b;
      }
      if l in Taken(a) { assert Take(l) in a && Take(l) in a + b; }
      if l in Taken(b) { assert Take(l) in b && Take(l) in a + b; }
    }
  }

  lemma TakenPair(l: Lock)
    ensures Taken(Pair(l)) == {l} && Taken([Take(l)]) == {l} && Taken([Drop(l)]) == {}
  {
    assert Take(l) in Pair(l) && Take(l) in [Take(l)];
  }

  lemma {:induction false} TakenNaps(u: nat, n: nat)
    ensures Taken(Naps(u, n)) <= {Queue(u)}
  {
    if n > 0 {
      TakenNaps(u, n - 1);
      TakenBoth([Drop(Queue(u)), Take(Queue(u))], Naps(u, n - 1));
    }
  }

  lemma TakenAttempt(a: Attempt)
    ensures Taken(AttemptScript(a)) == {Units, Queue(a.unit)}
  {
    var q := Queue(a.unit);
    var last := if a.retire then [Take(Units)] + (Pair(q) + [Drop(Units)]) else [];
    TakenPair(Units);
    TakenPair(q);
    TakenNaps(a.unit, a.naps);
    TakenBoth(Pair(q), [Drop(Units)]);
    TakenBoth([Take(Units)], Pair(q) + [Drop(Units)]);
    TakenBoth([Drop(q)], last);
    TakenBoth(Naps(a.unit, a.naps), [Drop(q)] + last);
    TakenBoth([Take(q)], Naps(a.unit, a.naps) + ([Drop(q)] + last));
    TakenBoth(Pair(Units), [Take(q)] + (Naps(a.unit, a.naps) + ([Drop(q)] + last)));
  }

  lemma {:induction false} TakenAttempts(attempts: seq<Attempt>)
    ensures Units in Taken(AttemptScripts(attempts)) <==> attempts != []
    ensures forall u :: Queue(u) in Taken(AttemptScripts(attempts)) <==> exists i :: 0 <= i < |attempts| && attempts[i].unit == u
  {
    if attempts != [] {
      TakenAttempt(attempts[0]);
      TakenAttempts(attempts[1..]);
      TakenBoth(AttemptScript(attempts[0]), AttemptScripts(attempts[1..]));
      forall u ensures Queue(u) in Taken(AttemptScripts(attempts)) <==> exists i :: 0 <= i < |attempts| && attempts[i].unit == u {
        if i :| 0 <= i < |attempts| && attempts[i].unit == u {
          assert i > 0 ==> attempts[1..][i - 1].unit == u;
        }
      }
    }
  }

  lemma {:induction false} TakenFirst(visits: seq<Visit>, candidate: Option<nat>)
    ensures Units !in Taken(FirstPass(visits, candidate))
    ensures forall u :: Queue(u) in Taken(FirstPass(visits, candidate)) <==> exists i :: 0 <= i < |visits| && visits[i].unit == u
    decreases |visits|
  {
    if visits != [] {
      var q, better := Queue(visits[0].unit), visits[0].better;
      var next := if better then Some(visits[0].unit) else candidate;
      var rest := FirstPass(visits[1..], next);
      TakenFirst(visits[1..], next);
      TakenPair(q);
      assert Taken(Release(candidate)) == {};
      TakenBoth(Pair(q), rest);
      TakenBoth(Release(candidate), rest);
      TakenBoth([Take(q)], Release(candidate) + rest);
      assert Taken(FirstPass(visits, candidate)) == {q} + Taken(rest);
      forall u ensures Queue(u) in Taken(FirstPass(visits, candidate)) <==> exists i :: 0 <= i < |visits| && visits[i].unit == u {
        if i :| 0 <= i < |visits| && visits[i].unit == u {
          assert i > 0 ==> visits[1..][i - 1].unit == u;
        }
      }
    }
  }

  lemma {:induction false} TakenSecond(units: seq<nat>)
    ensures Units !in Taken(SecondPass(units)) && forall u :: Queue(u) in Taken(SecondPass(units)) <==> u in units
  {
    if units != [] {
      TakenSecond(units[1..]);
      TakenPair(Queue(units[0]));
      TakenBoth(Pair(Queue(units[0])), SecondPass(units[1..]));
    }
  }

  ghost predicate Visits(b: Balance, u: nat) {
    u in b.second || exists i :: 0 <= i < |b.first| && b.first[i].unit == u
  }

  lemma TakenBalance(b: Balance)
    ensures Units !in Taken(BalanceScript(b)) && forall u :: Queue(u) in Taken(BalanceScript(b)) <==> Visits(b, u)
  {
    TakenFirst(b.first, None);
    TakenSecond(b.second);
    TakenBoth(FirstPass(b.first, None), SecondPass(b.second));
  }

  /** The run queues whose mutexes a call takes. */
  ghost predicate Touches(c: Call, u: nat) {
    match c
    case Alloc(attempts, _, fault) => fault == Some(u) || exists i :: 0 <= i < |attempts| && attempts[i].unit == u
    case Rerequest(v, _) => u == v
    case Free(v, follow) => u == v || (follow.Rebalance? && Visits(follow.balance, u))
    case Add(b) => b.Some? && Visits(b.value, u)
    case Del(v, _) => u == v
    case Query => false
  }

  /** Whether it takes the mutex of the list. */
  ghost predicate TouchesList(c: Call) {
    match c
    case Alloc(attempts, found, _) => attempts != [] || !found
    case Rerequest(_, offered) => offered
    case Free(_, follow) => !follow.Nothing?
    case _ => true
  }

  /** A call takes exactly the mutexes of the units that it touches, and that of the list if it needs it. */
  lemma CallTakes(c: Call)
    ensures Units in Taken(Script(c)) <==> TouchesList(c)
    ensures forall u :: Queue(u) in Taken(Script(c)) <==> Touches(c, u)
  {
    TakenPair(Units);
    match c
    case Alloc(attempts, found, fault) => TakesAlloc(attempts, found, fault);
    case Rerequest(u, offered) =>
      TakenPair(Queue(u));
      TakenBoth(Pair(Queue(u)), if offered then Pair(Units) else []);
    case Free(u, follow) => TakesFree(u, follow);
    case Add(b) =>
      var middle := if b.None? then [] else BalanceScript(b.value);
      if b.Some? { TakenBalance(b.value); }
      TakenBoth(middle, [Drop(Units)]);
      TakenBoth([Take(Units)], middle + [Drop(Units)]);
    case Del(u, tidied) =>
      TakenPair(Queue(u));
      var first := if tidied then Pair(Queue(u)) else [];
      TakenBoth(Pair(Queue(u)), [Drop(Units)]);
      TakenBoth(first, Pair(Queue(u)) + [Drop(Units)]);
      TakenBoth([Take(Units)], first + (Pair(Queue(u)) + [Drop(Units)]));
    case Query =>
  }

  lemma TakesAlloc(attempts: seq<Attempt>, found: bool, fault: Option<nat>)
    ensures var c := Alloc(attempts, found, fault);
            && (Units in Taken(Script(c)) <==> TouchesList(c))
            && (forall u :: Queue(u) in Taken(Script(c)) <==> Touches(c, u))
  {
    var a, b := if found then [] else Pair(Units), if fault.None? then [] else Pair(Queue(fault.value));
    TakenPair(Units);
    if fault.Some? { TakenPair(Queue(fault.value)); }
    TakenAttempts(attempts);
    TakenBoth(a, b);
    TakenBoth(AttemptScripts(attempts), a + b);
  }

  lemma TakesFree(u: nat, follow: Follow)
    ensures var c := Free(u, follow);
            && (Units in Taken(Script(c)) <==> TouchesList(c))
            && (forall v :: Queue(v) in Taken(Script(c)) <==> Touches(c, v))
  {
    TakenPair(Units);
    TakenPair(Queue(u));
    var middle := match follow
                  case Nothing => []
                  case Retire => Pair(Queue(u))
                  case Rebalance(b) => BalanceScript(b);
    if follow.Rebalance? { TakenBalance(follow.balance); }
    TakenBoth(middle, [Drop(Units)]);
    TakenBoth([Take(Units)], middle + [Drop(Units)]);
    TakenBoth(Pair(Queue(u)), if follow.Nothing? then [] else [Take(Units)] + (middle + [Drop(Units)]));
  }
}
