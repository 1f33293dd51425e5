/** Any number of threads running the kernel extension's system calls: no cycle of waiting, and no deadlock. */
module KssDeadlock {
  import opened Collections
  import opened KssMutex

  /** The locks a thread holds, and the rest of its current call. */
  datatype Thread = Thread(held: set<Lock>, todo: seq<Op>)

  type System = map<nat, Thread>

  datatype Action = Begin(t: nat, call: Call) | Advance(t: nat)

  ghost predicate Idle(s: System) {
    forall t :: t in s ==> s[t] == Thread({}, [])
  }

  ghost predicate IsHeld(s: System, l: Lock) {
    exists t :: t in s && l in s[t].held
  }

  ghost predicate Enabled(s: System, a: Action) {
    match a
    case Begin(t, call) => t in s && s[t].todo == [] && WellFormed(call)
    case Advance(t) => t in s && s[t].todo != [] && (s[t].todo[0].Take? ==> !IsHeld(s, s[t].todo[0].lock))
  }

  function After(s: System, a: Action): System
    requires a.t in s && (a.Advance? ==> s[a.t].todo != [])
  {
    match a
    case Begin(t, call) => s[t := Thread(s[t].held, Script(call))]
    case Advance(t) => s[t := Thread(Held(s[t].held, s[t].todo[0]), s[t].todo[1..])]
  }

  ghost predicate Run(s: System, actions: seq<Action>, t: System)
    decreases |actions|
  {
    if actions == [] then s == t
    else Enabled(s, actions[0]) && Run(After(s, actions[0]), actions[1..], t)
  }

  ghost predicate ThreadOk(th: Thread) {
    && Outcome(th.held, th.todo) == Some({})
    && (forall u, v :: Queue(u) in th.held && Queue(v) in th.held && u != v ==> Units in th.held)
  }

  ghost predicate Inv(s: System) {
    && (forall t :: t in s ==> ThreadOk(s[t]))
    && (forall t, x, l :: t in s && x in s && l in s[t].held && l in s[x].held ==> t == x)
  }

  lemma StepKeepsInv(s: System, a: Action)
    requires Inv(s) && Enabled(s, a)
    ensures Inv(After(s, a))
  {
    var s' := After(s, a);
    assert ThreadOk(s[a.t]);
    if a.Begin? {
      CallsDisciplined(a.call);
    } else {
      assert Allowed(s[a.t].held, s[a.t].todo[0]);
    }
    forall t | t in s' ensures ThreadOk(s'[t]) {
      assert t != a.t ==> ThreadOk(s[t]);
    }
    forall t, x, l | t in s' && x in s' && l in s'[t].held && l in s'[x].held ensures t == x {
      assert l in s[t].held || (t == a.t && l == s[a.t].todo[0].lock);
      assert l in s[x].held || (x == a.t && l == s[a.t].todo[0].lock);
    }
  }

  lemma {:induction false} RunKeepsInv(s: System, actions: seq<Action>, t: System)
    requires Inv(s) && Run(s, actions, t)
    ensures Inv(t)
    decreases |actions|
  {
    if actions != [] {
      StepKeepsInv(s, actions[0]);
      RunKeepsInv(After(s, actions[0]), actions[1..], t);
    }
  }

  ghost predicate Wants(s: System, t: nat, l: Lock) {
    t in s && s[t].todo != [] && s[t].todo[0] == Take(l)
  }

  ghost predicate WaitsFor(s: System, t: nat, x: nat) {
    t in s && x in s && s[t].todo != [] && s[t].todo[0].Take? && s[t].todo[0].lock in s[x].held
  }

  /** Each thread waits for the next, the last for the first. */
  ghost predicate WaitCycle(s: System, c: seq<nat>) {
    c != [] && forall i :: 0 <= i < |c| ==> WaitsFor(s, c[i], c[if i + 1 < |c| then i + 1 else 0])
  }

  /** A thread that waits for the list mutex holds nothing; only its holder ever has two queue mutexes. */
  lemma Discipline(s: System, actions: seq<Action>, x: System, t: nat)
    requires Idle(s) && Run(s, actions, x) && t in x
    ensures Wants(x, t, Units) ==> x[t].held == {}
    ensures forall u, v :: Queue(u) in x[t].held && Queue(v) in x[t].held && u != v ==> Units in x[t].held
    ensures forall l :: l in x[t].held ==> forall y :: y in x && l in x[y].held ==> y == t
  {
    IdleInv(s);
    RunKeepsInv(s, actions, x);
    assert ThreadOk(x[t]);
  }

  lemma IdleInv(s: System)
    requires Idle(s)
    ensures Inv(s)
  {
    assert Outcome({}, []) == Some({});
  }

  /** Who waits while holding something holds the list mutex. */
  lemma HolderWaits(s: System, t: nat)
    requires Inv(s) && t in s && s[t].todo != [] && s[t].todo[0].Take? && s[t].held != {}
    ensures Units in s[t].held && s[t].todo[0].lock.Queue? && s[t].todo[0].lock !in s[t].held
  {
    assert ThreadOk(s[t]);
    assert Allowed(s[t].held, s[t].todo[0]);
  }

  /** Main theorem: no reachable state has a cycle of waiting threads. */
  lemma NoWaitCycle(s: System, actions: seq<Action>, x: System, c: seq<nat>)
    requires Idle(s) && Run(s, actions, x)
    ensures !WaitCycle(x, c)
  {
    IdleInv(s);
    RunKeepsInv(s, actions, x);
    if WaitCycle(x, c) {
      var n := |c|;
      var next := c[if 0 + 1 < n then 1 else 0];
      assert WaitsFor(x, c[n - 1], c[if n - 1 + 1 < n then n else 0]);
      assert WaitsFor(x, c[0], next);
      assert WaitsFor(x, next, c[if n <= 2 then 0 else 2]);
      NoHolderChain(x, c[0], next);
    }
  }

  /** A thread that is waited for never waits for a thread that waits. */
  lemma NoHolderChain(s: System, t: nat, x: nat)
    requires Inv(s) && t in s && s[t].held != {} && x in s && s[x].todo != [] && s[x].todo[0].Take?
    ensures !WaitsFor(s, t, x)
  {
    if WaitsFor(s, t, x) {
      HolderWaits(s, t);
      HolderWaits(s, x);
    }
  }

  /** Who holds a queue mutex without the list mutex is about to drop one. */
  lemma HolderDrops(s: System, t: nat)
    requires Inv(s) && t in s && s[t].held != {} && Units !in s[t].held
    ensures Enabled(s, Advance(t))
  {
    assert ThreadOk(s[t]);
    assert Outcome(s[t].held, []) == Some(s[t].held);
    assert Allowed(s[t].held, s[t].todo[0]);
  }

  /** No deadlock: as long as some call is under way, some thread can take its next step. */
  lemma SomeoneCanMove(s: System, actions: seq<Action>, x: System, t: nat) returns (mover: nat)
    requires Idle(s) && Run(s, actions, x) && t in x && x[t].todo != []
    ensures Enabled(x, Advance(mover))
  {
    IdleInv(s);
    RunKeepsInv(s, actions, x);
    mover := t;
    if !Enabled(x, Advance(mover)) {
      mover :| mover in x && x[t].todo[0].lock in x[mover].held;
      if Units in x[mover].held && !Enabled(x, Advance(mover)) {
        assert ThreadOk(x[mover]);
        assert Outcome(x[mover].held, []) == Some(x[mover].held);
        var holder := mover;
        HolderWaits(x, holder);
        mover :| mover in x && x[holder].todo[0].lock in x[mover].held;
        assert Units in x[mover].held ==> mover == holder;
      }
      if Units !in x[mover].held {
        HolderDrops(x, mover);
      }
    }
  }
}
