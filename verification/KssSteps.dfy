/** Every step other than a change of capacity keeps the units in order, unless it leaves a stale current task. */
module KssSteps {
  import opened KssUnit
  import opened KssCapacity
  import opened KssSystem

  // The access mutex and the releases.

  ghost predicate LocksOk(s: State, u: nat)
    requires u in s.units
  {
    && OneLock(s, u) && CallsOk(s, u)
    && (WillGrant(s, u, s.units[u].tree) ==> s.units[u].count <= s.units[u].maxcount)
  }

  lemma OnlyHolderHands(s: State, u: nat, t: nat)
    requires u in s.units && OneLock(s, u) && CallsOk(s, u) && (HasLock(s, u, t) || MutexFree(s, u))
    requires t in s.tasks && !s.tasks[t].Handing?
    ensures forall x :: x in s.tasks && s.tasks[x].Locks(u) ==> x == t
    ensures forall x :: x in s.tasks ==> s.tasks[x] != Called(u)
  {
    forall x | x in s.tasks && s.tasks[x].Locks(u) ensures x == t {
      assert HasLock(s, u, x);
    }
    forall x | x in s.tasks && s.tasks[x] == Called(u) ensures false {
      var r :| Hands(s, u, r, x);
      assert HasLock(s, u, r);
    }
  }

  /** The one task for which the mutex is or may be held goes on to p, and nobody is called. */
  lemma LockMoves(s: State, s': State, u: nat, t: nat, p: Phase)
    requires u in s.units && OneLock(s, u) && CallsOk(s, u) && (HasLock(s, u, t) || MutexFree(s, u))
    requires t in s.tasks && !s.tasks[t].Handing? && s'.tasks == s.tasks[t := p] && u in s'.units && !p.Called?
    requires p.Handing? ==> p.next == 0 && s'.units[u].tree == []
    requires p == Picking(u) ==> s'.units[u].count <= s'.units[u].maxcount
    ensures LocksOk(s', u)
  {
    OnlyHolderHands(s, u, t);
    assert forall x :: HasLock(s', u, x) ==> x == t;
    assert forall x :: x in s'.tasks ==> s'.tasks[x] != Called(u);
    assert forall r, x :: Hands(s', u, r, x) ==> r == t;
    assert forall r :: GrantsNext(s', u, s'.units[u].tree, r) ==> r == t;
  }

  /** How the roles of the tasks change with the phase of one of them. */
  lemma RolesChange(s: State, s': State, u: nat, t: nat, p: Phase)
    requires t in s.tasks && s'.tasks == s.tasks[t := p]
    ensures |Owners(s', u)| == |Owners(s, u)| + (if p.Owns(u) then 1 else 0) - (if s.tasks[t].Owns(u) then 1 else 0)
    ensures Waiters(s', u) == if p.Waits(u) then Waiters(s, u) + {t} else Waiters(s, u) - {t}
    ensures p.Waits(u) == s.tasks[t].Waits(u) ==> Waiters(s', u) == Waiters(s, u)
    ensures Queued(s', u) == if p.Queues(u) then Queued(s, u) + {t} else Queued(s, u) - {t}
    ensures p.Queues(u) == s.tasks[t].Queues(u) ==> Queued(s', u) == Queued(s, u)
  {
    hide Owners, Waiters, Queued;
    OwnersCount(s, s', u, t, p);
    WaitersChange(s, s', u, t, p);
    QueuedChange(s, s', u, t, p);
  }

  lemma OwnersCount(s: State, s': State, u: nat, t: nat, p: Phase)
    requires t in s.tasks && s'.tasks == s.tasks[t := p]
    ensures |Owners(s', u)| == |Owners(s, u)| + (if p.Owns(u) then 1 else 0) - (if s.tasks[t].Owns(u) then 1 else 0)
  {
    hide Owners;
    OwnersChange(s, s', u, t, p);
    if p.Owns(u) == s.tasks[t].Owns(u) {
      assert Owners(s', u) == Owners(s, u);
    }
  }

  lemma OwnersChange(s: State, s': State, u: nat, t: nat, p: Phase)
    requires t in s.tasks && s'.tasks == s.tasks[t := p]
    ensures Owners(s', u) == if p.Owns(u) then Owners(s, u) + {t} else Owners(s, u) - {t}
    ensures t in Owners(s, u) <==> s.tasks[t].Owns(u)
  {
  }

  lemma WaitersChange(s: State, s': State, u: nat, t: nat, p: Phase)
    requires t in s.tasks && s'.tasks == s.tasks[t := p]
    ensures Waiters(s', u) == if p.Waits(u) then Waiters(s, u) + {t} else Waiters(s, u) - {t}
    ensures t in Waiters(s, u) <==> s.tasks[t].Waits(u)
  {
  }

  lemma QueuedChange(s: State, s': State, u: nat, t: nat, p: Phase)
    requires t in s.tasks && s'.tasks == s.tasks[t := p]
    ensures Queued(s', u) == if p.Queues(u) then Queued(s, u) + {t} else Queued(s, u) - {t}
    ensures t in Queued(s, u) <==> s.tasks[t].Queues(u)
  {
  }

  // Steps of one task at its unit.

  lemma EnterKeeps(s: State, a: Action, u: nat)
    requires a.Enter? && Enabled(s, a) && u == s.tasks[a.t].unit && UnitOk(s, u) && TaskOk(s, a.t)
    ensures UnitOk(After(s, a), u)
  {
    hide OneLock, CallsOk, WillGrant, MutexFree, Owners, Waiters, Queued, Sorted, Distinct, Insert;
    var t, s' := a.t, After(s, a);
    var tree := s.units[u].tree;
    var w := Waiter(a.vrun, a.weight, t);
    RolesChange(s, s', u, t, Entering(u));
    assert t !in Tasks(tree) by { QueuedChange(s, s', u, t, Entering(u)); }
    InsertSorted(tree, w);
    InsertDistinct(tree, w);
    InsertTasks(tree, w);
    LockMoves(s, s', u, t, Entering(u));
  }

  lemma CheckKeeps(s: State, a: Action, u: nat)
    requires a.Check? && Enabled(s, a) && u == s.tasks[a.t].unit && UnitOk(s, u)
    ensures UnitOk(After(s, a), u)
  {
    hide OneLock, CallsOk, WillGrant, Owners, Waiters, Queued, Sorted, Distinct;
    var t, s' := a.t, After(s, a);
    assert HasLock(s, u, t);
    RolesChange(s, s', u, t, s'.tasks[t]);
    LockMoves(s, s', u, t, s'.tasks[t]);
  }

  lemma DequeueKeeps(s: State, a: Action, u: nat)
    requires (a.Dequeue? || a.Migrate?) && Enabled(s, a) && u == s.tasks[a.t].unit && UnitOk(s, u)
    ensures UnitOk(After(s, a), u)
  {
    hide OneLock, CallsOk, WillGrant, Owners, Waiters, Queued, Sorted, Distinct, Without;
    var t, s' := a.t, After(s, a);
    assert HasLock(s, u, t);
    RolesChange(s, s', u, t, s'.tasks[t]);
    WithoutOrder(s.units[u].tree, t);
    WithoutTasks(s.units[u].tree, t);
    LockMoves(s, s', u, t, s'.tasks[t]);
  }

  lemma OccupyKeeps(s: State, a: Action, u: nat)
    requires (a.Occupy? || a.Rerequest?) && Enabled(s, a) && u == s.tasks[a.t].unit && UnitOk(s, u)
    ensures UnitOk(After(s, a), u)
  {
    hide OneLock, CallsOk, WillGrant, MutexFree, Owners, Waiters, Queued, Sorted, Distinct;
    var t, s' := a.t, After(s, a);
    RolesChange(s, s', u, t, Holding(u));
    LockMoves(s, s', u, t, Holding(u));
  }

  /** A slot starts to be given back. */
  lemma LeaveKeeps(s: State, a: Action, u: nat)
    requires (a.GiveBack? || a.Free? || a.Fault? || a.Tidy?) && Enabled(s, a) && u == s.tasks[a.t].unit && UnitOk(s, u)
    requires TaskOk(s, 0)
    ensures UnitOk(After(s, a), u)
  {
    if a.Free? {
      FreeKeeps(s, a, u);
    } else {
      PhaseOnly(s, After(s, a), u, a.t, Leaving(u));
    }
  }

  lemma FreeKeeps(s: State, a: Action, u: nat)
    requires a.Free? && Enabled(s, a) && u == s.tasks[a.t].unit && UnitOk(s, u) && TaskOk(s, 0)
    ensures UnitOk(After(s, a), u)
  {
    hide OneLock, CallsOk, WillGrant, MutexFree, Owners, Waiters, Queued, Sorted, Distinct;
    var t, s' := a.t, After(s, a);
    RolesChange(s, s', u, t, Leaving(u));
    LockMoves(s, s', u, t, Leaving(u));
  }

  lemma TestKeeps(s: State, a: Action, u: nat)
    requires a.Test? && Enabled(s, a) && u == s.tasks[a.t].unit && UnitOk(s, u)
    requires Ends(s, a) ==> EndsWell(s, a.t)
    ensures UnitOk(After(s, a), u)
  {
    hide OneLock, CallsOk, WillGrant, Owners, Waiters, Queued, Sorted, Distinct;
    var t, s' := a.t, After(s, a);
    assert HasLock(s, u, t);
    RolesChange(s, s', u, t, s'.tasks[t]);
    LockMoves(s, s', u, t, s'.tasks[t]);
  }

  lemma FirstWaits(s: State, u: nat, t: nat)
    requires u in s.units && TreeOk(s, u) && OneLock(s, u) && s.units[u].tree != []
    requires t in s.tasks && s.tasks[t].Releases(u)
    ensures var x := s.units[u].tree[0].task; x in s.tasks && s.tasks[x] == Waiting(u) && x != 0
    ensures Distinct(s.units[u].tree)
  {
    var tree := s.units[u].tree;
    var x := tree[0].task;
    assert tree[0] in tree && x in Tasks(tree) && x in Queued(s, u);
    assert HasLock(s, u, t);
    if s.tasks[x].Locks(u) {
      assert HasLock(s, u, x);
    }
  }

  /** A dead waiter is dropped. */
  lemma DropKeeps(s: State, a: Action, u: nat, x: nat)
    requires a.Pick? && Enabled(s, a) && u == s.tasks[a.t].unit && UnitOk(s, u)
    requires s.units[u].tree != [] && x == s.units[u].tree[0].task && x in s.dead
    ensures UnitOk(After(s, a), u)
  {
    hide OneLock, CallsOk, WillGrant, Owners, Waiters, Queued, Sorted, Distinct, Without, Tasks;
    var tree, s' := s.units[u].tree, After(s, a);
    FirstWaits(s, u, a.t);
    FirstOut(tree);
    WithoutOrder(tree, x);
    WithoutTasks(tree, x);
    RolesChange(s, s', u, x, Idle);
    assert HasLock(s, u, a.t);
    LockStays(s, s', u, a.t, x);
  }

  /** The picking release goes on with a smaller tree. */
  lemma LockStays(s: State, s': State, u: nat, t: nat, x: nat)
    requires u in s.units && LocksOk(s, u) && t in s.tasks && s.tasks[t] == Picking(u)
    requires x in s.tasks && s.tasks[x] == Waiting(u) && s'.tasks == s.tasks[x := Idle] && u in s'.units && s'.dead == s.dead
    requires Tasks(s'.units[u].tree) <= Tasks(s.units[u].tree)
    requires s'.units[u].count == s.units[u].count && s'.units[u].maxcount == s.units[u].maxcount
    ensures LocksOk(s', u)
  {
    assert HasLock(s, u, t);
    OnlyHolderHands(s, u, t);
    assert forall y :: y in s'.tasks && s'.tasks[y].Locks(u) ==> y == t;
    assert forall y :: HasLock(s', u, y) ==> y == t;
    assert forall r, y :: !Hands(s', u, r, y);
    if WillGrant(s', u, s'.units[u].tree) {
      var r :| GrantsNext(s', u, s'.units[u].tree, r);
      assert r == t && s'.tasks[t] == Picking(u);
      assert Alive(s.units[u].tree, s.dead);
      assert GrantsNext(s, u, s.units[u].tree, t);
    }
  }

  /** A live waiter is called. */
  lemma CallKeeps(s: State, a: Action, u: nat, x: nat)
    requires a.Pick? && Enabled(s, a) && u == s.tasks[a.t].unit && UnitOk(s, u)
    requires s.units[u].tree != [] && x == s.units[u].tree[0].task && x !in s.dead
    ensures UnitOk(After(s, a), u)
  {
    hide OneLock, CallsOk, WillGrant, Owners, Waiters, Queued, Sorted, Distinct, Without, Tasks;
    var t, tree, s' := a.t, s.units[u].tree, After(s, a);
    FirstWaits(s, u, t);
    FirstOut(tree);
    WithoutOrder(tree, x);
    WithoutTasks(tree, x);
    var s1 := s.(tasks := s.tasks[t := Handing(u, x)]);
    RolesChange(s, s1, u, t, Handing(u, x));
    RolesChange(s1, s', u, x, Called(u));
    assert Alive(tree, s.dead) by { FirstInTree(tree); }
    assert GrantsNext(s, u, tree, t);
    WillGrantBy(s, u, tree, t);
    LockCalls(s, s', u, t, x);
  }

  lemma FirstInTree(tree: seq<Waiter>)
    requires tree != []
    ensures tree[0].task in Tasks(tree)
  {
    assert tree[0] in tree;
  }

  lemma WillGrantBy(s: State, u: nat, tree: seq<Waiter>, t: nat)
    requires GrantsNext(s, u, tree, t)
    ensures WillGrant(s, u, tree)
  {
  }

  lemma LockCalls(s: State, s': State, u: nat, t: nat, x: nat)
    requires u in s.units && OneLock(s, u) && CallsOk(s, u) && t in s.tasks && s.tasks[t] == Picking(u)
    requires x in s.tasks && s.tasks[x] == Waiting(u) && x != 0 && u in s'.units
    requires s'.tasks == s.tasks[t := Handing(u, x)][x := Called(u)]
    requires s'.units[u].count <= s'.units[u].maxcount
    ensures LocksOk(s', u)
  {
    assert HasLock(s, u, t);
    OnlyHolderHands(s, u, t);
    assert forall y :: HasLock(s', u, y) ==> y == t;
    assert Hands(s', u, t, x);
    assert forall r, y :: Hands(s', u, r, y) ==> r == t && y == x;
    assert forall y :: y in s'.tasks && s'.tasks[y] == Called(u) ==> y == x;
  }

  lemma PickKeeps(s: State, a: Action, u: nat)
    requires a.Pick? && Enabled(s, a) && u == s.tasks[a.t].unit && UnitOk(s, u)
    ensures UnitOk(After(s, a), u)
  {
    var t, tree := a.t, s.units[u].tree;
    if tree == [] {
      NobodyToPick(s, a, u);
    } else if tree[0].task in s.dead {
      DropKeeps(s, a, u, tree[0].task);
    } else {
      CallKeeps(s, a, u, tree[0].task);
    }
  }

  lemma NobodyToPick(s: State, a: Action, u: nat)
    requires a.Pick? && Enabled(s, a) && u == s.tasks[a.t].unit && UnitOk(s, u) && s.units[u].tree == []
    ensures UnitOk(After(s, a), u)
  {
    hide OneLock, CallsOk, WillGrant, Owners, Waiters, Queued, Sorted, Distinct;
    var t, s' := a.t, After(s, a);
    assert HasLock(s, u, t);
    RolesChange(s, s', u, t, Handing(u, 0));
    LockMoves(s, s', u, t, Handing(u, 0));
  }

  lemma FinishKeeps(s: State, a: Action, u: nat)
    requires a.Finish? && Enabled(s, a) && u == s.tasks[a.t].unit && UnitOk(s, u) && EndsWell(s, a.t)
    ensures UnitOk(After(s, a), u)
  {
    var x := s.tasks[a.t].next;
    if x == 0 {
      SlotFalls(s, a, u);
    } else {
      SlotGoesOn(s, a, u, x);
    }
  }

  lemma SlotFalls(s: State, a: Action, u: nat)
    requires a.Finish? && Enabled(s, a) && u == s.tasks[a.t].unit && UnitOk(s, u) && EndsWell(s, a.t)
    requires s.tasks[a.t].next == 0
    ensures UnitOk(After(s, a), u)
  {
    hide OneLock, CallsOk, WillGrant, Owners, Waiters, Queued, Sorted, Distinct, Tasks;
    var t, s' := a.t, After(s, a);
    FinishFacts(s, s', u, t, 0);
    RolesChange(s, s', u, t, Idle);
    NoneQueued(s, u);
  }

  lemma SlotGoesOn(s: State, a: Action, u: nat, x: nat)
    requires a.Finish? && Enabled(s, a) && u == s.tasks[a.t].unit && UnitOk(s, u) && EndsWell(s, a.t)
    requires x == s.tasks[a.t].next != 0
    ensures UnitOk(After(s, a), u)
  {
    hide OneLock, CallsOk, WillGrant, Owners, Waiters, Queued, Sorted, Distinct, Tasks;
    var t, s' := a.t, After(s, a);
    FinishFacts(s, s', u, t, x);
    var s1 := s.(tasks := s.tasks[t := Idle]);
    RolesChange(s, s1, u, t, Idle);
    RolesChange(s1, s', u, x, Granted(u));
  }

  lemma NoneQueued(s: State, u: nat)
    requires u in s.units && TreeOk(s, u) && s.units[u].tree == []
    ensures Waiters(s, u) == {}
  {
    assert Waiters(s, u) <= Queued(s, u);
  }

  lemma FinishFacts(s: State, s': State, u: nat, t: nat, x: nat)
    requires u in s.units && LocksOk(s, u) && t in s.tasks && s.tasks[t] == Handing(u, x) && u in s'.units
    requires s'.tasks == if x == 0 then s.tasks[t := Idle] else s.tasks[t := Idle][x := Granted(u)]
    ensures if x == 0 then s.units[u].tree == [] else x in s.tasks && s.tasks[x] == Called(u) && s.units[u].count <= s.units[u].maxcount
    ensures LocksOk(s', u)
  {
    assert HasLock(s, u, t) && Hands(s, u, t, x);
    if x != 0 {
      assert GrantsNext(s, u, s.units[u].tree, t);
    }
    forall r, y | Hands(s, u, r, y) ensures r == t && y == x {
      assert HasLock(s, u, r);
    }
    forall y | y in s.tasks && s.tasks[y] == Called(u) ensures y == x {
      var r :| Hands(s, u, r, y);
    }
    forall y ensures !HasLock(s', u, y) {
      assert HasLock(s', u, y) ==> HasLock(s, u, y);
    }
    assert forall r, y :: !Hands(s', u, r, y) by {
      forall r, y | Hands(s', u, r, y) ensures false { assert HasLock(s', u, r); }
    }
    forall r ensures !GrantsNext(s', u, s'.units[u].tree, r) {
      assert !HasLock(s', u, r);
    }
  }

  /** Only the phase changes, within the same role. */
  lemma PhaseOnly(s: State, s': State, u: nat, t: nat, p: Phase)
    requires u in s.units && UnitOk(s, u) && (HasLock(s, u, t) || MutexFree(s, u))
    requires t in s.tasks && s' == s.(tasks := s.tasks[t := p])
    requires !s.tasks[t].Handing? && !p.Called? && !p.Handing? && !p.Picking?
    requires p.Owns(u) == s.tasks[t].Owns(u) && p.Waits(u) == s.tasks[t].Waits(u) && p.Queues(u) == s.tasks[t].Queues(u)
    requires s.units[u].curr == t ==> p.Releases(u) || p.Queues(u)
    ensures UnitOk(s', u)
  {
    hide OneLock, CallsOk, WillGrant, MutexFree, Owners, Waiters, Queued, Sorted, Distinct, Tasks;
    RolesChange(s, s', u, t, p);
    LockMoves(s, s', u, t, p);
  }

  lemma PullKeeps(s: State, a: Action, u: nat)
    requires (a.Pull? || a.Keep?) && Enabled(s, a) && u == s.tasks[a.t].unit && UnitOk(s, u)
    ensures UnitOk(After(s, a), u)
  {
    PhaseOnly(s, After(s, a), u, a.t, if a.Pull? then Pulled(u) else Waiting(u));
  }
}
