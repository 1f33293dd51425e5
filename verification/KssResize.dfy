/** Exactly which changes of capacity keep a unit in order, at whatever moment they come. */
module KssResize {
  import opened KssUnit
  import opened KssCapacity
  import opened KssSystem
  import opened KssSteps

  lemma MembersSize(ts: seq<nat>)
    requires forall i, j :: 0 <= i < j < |ts| ==> ts[i] != ts[j]
    ensures |Members(ts)| == |ts|
  {
    if ts != [] {
      var l := |ts| - 1;
      assert forall i, j :: 0 <= i < j < |ts[..l]| ==> ts[..l][i] != ts[..l][j];
      MembersSize(ts[..l]);
      assert ts == ts[..l] + [ts[l]];
      assert ts[l] !in Members(ts[..l]);
      assert Members(ts) == Members(ts[..l]) + {ts[l]};
    }
  }

  /** A call that can apply its change to unit u, and what it does there. */
  ghost predicate Applies(s: State, k: nat, u: nat, r: Raised) {
    Enabled(s, Resize(k)) && u == s.setters[k].unit && UnitOk(s, u) && r == ResizeOf(s, k)
  }

  ghost predicate Safe(s: State, k: nat, u: nat)
    requires Enabled(s, Resize(k)) && u == s.setters[k].unit
  {
    SafeResize(s, u, s.hp[u], s.setters[k].slots)
  }

  ghost function Rest(s: State, k: nat, u: nat): seq<Waiter>
    requires Enabled(s, Resize(k)) && u == s.setters[k].unit
  {
    Left(s.units[u].tree, s.dead, s.setters[k].slots)
  }

  /** Where there is room for all it wakes. */
  lemma Fits(s: State, k: nat, u: nat, r: Raised)
    requires Applies(s, k, u, r)
    requires var l := Few(LiveTasks(s.units[u].tree, s.dead), s.setters[k].slots);
             l == [] || s.units[u].count + |l| <= s.hp[u]
    ensures r.lost == 0 && r.unit.tree == Rest(s, k, u) && r.granted == Few(LiveTasks(s.units[u].tree, s.dead), s.setters[k].slots)
    ensures Shape(s.units[u].(maxcount := s.hp[u]), s.dead, r) && Taken(s.units[u].tree, s.dead, r)
    ensures r.unit.count == s.units[u].count + |r.granted| && |Members(r.granted)| == |r.granted|
  {
    hide Raise, LiveTasks, Left;
    var v := s.units[u].(maxcount := s.hp[u]);
    RaiseWakes(v, s.dead, s.setters[k].slots, LiveTasks(v.tree, s.dead), r);
    RaiseShape(v, s.dead, s.setters[k].slots, r);
    RaiseTakes(v, s.dead, s.setters[k].slots, r);
    MembersSize(r.granted);
  }

  lemma TasksAfter(s: State, s': State, k: nat, u: nat, r: Raised)
    requires Applies(s, k, u, r) && s' == After(s, Resize(k))
    ensures s'.units == s.units[u := r.unit] && s'.tasks.Keys == s.tasks.Keys && s'.dead == s.dead && s'.online == s.online
    ensures forall t :: t in s.tasks ==>
      s'.tasks[t] == if s.tasks[t] != Waiting(u) || t in Tasks(r.unit.tree) || t == r.lost then s.tasks[t]
                     else if t in r.granted then Granted(u) else Idle
  {
    hide UnitOk, ResizeOf, Tasks;
  }

  /** The tasks for which the mutex is held stay in the tree, so only waiters are woken. */
  lemma WokenWait(s: State, k: nat, u: nat, r: Raised, t: nat)
    requires Applies(s, k, u, r) && Safe(s, k, u) && r.unit.tree == Rest(s, k, u) && Taken(s.units[u].tree, s.dead, r)
    requires t in Tasks(s.units[u].tree) && t !in Tasks(r.unit.tree)
    ensures t in s.tasks && s.tasks[t] == Waiting(u)
  {
    hide Sorted, Distinct, Left, LiveTasks, Few, CountOk, CurrOk, CallsOk, WillGrant, Raise;
    assert t in Queued(s, u);
    assert HasLock(s, u, t) ==> t in Tasks(r.unit.tree);
  }

  lemma SafeRoles(s: State, s': State, k: nat, u: nat, r: Raised)
    requires Applies(s, k, u, r) && Safe(s, k, u) && s' == After(s, Resize(k))
    requires r.lost == 0 && r.unit.tree == Rest(s, k, u) && Taken(s.units[u].tree, s.dead, r) && TaskOk(s, 0)
    ensures Owners(s', u) == Owners(s, u) + Members(r.granted) && Owners(s, u) !! Members(r.granted)
    ensures Waiters(s', u) == Waiters(s, u) * Tasks(r.unit.tree)
    ensures Queued(s', u) == Tasks(r.unit.tree)
    ensures Members(r.granted) <= Waiters(s, u) && forall t :: t in r.granted ==> s.tasks[t] == Waiting(u)
  {
    hide After, SafeResize, Tasks, Left, Raise, LiveTasks;
    var tree, rest := s.units[u].tree, r.unit.tree;
    assert Tasks(rest) <= Tasks(tree) by { SuffixTasks(rest, tree); }
    assert Tasks(tree) == Queued(s, u);
    TasksAfter(s, s', k, u, r);
    forall t | t in Tasks(tree) && t !in Tasks(rest) ensures t in s.tasks && s.tasks[t] == Waiting(u) {
      WokenWait(s, k, u, r, t);
    }
    RolesOf(s, s', u, Tasks(rest), Members(r.granted));
  }

  lemma RolesOf(s: State, s': State, u: nat, rest: set<nat>, granted: set<nat>)
    requires s'.tasks.Keys == s.tasks.Keys && rest <= Queued(s, u) && granted <= Queued(s, u) && granted !! rest
    requires forall t :: t in Queued(s, u) && t !in rest ==> s.tasks[t] == Waiting(u)
    requires forall t :: t in s.tasks ==>
      s'.tasks[t] == if s.tasks[t] != Waiting(u) || t in rest || t == 0 then s.tasks[t]
                     else if t in granted then Granted(u) else Idle
    requires 0 !in s.tasks
    ensures Owners(s', u) == Owners(s, u) + granted && Owners(s, u) !! granted
    ensures Waiters(s', u) == Waiters(s, u) * rest && Queued(s', u) == rest
    ensures granted <= Waiters(s, u) && forall t :: t in granted ==> s.tasks[t] == Waiting(u)
  {
    forall t | t in granted ensures t in s.tasks && s.tasks[t] == Waiting(u) {
      assert t in Queued(s, u) && t !in rest;
    }
    forall t ensures t in Queued(s', u) <==> t in rest {
      assert t in Queued(s, u) <==> t in s.tasks && s.tasks[t].Queues(u);
    }
    forall t ensures t in Waiters(s', u) <==> t in Waiters(s, u) * rest {
      assert t in rest ==> t in Queued(s, u);
    }
    forall t ensures t in Owners(s', u) <==> t in Owners(s, u) + granted {
      assert t in rest ==> t in Queued(s, u);
    }
  }

  /** A change moves no task for which the mutex is held, and calls nobody. */
  lemma ResizeLocks(s: State, s': State, k: nat, u: nat, r: Raised)
    requires Applies(s, k, u, r) && s' == After(s, Resize(k)) && Suffix(r.unit.tree, s.units[u].tree)
    ensures OneLock(s', u) && CallsOk(s', u)
    ensures WillGrant(s', u, s'.units[u].tree) <==> WillGrant(s, u, r.unit.tree)
  {
    hide Sorted, Distinct, CountOk, CurrOk, Raise;
    SuffixTasks(r.unit.tree, s.units[u].tree);
    assert forall t :: HasLock(s', u, t) <==> HasLock(s, u, t);
    assert forall t, x :: Hands(s', u, t, x) <==> Hands(s, u, t, x);
    assert forall t :: GrantsNext(s', u, r.unit.tree, t) <==> GrantsNext(s, u, r.unit.tree, t);
    forall x | x in s'.tasks && s'.tasks[x] == Called(u) ensures x != 0 && exists t :: Hands(s', u, t, x) {
      var t :| Hands(s, u, t, x);
      assert Hands(s', u, t, x);
    }
  }

  lemma ResizeCurr(s: State, s': State, k: nat, u: nat, r: Raised)
    requires Applies(s, k, u, r) && s' == After(s, Resize(k)) && r.lost == 0 && TaskOk(s, 0)
    requires Shape(s.units[u].(maxcount := s.hp[u]), s.dead, r) && Taken(s.units[u].tree, s.dead, r)
    requires Queued(s', u) == Tasks(r.unit.tree) && Members(r.granted) <= Waiters(s, u)
    requires forall t :: t in r.granted ==> s.tasks[t] == Waiting(u)
    ensures CurrOk(s', u)
  {
    hide Sorted, Distinct, CountOk, CallsOk, OneLock, WillGrant, Raise, Suffix;
    var c := r.unit.curr;
    if c in s'.tasks {
      assert c in Queued(s', u) <==> s'.tasks[c].Queues(u);
      if c == s.units[u].curr {
        assert c !in Queued(s, u);
      } else if c in r.granted {
        assert s'.tasks[c] == Granted(u);
      }
    }
  }

  /** A safe change of capacity keeps the unit in order. */
  lemma ResizeKeeps(s: State, k: nat, u: nat, r: Raised)
    requires Applies(s, k, u, r) && Safe(s, k, u) && TaskOk(s, 0)
    ensures UnitOk(After(s, Resize(k)), u)
    ensures r.granted != [] ==> r.unit.count <= r.unit.maxcount
    ensures Owners(After(s, Resize(k)), u) == Owners(s, u) + Members(r.granted)
  {
    hide Sorted, Distinct, OneLock, CallsOk, WillGrant, Raise, LiveTasks, Few, Left, Owners, Waiters, Queued, Suffix, CurrOk;
    var s' := After(s, Resize(k));
    Fits(s, k, u, r);
    SafeRoles(s, s', k, u, r);
    ResizeLocks(s, s', k, u, r);
    SafeTree(s, s', k, u, r);
    ResizeCurr(s, s', k, u, r);
    SafeCount(s, s', k, u, r);
  }

  lemma SafeTree(s: State, s': State, k: nat, u: nat, r: Raised)
    requires Applies(s, k, u, r) && s' == After(s, Resize(k)) && Suffix(r.unit.tree, s.units[u].tree)
    requires Queued(s', u) == Tasks(r.unit.tree)
    ensures TreeOk(s', u)
  {
    SuffixKeeps(r.unit.tree, s.units[u].tree);
  }

  lemma SafeCount(s: State, s': State, k: nat, u: nat, r: Raised)
    requires Applies(s, k, u, r) && Safe(s, k, u) && s' == After(s, Resize(k))
    requires r.unit.tree == Rest(s, k, u) && r.unit.maxcount == s.hp[u]
    requires r.granted == Few(LiveTasks(s.units[u].tree, s.dead), s.setters[k].slots)
    requires r.unit.count == s.units[u].count + |r.granted| == |Owners(s', u)|
    requires Waiters(s', u) == Waiters(s, u) * Tasks(r.unit.tree)
    ensures CountOk(s', u) && (WillGrant(s, u, r.unit.tree) ==> r.unit.count <= r.unit.maxcount)
    ensures r.granted != [] ==> r.unit.count <= r.unit.maxcount
  {
    hide Sorted, Distinct, OneLock, CallsOk, WillGrant, Raise, LiveTasks, Few, Left, Owners, Waiters, Queued, CurrOk;
    if Waiters(s', u) != {} {
      var x :| x in Waiters(s', u);
      assert x in Waiters(s, u) && x in Tasks(r.unit.tree);
    }
  }

  // An unsafe change.

  /** Who leaves the tree while the mutex is held for it goes on as if it were there; who is lost goes on waiting. */
  lemma OutOfTree(s: State, s': State, k: nat, u: nat, r: Raised, x: nat)
    requires Applies(s, k, u, r) && s' == After(s, Resize(k))
    requires x in Tasks(s.units[u].tree) && x !in Tasks(r.unit.tree) && (HasLock(s, u, x) || x == r.lost)
    ensures !TreeOk(s', u)
  {
    hide After, Raise, Sorted, Distinct;
    TasksAfter(s, s', k, u, r);
    assert x in Queued(s, u);
    assert x in Queued(s', u);
  }

  /** There is no room for all it wakes. */
  lemma TooMany(s: State, s': State, k: nat, u: nat, r: Raised)
    requires Applies(s, k, u, r) && s' == After(s, Resize(k))
    requires var n := |Few(LiveTasks(s.units[u].tree, s.dead), s.setters[k].slots)|;
             n != 0 && s.units[u].count + n > s.hp[u]
    ensures !TreeOk(s', u) || (r.granted != [] && r.unit.count > r.unit.maxcount)
  {
    hide Raise, After, LiveTasks;
    var v, slots := s.units[u].(maxcount := s.hp[u]), s.setters[k].slots;
    RaiseFails(v, s.dead, slots, LiveTasks(v.tree, s.dead));
    RaiseShape(v, s.dead, slots, r);
    if r.lost != 0 {
      RaiseLeaves(v, s.dead, slots, r, r.lost);
      OutOfTree(s, s', k, u, r, r.lost);
    }
  }

  /** Slots stay idle while somebody waits, or a release will hand over beyond the capacity. */
  lemma WrongRoom(s: State, s': State, k: nat, u: nat, r: Raised)
    requires Applies(s, k, u, r) && s' == After(s, Resize(k)) && TaskOk(s, 0)
    requires r.lost == 0 && r.unit.tree == Rest(s, k, u) && Suffix(r.unit.tree, s.units[u].tree)
    requires r.unit.maxcount == s.hp[u]
    requires
      || (r.unit.count < s.hp[u] && exists x :: x in Waiters(s, u) && x in Tasks(r.unit.tree))
      || (r.unit.count > s.hp[u] && WillGrant(s, u, r.unit.tree))
    ensures !UnitOk(s', u)
  {
    hide After, Raise, Sorted, Distinct, WillGrant, Left;
    TasksAfter(s, s', k, u, r);
    ResizeLocks(s, s', k, u, r);
    if r.unit.count < s.hp[u] {
      var x :| x in Waiters(s, u) && x in Tasks(r.unit.tree);
      assert x in Waiters(s', u);
    }
  }

  lemma UnsafeBreaks(s: State, s': State, k: nat, u: nat, r: Raised)
    requires Applies(s, k, u, r) && !Safe(s, k, u) && s' == After(s, Resize(k)) && TaskOk(s, 0)
    ensures !UnitOk(s', u) || (r.granted != [] && r.unit.count > r.unit.maxcount)
  {
    hide After, Raise, LiveTasks, Left, WillGrant, UnitOk, ResizeOf;
    var v, slots := s.units[u], s.setters[k].slots;
    var n := |Few(LiveTasks(v.tree, s.dead), slots)|;
    TasksAfter(s, s', k, u, r);
    if n != 0 && v.count + n > s.hp[u] {
      TooMany(s, s', k, u, r);
      BrokenTree(s', u);
    } else {
      Fits(s, k, u, r);
      if x :| HasLock(s, u, x) && x in Tasks(v.tree) && x !in Tasks(r.unit.tree) {
        OutOfTree(s, s', k, u, r, x);
        BrokenTree(s', u);
      } else {
        WrongRoom(s, s', k, u, r);
      }
    }
  }

  lemma BrokenTree(s: State, u: nat)
    requires u in s.units
    ensures !TreeOk(s, u) ==> !UnitOk(s, u)
  {
  }

  /** Exactly the safe changes keep the unit in order and grant no more than the new capacity. */
  lemma ResizeExact(s: State, k: nat, u: nat, r: Raised)
    requires Applies(s, k, u, r) && TaskOk(s, 0)
    ensures UnitOk(After(s, Resize(k)), u) && (r.granted != [] ==> r.unit.count <= r.unit.maxcount) <==>
            SafeResize(s, u, s.hp[u], s.setters[k].slots)
  {
    hide After, SafeResize, UnitOk;
    if Safe(s, k, u) {
      ResizeKeeps(s, k, u, r);
    } else {
      UnsafeBreaks(s, After(s, Resize(k)), k, u, r);
    }
  }

  /**
   * A call that nothing comes in between: with the difference as it is and the mutex free, a change is safe
   * exactly if it is no raise, or the unit was not over-committed, or all live waiters fit.
   */
  lemma UndisturbedResize(s: State, u: nat, m: int)
    requires u in s.units && UnitOk(s, u) && MutexFree(s, u)
    ensures SafeResize(s, u, m, m - s.units[u].maxcount) <==> RaiseGood(s.units[u], s.dead, m)
  {
    hide LiveTasks, Left, Sorted, Distinct;
    var v := s.units[u];
    LeftIsSuffix(v.tree, s.dead, m - v.maxcount);
    NoReleaseNow(s, u, Left(v.tree, s.dead, m - v.maxcount));
    NoChangeKeeps(v.tree, s.dead, m - v.maxcount);
  }

  lemma NoReleaseNow(s: State, u: nat, tree: seq<Waiter>)
    requires MutexFree(s, u)
    ensures !WillGrant(s, u, tree)
  {
    forall t ensures !GrantsNext(s, u, tree, t) {
      assert !HasLock(s, u, t);
    }
  }

  lemma NoChangeKeeps(tree: seq<Waiter>, dead: set<nat>, slots: int)
    ensures slots <= 0 ==> Left(tree, dead, slots) == tree
  {
  }
}
