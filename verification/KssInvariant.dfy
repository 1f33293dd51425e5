/** All steps over all units: exactly which ones keep every unit in order. */
module KssInvariant {
  import opened KssUnit
  import opened KssCapacity
  import opened KssSystem
  import opened KssSteps
  import opened KssResize

  // Steps at other units.

  /** The phase binds its owner to the tree or the counter of unit v. */
  ghost predicate Bound(p: Phase, v: nat) {
    !p.Idle? && !p.Chosen? && p.unit == v
  }

  /** What a step may change without touching unit v. */
  ghost predicate Apart(s: State, s': State, v: nat) {
    && v in s.units && v in s'.units && s'.units[v] == s.units[v]
    && (v in s.hp && s.hp[v] >= 0 ==> v in s'.hp && s'.hp[v] >= 0)
    && s'.tasks.Keys == s.tasks.Keys
    && s.dead <= s'.dead
    && (v in s'.online ==> v in s.online)
    && (v in s'.lowered <==> v in s.lowered)
    && (forall t :: t in s.tasks && s.tasks[t] != s'.tasks[t] ==>
          !Bound(s.tasks[t], v) && !Bound(s'.tasks[t], v) && (s'.tasks[t] == Chosen(v) ==> s.units[v].curr != t))
  }

  lemma ApartSets(s: State, s': State, v: nat)
    requires Apart(s, s', v)
    ensures Owners(s', v) == Owners(s, v) && Waiters(s', v) == Waiters(s, v) && Queued(s', v) == Queued(s, v)
    ensures forall t :: HasLock(s', v, t) <==> HasLock(s, v, t)
    ensures forall t, x :: Hands(s', v, t, x) <==> Hands(s, v, t, x)
    ensures forall x :: (x in s'.tasks && s'.tasks[x] == Called(v)) <==> (x in s.tasks && s.tasks[x] == Called(v))
  {
    assert forall t :: t in s.tasks && Bound(s.tasks[t], v) ==> s'.tasks[t] == s.tasks[t];
    assert forall t :: t in s.tasks && Bound(s'.tasks[t], v) ==> s'.tasks[t] == s.tasks[t];
  }

  lemma ApartGrant(s: State, s': State, v: nat, tree: seq<Waiter>)
    requires Apart(s, s', v) && WillGrant(s', v, tree)
    ensures WillGrant(s, v, tree)
  {
    var t :| GrantsNext(s', v, tree, t);
    assert Bound(s'.tasks[t], v);
    if s.tasks[t] == Picking(v) {
      var x :| x in Tasks(tree) && x !in s'.dead;
    }
    assert GrantsNext(s, v, tree, t);
  }

  lemma ApartUnitOk(s: State, s': State, v: nat)
    requires Apart(s, s', v) && UnitOk(s, v)
    ensures UnitOk(s', v) && Owners(s', v) == Owners(s, v)
  {
    hide Owners, Waiters, Queued, HasLock, Hands, WillGrant, Sorted, Distinct, Tasks;
    ApartSets(s, s', v);
    if WillGrant(s', v, s'.units[v].tree) {
      ApartGrant(s, s', v, s'.units[v].tree);
    }
    assert CallsOk(s', v) by { ApartCalls(s, s', v); }
    assert CurrOk(s', v) by { ApartCurr(s, s', v); }
  }

  lemma ApartCalls(s: State, s': State, v: nat)
    requires Apart(s, s', v) && CallsOk(s, v)
    ensures CallsOk(s', v)
  {
    ApartSets(s, s', v);
    forall x | x in s'.tasks && s'.tasks[x] == Called(v) ensures x != 0 && exists t :: Hands(s', v, t, x) {
      var t :| Hands(s, v, t, x);
      assert Hands(s', v, t, x);
    }
  }

  lemma ApartCurr(s: State, s': State, v: nat)
    requires Apart(s, s', v) && CurrOk(s, v)
    ensures CurrOk(s', v)
  {
  }

  /** The unit a step works on, if it works on the tree, the counter or the tasks of one. */
  ghost predicate Works(s: State, a: Action, u: nat)
    requires Enabled(s, a)
  {
    match a
    case Choose(_, _) => false
    case Turn(_) => false
    case Die(_) => false
    case Tell(_, _, _) => false
    case Read(_) => false
    case Compare(_) => false
    case Offline(_) => false
    case Resize(k) => s.setters[k].unit == u
    case _ => s.tasks[a.t].unit == u
  }

  lemma WokenApart(s: State, k: nat, u: nat, r: Raised, x: nat)
    requires Applies(s, k, u, r) && x in s.units && x != u
    ensures Apart(s, After(s, Resize(k)), x)
  {
    hide Raise, UnitOk;
    TasksAfter(s, After(s, Resize(k)), k, u, r);
  }

  lemma PickApart(s: State, a: Action, u: nat, v: nat)
    requires a.Pick? && Enabled(s, a) && u == s.tasks[a.t].unit && UnitOk(s, u) && v in s.units && v != u
    ensures Apart(s, After(s, a), v)
  {
    if s.units[u].tree != [] {
      FirstWaits(s, u, a.t);
    }
  }

  lemma FinishApart(s: State, a: Action, u: nat, v: nat)
    requires a.Finish? && Enabled(s, a) && u == s.tasks[a.t].unit && UnitOk(s, u) && v in s.units && v != u
    ensures Apart(s, After(s, a), v)
  {
    assert Hands(s, u, a.t, s.tasks[a.t].next);
  }

  lemma LocalApart(s: State, a: Action, v: nat)
    requires Enabled(s, a) && !a.Pick? && !a.Finish? && !a.Resize? && !Works(s, a, v)
    requires v in s.units && UnitOk(s, v)
    ensures Apart(s, After(s, a), v)
  {
    hide TreeOk, CountOk, OneLock, CallsOk, WillGrant, MutexFree, Insert, Without, Tasks;
  }

  lemma OtherUnitsKeep(s: State, a: Action, v: nat)
    requires Inv(s) && Enabled(s, a) && v in s.units && !Works(s, a, v)
    ensures v in After(s, a).units && UnitOk(After(s, a), v) && Owners(After(s, a), v) == Owners(s, v)
  {
    hide After, UnitOk, TaskOk;
    if a.Resize? {
      var u := s.setters[a.k].unit;
      assert UnitOk(s, u);
      WokenApart(s, a.k, u, ResizeOf(s, a.k), v);
    } else if a.Pick? {
      assert UnitOk(s, s.tasks[a.t].unit);
      PickApart(s, a, s.tasks[a.t].unit, v);
    } else if a.Finish? {
      assert UnitOk(s, s.tasks[a.t].unit);
      FinishApart(s, a, s.tasks[a.t].unit, v);
    } else {
      LocalApart(s, a, v);
    }
    ApartUnitOk(s, After(s, a), v);
  }

  // Tasks.

  lemma PickTask(s: State, a: Action, x: nat)
    requires a.Pick? && Enabled(s, a) && UnitOk(s, s.tasks[a.t].unit) && forall t :: TaskOk(s, t)
    ensures TaskOk(After(s, a), x)
  {
    var u := s.tasks[a.t].unit;
    assert TaskOk(s, x) && TaskOk(s, a.t);
    if s.units[u].tree != [] {
      FirstWaits(s, u, a.t);
      assert TaskOk(s, s.units[u].tree[0].task);
    }
  }

  lemma FinishTask(s: State, a: Action, x: nat)
    requires a.Finish? && Enabled(s, a) && UnitOk(s, s.tasks[a.t].unit) && forall t :: TaskOk(s, t)
    ensures TaskOk(After(s, a), x)
  {
    var u, y := s.tasks[a.t].unit, s.tasks[a.t].next;
    assert Hands(s, u, a.t, y);
    assert TaskOk(s, x) && TaskOk(s, a.t) && TaskOk(s, y);
  }

  lemma ResizeTask(s: State, k: nat, u: nat, r: Raised, x: nat)
    requires Applies(s, k, u, r) && TaskOk(s, x)
    ensures TaskOk(After(s, Resize(k)), x)
  {
    hide Raise, After;
    TasksAfter(s, After(s, Resize(k)), k, u, r);
    RaiseTakes(s.units[u].(maxcount := s.hp[u]), s.dead, s.setters[k].slots, r);
  }

  lemma TasksKept(s: State, a: Action, x: nat)
    requires Inv(s) && Enabled(s, a)
    ensures TaskOk(After(s, a), x)
  {
    hide UnitOk, MutexFree;
    assert TaskOk(s, x);
    if a.Resize? {
      assert UnitOk(s, s.setters[a.k].unit);
      ResizeTask(s, a.k, s.setters[a.k].unit, ResizeOf(s, a.k), x);
    } else if a.Pick? {
      assert UnitOk(s, s.tasks[a.t].unit);
      PickTask(s, a, x);
    } else if a.Finish? {
      assert UnitOk(s, s.tasks[a.t].unit);
      FinishTask(s, a, x);
    } else {
      LocalTask(s, a, x);
    }
  }

  lemma LocalTask(s: State, a: Action, x: nat)
    requires Enabled(s, a) && !a.Pick? && !a.Finish? && !a.Resize? && forall t :: TaskOk(s, t)
    ensures TaskOk(After(s, a), x)
  {
    hide MutexFree, Insert, Without, Tasks;
    assert TaskOk(s, x);
  }

  // All steps.

  lemma OwnUnitKeeps(s: State, a: Action, u: nat)
    requires Inv(s) && Enabled(s, a) && Careful(s, a) && Works(s, a, u) && u in s.units
    ensures UnitOk(After(s, a), u)
  {
    hide Inv, After, UnitOk, SafeResize, TaskOk, MutexFree, Ends, EndsWell, Works, ResizeOf;
    InvAt(s, u, 0);
    WorksAt(s, a, u);
    if a.Resize? {
      ResizeKeeps(s, a.k, u, ResizeOf(s, a.k));
    } else if a.GiveBack? || a.Free? || a.Fault? || a.Tidy? || a.Test? || a.Pick? || a.Finish? {
      ReleaseStepKeeps(s, a, u);
    } else {
      InvAt(s, u, a.t);
      EntryStepKeeps(s, a, u);
    }
  }

  lemma InvAt(s: State, u: nat, t: nat)
    requires Inv(s) && u in s.units
    ensures UnitOk(s, u) && TaskOk(s, t)
  {
  }

  lemma WorksAt(s: State, a: Action, u: nat)
    requires Enabled(s, a) && Works(s, a, u)
    ensures if a.Resize? then u == s.setters[a.k].unit
            else !a.Choose? && !a.Turn? && !a.Die? && !a.Tell? && !a.Read? && !a.Compare? && !a.Offline? && u == s.tasks[a.t].unit
  {
    hide MutexFree;
  }

  lemma ReleaseStepKeeps(s: State, a: Action, u: nat)
    requires (a.GiveBack? || a.Free? || a.Fault? || a.Tidy? || a.Test? || a.Pick? || a.Finish?) && Enabled(s, a)
    requires u == s.tasks[a.t].unit && UnitOk(s, u) && TaskOk(s, 0) && (Ends(s, a) ==> EndsWell(s, a.t))
    ensures UnitOk(After(s, a), u)
  {
    hide After, UnitOk, TaskOk, MutexFree;
    match a
    case Test(_) => TestKeeps(s, a, u);
    case Pick(_) => PickKeeps(s, a, u);
    case Finish(_) => FinishKeeps(s, a, u);
    case _ => LeaveKeeps(s, a, u);
  }

  lemma EntryStepKeeps(s: State, a: Action, u: nat)
    requires a.Enter? || a.Check? || a.Dequeue? || a.Occupy? || a.Rerequest? || a.Pull? || a.Keep? || a.Migrate?
    requires Enabled(s, a) && u == s.tasks[a.t].unit && UnitOk(s, u) && TaskOk(s, a.t)
    ensures UnitOk(After(s, a), u)
  {
    hide After, UnitOk, TaskOk, MutexFree;
    match a
    case Enter(_, _, _) => EnterKeeps(s, a, u);
    case Check(_) => CheckKeeps(s, a, u);
    case Occupy(_) => OccupyKeeps(s, a, u);
    case Rerequest(_) => OccupyKeeps(s, a, u);
    case Pull(_) => PullKeeps(s, a, u);
    case Keep(_) => PullKeeps(s, a, u);
    case _ => DequeueKeeps(s, a, u);
  }

  lemma StepKeepsInv(s: State, a: Action)
    requires Inv(s) && Enabled(s, a) && Careful(s, a)
    ensures Inv(After(s, a)) && After(s, a).units.Keys == s.units.Keys
  {
    UnitsStay(s, a);
    hide After, UnitOk, TaskOk, Careful, MutexFree;
    forall t ensures TaskOk(After(s, a), t) { TasksKept(s, a, t); }
    forall u | u in After(s, a).units ensures UnitOk(After(s, a), u) {
      if Works(s, a, u) {
        OwnUnitKeeps(s, a, u);
      } else {
        OtherUnitsKeep(s, a, u);
      }
    }
  }

  lemma UnitsStay(s: State, a: Action)
    requires Inv(s) && Enabled(s, a)
    ensures After(s, a).units.Keys == s.units.Keys
  {
    hide UnitOk, TaskOk, MutexFree, Insert, Without, Tasks;
  }

  /** Whatever a step grants fits the capacity: while a unit is over-committed its owners only leave. */
  lemma GrantsFit(s: State, a: Action, u: nat)
    requires Inv(s) && Enabled(s, a) && Careful(s, a) && u in s.units
    ensures u in After(s, a).units
    ensures After(s, a).units[u].count > After(s, a).units[u].maxcount ==> Owners(After(s, a), u) <= Owners(s, u)
  {
    UnitsStay(s, a);
    if !Works(s, a, u) {
      OtherUnitsKeep(s, a, u);
    } else if a.Resize? {
      hide After, UnitOk, TaskOk, Raise, SafeResize;
      assert UnitOk(s, u) && TaskOk(s, 0);
      ResizeKeeps(s, a.k, u, ResizeOf(s, a.k));
      TasksAfter(s, After(s, a), a.k, u, ResizeOf(s, a.k));
    } else {
      LocalGrantsFit(s, a, u);
    }
  }

  lemma LocalGrantsFit(s: State, a: Action, u: nat)
    requires Enabled(s, a) && Works(s, a, u) && u in s.units && !a.Resize? && UnitOk(s, u)
    ensures u in After(s, a).units
    ensures After(s, a).units[u].count > After(s, a).units[u].maxcount ==> Owners(After(s, a), u) <= Owners(s, u)
  {
    hide UnitOk, MutexFree, Insert, Without, Tasks;
    if a.Pick? {
      PickOwners(s, a, u);
    } else if a.Finish? {
      if s.tasks[a.t].next != 0 {
        HandsWithRoom(s, u, a.t);
      }
    } else {
      OneOwner(s, a, u, a.t);
    }
  }

  lemma PickOwners(s: State, a: Action, u: nat)
    requires a.Pick? && Enabled(s, a) && u == s.tasks[a.t].unit && UnitOk(s, u)
    ensures Owners(After(s, a), u) == Owners(s, u)
  {
    hide UnitOk, MutexFree, Tasks;
    if s.units[u].tree != [] {
      assert TreeOk(s, u) && OneLock(s, u) by { OrderOf(s, u); }
      FirstWaits(s, u, a.t);
    }
  }

  lemma OneOwner(s: State, a: Action, u: nat, t: nat)
    requires Enabled(s, a) && Works(s, a, u) && u in s.units && !a.Resize? && !a.Pick? && !a.Finish? && t == a.t
    ensures u in After(s, a).units
    ensures After(s, a).units[u].count > After(s, a).units[u].maxcount ==> Owners(After(s, a), u) <= Owners(s, u)
  {
    hide Owners, MutexFree, Insert, Without, Tasks;
    var s' := After(s, a);
    OwnersChange(s, s', u, t, s'.tasks[t]);
  }

  lemma OrderOf(s: State, u: nat)
    requires u in s.units && UnitOk(s, u)
    ensures TreeOk(s, u) && OneLock(s, u)
  {
  }

  lemma HandsWithRoom(s: State, u: nat, t: nat)
    requires u in s.units && UnitOk(s, u) && t in s.tasks && s.tasks[t].Handing? && s.tasks[t].unit == u && s.tasks[t].next != 0
    ensures s.units[u].count <= s.units[u].maxcount
  {
    assert GrantsNext(s, u, s.units[u].tree, t);
  }

  /** The step keeps every unit in order and grants nothing beyond a capacity. */
  ghost predicate Sound(s: State, a: Action)
    requires Enabled(s, a)
  {
    var s' := After(s, a);
    && Inv(s')
    && forall u :: u in s.units && u in s'.units ==>
         s'.units[u].count > s'.units[u].maxcount ==> Owners(s', u) <= Owners(s, u)
  }

  /** The two conditions are exact. */
  lemma CareExact(s: State, a: Action)
    requires Inv(s) && Enabled(s, a)
    ensures Sound(s, a) <==> Careful(s, a)
  {
    hide After, UnitOk, TaskOk, SafeResize, MutexFree;
    if Careful(s, a) {
      StepKeepsInv(s, a);
      forall u | u in s.units && After(s, a).units[u].count > After(s, a).units[u].maxcount
        ensures Owners(After(s, a), u) <= Owners(s, u) {
        GrantsFit(s, a, u);
      }
    } else if a.Resize? && !SafeResize(s, s.setters[a.k].unit, s.hp[s.setters[a.k].unit], s.setters[a.k].slots) {
      UnsafeUnsound(s, a.k, s.setters[a.k].unit, ResizeOf(s, a.k));
    } else {
      StaleUnsound(s, a, s.tasks[a.t].unit);
    }
  }

  lemma UnsafeUnsound(s: State, k: nat, u: nat, r: Raised)
    requires Inv(s) && Applies(s, k, u, r) && !Safe(s, k, u)
    ensures !Sound(s, Resize(k))
  {
    hide After, UnitOk, TaskOk, SafeResize, Raise;
    var s' := After(s, Resize(k));
    assert TaskOk(s, 0);
    TasksAfter(s, s', k, u, r);
    UnsafeBreaks(s, s', k, u, r);
    if UnitOk(s', u) {
      GrantedIsNew(s, s', k, u, r);
    }
  }

  /** A waiter that a change of capacity grants was no owner before. */
  lemma GrantedIsNew(s: State, s': State, k: nat, u: nat, r: Raised)
    requires Applies(s, k, u, r) && s' == After(s, Resize(k)) && UnitOk(s', u) && r.granted != []
    ensures !(Owners(s', u) <= Owners(s, u))
  {
    hide After, CountOk, CurrOk, OneLock, CallsOk, WillGrant, Raise, Sorted, Distinct;
    TasksAfter(s, s', k, u, r);
    RaiseTakes(s.units[u].(maxcount := s.hp[u]), s.dead, s.setters[k].slots, r) by { OrderOf(s, u); }
    var x := r.granted[0];
    assert x in Tasks(s.units[u].tree) && x !in Tasks(r.unit.tree);
    assert x in Queued(s, u) && x !in Queued(s', u);
    assert x in Owners(s', u) && x !in Owners(s, u);
  }

  /** A release that ends badly leaves its task, alive and without the unit, as the current one. */
  lemma StaleUnsound(s: State, a: Action, u: nat)
    requires Inv(s) && Enabled(s, a) && Ends(s, a) && !EndsWell(s, a.t) && u == s.tasks[a.t].unit
    ensures !Sound(s, a)
  {
    hide TreeOk, CountOk, OneLock, WillGrant, TaskOk, MutexFree, Tasks;
    assert UnitOk(s, u);
    var t, s' := a.t, After(s, a);
    assert a.Finish? ==> Hands(s, u, t, s.tasks[t].next);
    assert s'.units[u].curr == t && s'.tasks[t] == Idle;
    assert !CurrOk(s', u);
  }
}
