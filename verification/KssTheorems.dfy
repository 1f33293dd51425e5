/** What the computing-unit locks guarantee over whole runs. */
module KssTheorems {
  import opened KssUnit
  import opened KssCapacity
  import opened KssSystem
  import opened KssSteps
  import opened KssInvariant
  import KssResize

  ghost predicate Run(s: State, actions: seq<Action>, t: State)
    decreases |actions|
  {
    if actions == [] then s == t
    else Enabled(s, actions[0]) && Run(After(s, actions[0]), actions[1..], t)
  }

  ghost predicate CarefulRun(s: State, actions: seq<Action>)
    decreases |actions|
  {
    actions == []
    || (Enabled(s, actions[0]) && Careful(s, actions[0]) && CarefulRun(After(s, actions[0]), actions[1..]))
  }

  lemma InitInv(s: State)
    requires Init(s)
    ensures Inv(s)
  {
    forall u | u in s.units ensures UnitOk(s, u) {
      assert Owners(s, u) == {} && Waiters(s, u) == {} && Queued(s, u) == {};
      assert forall t :: !HasLock(s, u, t);
      assert forall t :: !GrantsNext(s, u, s.units[u].tree, t);
    }
  }

  lemma {:induction false} RunKeepsInv(s: State, actions: seq<Action>, t: State)
    requires Inv(s) && Run(s, actions, t) && CarefulRun(s, actions)
    ensures Inv(t)
    decreases |actions|
  {
    hide Inv, After, Enabled, Careful;
    if actions != [] {
      StepKeepsInv(s, actions[0]);
      RunKeepsInv(After(s, actions[0]), actions[1..], t);
    }
  }

  /**
   * The counter counts the slots taken, owned or being given back, no slot is idle while somebody waits, nobody
   * waits outside the tree, and an excess comes from a lowering. While the mutex is free nobody is being called.
   */
  ghost predicate Accounted(s: State, u: nat)
    requires u in s.units
  {
    var v := s.units[u];
    && v.count == |Owners(s, u)|
    && (Waiters(s, u) != {} ==> v.count >= v.maxcount)
    && (forall t :: t in Waiters(s, u) ==> t in Tasks(v.tree))
    && (MutexFree(s, u) ==> Tasks(v.tree) == Waiters(s, u) && forall t :: t in s.tasks ==> s.tasks[t] != Called(u))
    && (v.count > v.maxcount ==> u in s.lowered)
  }

  /** Main theorem, for every run that changes capacities with care; SoundRunsAreCareful says that no other run will do. */
  lemma SlotsAccounted(s: State, actions: seq<Action>, t: State, u: nat)
    requires Init(s) && Run(s, actions, t) && CarefulRun(s, actions) && u in t.units
    ensures Accounted(t, u)
  {
    InitInv(s);
    RunKeepsInv(s, actions, t);
    assert UnitOk(t, u);
    InvAccounted(t, u);
  }

  lemma InvAccounted(s: State, u: nat)
    requires u in s.units && UnitOk(s, u)
    ensures Accounted(s, u)
  {
    assert forall t :: t in Waiters(s, u) ==> t in Queued(s, u);
    if MutexFree(s, u) {
      assert forall t :: t in s.tasks ==> !HasLock(s, u, t);
      forall x ensures x in Tasks(s.units[u].tree) <==> x in Waiters(s, u) {
        assert x in Tasks(s.units[u].tree) <==> x in Queued(s, u);
      }
      assert forall r, x :: Hands(s, u, r, x) ==> HasLock(s, u, r);
    }
  }

  /** No wake-up is lost: where somebody waits, either the capacity is zero or somebody has a slot to give back. */
  lemma NoLostWakeup(s: State, actions: seq<Action>, t: State, u: nat)
    requires Init(s) && Run(s, actions, t) && CarefulRun(s, actions) && u in t.units
    requires Waiters(t, u) != {} && t.units[u].maxcount > 0
    ensures Owners(t, u) != {}
  {
    SlotsAccounted(s, actions, t, u);
  }

  /** A unit that went off line stays so: no later step makes anybody its holder. */
  lemma OfflineStays(s: State, u: nat, actions: seq<Action>, t: State, a: Action)
    requires u in s.online && Run(After(s, Offline(u)), actions, t) && Enabled(t, a)
    ensures u !in t.online && !(a.Occupy? && t.tasks[a.t].unit == u) && !(a.Choose? && a.u == u)
  {
    OnlineShrinks(After(s, Offline(u)), actions, t);
  }

  lemma {:induction false} OnlineShrinks(s: State, actions: seq<Action>, t: State)
    requires Run(s, actions, t)
    ensures t.online <= s.online
    decreases |actions|
  {
    if actions != [] {
      StepOnline(s, actions[0]);
      OnlineShrinks(After(s, actions[0]), actions[1..], t);
    }
  }

  lemma StepOnline(s: State, a: Action)
    requires Enabled(s, a)
    ensures After(s, a).online <= s.online
  {
    hide MutexFree, Insert, Without, Tasks;
  }

  /** The step that a task takes next at its unit, or may take. */
  ghost predicate NextStep(s: State, t: nat, a: Action)
    requires t in s.tasks
  {
    match s.tasks[t]
    case Idle => a.Choose? && a.t == t
    case Chosen(_) => (a.Enter? || a.Turn?) && a.t == t
    case Entering(_) => a == Check(t)
    case Taking(_) => a == Dequeue(t)
    case Waiting(_) => a == Pull(t) || a == Die(t)
    case Pulled(_) => a == Keep(t) || a == Migrate(t) || a == Die(t)
    case Granted(u) => a == if u in s.online then Occupy(t) else GiveBack(t)
    case Holding(_) => if t in s.dead then a == Tidy(t) else a == Rerequest(t) || a == Free(t) || a == Fault(t) || a == Die(t)
    case Leaving(_) => a == Test(t)
    case Picking(_) => a == Pick(t)
    case Handing(_, _) => a == Finish(t)
    case Called(_) => false
  }

  /**
   * A task with the mutex held for it can take any of its next steps, and any other one can as soon as the
   * mutex of its unit is free; a task that is called waits for the release that called it.
   */
  lemma CanGo(s: State, t: nat, a: Action)
    requires Inv(s) && t in s.tasks && !s.tasks[t].Idle? && !a.Die? && NextStep(s, t, a)
    requires HasLock(s, s.tasks[t].unit, t) || MutexFree(s, s.tasks[t].unit)
    ensures Enabled(s, a)
  {
    hide Inv, UnitOk, TaskOk;
    assert InUnit(s, t) by { BoundToUnit(s, t); }
    if s.tasks[t].Waiting? {
      WaitsInTree(s, t);
    }
  }

  lemma BoundToUnit(s: State, t: nat)
    requires Inv(s) && t in s.tasks && !s.tasks[t].Idle?
    ensures InUnit(s, t)
  {
    assert TaskOk(s, t);
  }

  lemma WaitsInTree(s: State, t: nat)
    requires Inv(s) && InUnit(s, t) && s.tasks[t].Waiting?
    ensures t in Tasks(s.units[s.tasks[t].unit].tree)
  {
    assert UnitOk(s, s.tasks[t].unit);
    assert t in Queued(s, s.tasks[t].unit);
  }

  lemma CalledIsHanded(s: State, t: nat)
    requires Inv(s) && t in s.tasks && s.tasks[t].Called?
    ensures exists r :: Hands(s, s.tasks[t].unit, r, t) && Enabled(s, Finish(r))
  {
    var u := s.tasks[t].unit;
    assert TaskOk(s, t) && UnitOk(s, u);
    var r :| Hands(s, u, r, t);
    assert Enabled(s, Finish(r));
  }

  /** A change of capacity that sets it below the load. */
  ghost predicate Lowers(s: State, a: Action)
    requires Enabled(s, a)
  {
    a.Resize? && s.hp[s.setters[a.k].unit] < s.units[s.setters[a.k].unit].count
  }

  ghost predicate NeverLowers(s: State, actions: seq<Action>)
    decreases |actions|
  {
    actions == []
    || (Enabled(s, actions[0]) && !Lowers(s, actions[0]) && NeverLowers(After(s, actions[0]), actions[1..]))
  }

  lemma {:induction false} NotLowered(s: State, actions: seq<Action>, t: State)
    requires s.lowered == {} && Run(s, actions, t) && NeverLowers(s, actions)
    ensures t.lowered == {}
    decreases |actions|
  {
    if actions != [] {
      StepNotLowered(s, actions[0]);
      NotLowered(After(s, actions[0]), actions[1..], t);
    }
  }

  lemma StepNotLowered(s: State, a: Action)
    requires s.lowered == {} && Enabled(s, a) && !Lowers(s, a)
    ensures After(s, a).lowered == {}
  {
    hide MutexFree, Insert, Without, Raise, Tasks;
    if a.Resize? {
      KeepsMaxcount(s.units[s.setters[a.k].unit].(maxcount := s.hp[s.setters[a.k].unit]), s.dead, s.setters[a.k].slots);
    }
  }

  lemma {:induction false} KeepsMaxcount(u: Unit, dead: set<nat>, slots: int)
    ensures Raise(u, dead, slots).unit.maxcount == u.maxcount
    decreases slots
  {
    var p := PickLive(u, dead);
    if slots > 0 && p.next != 0 && u.count <= u.maxcount {
      KeepsMaxcount(p.unit.(count := u.count + 1), dead, slots - 1);
    }
  }

  /** Without such a change no unit ever works beyond its capacity. */
  lemma WithinCapacity(s: State, actions: seq<Action>, t: State, u: nat)
    requires Init(s) && Run(s, actions, t) && CarefulRun(s, actions) && NeverLowers(s, actions) && u in t.units
    ensures |Owners(t, u)| <= t.units[u].maxcount
  {
    SlotsAccounted(s, actions, t, u);
    NotLowered(s, actions, t);
  }

  // Care is exact.

  ghost predicate SoundRun(s: State, actions: seq<Action>)
    decreases |actions|
  {
    actions == [] || (Enabled(s, actions[0]) && Sound(s, actions[0]) && SoundRun(After(s, actions[0]), actions[1..]))
  }

  /** Main theorem, both ways: the runs in which every step is sound are those that change capacities with care. */
  lemma {:induction false} SoundRunsAreCareful(s: State, actions: seq<Action>, t: State)
    requires Inv(s) && Run(s, actions, t)
    ensures SoundRun(s, actions) <==> CarefulRun(s, actions)
    decreases |actions|
  {
    hide Inv, After, Enabled, Careful, Sound;
    if actions != [] {
      CareExact(s, actions[0]);
      if Careful(s, actions[0]) {
        StepKeepsInv(s, actions[0]);
        SoundRunsAreCareful(After(s, actions[0]), actions[1..], t);
      }
    }
  }

  // Only a failed copy leaves a stale current task.

  ghost predicate LeaversOk(s: State) {
    forall t :: LeaverOk(s, t)
  }

  ghost predicate LeaverOk(s: State, t: nat) {
    InUnit(s, t) && s.tasks[t].Releases(s.tasks[t].unit) ==> EndsWell(s, t)
  }

  ghost predicate SafeChange(s: State, a: Action)
    requires Enabled(s, a)
  {
    a.Resize? ==> SafeResize(s, s.setters[a.k].unit, s.hp[s.setters[a.k].unit], s.setters[a.k].slots)
  }

  ghost predicate SafeChanges(s: State, actions: seq<Action>)
    decreases |actions|
  {
    actions == []
    || (Enabled(s, actions[0]) && SafeChange(s, actions[0]) && SafeChanges(After(s, actions[0]), actions[1..]))
  }

  lemma LeaversStay(s: State, a: Action, t: nat)
    requires Inv(s) && Enabled(s, a) && !a.Fault? && !a.Resize? && !a.Pick? && LeaverOk(s, t)
    requires TaskOk(s, 0)
    ensures LeaverOk(After(s, a), t)
  {
    hide Inv, TreeOk, CountOk, CallsOk, WillGrant, Insert, Without, Tasks;
    if (a.Occupy? || a.Rerequest?) && InUnit(s, t) && s.tasks[t].Releases(s.tasks[t].unit) {
      assert HasLock(s, s.tasks[t].unit, t);
    }
  }

  lemma PickLeavers(s: State, a: Action, t: nat)
    requires Inv(s) && Enabled(s, a) && a.Pick? && LeaverOk(s, t)
    ensures LeaverOk(After(s, a), t)
  {
    hide Inv, UnitOk, MutexFree, Tasks, TreeOk, OneLock;
    var u := s.tasks[a.t].unit;
    InvAt(s, u, t);
    if s.units[u].tree != [] {
      OrderOf(s, u);
      FirstWaits(s, u, a.t);
    }
  }

  lemma ResizeLeavers(s: State, k: nat, u: nat, r: Raised, t: nat)
    requires Inv(s) && Enabled(s, Resize(k)) && u == s.setters[k].unit && r == ResizeOf(s, k) && LeaverOk(s, t)
    ensures LeaverOk(After(s, Resize(k)), t)
  {
    hide After, Raise, Sorted, CountOk, CurrOk, OneLock, CallsOk, WillGrant, Inv, Suffix;
    InvAt(s, u, t);
    KssResize.TasksAfter(s, After(s, Resize(k)), k, u, r);
    var v := s.units[u].(maxcount := s.hp[u]);
    RaiseShape(v, s.dead, s.setters[k].slots, r);
    RaiseTakes(v, s.dead, s.setters[k].slots, r);
    RaiseLeaves(v, s.dead, s.setters[k].slots, r, r.lost);
    if t in s.tasks && s.tasks[t].Releases(u) {
      assert t !in Queued(s, u);
      assert t !in Tasks(s.units[u].tree);
    }
  }

  lemma LeaversKept(s: State, a: Action)
    requires Inv(s) && Enabled(s, a) && !a.Fault? && LeaversOk(s)
    ensures LeaversOk(After(s, a))
  {
    hide Inv, After, LeaverOk, UnitOk, MutexFree;
    assert TaskOk(s, 0) by { ZeroOk(s); }
    forall t ensures LeaverOk(After(s, a), t) {
      assert LeaverOk(s, t);
      if a.Resize? {
        ResizeLeavers(s, a.k, s.setters[a.k].unit, ResizeOf(s, a.k), t);
      } else if a.Pick? {
        PickLeavers(s, a, t);
      } else {
        LeaversStay(s, a, t);
      }
    }
  }

  lemma ZeroOk(s: State)
    requires Inv(s)
    ensures TaskOk(s, 0)
  {
  }

  /** Where no result fails to be copied out, only the changes of capacity matter. */
  lemma {:induction false} FaultlessRuns(s: State, actions: seq<Action>, t: State)
    requires Inv(s) && LeaversOk(s) && Run(s, actions, t) && forall i :: 0 <= i < |actions| ==> !actions[i].Fault?
    ensures CarefulRun(s, actions) <==> SafeChanges(s, actions)
    decreases |actions|
  {
    hide Inv, LeaverOk, After, MutexFree, SafeResize;
    if actions != [] {
      var a := actions[0];
      assert Ends(s, a) ==> EndsWell(s, a.t) by { LeaverEndsWell(s, a); }
      if Careful(s, a) {
        StepKeepsInv(s, a);
        LeaversKept(s, a);
        FaultlessRuns(After(s, a), actions[1..], t);
      }
    }
  }

  lemma LeaverEndsWell(s: State, a: Action)
    requires LeaversOk(s) && Enabled(s, a)
    ensures Ends(s, a) ==> EndsWell(s, a.t)
  {
    if Ends(s, a) {
      assert LeaverOk(s, a.t);
    }
  }
}
