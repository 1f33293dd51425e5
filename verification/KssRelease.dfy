/** Releases from their test on: what their own steps do when nothing comes in between. */
module KssRelease {
  import opened KssUnit
  import opened KssSystem
  import opened KssSteps
  import opened KssTheorems
  import KssCapacity
  import KssResize

  ghost predicate Ordered(s: State, u: nat) {
    u in s.units && TreeOk(s, u) && OneLock(s, u)
  }

  /** What the picks of a release leave alone. */
  ghost predicate SameBut(s: State, s': State, u: nat) {
    && s'.units.Keys == s.units.Keys && u in s.units
    && s'.units[u].count == s.units[u].count && s'.units[u].maxcount == s.units[u].maxcount
    && s'.dead == s.dead && s'.tasks.Keys == s.tasks.Keys
    && Owners(s', u) == Owners(s, u)
  }

  lemma OnePick(s: State, t: nat, u: nat)
    requires Ordered(s, u) && t in s.tasks && s.tasks[t] == Picking(u) && s.units[u].tree != []
    requires s.units[u].tree[0].task in s.dead
    ensures Enabled(s, Pick(t))
    ensures var s' := After(s, Pick(t));
            && Ordered(s', u) && SameBut(s, s', u) && t in s'.tasks && s'.tasks[t] == Picking(u)
            && PickLive(s'.units[u], s.dead) == PickLive(s.units[u], s.dead)
            && |s'.units[u].tree| < |s.units[u].tree|
  {
    hide Sorted, Distinct, Owners, Queued, Without, Tasks, OneLock, PickLive;
    var tree, s' := s.units[u].tree, After(s, Pick(t));
    var x := tree[0].task;
    FirstWaits(s, u, t);
    FirstOut(tree);
    WithoutOrder(tree, x);
    WithoutTasks(tree, x);
    OwnersChange(s, s', u, x, Idle);
    QueuedChange(s, s', u, x, Idle);
    PickLiveSkips(s.units[u], s.dead);
    OneLockStays(s, s', u, x);
  }

  lemma OneLockStays(s: State, s': State, u: nat, x: nat)
    requires OneLock(s, u) && x in s.tasks && s'.tasks == s.tasks[x := Idle]
    ensures OneLock(s', u)
  {
    assert forall y :: HasLock(s', u, y) ==> HasLock(s, u, y);
  }

  lemma LastPick(s: State, t: nat, u: nat)
    requires Ordered(s, u) && t in s.tasks && s.tasks[t] == Picking(u)
    requires s.units[u].tree == [] || s.units[u].tree[0].task !in s.dead
    ensures Enabled(s, Pick(t))
    ensures var s' := After(s, Pick(t)); var p := PickLive(s.units[u], s.dead);
            && SameBut(s, s', u) && s'.tasks[t] == Handing(u, p.next) && s'.units[u] == p.unit
            && (p.next != 0 ==> p.next in s.tasks && s'.tasks[p.next] == Called(u) && p.next !in Owners(s, u))
  {
    hide Sorted, Without, Tasks, TreeOk, OneLock;
    if s.units[u].tree != [] {
      assert Distinct(s.units[u].tree) by { FirstWaits(s, u, t); }
      FirstWaits(s, u, t);
      PickLiveSkips(s.units[u], s.dead);
    }
  }

  /** The picks alone: they end with the first live waiter, or with nobody. */
  lemma {:induction false} PicksOn(s: State, t: nat, u: nat) returns (acts: seq<Action>, s': State)
    requires Ordered(s, u) && t in s.tasks && s.tasks[t] == Picking(u)
    ensures Run(s, acts, s') && SameBut(s, s', u)
    ensures var p := PickLive(s.units[u], s.dead);
            && t in s'.tasks && s'.tasks[t] == Handing(u, p.next) && s'.units[u] == p.unit
            && (p.next != 0 ==> p.next in s'.tasks && s'.tasks[p.next] == Called(u) && p.next !in Owners(s, u))
    decreases |s.units[u].tree|
  {
    hide Sorted, Distinct, Owners, PickLive, Tasks, TreeOk, OneLock, After, Enabled;
    var s1 := After(s, Pick(t)) by { PickEnabled(s, t, u); }
    if s.units[u].tree == [] || s.units[u].tree[0].task !in s.dead {
      LastPick(s, t, u);
      acts, s' := [Pick(t)], s1;
      assert acts[1..] == [];
      assert Run(s1, [], s1);
    } else {
      OnePick(s, t, u);
      var rest;
      rest, s' := PicksOn(s1, t, u);
      acts := [Pick(t)] + rest;
      assert acts[1..] == rest;
    }
  }

  lemma PickEnabled(s: State, t: nat, u: nat)
    requires u in s.units && t in s.tasks && s.tasks[t] == Picking(u)
    ensures Enabled(s, Pick(t))
  {
  }

  lemma {:induction false} RunThen(s: State, actions: seq<Action>, t: State, a: Action)
    requires Run(s, actions, t) && Enabled(t, a)
    ensures Run(s, actions + [a], After(t, a))
    decreases |actions|
  {
    hide After, Enabled;
    if actions == [] {
      assert ([a])[1..] == [];
      assert actions + [a] == [a];
      assert Run(After(t, a), [], After(t, a));
    } else {
      RunThen(After(s, actions[0]), actions[1..], t, a);
      assert (actions + [a])[1..] == actions[1..] + [a];
    }
  }

  /** The end of a release that called somebody, or nobody. */
  lemma Finishes(s: State, t: nat, u: nat, x: nat)
    requires u in s.units && t in s.tasks && s.tasks[t] == Handing(u, x) && (x != 0 ==> x in s.tasks && s.tasks[x] == Called(u))
    ensures Enabled(s, Finish(t))
    ensures var s' := After(s, Finish(t));
            && s'.units == s.units[u := s.units[u].(count := if x == 0 then s.units[u].count - 1 else s.units[u].count)]
            && s'.tasks.Keys == s.tasks.Keys && s'.tasks[t] == Idle && (x != 0 ==> s'.tasks[x] == Granted(u))
  {
  }

  /** A release that nothing comes in between does what the function CuUp says. */
  lemma UndisturbedRelease(s: State, t: nat, u: nat) returns (acts: seq<Action>, s': State)
    requires Ordered(s, u) && t in s.tasks && s.tasks[t] == Leaving(u)
    ensures Run(s, acts, s') && u in s'.units && t in s'.tasks && s'.tasks[t] == Idle
    ensures var p := CuUp(s.units[u], s.dead);
            s'.units[u] == p.unit && (p.next != 0 ==> p.next in s'.tasks && s'.tasks[p.next] == Granted(u))
  {
    hide Sorted, Distinct, PickLive, Tasks, Owners, Queued;
    var s1 := After(s, Test(t));
    if s.units[u].count > s.units[u].maxcount {
      acts, s' := [Test(t)], s1;
      assert acts[1..] == [] && Run(s1, [], s1);
    } else {
      TestOrdered(s, t, u);
      var picks, s2 := PicksOn(s1, t, u);
      var x := PickLive(s.units[u], s.dead).next;
      Finishes(s2, t, u, x);
      s' := After(s2, Finish(t));
      RunThen(s1, picks, s2, Finish(t));
      acts := [Test(t)] + (picks + [Finish(t)]);
      assert acts[1..] == picks + [Finish(t)];
    }
  }

  lemma TestOrdered(s: State, t: nat, u: nat)
    requires Ordered(s, u) && t in s.tasks && s.tasks[t] == Leaving(u) && s.units[u].count <= s.units[u].maxcount
    ensures Enabled(s, Test(t))
    ensures var s1 := After(s, Test(t)); Ordered(s1, u) && s1.tasks[t] == Picking(u) && s1.units == s.units && s1.dead == s.dead
  {
    var s1 := After(s, Test(t));
    QueuedChange(s, s1, u, t, Picking(u));
    assert forall x :: HasLock(s1, u, x) <==> HasLock(s, u, x);
    assert s1.units[u] == s.units[u];
  }

  /**
   * A release that will grant, as far as the tree and the calls tell, does: with nothing in between, its own
   * steps make somebody an owner who was none, whatever the counter and the capacity are by then.
   */
  lemma WillGrantDoes(s: State, u: nat) returns (acts: seq<Action>, s': State, x: nat)
    requires Ordered(s, u) && CallsOk(s, u) && WillGrant(s, u, s.units[u].tree)
    ensures Run(s, acts, s') && u in s'.units
    ensures s'.units[u].count == s.units[u].count && s'.units[u].maxcount == s.units[u].maxcount
    ensures x !in Owners(s, u) && x in Owners(s', u)
  {
    hide Sorted, Distinct, PickLive, TreeOk, OneLock;
    var t :| GrantsNext(s, u, s.units[u].tree, t);
    var picks, s2 := [], s;
    if s.tasks[t] == Picking(u) {
      picks, s2 := PicksOn(s, t, u);
      x := PickLive(s.units[u], s.dead).next;
      SomebodyLives(s, u);
    } else {
      x := s.tasks[t].next;
      assert Hands(s, u, t, x);
    }
    Finishes(s2, t, u, x);
    RunThen(s, picks, s2, Finish(t));
    acts, s' := picks + [Finish(t)], After(s2, Finish(t));
  }

  lemma SomebodyLives(s: State, u: nat)
    requires Ordered(s, u) && Alive(s.units[u].tree, s.dead)
    ensures PickLive(s.units[u], s.dead).next != 0
  {
    PickLiveTakes(s.units[u], s.dead);
  }

  /**
   * So the last condition on a change of capacity asks no more than it must: after a change that meets the
   * others but leaves a release without room, that release alone goes on to grant beyond the capacity.
   */
  lemma LoweringOvergrants(s: State, k: nat, u: nat) returns (acts: seq<Action>, s': State, x: nat)
    requires Inv(s) && Enabled(s, Resize(k)) && u == s.setters[k].unit
    requires var s1 := After(s, Resize(k)); Ordered(s1, u) && WillGrant(s1, u, s1.units[u].tree)
    requires s.hp[u] < After(s, Resize(k)).units[u].count
    ensures Run(After(s, Resize(k)), acts, s') && u in s'.units && s'.units[u].count > s'.units[u].maxcount
    ensures x !in Owners(After(s, Resize(k)), u) && x in Owners(s', u)
  {
    hide Raise, Owners, OneLock, TreeOk, WillGrant;
    var s1 := After(s, Resize(k));
    KeepsMaxcount(s.units[u].(maxcount := s.hp[u]), s.dead, s.setters[k].slots);
    assert UnitOk(s, u);
    CallsAfterResize(s, s1, k, u);
    acts, s', x := WillGrantDoes(s1, u);
  }

  lemma CallsAfterResize(s: State, s1: State, k: nat, u: nat)
    requires Enabled(s, Resize(k)) && u == s.setters[k].unit && UnitOk(s, u) && s1 == After(s, Resize(k))
    ensures CallsOk(s1, u)
  {
    var r := ResizeOf(s, k);
    RaiseSuffix(s, k, u, r);
    KssResize.ResizeLocks(s, s1, k, u, r);
  }

  lemma RaiseSuffix(s: State, k: nat, u: nat, r: Raised)
    requires KssResize.Applies(s, k, u, r)
    ensures Suffix(r.unit.tree, s.units[u].tree)
  {
    KssCapacity.RaiseShape(s.units[u].(maxcount := s.hp[u]), s.dead, s.setters[k].slots, r);
  }
}
