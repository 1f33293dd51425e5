/** Runs in which the unlocked gaps of the code go wrong: why the conditions on runs are needed. */
module KssRaces {
  import opened KssUnit
  import opened KssSystem
  import opened KssTheorems
  import KssRelease

  ghost predicate Reachable(t: State) {
    exists s, actions :: Init(s) && Run(s, actions, t)
  }

  lemma Take(t: State, a: Action, u: State)
    requires Reachable(t) && Enabled(t, a) && u == After(t, a)
    ensures Reachable(u)
  {
    var s, actions :| Init(s) && Run(s, actions, t);
    KssRelease.RunThen(s, actions, t, a);
  }

  lemma Initially(s: State)
    requires Init(s)
    ensures Reachable(s)
  {
    assert Run(s, [], s);
  }

  // Stretches of runs at unit 1.

  /** Unit 1 is online and its mutex is free. */
  ghost predicate Quiet(s: State) {
    Reachable(s) && 1 in s.units && 1 in s.hp && 1 in s.online && MutexFree(s, 1)
  }

  /** Task x has chosen unit 1 and entered its tree. */
  lemma Enters(s: State, x: nat, vrun: int) returns (t: State)
    requires Quiet(s) && x in s.tasks && s.tasks[x] == Idle && x !in s.dead && s.units[1].curr != x
    requires s.units[1].count <= s.units[1].maxcount
    ensures Reachable(t)
    ensures t == s.(units := s.units[1 := s.units[1].(tree := Insert(s.units[1].tree, Waiter(vrun, 1, x)))],
                    tasks := s.tasks[x := Entering(1)], lowered := s.lowered - {1})
  {
    hide Reachable, Insert;
    var s1 := s.(tasks := s.tasks[x := Chosen(1)]);
    Take(s, Choose(x, 1), s1);
    assert MutexFree(s1, 1) by { assert forall y :: HasLock(s1, 1, y) ==> HasLock(s, 1, y); }
    t := After(s1, Enter(x, vrun, 1));
    Take(s1, Enter(x, vrun, 1), t);
    assert t.tasks == s.tasks[x := Entering(1)];
  }

  /** Task x waits, as there is no slot. */
  lemma Waits(s: State, x: nat, vrun: int) returns (t: State)
    requires Quiet(s) && x in s.tasks && s.tasks[x] == Idle && x !in s.dead && s.units[1].curr != x
    requires s.units[1].count == s.units[1].maxcount && 1 !in s.lowered
    ensures Quiet(t)
    ensures t == s.(units := s.units[1 := s.units[1].(tree := Insert(s.units[1].tree, Waiter(vrun, 1, x)))],
                    tasks := s.tasks[x := Waiting(1)])
  {
    hide Reachable, Insert;
    var s1 := Enters(s, x, vrun);
    t := After(s1, Check(x));
    Take(s1, Check(x), t);
    assert t.tasks == s.tasks[x := Waiting(1)];
    assert forall y :: HasLock(t, 1, y) ==> HasLock(s, 1, y);
  }

  /** Task x finds a slot; the slot is counted while x is still in the tree. */
  lemma Takes(s: State, x: nat) returns (t: State)
    requires Quiet(s) && x in s.tasks && s.tasks[x] == Idle && x !in s.dead && s.units[1].curr != x
    requires s.units[1].tree == [] && s.units[1].count < s.units[1].maxcount && 1 !in s.lowered
    ensures Reachable(t)
    ensures t == s.(units := s.units[1 := s.units[1].(count := s.units[1].count + 1, tree := [Waiter(0, 1, x)])],
                    tasks := s.tasks[x := Taking(1)])
  {
    hide Reachable;
    assert Insert([], Waiter(0, 1, x)) == [Waiter(0, 1, x)];
    var s1 := Enters(s, x, 0);
    t := After(s1, Check(x));
    Take(s1, Check(x), t);
    assert t.tasks == s.tasks[x := Taking(1)];
  }

  /** It leaves the tree and becomes a holder. */
  lemma Holds(s: State, x: nat) returns (t: State)
    requires Quiet(s) && x in s.tasks && s.tasks[x] == Idle && x !in s.dead && s.units[1].curr != x
    requires s.units[1].tree == [] && s.units[1].count < s.units[1].maxcount && 1 !in s.lowered
    ensures Quiet(t)
    ensures t == s.(units := s.units[1 := s.units[1].(count := s.units[1].count + 1, curr := x)], tasks := s.tasks[x := Holding(1)])
  {
    hide Reachable;
    var s1 := Takes(s, x);
    var s2 := After(s1, Dequeue(x));
    assert Without([Waiter(0, 1, x)], x) == [];
    Take(s1, Dequeue(x), s2);
    assert s2.tasks == s.tasks[x := Granted(1)];
    assert forall y :: HasLock(s2, 1, y) ==> HasLock(s, 1, y);
    t := After(s2, Occupy(x));
    Take(s2, Occupy(x), t);
    assert t.tasks == s.tasks[x := Holding(1)];
    assert forall y :: HasLock(t, 1, y) ==> HasLock(s, 1, y);
  }

  /** Call k writes capacity m for unit 1 and finds the difference, but does not apply it yet. */
  lemma Measures(s: State, k: nat, m: nat) returns (t: State)
    requires Reachable(s) && 1 in s.units && k !in s.setters && m != s.units[1].maxcount
    ensures Reachable(t)
    ensures t == s.(hp := s.hp[1 := m], setters := s.setters[k := Ready(1, m - s.units[1].maxcount)])
  {
    hide Reachable;
    var s1 := After(s, Tell(k, 1, m));
    Take(s, Tell(k, 1, m), s1);
    var s2 := After(s1, Read(k));
    Take(s1, Read(k), s2);
    assert s2.setters == s.setters[k := Wishes(1, m)];
    t := After(s2, Compare(k));
    Take(s2, Compare(k), t);
    assert t.setters == s.setters[k := Ready(1, m - s.units[1].maxcount)];
  }

  /** The states below: one unit, online, with nobody dead. */
  function At(v: Unit, m: int, setters: map<nat, Setter>, tasks: map<nat, Phase>): State {
    State(map[1 := v], map[1 := m], setters, {1}, tasks, {}, {})
  }

  lemma Begin(capacity: nat, tasks: map<nat, Phase>) returns (s: State)
    requires forall t :: t in tasks ==> t > 0 && tasks[t] == Idle
    ensures Quiet(s) && s == At(Unit(0, capacity, [], 0), capacity, map[], tasks)
  {
    s := At(Unit(0, capacity, [], 0), capacity, map[], tasks);
    Initially(s);
  }

  /** Call k applies its difference; r is what that does to the unit and `tasks` where it leaves the tasks. */
  lemma Applies(s: State, k: nat, r: Raised, tasks: map<nat, Phase>) returns (t: State)
    requires Reachable(s) && k in s.setters && s.setters[k].Ready? && s.setters[k].unit == 1 && 1 in s.units && 1 in s.hp
    requires r == Resized(s.units[1], s.dead, s.hp[1], s.setters[k].slots)
    requires tasks.Keys == s.tasks.Keys
    requires forall y :: y in s.tasks ==>
      tasks[y] == if s.tasks[y] != Waiting(1) || y in Tasks(r.unit.tree) || y == r.lost then s.tasks[y]
                  else if y in r.granted then Granted(1) else Idle
    ensures Reachable(t)
    ensures t == s.(units := s.units[1 := r.unit], tasks := tasks, setters := s.setters - {k},
                    lowered := if r.unit.count <= r.unit.maxcount then s.lowered - {1}
                               else if s.units[1].count > r.unit.maxcount then s.lowered + {1} else s.lowered)
  {
    hide Reachable, Raise;
    t := After(s, Resize(k));
    Take(s, Resize(k), t);
    assert t.tasks == tasks;
  }

  /** A raise that wakes the first of the waiters, or finds the capacity exceeded after having picked it. */
  lemma WakesFirst(v: Unit, m: int)
    requires v.tree != [] && v.tree[0].task > 0
    ensures var x := v.tree[0].task;
            Resized(v, {}, m, 1) ==
            if v.count > m then Raised(Unit(v.count, m, v.tree[1..], x), [], x)
            else Raised(Unit(v.count + 1, m, v.tree[1..], x), [x], 0)
  {
    var u := v.(maxcount := m);
    var x := v.tree[0].task;
    assert PickLive(u, {}) == Picked(Unit(v.count, m, v.tree[1..], x), x);
  }

  lemma LowersOnly(v: Unit, m: int, slots: int)
    requires slots <= 0
    ensures Resized(v, {}, m, slots) == Raised(v.(maxcount := m), [], 0)
  {
  }

  // Between entering the tree and the look at the counter.

  lemma OneEntering() returns (t: State)
    ensures Reachable(t) && t == At(Unit(0, 0, [Waiter(0, 1, 1)], 0), 0, map[], map[1 := Entering(1)])
  {
    hide Reachable;
    var s := Begin(0, map[1 := Idle]);
    t := Enters(s, 1, 0);
    assert Insert([], Waiter(0, 1, 1)) == [Waiter(0, 1, 1)];
    assert t.units == map[1 := Unit(0, 0, [Waiter(0, 1, 1)], 0)] && t.tasks == map[1 := Entering(1)];
  }

  /**
   * A change of capacity never takes the access mutex. If it comes between a task's entering the tree and its
   * look at the counter, the slot is counted but never given to that waiter: it waits for ever, outside the
   * tree, at a unit that counts one grant and has no owner.
   */
  lemma ResizeRace() returns (t: State)
    ensures Reachable(t) && 1 in t.units && 1 in t.tasks
    ensures t.tasks[1] == Waiting(1) && 1 !in Tasks(t.units[1].tree)
    ensures t.units[1].count == 1 && Owners(t, 1) == {}
  {
    hide Reachable;
    var s := OneEntering();
    var s1 := Measures(s, 7, 1);
    WakesFirst(s.units[1], 1);
    var s2 := Applies(s1, 7, Raised(Unit(1, 1, [], 1), [1], 0), map[1 := Entering(1)]);
    t := After(s2, Check(1));
    Take(s2, Check(1), t);
  }

  // Between counting the slot and leaving the tree.

  lemma OneTaking() returns (t: State)
    ensures Reachable(t) && t == At(Unit(1, 1, [Waiter(0, 1, 1)], 0), 1, map[], map[1 := Taking(1)])
  {
    hide Reachable;
    var s := Begin(1, map[1 := Idle]);
    t := Takes(s, 1);
    assert t.units == map[1 := Unit(1, 1, [Waiter(0, 1, 1)], 0)] && t.tasks == map[1 := Taking(1)];
  }

  /** A raise there counts a second slot for the same task: two slots are gone for one owner, with nobody waiting. */
  lemma RaiseInsideGrant() returns (t: State)
    ensures Reachable(t) && 1 in t.units && MutexFree(t, 1)
    ensures t.units[1].count == 2 && Owners(t, 1) == {1}
  {
    hide Reachable;
    var s := OneTaking();
    var s1 := Measures(s, 7, 2);
    WakesFirst(s.units[1], 2);
    var s2 := Applies(s1, 7, Raised(Unit(2, 2, [], 1), [1], 0), map[1 := Taking(1)]);
    t := After(s2, Dequeue(1));
    Take(s2, Dequeue(1), t);
  }

  // Two calls that overlap.

  lemma OneHolds(capacity: nat, tasks: map<nat, Phase>) returns (t: State)
    requires capacity > 0 && 1 in tasks && forall y :: y in tasks ==> y > 0 && tasks[y] == Idle
    ensures Quiet(t) && t == At(Unit(1, capacity, [], 1), capacity, map[], tasks[1 := Holding(1)])
  {
    hide Reachable, MutexFree;
    var s := Begin(capacity, tasks);
    t := Holds(s, 1);
    assert t.units == map[1 := Unit(1, capacity, [], 1)];
  }

  lemma TwoWait() returns (t: State)
    ensures Quiet(t)
    ensures t == At(Unit(1, 1, [Waiter(0, 1, 2), Waiter(1, 1, 3)], 1), 1, map[], map[1 := Holding(1), 2 := Waiting(1), 3 := Waiting(1)])
  {
    hide Reachable, MutexFree;
    var s := OneHolds(1, map[1 := Idle, 2 := Idle, 3 := Idle]);
    var s1 := Waits(s, 2, 0);
    var s2 := Waits(s1, 3, 1);
    TwoInserted();
    t := At(Unit(1, 1, [Waiter(0, 1, 2), Waiter(1, 1, 3)], 1), 1, map[], map[1 := Holding(1), 2 := Waiting(1), 3 := Waiting(1)]);
    assert s2.units == t.units;
    assert s2.tasks == t.tasks;
    assert s2 == t;
  }

  lemma TwoInserted()
    ensures Insert([], Waiter(0, 1, 2)) == [Waiter(0, 1, 2)]
    ensures Insert([Waiter(0, 1, 2)], Waiter(1, 1, 3)) == [Waiter(0, 1, 2), Waiter(1, 1, 3)]
  {
    assert [Waiter(0, 1, 2)][1..] == [];
    assert Insert([], Waiter(1, 1, 3)) == [Waiter(1, 1, 3)];
  }

  /** One of the two waiters is woken, with capacity m, by call 7. */
  lemma FirstWoken(s: State, setters: map<nat, Setter>, m: nat) returns (t: State)
    requires m >= 2 && Reachable(s) && 7 in setters && setters[7] == Ready(1, 1)
    requires s == At(Unit(1, 1, [Waiter(0, 1, 2), Waiter(1, 1, 3)], 1), m, setters, map[1 := Holding(1), 2 := Waiting(1), 3 := Waiting(1)])
    ensures Reachable(t)
    ensures t == At(Unit(2, m, [Waiter(1, 1, 3)], 2), m, setters - {7}, map[1 := Holding(1), 2 := Granted(1), 3 := Waiting(1)])
  {
    hide Reachable, Tasks;
    WakesFirst(s.units[1], m);
    assert s.units[1].tree[1..] == [Waiter(1, 1, 3)];
    LastStays();
    t := Applies(s, 7, Raised(Unit(2, m, [Waiter(1, 1, 3)], 2), [2], 0), map[1 := Holding(1), 2 := Granted(1), 3 := Waiting(1)]);
    assert t == At(Unit(2, m, [Waiter(1, 1, 3)], 2), m, setters - {7}, map[1 := Holding(1), 2 := Granted(1), 3 := Waiting(1)]);
  }

  lemma BothMeasured() returns (t: State)
    ensures Reachable(t)
    ensures t == At(Unit(1, 1, [Waiter(0, 1, 2), Waiter(1, 1, 3)], 1), 2, map[7 := Ready(1, 1), 8 := Ready(1, 1)],
                    map[1 := Holding(1), 2 := Waiting(1), 3 := Waiting(1)])
  {
    hide Reachable, MutexFree, Init, Run;
    var s := TwoWait();
    var s1 := Measures(s, 7, 2);
    t := Measures(s1, 8, 2);
    assert t == At(Unit(1, 1, [Waiter(0, 1, 2), Waiter(1, 1, 3)], 1), 2, map[7 := Ready(1, 1), 8 := Ready(1, 1)],
                   map[1 := Holding(1), 2 := Waiting(1), 3 := Waiting(1)]);
  }

  /** Both calls found the same difference; each wakes a waiter for it. */
  lemma TwoRaises() returns (t: State)
    ensures Reachable(t) && 1 in t.units && t.lowered == {} && t.setters == map[]
    ensures t.units[1].maxcount == 2 && Owners(t, 1) == {1, 2, 3}
  {
    hide Reachable, MutexFree, Tasks;
    var s := BothMeasured();
    var s1 := FirstWoken(s, map[7 := Ready(1, 1), 8 := Ready(1, 1)], 2);
    assert s1.setters == map[8 := Ready(1, 1)];
    WakesFirst(Unit(2, 2, [Waiter(1, 1, 3)], 2), 2);
    NoTasks();
    t := Applies(s1, 8, Raised(Unit(3, 2, [], 3), [3], 0), map[1 := Holding(1), 2 := Granted(1), 3 := Granted(1)]);
  }

  lemma NoTasks()
    ensures Tasks([]) == {}
  {
  }

  lemma LastStays()
    ensures Tasks([Waiter(1, 1, 3)]) == {3}
  {
    assert Waiter(1, 1, 3) in [Waiter(1, 1, 3)];
  }

  lemma SecondTold() returns (t: State)
    ensures Reachable(t)
    ensures t == At(Unit(1, 1, [Waiter(0, 1, 2), Waiter(1, 1, 3)], 1), 3, map[7 := Ready(1, 1), 8 := Told(1)],
                    map[1 := Holding(1), 2 := Waiting(1), 3 := Waiting(1)])
  {
    hide Reachable, MutexFree, Init, Run;
    var s := TwoWait();
    var s1 := Measures(s, 7, 2);
    t := After(s1, Tell(8, 1, 3));
    Take(s1, Tell(8, 1, 3), t);
    assert t == At(Unit(1, 1, [Waiter(0, 1, 2), Waiter(1, 1, 3)], 1), 3, map[7 := Ready(1, 1), 8 := Told(1)],
                   map[1 := Holding(1), 2 := Waiting(1), 3 := Waiting(1)]);
  }

  /** A larger capacity is written while a smaller change is under way: its slot is never given to the waiter. */
  lemma MissedRaise() returns (t: State)
    ensures Reachable(t) && 1 in t.units && 3 in t.tasks && MutexFree(t, 1) && t.setters == map[]
    ensures t.tasks[3] == Waiting(1) && t.units[1].count == 2 < t.units[1].maxcount == 3
  {
    hide Reachable, MutexFree;
    var s := SecondTold();
    var s1 := FirstWoken(s, map[7 := Ready(1, 1), 8 := Told(1)], 3);
    assert s1.setters == map[8 := Told(1)];
    t := FindsNothingNew(s1, 8, 3);
    assert MutexFree(t, 1) by { NobodyLocks(t); }
  }

  lemma FindsNothingNew(s: State, k: nat, m: int) returns (t: State)
    requires Reachable(s) && s.setters == map[k := Told(1)] && 1 in s.units && 1 in s.hp && s.hp[1] == m == s.units[1].maxcount
    ensures Reachable(t) && t == s.(setters := map[])
  {
    hide Reachable;
    var s1 := After(s, Read(k));
    Take(s, Read(k), s1);
    assert s1.setters == map[k := Wishes(1, m)];
    t := After(s1, Compare(k));
    Take(s1, Compare(k), t);
    assert t.setters == map[];
  }

  lemma NobodyLocks(s: State)
    requires forall t :: t in s.tasks ==> s.tasks[t] == Holding(1) || s.tasks[t] == Granted(1) || s.tasks[t] == Waiting(1)
    ensures MutexFree(s, 1)
  {
  }

  // Inside a release.

  lemma TwoHoldOneWaits() returns (t: State)
    ensures Quiet(t)
    ensures t == At(Unit(2, 2, [Waiter(0, 1, 3)], 2), 2, map[], map[1 := Holding(1), 2 := Holding(1), 3 := Waiting(1)])
  {
    hide Reachable, MutexFree;
    var s := OneHolds(2, map[1 := Idle, 2 := Idle, 3 := Idle]);
    var s1 := Holds(s, 2);
    var s2 := Waits(s1, 3, 0);
    assert Insert([], Waiter(0, 1, 3)) == [Waiter(0, 1, 3)];
    t := At(Unit(2, 2, [Waiter(0, 1, 3)], 2), 2, map[], map[1 := Holding(1), 2 := Holding(1), 3 := Waiting(1)]);
    assert s2.units == t.units;
    assert s2.tasks == t.tasks;
    assert s2 == t;
  }

  /** Task t gives its slot back and finds the counter within the capacity. */
  lemma StartsToPick(s: State, x: nat) returns (t: State)
    requires Quiet(s) && x in s.tasks && s.tasks[x] == Holding(1) && x !in s.dead && s.units[1].count <= s.units[1].maxcount
    requires 1 !in s.lowered
    ensures Reachable(t)
    ensures t == s.(units := s.units[1 := s.units[1].(curr := 0)], tasks := s.tasks[x := Picking(1)])
  {
    hide Reachable;
    var s1 := After(s, Free(x));
    Take(s, Free(x), s1);
    t := After(s1, Test(x));
    Take(s1, Test(x), t);
    assert t.tasks == s.tasks[x := Picking(1)];
    assert t.lowered == s.lowered;
  }

  lemma LoweredWhilePicking() returns (t: State)
    ensures Reachable(t)
    ensures t == At(Unit(2, 1, [Waiter(0, 1, 3)], 0), 1, map[], map[1 := Picking(1), 2 := Holding(1), 3 := Waiting(1)]).(lowered := {1})
  {
    hide Reachable, MutexFree, Tasks;
    var s := TwoHoldOneWaits();
    var s1 := StartsToPick(s, 1);
    var s2 := Measures(s1, 7, 1);
    var v := Unit(2, 2, [Waiter(0, 1, 3)], 0);
    assert s2.units[1] == v;
    LowersOnly(v, 1, -1);
    assert Tasks([Waiter(0, 1, 3)]) == {3} by { OnlyThree(); }
    t := Applies(s2, 7, Raised(v.(maxcount := 1), [], 0), s1.tasks);
    assert t == At(Unit(2, 1, [Waiter(0, 1, 3)], 0), 1, map[], map[1 := Picking(1), 2 := Holding(1), 3 := Waiting(1)]).(lowered := {1});
  }

  lemma OnlyThree()
    ensures Tasks([Waiter(0, 1, 3)]) == {3}
  {
    assert Waiter(0, 1, 3) in [Waiter(0, 1, 3)];
  }

  /** A lowering between the test and the pick: the slot is handed over although the unit is above its capacity. */
  lemma LoweringInsideRelease() returns (s: State, t: State)
    ensures Reachable(s) && Enabled(s, Finish(1)) && t == After(s, Finish(1)) && 1 in t.units && 1 in s.units
    ensures t.units[1].count == 2 > t.units[1].maxcount == 1 && s.units[1] == t.units[1]
    ensures 3 in Owners(t, 1) && 3 !in Owners(s, 1)
  {
    hide Reachable, MutexFree;
    var s0 := LoweredWhilePicking();
    s := After(s0, Pick(1));
    Take(s0, Pick(1), s);
    assert s.tasks == map[1 := Handing(1, 3), 2 := Holding(1), 3 := Called(1)];
    t := After(s, Finish(1));
  }

  // Between the load balancer's choice and its taking the task out.

  lemma OneHoldsOneWaits() returns (t: State)
    ensures Quiet(t) && t == At(Unit(1, 1, [Waiter(0, 1, 2)], 1), 1, map[], map[1 := Holding(1), 2 := Waiting(1)])
  {
    hide Reachable, MutexFree;
    var s := OneHolds(1, map[1 := Idle, 2 := Idle]);
    t := Waits(s, 2, 0);
    assert Insert([], Waiter(0, 1, 2)) == [Waiter(0, 1, 2)];
    assert t == At(Unit(1, 1, [Waiter(0, 1, 2)], 1), 1, map[], map[1 := Holding(1), 2 := Waiting(1)]);
  }

  lemma RaisedWhilePulled() returns (t: State)
    ensures Reachable(t) && t == At(Unit(2, 2, [], 2), 2, map[], map[1 := Holding(1), 2 := Pulled(1)])
  {
    hide Reachable;
    var s := OneHoldsOneWaits();
    assert Tasks([Waiter(0, 1, 2)]) == {2} by { assert Waiter(0, 1, 2) in [Waiter(0, 1, 2)]; }
    var s1 := s.(tasks := map[1 := Holding(1), 2 := Pulled(1)]);
    Take(s, Pull(2), s1);
    var s2 := Measures(s1, 7, 2);
    WakesFirst(s.units[1], 2);
    t := Applies(s2, 7, Raised(Unit(2, 2, [], 2), [2], 0), s1.tasks);
    assert t == At(Unit(2, 2, [], 2), 2, map[], map[1 := Holding(1), 2 := Pulled(1)]);
  }

  /** A raise there counts a slot for a task that is about to be sent away. */
  lemma RaiseInsidePull() returns (t: State)
    ensures Reachable(t) && 1 in t.units && MutexFree(t, 1)
    ensures t.units[1].count == 2 && Owners(t, 1) == {1} && Waiters(t, 1) == {}
  {
    hide Reachable;
    var s := RaisedWhilePulled();
    t := After(s, Migrate(2));
    Take(s, Migrate(2), t);
  }

  // Above the capacity.

  lemma LoweredToNone() returns (t: State)
    ensures Reachable(t)
    ensures t == At(Unit(2, 0, [Waiter(0, 1, 3)], 2), 0, map[], map[1 := Holding(1), 2 := Holding(1), 3 := Waiting(1)]).(lowered := {1})
  {
    hide Reachable, MutexFree;
    var s := TwoHoldOneWaits();
    var s1 := Measures(s, 7, 0);
    LowersOnly(s.units[1], 0, -2);
    assert Tasks([Waiter(0, 1, 3)]) == {3} by { assert Waiter(0, 1, 3) in [Waiter(0, 1, 3)]; }
    t := Applies(s1, 7, Raised(s.units[1].(maxcount := 0), [], 0), s.tasks);
    assert t.units == map[1 := Unit(2, 0, [Waiter(0, 1, 3)], 2)];
  }

  /**
   * The capacity goes from two to none and then to one, with two grants out and a waiter in the tree. The
   * second change picks the waiter before it looks at the counter: it waits for ever, outside the tree.
   */
  lemma OvercommittedRaiseLosesWaiter() returns (t: State)
    ensures Reachable(t) && 1 in t.units && 3 in t.tasks && MutexFree(t, 1)
    ensures t.tasks[3] == Waiting(1) && t.units[1].tree == []
  {
    hide Reachable, MutexFree;
    var s := LoweredToNone();
    var s1 := Measures(s, 7, 1);
    WakesFirst(s.units[1], 1);
    t := Applies(s1, 7, Raised(Unit(2, 1, [], 3), [], 3), s.tasks);
    assert MutexFree(t, 1) by { NobodyLocks(t); }
  }

  // The result could not be copied out.

  lemma TwoHold() returns (t: State)
    ensures Quiet(t) && t == At(Unit(2, 2, [], 2), 2, map[], map[1 := Holding(1), 2 := Holding(1)])
  {
    hide Reachable, MutexFree;
    var s := OneHolds(2, map[1 := Idle, 2 := Idle]);
    t := Holds(s, 2);
    assert t == At(Unit(2, 2, [], 2), 2, map[], map[1 := Holding(1), 2 := Holding(1)]);
  }

  lemma FaultPicks() returns (t: State)
    ensures Reachable(t) && t == At(Unit(2, 2, [], 2), 2, map[], map[1 := Holding(1), 2 := Picking(1)])
  {
    hide Reachable;
    var s := TwoHold();
    var s1 := s.(tasks := map[1 := Holding(1), 2 := Leaving(1)]);
    Take(s, Fault(2), s1);
    t := s.(tasks := map[1 := Holding(1), 2 := Picking(1)]);
    assert s.units[1 := s.units[1]] == s.units;
    Take(s1, Test(2), t);
  }

  /** Task 2 gives its slot back, but stays behind as the current task. */
  lemma LeavesStale() returns (t: State)
    ensures Reachable(t) && t == At(Unit(1, 2, [], 2), 2, map[], map[1 := Holding(1), 2 := Idle])
  {
    hide Reachable;
    var s := FaultPicks();
    var s1 := s.(tasks := map[1 := Holding(1), 2 := Handing(1, 0)]);
    Take(s, Pick(2), s1);
    t := At(Unit(1, 2, [], 2), 2, map[], map[1 := Holding(1), 2 := Idle]);
    Take(s1, Finish(2), t);
  }

  /** When it comes back and finds no slot it waits for ever: the current task is not put into the tree. */
  lemma FaultStrands() returns (t: State)
    ensures Reachable(t) && 1 in t.units && 2 in t.tasks && MutexFree(t, 1)
    ensures t.tasks[2] == Waiting(1) && t.units[1].tree == []
  {
    hide Reachable;
    var s := LeavesStale();
    var s1 := Measures(s, 7, 1);
    LowersOnly(s.units[1], 1, -1);
    var s2 := Applies(s1, 7, Raised(Unit(1, 1, [], 2), [], 0), s.tasks);
    t := ComesBack(s2);
  }

  lemma ComesBack(s: State) returns (t: State)
    requires Reachable(s) && s == At(Unit(1, 1, [], 2), 1, map[], map[1 := Holding(1), 2 := Idle])
    ensures Reachable(t) && t == s.(tasks := map[1 := Holding(1), 2 := Waiting(1)]) && MutexFree(t, 1)
  {
    hide Reachable;
    var s1 := s.(tasks := map[1 := Holding(1), 2 := Chosen(1)]);
    Take(s, Choose(2, 1), s1);
    var s2 := s.(tasks := map[1 := Holding(1), 2 := Entering(1)]);
    Take(s1, Enter(2, 0, 1), s2);
    t := s.(tasks := map[1 := Holding(1), 2 := Waiting(1)]);
    Take(s2, Check(2), t);
  }
}
