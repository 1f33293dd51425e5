/**
 * All computing units, all tasks and all callers that change a capacity. A step is one section under the
 * spinlock of a unit, or one access outside of it: a task that enters a unit, a release and the load balancer
 * keep the access mutex of the unit over several steps, a change of capacity never takes it.
 */
module KssSystem {
  import opened KssUnit
  import opened KssCapacity

  /**
   * Where a task is. Entering: in the tree, about to look at the counter. Taking: counted, still in the tree.
   * Pulled: in the tree, chosen by the load balancer of another unit. Called: taken out of the tree by a
   * release. Granted: the slot is counted for a thread that is not yet listed as holder. Leaving, Picking and
   * Handing: off the list, the release about to test the counter, to pick, or to finish with `next` (or nobody).
   */
  datatype Phase =
    | Idle | Chosen(unit: nat) | Entering(unit: nat) | Taking(unit: nat) | Waiting(unit: nat) | Pulled(unit: nat)
    | Called(unit: nat) | Granted(unit: nat) | Holding(unit: nat)
    | Leaving(unit: nat) | Picking(unit: nat) | Handing(unit: nat, next: nat)
  {
    predicate Queues(u: nat) { this == Entering(u) || this == Taking(u) || Waits(u) }

    predicate Waits(u: nat) { this == Waiting(u) || this == Pulled(u) }

    predicate Releases(u: nat) { this == Leaving(u) || this == Picking(u) || (Handing? && unit == u) }

    predicate Owns(u: nat) { this == Taking(u) || this == Granted(u) || this == Holding(u) || Releases(u) }

    /** The access mutex of u is held for this task. */
    predicate Locks(u: nat) { this == Entering(u) || this == Taking(u) || this == Pulled(u) || Releases(u) }
  }

  /** A caller of computing_unit_set: it has written the new capacity, read it back, or found the difference. */
  datatype Setter = Told(unit: nat) | Wishes(unit: nat, wish: int) | Ready(unit: nat, slots: int)

  /**
   * `hp`: the capacity last written for a unit. `lowered`: units whose capacity was set below their load and
   * whose excess has not drained since.
   */
  datatype State = State(units: map<nat, Unit>, hp: map<nat, int>, setters: map<nat, Setter>, online: set<nat>,
                         tasks: map<nat, Phase>, dead: set<nat>, lowered: set<nat>)

  datatype Action =
    | Choose(t: nat, u: nat) | Turn(t: nat) | Enter(t: nat, vrun: int, weight: nat) | Check(t: nat) | Dequeue(t: nat)
    | Occupy(t: nat) | Rerequest(t: nat)
    | GiveBack(t: nat) | Free(t: nat) | Fault(t: nat) | Tidy(t: nat) | Test(t: nat) | Pick(t: nat) | Finish(t: nat)
    | Pull(t: nat) | Keep(t: nat) | Migrate(t: nat) | Die(t: nat)
    | Tell(k: nat, u: nat, maxcount: nat) | Read(k: nat) | Compare(k: nat) | Resize(k: nat)
    | Offline(u: nat)

  ghost predicate Init(s: State) {
    && (forall u :: u in s.units ==>
          && s.units[u].count == 0 && s.units[u].tree == [] && s.units[u].curr == 0 && s.units[u].maxcount >= 0
          && u in s.hp && s.hp[u] == s.units[u].maxcount)
    && (forall t :: t in s.tasks ==> t > 0 && s.tasks[t] == Idle)
    && s.setters == map[] && s.online <= s.units.Keys && s.dead == {} && s.lowered == {}
  }

  ghost predicate HasLock(s: State, u: nat, t: nat) {
    t in s.tasks && s.tasks[t].Locks(u)
  }

  ghost predicate MutexFree(s: State, u: nat) {
    forall t :: !HasLock(s, u, t)
  }

  ghost predicate InUnit(s: State, t: nat) {
    t in s.tasks && !s.tasks[t].Idle? && s.tasks[t].unit in s.units
  }

  ghost predicate Enabled(s: State, a: Action) {
    match a
    case Choose(t, u) => t in s.tasks && s.tasks[t] == Idle && t !in s.dead && u in s.online && u in s.units
    case Turn(t) => InUnit(s, t) && s.tasks[t].Chosen?
    case Enter(t, _, _) => InUnit(s, t) && s.tasks[t].Chosen? && MutexFree(s, s.tasks[t].unit)
    case Check(t) => InUnit(s, t) && s.tasks[t].Entering?
    case Dequeue(t) => InUnit(s, t) && s.tasks[t].Taking?
    case Occupy(t) => InUnit(s, t) && s.tasks[t].Granted? && s.tasks[t].unit in s.online && MutexFree(s, s.tasks[t].unit)
    case Rerequest(t) => InUnit(s, t) && s.tasks[t].Holding? && t !in s.dead && MutexFree(s, s.tasks[t].unit)
    case GiveBack(t) => InUnit(s, t) && s.tasks[t].Granted? && s.tasks[t].unit !in s.online && MutexFree(s, s.tasks[t].unit)
    case Free(t) => InUnit(s, t) && s.tasks[t].Holding? && t !in s.dead && MutexFree(s, s.tasks[t].unit)
    case Fault(t) => InUnit(s, t) && s.tasks[t].Holding? && t !in s.dead && MutexFree(s, s.tasks[t].unit)
    case Tidy(t) => InUnit(s, t) && s.tasks[t].Holding? && t in s.dead && MutexFree(s, s.tasks[t].unit)
    case Test(t) => InUnit(s, t) && s.tasks[t].Leaving?
    case Pick(t) => InUnit(s, t) && s.tasks[t].Picking?
    case Finish(t) => InUnit(s, t) && s.tasks[t].Handing?
    case Pull(t) => InUnit(s, t) && s.tasks[t].Waiting? && t in Tasks(s.units[s.tasks[t].unit].tree)
                    && MutexFree(s, s.tasks[t].unit)
    case Keep(t) => InUnit(s, t) && s.tasks[t].Pulled?
    case Migrate(t) => InUnit(s, t) && s.tasks[t].Pulled?
    case Die(t) => t in s.tasks && (s.tasks[t].Waiting? || s.tasks[t].Pulled? || s.tasks[t].Holding?)
    case Tell(k, u, _) => k !in s.setters && u in s.units
    case Read(k) => k in s.setters && s.setters[k].Told? && s.setters[k].unit in s.units && s.setters[k].unit in s.hp
    case Compare(k) => k in s.setters && s.setters[k].Wishes? && s.setters[k].unit in s.units
    case Resize(k) => k in s.setters && s.setters[k].Ready? && s.setters[k].unit in s.units && s.setters[k].unit in s.hp
    case Offline(u) => u in s.online
  }

  function Members(ts: seq<nat>): set<nat> {
    set t | t in ts
  }

  /** The entry for unit u and the task t changed. */
  function With(s: State, u: nat, v: Unit, t: nat, p: Phase): State {
    s.(units := s.units[u := v], tasks := s.tasks[t := p],
       lowered := if v.count > v.maxcount then s.lowered else s.lowered - {u})
  }

  /** Unit u goes from its old tree to v: the woken tasks are granted, the other waiters that left are let go. */
  ghost function Woken(s: State, u: nat, v: Unit, granted: set<nat>, lost: nat): State
    requires u in s.units
  {
    s.(units := s.units[u := v],
       tasks := map t | t in s.tasks ::
         if s.tasks[t] != Waiting(u) || t in Tasks(v.tree) || t == lost then s.tasks[t]
         else if t in granted then Granted(u) else Idle)
  }

  /** What the spinlock section of a change of capacity does to the unit. */
  function ResizeOf(s: State, k: nat): Raised
    requires k in s.setters && s.setters[k].Ready? && s.setters[k].unit in s.units && s.setters[k].unit in s.hp
  {
    var u := s.setters[k].unit;
    Resized(s.units[u], s.dead, s.hp[u], s.setters[k].slots)
  }

  ghost function After(s: State, a: Action): State
    requires Enabled(s, a)
  {
    match a
    case Choose(t, u) => s.(tasks := s.tasks[t := Chosen(u)])
    case Turn(t) => s.(tasks := s.tasks[t := Idle])
    case Enter(t, vrun, weight) =>
      var u := s.tasks[t].unit;
      var v := s.units[u];
      With(s, u, if t == v.curr then v else v.(tree := Insert(v.tree, Waiter(vrun, weight, t))), t, Entering(u))
    case Check(t) =>
      var u := s.tasks[t].unit;
      var v := s.units[u];
      if v.count < v.maxcount then With(s, u, v.(count := v.count + 1), t, Taking(u)) else With(s, u, v, t, Waiting(u))
    case Dequeue(t) =>
      var u := s.tasks[t].unit;
      var v := s.units[u];
      With(s, u, if t == v.curr then v else v.(tree := Without(v.tree, t)), t, Granted(u))
    case Occupy(t) => With(s, s.tasks[t].unit, s.units[s.tasks[t].unit].(curr := t), t, Holding(s.tasks[t].unit))
    case Rerequest(t) => With(s, s.tasks[t].unit, s.units[s.tasks[t].unit].(curr := t), t, Holding(s.tasks[t].unit))
    case GiveBack(t) => s.(tasks := s.tasks[t := Leaving(s.tasks[t].unit)])
    case Free(t) => With(s, s.tasks[t].unit, s.units[s.tasks[t].unit].(curr := 0), t, Leaving(s.tasks[t].unit))
    case Fault(t) => s.(tasks := s.tasks[t := Leaving(s.tasks[t].unit)])
    case Tidy(t) => s.(tasks := s.tasks[t := Leaving(s.tasks[t].unit)])
    case Test(t) =>
      var u := s.tasks[t].unit;
      var v := s.units[u];
      if v.count > v.maxcount then With(s, u, v.(count := v.count - 1), t, Idle) else With(s, u, v, t, Picking(u))
    case Pick(t) =>
      var u := s.tasks[t].unit;
      var v := s.units[u];
      if v.tree == [] then With(s, u, v, t, Handing(u, 0))
      else
        var x := v.tree[0].task;
        var v' := v.(tree := v.tree[1..], curr := x);
        if x in s.dead then With(s, u, v', x, Idle)
        else With(s.(tasks := s.tasks[t := Handing(u, x)]), u, v', x, Called(u))
    case Finish(t) =>
      var u := s.tasks[t].unit;
      var v := s.units[u];
      var x := s.tasks[t].next;
      if x == 0 then With(s, u, v.(count := v.count - 1), t, Idle)
      else With(s.(tasks := s.tasks[t := Idle]), u, v, x, Granted(u))
    case Pull(t) => s.(tasks := s.tasks[t := Pulled(s.tasks[t].unit)])
    case Keep(t) => s.(tasks := s.tasks[t := Waiting(s.tasks[t].unit)])
    case Migrate(t) =>
      var u := s.tasks[t].unit;
      var v := s.units[u];
      With(s, u, if t == v.curr then v else v.(tree := Without(v.tree, t)), t, Idle)
    case Die(t) => s.(dead := s.dead + {t})
    case Tell(k, u, m) => s.(hp := s.hp[u := m], setters := s.setters[k := Told(u)])
    case Read(k) => s.(setters := s.setters[k := Wishes(s.setters[k].unit, s.hp[s.setters[k].unit])])
    case Compare(k) =>
      var u := s.setters[k].unit;
      var slots := s.setters[k].wish - s.units[u].maxcount;
      if slots == 0 then s.(setters := s.setters - {k}) else s.(setters := s.setters[k := Ready(u, slots)])
    case Resize(k) =>
      var u := s.setters[k].unit;
      var r := ResizeOf(s, k);
      Woken(s, u, r.unit, Members(r.granted), r.lost)
        .(setters := s.setters - {k},
          lowered := if r.unit.count <= r.unit.maxcount then s.lowered - {u}
                     else if s.units[u].count > r.unit.maxcount then s.lowered + {u} else s.lowered)
    case Offline(u) => s.(online := s.online - {u})
  }

  // The invariant.

  /** The tasks for which a slot of u is counted: those taking one, owning one, or giving one back. */
  ghost function Owners(s: State, u: nat): set<nat> {
    set t | t in s.tasks && s.tasks[t].Owns(u)
  }

  ghost function Waiters(s: State, u: nat): set<nat> {
    set t | t in s.tasks && s.tasks[t].Waits(u)
  }

  ghost function Queued(s: State, u: nat): set<nat> {
    set t | t in s.tasks && s.tasks[t].Queues(u)
  }

  ghost predicate TreeOk(s: State, u: nat)
    requires u in s.units
  {
    Sorted(s.units[u].tree) && Distinct(s.units[u].tree) && Tasks(s.units[u].tree) == Queued(s, u)
  }

  ghost predicate CountOk(s: State, u: nat)
    requires u in s.units
  {
    var v := s.units[u];
    && v.count == |Owners(s, u)|
    && v.maxcount >= 0 && u in s.hp && s.hp[u] >= 0
    && (Waiters(s, u) != {} ==> v.count >= v.maxcount)
    && (v.count > v.maxcount <==> u in s.lowered)
  }

  /** The current task, if any, is not in the tree and is no task that will put itself there. */
  ghost predicate CurrOk(s: State, u: nat)
    requires u in s.units
  {
    var c := s.units[u].curr;
    c in s.tasks ==>
      && !s.tasks[c].Queues(u)
      && (|| c in s.dead
          || s.tasks[c] == Called(u) || s.tasks[c] == Granted(u) || s.tasks[c] == Holding(u) || s.tasks[c].Releases(u)
          || (u !in s.online && s.tasks[c] != Chosen(u)))
  }

  ghost predicate Hands(s: State, u: nat, t: nat, x: nat) {
    t in s.tasks && s.tasks[t] == Handing(u, x)
  }

  ghost predicate OneLock(s: State, u: nat) {
    forall t, x :: HasLock(s, u, t) && HasLock(s, u, x) ==> t == x
  }

  /** Who is called is called by a release that hands over to it; a release that found nobody leaves nobody. */
  ghost predicate CallsOk(s: State, u: nat)
    requires u in s.units
  {
    && (forall t, x :: Hands(s, u, t, x) ==> if x == 0 then s.units[u].tree == [] else x in s.tasks && s.tasks[x] == Called(u))
    && (forall x :: x in s.tasks && s.tasks[x] == Called(u) ==> x != 0 && exists t :: Hands(s, u, t, x))
  }

  /** A release past its test will hand its slot over, or may yet find somebody to hand it to. */
  ghost predicate WillGrant(s: State, u: nat, tree: seq<Waiter>) {
    exists t :: GrantsNext(s, u, tree, t)
  }

  ghost predicate GrantsNext(s: State, u: nat, tree: seq<Waiter>, t: nat) {
    t in s.tasks && ((s.tasks[t] == Picking(u) && Alive(tree, s.dead)) || (s.tasks[t].Handing? && s.tasks[t].unit == u && s.tasks[t].next != 0))
  }

  ghost predicate Alive(tree: seq<Waiter>, dead: set<nat>) {
    exists x :: x in Tasks(tree) && x !in dead
  }

  ghost predicate UnitOk(s: State, u: nat)
    requires u in s.units
  {
    && TreeOk(s, u) && CountOk(s, u) && CurrOk(s, u) && OneLock(s, u) && CallsOk(s, u)
    && (WillGrant(s, u, s.units[u].tree) ==> s.units[u].count <= s.units[u].maxcount)
  }

  ghost predicate TaskOk(s: State, t: nat) {
    t in s.tasks ==>
      && t > 0
      && (!s.tasks[t].Idle? ==> s.tasks[t].unit in s.units)
      && (t in s.dead ==>
            var p := s.tasks[t]; p.Idle? || p.Waiting? || p.Pulled? || p.Holding? || p.Leaving? || p.Picking? || p.Handing?)
  }

  ghost predicate Inv(s: State) {
    && (forall u :: u in s.units ==> UnitOk(s, u))
    && (forall t :: TaskOk(s, t))
  }

  // Which steps keep it.

  /**
   * When a change of capacity may be applied with the difference that its caller found. Whatever it wakes must
   * fit; it must wake enough for those who go on waiting; a task that is in the tree while the access mutex
   * is held for it must stay there; and a release that will hand its slot over must still have the room.
   */
  ghost predicate SafeResize(s: State, u: nat, m: int, slots: int)
    requires u in s.units
  {
    var v := s.units[u];
    var n := v.count + |Few(LiveTasks(v.tree, s.dead), slots)|;
    var left := Left(v.tree, s.dead, slots);
    && (n == v.count || n <= m)
    && (forall x :: x in Waiters(s, u) && x in Tasks(left) ==> n >= m)
    && (forall x :: HasLock(s, u, x) && x in Tasks(v.tree) ==> x in Tasks(left))
    && (WillGrant(s, u, left) ==> n <= m)
  }

  /** The step ends a release without handing over. */
  ghost predicate Ends(s: State, a: Action)
    requires Enabled(s, a)
  {
    (a.Test? && s.units[s.tasks[a.t].unit].count > s.units[s.tasks[a.t].unit].maxcount) || a.Finish?
  }

  /** The task that gave its slot back does not stay behind as the current one. */
  ghost predicate EndsWell(s: State, t: nat)
    requires InUnit(s, t)
  {
    t in s.dead || s.tasks[t].unit !in s.online || s.units[s.tasks[t].unit].curr != t
  }

  /** Every change of capacity is safe, and no release leaves its task behind as the current one. */
  ghost predicate Careful(s: State, a: Action)
    requires Enabled(s, a)
  {
    && (a.Resize? ==> SafeResize(s, s.setters[a.k].unit, s.hp[s.setters[a.k].unit], s.setters[a.k].slots))
    && (Ends(s, a) ==> EndsWell(s, a.t))
  }
}
