/** The run queue of a computing unit as the kernel keeps it, step by step. */
module KssLock {
  import opened KssUnit

  /** How an attempt to take the lock ends: another unit is to be tried, a slot is taken, or the caller sleeps. */
  datatype Down = Elsewhere | Granted | Asleep

  class CfsRq {
    var count: int
    var maxcount: int
    var tree: seq<Waiter>
    var nrRunning: int
    var load: int
    var onRq: set<nat>
    var curr: nat
    var tasks: seq<nat>

    ghost function Abs(): Unit
      reads this
    {
      Unit(count, maxcount, tree, curr)
    }

    /** The counters agree with the tree; a queued task is never the current one. */
    ghost predicate Valid()
      reads this
    {
      && Sorted(tree) && Distinct(tree)
      && nrRunning == |tree| && load == Weight(tree) && onRq == Tasks(tree)
      && curr !in onRq
    }

    constructor (capacity: int)
      ensures Valid() && Abs() == Unit(0, capacity, [], 0) && tasks == []
    {
      count, maxcount, tree, nrRunning, load, onRq, curr, tasks := 0, capacity, [], 0, 0, {}, 0, [];
    }

    /** The current task would be counted, but not put into the tree. */
    method Enqueue(w: Waiter)
      requires Valid() && w.task > 0
      modifies `tree, `nrRunning, `load, `onRq
      ensures w.task != curr ==> Valid()
      ensures tree == if w.task == curr || w.task in Tasks(old(tree)) then old(tree) else Insert(old(tree), w)
      ensures w.task in Tasks(old(tree)) ==> Valid()
      ensures w.task !in Tasks(old(tree)) ==>
                nrRunning == old(nrRunning) + 1 && load == old(load) + w.weight && onRq == old(onRq) + {w.task}
    {
      if w.task in onRq {
        return;
      }
      InsertSorted(tree, w);
      InsertWeight(tree, w);
      InsertDistinct(tree, w);
      InsertTasks(tree, w);
      load, nrRunning, onRq := load + w.weight, nrRunning + 1, onRq + {w.task};
      if w.task != curr {
        tree := Insert(tree, w);
      }
    }

    method Dequeue(w: Waiter)
      requires Valid() && w in tree
      modifies `tree, `nrRunning, `load, `onRq
      ensures Valid() && tree == Without(old(tree), w.task)
    {
      WithoutOrder(tree, w.task);
      WithoutCounts(tree, w);
      WithoutTasks(tree, w.task);
      if w.task != curr {
        tree := Without(tree, w.task);
      }
      load, nrRunning, onRq := load - w.weight, nrRunning - 1, onRq - {w.task};
    }

    /** The leftmost waiter leaves the tree and becomes current. */
    method PickNextTask() returns (next: nat)
      requires Valid()
      modifies `tree, `nrRunning, `load, `onRq, `curr
      ensures Valid()
      ensures old(tree) == [] ==> next == 0 && tree == [] && curr == old(curr)
      ensures old(tree) != [] ==> next == curr == old(tree)[0].task && tree == old(tree)[1..]
    {
      if nrRunning == 0 {
        return 0;
      }
      var w := tree[0];
      FirstOut(tree);
      curr := 0;
      assert 0 !in onRq;
      Dequeue(w);
      curr := w.task;
      next := w.task;
    }

    /** Skips waiters that died. */
    method PickLiveTask(dead: set<nat>) returns (next: nat)
      requires Valid()
      modifies `tree, `nrRunning, `load, `onRq, `curr
      ensures Valid()
      ensures Abs() == PickLive(old(Abs()), dead).unit && next == PickLive(old(Abs()), dead).next
    {
      hide Sorted, Weight, Tasks;
      ghost var u := Abs();
      next := PickNextTask();
      if u.tree != [] {
        PickLiveSkips(u, dead);
      }
      while next != 0 && next in dead
        invariant Valid() && count == old(count) && maxcount == old(maxcount)
        invariant next == 0 ==> tree == []
        invariant PickLive(old(Abs()), dead) ==
                  (if next != 0 && next !in dead then Picked(Abs(), next) else PickLive(Abs(), dead))
        decreases |tree|, next
      {
        u := Abs();
        next := PickNextTask();
        if u.tree != [] {
          PickLiveSkips(u, dead);
        }
      }
    }

    /** The look at the counter, under the spinlock: the caller, already in the tree, counts a slot or will sleep. */
    method TryCount() returns (granted: bool)
      requires Valid()
      modifies `count
      ensures Valid() && granted == (old(count) < maxcount)
      ensures Abs() == old(Abs()).(count := if granted then old(count) + 1 else old(count))
    {
      granted := count < maxcount;
      if granted {
        count := count + 1;
      }
    }

    /**
     * A whole call, with nothing in between, up to the caller's having the lock, its sleep, or its leave for
     * another unit; `migrating` is its mark for that.
     */
    method CuDown(w: Waiter, affinity: int, migrating: bool) returns (r: Down, migrates: bool)
      requires Valid() && w.task > 0 && w.task != curr && w.task !in Tasks(tree)
      modifies `tree, `nrRunning, `load, `onRq, `count
      ensures Valid()
      ensures r == Elsewhere <==> !migrating && affinity < SINGLE_IMPLEMENTATION_BONUS && |old(tree)| >= QUEUE_LIMIT
      ensures migrates == (r == Elsewhere)
      ensures r == Elsewhere ==> Abs() == old(Abs())
      ensures r != Elsewhere ==> (r == Granted <==> old(count) < maxcount)
      ensures r == Granted ==> Abs() == old(Abs()).(count := old(count) + 1)
      ensures r == Asleep ==> Abs() == old(Abs()).(tree := Insert(old(tree), w))
    {
      if !migrating && affinity < SINGLE_IMPLEMENTATION_BONUS && nrRunning >= QUEUE_LIMIT {
        return Elsewhere, true;
      }
      var granted := EnterAndCount(w);
      r, migrates := if granted then Granted else Asleep, false;
    }

    method EnterAndCount(w: Waiter) returns (granted: bool)
      requires Valid() && w.task > 0 && w.task != curr && w.task !in Tasks(tree)
      modifies `tree, `nrRunning, `load, `onRq, `count
      ensures Valid() && granted == (old(count) < maxcount)
      ensures Abs() == if granted then old(Abs()).(count := old(count) + 1) else old(Abs()).(tree := Insert(old(tree), w))
    {
      hide Sorted, Distinct, Insert, Without, Weight, Tasks;
      InsertUndone(tree, w);
      Enqueue(w);
      granted := TryCount();
      if granted {
        Dequeue(w);
      }
    }

    /** The test of a release, under the spinlock: above the capacity the slot falls at once. */
    method TestExcess() returns (done: bool)
      requires Valid()
      modifies `count
      ensures Valid() && done == (old(count) > maxcount)
      ensures Abs() == old(Abs()).(count := if done then old(count) - 1 else old(count))
    {
      done := count > maxcount;
      if done {
        count := count - 1;
      }
    }

    /** The end of a release, under the spinlock: the slot goes on to the picked task, or falls. */
    method HandOver(next: nat)
      requires Valid()
      modifies `count
      ensures Valid() && Abs() == old(Abs()).(count := if next == 0 then old(count) - 1 else old(count))
    {
      if next == 0 {
        count := count - 1;
      }
    }

    /** A whole release, with nothing in between: the excess shrinks, or the next live waiter gets the slot, or it falls. */
    method CuUp(dead: set<nat>) returns (next: nat)
      requires Valid()
      modifies `tree, `nrRunning, `load, `onRq, `curr, `count
      ensures Valid()
      ensures Abs() == KssUnit.CuUp(old(Abs()), dead).unit && next == KssUnit.CuUp(old(Abs()), dead).next
    {
      var done := TestExcess();
      next := 0;
      if !done {
        next := PickLiveTask(dead);
        HandOver(next);
      }
    }

    /** A granted task becomes a listed holder. */
    method Occupy(t: nat)
      requires Valid() && t !in onRq
      modifies `tasks, `curr
      ensures Valid() && tasks == [t] + old(tasks) && Abs() == old(Abs()).(curr := t)
    {
      tasks := [t] + tasks;
      curr := t;
    }

    /** A holder gives the unit back. */
    method Free(t: nat, dead: set<nat>) returns (next: nat)
      requires Valid() && t in tasks
      modifies `tree, `nrRunning, `load, `onRq, `curr, `count, `tasks
      ensures Valid() && tasks == Survivors(old(tasks), {t})
      ensures Abs() == KssUnit.CuUp(old(Abs()).(curr := 0), dead).unit
      ensures next == KssUnit.CuUp(old(Abs()).(curr := 0), dead).next
    {
      curr := 0;
      assert 0 !in onRq;
      tasks := Survivors(tasks, {t});
      next := CuUp(dead);
    }

    /** Dead holders leave the list, and a slot is released for each of them. */
    method Tidy(dead: set<nat>) returns (woken: seq<nat>)
      requires Valid()
      modifies `tree, `nrRunning, `load, `onRq, `curr, `count, `tasks
      ensures Valid() && tasks == Survivors(old(tasks), dead)
      ensures var r := Releases(old(Abs()), dead, |old(tasks)| - |tasks|);
              Abs() == r.unit && woken == r.granted
    {
      var zombies := Bury(dead);
      woken := ReleaseSlots(dead, zombies);
    }

    method Bury(dead: set<nat>) returns (zombies: nat)
      modifies `tasks
      ensures tasks == Survivors(old(tasks), dead) && zombies == |old(tasks)| - |tasks|
    {
      var kept := [];
      zombies := 0;
      ghost var all := Survivors(tasks, dead);
      assert tasks[0..] == tasks && [] + all == all;
      for i := 0 to |tasks|
        invariant tasks == old(tasks) && all == kept + Survivors(tasks[i..], dead)
        invariant zombies == i - |kept|
      {
        SurvivorsNext(tasks, i, dead, kept);
        if tasks[i] in dead {
          zombies := zombies + 1;
        } else {
          kept := kept + [tasks[i]];
        }
      }
      assert kept + [] == kept;
      tasks := kept;
    }

    method ReleaseSlots(dead: set<nat>, n: nat) returns (woken: seq<nat>)
      requires Valid()
      modifies `tree, `nrRunning, `load, `onRq, `curr, `count
      ensures Valid()
      ensures Abs() == Releases(old(Abs()), dead, n).unit && woken == Releases(old(Abs()), dead, n).granted
      decreases n
    {
      hide Releases, Sorted, Distinct, Weight, Tasks;
      ghost var all := Releases(Abs(), dead, n);
      woken := [];
      var left := n;
      PrecededEnds(Abs(), dead, woken, all);
      while left > 0
        invariant Valid()
        invariant all == Preceded(woken, Releases(Abs(), dead, left))
      {
        ghost var was := Preceded(woken, Releases(Abs(), dead, left));
        woken := ReleaseNext(dead, left, woken);
        assert all == was;
        left := left - 1;
      }
      PrecededEnds(Abs(), dead, woken, all);
    }

    method ReleaseNext(dead: set<nat>, ghost left: nat, woken: seq<nat>) returns (longer: seq<nat>)
      requires Valid() && left > 0
      modifies `tree, `nrRunning, `load, `onRq, `curr, `count
      ensures Valid()
      ensures Preceded(woken, Releases(old(Abs()), dead, left)) == Preceded(longer, Releases(Abs(), dead, left - 1))
    {
      ReleasesStep(Abs(), dead, left, woken);
      var next := CuUp(dead);
      longer := woken + (if next == 0 then [] else [next]);
    }

    /** What a caller that wants another capacity finds to be new, before it takes the spinlock. */
    method Difference(capacity: int) returns (slots: int)
      ensures slots == capacity - maxcount
    {
      slots := capacity - maxcount;
    }

    /** The section under the spinlock: the capacity is set and as many waiters are woken as the caller found new. */
    method Resize(dead: set<nat>, capacity: int, slots: int) returns (woken: seq<nat>)
      requires Valid()
      modifies `tree, `nrRunning, `load, `onRq, `curr, `count, `maxcount
      ensures Valid()
      ensures Abs() == Resized(old(Abs()), dead, capacity, slots).unit
      ensures woken == Resized(old(Abs()), dead, capacity, slots).granted
    {
      maxcount := capacity;
      woken := WakeAll(dead, slots);
    }

    /** A whole change, with nothing in between: wakes as many waiters as the capacity grew by. */
    method SetCapacity(dead: set<nat>, capacity: int) returns (woken: seq<nat>)
      requires Valid()
      modifies `tree, `nrRunning, `load, `onRq, `curr, `count, `maxcount
      ensures Valid()
      ensures Abs() == KssUnit.SetCapacity(old(Abs()), dead, capacity).unit
      ensures woken == KssUnit.SetCapacity(old(Abs()), dead, capacity).granted
    {
      var diff := Difference(capacity);
      woken := [];
      if diff != 0 {
        woken := Resize(dead, capacity, diff);
      }
    }

    method WakeAll(dead: set<nat>, slots: int) returns (woken: seq<nat>)
      requires Valid()
      modifies `tree, `nrRunning, `load, `onRq, `curr, `count
      ensures Valid()
      ensures Abs() == Raise(old(Abs()), dead, slots).unit && woken == Raise(old(Abs()), dead, slots).granted
    {
      hide Raise, Waking, Sorted, Distinct, Weight, Tasks;
      ghost var all := Raise(Abs(), dead, slots);
      var diff := slots;
      woken := [];
      WakingStarts(Abs(), dead, slots);
      while diff > 0
        invariant Valid()
        invariant Waking(all, woken, Abs(), dead, diff)
        decreases diff
      {
        var stop: bool;
        stop, woken := WakeNext(dead, diff, woken, all);
        if stop {
          return;
        }
        diff := diff - 1;
      }
      WakingEnds(all, woken, Abs(), dead, diff);
    }

    /** One turn of the waking loop. */
    method WakeNext(dead: set<nat>, ghost diff: int, woken: seq<nat>, ghost all: Raised)
      returns (stop: bool, longer: seq<nat>)
      requires Valid() && diff > 0 && Waking(all, woken, Abs(), dead, diff)
      modifies `tree, `nrRunning, `load, `onRq, `curr, `count
      ensures Valid()
      ensures stop ==> all.unit == Abs() && all.granted == longer
      ensures !stop ==> Waking(all, longer, Abs(), dead, diff - 1)
    {
      hide Raise, Waking, Sorted, Distinct, Weight, Tasks, PickLive;
      WakingStep(all, woken, Abs(), dead, diff);
      var next := PickLiveTask(dead);
      stop, longer := next == 0 || count > maxcount, woken;
      if !stop {
        count := count + 1;
        longer := woken + [next];
      }
    }
  }
}
