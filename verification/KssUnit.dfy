/**
 * The lock of a computing unit: an upward-counting semaphore whose waiters stand in a tree ordered by
 * virtual runtime. Task ids are positive; 0 stands for no task.
 */
module KssUnit {

  /** A queue of this many waiters is congested. */
  const QUEUE_LIMIT: nat := 10

  const SINGLE_IMPLEMENTATION_BONUS: int := 40

  datatype Waiter = Waiter(vrun: int, weight: nat, task: nat)

  /** `tree` lists the waiters from left to right. */
  datatype Unit = Unit(count: int, maxcount: int, tree: seq<Waiter>, curr: nat)

  // The tree as an ordered list.

  /** Equal keys go to the right. */
  function Insert(tree: seq<Waiter>, w: Waiter): (r: seq<Waiter>)
    ensures |r| == |tree| + 1
    ensures forall x :: x in r <==> x in tree || x == w
  {
    if tree == [] || w.vrun < tree[0].vrun then [w] + tree else [tree[0]] + Insert(tree[1..], w)
  }

  function Without(tree: seq<Waiter>, t: nat): (r: seq<Waiter>)
    ensures |r| <= |tree|
    ensures forall w :: w in r <==> w in tree && w.task != t
  {
    if tree == [] then [] else (if tree[0].task == t then [] else [tree[0]]) + Without(tree[1..], t)
  }

  function Tasks(tree: seq<Waiter>): set<nat> {
    set w | w in tree :: w.task
  }

  function Weight(tree: seq<Waiter>): nat {
    if tree == [] then 0 else tree[0].weight + Weight(tree[1..])
  }

  ghost predicate Sorted(tree: seq<Waiter>) {
    forall i, j :: 0 <= i < j < |tree| ==> tree[i].vrun <= tree[j].vrun
  }

  ghost predicate Distinct(tree: seq<Waiter>) {
    (forall i, j :: 0 <= i < j < |tree| ==> tree[i].task != tree[j].task)
    && (forall i :: 0 <= i < |tree| ==> tree[i].task > 0)
  }

  lemma {:induction false} InsertSorted(tree: seq<Waiter>, w: Waiter)
    requires Sorted(tree)
    ensures Sorted(Insert(tree, w))
  {
    if tree != [] && w.vrun >= tree[0].vrun {
      InsertSorted(tree[1..], w);
      var rest := Insert(tree[1..], w);
      forall i | 0 <= i < |rest| ensures tree[0].vrun <= rest[i].vrun {
        assert rest[i] in rest;
      }
    }
  }

  /** The new waiter goes behind all that are not after it, and in front of the others; those keep their order. */
  lemma {:induction false} InsertPlace(tree: seq<Waiter>, w: Waiter) returns (k: nat)
    requires Sorted(tree)
    ensures k <= |tree| && Insert(tree, w) == tree[..k] + [w] + tree[k..]
    ensures (forall i :: 0 <= i < k ==> tree[i].vrun <= w.vrun) && (forall i :: k <= i < |tree| ==> w.vrun < tree[i].vrun)
  {
    if tree == [] || w.vrun < tree[0].vrun {
      k := 0;
    } else {
      var j := InsertPlace(tree[1..], w);
      k := j + 1;
      assert tree[..k] == [tree[0]] + tree[1..][..j] && tree[k..] == tree[1..][j..];
    }
  }

  lemma {:induction false} InsertWeight(tree: seq<Waiter>, w: Waiter)
    ensures Weight(Insert(tree, w)) == Weight(tree) + w.weight
  {
    if tree == [] || w.vrun < tree[0].vrun {
      assert ([w] + tree)[1..] == tree;
    } else {
      InsertWeight(tree[1..], w);
      assert Insert(tree, w)[1..] == Insert(tree[1..], w);
    }
  }

  lemma {:induction false} InsertDistinct(tree: seq<Waiter>, w: Waiter)
    requires Distinct(tree) && w.task > 0 && w.task !in Tasks(tree)
    ensures Distinct(Insert(tree, w))
  {
    forall i | 0 <= i < |tree| ensures tree[i].task != w.task {
      assert tree[i] in tree;
    }
    if tree != [] && w.vrun >= tree[0].vrun {
      forall x | x in tree[1..] ensures x in tree && x.task != tree[0].task {}
      InsertDistinct(tree[1..], w);
      var rest := Insert(tree[1..], w);
      forall i | 0 <= i < |rest| ensures rest[i].task != tree[0].task && rest[i].task > 0 {
        assert rest[i] in rest;
      }
    }
  }

  lemma {:induction false} InsertUndone(tree: seq<Waiter>, w: Waiter)
    requires w.task !in Tasks(tree)
    ensures Without(Insert(tree, w), w.task) == tree
  {
    if tree == [] || w.vrun < tree[0].vrun {
      assert ([w] + tree)[1..] == tree;
      WithoutStranger(tree, w.task);
    } else {
      assert tree[0] in tree;
      forall x | x in tree[1..] ensures x in tree {}
      InsertUndone(tree[1..], w);
      assert Insert(tree, w)[1..] == Insert(tree[1..], w);
    }
  }

  lemma InsertTasks(tree: seq<Waiter>, w: Waiter)
    ensures Tasks(Insert(tree, w)) == Tasks(tree) + {w.task}
  {
    var r := Insert(tree, w);
    forall t ensures t in Tasks(r) <==> t in Tasks(tree) + {w.task} {
      if t in Tasks(tree) {
        var x :| x in tree && x.task == t;
        assert x in r;
      }
      assert w in r;
    }
  }

  lemma {:induction false} WithoutStranger(tree: seq<Waiter>, t: nat)
    requires t !in Tasks(tree)
    ensures Without(tree, t) == tree
  {
    if tree != [] {
      assert tree[0] in tree;
      forall x | x in tree[1..] ensures x in tree {}
      WithoutStranger(tree[1..], t);
    }
  }

  lemma {:induction false} WithoutSorted(tree: seq<Waiter>, t: nat)
    requires Sorted(tree)
    ensures Sorted(Without(tree, t))
  {
    if tree != [] {
      WithoutSorted(tree[1..], t);
      var rest := Without(tree[1..], t);
      forall i | 0 <= i < |rest| ensures tree[0].vrun <= rest[i].vrun {
        assert rest[i] in tree[1..];
      }
    }
  }

  lemma {:induction false} WithoutDistinct(tree: seq<Waiter>, t: nat)
    requires Distinct(tree)
    ensures Distinct(Without(tree, t))
  {
    if tree != [] {
      WithoutDistinct(tree[1..], t);
      var rest := Without(tree[1..], t);
      forall i | 0 <= i < |rest| ensures tree[0].task != rest[i].task {
        assert rest[i] in tree[1..];
      }
    }
  }

  lemma WithoutOrder(tree: seq<Waiter>, t: nat)
    requires Sorted(tree) && Distinct(tree)
    ensures Sorted(Without(tree, t)) && Distinct(Without(tree, t))
  {
    WithoutSorted(tree, t);
    WithoutDistinct(tree, t);
  }

  lemma {:induction false} WithoutCounts(tree: seq<Waiter>, w: Waiter)
    requires Distinct(tree) && w in tree
    ensures |Without(tree, w.task)| == |tree| - 1
    ensures Weight(Without(tree, w.task)) == Weight(tree) - w.weight
  {
    if tree[0] == w {
      FirstOut(tree);
    } else {
      WithoutCounts(tree[1..], w);
      var rest := Without(tree[1..], w.task);
      assert tree[0].task != w.task;
      assert ([tree[0]] + rest)[1..] == rest;
    }
  }

  lemma WithoutTasks(tree: seq<Waiter>, t: nat)
    ensures Tasks(Without(tree, t)) == Tasks(tree) - {t}
  {
    var r := Without(tree, t);
    forall x ensures x in Tasks(r) <==> x in Tasks(tree) - {t} {
      if x in Tasks(tree) && x != t {
        var w :| w in tree && w.task == x;
        assert w in r;
      }
    }
  }

  // Operations on values.

  /** Position of the first waiter that is still alive. */
  function FirstLive(tree: seq<Waiter>, dead: set<nat>): (k: nat)
    ensures k <= |tree|
    ensures k < |tree| ==> tree[k].task !in dead
    ensures forall i :: 0 <= i < k ==> tree[i].task in dead
  {
    if tree == [] || tree[0].task !in dead then 0 else FirstLive(tree[1..], dead) + 1
  }

  datatype Picked = Picked(unit: Unit, next: nat)

  /** The leftmost live waiter leaves the tree, and the dead ones before it; 0 if nobody is left. */
  function PickLive(u: Unit, dead: set<nat>): Picked {
    var k := FirstLive(u.tree, dead);
    if k < |u.tree| then Picked(u.(tree := u.tree[k + 1..], curr := u.tree[k].task), u.tree[k].task)
    else Picked(u.(tree := [], curr := if k == 0 then u.curr else u.tree[k - 1].task), 0)
  }

  lemma PickLiveSkips(u: Unit, dead: set<nat>)
    requires u.tree != []
    ensures var v := u.(tree := u.tree[1..], curr := u.tree[0].task);
            PickLive(u, dead) == if u.tree[0].task in dead then PickLive(v, dead) else Picked(v, u.tree[0].task)
  {
    var k := FirstLive(u.tree, dead);
    if u.tree[0].task in dead && k < |u.tree| {
      assert u.tree[1..][k..] == u.tree[k + 1..];
    }
  }

  function CuUp(u: Unit, dead: set<nat>): Picked {
    if u.count > u.maxcount then Picked(u.(count := u.count - 1), 0)
    else
      var p := PickLive(u, dead);
      if p.next == 0 then Picked(p.unit.(count := u.count - 1), 0) else p
  }

  /** Holders that are still alive, in order. */
  function Survivors(tasks: seq<nat>, dead: set<nat>): (r: seq<nat>)
    ensures |r| <= |tasks|
    ensures forall t :: t in r <==> t in tasks && t !in dead
  {
    if tasks == [] then []
    else (if tasks[0] in dead then [] else [tasks[0]]) + Survivors(tasks[1..], dead)
  }

  /** One turn of the scan, with `kept` already seen alive. */
  lemma SurvivorsNext(tasks: seq<nat>, i: nat, dead: set<nat>, kept: seq<nat>)
    requires i < |tasks|
    ensures kept + Survivors(tasks[i..], dead) ==
            (if tasks[i] in dead then kept else kept + [tasks[i]]) + Survivors(tasks[i + 1..], dead)
  {
    var rest := Survivors(tasks[i + 1..], dead);
    assert tasks[i..][1..] == tasks[i + 1..];
    assert kept + ([tasks[i]] + rest) == (kept + [tasks[i]]) + rest;
    assert [] + rest == rest;
  }

  datatype Released = Released(unit: Unit, granted: seq<nat>)

  /** n slots are released one after the other. */
  function Releases(u: Unit, dead: set<nat>, n: nat): (r: Released)
    ensures r.unit.count == u.count - n + |r.granted| && r.unit.maxcount == u.maxcount
    decreases n
  {
    if n == 0 then Released(u, [])
    else
      var p := CuUp(u, dead);
      var r := Releases(p.unit, dead, n - 1);
      if p.next == 0 then r else r.(granted := [p.next] + r.granted)
  }

  function Preceded(woken: seq<nat>, r: Released): Released {
    r.(granted := woken + r.granted)
  }

  lemma PrecededEnds(u: Unit, dead: set<nat>, woken: seq<nat>, r: Released)
    ensures Preceded(woken, Releases(u, dead, 0)) == Released(u, woken)
    ensures Preceded([], r) == r
  {
    assert woken + [] == woken && [] + r.granted == r.granted;
  }

  lemma ReleasesStep(u: Unit, dead: set<nat>, n: nat, woken: seq<nat>)
    requires n > 0
    ensures var p := CuUp(u, dead);
            Preceded(woken, Releases(u, dead, n)) ==
            Preceded(woken + (if p.next == 0 then [] else [p.next]), Releases(p.unit, dead, n - 1))
  {
    var p := CuUp(u, dead);
    var rest := Releases(p.unit, dead, n - 1).granted;
    assert woken + ([p.next] + rest) == (woken + [p.next]) + rest;
    assert woken + [] == woken;
  }

  /** Waiters granted by a change of capacity, and one that left the tree without being granted (or 0). */
  datatype Raised = Raised(unit: Unit, granted: seq<nat>, lost: nat)

  function Raise(u: Unit, dead: set<nat>, slots: int): Raised
    decreases slots
  {
    if slots <= 0 then Raised(u, [], 0)
    else
      var p := PickLive(u, dead);
      if p.next == 0 || u.count > u.maxcount then Raised(p.unit, [], p.next)
      else
        var r := Raise(p.unit.(count := u.count + 1), dead, slots - 1);
        r.(granted := [p.next] + r.granted)
  }

  function Prefixed(woken: seq<nat>, r: Raised): Raised {
    r.(granted := woken + r.granted)
  }

  /** The loop has granted `woken`, and what it still does completes `all`. */
  ghost predicate Waking(all: Raised, woken: seq<nat>, u: Unit, dead: set<nat>, slots: int) {
    all == Prefixed(woken, Raise(u, dead, slots))
  }

  lemma WakingStarts(u: Unit, dead: set<nat>, slots: int)
    ensures Waking(Raise(u, dead, slots), [], u, dead, slots)
  {
    assert [] + Raise(u, dead, slots).granted == Raise(u, dead, slots).granted;
  }

  lemma WakingEnds(all: Raised, woken: seq<nat>, u: Unit, dead: set<nat>, slots: int)
    requires Waking(all, woken, u, dead, slots) && slots <= 0
    ensures all == Raised(u, woken, 0)
  {
    assert woken + [] == woken;
  }

  /** One turn of the loop. */
  lemma WakingStep(all: Raised, woken: seq<nat>, u: Unit, dead: set<nat>, slots: int)
    requires Waking(all, woken, u, dead, slots) && slots > 0
    ensures var p := PickLive(u, dead);
            if p.next == 0 || u.count > u.maxcount then all == Raised(p.unit, woken, p.next)
            else Waking(all, woken + [p.next], p.unit.(count := u.count + 1), dead, slots - 1)
  {
    var p := PickLive(u, dead);
    var rest := Raise(p.unit.(count := u.count + 1), dead, slots - 1).granted;
    assert woken + ([p.next] + rest) == (woken + [p.next]) + rest;
    assert woken + [] == woken;
  }

  /** The capacity is set, and as many waiters are woken as the caller has found slots to be new. */
  function Resized(u: Unit, dead: set<nat>, maxcount: int, slots: int): Raised {
    Raise(u.(maxcount := maxcount), dead, slots)
  }

  /** A change that nothing comes in between. */
  function SetCapacity(u: Unit, dead: set<nat>, maxcount: int): Raised {
    Resized(u, dead, maxcount, maxcount - u.maxcount)
  }

  lemma FirstOut(tree: seq<Waiter>)
    requires tree != [] && Distinct(tree)
    ensures Without(tree, tree[0].task) == tree[1..]
  {
    forall x | x in tree[1..] ensures x.task != tree[0].task {}
    WithoutStranger(tree[1..], tree[0].task);
  }

  /** Waiters leave the tree from the left only. */
  ghost predicate Suffix(a: seq<Waiter>, b: seq<Waiter>) {
    a == b || (b != [] && Suffix(a, b[1..]))
  }

  lemma {:induction false} SuffixKeeps(a: seq<Waiter>, b: seq<Waiter>)
    requires Suffix(a, b) && Sorted(b) && Distinct(b)
    ensures Sorted(a) && Distinct(a)
  {
    if a != b {
      SuffixKeeps(a, b[1..]);
    }
  }

  lemma {:induction false} SuffixTasks(a: seq<Waiter>, b: seq<Waiter>)
    requires Suffix(a, b)
    ensures |a| <= |b| && Tasks(a) <= Tasks(b)
  {
    if a != b {
      SuffixTasks(a, b[1..]);
      forall x | x in b[1..] ensures x in b {}
    }
  }

  lemma {:induction false} SuffixTransitive(a: seq<Waiter>, b: seq<Waiter>, c: seq<Waiter>)
    requires Suffix(a, b) && Suffix(b, c)
    ensures Suffix(a, c)
  {
    if b != c {
      SuffixTransitive(a, b, c[1..]);
    }
  }

  lemma {:induction false} DropIsSuffix(tree: seq<Waiter>, k: nat)
    requires k <= |tree|
    ensures Suffix(tree[k..], tree)
  {
    if k > 0 {
      DropIsSuffix(tree[1..], k - 1);
      assert tree[1..][k - 1..] == tree[k..];
    }
  }

  lemma PickLiveTakes(u: Unit, dead: set<nat>)
    requires Distinct(u.tree)
    ensures var p := PickLive(u, dead);
            && Suffix(p.unit.tree, u.tree) && p.unit.count == u.count && p.unit.maxcount == u.maxcount
            && (p.next == 0 ==> p.unit.tree == [] && Tasks(u.tree) <= dead)
            && (p.next != 0 ==> p.next in Tasks(u.tree) && p.next !in Tasks(p.unit.tree) && p.next !in dead
                                && p.unit.curr == p.next)
            && (p.next == 0 ==> p.unit.curr == u.curr || p.unit.curr in dead)
  {
    var k := FirstLive(u.tree, dead);
    if k < |u.tree| {
      assert u.tree[k] in u.tree;
      DropIsSuffix(u.tree, k + 1);
      forall x | x in u.tree[k + 1..] ensures x.task != u.tree[k].task {}
    } else {
      DropIsSuffix(u.tree, k);
      assert u.tree[k..] == [];
    }
  }

  /** Who leaves the tree at a pick is dead or picked. */
  lemma PickLiveLeaves(u: Unit, dead: set<nat>, t: nat)
    requires t in Tasks(u.tree)
    ensures var p := PickLive(u, dead); t in Tasks(p.unit.tree) || t in dead || t == p.next
  {
    var k := FirstLive(u.tree, dead);
    var w :| w in u.tree && w.task == t;
    var i :| 0 <= i < |u.tree| && u.tree[i] == w;
    if i > k {
      assert u.tree[k + 1..][i - k - 1] == w;
    }
  }
}
