/** Changing the capacity of a computing unit: when waking the waiters does its job. */
module KssCapacity {
  import opened KssUnit

  function LiveTasks(tree: seq<Waiter>, dead: set<nat>): seq<nat> {
    if tree == [] then []
    else (if tree[0].task in dead then [] else [tree[0].task]) + LiveTasks(tree[1..], dead)
  }

  /** When changing the capacity to m does its job. */
  predicate RaiseGood(u: Unit, dead: set<nat>, m: int) {
    m <= u.maxcount || u.count <= u.maxcount || LiveTasks(u.tree, dead) == [] || u.count + |LiveTasks(u.tree, dead)| <= m
  }

  lemma {:induction false} PickLiveFirst(u: Unit, dead: set<nat>)
    requires Distinct(u.tree)
    ensures var l := LiveTasks(u.tree, dead); var p := PickLive(u, dead);
            if l == [] then p.next == 0 else p.next == l[0] != 0 && LiveTasks(p.unit.tree, dead) == l[1..]
    decreases |u.tree|
  {
    if u.tree != [] {
      PickLiveSkips(u, dead);
      if u.tree[0].task in dead {
        PickLiveFirst(u.(tree := u.tree[1..], curr := u.tree[0].task), dead);
      }
    }
  }

  /** The unit after one more waiter got a slot. */
  function WithOneMore(u: Unit, dead: set<nat>): Unit {
    PickLive(u, dead).unit.(count := u.count + 1)
  }

  /** One turn of the loop, in terms of the live waiters l. */
  lemma RaiseTurn(u: Unit, dead: set<nat>, slots: int, l: seq<nat>)
    requires Distinct(u.tree) && slots > 0 && l == LiveTasks(u.tree, dead)
    ensures l == [] ==> Raise(u, dead, slots) == Raised(PickLive(u, dead).unit, [], 0) && PickLive(u, dead).unit.tree == []
    ensures l != [] && u.count > u.maxcount ==> Raise(u, dead, slots).lost == l[0] != 0
    ensures l != [] && u.count <= u.maxcount ==>
              var v := WithOneMore(u, dead); var r := Raise(v, dead, slots - 1);
              && Raise(u, dead, slots) == r.(granted := [l[0]] + r.granted)
              && LiveTasks(v.tree, dead) == l[1..] && Distinct(v.tree)
              && v.count == u.count + 1 && v.maxcount == u.maxcount
  {
    PickLiveFirst(u, dead);
    PickLiveTakes(u, dead);
  }

  function Few(l: seq<nat>, slots: int): seq<nat> {
    if slots <= 0 then [] else if slots < |l| then l[..slots] else l
  }

  lemma FirstFew(l: seq<nat>, slots: int)
    requires l != [] && slots > 0
    ensures [l[0]] + Few(l[1..], slots - 1) == Few(l, slots)
  {
  }

  /** The tree without its first live waiters, as many as there are slots, and without the dead among them. */
  function Left(tree: seq<Waiter>, dead: set<nat>, slots: int): (r: seq<Waiter>)
    ensures |r| <= |tree|
  {
    if slots <= 0 || tree == [] then tree
    else Left(tree[1..], dead, if tree[0].task in dead then slots else slots - 1)
  }

  lemma {:induction false} LeftAfterPick(u: Unit, dead: set<nat>, slots: int)
    requires Distinct(u.tree) && slots > 0
    ensures Left(u.tree, dead, slots) ==
            if LiveTasks(u.tree, dead) == [] then [] else Left(PickLive(u, dead).unit.tree, dead, slots - 1)
    decreases |u.tree|
  {
    if u.tree != [] {
      PickLiveSkips(u, dead);
      if u.tree[0].task in dead {
        LeftAfterPick(u.(tree := u.tree[1..], curr := u.tree[0].task), dead, slots);
      }
    }
  }

  lemma {:induction false} LeftIsSuffix(tree: seq<Waiter>, dead: set<nat>, slots: int)
    ensures Suffix(Left(tree, dead, slots), tree)
    ensures slots > |LiveTasks(tree, dead)| ==> Left(tree, dead, slots) == []
  {
    if slots > 0 && tree != [] {
      LeftIsSuffix(tree[1..], dead, if tree[0].task in dead then slots else slots - 1);
    }
  }

  /** While the capacity suffices: the first live waiters get one slot each, and nobody else leaves alive. */
  lemma {:induction false} RaiseWakes(u: Unit, dead: set<nat>, slots: int, l: seq<nat>, r: Raised)
    requires Distinct(u.tree) && l == LiveTasks(u.tree, dead) && r == Raise(u, dead, slots)
    requires Few(l, slots) == [] || u.count + |Few(l, slots)| <= u.maxcount
    ensures r.lost == 0 && r.granted == Few(l, slots)
    ensures r.unit.tree == Left(u.tree, dead, slots)
    decreases slots
  {
    hide PickLive;
    if slots > 0 {
      RaiseTurn(u, dead, slots, l);
      LeftAfterPick(u, dead, slots);
      if l != [] {
        var v := WithOneMore(u, dead);
        FirstFew(l, slots);
        RaiseWakes(v, dead, slots - 1, l[1..], Raise(v, dead, slots - 1));
      }
    }
  }

  /** Otherwise a waiter leaves the tree without a slot, or gets one the unit does not have. */
  lemma {:induction false} RaiseFails(u: Unit, dead: set<nat>, slots: int, l: seq<nat>)
    requires Distinct(u.tree) && l == LiveTasks(u.tree, dead)
    requires u.count + slots > u.maxcount && slots > 0 && l != [] && u.count + |l| > u.maxcount
    ensures var r := Raise(u, dead, slots); r.lost != 0 || (r.granted != [] && r.unit.count > u.maxcount)
    decreases slots
  {
    RaiseTurn(u, dead, slots, l);
    if u.count <= u.maxcount {
      if slots == 1 || |l| == 1 {
        RaiseShape(WithOneMore(u, dead), dead, slots - 1, Raise(WithOneMore(u, dead), dead, slots - 1));
      } else {
        RaiseFails(WithOneMore(u, dead), dead, slots - 1, l[1..]);
      }
    }
  }

  /** What holds of every change, working or not. */
  ghost predicate Shape(u: Unit, dead: set<nat>, r: Raised) {
    && Suffix(r.unit.tree, u.tree) && r.unit.maxcount == u.maxcount
    && r.unit.count == u.count + |r.granted|
    && (r.unit.curr == u.curr || r.unit.curr in dead || r.unit.curr in r.granted || r.unit.curr == r.lost)
    && (r.unit.curr == u.curr || r.unit.curr !in Tasks(r.unit.tree))
  }

  lemma ShapeAfterTurn(u: Unit, dead: set<nat>, v: Unit, r: Raised, next: nat)
    requires Shape(v, dead, r) && Suffix(v.tree, u.tree) && v.curr == next && next !in Tasks(v.tree)
    requires v.count == u.count + 1 && v.maxcount == u.maxcount
    ensures Shape(u, dead, r.(granted := [next] + r.granted))
  {
    SuffixTransitive(r.unit.tree, v.tree, u.tree);
    SuffixTasks(r.unit.tree, v.tree);
    assert next in [next] + r.granted;
    assert r.unit.curr in r.granted ==> r.unit.curr in [next] + r.granted;
  }

  lemma NextTurn(u: Unit, dead: set<nat>, slots: int) returns (v: Unit, r: Raised, next: nat)
    requires Distinct(u.tree) && slots > 0 && u.count <= u.maxcount && LiveTasks(u.tree, dead) != []
    ensures r == Raise(v, dead, slots - 1) && Raise(u, dead, slots) == r.(granted := [next] + r.granted)
    ensures Distinct(v.tree) && Suffix(v.tree, u.tree) && v.curr == next
    ensures v.count == u.count + 1 && v.maxcount == u.maxcount
    ensures next in Tasks(u.tree) && next !in Tasks(v.tree) && next !in dead
    ensures v == WithOneMore(u, dead) && next == PickLive(u, dead).next
  {
    hide LiveTasks;
    v, next := WithOneMore(u, dead), PickLive(u, dead).next;
    r := Raise(v, dead, slots - 1);
    RaiseTurn(u, dead, slots, LiveTasks(u.tree, dead));
    PickLiveTakes(u, dead);
    PickLiveFirst(u, dead);
  }

  lemma {:induction false} RaiseShape(u: Unit, dead: set<nat>, slots: int, all: Raised)
    requires Distinct(u.tree) && all == Raise(u, dead, slots)
    ensures Shape(u, dead, all)
    ensures slots <= 0 ==> all == Raised(u, [], 0)
    decreases slots
  {
    hide WithOneMore, PickLive;
    if slots > 0 {
      if LiveTasks(u.tree, dead) != [] && u.count <= u.maxcount {
        var v, r, next := NextTurn(u, dead, slots);
        RaiseShape(v, dead, slots - 1, r);
        ShapeAfterTurn(u, dead, v, r, next);
      } else {
        LastTurn(u, dead, slots);
      }
    }
  }

  lemma LastTurn(u: Unit, dead: set<nat>, slots: int)
    requires Distinct(u.tree) && slots > 0
    requires LiveTasks(u.tree, dead) == [] || u.count > u.maxcount
    ensures Shape(u, dead, Raise(u, dead, slots))
  {
    PickLiveTakes(u, dead);
    PickLiveFirst(u, dead);
  }

  /** The granted tasks were waiting and alive, are distinct, and wait no more. */
  ghost predicate Taken(tree: seq<Waiter>, dead: set<nat>, r: Raised) {
    && Suffix(r.unit.tree, tree)
    && (forall t :: t in r.granted ==> t in Tasks(tree) && t !in Tasks(r.unit.tree) && t !in dead)
    && (forall i, j :: 0 <= i < j < |r.granted| ==> r.granted[i] != r.granted[j])
  }

  lemma TakenOneMore(tree: seq<Waiter>, dead: set<nat>, rest: seq<Waiter>, r: Raised, next: nat)
    requires Taken(rest, dead, r) && Suffix(rest, tree)
    requires next in Tasks(tree) && next !in Tasks(rest) && next !in dead
    ensures Taken(tree, dead, r.(granted := [next] + r.granted))
  {
    SuffixTasks(rest, tree);
    SuffixTasks(r.unit.tree, rest);
    SuffixTransitive(r.unit.tree, rest, tree);
  }

  lemma {:induction false} RaiseTakes(u: Unit, dead: set<nat>, slots: int, all: Raised)
    requires Distinct(u.tree) && all == Raise(u, dead, slots)
    ensures Taken(u.tree, dead, all)
    decreases slots
  {
    hide WithOneMore, PickLive;
    if slots > 0 {
      if LiveTasks(u.tree, dead) != [] && u.count <= u.maxcount {
        var v, r, next := NextTurn(u, dead, slots);
        RaiseTakes(v, dead, slots - 1, r);
        TakenOneMore(u.tree, dead, v.tree, r, next);
      } else {
        NothingTaken(u, dead, slots);
      }
    }
  }

  lemma NothingTaken(u: Unit, dead: set<nat>, slots: int)
    requires Distinct(u.tree) && slots > 0 && (LiveTasks(u.tree, dead) == [] || u.count > u.maxcount)
    ensures Raise(u, dead, slots).granted == [] && Suffix(Raise(u, dead, slots).unit.tree, u.tree)
  {
    PickLiveTakes(u, dead);
    PickLiveFirst(u, dead);
  }

  /** Who leaves the tree is dead, granted or lost; and who is lost has left it. */
  ghost predicate Leaves(tree: seq<Waiter>, dead: set<nat>, r: Raised, t: nat) {
    && (t in Tasks(tree) ==> t in Tasks(r.unit.tree) || t in dead || t in r.granted || t == r.lost)
    && (r.lost != 0 ==> r.lost in Tasks(tree) && r.lost !in Tasks(r.unit.tree))
  }

  lemma {:induction false} RaiseLeaves(u: Unit, dead: set<nat>, slots: int, all: Raised, t: nat)
    requires Distinct(u.tree) && all == Raise(u, dead, slots)
    ensures Leaves(u.tree, dead, all, t)
    decreases slots
  {
    hide WithOneMore, PickLive;
    if slots > 0 {
      if LiveTasks(u.tree, dead) != [] && u.count <= u.maxcount {
        var v, r, next := NextTurn(u, dead, slots);
        NextLeaves(u, dead, v, next, t);
        RaiseLeaves(v, dead, slots - 1, r, t);
        SuffixTasks(v.tree, u.tree);
      } else {
        LastLeaves(u, dead, slots, t);
      }
    }
  }

  lemma NextLeaves(u: Unit, dead: set<nat>, v: Unit, next: nat, t: nat)
    requires v == WithOneMore(u, dead) && next == PickLive(u, dead).next
    ensures t in Tasks(u.tree) ==> t in Tasks(v.tree) || t in dead || t == next
  {
    if t in Tasks(u.tree) {
      PickLiveLeaves(u, dead, t);
    }
  }

  lemma LastLeaves(u: Unit, dead: set<nat>, slots: int, t: nat)
    requires Distinct(u.tree) && slots > 0 && (LiveTasks(u.tree, dead) == [] || u.count > u.maxcount)
    ensures Leaves(u.tree, dead, Raise(u, dead, slots), t)
  {
    if t in Tasks(u.tree) {
      PickLiveLeaves(u, dead, t);
    }
    PickLiveTakes(u, dead);
    PickLiveFirst(u, dead);
  }

  /** The live tasks are those of the tree that are not dead. */
  lemma {:induction false} LiveTasksAre(tree: seq<Waiter>, dead: set<nat>, t: nat)
    ensures t in LiveTasks(tree, dead) <==> t in Tasks(tree) && t !in dead
  {
    if tree != [] {
      LiveTasksAre(tree[1..], dead, t);
      assert tree == [tree[0]] + tree[1..];
      assert t in Tasks(tree) <==> t == tree[0].task || t in Tasks(tree[1..]) by {
        assert tree[0] in tree;
        forall w | w in tree[1..] ensures w in tree {}
      }
    }
  }

  /** No live waiter is dropped, nothing is granted beyond the capacity, and no slot stays idle. */
  ghost predicate RaiseWorks(u: Unit, dead: set<nat>, m: int) {
    var r := SetCapacity(u, dead, m);
    && r.lost == 0
    && (r.granted != [] ==> r.unit.count <= m)
    && (r.unit.tree != [] ==> r.unit.count >= m)
  }

  lemma RaiseWorksIfGood(u: Unit, dead: set<nat>, m: int, r: Raised)
    requires Distinct(u.tree) && (u.tree != [] ==> u.count >= u.maxcount) && RaiseGood(u, dead, m)
    requires r == SetCapacity(u, dead, m)
    ensures r.lost == 0
    ensures r.granted != [] ==> r.unit.count <= m
    ensures r.unit.tree != [] ==> r.unit.count >= m
  {
    hide Raise, LiveTasks, Left, Distinct, Suffix;
    var v := u.(maxcount := m);
    RaiseShape(v, dead, m - u.maxcount, r);
    if m > u.maxcount {
      LeftIsSuffix(u.tree, dead, m - u.maxcount);
      RaiseWakes(v, dead, m - u.maxcount, LiveTasks(u.tree, dead), r);
    }
  }

  /** Exactly when a change of capacity works, for every unit in which no slot is idle while someone waits. */
  lemma RaiseExact(u: Unit, dead: set<nat>, m: int)
    requires Distinct(u.tree) && (u.tree != [] ==> u.count >= u.maxcount)
    ensures RaiseWorks(u, dead, m) <==> RaiseGood(u, dead, m)
  {
    if RaiseGood(u, dead, m) {
      RaiseWorksIfGood(u, dead, m, SetCapacity(u, dead, m));
    } else {
      RaiseFails(u.(maxcount := m), dead, m - u.maxcount, LiveTasks(u.tree, dead));
    }
  }
}
