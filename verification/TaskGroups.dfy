/**
 * The walk over the tree of task groups: a machine of jumps without a stack, against the recursive
 * traversal.
 */
module TaskGroups {
  import opened Collections

  datatype Tree = Tree(id: int, children: seq<Tree>)

  /** A group as the kernel links it. */
  datatype Group = Group(parent: Option<int>, children: seq<int>)

  type Hierarchy = map<int, Group>

  /** A visitor: called on a group with the data, it may change the data, and non-zero stops the walk. */
  type Visitor<!D> = (int, D) -> (D, int)

  function Ids(t: Tree): set<int> {
    {t.id} + AllIds(t.children)
  }

  function AllIds(ts: seq<Tree>): set<int> {
    if ts == [] then {} else Ids(ts[0]) + AllIds(ts[1..])
  }

  function Roots(ts: seq<Tree>): (r: seq<int>)
    ensures |r| == |ts|
  {
    seq(|ts|, i requires 0 <= i < |ts| => ts[i].id)
  }

  /** The linked groups are this tree, below this parent. */
  ghost predicate Links(h: Hierarchy, t: Tree, parent: Option<int>) {
    && t.id in h && h[t.id] == Group(parent, Roots(t.children))
    && (forall i, j :: 0 <= i < j < |t.children| ==> t.children[i].id != t.children[j].id)
    && forall i :: 0 <= i < |t.children| ==> Links(h, t.children[i], Some(t.id))
  }

  // The recursive traversal.

  function Walk<D>(down: Visitor<D>, up: Visitor<D>, t: Tree, data: D): (D, int)
    decreases t, 1
  {
    var d := down(t.id, data);
    if d.1 != 0 then d
    else
      var c := WalkAll(down, up, t.children, d.0);
      if c.1 != 0 then c else up(t.id, c.0)
  }

  function WalkAll<D>(down: Visitor<D>, up: Visitor<D>, ts: seq<Tree>, data: D): (D, int)
    decreases ts, 0
  {
    if ts == [] then (data, 0)
    else
      var f := Walk(down, up, ts[0], data);
      if f.1 != 0 then f else WalkAll(down, up, ts[1..], f.0)
  }

  // What the traversal visits.

  datatype Visit = Enter(id: int) | Leave(id: int)

  /** Every group on the way down, then its children in order, then the group on the way up. */
  ghost function Tour(t: Tree): seq<Visit>
    decreases t, 1
  {
    [Enter(t.id)] + TourAll(t.children) + [Leave(t.id)]
  }

  ghost function TourAll(ts: seq<Tree>): seq<Visit>
    decreases ts, 0
  {
    if ts == [] then [] else Tour(ts[0]) + TourAll(ts[1..])
  }

  /** The visitors that write down their calls, and stop at the visit `last` with the value `code`. */
  function RecordDown(last: Visit, code: int): Visitor<seq<Visit>> {
    (g, seen: seq<Visit>) => (seen + [Enter(g)], if Enter(g) == last then code else 0)
  }

  function RecordUp(last: Visit, code: int): Visitor<seq<Visit>> {
    (g, seen: seq<Visit>) => (seen + [Leave(g)], if Leave(g) == last then code else 0)
  }

  /** The calls up to the first one that stops the walk. */
  ghost function Until(visits: seq<Visit>, last: Visit): seq<Visit> {
    if visits == [] then [] else if visits[0] == last then [last] else [visits[0]] + Until(visits[1..], last)
  }

  ghost predicate Ran(r: (seq<Visit>, int), before: seq<Visit>, visits: seq<Visit>, last: Visit, code: int) {
    r == (before + Until(visits, last), if last in visits then code else 0)
  }

  lemma {:induction false} UntilBoth(a: seq<Visit>, b: seq<Visit>, last: Visit)
    ensures Until(a + b, last) == if last in a then Until(a, last) else a + Until(b, last)
    ensures last !in a ==> Until(a, last) == a
  {
    if a == [] {
      assert a + b == b;
    } else {
      assert (a + b)[1..] == a[1..] + b;
      UntilBoth(a[1..], b, last);
      assert last in a <==> last == a[0] || last in a[1..];
    }
  }

  /** One part of the walk after another. */
  lemma RanBoth(r: (seq<Visit>, int), r2: (seq<Visit>, int), before: seq<Visit>, a: seq<Visit>, b: seq<Visit>, last: Visit, code: int)
    requires Ran(r, before, a, last, code) && code != 0
    requires r.1 == 0 ==> Ran(r2, r.0, b, last, code)
    ensures Ran(if r.1 != 0 then r else r2, before, a + b, last, code)
  {
    UntilBoth(a, b, last);
    if r.1 == 0 {
      assert (before + a) + Until(b, last) == before + (a + Until(b, last));
    }
  }

  lemma RanOne(before: seq<Visit>, v: Visit, last: Visit, code: int)
    ensures Ran((before + [v], if v == last then code else 0), before, [v], last, code)
  {
    assert [v][1..] == [];
    assert [v] + [] == [v];
  }

  /** The traversal makes the calls of the tour, in its order, up to and including the first that returns non-zero. */
  lemma {:induction false} WalkIsTour(t: Tree, before: seq<Visit>, last: Visit, code: int)
    requires code != 0
    ensures Ran(Walk(RecordDown(last, code), RecordUp(last, code), t, before), before, Tour(t), last, code)
    decreases t, 1
  {
    hide Ran;
    var down, up := RecordDown(last, code), RecordUp(last, code);
    var d := down(t.id, before);
    RanOne(before, Enter(t.id), last, code);
    WalkAllIsTour(t.children, d.0, last, code);
    var c := WalkAll(down, up, t.children, d.0);
    var dc := if d.1 != 0 then d else c;
    RanBoth(d, c, before, [Enter(t.id)], TourAll(t.children), last, code);
    var u := up(t.id, dc.0);
    RanOne(dc.0, Leave(t.id), last, code);
    RanBoth(dc, u, before, [Enter(t.id)] + TourAll(t.children), [Leave(t.id)], last, code);
  }

  lemma {:induction false} WalkAllIsTour(ts: seq<Tree>, before: seq<Visit>, last: Visit, code: int)
    requires code != 0
    ensures Ran(WalkAll(RecordDown(last, code), RecordUp(last, code), ts, before), before, TourAll(ts), last, code)
    decreases ts, 0
  {
    var down, up := RecordDown(last, code), RecordUp(last, code);
    if ts == [] {
      assert before + [] == before;
    } else {
      hide Ran;
      var f := Walk(down, up, ts[0], before);
      WalkIsTour(ts[0], before, last, code);
      WalkAllIsTour(ts[1..], f.0, last, code);
      RanBoth(f, WalkAll(down, up, ts[1..], f.0), before, Tour(ts[0]), TourAll(ts[1..]), last, code);
    }
  }

  // What is left to do, seen from the middle of the walk.

  /** A group whose children before `next` are done. */
  datatype Frame = Frame(tree: Tree, next: nat)

  /** The rest of one group: its remaining children, then the way up. */
  function Finish<D>(down: Visitor<D>, up: Visitor<D>, f: Frame, data: D): (D, int)
    requires f.next <= |f.tree.children|
  {
    var c := WalkAll(down, up, f.tree.children[f.next..], data);
    if c.1 != 0 then c else up(f.tree.id, c.0)
  }

  /** The rest of the walk after the innermost group, innermost frame first. */
  function Resume<D>(down: Visitor<D>, up: Visitor<D>, stack: seq<Frame>, done: (D, int)): (D, int)
    requires forall i :: 0 <= i < |stack| ==> stack[i].next <= |stack[i].tree.children|
    decreases |stack|
  {
    if done.1 != 0 || stack == [] then done
    else Resume(down, up, stack[1..], Finish(down, up, stack[0], done.0))
  }

  function Size(t: Tree): (n: nat)
    ensures n > 0
    decreases t, 1
  {
    1 + SizeAll(t.children)
  }

  function SizeAll(ts: seq<Tree>): nat
    decreases ts, 0
  {
    if ts == [] then 0 else Size(ts[0]) + SizeAll(ts[1..])
  }

  function Work(stack: seq<Frame>): nat
    requires forall i :: 0 <= i < |stack| ==> stack[i].next <= |stack[i].tree.children|
  {
    if stack == [] then 0
    else 3 * SizeAll(stack[0].tree.children[stack[0].next..]) + 1 + Work(stack[1..])
  }

  /** The frames are the ancestors of group t, each waiting behind the child on the path. */
  ghost predicate Path(h: Hierarchy, t: Tree, stack: seq<Frame>)
    decreases |stack|
  {
    if stack == [] then Links(h, t, None)
    else
      && Links(h, t, Some(stack[0].tree.id))
      && 0 < stack[0].next <= |stack[0].tree.children| && stack[0].tree.children[stack[0].next - 1] == t
      && Path(h, stack[0].tree, stack[1..])
  }

  lemma {:induction false} PathFrames(h: Hierarchy, t: Tree, stack: seq<Frame>)
    requires Path(h, t, stack)
    ensures forall i :: 0 <= i < |stack| ==> stack[i].next <= |stack[i].tree.children|
    decreases |stack|
  {
    if stack != [] {
      PathFrames(h, stack[0].tree, stack[1..]);
      assert forall i :: 1 <= i < |stack| ==> stack[i] == stack[1..][i - 1];
    }
  }

  // The machine.

  /** The list position behind a child; the children of a group are distinct. */
  function IndexOf(children: seq<int>, child: int): (i: nat)
    requires child in children
    ensures i < |children| && children[i] == child
  {
    if children[0] == child then 0 else IndexOf(children[1..], child) + 1
  }

  /** Where control stands: about to enter `parent`, or at the test of its child loop. */
  datatype Label = Down | Test

  /** The walk from the root. Returns the data and the value that ended it. */
  method WalkTgTree<D>(h: Hierarchy, root: int, down: Visitor<D>, up: Visitor<D>, data: D, ghost t: Tree)
    returns (result: D, ret: int)
    requires Links(h, t, None) && root == t.id
    ensures (result, ret) == Walk(down, up, t, data)
  {
    result, ret := data, 0;
    var parent, at := root, Down;
    // The child the loop is at: a position in the list of `parent`.
    var child: nat := 0;
    ghost var here := t;
    ghost var stack: seq<Frame> := [];
    ghost var all := Walk(down, up, t, data);
    assert Path(h, t, []) && Resume(down, up, stack, all) == all;
    hide Links, Path, Walk, Finish, Resume, Work, Size, SizeAll, IndexOf;
    while true
      invariant Path(h, here, stack) && parent == here.id && ret == 0
      invariant forall i :: 0 <= i < |stack| ==> stack[i].next <= |stack[i].tree.children|
      invariant at == Down ==> all == Resume(down, up, stack, Walk(down, up, here, result))
      invariant at == Test ==> child <= |here.children|
                               && all == Resume(down, up, stack, Finish(down, up, Frame(here, child), result))
      decreases (if at == Down then 3 * Size(here) else 3 * SizeAll(here.children[child..]) + 2) + Work(stack)
    {
      PathLinks(h, here, stack);
      if at == Down {
        EnterGroup(down, up, here, stack, result);
        var d := down(parent, result);
        result, ret := d.0, d.1;
        if ret != 0 {
          return;
        }
        child, at := 0, Test;
      } else if child < |h[parent].children| {
        EnterChild(h, here, child, stack);
        ChildNext(down, up, here, child, stack, result);
        stack := [Frame(here, child + 1)] + stack;
        here := here.children[child];
        parent, at := h[parent].children[child], Down;
      } else {
        LeaveGroup(down, up, here, stack, result);
        var u := up(parent, result);
        result, ret := u.0, u.1;
        if ret != 0 || h[parent].parent.None? {
          return;
        }
        var was := parent;
        parent := h[parent].parent.value;
        ghost var top := stack[0];
        PathLinks(h, top.tree, stack[1..]);
        IndexUnique(Roots(top.tree.children), was, top.next - 1);
        child := IndexOf(h[parent].children, was) + 1;
        here, stack := top.tree, stack[1..];
      }
    }
  }

  /** The way down: an early exit, or on to the child loop. */
  lemma EnterGroup<D>(down: Visitor<D>, up: Visitor<D>, t: Tree, stack: seq<Frame>, data: D)
    requires forall i :: 0 <= i < |stack| ==> stack[i].next <= |stack[i].tree.children|
    ensures var d := down(t.id, data);
            Resume(down, up, stack, Walk(down, up, t, data)) ==
            if d.1 != 0 then d else Resume(down, up, stack, Finish(down, up, Frame(t, 0), d.0))
    ensures t.children[0..] == t.children && 3 * Size(t) > 3 * SizeAll(t.children[0..]) + 2
  {
    assert t.children[0..] == t.children;
  }

  /** The way up: an early exit, the end, or back to the parent's child loop. */
  lemma LeaveGroup<D>(down: Visitor<D>, up: Visitor<D>, t: Tree, stack: seq<Frame>, data: D)
    requires forall i :: 0 <= i < |stack| ==> stack[i].next <= |stack[i].tree.children|
    ensures var u := up(t.id, data);
            Resume(down, up, stack, Finish(down, up, Frame(t, |t.children|), data)) ==
            if u.1 != 0 || stack == [] then u else Resume(down, up, stack[1..], Finish(down, up, stack[0], u.0))
    ensures stack != [] ==> Work(stack) == 3 * SizeAll(stack[0].tree.children[stack[0].next..]) + 1 + Work(stack[1..])
    ensures SizeAll(t.children[|t.children|..]) == 0
  {
    assert t.children[|t.children|..] == [];
  }

  lemma PathLinks(h: Hierarchy, t: Tree, stack: seq<Frame>)
    requires Path(h, t, stack)
    ensures t.id in h && h[t.id] == Group(if stack == [] then None else Some(stack[0].tree.id), Roots(t.children))
    ensures stack != [] ==> Path(h, stack[0].tree, stack[1..]) && 0 < stack[0].next <= |stack[0].tree.children|
                            && stack[0].tree.children[stack[0].next - 1] == t
    ensures forall i, j :: 0 <= i < j < |t.children| ==> t.children[i].id != t.children[j].id
  {
  }

  lemma EnterChild(h: Hierarchy, t: Tree, k: nat, stack: seq<Frame>)
    requires Path(h, t, stack) && k < |t.children|
    ensures Path(h, t.children[k], [Frame(t, k + 1)] + stack)
  {
    assert ([Frame(t, k + 1)] + stack)[1..] == stack;
  }

  lemma ChildNext<D>(down: Visitor<D>, up: Visitor<D>, t: Tree, k: nat, stack: seq<Frame>, data: D)
    requires k < |t.children| && forall i :: 0 <= i < |stack| ==> stack[i].next <= |stack[i].tree.children|
    ensures var deeper := [Frame(t, k + 1)] + stack;
            && (forall i :: 0 <= i < |deeper| ==> deeper[i].next <= |deeper[i].tree.children|)
            && Resume(down, up, stack, Finish(down, up, Frame(t, k), data)) ==
               Resume(down, up, deeper, Walk(down, up, t.children[k], data))
            && Work(deeper) == 3 * SizeAll(t.children[k + 1..]) + 1 + Work(stack)
            && SizeAll(t.children[k..]) == Size(t.children[k]) + SizeAll(t.children[k + 1..])
  {
    var deeper := [Frame(t, k + 1)] + stack;
    assert deeper[1..] == stack;
    assert t.children[k..][1..] == t.children[k + 1..];
  }

  lemma {:induction false} IndexUnique(children: seq<int>, child: int, i: nat)
    requires i < |children| && children[i] == child
    requires forall j, k :: 0 <= j < k < |children| ==> children[j] != children[k]
    ensures IndexOf(children, child) == i
  {
    if i > 0 {
      IndexUnique(children[1..], child, i - 1);
    }
  }
}
