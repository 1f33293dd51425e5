/** Real-time bandwidth: the admission check over the tree of task groups. */
module RtAdmission {
  import Arith
  import opened Collections
  import opened TaskGroups

  const TWO_TO_64: nat := 0x1_0000_0000_0000_0000
  const RUNTIME_INF: nat := TWO_TO_64 - 1
  /** The ratio of a group that may run all the time. */
  const FULL: nat := 0x10_0000

  const EINVAL: int := 22
  const EBUSY: int := 16

  /** Nanoseconds of runtime in each period. */
  datatype Bandwidth = Bandwidth(period: nat, runtime: nat)

  /** The settings, and the change that is to be admitted: group `changed` would get `wanted`. */
  datatype Context = Context(bands: int -> Bandwidth, rtTasks: set<int>, overall: Bandwidth, enabled: bool,
                             changed: int, wanted: Bandwidth)

  function Band(c: Context, g: int): Bandwidth {
    if g == c.changed then c.wanted else c.bands(g)
  }

  /** The shift wraps at 64 bits. */
  function ToRatio(b: Bandwidth): nat
    requires b.period > 0
  {
    if b.runtime == RUNTIME_INF then FULL else b.runtime * FULL % TWO_TO_64 / b.period
  }

  /** Values of 64-bit words, and no period is zero. */
  ghost predicate Sane(c: Context) {
    && (forall g :: 0 < Band(c, g).period < TWO_TO_64 && Band(c, g).runtime < TWO_TO_64)
    && 0 < c.overall.period < TWO_TO_64 && c.overall.runtime < TWO_TO_64
  }

  function Ratio(c: Context, g: int): nat
    requires Sane(c)
  {
    ToRatio(Band(c, g))
  }

  /** The children's ratios, added in 64-bit words. */
  function SumRatios(c: Context, children: seq<int>): nat
    requires Sane(c)
  {
    if children == [] then 0
    else (SumRatios(c, children[..|children| - 1]) + Ratio(c, children[|children| - 1])) % TWO_TO_64
  }

  /** The value the check returns for one group. */
  function Check(c: Context, h: Hierarchy, g: int): int
    requires Sane(c)
  {
    var b := Band(c, g);
    if b.runtime > b.period && b.runtime != RUNTIME_INF then -EINVAL
    else if c.enabled && b.runtime == 0 && g in c.rtTasks then -EBUSY
    else if ToRatio(b) > ToRatio(c.overall) then -EINVAL
    else if g in h && SumRatios(c, h[g].children) > ToRatio(b) then -EINVAL
    else 0
  }

  method TgSchedulable(c: Context, h: Hierarchy, g: int) returns (ret: int)
    requires Sane(c) && g in h
    ensures ret == Check(c, h, g)
    ensures ret == 0 || ret == -16 || ret == -22
    ensures ret == -16 <==> Starves(c, g)
    ensures ret == 0 <==> !Starves(c, g) && Fits(c, h, g)
  {
    CheckIs(c, h, g);
    var b := Band(c, g);
    if b.runtime > b.period && b.runtime != RUNTIME_INF {
      return -EINVAL;
    }
    if c.enabled && b.runtime == 0 && g in c.rtTasks {
      return -EBUSY;
    }
    var total := ToRatio(b);
    if total > ToRatio(c.overall) {
      return -EINVAL;
    }
    var sum := 0;
    var children := h[g].children;
    for i := 0 to |children|
      invariant sum == SumRatios(c, children[..i])
    {
      assert children[..i + 1][..i] == children[..i];
      sum := (sum + ToRatio(Band(c, children[i]))) % TWO_TO_64;
    }
    assert children[..|children|] == children;
    ret := if sum > total then -EINVAL else 0;
  }

  // The check in terms of the settings.

  /** The period and the runtime that group g would have. */
  ghost predicate Gets(c: Context, g: int, period: nat, runtime: nat) {
    if g == c.changed then period == c.wanted.period && runtime == c.wanted.runtime
    else period == c.bands(g).period && runtime == c.bands(g).runtime
  }

  /**
   * r is the ratio of a runtime and a period, as a fraction of 2^20: everything for the unlimited runtime,
   * else the quotient of what the shift leaves in 64 bits.
   */
  ghost predicate IsRatio(period: nat, runtime: nat, r: nat) {
    if runtime == 0xFFFF_FFFF_FFFF_FFFF then r == 1_048_576
    else r * period <= runtime * 1_048_576 % 0x1_0000_0000_0000_0000 < (r + 1) * period
  }

  /** Real-time tasks of the group would be left without runtime. */
  ghost predicate Starves(c: Context, g: int) {
    c.enabled && g in c.rtTasks && exists period: nat :: Gets(c, g, period, 0)
  }

  ghost predicate RatiosOf(c: Context, groups: seq<int>, rs: seq<nat>) {
    |rs| == |groups| && forall i :: 0 <= i < |rs| ==> IsRatioOf(c, groups[i], rs[i])
  }

  ghost predicate IsRatioOf(c: Context, g: int, r: nat) {
    exists period, runtime :: Gets(c, g, period, runtime) && IsRatio(period, runtime, r)
  }

  ghost function Total(rs: seq<nat>): nat {
    if rs == [] then 0 else rs[0] + Total(rs[1..])
  }

  /**
   * The group has at most its period, or no limit; its ratio is at most the global one, and the sum of its
   * children's ratios, as a 64-bit word, at most its own.
   */
  ghost predicate Fits(c: Context, h: Hierarchy, g: int) {
    exists period: nat, runtime: nat, r: nat, all: nat, rs: seq<nat> ::
      && Gets(c, g, period, runtime) && (runtime <= period || runtime == 0xFFFF_FFFF_FFFF_FFFF)
      && IsRatio(period, runtime, r) && IsRatio(c.overall.period, c.overall.runtime, all) && r <= all
      && (g in h ==> RatiosOf(c, h[g].children, rs) && Total(rs) % 0x1_0000_0000_0000_0000 <= r)
  }

  /** The computed ratio is the only one. */
  lemma RatioIs(b: Bandwidth, r: nat)
    requires b.period > 0
    ensures IsRatio(b.period, b.runtime, r) <==> r == ToRatio(b)
  {
    if b.runtime != 0xFFFF_FFFF_FFFF_FFFF {
      var x := b.runtime * 1_048_576 % 0x1_0000_0000_0000_0000;
      Arith.DivMod(x, b.period);
      assert ToRatio(b) * b.period == b.period * (x / b.period);
      assert (ToRatio(b) + 1) * b.period == b.period * (x / b.period) + b.period;
      if IsRatio(b.period, b.runtime, r) {
        assert r * b.period == b.period * r && (r + 1) * b.period == b.period * r + b.period;
        Arith.DivIs(x, b.period, r);
      }
    }
  }

  /** A group without a limit counts in full, whatever its period. */
  lemma UnlimitedIsFull(period: nat)
    requires period > 0
    ensures ToRatio(Bandwidth(period, 0xFFFF_FFFF_FFFF_FFFF)) == 0x10_0000
  {
    RatioIs(Bandwidth(period, 0xFFFF_FFFF_FFFF_FFFF), 1_048_576);
  }

  lemma RatioOfIs(c: Context, g: int, r: nat)
    requires Sane(c)
    ensures IsRatioOf(c, g, r) <==> r == Ratio(c, g)
  {
    var b := Band(c, g);
    assert Gets(c, g, b.period, b.runtime);
    RatioIs(b, r);
  }

  lemma {:induction false} TotalLast(rs: seq<nat>)
    requires rs != []
    ensures Total(rs) == Total(rs[..|rs| - 1]) + rs[|rs| - 1]
  {
    if |rs| > 1 {
      TotalLast(rs[1..]);
      assert rs[1..][..|rs| - 2] == rs[..|rs| - 1][1..];
    }
  }

  /** The word that the loop adds up is the sum of the ratios in 64 bits. */
  lemma {:induction false} SumIs(c: Context, groups: seq<int>, rs: seq<nat>)
    requires Sane(c) && RatiosOf(c, groups, rs)
    ensures SumRatios(c, groups) == Total(rs) % 0x1_0000_0000_0000_0000
  {
    if groups != [] {
      var l := |groups| - 1;
      assert RatiosOf(c, groups[..l], rs[..l]) by {
        assert forall i :: 0 <= i < l ==> IsRatioOf(c, groups[i], rs[i]);
      }
      SumIs(c, groups[..l], rs[..l]);
      TotalLast(rs);
      assert IsRatioOf(c, groups[l], rs[l]);
      RatioOfIs(c, groups[l], rs[l]);
      AddWrapped(Total(rs[..l]), rs[l]);
    }
  }

  lemma AddWrapped(a: nat, b: nat)
    ensures (a % TWO_TO_64 + b) % TWO_TO_64 == (a + b) % TWO_TO_64
  {
  }

  lemma HasRatios(c: Context, groups: seq<int>) returns (rs: seq<nat>)
    requires Sane(c)
    ensures RatiosOf(c, groups, rs)
  {
    rs := seq(|groups|, i requires 0 <= i < |groups| => Ratio(c, groups[i]));
    forall i | 0 <= i < |rs| ensures IsRatioOf(c, groups[i], rs[i]) {
      RatioOfIs(c, groups[i], rs[i]);
    }
  }

  /** The value for one group, from the settings alone. */
  lemma CheckIs(c: Context, h: Hierarchy, g: int)
    requires Sane(c)
    ensures Check(c, h, g) == 0 || Check(c, h, g) == -16 || Check(c, h, g) == -22
    ensures Check(c, h, g) == -16 <==> Starves(c, g)
    ensures Check(c, h, g) == 0 <==> !Starves(c, g) && Fits(c, h, g)
  {
    FitsIs(c, h, g);
    assert Gets(c, g, Band(c, g).period, Band(c, g).runtime);
  }

  lemma FitsIs(c: Context, h: Hierarchy, g: int)
    requires Sane(c)
    ensures var b := Band(c, g);
            Fits(c, h, g) <==>
              && (b.runtime <= b.period || b.runtime == RUNTIME_INF) && ToRatio(b) <= ToRatio(c.overall)
              && (g in h ==> SumRatios(c, h[g].children) <= ToRatio(b))
  {
    hide ToRatio, SumRatios, IsRatio, RatiosOf, Total;
    var b := Band(c, g);
    RatioIs(b, ToRatio(b));
    RatioIs(c.overall, ToRatio(c.overall));
    var kids := if g in h then h[g].children else [];
    var rs := HasRatios(c, kids);
    SumIs(c, kids, rs);
    assert Gets(c, g, b.period, b.runtime);
    if Fits(c, h, g) {
      var period: nat, runtime: nat, r: nat, all: nat, ts: seq<nat> :|
        && Gets(c, g, period, runtime) && (runtime <= period || runtime == 0xFFFF_FFFF_FFFF_FFFF)
        && IsRatio(period, runtime, r) && IsRatio(c.overall.period, c.overall.runtime, all) && r <= all
        && (g in h ==> RatiosOf(c, h[g].children, ts) && Total(ts) % 0x1_0000_0000_0000_0000 <= r);
      RatioIs(b, r);
      RatioIs(c.overall, all);
      if g in h {
        SumIs(c, kids, ts);
      }
    }
  }

  // What the walk finds.

  /** The visitor on the way down; there is nothing to do on the way up. */
  function Inspector(c: Context, h: Hierarchy): Visitor<()>
    requires Sane(c)
  {
    (g, d) => (d, Check(c, h, g))
  }

  function Nop(): Visitor<()> {
    (g, d) => (d, 0)
  }

  ghost function RtSchedulable(c: Context, h: Hierarchy, t: Tree): int
    requires Sane(c)
  {
    Walk(Inspector(c, h), Nop(), t, ()).1
  }

  /** The admission check as the kernel runs it. */
  method Admit(c: Context, h: Hierarchy, root: int, ghost t: Tree) returns (ret: int)
    requires Sane(c) && Links(h, t, None) && root == t.id
    ensures ret == RtSchedulable(c, h, t)
    ensures ret == 0 <==> forall g :: g in Ids(t) ==> !Starves(c, g) && Fits(c, h, g)
    ensures ret != 0 ==> ret == FirstValue(c, h, TopDown(t)) && (ret == -16 || ret == -22)
  {
    AdmissionIs(c, h, t);
    var data;
    data, ret := WalkTgTree(h, root, Inspector(c, h), Nop(), (), t);
  }

  ghost predicate AllPass(c: Context, h: Hierarchy, ids: set<int>)
    requires Sane(c)
  {
    forall g :: g in ids ==> Check(c, h, g) == 0
  }

  /** The walk succeeds exactly if every group passes, and otherwise returns the value of a group that fails. */
  lemma {:induction false} WalkChecks(c: Context, h: Hierarchy, t: Tree)
    requires Sane(c)
    ensures RtSchedulable(c, h, t) == 0 <==> AllPass(c, h, Ids(t))
    ensures RtSchedulable(c, h, t) != 0 ==> exists g :: g in Ids(t) && Check(c, h, g) == RtSchedulable(c, h, t)
    decreases t, 1
  {
    WalkChecksAll(c, h, t.children);
    if Check(c, h, t.id) != 0 {
      assert t.id in Ids(t);
    }
  }

  lemma {:induction false} WalkChecksAll(c: Context, h: Hierarchy, ts: seq<Tree>)
    requires Sane(c)
    ensures var r := WalkAll(Inspector(c, h), Nop(), ts, ()).1;
            && (r == 0 <==> AllPass(c, h, AllIds(ts)))
            && (r != 0 ==> exists g :: g in AllIds(ts) && Check(c, h, g) == r)
    decreases ts, 0
  {
    if ts != [] {
      WalkChecks(c, h, ts[0]);
      WalkChecksAll(c, h, ts[1..]);
      var f := Walk(Inspector(c, h), Nop(), ts[0], ());
      assert f.0 == ();
      assert forall g :: g in AllIds(ts) <==> g in Ids(ts[0]) || g in AllIds(ts[1..]);
    }
  }

  /** The groups in the order in which the walk comes to them. */
  ghost function TopDown(t: Tree): seq<int>
    decreases t, 1
  {
    [t.id] + TopDownAll(t.children)
  }

  ghost function TopDownAll(ts: seq<Tree>): seq<int>
    decreases ts, 0
  {
    if ts == [] then [] else TopDown(ts[0]) + TopDownAll(ts[1..])
  }

  /** The value of the first group that starves tasks or does not fit, or 0. */
  ghost function FirstValue(c: Context, h: Hierarchy, groups: seq<int>): int {
    if groups == [] then 0
    else if Starves(c, groups[0]) then -16
    else if !Fits(c, h, groups[0]) then -22
    else FirstValue(c, h, groups[1..])
  }

  lemma {:induction false} FirstOfBoth(c: Context, h: Hierarchy, a: seq<int>, b: seq<int>)
    ensures FirstValue(c, h, a + b) == if FirstValue(c, h, a) != 0 then FirstValue(c, h, a) else FirstValue(c, h, b)
  {
    hide Starves, Fits;
    if a == [] {
      assert a + b == b;
    } else {
      assert (a + b)[1..] == a[1..] + b;
      FirstOfBoth(c, h, a[1..], b);
    }
  }

  lemma {:induction false} WalkIsFirst(c: Context, h: Hierarchy, t: Tree)
    requires Sane(c)
    ensures RtSchedulable(c, h, t) == FirstValue(c, h, TopDown(t))
    decreases t, 1
  {
    hide Starves, Fits, Check;
    CheckIs(c, h, t.id);
    WalkAllIsFirst(c, h, t.children);
    assert ([t.id] + TopDownAll(t.children))[1..] == TopDownAll(t.children);
  }

  lemma {:induction false} WalkAllIsFirst(c: Context, h: Hierarchy, ts: seq<Tree>)
    requires Sane(c)
    ensures WalkAll(Inspector(c, h), Nop(), ts, ()).1 == FirstValue(c, h, TopDownAll(ts))
    decreases ts, 0
  {
    hide Starves, Fits, Check;
    if ts != [] {
      WalkIsFirst(c, h, ts[0]);
      WalkAllIsFirst(c, h, ts[1..]);
      FirstOfBoth(c, h, TopDown(ts[0]), TopDownAll(ts[1..]));
      assert Walk(Inspector(c, h), Nop(), ts[0], ()).0 == ();
    }
  }

  /** The admission check from the settings: zero exactly if every group is in order, else the first group's value. */
  lemma AdmissionIs(c: Context, h: Hierarchy, t: Tree)
    requires Sane(c)
    ensures RtSchedulable(c, h, t) == FirstValue(c, h, TopDown(t))
    ensures RtSchedulable(c, h, t) == 0 <==> forall g :: g in Ids(t) ==> !Starves(c, g) && Fits(c, h, g)
    ensures RtSchedulable(c, h, t) == 0 || RtSchedulable(c, h, t) == -16 || RtSchedulable(c, h, t) == -22
  {
    hide Starves, Fits, Check;
    WalkIsFirst(c, h, t);
    WalkChecks(c, h, t);
    forall g ensures Check(c, h, g) == 0 <==> !Starves(c, g) && Fits(c, h, g) {
      CheckIs(c, h, g);
    }
    if RtSchedulable(c, h, t) != 0 {
      var g :| g in Ids(t) && Check(c, h, g) == RtSchedulable(c, h, t);
      CheckIs(c, h, g);
    }
  }

  // Antichains.

  /** No group of the set is above another. */
  predicate Antichain(a: set<int>, t: Tree)
    decreases t, 1
  {
    (t.id in a ==> AllIds(t.children) !! a) && Antichains(a, t.children)
  }

  predicate Antichains(a: set<int>, ts: seq<Tree>)
    decreases ts, 0
  {
    ts == [] || (Antichain(a, ts[0]) && Antichains(a, ts[1..]))
  }

  /** The ratios of the groups of the set, added up over the tree. */
  ghost function Weight(c: Context, a: set<int>, t: Tree): nat
    requires Sane(c)
    decreases t, 1
  {
    (if t.id in a then Ratio(c, t.id) else 0) + Weights(c, a, t.children)
  }

  ghost function Weights(c: Context, a: set<int>, ts: seq<Tree>): nat
    requires Sane(c)
    decreases ts, 0
  {
    if ts == [] then 0 else Weight(c, a, ts[0]) + Weights(c, a, ts[1..])
  }

  /** Few enough children that their ratios cannot wrap: less than 2^44 of them. */
  predicate Narrow(t: Tree)
    decreases t, 1
  {
    |t.children| < 0x1000_0000_0000 && Narrows(t.children)
  }

  predicate Narrows(ts: seq<Tree>)
    decreases ts, 0
  {
    ts == [] || (Narrow(ts[0]) && Narrows(ts[1..]))
  }

  ghost function ExactSum(c: Context, children: seq<int>): nat
    requires Sane(c)
  {
    if children == [] then 0
    else ExactSum(c, children[..|children| - 1]) + Ratio(c, children[|children| - 1])
  }

  /** A runtime within the period gives at most the full ratio, even when the shift wraps. */
  lemma RatioBounded(b: Bandwidth)
    requires 0 < b.period < TWO_TO_64 && b.runtime < TWO_TO_64
    requires b.runtime <= b.period || b.runtime == RUNTIME_INF
    ensures ToRatio(b) <= FULL
  {
    if b.runtime != RUNTIME_INF {
      var x := b.runtime * FULL % TWO_TO_64;
      Arith.MulMono(FULL, b.runtime, b.period);
      Arith.DivMod(x, b.period);
      if x / b.period > FULL {
        Arith.MulMono(b.period, FULL + 1, x / b.period);
        Arith.Distribute(b.period, FULL, 1);
        if b.runtime * FULL < TWO_TO_64 {
          Arith.DivIs(b.runtime * FULL, TWO_TO_64, 0);
        }
      }
    }
  }

  /** The word sum of bounded ratios is the exact sum. */
  lemma {:induction false} SumExact(c: Context, children: seq<int>)
    requires Sane(c) && |children| < 0x1000_0000_0000
    requires forall i :: 0 <= i < |children| ==> Ratio(c, children[i]) <= FULL
    ensures SumRatios(c, children) == ExactSum(c, children) <= FULL * |children|
  {
    if children != [] {
      var front := children[..|children| - 1];
      SumExact(c, front);
      Arith.Distribute(FULL, |front|, 1);
      Arith.DivIs(ExactSum(c, front) + Ratio(c, children[|children| - 1]), TWO_TO_64, 0);
    }
  }

  lemma PassBounded(c: Context, h: Hierarchy, g: int)
    requires Sane(c) && Check(c, h, g) == 0
    ensures Ratio(c, g) <= FULL && Ratio(c, g) <= ToRatio(c.overall)
  {
    RatioBounded(Band(c, g));
  }

  lemma {:induction false} RootsListed(ts: seq<Tree>, i: nat)
    requires i < |ts|
    ensures Roots(ts)[i] in AllIds(ts)
  {
    if i > 0 {
      RootsListed(ts[1..], i - 1);
    }
  }

  lemma {:induction false} ExactSumFirst(c: Context, x: int, rest: seq<int>)
    requires Sane(c)
    ensures ExactSum(c, [x] + rest) == Ratio(c, x) + ExactSum(c, rest)
  {
    var all := [x] + rest;
    if rest == [] {
      assert all[..0] == [];
    } else {
      var front := rest[..|rest| - 1];
      assert all[..|all| - 1] == [x] + front && all[|all| - 1] == rest[|rest| - 1];
      ExactSumFirst(c, x, front);
    }
  }

  lemma {:induction false} WeightNone(c: Context, a: set<int>, ts: seq<Tree>)
    requires Sane(c) && AllIds(ts) !! a
    ensures Weights(c, a, ts) == 0
    decreases ts
  {
    if ts != [] {
      assert ts[0].id in Ids(ts[0]);
      WeightNone(c, a, ts[0].children);
      WeightNone(c, a, ts[1..]);
    }
  }

  /** If every group passes, an antichain weighs at most what the top group has. */
  lemma {:induction false} AntichainFits(c: Context, h: Hierarchy, t: Tree, parent: Option<int>, a: set<int>)
    requires Sane(c) && Links(h, t, parent) && Narrow(t) && AllPass(c, h, Ids(t)) && Antichain(a, t)
    ensures Weight(c, a, t) <= Ratio(c, t.id)
    decreases t, 1
  {
    assert Check(c, h, t.id) == 0;
    if t.id in a {
      WeightNone(c, a, t.children);
    } else {
      AntichainsFit(c, h, t.children, t.id, a);
      var children := Roots(t.children);
      forall i | 0 <= i < |children| ensures Ratio(c, children[i]) <= FULL {
        RootsListed(t.children, i);
        PassBounded(c, h, children[i]);
      }
      SumExact(c, children);
    }
  }

  lemma {:induction false} AntichainsFit(c: Context, h: Hierarchy, ts: seq<Tree>, parent: int, a: set<int>)
    requires Sane(c) && (forall i :: 0 <= i < |ts| ==> Links(h, ts[i], Some(parent)))
    requires Narrows(ts) && AllPass(c, h, AllIds(ts)) && Antichains(a, ts)
    ensures Weights(c, a, ts) <= ExactSum(c, Roots(ts))
    decreases ts, 0
  {
    if ts != [] {
      AntichainFits(c, h, ts[0], Some(parent), a);
      AntichainsFit(c, h, ts[1..], parent, a);
      assert Roots(ts) == [ts[0].id] + Roots(ts[1..]);
      ExactSumFirst(c, ts[0].id, Roots(ts[1..]));
    }
  }

  /**
   * Main theorem: when the admission check returns 0, the ratios of groups none of which is above another sum
   * to at most the root's ratio, and that is at most the global one.
   */
  lemma AdmissionBounds(c: Context, h: Hierarchy, t: Tree, a: set<int>)
    requires Sane(c) && Links(h, t, None) && Narrow(t) && Antichain(a, t)
    requires RtSchedulable(c, h, t) == 0
    ensures Weight(c, a, t) <= Ratio(c, t.id) <= ToRatio(c.overall)
  {
    WalkChecks(c, h, t);
    AntichainFits(c, h, t, None, a);
    assert t.id in Ids(t);
    PassBounded(c, h, t.id);
  }

  // The ratio itself.

  /** The computed ratio is the true one exactly for runtimes below 2^44 nanoseconds. */
  lemma RatioExact(b: Bandwidth)
    requires 0 < b.period < TWO_TO_64 && b.runtime < RUNTIME_INF
    ensures ToRatio(b) == b.runtime * FULL / b.period <==> b.runtime < 0x1000_0000_0000
  {
    var x := b.runtime * FULL;
    Arith.DivMod(x, TWO_TO_64);
    if b.runtime < 0x1000_0000_0000 {
      Arith.DivIs(x, TWO_TO_64, 0);
    } else {
      var r := x % TWO_TO_64;
      Arith.DivMod(r, b.period);
      Arith.DivMod(x, b.period);
      if x / b.period <= r / b.period {
        Arith.MulMono(b.period, x / b.period, r / b.period);
      }
    }
  }

  /** A group that may run through all of a period of 2^44 nanoseconds counts for nothing. */
  lemma LongPeriodUncounted()
    ensures ToRatio(Bandwidth(0x1000_0000_0000, 0x1000_0000_0000)) == 0
  {
    Arith.DivIs(0x1000_0000_0000 * FULL, TWO_TO_64, 1);
  }
}
