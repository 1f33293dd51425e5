/** The first pass of the load balancer: which waiting task an idle unit pulls, and what it locks meanwhile. */
module KssBalance {
  import opened Collections
  import opened KssMutex
  import KssUnit

  const CPU: nat := 0
  const NUMOF_TYPES: nat := 3

  /** What an application says about itself: an affinity per type (0: no implementation) and a gain. */
  datatype Meta = Meta(affinity: seq<nat>, gain: int)

  predicate MetaOk(mi: Meta) {
    |mi.affinity| == NUMOF_TYPES
  }

  function Sum(s: seq<nat>): nat {
    if s == [] then 0 else s[0] + Sum(s[1..])
  }

  /** Affinity of a task for a unit; `here`: a CPU unit on which the caller currently runs. */
  function Affinity(mi: Meta, kind: nat, online: bool, here: bool): int
    requires MetaOk(mi) && kind < NUMOF_TYPES
  {
    var base := mi.affinity[kind];
    if !online || base == 0 then 0
    else
      var boosted := base + (if Sum(mi.affinity) == base then KssUnit.SINGLE_IMPLEMENTATION_BONUS - 5 else 0) + 5;
      var local := if kind == CPU && !here then boosted - 1 else boosted;
      if kind == CPU then local - (mi.gain - 2) else local + (mi.gain - 2)
  }

  /** The affinity in numbers: 5 for being on line, 35 more for an only implementation, one less for another CPU, and the gain. */
  lemma AffinityIs(mi: Meta, kind: nat, online: bool, here: bool)
    requires MetaOk(mi) && kind < 3
    ensures var a := mi.affinity[kind];
            var alone := mi.affinity[0] + mi.affinity[1] + mi.affinity[2] == a;
            Affinity(mi, kind, online, here) ==
            if !online || a == 0 then 0
            else if kind == 0 then a + (if alone then 42 else 7) - (if here then 0 else 1) - mi.gain
            else a + (if alone then 38 else 3) + mi.gain
  {
    SumIs(mi.affinity);
  }

  /**
   * Without an implementation the affinity is 0. With one it stays above 1, the least that a pull asks for,
   * exactly up to a bound on the gain; a gain on the documented scale is always within the bound.
   */
  lemma AffinitySeparates(mi: Meta, kind: nat, online: bool, here: bool)
    requires MetaOk(mi) && kind < NUMOF_TYPES
    ensures !online || mi.affinity[kind] == 0 ==> Affinity(mi, kind, online, here) == 0
    ensures online && mi.affinity[kind] > 0 ==>
              var a: int := mi.affinity[kind] + (if Sum(mi.affinity) == mi.affinity[kind] then 35 else 0);
              (Affinity(mi, kind, online, here) > 1 <==>
               if kind == CPU then mi.gain < a + (if here then 6 else 5) else mi.gain > -2 - a)
    ensures 0 <= mi.gain <= 5 ==>
              && (Affinity(mi, kind, online, here) > 1 <==> online && mi.affinity[kind] > 0)
              && (Affinity(mi, kind, online, here) == 0 <==> !online || mi.affinity[kind] == 0)
  {
    SumIs(mi.affinity);
  }

  lemma SumIs(s: seq<nat>)
    requires |s| == NUMOF_TYPES
    ensures Sum(s) == s[0] + s[1] + s[2]
  {
    assert s[1..][1..] == [s[2]] && [s[2]][1..] == [];
    assert Sum(s[1..]) == s[1] + Sum([s[2]]);
  }

  /**
   * A task with one implementation is meant to be kept in the queue of its only type. The bonus does that on
   * an accelerator exactly if the affinity and the gain sum to at least two.
   */
  lemma BonusSuffices(mi: Meta, kind: nat)
    requires MetaOk(mi) && CPU < kind < NUMOF_TYPES && mi.affinity[kind] > 0
    requires forall k :: 0 <= k < NUMOF_TYPES && k != kind ==> mi.affinity[k] == 0
    ensures Affinity(mi, kind, true, false) >= KssUnit.SINGLE_IMPLEMENTATION_BONUS <==> mi.affinity[kind] + mi.gain >= 2
  {
    SumIs(mi.affinity);
    assert kind == 1 || kind == 2;
  }

  /** An input at which it does not: the affinity is 39, not 40. */
  lemma BonusFallsShort(mi: Meta)
    requires mi == Meta([0, 1, 0], 0)
    ensures Affinity(mi, 1, true, false) == KssUnit.SINGLE_IMPLEMENTATION_BONUS - 1
  {
    SumIs(mi.affinity);
  }

  datatype Waiting = Waiting(task: nat, mi: Meta)

  /** Another unit: its waiters from left to right, and its load. */
  datatype Source = Source(id: nat, waiting: seq<Waiting>, load: nat)

  datatype Candidate = Candidate(unit: nat, task: nat, affinity: int, load: nat) {
    /** Lexicographically greater in (affinity, load). */
    predicate Beats(affinity: int, load: nat) {
      this.affinity > affinity || (this.affinity == affinity && this.load > load)
    }
  }

  /** The unit that wants work; only accelerators reach this point. */
  datatype Target = Target(id: nat, kind: nat, online: bool)

  predicate InputOk(target: Target, others: seq<Source>) {
    && CPU < target.kind < NUMOF_TYPES
    && (forall i, j :: 0 <= i < j < |others| ==> others[i].id != others[j].id)
    && (forall i, j :: 0 <= i < |others| && 0 <= j < |others[i].waiting| ==> MetaOk(others[i].waiting[j].mi))
  }

  /** The first n waiters of a unit, as candidates. */
  function Offers(target: Target, s: Source, n: nat): seq<Candidate>
    requires CPU < target.kind < NUMOF_TYPES && n <= |s.waiting|
    requires forall j :: 0 <= j < |s.waiting| ==> MetaOk(s.waiting[j].mi)
  {
    seq(n, j requires 0 <= j < n =>
      Candidate(s.id, s.waiting[j].task, Affinity(s.waiting[j].mi, target.kind, target.online, false), s.load))
  }

  /** All scanned waiters of the first n units, in order; `locked` are the units whose mutex was not obtained. */
  function Scanned(target: Target, others: seq<Source>, n: nat, locked: set<nat>): seq<Candidate>
    requires InputOk(target, others) && n <= |others|
  {
    if n == 0 then []
    else
      var s := others[n - 1];
      Scanned(target, others, n - 1, locked) +
      (if s.id == target.id || s.id in locked then [] else Offers(target, s, |s.waiting|))
  }

  /** The first greatest candidate above (1, 0). */
  ghost predicate IsBest(best: Option<Candidate>, all: seq<Candidate>) {
    match best
    case None => forall i :: 0 <= i < |all| ==> !all[i].Beats(1, 0)
    case Some(c) =>
      c.Beats(1, 0) && exists k :: 0 <= k < |all| && IsFirstGreatest(all, k, c)
  }

  ghost predicate IsFirstGreatest(all: seq<Candidate>, k: nat, c: Candidate)
    requires k < |all|
  {
    all[k] == c
    && (forall i :: 0 <= i < |all| ==> !all[i].Beats(c.affinity, c.load))
    && (forall i :: 0 <= i < k ==> c.Beats(all[i].affinity, all[i].load))
  }

  /** The candidate kept so far meets the next one. */
  function Better(best: Option<Candidate>, c: Candidate): Option<Candidate> {
    if c.Beats(if best.None? then 1 else best.value.affinity, if best.None? then 0 else best.value.load) then Some(c) else best
  }

  lemma BetterIsBest(best: Option<Candidate>, all: seq<Candidate>, c: Candidate)
    requires IsBest(best, all)
    ensures IsBest(Better(best, c), all + [c])
  {
    var longer := all + [c];
    if c.Beats(if best.None? then 1 else best.value.affinity, if best.None? then 0 else best.value.load) {
      if best.Some? {
        var k :| 0 <= k < |all| && IsFirstGreatest(all, k, best.value);
      }
      forall i | 0 <= i < |all| ensures c.Beats(longer[i].affinity, longer[i].load) && !longer[i].Beats(c.affinity, c.load) {
        assert !all[i].Beats(if best.None? then 1 else best.value.affinity, if best.None? then 0 else best.value.load);
      }
      assert IsFirstGreatest(longer, |all|, c);
    } else if best.Some? {
      var k :| 0 <= k < |all| && IsFirstGreatest(all, k, best.value);
      assert IsFirstGreatest(longer, k, best.value);
    }
  }

  // The choice in terms of the waiting tasks.

  /** Waiter j of unit i is scanned: another unit, and its mutex was obtained. */
  ghost predicate IsScanned(target: Target, others: seq<Source>, locked: set<nat>, i: nat, j: nat) {
    i < |others| && j < |others[i].waiting| && others[i].id != target.id && others[i].id !in locked
  }

  ghost function Value(target: Target, others: seq<Source>, i: nat, j: nat): int
    requires InputOk(target, others) && i < |others| && j < |others[i].waiting|
  {
    Affinity(others[i].waiting[j].mi, target.kind, target.online, false)
  }

  /** Nobody has an affinity above one, or of one at a unit with load. */
  ghost predicate NobodyFits(target: Target, others: seq<Source>, locked: set<nat>)
    requires InputOk(target, others)
  {
    forall i: nat, j: nat :: IsScanned(target, others, locked, i, j) ==>
      Value(target, others, i, j) < 1 || (Value(target, others, i, j) == 1 && others[i].load == 0)
  }

  /** Waiter j of unit i is the choice: of the greatest affinity, then at the unit of the greatest load, then the first. */
  ghost predicate IsChoice(target: Target, others: seq<Source>, locked: set<nat>, i: nat, j: nat)
    requires InputOk(target, others)
  {
    && IsScanned(target, others, locked, i, j)
    && var a, l := Value(target, others, i, j), others[i].load;
       && (a > 1 || (a == 1 && l > 0))
       && forall x: nat, y: nat :: IsScanned(target, others, locked, x, y) ==>
            var b, m := Value(target, others, x, y), others[x].load;
            && (b < a || (b == a && m <= l))
            && (x < i || (x == i && y < j) ==> b < a || (b == a && m < l))
  }

  ghost predicate IsResult(target: Target, others: seq<Source>, locked: set<nat>, c: Candidate)
    requires InputOk(target, others)
  {
    exists i: nat, j: nat :: IsChoice(target, others, locked, i, j) && IsCandidateOf(target, others, i, j, c)
  }

  ghost predicate IsCandidateOf(target: Target, others: seq<Source>, i: nat, j: nat, c: Candidate)
    requires InputOk(target, others) && i < |others| && j < |others[i].waiting|
  {
    && c.unit == others[i].id && c.task == others[i].waiting[j].task
    && c.affinity == Value(target, others, i, j) && c.load == others[i].load
  }

  /** Every scanned waiter stands at its place in the list of candidates, and nothing else does. */
  lemma {:induction false} ScannedHas(target: Target, others: seq<Source>, n: nat, locked: set<nat>, i: nat, j: nat) returns (k: nat)
    requires InputOk(target, others) && i < n <= |others| && IsScanned(target, others, locked, i, j)
    ensures k < |Scanned(target, others, n, locked)|
    ensures Scanned(target, others, n, locked)[k] ==
            Candidate(others[i].id, others[i].waiting[j].task, Value(target, others, i, j), others[i].load)
    ensures k == |Scanned(target, others, i, locked)| + j
  {
    if i == n - 1 {
      k := |Scanned(target, others, n - 1, locked)| + j;
    } else {
      k := ScannedHas(target, others, n - 1, locked, i, j);
    }
  }

  lemma {:induction false} ScannedFrom(target: Target, others: seq<Source>, n: nat, locked: set<nat>, k: nat) returns (i: nat, j: nat)
    requires InputOk(target, others) && n <= |others| && k < |Scanned(target, others, n, locked)|
    ensures i < n && IsScanned(target, others, locked, i, j)
    ensures k == |Scanned(target, others, i, locked)| + j
    ensures Scanned(target, others, n, locked)[k] ==
            Candidate(others[i].id, others[i].waiting[j].task, Value(target, others, i, j), others[i].load)
  {
    var before := Scanned(target, others, n - 1, locked);
    if k < |before| {
      i, j := ScannedFrom(target, others, n - 1, locked, k);
    } else {
      i, j := n - 1, k - |before|;
    }
  }

  lemma {:induction false} ScannedGrows(target: Target, others: seq<Source>, x: nat, i: nat, y: nat, locked: set<nat>)
    requires InputOk(target, others) && x < i <= |others| && IsScanned(target, others, locked, x, y)
    ensures |Scanned(target, others, x, locked)| + y < |Scanned(target, others, i, locked)|
  {
    if i > x + 1 {
      ScannedGrows(target, others, x, i - 1, y, locked);
    }
  }

  /** What the pass finds. */
  lemma BestIs(target: Target, others: seq<Source>, locked: set<nat>, best: Option<Candidate>)
    requires InputOk(target, others) && IsBest(best, Scanned(target, others, |others|, locked))
    ensures best.None? ==> NobodyFits(target, others, locked)
    ensures best.Some? ==> IsResult(target, others, locked, best.value)
  {
    var n, all := |others|, Scanned(target, others, |others|, locked);
    if best.None? {
      forall i: nat, j: nat | IsScanned(target, others, locked, i, j)
        ensures Value(target, others, i, j) < 1 || (Value(target, others, i, j) == 1 && others[i].load == 0) {
        var k := ScannedHas(target, others, n, locked, i, j);
        assert !all[k].Beats(1, 0);
      }
    } else {
      var c := best.value;
      var k :| 0 <= k < |all| && IsFirstGreatest(all, k, c);
      var i, j := ScannedFrom(target, others, n, locked, k);
      forall x: nat, y: nat | IsScanned(target, others, locked, x, y)
        ensures var b, m := Value(target, others, x, y), others[x].load;
                && (b < c.affinity || (b == c.affinity && m <= c.load))
                && (x < i || (x == i && y < j) ==> b < c.affinity || (b == c.affinity && m < c.load)) {
        var z := ScannedHas(target, others, n, locked, x, y);
        assert !all[z].Beats(c.affinity, c.load);
        if x < i {
          ScannedGrows(target, others, x, i, y, locked);
        }
        if x < i || (x == i && y < j) {
          assert z < k;
          assert c.Beats(all[z].affinity, all[z].load);
        }
      }
      assert IsChoice(target, others, locked, i, j) && IsCandidateOf(target, others, i, j, c);
    }
  }

  function UnitOf(best: Option<Candidate>): Option<nat> {
    if best.None? then None else Some(best.value.unit)
  }

  ghost function LocksWith(best: Option<Candidate>): set<Lock> {
    CandidateLocks(UnitOf(best))
  }

  // The pass as a script of takes and drops.

  /** The candidate after some visits of the first pass. */
  function Chosen(visits: seq<Visit>): Option<nat> {
    if visits == [] then None
    else
      var l := |visits| - 1;
      if visits[l].better then Some(visits[l].unit) else Chosen(visits[..l])
  }

  /** What one visit takes and drops. */
  function Turn(v: Visit, candidate: Option<nat>): seq<Op> {
    if v.better then [Take(Queue(v.unit))] + Release(candidate) else Pair(Queue(v.unit))
  }

  function Turns(visits: seq<Visit>): seq<Op> {
    if visits == [] then []
    else var l := |visits| - 1; Turns(visits[..l]) + Turn(visits[l], Chosen(visits[..l]))
  }

  lemma {:induction false} ScriptSplits(visits: seq<Visit>, k: nat)
    requires k <= |visits|
    ensures FirstPass(visits, None) == Turns(visits[..k]) + FirstPass(visits[k..], Chosen(visits[..k]))
  {
    if k == 0 {
      assert visits[..0] == [] && visits[0..] == visits;
    } else {
      var before, v, c := visits[..k - 1], visits[k - 1], Chosen(visits[..k - 1]);
      ScriptSplits(visits, k - 1);
      assert visits[..k][..k - 1] == before;
      assert visits[k - 1..][1..] == visits[k..];
      var rest := FirstPass(visits[k..], if v.better then Some(v.unit) else c);
      assert FirstPass(visits[k - 1..], c) == Turn(v, c) + rest;
      assert Turns(before) + (Turn(v, c) + rest) == (Turns(before) + Turn(v, c)) + rest;
    }
  }

  lemma TurnsOneMore(visits: seq<Visit>, v: Visit)
    ensures Turns(visits + [v]) == Turns(visits) + Turn(v, Chosen(visits))
    ensures Chosen(visits + [v]) == if v.better then Some(v.unit) else Chosen(visits)
  {
    assert (visits + [v])[..|visits|] == visits;
  }

  /** The ids of the units that the pass visits: all but the target and those whose mutex was not obtained. */
  function Visited(target: Target, others: seq<Source>, n: nat, locked: set<nat>): seq<nat>
    requires n <= |others|
  {
    if n == 0 then []
    else
      var s := others[n - 1];
      Visited(target, others, n - 1, locked) + (if s.id == target.id || s.id in locked then [] else [s.id])
  }

  lemma {:induction false} VisitedAreUnits(target: Target, others: seq<Source>, n: nat, locked: set<nat>, u: nat)
    requires n <= |others| && u in Visited(target, others, n, locked)
    ensures exists k :: 0 <= k < n && others[k].id == u
  {
    if u != others[n - 1].id {
      VisitedAreUnits(target, others, n - 1, locked, u);
      var k :| 0 <= k < n - 1 && others[k].id == u;
    }
  }

  lemma {:induction false} VisitedHas(target: Target, others: seq<Source>, n: nat, locked: set<nat>, i: nat)
    requires i < n <= |others| && others[i].id != target.id && others[i].id !in locked
    ensures others[i].id in Visited(target, others, n, locked)
  {
    if i < n - 1 {
      VisitedHas(target, others, n - 1, locked, i);
    }
  }

  lemma {:induction false} VisitedOnly(target: Target, others: seq<Source>, n: nat, locked: set<nat>, u: nat)
    requires n <= |others| && u in Visited(target, others, n, locked)
    ensures u != target.id && u !in locked
  {
    if u !in Visited(target, others, n - 1, locked) {
      assert u == others[n - 1].id;
    } else {
      VisitedOnly(target, others, n - 1, locked, u);
    }
  }

  lemma {:induction false} VisitedAreDistinct(target: Target, others: seq<Source>, n: nat, locked: set<nat>, us: seq<nat>)
    requires n <= |others| && us == Visited(target, others, n, locked)
    requires forall i, j :: 0 <= i < j < |others| ==> others[i].id != others[j].id
    ensures forall i, j :: 0 <= i < j < |us| ==> us[i] != us[j]
  {
    if n > 0 {
      var before := Visited(target, others, n - 1, locked);
      VisitedAreDistinct(target, others, n - 1, locked, before);
      forall i | 0 <= i < |before| ensures before[i] != others[n - 1].id {
        VisitedAreUnits(target, others, n - 1, locked, before[i]);
      }
    }
  }

  /** The visits and the takes and drops of a pass that so far visited the units `us` and keeps `best`. */
  ghost predicate Recorded(us: seq<nat>, visits: seq<Visit>, ops: seq<Op>, best: Option<Candidate>) {
    && |visits| == |us| && (forall i :: 0 <= i < |us| ==> visits[i].unit == us[i])
    && ops == Turns(visits) && UnitOf(best) == Chosen(visits)
  }

  lemma RecordedOneMore(us: seq<nat>, visits: seq<Visit>, ops: seq<Op>, best0: Option<Candidate>, v: Visit,
                        more: seq<Op>, best: Option<Candidate>)
    requires Recorded(us, visits, ops, best0) && more == Turn(v, UnitOf(best0))
    requires UnitOf(best) == if v.better then Some(v.unit) else UnitOf(best0)
    ensures Recorded(us + [v.unit], visits + [v], ops + more, best)
  {
    TurnsOneMore(visits, v);
  }

  /** Scans the waiters of one unit whose mutex has just been taken. */
  method ScanUnit(target: Target, s: Source, best0: Option<Candidate>, held0: set<Lock>, ghost before: seq<Candidate>)
    returns (best: Option<Candidate>, held: set<Lock>, ghost ops: seq<Op>)
    requires CPU < target.kind < NUMOF_TYPES && forall j :: 0 <= j < |s.waiting| ==> MetaOk(s.waiting[j].mi)
    requires IsBest(best0, before) && (best0.Some? ==> best0.value.unit != s.id)
    requires held0 == LocksWith(best0) + {Queue(s.id)}
    ensures IsBest(best, before + Offers(target, s, |s.waiting|))
    ensures best == best0 || (best.Some? && best.value.unit == s.id)
    ensures held == LocksWith(best) + {Queue(s.id)}
    ensures ops == if UnitOf(best) == Some(s.id) then Release(UnitOf(best0)) else []
  {
    best, held, ops := best0, held0, [];
    assert before + Offers(target, s, 0) == before;
    for j := 0 to |s.waiting|
      invariant IsBest(best, before + Offers(target, s, j))
      invariant best == best0 || (best.Some? && best.value.unit == s.id)
      invariant held == LocksWith(best) + {Queue(s.id)}
      invariant ops == if UnitOf(best) == Some(s.id) then Release(UnitOf(best0)) else []
    {
      var affinity := Affinity(s.waiting[j].mi, target.kind, target.online, false);
      var c := Candidate(s.id, s.waiting[j].task, affinity, s.load);
      BetterIsBest(best, before + Offers(target, s, j), c);
      assert before + Offers(target, s, j + 1) == before + Offers(target, s, j) + [c];
      if c.Beats(if best.None? then 1 else best.value.affinity, if best.None? then 0 else best.value.load) {
        if best.Some? && best.value.unit != s.id {
          assert Allowed(held, Drop(Queue(best.value.unit)));
          held := held - {Queue(best.value.unit)};
          ops := ops + [Drop(Queue(best.value.unit))];
        }
        best := Some(c);
      }
    }
  }

  /** One unit of the pass: its mutex is taken, its waiters are scanned, and one mutex is dropped. */
  method VisitUnit(target: Target, s: Source, best0: Option<Candidate>, held0: set<Lock>, ghost before: seq<Candidate>)
    returns (best: Option<Candidate>, held: set<Lock>, ghost v: Visit, ghost ops: seq<Op>)
    requires CPU < target.kind < NUMOF_TYPES && forall j :: 0 <= j < |s.waiting| ==> MetaOk(s.waiting[j].mi)
    requires IsBest(best0, before) && (best0.Some? ==> best0.value.unit != s.id)
    requires held0 == LocksWith(best0)
    ensures IsBest(best, before + Offers(target, s, |s.waiting|))
    ensures best == best0 || (best.Some? && best.value.unit == s.id)
    ensures held == LocksWith(best)
    ensures v == Visit(s.id, UnitOf(best) == Some(s.id)) && ops == Turn(v, UnitOf(best0))
  {
    assert Allowed(held0, Take(Queue(s.id)));
    best, held, ops := ScanUnit(target, s, best0, held0 + {Queue(s.id)}, before);
    v := Visit(s.id, UnitOf(best) == Some(s.id));
    ops := [Take(Queue(s.id))] + ops;
    if best.None? || best.value.unit != s.id {
      assert Allowed(held, Drop(Queue(s.id)));
      held := held - {Queue(s.id)};
      ops := ops + [Drop(Queue(s.id))];
    }
  }

  /**
   * The first pass ends holding exactly the list mutex and the mutex of the chosen candidate, and the
   * candidate is the first of the greatest in (affinity, load) among all scanned waiters. Its takes and drops,
   * followed by the release of that candidate, are the script of a well-formed pass over the visited units.
   */
  method FirstBalancingPass(target: Target, others: seq<Source>, locked: set<nat>)
    returns (best: Option<Candidate>, held: set<Lock>, ghost visits: seq<Visit>, ghost ops: seq<Op>)
    requires InputOk(target, others)
    ensures IsBest(best, Scanned(target, others, |others|, locked))
    ensures best.None? ==> NobodyFits(target, others, locked)
    ensures best.Some? ==> IsResult(target, others, locked, best.value)
    ensures held == LocksWith(best)
    ensures best.Some? ==> best.value.unit != target.id && best.value.unit !in locked
    ensures FirstPass(visits, None) == ops + Release(UnitOf(best)) && Distinct(visits)
    ensures var us := Visited(target, others, |others|, locked);
            |visits| == |us| && forall i :: 0 <= i < |us| ==> visits[i].unit == us[i]
    ensures forall i :: 0 <= i < |others| ==>
      ((exists k :: 0 <= k < |visits| && visits[k].unit == others[i].id) <==> others[i].id != target.id && others[i].id !in locked)
  {
    hide IsBest, Recorded, Turns, Chosen;
    NothingRecorded();
    best, held, visits, ops := None, {Units}, [], [];
    for i := 0 to |others|
      invariant IsBest(best, Scanned(target, others, i, locked))
      invariant held == LocksWith(best)
      invariant best.Some? ==> best.value.unit != target.id && best.value.unit !in locked
      invariant best.Some? ==> exists k :: 0 <= k < i && others[k].id == best.value.unit
      invariant Recorded(Visited(target, others, i, locked), visits, ops, best)
    {
      var s := others[i];
      if s.id != target.id && s.id !in locked {
        ghost var best0, v, more := best, Visit(0, false), [];
        best, held, v, more := VisitUnit(target, s, best, held, Scanned(target, others, i, locked));
        RecordedOneMore(Visited(target, others, i, locked), visits, ops, best0, v, more, best);
        visits, ops := visits + [v], ops + more;
      } else {
        assert Scanned(target, others, i, locked) + [] == Scanned(target, others, i, locked);
        assert Visited(target, others, i, locked) + [] == Visited(target, others, i, locked);
      }
    }
    BestIs(target, others, locked, best);
    VisitedAreDistinct(target, others, |others|, locked, Visited(target, others, |others|, locked));
    RecordedIsScript(Visited(target, others, |others|, locked), visits, ops, best);
    VisitsAreAll(target, others, locked, visits);
  }

  lemma VisitsAreAll(target: Target, others: seq<Source>, locked: set<nat>, visits: seq<Visit>)
    requires var us := Visited(target, others, |others|, locked);
             |visits| == |us| && forall i :: 0 <= i < |us| ==> visits[i].unit == us[i]
    ensures forall i :: 0 <= i < |others| ==>
      ((exists k :: 0 <= k < |visits| && visits[k].unit == others[i].id) <==> others[i].id != target.id && others[i].id !in locked)
  {
    var us := Visited(target, others, |others|, locked);
    forall i | 0 <= i < |others|
      ensures (exists k :: 0 <= k < |visits| && visits[k].unit == others[i].id) <==> others[i].id != target.id && others[i].id !in locked
    {
      if others[i].id != target.id && others[i].id !in locked {
        VisitedHas(target, others, |others|, locked, i);
        var k :| 0 <= k < |us| && us[k] == others[i].id;
        assert visits[k].unit == others[i].id;
      }
      if k :| 0 <= k < |visits| && visits[k].unit == others[i].id {
        assert us[k] in us;
        VisitedOnly(target, others, |others|, locked, others[i].id);
      }
    }
  }

  lemma NothingRecorded()
    ensures Recorded([], [], [], None) && IsBest(None, [])
  {
  }

  lemma RecordedIsScript(us: seq<nat>, visits: seq<Visit>, ops: seq<Op>, best: Option<Candidate>)
    requires Recorded(us, visits, ops, best) && forall i, j :: 0 <= i < j < |us| ==> us[i] != us[j]
    ensures FirstPass(visits, None) == ops + Release(UnitOf(best)) && Distinct(visits)
    ensures |visits| == |us| && forall i :: 0 <= i < |us| ==> visits[i].unit == us[i]
  {
    ScriptSplits(visits, |visits|);
    assert visits[..|visits|] == visits && visits[|visits|..] == [];
  }
}
