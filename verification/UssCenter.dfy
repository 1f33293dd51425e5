/** Centerpoints in exact arithmetic: they are the jobs' shares, sum to the
    number of jobs, and removal undoes admission. */
module UssCenter {
  import opened UssTypes
  import opened UssSpec
  import opened UssMigration
  import opened Collections

  // ---------- sums ----------

  ghost function SumShares(s: Sched, hs: set<int>, t: int): real
    requires hs <= s.se.Keys
  {
    if hs == {} then 0.0
    else var h := AnyOf(hs); Share(s.se[h].msai, s.mqs.Keys, t) + SumShares(s, hs - {h}, t)
  }

  ghost function SumCenters(s: Sched, kinds: set<int>): real
    requires kinds <= s.mqs.Keys
  {
    if kinds == {} then 0.0 else var t := AnyOf(kinds); s.mqs[t].center + SumCenters(s, kinds - {t})
  }

  /** Every centerpoint is the sum of the shares of all jobs. */
  ghost predicate CentersOk(s: Sched) {
    forall t :: t in s.mqs ==> s.mqs[t].center == SumShares(s, s.se.Keys, t)
  }

  lemma {:induction false} SumSharesWithout(s: Sched, hs: set<int>, h: int, t: int)
    requires hs <= s.se.Keys && h in hs
    ensures SumShares(s, hs, t) == Share(s.se[h].msai, s.mqs.Keys, t) + SumShares(s, hs - {h}, t)
    decreases |hs|
  {
    var g := AnyOf(hs);
    if g != h {
      SumSharesWithout(s, hs - {g}, h, t);
      SumSharesWithout(s, hs - {h}, g, t);
      assert hs - {g} - {h} == hs - {h} - {g};
    }
  }

  lemma {:induction false} SumSharesSame(s: Sched, s': Sched, hs: set<int>, t: int)
    requires hs <= s.se.Keys && hs <= s'.se.Keys && s'.mqs.Keys == s.mqs.Keys
    requires forall h :: h in hs ==> s'.se[h].msai == s.se[h].msai
    ensures SumShares(s', hs, t) == SumShares(s, hs, t)
    decreases |hs|
  {
    if hs != {} {
      SumSharesSame(s, s', hs - {AnyOf(hs)}, t);
    }
  }

  // ---------- the operations keep the centerpoints exact ----------

  lemma AddKeepsCenters(s: Sched, h: int, m: seq<Slot>, q: Queue)
    requires CentersOk(s) && h !in s.se && q in s.rqs && Supports(m, q.kind)
    ensures CentersOk(AddJob(s, h, m, q))
  {
    var s' := AddJob(s, h, m, q);
    assert s'.mqs.Keys == s.mqs.Keys;
    forall t | t in s'.mqs ensures s'.mqs[t].center == SumShares(s', s'.se.Keys, t) {
      SumSharesWithout(s', s'.se.Keys, h, t);
      assert s'.se.Keys - {h} == s.se.Keys;
      SumSharesSame(s, s', s.se.Keys, t);
    }
  }

  lemma RemoveKeepsCenters(s: Sched, h: int)
    requires CentersOk(s) && h in s.se && s.se[h].queue in s.rqs && Supports(s.se[h].msai, s.se[h].queue.kind)
    ensures CentersOk(RemoveJob(s, h))
  {
    var s' := RemoveJob(s, h);
    assert s'.mqs.Keys == s.mqs.Keys;
    forall t | t in s'.mqs ensures s'.mqs[t].center == SumShares(s', s'.se.Keys, t) {
      SumSharesWithout(s, s.se.Keys, h, t);
      assert s'.se.Keys == s.se.Keys - {h};
      SumSharesSame(s, s', s'.se.Keys, t);
    }
  }

  /** Moves, picks, ticks and cleanups: same jobs, same centerpoints. */
  lemma OthersKeepCenters(s: Sched, s': Sched)
    requires CentersOk(s) && s'.se.Keys == s.se.Keys && s'.mqs.Keys == s.mqs.Keys
    requires forall h :: h in s.se ==> s'.se[h].msai == s.se[h].msai
    requires forall t :: t in s.mqs ==> s'.mqs[t].center == s.mqs[t].center
    ensures CentersOk(s')
  {
    forall t | t in s'.mqs ensures s'.mqs[t].center == SumShares(s', s'.se.Keys, t) {
      SumSharesSame(s, s', s.se.Keys, t);
    }
  }

  lemma MigrationKeepsCenters(s: Sched, m: Migration)
    requires CentersOk(s) && LegalMove(s, m)
    ensures CentersOk(Apply(s, m))
  {
    OthersKeepCenters(s, Apply(s, m));
  }

  // ---------- the sum of all centerpoints ----------

  ghost function SumAffinities(m: seq<Slot>, kinds: set<int>): int {
    if kinds == {} then 0
    else var t := AnyOf(kinds); (if Supports(m, t) then Aff(m, t) else 0) + SumAffinities(m, kinds - {t})
  }

  lemma {:induction false} SumAffinitiesWithout(m: seq<Slot>, kinds: set<int>, t: int)
    requires t in kinds
    ensures SumAffinities(m, kinds) == (if Supports(m, t) then Aff(m, t) else 0) + SumAffinities(m, kinds - {t})
    decreases |kinds|
  {
    var k := AnyOf(kinds);
    if k != t {
      SumAffinitiesWithout(m, kinds - {k}, t);
      SumAffinitiesWithout(m, kinds - {t}, k);
      assert kinds - {k} - {t} == kinds - {t} - {k};
    }
  }

  /** Over kinds that do not occur in the first slot, that slot does not matter. */
  lemma {:induction false} SumAffinitiesTail(m: seq<Slot>, kinds: set<int>)
    requires m != [] && m[0].kind !in kinds
    ensures SumAffinities(m, kinds) == SumAffinities(m[1..], kinds)
    decreases |kinds|
  {
    if kinds != {} {
      var t := AnyOf(kinds);
      SumAffinitiesTail(m, kinds - {t});
      assert Supports(m, t) <==> Supports(m[1..], t) by {
        if Supports(m, t) { var i :| 0 <= i < |m| && m[i].kind == t; assert m[1..][i - 1].kind == t; }
        if Supports(m[1..], t) { var i :| 0 <= i < |m[1..]| && m[1..][i].kind == t; assert m[i + 1].kind == t; }
      }
    }
  }

  lemma {:induction false} SumAffinitiesNone(kinds: set<int>)
    ensures SumAffinities([], kinds) == 0
    decreases |kinds|
  {
    if kinds != {} {
      SumAffinitiesNone(kinds - {AnyOf(kinds)});
    }
  }

  lemma {:induction false} ActiveSumIsSum(m: seq<Slot>, kinds: set<int>)
    requires forall i, j :: 0 <= i < j < |m| ==> m[i].kind != m[j].kind
    ensures SumAffinities(m, kinds) == ActiveSum(m, kinds)
  {
    if m == [] {
      SumAffinitiesNone(kinds);
    } else {
      var t := m[0].kind;
      if t in kinds {
        SumAffinitiesWithout(m, kinds, t);
        SumAffinitiesTail(m, kinds - {t});
        ActiveSumIsSum(m[1..], kinds);
        SumAffinitiesWithout(m[1..], kinds, t);
        assert Supports(m, t) && !Supports(m[1..], t);
      } else {
        SumAffinitiesTail(m, kinds);
        ActiveSumIsSum(m[1..], kinds);
      }
    }
  }

  ghost function SumOfShares(m: seq<Slot>, all: set<int>, kinds: set<int>): real {
    if kinds == {} then 0.0 else var t := AnyOf(kinds); Share(m, all, t) + SumOfShares(m, all, kinds - {t})
  }

  lemma {:induction false} SharesAreFractions(m: seq<Slot>, all: set<int>, kinds: set<int>)
    requires ActiveSum(m, all) != 0
    ensures SumOfShares(m, all, kinds) == SumAffinities(m, kinds) as real / ActiveSum(m, all) as real
    decreases |kinds|
  {
    if kinds != {} {
      var t := AnyOf(kinds);
      SharesAreFractions(m, all, kinds - {t});
      var a := if Supports(m, t) then Aff(m, t) else 0;
      AddFractions(a, SumAffinities(m, kinds - {t}), ActiveSum(m, all));
    }
  }

  lemma AddFractions(a: int, b: int, n: int)
    requires n != 0
    ensures a as real / n as real + b as real / n as real == (a + b) as real / n as real
    ensures n as real / n as real == 1.0 && 0 as real / n as real == 0.0
  {
  }

  /** A share is the affinity in proportion to the sum of the affinities for active types. */
  lemma ShareIs(m: seq<Slot>, kinds: set<int>, t: int)
    requires MsaiOk(m) && t in kinds && Supports(m, t)
    ensures SumAffinities(m, kinds) > 0 && Share(m, kinds, t) * SumAffinities(m, kinds) as real == Aff(m, t) as real
  {
    hide SumAffinities, ActiveSum, Aff;
    var i :| 0 <= i < |m| && m[i].kind == t;
    ActiveSumPositive(m, kinds, i);
    ActiveSumIsSum(m, kinds);
    ProductOfQuotient(Aff(m, t) as real, SumAffinities(m, kinds) as real);
  }

  lemma ProductOfQuotient(a: real, b: real)
    requires b != 0.0
    ensures a / b * b == a
  {
  }

  /** The shares of one job that has an active type add up to one. */
  lemma SharesOfOneJob(m: seq<Slot>, kinds: set<int>, t: int)
    requires MsaiOk(m) && t in kinds && Supports(m, t)
    ensures SumOfShares(m, kinds, kinds) == 1.0
  {
    var i :| 0 <= i < |m| && m[i].kind == t;
    ActiveSumPositive(m, kinds, i);
    SharesAreFractions(m, kinds, kinds);
    ActiveSumIsSum(m, kinds);
    AddFractions(0, 0, ActiveSum(m, kinds));
  }

  /** Sum over a set of types of the shares of a set of jobs. */
  ghost function DoubleSum(s: Sched, hs: set<int>, kinds: set<int>): real
    requires hs <= s.se.Keys
  {
    if kinds == {} then 0.0
    else var t := AnyOf(kinds); SumShares(s, hs, t) + DoubleSum(s, hs, kinds - {t})
  }

  lemma {:induction false} DoubleSumWithout(s: Sched, hs: set<int>, h: int, kinds: set<int>)
    requires hs <= s.se.Keys && h in hs
    ensures DoubleSum(s, hs, kinds) ==
      SumOfShares(s.se[h].msai, s.mqs.Keys, kinds) + DoubleSum(s, hs - {h}, kinds)
    decreases |kinds|
  {
    if kinds != {} {
      var t := AnyOf(kinds);
      SumSharesWithout(s, hs, h, t);
      DoubleSumWithout(s, hs, h, kinds - {t});
    }
  }

  lemma {:induction false} DoubleSumNone(s: Sched, kinds: set<int>)
    ensures DoubleSum(s, {}, kinds) == 0.0
    decreases |kinds|
  {
    if kinds != {} {
      DoubleSumNone(s, kinds - {AnyOf(kinds)});
    }
  }

  lemma {:induction false} DoubleSumCountsJobs(s: Sched, hs: set<int>)
    requires Valid(s) && hs <= s.se.Keys
    ensures DoubleSum(s, hs, s.mqs.Keys) == |hs| as real
    decreases |hs|
  {
    if hs == {} {
      DoubleSumNone(s, s.mqs.Keys);
    } else {
      var h := AnyOf(hs);
      assert JobOk(s, h);
      assert QueueOk(s, s.se[h].queue);
      SharesOfOneJob(s.se[h].msai, s.mqs.Keys, s.se[h].queue.kind);
      DoubleSumWithout(s, hs, h, s.mqs.Keys);
      DoubleSumCountsJobs(s, hs - {h});
    }
  }

  lemma {:induction false} SumCentersIsDoubleSum(s: Sched, kinds: set<int>)
    requires CentersOk(s) && kinds <= s.mqs.Keys
    ensures SumCenters(s, kinds) == DoubleSum(s, s.se.Keys, kinds)
    decreases |kinds|
  {
    if kinds != {} {
      SumCentersIsDoubleSum(s, kinds - {AnyOf(kinds)});
    }
  }

  /** All centerpoints together count the jobs. */
  lemma CentersSumToJobs(s: Sched)
    requires Valid(s) && CentersOk(s)
    ensures SumCenters(s, s.mqs.Keys) == |s.se| as real
  {
    SumCentersIsDoubleSum(s, s.mqs.Keys);
    DoubleSumCountsJobs(s, s.se.Keys);
  }

  // ---------- removal undoes admission ----------

  lemma MqAfterUndo(s: Sched, h: int, m: seq<Slot>, q: Queue, t: int)
    requires h !in s.se && q in s.rqs && t in s.mqs && MqOk(s, t) && Supports(m, q.kind)
    ensures RemovedMq(AddJob(s, h, m, q), t, h) == s.mqs[t]
  {
    var r := Rank(Aff(m, t), h);
    assert !InPush(s, t, r) && !InPull(s, t, r);
    assert r !in s.mqs[t].push && r !in s.mqs[t].pull;
    assert AddJob(s, h, m, q).mqs.Keys == s.mqs.Keys;
  }

  lemma RemoveUndoesAdd(s: Sched, h: int, m: seq<Slot>, q: Queue)
    requires Valid(s) && h !in s.se && h !in s.tokill && q in s.rqs && Supports(m, q.kind)
    ensures RemoveJob(AddJob(s, h, m, q), h) == s
  {
    var s1 := AddJob(s, h, m, q);
    var s2 := RemoveJob(s1, h);
    assert QueueOk(s, q);
    var k := Key(s.rqs[q].AverageVrun(), h);
    assert k in s.rqs[q].tree ==> EntryOk(s, q, k);
    assert s2.rqs == s.rqs;
    assert s2.se == s.se;
    forall t | t in s.mqs ensures s2.mqs[t] == s.mqs[t] { assert MqOk(s, t); MqAfterUndo(s, h, m, q, t); }
    assert s2.mqs == s.mqs;
    assert s2.tokill == s.tokill;
  }

  /** A freshly admitted job that moves is as if admitted where it moved to. */
  lemma MoveOfFreshJob(s: Sched, h: int, m: seq<Slot>, q: Queue, p: Queue)
    requires Valid(s) && h !in s.se && q in s.rqs && p in s.rqs && p.kind != q.kind
    requires Supports(m, q.kind) && Supports(m, p.kind)
    ensures q.kind in AddJob(s, h, m, q).mqs && p.kind in AddJob(s, h, m, q).mqs
    ensures Move(AddJob(s, h, m, q), h, p) == AddJob(s, h, m, p)
  {
    assert QueueOk(s, q) && QueueOk(s, p) && MqOk(s, q.kind) && MqOk(s, p.kind);
    ListsOfFreshJob(s, h, m, q, p);
    var k := Key(s.rqs[q].AverageVrun(), h);
    assert k in s.rqs[q].tree ==> EntryOk(s, q, k);
    TreesOfFreshJob(s, h, m, q, p);
  }

  lemma TreesOfFreshJob(s: Sched, h: int, m: seq<Slot>, q: Queue, p: Queue)
    requires h !in s.se && q in s.rqs && p in s.rqs && p.kind != q.kind
    requires q.kind in s.mqs && p.kind in s.mqs
    requires Key(s.rqs[q].AverageVrun(), h) !in s.rqs[q].tree
    ensures Move(AddJob(s, h, m, q), h, p).rqs == AddJob(s, h, m, p).rqs
    ensures Move(AddJob(s, h, m, q), h, p).se == AddJob(s, h, m, p).se
  {
  }

  lemma ListsOfFreshJob(s: Sched, h: int, m: seq<Slot>, q: Queue, p: Queue)
    requires h !in s.se && q in s.rqs && p in s.rqs && p.kind != q.kind
    requires q.kind in s.mqs && p.kind in s.mqs && MqOk(s, q.kind) && MqOk(s, p.kind)
    requires Supports(m, q.kind) && Supports(m, p.kind)
    ensures Move(AddJob(s, h, m, q), h, p).mqs == AddJob(s, h, m, p).mqs
  {
    var a, b := Rank(Aff(m, q.kind), h), Rank(Aff(m, p.kind), h);
    assert !InPush(s, q.kind, a) && !InPull(s, p.kind, b);
    assert a !in s.mqs[q.kind].push && b !in s.mqs[p.kind].pull;
    var left, right := Move(AddJob(s, h, m, q), h, p).mqs, AddJob(s, h, m, p).mqs;
    assert left.Keys == right.Keys;
    assert left[q.kind] == right[q.kind];
    assert left[p.kind] == right[p.kind];
  }

  /** Whatever moves a freshly admitted job makes, its removal restores the state before admission. */
  lemma {:induction false} RemoveUndoesAddAndMoves(s: Sched, h: int, m: seq<Slot>, q: Queue, ms: seq<Migration>)
    requires Valid(s) && h !in s.se && h !in s.tokill && q in s.rqs && Supports(m, q.kind)
    requires forall x :: x in ms ==> x.handle == h
    requires LegalRun(AddJob(s, h, m, q), ms)
    ensures var s' := AfterMoves(AddJob(s, h, m, q), ms);
      h in s'.se && s'.se[h].queue in s'.rqs && RemoveJob(s', h) == s
    decreases |ms|
  {
    if ms == [] {
      RemoveUndoesAdd(s, h, m, q);
    } else {
      assert ms[0] in ms && forall x :: x in ms[1..] ==> x in ms;
      MoveOfFreshJob(s, h, m, q, ms[0].target);
      RemoveUndoesAddAndMoves(s, h, m, ms[0].target, ms[1..]);
    }
  }

  /** What moves of any jobs leave alone: the jobs and their types, the queues, the centerpoints. */
  ghost predicate SameShares(s: Sched, s': Sched) {
    && s'.se.Keys == s.se.Keys && s'.rqs.Keys == s.rqs.Keys && s'.mqs.Keys == s.mqs.Keys
    && (forall h :: h in s.se ==> s'.se[h].msai == s.se[h].msai && (s.se[h].queue in s.rqs ==> s'.se[h].queue in s.rqs))
    && (forall h :: h in s.se && Supports(s.se[h].msai, s.se[h].queue.kind) ==> Supports(s.se[h].msai, s'.se[h].queue.kind))
    && (forall t :: t in s.mqs ==> s'.mqs[t].center == s.mqs[t].center)
  }

  lemma {:induction false} MovesKeepShares(s: Sched, ms: seq<Migration>)
    requires LegalRun(s, ms)
    ensures SameShares(s, AfterMoves(s, ms))
    decreases |ms|
  {
    if ms != [] {
      assert SameShares(s, Apply(s, ms[0]));
      MovesKeepShares(Apply(s, ms[0]), ms[1..]);
    }
  }

  /** Whatever moves any jobs make after an admission, the removal takes every centerpoint back to its value before. */
  lemma RemoveUndoesCenters(s: Sched, h: int, m: seq<Slot>, q: Queue, ms: seq<Migration>)
    requires h !in s.se && q in s.rqs && Supports(m, q.kind)
    requires LegalRun(AddJob(s, h, m, q), ms)
    ensures var s' := AfterMoves(AddJob(s, h, m, q), ms);
      && h in s'.se && s'.se[h].queue in s'.rqs
      && var r := RemoveJob(s', h);
         && r.se.Keys == s.se.Keys && r.mqs.Keys == s.mqs.Keys
         && (forall t :: t in s.mqs ==> r.mqs[t].center == s.mqs[t].center)
  {
    var s1 := AddJob(s, h, m, q);
    assert s1.mqs.Keys == s.mqs.Keys;
    MovesKeepShares(s1, ms);
    forall t | t in s.mqs ensures RemoveJob(AfterMoves(s1, ms), h).mqs[t].center == s.mqs[t].center {
      CenterAfterUndo(s, s1, AfterMoves(s1, ms), h, m, q, t);
    }
  }

  lemma CenterAfterUndo(s: Sched, s1: Sched, s2: Sched, h: int, m: seq<Slot>, q: Queue, t: int)
    requires h !in s.se && q in s.rqs && Supports(m, q.kind) && t in s.mqs
    requires s1 == AddJob(s, h, m, q) && s1.mqs.Keys == s.mqs.Keys && SameShares(s1, s2)
    requires h in s2.se && t in s2.mqs
    ensures RemovedMq(s2, t, h).center == s.mqs[t].center
  {
    assert s2.se[h].msai == m && s2.mqs.Keys == s.mqs.Keys;
    assert Supports(m, s2.se[h].queue.kind);
  }

  ghost predicate LegalRun(s: Sched, ms: seq<Migration>)
    decreases |ms|
  {
    ms == [] || (LegalMove(s, ms[0]) && LegalRun(Apply(s, ms[0]), ms[1..]))
  }

  ghost function AfterMoves(s: Sched, ms: seq<Migration>): Sched
    requires LegalRun(s, ms)
    decreases |ms|
  {
    if ms == [] then s else AfterMoves(Apply(s, ms[0]), ms[1..])
  }
}
