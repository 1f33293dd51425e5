/** The scheduler object of the user-space daemon, updated in place. Every
    method is proved to compute the function of UssSpec that describes it. */
module UssScheduler {
  import opened UssTypes
  import opened UssSpec
  import opened UssMigration
  import opened UssTick
  import Balance = UssBalance
  import Collections

  datatype MessageType = NotSet | CleanupDone | StatusReport | IsFinished

  class Scheduler {
    var se: map<int, Se>
    var rqs: map<Queue, Rq>
    var mqs: map<int, Mq>
    var tokill: set<int>
    var clock: nat
    var outbox: seq<Sent>

    function Abs(): Sched
      reads this
    {
      Sched(se, rqs, mqs, tokill, clock)
    }

    constructor (now: nat)
      ensures Valid(Abs()) && Abs() == Sched(map[], map[], map[], {}, now) && outbox == []
    {
      se, rqs, mqs, tokill, clock, outbox := map[], map[], map[], {}, now, [];
    }

    /** Start-up: one more run queue, before any job is known. Fails if the queue exists. */
    method CreateRq(kind: int, index: int) returns (ok: bool)
      requires Valid(Abs()) && IsDevice(kind) && se == map[]
      modifies this
      ensures Valid(Abs()) && se == map[] && outbox == old(outbox)
      ensures ok == (Queue(kind, index) !in old(rqs))
      ensures Abs() == if ok then WithQueue(old(Abs()), Queue(kind, index)) else old(Abs())
    {
      var q := Queue(kind, index);
      ok := q !in rqs;
      if ok {
        WithQueueValid(Abs(), q);
        var mq := if kind in mqs then mqs[kind] else Mq(0, 0, 0.0, {}, {});
        mqs := mqs[kind := mq.(nofRq := mq.nofRq + 1)];
        rqs := rqs[q := Rq(Curr(-1, 0, false), {}, 0, 0)];
      }
    }

    /** Search for the first queue that is not fuller than the average. */
    method GetBestRqOfMq(kind: int) returns (index: int)
      requires kind in mqs && mqs[kind].nofRq > 0 && Roomy(Abs(), kind) != {}
      ensures Queue(kind, index) == FirstQueue(Roomy(Abs(), kind))
      ensures Queue(kind, index) in rqs && |rqs[Queue(kind, index)].tree| <= mqs[kind].nofAll / mqs[kind].nofRq
      ensures forall i :: Queue(kind, i) in rqs && i < index ==> |rqs[Queue(kind, i)].tree| > mqs[kind].nofAll / mqs[kind].nofRq
    {
      var min := mqs[kind].nofAll / mqs[kind].nofRq;
      var rest := set q | q in rqs && q.kind == kind;
      while rest != {}
        invariant rest <= QueuesOf(Abs(), kind)
        invariant forall p :: p in QueuesOf(Abs(), kind) && p !in rest ==> |rqs[p].tree| > min
        invariant forall p, r :: p in QueuesOf(Abs(), kind) && p !in rest && r in rest ==> p.Less(r)
      {
        var q := FirstQueue(rest);
        if |rqs[q].tree| <= min {
          index := q.index;
          assert q in Roomy(Abs(), kind);
          return;
        }
        rest := rest - {q};
      }
      assert false;
    }

    /** Returns the number of inserted handles. */
    method InsertToRq(q: Queue, h: int) returns (n: int)
      requires q in rqs && h in se
      modifies `rqs, `se
      ensures n == if Key(old(rqs)[q].AverageVrun(), h) in old(rqs)[q].tree then 0 else 1
      ensures rqs == old(rqs)[q := old(rqs)[q].(length := old(rqs)[q].length + 1,
                        tree := old(rqs)[q].tree + {Key(old(rqs)[q].AverageVrun(), h)})]
      ensures se == if n == 0 then old(se)
                    else old(se)[h := old(se)[h].(queue := q, vrun := old(rqs)[q].AverageVrun())]
    {
      var rq := rqs[q];
      var t := rq.AverageVrun();
      var inserted := Key(t, h) !in rq.tree;
      rqs := rqs[q := rq.(tree := rq.tree + {Key(t, h)}, length := rq.length + 1)];
      n := 0;
      if inserted {
        n := 1;
        se := se[h := se[h].(queue := q, vrun := t)];
      }
    }

    /** Returns the number of removed handles; the current handle is never removed. */
    method RemoveFromRq(q: Queue, h: int) returns (n: int)
      requires q in rqs && h in se
      modifies `rqs, `se
      ensures old(rqs)[q].curr.handle == h ==> n == 0 && rqs == old(rqs) && se == old(se)
      ensures old(rqs)[q].curr.handle != h ==>
        && n == (if Key(old(se)[h].vrun, h) in old(rqs)[q].tree then 1 else 0)
        && rqs == old(rqs)[q := old(rqs)[q].(length := old(rqs)[q].length - 1,
                     tree := old(rqs)[q].tree - {Key(old(se)[h].vrun, h)})]
        && se == old(se)[h := old(se)[h].(queue := Queue(-1, -1))]
    {
      n := 0;
      if rqs[q].curr.handle != h {
        var k := Key(se[h].vrun, h);
        se := se[h := se[h].(queue := Queue(-1, -1))];
        n := if k in rqs[q].tree then 1 else 0;
        rqs := rqs[q := rqs[q].(tree := rqs[q].tree - {k}, length := rqs[q].length - 1)];
      }
    }

    /** Insertion into the emptiest queue of a multi-queue; the pull lists are left to the caller. */
    method InsertToMq(kind: int, h: int) returns (ok: bool, index: int)
      requires kind in mqs && mqs[kind].nofRq > 0 && Roomy(Abs(), kind) != {} && h in se
      modifies `rqs, `se, `mqs
      ensures Queue(kind, index) == FirstQueue(old(Roomy(Abs(), kind)))
      ensures ok == (Key(old(rqs)[Queue(kind, index)].AverageVrun(), h) !in old(rqs)[Queue(kind, index)].tree)
      ensures ok ==>
        var q := Queue(kind, index);
        var rq := old(rqs)[q];
        var mq := old(mqs)[kind];
        && rqs == old(rqs)[q := rq.(length := rq.length + 1, tree := rq.tree + {Key(rq.AverageVrun(), h)})]
        && se == old(se)[h := old(se)[h].(queue := q, vrun := rq.AverageVrun())]
        && mqs == old(mqs)[kind := mq.(nofAll := mq.nofAll + 1,
                              push := mq.push + {Rank(Aff(old(se)[h].msai, kind), h)})]
    {
      index := GetBestRqOfMq(kind);
      var n := InsertToRq(Queue(kind, index), h);
      ok := n != 0;
      if ok {
        var mq := mqs[kind];
        mqs := mqs[kind := mq.(nofAll := mq.nofAll + 1, push := mq.push + {Rank(Aff(se[h].msai, kind), h)})];
      }
    }

    /** A registered job is admitted to its first active type, and the queues tick.
        False where the daemon exits. */
    method AddJob(h: int, msai: seq<Slot>, now: nat) returns (accepted: bool)
      requires Valid(Abs()) && h > 0 && MsaiOk(msai) && clock <= now
      modifies this
      ensures accepted == (h !in old(se) && FirstActive(msai, old(mqs).Keys) < |msai|)
      ensures accepted ==>
        var kind := msai[FirstActive(msai, old(mqs).Keys)].kind;
        old(Roomy(Abs(), kind)) != {} &&
        var added := UssSpec.AddJob(old(Abs()), h, msai, FirstQueue(old(Roomy(Abs(), kind)))).(clock := now);
        Valid(added) && old(outbox) <= outbox
        && Outcome(Abs(), outbox[|old(outbox)|..]) == TickAll(added, added.rqs.Keys)
      ensures Valid(Abs())
      ensures !accepted ==> Abs() == old(Abs()) && outbox == old(outbox)
    {
      accepted := Admit(h, msai);
      if accepted {
        PeriodicTick(now);
      }
    }

    /** The entity, the tree and the multi-queue records of a new job. */
    method Admit(h: int, msai: seq<Slot>) returns (accepted: bool)
      requires Valid(Abs()) && h > 0 && MsaiOk(msai)
      modifies `se, `rqs, `mqs
      ensures accepted == (h !in old(se) && FirstActive(msai, old(mqs).Keys) < |msai|)
      ensures accepted ==>
        var kind := msai[FirstActive(msai, old(mqs).Keys)].kind;
        old(Roomy(Abs(), kind)) != {} &&
        Abs() == UssSpec.AddJob(old(Abs()), h, msai, FirstQueue(old(Roomy(Abs(), kind))))
      ensures !accepted ==> Abs() == old(Abs())
      ensures Valid(Abs())
      ensures accepted ==>
        && h in se && se == old(se)[h := se[h]] && se[h].queue in old(rqs)
        && se[h] == Se(0, 0, se[h].queue, 0, old(rqs)[se[h].queue].minVrun + 50_000_000, 0, false, msai)
    {
      ghost var s := Abs();
      if h in se {
        return false;
      }
      se := se[h := Se(IDLE, IDLE, Queue(-1, -1), 0, 0, 0, false, msai)];
      var i := FindActive(msai);
      if i == |msai| {
        se := se - {h};
        assert se == s.se;
        assert Abs() == s;
        return false;
      }
      Place(h, msai, i, s);
      accepted := true;
    }

    /** The best active type, the first in the list that has a multi-queue. */
    method FindActive(msai: seq<Slot>) returns (i: nat)
      ensures i == FirstActive(msai, mqs.Keys)
    {
      i := 0;
      while i < |msai| && msai[i].kind !in mqs
        invariant 0 <= i <= |msai|
        invariant forall j :: 0 <= j < i ==> msai[j].kind !in mqs
      {
        i := i + 1;
      }
      FirstActiveIs(msai, mqs.Keys, i);
    }

    /** The entity goes to the emptiest queue of its type. */
    method Place(h: int, msai: seq<Slot>, i: nat, ghost s: Sched)
      requires Valid(s) && h > 0 && MsaiOk(msai) && h !in s.se && i < |msai| && msai[i].kind in s.mqs
      requires Abs() == s.(se := s.se[h := Se(IDLE, IDLE, Queue(-1, -1), 0, 0, 0, false, msai)])
      modifies `se, `rqs, `mqs
      ensures Roomy(s, msai[i].kind) != {}
      ensures Abs() == UssSpec.AddJob(s, h, msai, FirstQueue(Roomy(s, msai[i].kind))) && Valid(Abs())
    {
      var kind := msai[i].kind;
      assert MqOk(s, kind);
      Balance.RoomExists(s, kind);
      assert Roomy(Abs(), kind) == Roomy(s, kind);
      var ok, index := InsertToMq(kind, h);
      ghost var q := Queue(kind, index);
      assert ok by {
        assert QueueOk(s, q);
        EntriesKnown(s, q);
      }
      ListAdded(h, msai, kind, s);
      assert Abs() == UssSpec.AddJob(s, h, msai, q) by {
        assert se == UssSpec.AddJob(s, h, msai, q).se;
        assert rqs == UssSpec.AddJob(s, h, msai, q).rqs;
      }
      AddJobValid(s, h, msai, q);
    }

    /** The pull lists and centerpoints of an admitted job. */
    method ListAdded(h: int, msai: seq<Slot>, kind: int, ghost s: Sched)
      requires MsaiOk(msai) && kind in s.mqs && Supports(msai, kind)
      requires mqs == s.mqs[kind := s.mqs[kind].(nofAll := s.mqs[kind].nofAll + 1,
                          push := s.mqs[kind].push + {Rank(Aff(msai, kind), h)})]
      modifies `mqs
      ensures mqs == map t | t in s.mqs :: AddedMq(s, t, h, msai, kind)
    {
      var helper, sum := ListPull(h, msai, kind);
      assert mqs.Keys == s.mqs.Keys;
      forall t | t in mqs
        ensures AddedMq(s, t, h, msai, kind) == if t in helper
          then mqs[t].(center := mqs[t].center + helper[t] as real / sum as real)
          else mqs[t].(center := mqs[t].center + 0.0)
      {
      }
      mqs := map t | t in mqs :: if t in helper
               then mqs[t].(center := mqs[t].center + helper[t] as real / sum as real) else mqs[t];
    }

    /** The job enters the pull list of every other type it supports; collects the active affinities. */
    method ListPull(h: int, msai: seq<Slot>, kind: int) returns (helper: map<int, int>, sum: int)
      requires MsaiOk(msai)
      modifies `mqs
      ensures mqs.Keys == old(mqs).Keys && sum == ActiveSum(msai, mqs.Keys)
      ensures forall t :: t in helper <==> t in mqs && Supports(msai, t)
      ensures forall t :: t in helper ==> helper[t] == Aff(msai, t) && sum > 0
      ensures forall t :: t in mqs ==>
        mqs[t] == if Supports(msai, t) && t != kind then old(mqs)[t].(pull := old(mqs)[t].pull + {Rank(Aff(msai, t), h)})
                  else old(mqs)[t]
    {
      helper, sum := map[], 0;
      ghost var start := mqs;
      var i := 0;
      while i < |msai|
        invariant 0 <= i <= |msai|
        invariant mqs.Keys == start.Keys
        invariant forall t :: t in helper <==> t in start && exists j :: 0 <= j < i && msai[j].kind == t
        invariant forall t :: t in helper ==> helper[t] == Aff(msai, t)
        invariant sum + ActiveSum(msai[i..], start.Keys) == ActiveSum(msai, start.Keys)
        invariant forall t :: t in start ==>
          mqs[t] == if t in helper && t != kind then start[t].(pull := start[t].pull + {Rank(Aff(msai, t), h)})
                    else start[t]
      {
        var t := msai[i].kind;
        AffAt(msai, i);
        assert msai[i..][1..] == msai[i + 1..];
        if t in mqs {
          if t != kind {
            mqs := mqs[t := mqs[t].(pull := mqs[t].pull + {Rank(msai[i].affinity, h)})];
          }
          helper := helper[t := msai[i].affinity];
          sum := sum + msai[i].affinity;
        }
        i := i + 1;
      }
      assert msai[i..] == [];
      forall t | t in helper ensures sum > 0 {
        var j :| 0 <= j < i && msai[j].kind == t;
        ActiveSumPositive(msai, start.Keys, j);
      }
    }

    /** All traces of a finished job removed. False where the daemon exits: the job is still current. */
    method RemoveJob(h: int) returns (ok: bool)
      requires Valid(Abs())
      modifies this
      ensures ok == (h in old(se) && old(se)[h].queue in old(rqs)
                     && old(rqs)[old(se)[h].queue].curr.handle != h)
      ensures ok ==> Valid(Abs()) && Abs() == UssSpec.RemoveJob(old(Abs()), h).(tokill := tokill)
      ensures !ok ==> Abs() == old(Abs())
      ensures tokill == old(tokill) && outbox == old(outbox)
    {
      ghost var s := Abs();
      if h !in se {
        return false;
      }
      assert JobOk(s, h);
      var q := se[h].queue;
      assert QueueOk(s, q);
      var n := RemoveFromRq(q, h);
      if n == 0 {
        return false;
      }
      var mq := mqs[q.kind];
      var msai := se[h].msai;
      mqs := mqs[q.kind := mq.(nofAll := mq.nofAll - 1, push := mq.push - {Rank(Aff(msai, q.kind), h)})];
      UnlistRemoved(h, s);
      se := se - {h};
      assert se == s.se - {h};
      RemoveJobValid(s, h);
      assert Abs() == UssSpec.RemoveJob(s, h).(tokill := tokill);
      TokillValid(UssSpec.RemoveJob(s, h), tokill);
      ok := true;
    }

    /** The pull lists and centerpoints of a removed job. */
    method UnlistRemoved(h: int, ghost s: Sched)
      requires h in s.se && h in se && se[h].msai == s.se[h].msai && JobOk(s, h)
      requires s.se[h].queue.kind in s.mqs
      requires var k := s.se[h].queue.kind;
        mqs == s.mqs[k := s.mqs[k].(nofAll := s.mqs[k].nofAll - 1,
                         push := s.mqs[k].push - {Rank(Aff(s.se[h].msai, k), h)})]
      modifies `mqs
      ensures mqs == map t | t in s.mqs :: RemovedMq(s, t, h)
    {
      var msai := se[h].msai;
      var helper, sum := UnlistPull(h, msai);
      assert mqs.Keys == s.mqs.Keys;
      forall t | t in mqs
        ensures RemovedMq(s, t, h) == if t in helper
          then mqs[t].(center := mqs[t].center - helper[t] as real / sum as real)
          else mqs[t].(center := mqs[t].center - 0.0)
      {
      }
      mqs := map t | t in mqs :: if t in helper
               then mqs[t].(center := mqs[t].center - helper[t] as real / sum as real) else mqs[t];
    }

    /** The job leaves the pull lists of all types it supports; collects the active affinities. */
    method UnlistPull(h: int, msai: seq<Slot>) returns (helper: map<int, int>, sum: int)
      requires MsaiOk(msai)
      modifies `mqs
      ensures mqs.Keys == old(mqs).Keys && sum == ActiveSum(msai, mqs.Keys)
      ensures forall t :: t in helper <==> t in mqs && Supports(msai, t)
      ensures forall t :: t in helper ==> helper[t] == Aff(msai, t) && sum > 0
      ensures forall t :: t in mqs ==>
        mqs[t] == if Supports(msai, t) then old(mqs)[t].(pull := old(mqs)[t].pull - {Rank(Aff(msai, t), h)})
                  else old(mqs)[t]
    {
      helper, sum := map[], 0;
      ghost var start := mqs;
      var i := 0;
      while i < |msai|
        invariant 0 <= i <= |msai|
        invariant mqs.Keys == start.Keys
        invariant forall t :: t in helper <==> t in start && exists j :: 0 <= j < i && msai[j].kind == t
        invariant forall t :: t in helper ==> helper[t] == Aff(msai, t)
        invariant sum + ActiveSum(msai[i..], start.Keys) == ActiveSum(msai, start.Keys)
        invariant forall t :: t in start ==>
          mqs[t] == if t in helper then start[t].(pull := start[t].pull - {Rank(Aff(msai, t), h)}) else start[t]
      {
        var t := msai[i].kind;
        AffAt(msai, i);
        assert msai[i..][1..] == msai[i + 1..];
        if t in mqs {
          mqs := mqs[t := mqs[t].(pull := mqs[t].pull - {Rank(msai[i].affinity, h)})];
          helper := helper[t := msai[i].affinity];
          sum := sum + msai[i].affinity;
        }
        i := i + 1;
      }
      assert msai[i..] == [];
      forall t | t in helper ensures sum > 0 {
        var j :| 0 <= j < i && msai[j].kind == t;
        ActiveSumPositive(msai, start.Keys, j);
      }
    }

    /** Returns the number of moved handles. */
    method MoveToRq(h: int, target: Queue, source: Queue) returns (n: int)
      requires Valid(Abs()) && h in se && source == se[h].queue && target in rqs && target != source
      requires Supports(se[h].msai, target.kind)
      modifies this
      ensures Valid(Abs()) && clock == old(clock) && outbox == old(outbox)
      ensures source in old(rqs) && n == if Movable(old(Abs()), h) then 1 else 0
      ensures source.kind in old(mqs) && target.kind in old(mqs)
      ensures Abs() == if n == 1 then UssSpec.Move(old(Abs()), h, target) else old(Abs())
      ensures n == 1 <==> !old(se)[h].finished && old(rqs)[source].length > 1 && old(rqs)[source].curr.handle != h
      ensures n == 1 ==> se == old(se)[h := old(se)[h].(queue := target, vrun := old(rqs)[target].minVrun + 50_000_000)]
    {
      ghost var s := Abs();
      assert JobOk(s, h) && QueueOk(s, source) && QueueOk(s, target);
      n := 0;
      if rqs[source].length > 1 && rqs[source].curr.handle != h && !se[h].finished {
        MoveValid(s, h, target);
        Transfer(h, target, source);
        Relist(h, target.kind, source.kind);
        n := 1;
      }
    }

    /** The tree and entity part of a move. */
    method Transfer(h: int, target: Queue, source: Queue)
      requires h in se && target in rqs && source in rqs && target != source && source == se[h].queue
      modifies `se, `rqs
      ensures se == old(se)[h := old(se)[h].(queue := target, vrun := old(rqs)[target].AverageVrun())]
      ensures rqs == old(rqs)[source := old(rqs)[source].(tree := old(rqs)[source].tree - {Key(old(se)[h].vrun, h)},
                                                        length := old(rqs)[source].length - 1)]
                             [target := old(rqs)[target].(tree := old(rqs)[target].tree
                                                                  + {Key(old(rqs)[target].AverageVrun(), h)},
                                                        length := old(rqs)[target].length + 1)]
    {
      var k := Key(se[h].vrun, h);
      rqs := rqs[source := rqs[source].(tree := rqs[source].tree - {k}, length := rqs[source].length - 1)];
      var t := rqs[target].AverageVrun();
      se := se[h := se[h].(queue := target, vrun := t)];
      rqs := rqs[target := rqs[target].(tree := rqs[target].tree + {Key(t, h)}, length := rqs[target].length + 1)];
    }

    /** The multi-queue part of a move: counters and affinity lists. */
    method Relist(h: int, target: int, source: int)
      requires h in se && target in mqs && source in mqs
      modifies `mqs
      ensures target == source ==> mqs == old(mqs)
      ensures target != source ==>
        var a := Rank(Aff(se[h].msai, source), h);
        var b := Rank(Aff(se[h].msai, target), h);
        var from := old(mqs)[source];
        var to := old(mqs)[target];
        mqs == old(mqs)[source := from.(nofAll := from.nofAll - 1, push := from.push - {a}, pull := from.pull + {a})]
                       [target := to.(nofAll := to.nofAll + 1, push := to.push + {b}, pull := to.pull - {b})]
    {
      mqs := mqs[source := mqs[source].(nofAll := mqs[source].nofAll - 1)];
      mqs := mqs[target := mqs[target].(nofAll := mqs[target].nofAll + 1)];
      if source != target {
        var a := Rank(Aff(se[h].msai, source), h);
        mqs := mqs[source := mqs[source].(push := mqs[source].push - {a}, pull := mqs[source].pull + {a})];
        var b := Rank(Aff(se[h].msai, target), h);
        mqs := mqs[target := mqs[target].(push := mqs[target].push + {b}, pull := mqs[target].pull - {b})];
      }
    }

    /** The current job is charged the time since its last charge. */
    method UpdateRuntime(q: Queue)
      requires q in rqs && rqs[q].curr.handle in se && rqs[q].curr.execStart <= clock
      modifies `se, `rqs
      ensures Abs() == Charge(old(Abs()), q)
      ensures var h := old(rqs)[q].curr.handle;
              var d := clock - old(rqs)[q].curr.execStart;
              && se == old(se)[h := old(se)[h].(rrun := old(se)[h].rrun + d, vrun := old(se)[h].vrun + d)]
              && rqs == old(rqs)[q := old(rqs)[q].(curr := Curr(h, clock, old(rqs)[q].curr.sent), tree := rqs[q].tree)]
              && rqs[q].tree == old(rqs)[q].tree - {Key(old(se)[h].vrun, h)} + {Key(old(se)[h].vrun + d, h)}
    {
      var h := rqs[q].curr.handle;
      var previous := se[h].vrun;
      var delta := clock - rqs[q].curr.execStart;
      se := se[h := se[h].(rrun := se[h].rrun + delta, vrun := se[h].vrun + delta)];
      rqs := rqs[q := rqs[q].(curr := rqs[q].curr.(execStart := clock))];
      rqs := rqs[q := rqs[q].(tree := rqs[q].tree - {Key(previous, h)})];
      rqs := rqs[q := rqs[q].(tree := rqs[q].tree + {Key(se[h].vrun, h)})];
    }

    /** The tick of one queue. */
    method UpdateCurr(q: Queue)
      requires Valid(Abs()) && q in rqs
      modifies this
      ensures Abs() == TickQueue(old(Abs()), q).s
      ensures outbox == old(outbox) + TickQueue(old(Abs()), q).sent
      ensures old(rqs)[q].curr.handle > 0 ==>
                && old(rqs)[q].curr.handle in old(se) && old(rqs)[q].curr.execStart <= clock
                && outbox == old(outbox) + if Due(old(Abs()), q) then [Sent(old(rqs)[q].curr.handle, 0, 0)] else []
    {
      ghost var s := Abs();
      assert QueueOk(s, q) && MqOk(s, q.kind);
      EntriesKnown(s, q);
      if rqs[q].curr.handle <= 0 {
        var _ := PickNext(q.kind, q.index);
      } else {
        var h := rqs[q].curr.handle;
        assert JobOk(s, h);
        UpdateIs(s, q, h);
        hide Due;
        UpdateRuntime(q);
        assert forall k :: k in rqs[q].tree ==> k.handle in se;
        var leftmost := Leftmost(rqs[q].tree).handle;
        if leftmost != h && !se[leftmost].finished && se[h].rrun >= se[h].minGran && !rqs[q].curr.sent {
          outbox := outbox + [Sent(h, IDLE, 0)];
          se := se[h := se[h].(nextMode := IDLE)];
          rqs := rqs[q := rqs[q].(curr := rqs[q].curr.(sent := true))];
        }
      }
    }

    /** The leftmost job that may run is made current. False where the daemon exits: unknown queue. */
    method PickNext(kind: int, index: int) returns (ok: bool)
      requires Valid(Abs())
      modifies this
      ensures ok == (kind == CPU || Queue(kind, index) in old(rqs))
      ensures kind == CPU || !ok ==> Abs() == old(Abs()) && outbox == old(outbox)
      ensures kind != CPU && ok ==>
        var q := Queue(kind, index);
        && (forall k :: k in old(rqs)[q].tree ==> k.handle in old(se))
        && Abs() == UssSpec.PickNext(old(Abs()), q).s
        && outbox == old(outbox) + UssSpec.PickNext(old(Abs()), q).sent
    {
      var q := Queue(kind, index);
      if kind == CPU {
        return true;
      }
      if q !in rqs {
        return false;
      }
      ok := true;
      ghost var s := Abs();
      EntriesKnown(s, q);
      var rest := rqs[q].tree;
      while rest != {}
        invariant rest <= s.rqs[q].tree
        invariant forall k :: k in s.rqs[q].tree && k !in rest ==> k !in Eligible(s, q)
        invariant forall k, l :: k in s.rqs[q].tree && k !in rest && l in rest ==> k.Less(l)
      {
        var k := Leftmost(rest);
        if !se[k.handle].finished && se[k.handle].mode == IDLE {
          assert k in Eligible(s, q);
          assert k == Leftmost(Eligible(s, q));
          rqs := rqs[q := rqs[q].(curr := Curr(k.handle, clock, false))];
          var delta := 0;
          var behind := rest - {k};
          assert behind == After(s.rqs[q].tree, k);
          if behind != {} {
            var second := Leftmost(behind).handle;
            if se[k.handle].rrun < se[second].rrun {
              delta := se[second].rrun - se[k.handle].rrun;
            }
          }
          se := se[k.handle := se[k.handle].(mode := kind,
                     minGran := delta + TURN_COST + BASE_GRANULARITY * 1000 + se[k.handle].rrun)];
          outbox := outbox + [Sent(k.handle, kind, index)];
          return;
        }
        rest := rest - {k};
      }
      assert Eligible(s, q) == {};
      rqs := rqs[q := rqs[q].(curr := Curr(-1, clock, false))];
    }

    /** One tick of the main loop. */
    method PeriodicTick(now: nat)
      requires Valid(Abs()) && clock <= now
      modifies this
      ensures Valid(old(Abs()).(clock := now)) && old(outbox) <= outbox
      ensures Outcome(Abs(), outbox[|old(outbox)|..]) == TickAll(old(Abs()).(clock := now), old(rqs).Keys)
      ensures Valid(Abs())
    {
      ClockValid(Abs(), now);
      clock := now;
      TickQueues();
    }

    /** Every queue ticks, in the order of the matrix. */
    method TickQueues()
      requires Valid(Abs())
      modifies this
      ensures Valid(Abs()) && old(outbox) <= outbox
      ensures Outcome(Abs(), outbox[|old(outbox)|..]) == TickAll(old(Abs()), old(rqs).Keys)
    {
      ghost var all := TickAll(Abs(), rqs.Keys);
      var rest := rqs.Keys;
      while rest != {}
        invariant Valid(Abs()) && rest <= rqs.Keys && old(outbox) <= outbox
        invariant TickedSoFar(all, rest, outbox[|old(outbox)|..])
      {
        rest := TickFirst(all, rest, |old(outbox)|);
      }
    }

    /** What was sent so far and the tick of the remaining queues add up to the whole tick. */
    ghost predicate TickedSoFar(all: Outcome, rest: set<Queue>, sent: seq<Sent>)
      requires Valid(Abs()) && rest <= rqs.Keys
      reads this
    {
      all == TickAll(Abs(), rest).(sent := sent + TickAll(Abs(), rest).sent)
    }

    method TickFirst(ghost all: Outcome, todo: set<Queue>, ghost from: nat) returns (rest: set<Queue>)
      requires Valid(Abs()) && todo <= rqs.Keys && todo != {} && from <= |outbox|
      requires TickedSoFar(all, todo, outbox[from..])
      modifies this
      ensures Valid(Abs()) && rest < todo && rest <= rqs.Keys && old(outbox) <= outbox
      ensures TickedSoFar(all, rest, outbox[from..])
    {
      TickAllStep(Abs(), todo, outbox[from..]);
      var q := FirstQueue(todo);
      UpdateCurr(q);
      rest := todo - {q};
      assert outbox[from..] == old(outbox[from..]) + TickQueue(old(Abs()), q).sent;
    }

    /** An empty queue pulls the best job that may move. */
    method RefillQueue(q: Queue) returns (ghost ms: seq<Migration>)
      requires Valid(Abs()) && q in rqs && rqs[q].tree == {}
      modifies this
      ensures Valid(Abs()) && outbox == old(outbox)
      ensures Migrates(old(Abs()), ms, Abs(), Pull) && Served(Abs(), q)
      ensures forall m :: m in ms ==> m.target == q
    {
      ghost var s := Abs();
      assert QueueOk(s, q) && MqOk(s, q.kind);
      var rest := mqs[q.kind].pull;
      while rest != {}
        invariant Abs() == s && outbox == old(outbox) && rest <= mqs[q.kind].pull
        invariant forall r :: r in mqs[q.kind].pull && r !in rest ==> !CanMove(s, r.handle)
        invariant forall r, x :: r in mqs[q.kind].pull && r !in rest && x in rest ==> x.Less(r)
      {
        var r := FirstDes(rest);
        assert InPull(s, q.kind, r) && JobOk(s, r.handle);
        ghost var m := Migration(r.handle, q);
        var n := MoveToRq(r.handle, q, se[r.handle].queue);
        if n == 1 {
          assert CanMove(s, r.handle) && IsStep(s, m, Pull);
          ms := [m];
          assert ms[1..] == [];
          assert m.handle in Abs().se && JobOk(Abs(), m.handle);
          return;
        }
        rest := rest - {r};
      }
      ms := [];
      assert Exhausted(s, q.kind);
    }

    /** A multi-queue with fewer jobs than queues refills its empty queues. */
    method RefillMq(t: int) returns (ghost ms: seq<Migration>)
      requires Valid(Abs()) && t in mqs
      modifies this
      ensures Valid(Abs()) && outbox == old(outbox)
      ensures Migrates(old(Abs()), ms, Abs(), Pull)
      ensures Starving(old(Abs()), t) ==> forall q :: q in old(rqs) && q.kind == t ==> Served(Abs(), q)
      ensures forall m :: m in ms ==> m.target.kind == t
      ensures !Starving(old(Abs()), t) ==> ms == []
    {
      ms := [];
      if mqs[t].nofAll < mqs[t].nofRq {
        var rest := set q | q in rqs && q.kind == t;
        while rest != {}
          invariant Valid(Abs()) && outbox == old(outbox) && rest <= rqs.Keys
          invariant Migrates(old(Abs()), ms, Abs(), Pull) && forall m :: m in ms ==> m.target.kind == t
          invariant forall q :: q in rest ==> q.kind == t
          invariant forall q :: q in old(rqs) && q.kind == t ==> q in rest || Served(Abs(), q)
        {
          var q := FirstQueue(rest);
          ms := RefillNext(q, old(Abs()), ms);
          rest := rest - {q};
        }
      }
    }

    method RefillNext(q: Queue, ghost s: Sched, ghost before: seq<Migration>) returns (ghost ms: seq<Migration>)
      requires Valid(Abs()) && q in rqs && Migrates(s, before, Abs(), Pull)
      modifies this
      ensures Valid(Abs()) && outbox == old(outbox) && rqs.Keys == old(rqs).Keys
      ensures Migrates(s, ms, Abs(), Pull) && Served(Abs(), q)
      ensures forall m :: m in ms ==> m in before || m.target == q
      ensures forall p :: Served(old(Abs()), p) ==> Served(Abs(), p)
    {
      ghost var s1 := Abs();
      assert QueueOk(s1, q);
      ms := before;
      if rqs[q].length == 0 {
        ghost var more := RefillQueue(q);
        MigratesConcat(s, before, s1, more, Abs(), Pull);
        MigratesConserves(s1, more, Abs(), Pull);
        RefillsKeepServed(s1, more, Abs());
        ms := before + more;
      }
    }

    /** The pull phase: starving multi-queues refill, in the order of the matrix. Afterwards a queue of a
        multi-queue that had fewer jobs than queues when its turn came is served; so is one of a
        multi-queue that started with fewer. */
    method PullPhase() returns (ghost ms: seq<Migration>, ghost visited: map<int, Sched>, ghost stages: seq<Stage>)
      requires Valid(Abs())
      modifies this
      ensures Valid(Abs()) && outbox == old(outbox) && Migrates(old(Abs()), ms, Abs(), Pull)
      ensures forall q :: q in old(rqs) ==> q.kind in visited
      ensures forall t :: t in visited ==> VisitedAt(old(Abs()), ms, Abs(), t, visited[t])
      ensures forall q :: q in old(rqs) && Starving(visited[q.kind], q.kind) ==> Served(Abs(), q)
      ensures forall q :: q in old(rqs) && Starving(old(Abs()), q.kind) ==> Served(Abs(), q)
      ensures Stages(old(Abs()), stages, Abs(), set q | q in old(rqs) :: q.kind)
      ensures forall i :: 0 <= i < |stages| ==> Pulls(stages[i])
    {
      hide Migrates, VisitedAt, Served, Starving, Stages, Pulls;
      ms, visited, stages := [], map[], [];
      NoStages(Abs());
      PassStarts(Abs());
      assert visited.Keys == {};
      var rest := rqs.Keys;
      while rest != {}
        invariant Valid(Abs()) && outbox == old(outbox) && rest <= rqs.Keys == old(rqs).Keys
        invariant Passing(old(Abs()), ms, visited, Abs())
        invariant forall q :: q in old(rqs) ==> q in rest || q.kind in visited
        invariant forall q, t :: q in rest && t in visited ==> t < q.kind
        invariant visited.Keys <= set q | q in old(rqs) :: q.kind
        invariant Stages(old(Abs()), stages, Abs(), visited.Keys)
        invariant forall i :: 0 <= i < |stages| ==> Pulls(stages[i])
      {
        var t := FirstQueue(rest).kind;
        ghost var s, was := Abs(), visited;
        ghost var more;
        ms, visited, more := PullInto(t, old(Abs()), ms, visited);
        StagesOneMore(old(Abs()), stages, s, was.Keys, Stage(t, more, s, Abs()));
        stages := stages + [Stage(t, more, s, Abs())];
        assert visited.Keys == was.Keys + {t};
        rest := set q | q in rest && q.kind != t;
      }
      assert visited.Keys == set q | q in old(rqs) :: q.kind;
      forall q | q in old(rqs) && Starving(old(Abs()), q.kind) ensures Served(Abs(), q) {
        StarvingUntilVisited(old(Abs()), ms, Abs(), q.kind, visited[q.kind]);
      }
    }

    method PullInto(t: int, ghost s: Sched, ghost before: seq<Migration>, ghost seen: map<int, Sched>)
      returns (ghost ms: seq<Migration>, ghost visited: map<int, Sched>, ghost more: seq<Migration>)
      requires Valid(Abs()) && (exists q :: q in rqs && q.kind == t)
      requires Passing(s, before, seen, Abs()) && (forall k :: k in seen ==> k < t) && s.rqs.Keys == rqs.Keys
      modifies this
      ensures Valid(Abs()) && outbox == old(outbox) && rqs.Keys == old(rqs).Keys
      ensures Passing(s, ms, visited, Abs()) && visited == seen[t := old(Abs())]
      ensures Pulls(Stage(t, more, old(Abs()), Abs()))
    {
      ghost var s1 := Abs();
      assert exists q :: q in rqs && q.kind == t && QueueOk(s1, q);
      more := RefillMq(t);
      MigratesConserves(s1, more, Abs(), Pull);
      RefillsKeepServed(s1, more, Abs());
      PassesOne(s, before, seen, s1, t, more, Abs());
      ms, visited := before + more, seen[t := s1];
    }

    /** The push of one crowded multi-queue: at most one of its jobs of least affinity leaves. If none
        does, none of the tried ones could: the first `Excess` entries of the push list, or all of them. */
    method PushFrom(t: int) returns (ghost ms: seq<Migration>, ghost tried: set<Rank>)
      requires Valid(Abs()) && t in mqs
      modifies this
      ensures Valid(Abs()) && outbox == old(outbox)
      ensures Pushes(Stage(t, ms, old(Abs()), Abs()), tried)
    {
      ms, tried := [], {};
      ghost var s := Abs();
      assert MqOk(s, t);
      var x := mqs[t].nofAll - Ceiling(mqs[t].center);
      if x > 0 && mqs[t].nofAll > mqs[t].nofRq {
        var least := PushThreshold(x);
        var tries := 0;
        var rest := mqs[t].push;
        while rest != {} && tries != x
          invariant Abs() == s && outbox == old(outbox) && rest <= mqs[t].push && ms == []
          invariant tried == mqs[t].push - rest && |tried| == tries <= x
          invariant forall a, b :: a in tried && b in rest ==> a.Less(b)
          invariant forall r :: r in tried ==> !Pushable(s, r.handle, t, least)
        {
          var r := FirstAsc(rest);
          assert InPush(s, t, r);
          var moved;
          moved, ms := PushJob(r.handle, t, least);
          if moved {
            assert PushesNext(s, t, tried, ms[0]) by { NextPushed(s, t, tried, rest, r, ms[0]); }
            return;
          }
          assert mqs[t].push - (rest - {r}) == tried + {r};
          tried := tried + {r};
          rest := rest - {r};
          tries := tries + 1;
        }
      }
    }

    /** A waiting job moves to its first type, other than `t`, with affinity at least `least`. */
    method PushJob(h: int, t: int, least: int) returns (moved: bool, ghost ms: seq<Migration>)
      requires Valid(Abs()) && h in se && se[h].queue.kind == t && t in mqs
      requires Crowded(Abs(), t) && least == PushThreshold(Excess(Abs(), t))
      modifies this
      ensures Valid(Abs()) && outbox == old(outbox)
      ensures |ms| <= 1 && Migrates(old(Abs()), ms, Abs(), Push)
      ensures moved == (ms != []) && (moved ==> ms[0].handle == h)
      ensures moved ==> exists i: nat :: IsFirstChoice(old(Abs()), h, t, least, i) && old(se)[h].msai[i].kind == ms[0].target.kind
      ensures !moved ==> !Pushable(Abs(), h, t, least) && Abs() == old(Abs())
    {
      moved, ms := false, [];
      ghost var s := Abs();
      assert JobOk(s, h);
      if (se[h].mode == IDLE || se[h].mode == CPU) && !se[h].finished {
        var msai := se[h].msai;
        var i := 0;
        while i < |msai|
          invariant 0 <= i <= |msai| && Abs() == s && outbox == old(outbox)
          invariant forall j :: 0 <= j < i && msai[j].affinity >= least && msai[j].kind != t && msai[j].kind in mqs
                      ==> !CanMove(s, h)
        {
          AffAt(msai, i);
          if msai[i].affinity >= least && msai[i].kind != t && msai[i].kind in mqs {
            Balance.RoomExists(s, msai[i].kind);
            assert MqOk(s, msai[i].kind);
            var index := GetBestRqOfMq(msai[i].kind);
            var target := Queue(msai[i].kind, index);
            var n := MoveToRq(h, target, se[h].queue);
            if n == 1 {
              ghost var m := Migration(h, target);
              assert IsStep(s, m, Push);
              moved, ms := true, [m];
              assert ms[1..] == [];
              assert CanMove(s, h);
              assert IsFirstChoice(s, h, t, least, i);
              return;
            }
          }
          i := i + 1;
        }
        if k :| k in mqs && k != t && Supports(msai, k) && Aff(msai, k) >= least {
          var j :| 0 <= j < |msai| && msai[j].kind == k;
          AffAt(msai, j);
        }
      }
    }

    /** The push phase: every multi-queue once, in the order of the matrix. */
    method PushPhase() returns (ghost ms: seq<Migration>, ghost stages: seq<Stage>)
      requires Valid(Abs())
      modifies this
      ensures Valid(Abs()) && outbox == old(outbox) && Migrates(old(Abs()), ms, Abs(), Push)
      ensures |ms| <= |old(rqs)|
      ensures Stages(old(Abs()), stages, Abs(), set q | q in old(rqs) :: q.kind)
      ensures forall i :: 0 <= i < |stages| ==> PushesSome(stages[i])
    {
      hide Migrates, Stages, PushesSome;
      ms, stages := [], [];
      NoStages(Abs());
      NoMoves(Abs());
      var rest := rqs.Keys;
      ghost var done: set<int> := {};
      while rest != {}
        invariant Valid(Abs()) && outbox == old(outbox) && rest <= rqs.Keys == old(rqs).Keys
        invariant Migrates(old(Abs()), ms, Abs(), Push) && |ms| + |rest| <= |old(rqs)|
        invariant forall q :: q in old(rqs) ==> q in rest || q.kind in done
        invariant done <= set q | q in old(rqs) :: q.kind
        invariant forall q, t :: q in rest && t in done ==> t < q.kind
        invariant Stages(old(Abs()), stages, Abs(), done)
        invariant forall i :: 0 <= i < |stages| ==> PushesSome(stages[i])
      {
        var q := FirstQueue(rest);
        ghost var s, more := Abs(), [];
        ms, more := PushNext(q, old(Abs()), ms);
        StagesOneMore(old(Abs()), stages, s, done, Stage(q.kind, more, s, Abs()));
        stages, done := stages + [Stage(q.kind, more, s, Abs())], done + {q.kind};
        var later := set p | p in rest && p.kind != q.kind;
        Collections.ProperSubsetIsSmaller(later, rest);
        rest := later;
      }
      assert done == set q | q in old(rqs) :: q.kind;
    }

    method PushNext(q: Queue, ghost s: Sched, ghost before: seq<Migration>)
      returns (ghost ms: seq<Migration>, ghost more: seq<Migration>)
      requires Valid(Abs()) && q in rqs && Migrates(s, before, Abs(), Push)
      modifies this
      ensures Valid(Abs()) && outbox == old(outbox) && rqs.Keys == old(rqs).Keys
      ensures Migrates(s, ms, Abs(), Push) && |ms| <= |before| + 1
      ensures PushesSome(Stage(q.kind, more, old(Abs()), Abs()))
    {
      ghost var s1 := Abs();
      assert QueueOk(s1, q);
      ghost var tried;
      more, tried := PushFrom(q.kind);
      MigratesConcat(s, before, s1, more, Abs(), Push);
      MigratesConserves(s1, more, Abs(), Push);
      ms := before + more;
    }

    /** Pull, an immediate tick, push. */
    method LoadBalancing(now: nat)
      returns (ghost refills: seq<Migration>, ghost visited: map<int, Sched>, ghost pulled: Sched, ghost ticked: Sched,
               ghost pulls: seq<Stage>, ghost pushes: seq<Stage>)
      requires Valid(Abs()) && clock <= now
      modifies this
      ensures Valid(Abs()) && Valid(pulled) && Conserves(old(Abs()), pulled)
      ensures Migrates(old(Abs()), refills, pulled, Pull)
      ensures forall q :: q in old(rqs) ==> q.kind in visited
      ensures forall t :: t in visited ==> VisitedAt(old(Abs()), refills, pulled, t, visited[t])
      ensures forall q :: q in old(rqs) && Starving(visited[q.kind], q.kind) ==> Served(pulled, q)
      ensures forall q :: q in old(rqs) && Starving(old(Abs()), q.kind) ==> Served(pulled, q)
      ensures Valid(pulled.(clock := now)) && ticked == TickAll(pulled.(clock := now), pulled.rqs.Keys).s
      ensures Conserves(ticked, Abs())
      ensures Stages(old(Abs()), pulls, pulled, set q | q in old(rqs) :: q.kind) && forall i :: 0 <= i < |pulls| ==> Pulls(pulls[i])
      ensures Stages(ticked, pushes, Abs(), set q | q in old(rqs) :: q.kind) && forall i :: 0 <= i < |pushes| ==> PushesSome(pushes[i])
    {
      hide Stages, Pulls, PushesSome;
      ghost var s := Abs();
      refills, visited, pulls := PullPhase();
      pulled := Abs();
      MigratesConserves(s, refills, pulled, Pull);
      assert clock == old(clock);
      PeriodicTick(now);
      ticked := Abs();
      ghost var ms;
      ms, pushes := PushPhase();
      MigratesConserves(ticked, ms, Abs(), Push);
    }

    /** A client left its device. False where the daemon exits: unknown handle. */
    method HandleCleanup(h: int, isFinished: bool) returns (ok: bool)
      requires Valid(Abs())
      modifies this
      ensures ok == (h in old(se))
      ensures Abs() == if ok then UssSpec.HandleCleanup(old(Abs()), h, isFinished) else old(Abs())
      ensures ok ==> se == old(se)[h := old(se)[h].(mode := old(se)[h].nextMode, finished := isFinished || old(se)[h].finished)]
      ensures ok ==> tokill == (if isFinished then old(tokill) + {h} else old(tokill)) && rqs == old(rqs) && mqs == old(mqs)
      ensures Valid(Abs()) && outbox == old(outbox)
    {
      if h !in se {
        return false;
      }
      HandleCleanupValid(Abs(), h, isFinished);
      se := se[h := se[h].(mode := se[h].nextMode)];
      if isFinished {
        se := se[h := se[h].(finished := true)];
        tokill := tokill + {h};
      }
      ok := true;
    }

    /** Dispatch of one client message. */
    method HandleMessage(h: int, m: MessageType, kind: int, index: int) returns (ok: bool)
      requires Valid(Abs())
      modifies this
      ensures m == NotSet || m == StatusReport ==> ok && Abs() == old(Abs()) && outbox == old(outbox)
      ensures (m == CleanupDone || m == IsFinished) ==>
        ok == (h in old(se) && (kind == CPU || Queue(kind, index) in old(rqs)))
      ensures (m == CleanupDone || m == IsFinished) && ok && kind != CPU ==>
        var c := UssSpec.HandleCleanup(old(Abs()), h, m == IsFinished);
        var q := Queue(kind, index);
        && (forall k :: k in c.rqs[q].tree ==> k.handle in c.se)
        && Abs() == UssSpec.PickNext(c, q).s && outbox == old(outbox) + UssSpec.PickNext(c, q).sent
      ensures Valid(Abs())
    {
      ok := true;
      if m == CleanupDone || m == IsFinished {
        ok := HandleCleanup(h, m == IsFinished);
        if ok {
          ghost var c, q := Abs(), Queue(kind, index);
          if kind != CPU && q in rqs {
            EntriesKnown(c, q);
            PickNextValid(c, q);
          }
          ok := PickNext(kind, index);
        }
      }
    }

    /** Finished jobs leave the system, the least handles first and at most 1000 per pass. False where the daemon exits. */
    method RemoveFinishedJobs() returns (ok: bool)
      requires Valid(Abs())
      modifies this
      ensures ok == forall h :: h in Lowest(old(tokill), 1000) ==> Removable(old(Abs()), h)
      ensures ok ==> Valid(Abs()) && tokill == old(tokill) - Lowest(old(tokill), 1000)
                     && Gone(old(Abs()), Abs(), Lowest(old(tokill), 1000))
      ensures outbox == old(outbox)
    {
      ok := true;
      ghost var gone: set<int>, left := {}, 1000;
      RemovingStarts(Abs());
      hide Removing, Gone, Removable, Lowest;
      for i := 0 to 1000
        invariant Valid(Abs()) && outbox == old(outbox) && ok
        invariant left == 1000 - i && Removing(old(Abs()), Abs(), gone, left)
      {
        if tokill == {} {
          break;
        }
        ghost var s := Abs();
        var h := LeastOf(tokill);
        RemovingNext(old(Abs()), s, gone, left, h);
        ok := RemoveOne(h);
        if !ok {
          return;
        }
        RemovingOneMore(old(Abs()), s, Abs(), gone, left, h);
        gone, left := gone + {h}, left - 1;
      }
      RemovingEnds(old(Abs()), Abs(), gone, left);
    }

    /** One finished job removed and struck off the list. */
    method RemoveOne(h: int) returns (ok: bool)
      requires Valid(Abs()) && h in tokill
      modifies this
      ensures ok == Removable(old(Abs()), h)
      ensures ok ==> Valid(Abs()) && tokill == old(tokill) - {h} && Gone(old(Abs()), Abs(), {h})
      ensures outbox == old(outbox)
    {
      ghost var s := Abs();
      if h in se { assert JobOk(s, h); }
      ok := RemoveJob(h);
      if ok {
        RemoveIsGone(s, Abs(), h);
        TokillValid(Abs(), tokill - {h});
        tokill := tokill - {h};
      }
    }
  }

  // The phases of the load balancer.

  lemma NoStages(s: Sched)
    ensures Stages(s, [], s, {})
  {
  }

  lemma NoMoves(s: Sched)
    ensures Migrates(s, [], s, Push)
  {
  }

  lemma NextPushed(s: Sched, t: int, tried: set<Rank>, rest: set<Rank>, r: Rank, m: Migration)
    requires t in s.mqs && Excess(s, t) >= 0 && |tried| < Excess(s, t) && tried == s.mqs[t].push - rest
    requires IsLeastRank(r, rest) && rest <= s.mqs[t].push && InPush(s, t, r) && m.handle == r.handle
    requires exists i: nat :: IsFirstChoice(s, r.handle, t, PushThreshold(Excess(s, t)), i) && s.se[r.handle].msai[i].kind == m.target.kind
    ensures PushesNext(s, t, tried, m)
  {
    forall b | b in s.mqs[t].push && b !in tried && b.handle != m.handle ensures Rank(Aff(s.se[m.handle].msai, t), m.handle).Less(b) {
      assert b in rest && b != r;
    }
  }

  // Removal of finished jobs.

  predicate IsLeastOf(h: int, s: set<int>) {
    h in s && forall x :: x in s ==> h <= x
  }

  lemma {:induction false} LeastExists(s: set<int>)
    requires s != {}
    ensures exists h :: IsLeastOf(h, s)
  {
    var x := Collections.AnyOf(s);
    if s == {x} {
      assert IsLeastOf(x, s);
    } else {
      LeastExists(s - {x});
      var y :| IsLeastOf(y, s - {x});
      var m := if x < y then x else y;
      forall z | z in s ensures m <= z {
        assert z == x || z in s - {x};
      }
      assert IsLeastOf(m, s);
    }
  }

  /** The first element of an ordered set. */
  function LeastOf(s: set<int>): (h: int)
    requires s != {}
    ensures IsLeastOf(h, s)
  {
    LeastExists(s);
    var h :| IsLeastOf(h, s);
    h
  }

  /** The n least elements, or all. */
  ghost function Lowest(s: set<int>, n: nat): set<int>
    decreases n
  {
    if n == 0 || s == {} then {} else {LeastOf(s)} + Lowest(s - {LeastOf(s)}, n - 1)
  }

  lemma {:induction false} LowestIs(s: set<int>, n: nat)
    ensures Lowest(s, n) <= s && |Lowest(s, n)| == (if |s| < n then |s| else n)
    ensures forall a, b :: a in Lowest(s, n) && b in s - Lowest(s, n) ==> a < b
    decreases n
  {
    if n > 0 && s != {} {
      var m := LeastOf(s);
      LowestIs(s - {m}, n - 1);
      var rest := Lowest(s - {m}, n - 1);
      forall a, b | a in Lowest(s, n) && b in s - Lowest(s, n) ensures a < b {
        assert b in (s - {m}) - rest && m <= b;
      }
    }
  }

  /** The job is known and not running. */
  ghost predicate Removable(s: Sched, h: int) {
    h in s.se && s.se[h].queue in s.rqs && s.rqs[s.se[h].queue].curr.handle != h
  }

  /** The jobs are in no table, tree or list any more, and the others are where they were. */
  ghost predicate Gone(s: Sched, s': Sched, gone: set<int>) {
    && s'.se.Keys == s.se.Keys - gone && (forall h :: h in s'.se ==> s'.se[h] == s.se[h])
    && s'.rqs.Keys == s.rqs.Keys && s'.mqs.Keys == s.mqs.Keys && s'.clock == s.clock
    && (forall q :: q in s.rqs ==> s'.rqs[q].curr == s.rqs[q].curr)
    && (forall q :: q in s.rqs ==> s'.rqs[q].tree == KeysWithout(s.rqs[q].tree, gone))
    && (forall t :: t in s.mqs ==>
          && s'.mqs[t].push == RanksWithout(s.mqs[t].push, gone)
          && s'.mqs[t].pull == RanksWithout(s.mqs[t].pull, gone))
  }

  function KeysWithout(tree: set<Key>, gone: set<int>): set<Key> {
    set k | k in tree && k.handle !in gone
  }

  function RanksWithout(list: set<Rank>, gone: set<int>): set<Rank> {
    set r | r in list && r.handle !in gone
  }

  lemma GoneNobody(s: Sched)
    ensures Gone(s, s, {})
  {
    forall q | q in s.rqs ensures s.rqs[q].tree == KeysWithout(s.rqs[q].tree, {}) {}
    forall t | t in s.mqs
      ensures s.mqs[t].push == RanksWithout(s.mqs[t].push, {}) && s.mqs[t].pull == RanksWithout(s.mqs[t].pull, {}) {}
  }

  lemma GoneKeepsPlaces(s: Sched, s': Sched, gone: set<int>, h: int)
    requires Gone(s, s', gone) && h !in gone
    ensures Removable(s', h) <==> Removable(s, h)
  {
  }

  lemma RemoveIsGone(s: Sched, s': Sched, h: int)
    requires Valid(s) && Removable(s, h) && s' == UssSpec.RemoveJob(s, h).(tokill := s'.tokill)
    ensures Gone(s, s', {h})
  {
    RemoveJobValid(s, h);
    var r := UssSpec.RemoveJob(s, h);
    assert JobOk(s, h);
    forall q | q in s.rqs ensures s'.rqs[q].tree == KeysWithout(s.rqs[q].tree, {h}) {
      assert QueueOk(s, q);
      forall k | k in s.rqs[q].tree && k.handle == h ensures k == Key(s.se[h].vrun, h) && q == s.se[h].queue {
        assert EntryOk(s, q, k);
      }
    }
    forall t | t in s.mqs
      ensures s'.mqs[t].push == RanksWithout(s.mqs[t].push, {h})
      ensures s'.mqs[t].pull == RanksWithout(s.mqs[t].pull, {h})
    {
      assert MqOk(s, t) && MqOk(r, t);
      forall x ensures (InPush(r, t, x) <==> InPush(s, t, x) && x.handle != h) && (InPull(r, t, x) <==> InPull(s, t, x) && x.handle != h) {
      }
      forall x ensures x in s'.mqs[t].push <==> x in RanksWithout(s.mqs[t].push, {h}) {
        assert x in r.mqs[t].push <==> InPush(r, t, x);
      }
      forall x ensures x in s'.mqs[t].pull <==> x in RanksWithout(s.mqs[t].pull, {h}) {
        assert x in r.mqs[t].pull <==> InPull(r, t, x);
      }
    }
  }

  lemma GoneBoth(s: Sched, s1: Sched, s2: Sched, a: set<int>, b: set<int>)
    requires Gone(s, s1, a) && Gone(s1, s2, b)
    ensures Gone(s, s2, a + b)
  {
    forall q | q in s.rqs ensures s2.rqs[q].tree == KeysWithout(s.rqs[q].tree, a + b) {
      assert KeysWithout(KeysWithout(s.rqs[q].tree, a), b) == KeysWithout(s.rqs[q].tree, a + b);
    }
    forall t | t in s.mqs
      ensures s2.mqs[t].push == RanksWithout(s.mqs[t].push, a + b)
      ensures s2.mqs[t].pull == RanksWithout(s.mqs[t].pull, a + b)
    {
      assert RanksWithout(RanksWithout(s.mqs[t].push, a), b) == RanksWithout(s.mqs[t].push, a + b);
      assert RanksWithout(RanksWithout(s.mqs[t].pull, a), b) == RanksWithout(s.mqs[t].pull, a + b);
    }
  }

  /** A pass from s has removed `gone` and has n removals left. */
  ghost predicate Removing(s: Sched, now: Sched, gone: set<int>, n: nat) {
    && now.tokill == s.tokill - gone && gone <= s.tokill
    && Lowest(s.tokill, 1000) == gone + Lowest(now.tokill, n)
    && (forall h :: h in gone ==> Removable(s, h))
    && Gone(s, now, gone)
  }

  lemma RemovingStarts(s: Sched)
    ensures Removing(s, s, {}, 1000)
  {
    GoneNobody(s);
  }

  lemma RemovingNext(s: Sched, now: Sched, gone: set<int>, n: nat, h: int)
    requires Removing(s, now, gone, n) && n > 0 && now.tokill != {} && h == LeastOf(now.tokill)
    ensures h in Lowest(s.tokill, 1000) && (Removable(now, h) <==> Removable(s, h))
  {
    GoneKeepsPlaces(s, now, gone, h);
  }

  lemma RemovingOneMore(s: Sched, now: Sched, after: Sched, gone: set<int>, n: nat, h: int)
    requires Removing(s, now, gone, n) && n > 0 && now.tokill != {} && h == LeastOf(now.tokill)
    requires Removable(s, h) && after.tokill == now.tokill - {h} && Gone(now, after, {h})
    ensures Removing(s, after, gone + {h}, n - 1)
  {
    hide Gone;
    GoneBoth(s, now, after, gone, {h});
  }

  lemma RemovingEnds(s: Sched, now: Sched, gone: set<int>, n: nat)
    requires Removing(s, now, gone, n) && (n == 0 || now.tokill == {})
    ensures gone == Lowest(s.tokill, 1000) && now.tokill == s.tokill - gone && Gone(s, now, gone)
    ensures forall h :: h in gone ==> Removable(s, h)
  {
  }

  lemma {:induction false} FirstActiveIs(m: seq<Slot>, kinds: set<int>, i: nat)
    requires i <= |m| && (i < |m| ==> m[i].kind in kinds)
    requires forall j :: 0 <= j < i ==> m[j].kind !in kinds
    ensures FirstActive(m, kinds) == i
  {
  }

  lemma TokillValid(s: Sched, tokill: set<int>)
    requires Valid(s)
    ensures Valid(s.(tokill := tokill))
  {
    forall q | q in s.rqs ensures QueueOk(s, q) {}
    SamePlacement(s, s.(tokill := tokill));
  }
}
