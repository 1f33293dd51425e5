/** What each scheduler operation does to the whole scheduler state, the
    agreement of the redundant indexes, and the proof that every operation
    keeps it. The class in UssScheduler computes these functions. */
module UssSpec {
  import opened UssTypes

  // ---------- meta scheduling information ----------

  /** Affinity of the first slot for `kind`, or -1 where there is none. */
  function Aff(m: seq<Slot>, kind: int): int {
    if m == [] then -1 else if m[0].kind == kind then m[0].affinity else Aff(m[1..], kind)
  }

  predicate Supports(m: seq<Slot>, kind: int) {
    exists i :: 0 <= i < |m| && m[i].kind == kind
  }

  predicate MsaiOk(m: seq<Slot>) {
    && 1 <= |m| <= MAX_MSI
    && (forall i, j :: 0 <= i < j < |m| ==> m[i].kind != m[j].kind)
    && (forall i :: 0 <= i < |m| ==> m[i].affinity > 0)
  }

  lemma {:induction false} AffAt(m: seq<Slot>, i: nat)
    requires i < |m|
    requires forall a, b :: 0 <= a < b < |m| ==> m[a].kind != m[b].kind
    ensures Aff(m, m[i].kind) == m[i].affinity
  {
    if i > 0 {
      AffAt(m[1..], i - 1);
    }
  }

  // ---------- index agreement ----------

  ghost function QueuesOf(s: Sched, kind: int): set<Queue> {
    set q | q in s.rqs && q.kind == kind
  }

  ghost function JobsOf(s: Sched, kind: int): set<int> {
    set h | h in s.se && s.se[h].queue.kind == kind
  }

  /** A job is in the tree of the queue its entity records, under the key it records. */
  ghost predicate JobOk(s: Sched, h: int)
    requires h in s.se
  {
    && h > 0
    && MsaiOk(s.se[h].msai)
    && s.se[h].queue in s.rqs
    && Supports(s.se[h].msai, s.se[h].queue.kind)
    && Key(s.se[h].vrun, h) in s.rqs[s.se[h].queue].tree
  }

  /** A tree entry belongs to a job that records this queue and this key. */
  ghost predicate EntryOk(s: Sched, q: Queue, k: Key) {
    k.handle in s.se && s.se[k.handle].queue == q && s.se[k.handle].vrun == k.vrun
  }

  ghost predicate QueueOk(s: Sched, q: Queue)
    requires q in s.rqs
  {
    && q.kind in s.mqs
    && s.rqs[q].length == |s.rqs[q].tree|
    && s.rqs[q].curr.execStart <= s.clock
    && (s.rqs[q].curr.handle > 0 ==>
          s.rqs[q].curr.handle in s.se && s.se[s.rqs[q].curr.handle].queue == q)
    && (forall k :: k in s.rqs[q].tree ==> EntryOk(s, q, k))
  }

  ghost predicate InPush(s: Sched, t: int, r: Rank) {
    r.handle in s.se && s.se[r.handle].queue.kind == t && r.affinity == Aff(s.se[r.handle].msai, t)
  }

  ghost predicate InPull(s: Sched, t: int, r: Rank) {
    && r.handle in s.se && s.se[r.handle].queue.kind != t
    && Supports(s.se[r.handle].msai, t) && r.affinity == Aff(s.se[r.handle].msai, t)
  }

  /** The counters of a multi-queue, and its affinity lists: exactly its own
      jobs, and exactly the jobs of other multi-queues that could run on it. */
  ghost predicate MqOk(s: Sched, t: int)
    requires t in s.mqs
  {
    && IsDevice(t)
    && s.mqs[t].nofRq == |QueuesOf(s, t)| && s.mqs[t].nofRq >= 1
    && s.mqs[t].nofAll == |JobsOf(s, t)|
    && (forall r :: r in s.mqs[t].push <==> InPush(s, t, r))
    && (forall r :: r in s.mqs[t].pull <==> InPull(s, t, r))
  }

  /** Agreement of all indexes. */
  ghost predicate Valid(s: Sched) {
    && (forall h {:trigger JobOk(s, h)} :: h in s.se ==> JobOk(s, h))
    && (forall q {:trigger QueueOk(s, q)} :: q in s.rqs ==> QueueOk(s, q))
    && (forall t {:trigger MqOk(s, t)} :: t in s.mqs ==> MqOk(s, t))
  }

  // ---------- the operations ----------

  datatype Outcome = Outcome(s: Sched, sent: seq<Sent>)

  function HandleCleanup(s: Sched, h: int, isFinished: bool): Sched
    requires h in s.se
  {
    var e := s.se[h];
    s.(se := s.se[h := e.(mode := e.nextMode, finished := e.finished || isFinished)],
       tokill := if isFinished then s.tokill + {h} else s.tokill)
  }

  /** Entries of a run queue that may run next. */
  function Eligible(s: Sched, q: Queue): set<Key>
    requires q in s.rqs
    requires forall k :: k in s.rqs[q].tree ==> k.handle in s.se
  {
    set k | k in s.rqs[q].tree && !s.se[k.handle].finished && s.se[k.handle].mode == IDLE
  }

  function After(tree: set<Key>, k: Key): set<Key> {
    set x | x in tree && k.Less(x)
  }

  /** How far the entry behind `k` is ahead in real runtime. */
  function Lead(s: Sched, q: Queue, k: Key): nat
    requires q in s.rqs && k.handle in s.se
    requires forall x :: x in s.rqs[q].tree ==> x.handle in s.se
  {
    var behind := After(s.rqs[q].tree, k);
    if behind == {} then 0
    else
      var second := Leftmost(behind).handle;
      if s.se[k.handle].rrun < s.se[second].rrun then s.se[second].rrun - s.se[k.handle].rrun else 0
  }

  /**
   * n is how far the runner-up is ahead of entry k in real runtime: nothing without an entry behind k, else the
   * runtime of the next one in (virtual runtime, handle) less that of k, if that is more than nothing.
   */
  ghost predicate IsLead(s: Sched, q: Queue, k: Key, n: int)
    requires q in s.rqs && k.handle in s.se && forall x :: x in s.rqs[q].tree ==> x.handle in s.se
  {
    || (n == 0 && forall x :: x in s.rqs[q].tree ==> x.vrun < k.vrun || (x.vrun == k.vrun && x.handle <= k.handle))
    || exists r :: r in s.rqs[q].tree && IsRunnerUp(s.rqs[q].tree, k, r)
         && n == if s.se[r.handle].rrun > s.se[k.handle].rrun then s.se[r.handle].rrun - s.se[k.handle].rrun else 0
  }

  ghost predicate IsRunnerUp(tree: set<Key>, k: Key, r: Key) {
    && (k.vrun < r.vrun || (k.vrun == r.vrun && k.handle < r.handle))
    && forall x :: x in tree ==>
         || x.vrun < k.vrun || (x.vrun == k.vrun && x.handle <= k.handle)
         || r.vrun < x.vrun || (r.vrun == x.vrun && r.handle <= x.handle)
  }

  lemma LeadIs(s: Sched, q: Queue, k: Key)
    requires q in s.rqs && k.handle in s.se && forall x :: x in s.rqs[q].tree ==> x.handle in s.se
    ensures IsLead(s, q, k, Lead(s, q, k))
  {
    var behind := After(s.rqs[q].tree, k);
    if behind != {} {
      var r := Leftmost(behind);
      assert r in s.rqs[q].tree;
      forall x | x in s.rqs[q].tree
        ensures || x.vrun < k.vrun || (x.vrun == k.vrun && x.handle <= k.handle)
                || r.vrun < x.vrun || (r.vrun == x.vrun && r.handle <= x.handle)
      {
        if k.Less(x) {
          assert x in behind;
        }
      }
      assert IsRunnerUp(s.rqs[q].tree, k, r);
    } else {
      forall x | x in s.rqs[q].tree ensures x.vrun < k.vrun || (x.vrun == k.vrun && x.handle <= k.handle) {
        assert x !in behind;
      }
    }
  }

  /** The leftmost eligible entry becomes current and is told to run; without one the queue goes idle. */
  function PickNext(s: Sched, q: Queue): Outcome
    requires q in s.rqs
    requires forall k :: k in s.rqs[q].tree ==> k.handle in s.se
  {
    var rq := s.rqs[q];
    if Eligible(s, q) == {} then
      Outcome(s.(rqs := s.rqs[q := rq.(curr := Curr(-1, s.clock, false))]), [])
    else
      var k := Leftmost(Eligible(s, q));
      var e := s.se[k.handle];
      Outcome(s.(rqs := s.rqs[q := rq.(curr := Curr(k.handle, s.clock, false))],
                 se := s.se[k.handle := e.(mode := q.kind, minGran :=
                         Lead(s, q, k) + TURN_COST + BASE_GRANULARITY * 1000 + e.rrun)]),
              [Sent(k.handle, q.kind, q.index)])
  }

  /** The running job is charged the time since it was last charged. */
  function Charge(s: Sched, q: Queue): Sched
    requires q in s.rqs && s.rqs[q].curr.handle in s.se
    requires s.rqs[q].curr.execStart <= s.clock
  {
    var rq := s.rqs[q];
    var h := rq.curr.handle;
    var e := s.se[h];
    var d := s.clock - rq.curr.execStart;
    s.(se := s.se[h := e.(rrun := e.rrun + d, vrun := e.vrun + d)],
       rqs := s.rqs[q := rq.(curr := rq.curr.(execStart := s.clock),
                             tree := rq.tree - {Key(e.vrun, h)} + {Key(e.vrun + d, h)})])
  }

  /** Whether the running job of a freshly charged queue is to be preempted now. */
  predicate Preempts(s: Sched, q: Queue)
    requires q in s.rqs && s.rqs[q].curr.handle in s.se && s.rqs[q].tree != {}
    requires Leftmost(s.rqs[q].tree).handle in s.se
  {
    var first := Leftmost(s.rqs[q].tree).handle;
    var e := s.se[s.rqs[q].curr.handle];
    && first != s.rqs[q].curr.handle && !s.se[first].finished
    && e.rrun >= e.minGran && !s.rqs[q].curr.sent
  }

  /** The tick of a queue with a current job. */
  function UpdateCurr(s: Sched, q: Queue): Outcome
    requires q in s.rqs && s.rqs[q].curr.handle in s.se
    requires s.rqs[q].curr.execStart <= s.clock
    requires forall k :: k in s.rqs[q].tree ==> k.handle in s.se
  {
    var c := Charge(s, q);
    var h := s.rqs[q].curr.handle;
    if Preempts(c, q) then
      var rq := c.rqs[q];
      Outcome(c.(se := c.se[h := c.se[h].(nextMode := IDLE)],
                 rqs := c.rqs[q := rq.(curr := rq.curr.(sent := true))]),
              [Sent(h, IDLE, 0)])
    else Outcome(c, [])
  }

  /** Whether a job may be moved off its queue: not finished, not running, not alone. */
  predicate Movable(s: Sched, h: int)
    requires h in s.se && s.se[h].queue in s.rqs
  {
    var src := s.rqs[s.se[h].queue];
    !s.se[h].finished && src.length > 1 && src.curr.handle != h
  }

  /** A job taken from its queue and put into `target`. */
  function Move(s: Sched, h: int, target: Queue): Sched
    requires h in s.se && s.se[h].queue in s.rqs && target in s.rqs
    requires s.se[h].queue.kind in s.mqs && target.kind in s.mqs
  {
    var e := s.se[h];
    var src := s.rqs[e.queue];
    var rqs1 := s.rqs[e.queue := src.(tree := src.tree - {Key(e.vrun, h)}, length := src.length - 1)];
    var dst := rqs1[target];
    var t := dst.AverageVrun();
    s.(se := s.se[h := e.(queue := target, vrun := t)],
       rqs := rqs1[target := dst.(tree := dst.tree + {Key(t, h)}, length := dst.length + 1)],
       mqs := if e.queue.kind == target.kind then s.mqs
              else
                var a := Rank(Aff(e.msai, e.queue.kind), h);
                var b := Rank(Aff(e.msai, target.kind), h);
                var from := s.mqs[e.queue.kind];
                var to := s.mqs[target.kind];
                s.mqs[e.queue.kind := from.(nofAll := from.nofAll - 1, push := from.push - {a}, pull := from.pull + {a})]
                     [target.kind := to.(nofAll := to.nofAll + 1, push := to.push + {b}, pull := to.pull - {b})])
  }

  /** Position of the first slot whose type has a multi-queue, or |m|. */
  function FirstActive(m: seq<Slot>, kinds: set<int>): (i: nat)
    ensures i <= |m|
    ensures i < |m| ==> m[i].kind in kinds
    ensures forall j :: 0 <= j < i ==> m[j].kind !in kinds
  {
    if m == [] then 0 else if m[0].kind in kinds then 0 else FirstActive(m[1..], kinds) + 1
  }

  /** Sum of the affinities for types that have a multi-queue. */
  function ActiveSum(m: seq<Slot>, kinds: set<int>): int {
    if m == [] then 0 else (if m[0].kind in kinds then m[0].affinity else 0) + ActiveSum(m[1..], kinds)
  }

  lemma {:induction false} ActiveSumPositive(m: seq<Slot>, kinds: set<int>, i: nat)
    requires forall j :: 0 <= j < |m| ==> m[j].affinity > 0
    ensures ActiveSum(m, kinds) >= 0
    ensures i < |m| && m[i].kind in kinds ==> ActiveSum(m, kinds) > 0
  {
    if m != [] {
      ActiveSumPositive(m[1..], kinds, if i > 0 then i - 1 else 0);
    }
  }

  /** Part of one job that falls on type `t` among the active types. */
  function Share(m: seq<Slot>, kinds: set<int>, t: int): real {
    var sum := ActiveSum(m, kinds);
    if Supports(m, t) && sum != 0 then Aff(m, t) as real / sum as real else 0.0
  }

  /** The emptiest run queue of a multi-queue: the first one at or below the average fill. */
  predicate IsRoomy(s: Sched, q: Queue) {
    && q in s.rqs && q.kind in s.mqs && s.mqs[q.kind].nofRq > 0
    && |s.rqs[q].tree| <= s.mqs[q.kind].nofAll / s.mqs[q.kind].nofRq
  }

  function Roomy(s: Sched, kind: int): set<Queue> {
    set q | q in s.rqs && q.kind == kind && IsRoomy(s, q)
  }

  function AddedMq(s: Sched, t: int, h: int, m: seq<Slot>, best: int): Mq
    requires t in s.mqs
  {
    var mq := s.mqs[t];
    if t == best then
      mq.(nofAll := mq.nofAll + 1, push := mq.push + {Rank(Aff(m, t), h)},
          center := mq.center + Share(m, s.mqs.Keys, t))
    else if Supports(m, t) then
      mq.(pull := mq.pull + {Rank(Aff(m, t), h)}, center := mq.center + Share(m, s.mqs.Keys, t))
    else mq
  }

  /** Admission of a job to queue `q`. */
  function AddJob(s: Sched, h: int, m: seq<Slot>, q: Queue): Sched
    requires q in s.rqs
  {
    var rq := s.rqs[q];
    var t := rq.AverageVrun();
    s.(se := s.se[h := Se(IDLE, IDLE, q, 0, t, 0, false, m)],
       rqs := s.rqs[q := rq.(tree := rq.tree + {Key(t, h)}, length := rq.length + 1)],
       mqs := map t | t in s.mqs :: AddedMq(s, t, h, m, q.kind))
  }

  function RemovedMq(s: Sched, t: int, h: int): Mq
    requires t in s.mqs && h in s.se
  {
    var mq := s.mqs[t];
    var e := s.se[h];
    var rank := Rank(Aff(e.msai, t), h);
    if t == e.queue.kind then
      mq.(nofAll := mq.nofAll - 1, push := mq.push - {rank}, pull := mq.pull - {rank},
          center := mq.center - Share(e.msai, s.mqs.Keys, t))
    else if Supports(e.msai, t) then
      mq.(pull := mq.pull - {rank}, center := mq.center - Share(e.msai, s.mqs.Keys, t))
    else mq
  }

  /** All traces of a job removed. */
  function RemoveJob(s: Sched, h: int): Sched
    requires h in s.se && s.se[h].queue in s.rqs
  {
    var e := s.se[h];
    var rq := s.rqs[e.queue];
    s.(se := s.se - {h},
       rqs := s.rqs[e.queue := rq.(tree := rq.tree - {Key(e.vrun, h)}, length := rq.length - 1)],
       mqs := map t | t in s.mqs :: RemovedMq(s, t, h),
       tokill := s.tokill - {h})
  }

  // ---------- preservation ----------

  /** A multi-queue whose own record and whose jobs' placement did not change. */
  lemma MqKept(s: Sched, s': Sched, t: int)
    requires t in s.mqs && MqOk(s, t) && t in s'.mqs && s'.mqs[t] == s.mqs[t]
    requires s'.se.Keys == s.se.Keys && s'.rqs.Keys == s.rqs.Keys
    requires forall h :: h in s.se ==>
      (s'.se[h].queue.kind == t <==> s.se[h].queue.kind == t) && s'.se[h].msai == s.se[h].msai
    ensures MqOk(s', t)
  {
    assert QueuesOf(s', t) == QueuesOf(s, t);
    forall h ensures h in JobsOf(s', t) <==> h in JobsOf(s, t) {
      assert h in s'.se.Keys <==> h in s.se.Keys;
    }
    assert JobsOf(s', t) == JobsOf(s, t);
    forall r ensures (InPush(s, t, r) <==> InPush(s', t, r)) && (InPull(s, t, r) <==> InPull(s', t, r)) {}
  }

  /** Operations that change neither placement nor keys, and keep the current jobs placed. */
  lemma SamePlacement(s: Sched, s': Sched)
    requires Valid(s)
    requires s'.se.Keys == s.se.Keys && s'.rqs.Keys == s.rqs.Keys && s'.mqs == s.mqs
    requires forall h :: h in s.se ==>
      && s'.se[h].queue == s.se[h].queue && s'.se[h].vrun == s.se[h].vrun && s'.se[h].msai == s.se[h].msai
    requires forall q :: q in s.rqs ==>
      && s'.rqs[q].tree == s.rqs[q].tree && s'.rqs[q].length == s.rqs[q].length
      && s'.rqs[q].curr.execStart <= s'.clock
      && (s'.rqs[q].curr.handle > 0 ==>
            s'.rqs[q].curr.handle in s'.se && s'.se[s'.rqs[q].curr.handle].queue == q)
    ensures Valid(s')
  {
    forall h | h in s'.se ensures JobOk(s', h) { assert JobOk(s, h); }
    forall q | q in s'.rqs ensures QueueOk(s', q) {
      assert QueueOk(s, q);
      forall k | k in s'.rqs[q].tree ensures EntryOk(s', q, k) { assert EntryOk(s, q, k); }
    }
    forall t | t in s'.mqs ensures MqOk(s', t) { assert MqOk(s, t); MqKept(s, s', t); }
  }

  lemma HandleCleanupValid(s: Sched, h: int, isFinished: bool)
    requires Valid(s) && h in s.se
    ensures Valid(HandleCleanup(s, h, isFinished))
  {
    forall q | q in s.rqs ensures QueueOk(s, q) {}
    SamePlacement(s, HandleCleanup(s, h, isFinished));
  }

  lemma EntriesKnown(s: Sched, q: Queue)
    requires Valid(s) && q in s.rqs
    ensures forall k :: k in s.rqs[q].tree ==> k.handle in s.se && s.se[k.handle].queue == q
  {
    assert QueueOk(s, q);
    forall k | k in s.rqs[q].tree ensures k.handle in s.se && s.se[k.handle].queue == q {
      assert EntryOk(s, q, k);
    }
  }

  lemma PickNextValid(s: Sched, q: Queue)
    requires Valid(s) && q in s.rqs
    requires forall k :: k in s.rqs[q].tree ==> k.handle in s.se
    ensures Valid(PickNext(s, q).s)
  {
    forall p | p in s.rqs ensures QueueOk(s, p) {}
    EntriesKnown(s, q);
    SamePlacement(s, PickNext(s, q).s);
  }

  lemma ChargeValid(s: Sched, q: Queue)
    requires Valid(s) && q in s.rqs && s.rqs[q].curr.handle in s.se && s.rqs[q].curr.handle > 0
    requires s.rqs[q].curr.execStart <= s.clock
    ensures Valid(Charge(s, q))
  {
    var s' := Charge(s, q);
    var h := s.rqs[q].curr.handle;
    assert QueueOk(s, q) && JobOk(s, h);
    forall g | g in s'.se ensures JobOk(s', g) { assert JobOk(s, g); }
    forall p | p in s'.rqs ensures QueueOk(s', p) { assert QueueOk(s, p); ChargedQueueOk(s, q, p); }
    forall t | t in s'.mqs ensures MqOk(s', t) { assert MqOk(s, t); MqKept(s, s', t); }
  }

  lemma ChargedQueueOk(s: Sched, q: Queue, p: Queue)
    requires q in s.rqs && p in s.rqs && QueueOk(s, p) && QueueOk(s, q)
    requires s.rqs[q].curr.handle in s.se && s.rqs[q].curr.handle > 0 && JobOk(s, s.rqs[q].curr.handle)
    requires s.rqs[q].curr.execStart <= s.clock
    ensures QueueOk(Charge(s, q), p)
  {
    var s' := Charge(s, q);
    var h := s.rqs[q].curr.handle;
    forall k | k in s'.rqs[p].tree ensures EntryOk(s', p, k) {
      if k in s.rqs[p].tree { assert EntryOk(s, p, k); }
    }
    if p == q {
      var k := Key(s'.se[h].vrun, h);
      assert k in s.rqs[q].tree ==> EntryOk(s, q, k);
    }
  }

  lemma UpdateCurrValid(s: Sched, q: Queue)
    requires Valid(s) && q in s.rqs && s.rqs[q].curr.handle in s.se && s.rqs[q].curr.handle > 0
    requires s.rqs[q].curr.execStart <= s.clock
    requires forall k :: k in s.rqs[q].tree ==> k.handle in s.se
    ensures Valid(UpdateCurr(s, q).s)
  {
    ChargeValid(s, q);
    var c := Charge(s, q);
    forall p | p in c.rqs ensures QueueOk(c, p) {}
    SamePlacement(c, UpdateCurr(s, q).s);
  }

  lemma MoveValid(s: Sched, h: int, target: Queue)
    requires Valid(s) && h in s.se && s.se[h].queue in s.rqs && target in s.rqs && target != s.se[h].queue
    requires s.se[h].queue.kind in s.mqs && target.kind in s.mqs
    requires Supports(s.se[h].msai, target.kind) && Movable(s, h)
    ensures Valid(Move(s, h, target))
  {
    var s' := Move(s, h, target);
    var src := s.se[h].queue;
    assert JobOk(s, h);
    forall g | g in s'.se ensures JobOk(s', g) { assert JobOk(s, g); }
    forall p | p in s'.rqs ensures QueueOk(s', p) { assert QueueOk(s, p); MovedQueueOk(s, h, target, p); }
    forall t | t in s'.mqs ensures MqOk(s', t) {
      assert MqOk(s, t);
      if src.kind == target.kind || (t != src.kind && t != target.kind) {
        MqKept(s, s', t);
      } else {
        MovedMqOk(s, h, target, t);
      }
    }
  }

  lemma MovedQueueOk(s: Sched, h: int, target: Queue, p: Queue)
    requires h in s.se && JobOk(s, h) && target in s.rqs && p in s.rqs && QueueOk(s, p)
    requires s.se[h].queue.kind in s.mqs && target.kind in s.mqs
    requires target != s.se[h].queue && Movable(s, h)
    ensures QueueOk(Move(s, h, target), p)
  {
    var s' := Move(s, h, target);
    forall k | k in s'.rqs[p].tree ensures EntryOk(s', p, k) {
      if k in s.rqs[p].tree { assert EntryOk(s, p, k); }
    }
    if p == target {
      var k := Key(s'.se[h].vrun, h);
      assert k in s.rqs[target].tree ==> EntryOk(s, target, k);
    }
  }

  lemma MovedMqOk(s: Sched, h: int, target: Queue, t: int)
    requires h in s.se && JobOk(s, h) && target in s.rqs && t in s.mqs && MqOk(s, t)
    requires s.se[h].queue.kind in s.mqs && target.kind in s.mqs && s.se[h].queue.kind != target.kind
    requires t == target.kind || t == s.se[h].queue.kind
    requires Supports(s.se[h].msai, target.kind)
    ensures MqOk(Move(s, h, target), t)
  {
    var s' := Move(s, h, target);
    assert QueuesOf(s', t) == QueuesOf(s, t);
    assert JobsOf(s', t) == if t == target.kind then JobsOf(s, t) + {h} else JobsOf(s, t) - {h};
    forall r
      ensures r in s'.mqs[t].push <==> InPush(s', t, r)
      ensures r in s'.mqs[t].pull <==> InPull(s', t, r)
    {
      assert r in s.mqs[t].push <==> InPush(s, t, r);
      assert r in s.mqs[t].pull <==> InPull(s, t, r);
      assert r.handle == h && r.affinity == Aff(s.se[h].msai, t) ==> r == Rank(Aff(s.se[h].msai, t), h);
    }
  }

  lemma AddJobValid(s: Sched, h: int, m: seq<Slot>, q: Queue)
    requires Valid(s) && h !in s.se && h > 0 && MsaiOk(m) && q in s.rqs && Supports(m, q.kind)
    ensures Valid(AddJob(s, h, m, q))
  {
    var s' := AddJob(s, h, m, q);
    forall g | g in s'.se ensures JobOk(s', g) { if g != h { assert JobOk(s, g); } }
    forall p | p in s'.rqs ensures QueueOk(s', p) {
      assert QueueOk(s, p);
      forall k | k in s'.rqs[p].tree ensures EntryOk(s', p, k) {
        if k in s.rqs[p].tree { assert EntryOk(s, p, k); }
      }
      if p == q {
        var k := Key(s'.se[h].vrun, h);
        assert k in s.rqs[q].tree ==> EntryOk(s, q, k);
      }
    }
    forall t | t in s'.mqs ensures MqOk(s', t) { assert MqOk(s, t); AddedMqOk(s, h, m, q, t); }
  }

  lemma AddedMqOk(s: Sched, h: int, m: seq<Slot>, q: Queue, t: int)
    requires q in s.rqs && h !in s.se && t in s.mqs && MqOk(s, t) && Supports(m, q.kind)
    ensures MqOk(AddJob(s, h, m, q), t)
  {
    var s' := AddJob(s, h, m, q);
    assert QueuesOf(s', t) == QueuesOf(s, t);
    assert JobsOf(s', t) == if t == q.kind then JobsOf(s, t) + {h} else JobsOf(s, t);
    forall r
      ensures r in s'.mqs[t].push <==> InPush(s', t, r)
      ensures r in s'.mqs[t].pull <==> InPull(s', t, r)
    {
      assert r in s.mqs[t].push <==> InPush(s, t, r);
      assert r in s.mqs[t].pull <==> InPull(s, t, r);
      assert r.handle == h && r.affinity == Aff(m, t) ==> r == Rank(Aff(m, t), h);
    }
  }

  lemma RemoveJobValid(s: Sched, h: int)
    requires Valid(s) && h in s.se && s.se[h].queue in s.rqs && s.rqs[s.se[h].queue].curr.handle != h
    ensures Valid(RemoveJob(s, h))
  {
    var s' := RemoveJob(s, h);
    var q := s.se[h].queue;
    assert JobOk(s, h);
    forall g | g in s'.se ensures JobOk(s', g) { assert JobOk(s, g); }
    forall p | p in s'.rqs ensures QueueOk(s', p) {
      assert QueueOk(s, p);
      forall k | k in s'.rqs[p].tree ensures EntryOk(s', p, k) { assert EntryOk(s, p, k); }
    }
    forall t | t in s'.mqs ensures MqOk(s', t) { assert MqOk(s, t); RemovedMqOk(s, h, t); }
  }

  lemma RemovedMqOk(s: Sched, h: int, t: int)
    requires h in s.se && s.se[h].queue in s.rqs && t in s.mqs && MqOk(s, t) && JobOk(s, h)
    ensures MqOk(RemoveJob(s, h), t)
  {
    var s' := RemoveJob(s, h);
    assert QueuesOf(s', t) == QueuesOf(s, t);
    assert JobsOf(s', t) == if t == s.se[h].queue.kind then JobsOf(s, t) - {h} else JobsOf(s, t);
    forall r
      ensures r in s'.mqs[t].push <==> InPush(s', t, r)
      ensures r in s'.mqs[t].pull <==> InPull(s', t, r)
    {
      assert r in s.mqs[t].push <==> InPush(s, t, r);
      assert r in s.mqs[t].pull <==> InPull(s, t, r);
    }
  }

  // ---------- the periodic tick ----------

  /** The tick of one queue: an idle queue picks a job, a busy one is updated. */
  ghost function TickQueue(s: Sched, q: Queue): (o: Outcome)
    requires Valid(s) && q in s.rqs
    ensures Valid(o.s) && o.s.rqs.Keys == s.rqs.Keys && o.s.mqs == s.mqs
    ensures o.s.se.Keys == s.se.Keys && o.s.tokill == s.tokill && o.s.clock == s.clock
  {
    assert QueueOk(s, q);
    EntriesKnown(s, q);
    if s.rqs[q].curr.handle <= 0 then
      PickNextValid(s, q);
      PickNext(s, q)
    else
      UpdateCurrValid(s, q);
      UpdateCurr(s, q)
  }

  /** The tick of a set of queues, in the order of the matrix. */
  ghost function TickAll(s: Sched, todo: set<Queue>): (o: Outcome)
    requires Valid(s) && todo <= s.rqs.Keys
    ensures Valid(o.s) && o.s.rqs.Keys == s.rqs.Keys && o.s.mqs == s.mqs
    ensures o.s.se.Keys == s.se.Keys && o.s.tokill == s.tokill && o.s.clock == s.clock
    decreases |todo|
  {
    if todo == {} then Outcome(s, [])
    else
      var q := FirstQueue(todo);
      var first := TickQueue(s, q);
      var rest := TickAll(first.s, todo - {q});
      Outcome(rest.s, first.sent + rest.sent)
  }

  lemma TickAllStep(s: Sched, todo: set<Queue>, before: seq<Sent>)
    requires Valid(s) && todo <= s.rqs.Keys && todo != {}
    ensures var q := FirstQueue(todo);
      var o := TickQueue(s, q);
      TickAll(s, todo).(sent := before + TickAll(s, todo).sent)
      == TickAll(o.s, todo - {q}).(sent := (before + o.sent) + TickAll(o.s, todo - {q}).sent)
  {
    var q := FirstQueue(todo);
    var o := TickQueue(s, q);
    var r := TickAll(o.s, todo - {q});
    assert before + (o.sent + r.sent) == (before + o.sent) + r.sent;
  }

  lemma ClockValid(s: Sched, now: nat)
    requires Valid(s) && s.clock <= now
    ensures Valid(s.(clock := now))
  {
    forall q | q in s.rqs ensures QueueOk(s, q) {}
    SamePlacement(s, s.(clock := now));
  }

  // ---------- start-up ----------

  /** One more run queue, with its multi-queue where that is new. */
  function WithQueue(s: Sched, q: Queue): Sched {
    var mq := if q.kind in s.mqs then s.mqs[q.kind] else Mq(0, 0, 0.0, {}, {});
    s.(mqs := s.mqs[q.kind := mq.(nofRq := mq.nofRq + 1)],
       rqs := s.rqs[q := Rq(Curr(-1, 0, false), {}, 0, 0)])
  }

  lemma WithQueueValid(s: Sched, q: Queue)
    requires Valid(s) && s.se == map[] && q !in s.rqs && IsDevice(q.kind)
    ensures Valid(WithQueue(s, q))
  {
    var s' := WithQueue(s, q);
    forall p | p in s'.rqs ensures QueueOk(s', p) {
      if p != q {
        assert QueueOk(s, p);
        forall k | k in s.rqs[p].tree ensures EntryOk(s', p, k) { assert EntryOk(s, p, k); }
      }
    }
    forall t | t in s'.mqs ensures MqOk(s', t) {
      if t in s.mqs { assert MqOk(s, t); }
      assert t !in s.mqs ==> QueuesOf(s, t) == {} by {
        forall p | p in s.rqs ensures p.kind in s.mqs { assert QueueOk(s, p); }
      }
      WithQueueMqOk(s, q, t);
    }
  }

  lemma WithQueueMqOk(s: Sched, q: Queue, t: int)
    requires s.se == map[] && q !in s.rqs && IsDevice(q.kind) && (t in s.mqs || t == q.kind)
    requires if t in s.mqs then MqOk(s, t) else QueuesOf(s, t) == {}
    ensures MqOk(WithQueue(s, q), t)
  {
    var s' := WithQueue(s, q);
    assert JobsOf(s', t) == {} && JobsOf(s, t) == {};
    assert QueuesOf(s', t) == QueuesOf(s, t) + (if t == q.kind then {q} else {});
    forall r ensures r !in s'.mqs[t].push && r !in s'.mqs[t].pull {
      if t in s.mqs {
        assert r in s.mqs[t].push <==> InPush(s, t, r);
        assert r in s.mqs[t].pull <==> InPull(s, t, r);
      }
    }
    forall r ensures !InPush(s', t, r) && !InPull(s', t, r) {}
  }
}
