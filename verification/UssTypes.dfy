/** Entities of the user-space scheduler: scheduling entities, run queues and
    multi-queues (uss_scheduler.h), with the order of the run-queue trees. */
module UssTypes {

  const IDLE: int := 0
  const CPU: int := 1

  // nanoseconds: offset of a freshly inserted key, and the assumed load/unload cost of a turn
  const INSERT_OFFSET: nat := 50_000_000
  const TURN_COST: nat := 50_000_000
  // microseconds
  const BASE_GRANULARITY: nat := 1_000_000

  const MAX_MSI: nat := 10

  /** Accelerator types the client library has a device branch for. */
  predicate IsDevice(kind: int) { kind == 4 || kind == 5 || kind == 6 }

  /** Identity of a run queue: accelerator type and index. */
  datatype Queue = Queue(kind: int, index: int) {
    predicate Less(q: Queue) {
      kind < q.kind || (kind == q.kind && index < q.index)
    }
  }

  /** One line of the meta scheduling information of a client. */
  datatype Slot = Slot(kind: int, affinity: int, flags: int)

  /** A scheduling entity; `queue` is where the handle is enqueued. */
  datatype Se = Se(mode: int, nextMode: int, queue: Queue, rrun: nat, vrun: nat,
                   minGran: nat, finished: bool, msai: seq<Slot>)

  /** An entry of a run-queue tree, ordered by virtual runtime and then by handle. */
  datatype Key = Key(vrun: nat, handle: int) {
    predicate Less(k: Key) {
      vrun < k.vrun || (vrun == k.vrun && handle < k.handle)
    }
  }

  datatype Curr = Curr(handle: int, execStart: nat, sent: bool)

  datatype Rq = Rq(curr: Curr, tree: set<Key>, length: int, minVrun: nat) {
    function AverageVrun(): nat { minVrun + INSERT_OFFSET }
  }

  /** An entry of the affinity lists of a multi-queue. */
  datatype Rank = Rank(affinity: int, handle: int) {
    predicate Less(r: Rank) {
      affinity < r.affinity || (affinity == r.affinity && handle < r.handle)
    }
  }

  datatype Mq = Mq(nofRq: int, nofAll: int, center: real, push: set<Rank>, pull: set<Rank>)

  /** A RUNON message handed to the communication controller for a handle. */
  datatype Sent = Sent(handle: int, kind: int, index: int)

  datatype Sched = Sched(se: map<int, Se>, rqs: map<Queue, Rq>, mqs: map<int, Mq>,
                         tokill: set<int>, clock: nat)

  predicate IsLeastKey(k: Key, s: set<Key>) {
    k in s && forall x :: x in s && x != k ==> k.Less(x)
  }

  lemma {:induction false} LeastKeyExists(s: set<Key>)
    requires s != {}
    ensures exists k :: IsLeastKey(k, s)
  {
    var x :| x in s;
    if s == {x} {
      assert IsLeastKey(x, s);
    } else {
      LeastKeyExists(s - {x});
      var y :| IsLeastKey(y, s - {x});
      assert s == (s - {x}) + {x};
      assert IsLeastKey(if x.Less(y) then x else y, s);
    }
  }

  /** The leftmost entry of a tree. */
  function Leftmost(s: set<Key>): (k: Key)
    requires s != {}
    ensures IsLeastKey(k, s)
  {
    LeastKeyExists(s);
    var k :| IsLeastKey(k, s);
    k
  }

  predicate IsLeastRank(r: Rank, s: set<Rank>) {
    r in s && forall x :: x in s && x != r ==> r.Less(x)
  }

  predicate IsGreatestRank(r: Rank, s: set<Rank>) {
    r in s && forall x :: x in s && x != r ==> x.Less(r)
  }

  lemma {:induction false} ExtremeRanksExist(s: set<Rank>)
    requires s != {}
    ensures exists r :: IsLeastRank(r, s)
    ensures exists r :: IsGreatestRank(r, s)
  {
    var x :| x in s;
    if s == {x} {
      assert IsLeastRank(x, s) && IsGreatestRank(x, s);
    } else {
      ExtremeRanksExist(s - {x});
      var y :| IsLeastRank(y, s - {x});
      var z :| IsGreatestRank(z, s - {x});
      assert s == (s - {x}) + {x};
      assert IsLeastRank(if x.Less(y) then x else y, s);
      assert IsGreatestRank(if z.Less(x) then x else z, s);
    }
  }

  /** First element of an ascending affinity list. */
  function FirstAsc(s: set<Rank>): (r: Rank)
    requires s != {}
    ensures IsLeastRank(r, s)
  {
    ExtremeRanksExist(s);
    var r :| IsLeastRank(r, s);
    r
  }

  /** First element of a descending affinity list. */
  function FirstDes(s: set<Rank>): (r: Rank)
    requires s != {}
    ensures IsGreatestRank(r, s)
  {
    ExtremeRanksExist(s);
    var r :| IsGreatestRank(r, s);
    r
  }

  predicate IsFirstQueue(q: Queue, s: set<Queue>) {
    q in s && forall x :: x in s && x != q ==> q.Less(x)
  }

  lemma {:induction false} FirstQueueExists(s: set<Queue>)
    requires s != {}
    ensures exists q :: IsFirstQueue(q, s)
  {
    var x :| x in s;
    if s == {x} {
      assert IsFirstQueue(x, s);
    } else {
      FirstQueueExists(s - {x});
      var y :| IsFirstQueue(y, s - {x});
      assert s == (s - {x}) + {x};
      assert IsFirstQueue(if x.Less(y) then x else y, s);
    }
  }

  /** First queue in the iteration order of the matrix: by type, then by index. */
  function FirstQueue(s: set<Queue>): (q: Queue)
    requires s != {}
    ensures IsFirstQueue(q, s)
  {
    FirstQueueExists(s);
    var q :| IsFirstQueue(q, s);
    q
  }
}
