/** Fill levels of a multi-queue: `nof_all_handles` is the sum of the queue
    lengths, the emptiest-queue search always succeeds, and inserting through it
    keeps a balanced multi-queue balanced. */
module UssBalance {
  import opened UssTypes
  import opened UssSpec
  import Arith

  /** Sum of the tree sizes over a set of queues. */
  ghost function SumSizes(s: Sched, qs: set<Queue>): nat
    requires qs <= s.rqs.Keys
  {
    if qs == {} then 0 else
      var q := FirstQueue(qs);
      |s.rqs[q].tree| + SumSizes(s, qs - {q})
  }

  ghost function JobsIn(s: Sched, qs: set<Queue>): set<int> {
    set h | h in s.se && s.se[h].queue in qs
  }

  lemma {:induction false} HandlesOfTree(tree: set<Key>)
    requires forall k, l :: k in tree && l in tree && k.handle == l.handle ==> k == l
    ensures |set k | k in tree :: k.handle| == |tree|
  {
    if tree != {} {
      var k :| k in tree;
      HandlesOfTree(tree - {k});
      assert (set l | l in tree :: l.handle) == (set l | l in tree - {k} :: l.handle) + {k.handle};
    }
  }

  lemma JobsAtQueue(s: Sched, q: Queue)
    requires Valid(s) && q in s.rqs
    ensures |JobsIn(s, {q})| == |s.rqs[q].tree|
  {
    assert QueueOk(s, q);
    var tree := s.rqs[q].tree;
    forall k | k in tree ensures k.handle in s.se && k.vrun == s.se[k.handle].vrun && s.se[k.handle].queue == q {
      assert EntryOk(s, q, k);
    }
    HandlesOfTree(tree);
    var hs := set k | k in tree :: k.handle;
    forall h ensures h in hs <==> h in JobsIn(s, {q}) {
      if h in JobsIn(s, {q}) {
        assert JobOk(s, h);
        assert Key(s.se[h].vrun, h) in tree;
      }
    }
    assert hs == JobsIn(s, {q});
  }

  lemma {:induction false} SumSizesCountsJobs(s: Sched, qs: set<Queue>)
    requires Valid(s) && qs <= s.rqs.Keys
    ensures SumSizes(s, qs) == |JobsIn(s, qs)|
  {
    if qs == {} {
      assert JobsIn(s, qs) == {};
    } else {
      var q := FirstQueue(qs);
      SumSizesCountsJobs(s, qs - {q});
      JobsAtQueue(s, q);
      assert JobsIn(s, qs) == JobsIn(s, qs - {q}) + JobsIn(s, {q});
    }
  }

  /** The handle counter of a multi-queue is the sum of the sizes of its trees. */
  lemma CounterIsSumOfLengths(s: Sched, t: int)
    requires Valid(s) && t in s.mqs
    ensures QueuesOf(s, t) <= s.rqs.Keys
    ensures s.mqs[t].nofAll == SumSizes(s, QueuesOf(s, t))
  {
    assert MqOk(s, t);
    SumSizesCountsJobs(s, QueuesOf(s, t));
    assert JobsIn(s, QueuesOf(s, t)) == JobsOf(s, t) by {
      forall h | h in JobsOf(s, t) ensures h in JobsIn(s, QueuesOf(s, t)) { assert JobOk(s, h); }
    }
  }

  lemma MulCard(qs: set<Queue>, q: Queue, n: nat)
    requires q in qs
    ensures |qs| * n == |qs - {q}| * n + n
  {
    assert |qs| == |qs - {q}| + 1;
  }

  lemma {:induction false} SumSizesAtLeast(s: Sched, qs: set<Queue>, n: nat)
    requires qs <= s.rqs.Keys
    requires forall q :: q in qs ==> |s.rqs[q].tree| >= n
    ensures SumSizes(s, qs) >= |qs| * n
  {
    if qs != {} {
      var q := FirstQueue(qs);
      SumSizesAtLeast(s, qs - {q}, n);
      MulCard(qs, q, n);
    }
  }

  lemma {:induction false} SumSizesAtMost(s: Sched, qs: set<Queue>, n: nat)
    requires qs <= s.rqs.Keys
    requires forall q :: q in qs ==> |s.rqs[q].tree| <= n
    ensures SumSizes(s, qs) <= |qs| * n
  {
    if qs != {} {
      var q := FirstQueue(qs);
      SumSizesAtMost(s, qs - {q}, n);
      MulCard(qs, q, n);
    }
  }

  /** The search for the emptiest queue always finds one. */
  lemma RoomExists(s: Sched, t: int)
    requires Valid(s) && t in s.mqs
    ensures Roomy(s, t) != {}
  {
    assert MqOk(s, t);
    CounterIsSumOfLengths(s, t);
    var qs := QueuesOf(s, t);
    if Roomy(s, t) == {} {
      forall q | q in qs ensures |s.rqs[q].tree| > s.mqs[t].nofAll / s.mqs[t].nofRq {
        assert q !in Roomy(s, t);
      }
      AboveAverage(s, qs, s.mqs[t].nofAll);
    }
  }

  /** Not every queue can hold more than the average. */
  lemma AboveAverage(s: Sched, qs: set<Queue>, n: nat)
    requires qs <= s.rqs.Keys && qs != {}
    requires forall q :: q in qs ==> |s.rqs[q].tree| > n / |qs|
    ensures SumSizes(s, qs) > n
  {
    var r := |qs|;
    Arith.DivMod(n, r);
    Arith.Distribute(r, n / r, 1);
    SumSizesAtLeast(s, qs, n / r + 1);
  }

  /** Every queue of the multi-queue holds floor(n/k) or ceil(n/k) of its n jobs. */
  ghost predicate Balanced(s: Sched, t: int)
    requires t in s.mqs
  {
    var k := s.mqs[t].nofRq;
    k >= 1 && forall q :: q in s.rqs && q.kind == t ==>
      s.mqs[t].nofAll / k <= |s.rqs[q].tree| <= (s.mqs[t].nofAll + k - 1) / k
  }

  lemma DivStep(n: nat, k: nat)
    requires k >= 1
    ensures n / k <= (n + 1) / k <= n / k + 1
    ensures (n + k - 1) / k <= (n + k) / k == n / k + 1
    ensures (n + 1) / k > n / k ==> n + 1 == k * (n / k + 1)
  {
    var a, b := n / k, n % k;
    Arith.DivMod(n, k);
    assert k * (a + 1) == k * a + k;
    Arith.DivIs(n + k, k, a + 1);
    Arith.DivIs(n + 1, k, if b + 1 == k then a + 1 else a);
    Arith.DivIs(n + k - 1, k, if b == 0 then a else a + 1);
    if k == 1 {
      assert b == 0;
    }
  }

  /** A job admitted through the search leaves a balanced multi-queue balanced. */
  lemma AdmissionKeepsBalance(s: Sched, h: int, m: seq<Slot>, q: Queue)
    requires Valid(s) && h !in s.se && h > 0 && MsaiOk(m) && q in s.rqs && Supports(m, q.kind)
    requires q.kind in s.mqs && IsRoomy(s, q) && Balanced(s, q.kind)
    ensures q.kind in AddJob(s, h, m, q).mqs && Balanced(AddJob(s, h, m, q), q.kind)
  {
    var s' := AddJob(s, h, m, q);
    var t := q.kind;
    assert MqOk(s, t) && QueueOk(s, q);
    AddJobValid(s, h, m, q);
    assert QueueOk(s', q);
    var n, k := s.mqs[t].nofAll, s.mqs[t].nofRq;
    DivStep(n, k);
    assert s'.mqs[t].nofAll == n + 1 && s'.mqs[t].nofRq == k;
    assert |s'.rqs[q].tree| == |s.rqs[q].tree| + 1 == s'.rqs[q].length;
    forall p | p in s'.rqs && p.kind == t ensures n / k <= |s'.rqs[p].tree| <= n / k + 1 {}
    if (n + 1) / k > n / k {
      FullQueues(s', t, n / k + 1);
    }
  }

  /** Queues that hold at most `top` jobs and k * top together hold `top` each. */
  lemma FullQueues(s: Sched, t: int, top: nat)
    requires Valid(s) && t in s.mqs && s.mqs[t].nofAll == s.mqs[t].nofRq * top
    requires forall p :: p in s.rqs && p.kind == t ==> |s.rqs[p].tree| <= top
    ensures forall p :: p in s.rqs && p.kind == t ==> |s.rqs[p].tree| == top
  {
    assert MqOk(s, t);
    CounterIsSumOfLengths(s, t);
    forall p | p in s.rqs && p.kind == t ensures |s.rqs[p].tree| == top {
      if |s.rqs[p].tree| < top {
        SumSizesAtMostExcept(s, QueuesOf(s, t), p, top);
        assert false;
      }
    }
  }

  lemma SumSizesAtMostExcept(s: Sched, qs: set<Queue>, p: Queue, n: nat)
    requires qs <= s.rqs.Keys && p in qs && |s.rqs[p].tree| < n
    requires forall q :: q in qs ==> |s.rqs[q].tree| <= n
    ensures SumSizes(s, qs) < |qs| * n
    decreases |qs|
  {
    var q := FirstQueue(qs);
    MulCard(qs, q, n);
    if q == p {
      SumSizesAtMost(s, qs - {q}, n);
    } else {
      SumSizesAtMostExcept(s, qs - {q}, p, n);
    }
  }
}
