/** Pick, charge and preemption in terms of the entities and the trees they read and write. */
module UssTick {
  import opened UssTypes
  import opened UssSpec

  /** The order of the run-queue trees. */
  predicate Before(a: Key, b: Key) {
    a.vrun < b.vrun || (a.vrun == b.vrun && a.handle < b.handle)
  }

  /** All entries of the tree belong to known jobs. */
  ghost predicate Known(s: Sched, q: Queue) {
    q in s.rqs && forall k :: k in s.rqs[q].tree ==> k.handle in s.se
  }

  // Picks.

  predicate MayRun(s: Sched, k: Key) {
    k.handle in s.se && !s.se[k.handle].finished && s.se[k.handle].mode == 0
  }

  /** The first entry whose job may run. */
  ghost predicate IsNext(s: Sched, q: Queue, k: Key) {
    && q in s.rqs && k in s.rqs[q].tree && MayRun(s, k)
    && forall x :: x in s.rqs[q].tree && MayRun(s, x) && x != k ==> Before(k, x)
  }

  ghost predicate NobodyNext(s: Sched, q: Queue) {
    q in s.rqs && forall x :: x in s.rqs[q].tree ==> !MayRun(s, x)
  }

  /** Job k.handle begins its turn on q at the clock, with the runner-up n ahead, and is told so. */
  ghost predicate Begins(s: Sched, q: Queue, k: Key, n: nat, o: Outcome)
    requires q in s.rqs && k.handle in s.se
  {
    var e := s.se[k.handle];
    && o.s == s.(se := s.se[k.handle := e.(mode := q.kind, minGran := e.rrun + 50_000_000 + 1_000_000_000 + n)],
                 rqs := s.rqs[q := s.rqs[q].(curr := Curr(k.handle, s.clock, false))])
    && o.sent == [Sent(k.handle, q.kind, q.index)]
  }

  lemma PickIs(s: Sched, q: Queue) returns (k: Key, n: nat)
    requires Known(s, q)
    ensures NobodyNext(s, q) ==>
      PickNext(s, q) == Outcome(s.(rqs := s.rqs[q := s.rqs[q].(curr := Curr(-1, s.clock, false))]), [])
    ensures !NobodyNext(s, q) ==> IsNext(s, q, k) && IsLead(s, q, k, n) && Begins(s, q, k, n, PickNext(s, q))
  {
    k, n := Key(0, 0), 0;
    if Eligible(s, q) != {} {
      k := Leftmost(Eligible(s, q));
      n := Lead(s, q, k);
      LeadIs(s, q, k);
      assert k in Eligible(s, q);
      forall x | x in s.rqs[q].tree && MayRun(s, x) && x != k ensures Before(k, x) {
        assert x in Eligible(s, q);
      }
    } else {
      forall x | x in s.rqs[q].tree ensures !MayRun(s, x) {
        assert x !in Eligible(s, q);
      }
    }
  }

  // Charges and preemptions.

  /** The time since the last charge goes to both runtimes, and the tree entry moves to the new virtual runtime. */
  lemma ChargeIs(s: Sched, q: Queue, h: int)
    requires q in s.rqs && h == s.rqs[q].curr.handle && h in s.se && s.rqs[q].curr.execStart <= s.clock
    ensures var d := s.clock - s.rqs[q].curr.execStart;
            var e := s.se[h];
            var c := Charge(s, q);
            && c.se == s.se[h := e.(rrun := e.rrun + d, vrun := e.vrun + d)]
            && c.rqs == s.rqs[q := s.rqs[q].(curr := Curr(h, s.clock, s.rqs[q].curr.sent), tree := c.rqs[q].tree)]
            && (forall k :: k in c.rqs[q].tree <==> k == Key(e.vrun + d, h) || (k in s.rqs[q].tree && k != Key(e.vrun, h)))
            && c.mqs == s.mqs && c.tokill == s.tokill && c.clock == s.clock
  {
  }

  /** With virtual runtime v of the running job, another job that is not finished stands first in the tree. */
  ghost predicate Overtaken(s: Sched, q: Queue, v: nat) {
    q in s.rqs && exists k :: k in s.rqs[q].tree && Overtakes(s, q, k, v)
  }

  ghost predicate Overtakes(s: Sched, q: Queue, k: Key, v: nat)
    requires q in s.rqs
  {
    var h := s.rqs[q].curr.handle;
    && k.handle != h && k.handle in s.se && !s.se[k.handle].finished && Before(k, Key(v, h))
    && forall x :: x in s.rqs[q].tree && x != k && x.handle != h ==> Before(k, x)
  }

  /** The running job is to be preempted now. */
  ghost predicate Due(s: Sched, q: Queue)
    requires q in s.rqs && s.rqs[q].curr.handle in s.se && s.rqs[q].curr.execStart <= s.clock
  {
    var e := s.se[s.rqs[q].curr.handle];
    var d := s.clock - s.rqs[q].curr.execStart;
    !s.rqs[q].curr.sent && e.rrun + d >= e.minGran && Overtaken(s, q, e.vrun + d)
  }

  lemma FirstOfCharged(s: Sched, q: Queue, h: int, c: Sched)
    requires Valid(s) && Known(s, q) && h == s.rqs[q].curr.handle && h in s.se && h > 0
    requires s.rqs[q].curr.execStart <= s.clock && c == Charge(s, q)
    ensures c.rqs[q].tree != {}
    ensures var d := s.clock - s.rqs[q].curr.execStart;
            var k := Leftmost(c.rqs[q].tree);
            k.handle in c.se && (Overtaken(s, q, s.se[h].vrun + d) <==> k.handle != h && !c.se[k.handle].finished)
  {
    var v := s.se[h].vrun + (s.clock - s.rqs[q].curr.execStart);
    var was, now := Key(s.se[h].vrun, h), Key(v, h);
    assert QueueOk(s, q);
    assert forall x :: x in s.rqs[q].tree ==> EntryOk(s, q, x);
    assert forall x :: x in s.rqs[q].tree && x.handle == h ==> x == was;
    ChargeIs(s, q, h);
    assert now in c.rqs[q].tree;
    var k := Leftmost(c.rqs[q].tree);
    if k.handle != h {
      assert k in s.rqs[q].tree;
      if !c.se[k.handle].finished {
        assert k.Less(now);
        forall x | x in s.rqs[q].tree && x != k && x.handle != h ensures Before(k, x) {
          assert x in c.rqs[q].tree && k.Less(x);
        }
        assert Overtakes(s, q, k, v);
      }
    }
    if Overtaken(s, q, v) {
      var x :| x in s.rqs[q].tree && Overtakes(s, q, x, v);
      assert x in c.rqs[q].tree;
      assert k == now || (k in s.rqs[q].tree && k.handle != h);
    }
  }

  /** A tick of a busy queue: the charge, and a message exactly if the running job is due. */
  lemma UpdateIs(s: Sched, q: Queue, h: int)
    requires Valid(s) && Known(s, q) && h == s.rqs[q].curr.handle && h in s.se && h > 0 && s.rqs[q].curr.execStart <= s.clock
    ensures var o := UpdateCurr(s, q);
            var c := Charge(s, q);
            if Due(s, q) then
              && o.sent == [Sent(h, 0, 0)]
              && o.s == c.(se := c.se[h := c.se[h].(nextMode := 0)],
                           rqs := c.rqs[q := c.rqs[q].(curr := Curr(h, s.clock, true))])
            else o.sent == [] && o.s == c
  {
    hide Overtaken;
    FirstOfCharged(s, q, h, Charge(s, q));
    ChargeIs(s, q, h);
  }

  // The tick of all queues.

  /** The two states agree on queue q and on the jobs in its tree. */
  ghost predicate SameAt(s: Sched, s': Sched, q: Queue) {
    && q in s.rqs && q in s'.rqs && s'.rqs[q] == s.rqs[q] && s'.clock == s.clock
    && forall k :: k in s.rqs[q].tree ==> k.handle in s.se && k.handle in s'.se && s'.se[k.handle] == s.se[k.handle]
  }

  lemma SamePick(s: Sched, s': Sched, q: Queue)
    requires Known(s, q) && SameAt(s, s', q)
    ensures SameAt(PickNext(s, q).s, PickNext(s', q).s, q) && PickNext(s', q).sent == PickNext(s, q).sent
  {
    assert Eligible(s', q) == Eligible(s, q);
    if Eligible(s, q) != {} {
      var k := Leftmost(Eligible(s, q));
      assert k in Eligible(s, q);
      assert Lead(s', q, k) == Lead(s, q, k);
    }
  }

  lemma SameTick(s: Sched, s': Sched, q: Queue)
    requires Valid(s) && Valid(s') && SameAt(s, s', q)
    ensures SameAt(TickQueue(s, q).s, TickQueue(s', q).s, q) && TickQueue(s', q).sent == TickQueue(s, q).sent
  {
    EntriesKnown(s, q);
    assert QueueOk(s, q);
    if s.rqs[q].curr.handle <= 0 {
      SamePick(s, s', q);
    } else {
      var h := s.rqs[q].curr.handle;
      assert JobOk(s, h);
      assert Key(s.se[h].vrun, h) in s.rqs[q].tree;
    }
  }

  /** The tick of another queue changes nothing here. */
  lemma OtherTick(s: Sched, p: Queue, q: Queue)
    requires Valid(s) && p in s.rqs && q in s.rqs && p != q
    ensures SameAt(s, TickQueue(s, p).s, q)
  {
    EntriesKnown(s, p);
    EntriesKnown(s, q);
    assert QueueOk(s, p);
    if s.rqs[p].curr.handle <= 0 && Eligible(s, p) != {} {
      assert Leftmost(Eligible(s, p)) in Eligible(s, p);
    }
  }

  lemma {:induction false} OtherTicks(s: Sched, todo: set<Queue>, q: Queue)
    requires Valid(s) && todo <= s.rqs.Keys && q in s.rqs && q !in todo
    ensures SameAt(s, TickAll(s, todo).s, q)
    decreases |todo|
  {
    EntriesKnown(s, q);
    if todo != {} {
      var p := FirstQueue(todo);
      OtherTick(s, p, q);
      OtherTicks(TickQueue(s, p).s, todo - {p}, q);
    }
  }

  /** Every queue is ticked once: afterwards it stands as if it alone had been ticked. */
  lemma {:induction false} TickAllEach(s: Sched, todo: set<Queue>, q: Queue)
    requires Valid(s) && todo <= s.rqs.Keys && q in todo
    ensures SameAt(TickQueue(s, q).s, TickAll(s, todo).s, q)
    decreases |todo|
  {
    var p := FirstQueue(todo);
    var s1 := TickQueue(s, p).s;
    if p == q {
      OtherTicks(s1, todo - {p}, q);
    } else {
      OtherTick(s, p, q);
      SameTick(s, s1, q);
      TickAllEach(s1, todo - {p}, q);
    }
  }

  /** The tick of a queue: an idle one gets its next job, a busy one is charged and perhaps told to stop. */
  lemma TickIs(s: Sched, q: Queue)
    requires Valid(s) && q in s.rqs
    ensures s.rqs[q].curr.handle <= 0 ==> Known(s, q) && TickQueue(s, q) == PickNext(s, q)
    ensures s.rqs[q].curr.handle > 0 ==>
      && s.rqs[q].curr.handle in s.se && s.rqs[q].curr.execStart <= s.clock
      && TickQueue(s, q).sent == if Due(s, q) then [Sent(s.rqs[q].curr.handle, 0, 0)] else []
  {
    EntriesKnown(s, q);
    assert QueueOk(s, q);
    if s.rqs[q].curr.handle > 0 {
      UpdateIs(s, q, s.rqs[q].curr.handle);
    }
  }
}
