/** Turn guarantee and runtime accounting over every run of the protocol. A
    ledger records, beside the run, when the current turn of each queue began and
    how much runtime was ever charged on the queue. */
module UssTurn {
  import opened UssTypes
  import opened UssSpec
  import opened UssMigration
  import opened UssProtocol
  import opened UssTick
  import UssExclusion

  /** Clock and both runtimes at the pick, and how far the runner-up was ahead then. */
  datatype Turn = Turn(start: nat, rrun: nat, vrun: nat, lead: nat)

  datatype Ledger = Ledger(turn: map<Queue, Turn>, charged: map<Queue, nat>)

  function Charged(l: Ledger, q: Queue): nat {
    if q in l.charged then l.charged[q] else 0
  }

  ghost function AfterPick(l: Ledger, s: Sched, q: Queue): Ledger
    requires q in s.rqs && forall k :: k in s.rqs[q].tree ==> k.handle in s.se
  {
    if Eligible(s, q) == {} then l
    else
      var k := Leftmost(Eligible(s, q));
      l.(turn := l.turn[q := Turn(s.clock, s.se[k.handle].rrun, s.se[k.handle].vrun, Lead(s, q, k))])
  }

  /** The ledger beside one step. */
  ghost function Record(l: Ledger, w: World, a: Action): Ledger {
    if a == ActDispatcherPick && w.disp.Cleaned? && CanPick(w, w.disp.q) then AfterPick(l, w.s, w.disp.q)
    else if a == ActMainPick && w.main.Picking? && CanPick(w, w.main.q) then AfterPick(l, w.s, w.main.q)
    else if a.ActUpdate? && a.q in w.s.rqs && w.s.rqs[a.q].curr.execStart <= w.s.clock then
      l.(charged := l.charged[a.q := Charged(l, a.q) + (w.s.clock - w.s.rqs[a.q].curr.execStart)])
    else l
  }

  ghost function LedgerAt(ws: seq<World>, acts: seq<Action>, i: nat): Ledger
    requires i <= |acts| && |ws| == |acts| + 1
  {
    if i == 0 then Ledger(map[], map[]) else Record(LedgerAt(ws, acts, i - 1), ws[i - 1], acts[i - 1])
  }

  /** In a turn the running job has been charged exactly the clock up to the last
      charge, and may be preempted only after cost, granularity and lead. */
  ghost predicate TurnOk(s: Sched, l: Ledger, q: Queue)
    requires q in s.rqs
  {
    var c := s.rqs[q].curr;
    c.handle > 0 ==>
      && c.handle in s.se && q in l.turn && l.turn[q].start <= c.execStart
      && s.se[c.handle].rrun == l.turn[q].rrun + (c.execStart - l.turn[q].start)
      && s.se[c.handle].vrun == l.turn[q].vrun + (c.execStart - l.turn[q].start)
      && s.se[c.handle].minGran == l.turn[q].lead + TURN_COST + BASE_GRANULARITY * 1000 + l.turn[q].rrun
  }

  /** Charges on a queue never exceed the clock elapsed since `begin`. */
  ghost predicate ChargeOk(s: Sched, l: Ledger, q: Queue, begin: nat)
    requires q in s.rqs
  {
    && begin <= s.clock && Charged(l, q) <= s.clock - begin
    && (s.rqs[q].curr.handle > 0 ==>
          begin <= s.rqs[q].curr.execStart && Charged(l, q) <= s.rqs[q].curr.execStart - begin)
  }

  ghost predicate BookOk(s: Sched, l: Ledger, begin: nat) {
    && (forall q {:trigger TurnOk(s, l, q)} :: q in s.rqs ==> TurnOk(s, l, q))
    && (forall q {:trigger ChargeOk(s, l, q, begin)} :: q in s.rqs ==> ChargeOk(s, l, q, begin))
  }

  lemma PickKeepsBook(s: Sched, l: Ledger, q: Queue, begin: nat)
    requires Valid(s) && BookOk(s, l, begin) && q in s.rqs
    requires forall k :: k in s.rqs[q].tree ==> k.handle in s.se
    ensures BookOk(PickNext(s, q).s, AfterPick(l, s, q), begin)
  {
    var s' := PickNext(s, q).s;
    var l' := AfterPick(l, s, q);
    forall p | p in s'.rqs ensures TurnOk(s', l', p) {
      assert TurnOk(s, l, p) && QueueOk(s, p);
      if p != q && Eligible(s, q) != {} {
        assert QueueOk(s, q) && EntryOk(s, q, Leftmost(Eligible(s, q)));
      }
    }
    forall p | p in s'.rqs ensures ChargeOk(s', l', p, begin) { assert ChargeOk(s, l, p, begin); }
  }

  lemma UpdateKeepsBook(w: World, w': World, l: Ledger, q: Queue, begin: nat)
    requires Valid(w.s) && BookOk(w.s, l, begin) && MainUpdates(w, w', q)
    ensures BookOk(w'.s, Record(l, w, ActUpdate(q)), begin)
  {
    var l' := Record(l, w, ActUpdate(q));
    forall p | p in w'.s.rqs ensures TurnOk(w'.s, l', p) {
      assert TurnOk(w.s, l, p) && QueueOk(w.s, p) && QueueOk(w.s, q);
    }
    forall p | p in w'.s.rqs ensures ChargeOk(w'.s, l', p, begin) { assert ChargeOk(w.s, l, p, begin); }
  }

  /** The current jobs keep runtime and granularity. */
  ghost predicate Quiet(s: Sched, s': Sched) {
    && s'.rqs.Keys == s.rqs.Keys && s.clock <= s'.clock
    && (forall q :: q in s.rqs ==> s'.rqs[q].curr == s.rqs[q].curr)
    && (forall q :: q in s.rqs && s.rqs[q].curr.handle > 0 ==>
          var h := s.rqs[q].curr.handle;
          && h in s.se && h in s'.se && s'.se[h].rrun == s.se[h].rrun && s'.se[h].vrun == s.se[h].vrun
          && s'.se[h].minGran == s.se[h].minGran)
  }

  lemma QuietKeepsBook(s: Sched, s': Sched, l: Ledger, begin: nat)
    requires BookOk(s, l, begin) && Quiet(s, s')
    ensures BookOk(s', l, begin)
  {
    forall p | p in s'.rqs ensures TurnOk(s', l, p) { assert TurnOk(s, l, p); }
    forall p | p in s'.rqs ensures ChargeOk(s', l, p, begin) { assert ChargeOk(s, l, p, begin); }
  }

  lemma OthersAreQuiet(w: World, w': World, a: Action)
    requires Inv(w) && Next(w, w', a)
    requires !a.ActDispatcherPick? && !a.ActMainPick? && !a.ActUpdate?
    ensures Quiet(w.s, w'.s)
  {
    forall q | q in w.s.rqs && w.s.rqs[q].curr.handle > 0
      ensures w.s.rqs[q].curr.handle in w.s.se && w.s.se[w.s.rqs[q].curr.handle].queue == q
    {
      assert QueueOk(w.s, q);
    }
    match a
    case ActHalt =>
    case ActClient(_, _) =>
    case ActReport(_) =>
    case ActClean =>
    case ActFindIdle(_) =>
    case ActClock(_) =>
    case ActMigrate(_) =>
    case ActAdmit(_, _, _, _) =>
    case ActRemove(_) =>
  }

  lemma NextKeepsBook(w: World, w': World, a: Action, l: Ledger, begin: nat)
    requires Inv(w) && Next(w, w', a) && BookOk(w.s, l, begin)
    ensures BookOk(w'.s, Record(l, w, a), begin)
  {
    if a.ActDispatcherPick? {
      PickKeepsBook(w.s, l, w.disp.q, begin);
    } else if a.ActMainPick? {
      PickKeepsBook(w.s, l, w.main.q, begin);
    } else if a.ActUpdate? {
      UpdateKeepsBook(w, w', l, a.q, begin);
    } else {
      OthersAreQuiet(w, w', a);
      QuietKeepsBook(w.s, w'.s, l, begin);
    }
  }

  lemma InitBook(w: World)
    requires Init(w)
    ensures BookOk(w.s, Ledger(map[], map[]), w.s.clock)
  {
  }

  lemma {:induction false} RunKeepsBook(ws: seq<World>, acts: seq<Action>, i: nat)
    requires UssExclusion.Run(ws, acts) && i <= |acts|
    ensures BookOk(ws[i].s, LedgerAt(ws, acts, i), ws[0].s.clock)
  {
    if i == 0 {
      InitBook(ws[0]);
    } else {
      RunKeepsBook(ws, acts, i - 1);
      UssExclusion.RunKeepsInv(ws, acts, i - 1);
      assert Next(ws[i - 1], ws[i], acts[i - 1]);
      NextKeepsBook(ws[i - 1], ws[i], acts[i - 1], LedgerAt(ws, acts, i - 1), ws[0].s.clock);
    }
  }

  /** What an update of queue `q` does under the ledger of its turn. */
  ghost predicate Guaranteed(w: World, w': World, l: Ledger, q: Queue) {
    && q in w.s.rqs && q in w'.s.rqs && q in l.turn && l.turn[q].start <= w.s.clock
    && w.s.rqs[q].curr.handle in w'.s.se
    && w'.s.se[w.s.rqs[q].curr.handle].rrun == l.turn[q].rrun + (w.s.clock - l.turn[q].start)
    && (w'.s.rqs[q].curr.sent && !w.s.rqs[q].curr.sent ==>
          w.s.clock - l.turn[q].start >= 50_000_000 + 1_000_000_000 + l.turn[q].lead)
  }

  lemma UpdateIsGuaranteed(w: World, w': World, l: Ledger, q: Queue)
    requires MainUpdates(w, w', q) && TurnOk(w.s, l, q)
    ensures Guaranteed(w, w', l, q)
  {
  }

  /** In every run: a step that preempts a queue comes no earlier than turn cost, base
      granularity and the runner-up's lead after the pick that began the turn; the job has
      then been charged exactly the clock since that pick; and all charges ever made on
      the queue together do not exceed the clock elapsed since the start. */
  lemma TurnGuarantee(ws: seq<World>, acts: seq<Action>, i: nat, q: Queue)
    requires UssExclusion.Run(ws, acts) && i < |acts| && acts[i] == ActUpdate(q)
    ensures Guaranteed(ws[i], ws[i + 1], LedgerAt(ws, acts, i), q)
    ensures Charged(LedgerAt(ws, acts, i + 1), q) <= ws[i + 1].s.clock - ws[0].s.clock
  {
    assert Next(ws[i], ws[i + 1], acts[i]);
    RunKeepsBook(ws, acts, i);
    UpdateIsGuaranteed(ws[i], ws[i + 1], LedgerAt(ws, acts, i), q);
    RunKeepsBook(ws, acts, i + 1);
    assert ChargeOk(ws[i + 1].s, LedgerAt(ws, acts, i + 1), q, ws[0].s.clock);
  }

  // What begins and what ends a turn.

  /** The client of handle h gets message m, and nobody else anything. */
  ghost predicate Gets(w: World, w': World, h: int, m: Queue) {
    && h in w.addr && w.addr[h] in w.clients
    && w'.clients == w.clients[w.addr[h] := w.clients[w.addr[h]].(inbox := w.clients[w.addr[h]].inbox + [m])]
  }

  /** The pick on queue q in step i: the first job that may run gets its turn, which is written down as it is. */
  ghost predicate TurnBegins(w: World, w': World, l': Ledger, q: Queue) {
    && q in w.s.rqs && q in w'.s.rqs
    && (NobodyNext(w.s, q) ==> w'.s.rqs[q].curr == Curr(-1, w.s.clock, false) && w'.clients == w.clients)
    && (!NobodyNext(w.s, q) ==>
          exists k :: IsNext(w.s, q, k) && TurnOf(w, w', l', q, k))
  }

  ghost predicate TurnOf(w: World, w': World, l': Ledger, q: Queue, k: Key)
    requires q in w.s.rqs && q in w'.s.rqs
  {
    && w'.s.rqs[q].curr == Curr(k.handle, w.s.clock, false) && Gets(w, w', k.handle, q)
    && q in l'.turn && l'.turn[q].start == w.s.clock && l'.turn[q].vrun == k.vrun
    && k.handle in w.s.se && l'.turn[q].rrun == w.s.se[k.handle].rrun
    && Known(w.s, q) && IsLead(w.s, q, k, l'.turn[q].lead)
  }

  lemma PickBegins(w: World, w': World, l: Ledger, q: Queue)
    requires Inv(w) && q in w.s.rqs && CanPick(w, q)
    requires w'.s == PickNext(w.s, q).s && w'.clients == Deliver(w.clients, w.addr, PickNext(w.s, q).sent)
    ensures TurnBegins(w, w', AfterPick(l, w.s, q), q)
  {
    var k, n := PickIs(w.s, q);
    if !NobodyNext(w.s, q) {
      assert HandleOk(w, k.handle);
      assert QueueOk(w.s, q) && EntryOk(w.s, q, k);
      UssExclusion.DeliverOne(w.clients, w.addr, Sent(k.handle, q.kind, q.index));
      var e := Leftmost(Eligible(w.s, q));
      assert e in Eligible(w.s, q) && k in Eligible(w.s, q);
      assert e == k;
      LeadIs(w.s, q, k);
      assert TurnOf(w, w', AfterPick(l, w.s, q), q, k);
    }
  }

  /** In every run: a pick, by the dispatcher or by the main thread, begins the turn of the first job that may run. */
  lemma PicksBeginTurns(ws: seq<World>, acts: seq<Action>, i: nat)
    requires UssExclusion.Run(ws, acts) && i < |acts|
    ensures acts[i] == ActDispatcherPick ==>
              ws[i].disp.Cleaned? && TurnBegins(ws[i], ws[i + 1], LedgerAt(ws, acts, i + 1), ws[i].disp.q)
    ensures acts[i] == ActMainPick ==>
              ws[i].main.Picking? && TurnBegins(ws[i], ws[i + 1], LedgerAt(ws, acts, i + 1), ws[i].main.q)
  {
    UssExclusion.RunKeepsInv(ws, acts, i);
    assert Next(ws[i], ws[i + 1], acts[i]);
    if acts[i] == ActDispatcherPick {
      PickBegins(ws[i], ws[i + 1], LedgerAt(ws, acts, i), ws[i].disp.q);
    } else if acts[i] == ActMainPick {
      PickBegins(ws[i], ws[i + 1], LedgerAt(ws, acts, i), ws[i].main.q);
    }
  }

  /** A turn may end: nothing was sent, it lasted long enough, and another job that may run is first by now. */
  ghost predicate MayEnd(s: Sched, t: Turn, q: Queue)
    requires q in s.rqs && t.start <= s.clock
  {
    && !s.rqs[q].curr.sent
    && s.clock - t.start >= 50_000_000 + 1_000_000_000 + t.lead
    && Overtaken(s, q, t.vrun + (s.clock - t.start))
  }

  /** The tick of a busy queue: what is charged, and the one message it may send. */
  ghost predicate Ticked(w: World, w': World, t: Turn, q: Queue) {
    && q in w.s.rqs && q in w'.s.rqs && t.start <= w.s.clock
    && var h := w.s.rqs[q].curr.handle;
       var d := w.s.clock - t.start;
       && h in w.s.se && h in w'.s.se
       && w'.s.se[h].rrun == t.rrun + d && w'.s.se[h].vrun == t.vrun + d
       && (forall k :: k in w'.s.rqs[q].tree <==>
             k == Key(t.vrun + d, h) || (k in w.s.rqs[q].tree && k.handle != h))
       && w'.s.rqs[q].curr == Curr(h, w.s.clock, w.s.rqs[q].curr.sent || MayEnd(w.s, t, q))
       && (MayEnd(w.s, t, q) ==> Gets(w, w', h, Queue(0, 0)))
       && (!MayEnd(w.s, t, q) ==> w'.clients == w.clients)
  }

  lemma UpdateTicks(w: World, w': World, l: Ledger, q: Queue)
    requires Inv(w) && MainUpdates(w, w', q) && TurnOk(w.s, l, q)
    ensures q in l.turn && Ticked(w, w', l.turn[q], q)
  {
    hide Overtaken;
    var h := w.s.rqs[q].curr.handle;
    assert QueueOk(w.s, q) && HandleOk(w, h) && JobOk(w.s, h);
    assert forall k :: k in w.s.rqs[q].tree ==> EntryOk(w.s, q, k);
    assert forall k :: k in w.s.rqs[q].tree && k.handle == h ==> k == Key(w.s.se[h].vrun, h);
    UpdateIs(w.s, q, h);
    ChargeIs(w.s, q, h);
    DueIsMayEnd(w.s, l, q);
    if Due(w.s, q) {
      UssExclusion.DeliverOne(w.clients, w.addr, Sent(h, 0, 0));
    }
  }

  lemma DueIsMayEnd(s: Sched, l: Ledger, q: Queue)
    requires q in s.rqs && s.rqs[q].curr.handle > 0 && s.rqs[q].curr.execStart <= s.clock && TurnOk(s, l, q)
    ensures l.turn[q].start <= s.clock && (Due(s, q) <==> MayEnd(s, l.turn[q], q))
  {
    hide Overtaken;
    var c, t := s.rqs[q].curr, l.turn[q];
    var e := s.se[c.handle];
    assert e.vrun + (s.clock - c.execStart) == t.vrun + (s.clock - t.start);
    assert e.rrun + (s.clock - c.execStart) == t.rrun + (s.clock - t.start);
  }

  /**
   * In every run, both ways: a tick of a busy queue sends RUNON/IDLE to its current client, and only that,
   * exactly if none was sent in this turn, the turn lasted turn cost, base granularity and lead, and with
   * the clock since the pick charged another job that is not finished is first in the tree.
   */
  lemma PreemptsExactly(ws: seq<World>, acts: seq<Action>, i: nat, q: Queue)
    requires UssExclusion.Run(ws, acts) && i < |acts| && acts[i] == ActUpdate(q)
    ensures q in LedgerAt(ws, acts, i).turn && Ticked(ws[i], ws[i + 1], LedgerAt(ws, acts, i).turn[q], q)
  {
    assert Next(ws[i], ws[i + 1], acts[i]);
    RunKeepsBook(ws, acts, i);
    UssExclusion.RunKeepsInv(ws, acts, i);
    UpdateTicks(ws[i], ws[i + 1], LedgerAt(ws, acts, i), q);
  }
}
