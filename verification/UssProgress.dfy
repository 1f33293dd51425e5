/** The protocol never gets stuck: what each thread does next, and that it can. */
module UssProgress {
  import opened UssTypes
  import opened UssSpec
  import opened UssMigration
  import opened UssProtocol
  import opened UssTick
  import UssExclusion

  // The client loop.

  /** The next message, if there is one, says where to run; without one nothing changes. */
  ghost predicate HasRead(a: Client, b: Client) {
    if a.inbox == [] then b.runOn == a.runOn && b.dev == a.dev && b.inbox == []
    else b.runOn == a.inbox[0].kind && b.dev == a.inbox[0].index && b.inbox == a.inbox[1..]
  }

  /** The thread of a client, as its loop is written; apart from it, the client may be told that it is done. */
  ghost predicate Advances(a: Client, b: Client, done: bool) {
    && b.handle == a.handle
    && match a.pc
       case Start => HasRead(a, b) && b.pc == Loop && b.fin == a.fin
       case Loop =>
         && b == a.(pc := b.pc)
         && b.pc == (if a.fin then Exited
                     else if a.runOn == 4 || a.runOn == 5 || a.runOn == 6 then Running(Queue(a.runOn, a.dev), false)
                     else Wait)
       case Wait => a.inbox != [] && HasRead(a, b) && b.pc == Loop && b.fin == a.fin
       case Running(q, ran) =>
         if !a.fin && (!ran || (a.runOn == q.kind && a.dev == q.index))
         then HasRead(a, b) && b.pc == Running(q, true) && b.fin == (a.fin || done)
         else b == a.(pc := Freed(q))
       case _ => false
  }

  lemma ClientStepIs(a: Client, b: Client, done: bool)
    ensures ClientStep(a, b, done) <==> Advances(a, b, done) || b == a.(fin := true)
  {
  }

  /**
   * In every run: a client that has run its main function on q and reads another place to run, or is done,
   * runs it no more before it frees q; until then it does not even read on.
   */
  lemma Yields(ws: seq<World>, acts: seq<Action>, i: nat, c: int, q: Queue, done: bool)
    requires UssExclusion.Run(ws, acts) && i < |acts| && acts[i] == ActClient(c, done)
    requires c in ws[i].clients && ws[i].clients[c].pc == Running(q, true)
    requires ws[i].clients[c].fin || ws[i].clients[c].runOn != q.kind || ws[i].clients[c].dev != q.index
    ensures c in ws[i + 1].clients
    ensures ws[i + 1].clients[c] == ws[i].clients[c].(pc := Freed(q)) || ws[i + 1].clients[c] == ws[i].clients[c].(fin := true)
  {
    assert Next(ws[i], ws[i + 1], acts[i]);
    ClientStepIs(ws[i].clients[c], ws[i + 1].clients[c], done);
  }

  /** A client that is meant to go on, or has not run yet, does. */
  lemma GoesOn(ws: seq<World>, acts: seq<Action>, i: nat, c: int, q: Queue, ran: bool, done: bool)
    requires UssExclusion.Run(ws, acts) && i < |acts| && acts[i] == ActClient(c, done)
    requires c in ws[i].clients && ws[i].clients[c].pc == Running(q, ran) && !ws[i].clients[c].fin
    requires !ran || (ws[i].clients[c].runOn == q.kind && ws[i].clients[c].dev == q.index)
    ensures c in ws[i + 1].clients
    ensures ws[i + 1].clients[c].pc == Running(q, true) || ws[i + 1].clients[c] == ws[i].clients[c].(fin := true)
  {
    assert Next(ws[i], ws[i + 1], acts[i]);
    ClientStepIs(ws[i].clients[c], ws[i + 1].clients[c], done);
  }

  /** A client only ever stands still when it is through, or waits with nothing to read. */
  lemma ClientCanGo(w: World, c: int) returns (w': World, a: Action)
    requires c in w.clients && w.clients[c].pc != Exited && (w.clients[c].pc == Wait ==> w.clients[c].inbox != [])
    ensures Next(w, w', a) && (a == ActReport(c) || a == ActClient(c, false))
    ensures c in w'.clients && (w'.clients[c].pc != w.clients[c].pc || w.clients[c].pc.Running?)
    ensures a == ActReport(c) <==> w.clients[c].pc.Freed?
  {
    var cl := w.clients[c];
    if cl.pc.Freed? {
      w' := w.(clients := w.clients[c := cl.(pc := Loop)], reports := w.reports + [Report(c, cl.fin, cl.pc.q)]);
      a := ActReport(c);
    } else {
      var b := match cl.pc
               case Start => cl.Read().(pc := Loop)
               case Loop => cl.(pc := if cl.fin then Exited else if IsDevice(cl.runOn) then Running(Queue(cl.runOn, cl.dev), false) else Wait)
               case Wait => cl.Read().(pc := Loop)
               case Running(q, _) => if CanWork(cl) then cl.Read().(pc := Running(q, true)) else cl.(pc := Freed(q))
               case _ => cl;
      w' := w.(clients := w.clients[c := b]);
      a := ActClient(c, false);
    }
  }

  // Daemon.

  /** A report goes out under the name of the device that was used, and says whether the client is done. */
  lemma ReportSays(w: World, w': World, c: int)
    requires Next(w, w', ActReport(c))
    ensures c in w.clients && w.clients[c].pc.Freed?
    ensures w'.reports == w.reports + [Report(c, w.clients[c].fin, w.clients[c].pc.q)] && w'.s == w.s
    ensures w'.clients == w.clients[c := w.clients[c].(pc := Loop)]
  {
  }

  /** A report that came in is taken up: its sender turns idle, and is marked if it is done. */
  lemma ReportIsTaken(w: World) returns (w': World)
    requires Inv(w) && !w.halted && w.disp == Listening && w.reports != []
    ensures var m := w.reports[0];
      && m.client in w.clients
      && var h := w.clients[m.client].handle;
         && Next(w, w', ActClean) && w'.disp == Cleaned(h, m.q) && w'.reports == w.reports[1..]
         && h in w.s.se && h in w'.s.se && w'.s.se[h].mode == 0
         && (m.fin ==> w'.s.se[h].finished && h in w'.s.tokill)
  {
    var m := w.reports[0];
    assert ReportOk(w, m);
    var h := w.clients[m.client].handle;
    assert HandleOk(w, h);
    w' := w.(s := HandleCleanup(w.s, h, m.fin), reports := w.reports[1..], disp := Cleaned(h, m.q));
  }

  /** After a cleanup the dispatcher can pick, and the sender is no longer current unless it is picked again. */
  lemma DispatcherGoesOn(w: World) returns (w': World)
    requires Inv(w) && !w.halted && w.disp.Cleaned?
    ensures Next(w, w', ActDispatcherPick) && w'.disp == Listening
    ensures Served(w.s, w'.s, w.disp.q)
  {
    var q := w.disp.q;
    assert JobOk(w.s, w.disp.handle) && QueueOk(w.s, q);
    assert forall k :: k in w.s.rqs[q].tree ==> EntryOk(w.s, q, k);
    w' := Obey(w, PickNext(w.s, q)).(disp := Listening);
    var k, n := PickIs(w.s, q);
    assert NobodyNext(w.s, q) || IsNext(w.s, q, k);
  }

  /** The queue runs the first job that may run, or nothing if none may. */
  ghost predicate Served(s: Sched, s': Sched, q: Queue) {
    && q in s.rqs && q in s'.rqs
    && (NobodyNext(s, q) ==> s'.rqs[q].curr.handle == -1)
    && (!NobodyNext(s, q) ==> exists k :: IsNext(s, q, k) && s'.rqs[q].curr.handle == k.handle)
  }

  /** An idle queue is found and served by the main thread. */
  lemma IdleQueueIsServed(w: World, q: Queue) returns (w1: World, w2: World)
    requires Inv(w) && !w.halted && w.main == Free && q in w.s.rqs && w.s.rqs[q].curr.handle <= 0
    ensures Next(w, w1, ActFindIdle(q)) && Next(w1, w2, ActMainPick) && w2.main == Free && Served(w.s, w2.s, q)
  {
    w1 := w.(main := Picking(q));
    assert QueueOk(w.s, q);
    assert forall k :: k in w.s.rqs[q].tree ==> EntryOk(w.s, q, k);
    w2 := Obey(w1, PickNext(w.s, q)).(main := Free);
    var k, n := PickIs(w.s, q);
    assert NobodyNext(w.s, q) || IsNext(w.s, q, k);
  }

  /** A busy queue can be ticked. */
  lemma BusyQueueIsTicked(w: World, q: Queue) returns (w': World)
    requires Inv(w) && !w.halted && w.main == Free && q in w.s.rqs && w.s.rqs[q].curr.handle > 0
    ensures Next(w, w', ActUpdate(q))
  {
    assert QueueOk(w.s, q);
    assert forall k :: k in w.s.rqs[q].tree ==> EntryOk(w.s, q, k);
    w' := Obey(w, UpdateCurr(w.s, q));
  }

  /** A main thread that found a queue idle can pick. */
  lemma MainGoesOn(w: World) returns (w': World)
    requires Inv(w) && !w.halted && w.main.Picking?
    ensures Next(w, w', ActMainPick) && w'.main == Free && Served(w.s, w'.s, w.main.q)
  {
    var q := w.main.q;
    assert QueueOk(w.s, q);
    assert forall k :: k in w.s.rqs[q].tree ==> EntryOk(w.s, q, k);
    w' := Obey(w, PickNext(w.s, q)).(main := Free);
    var k, n := PickIs(w.s, q);
    assert NobodyNext(w.s, q) || IsNext(w.s, q, k);
  }

  /** In every world of every run exactly the jobs whose clients reported completion are marked for removal. */
  lemma FinishedAreMarked(ws: seq<World>, acts: seq<Action>, i: nat, h: int)
    requires UssExclusion.Run(ws, acts) && i < |ws|
    ensures h in ws[i].s.tokill <==> h in ws[i].s.se && ws[i].s.se[h].finished
  {
    UssExclusion.RunKeepsInv(ws, acts, i);
    if h in ws[i].s.se {
      assert HandleOk(ws[i], h);
    }
  }

  /** A finished job can leave as soon as it is not current. */
  lemma FinishedJobLeaves(w: World, h: int) returns (w': World)
    requires Inv(w) && !w.halted && w.main == Free && h in w.s.tokill
    requires forall q :: q in w.s.rqs ==> w.s.rqs[q].curr.handle != h
    ensures Next(w, w', ActRemove(h)) && h !in w'.s.se && h !in w'.addr
    ensures forall q, k :: q in w'.s.rqs && k in w'.s.rqs[q].tree ==> k.handle != h
  {
    assert JobOk(w.s, h);
    w' := w.(s := RemoveJob(w.s, h), addr := w.addr - {h});
    RemoveJobValid(w.s, h);
    forall q, k | q in w'.s.rqs && k in w'.s.rqs[q].tree ensures k.handle != h {
      assert QueueOk(w'.s, q) && EntryOk(w'.s, q, k);
    }
  }

  /** A new client is admitted with any type it supports that has a queue. */
  lemma NewClientIsAdmitted(w: World, c: int, h: int, m: seq<Slot>, q: Queue) returns (w': World)
    requires !w.halted && w.main == Free && c !in w.clients && h > 0 && h !in w.s.se
    requires MsaiOk(m) && q in w.s.rqs && Supports(m, q.kind)
    ensures Next(w, w', ActAdmit(c, h, m, q))
    ensures w'.clients == w.clients[c := Client(h, Start, 0, 0, false, [])] && w'.addr == w.addr[h := c]
    ensures h in w'.s.se && w'.s.se == w.s.se[h := Se(0, 0, q, 0, w.s.rqs[q].minVrun + 50_000_000, 0, false, m)]
  {
    w' := w.(s := AddJob(w.s, h, m, q), addr := w.addr[h := c], clients := w.clients[c := Client(h, Start, IDLE, 0, false, [])]);
  }

  /** The clock may stand or advance, and a job may move, whenever the main thread is free. */
  lemma MainMayAct(w: World, now: nat, m: Migration) returns (w1: World, w2: World)
    requires !w.halted && w.main == Free
    ensures now >= w.s.clock ==> Next(w, w1, ActClock(now)) && w1 == w.(s := w.s.(clock := now))
    ensures LegalMove(w.s, m) ==> Next(w, w2, ActMigrate(m)) && w2 == w.(s := Move(w.s, m.handle, m.target))
  {
    w1 := w.(s := w.s.(clock := now));
    w2 := if LegalMove(w.s, m) then w.(s := Apply(w.s, m)) else w;
  }
}
