/** The message protocol between daemon and clients as a state machine: main
    thread, dispatcher thread, client threads and FIFO channels, with `dexit`
    as a halting step. Main result: a device is never used by two clients. */
module UssProtocol {
  import opened UssTypes
  import opened UssSpec
  import opened UssMigration

  const IDLE_MESSAGE: Queue := Queue(IDLE, 0)

  /** Where a client thread is in libuss_start: Running is the span from `init` to before `free`. */
  datatype Pc = Start | Loop | Wait | Running(q: Queue, ran: bool) | Freed(q: Queue) | Exited

  datatype Client = Client(handle: int, pc: Pc, runOn: int, dev: int, fin: bool, inbox: seq<Queue>) {
    function Read(): Client {
      if inbox == [] then this
      else Client(handle, pc, inbox[0].kind, inbox[0].index, fin, inbox[1..])
    }

    predicate At(q: Queue) { runOn == q.kind && dev == q.index }
  }

  /** CLEANUP_DONE, or ISFINISHED where `fin` is set. */
  datatype Report = Report(client: int, fin: bool, q: Queue)

  /** The dispatcher between the two halves of one message. */
  datatype Dispatcher = Listening | Cleaned(handle: int, q: Queue)

  /** The main thread between its test of an idle queue and the pick. */
  datatype MainPc = Free | Picking(q: Queue)

  datatype World = World(s: Sched, addr: map<int, int>, clients: map<int, Client>, reports: seq<Report>,
                         disp: Dispatcher, main: MainPc, halted: bool)

  // ---------- steps ----------

  /** Messages to handles, appended to the FIFOs of their clients. */
  function Deliver(clients: map<int, Client>, addr: map<int, int>, sent: seq<Sent>): map<int, Client> {
    if sent == [] then clients
    else if sent[0].handle in addr && addr[sent[0].handle] in clients then
      var c := addr[sent[0].handle];
      Deliver(clients[c := clients[c].(inbox := clients[c].inbox + [Queue(sent[0].kind, sent[0].index)])],
              addr, sent[1..])
    else Deliver(clients, addr, sent[1..])
  }

  function Obey(w: World, o: Outcome): World {
    w.(s := o.s, clients := Deliver(w.clients, w.addr, o.sent))
  }

  predicate CanWork(c: Client)
    requires c.pc.Running?
  {
    (c.At(c.pc.q) || !c.pc.ran) && !c.fin
  }

  /** A step of one client thread; `done` is whether `main` reports completion. */
  predicate ClientStep(a: Client, b: Client, done: bool) {
    || (a.pc == Start && b == a.Read().(pc := Loop))
    || (a.pc == Loop && b == a.(pc := if a.fin then Exited
                                      else if IsDevice(a.runOn) then Running(Queue(a.runOn, a.dev), false) else Wait))
    || (a.pc == Wait && a.inbox != [] && b == a.Read().(pc := Loop))
    || (a.pc.Running? && CanWork(a) && b == a.Read().(pc := Running(a.pc.q, true), fin := a.fin || done))
    || (a.pc.Running? && !CanWork(a) && b == a.(pc := Freed(a.pc.q)))
    || b == a.(fin := true)
  }

  predicate ClientMoves(w: World, w': World, c: int, done: bool) {
    && c in w.clients && c in w'.clients && ClientStep(w.clients[c], w'.clients[c], done)
    && w' == w.(clients := w.clients[c := w'.clients[c]])
  }

  /** After `free` the client reports and returns to its loop. */
  predicate ClientReports(w: World, w': World, c: int) {
    && c in w.clients && w.clients[c].pc.Freed?
    && w' == w.(clients := w.clients[c := w.clients[c].(pc := Loop)],
                reports := w.reports + [Report(c, w.clients[c].fin, w.clients[c].pc.q)])
  }

  /** First half of a message: the entity of the sender is cleaned up. */
  predicate Cleans(w: World, w': World) {
    && w.disp == Listening && w.reports != [] && w.reports[0].client in w.clients
    && var m := w.reports[0];
       var h := w.clients[m.client].handle;
       && h in w.s.se && h in w.addr && w.addr[h] == m.client
       && w' == w.(s := HandleCleanup(w.s, h, m.fin), reports := w.reports[1..], disp := Cleaned(h, m.q))
  }

  ghost predicate CanPick(w: World, q: Queue) {
    q in w.s.rqs && forall k :: k in w.s.rqs[q].tree ==> k.handle in w.s.se
  }

  /** Second half: the queue named by the message picks its next job. */
  ghost predicate DispatcherPicks(w: World, w': World) {
    && w.disp.Cleaned? && CanPick(w, w.disp.q)
    && w' == Obey(w, PickNext(w.s, w.disp.q)).(disp := Listening)
  }

  predicate MainFindsIdle(w: World, w': World, q: Queue) {
    && w.main == Free && q in w.s.rqs && w.s.rqs[q].curr.handle <= 0
    && w' == w.(main := Picking(q))
  }

  ghost predicate MainPicks(w: World, w': World) {
    && w.main.Picking? && CanPick(w, w.main.q)
    && w' == Obey(w, PickNext(w.s, w.main.q)).(main := Free)
  }

  ghost predicate MainUpdates(w: World, w': World, q: Queue) {
    && w.main == Free && CanPick(w, q) && w.s.rqs[q].curr.handle > 0
    && w.s.rqs[q].curr.handle in w.s.se && w.s.rqs[q].curr.execStart <= w.s.clock
    && w' == Obey(w, UpdateCurr(w.s, q))
  }

  predicate ClockAdvances(w: World, w': World, now: nat) {
    && w.main == Free && w.s.clock <= now
    && w' == w.(s := w.s.(clock := now))
  }

  /** A move of the load balancer, in either phase. */
  ghost predicate MainMigrates(w: World, w': World, m: Migration) {
    && w.main == Free && LegalMove(w.s, m)
    && w' == w.(s := Apply(w.s, m))
  }

  /** A new client `c` is registered under an unused handle and admitted. */
  ghost predicate Admits(w: World, w': World, c: int, h: int, m: seq<Slot>, q: Queue) {
    && w.main == Free && c !in w.clients && h > 0 && h !in w.s.se
    && MsaiOk(m) && q in w.s.rqs && Supports(m, q.kind)
    && w' == w.(s := AddJob(w.s, h, m, q), addr := w.addr[h := c],
                clients := w.clients[c := Client(h, Start, IDLE, 0, false, [])])
  }

  /** A finished job that is not current leaves; its handle may be issued again. */
  predicate Removes(w: World, w': World, h: int) {
    && w.main == Free && h in w.s.tokill && h in w.s.se && w.s.se[h].queue in w.s.rqs
    && w.s.rqs[w.s.se[h].queue].curr.handle != h
    && w' == w.(s := RemoveJob(w.s, h), addr := w.addr - {h})
  }

  datatype Action =
    | ActHalt
    | ActClient(c: int, done: bool)
    | ActReport(c: int)
    | ActClean
    | ActDispatcherPick
    | ActFindIdle(q: Queue)
    | ActMainPick
    | ActUpdate(q: Queue)
    | ActClock(now: nat)
    | ActMigrate(m: Migration)
    | ActAdmit(c: int, h: int, msai: seq<Slot>, q: Queue)
    | ActRemove(h: int)

  /** One step of the whole system; a halted daemon takes no more steps, its clients may. */
  ghost predicate Next(w: World, w': World, a: Action) {
    match a
    case ActHalt => w' == w.(halted := true)
    case ActClient(c, done) => ClientMoves(w, w', c, done)
    case ActReport(c) => ClientReports(w, w', c)
    case ActClean => !w.halted && Cleans(w, w')
    case ActDispatcherPick => !w.halted && DispatcherPicks(w, w')
    case ActFindIdle(q) => !w.halted && MainFindsIdle(w, w', q)
    case ActMainPick => !w.halted && MainPicks(w, w')
    case ActUpdate(q) => !w.halted && MainUpdates(w, w', q)
    case ActClock(now) => !w.halted && ClockAdvances(w, w', now)
    case ActMigrate(m) => !w.halted && MainMigrates(w, w', m)
    case ActAdmit(c, h, m, q) => !w.halted && Admits(w, w', c, h, m, q)
    case ActRemove(h) => !w.halted && Removes(w, w', h)
  }

  ghost predicate Init(w: World) {
    && Valid(w.s) && w.s.se == map[] && w.s.tokill == {}
    && (forall q :: q in w.s.rqs ==> w.s.rqs[q].curr.handle <= 0)
    && w.addr == map[] && w.clients == map[] && w.reports == []
    && w.disp == Listening && w.main == Free && !w.halted
  }

  // ---------- the invariant ----------

  function ReportsOf(reports: seq<Report>, c: int): seq<Report> {
    if reports == [] then []
    else (if reports[0].client == c then [reports[0]] else []) + ReportsOf(reports[1..], c)
  }

  lemma {:induction false} ReportsAppend(reports: seq<Report>, m: Report, c: int)
    ensures ReportsOf(reports + [m], c) == ReportsOf(reports, c) + (if m.client == c then [m] else [])
  {
    if reports == [] {
      assert reports + [m] == [m];
    } else {
      ReportsAppend(reports[1..], m, c);
      assert (reports + [m])[1..] == reports[1..] + [m];
    }
  }

  /** Everything the protocol knows about one registered handle and its client. */
  datatype View = View(cl: Client, id: int, q: Queue, current: bool, sent: bool, se: Se,
                       mine: seq<Report>, gap: bool)

  ghost function ViewOf(w: World, h: int): View
    requires h in w.s.se && h in w.addr && w.addr[h] in w.clients && w.s.se[h].queue in w.s.rqs
  {
    var curr := w.s.rqs[w.s.se[h].queue].curr;
    View(w.clients[w.addr[h]], w.addr[h], w.s.se[h].queue, curr.handle == h, curr.handle == h && curr.sent, w.s.se[h],
         ReportsOf(w.reports, w.addr[h]), w.disp == Cleaned(h, w.s.se[h].queue))
  }

  function Tail(v: View): seq<Queue> {
    if v.sent then [IDLE_MESSAGE] else []
  }

  /** No message in the FIFO sends the client to a device. */
  predicate OnlyIdle(inbox: seq<Queue>) {
    forall m :: m in inbox ==> !IsDevice(m.kind)
  }

  /** The client after its report on `v.q`. */
  predicate AfterReport(v: View, fin: bool) {
    OnlyIdle(v.cl.inbox) &&
    if fin then v.cl.fin && (v.cl.pc == Loop || v.cl.pc == Exited)
    else
      && v.sent
      && (v.cl.fin ==> v.cl.pc == Loop || v.cl.pc == Wait || v.cl.pc == Exited)
      && (!v.cl.fin ==> (v.cl.pc == Loop || v.cl.pc == Wait) && v.cl.runOn == IDLE && v.cl.inbox == [])
  }

  /** The single token of a current handle: the RUNON message, the client's use of the
      device, or the client's report, in this order; or the client is bound to leave. */
  predicate HasToken(v: View) {
    || (v.mine == [] && v.cl.runOn == IDLE && v.cl.inbox == [v.q] + Tail(v)
        && (v.cl.pc == Start || v.cl.pc == Loop || v.cl.pc == Wait))
    || (v.mine == [] && v.cl.At(v.q) && v.cl.inbox == Tail(v) && v.cl.pc == Loop)
    || (v.mine == [] && v.cl.pc.Running? && v.cl.pc.q == v.q && OnlyIdle(v.cl.inbox)
        && (v.cl.fin || (v.cl.At(v.q) && v.cl.inbox == Tail(v))
            || (v.cl.pc.ran && v.cl.runOn == IDLE && v.sent && v.cl.inbox == [])))
    || (v.mine == [] && v.cl.pc == Freed(v.q) && OnlyIdle(v.cl.inbox)
        && (v.cl.fin || (v.cl.runOn == IDLE && v.sent && v.cl.inbox == [])))
    || (v.mine == [Report(v.id, true, v.q)] && AfterReport(v, true))
    || (v.mine == [Report(v.id, false, v.q)] && AfterReport(v, false))
    || (v.mine == [] && v.cl.fin && (forall m :: m in v.cl.inbox ==> IsDevice(m.kind) ==> m == v.q)
        && (v.cl.pc == Start || v.cl.pc == Loop || v.cl.pc == Wait || v.cl.pc == Exited))
  }

  predicate ViewOk(v: View) {
    && v.se.nextMode == IDLE && IsDevice(v.q.kind)
    && (v.cl.pc == Exited ==> v.cl.fin)
    && if v.current then
         if v.gap then v.mine == [] && v.se.mode == IDLE && AfterReport(v, v.se.finished)
         else v.se.mode == v.q.kind && !v.se.finished && HasToken(v)
       else
         && v.mine == [] && v.se.mode == IDLE && !v.gap && OnlyIdle(v.cl.inbox)
         && (v.se.finished ==> v.cl.fin && (v.cl.pc == Loop || v.cl.pc == Exited))
         && (!v.se.finished ==>
               && (v.cl.pc == Start || v.cl.pc == Loop || v.cl.pc == Wait || v.cl.pc == Exited)
               && (!v.cl.fin ==> v.cl.runOn == IDLE && v.cl.inbox == []))
  }

  ghost predicate Registered(w: World, h: int)
    requires h in w.s.se
  {
    && h in w.addr && w.addr[h] in w.clients && w.clients[w.addr[h]].handle == h
    && w.s.se[h].queue in w.s.rqs
  }

  ghost predicate HandleOk(w: World, h: int)
    requires h in w.s.se
  {
    Registered(w, h) && ViewOk(ViewOf(w, h)) && (h in w.s.tokill <==> w.s.se[h].finished)
  }

  /** A client is registered under its handle, or has finished for good. */
  ghost predicate ClientOk(w: World, c: int)
    requires c in w.clients
  {
    var cl := w.clients[c];
    || (cl.handle in w.s.se && cl.handle in w.addr && w.addr[cl.handle] == c)
    || (cl.fin && (cl.pc == Loop || cl.pc == Exited) && OnlyIdle(cl.inbox))
  }

  ghost predicate ReportOk(w: World, m: Report) {
    && m.client in w.clients
    && w.clients[m.client].handle in w.s.se && w.clients[m.client].handle in w.addr
    && w.addr[w.clients[m.client].handle] == m.client
  }

  ghost predicate ThreadsOk(w: World) {
    && (w.disp.Cleaned? ==>
          && w.disp.handle in w.s.se && w.disp.q in w.s.rqs && w.s.se[w.disp.handle].queue == w.disp.q
          && w.s.rqs[w.disp.q].curr.handle == w.disp.handle)
    && (w.main.Picking? ==> w.main.q in w.s.rqs && w.s.rqs[w.main.q].curr.handle <= 0)
  }

  ghost predicate Inv(w: World) {
    && Valid(w.s) && w.addr.Keys == w.s.se.Keys && w.s.tokill <= w.s.se.Keys
    && (forall h {:trigger HandleOk(w, h)} :: h in w.s.se ==> HandleOk(w, h))
    && (forall c {:trigger ClientOk(w, c)} :: c in w.clients ==> ClientOk(w, c))
    && (forall m {:trigger ReportOk(w, m)} :: m in w.reports ==> ReportOk(w, m))
    && ThreadsOk(w)
  }

  // ---------- exclusion ----------

  /** A client between `init` and `free` on a device is that queue's current job. */
  lemma RunnerIsCurrent(w: World, c: int)
    requires Inv(w) && c in w.clients && w.clients[c].pc.Running?
    ensures w.clients[c].handle in w.addr && w.addr[w.clients[c].handle] == c
    ensures w.clients[c].pc.q in w.s.rqs && w.s.rqs[w.clients[c].pc.q].curr.handle == w.clients[c].handle
  {
    assert ClientOk(w, c);
    assert HandleOk(w, w.clients[c].handle);
  }

  /** No two clients are ever between `init` and `free` on the same device. */
  lemma DeviceExclusion(w: World, c: int, d: int)
    requires Inv(w) && c in w.clients && d in w.clients && c != d
    requires w.clients[c].pc.Running? && w.clients[d].pc.Running?
    ensures w.clients[c].pc.q != w.clients[d].pc.q
  {
    RunnerIsCurrent(w, c);
    RunnerIsCurrent(w, d);
  }

  /** A client with RUNON for a device in its FIFO is that queue's current job. */
  lemma InvitedIsCurrent(w: World, c: int, q: Queue)
    requires Inv(w) && c in w.clients && q in w.clients[c].inbox && IsDevice(q.kind)
    ensures q in w.s.rqs && w.s.rqs[q].curr.handle == w.clients[c].handle
  {
    assert ClientOk(w, c);
    assert HandleOk(w, w.clients[c].handle);
  }

  /** A client whose report on a device is in flight is that queue's current job. */
  lemma ReporterIsCurrent(w: World, m: Report)
    requires Inv(w) && m in w.reports
    ensures m.client in w.clients && m.q in w.s.rqs
    ensures w.s.rqs[m.q].curr.handle == w.clients[m.client].handle
  {
    assert ReportOk(w, m);
    var h := w.clients[m.client].handle;
    assert HandleOk(w, h);
    InReportsOf(w.reports, m);
  }

  lemma {:induction false} InReportsOf(reports: seq<Report>, m: Report)
    requires m in reports
    ensures m in ReportsOf(reports, m.client)
  {
    if reports[0] != m {
      InReportsOf(reports[1..], m);
    }
  }
}
