/** Every step of the daemon-client protocol keeps its invariant, so device
    exclusion holds in every reachable world. */
module UssExclusion {
  import opened UssTypes
  import opened UssSpec
  import opened UssMigration
  import opened UssProtocol

  // ---------- steps seen from one handle ----------

  lemma ViewAfterClientStep(v: View, b: Client, done: bool)
    requires ViewOk(v) && ClientStep(v.cl, b, done)
    ensures ViewOk(v.(cl := b))
  {
  }

  lemma ViewAfterReport(v: View)
    requires ViewOk(v) && v.cl.pc.Freed?
    ensures v.cl.pc.q == v.q
    ensures ViewOk(v.(cl := v.cl.(pc := Loop), mine := v.mine + [Report(v.id, v.cl.fin, v.q)]))
  {
    assert v.mine + [Report(v.id, v.cl.fin, v.q)] == [Report(v.id, v.cl.fin, v.q)];
  }

  lemma ViewAfterClean(v: View, m: Report)
    requires ViewOk(v) && v.mine != [] && v.mine[0] == m && !v.gap
    ensures v.current && m.q == v.q && v.mine[1..] == []
    ensures ViewOk(v.(se := v.se.(mode := v.se.nextMode, finished := v.se.finished || m.fin),
                      mine := [], gap := true))
  {
  }

  /** A job that is not running (or has just reported) is invited to its queue. */
  lemma ViewAfterPick(v: View, minGran: nat)
    requires ViewOk(v) && !v.se.finished && v.se.mode == IDLE && (v.current ==> v.gap)
    ensures ViewOk(v.(cl := v.cl.(inbox := v.cl.inbox + [v.q]), current := true, sent := false, gap := false,
                      se := v.se.(mode := v.q.kind, minGran := minGran)))
  {
    assert [v.q] + [] == [v.q] == [] + [v.q];
  }

  lemma ViewAfterDrop(v: View)
    requires ViewOk(v) && v.current && v.gap
    ensures ViewOk(v.(current := false, sent := false, gap := false))
  {
  }

  lemma ViewAfterPreempt(v: View)
    requires ViewOk(v) && v.current && !v.sent
    ensures ViewOk(v.(cl := v.cl.(inbox := v.cl.inbox + [IDLE_MESSAGE]), sent := true))
  {
    assert Tail(v) == [];
    assert [v.q] + [IDLE_MESSAGE] == ([v.q] + []) + [IDLE_MESSAGE];
    assert [] + [IDLE_MESSAGE] == [IDLE_MESSAGE];
  }

  lemma ViewAfterCharge(v: View, se: Se)
    requires ViewOk(v) && se.mode == v.se.mode && se.nextMode == IDLE && se.finished == v.se.finished
    ensures ViewOk(v.(se := se))
  {
  }

  lemma ViewAfterMove(v: View, q: Queue, se: Se)
    requires ViewOk(v) && !v.current && IsDevice(q.kind)
    requires se.mode == v.se.mode && se.nextMode == v.se.nextMode && se.finished == v.se.finished
    ensures ViewOk(v.(q := q, se := se))
  {
  }

  // ---------- steps of the world ----------

  lemma ClientKeepsInv(w: World, w': World, c: int, done: bool)
    requires Inv(w) && ClientMoves(w, w', c, done)
    ensures Inv(w')
  {
    assert ClientOk(w, c);
    forall h | h in w'.s.se ensures HandleOk(w', h) {
      assert HandleOk(w, h);
      if w.addr[h] == c {
        ViewAfterClientStep(ViewOf(w, h), w'.clients[c], done);
        assert ViewOf(w', h) == ViewOf(w, h).(cl := w'.clients[c]);
      } else {
        assert ViewOf(w', h) == ViewOf(w, h);
      }
    }
    forall d | d in w'.clients ensures ClientOk(w', d) { assert ClientOk(w, d); }
    forall m | m in w'.reports ensures ReportOk(w', m) { assert ReportOk(w, m); }
  }

  lemma ReportKeepsInv(w: World, w': World, c: int)
    requires Inv(w) && ClientReports(w, w', c)
    ensures Inv(w')
  {
    assert ClientOk(w, c);
    var m := Report(c, w.clients[c].fin, w.clients[c].pc.q);
    forall h | h in w'.s.se ensures HandleOk(w', h) {
      assert HandleOk(w, h);
      ReportsAppend(w.reports, m, w.addr[h]);
      if w.addr[h] == c {
        ViewAfterReport(ViewOf(w, h));
        assert ViewOf(w', h) == ViewOf(w, h).(cl := w'.clients[c], mine := ViewOf(w, h).mine + [m]);
      } else {
        assert ViewOf(w', h) == ViewOf(w, h);
      }
    }
    forall d | d in w'.clients ensures ClientOk(w', d) { assert ClientOk(w, d); }
    forall r | r in w'.reports ensures ReportOk(w', r) { if r in w.reports { assert ReportOk(w, r); } }
  }

  lemma CleanKeepsInv(w: World, w': World)
    requires Inv(w) && Cleans(w, w')
    ensures Inv(w')
  {
    var m := w.reports[0];
    var h := w.clients[m.client].handle;
    assert HandleOk(w, h);
    ViewAfterClean(ViewOf(w, h), m);
    HandleCleanupValid(w.s, h, m.fin);
    forall g | g in w'.s.se ensures HandleOk(w', g) {
      assert HandleOk(w, g);
      if g == h {
        var v := ViewOf(w, h);
        assert ViewOf(w', h) == v.(se := v.se.(mode := v.se.nextMode, finished := v.se.finished || m.fin),
                                   mine := [], gap := true);
      } else {
        assert ViewOf(w', g) == ViewOf(w, g);
      }
    }
    forall d | d in w'.clients ensures ClientOk(w', d) { assert ClientOk(w, d); }
    forall r | r in w'.reports ensures ReportOk(w', r) { assert ReportOk(w, r); }
  }

  /** A pick on a queue that is idle, or whose current job has just reported. */
  ghost predicate PickStep(w: World, w': World, q: Queue) {
    && CanPick(w, q)
    && (w.s.rqs[q].curr.handle > 0 ==> w.disp == Cleaned(w.s.rqs[q].curr.handle, q))
    && w' == Obey(w, PickNext(w.s, q)).(disp := w'.disp, main := w'.main)
    && w'.disp == (if w.disp.Cleaned? && w.disp.q == q then Listening else w.disp)
    && (w'.main == Free || (w'.main == w.main && (w.main.Picking? ==> w.main.q != q)))
  }

  function Picked(s: Sched, q: Queue): int
    requires q in s.rqs
    requires forall k :: k in s.rqs[q].tree ==> k.handle in s.se
  {
    if Eligible(s, q) == {} then -1 else Leftmost(Eligible(s, q)).handle
  }

  lemma PickDelivers(w: World, w': World, q: Queue)
    requires Inv(w) && PickStep(w, w', q)
    ensures var h := Picked(w.s, q);
      if h == -1 then w'.clients == w.clients
      else
        && h in w.s.se && w.s.se[h].queue == q && h in w.addr && w.addr[h] in w.clients
        && w'.clients == w.clients[w.addr[h] :=
             w.clients[w.addr[h]].(inbox := w.clients[w.addr[h]].inbox + [q])]
  {
    if Eligible(w.s, q) != {} {
      var h := Picked(w.s, q);
      assert QueueOk(w.s, q) && EntryOk(w.s, q, Leftmost(Eligible(w.s, q)));
      assert HandleOk(w, h) && JobOk(w.s, h);
      DeliverOne(w.clients, w.addr, Sent(h, q.kind, q.index));
    }
  }

  lemma PickKeepsHandle(w: World, w': World, q: Queue, h: int)
    requires Inv(w) && PickStep(w, w', q) && h in w'.s.se
    ensures HandleOk(w', h)
  {
    PickDelivers(w, w', q);
    assert HandleOk(w, h) && JobOk(w.s, h) && QueueOk(w.s, q);
    var v := ViewOf(w, h);
    if h == Picked(w.s, q) {
      ViewAfterPick(v, w'.s.se[h].minGran);
      assert ViewOf(w', h) == v.(cl := v.cl.(inbox := v.cl.inbox + [v.q]), current := true, sent := false,
                                 gap := false, se := v.se.(mode := v.q.kind, minGran := w'.s.se[h].minGran));
    } else {
      if Picked(w.s, q) != -1 { assert HandleOk(w, Picked(w.s, q)); }
      if h == w.s.rqs[q].curr.handle {
        ViewAfterDrop(v);
        assert ViewOf(w', h) == v.(current := false, sent := false, gap := false);
      } else {
        assert ViewOf(w', h) == v;
      }
    }
  }

  lemma PickKeepsInv(w: World, w': World, q: Queue)
    requires Inv(w) && PickStep(w, w', q)
    ensures Inv(w')
  {
    PickNextValid(w.s, q);
    PickDelivers(w, w', q);
    assert QueueOk(w.s, q);
    if Picked(w.s, q) != -1 { assert HandleOk(w, Picked(w.s, q)); }
    forall h | h in w'.s.se ensures HandleOk(w', h) { PickKeepsHandle(w, w', q, h); }
    forall d | d in w'.clients ensures ClientOk(w', d) { assert ClientOk(w, d); }
    forall r | r in w'.reports ensures ReportOk(w', r) { assert ReportOk(w, r); }
  }

  lemma DeliverOne(clients: map<int, Client>, addr: map<int, int>, m: Sent)
    requires m.handle in addr && addr[m.handle] in clients
    ensures Deliver(clients, addr, [m]) ==
      clients[addr[m.handle] := clients[addr[m.handle]].(inbox := clients[addr[m.handle]].inbox + [Queue(m.kind, m.index)])]
  {
    assert [m][1..] == [];
  }

  lemma UpdateKeepsInv(w: World, w': World, q: Queue)
    requires Inv(w) && MainUpdates(w, w', q)
    ensures Inv(w')
  {
    var h := w.s.rqs[q].curr.handle;
    UpdateCurrValid(w.s, q);
    assert QueueOk(w.s, q);
    assert HandleOk(w, h);
    var o := UpdateCurr(w.s, q);
    if o.sent != [] {
      DeliverOne(w.clients, w.addr, Sent(h, IDLE, 0));
    }
    forall g | g in w'.s.se ensures HandleOk(w', g) {
      assert HandleOk(w, g);
      var v := ViewOf(w, g);
      if g == h {
        ViewAfterCharge(v, w'.s.se[h]);
        var u := v.(se := w'.s.se[h]);
        if o.sent != [] {
          ViewAfterPreempt(u);
          assert ViewOf(w', g) == u.(cl := u.cl.(inbox := u.cl.inbox + [IDLE_MESSAGE]), sent := true);
        } else {
          assert ViewOf(w', g) == u;
        }
      } else {
        assert ViewOf(w', g) == v;
      }
    }
    forall d | d in w'.clients ensures ClientOk(w', d) { assert ClientOk(w, d); }
    forall r | r in w'.reports ensures ReportOk(w', r) { assert ReportOk(w, r); }
  }

  lemma ClockKeepsInv(w: World, w': World, now: nat)
    requires Inv(w) && ClockAdvances(w, w', now)
    ensures Inv(w')
  {
    ClockValid(w.s, now);
    forall h | h in w'.s.se ensures HandleOk(w', h) {
      assert HandleOk(w, h);
      assert ViewOf(w', h) == ViewOf(w, h);
    }
    forall d | d in w'.clients ensures ClientOk(w', d) { assert ClientOk(w, d); }
    forall r | r in w'.reports ensures ReportOk(w', r) { assert ReportOk(w, r); }
  }

  lemma MigrationKeepsInv(w: World, w': World, m: Migration)
    requires Inv(w) && MainMigrates(w, w', m)
    ensures Inv(w')
  {
    LegalMoveConserves(w.s, m);
    assert MqOk(w.s, m.target.kind) && QueueOk(w.s, m.target);
    forall h | h in w'.s.se ensures HandleOk(w', h) {
      assert HandleOk(w, h) && JobOk(w.s, h);
      var v := ViewOf(w, h);
      if h == m.handle {
        ViewAfterMove(v, m.target, w'.s.se[h]);
        assert ViewOf(w', h) == v.(q := m.target, se := w'.s.se[h]);
      } else {
        assert ViewOf(w', h) == v;
      }
    }
    forall d | d in w'.clients ensures ClientOk(w', d) { assert ClientOk(w, d); }
    forall r | r in w'.reports ensures ReportOk(w', r) { assert ReportOk(w, r); }
  }

  lemma AdmissionKeepsInv(w: World, w': World, c: int, h: int, m: seq<Slot>, q: Queue)
    requires Inv(w) && Admits(w, w', c, h, m, q)
    ensures Inv(w')
  {
    AddJobValid(w.s, h, m, q);
    assert QueueOk(w.s, q) && MqOk(w.s, q.kind);
    forall g | g in w'.s.se ensures HandleOk(w', g) {
      if g == h {
        NoReports(w, c);
      } else {
        assert HandleOk(w, g);
        assert ViewOf(w', g) == ViewOf(w, g);
      }
    }
    forall d | d in w'.clients ensures ClientOk(w', d) { if d != c { assert ClientOk(w, d); } }
    forall r | r in w'.reports ensures ReportOk(w', r) { assert ReportOk(w, r); }
  }

  lemma NoReports(w: World, c: int)
    requires forall m :: m in w.reports ==> ReportOk(w, m)
    requires c !in w.clients
    ensures ReportsOf(w.reports, c) == []
  {
    if ReportsOf(w.reports, c) != [] {
      ReportsAreReports(w.reports, c);
      assert false;
    }
  }

  lemma {:induction false} ReportsAreReports(reports: seq<Report>, c: int)
    ensures forall m :: m in ReportsOf(reports, c) ==> m in reports && m.client == c
    ensures ReportsOf(reports, c) != [] ==> exists m :: m in reports && m.client == c
  {
    if reports != [] {
      ReportsAreReports(reports[1..], c);
      if ReportsOf(reports[1..], c) != [] {
        var m :| m in reports[1..] && m.client == c;
        assert m in reports;
      } else if reports[0].client == c {
        assert reports[0] in reports;
      }
    }
  }

  lemma RemovalKeepsInv(w: World, w': World, h: int)
    requires Inv(w) && Removes(w, w', h)
    ensures Inv(w')
  {
    assert HandleOk(w, h);
    RemoveJobValid(w.s, h);
    forall g | g in w'.s.se ensures HandleOk(w', g) {
      assert HandleOk(w, g);
      assert ViewOf(w', g) == ViewOf(w, g);
    }
    forall d | d in w'.clients ensures ClientOk(w', d) { assert ClientOk(w, d); }
    forall r | r in w'.reports ensures ReportOk(w', r) {
      assert ReportOk(w, r);
      InReportsOf(w.reports, r);
    }
  }

  // ---------- runs ----------

  lemma NextKeepsInv(w: World, w': World, a: Action)
    requires Inv(w) && Next(w, w', a)
    ensures Inv(w')
  {
    match a
    case ActHalt =>
      forall h | h in w'.s.se ensures HandleOk(w', h) { assert HandleOk(w, h); assert ViewOf(w', h) == ViewOf(w, h); }
      forall d | d in w'.clients ensures ClientOk(w', d) { assert ClientOk(w, d); }
      forall r | r in w'.reports ensures ReportOk(w', r) { assert ReportOk(w, r); }
    case ActClient(c, done) => ClientKeepsInv(w, w', c, done);
    case ActReport(c) => ReportKeepsInv(w, w', c);
    case ActClean => CleanKeepsInv(w, w');
    case ActDispatcherPick =>
      assert JobOk(w.s, w.disp.handle);
      PickKeepsInv(w, w', w.disp.q);
    case ActFindIdle(q) =>
      forall h | h in w'.s.se ensures HandleOk(w', h) { assert HandleOk(w, h); assert ViewOf(w', h) == ViewOf(w, h); }
      forall d | d in w'.clients ensures ClientOk(w', d) { assert ClientOk(w, d); }
      forall r | r in w'.reports ensures ReportOk(w', r) { assert ReportOk(w, r); }
    case ActMainPick =>
      if w.disp.Cleaned? { assert JobOk(w.s, w.disp.handle); }
      PickKeepsInv(w, w', w.main.q);
    case ActUpdate(q) => UpdateKeepsInv(w, w', q);
    case ActClock(now) => ClockKeepsInv(w, w', now);
    case ActMigrate(m) => MigrationKeepsInv(w, w', m);
    case ActAdmit(c, h, m, q) => AdmissionKeepsInv(w, w', c, h, m, q);
    case ActRemove(h) => RemovalKeepsInv(w, w', h);
  }

  /** A run of the system from its start. */
  ghost predicate Run(ws: seq<World>, acts: seq<Action>) {
    && |ws| == |acts| + 1 && Init(ws[0])
    && forall i :: 0 <= i < |acts| ==> Next(ws[i], ws[i + 1], acts[i])
  }

  lemma {:induction false} RunKeepsInv(ws: seq<World>, acts: seq<Action>, i: nat)
    requires Run(ws, acts) && i < |ws|
    ensures Inv(ws[i])
  {
    if i > 0 {
      RunKeepsInv(ws, acts, i - 1);
      NextKeepsInv(ws[i - 1], ws[i], acts[i - 1]);
    }
  }

  /** In every world of every run, no two clients use the same device, every client that
      uses a device, is invited to one, or has a report on one in flight is current there. */
  lemma Exclusion(ws: seq<World>, acts: seq<Action>, i: nat)
    requires Run(ws, acts) && i < |ws|
    ensures forall c, d :: c in ws[i].clients && d in ws[i].clients && c != d
              && ws[i].clients[c].pc.Running? && ws[i].clients[d].pc.Running?
              ==> ws[i].clients[c].pc.q != ws[i].clients[d].pc.q
    ensures forall c :: c in ws[i].clients && ws[i].clients[c].pc.Running? ==>
              && ws[i].clients[c].pc.q in ws[i].s.rqs
              && ws[i].s.rqs[ws[i].clients[c].pc.q].curr.handle == ws[i].clients[c].handle
    ensures forall c, q ::
              c in ws[i].clients && q in ws[i].clients[c].inbox && IsDevice(q.kind) ==>
              q in ws[i].s.rqs && ws[i].s.rqs[q].curr.handle == ws[i].clients[c].handle
    ensures forall m :: m in ws[i].reports ==>
              && m.client in ws[i].clients && m.q in ws[i].s.rqs
              && ws[i].s.rqs[m.q].curr.handle == ws[i].clients[m.client].handle
    ensures Valid(ws[i].s)
  {
    RunKeepsInv(ws, acts, i);
    var w := ws[i];
    forall c, d | c in w.clients && d in w.clients && c != d && w.clients[c].pc.Running? && w.clients[d].pc.Running?
      ensures w.clients[c].pc.q != w.clients[d].pc.q { DeviceExclusion(w, c, d); }
    forall c | c in w.clients && w.clients[c].pc.Running?
      ensures w.clients[c].pc.q in w.s.rqs && w.s.rqs[w.clients[c].pc.q].curr.handle == w.clients[c].handle
    { RunnerIsCurrent(w, c); }
    forall c, q | c in w.clients && q in w.clients[c].inbox && IsDevice(q.kind)
      ensures q in w.s.rqs && w.s.rqs[q].curr.handle == w.clients[c].handle { InvitedIsCurrent(w, c, q); }
    forall m | m in w.reports
      ensures m.client in w.clients && m.q in w.s.rqs && w.s.rqs[m.q].curr.handle == w.clients[m.client].handle
    { ReporterIsCurrent(w, m); }
  }
}
