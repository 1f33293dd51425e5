/** The centerpoints over every run of the protocol: from zero on they are the sums of the shares of the
    jobs, they add up to the number of jobs, and they depend on nothing but the jobs. */
module UssCenterRuns {
  import opened UssTypes
  import opened UssSpec
  import opened UssMigration
  import opened UssProtocol
  import opened UssCenter
  import UssExclusion

  /** The centerpoints of multi-queues that were just created. */
  ghost predicate ZeroCenters(s: Sched) {
    forall t :: t in s.mqs ==> s.mqs[t].center == 0.0
  }

  lemma ZeroIsOk(s: Sched)
    requires s.se == map[] && ZeroCenters(s)
    ensures CentersOk(s)
  {
    assert s.se.Keys == {};
  }

  lemma NextKeepsCenters(w: World, w': World, a: Action)
    requires Inv(w) && Next(w, w', a) && CentersOk(w.s)
    ensures CentersOk(w'.s) && w'.s.mqs.Keys == w.s.mqs.Keys
  {
    match a
    case ActAdmit(c, h, m, q) => AddKeepsCenters(w.s, h, m, q);
    case ActRemove(h) =>
      assert JobOk(w.s, h);
      RemoveKeepsCenters(w.s, h);
    case ActMigrate(m) => MigrationKeepsCenters(w.s, m);
    case _ => OthersKeepCenters(w.s, w'.s);
  }

  lemma {:induction false} RunKeepsCenters(ws: seq<World>, acts: seq<Action>, i: nat)
    requires UssExclusion.Run(ws, acts) && ZeroCenters(ws[0].s) && i < |ws|
    ensures Inv(ws[i]) && CentersOk(ws[i].s) && ws[i].s.mqs.Keys == ws[0].s.mqs.Keys
  {
    if i == 0 {
      UssExclusion.RunKeepsInv(ws, acts, 0);
      ZeroIsOk(ws[0].s);
    } else {
      RunKeepsCenters(ws, acts, i - 1);
      UssExclusion.RunKeepsInv(ws, acts, i);
      NextKeepsCenters(ws[i - 1], ws[i], acts[i - 1]);
    }
  }

  /** In every world of every run that starts from zero the centerpoints are exact and count the jobs. */
  lemma CentersInRuns(ws: seq<World>, acts: seq<Action>, i: nat)
    requires UssExclusion.Run(ws, acts) && ZeroCenters(ws[0].s) && i < |ws|
    ensures forall t :: t in ws[i].s.mqs ==> ws[i].s.mqs[t].center == SumShares(ws[i].s, ws[i].s.se.Keys, t)
    ensures SumCenters(ws[i].s, ws[i].s.mqs.Keys) == |ws[i].s.se| as real
  {
    RunKeepsCenters(ws, acts, i);
    CentersSumToJobs(ws[i].s);
  }

  /** Two worlds of a run with the same jobs have the same centerpoints, whatever was admitted, moved,
      run and removed between them. */
  lemma SameJobsSameCenters(ws: seq<World>, acts: seq<Action>, i: nat, j: nat, t: int)
    requires UssExclusion.Run(ws, acts) && ZeroCenters(ws[0].s) && i < |ws| && j < |ws| && t in ws[i].s.mqs
    requires ws[j].s.se.Keys == ws[i].s.se.Keys
    requires forall h :: h in ws[i].s.se ==> ws[j].s.se[h].msai == ws[i].s.se[h].msai
    ensures t in ws[j].s.mqs && ws[j].s.mqs[t].center == ws[i].s.mqs[t].center
  {
    RunKeepsCenters(ws, acts, i);
    RunKeepsCenters(ws, acts, j);
    SumSharesSame(ws[i].s, ws[j].s, ws[i].s.se.Keys, t);
  }
}
