/**
 * Registration hand-off: any number of dispatcher threads (one per incoming connection) and the main
 * thread, interleaved step by step over the registration controller.
 */
module UssHandoff {
  import opened UssRegistration
  import Collections

  /**
   * Where a dispatcher stands. Got: owns a handle. Listed: its entry is in the pending table but not yet
   * counted. Waiting: counted. Told: the client has its reply. Dropped: a declined entry is gone from the
   * table, its handle not yet recycled.
   */
  datatype Dispatcher = Got(h: int) | Listed(h: int) | Waiting(h: int) | Told(h: int, ok: bool) | Dropped(h: int) | Done

  /** Where the main loop stands. Counting: the verdict is published, the counter not yet decremented. */
  datatype Main = Testing | Fetching | Adding(h: int) | Deciding(h: int, ok: bool) | Counting | Serving

  datatype Answer = Answer(dispatcher: int, ok: bool)

  /** `jobs`: handles the scheduler has accepted and not removed. `answers`: history of verdicts. */
  datatype State = State(rc: Rc, ds: map<int, Dispatcher>, main: Main, jobs: set<int>, answers: seq<Answer>)

  datatype Action =
    | Connect(d: int) | List(d: int) | Count(d: int) | Reply(d: int) | Leave(d: int) | Recycle(d: int)
    | Test | Fetch | Add(accept: bool) | Decide(d: int) | Uncount | Retire(h: int) | Tick

  ghost predicate Holds(s: State, d: int, h: int) {
    d in s.ds && !s.ds[d].Done? && s.ds[d].h == h
  }

  ghost predicate Held(s: State, h: int) {
    exists d :: Holds(s, d, h)
  }

  function Uncounted(s: State): set<int> {
    set d | d in s.ds && s.ds[d].Listed?
  }

  ghost predicate Init(s: State) {
    s == State(Rc(map[], 0, 0, {}), map[], Testing, {}, [])
  }

  ghost predicate Enabled(s: State, a: Action) {
    match a
    case Connect(d) => d !in s.ds
    case List(d) => d in s.ds && s.ds[d].Got?
    case Count(d) => d in s.ds && s.ds[d].Listed?
    case Reply(d) => d in s.ds && s.ds[d].Waiting? && s.ds[d].h in s.rc.pending && s.rc.pending[s.ds[d].h] != NotProcessed
    case Leave(d) => d in s.ds && s.ds[d].Told?
    case Recycle(d) => d in s.ds && s.ds[d].Dropped?
    case Test => s.main.Testing?
    case Fetch => s.main.Fetching?
    case Add(_) => s.main.Adding?
    case Decide(d) => s.main.Deciding? && Holds(s, d, s.main.h)
    case Uncount => s.main.Counting?
    case Retire(h) =>
      // A client finishes only after its reply came.
      s.main.Serving? && h in s.jobs && !exists d :: Holds(s, d, h) && !s.ds[d].Told?
    case Tick => s.main.Serving?
  }

  ghost function After(s: State, a: Action): State
    requires Enabled(s, a)
  {
    match a
    case Connect(d) => s.(rc := TakeHandle(s.rc), ds := s.ds[d := Got(UniqueHandle(s.rc))])
    case List(d) => s.(rc := Insert(s.rc, s.ds[d].h), ds := s.ds[d := Listed(s.ds[d].h)])
    case Count(d) => s.(rc := s.rc.(newRegs := s.rc.newRegs + 1), ds := s.ds[d := Waiting(s.ds[d].h)])
    case Reply(d) => s.(ds := s.ds[d := Told(s.ds[d].h, s.rc.pending[s.ds[d].h] == Accepted)])
    case Leave(d) =>
      s.(rc := Unlist(s.rc, s.ds[d].h), ds := s.ds[d := if s.ds[d].ok then Done else Dropped(s.ds[d].h)])
    case Recycle(d) => s.(rc := s.rc.(reuse := s.rc.reuse + {s.ds[d].h}), ds := s.ds[d := Done])
    case Test => s.(main := if s.rc.newRegs > 0 then Fetching else Serving)
    case Fetch => s.(main := Adding(NewReg(s.rc)))
    case Add(accept) =>
      s.(main := Deciding(s.main.h, accept), jobs := if accept then s.jobs + {s.main.h} else s.jobs)
    case Decide(d) =>
      s.(rc := SetStatus(s.rc, s.main.h, s.main.ok), main := Counting, answers := s.answers + [Answer(d, s.main.ok)])
    case Uncount => s.(rc := s.rc.(newRegs := s.rc.newRegs - 1), main := Testing)
    case Retire(h) => s.(jobs := s.jobs - {h}, rc := s.rc.(reuse := s.rc.reuse + {h}))
    case Tick => s.(main := Testing)
  }

  /** The daemon removes no job whose dispatcher still has the pending entry to take out. */
  ghost predicate Prompt(s: State, a: Action) {
    a.Retire? ==> !Held(s, a.h)
  }

  // The invariant.

  ghost predicate CountOk(s: State) {
    && s.rc.newRegs + |Uncounted(s)| == |Unprocessed(s.rc)| + (if s.main.Counting? then 1 else 0)
    && s.rc.newRegs >= 0
    && (!s.main.Testing? && !s.main.Serving? ==> s.rc.newRegs >= 1)
  }

  ghost predicate IsPending(s: State, h: int) {
    h in s.rc.pending
  }

  ghost predicate Answered(s: State, d: int, ok: bool) {
    Answer(d, ok) in s.answers
  }

  ghost predicate NeverAnswered(s: State, d: int) {
    !Answered(s, d, true) && !Answered(s, d, false)
  }

  /** What a dispatcher's handle looks like in the table and in the history. */
  ghost predicate DispatcherOk(s: State, d: int)
    requires d in s.ds
  {
    match s.ds[d]
    case Got(h) => h !in s.rc.pending && h !in s.jobs && NeverAnswered(s, d)
    case Listed(h) => EntryOk(s, d, h)
    case Waiting(h) => EntryOk(s, d, h)
    case Told(h, ok) => h in s.rc.pending && s.rc.pending[h] == (if ok then Accepted else Declined) && Answered(s, d, ok)
    case Dropped(h) => h !in s.rc.pending && h !in s.jobs && Answered(s, d, false)
    case Done => !NeverAnswered(s, d)
  }

  ghost predicate EntryOk(s: State, d: int, h: int) {
    && h in s.rc.pending
    && (s.rc.pending[h] == NotProcessed ==> NeverAnswered(s, d))
    && (s.rc.pending[h] == Accepted ==> Answered(s, d, true))
    && (s.rc.pending[h] == Declined ==> Answered(s, d, false))
  }

  ghost predicate PendingOk(s: State, h: int)
    requires h in s.rc.pending
  {
    && Held(s, h)
    && match s.rc.pending[h]
       case NotProcessed => h in s.jobs <==> s.main == Deciding(h, true)
       case Accepted => h in s.jobs
       case Declined => h !in s.jobs
  }

  /** Every handle issued so far is recycled, or in use, never both. */
  ghost predicate HandleOk(s: State, h: int) {
    && (h in s.rc.reuse ==> 1 <= h <= s.rc.maxHandle && h !in s.jobs && !Held(s, h))
    && (h in s.jobs ==> 1 <= h <= s.rc.maxHandle)
    && (Held(s, h) ==> 1 <= h <= s.rc.maxHandle)
    && (1 <= h <= s.rc.maxHandle ==> h in s.rc.reuse || h in s.jobs || Held(s, h))
  }

  ghost predicate MainOk(s: State) {
    match s.main
    case Adding(h) => h in s.rc.pending && s.rc.pending[h] == NotProcessed
    case Deciding(h, ok) => h in s.rc.pending && s.rc.pending[h] == NotProcessed && (ok <==> h in s.jobs)
    case _ => true
  }

  ghost predicate HistoryOk(s: State) {
    && (forall i, j :: 0 <= i < j < |s.answers| ==> s.answers[i].dispatcher != s.answers[j].dispatcher)
    && (forall x :: x in s.answers ==> x.dispatcher in s.ds)
  }

  ghost predicate Inv(s: State) {
    && CountOk(s)
    && (forall d :: d in s.ds ==> DispatcherOk(s, d))
    && (forall d, e, h :: Holds(s, d, h) && Holds(s, e, h) ==> d == e)
    && (forall h :: IsPending(s, h) ==> PendingOk(s, h))
    && (forall h :: HandleOk(s, h))
    && MainOk(s)
    && HistoryOk(s)
    && s.rc.maxHandle >= 0
  }

  // Each step keeps the invariant.

  lemma CountsAfter(s: State, a: Action)
    requires Inv(s) && Enabled(s, a)
    requires a.Connect? || a.Reply? || a.Leave? || a.Recycle? || a.Test? || a.Fetch? || a.Add? || a.Uncount? || a.Retire? || a.Tick?
    ensures Uncounted(After(s, a)) == Uncounted(s)
    ensures Unprocessed(After(s, a).rc) == Unprocessed(s.rc)
  {
    if a.Leave? {
      assert DispatcherOk(s, a.d);
    }
    var t := After(s, a);
    assert forall d :: d in Uncounted(t) <==> d in Uncounted(s);
  }

  lemma ListCounts(s: State, d: int)
    requires Enabled(s, List(d)) && CountOk(s) && s.ds[d].h !in s.rc.pending
    ensures CountOk(After(s, List(d)))
  {
    var t := After(s, List(d));
    assert Uncounted(t) == Uncounted(s) + {d};
    assert Unprocessed(t.rc) == Unprocessed(s.rc) + {s.ds[d].h};
  }

  lemma CountCounts(s: State, d: int)
    requires Enabled(s, Count(d)) && CountOk(s)
    ensures CountOk(After(s, Count(d)))
  {
    var t := After(s, Count(d));
    assert Uncounted(s) == Uncounted(t) + {d} && d !in Uncounted(t);
    assert Unprocessed(t.rc) == Unprocessed(s.rc);
  }

  lemma DecideCounts(s: State, d: int)
    requires Enabled(s, Decide(d)) && CountOk(s) && MainOk(s)
    ensures CountOk(After(s, Decide(d)))
  {
    var t := After(s, Decide(d));
    assert Uncounted(t) == Uncounted(s);
    assert Unprocessed(s.rc) == Unprocessed(t.rc) + {s.main.h} && s.main.h !in Unprocessed(t.rc);
  }

  lemma CountKept(s: State, a: Action)
    requires Inv(s) && Enabled(s, a)
    ensures CountOk(After(s, a))
  {
    if a.List? {
      assert DispatcherOk(s, a.d);
      ListCounts(s, a.d);
    } else if a.Count? {
      CountCounts(s, a.d);
    } else if a.Decide? {
      DecideCounts(s, a.d);
    } else {
      CountsAfter(s, a);
    }
  }

  /** The handles in use change only when a dispatcher takes one or ends. */
  lemma HeldAfter(s: State, a: Action, h: int)
    requires Inv(s) && Enabled(s, a)
    ensures Held(After(s, a), h) <==>
      if a.Connect? then Held(s, h) || h == UniqueHandle(s.rc)
      else Held(s, h) && !Ends(s, a, h)
  {
    var t := After(s, a);
    if Held(t, h) {
      var d :| Holds(t, d, h);
      assert a.Connect? || Holds(s, d, h);
      assert a.Connect? ==> d == a.d || Holds(s, d, h);
    }
    if Held(s, h) {
      var d :| Holds(s, d, h);
      if !Ends(s, a, h) {
        assert Holds(t, d, h);
      }
    }
    if a.Connect? {
      assert Holds(t, a.d, UniqueHandle(s.rc));
    }
  }

  /** The step after which h has no dispatcher any more. */
  ghost predicate Ends(s: State, a: Action, h: int) {
    || (a.Leave? && Holds(s, a.d, h) && s.ds[a.d].Told? && s.ds[a.d].ok)
    || (a.Recycle? && Holds(s, a.d, h))
  }

  /** A handle that was just taken is new to everyone. */
  lemma TakenIsUnused(s: State)
    requires Inv(s)
    ensures var h := UniqueHandle(s.rc);
            !Held(s, h) && h !in s.jobs && h !in s.rc.pending && 1 <= h <= TakeHandle(s.rc).maxHandle
  {
    var h := UniqueHandle(s.rc);
    assert HandleOk(s, h);
    assert IsPending(s, h) ==> PendingOk(s, h);
  }

  lemma HandlesKept(s: State, a: Action, h: int)
    requires Inv(s) && Enabled(s, a) && Prompt(s, a)
    ensures HandleOk(After(s, a), h)
  {
    HeldAfter(s, a, h);
    TakenIsUnused(s);
    assert HandleOk(s, h);
    match a {
      case Leave(d) => assert DispatcherOk(s, d) && PendingOk(s, s.ds[d].h);
      case Recycle(d) =>
        assert DispatcherOk(s, d);
        assert Holds(s, d, s.ds[d].h) && HandleOk(s, s.ds[d].h);
      case Retire(g) => assert HandleOk(s, g);
      case Add(_) => assert PendingOk(s, s.main.h) && HandleOk(s, s.main.h);
      case _ =>
    }
  }

  lemma PendingKept(s: State, a: Action, h: int)
    requires Inv(s) && Enabled(s, a) && Prompt(s, a)
    requires IsPending(After(s, a), h)
    ensures PendingOk(After(s, a), h)
  {
    HeldAfter(s, a, h);
    assert IsPending(s, h) ==> PendingOk(s, h);
    match a {
      case List(d) => assert Holds(s, d, s.ds[d].h) && DispatcherOk(s, d);
      case Leave(d) =>
      case Recycle(d) => assert DispatcherOk(s, d);
      case _ =>
    }
  }

  lemma DispatchersKept(s: State, a: Action, d: int)
    requires Inv(s) && Enabled(s, a) && Prompt(s, a)
    requires d in After(s, a).ds
    ensures DispatcherOk(After(s, a), d)
  {
    TakenIsUnused(s);
    if d in s.ds {
      assert DispatcherOk(s, d);
      assert !s.ds[d].Done? ==> Holds(s, d, s.ds[d].h);
    }
    match a {
      case Connect(e) => assert d == e ==> NeverAnswered(s, d);
      case List(e) => assert Holds(s, e, s.ds[e].h);
      case Leave(e) => assert DispatcherOk(s, e) && Holds(s, e, s.ds[e].h) && PendingOk(s, s.ds[e].h);
      case Recycle(e) => assert Holds(s, e, s.ds[e].h);
      case Add(_) => assert PendingOk(s, s.main.h);
      case Decide(e) => assert PendingOk(s, s.main.h);
      case _ =>
    }
  }

  lemma DistinctKept(s: State, a: Action)
    requires Inv(s) && Enabled(s, a)
    ensures var t := After(s, a); forall d, e, h :: Holds(t, d, h) && Holds(t, e, h) ==> d == e
  {
    TakenIsUnused(s);
    var t := After(s, a);
    forall d, e, h | Holds(t, d, h) && Holds(t, e, h) ensures d == e {
      assert Holds(s, d, h) || (a.Connect? && d == a.d);
      assert Holds(s, e, h) || (a.Connect? && e == a.d);
    }
  }

  lemma HistoryKept(s: State, a: Action)
    requires Inv(s) && Enabled(s, a) && Prompt(s, a)
    ensures MainOk(After(s, a)) && HistoryOk(After(s, a))
  {
    var t := After(s, a);
    match a {
      case Fetch =>
        assert |Unprocessed(s.rc)| >= 1;
      case Leave(d) => assert DispatcherOk(s, d);
      case Add(_) => assert PendingOk(s, s.main.h);
      case Decide(d) =>
        assert DispatcherOk(s, d) && NeverAnswered(s, d);
        forall i | 0 <= i < |s.answers| ensures s.answers[i].dispatcher != d {
          assert s.answers[i] in s.answers;
        }
      case _ =>
    }
  }

  /** Every step keeps the invariant. */
  lemma StepKeepsInv(s: State, a: Action)
    requires Inv(s) && Enabled(s, a) && Prompt(s, a)
    ensures Inv(After(s, a))
  {
    var t := After(s, a);
    CountKept(s, a);
    DistinctKept(s, a);
    HistoryKept(s, a);
    forall d | d in t.ds ensures DispatcherOk(t, d) { DispatchersKept(s, a, d); }
    forall h | IsPending(t, h) ensures PendingOk(t, h) { PendingKept(s, a, h); }
    forall h ensures HandleOk(t, h) { HandlesKept(s, a, h); }
  }

  // Whole runs.

  /** A run takes the actions one after the other. */
  ghost predicate Run(s: State, actions: seq<Action>, t: State)
    decreases |actions|
  {
    if actions == [] then s == t
    else Enabled(s, actions[0]) && Run(After(s, actions[0]), actions[1..], t)
  }

  ghost predicate PromptRun(s: State, actions: seq<Action>)
    decreases |actions|
  {
    actions == []
    || (Enabled(s, actions[0]) && Prompt(s, actions[0]) && PromptRun(After(s, actions[0]), actions[1..]))
  }

  lemma {:induction false} RunKeepsInv(s: State, actions: seq<Action>, t: State)
    requires Inv(s) && Run(s, actions, t) && PromptRun(s, actions)
    ensures Inv(t)
    decreases |actions|
  {
    if actions != [] {
      StepKeepsInv(s, actions[0]);
      RunKeepsInv(After(s, actions[0]), actions[1..], t);
    }
  }

  /** At the main loop's test the counter is the number of unprocessed entries less those not yet counted. */
  ghost predicate CounterExact(s: State) {
    s.main.Testing? ==> s.rc.newRegs == |Unprocessed(s.rc)| - |Uncounted(s)|
  }

  /** Whoever was told an outcome was answered exactly once, with that outcome. */
  ghost predicate AnsweredOnce(s: State) {
    && (forall i, j :: 0 <= i < j < |s.answers| ==> s.answers[i].dispatcher != s.answers[j].dispatcher)
    && (forall d :: d in s.ds && s.ds[d].Told? ==> Answer(d, s.ds[d].ok) in s.answers)
    && (forall d :: d in s.ds && s.ds[d].Done? ==> Answered(s, d, true) || Answered(s, d, false))
  }

  /** A counted registration that is still unprocessed keeps the main loop going. */
  ghost predicate NoneForgotten(s: State) {
    s.main.Testing? && Uncounted(s) == {} && s.rc.newRegs <= 0 ==>
      forall d :: d in s.ds && s.ds[d].Waiting? ==>
        s.ds[d].h in s.rc.pending && s.rc.pending[s.ds[d].h] != NotProcessed
  }

  /** Handles 1..maxHandle are split between the recycling pool and their users, one dispatcher each. */
  ghost predicate HandlesPartition(s: State) {
    && (forall h :: 1 <= h <= s.rc.maxHandle <==> h in s.rc.reuse || h in s.jobs || Held(s, h))
    && (forall h :: h in s.rc.reuse ==> h !in s.jobs && !Held(s, h))
    && (forall d, e, h :: Holds(s, d, h) && Holds(s, e, h) ==> d == e)
  }

  /** The entry the main loop fetches is there and unprocessed, and the one it decides has a dispatcher. */
  ghost predicate FetchFinds(s: State) {
    && (s.main.Fetching? ==> NewReg(s.rc) in s.rc.pending && s.rc.pending[NewReg(s.rc)] == NotProcessed)
    && (s.main.Deciding? ==> Held(s, s.main.h))
  }

  /** All that the hand-off is for. */
  ghost predicate Correct(s: State) {
    CounterExact(s) && AnsweredOnce(s) && NoneForgotten(s) && HandlesPartition(s) && FetchFinds(s)
  }

  lemma InvPartitions(s: State)
    requires Inv(s)
    ensures HandlesPartition(s)
  {
    forall h ensures 1 <= h <= s.rc.maxHandle <==> h in s.rc.reuse || h in s.jobs || Held(s, h) {
      assert HandleOk(s, h);
    }
    forall h | h in s.rc.reuse ensures h !in s.jobs && !Held(s, h) {
      assert HandleOk(s, h);
    }
  }

  lemma InvCorrect(s: State)
    requires Inv(s)
    ensures Correct(s)
  {
    InvPartitions(s);
    forall d | d in s.ds && s.ds[d].Done? ensures Answered(s, d, true) || Answered(s, d, false) {
      assert DispatcherOk(s, d);
    }
    forall d | d in s.ds && s.ds[d].Told? ensures Answer(d, s.ds[d].ok) in s.answers {
      assert DispatcherOk(s, d);
    }
    forall d | d in s.ds && s.ds[d].Waiting?
      ensures s.ds[d].h in s.rc.pending && (s.rc.pending[s.ds[d].h] == NotProcessed ==> s.ds[d].h in Unprocessed(s.rc))
    {
      assert DispatcherOk(s, d);
    }
    assert s.main.Fetching? ==> |Unprocessed(s.rc)| >= 1;
    assert s.main.Deciding? ==> IsPending(s, s.main.h);
  }

  /**
   * In every interleaving in which no job is removed before its dispatcher took its entry out of the pending
   * table: the fetch finds an entry, none is lost or answered twice, and no handle is in two hands.
   */
  lemma HandOff(s: State, actions: seq<Action>, t: State)
    requires Init(s) && Run(s, actions, t) && PromptRun(s, actions)
    ensures CounterExact(t) && AnsweredOnce(t) && NoneForgotten(t) && HandlesPartition(t) && FetchFinds(t)
  {
    InitInv(s);
    RunKeepsInv(s, actions, t);
    InvCorrect(t);
  }

  /** A retirement keeps the handles partitioned exactly if no dispatcher holds the handle any more. */
  lemma RetireExact(s: State, h: int)
    requires Inv(s) && Enabled(s, Retire(h))
    ensures HandlesPartition(After(s, Retire(h))) <==> !Held(s, h)
  {
    var t := After(s, Retire(h));
    if Held(s, h) {
      var d :| Holds(s, d, h);
      assert Holds(t, d, h) && h in t.rc.reuse;
    } else {
      StepKeepsInv(s, Retire(h));
      InvPartitions(t);
    }
  }

  /** The hand-off is right in every state of the run. */
  ghost predicate AlwaysCorrect(s: State, actions: seq<Action>)
    decreases |actions|
  {
    Correct(s)
    && (actions == [] || (Enabled(s, actions[0]) && AlwaysCorrect(After(s, actions[0]), actions[1..])))
  }

  lemma {:induction false} CorrectExact(s: State, actions: seq<Action>, t: State)
    requires Inv(s) && Run(s, actions, t)
    ensures AlwaysCorrect(s, actions) <==> PromptRun(s, actions)
    decreases |actions|
  {
    InvCorrect(s);
    if actions != [] {
      if Prompt(s, actions[0]) {
        StepKeepsInv(s, actions[0]);
        CorrectExact(After(s, actions[0]), actions[1..], t);
      } else {
        RetireExact(s, actions[0].h);
      }
    }
  }

  /** Main theorem: the hand-off is right throughout a run exactly if the run retires no handle that a dispatcher holds. */
  lemma HandOffExact(s: State, actions: seq<Action>, t: State)
    requires Init(s) && Run(s, actions, t)
    ensures AlwaysCorrect(s, actions) <==> PromptRun(s, actions)
  {
    InitInv(s);
    CorrectExact(s, actions, t);
  }

  lemma InitInv(s: State)
    requires Init(s)
    ensures Inv(s)
  {
    assert Uncounted(s) == {} && Unprocessed(s.rc) == {};
    assert forall h :: !Held(s, h);
  }

  lemma {:induction false} RunExtends(s: State, actions: seq<Action>, t: State, a: Action)
    requires Run(s, actions, t) && Enabled(t, a)
    ensures Run(s, actions + [a], After(t, a))
    decreases |actions|
  {
    if actions == [] {
      assert ([a])[1..] == [];
    } else {
      RunExtends(After(s, actions[0]), actions[1..], t, a);
      assert (actions + [a])[1..] == actions[1..] + [a];
    }
  }

  ghost predicate Reachable(t: State) {
    exists s, actions :: Init(s) && Run(s, actions, t)
  }

  lemma Take(t: State, a: Action, u: State)
    requires Reachable(t) && Enabled(t, a) && u == After(t, a)
    ensures Reachable(u)
  {
    var s, actions :| Init(s) && Run(s, actions, t);
    RunExtends(s, actions, t, a);
  }

  // A run in which a handle is recycled too early.

  lemma FirstClientCounted() returns (t: State)
    ensures Reachable(t)
    ensures t == State(Rc(map[1 := NotProcessed], 1, 1, {}), map[1 := Waiting(1)], Testing, {}, [])
  {
    var s0 := State(Rc(map[], 0, 0, {}), map[], Testing, {}, []);
    assert Init(s0) && Run(s0, [], s0);
    var s1 := State(Rc(map[], 0, 1, {}), map[1 := Got(1)], Testing, {}, []);
    Take(s0, Connect(1), s1);
    var s2 := State(Rc(map[1 := NotProcessed], 0, 1, {}), map[1 := Listed(1)], Testing, {}, []);
    Take(s1, List(1), s2);
    t := State(Rc(map[1 := NotProcessed], 1, 1, {}), map[1 := Waiting(1)], Testing, {}, []);
    Take(s2, Count(1), t);
  }

  lemma FirstClientAccepted() returns (t: State)
    ensures Reachable(t)
    ensures t == State(Rc(map[1 := NotProcessed], 1, 1, {}), map[1 := Waiting(1)], Deciding(1, true), {1}, [])
  {
    var s := FirstClientCounted();
    Take(s, Test, s.(main := Fetching));
    assert Unprocessed(s.rc) == {1};
    Take(s.(main := Fetching), Fetch, s.(main := Adding(1)));
    t := s.(main := Deciding(1, true), jobs := {1});
    Take(s.(main := Adding(1)), Add(true), t);
  }

  lemma FirstClientTold() returns (t: State)
    ensures Reachable(t)
    ensures t == State(Rc(map[1 := Accepted], 0, 1, {}), map[1 := Told(1, true)], Testing, {1}, [Answer(1, true)])
  {
    var s := FirstClientAccepted();
    assert Holds(s, 1, 1);
    var s1 := State(Rc(map[1 := Accepted], 1, 1, {}), map[1 := Waiting(1)], Counting, {1}, [Answer(1, true)]);
    Take(s, Decide(1), s1);
    var s2 := State(Rc(map[1 := Accepted], 0, 1, {}), map[1 := Waiting(1)], Testing, {1}, [Answer(1, true)]);
    Take(s1, Uncount, s2);
    t := State(Rc(map[1 := Accepted], 0, 1, {}), map[1 := Told(1, true)], Testing, {1}, [Answer(1, true)]);
    Take(s2, Reply(1), t);
  }

  lemma FirstHandleRecycled() returns (t: State)
    ensures Reachable(t)
    ensures t == State(Rc(map[1 := Accepted], 0, 1, {1}), map[1 := Told(1, true)], Serving, {}, [Answer(1, true)])
  {
    var s := FirstClientTold();
    var s1 := s.(main := Serving);
    Take(s, Test, s1);
    t := State(Rc(map[1 := Accepted], 0, 1, {1}), map[1 := Told(1, true)], Serving, {}, [Answer(1, true)]);
    assert t.jobs == s1.jobs - {1} && t.rc.reuse == s1.rc.reuse + {1};
    Take(s1, Retire(1), t);
  }

  lemma SecondClientCounted() returns (t: State)
    ensures Reachable(t)
    ensures t.rc == Rc(map[1 := Accepted], 1, 1, {}) && t.main == Serving && 2 in t.ds && t.ds[2] == Waiting(1)
  {
    var s := FirstHandleRecycled();
    var s1 := s.(rc := Rc(map[1 := Accepted], 0, 1, {}), ds := s.ds[2 := Got(1)]);
    assert s1.rc.reuse == s.rc.reuse - {1};
    Take(s, Connect(2), s1);
    var s2 := s1.(ds := s1.ds[2 := Listed(1)]);
    Take(s1, List(2), s2);
    t := s2.(rc := Rc(map[1 := Accepted], 1, 1, {}), ds := s2.ds[2 := Waiting(1)]);
    Take(s2, Count(2), t);
  }

  /**
   * Without that proviso the hand-off fails: if the first client ends and its handle is recycled before the
   * dispatcher runs again, the next registration gets the same handle, finds the stale entry in the table,
   * and the main loop fetches -1 while client 2 waits.
   */
  lemma StaleEntryLosesRegistration() returns (t: State)
    ensures Reachable(t) && 2 in t.ds
    ensures t.main.Fetching? && NewReg(t.rc) == -1 && t.ds[2] == Waiting(1)
  {
    var s := SecondClientCounted();
    var s1 := s.(main := Testing);
    Take(s, Tick, s1);
    t := s1.(main := Fetching);
    Take(s1, Test, t);
    assert Unprocessed(t.rc) == {};
  }

  // Nobody gets stuck.

  lemma OneStep(s: State, a: Action) returns (t: State)
    requires Inv(s) && Enabled(s, a) && !a.Retire?
    ensures t == After(s, a) && Inv(t) && Correct(t)
  {
    StepKeepsInv(s, a);
    t := After(s, a);
    InvCorrect(t);
  }

  /** The main thread has left the test for registrations, has found one, and has asked the scheduler. */
  lemma MainDecides(s: State, accept: bool) returns (s3: State)
    requires Inv(s) && s.main.Testing? && s.rc.newRegs > 0
    ensures Run(s, [Test, Fetch, Add(accept)], s3) && Inv(s3) && Correct(s3)
    ensures s3.main == Deciding(NewReg(s.rc), accept) && s3.rc == s.rc && s3.ds == s.ds && s3.answers == s.answers
    ensures NewReg(s.rc) in s.rc.pending && s.rc.pending[NewReg(s.rc)] == NotProcessed
  {
    hide Inv, Correct;
    var s1 := OneStep(s, Test);
    assert FetchFinds(s1) by { CorrectFinds(s1); }
    var s2 := OneStep(s1, Fetch);
    s3 := OneStep(s2, Add(accept));
    assert [Test, Fetch, Add(accept)][1..] == [Fetch, Add(accept)] && [Fetch, Add(accept)][1..] == [Add(accept)];
    assert Run(s3, [], s3) && [Add(accept)][1..] == [];
    assert Run(s2, [Add(accept)], s3) && Run(s1, [Fetch, Add(accept)], s3);
  }

  lemma CorrectFinds(s: State)
    requires Correct(s)
    ensures FetchFinds(s)
  {
  }

  /**
   * As long as a registration is counted the main thread alone gets to an answer for one of the waiting
   * clients, whatever the scheduler says; the counter falls by one, and nothing else changes.
   */
  lemma MainAnswers(s: State, accept: bool) returns (s3: State, s5: State, d: int, h: int)
    requires Inv(s) && s.main.Testing? && s.rc.newRegs > 0
    ensures Run(s, [Test, Fetch, Add(accept)], s3) && Run(s3, [Decide(d), Uncount], s5) && Inv(s5)
    ensures s5.main.Testing? && s5.ds == s.ds && s5.answers == s.answers + [Answer(d, accept)]
    ensures Holds(s, d, h) && h in s.rc.pending && s.rc.pending[h] == NotProcessed
    ensures s5.rc == s.rc.(newRegs := s.rc.newRegs - 1, pending := s.rc.pending[h := if accept then Accepted else Declined])
  {
    hide Inv, Correct;
    s3 := MainDecides(s, accept);
    h := NewReg(s.rc);
    assert FetchFinds(s3) by { CorrectFinds(s3); }
    d :| Holds(s3, d, h);
    var s4 := OneStep(s3, Decide(d));
    s5 := OneStep(s4, Uncount);
    assert [Decide(d), Uncount][1..] == [Uncount] && [Uncount][1..] == [] && Run(s5, [], s5);
    assert Run(s4, [Uncount], s5);
  }

  /** A dispatcher with a connection can always go on, except that it waits for the answer to its client. */
  lemma DispatcherGoesOn(s: State, d: int) returns (a: Action)
    requires Inv(s) && d in s.ds && !s.ds[d].Done?
    requires s.ds[d].Waiting? ==> s.ds[d].h in s.rc.pending && s.rc.pending[s.ds[d].h] != NotProcessed
    ensures Enabled(s, a)
    ensures a == match s.ds[d]
                 case Got(_) => List(d)
                 case Listed(_) => Count(d)
                 case Waiting(_) => Reply(d)
                 case Told(_, _) => Leave(d)
                 case _ => Recycle(d)
  {
    a := match s.ds[d]
         case Got(_) => List(d)
         case Listed(_) => Count(d)
         case Waiting(_) => Reply(d)
         case Told(_, _) => Leave(d)
         case _ => Recycle(d);
  }

  /**
   * While a client waits for its answer the counter is above zero at the test, or some dispatcher is yet to
   * count its own: it may have been answered before, at the expense of the waiting one's turn.
   */
  lemma WaitersAreCounted(s: State, d: int)
    requires Inv(s) && s.main.Testing? && d in s.ds && s.ds[d].Waiting?
    requires s.ds[d].h in s.rc.pending && s.rc.pending[s.ds[d].h] == NotProcessed
    ensures s.rc.newRegs > 0 || exists e :: e in s.ds && s.ds[e].Listed?
  {
    if Uncounted(s) == {} {
      assert s.ds[d].h in Unprocessed(s.rc);
    } else {
      var e := Collections.AnyOf(Uncounted(s));
    }
  }
}
