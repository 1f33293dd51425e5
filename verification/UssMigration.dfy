/** Moves of the load balancer between multi-queues: which moves are legal,
    what every legal move keeps, and why a refill pass is complete. */
module UssMigration {
  import opened UssTypes
  import opened UssSpec

  datatype Migration = Migration(handle: int, target: Queue)

  /** A movable job and a queue of another type that its client supports. */
  ghost predicate LegalMove(s: Sched, m: Migration) {
    && m.handle in s.se && s.se[m.handle].queue in s.rqs && m.target in s.rqs
    && s.se[m.handle].queue.kind in s.mqs && m.target.kind in s.mqs
    && s.se[m.handle].queue.kind != m.target.kind
    && Supports(s.se[m.handle].msai, m.target.kind) && Movable(s, m.handle)
  }

  ghost function Apply(s: Sched, m: Migration): Sched
    requires LegalMove(s, m)
  {
    Move(s, m.handle, m.target)
  }

  predicate CanMove(s: Sched, h: int) {
    h in s.se && s.se[h].queue in s.rqs && Movable(s, h)
  }

  /** The pull of the load balancer: an empty queue takes the job of greatest
      affinity (then greatest handle) among those of its pull list that may move. */
  ghost predicate IsRefill(s: Sched, m: Migration) {
    && LegalMove(s, m) && s.rqs[m.target].tree == {}
    && IsGreatestRank(Rank(Aff(s.se[m.handle].msai, m.target.kind), m.handle),
                      set r | r in s.mqs[m.target.kind].pull && CanMove(s, r.handle))
  }

  /** No job of other multi-queues that could run here may be moved. */
  ghost predicate Exhausted(s: Sched, t: int) {
    t in s.mqs && forall r :: r in s.mqs[t].pull ==> !CanMove(s, r.handle)
  }

  /** Minimal affinity for a push out of a multi-queue that is `x` jobs over its centerpoint. */
  function PushThreshold(x: int): int
    requires x >= 0
  {
    if x <= 10 then 11 - x else 1
  }

  function Ceiling(r: real): int {
    if r.Floor as real == r then r.Floor else r.Floor + 1
  }

  function Excess(s: Sched, t: int): int
    requires t in s.mqs
  {
    s.mqs[t].nofAll - Ceiling(s.mqs[t].center)
  }

  predicate Crowded(s: Sched, t: int)
    requires t in s.mqs
  {
    Excess(s, t) > 0 && s.mqs[t].nofAll > s.mqs[t].nofRq
  }

  /** The curve falls from eleven by one for each job too many, and stays at one. */
  lemma CurveIs(x: int)
    requires x >= 0
    ensures x <= 10 ==> PushThreshold(x) + x == 11
    ensures x > 10 ==> PushThreshold(x) == 1
  {
  }

  lemma CeilingIs(r: real)
    ensures r <= Ceiling(r) as real < r + 1.0
  {
  }

  /** A multi-queue is crowded if it has at least one job above its centerpoint, and more jobs than queues. */
  lemma CrowdedIs(s: Sched, t: int)
    requires t in s.mqs
    ensures Crowded(s, t) <==> s.mqs[t].nofAll as real >= s.mqs[t].center + 1.0 && s.mqs[t].nofAll > s.mqs[t].nofRq
    ensures s.mqs[t].nofAll as real - s.mqs[t].center - 1.0 < Excess(s, t) as real <= s.mqs[t].nofAll as real - s.mqs[t].center
  {
    CeilingIs(s.mqs[t].center);
  }

  /** The job that a refill takes: of those that may move here and have company, the one of greatest affinity, then handle. */
  lemma RefillIs(s: Sched, m: Migration, h: int)
    requires Valid(s) && IsRefill(s, m)
    requires h in s.se && s.se[h].queue.kind != m.target.kind && Supports(s.se[h].msai, m.target.kind)
    requires s.se[h].queue in s.rqs && !s.se[h].finished
    requires s.rqs[s.se[h].queue].length > 1 && s.rqs[s.se[h].queue].curr.handle != h
    ensures var t := m.target.kind;
            var a, b := Aff(s.se[h].msai, t), Aff(s.se[m.handle].msai, t);
            a < b || (a == b && h <= m.handle)
  {
    var t := m.target.kind;
    assert MqOk(s, t) && JobOk(s, h);
    assert InPull(s, t, Rank(Aff(s.se[h].msai, t), h));
    var r := Rank(Aff(s.se[h].msai, t), h);
    assert r in s.mqs[t].pull && CanMove(s, r.handle);
    var list := set x | x in s.mqs[t].pull && CanMove(s, x.handle);
    var best := Rank(Aff(s.se[m.handle].msai, t), m.handle);
    assert IsGreatestRank(best, list) && r in list;
    assert r == best || r.Less(best);
  }

  /** What may move: an unfinished job that does not run and has company on its queue. */
  lemma MovableIs(s: Sched, h: int)
    ensures CanMove(s, h) <==>
      && h in s.se && s.se[h].queue in s.rqs && !s.se[h].finished
      && s.rqs[s.se[h].queue].length > 1 && s.rqs[s.se[h].queue].curr.handle != h
  {
  }

  /** The push of the load balancer: a crowded multi-queue hands a waiting job to
      the emptiest queue of a type for which the job's affinity is high enough. */
  ghost predicate IsPush(s: Sched, m: Migration) {
    && LegalMove(s, m)
    && Crowded(s, s.se[m.handle].queue.kind)
    && (s.se[m.handle].mode == IDLE || s.se[m.handle].mode == CPU)
    && Aff(s.se[m.handle].msai, m.target.kind) >= PushThreshold(Excess(s, s.se[m.handle].queue.kind))
    && Roomy(s, m.target.kind) != {} && m.target == FirstQueue(Roomy(s, m.target.kind))
  }

  /** A job of multi-queue `t` that some type with enough affinity could take now. */
  ghost predicate Pushable(s: Sched, h: int, t: int, least: int) {
    && CanMove(s, h) && (s.se[h].mode == IDLE || s.se[h].mode == CPU)
    && exists k :: k in s.mqs && k != t && Supports(s.se[h].msai, k) && Aff(s.se[h].msai, k) >= least
  }

  datatype Phase = Pull | Push

  ghost predicate IsStep(s: Sched, m: Migration, p: Phase) {
    LegalMove(s, m) && (p == Pull ==> IsRefill(s, m)) && (p == Push ==> IsPush(s, m))
  }

  /** `s'` comes from `s` by moves of one phase of the load balancer. */
  ghost predicate Migrates(s: Sched, ms: seq<Migration>, s': Sched, p: Phase)
    decreases |ms|
  {
    if ms == [] then s == s'
    else IsStep(s, ms[0], p) && Migrates(Apply(s, ms[0]), ms[1..], s', p)
  }

  /** What no legal move changes: the jobs, what they are doing, which queues are
      busy; and a queue that held a job still holds one. */
  ghost predicate Conserves(s: Sched, s': Sched) {
    && s'.se.Keys == s.se.Keys && s'.rqs.Keys == s.rqs.Keys && s'.mqs.Keys == s.mqs.Keys
    && s'.tokill == s.tokill && s'.clock == s.clock
    && (forall h :: h in s.se ==>
          && s'.se[h].mode == s.se[h].mode && s'.se[h].finished == s.se[h].finished
          && s'.se[h].rrun == s.se[h].rrun && s'.se[h].msai == s.se[h].msai)
    && (forall q :: q in s.rqs ==> s'.rqs[q].curr == s.rqs[q].curr)
    && (forall q :: q in s.rqs && s.rqs[q].tree != {} ==> s'.rqs[q].tree != {})
    && (forall q :: q in s.rqs && s.rqs[q].curr.handle > 0 && s.rqs[q].curr.handle in s.se ==>
          s'.se[s.rqs[q].curr.handle].queue == s.se[s.rqs[q].curr.handle].queue)
  }

  lemma LegalMoveConserves(s: Sched, m: Migration)
    requires Valid(s) && LegalMove(s, m)
    ensures Valid(Apply(s, m)) && Conserves(s, Apply(s, m))
  {
    var s' := Apply(s, m);
    MoveValid(s, m.handle, m.target);
    var src := s.se[m.handle].queue;
    assert QueueOk(s, src) && QueueOk(s', src);
    assert s'.rqs[src].length >= 1;
    forall q | q in s.rqs && s.rqs[q].curr.handle > 0 && s.rqs[q].curr.handle in s.se
      ensures s'.se[s.rqs[q].curr.handle].queue == s.se[s.rqs[q].curr.handle].queue
    {
      assert QueueOk(s, q);
    }
  }

  /** A whole phase of the load balancer keeps the indexes in agreement and conserves the jobs. */
  lemma {:induction false} MigratesConserves(s: Sched, ms: seq<Migration>, s': Sched, p: Phase)
    requires Valid(s) && Migrates(s, ms, s', p)
    ensures Valid(s') && Conserves(s, s')
    decreases |ms|
  {
    if ms != [] {
      LegalMoveConserves(s, ms[0]);
      MigratesConserves(Apply(s, ms[0]), ms[1..], s', p);
      ConservesTransitive(s, Apply(s, ms[0]), s');
    }
  }

  lemma ConservesTransitive(a: Sched, b: Sched, c: Sched)
    requires Valid(a) && Conserves(a, b) && Conserves(b, c)
    ensures Conserves(a, c)
  {
    forall q | q in a.rqs && a.rqs[q].curr.handle > 0 && a.rqs[q].curr.handle in a.se
      ensures c.se[a.rqs[q].curr.handle].queue == a.se[a.rqs[q].curr.handle].queue
    {
      assert b.rqs[q].curr == a.rqs[q].curr;
    }
  }

  /** A refill makes no job movable, so a multi-queue that had nothing to pull still has nothing. */
  lemma RefillKeepsExhausted(s: Sched, m: Migration, t: int)
    requires Valid(s) && IsRefill(s, m) && Exhausted(s, t)
    ensures Exhausted(Apply(s, m), t)
  {
    var s' := Apply(s, m);
    LegalMoveConserves(s, m);
    assert MqOk(s, t) && MqOk(s', t);
    assert QueueOk(s, m.target);
    forall r | r in s'.mqs[t].pull ensures !CanMove(s', r.handle) {
      assert InPull(s', t, r);
      if r.handle != m.handle {
        assert InPull(s, t, r);
        assert r in s.mqs[t].pull;
      }
    }
  }

  lemma {:induction false} RefillsKeepExhausted(s: Sched, ms: seq<Migration>, s': Sched, t: int)
    requires Valid(s) && Migrates(s, ms, s', Pull) && Exhausted(s, t)
    ensures Exhausted(s', t)
    decreases |ms|
  {
    if ms != [] {
      RefillKeepsExhausted(s, ms[0], t);
      LegalMoveConserves(s, ms[0]);
      RefillsKeepExhausted(Apply(s, ms[0]), ms[1..], s', t);
    }
  }

  lemma {:induction false} MigratesConcat(s: Sched, ms: seq<Migration>, s1: Sched, ns: seq<Migration>, s2: Sched, p: Phase)
    requires Migrates(s, ms, s1, p) && Migrates(s1, ns, s2, p)
    ensures Migrates(s, ms + ns, s2, p)
    decreases |ms|
  {
    hide IsRefill, IsPush;
    if ms == [] {
      assert ms + ns == ns;
    } else {
      assert (ms + ns)[0] == ms[0];
      assert (ms + ns)[1..] == ms[1..] + ns;
      assert Migrates(Apply(s, ms[0]), (ms + ns)[1..], s2, p) by {
        MigratesConcat(Apply(s, ms[0]), ms[1..], s1, ns, s2, p);
      }
    }
  }

  ghost predicate Starving(s: Sched, t: int) {
    t in s.mqs && s.mqs[t].nofAll < s.mqs[t].nofRq
  }

  /** There is less than one job for each queue. */
  lemma StarvingIs(s: Sched, t: int)
    requires t in s.mqs && s.mqs[t].nofRq > 0
    ensures Starving(s, t) <==> s.mqs[t].nofAll as real / s.mqs[t].nofRq as real < 1.0
  {
    var a, b := s.mqs[t].nofAll as real, s.mqs[t].nofRq as real;
    BelowOne(a, b);
  }

  lemma BelowOne(a: real, b: real)
    requires b > 0.0
    ensures a / b < 1.0 <==> a < b
  {
    assert a / b * b == a;
  }

  /** A queue counts as served when it holds a job or nothing can be pulled for it. */
  ghost predicate Served(s: Sched, q: Queue) {
    q in s.rqs && (s.rqs[q].tree != {} || Exhausted(s, q.kind))
  }

  lemma RefillsKeepServed(s: Sched, ms: seq<Migration>, s': Sched)
    requires Valid(s) && Migrates(s, ms, s', Pull)
    ensures forall q :: Served(s, q) ==> Served(s', q)
  {
    MigratesConserves(s, ms, s', Pull);
    forall q | Served(s, q) ensures Served(s', q) {
      if s.rqs[q].tree == {} { RefillsKeepExhausted(s, ms, s', q.kind); }
    }
  }

  /** Refills into other multi-queues never add to multi-queue `t`. */
  lemma {:induction false} OthersShrink(s: Sched, ms: seq<Migration>, s': Sched, t: int)
    requires t in s.mqs && Migrates(s, ms, s', Pull) && forall m :: m in ms ==> m.target.kind != t
    ensures t in s'.mqs && s'.mqs[t].nofRq == s.mqs[t].nofRq && s'.mqs[t].nofAll <= s.mqs[t].nofAll
    decreases |ms|
  {
    if ms != [] {
      assert ms[0] in ms && forall m :: m in ms[1..] ==> m in ms;
      OthersShrink(Apply(s, ms[0]), ms[1..], s', t);
    }
  }

  /** The state `v` in which a pull phase from `s` to `s'` comes to multi-queue `t`: the refills of
      lower types are done, those of `t` and of higher types still follow. */
  ghost predicate VisitedAt(s: Sched, ms: seq<Migration>, s': Sched, t: int, v: Sched) {
    exists done, left :: ms == done + left && VisitedAfter(s, done, left, s', t, v)
  }

  ghost predicate VisitedAfter(s: Sched, done: seq<Migration>, left: seq<Migration>, s': Sched, t: int, v: Sched) {
    && Migrates(s, done, v, Pull) && (forall m :: m in done ==> m.target.kind < t)
    && Migrates(v, left, s', Pull) && (forall m :: m in left ==> m.target.kind >= t)
  }

  lemma VisitedLonger(s: Sched, ms: seq<Migration>, s1: Sched, t: int, v: Sched, more: seq<Migration>, s2: Sched)
    requires VisitedAt(s, ms, s1, t, v) && Migrates(s1, more, s2, Pull) && forall m :: m in more ==> m.target.kind >= t
    ensures VisitedAt(s, ms + more, s2, t, v)
  {
    hide Migrates;
    var done, left :| ms == done + left && VisitedAfter(s, done, left, s1, t, v);
    MigratesConcat(v, left, s1, more, s2, Pull);
    assert ms + more == done + (left + more);
    assert VisitedAfter(s, done, left + more, s2, t, v);
  }

  /** A multi-queue short of jobs at the start is short of jobs when it is visited. */
  lemma StarvingUntilVisited(s: Sched, ms: seq<Migration>, s': Sched, t: int, v: Sched)
    requires VisitedAt(s, ms, s', t, v) && Starving(s, t)
    ensures Starving(v, t)
  {
    var done, left :| ms == done + left && VisitedAfter(s, done, left, s', t, v);
    OthersShrink(s, done, v, t);
  }

  /** A pull phase under way: the multi-queues in `visited` had their turn. */
  ghost predicate Passing(s: Sched, ms: seq<Migration>, visited: map<int, Sched>, s': Sched) {
    && Migrates(s, ms, s', Pull)
    && (forall m :: m in ms ==> m.target.kind in visited)
    && (forall t :: t in visited ==> VisitedAt(s, ms, s', t, visited[t]))
    && (forall q :: q in s.rqs && q.kind in visited && Starving(visited[q.kind], q.kind) ==> Served(s', q))
  }

  lemma PassStarts(s: Sched)
    ensures Passing(s, [], map[], s)
  {
  }

  /** The turn of the next multi-queue. */
  lemma PassesOne(s: Sched, ms: seq<Migration>, visited: map<int, Sched>, s1: Sched, t: int, more: seq<Migration>, s2: Sched)
    requires Passing(s, ms, visited, s1) && Migrates(s1, more, s2, Pull)
    requires forall k :: k in visited ==> k < t
    requires forall m :: m in more ==> m.target.kind == t
    requires Starving(s1, t) ==> forall q :: q in s.rqs && q.kind == t ==> Served(s2, q)
    requires forall q :: Served(s1, q) ==> Served(s2, q)
    ensures Passing(s, ms + more, visited[t := s1], s2)
  {
    hide Migrates, VisitedAt, Served, Starving;
    MigratesConcat(s, ms, s1, more, s2, Pull);
    forall k | k in visited ensures VisitedAt(s, ms + more, s2, k, visited[k]) {
      VisitedLonger(s, ms, s1, k, visited[k], more, s2);
    }
    VisitedNow(s, ms, s1, t, more, s2);
  }

  lemma VisitedNow(s: Sched, ms: seq<Migration>, s1: Sched, t: int, more: seq<Migration>, s2: Sched)
    requires Migrates(s, ms, s1, Pull) && Migrates(s1, more, s2, Pull)
    requires forall m :: m in ms ==> m.target.kind < t
    requires forall m :: m in more ==> m.target.kind >= t
    ensures VisitedAt(s, ms + more, s2, t, s1)
  {
    hide Migrates;
    assert VisitedAfter(s, ms, more, s2, t, s1);
  }

  // Phases as sequences of stages.

  /** The turn of one multi-queue in a phase, from one state to the next. */
  datatype Stage = Stage(kind: int, ms: seq<Migration>, before: Sched, after: Sched)

  /** One turn after the other, from s to s', in the order of the types and for every type. */
  ghost predicate Stages(s: Sched, stages: seq<Stage>, s': Sched, kinds: set<int>) {
    InOrder(stages, kinds) && Linked(s, stages, s')
  }

  ghost predicate InOrder(stages: seq<Stage>, kinds: set<int>) {
    && (forall i, j :: 0 <= i < j < |stages| ==> stages[i].kind < stages[j].kind)
    && (forall i :: 0 <= i < |stages| ==> stages[i].kind in kinds)
    && (forall k :: k in kinds ==> exists i :: 0 <= i < |stages| && stages[i].kind == k)
  }

  ghost predicate Linked(s: Sched, stages: seq<Stage>, s': Sched) {
    if stages == [] then s' == s
    else var l := |stages| - 1; stages[l].after == s' && Linked(s, stages[..l], stages[l].before)
  }

  lemma OrderOneMore(stages: seq<Stage>, kinds: set<int>, t: Stage)
    requires InOrder(stages, kinds) && forall k :: k in kinds ==> k < t.kind
    ensures InOrder(stages + [t], kinds + {t.kind})
  {
    var more := stages + [t];
    forall k | k in kinds + {t.kind} ensures exists i :: 0 <= i < |more| && more[i].kind == k {
      if k == t.kind {
        assert more[|stages|].kind == k;
      } else {
        var i :| 0 <= i < |stages| && stages[i].kind == k;
        assert more[i].kind == k;
      }
    }
  }

  lemma StagesOneMore(s: Sched, stages: seq<Stage>, s1: Sched, kinds: set<int>, t: Stage)
    requires Stages(s, stages, s1, kinds) && t.before == s1 && forall k :: k in kinds ==> k < t.kind
    ensures Stages(s, stages + [t], t.after, kinds + {t.kind})
  {
    hide InOrder;
    OrderOneMore(stages, kinds, t);
    assert (stages + [t])[..|stages|] == stages;
  }

  /** A pull: nothing for a multi-queue that has as many jobs as queues, otherwise every queue ends up served. */
  ghost predicate Pulls(t: Stage) {
    && Migrates(t.before, t.ms, t.after, Pull) && (forall m :: m in t.ms ==> m.target.kind == t.kind)
    && (!Starving(t.before, t.kind) ==> t.ms == [])
    && (Starving(t.before, t.kind) ==> forall q :: q in t.before.rqs && q.kind == t.kind ==> Served(t.after, q))
  }

  /** The type that a push tries for a job: the first in the client's list that is active, another one and good enough. */
  ghost predicate IsFirstChoice(s: Sched, h: int, t: int, least: int, i: nat) {
    && h in s.se && i < |s.se[h].msai|
    && s.se[h].msai[i].kind in s.mqs && s.se[h].msai[i].kind != t && s.se[h].msai[i].affinity >= least
    && forall j :: 0 <= j < i ==>
         s.se[h].msai[j].kind !in s.mqs || s.se[h].msai[j].kind == t || s.se[h].msai[j].affinity < least
  }

  lemma FirstChoiceExists(s: Sched, h: int, t: int, least: int, n: nat) returns (i: nat)
    requires h in s.se && n < |s.se[h].msai|
    requires s.se[h].msai[n].kind in s.mqs && s.se[h].msai[n].kind != t && s.se[h].msai[n].affinity >= least
    ensures IsFirstChoice(s, h, t, least, i)
  {
    if j :| 0 <= j < n && s.se[h].msai[j].kind in s.mqs && s.se[h].msai[j].kind != t && s.se[h].msai[j].affinity >= least {
      i := FirstChoiceExists(s, h, t, least, j);
    } else {
      i := n;
    }
  }

  /** What can be pushed: a job that may move, is on no device, and has a first choice. */
  lemma PushableIs(s: Sched, h: int, t: int, least: int)
    requires Valid(s)
    ensures Pushable(s, h, t, least) <==>
      && h in s.se && s.se[h].queue in s.rqs && !s.se[h].finished
      && s.rqs[s.se[h].queue].length > 1 && s.rqs[s.se[h].queue].curr.handle != h
      && (s.se[h].mode == 0 || s.se[h].mode == 1)
      && exists i: nat :: IsFirstChoice(s, h, t, least, i)
  {
    if h in s.se {
      assert JobOk(s, h);
      var m := s.se[h].msai;
      if k :| k in s.mqs && k != t && Supports(m, k) && Aff(m, k) >= least {
        var n :| 0 <= n < |m| && m[n].kind == k;
        AffAt(m, n);
        var i := FirstChoiceExists(s, h, t, least, n);
      }
      if i: nat :| IsFirstChoice(s, h, t, least, i) {
        AffAt(m, i);
        assert Supports(m, m[i].kind);
      }
    }
  }

  /** The jobs tried in vain: a beginning of the push list, none of which could be pushed. */
  ghost predicate InVain(s: Sched, t: int, tried: set<Rank>) {
    && t in s.mqs && tried <= s.mqs[t].push && Excess(s, t) >= 0
    && (forall a, b :: a in tried && b in s.mqs[t].push && b !in tried ==> a.Less(b))
    && (forall r :: r in tried ==> !Pushable(s, r.handle, t, PushThreshold(Excess(s, t))))
  }

  /** What one push does: the job that comes next after those tried in vain goes to its first choice. */
  ghost predicate PushesNext(s: Sched, t: int, tried: set<Rank>, m: Migration) {
    && t in s.mqs && Excess(s, t) >= 0 && |tried| < Excess(s, t)
    && m.handle in s.se && s.se[m.handle].queue.kind == t
    && (forall b :: b in s.mqs[t].push && b !in tried && b.handle != m.handle ==> Rank(Aff(s.se[m.handle].msai, t), m.handle).Less(b))
    && exists i: nat :: IsFirstChoice(s, m.handle, t, PushThreshold(Excess(s, t)), i) && s.se[m.handle].msai[i].kind == m.target.kind
  }

  /** A push: at most one job leaves, and only a crowded multi-queue; if none does, those tried are all or enough. */
  ghost predicate Pushes(t: Stage, tried: set<Rank>) {
    && Migrates(t.before, t.ms, t.after, Push) && |t.ms| <= 1 && t.kind in t.before.mqs
    && (!Crowded(t.before, t.kind) ==> t.ms == [])
    && (Crowded(t.before, t.kind) ==>
          && InVain(t.before, t.kind, tried)
          && (t.ms == [] ==> |tried| == Excess(t.before, t.kind) || tried == t.before.mqs[t.kind].push)
          && (t.ms != [] ==> PushesNext(t.before, t.kind, tried, t.ms[0])))
  }

  ghost predicate PushesSome(t: Stage) {
    exists tried :: Pushes(t, tried)
  }
}
