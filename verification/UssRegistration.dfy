/** The registration controller: pending table, counter and recycled handles. */
module UssRegistration {
  import Collections

  datatype Verdict = NotProcessed | Accepted | Declined

  /** `reuse` holds handles that may be issued again; 1..maxHandle were issued at least once. */
  datatype Rc = Rc(pending: map<int, Verdict>, newRegs: int, maxHandle: int, reuse: set<int>)

  function Unprocessed(rc: Rc): set<int> {
    set h | h in rc.pending && rc.pending[h] == NotProcessed
  }

  predicate IsLeast(x: int, s: set<int>) {
    x in s && forall y :: y in s ==> x <= y
  }

  predicate IsGreatest(x: int, s: set<int>) {
    x in s && forall y :: y in s ==> y <= x
  }

  lemma {:induction false} ExtremesExist(s: set<int>)
    requires s != {}
    ensures (exists x :: IsLeast(x, s)) && (exists x :: IsGreatest(x, s))
  {
    var x := Collections.AnyOf(s);
    if s == {x} {
      assert IsLeast(x, s) && IsGreatest(x, s);
    } else {
      ExtremesExist(s - {x});
      var y :| IsLeast(y, s - {x});
      var z :| IsGreatest(z, s - {x});
      assert forall w :: w in s ==> w == x || w in s - {x};
      assert IsLeast(if x < y then x else y, s);
      assert IsGreatest(if z < x then x else z, s);
    }
  }

  ghost function Least(s: set<int>): (x: int)
    requires s != {}
    ensures IsLeast(x, s)
  {
    ExtremesExist(s);
    var x :| IsLeast(x, s);
    x
  }

  ghost function Greatest(s: set<int>): (x: int)
    requires s != {}
    ensures IsGreatest(x, s)
  {
    ExtremesExist(s);
    var x :| IsGreatest(x, s);
    x
  }

  method PickLeast(s: set<int>) returns (x: int)
    requires s != {}
    ensures x == Least(s)
  {
    x := Collections.PickAny(s);
    var rest := s - {x};
    while rest != {}
      invariant x in s && rest <= s
      invariant forall y :: y in s && y !in rest ==> x <= y
      decreases |rest|
    {
      var y := Collections.PickAny(rest);
      rest := rest - {y};
      if y < x {
        x := y;
      }
    }
  }

  // The controller's operations on values.

  /** The smallest recycled handle, or else a fresh one. */
  ghost function UniqueHandle(rc: Rc): int {
    if rc.reuse != {} then Least(rc.reuse) else rc.maxHandle + 1
  }

  ghost function TakeHandle(rc: Rc): Rc {
    if rc.reuse != {} then rc.(reuse := rc.reuse - {UniqueHandle(rc)}) else rc.(maxHandle := rc.maxHandle + 1)
  }

  /** A tree insert: an entry that is already there stays as it is. */
  function Insert(rc: Rc, h: int): Rc {
    if h in rc.pending then rc else rc.(pending := rc.pending[h := NotProcessed])
  }

  function SetStatus(rc: Rc, h: int, ok: bool): Rc {
    rc.(pending := rc.pending[h := if ok then Accepted else Declined])
  }

  function Unlist(rc: Rc, h: int): Rc {
    rc.(pending := rc.pending - {h})
  }

  /** The greatest unprocessed handle, or -1: the scan keeps the last match. */
  ghost function NewReg(rc: Rc): int {
    if Unprocessed(rc) == {} then -1 else Greatest(Unprocessed(rc))
  }

  class Controller {
    var pending: map<int, Verdict>
    var newRegs: int
    var maxHandle: int
    var reuse: set<int>

    ghost function Abs(): Rc
      reads this
    {
      Rc(pending, newRegs, maxHandle, reuse)
    }

    constructor ()
      ensures Abs() == Rc(map[], 0, 0, {})
    {
      pending, newRegs, maxHandle, reuse := map[], 0, 0, {};
    }

    method GetUniqueHandle() returns (h: int)
      modifies this`reuse, this`maxHandle
      ensures h == UniqueHandle(old(Abs())) && Abs() == TakeHandle(old(Abs()))
      ensures old(reuse) != {} ==>
        h in old(reuse) && (forall x :: x in old(reuse) ==> h <= x) && reuse == old(reuse) - {h} && maxHandle == old(maxHandle)
      ensures old(reuse) == {} ==> h == maxHandle == old(maxHandle) + 1 && reuse == {}
    {
      if reuse != {} {
        h := PickLeast(reuse);
        reuse := reuse - {h};
      } else {
        maxHandle := maxHandle + 1;
        h := maxHandle;
      }
    }

    method AddRegPendingEntry() returns (h: int)
      modifies this
      ensures h == UniqueHandle(old(Abs()))
      ensures Abs() == (if h < 0 then TakeHandle(old(Abs())) else Insert(TakeHandle(old(Abs())), h))
      ensures pending == if h < 0 || h in old(pending) then old(pending) else old(pending)[h := NotProcessed]
    {
      h := GetUniqueHandle();
      if 0 <= h && h !in pending {
        pending := pending[h := NotProcessed];
      }
    }

    method RemoveRegPendingEntry(h: int)
      modifies this`pending
      ensures Abs() == Unlist(old(Abs()), h)
      ensures h !in pending && forall x :: x != h ==> (x in pending <==> x in old(pending)) && (x in pending ==> pending[x] == old(pending)[x])
    {
      pending := pending - {h};
    }

    method IncreaseNewRegs()
      modifies this`newRegs
      ensures Abs() == old(Abs()).(newRegs := old(newRegs) + 1)
    {
      newRegs := newRegs + 1;
    }

    method DecreaseNewRegs()
      modifies this`newRegs
      ensures Abs() == old(Abs()).(newRegs := old(newRegs) - 1)
    {
      newRegs := newRegs - 1;
    }

    method GetNewReg() returns (h: int)
      ensures h == NewReg(Abs())
      ensures (forall x :: x in pending ==> pending[x] != NotProcessed) ==> h == -1
      ensures (exists x :: x in pending && pending[x] == NotProcessed) ==>
        h in pending && pending[h] == NotProcessed && forall x :: x in pending && pending[x] == NotProcessed ==> x <= h
    {
      h := -1;
      var todo := pending.Keys;
      ghost var found := false;
      while todo != {}
        invariant todo <= pending.Keys
        invariant forall x, y :: x in pending && x !in todo && y in todo ==> x < y
        invariant !found ==> h == -1 && Unprocessed(Abs()) <= todo
        invariant found ==> h in Unprocessed(Abs()) && h !in todo
        invariant found ==> forall x :: x in Unprocessed(Abs()) && x !in todo ==> x <= h
        decreases |todo|
      {
        var x := PickLeast(todo);
        todo := todo - {x};
        if pending[x] == NotProcessed {
          h := x;
          found := true;
        }
      }
      assert forall x :: x in pending && pending[x] == NotProcessed ==> x in Unprocessed(Abs());
    }

    /** The scheduler's answer; false where the daemon exits. */
    method FinishRegistration(h: int, verdict: Verdict) returns (ok: bool)
      requires h in pending
      modifies this`pending, this`newRegs
      ensures ok == (verdict != NotProcessed)
      ensures ok ==>
        Abs() == SetStatus(old(Abs()), h, verdict == Accepted).(newRegs := old(newRegs) - 1)
      ensures ok ==> pending == old(pending)[h := verdict] && newRegs == old(newRegs) - 1
    {
      ok := verdict != NotProcessed;
      if ok {
        pending := pending[h := verdict];
        DecreaseNewRegs();
      }
    }

    method Recycle(h: int)
      modifies this`reuse
      ensures Abs() == old(Abs()).(reuse := old(reuse) + {h})
    {
      reuse := reuse + {h};
    }
  }
}
