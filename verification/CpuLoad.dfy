/** The per-CPU load averages of the scheduler tick. */
module CpuLoad {
  import Arith

  const CPU_LOAD_IDX_MAX: nat := 5
  const TWO_TO_64: nat := 0x1_0000_0000_0000_0000

  /** Loads below this leave room for the products of the update. */
  const LOAD_LIMIT: nat := TWO_TO_64 / 16

  function Scale(i: nat): (s: nat)
    ensures s >= 1
  {
    if i == 0 then 1 else Scale(i - 1) + Scale(i - 1)
  }

  /** The average i after one tick at this load. */
  function Averaged(was: nat, load: nat, scale: nat): nat
    requires scale >= 1
  {
    (was * (scale - 1) + load + (if load > was then scale - 1 else 0)) / scale
  }

  function Distance(a: nat, b: nat): nat {
    if a < b then b - a else a - b
  }

  /** The distance to the load shrinks by its scale-th part, rounded up, and the average stays on its side. */
  lemma MovesTowards(was: nat, load: nat, scale: nat)
    requires scale >= 1
    ensures var now := Averaged(was, load, scale);
            && (was < load ==> was < now <= load)
            && (was > load ==> was > now >= load)
            && (was == load ==> now == load)
            && scale * Distance(now, load) <= (scale - 1) * Distance(was, load)
  {
    var d := Distance(was, load);
    var c: int := Share(d, scale);
    ShareIs(d, scale);
    AveragedIs(was, load, scale);
    Arith.Distribute(scale, d, -c);
    Arith.Distribute(d, scale, -1);
    Arith.Commute(d, scale);
    Arith.Commute(d, scale - 1);
  }

  /** The scale-th part, rounded up. */
  function Share(d: nat, scale: nat): nat
    requires scale >= 1
  {
    (d + scale - 1) / scale
  }

  lemma ShareIs(d: nat, scale: nat)
    requires scale >= 1
    ensures var c := Share(d, scale);
            d <= scale * c < d + scale && c <= d && (d > 0 ==> c > 0)
  {
    var c: int := Share(d, scale);
    Arith.DivMod(d + scale - 1, scale);
    if c > d {
      Arith.MulMono(scale, d + 1, c);
      Arith.Distribute(scale, d, 1);
      Arith.MulMono(d, 1, scale);
      Arith.Commute(d, scale);
    }
  }

  lemma AveragedIs(was: nat, load: nat, scale: nat)
    requires scale >= 1
    ensures var c := Share(Distance(was, load), scale);
            Averaged(was, load, scale) == if was < load then was + c else was - c
  {
    var d := Distance(was, load);
    var c: int := Share(d, scale);
    ShareIs(d, scale);
    Arith.Distribute(was, scale, -1);
    Arith.Commute(was, scale);
    Arith.Distribute(scale, was, c);
    Arith.Distribute(scale, was, -c);
    if was < load {
      Arith.DivIs(scale * was + d + scale - 1, scale, was + c);
    } else {
      Arith.DivIs(scale * was - d, scale, was - c);
    }
  }

  /** Nothing overflows 64 bits as long as the loads leave room. */
  lemma NoOverflow(was: nat, load: nat, scale: nat)
    requires 1 <= scale <= 16 && was < LOAD_LIMIT && load < LOAD_LIMIT
    ensures was * (scale - 1) + load + scale - 1 < TWO_TO_64
    ensures Averaged(was, load, scale) < LOAD_LIMIT
  {
    Arith.MulMono(was, scale - 1, 15);
    MovesTowards(was, load, scale);
  }

  function Ticks(was: nat, load: nat, scale: nat, k: nat): nat
    requires scale >= 1
  {
    if k == 0 then was else Averaged(Ticks(was, load, scale, k - 1), load, scale)
  }

  /** Under a constant load the average reaches it, at the latest after as many ticks as it was away. */
  lemma {:induction false} Converges(was: nat, load: nat, scale: nat, k: nat)
    requires scale >= 1
    ensures Distance(Ticks(was, load, scale, k), load) <= (if k <= Distance(was, load) then Distance(was, load) - k else 0)
    ensures k >= Distance(was, load) ==> Ticks(was, load, scale, k) == load
    ensures if was <= load then was <= Ticks(was, load, scale, k) <= load else load <= Ticks(was, load, scale, k) <= was
    decreases k
  {
    if k > 0 {
      Converges(was, load, scale, k - 1);
      MovesTowards(Ticks(was, load, scale, k - 1), load, scale);
    }
  }

  lemma SmallScale(i: nat)
    requires i < CPU_LOAD_IDX_MAX
    ensures Scale(i) <= 16
  {
    assert Scale(1) == 2 && Scale(2) == 4;
    assert Scale(3) == 8;
    assert Scale(4) == 16;
  }

  /** One tick; the arithmetic is that of 64-bit words. */
  method UpdateCpuLoad(cpuLoad: array<nat>, load: nat)
    requires cpuLoad.Length == CPU_LOAD_IDX_MAX
    modifies cpuLoad
    ensures forall i :: 0 <= i < CPU_LOAD_IDX_MAX && load < LOAD_LIMIT && old(cpuLoad[i]) < LOAD_LIMIT ==>
              cpuLoad[i] == Averaged(old(cpuLoad[i]), load, Scale(i)) < LOAD_LIMIT
  {
    hide Averaged, Scale;
    var scale := 1;
    ScaleStep(0);
    for i := 0 to CPU_LOAD_IDX_MAX
      invariant scale == Scale(i)
      invariant forall j :: 0 <= j < i && load < LOAD_LIMIT && old(cpuLoad[j]) < LOAD_LIMIT ==>
                  cpuLoad[j] == Averaged(old(cpuLoad[j]), load, Scale(j)) < LOAD_LIMIT
      invariant forall j :: i <= j < CPU_LOAD_IDX_MAX ==> cpuLoad[j] == old(cpuLoad[j])
    {
      SmallScale(i);
      ScaleStep(i);
      cpuLoad[i] := AverageOne(cpuLoad[i], load, scale);
      scale := scale + scale;
    }
  }

  lemma ScaleStep(i: nat)
    ensures Scale(0) == 1 && Scale(i + 1) == Scale(i) + Scale(i)
  {
  }

  method AverageOne(oldLoad: nat, load: nat, scale: nat) returns (averaged: nat)
    requires 1 <= scale <= 16
    ensures oldLoad < LOAD_LIMIT && load < LOAD_LIMIT ==> averaged == Averaged(oldLoad, load, scale) < LOAD_LIMIT
  {
    var newLoad := load;
    if newLoad > oldLoad {
      newLoad := (newLoad + scale - 1) % TWO_TO_64;
    }
    averaged := (oldLoad * (scale - 1) + newLoad) % TWO_TO_64 / scale;
    if oldLoad < LOAD_LIMIT && load < LOAD_LIMIT {
      NoWrap(oldLoad, load, scale, newLoad, averaged);
    }
  }

  lemma NoWrap(was: nat, load: nat, scale: nat, newLoad: nat, averaged: nat)
    requires 1 <= scale <= 16 && was < LOAD_LIMIT && load < LOAD_LIMIT
    requires newLoad == if load > was then (load + scale - 1) % TWO_TO_64 else load
    requires averaged == (was * (scale - 1) + newLoad) % TWO_TO_64 / scale
    ensures averaged == Averaged(was, load, scale) < LOAD_LIMIT
  {
    NoOverflow(was, load, scale);
    assert newLoad == load + (if load > was then scale - 1 else 0);
    Arith.MulMono(was, 0, scale - 1);
    Arith.DivIs(was * (scale - 1) + newLoad, TWO_TO_64, 0);
  }
}
