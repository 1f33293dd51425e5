/** Registration at the client: building and sorting the meta scheduling information. */
module UssLibrary {
  import opened UssTypes
  import UssSpec

  /** What a client may specify for one accelerator type. */
  datatype Wish = Unwanted | Wanted(affinity: int, flags: int)

  /** The slots of the first k types, in type order, before any limit. */
  function Wishes(msi: seq<Wish>, k: nat): (m: seq<Slot>)
    requires k <= |msi|
    ensures |m| <= k
    ensures forall i :: 0 <= i < |m| ==>
              0 <= m[i].kind < k && msi[m[i].kind] == Wanted(m[i].affinity, m[i].flags)
    ensures forall i, j :: 0 <= i < j < |m| ==> m[i].kind < m[j].kind
  {
    if k == 0 then []
    else
      var m := Wishes(msi, k - 1);
      match msi[k - 1]
      case Unwanted => m
      case Wanted(a, f) => m + [Slot(k - 1, a, f)]
  }

  /** At most MAX_MSI of them travel to the daemon. */
  function Transported(msi: seq<Wish>, k: nat): seq<Slot>
    requires k <= |msi|
  {
    var m := Wishes(msi, k);
    if |m| <= MAX_MSI then m else m[..MAX_MSI]
  }

  /** How many of the first k types are wanted. */
  ghost function WantedBelow(msi: seq<Wish>, k: nat): (n: nat)
    requires k <= |msi|
  {
    if k == 0 then 0 else WantedBelow(msi, k - 1) + (if msi[k - 1].Wanted? then 1 else 0)
  }

  lemma {:induction false} WishesAre(msi: seq<Wish>, k: nat, t: nat)
    requires t < k <= |msi|
    ensures |Wishes(msi, k)| == WantedBelow(msi, k) && WantedBelow(msi, t) <= WantedBelow(msi, k)
    ensures msi[t].Wanted? ==>
      WantedBelow(msi, t) < WantedBelow(msi, k)
      && Wishes(msi, k)[WantedBelow(msi, t)] == Slot(t, msi[t].affinity, msi[t].flags)
  {
    if t < k - 1 {
      WishesAre(msi, k - 1, t);
    } else if k > 1 {
      WishesAre(msi, k - 1, 0);
    }
  }

  /** What travels: the wanted types below which fewer than ten are wanted, with their affinities and flags. */
  lemma TransportedAre(msi: seq<Wish>, x: Slot)
    ensures x in Transported(msi, |msi|) <==>
      && 0 <= x.kind < |msi| && msi[x.kind] == Wanted(x.affinity, x.flags) && WantedBelow(msi, x.kind) < 10
  {
    var all := Wishes(msi, |msi|);
    if x in Transported(msi, |msi|) {
      var i :| 0 <= i < |Transported(msi, |msi|)| && Transported(msi, |msi|)[i] == x;
      WishesAre(msi, |msi|, x.kind);
      var n := WantedBelow(msi, x.kind);
      assert all[i].kind == all[n].kind;
      assert i == n;
    }
    if 0 <= x.kind < |msi| && msi[x.kind] == Wanted(x.affinity, x.flags) && WantedBelow(msi, x.kind) < 10 {
      WishesAre(msi, |msi|, x.kind);
      assert Transported(msi, |msi|)[WantedBelow(msi, x.kind)] == x;
    }
  }

  lemma SomethingTravels(msi: seq<Wish>)
    ensures Transported(msi, |msi|) != [] <==> exists t :: 0 <= t < |msi| && msi[t].Wanted?
  {
    if t :| 0 <= t < |msi| && msi[t].Wanted? {
      WishesAre(msi, |msi|, t);
    }
    if Transported(msi, |msi|) != [] {
      TransportedAre(msi, Transported(msi, |msi|)[0]);
    }
  }

  /** The slots of one affinity, in order. */
  function Select(m: seq<Slot>, affinity: int): (r: seq<Slot>)
    ensures forall x :: x in r <==> x in m && x.affinity == affinity
  {
    if m == [] then []
    else (if m[0].affinity == affinity then [m[0]] else []) + Select(m[1..], affinity)
  }

  ghost predicate Descending(m: seq<Slot>) {
    forall i, j :: 0 <= i < j < |m| ==> m[i].affinity >= m[j].affinity
  }

  /** Same slots, and slots of equal affinity in the same order. */
  ghost predicate StablePermutation(m: seq<Slot>, n: seq<Slot>) {
    |m| == |n| && multiset(m) == multiset(n) && forall v :: Select(m, v) == Select(n, v)
  }

  lemma {:induction false} SelectConcat(m: seq<Slot>, n: seq<Slot>, v: int)
    ensures Select(m + n, v) == Select(m, v) + Select(n, v)
  {
    if m == [] {
      assert m + n == n;
    } else {
      SelectConcat(m[1..], n, v);
      assert (m + n)[1..] == m[1..] + n;
      var first := if m[0].affinity == v then [m[0]] else [];
      assert first + (Select(m[1..], v) + Select(n, v)) == (first + Select(m[1..], v)) + Select(n, v);
    }
  }

  function Exchange(m: seq<Slot>, i: nat): seq<Slot>
    requires i + 1 < |m|
  {
    m[i := m[i + 1]][i + 1 := m[i]]
  }

  /** Two slots of different affinity may change places. */
  lemma PairSelect(x: Slot, y: Slot, v: int)
    requires x.affinity != y.affinity
    ensures Select([x] + [y], v) == Select([y] + [x], v)
  {
    SelectConcat([x], [y], v);
    SelectConcat([y], [x], v);
    assert ([x])[1..] == [] && ([y])[1..] == [];
    assert Select([x], v) == [] || Select([y], v) == [];
  }

  lemma ExchangeSelect(a: seq<Slot>, x: Slot, y: Slot, b: seq<Slot>, v: int)
    requires x.affinity != y.affinity
    ensures Select(a + (([x] + [y]) + b), v) == Select(a + (([y] + [x]) + b), v)
  {
    SelectConcat(a, ([x] + [y]) + b, v);
    SelectConcat(a, ([y] + [x]) + b, v);
    SelectConcat([x] + [y], b, v);
    SelectConcat([y] + [x], b, v);
    PairSelect(x, y, v);
  }

  lemma ExchangeIsStable(m: seq<Slot>, i: nat)
    requires i + 1 < |m| && m[i].affinity != m[i + 1].affinity
    ensures StablePermutation(m, Exchange(m, i))
  {
    var x, y := m[i], m[i + 1];
    var a, b := m[..i], m[i + 2..];
    assert m == a + (([x] + [y]) + b);
    assert Exchange(m, i) == a + (([y] + [x]) + b);
    forall v ensures Select(m, v) == Select(Exchange(m, i), v) {
      ExchangeSelect(a, x, y, b, v);
    }
  }

  /** The three parallel arrays of the transport structure, read as slots. */
  ghost function View(kind: array<int>, affinity: array<int>, flags: array<int>, n: nat): (m: seq<Slot>)
    requires n <= kind.Length && n <= affinity.Length && n <= flags.Length
    reads kind, affinity, flags
    ensures |m| == n
  {
    seq(n, i requires 0 <= i < n reads kind, affinity, flags => Slot(kind[i], affinity[i], flags[i]))
  }

  /** The slots behind n are in place: descending, and none exceeds a slot before them. */
  ghost predicate Settled(m: seq<Slot>, n: nat)
    requires n <= |m|
  {
    forall i, j :: 0 <= i < j < |m| && n <= j ==> m[i].affinity >= m[j].affinity
  }

  function Compared(m: seq<Slot>, i: nat): seq<Slot>
    requires i + 1 < |m|
  {
    if m[i].affinity < m[i + 1].affinity then Exchange(m, i) else m
  }

  /** The state of a pass over the first n slots before neighbours i and i + 1 are compared. */
  ghost predicate Passing(was: seq<Slot>, m: seq<Slot>, i: nat, n: nat, exchanged: bool) {
    && i < n <= |m| && StablePermutation(was, m) && Settled(m, n)
    && (forall j :: 0 <= j < i ==> m[j].affinity >= m[i].affinity)
    && (!exchanged ==> Descending(m[..i + 1]))
  }

  lemma PassAdvances(was: seq<Slot>, m: seq<Slot>, i: nat, n: nat, exchanged: bool)
    requires Passing(was, m, i, n, exchanged) && i + 1 < n
    ensures Passing(was, Compared(m, i), i + 1, n, exchanged || m[i].affinity < m[i + 1].affinity)
  {
    if m[i].affinity < m[i + 1].affinity {
      ExchangeIsStable(m, i);
      StableTransitive(was, m, Exchange(m, i));
    }
  }

  lemma PassEnds(was: seq<Slot>, m: seq<Slot>, n: nat, exchanged: bool)
    requires n >= 1 && Passing(was, m, n - 1, n, exchanged)
    ensures Settled(m, n - 1)
    ensures !exchanged ==> Descending(m)
  {
    if !exchanged {
      forall i, j | 0 <= i < j < |m| ensures m[i].affinity >= m[j].affinity {
        if j < n {
          assert m[..n][i] == m[i] && m[..n][j] == m[j];
        }
      }
    }
  }

  lemma StableTransitive(a: seq<Slot>, b: seq<Slot>, c: seq<Slot>)
    requires StablePermutation(a, b) && StablePermutation(b, c)
    ensures StablePermutation(a, c)
  {
    forall v ensures Select(a, v) == Select(c, v) {
      assert Select(a, v) == Select(b, v);
    }
  }

  /** Early-exit bubble sort with a shrinking bound. */
  method SortMsai(kind: array<int>, affinity: array<int>, flags: array<int>, length: nat)
    requires kind != affinity && kind != flags && affinity != flags
    requires 1 <= length <= kind.Length && length <= affinity.Length && length <= flags.Length
    modifies kind, affinity, flags
    ensures Descending(View(kind, affinity, flags, length))
    ensures StablePermutation(old(View(kind, affinity, flags, length)), View(kind, affinity, flags, length))
    ensures kind[length..] == old(kind[length..])
    ensures affinity[length..] == old(affinity[length..]) && flags[length..] == old(flags[length..])
  {
    ghost var was := View(kind, affinity, flags, length);
    var n := length;
    var exchanged := true;
    while exchanged && n > 0
      invariant 0 <= n <= length
      invariant StablePermutation(was, View(kind, affinity, flags, length))
      invariant Settled(View(kind, affinity, flags, length), n)
      invariant !exchanged ==> Descending(View(kind, affinity, flags, length))
      invariant kind[length..] == old(kind[length..])
      invariant affinity[length..] == old(affinity[length..]) && flags[length..] == old(flags[length..])
      decreases n
    {
      ghost var m := View(kind, affinity, flags, length);
      exchanged := Pass(kind, affinity, flags, length, n);
      StableTransitive(was, m, View(kind, affinity, flags, length));
      n := n - 1;
    }
  }

  /** Compares neighbours i and i + 1 and puts the greater affinity first. */
  method CompareExchange(kind: array<int>, affinity: array<int>, flags: array<int>, ghost length: nat, i: nat)
    returns (exchanged: bool)
    requires kind != affinity && kind != flags && affinity != flags
    requires i + 1 < length <= kind.Length && length <= affinity.Length && length <= flags.Length
    modifies kind, affinity, flags
    ensures View(kind, affinity, flags, length) == Compared(old(View(kind, affinity, flags, length)), i)
    ensures exchanged == (old(affinity[i]) < old(affinity[i + 1]))
    ensures kind[length..] == old(kind[length..])
    ensures affinity[length..] == old(affinity[length..]) && flags[length..] == old(flags[length..])
  {
    exchanged := affinity[i] < affinity[i + 1];
    if exchanged {
      kind[i], kind[i + 1] := kind[i + 1], kind[i];
      affinity[i], affinity[i + 1] := affinity[i + 1], affinity[i];
      flags[i], flags[i + 1] := flags[i + 1], flags[i];
    }
  }

  /** One pass carries the least affinity of the first n slots to place n - 1. */
  method Pass(kind: array<int>, affinity: array<int>, flags: array<int>, ghost length: nat, n: nat) returns (exchanged: bool)
    requires kind != affinity && kind != flags && affinity != flags
    requires 1 <= n <= length <= kind.Length && length <= affinity.Length && length <= flags.Length
    requires Settled(View(kind, affinity, flags, length), n)
    modifies kind, affinity, flags
    ensures StablePermutation(old(View(kind, affinity, flags, length)), View(kind, affinity, flags, length))
    ensures Settled(View(kind, affinity, flags, length), n - 1)
    ensures !exchanged ==> Descending(View(kind, affinity, flags, length))
    ensures kind[length..] == old(kind[length..])
    ensures affinity[length..] == old(affinity[length..]) && flags[length..] == old(flags[length..])
  {
    exchanged := false;
    for i := 0 to n - 1
      invariant Passing(old(View(kind, affinity, flags, length)), View(kind, affinity, flags, length), i, n, exchanged)
      invariant kind[length..] == old(kind[length..])
      invariant affinity[length..] == old(affinity[length..]) && flags[length..] == old(flags[length..])
    {
      ghost var m := View(kind, affinity, flags, length);
      assert m[i].affinity == affinity[i] && m[i + 1].affinity == affinity[i + 1];
      var e := CompareExchange(kind, affinity, flags, length, i);
      PassAdvances(old(View(kind, affinity, flags, length)), m, i, n, exchanged);
      exchanged := exchanged || e;
    }
    PassEnds(old(View(kind, affinity, flags, length)), View(kind, affinity, flags, length), n, exchanged);
  }

  /** Parses the wanted types, in type order, into the transport arrays; the excess is dropped. */
  method Collect(msi: seq<Wish>, kind: array<int>, affinity: array<int>, flags: array<int>) returns (length: nat)
    requires kind != affinity && kind != flags && affinity != flags
    requires kind.Length == affinity.Length == flags.Length == MAX_MSI
    modifies kind, affinity, flags
    ensures length <= MAX_MSI && View(kind, affinity, flags, length) == Transported(msi, |msi|)
  {
    length := 0;
    for i := 0 to |msi|
      invariant length <= MAX_MSI
      invariant View(kind, affinity, flags, length) == Transported(msi, i)
    {
      if msi[i].Wanted? && length < MAX_MSI {
        ghost var m := View(kind, affinity, flags, length);
        kind[length], affinity[length], flags[length] := i, msi[i].affinity, msi[i].flags;
        length := length + 1;
        assert View(kind, affinity, flags, length) == m + [Slot(i, msi[i].affinity, msi[i].flags)];
      }
    }
  }

  method RegisterMsai(msi: seq<Wish>) returns (ok: bool, m: seq<Slot>)
    ensures ok == (Transported(msi, |msi|) != [])
    ensures ok <==> exists t :: 0 <= t < |msi| && msi[t].Wanted?
    ensures ok ==> Descending(m) && StablePermutation(Transported(msi, |msi|), m)
    ensures !ok ==> m == []
  {
    SomethingTravels(msi);
    var kind := new int[MAX_MSI](_ => 0);
    var affinity := new int[MAX_MSI](_ => 0);
    var flags := new int[MAX_MSI](_ => 0);
    var length := Collect(msi, kind, affinity, flags);
    ok, m := length != 0, [];
    if ok {
      SortMsai(kind, affinity, flags, length);
      m := seq(length, i requires 0 <= i < length reads kind, affinity, flags => Slot(kind[i], affinity[i], flags[i]));
      assert m == View(kind, affinity, flags, length);
    }
  }

  // What the order means for placement.

  lemma {:induction false} SelectKeepsOrder(m: seq<Slot>, i: nat, j: nat) returns (p: nat, q: nat)
    requires i < j < |m| && m[i].affinity == m[j].affinity
    ensures p < q < |Select(m, m[i].affinity)|
    ensures Select(m, m[i].affinity)[p] == m[i] && Select(m, m[i].affinity)[q] == m[j]
  {
    var v := m[i].affinity;
    if i == 0 {
      assert m[j] == m[1..][j - 1] && m[j] in Select(m[1..], v);
      var k :| 0 <= k < |Select(m[1..], v)| && Select(m[1..], v)[k] == m[j];
      p, q := 0, k + 1;
    } else {
      p, q := SelectKeepsOrder(m[1..], i - 1, j - 1);
      if m[0].affinity == v {
        p, q := p + 1, q + 1;
      }
    }
  }

  lemma {:induction false} SelectAscends(m: seq<Slot>, v: int)
    requires forall i, j :: 0 <= i < j < |m| ==> m[i].kind < m[j].kind
    ensures forall i, j :: 0 <= i < j < |Select(m, v)| ==> Select(m, v)[i].kind < Select(m, v)[j].kind
  {
    if m != [] {
      SelectAscends(m[1..], v);
      var r := Select(m[1..], v);
      forall k | 0 <= k < |r| ensures m[0].kind < r[k].kind {
        assert r[k] in m[1..];
      }
    }
  }

  /** After sorting, the slots are ordered by falling affinity and, on ties, by rising type. */
  lemma TiesByType(msi: seq<Wish>, m: seq<Slot>, i: nat, j: nat)
    requires Descending(m) && StablePermutation(Transported(msi, |msi|), m) && i < j < |m|
    ensures m[i].affinity > m[j].affinity || (m[i].affinity == m[j].affinity && m[i].kind < m[j].kind)
  {
    hide Select;
    if m[i].affinity == m[j].affinity {
      var p, q := SelectKeepsOrder(m, i, j);
      SelectAscends(Transported(msi, |msi|), m[i].affinity);
      assert Select(m, m[i].affinity) == Select(Transported(msi, |msi|), m[i].affinity);
    }
  }

  /** What is sent meets the daemon's expectations if the client gave positive affinities. */
  lemma SentMsaiOk(msi: seq<Wish>, m: seq<Slot>)
    requires Transported(msi, |msi|) != []
    requires Descending(m) && StablePermutation(Transported(msi, |msi|), m)
    requires forall w :: w in msi && w.Wanted? ==> w.affinity > 0
    ensures UssSpec.MsaiOk(m)
  {
    var t := Transported(msi, |msi|);
    forall i | 0 <= i < |m| ensures m[i] in t && m[i].affinity > 0 {
      assert m[i] in multiset(m);
      assert msi[m[i].kind] in msi;
    }
    forall i, j | 0 <= i < j < |m| ensures m[i].kind != m[j].kind {
      TiesByType(msi, m, i, j);
    }
  }

  lemma SameMembers(t: seq<Slot>, m: seq<Slot>)
    requires StablePermutation(t, m)
    ensures forall x :: x in m <==> x in t
  {
    assert forall x :: x in m <==> x in multiset(m);
    assert forall x :: x in t <==> x in multiset(t);
  }

  /**
   * Placement: the daemon takes the first active slot, so the job goes to an active type of maximal
   * affinity and, among those, to the lowest type.
   */
  lemma PlacedOnBestType(msi: seq<Wish>, m: seq<Slot>, kinds: set<int>)
    requires Descending(m) && StablePermutation(Transported(msi, |msi|), m)
    requires UssSpec.FirstActive(m, kinds) < |m|
    ensures var x := m[UssSpec.FirstActive(m, kinds)];
            && x in Transported(msi, |msi|) && x.kind in kinds
            && forall y :: y in Transported(msi, |msi|) && y.kind in kinds ==>
                 y.affinity < x.affinity || (y.affinity == x.affinity && x.kind <= y.kind)
  {
    hide StablePermutation, Descending, Transported, UssSpec.FirstActive;
    var i := UssSpec.FirstActive(m, kinds);
    var t := Transported(msi, |msi|);
    SameMembers(t, m);
    assert m[i] in m;
    forall y | y in t && y.kind in kinds
      ensures y.affinity < m[i].affinity || (y.affinity == m[i].affinity && m[i].kind <= y.kind)
    {
      NoneBefore(msi, m, kinds, i, y);
    }
  }

  lemma NoneBefore(msi: seq<Wish>, m: seq<Slot>, kinds: set<int>, i: nat, y: Slot)
    requires Descending(m) && StablePermutation(Transported(msi, |msi|), m)
    requires i == UssSpec.FirstActive(m, kinds) < |m| && y in m && y.kind in kinds
    ensures y.affinity < m[i].affinity || (y.affinity == m[i].affinity && m[i].kind <= y.kind)
  {
    hide StablePermutation, Descending, Transported, UssSpec.FirstActive;
    var j :| 0 <= j < |m| && m[j] == y;
    if i < j {
      TiesByType(msi, m, i, j);
    }
  }
}
