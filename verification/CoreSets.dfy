/**
 Core accounting of one workspace host: which cores are free, given the core
 sets that are already handed out.  An entry `(cores, true)` is shared and
 `(cores, false)` is exclusive.
 */
module CoreSets {

  type Entry = (set<nat>, bool)

  datatype AvailableCore = AvailableCore(total: nat, overcommit: nat, available: map<nat, nat>) {

    /** The cores that nobody shares. */
    function Dedicated(): set<nat> {
      set i | i in available && available[i] == 0
    }
  }

  /** Core `i` belongs to some exclusive entry. */
  predicate Exclusive(existing: seq<Entry>, i: nat) {
    exists k | 0 <= k < |existing| :: !existing[k].1 && i in existing[k].0
  }

  /** The number of shared entries that contain core `i`. */
  function Shares(existing: seq<Entry>, i: nat): nat {
    if existing == [] then
      0
    else
      var last := existing[|existing| - 1];
      Shares(existing[..|existing| - 1], i) + if last.1 && i in last.0 then 1 else 0
  }

  /** What the scheduler's passes amount to, said in one expression. */
  function ClosedForm(total: nat, overcommit: nat, existing: seq<Entry>): map<nat, nat> {
    map i: nat | 0 <= i < total && !Exclusive(existing, i) && Shares(existing, i) < overcommit :: Shares(existing, i)
  }

  /** The passes of the scheduler, one loop each. */
  method AvailableCores(total: nat, overcommit: nat, existing: seq<Entry>) returns (r: AvailableCore)
    ensures r == AvailableCore(total, overcommit, ClosedForm(total, overcommit, existing))
  {
    var all := WithoutExclusive(total, existing);
    var num := CountShared(all, existing);
    r := AvailableCore(total, overcommit, map i | i in num && num[i] < overcommit :: num[i]);
  }

  method WithoutExclusive(total: nat, existing: seq<Entry>) returns (all: set<nat>)
    ensures all == set i: nat | 0 <= i < total && !Exclusive(existing, i)
  {
    all := AllCores(total);
    for k := 0 to |existing|
      invariant all == set i: nat | 0 <= i < total && !Exclusive(existing[..k], i)
    {
      assert existing[..k + 1] == existing[..k] + [existing[k]];
      if !existing[k].1 {
        all := RemoveAll(all, existing[k].0);
      }
    }
    assert existing[..|existing|] == existing;
  }

  method CountShared(all: set<nat>, existing: seq<Entry>) returns (num: map<nat, nat>)
    ensures num == map i | i in all :: Shares(existing, i)
  {
    num := map i | i in all :: 0;
    for k := 0 to |existing|
      invariant num == map i | i in all :: Shares(existing[..k], i)
    {
      assert existing[..k + 1][..k] == existing[..k];
      if existing[k].1 {
        num := BumpAll(num, existing[k].0);
      }
    }
    assert existing[..|existing|] == existing;
  }

  method AllCores(total: nat) returns (all: set<nat>)
    ensures forall i: nat :: i in all <==> i < total
  {
    all := {};
    for i := 0 to total
      invariant forall j: nat :: j in all <==> j < i
    {
      all := all + {i};
    }
  }

  method RemoveAll(from: set<nat>, cores: set<nat>) returns (all: set<nat>)
    ensures all == from - cores
  {
    all := from;
    var rest := cores;
    while rest != {}
      invariant rest <= cores
      invariant all == from - (cores - rest)
      decreases rest
    {
      var i :| i in rest;
      all, rest := all - {i}, rest - {i};
    }
  }

  method BumpAll(start: map<nat, nat>, cores: set<nat>) returns (num: map<nat, nat>)
    ensures num == map i | i in start :: if i in cores then start[i] + 1 else start[i]
  {
    num := start;
    var rest := cores;
    while rest != {}
      invariant rest <= cores
      invariant num == map i | i in start :: if i in cores - rest then start[i] + 1 else start[i]
      decreases rest
    {
      var i :| i in rest;
      if i in num {
        num := num[i := num[i] + 1];
      }
      rest := rest - {i};
    }
  }

  // ---------- what the closed form says ----------

  /** The shared entries that contain core `i`, by their positions. */
  function SharedAt(existing: seq<Entry>, i: nat): set<nat> {
    set k: nat | k < |existing| && existing[k].1 && i in existing[k].0
  }

  lemma {:induction false} SharesCount(existing: seq<Entry>, i: nat)
    ensures Shares(existing, i) == |SharedAt(existing, i)|
  {
    if existing != [] {
      var n := |existing| - 1;
      SharesCount(existing[..n], i);
      assert SharedAt(existing, i) == SharedAt(existing[..n], i) + if existing[n].1 && i in existing[n].0 then {n} else {};
    }
  }

  /**
   A core is available exactly if the host has it, no exclusive entry holds it and fewer shared entries than the factor do; it is
   then listed with their number.  It is dedicated exactly if no entry at all holds it.
   */
  lemma AvailableExactly(total: nat, overcommit: nat, existing: seq<Entry>, i: nat)
    ensures var r := AvailableCore(total, overcommit, ClosedForm(total, overcommit, existing));
            && (i in r.available <==>
                && i < total && |set k: nat | k < |existing| && existing[k].1 && i in existing[k].0| < overcommit
                && forall k | 0 <= k < |existing| && !existing[k].1 :: i !in existing[k].0)
            && (i in r.available ==> r.available[i] == |set k: nat | k < |existing| && existing[k].1 && i in existing[k].0|)
            && (i in r.Dedicated() <==> i < total && overcommit > 0 && forall k | 0 <= k < |existing| :: i !in existing[k].0)
  {
    SharesCount(existing, i);
    assert SharedAt(existing, i) == set k: nat | k < |existing| && existing[k].1 && i in existing[k].0;
    if k :| 0 <= k < |existing| && existing[k].1 && i in existing[k].0 {
      assert k in SharedAt(existing, i);
    } else {
      assert SharedAt(existing, i) == {};
    }
  }

  // ---------- the order of the entries does not matter ----------

  lemma {:induction false} SharesRemove(existing: seq<Entry>, k: nat, i: nat)
    requires k < |existing|
    ensures Shares(existing, i) ==
            Shares(existing[..k] + existing[k + 1..], i) + if existing[k].1 && i in existing[k].0 then 1 else 0
  {
    var n := |existing| - 1;
    var without := existing[..k] + existing[k + 1..];
    if k == n {
      assert without == existing[..n];
    } else {
      SharesRemove(existing[..n], k, i);
      assert without[..n - 1] == existing[..n][..k] + existing[..n][k + 1..];
    }
  }

  lemma {:induction false} SharesOrderFree(a: seq<Entry>, b: seq<Entry>, i: nat)
    requires multiset(a) == multiset(b)
    ensures Shares(a, i) == Shares(b, i)
    decreases |a|
  {
    if a == [] {
      assert multiset(b) == multiset{};
      assert b == [];
    } else {
      var n := |a| - 1;
      assert a == a[..n] + [a[n]];
      assert a[n] in multiset(b);
      var k :| 0 <= k < |b| && b[k] == a[n];
      assert b == b[..k] + [b[k]] + b[k + 1..];
      assert multiset(b[..k] + b[k + 1..]) == multiset(b) - multiset{b[k]};
      assert multiset(a[..n]) == multiset(a) - multiset{a[n]};
      SharesOrderFree(a[..n], b[..k] + b[k + 1..], i);
      SharesRemove(b, k, i);
    }
  }

  lemma ExclusiveOrderFree(a: seq<Entry>, b: seq<Entry>, i: nat)
    requires forall e :: e in a <==> e in b
    ensures Exclusive(a, i) <==> Exclusive(b, i)
  {
    if Exclusive(a, i) {
      var k :| 0 <= k < |a| && !a[k].1 && i in a[k].0;
      assert a[k] in b;
    }
    if Exclusive(b, i) {
      var k :| 0 <= k < |b| && !b[k].1 && i in b[k].0;
      assert b[k] in a;
    }
  }

  /** Database rows come back in any order; the free cores are the same. */
  lemma OrderIrrelevant(total: nat, overcommit: nat, a: seq<Entry>, b: seq<Entry>)
    requires multiset(a) == multiset(b)
    ensures ClosedForm(total, overcommit, a) == ClosedForm(total, overcommit, b)
  {
    SameElements(a, b);
    forall i: nat
      ensures Exclusive(a, i) <==> Exclusive(b, i)
      ensures Shares(a, i) == Shares(b, i)
    {
      ExclusiveOrderFree(a, b, i);
      SharesOrderFree(a, b, i);
    }
  }

  lemma SameElements(a: seq<Entry>, b: seq<Entry>)
    requires multiset(a) == multiset(b)
    ensures forall e :: e in a <==> e in b
  {
    assert forall e :: e in a <==> e in multiset(a);
    assert forall e :: e in b <==> e in multiset(b);
  }

  // ---------- allocating and releasing ----------

  /**
   Handing out an exclusive set removes exactly that set from what is left, wherever
   the new row turns up in the listing.  Read from right to left it is the release:
   if the set came out of the dedicated cores, giving it back restores them.
   */
  lemma AllocateAndRelease(total: nat, overcommit: nat, before: seq<Entry>, after: seq<Entry>, cores: set<nat>)
    requires multiset(after) == multiset(before) + multiset{(cores, false)}
    ensures var a := ClosedForm(total, overcommit, after);
            var b := ClosedForm(total, overcommit, before);
            && a == b - cores
            && AvailableCore(total, overcommit, a).Dedicated() == AvailableCore(total, overcommit, b).Dedicated() - cores
            && (cores <= AvailableCore(total, overcommit, b).Dedicated() ==>
                  && AvailableCore(total, overcommit, b).Dedicated() == AvailableCore(total, overcommit, a).Dedicated() + cores
                  && |AvailableCore(total, overcommit, a).Dedicated()| == |AvailableCore(total, overcommit, b).Dedicated()| - |cores|)
  {
    var appended := before + [(cores, false)];
    OrderIrrelevant(total, overcommit, after, appended);
    forall i: nat
      ensures Exclusive(appended, i) <==> Exclusive(before, i) || i in cores
      ensures Shares(appended, i) == Shares(before, i)
    {
      assert appended[..|before|] == before;
      assert appended[|before|] == (cores, false);
      if Exclusive(before, i) {
        var k :| 0 <= k < |before| && !before[k].1 && i in before[k].0;
        assert appended[k] == before[k];
      }
    }
    var b := AvailableCore(total, overcommit, ClosedForm(total, overcommit, before));
    var a := AvailableCore(total, overcommit, ClosedForm(total, overcommit, after));
    assert a.Dedicated() == b.Dedicated() - cores;
    if cores <= b.Dedicated() {
      assert b.Dedicated() == a.Dedicated() + cores;
    }
  }

  lemma {:induction false} NoShares(existing: seq<Entry>, i: nat)
    requires forall k | 0 <= k < |existing| :: !existing[k].1
    ensures Shares(existing, i) == 0
  {
    if existing != [] {
      NoShares(existing[..|existing| - 1], i);
    }
  }

  /**
   When every entry is exclusive, the overcommit factor does not influence the result and
   the shared and the dedicated count coincide.
   */
  lemma OvercommitIrrelevant(total: nat, overcommit: nat, existing: seq<Entry>)
    requires overcommit >= 1
    requires forall k | 0 <= k < |existing| :: !existing[k].1
    ensures var r := AvailableCore(total, overcommit, ClosedForm(total, overcommit, existing));
            && r.available.Keys == r.Dedicated()
            && r.Dedicated() == set i: nat | 0 <= i < total && !Exclusive(existing, i)
  {
    forall i: nat
      ensures Shares(existing, i) == 0
    {
      NoShares(existing, i);
    }
  }
}
