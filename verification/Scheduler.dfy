/**
 Picking a workspace host and recomputing its cached availability columns.
 A *claim* is what one row of the workspace or prebuild table takes from its host.
 */
module Scheduler {
  import opened Common
  import opened CoreSets

  datatype CpuCore = Shared(count: nat) | Dedicated(cores: seq<nat>)

  datatype ClaimId = OfWorkspace(id: Id) | OfPrebuild(id: Id)

  /** Cores of the row and memory and disk of its machine type. */
  datatype Claim = Claim(cores: CpuCore, memory: int, disk: int)

  type Claims = map<ClaimId, Claim>

  datatype HostStatus = New | Active | Inactive | VersionMismatch

  datatype Totals = Totals(cpu: nat, memory: int, disk: int)

  /** The four cached availability columns. */
  datatype Columns = Columns(sharedCpu: int, dedicatedCpu: int, memory: int, disk: int)

  datatype Host = Host(live: bool, status: HostStatus, region: string, totals: Totals, available: Columns)

  function Elements(s: seq<nat>): set<nat> {
    set i | i in s
  }

  function CoreSet(c: CpuCore): set<nat> {
    match c
    case Shared(_) => {}
    case Dedicated(cores) => Elements(cores)
  }

  function Taken(claims: Claims): set<nat> {
    set k, i | k in claims && i in CoreSet(claims[k].cores) :: i
  }

  function Free(total: nat, claims: Claims): set<nat> {
    set i: nat | 0 <= i < total && i !in Taken(claims)
  }

  function Positive(x: int): int {
    if x < 0 then 0 else x
  }

  // ---------- sums over the claims of a host ----------

  ghost function Sum(m: map<ClaimId, int>): int {
    if m == map[] then 0 else var k :| k in m; m[k] + Sum(m - {k})
  }

  lemma {:induction false} SumRemove(m: map<ClaimId, int>, k: ClaimId)
    requires k in m
    ensures Sum(m) == m[k] + Sum(m - {k})
    decreases |m|
  {
    var p :| p in m && Sum(m) == m[p] + Sum(m - {p});
    if p != k {
      SumRemove(m - {p}, k);
      SumRemove(m - {k}, p);
      assert m - {p} - {k} == m - {k} - {p};
    }
  }

  lemma SumInsert(m: map<ClaimId, int>, k: ClaimId, v: int)
    requires k !in m
    ensures Sum(m[k := v]) == Sum(m) + v
  {
    SumRemove(m[k := v], k);
    assert m[k := v] - {k} == m;
  }

  function Memories(claims: Claims): map<ClaimId, int> {
    map k | k in claims :: Positive(claims[k].memory)
  }

  function Disks(claims: Claims): map<ClaimId, int> {
    map k | k in claims :: Positive(claims[k].disk)
  }

  function CoreCounts(claims: Claims): map<ClaimId, int> {
    map k | k in claims :: |CoreSet(claims[k].cores)|
  }

  lemma MeasuresInsert(claims: Claims, k: ClaimId, c: Claim)
    requires k !in claims
    ensures Sum(Memories(claims[k := c])) == Sum(Memories(claims)) + Positive(c.memory)
    ensures Sum(Disks(claims[k := c])) == Sum(Disks(claims)) + Positive(c.disk)
    ensures Taken(claims[k := c]) == Taken(claims) + CoreSet(c.cores)
  {
    SumInsert(Memories(claims), k, Positive(c.memory));
    SumInsert(Disks(claims), k, Positive(c.disk));
    assert Memories(claims[k := c]) == Memories(claims)[k := Positive(c.memory)];
    assert Disks(claims[k := c]) == Disks(claims)[k := Positive(c.disk)];
    var after := claims[k := c];
    forall i | i in Taken(claims)
      ensures i in Taken(after)
    {
      var j :| j in claims && i in CoreSet(claims[j].cores);
      assert j in after && after[j] == claims[j];
    }
    assert k in after && after[k] == c;
  }

  lemma {:induction false} MeasuresNonNegative(m: map<ClaimId, int>)
    requires forall k | k in m :: m[k] >= 0
    ensures Sum(m) >= 0
    decreases |m|
  {
    if m != map[] {
      var k :| k in m;
      SumRemove(m, k);
      MeasuresNonNegative(m - {k});
    }
  }

  /** Core sets of different claims do not meet. */
  ghost predicate Disjoint(claims: Claims) {
    forall a, b | a in claims && b in claims && a != b :: CoreSet(claims[a].cores) !! CoreSet(claims[b].cores)
  }

  lemma TakenSplit(claims: Claims, k: ClaimId)
    requires k in claims
    ensures Taken(claims) == Taken(claims - {k}) + CoreSet(claims[k].cores)
    ensures Disjoint(claims) ==> Disjoint(claims - {k}) && Taken(claims - {k}) !! CoreSet(claims[k].cores)
  {
    MeasuresInsert(claims - {k}, k, claims[k]);
    assert (claims - {k})[k := claims[k]] == claims;
  }

  lemma DisjointUnionCount(a: set<nat>, b: set<nat>)
    requires a !! b
    ensures |a + b| == |a| + |b|
  {
  }

  lemma CoreCountsRemove(claims: Claims, k: ClaimId)
    requires k in claims
    ensures Sum(CoreCounts(claims)) == |CoreSet(claims[k].cores)| + Sum(CoreCounts(claims - {k}))
  {
    SumRemove(CoreCounts(claims), k);
    assert CoreCounts(claims) - {k} == CoreCounts(claims - {k});
  }

  lemma {:induction false} TakenCount(claims: Claims)
    requires Disjoint(claims)
    ensures |Taken(claims)| == Sum(CoreCounts(claims))
    decreases |claims|
  {
    if claims == map[] {
      assert Taken(claims) == {};
      assert CoreCounts(claims) == map[];
    } else {
      var k :| k in claims;
      var rest := claims - {k};
      TakenSplit(claims, k);
      TakenCount(rest);
      DisjointUnionCount(Taken(rest), CoreSet(claims[k].cores));
      CoreCountsRemove(claims, k);
    }
  }

  // ---------- existing resources of a host ----------

  datatype ExistingResource = ExistingResource(cores: seq<Entry>, memory: int, disk: int)

  /** The running totals describe exactly these claims. */
  ghost predicate Accounts(e: ExistingResource, claims: Claims) {
    && (forall k | 0 <= k < |e.cores| :: !e.cores[k].1)
    && (forall i: nat :: Exclusive(e.cores, i) <==> i in Taken(claims))
    && e.memory == Sum(Memories(claims))
    && e.disk == Sum(Disks(claims))
  }

  function AddRow(e: ExistingResource, c: Claim): ExistingResource {
    var cores := if c.cores.Dedicated? then e.cores + [(CoreSet(c.cores), false)] else e.cores;
    ExistingResource(cores, e.memory + Positive(c.memory), e.disk + Positive(c.disk))
  }

  lemma AccountsAdd(e: ExistingResource, claims: Claims, k: ClaimId, c: Claim)
    requires Accounts(e, claims) && k !in claims
    ensures Accounts(AddRow(e, c), claims[k := c])
  {
    MeasuresInsert(claims, k, c);
    var e' := AddRow(e, c);
    forall i: nat
      ensures Exclusive(e'.cores, i) <==> i in Taken(claims[k := c])
    {
      if c.cores.Dedicated? {
        assert e'.cores[|e.cores|] == (CoreSet(c.cores), false);
        if Exclusive(e.cores, i) {
          var j :| 0 <= j < |e.cores| && !e.cores[j].1 && i in e.cores[j].0;
          assert e'.cores[j] == e.cores[j];
        }
      }
    }
  }

  /** One query loop: the rows come in any order. */
  method AddRows(e0: ExistingResource, ghost counted: Claims, claims: Claims) returns (e: ExistingResource)
    requires counted.Keys !! claims.Keys
    requires Accounts(e0, counted)
    ensures Accounts(e, counted + claims)
  {
    e := e0;
    var rest := claims.Keys;
    ghost var done := counted;
    while rest != {}
      invariant rest <= claims.Keys
      invariant done == counted + (claims - rest)
      invariant Accounts(e, done)
      decreases rest
    {
      var k :| k in rest;
      AccountsAdd(e, done, k, claims[k]);
      e := AddRow(e, claims[k]);
      done := done[k := claims[k]];
      rest := rest - {k};
    }
    assert claims - rest == claims;
  }

  /** First the workspace rows, then the prebuild rows. */
  method GetExistingResource(claims: Claims) returns (e: ExistingResource)
    ensures Accounts(e, claims)
  {
    var workspaces := map k | k in claims && k.OfWorkspace? :: claims[k];
    var prebuilds := map k | k in claims && k.OfPrebuild? :: claims[k];
    e := ExistingResource([], 0, 0);
    e := AddRows(e, map[], workspaces);
    assert map[] + workspaces == workspaces;
    e := AddRows(e, workspaces, prebuilds);
    assert workspaces + prebuilds == claims;
  }

  // ---------- recomputing the columns ----------

  ghost function Recomputed(t: Totals, claims: Claims): Columns {
    Columns(|Free(t.cpu, claims)|, |Free(t.cpu, claims)|,
            t.memory - Sum(Memories(claims)), t.disk - Sum(Disks(claims)))
  }

  /** The columns do not depend on the overcommit factor, although the computation reads it. */
  method RecalculateWorkspaceHost(t: Totals, overcommit: nat, claims: Claims) returns (c: Columns)
    requires overcommit >= 1
    ensures c == Recomputed(t, claims)
  {
    var existing := GetExistingResource(claims);
    var r := AvailableCores(t.cpu, overcommit, existing.cores);
    OvercommitIrrelevant(t.cpu, overcommit, existing.cores);
    assert r.Dedicated() == Free(t.cpu, claims);
    c := Columns(|r.available.Keys|, |r.Dedicated()|, t.memory - existing.memory, t.disk - existing.disk);
  }

  // ---------- deciding on a host ----------

  datatype Request = Request(shared: bool, cpu: nat, memory: int, disk: int, region: string)

  function CpuColumn(c: Columns, shared: bool): int {
    if shared then c.sharedCpu else c.dedicatedCpu
  }

  /** The filter of the query, on the cached columns. */
  predicate Fits(h: Host, c: Columns, r: Request) {
    && h.region == r.region
    && h.live
    && h.status == Active
    && c.memory >= r.memory
    && c.disk >= r.disk
    && CpuColumn(c, r.shared) >= r.cpu
  }

  predicate Eligible(h: Host, r: Request) {
    Fits(h, h.available, r)
  }

  /** The descending order of the query: cpu, then memory, then disk. */
  predicate AtLeast(a: Columns, b: Columns, shared: bool) {
    || CpuColumn(a, shared) > CpuColumn(b, shared)
    || (CpuColumn(a, shared) == CpuColumn(b, shared) &&
        (a.memory > b.memory || (a.memory == b.memory && a.disk >= b.disk)))
  }

  predicate IsBest(hosts: map<Id, Host>, ids: set<Id>, shared: bool, best: Id)
    requires ids <= hosts.Keys
  {
    best in ids && forall i | i in ids :: AtLeast(hosts[best].available, hosts[i].available, shared)
  }

  lemma {:induction false} BestExists(hosts: map<Id, Host>, ids: set<Id>, shared: bool)
    requires ids <= hosts.Keys && ids != {}
    ensures exists best :: IsBest(hosts, ids, shared, best)
    decreases |ids|
  {
    var i :| i in ids;
    var rest := ids - {i};
    if rest == {} {
      assert ids == {i};
      assert IsBest(hosts, ids, shared, i);
    } else {
      BestExists(hosts, rest, shared);
      var b :| IsBest(hosts, rest, shared, b);
      assert IsBest(hosts, ids, shared, if AtLeast(hosts[b].available, hosts[i].available, shared) then b else i);
    }
  }

  function EligibleIds(hosts: map<Id, Host>, r: Request): set<Id> {
    set i | i in hosts && Eligible(hosts[i], r)
  }

  function Among(ids: set<Id>, some: seq<Id>): set<Id> {
    set i | i in ids && i in some
  }

  /** The three tiers: the prebuild's host, the best replica host, the best host. */
  ghost predicate Decided(hosts: map<Id, Host>, r: Request, prebuildHost: Option<Id>, replicas: seq<Id>,
                          d: Option<Id>) {
    var all := EligibleIds(hosts, r);
    var near := Among(all, replicas);
    if prebuildHost.Some? && prebuildHost.value in all then
      d == prebuildHost
    else if near != {} then
      d.Some? && IsBest(hosts, near, r.shared, d.value)
    else if all != {} then
      d.Some? && IsBest(hosts, all, r.shared, d.value)
    else
      d == None
  }

  method DecideWorkspaceHost(hosts: map<Id, Host>, r: Request, prebuildHost: Option<Id>, replicas: seq<Id>)
    returns (d: Option<Id>)
    ensures Decided(hosts, r, prebuildHost, replicas, d)
  {
    var all := EligibleIds(hosts, r);
    if prebuildHost.Some? {
      if prebuildHost.value in all {
        return prebuildHost;
      }
    }
    if |replicas| > 0 {
      var near := Among(all, replicas);
      if near != {} {
        BestExists(hosts, near, r.shared);
        var best :| best in near && IsBest(hosts, near, r.shared, best);
        return Some(best);
      }
    }
    if all == {} {
      return None;
    }
    BestExists(hosts, all, r.shared);
    var best :| best in all && IsBest(hosts, all, r.shared, best);
    return Some(best);
  }

  /** The decision in the words of the query: which hosts pass, and when there is none. */
  lemma DecidedMeans(hosts: map<Id, Host>, r: Request, prebuildHost: Option<Id>, replicas: seq<Id>, d: Option<Id>)
    requires Decided(hosts, r, prebuildHost, replicas, d)
    ensures d == None <==> forall h | h in hosts && hosts[h].live && hosts[h].status == Active && hosts[h].region == r.region ::
              || hosts[h].available.memory < r.memory || hosts[h].available.disk < r.disk
              || (if r.shared then hosts[h].available.sharedCpu else hosts[h].available.dedicatedCpu) < r.cpu
    ensures d.Some? ==>
              && d.value in hosts && hosts[d.value].live && hosts[d.value].status == Active && hosts[d.value].region == r.region
              && hosts[d.value].available.memory >= r.memory && hosts[d.value].available.disk >= r.disk
              && (if r.shared then hosts[d.value].available.sharedCpu else hosts[d.value].available.dedicatedCpu) >= r.cpu
  {
    forall h | h in hosts && Eligible(hosts[h], r)
      ensures h in EligibleIds(hosts, r)
    {
    }
    if d.Some? {
      assert d.value in EligibleIds(hosts, r);
    }
  }

  /**
   No host that meets all of that is passed over: not the prebuild's own, no replica for another, and none of the same tier with
   more cpu, or as much and more memory, or as much of both and more disk, in the columns.
   */
  lemma DecidedIsBest(hosts: map<Id, Host>, r: Request, prebuildHost: Option<Id>, replicas: seq<Id>, h: Id, g: Id)
    requires Decided(hosts, r, prebuildHost, replicas, Some(h))
    requires g in hosts && hosts[g].live && hosts[g].status == Active && hosts[g].region == r.region
    requires hosts[g].available.memory >= r.memory && hosts[g].available.disk >= r.disk
    requires (if r.shared then hosts[g].available.sharedCpu else hosts[g].available.dedicatedCpu) >= r.cpu
    ensures h in hosts && (prebuildHost == Some(g) ==> h == g)
    ensures prebuildHost != Some(h) && g in replicas ==> h in replicas
    ensures prebuildHost != Some(h) && (g in replicas <==> h in replicas) ==>
              var a, b := hosts[g].available, hosts[h].available;
              var cpu := if r.shared then a.sharedCpu - b.sharedCpu else a.dedicatedCpu - b.dedicatedCpu;
              cpu <= 0 && (cpu == 0 ==> a.memory <= b.memory) && (cpu == 0 && a.memory == b.memory ==> a.disk <= b.disk)
  {
    assert g in EligibleIds(hosts, r);
    assert g in replicas ==> g in Among(EligibleIds(hosts, r), replicas);
  }

  // ---------- picking a host and its cores ----------

  datatype Pick = Picked(host: Id, cores: CpuCore) | NoHost | CannotAllocate

  predicate Distinct(s: seq<nat>) {
    forall i, j | 0 <= i < j < |s| :: s[i] != s[j]
  }

  lemma {:induction false} DistinctCount(s: seq<nat>)
    requires Distinct(s)
    ensures |Elements(s)| == |s|
  {
    if s == [] {
      assert Elements(s) == {};
    } else {
      var n := |s| - 1;
      DistinctCount(s[..n]);
      assert Elements(s) == Elements(s[..n]) + {s[n]};
      assert s[n] !in s[..n];
    }
  }

  /** Iterating a hash set: some first `n` elements in some order. */
  method TakeAny(from: set<nat>, n: nat) returns (s: seq<nat>)
    ensures Distinct(s) && forall i | i in s :: i in from
    ensures |s| == if n <= |from| then n else |from|
  {
    s := [];
    var rest := from;
    while |s| < n && rest != {}
      invariant rest <= from
      invariant Distinct(s) && forall i | i in s :: i in from && i !in rest
      invariant |s| + |rest| == |from| && |s| <= n
      decreases rest
    {
      var i :| i in rest;
      s, rest := s + [i], rest - {i};
    }
  }

  /** Every outcome the scheduler may give, whatever the iteration order of its sets. */
  ghost predicate PickSpec(hosts: map<Id, Host>, claims: map<Id, Claims>, r: Request, prebuildHost: Option<Id>,
                           replicas: seq<Id>, p: Pick)
    requires hosts.Keys <= claims.Keys
  {
    match p
    case NoHost =>
      Decided(hosts, r, prebuildHost, replicas, None)
    case CannotAllocate =>
      !r.shared && exists h | h in hosts ::
        && Decided(hosts, r, prebuildHost, replicas, Some(h))
        && |Free(hosts[h].totals.cpu, claims[h])| < r.cpu
    case Picked(h, cores) =>
      && h in hosts
      && Decided(hosts, r, prebuildHost, replicas, Some(h))
      && if r.shared then cores == Shared(r.cpu) else Allocation(cores, r.cpu, Free(hosts[h].totals.cpu, claims[h]))
  }

  /** The requested number of different cores, out of the free ones. */
  predicate Allocation(c: CpuCore, cpu: nat, free: set<nat>) {
    && c.Dedicated?
    && Distinct(c.cores)
    && |c.cores| == cpu
    && CoreSet(c) <= free
  }

  method PickWorkspaceHost(hosts: map<Id, Host>, claims: map<Id, Claims>, overcommit: nat, r: Request,
                           prebuildHost: Option<Id>, replicas: seq<Id>)
    returns (p: Pick)
    requires hosts.Keys <= claims.Keys
    requires overcommit >= 1
    ensures PickSpec(hosts, claims, r, prebuildHost, replicas, p)
  {
    var d := DecideWorkspaceHost(hosts, r, prebuildHost, replicas);
    if d == None {
      return NoHost;
    }
    var h := d.value;
    var existing := GetExistingResource(claims[h]);
    if r.shared {
      return Picked(h, Shared(r.cpu));
    }
    var available := AvailableCores(hosts[h].totals.cpu, overcommit, existing.cores);
    OvercommitIrrelevant(hosts[h].totals.cpu, overcommit, existing.cores);
    assert available.Dedicated() == Free(hosts[h].totals.cpu, claims[h]);
    var cores := TakeAny(available.Dedicated(), r.cpu);
    if |cores| != r.cpu {
      return CannotAllocate;
    }
    return Picked(h, Dedicated(cores));
  }

  // ---------- completeness and optimality ----------

  /** A live host's columns agree with its rows. */
  ghost predicate CoherentHosts(hosts: map<Id, Host>, claims: map<Id, Claims>)
    requires hosts.Keys <= claims.Keys
  {
    forall h | h in hosts && hosts[h].live :: hosts[h].available == Recomputed(hosts[h].totals, claims[h])
  }

  /** The host is up, in the region, and really has room, measured on the rows and not on the cache. */
  ghost predicate Feasible(hosts: map<Id, Host>, claims: map<Id, Claims>, r: Request, h: Id)
    requires hosts.Keys <= claims.Keys
  {
    && h in hosts && hosts[h].live && hosts[h].status == Active && hosts[h].region == r.region
    && r.cpu <= |Free(hosts[h].totals.cpu, claims[h])|
    && Sum(Memories(claims[h])) + r.memory <= hosts[h].totals.memory
    && Sum(Disks(claims[h])) + r.disk <= hosts[h].totals.disk
  }

  /** More free cores; with as many, more free memory; with as much of that too, more free disk. */
  ghost predicate Roomier(a: Totals, x: Claims, b: Totals, y: Claims) {
    var cores := |Free(a.cpu, x)| - |Free(b.cpu, y)|;
    var memory := (a.memory - Sum(Memories(x))) - (b.memory - Sum(Memories(y)));
    var disk := (a.disk - Sum(Disks(x))) - (b.disk - Sum(Disks(y)));
    cores > 0 || (cores == 0 && memory > 0) || (cores == 0 && memory == 0 && disk > 0)
  }

  ghost predicate RealBest(hosts: map<Id, Host>, claims: map<Id, Claims>, r: Request, pool: set<Id>, h: Id)
    requires hosts.Keys <= claims.Keys
  {
    && h in pool
    && Feasible(hosts, claims, r, h)
    && forall g | g in pool && Feasible(hosts, claims, r, g) ::
         !Roomier(hosts[g].totals, claims[g], hosts[h].totals, claims[h])
  }

  lemma FeasibleIsEligible(hosts: map<Id, Host>, claims: map<Id, Claims>, r: Request)
    requires hosts.Keys <= claims.Keys && CoherentHosts(hosts, claims)
    ensures forall h :: Feasible(hosts, claims, r, h) <==> h in EligibleIds(hosts, r)
  {
  }

  lemma BestIsRealBest(hosts: map<Id, Host>, claims: map<Id, Claims>, r: Request, ids: set<Id>, pool: set<Id>, h: Id)
    requires hosts.Keys <= claims.Keys && CoherentHosts(hosts, claims)
    requires ids <= hosts.Keys && IsBest(hosts, ids, r.shared, h)
    requires forall i :: i in ids <==> i in pool && Feasible(hosts, claims, r, i)
    ensures RealBest(hosts, claims, r, pool, h)
  {
  }

  /**
   With a coherent cache the scheduler fails exactly when no host has room, never finds too few
   cores on the host it decided on, and returns the best host of the first tier that has one.
   */
  lemma PickCompleteAndOptimal(hosts: map<Id, Host>, claims: map<Id, Claims>, r: Request, prebuildHost: Option<Id>,
                               replicas: seq<Id>, p: Pick)
    requires hosts.Keys <= claims.Keys
    requires CoherentHosts(hosts, claims)
    requires PickSpec(hosts, claims, r, prebuildHost, replicas, p)
    ensures p != CannotAllocate
    ensures p == NoHost <==> forall h :: !Feasible(hosts, claims, r, h)
    ensures p.Picked? ==>
              if prebuildHost.Some? && Feasible(hosts, claims, r, prebuildHost.value) then
                p.host == prebuildHost.value
              else if exists h :: h in replicas && Feasible(hosts, claims, r, h) then
                RealBest(hosts, claims, r, (set h | h in replicas), p.host)
              else
                RealBest(hosts, claims, r, hosts.Keys, p.host)
  {
    FeasibleIsEligible(hosts, claims, r);
    assert forall h :: Decided(hosts, r, prebuildHost, replicas, Some(h)) ==> h in EligibleIds(hosts, r);
    if p.Picked? && !(prebuildHost.Some? && Feasible(hosts, claims, r, prebuildHost.value)) {
      var near := Among(EligibleIds(hosts, r), replicas);
      if h :| h in replicas && Feasible(hosts, claims, r, h) {
        assert h in near;
        BestIsRealBest(hosts, claims, r, near, (set h | h in replicas), p.host);
      } else {
        BestIsRealBest(hosts, claims, r, EligibleIds(hosts, r), hosts.Keys, p.host);
      }
    }
  }

  lemma PickIsFeasible(hosts: map<Id, Host>, claims: map<Id, Claims>, r: Request, prebuildHost: Option<Id>, replicas: seq<Id>, p: Pick)
    requires hosts.Keys <= claims.Keys && CoherentHosts(hosts, claims)
    requires PickSpec(hosts, claims, r, prebuildHost, replicas, p) && p.Picked?
    ensures Feasible(hosts, claims, r, p.host)
  {
    PickCompleteAndOptimal(hosts, claims, r, prebuildHost, replicas, p);
  }

  /** Nothing that has room is passed over for something less. */
  lemma NothingBetter(hosts: map<Id, Host>, claims: map<Id, Claims>, r: Request, prebuildHost: Option<Id>, replicas: seq<Id>, p: Pick, g: Id)
    requires hosts.Keys <= claims.Keys && CoherentHosts(hosts, claims)
    requires PickSpec(hosts, claims, r, prebuildHost, replicas, p) && p.Picked? && Feasible(hosts, claims, r, g)
    ensures p.host in hosts
    ensures prebuildHost == Some(g) ==> p.host == g
    ensures prebuildHost != Some(p.host) && g in replicas ==> p.host in replicas
    ensures prebuildHost != Some(p.host) && (g in replicas <==> p.host in replicas) ==>
              !Roomier(hosts[g].totals, claims[g], hosts[p.host].totals, claims[p.host])
  {
    PickCompleteAndOptimal(hosts, claims, r, prebuildHost, replicas, p);
    PickIsFeasible(hosts, claims, r, prebuildHost, replicas, p);
  }
}
