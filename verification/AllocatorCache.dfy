/**
 The cached availability columns: when they equal a recomputation from the rows, exactly which steps can spoil them,
 and what follows for the capacity of a host.
 */
module AllocatorCache {
  import opened Common
  import opened Scheduler
  import opened Allocator
  import opened AllocatorSafety

  ghost predicate Resizing(s: Db, h: Id) {
    exists r | r in s.resizes :: s.resizes[r].host == h
  }

  ghost predicate CoherentHost(s: Db, h: Id)
    requires h in s.hosts
  {
    s.hosts[h].available == Recomputed(s.hosts[h].totals, ClaimsOn(s, h))
  }

  /** The cache of every live host that is not in the middle of an update equals a fresh recomputation. */
  ghost predicate Coherent(s: Db) {
    && (forall h | h in s.hosts && s.hosts[h].live && !Resizing(s, h) :: CoherentHost(s, h))
    && ResizesRight(s)
  }

  /** What an update has read gives the columns that the claims give now. */
  ghost predicate ReadRight(s: Db, x: Resize) {
    x.read.Some? ==> Recomputed(x.totals, x.read.value) == Recomputed(x.totals, ClaimsOn(s, x.host))
  }

  /** Updates in flight are of different hosts, the rows still hold what the updates wrote, and what they read is still right. */
  ghost predicate ResizesRight(s: Db) {
    && (forall r | r in s.resizes :: s.resizes[r].host in s.hosts && s.resizes[r].totals == s.hosts[s.resizes[r].host].totals)
    && (forall r | r in s.resizes :: ReadRight(s, s.resizes[r]))
    && (forall r, q | r in s.resizes && q in s.resizes && r != q :: s.resizes[r].host != s.resizes[q].host)
  }

  lemma EmptyIsCoherent(overcommit: nat)
    ensures Coherent(Empty(overcommit))
  {
  }

  /** A host whose row, claims and update status are as before is as coherent as before. */
  lemma HostUntouched(s: Db, t: Db, h: Id)
    requires Coherent(s) && h in s.hosts && h in t.hosts && s.hosts[h].live
    requires t.hosts[h].totals == s.hosts[h].totals && t.hosts[h].available == s.hosts[h].available
    requires ClaimsOn(t, h) == ClaimsOn(s, h) && !Resizing(s, h)
    ensures CoherentHost(t, h)
  {
  }

  lemma WorkspaceStepHost(s: Db, a: WorkspaceStep, t: Db, h: Id)
    requires Linked(s) && Coherent(s) && WorkspaceNext(s, a, t) && WorkspaceComputed(s, a, t)
    requires h in t.hosts && t.hosts[h].live && !Resizing(t, h)
    ensures CoherentHost(t, h)
  {
    ClaimsAfterWorkspaceStep(s, a, t, h);
    if a.CreateWorkspace? && a.pick.Picked? && a.pick.host == h {
      assert Recalculation(t, h, s.hosts[h].totals, a.columns);
    } else if a.DeleteWorkspace? && s.workspaces[a.w].host == h {
      assert Recalculation(t, h, s.hosts[h].totals, a.columns);
    } else {
      HostUntouched(s, t, h);
    }
  }

  lemma PrebuildStepHost(s: Db, a: PrebuildStep, t: Db, h: Id)
    requires Linked(s) && DeletionsChecked(s) && Coherent(s) && PrebuildNext(s, a, t) && PrebuildComputed(s, a, t)
    requires h in t.hosts && t.hosts[h].live && !Resizing(t, h)
    ensures CoherentHost(t, h)
  {
    ClaimsAfterPrebuildStep(s, a, t, h);
    if a.CreatePrebuild? && a.pick.Picked? && a.pick.host == h {
      assert Recalculation(t, h, s.hosts[h].totals, a.columns);
    } else if a.FinishPrebuild? && a.commits && s.prebuilds[a.p].host == h {
      assert Recalculation(t, h, s.hosts[h].totals, a.columns);
    } else {
      HostUntouched(s, t, h);
    }
  }

  // ---------- a project's machine type ----------

  ghost function Affected(s: Db, project: Id, h: Id): set<ClaimId> {
    set c | c in ClaimsOn(s, h) && c.OfPrebuild? && s.prebuilds[c.id].project == project
  }

  predicate SameSize(m: MachineType, n: MachineType) {
    Positive(m.memory) == Positive(n.memory) && Positive(m.disk) == Positive(n.disk)
  }

  lemma {:induction false} SumShift(m: map<ClaimId, int>, n: map<ClaimId, int>, ks: set<ClaimId>, d: int)
    requires n.Keys == m.Keys && ks <= m.Keys
    requires forall k | k in m :: n[k] == if k in ks then m[k] + d else m[k]
    ensures Sum(n) == Sum(m) + |ks| * d
    decreases |m|
  {
    if m == map[] {
      assert n == map[] && ks == {};
    } else {
      var k :| k in m;
      SumRemove(m, k);
      SumRemove(n, k);
      SumShift(m - {k}, n - {k}, ks - {k}, d);
      if k in ks {
        assert |ks - {k}| == |ks| - 1;
        OneMoreTimes(|ks|, d);
      } else {
        assert ks - {k} == ks;
      }
    }
  }

  lemma OneMoreTimes(n: int, d: int)
    ensures n * d == (n - 1) * d + d
  {
  }

  /** The claims in `ks` change their memory by `dm` and their disk by `dd`. */
  ghost predicate Resized(before: Claims, after: Claims, ks: set<ClaimId>, dm: int, dd: int) {
    && after.Keys == before.Keys && ks <= before.Keys
    && forall c | c in before ::
         && after[c].cores == before[c].cores
         && Positive(after[c].memory) == Positive(before[c].memory) + (if c in ks then dm else 0)
         && Positive(after[c].disk) == Positive(before[c].disk) + (if c in ks then dd else 0)
  }

  lemma RecomputedShift(totals: Totals, before: Claims, after: Claims, ks: set<ClaimId>, dm: int, dd: int)
    requires Resized(before, after, ks, dm, dd)
    ensures var c := Recomputed(totals, before);
            Recomputed(totals, after) == c.(memory := c.memory - |ks| * dm, disk := c.disk - |ks| * dd)
  {
    SumShift(Memories(before), Memories(after), ks, dm);
    SumShift(Disks(before), Disks(after), ks, dd);
    TakenSame(before, after);
  }

  lemma ProjectChangeResizes(s: Db, a: CatalogStep, t: Db, h: Id)
    requires Linked(s) && CatalogNext(s, a, t) && a.SetProjectMachineType?
    ensures Retyped(ClaimsOn(s, h), ClaimsOn(t, h), Affected(s, a.project, h),
                    s.machineTypes[s.projects[a.project]], s.machineTypes[a.machineType])
  {
    ClaimsAfterProjectChange(s, a, t, h);
    forall c | c in Affected(s, a.project, h) {
      ClaimAt(s, h, c);
    }
  }

  /** Whatever the totals, the columns survive a project's change exactly if no claim of it is there or the sizes agree. */
  lemma ProjectChangeColumns(s: Db, a: CatalogStep, t: Db, h: Id, totals: Totals)
    requires Linked(s) && CatalogNext(s, a, t) && a.SetProjectMachineType?
    ensures Recomputed(totals, ClaimsOn(s, h)) == Recomputed(totals, ClaimsOn(t, h)) <==>
            || Affected(s, a.project, h) == {}
            || SameSize(s.machineTypes[s.projects[a.project]], s.machineTypes[a.machineType])
  {
    ProjectChangeResizes(s, a, t, h);
    ShiftBetween(totals, ClaimsOn(s, h), ClaimsOn(t, h), Affected(s, a.project, h),
                 s.machineTypes[s.projects[a.project]], s.machineTypes[a.machineType]);
  }

  /** The claims in `ks` go from one machine type to another. */
  ghost predicate Retyped(before: Claims, after: Claims, ks: set<ClaimId>, m: MachineType, n: MachineType) {
    Resized(before, after, ks, Positive(n.memory) - Positive(m.memory), Positive(n.disk) - Positive(m.disk))
  }

  lemma ShiftBetween(totals: Totals, before: Claims, after: Claims, ks: set<ClaimId>, m: MachineType, n: MachineType)
    requires Retyped(before, after, ks, m, n)
    ensures Recomputed(totals, before) == Recomputed(totals, after) <==> ks == {} || SameSize(m, n)
  {
    ShiftExact(totals, before, after, ks, Positive(n.memory) - Positive(m.memory), Positive(n.disk) - Positive(m.disk));
  }

  /**
   Changing a project's machine type is never followed by a recalculation.  The cache of a coherent host survives
   exactly if the host is building no prebuild of the project or the two types have the same memory and disk.
   */
  lemma ProjectChangeExact(s: Db, a: CatalogStep, t: Db, h: Id)
    requires Linked(s) && CatalogNext(s, a, t) && a.SetProjectMachineType?
    requires h in s.hosts && CoherentHost(s, h)
    ensures CoherentHost(t, h) <==>
            || Affected(s, a.project, h) == {}
            || SameSize(s.machineTypes[s.projects[a.project]], s.machineTypes[a.machineType])
  {
    ProjectChangeColumns(s, a, t, h, s.hosts[h].totals);
  }

  lemma ShiftExact(totals: Totals, before: Claims, after: Claims, ks: set<ClaimId>, dm: int, dd: int)
    requires Resized(before, after, ks, dm, dd)
    ensures Recomputed(totals, before) == Recomputed(totals, after) <==> ks == {} || (dm == 0 && dd == 0)
  {
    RecomputedShift(totals, before, after, ks, dm, dd);
    ColumnsShift(Recomputed(totals, before), |ks|, dm, dd);
  }

  lemma ColumnsShift(c: Columns, k: nat, dm: int, dd: int)
    ensures c == c.(memory := c.memory - k * dm, disk := c.disk - k * dd) <==> k == 0 || (dm == 0 && dd == 0)
  {
  }

  lemma TakenSame(before: Claims, after: Claims)
    requires before.Keys == after.Keys && forall c | c in before :: after[c].cores == before[c].cores
    ensures Taken(before) == Taken(after)
  {
  }

  // ---------- steps on hosts ----------

  lemma {:induction false} FreeOfNothing(cpu: nat)
    ensures |Free(cpu, map[])| == cpu
  {
    if cpu == 0 {
      assert Free(0, map[]) == {};
    } else {
      FreeOfNothing(cpu - 1);
      assert Free(cpu, map[]) == Free(cpu - 1, map[]) + {cpu - 1};
    }
  }

  lemma NoClaimsYet(s: Db, h: Id)
    requires Linked(s) && h !in s.hosts
    ensures ClaimsOn(s, h) == map[]
  {
  }

  lemma ResizeStepHost(s: Db, a: HostStep, t: Db, h: Id)
    requires Linked(s) && Coherent(s) && HostNext(s, a, t) && HostComputed(s, a, t)
    requires a.BeginResize? || a.ReadResize? || a.FinishResize?
    requires h in t.hosts && t.hosts[h].live && !Resizing(t, h)
    ensures CoherentHost(t, h)
  {
    ClaimsSame(s, t, h);
    if a.FinishResize? && s.resizes[a.r].host == h {
      assert ReadRight(s, s.resizes[a.r]);
    } else {
      assert forall q | q in s.resizes && (a.FinishResize? ==> q != a.r) :: q in t.resizes && t.resizes[q].host == s.resizes[q].host;
      assert a.BeginResize? ==> t.resizes[a.r].host == a.h;
      HostUntouched(s, t, h);
    }
  }

  lemma HostStepHost(s: Db, a: HostStep, t: Db, h: Id)
    requires Linked(s) && Coherent(s) && HostNext(s, a, t) && HostComputed(s, a, t)
    requires h in t.hosts && t.hosts[h].live && !Resizing(t, h)
    ensures CoherentHost(t, h)
  {
    if a.BeginResize? || a.ReadResize? || a.FinishResize? {
      ResizeStepHost(s, a, t, h);
    } else {
      ClaimsSame(s, t, h);
      if a.CreateHost? && a.h == h {
        NoClaimsYet(s, h);
        FreeOfNothing(a.totals.cpu);
      } else {
        HostUntouched(s, t, h);
      }
    }
  }

  /** The step is no allocation or release on this host. */
  predicate ClaimsKept(s: Db, a: Step, h: Id) {
    match a
    case OnWorkspace(x) => (x.CreateWorkspace? && x.machineType !in s.machineTypes) || WorkspaceChange(s, x, h).Keeps?
    case OnPrebuild(x) =>
      || (x.CreatePrebuild? && (x.project !in s.projects || s.projects[x.project] !in s.machineTypes))
      || PrebuildChange(s, x, h).Keeps?
    case OnCatalog(_) => true
    case OnHost(_) => true
  }

  /**
   Two updates of one host do not overlap, nothing is allocated or released on a host between the two halves of its
   recalculation, and a project keeps the size its running prebuilds were scheduled with.
   */
  ghost predicate Orderly(s: Db, a: Step) {
    && (forall r | r in s.resizes && s.resizes[r].read.Some? :: ClaimsKept(s, a, s.resizes[r].host))
    && (a.OnHost? && a.hs.BeginResize? ==> !Resizing(s, a.hs.h))
    && (a.OnCatalog? && a.cs.SetProjectMachineType? && a.cs.project in s.projects && s.projects[a.cs.project] in s.machineTypes
        && a.cs.machineType in s.machineTypes ==>
          || SameSize(s.machineTypes[s.projects[a.cs.project]], s.machineTypes[a.cs.machineType])
          || forall h | h in s.hosts :: Affected(s, a.cs.project, h) == {})
  }

  lemma CoherentStep(s: Db, a: Step, t: Db)
    requires Safe(s) && Coherent(s) && Next(s, a, t) && Computed(s, a, t) && Orderly(s, a)
    ensures Coherent(t)
  {
    ResizesStep(s, a, t);
    forall h | h in t.hosts && t.hosts[h].live && !Resizing(t, h)
      ensures CoherentHost(t, h)
    {
      match a
      case OnWorkspace(x) => WorkspaceStepHost(s, x, t, h);
      case OnPrebuild(x) => PrebuildStepHost(s, x, t, h);
      case OnHost(x) => HostStepHost(s, x, t, h);
      case OnCatalog(x) => CatalogStepHost(s, x, t, h);
    }
  }

  lemma CatalogStepHost(s: Db, a: CatalogStep, t: Db, h: Id)
    requires Linked(s) && Coherent(s) && CatalogNext(s, a, t) && Orderly(s, OnCatalog(a))
    requires h in t.hosts && t.hosts[h].live && !Resizing(t, h)
    ensures CoherentHost(t, h)
  {
    if a.SetProjectMachineType? {
      assert CoherentHost(s, h);
      ProjectChangeExact(s, a, t, h);
    } else {
      NewRowsClaims(s, t, h);
      HostUntouched(s, t, h);
    }
  }

  /** Updates in flight see the hosts' totals and their own reading unchanged. */
  lemma ResizesKept(s: Db, t: Db)
    requires ResizesRight(s) && t.resizes == s.resizes
    requires forall h | h in s.hosts :: h in t.hosts && t.hosts[h].totals == s.hosts[h].totals
    requires forall r | r in s.resizes :: ReadRight(t, s.resizes[r])
    ensures ResizesRight(t)
  {
  }

  lemma WorkspaceStepResizes(s: Db, a: WorkspaceStep, t: Db)
    requires Linked(s) && ResizesRight(s) && WorkspaceNext(s, a, t) && Orderly(s, OnWorkspace(a))
    ensures ResizesRight(t)
  {
    forall r | r in s.resizes
      ensures ReadRight(t, s.resizes[r])
    {
      ClaimsAfterWorkspaceStep(s, a, t, s.resizes[r].host);
      assert ReadRight(s, s.resizes[r]);
    }
    ResizesKept(s, t);
  }

  lemma PrebuildStepResizes(s: Db, a: PrebuildStep, t: Db)
    requires Linked(s) && DeletionsChecked(s) && ResizesRight(s) && PrebuildNext(s, a, t) && Orderly(s, OnPrebuild(a))
    ensures ResizesRight(t)
  {
    forall r | r in s.resizes
      ensures ReadRight(t, s.resizes[r])
    {
      PrebuildStepRead(s, a, t, s.resizes[r]);
    }
    ResizesKept(s, t);
  }

  lemma PrebuildStepRead(s: Db, a: PrebuildStep, t: Db, x: Resize)
    requires Linked(s) && DeletionsChecked(s) && PrebuildNext(s, a, t) && ReadRight(s, x)
    requires x.read.Some? ==> ClaimsKept(s, OnPrebuild(a), x.host)
    ensures ReadRight(t, x)
  {
    ClaimsAfterPrebuildStep(s, a, t, x.host);
  }

  lemma CatalogStepResizes(s: Db, a: CatalogStep, t: Db)
    requires Linked(s) && ResizesRight(s) && CatalogNext(s, a, t) && Orderly(s, OnCatalog(a))
    ensures ResizesRight(t)
  {
    forall r | r in s.resizes
      ensures ReadRight(t, s.resizes[r])
    {
      var h := s.resizes[r].host;
      assert ReadRight(s, s.resizes[r]);
      if a.SetProjectMachineType? {
        ProjectChangeColumns(s, a, t, h, s.resizes[r].totals);
      } else {
        NewRowsClaims(s, t, h);
      }
    }
    ResizesKept(s, t);
  }

  lemma HostStepReads(s: Db, a: HostStep, t: Db)
    requires ResizesRight(s) && HostNext(s, a, t)
    ensures forall r | r in t.resizes :: ReadRight(t, t.resizes[r])
  {
    forall r | r in t.resizes
      ensures ReadRight(t, t.resizes[r])
    {
      ClaimsSame(s, t, t.resizes[r].host);
      assert r in s.resizes ==> ReadRight(s, s.resizes[r]);
    }
  }

  lemma HostStepResizes(s: Db, a: HostStep, t: Db)
    requires ResizesRight(s) && HostNext(s, a, t) && Orderly(s, OnHost(a))
    ensures ResizesRight(t)
  {
    HostStepReads(s, a, t);
    if a.BeginResize? {
      assert forall r | r in s.resizes :: s.resizes[r].host != a.h;
    }
  }

  lemma ResizesStep(s: Db, a: Step, t: Db)
    requires Safe(s) && ResizesRight(s) && Next(s, a, t) && Orderly(s, a)
    ensures ResizesRight(t)
  {
    match a
    case OnWorkspace(x) => WorkspaceStepResizes(s, x, t);
    case OnPrebuild(x) => PrebuildStepResizes(s, x, t);
    case OnHost(x) => HostStepResizes(s, x, t);
    case OnCatalog(x) => CatalogStepResizes(s, x, t);
  }

  /**
   In every state of every orderly run, the four columns of every live host that is not being updated equal a fresh
   recomputation, although a change of the overcommit factor never triggers one.
   */
  lemma {:induction false} RunIsCoherent(states: seq<Db>, steps: seq<Step>, k: nat)
    requires Run(states, steps) && Safe(states[0]) && Coherent(states[0]) && k < |states|
    requires forall i | 0 <= i < |steps| :: Orderly(states[i], steps[i])
    ensures Coherent(states[k])
  {
    if k > 0 {
      RunIsCoherent(states, steps, k - 1);
      RunIsSafe(states, steps, k - 1);
      CoherentStep(states[k - 1], steps[k - 1], states[k]);
    }
  }

  /** In every orderly run from an empty installation: safe, and every cache right. */
  lemma CacheFromTheBeginning(overcommit: nat, states: seq<Db>, steps: seq<Step>, k: nat)
    requires Run(states, steps) && states[0] == Empty(overcommit) && overcommit >= 1 && k < |states|
    requires forall i | 0 <= i < |steps| :: Orderly(states[i], steps[i])
    ensures Safe(states[k]) && Coherent(states[k])
  {
    EmptyIsSafe(overcommit);
    EmptyIsCoherent(overcommit);
    RunIsSafe(states, steps, k);
    RunIsCoherent(states, steps, k);
  }

  // ---------- capacity ----------

  /** What the claims of a host take of memory and disk fits into it. */
  ghost predicate HasCapacity(s: Db, h: Id) {
    h in s.hosts && Within(s.hosts[h].totals, ClaimsOn(s, h))
  }

  /** No claim holds a core the host does not have (shrinking a host can bring that about). */
  ghost predicate CoresExist(s: Db, h: Id) {
    h in s.hosts && CoresBelow(s.hosts[h].totals, ClaimsOn(s, h))
  }

  /** For a coherent host, having capacity is the same as showing no negative column. */
  lemma CapacityIsNonNegative(s: Db, h: Id)
    requires h in s.hosts && CoherentHost(s, h)
    ensures var c := s.hosts[h].available;
            HasCapacity(s, h) <==> NonNegative(c)
  {
  }

  /** Claimed plus available is the total, for cores, memory and disk. */
  lemma Conservation(s: Db, h: Id)
    requires Safe(s) && CoresExist(s, h) && CoherentHost(s, h)
    ensures var c, claims, totals := s.hosts[h].available, ClaimsOn(s, h), s.hosts[h].totals;
            && Sum(CoreCounts(claims)) + c.dedicatedCpu == totals.cpu
            && Sum(Memories(claims)) + c.memory == totals.memory
            && Sum(Disks(claims)) + c.disk == totals.disk
            && c.sharedCpu == c.dedicatedCpu
  {
    var claims, cpu := ClaimsOn(s, h), s.hosts[h].totals.cpu;
    TakenCount(claims);
    FreeOfNothing(cpu);
    assert Free(cpu, map[]) == Free(cpu, claims) + Taken(claims);
    DisjointUnionCount(Free(cpu, claims), Taken(claims));
  }

  /** Every step that is not part of a host's update and no change of a project's machine type. */
  predicate Routine(a: Step) {
    && !(a.OnHost? && (a.hs.BeginResize? || a.hs.ReadResize? || a.hs.FinishResize?))
    && !(a.OnCatalog? && a.cs.SetProjectMachineType?)
  }

  /** Capacity of a host as a statement about its totals and claims alone. */
  ghost predicate Within(totals: Totals, claims: Claims) {
    Sum(Memories(claims)) <= totals.memory && Sum(Disks(claims)) <= totals.disk
  }

  ghost predicate CoresBelow(totals: Totals, claims: Claims) {
    forall i | i in Taken(claims) :: i < totals.cpu
  }

  ghost predicate Room(totals: Totals, claims: Claims, claim: Claim) {
    && Sum(Memories(claims)) + Positive(claim.memory) <= totals.memory
    && Sum(Disks(claims)) + Positive(claim.disk) <= totals.disk
    && forall i | i in CoreSet(claim.cores) :: i < totals.cpu
  }

  lemma WithinChange(totals: Totals, before: Claims, after: Claims, change: Change)
    requires Within(totals, before) && Changes(before, after, change)
    requires change.Adds? ==> Room(totals, before, change.claim)
    ensures Within(totals, after) && (CoresBelow(totals, before) ==> CoresBelow(totals, after))
  {
    match change
    case Adds(c, claim) => MeasuresInsert(before, c, claim);
    case Drops(c) =>
      MeasuresInsert(after, c, before[c]);
      assert after[c := before[c]] == before;
    case Keeps =>
  }

  lemma PickHasRoom(s: Db, m: MachineType, licensed: bool, region: string, prebuildHost: Option<Id>, replicas: seq<Id>,
                    pick: Pick)
    requires Coherent(s) && s.resizes == map[] && pick.Picked?
    requires PickSpec(s.hosts, AllClaims(s), RequestFor(m, licensed, region), prebuildHost, replicas, pick)
    requires HasCapacity(s, pick.host)
    ensures Room(s.hosts[pick.host].totals, ClaimsOn(s, pick.host), Claim(pick.cores, m.memory, m.disk))
  {
  }

  lemma CapacityWorkspaceStep(s: Db, a: WorkspaceStep, t: Db, h: Id)
    requires Safe(s) && Coherent(s) && s.resizes == map[] && HasCapacity(s, h)
    requires WorkspaceNext(s, a, t) && WorkspaceComputed(s, a, t)
    ensures HasCapacity(t, h) && (CoresExist(s, h) ==> CoresExist(t, h))
  {
    if a.CreateWorkspace? && a.pick.Picked? && a.pick.host == h {
      PickHasRoom(s, s.machineTypes[a.machineType], a.licensed, a.region, a.prebuildHost, a.replicas, a.pick);
    }
    ClaimsAfterWorkspaceStep(s, a, t, h);
    WithinChange(s.hosts[h].totals, ClaimsOn(s, h), ClaimsOn(t, h), WorkspaceChange(s, a, h));
  }

  lemma CapacityPrebuildStep(s: Db, a: PrebuildStep, t: Db, h: Id)
    requires Safe(s) && Coherent(s) && s.resizes == map[] && HasCapacity(s, h)
    requires PrebuildNext(s, a, t) && PrebuildComputed(s, a, t)
    ensures HasCapacity(t, h) && (CoresExist(s, h) ==> CoresExist(t, h))
  {
    if a.CreatePrebuild? && a.pick.Picked? && a.pick.host == h {
      PickHasRoom(s, s.machineTypes[s.projects[a.project]], a.licensed, a.region, None, [], a.pick);
    }
    ClaimsAfterPrebuildStep(s, a, t, h);
    WithinChange(s.hosts[h].totals, ClaimsOn(s, h), ClaimsOn(t, h), PrebuildChange(s, a, h));
  }

  lemma CapacityStep(s: Db, a: Step, t: Db, h: Id)
    requires Safe(s) && Coherent(s) && s.resizes == map[] && HasCapacity(s, h)
    requires Next(s, a, t) && Computed(s, a, t) && Routine(a)
    ensures HasCapacity(t, h) && (CoresExist(s, h) ==> CoresExist(t, h)) && t.resizes == map[]
  {
    match a
    case OnWorkspace(x) => CapacityWorkspaceStep(s, x, t, h);
    case OnPrebuild(x) => CapacityPrebuildStep(s, x, t, h);
    case OnCatalog(x) => NewRowsClaims(s, t, h);
    case OnHost(x) => CapacityHostStep(s, x, t, h);
  }

  lemma CapacityHostStep(s: Db, a: HostStep, t: Db, h: Id)
    requires s.resizes == map[] && HasCapacity(s, h) && HostNext(s, a, t) && Routine(OnHost(a))
    ensures HasCapacity(t, h) && (CoresExist(s, h) ==> CoresExist(t, h)) && t.resizes == map[]
  {
    ClaimsSame(s, t, h);
  }

  /** `cores`: the claims on the host are on cores it has. */
  ghost predicate Roomy(s: Db, h: Id, cores: bool) {
    Safe(s) && Coherent(s) && s.resizes == map[] && HasCapacity(s, h) && (cores ==> CoresExist(s, h))
  }

  lemma RoutineStep(s: Db, a: Step, t: Db, h: Id, cores: bool)
    requires Roomy(s, h, cores) && Takes(s, a, t) && Routine(a)
    ensures Roomy(t, h, cores)
  {
    SafeStep(s, a, t);
    assert Orderly(s, a);
    CoherentStep(s, a, t);
    CapacityStep(s, a, t, h);
  }

  /**
   No run of allocations and releases overcommits a host: if it has the capacity for its claims, it keeps it, and
   if its claims are on cores it has, they stay so.
   */
  lemma {:induction false} RunKeepsCapacity(states: seq<Db>, steps: seq<Step>, k: nat, h: Id, cores: bool)
    requires Run(states, steps) && k < |states| && forall i | 0 <= i < |steps| :: Routine(steps[i])
    requires Roomy(states[0], h, cores)
    ensures Roomy(states[k], h, cores)
  {
    if k > 0 {
      RunKeepsCapacity(states, steps, k - 1, h, cores);
      RoutineStep(states[k - 1], steps[k - 1], states[k], h, cores);
    }
  }

  predicate NonNegative(c: Columns) {
    0 <= c.sharedCpu && 0 <= c.dedicatedCpu && 0 <= c.memory && 0 <= c.disk
  }

  /**
   The same in terms of the columns: if a live host shows no negative availability at the start of such a run, it
   never does while it lives.
   */
  lemma RunNeverOvercommits(states: seq<Db>, steps: seq<Step>, k: nat, h: Id)
    requires Run(states, steps) && k < |states| && forall i | 0 <= i < |steps| :: Routine(steps[i])
    requires Safe(states[0]) && Coherent(states[0]) && states[0].resizes == map[]
    requires Locked(states[0], h) && NonNegative(states[0].hosts[h].available)
    ensures Locked(states[k], h) ==> NonNegative(states[k].hosts[h].available)
  {
    assert CoherentHost(states[0], h);
    CapacityIsNonNegative(states[0], h);
    RunKeepsCapacity(states, steps, k, h, false);
    if Locked(states[k], h) {
      assert CoherentHost(states[k], h);
      CapacityIsNonNegative(states[k], h);
    }
  }

  // ---------- the scheduler in a reachable state ----------

  lemma HostsAreCoherent(s: Db)
    requires Coherent(s) && s.resizes == map[]
    ensures CoherentHosts(s.hosts, AllClaims(s))
  {
    assert forall h | h in s.hosts && s.hosts[h].live :: CoherentHost(s, h);
  }

  /** The host is up, in the region, and has the cores, memory and disk for a machine type. */
  ghost predicate HasRoomFor(s: Db, h: Id, m: MachineType, region: string) {
    && h in s.hosts && s.hosts[h].live && s.hosts[h].status == Active && s.hosts[h].region == region
    && m.cpu <= |Free(s.hosts[h].totals.cpu, ClaimsOn(s, h))|
    && Sum(Memories(ClaimsOn(s, h))) + m.memory <= s.hosts[h].totals.memory
    && Sum(Disks(ClaimsOn(s, h))) + m.disk <= s.hosts[h].totals.disk
  }

  lemma PickExactly(s: Db, m: MachineType, licensed: bool, region: string, prebuildHost: Option<Id>, replicas: seq<Id>, pick: Pick)
    requires Coherent(s) && s.resizes == map[]
    requires PickSpec(s.hosts, AllClaims(s), RequestFor(m, licensed, region), prebuildHost, replicas, pick)
    ensures pick != CannotAllocate
    ensures pick == NoHost <==> forall h :: !HasRoomFor(s, h, m, region)
    ensures pick.Picked? ==> HasRoomFor(s, pick.host, m, region)
  {
    HostsAreCoherent(s);
    PickCompleteAndOptimal(s.hosts, AllClaims(s), RequestFor(m, licensed, region), prebuildHost, replicas, pick);
    forall h
      ensures HasRoomFor(s, h, m, region) <==> Feasible(s.hosts, AllClaims(s), RequestFor(m, licensed, region), h)
    {
    }
    if pick.Picked? {
      PickIsFeasible(s.hosts, AllClaims(s), RequestFor(m, licensed, region), prebuildHost, replicas, pick);
    }
  }

  lemma NoRoomInWords(s: Db, m: MachineType, region: string)
    ensures (forall h :: !HasRoomFor(s, h, m, region)) <==>
            forall h | h in s.hosts && s.hosts[h].live && s.hosts[h].status == Active && s.hosts[h].region == region ::
              || m.cpu > |Free(s.hosts[h].totals.cpu, ClaimsOn(s, h))|
              || Sum(Memories(ClaimsOn(s, h))) + m.memory > s.hosts[h].totals.memory
              || Sum(Disks(ClaimsOn(s, h))) + m.disk > s.hosts[h].totals.disk
  {
    forall h | h in s.hosts && s.hosts[h].live && s.hosts[h].status == Active && s.hosts[h].region == region
      ensures HasRoomFor(s, h, m, region) <==>
              && m.cpu <= |Free(s.hosts[h].totals.cpu, ClaimsOn(s, h))|
              && Sum(Memories(ClaimsOn(s, h))) + m.memory <= s.hosts[h].totals.memory
              && Sum(Disks(ClaimsOn(s, h))) + m.disk <= s.hosts[h].totals.disk
    {
    }
  }

  /**
   In a coherent state without host updates in flight, creating a workspace is refused exactly when no live active host
   of the region has the cores, memory and disk, and otherwise goes to one that has.
   */
  lemma CreateFailsIffNoRoom(s: Db, a: WorkspaceStep, t: Db)
    requires Coherent(s) && s.resizes == map[] && a.CreateWorkspace?
    requires WorkspaceNext(s, a, t) && WorkspaceComputed(s, a, t)
    ensures a.pick != CannotAllocate
    ensures var m := s.machineTypes[a.machineType];
            a.pick == NoHost <==>
            forall h | h in s.hosts && s.hosts[h].live && s.hosts[h].status == Active && s.hosts[h].region == a.region ::
              || m.cpu > |Free(s.hosts[h].totals.cpu, ClaimsOn(s, h))|
              || Sum(Memories(ClaimsOn(s, h))) + m.memory > s.hosts[h].totals.memory
              || Sum(Disks(ClaimsOn(s, h))) + m.disk > s.hosts[h].totals.disk
    ensures a.pick.Picked? ==>
              var m, h := s.machineTypes[a.machineType], a.pick.host;
              && h in s.hosts && s.hosts[h].live && s.hosts[h].status == Active && s.hosts[h].region == a.region
              && m.cpu <= |Free(s.hosts[h].totals.cpu, ClaimsOn(s, h))|
              && Sum(Memories(ClaimsOn(s, h))) + m.memory <= s.hosts[h].totals.memory
              && Sum(Disks(ClaimsOn(s, h))) + m.disk <= s.hosts[h].totals.disk
  {
    var m := s.machineTypes[a.machineType];
    PickExactly(s, m, a.licensed, a.region, a.prebuildHost, a.replicas, a.pick);
    NoRoomInWords(s, m, a.region);
  }

  /** The same for a prebuild of a project. */
  lemma PrebuildFailsIffNoRoom(s: Db, a: PrebuildStep, t: Db)
    requires Coherent(s) && s.resizes == map[] && a.CreatePrebuild?
    requires PrebuildNext(s, a, t) && PrebuildComputed(s, a, t)
    ensures a.pick != CannotAllocate
    ensures var m := s.machineTypes[s.projects[a.project]];
            a.pick == NoHost <==>
            forall h | h in s.hosts && s.hosts[h].live && s.hosts[h].status == Active && s.hosts[h].region == a.region ::
              || m.cpu > |Free(s.hosts[h].totals.cpu, ClaimsOn(s, h))|
              || Sum(Memories(ClaimsOn(s, h))) + m.memory > s.hosts[h].totals.memory
              || Sum(Disks(ClaimsOn(s, h))) + m.disk > s.hosts[h].totals.disk
    ensures a.pick.Picked? ==>
              var m, h := s.machineTypes[s.projects[a.project]], a.pick.host;
              && h in s.hosts && s.hosts[h].live && s.hosts[h].status == Active && s.hosts[h].region == a.region
              && m.cpu <= |Free(s.hosts[h].totals.cpu, ClaimsOn(s, h))|
              && Sum(Memories(ClaimsOn(s, h))) + m.memory <= s.hosts[h].totals.memory
              && Sum(Disks(ClaimsOn(s, h))) + m.disk <= s.hosts[h].totals.disk
  {
    var m := s.machineTypes[s.projects[a.project]];
    PickExactly(s, m, a.licensed, a.region, None, [], a.pick);
    NoRoomInWords(s, m, a.region);
  }

  /**
   And it goes to the best one: no host with room is passed over that is the prebuild's own, is a replica when none is taken, or
   has, in the same tier, more free cores, or as many and more memory, or as much of both and more disk.
   */
  lemma CreatePicksTheBest(s: Db, a: WorkspaceStep, t: Db, g: Id)
    requires Coherent(s) && s.resizes == map[] && a.CreateWorkspace? && a.pick.Picked?
    requires WorkspaceNext(s, a, t) && WorkspaceComputed(s, a, t)
    requires g in s.hosts && s.hosts[g].live && s.hosts[g].status == Active && s.hosts[g].region == a.region
    requires s.machineTypes[a.machineType].cpu <= |Free(s.hosts[g].totals.cpu, ClaimsOn(s, g))|
    requires Sum(Memories(ClaimsOn(s, g))) + s.machineTypes[a.machineType].memory <= s.hosts[g].totals.memory
    requires Sum(Disks(ClaimsOn(s, g))) + s.machineTypes[a.machineType].disk <= s.hosts[g].totals.disk
    ensures a.pick.host in s.hosts
    ensures a.prebuildHost == Some(g) ==> a.pick.host == g
    ensures a.prebuildHost != Some(a.pick.host) && g in a.replicas ==> a.pick.host in a.replicas
    ensures a.prebuildHost != Some(a.pick.host) && (g in a.replicas <==> a.pick.host in a.replicas) ==>
              var h := a.pick.host;
              var cores := |Free(s.hosts[g].totals.cpu, ClaimsOn(s, g))| - |Free(s.hosts[h].totals.cpu, ClaimsOn(s, h))|;
              var memory := (s.hosts[g].totals.memory - Sum(Memories(ClaimsOn(s, g)))) -
                            (s.hosts[h].totals.memory - Sum(Memories(ClaimsOn(s, h))));
              var disk := (s.hosts[g].totals.disk - Sum(Disks(ClaimsOn(s, g)))) -
                          (s.hosts[h].totals.disk - Sum(Disks(ClaimsOn(s, h))));
              cores <= 0 && (cores == 0 ==> memory <= 0) && (cores == 0 && memory == 0 ==> disk <= 0)
  {
    assert HasRoomFor(s, g, s.machineTypes[a.machineType], a.region);
    PickIsBest(s, s.machineTypes[a.machineType], a.licensed, a.region, a.prebuildHost, a.replicas, a.pick, g);
  }

  lemma PickIsBest(s: Db, m: MachineType, licensed: bool, region: string, prebuildHost: Option<Id>, replicas: seq<Id>, pick: Pick, g: Id)
    requires Coherent(s) && s.resizes == map[] && pick.Picked? && HasRoomFor(s, g, m, region)
    requires PickSpec(s.hosts, AllClaims(s), RequestFor(m, licensed, region), prebuildHost, replicas, pick)
    ensures pick.host in s.hosts
    ensures prebuildHost == Some(g) ==> pick.host == g
    ensures prebuildHost != Some(pick.host) && g in replicas ==> pick.host in replicas
    ensures prebuildHost != Some(pick.host) && (g in replicas <==> pick.host in replicas) ==>
              !Roomier(s.hosts[g].totals, ClaimsOn(s, g), s.hosts[pick.host].totals, ClaimsOn(s, pick.host))
  {
    HostsAreCoherent(s);
    NothingBetter(s.hosts, AllClaims(s), RequestFor(m, licensed, region), prebuildHost, replicas, pick, g);
  }
}
