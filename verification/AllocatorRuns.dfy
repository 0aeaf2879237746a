/**
 Runs from an empty installation that leave a wrong cache behind: a project's change of machine type during a prebuild, and
 a workspace that is created while an update of its host is between reading and writing.
 */
module AllocatorRuns {
  import opened Common
  import opened Scheduler
  import opened Allocator
  import opened AllocatorSafety
  import opened AllocatorCache
  import opened HostUpdates
  import Runs

  ghost predicate Reachable(s: Db) {
    Runs.Reachable(Takes, Empty(4), s)
  }

  lemma ReachableStart()
    ensures Reachable(Empty(4))
  {
    Runs.Starts(Takes, Empty(4));
  }

  lemma Reaches(s: Db, a: Step, t: Db)
    requires Reachable(s) && Takes(s, a, t)
    ensures Reachable(t)
  {
    Runs.Reaches(Takes, Empty(4), s, a, t);
  }

  lemma ReachableIsSafe(s: Db)
    requires Reachable(s)
    ensures Safe(s)
  {
    var states, steps :| Runs.Leads(Takes, Empty(4), s, states, steps);
    assert Run(states, steps);
    EmptyIsSafe(4);
    RunIsSafe(states, steps, |steps|);
  }

  // ---------- one host with one core ----------

  const SMALL: MachineType := MachineType(false, 1, 1, 1)
  const LARGE: MachineType := MachineType(false, 1, 2, 1)
  const SIZE: Totals := Totals(1, 8, 8)
  const UNUSED: Columns := Columns(1, 1, 8, 8)
  const USED: Columns := Columns(0, 0, 7, 7)

  function HostRow(status: HostStatus, available: Columns): map<Id, Host> {
    map[0 := Host(true, status, "", SIZE, available)]
  }

  function Types(): map<Id, MachineType> {
    map[0 := SMALL, 1 := LARGE]
  }

  /** The tables of an installation with one host, one project and no prebuild. */
  function Site(hosts: map<Id, Host>, workspaces: map<Id, Workspace>, resizes: map<Id, Resize>): Db {
    Db(hosts, workspaces, map[], map[0 := 0], Types(), map[], 4, {}, resizes, map[])
  }

  lemma Catalogued()
    ensures Reachable(Site(map[], map[], map[]))
  {
    var s1 := Empty(4).(machineTypes := map[0 := SMALL]);
    var s2 := Empty(4).(machineTypes := Types());
    ReachableStart();
    Reaches(Empty(4), OnCatalog(CreateMachineType(0, SMALL)), s1);
    assert map[0 := SMALL][1 := LARGE] == Types();
    Reaches(s1, OnCatalog(CreateMachineType(1, LARGE)), s2);
    Reaches(s2, OnCatalog(CreateProject(0, 0)), Site(map[], map[], map[]));
  }

  lemma Equipped()
    ensures Reachable(Site(HostRow(Active, UNUSED), map[], map[]))
  {
    Catalogued();
    Reaches(Site(map[], map[], map[]), OnHost(CreateHost(0, "", SIZE)), Site(HostRow(New, UNUSED), map[], map[]));
    Reaches(Site(HostRow(New, UNUSED), map[], map[]), OnHost(SetHostStatus(0, Active)), Site(HostRow(Active, UNUSED), map[], map[]));
  }

  lemma NoClaims(s: Db)
    requires s.workspaces == map[] && s.prebuilds == map[]
    ensures ClaimsOn(s, 0) == map[]
  {
  }

  lemma FreeCore()
    ensures Free(1, map[]) == {0}
  {
    assert Taken(map[]) == {};
  }

  /** The only core, a unit of memory and a unit of disk. */
  function OneClaim(c: ClaimId): Claims {
    map[c := Claim(Dedicated([0]), 1, 1)]
  }

  lemma OneFootprint(totals: Totals, claim: Claim)
    requires totals.cpu == 1 && claim == Claim(Dedicated([0]), 1, 1)
    ensures Footprint(totals, claim) == Columns(1, 1, 1, 1)
  {
    assert Below(totals.cpu, CoreSet(claim.cores)) == {0};
  }

  lemma UsedColumns(totals: Totals, c: ClaimId, claim: Claim, claims: Claims)
    requires totals == SIZE && claim == Claim(Dedicated([0]), 1, 1) && claims == map[c := claim]
    ensures Recomputed(totals, claims) == USED
  {
    ColumnsOfOneClaim(totals, c, claim);
    OneFootprint(totals, claim);
  }

  lemma OnlyHost(hosts: map<Id, Host>, request: Request)
    requires hosts == HostRow(Active, UNUSED) && request == Request(false, 1, 1, 1, "")
    ensures Decided(hosts, request, None, [], Some(0))
  {
    assert hosts[0].available == UNUSED;
    assert EligibleIds(hosts, request) == {0};
    assert Among({0}, []) == {};
    assert IsBest(hosts, {0}, false, 0);
  }

  /** The scheduler can only pick the one host and its one core. */
  lemma OnlyPick(s: Db)
    requires s.hosts == HostRow(Active, UNUSED) && s.workspaces == map[] && s.prebuilds == map[]
    ensures PickSpec(s.hosts, AllClaims(s), RequestFor(SMALL, false, ""), None, [], Picked(0, Dedicated([0])))
  {
    NoClaims(s);
    FreeCore();
    OnlyHost(s.hosts, RequestFor(SMALL, false, ""));
    assert CoreSet(Dedicated([0])) == {0};
    assert Allocation(Dedicated([0]), 1, {0});
  }

  // ---------- a project's change of machine type ----------

  function Building0(available: Columns, machineType: Id): Db {
    Db(HostRow(Active, available), map[], map[0 := Prebuild(0, true, 0, Building, Dedicated([0]), false, 0)], map[0 := machineType],
       Types(), map[0 := true], 4, {0}, map[], map[])
  }

  lemma PrebuildClaim()
    ensures ClaimsOn(Building0(USED, 0), 0) == OneClaim(OfPrebuild(0))
  {
    var s := Building0(USED, 0);
    forall c
      ensures c in ClaimsOn(s, 0) <==> c == OfPrebuild(0)
    {
      ClaimAt(s, 0, c);
    }
    ClaimAt(s, 0, OfPrebuild(0));
  }

  lemma PrebuildWrites(s: Db, a: PrebuildStep, t: Db)
    requires s == Site(HostRow(Active, UNUSED), map[], map[]) && t == Building0(USED, 0)
    requires a == CreatePrebuild(0, 0, 0, false, "", Picked(0, Dedicated([0])), USED)
    ensures PrebuildNext(s, a, t)
  {
    assert WritesColumns(s, t, 0, USED);
  }

  lemma PrebuildCreated(s: Db, a: PrebuildStep, t: Db)
    requires a == CreatePrebuild(0, 0, 0, false, "", Picked(0, Dedicated([0])), USED) && PrebuildNext(s, a, t)
    requires s.hosts == HostRow(Active, UNUSED) && s.workspaces == map[] && s.prebuilds == map[]
    requires s.machineTypes == Types() && s.projects == map[0 := 0] && ClaimsOn(t, 0) == OneClaim(OfPrebuild(0))
    ensures Takes(s, OnPrebuild(a), t)
  {
    OnlyPick(s);
    UsedColumns(s.hosts[0].totals, OfPrebuild(0), Claim(Dedicated([0]), 1, 1), ClaimsOn(t, 0));
  }

  lemma PrebuildStarts()
    ensures Reachable(Building0(USED, 0)) && CoherentHost(Building0(USED, 0), 0)
  {
    var s, t := Site(HostRow(Active, UNUSED), map[], map[]), Building0(USED, 0);
    var a := CreatePrebuild(0, 0, 0, false, "", Picked(0, Dedicated([0])), USED);
    Equipped();
    PrebuildClaim();
    PrebuildWrites(s, a, t);
    PrebuildCreated(s, a, t);
    Reaches(s, OnPrebuild(a), t);
    UsedColumns(t.hosts[0].totals, OfPrebuild(0), Claim(Dedicated([0]), 1, 1), ClaimsOn(t, 0));
  }

  /** By the exact condition: the prebuild is there, and the sizes differ. */
  lemma SpoiledByProject(s: Db, a: CatalogStep, t: Db)
    requires Linked(s) && CatalogNext(s, a, t) && a == SetProjectMachineType(0, 1) && 0 in s.hosts && CoherentHost(s, 0)
    requires OfPrebuild(0) in ClaimsOn(s, 0) && 0 in s.prebuilds && s.prebuilds[0].project == 0
    requires s.machineTypes == Types() && s.projects == map[0 := 0]
    ensures 0 in t.hosts && !CoherentHost(t, 0)
  {
    assert OfPrebuild(0) in Affected(s, 0, 0);
    ProjectChangeExact(s, a, t, 0);
  }

  /** Reachable: a project gets a larger machine type during a prebuild, and the cache of the host is wrong. */
  lemma ProjectChangeSpoilsTheCache()
    ensures var s := Building0(USED, 1);
            Reachable(s) && Locked(s, 0) && s.resizes == map[] && !CoherentHost(s, 0)
  {
    PrebuildStarts();
    var s, a := Building0(USED, 0), SetProjectMachineType(0, 1);
    Reaches(s, OnCatalog(a), Building0(USED, 1));
    ReachableIsSafe(s);
    PrebuildClaim();
    SpoiledByProject(s, a, Building0(USED, 1));
  }

  // ---------- a workspace during an update ----------

  function Update(read: Option<Claims>): map<Id, Resize> {
    map[0 := Resize(0, SIZE, read)]
  }

  function Placed(): map<Id, Workspace> {
    map[0 := Workspace(0, true, None, Dedicated([0]), 0)]
  }

  lemma UpdateHasRead()
    ensures Reachable(Site(HostRow(Active, UNUSED), map[], Update(Some(map[]))))
  {
    Equipped();
    var s0, s1 := Site(HostRow(Active, UNUSED), map[], map[]), Site(HostRow(Active, UNUSED), map[], Update(None));
    Reaches(s0, OnHost(BeginResize(0, 0, "", SIZE)), s1);
    NoClaims(s1);
    Reaches(s1, OnHost(ReadResize(0)), Site(HostRow(Active, UNUSED), map[], Update(Some(map[]))));
  }

  lemma WorkspaceClaim(s: Db)
    requires s == Site(HostRow(Active, USED), Placed(), Update(Some(map[])))
    ensures ClaimsOn(s, 0) == OneClaim(OfWorkspace(0))
  {
    forall c
      ensures c in ClaimsOn(s, 0) <==> c == OfWorkspace(0)
    {
      ClaimAt(s, 0, c);
    }
    ClaimAt(s, 0, OfWorkspace(0));
  }

  /** The creation that comes in between. */
  function Creation(): Step {
    OnWorkspace(CreateWorkspace(0, 0, false, "", None, [], Picked(0, Dedicated([0])), USED))
  }

  lemma WorkspacePlaced()
    ensures Takes(Site(HostRow(Active, UNUSED), map[], Update(Some(map[]))), Creation(),
                  Site(HostRow(Active, USED), Placed(), Update(Some(map[]))))
  {
    var s, t := Site(HostRow(Active, UNUSED), map[], Update(Some(map[]))), Site(HostRow(Active, USED), Placed(), Update(Some(map[])));
    OnlyPick(s);
    WorkspaceClaim(t);
    UsedColumns(SIZE, OfWorkspace(0), Claim(Dedicated([0]), 1, 1), OneClaim(OfWorkspace(0)));
    assert WorkspaceNext(s, Creation().ws, t) && WorkspaceComputed(s, Creation().ws, t);
  }

  lemma ReadIsRight()
    ensures ResizesRight(Site(HostRow(Active, UNUSED), map[], Update(Some(map[]))))
  {
    NoClaims(Site(HostRow(Active, UNUSED), map[], Update(Some(map[]))));
  }

  lemma CreationDisturbs(s: Db)
    requires s.machineTypes == Types()
    ensures Disturbs(s, Creation(), 0, SIZE)
  {
    assert 0 in CoreSet(Dedicated([0]));
  }

  lemma UpdateWrites(m: Db, f: HostStep, t: Db)
    requires m == Site(HostRow(Active, USED), Placed(), Update(Some(map[]))) && t == Site(HostRow(Active, UNUSED), Placed(), map[])
    requires f == FinishResize(0, UNUSED)
    ensures HostNext(m, f, t)
  {
    assert WritesColumns(m, t, 0, UNUSED);
    assert m.resizes - {0} == map[];
  }

  /** An update that found no claims writes its totals. */
  lemma UpdateFinishes(m: Db, f: HostStep, t: Db, x: Resize)
    requires f.FinishResize? && f.r in m.resizes && m.resizes[f.r] == x && x.read == Some(map[]) && HostNext(m, f, t)
    requires f.columns == Columns(x.totals.cpu, x.totals.cpu, x.totals.memory, x.totals.disk)
    ensures HostComputed(m, f, t) && Takes(m, OnHost(f), t)
  {
    ColumnsOfNothing(x.totals);
  }

  /** By the exact condition: the creation took something that the host has. */
  lemma SpoiledByCreation(s: Db, m: Db, f: HostStep, t: Db)
    requires Safe(s) && ResizesRight(s) && s.resizes == Update(Some(map[])) && s.machineTypes == Types()
    requires Takes(s, Creation(), m) && f.FinishResize? && f.r == 0 && HostNext(m, f, t) && HostComputed(m, f, t)
    ensures 0 in t.hosts && !CoherentHost(t, 0)
  {
    CreationDisturbs(s);
    FinishResizeExact(s, Creation(), m, f, t);
  }

  /** Reachable: the update writes what it read, and what the new workspace took shows as available. */
  lemma AllocationDuringUpdateSpoilsTheCache()
    ensures var t := Site(HostRow(Active, UNUSED), Placed(), map[]);
            Reachable(t) && Locked(t, 0) && t.resizes == map[] && !CoherentHost(t, 0)
  {
    var s := Site(HostRow(Active, UNUSED), map[], Update(Some(map[])));
    var m, t := Site(HostRow(Active, USED), Placed(), Update(Some(map[]))), Site(HostRow(Active, UNUSED), Placed(), map[]);
    var f := FinishResize(0, UNUSED);
    UpdateHasRead();
    ReachableIsSafe(s);
    ReadIsRight();
    WorkspacePlaced();
    Reaches(s, Creation(), m);
    UpdateWrites(m, f, t);
    UpdateFinishes(m, f, t, m.resizes[0]);
    Reaches(m, OnHost(f), t);
    SpoiledByCreation(s, m, f, t);
  }
}
