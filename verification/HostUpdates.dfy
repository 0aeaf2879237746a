/**
 Updates of a host by an administrator.  An update writes the new totals, reads the claims and writes the columns, in three
 statements without a lock on the row: exactly which steps in between leave a wrong cache behind, and runs that do.
 */
module HostUpdates {
  import opened Common
  import opened Scheduler
  import opened Allocator
  import opened AllocatorSafety
  import opened AllocatorCache

  // ---------- what one claim is worth ----------

  /** The cores of a set that a host of this size has. */
  function Below(cpu: nat, cores: set<nat>): set<nat> {
    set i | i in cores && i < cpu
  }

  /** What a claim takes from the columns. */
  function Footprint(totals: Totals, claim: Claim): Columns {
    var n := |Below(totals.cpu, CoreSet(claim.cores))|;
    Columns(n, n, Positive(claim.memory), Positive(claim.disk))
  }

  function Plus(a: Columns, b: Columns): Columns {
    Columns(a.sharedCpu + b.sharedCpu, a.dedicatedCpu + b.dedicatedCpu, a.memory + b.memory, a.disk + b.disk)
  }

  /** Memory, disk, or a core that the host has. */
  predicate Touches(totals: Totals, claim: Claim) {
    claim.memory > 0 || claim.disk > 0 || exists i | i in CoreSet(claim.cores) :: i < totals.cpu
  }

  lemma TouchesFootprint(totals: Totals, claim: Claim, c: Columns)
    ensures Plus(c, Footprint(totals, claim)) == c <==> !Touches(totals, claim)
  {
    var below := Below(totals.cpu, CoreSet(claim.cores));
    if i :| i in CoreSet(claim.cores) && i < totals.cpu {
      assert i in below;
    } else {
      assert below == {};
    }
  }

  lemma FreeShrinks(cpu: nat, before: Claims, c: ClaimId, claim: Claim)
    requires c !in before && CoreSet(claim.cores) !! Taken(before)
    ensures |Free(cpu, before)| == |Free(cpu, before[c := claim])| + |Below(cpu, CoreSet(claim.cores))|
  {
    MeasuresInsert(before, c, claim);
    var after := before[c := claim];
    assert Free(cpu, before) == Free(cpu, after) + Below(cpu, CoreSet(claim.cores));
    DisjointUnionCount(Free(cpu, after), Below(cpu, CoreSet(claim.cores)));
  }

  lemma FootprintIsTheDifference(totals: Totals, before: Claims, c: ClaimId, claim: Claim)
    requires c !in before && CoreSet(claim.cores) !! Taken(before)
    ensures Recomputed(totals, before) == Plus(Recomputed(totals, before[c := claim]), Footprint(totals, claim))
  {
    MeasuresInsert(before, c, claim);
    FreeShrinks(totals.cpu, before, c, claim);
  }

  /** The claim that a change adds or drops touches the host. */
  ghost predicate ChangeTouches(totals: Totals, before: Claims, change: Change) {
    match change
    case Adds(_, claim) => Touches(totals, claim)
    case Drops(c) => c in before && Touches(totals, before[c])
    case Keeps => false
  }

  lemma ApartFromTheRest(claims: Claims, c: ClaimId)
    requires Disjoint(claims) && c in claims
    ensures CoreSet(claims[c].cores) !! Taken(claims - {c}) && (claims - {c})[c := claims[c]] == claims
  {
  }

  /** One change of the claims shows in the columns exactly if its claim touches the host. */
  lemma ChangeShowsExactly(totals: Totals, before: Claims, after: Claims, change: Change)
    requires Disjoint(before) && Disjoint(after) && Changes(before, after, change)
    ensures Recomputed(totals, before) == Recomputed(totals, after) <==> !ChangeTouches(totals, before, change)
  {
    match change
    case Adds(c, claim) =>
      assert after - {c} == before;
      ApartFromTheRest(after, c);
      FootprintIsTheDifference(totals, before, c, claim);
      TouchesFootprint(totals, claim, Recomputed(totals, after));
    case Drops(c) =>
      ApartFromTheRest(before, c);
      FootprintIsTheDifference(totals, after, c, before[c]);
      TouchesFootprint(totals, before[c], Recomputed(totals, before));
    case Keeps =>
  }

  lemma ColumnsOfNothing(totals: Totals)
    ensures Recomputed(totals, map[]) == Columns(totals.cpu, totals.cpu, totals.memory, totals.disk)
  {
    FreeOfNothing(totals.cpu);
    assert Memories(map[]) == map[] && Disks(map[]) == map[];
  }

  lemma ColumnsOfOneClaim(totals: Totals, c: ClaimId, claim: Claim)
    ensures Columns(totals.cpu, totals.cpu, totals.memory, totals.disk) ==
            Plus(Recomputed(totals, map[c := claim]), Footprint(totals, claim))
  {
    var none: Claims := map[];
    ColumnsOfNothing(totals);
    assert Taken(none) == {};
    FootprintIsTheDifference(totals, none, c, claim);
    assert none[c := claim] == map[c := claim];
  }

  // ---------- a step between the reading and the writing ----------

  /**
   The steps that an update of `h` to `totals` does not survive once it has read: an allocation or release of something
   the host has, another update of the host to a size that shows, and a change of size of a project that is built there.
   */
  ghost predicate Disturbs(s: Db, a: Step, h: Id, totals: Totals) {
    match a
    case OnWorkspace(x) =>
      && (x.CreateWorkspace? ==> x.machineType in s.machineTypes)
      && ChangeTouches(totals, ClaimsOn(s, h), WorkspaceChange(s, x, h))
    case OnPrebuild(x) =>
      && (x.CreatePrebuild? ==> x.project in s.projects && s.projects[x.project] in s.machineTypes)
      && ChangeTouches(totals, ClaimsOn(s, h), PrebuildChange(s, x, h))
    case OnCatalog(x) =>
      && x.SetProjectMachineType? && x.project in s.projects
      && s.projects[x.project] in s.machineTypes && x.machineType in s.machineTypes
      && Affected(s, x.project, h) != {}
      && !SameSize(s.machineTypes[s.projects[x.project]], s.machineTypes[x.machineType])
    case OnHost(x) =>
      && x.BeginResize? && x.h == h
      && (|| x.totals.memory != totals.memory || x.totals.disk != totals.disk
          || |Free(x.totals.cpu, ClaimsOn(s, h))| != |Free(totals.cpu, ClaimsOn(s, h))|)
  }

  /** An update that has read, and finishes from the state `m`. */
  ghost predicate Finishes(s: Db, m: Db, f: HostStep, t: Db) {
    && f.FinishResize? && f.r in s.resizes && s.resizes[f.r].read.Some?
    && HostNext(m, f, t) && HostComputed(m, f, t)
  }

  /** What the update writes is what the claims gave when it read. */
  lemma FinishWrites(s: Db, m: Db, f: HostStep, t: Db)
    requires ResizesRight(s) && Finishes(s, m, f, t) && m.resizes[f.r] == s.resizes[f.r]
    ensures var x := s.resizes[f.r];
            && x.host in t.hosts && x.host in m.hosts && t.hosts[x.host].totals == m.hosts[x.host].totals
            && t.hosts[x.host].available == Recomputed(x.totals, ClaimsOn(s, x.host))
            && ClaimsOn(t, x.host) == ClaimsOn(m, x.host)
  {
    ClaimsSame(m, t, s.resizes[f.r].host);
    assert ReadRight(s, s.resizes[f.r]);
  }

  lemma WorkspaceStepShows(s: Db, a: WorkspaceStep, m: Db, h: Id, totals: Totals)
    requires Safe(s) && Safe(m) && WorkspaceNext(s, a, m)
    ensures Recomputed(totals, ClaimsOn(s, h)) == Recomputed(totals, ClaimsOn(m, h)) <==> !Disturbs(s, OnWorkspace(a), h, totals)
  {
    ClaimsAfterWorkspaceStep(s, a, m, h);
    ChangeShowsExactly(totals, ClaimsOn(s, h), ClaimsOn(m, h), WorkspaceChange(s, a, h));
  }

  lemma PrebuildStepShows(s: Db, a: PrebuildStep, m: Db, h: Id, totals: Totals)
    requires Safe(s) && Safe(m) && PrebuildNext(s, a, m)
    ensures Recomputed(totals, ClaimsOn(s, h)) == Recomputed(totals, ClaimsOn(m, h)) <==> !Disturbs(s, OnPrebuild(a), h, totals)
  {
    ClaimsAfterPrebuildStep(s, a, m, h);
    ChangeShowsExactly(totals, ClaimsOn(s, h), ClaimsOn(m, h), PrebuildChange(s, a, h));
  }

  lemma CatalogStepShows(s: Db, a: CatalogStep, m: Db, h: Id, totals: Totals)
    requires Linked(s) && CatalogNext(s, a, m)
    ensures Recomputed(totals, ClaimsOn(s, h)) == Recomputed(totals, ClaimsOn(m, h)) <==> !Disturbs(s, OnCatalog(a), h, totals)
  {
    if a.SetProjectMachineType? {
      ProjectChangeColumns(s, a, m, h, totals);
    } else {
      NewRowsClaims(s, m, h);
    }
  }

  /** Only the host steps can change the totals of the row. */
  lemma TotalsKept(s: Db, a: Step, m: Db, h: Id)
    requires Next(s, a, m) && h in s.hosts && !(a.OnHost? && a.hs.BeginResize? && a.hs.h == h)
    ensures h in m.hosts && m.hosts[h].totals == s.hosts[h].totals
  {
  }

  lemma UpdateKept(s: Db, a: Step, m: Db, r: Id)
    requires Next(s, a, m) && r in s.resizes && r in m.resizes && s.resizes[r].read.Some?
    ensures m.resizes[r] == s.resizes[r]
  {
  }

  /** A step moves the columns that a recalculation would write exactly if it disturbs an update to the row's own totals. */
  lemma StepShows(s: Db, a: Step, m: Db, h: Id)
    requires Safe(s) && Safe(m) && Next(s, a, m) && h in s.hosts
    ensures h in m.hosts
    ensures Recomputed(s.hosts[h].totals, ClaimsOn(s, h)) == Recomputed(m.hosts[h].totals, ClaimsOn(m, h)) <==>
            !Disturbs(s, a, h, s.hosts[h].totals)
  {
    var totals := s.hosts[h].totals;
    match a
    case OnWorkspace(x) =>
      TotalsKept(s, a, m, h);
      WorkspaceStepShows(s, x, m, h, totals);
    case OnPrebuild(x) =>
      TotalsKept(s, a, m, h);
      PrebuildStepShows(s, x, m, h, totals);
    case OnCatalog(x) =>
      TotalsKept(s, a, m, h);
      CatalogStepShows(s, x, m, h, totals);
    case OnHost(x) => HostStepShows(s, x, m, h);
  }

  lemma HostStepShows(s: Db, a: HostStep, m: Db, h: Id)
    requires HostNext(s, a, m) && h in s.hosts
    ensures h in m.hosts
    ensures Recomputed(s.hosts[h].totals, ClaimsOn(s, h)) == Recomputed(m.hosts[h].totals, ClaimsOn(m, h)) <==>
            !Disturbs(s, OnHost(a), h, s.hosts[h].totals)
  {
    ClaimsSame(s, m, h);
  }

  /**
   If one step comes between the reading and the writing of an update, the update leaves its host with a right cache exactly if
   the step does not disturb it.
   */
  lemma FinishResizeExact(s: Db, a: Step, m: Db, f: HostStep, t: Db)
    requires Safe(s) && ResizesRight(s) && Takes(s, a, m) && Finishes(s, m, f, t)
    ensures var x := s.resizes[f.r];
            x.host in t.hosts && (CoherentHost(t, x.host) <==> !Disturbs(s, a, x.host, x.totals))
  {
    UpdateKept(s, a, m, f.r);
    FinishWrites(s, m, f, t);
    SafeStep(s, a, m);
    StepShows(s, a, m, s.resizes[f.r].host);
  }

  lemma AdditionIsTheDifference(totals: Totals, before: Claims, after: Claims, change: Change)
    requires change.Adds? && Changes(before, after, change) && Disjoint(after)
    ensures Recomputed(totals, before) == Plus(Recomputed(totals, after), Footprint(totals, change.claim))
  {
    assert after - {change.c} == before;
    ApartFromTheRest(after, change.c);
    FootprintIsTheDifference(totals, before, change.c, change.claim);
  }

  /** The claim that a step adds to a host, if it adds one. */
  function Added(s: Db, a: Step, h: Id): Change {
    match a
    case OnWorkspace(x) => if x.CreateWorkspace? && x.machineType in s.machineTypes then WorkspaceChange(s, x, h) else Keeps
    case OnPrebuild(x) =>
      if x.CreatePrebuild? && x.project in s.projects && s.projects[x.project] in s.machineTypes then PrebuildChange(s, x, h) else Keeps
    case OnCatalog(_) => Keeps
    case OnHost(_) => Keeps
  }

  lemma AddedClaim(s: Db, a: Step, m: Db, h: Id)
    requires Safe(s) && Next(s, a, m) && Added(s, a, h).Adds?
    ensures Changes(ClaimsOn(s, h), ClaimsOn(m, h), Added(s, a, h))
  {
    if a.OnWorkspace? {
      ClaimsAfterWorkspaceStep(s, a.ws, m, h);
    } else {
      ClaimsAfterPrebuildStep(s, a.pb, m, h);
    }
  }

  /** A workspace or prebuild that comes in between is lost: the columns show exactly its footprint as still available. */
  lemma AllocationDuringUpdateIsLost(s: Db, a: Step, m: Db, f: HostStep, t: Db)
    requires Safe(s) && ResizesRight(s) && Takes(s, a, m) && Finishes(s, m, f, t) && Added(s, a, s.resizes[f.r].host).Adds?
    ensures var x := s.resizes[f.r];
            && x.host in t.hosts
            && t.hosts[x.host].available ==
               Plus(Recomputed(x.totals, ClaimsOn(t, x.host)), Footprint(x.totals, Added(s, a, x.host).claim))
  {
    var x := s.resizes[f.r];
    UpdateKept(s, a, m, f.r);
    FinishWrites(s, m, f, t);
    SafeStep(s, a, m);
    AddedClaim(s, a, m, x.host);
    AdditionIsTheDifference(x.totals, ClaimsOn(s, x.host), ClaimsOn(m, x.host), Added(s, a, x.host));
  }

  // ---------- any number of updates, overlapping or not ----------

  /** The step neither allocates nor releases on the host nor changes the size of a project that is built there. */
  ghost predicate Idle(s: Db, a: Step, h: Id) {
    && ClaimsKept(s, a, h)
    && (a.OnCatalog? && a.cs.SetProjectMachineType? ==> Affected(s, a.cs.project, h) == {})
  }

  lemma IdleKeepsClaims(s: Db, a: Step, t: Db, h: Id)
    requires Linked(s) && DeletionsChecked(s) && Next(s, a, t) && Idle(s, a, h)
    ensures ClaimsOn(t, h) == ClaimsOn(s, h)
  {
    match a
    case OnWorkspace(x) => ClaimsAfterWorkspaceStep(s, x, t, h);
    case OnPrebuild(x) => ClaimsAfterPrebuildStep(s, x, t, h);
    case OnCatalog(x) => IdleCatalogStep(s, x, t, h);
    case OnHost(x) => ClaimsSame(s, t, h);
  }

  lemma IdleCatalogStep(s: Db, a: CatalogStep, t: Db, h: Id)
    requires Linked(s) && CatalogNext(s, a, t) && Idle(s, OnCatalog(a), h)
    ensures ClaimsOn(t, h) == ClaimsOn(s, h)
  {
    if a.SetProjectMachineType? {
      ClaimsAfterProjectChange(s, a, t, h);
      assert forall c | c in ClaimsOn(s, h) :: c !in Affected(s, a.project, h);
    } else {
      NewRowsClaims(s, t, h);
    }
  }

  /** A transaction recalculates the host under its lock, without a change of its claims. */
  predicate Recalculates(s: Db, a: Step, h: Id) {
    match a
    case OnWorkspace(x) => x.DeleteWorkspace? && x.w in s.workspaces && s.workspaces[x.w].host == h && Locked(s, h)
    case OnPrebuild(x) => x.FinishPrebuild? && x.commits && x.p in s.prebuilds && s.prebuilds[x.p].host == h && Locked(s, h)
    case OnCatalog(_) => false
    case OnHost(_) => false
  }

  predicate FinishesOn(s: Db, a: Step, h: Id) {
    a.OnHost? && a.hs.FinishResize? && a.hs.r in s.resizes && s.resizes[a.hs.r].host == h
  }

  /** The totals of the update of the host that began last. */
  function BegunAfter(a: Step, h: Id, begun: Totals): Totals {
    if a.OnHost? && a.hs.BeginResize? && a.hs.h == h then a.hs.totals else begun
  }

  /** The totals with which the columns were computed last: those of the update that finished last, unless a transaction came later. */
  function ShownAfter(s: Db, a: Step, h: Id, begun: Totals, shown: Totals): Totals {
    if FinishesOn(s, a, h) then s.resizes[a.hs.r].totals else if Recalculates(s, a, h) then begun else shown
  }

  function Begun(states: seq<Db>, steps: seq<Step>, k: nat, h: Id): Totals
    requires k < |states| == |steps| + 1 && h in states[0].hosts
  {
    if k == 0 then states[0].hosts[h].totals else BegunAfter(steps[k - 1], h, Begun(states, steps, k - 1, h))
  }

  function Shown(states: seq<Db>, steps: seq<Step>, k: nat, h: Id): Totals
    requires k < |states| == |steps| + 1 && h in states[0].hosts
  {
    if k == 0 then states[0].hosts[h].totals
    else ShownAfter(states[k - 1], steps[k - 1], h, Begun(states, steps, k - 1, h), Shown(states, steps, k - 1, h))
  }

  /** The row has the totals that were begun last, and its columns come from the totals that were shown last. */
  ghost predicate Tracks(s: Db, h: Id, claims: Claims, begun: Totals, shown: Totals) {
    && h in s.hosts && s.hosts[h].totals == begun && s.hosts[h].available == Recomputed(shown, claims)
    && ClaimsOn(s, h) == claims
    && forall r | r in s.resizes && s.resizes[r].host == h && s.resizes[r].read.Some? :: s.resizes[r].read.value == claims
  }

  lemma TracksWorkspaceStep(s: Db, a: WorkspaceStep, t: Db, h: Id, claims: Claims, begun: Totals, shown: Totals)
    requires Tracks(s, h, claims, begun, shown) && WorkspaceNext(s, a, t) && WorkspaceComputed(s, a, t)
    requires Idle(s, OnWorkspace(a), h) && ClaimsOn(t, h) == claims
    ensures Tracks(t, h, claims, begun, ShownAfter(s, OnWorkspace(a), h, begun, shown))
  {
  }

  lemma TracksPrebuildStep(s: Db, a: PrebuildStep, t: Db, h: Id, claims: Claims, begun: Totals, shown: Totals)
    requires Tracks(s, h, claims, begun, shown) && PrebuildNext(s, a, t) && PrebuildComputed(s, a, t)
    requires Idle(s, OnPrebuild(a), h) && ClaimsOn(t, h) == claims
    ensures Tracks(t, h, claims, begun, ShownAfter(s, OnPrebuild(a), h, begun, shown))
  {
  }

  lemma TracksHostStep(s: Db, a: HostStep, t: Db, h: Id, claims: Claims, begun: Totals, shown: Totals)
    requires Tracks(s, h, claims, begun, shown) && HostNext(s, a, t) && HostComputed(s, a, t) && ClaimsOn(t, h) == claims
    ensures Tracks(t, h, claims, BegunAfter(OnHost(a), h, begun), ShownAfter(s, OnHost(a), h, begun, shown))
  {
  }

  lemma TracksStep(s: Db, a: Step, t: Db, h: Id, claims: Claims, begun: Totals, shown: Totals)
    requires Safe(s) && Takes(s, a, t) && Idle(s, a, h) && Tracks(s, h, claims, begun, shown)
    ensures Tracks(t, h, claims, BegunAfter(a, h, begun), ShownAfter(s, a, h, begun, shown))
  {
    IdleKeepsClaims(s, a, t, h);
    match a
    case OnWorkspace(x) => TracksWorkspaceStep(s, x, t, h, claims, begun, shown);
    case OnPrebuild(x) => TracksPrebuildStep(s, x, t, h, claims, begun, shown);
    case OnCatalog(x) =>
    case OnHost(x) => TracksHostStep(s, x, t, h, claims, begun, shown);
  }

  lemma {:induction false} RunTracks(states: seq<Db>, steps: seq<Step>, k: nat, h: Id, claims: Claims)
    requires Run(states, steps) && Safe(states[0]) && k < |states| && h in states[0].hosts && claims == ClaimsOn(states[0], h)
    requires CoherentHost(states[0], h) && !Resizing(states[0], h)
    requires forall i | 0 <= i < |steps| :: Idle(states[i], steps[i], h)
    ensures Tracks(states[k], h, claims, Begun(states, steps, k, h), Shown(states, steps, k, h))
  {
    if k > 0 {
      RunTracks(states, steps, k - 1, h, claims);
      RunIsSafe(states, steps, k - 1);
      TracksStep(states[k - 1], steps[k - 1], states[k], h, claims, Begun(states, steps, k - 1, h), Shown(states, steps, k - 1, h));
    }
  }

  /** Two sizes that give the same columns for these claims. */
  ghost predicate Agree(a: Totals, b: Totals, claims: Claims) {
    a.memory == b.memory && a.disk == b.disk && |Free(a.cpu, claims)| == |Free(b.cpu, claims)|
  }

  /**
   Any number of updates of a host, overlapping in any way, while nothing is allocated or released on it: the cache is right
   exactly if the update that finished last (or a later recalculation) computed with totals that agree in memory, disk and
   free cores with those of the update that began last.
   */
  lemma UpdatesExact(states: seq<Db>, steps: seq<Step>, k: nat, h: Id)
    requires Run(states, steps) && Safe(states[0]) && k < |states| && h in states[0].hosts
    requires CoherentHost(states[0], h) && !Resizing(states[0], h)
    requires forall i | 0 <= i < |steps| :: Idle(states[i], steps[i], h)
    ensures h in states[k].hosts
    ensures CoherentHost(states[k], h) <==>
            Agree(Shown(states, steps, k, h), Begun(states, steps, k, h), ClaimsOn(states[0], h))
  {
    RunTracks(states, steps, k, h, ClaimsOn(states[0], h));
  }

  // ---------- overlapping updates ----------

  ghost function LoneHost(totals: Totals, memory: int, resizes: map<Id, Resize>): Db {
    Empty(1).(hosts := map[0 := Host(true, New, "", totals, Columns(1, 1, memory, 10))], resizes := resizes)
  }

  lemma LoneHostClaims(s: Db)
    requires s.workspaces == map[] && s.prebuilds == map[]
    ensures ClaimsOn(s, 0) == map[]
  {
  }

  lemma LoneBegin(totals: Totals, memory: int, resizes: map<Id, Resize>, r: Id, wanted: Totals)
    requires r !in resizes
    ensures var s, t := LoneHost(totals, memory, resizes), LoneHost(wanted, memory, resizes[r := Resize(0, wanted, None)]);
            Takes(s, OnHost(BeginResize(r, 0, "", wanted)), t)
  {
  }

  lemma LoneRead(totals: Totals, memory: int, resizes: map<Id, Resize>, r: Id)
    requires r in resizes && resizes[r].host == 0 && resizes[r].read == None
    ensures var s, t := LoneHost(totals, memory, resizes), LoneHost(totals, memory, resizes[r := resizes[r].(read := Some(map[]))]);
            Takes(s, OnHost(ReadResize(r)), t)
  {
    LoneHostClaims(LoneHost(totals, memory, resizes));
  }

  lemma LoneFinish(totals: Totals, memory: int, resizes: map<Id, Resize>, r: Id)
    requires r in resizes && resizes[r].host == 0 && resizes[r].totals.cpu == 1 && resizes[r].totals.disk == 10
    requires resizes[r].read == Some(map[])
    ensures var m := resizes[r].totals.memory;
            var s, t := LoneHost(totals, memory, resizes), LoneHost(totals, m, resizes - {r});
            Takes(s, OnHost(FinishResize(r, Columns(1, 1, m, 10))), t)
  {
    ColumnsOfNothing(resizes[r].totals);
  }

  lemma LoneCreate(totals: Totals)
    requires totals.cpu == 1 && totals.disk == 10
    ensures Takes(Empty(1), OnHost(CreateHost(0, "", totals)), LoneHost(totals, totals.memory, map[]))
  {
  }

  lemma LoneHostCoherent(totals: Totals)
    requires totals.cpu == 1 && totals.disk == 10
    ensures CoherentHost(LoneHost(totals, totals.memory, map[]), 0) && ClaimsOn(LoneHost(totals, totals.memory, map[]), 0) == map[]
  {
    LoneHostClaims(LoneHost(totals, totals.memory, map[]));
    ColumnsOfNothing(totals);
  }

  /** The updates in flight: the first, and the second unless it is over; `read` is what the last one has read. */
  function Racing(first: Totals, firstRead: Option<Claims>, second: Option<Totals>, secondRead: Option<Claims>): map<Id, Resize> {
    if second == None then map[1 := Resize(0, first, firstRead)]
    else map[1 := Resize(0, first, firstRead), 2 := Resize(0, second.value, secondRead)]
  }

  ghost function RaceStates(big: Totals, small: Totals): seq<Db> {
    [Empty(1),
     LoneHost(big, big.memory, map[]),
     LoneHost(small, big.memory, Racing(small, None, None, None)),
     LoneHost(big, big.memory, Racing(small, None, Some(big), None)),
     LoneHost(big, big.memory, Racing(small, None, Some(big), Some(map[]))),
     LoneHost(big, big.memory, Racing(small, None, None, None)),
     LoneHost(big, big.memory, Racing(small, Some(map[]), None, None)),
     LoneHost(big, small.memory, map[])]
  }

  /** One administrator shrinks the host, a second restores it and finishes first. */
  ghost function RaceSteps(big: Totals, small: Totals): seq<Step> {
    [OnHost(CreateHost(0, "", big)),
     OnHost(BeginResize(1, 0, "", small)), OnHost(BeginResize(2, 0, "", big)),
     OnHost(ReadResize(2)), OnHost(FinishResize(2, Columns(1, 1, big.memory, 10))),
     OnHost(ReadResize(1)), OnHost(FinishResize(1, Columns(1, 1, small.memory, 10)))]
  }

  lemma RaceMaps(big: Totals, small: Totals)
    ensures map[][1 := Resize(0, small, None)] == Racing(small, None, None, None)
    ensures Racing(small, None, None, None)[2 := Resize(0, big, None)] == Racing(small, None, Some(big), None)
    ensures Racing(small, None, Some(big), None)[2 := Resize(0, big, Some(map[]))] == Racing(small, None, Some(big), Some(map[]))
    ensures Racing(small, None, Some(big), Some(map[])) - {2} == Racing(small, None, None, None)
    ensures Racing(small, None, None, None)[1 := Resize(0, small, Some(map[]))] == Racing(small, Some(map[]), None, None)
    ensures Racing(small, Some(map[]), None, None) - {1} == map[]
  {
  }

  lemma RaceBegins(big: Totals, small: Totals)
    requires big.cpu == 1 && big.disk == 10 && small.cpu == 1 && small.disk == 10
    ensures Takes(RaceStates(big, small)[0], RaceSteps(big, small)[0], RaceStates(big, small)[1])
    ensures Takes(RaceStates(big, small)[1], RaceSteps(big, small)[1], RaceStates(big, small)[2])
    ensures Takes(RaceStates(big, small)[2], RaceSteps(big, small)[2], RaceStates(big, small)[3])
  {
    RaceMaps(big, small);
    LoneCreate(big);
    LoneBegin(big, big.memory, map[], 1, small);
    LoneBegin(small, big.memory, Racing(small, None, None, None), 2, big);
  }

  lemma RaceSecondEnds(big: Totals, small: Totals)
    requires big.cpu == 1 && big.disk == 10 && small.cpu == 1 && small.disk == 10
    ensures Takes(RaceStates(big, small)[3], RaceSteps(big, small)[3], RaceStates(big, small)[4])
    ensures Takes(RaceStates(big, small)[4], RaceSteps(big, small)[4], RaceStates(big, small)[5])
  {
    RaceMaps(big, small);
    LoneRead(big, big.memory, Racing(small, None, Some(big), None), 2);
    LoneFinish(big, big.memory, Racing(small, None, Some(big), Some(map[])), 2);
  }

  lemma RaceFirstEnds(big: Totals, small: Totals)
    requires big.cpu == 1 && big.disk == 10 && small.cpu == 1 && small.disk == 10
    ensures Takes(RaceStates(big, small)[5], RaceSteps(big, small)[5], RaceStates(big, small)[6])
    ensures Takes(RaceStates(big, small)[6], RaceSteps(big, small)[6], RaceStates(big, small)[7])
  {
    RaceMaps(big, small);
    LoneRead(big, big.memory, Racing(small, None, None, None), 1);
    LoneFinish(big, big.memory, Racing(small, Some(map[]), None, None), 1);
  }

  lemma RaceRuns(big: Totals, small: Totals)
    requires big.cpu == 1 && big.disk == 10 && small.cpu == 1 && small.disk == 10
    ensures Run(RaceStates(big, small), RaceSteps(big, small))
  {
    RaceBegins(big, small);
    RaceSecondEnds(big, small);
    RaceFirstEnds(big, small);
  }

  lemma SuffixRun(states: seq<Db>, steps: seq<Step>)
    requires Run(states, steps) && |steps| > 0
    ensures Run(states[1..], steps[1..])
  {
    forall i | 0 <= i < |steps| - 1
      ensures Takes(states[1..][i], steps[1..][i], states[1..][i + 1])
    {
      assert Takes(states[i + 1], steps[i + 1], states[i + 2]);
    }
  }

  /** The second update began last, the first finished last. */
  lemma RaceTotals(big: Totals, small: Totals, states: seq<Db>, steps: seq<Step>)
    requires states == RaceStates(big, small)[1..] && steps == RaceSteps(big, small)[1..]
    ensures Begun(states, steps, 6, 0) == big && Shown(states, steps, 6, 0) == small
  {
    assert Begun(states, steps, 2, 0) == big;
    assert Begun(states, steps, 4, 0) == big;
    assert Begun(states, steps, 6, 0) == big;
    assert states[5].resizes == Racing(small, Some(map[]), None, None);
  }

  lemma RaceExact(big: Totals, small: Totals, states: seq<Db>, steps: seq<Step>)
    requires big.cpu == 1 && big.disk == 10 && small.cpu == 1 && small.disk == 10
    requires states == RaceStates(big, small)[1..] && steps == RaceSteps(big, small)[1..]
    requires Run(states, steps) && Safe(states[0])
    ensures 0 in states[6].hosts && (CoherentHost(states[6], 0) <==> big.memory == small.memory)
  {
    LoneHostCoherent(big);
    RaceTotals(big, small, states, steps);
    UpdatesExact(states, steps, 6, 0);
  }

  /**
   Two overlapping updates of one host that finish in the wrong order: the run starts with an empty installation, ends with
   no update in flight, and leaves a cache that differs from a recomputation if the two updates wrote different memory.
   */
  lemma OverlappingUpdatesSpoilTheCache(big: Totals, small: Totals)
    requires big.cpu == 1 && big.disk == 10 && small.cpu == 1 && small.disk == 10
    ensures Run(RaceStates(big, small), RaceSteps(big, small))
    ensures RaceStates(big, small)[0] == Empty(1)
    ensures var last := RaceStates(big, small)[7];
            && last.resizes == map[] && Locked(last, 0)
            && (CoherentHost(last, 0) <==> big.memory == small.memory)
  {
    RaceRuns(big, small);
    EmptyIsSafe(1);
    RunIsSafe(RaceStates(big, small), RaceSteps(big, small), 1);
    SuffixRun(RaceStates(big, small), RaceSteps(big, small));
    RaceExact(big, small, RaceStates(big, small)[1..], RaceSteps(big, small)[1..]);
  }
}
