/**
 The life of the allocator: every transaction that creates or releases a claim on a host, every
 administrator's change of a host, and what holds in all the states these steps can reach.
 One transaction is one step where the exclusive lock on the host row makes it one; an administrator's update takes no lock
 and is three steps.  The check before a host is deleted may be stale, so that the deletion itself has no guard.
 */
module Allocator {
  import opened Common
  import opened Scheduler

  datatype MachineType = MachineType(shared: bool, cpu: nat, memory: int, disk: int)

  datatype Workspace = Workspace(host: Id, live: bool, parent: Option<Id>, cores: CpuCore, machineType: Id)

  datatype PrebuildStatus = Building | Ready | Failed

  datatype Prebuild = Prebuild(host: Id, live: bool, project: Id, status: PrebuildStatus, cores: CpuCore,
                               byWorkspace: bool, usage: Id)

  /**
   A host update that has written its row and not yet the recalculated columns: it remembers the totals it wrote and, once
   it has read them, the claims it found.
   */
  datatype Resize = Resize(host: Id, totals: Totals, read: Option<Claims>)

  datatype Db = Db(
    hosts: map<Id, Host>,
    workspaces: map<Id, Workspace>,
    prebuilds: map<Id, Prebuild>,
    projects: map<Id, Id>,          // project to machine type
    machineTypes: map<Id, MachineType>,
    usages: map<Id, bool>,          // usage record to "has no end yet"
    overcommit: nat,
    builds: set<Id>,                // prebuilds whose background task is still running
    resizes: map<Id, Resize>,       // host updates in flight
    deletions: map<Id, Id>          // prebuild deletions that have passed the status check
  )

  // ---------- claims ----------

  predicate CountsWorkspace(s: Db, w: Id, h: Id) {
    && w in s.workspaces
    && s.workspaces[w].host == h
    && s.workspaces[w].live
    && s.workspaces[w].parent == None
    && s.workspaces[w].machineType in s.machineTypes
  }

  predicate CountsPrebuild(s: Db, p: Id, h: Id) {
    && p in s.prebuilds
    && s.prebuilds[p].host == h
    && s.prebuilds[p].status == Building
    && s.prebuilds[p].live
    && !s.prebuilds[p].byWorkspace
    && s.prebuilds[p].project in s.projects
    && s.projects[s.prebuilds[p].project] in s.machineTypes
  }

  predicate Counts(s: Db, c: ClaimId, h: Id) {
    match c
    case OfWorkspace(w) => CountsWorkspace(s, w, h)
    case OfPrebuild(p) => CountsPrebuild(s, p, h)
  }

  function ClaimOf(s: Db, c: ClaimId, h: Id): Claim
    requires Counts(s, c, h)
  {
    match c
    case OfWorkspace(w) =>
      var m := s.machineTypes[s.workspaces[w].machineType];
      Claim(s.workspaces[w].cores, m.memory, m.disk)
    case OfPrebuild(p) =>
      var m := s.machineTypes[s.projects[s.prebuilds[p].project]];
      Claim(s.prebuilds[p].cores, m.memory, m.disk)
  }

  function RowIds(s: Db): set<ClaimId> {
    (set w | w in s.workspaces :: OfWorkspace(w)) + (set p | p in s.prebuilds :: OfPrebuild(p))
  }

  /** What a query over the two tables finds for host `h`. */
  function ClaimsOn(s: Db, h: Id): Claims {
    map c | c in RowIds(s) && Counts(s, c, h) :: ClaimOf(s, c, h)
  }

  function AllClaims(s: Db): map<Id, Claims> {
    map h | h in s.hosts :: ClaimsOn(s, h)
  }

  /**
   Who is counted on a host, in the words of the tables: live workspaces without a parent, and live Building prebuilds that no
   workspace made; each with its own cores and the memory and disk of its machine type.
   */
  lemma CountedExactly(s: Db, h: Id)
    ensures forall w :: OfWorkspace(w) in ClaimsOn(s, h) <==>
              && w in s.workspaces && s.workspaces[w].host == h && s.workspaces[w].live && s.workspaces[w].parent == None
              && s.workspaces[w].machineType in s.machineTypes
    ensures forall w | OfWorkspace(w) in ClaimsOn(s, h) ::
              var claim, m := ClaimsOn(s, h)[OfWorkspace(w)], s.machineTypes[s.workspaces[w].machineType];
              claim.cores == s.workspaces[w].cores && claim.memory == m.memory && claim.disk == m.disk
    ensures forall p :: OfPrebuild(p) in ClaimsOn(s, h) <==>
              && p in s.prebuilds && s.prebuilds[p].host == h && s.prebuilds[p].live && s.prebuilds[p].status == Building
              && !s.prebuilds[p].byWorkspace && s.prebuilds[p].project in s.projects
              && s.projects[s.prebuilds[p].project] in s.machineTypes
    ensures forall p | OfPrebuild(p) in ClaimsOn(s, h) ::
              var claim, m := ClaimsOn(s, h)[OfPrebuild(p)], s.machineTypes[s.projects[s.prebuilds[p].project]];
              claim.cores == s.prebuilds[p].cores && claim.memory == m.memory && claim.disk == m.disk
  {
  }

  lemma ClaimAt(s: Db, h: Id, c: ClaimId)
    ensures c in ClaimsOn(s, h) <==> Counts(s, c, h)
    ensures Counts(s, c, h) ==> ClaimsOn(s, h)[c] == ClaimOf(s, c, h)
  {
  }

  // ---------- steps ----------

  // A step is labelled with the outcome of its scheduling (`pick`) and with what its recalculation wrote (`columns`);
  // `Computed` below says which labels are right.

  datatype WorkspaceStep =
    | CreateWorkspace(w: Id, machineType: Id, licensed: bool, region: string, prebuildHost: Option<Id>,
                      replicas: seq<Id>, pick: Pick, columns: Columns)
    | DeleteWorkspace(w: Id, columns: Columns)
    | InsertService(w: Id, main: Id)
    | DropService(w: Id)

  datatype PrebuildStep =
    | CreatePrebuild(p: Id, project: Id, usage: Id, licensed: bool, region: string, pick: Pick, columns: Columns)
    | CreateWorkspacePrebuild(p: Id, project: Id, usage: Id, w: Id)
    | FinishPrebuild(p: Id, built: bool, commits: bool, columns: Columns)
    | RequestPrebuildDeletion(d: Id, p: Id)
    | CommitPrebuildDeletion(d: Id, unused: bool)

  datatype CatalogStep =
    | CreateMachineType(id: Id, created: MachineType)
    | CreateProject(id: Id, machineType: Id)
    | SetProjectMachineType(project: Id, machineType: Id)

  datatype HostStep =
    | CreateHost(h: Id, region: string, totals: Totals)
    | SetHostStatus(h: Id, reported: HostStatus)
    | BeginResize(r: Id, h: Id, region: string, totals: Totals)
    | ReadResize(r: Id)
    | FinishResize(r: Id, columns: Columns)
    | DeleteHost(h: Id)
    | UpdateOvercommit(value: nat)

  datatype Step = OnWorkspace(ws: WorkspaceStep) | OnPrebuild(pb: PrebuildStep) | OnCatalog(cs: CatalogStep) | OnHost(hs: HostStep)

  function RequestFor(m: MachineType, licensed: bool, region: string): Request {
    Request(licensed && m.shared, m.cpu, m.memory, m.disk, region)
  }

  // ---------- what a step does, table by table ----------

  predicate KeepsWorkspaces(s: Db, t: Db) {
    t.workspaces == s.workspaces
  }

  predicate KeepsPrebuilds(s: Db, t: Db) {
    t.prebuilds == s.prebuilds && t.usages == s.usages && t.builds == s.builds && t.deletions == s.deletions
  }

  predicate KeepsCatalog(s: Db, t: Db) {
    t.projects == s.projects && t.machineTypes == s.machineTypes
  }

  predicate KeepsAdmin(s: Db, t: Db) {
    t.overcommit == s.overcommit && t.resizes == s.resizes
  }

  predicate Locked(s: Db, h: Id) {
    h in s.hosts && s.hosts[h].live
  }

  predicate WritesColumns(s: Db, t: Db, h: Id, columns: Columns) {
    h in s.hosts && t.hosts == s.hosts[h := s.hosts[h].(available := columns)]
  }

  /** The row lock, and with it the recalculation, is not to be had on a deleted host. */
  predicate WritesIfLocked(s: Db, t: Db, h: Id, columns: Columns) {
    if Locked(s, h) then WritesColumns(s, t, h, columns) else t.hosts == s.hosts
  }

  predicate WorkspaceNext(s: Db, a: WorkspaceStep, t: Db) {
    && KeepsPrebuilds(s, t) && KeepsCatalog(s, t) && KeepsAdmin(s, t)
    && match a
       case CreateWorkspace(w, machineType, _, _, _, _, pick, columns) =>
         && w !in s.workspaces && machineType in s.machineTypes
         && if pick.Picked? then
              && t.workspaces == s.workspaces[w := Workspace(pick.host, true, None, pick.cores, machineType)]
              && WritesColumns(s, t, pick.host, columns)
            else
              KeepsWorkspaces(s, t) && t.hosts == s.hosts
       case DeleteWorkspace(w, columns) =>
         && w in s.workspaces
         && t.workspaces == s.workspaces[w := s.workspaces[w].(live := false)]
         && WritesIfLocked(s, t, s.workspaces[w].host, columns)
       case InsertService(w, main) =>
         && w !in s.workspaces && main in s.workspaces
         && t.workspaces == s.workspaces[w := s.workspaces[main].(live := true, parent := Some(main))]
         && t.hosts == s.hosts
       case DropService(w) =>
         && w in s.workspaces && s.workspaces[w].parent != None
         && t.workspaces == s.workspaces[w := s.workspaces[w].(live := false)]
         && t.hosts == s.hosts
  }

  predicate InsertsPrebuild(s: Db, t: Db, p: Id, row: Prebuild) {
    && p !in s.prebuilds && row.usage !in s.usages && row.project in s.projects
    && t.prebuilds == s.prebuilds[p := row]
    && t.usages == s.usages[row.usage := true]
    && t.builds == s.builds + {p}
    && t.deletions == s.deletions
  }

  predicate PrebuildNext(s: Db, a: PrebuildStep, t: Db) {
    && KeepsWorkspaces(s, t) && KeepsCatalog(s, t) && KeepsAdmin(s, t)
    && match a
       case CreatePrebuild(p, project, usage, _, _, pick, columns) =>
         && p !in s.prebuilds && usage !in s.usages && project in s.projects && s.projects[project] in s.machineTypes
         && if pick.Picked? then
              && InsertsPrebuild(s, t, p, Prebuild(pick.host, true, project, Building, pick.cores, false, usage))
              && WritesColumns(s, t, pick.host, columns)
            else
              KeepsPrebuilds(s, t) && t.hosts == s.hosts
       case CreateWorkspacePrebuild(p, project, usage, w) =>
         && w in s.workspaces
         && InsertsPrebuild(s, t, p, Prebuild(s.workspaces[w].host, true, project, Building, s.workspaces[w].cores, true, usage))
         && t.hosts == s.hosts
       case FinishPrebuild(p, built, commits, columns) =>
         && p in s.builds && p in s.prebuilds
         && t.builds == s.builds - {p} && t.deletions == s.deletions
         && if commits then
              && t.prebuilds == s.prebuilds[p := s.prebuilds[p].(status := if built then Ready else Failed)]
              && t.usages == s.usages[s.prebuilds[p].usage := false]
              && WritesIfLocked(s, t, s.prebuilds[p].host, columns)
            else
              t.prebuilds == s.prebuilds && t.usages == s.usages && t.hosts == s.hosts
       case RequestPrebuildDeletion(d, p) =>
         && d !in s.deletions && p in s.prebuilds && s.prebuilds[p].status != Building
         && t.deletions == s.deletions[d := p]
         && t.prebuilds == s.prebuilds && t.usages == s.usages && t.builds == s.builds && t.hosts == s.hosts
       case CommitPrebuildDeletion(d, unused) =>
         && d in s.deletions && s.deletions[d] in s.prebuilds
         && t.deletions == s.deletions - {d}
         && t.usages == s.usages && t.builds == s.builds && t.hosts == s.hosts
         && var p := s.deletions[d];
            t.prebuilds == if unused then s.prebuilds[p := s.prebuilds[p].(live := false)] else s.prebuilds
  }

  predicate CatalogNext(s: Db, a: CatalogStep, t: Db) {
    && KeepsWorkspaces(s, t) && KeepsPrebuilds(s, t) && KeepsAdmin(s, t) && t.hosts == s.hosts
    && match a
       case CreateMachineType(id, created) =>
         id !in s.machineTypes && t.machineTypes == s.machineTypes[id := created] && t.projects == s.projects
       case CreateProject(id, machineType) =>
         && id !in s.projects && machineType in s.machineTypes
         && t.projects == s.projects[id := machineType] && t.machineTypes == s.machineTypes
       case SetProjectMachineType(project, machineType) =>
         && project in s.projects && machineType in s.machineTypes
         && t.projects == s.projects[project := machineType] && t.machineTypes == s.machineTypes
  }

  predicate HostNext(s: Db, a: HostStep, t: Db) {
    && KeepsWorkspaces(s, t) && KeepsPrebuilds(s, t) && KeepsCatalog(s, t)
    && match a
       case CreateHost(h, region, totals) =>
         && h !in s.hosts && KeepsAdmin(s, t)
         && t.hosts == s.hosts[h := Host(true, New, region, totals,
                                         Columns(totals.cpu, totals.cpu, totals.memory, totals.disk))]
       case SetHostStatus(h, reported) =>
         h in s.hosts && KeepsAdmin(s, t) && t.hosts == s.hosts[h := s.hosts[h].(status := reported)]
       case BeginResize(r, h, region, totals) =>
         && r !in s.resizes && h in s.hosts && t.overcommit == s.overcommit
         && t.hosts == s.hosts[h := s.hosts[h].(region := region, totals := totals)]
         && t.resizes == s.resizes[r := Resize(h, totals, None)]
       case ReadResize(r) =>
         && r in s.resizes && s.resizes[r].read == None && t.overcommit == s.overcommit && t.hosts == s.hosts
         && t.resizes == s.resizes[r := s.resizes[r].(read := Some(ClaimsOn(s, s.resizes[r].host)))]
       case FinishResize(r, columns) =>
         && r in s.resizes && s.resizes[r].read.Some? && t.overcommit == s.overcommit
         && WritesColumns(s, t, s.resizes[r].host, columns)
         && t.resizes == s.resizes - {r}
       case DeleteHost(h) =>
         h in s.hosts && KeepsAdmin(s, t) && t.hosts == s.hosts[h := s.hosts[h].(live := false)]
       case UpdateOvercommit(value) =>
         value >= 2 && t.overcommit == value && t.resizes == s.resizes && t.hosts == s.hosts
  }

  /** One step of the allocator. */
  predicate Next(s: Db, a: Step, t: Db) {
    match a
    case OnWorkspace(x) => WorkspaceNext(s, x, t)
    case OnPrebuild(x) => PrebuildNext(s, x, t)
    case OnCatalog(x) => CatalogNext(s, x, t)
    case OnHost(x) => HostNext(s, x, t)
  }

  // ---------- the labels are right ----------

  /** A recalculation of host `h` with these totals, over the rows of `t`. */
  ghost predicate Recalculation(t: Db, h: Id, totals: Totals, columns: Columns) {
    columns == Recomputed(totals, ClaimsOn(t, h))
  }

  ghost predicate WorkspaceComputed(s: Db, a: WorkspaceStep, t: Db)
    requires WorkspaceNext(s, a, t)
  {
    match a
    case CreateWorkspace(_, machineType, licensed, region, prebuildHost, replicas, pick, columns) =>
      && PickSpec(s.hosts, AllClaims(s), RequestFor(s.machineTypes[machineType], licensed, region), prebuildHost, replicas, pick)
      && (pick.Picked? ==> Recalculation(t, pick.host, s.hosts[pick.host].totals, columns))
    case DeleteWorkspace(w, columns) =>
      var h := s.workspaces[w].host;
      Locked(s, h) ==> Recalculation(t, h, s.hosts[h].totals, columns)
    case _ => true
  }

  ghost predicate PrebuildComputed(s: Db, a: PrebuildStep, t: Db)
    requires PrebuildNext(s, a, t)
  {
    match a
    case CreatePrebuild(_, project, _, licensed, region, pick, columns) =>
      && PickSpec(s.hosts, AllClaims(s), RequestFor(s.machineTypes[s.projects[project]], licensed, region), None, [], pick)
      && (pick.Picked? ==> Recalculation(t, pick.host, s.hosts[pick.host].totals, columns))
    case FinishPrebuild(p, _, commits, columns) =>
      var h := s.prebuilds[p].host;
      commits && Locked(s, h) ==> Recalculation(t, h, s.hosts[h].totals, columns)
    case _ => true
  }

  /**
   An administrator's update recalculates with the totals it wrote and the claims it read, not with those the tables hold by
   now: it takes no lock on the row.
   */
  ghost predicate HostComputed(s: Db, a: HostStep, t: Db)
    requires HostNext(s, a, t)
  {
    a.FinishResize? ==> a.columns == Recomputed(s.resizes[a.r].totals, s.resizes[a.r].read.value)
  }

  ghost predicate Computed(s: Db, a: Step, t: Db)
    requires Next(s, a, t)
  {
    match a
    case OnWorkspace(x) => WorkspaceComputed(s, x, t)
    case OnPrebuild(x) => PrebuildComputed(s, x, t)
    case OnCatalog(_) => true
    case OnHost(x) => HostComputed(s, x, t)
  }

  ghost predicate Takes(s: Db, a: Step, t: Db) {
    Next(s, a, t) && Computed(s, a, t)
  }

  ghost predicate Run(states: seq<Db>, steps: seq<Step>) {
    && |states| == |steps| + 1
    && forall i | 0 <= i < |steps| :: Takes(states[i], steps[i], states[i + 1])
  }

  function Empty(overcommit: nat): Db {
    Db(map[], map[], map[], map[], map[], map[], overcommit, {}, map[], map[])
  }

  // ---------- how a step changes the claims on a host ----------

  /** Rows point at rows that exist, and a host's id is never reused. */
  ghost predicate Linked(s: Db) {
    && (forall w | w in s.workspaces :: s.workspaces[w].host in s.hosts && s.workspaces[w].machineType in s.machineTypes)
    && (forall p | p in s.prebuilds :: s.prebuilds[p].host in s.hosts && s.prebuilds[p].project in s.projects)
    && (forall j | j in s.projects :: s.projects[j] in s.machineTypes)
  }

  /** Before the transaction, a prebuild deletion has seen a finished prebuild. */
  ghost predicate DeletionsChecked(s: Db) {
    forall d | d in s.deletions :: s.deletions[d] in s.prebuilds && s.prebuilds[s.deletions[d]].status != Building
  }

  /** The claims are read off four tables only. */
  predicate SameRows(s: Db, t: Db) {
    && t.workspaces == s.workspaces && t.prebuilds == s.prebuilds
    && t.projects == s.projects && t.machineTypes == s.machineTypes
  }

  predicate OnlyWorkspaceRow(s: Db, t: Db, w: Id, row: Workspace) {
    && t.workspaces == s.workspaces[w := row] && t.prebuilds == s.prebuilds
    && t.projects == s.projects && t.machineTypes == s.machineTypes
  }

  predicate OnlyPrebuildRow(s: Db, t: Db, p: Id, row: Prebuild) {
    && t.workspaces == s.workspaces && t.prebuilds == s.prebuilds[p := row]
    && t.projects == s.projects && t.machineTypes == s.machineTypes
  }

  lemma ClaimsSame(s: Db, t: Db, h: Id)
    requires SameRows(s, t)
    ensures ClaimsOn(t, h) == ClaimsOn(s, h)
  {
    assert RowIds(t) == RowIds(s);
    assert forall c :: Counts(t, c, h) <==> Counts(s, c, h);
  }

  /** Inserting a counted row adds its claim to its host. */
  lemma CountedRowClaims(s: Db, t: Db, c: ClaimId, host: Id, h: Id)
    requires OthersSame(s, t, c)
    requires Counts(t, c, host) && forall g :: !Counts(s, c, g)
    ensures c !in ClaimsOn(s, h)
    ensures ClaimsOn(t, h) == if h == host then ClaimsOn(s, h)[c := ClaimOf(t, c, h)] else ClaimsOn(s, h)
  {
    forall k
      ensures k in ClaimsOn(t, h) <==> k in ClaimsOn(s, h) || (h == host && k == c)
      ensures k in ClaimsOn(s, h) ==> ClaimsOn(t, h)[k] == ClaimsOn(s, h)[k]
    {
      CountedRowAt(s, t, c, host, h, k);
    }
    ClaimAt(s, h, c);
    ClaimAt(t, h, c);
    MapWithOneMore(ClaimsOn(s, h), ClaimsOn(t, h), c, h == host);
  }

  lemma MapWithOneMore(before: Claims, after: Claims, c: ClaimId, more: bool)
    requires c !in before
    requires forall k :: k in after <==> k in before || (more && k == c)
    requires forall k | k in before :: after[k] == before[k]
    ensures after == if more then before[c := after[c]] else before
  {
  }

  lemma CountedRowAt(s: Db, t: Db, c: ClaimId, host: Id, h: Id, k: ClaimId)
    requires OthersSame(s, t, c)
    requires Counts(t, c, host) && forall g :: !Counts(s, c, g)
    ensures k in ClaimsOn(t, h) <==> k in ClaimsOn(s, h) || (h == host && k == c)
    ensures k in ClaimsOn(s, h) ==> ClaimsOn(t, h)[k] == ClaimsOn(s, h)[k]
  {
    ClaimAt(s, h, k);
    ClaimAt(t, h, k);
  }

  /** A row that is not counted any more takes its claim along. */
  lemma UncountedRowClaims(s: Db, t: Db, c: ClaimId, h: Id)
    requires OthersSame(s, t, c)
    requires !Counts(t, c, h)
    ensures ClaimsOn(t, h) == ClaimsOn(s, h) - {c}
    ensures !Counts(s, c, h) ==> ClaimsOn(t, h) == ClaimsOn(s, h)
  {
    forall k
      ensures k in ClaimsOn(t, h) <==> k in ClaimsOn(s, h) && k != c
      ensures k in ClaimsOn(t, h) ==> ClaimsOn(t, h)[k] == ClaimsOn(s, h)[k]
    {
      UncountedRowAt(s, t, c, h, k);
    }
    ClaimAt(s, h, c);
    MapWithOneLess(ClaimsOn(s, h), ClaimsOn(t, h), c);
  }

  lemma UncountedRowAt(s: Db, t: Db, c: ClaimId, h: Id, k: ClaimId)
    requires OthersSame(s, t, c)
    requires !Counts(t, c, h)
    ensures k in ClaimsOn(t, h) <==> k in ClaimsOn(s, h) && k != c
    ensures k in ClaimsOn(t, h) ==> ClaimsOn(t, h)[k] == ClaimsOn(s, h)[k]
  {
    ClaimAt(s, h, k);
    ClaimAt(t, h, k);
  }

  lemma MapWithOneLess(before: Claims, after: Claims, c: ClaimId)
    requires forall k :: k in after <==> k in before && k != c
    requires forall k | k in after :: after[k] == before[k]
    ensures after == before - {c} && (c !in before ==> after == before)
  {
  }

  /** At most the row behind `c` differs. */
  ghost predicate OthersSame(s: Db, t: Db, c: ClaimId) {
    forall k, h | k != c :: (Counts(t, k, h) <==> Counts(s, k, h)) && (Counts(s, k, h) ==> ClaimOf(t, k, h) == ClaimOf(s, k, h))
  }

  lemma NewRowsClaims(s: Db, t: Db, h: Id)
    requires Linked(s)
    requires t.workspaces == s.workspaces && t.prebuilds == s.prebuilds
    requires s.projects.Keys <= t.projects.Keys && forall j | j in s.projects :: t.projects[j] == s.projects[j]
    requires s.machineTypes.Keys <= t.machineTypes.Keys
    requires forall m | m in s.machineTypes :: t.machineTypes[m] == s.machineTypes[m]
    ensures ClaimsOn(t, h) == ClaimsOn(s, h)
  {
    assert RowIds(t) == RowIds(s);
    assert forall c :: Counts(t, c, h) <==> Counts(s, c, h);
  }

  lemma WorkspaceRowOnly(s: Db, t: Db, w: Id, row: Workspace)
    requires OnlyWorkspaceRow(s, t, w, row)
    ensures OthersSame(s, t, OfWorkspace(w))
  {
  }

  lemma PrebuildRowOnly(s: Db, t: Db, p: Id, row: Prebuild)
    requires OnlyPrebuildRow(s, t, p, row)
    ensures OthersSame(s, t, OfPrebuild(p))
  {
  }

  lemma InsertedWorkspaceClaims(s: Db, t: Db, w: Id, row: Workspace, h: Id)
    requires OnlyWorkspaceRow(s, t, w, row)
    requires w !in s.workspaces && row.live && row.parent == None && row.machineType in s.machineTypes
    ensures var m := s.machineTypes[row.machineType];
            ClaimsOn(t, h) ==
            if h == row.host then ClaimsOn(s, h)[OfWorkspace(w) := Claim(row.cores, m.memory, m.disk)] else ClaimsOn(s, h)
    ensures OfWorkspace(w) !in ClaimsOn(s, h)
  {
    WorkspaceRowOnly(s, t, w, row);
    CountedRowClaims(s, t, OfWorkspace(w), row.host, h);
  }

  lemma InsertedPrebuildClaims(s: Db, t: Db, p: Id, row: Prebuild, h: Id)
    requires OnlyPrebuildRow(s, t, p, row)
    requires p !in s.prebuilds && row.live && row.status == Building
    requires row.project in s.projects && s.projects[row.project] in s.machineTypes
    ensures var m := s.machineTypes[s.projects[row.project]];
            ClaimsOn(t, h) ==
            if h == row.host && !row.byWorkspace then ClaimsOn(s, h)[OfPrebuild(p) := Claim(row.cores, m.memory, m.disk)]
            else ClaimsOn(s, h)
    ensures OfPrebuild(p) !in ClaimsOn(s, h)
  {
    PrebuildRowOnly(s, t, p, row);
    ClaimAt(s, h, OfPrebuild(p));
    if row.byWorkspace {
      UncountedRowClaims(s, t, OfPrebuild(p), h);
    } else {
      CountedRowClaims(s, t, OfPrebuild(p), row.host, h);
    }
  }

  lemma HiddenWorkspaceClaims(s: Db, t: Db, w: Id, row: Workspace, h: Id)
    requires OnlyWorkspaceRow(s, t, w, row)
    requires !row.live || row.parent != None
    ensures ClaimsOn(t, h) == ClaimsOn(s, h) - {OfWorkspace(w)}
    ensures !CountsWorkspace(s, w, h) ==> ClaimsOn(t, h) == ClaimsOn(s, h)
  {
    WorkspaceRowOnly(s, t, w, row);
    UncountedRowClaims(s, t, OfWorkspace(w), h);
  }

  lemma HiddenPrebuildClaims(s: Db, t: Db, p: Id, row: Prebuild, h: Id)
    requires OnlyPrebuildRow(s, t, p, row)
    requires !row.live || row.status != Building
    ensures ClaimsOn(t, h) == ClaimsOn(s, h) - {OfPrebuild(p)}
    ensures !CountsPrebuild(s, p, h) ==> ClaimsOn(t, h) == ClaimsOn(s, h)
  {
    PrebuildRowOnly(s, t, p, row);
    UncountedRowClaims(s, t, OfPrebuild(p), h);
  }

  /** What a step does to the claims on one host. */
  datatype Change = Adds(c: ClaimId, claim: Claim) | Drops(c: ClaimId) | Keeps

  function WorkspaceChange(s: Db, a: WorkspaceStep, h: Id): Change
    requires a.CreateWorkspace? ==> a.machineType in s.machineTypes
  {
    match a
    case CreateWorkspace(w, machineType, _, _, _, _, pick, _) =>
      var m := s.machineTypes[machineType];
      if pick.Picked? && pick.host == h then Adds(OfWorkspace(w), Claim(pick.cores, m.memory, m.disk)) else Keeps
    case DeleteWorkspace(w, _) => if CountsWorkspace(s, w, h) then Drops(OfWorkspace(w)) else Keeps
    case _ => Keeps
  }

  function PrebuildChange(s: Db, a: PrebuildStep, h: Id): Change
    requires a.CreatePrebuild? ==> a.project in s.projects && s.projects[a.project] in s.machineTypes
  {
    match a
    case CreatePrebuild(p, project, _, _, _, pick, _) =>
      var m := s.machineTypes[s.projects[project]];
      if pick.Picked? && pick.host == h then Adds(OfPrebuild(p), Claim(pick.cores, m.memory, m.disk)) else Keeps
    case FinishPrebuild(p, _, commits, _) => if commits && CountsPrebuild(s, p, h) then Drops(OfPrebuild(p)) else Keeps
    case _ => Keeps
  }

  ghost predicate Changes(before: Claims, after: Claims, change: Change) {
    match change
    case Adds(c, claim) => c !in before && after == before[c := claim]
    case Drops(c) => c in before && after == before - {c}
    case Keeps => after == before
  }

  lemma ClaimsAfterWorkspaceStep(s: Db, a: WorkspaceStep, t: Db, h: Id)
    requires Linked(s) && WorkspaceNext(s, a, t)
    ensures Changes(ClaimsOn(s, h), ClaimsOn(t, h), WorkspaceChange(s, a, h))
  {
    match a
    case CreateWorkspace(w, machineType, _, _, _, _, pick, _) =>
      if pick.Picked? {
        InsertedWorkspaceClaims(s, t, w, Workspace(pick.host, true, None, pick.cores, machineType), h);
      }
    case DeleteWorkspace(w, _) =>
      HiddenWorkspaceClaims(s, t, w, s.workspaces[w].(live := false), h);
      ClaimAt(s, h, OfWorkspace(w));
    case InsertService(w, main) =>
      HiddenWorkspaceClaims(s, t, w, s.workspaces[main].(live := true, parent := Some(main)), h);
    case DropService(w) =>
      HiddenWorkspaceClaims(s, t, w, s.workspaces[w].(live := false), h);
  }

  lemma ClaimsAfterPrebuildStep(s: Db, a: PrebuildStep, t: Db, h: Id)
    requires Linked(s) && DeletionsChecked(s) && PrebuildNext(s, a, t)
    ensures Changes(ClaimsOn(s, h), ClaimsOn(t, h), PrebuildChange(s, a, h))
  {
    match a
    case CreatePrebuild(p, project, usage, _, _, pick, _) =>
      if pick.Picked? {
        InsertedPrebuildClaims(s, t, p, Prebuild(pick.host, true, project, Building, pick.cores, false, usage), h);
      }
    case CreateWorkspacePrebuild(p, project, usage, w) =>
      InsertedPrebuildClaims(s, t, p, t.prebuilds[p], h);
    case FinishPrebuild(_, _, _, _) =>
      ClaimsAfterFinish(s, a, t, h);
    case RequestPrebuildDeletion(_, _) => ClaimsSame(s, t, h);
    case CommitPrebuildDeletion(d, unused) => ClaimsAfterPrebuildDeletion(s, a, t, h);
  }

  lemma ClaimsAfterFinish(s: Db, a: PrebuildStep, t: Db, h: Id)
    requires PrebuildNext(s, a, t) && a.FinishPrebuild?
    ensures Changes(ClaimsOn(s, h), ClaimsOn(t, h), PrebuildChange(s, a, h))
  {
    if a.commits {
      HiddenPrebuildClaims(s, t, a.p, t.prebuilds[a.p], h);
      ClaimAt(s, h, OfPrebuild(a.p));
    } else {
      ClaimsSame(s, t, h);
    }
  }

  /** The status check of a prebuild deletion may be stale, yet no counted claim disappears. */
  lemma ClaimsAfterPrebuildDeletion(s: Db, a: PrebuildStep, t: Db, h: Id)
    requires DeletionsChecked(s) && PrebuildNext(s, a, t) && a.CommitPrebuildDeletion?
    ensures ClaimsOn(t, h) == ClaimsOn(s, h)
  {
    var p := s.deletions[a.d];
    if a.unused {
      HiddenPrebuildClaims(s, t, p, s.prebuilds[p].(live := false), h);
    } else {
      ClaimsSame(s, t, h);
    }
  }

  /** A project's new machine type changes the sizes of its prebuilds' claims and nothing else. */
  lemma ClaimsAfterProjectChange(s: Db, a: CatalogStep, t: Db, h: Id)
    requires Linked(s) && CatalogNext(s, a, t) && a.SetProjectMachineType?
    ensures ClaimsOn(t, h).Keys == ClaimsOn(s, h).Keys
    ensures forall c | c in ClaimsOn(s, h) ::
              ClaimsOn(t, h)[c] ==
              if c.OfPrebuild? && s.prebuilds[c.id].project == a.project then
                var m := s.machineTypes[a.machineType];
                ClaimsOn(s, h)[c].(memory := m.memory, disk := m.disk)
              else
                ClaimsOn(s, h)[c]
  {
    forall c
      ensures c in ClaimsOn(t, h) <==> c in ClaimsOn(s, h)
    {
      ClaimAt(s, h, c);
      ClaimAt(t, h, c);
    }
    forall c | c in ClaimsOn(s, h)
      ensures ClaimsOn(t, h)[c] ==
              if c.OfPrebuild? && s.prebuilds[c.id].project == a.project then
                var m := s.machineTypes[a.machineType];
                ClaimsOn(s, h)[c].(memory := m.memory, disk := m.disk)
              else
                ClaimsOn(s, h)[c]
    {
      ClaimAt(s, h, c);
      ClaimAt(t, h, c);
    }
  }
}
