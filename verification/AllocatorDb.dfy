/**
 The transactions of the allocator, as methods that change the tables in place.  Each is proved to take one step of the
 allocator's state machine, with the scheduling and the recalculation done by the scheduler's own loops, and so to
 keep the tables safe.  A request that the handlers refuse changes nothing.
 */
module AllocatorDb {
  import opened Common
  import opened Scheduler
  import opened Allocator
  import opened AllocatorSafety

  ghost predicate WorkspacePlaced(s: Db, w: Id, row: Workspace, columns: Columns, t: Db) {
    && KeepsPrebuilds(s, t) && KeepsCatalog(s, t) && KeepsAdmin(s, t)
    && t.workspaces == s.workspaces[w := row]
    && WritesColumns(s, t, row.host, columns)
    && Recalculation(t, row.host, s.hosts[row.host].totals, columns)
  }

  ghost predicate PrebuildPlaced(s: Db, p: Id, row: Prebuild, columns: Columns, t: Db) {
    && KeepsWorkspaces(s, t) && KeepsCatalog(s, t) && KeepsAdmin(s, t)
    && InsertsPrebuild(s, t, p, row)
    && WritesColumns(s, t, row.host, columns)
    && Recalculation(t, row.host, s.hosts[row.host].totals, columns)
  }

  lemma WorkspaceCreated(s: Db, a: WorkspaceStep, t: Db)
    requires Safe(s) && a.CreateWorkspace? && a.w !in s.workspaces && a.machineType in s.machineTypes
    requires PickSpec(s.hosts, AllClaims(s), RequestFor(s.machineTypes[a.machineType], a.licensed, a.region),
                      a.prebuildHost, a.replicas, a.pick)
    requires if a.pick.Picked? then
               WorkspacePlaced(s, a.w, Workspace(a.pick.host, true, None, a.pick.cores, a.machineType), a.columns, t)
             else
               t == s
    ensures Takes(s, OnWorkspace(a), t) && Safe(t)
  {
    SafeWorkspaceStep(s, a, t);
  }

  lemma PrebuildCreated(s: Db, a: PrebuildStep, t: Db)
    requires Safe(s) && a.CreatePrebuild? && a.p !in s.prebuilds && a.usage !in s.usages && a.project in s.projects
    requires PickSpec(s.hosts, AllClaims(s), RequestFor(s.machineTypes[s.projects[a.project]], a.licensed, a.region),
                      None, [], a.pick)
    requires if a.pick.Picked? then
               PrebuildPlaced(s, a.p, Prebuild(a.pick.host, true, a.project, Building, a.pick.cores, false, a.usage), a.columns, t)
             else
               t == s
    ensures Takes(s, OnPrebuild(a), t) && Safe(t)
  {
    SafePrebuildStep(s, a, t);
  }

  class Tables {
    var hosts: map<Id, Host>
    var workspaces: map<Id, Workspace>
    var prebuilds: map<Id, Prebuild>
    var projects: map<Id, Id>
    var machineTypes: map<Id, MachineType>
    var usages: map<Id, bool>
    var overcommit: nat
    var builds: set<Id>
    var resizes: map<Id, Resize>
    var deletions: map<Id, Id>

    function View(): Db
      reads this
    {
      Db(hosts, workspaces, prebuilds, projects, machineTypes, usages, overcommit, builds, resizes, deletions)
    }

    ghost predicate Valid()
      reads this
    {
      Safe(View())
    }

    /** A new installation: the overcommit factor is the configured one, 4 by default, and at least 1. */
    constructor (configured: Option<nat>)
      ensures Valid()
      ensures View() == Empty(if configured == None then 4 else if configured.value < 1 then 1 else configured.value)
    {
      hosts, workspaces, prebuilds, projects, machineTypes := map[], map[], map[], map[], map[];
      usages, builds, resizes, deletions := map[], {}, map[], map[];
      var factor := if configured == None then 4 else configured.value;
      overcommit := if factor < 1 then 1 else factor;
      new;
      EmptyIsSafe(overcommit);
    }

    /** Recomputes the columns of a row from the claims and writes them. */
    method Recalculate(h: Id, totals: Totals) returns (columns: Columns)
      requires overcommit >= 1 && h in hosts
      modifies this`hosts
      ensures WritesColumns(old(View()), View(), h, columns)
      ensures Recalculation(View(), h, totals, columns)
    {
      ghost var s := View();
      columns := RecalculateWorkspaceHost(totals, overcommit, ClaimsOn(View(), h));
      hosts := hosts[h := hosts[h].(available := columns)];
      ClaimsSame(s, View(), h);
    }

    /** The same with the row lock taken first: there is nothing to lock on a deleted host. */
    method RecalculateIfLocked(h: Id) returns (columns: Columns)
      requires overcommit >= 1
      modifies this`hosts
      ensures WritesIfLocked(old(View()), View(), h, columns)
      ensures Locked(old(View()), h) ==> Recalculation(View(), h, old(hosts[h].totals), columns)
    {
      columns := Columns(0, 0, 0, 0);
      if h in hosts && hosts[h].live {
        columns := Recalculate(h, hosts[h].totals);
      }
    }

    /** The scheduler's choice among the rows as they are. */
    method Schedule(request: Request, prebuildHost: Option<Id>, replicas: seq<Id>) returns (pick: Pick)
      requires overcommit >= 1
      ensures PickSpec(hosts, AllClaims(View()), request, prebuildHost, replicas, pick)
    {
      pick := PickWorkspaceHost(hosts, AllClaims(View()), overcommit, request, prebuildHost, replicas);
    }

    // ---------- workspaces ----------

    method PlaceWorkspace(w: Id, row: Workspace) returns (columns: Columns)
      requires overcommit >= 1 && row.host in hosts
      modifies this`workspaces, this`hosts
      ensures WorkspacePlaced(old(View()), w, row, columns, View())
    {
      workspaces := workspaces[w := row];
      columns := Recalculate(row.host, hosts[row.host].totals);
    }

    method CreateWorkspaceModel(w: Id, machineType: Id, licensed: bool, region: string, prebuildHost: Option<Id>,
                                replicas: seq<Id>)
      returns (pick: Pick, columns: Columns)
      requires Valid() && w !in workspaces && machineType in machineTypes
      modifies this
      ensures Takes(old(View()), OnWorkspace(CreateWorkspace(w, machineType, licensed, region, prebuildHost, replicas, pick, columns)),
                    View())
      ensures Valid()
    {
      ghost var s := View();
      columns := Columns(0, 0, 0, 0);
      pick := Schedule(RequestFor(machineTypes[machineType], licensed, region), prebuildHost, replicas);
      if pick.Picked? {
        columns := PlaceWorkspace(w, Workspace(pick.host, true, None, pick.cores, machineType));
      }
      WorkspaceCreated(s, CreateWorkspace(w, machineType, licensed, region, prebuildHost, replicas, pick, columns), View());
    }

    method DeleteWorkspaceRow(w: Id) returns (columns: Columns)
      requires Valid() && w in workspaces
      modifies this
      ensures Takes(old(View()), OnWorkspace(DeleteWorkspace(w, columns)), View())
      ensures Valid()
    {
      ghost var s := View();
      var host := workspaces[w].host;
      workspaces := workspaces[w := workspaces[w].(live := false)];
      columns := RecalculateIfLocked(host);
      assert WorkspaceNext(s, DeleteWorkspace(w, columns), View());
      SafeWorkspaceStep(s, DeleteWorkspace(w, columns), View());
    }

    /** A further service of a compose build runs inside the allocation of its main workspace. */
    method InsertServiceRow(w: Id, main: Id)
      requires Valid() && w !in workspaces && main in workspaces
      modifies this
      ensures Takes(old(View()), OnWorkspace(InsertService(w, main)), View())
      ensures Valid()
    {
      ghost var s := View();
      workspaces := workspaces[w := workspaces[main].(live := true, parent := Some(main))];
      assert WorkspaceNext(s, InsertService(w, main), View());
      SafeWorkspaceStep(s, InsertService(w, main), View());
    }

    /** A rebuild marks the old services deleted, without a recalculation. */
    method DropServiceRow(w: Id)
      requires Valid() && w in workspaces && workspaces[w].parent != None
      modifies this
      ensures Takes(old(View()), OnWorkspace(DropService(w)), View())
      ensures Valid()
    {
      ghost var s := View();
      workspaces := workspaces[w := workspaces[w].(live := false)];
      assert WorkspaceNext(s, DropService(w), View());
      SafeWorkspaceStep(s, DropService(w), View());
    }

    // ---------- prebuilds ----------

    method InsertPrebuildRow(p: Id, row: Prebuild)
      requires p !in prebuilds && row.usage !in usages && row.project in projects
      modifies this`prebuilds, this`usages, this`builds
      ensures InsertsPrebuild(old(View()), View(), p, row)
    {
      usages := usages[row.usage := true];
      prebuilds := prebuilds[p := row];
      builds := builds + {p};
    }

    method PlacePrebuild(p: Id, row: Prebuild) returns (columns: Columns)
      requires overcommit >= 1 && row.host in hosts
      requires p !in prebuilds && row.usage !in usages && row.project in projects
      modifies this`prebuilds, this`usages, this`builds, this`hosts
      ensures PrebuildPlaced(old(View()), p, row, columns, View())
    {
      InsertPrebuildRow(p, row);
      columns := Recalculate(row.host, hosts[row.host].totals);
    }

    method CreateProjectPrebuild(p: Id, project: Id, usage: Id, licensed: bool, region: string)
      returns (pick: Pick, columns: Columns)
      requires Valid() && p !in prebuilds && usage !in usages && project in projects
      modifies this
      ensures Takes(old(View()), OnPrebuild(CreatePrebuild(p, project, usage, licensed, region, pick, columns)), View())
      ensures Valid()
    {
      ghost var s := View();
      columns := Columns(0, 0, 0, 0);
      pick := Schedule(RequestFor(machineTypes[projects[project]], licensed, region), None, []);
      if pick.Picked? {
        columns := PlacePrebuild(p, Prebuild(pick.host, true, project, Building, pick.cores, false, usage));
      }
      PrebuildCreated(s, CreatePrebuild(p, project, usage, licensed, region, pick, columns), View());
    }

    /** Built on behalf of a workspace, with the cores of that workspace. */
    method CreatePrebuildForWorkspace(p: Id, project: Id, usage: Id, w: Id)
      requires Valid() && p !in prebuilds && usage !in usages && project in projects && w in workspaces
      modifies this
      ensures Takes(old(View()), OnPrebuild(CreateWorkspacePrebuild(p, project, usage, w)), View())
      ensures Valid()
    {
      ghost var s := View();
      InsertPrebuildRow(p, Prebuild(workspaces[w].host, true, project, Building, workspaces[w].cores, true, usage));
      assert PrebuildNext(s, CreateWorkspacePrebuild(p, project, usage, w), View());
      SafePrebuildStep(s, CreateWorkspacePrebuild(p, project, usage, w), View());
    }

    /** Status, recalculation and end of the usage, in one transaction. */
    method WriteFinish(p: Id, status: PrebuildStatus) returns (columns: Columns)
      requires overcommit >= 1 && p in prebuilds
      modifies this`prebuilds, this`usages, this`hosts
      ensures prebuilds == old(prebuilds)[p := old(prebuilds)[p].(status := status)]
      ensures usages == old(usages)[old(prebuilds)[p].usage := false]
      ensures WritesIfLocked(old(View()), View(), old(prebuilds)[p].host, columns)
      ensures var h := old(prebuilds)[p].host;
              Locked(old(View()), h) ==> Recalculation(View(), h, old(hosts)[h].totals, columns)
    {
      var host, usage := prebuilds[p].host, prebuilds[p].usage;
      prebuilds := prebuilds[p := prebuilds[p].(status := status)];
      columns := RecalculateIfLocked(host);
      ghost var s := View();
      usages := usages[usage := false];
      ClaimsSame(s, View(), host);
    }

    /** The end of a prebuild's background task; the transaction may also be lost, and then nothing is written. */
    method FinishProjectPrebuild(p: Id, built: bool, commits: bool) returns (columns: Columns)
      requires Valid() && p in builds
      modifies this
      ensures Takes(old(View()), OnPrebuild(FinishPrebuild(p, built, commits, columns)), View())
      ensures Valid()
    {
      ghost var s := View();
      columns := Columns(0, 0, 0, 0);
      builds := builds - {p};
      if commits {
        columns := WriteFinish(p, if built then Ready else Failed);
      }
      ghost var a := FinishPrebuild(p, built, commits, columns);
      assert PrebuildNext(s, a, View()) && PrebuildComputed(s, a, View());
      SafePrebuildStep(s, a, View());
    }

    /** The check before the transaction: a prebuild that is building is not deleted. */
    method RequestDeletion(d: Id, p: Id) returns (accepted: bool)
      requires Valid() && d !in deletions && p in prebuilds
      modifies this
      ensures accepted <==> old(prebuilds[p].status) != Building
      ensures accepted ==> Takes(old(View()), OnPrebuild(RequestPrebuildDeletion(d, p)), View())
      ensures !accepted ==> View() == old(View())
      ensures Valid()
    {
      ghost var s := View();
      accepted := prebuilds[p].status != Building;
      if accepted {
        deletions := deletions[d := p];
        assert PrebuildNext(s, RequestPrebuildDeletion(d, p), View());
        SafePrebuildStep(s, RequestPrebuildDeletion(d, p), View());
      }
    }

    method CommitDeletion(d: Id, unused: bool)
      requires Valid() && d in deletions
      modifies this
      ensures Takes(old(View()), OnPrebuild(CommitPrebuildDeletion(d, unused)), View())
      ensures Valid()
    {
      ghost var s := View();
      var p := deletions[d];
      deletions := deletions - {d};
      if unused {
        prebuilds := prebuilds[p := prebuilds[p].(live := false)];
      }
      assert PrebuildNext(s, CommitPrebuildDeletion(d, unused), View());
      SafePrebuildStep(s, CommitPrebuildDeletion(d, unused), View());
    }

    // ---------- hosts ----------

    method CreateWorkspaceHost(h: Id, region: string, totals: Totals)
      requires Valid() && h !in hosts
      modifies this
      ensures Takes(old(View()), OnHost(CreateHost(h, region, totals)), View())
      ensures Valid()
    {
      ghost var s := View();
      hosts := hosts[h := Host(true, New, region, totals, Columns(totals.cpu, totals.cpu, totals.memory, totals.disk))];
      SafeHostStep(s, CreateHost(h, region, totals), View());
    }

    /** The first statement of an update writes the totals; the recalculation follows in a transaction of its own. */
    method BeginUpdateHost(r: Id, h: Id, region: string, totals: Totals)
      requires Valid() && r !in resizes && h in hosts
      modifies this
      ensures Takes(old(View()), OnHost(BeginResize(r, h, region, totals)), View())
      ensures Valid()
    {
      ghost var s := View();
      hosts := hosts[h := hosts[h].(region := region, totals := totals)];
      resizes := resizes[r := Resize(h, totals, None)];
      SafeHostStep(s, BeginResize(r, h, region, totals), View());
    }

    /** The recalculation reads the claims; nothing keeps them from changing before it writes. */
    method ReadForUpdate(r: Id)
      requires Valid() && r in resizes && resizes[r].read == None
      modifies this
      ensures Takes(old(View()), OnHost(ReadResize(r)), View())
      ensures Valid()
    {
      ghost var s := View();
      resizes := resizes[r := resizes[r].(read := Some(ClaimsOn(View(), resizes[r].host)))];
      assert HostNext(s, ReadResize(r), View());
      SafeHostStep(s, ReadResize(r), View());
    }

    method FinishUpdateHost(r: Id) returns (columns: Columns)
      requires Valid() && r in resizes && resizes[r].read.Some? && resizes[r].host in hosts
      modifies this
      ensures Takes(old(View()), OnHost(FinishResize(r, columns)), View())
      ensures Valid()
    {
      ghost var s := View();
      var h, totals := resizes[r].host, resizes[r].totals;
      columns := RecalculateWorkspaceHost(totals, overcommit, resizes[r].read.value);
      hosts := hosts[h := hosts[h].(available := columns)];
      resizes := resizes - {r};
      assert HostNext(s, FinishResize(r, columns), View()) && HostComputed(s, FinishResize(r, columns), View());
      SafeHostStep(s, FinishResize(r, columns), View());
    }

    method DeleteWorkspaceHost(h: Id) returns (accepted: bool)
      requires Valid() && h in hosts
      modifies this
      ensures accepted <==> forall w | w in old(workspaces) && old(workspaces)[w].host == h :: !old(workspaces)[w].live
      ensures accepted ==> Takes(old(View()), OnHost(DeleteHost(h)), View())
      ensures !accepted ==> View() == old(View())
      ensures Valid()
    {
      ghost var s := View();
      accepted := forall w | w in workspaces && workspaces[w].host == h :: !workspaces[w].live;
      if accepted {
        hosts := hosts[h := hosts[h].(live := false)];
        SafeHostStep(s, DeleteHost(h), View());
      }
    }

    method UpdateCpuOvercommit(value: nat) returns (accepted: bool)
      requires Valid()
      modifies this
      ensures accepted <==> value >= 2
      ensures accepted ==> Takes(old(View()), OnHost(UpdateOvercommit(value)), View())
      ensures !accepted ==> View() == old(View())
      ensures Valid()
    {
      ghost var s := View();
      if value < 2 {
        return false;
      }
      overcommit := value;
      SafeHostStep(s, UpdateOvercommit(value), View());
      return true;
    }
  }
}
