/**
 What the rows of the allocator tell of the past: a workspace or prebuild keeps what it was given for life, a prebuild's status tells
 how its build ended, and a host is what was last reported and written of it.
 */
module AllocatorHistory {
  import opened Common
  import opened Scheduler
  import opened Allocator
  import opened AllocatorSafety

  // ---------- workspaces ----------

  /** Host, cores, machine type and parent are for life, and nothing deleted comes back. */
  predicate SameWorkspace(before: Workspace, after: Workspace) {
    && after.host == before.host && after.cores == before.cores && after.machineType == before.machineType
    && after.parent == before.parent && (after.live ==> before.live)
  }

  lemma WorkspaceStepKeeps(s: Db, a: Step, t: Db, w: Id)
    requires Next(s, a, t) && w in s.workspaces
    ensures w in t.workspaces && SameWorkspace(s.workspaces[w], t.workspaces[w])
    ensures s.workspaces[w].live && !t.workspaces[w].live <==>
            s.workspaces[w].live && a.OnWorkspace? && (a.ws.DeleteWorkspace? || a.ws.DropService?) && a.ws.w == w
  {
  }

  /** A new row is an allocation of its own, or a service inside the allocation of its main workspace. */
  lemma NewWorkspace(s: Db, a: Step, t: Db, w: Id)
    requires Next(s, a, t) && w !in s.workspaces && w in t.workspaces
    ensures a.OnWorkspace? && a.ws.w == w && t.workspaces[w].live
    ensures || (a.ws.CreateWorkspace? && a.ws.pick.Picked? && t.workspaces[w].parent == None && t.workspaces[w].host == a.ws.pick.host
                && t.workspaces[w].cores == a.ws.pick.cores && t.workspaces[w].machineType == a.ws.machineType)
            || (a.ws.InsertService? && a.ws.main in s.workspaces && t.workspaces[w].parent == Some(a.ws.main)
                && t.workspaces[w].host == s.workspaces[a.ws.main].host && t.workspaces[w].cores == s.workspaces[a.ws.main].cores
                && t.workspaces[w].machineType == s.workspaces[a.ws.main].machineType)
  {
  }

  lemma {:induction false} WorkspaceKeepsItsPlace(states: seq<Db>, steps: seq<Step>, j: nat, k: nat, w: Id)
    requires Run(states, steps) && j <= k < |states| && w in states[j].workspaces
    ensures w in states[k].workspaces && SameWorkspace(states[j].workspaces[w], states[k].workspaces[w])
    decreases k
  {
    if j < k {
      WorkspaceKeepsItsPlace(states, steps, j, k - 1, w);
      WorkspaceStepKeeps(states[k - 1], steps[k - 1], states[k], w);
    }
  }

  // ---------- prebuilds ----------

  predicate SamePrebuild(before: Prebuild, after: Prebuild) {
    && after.host == before.host && after.cores == before.cores && after.project == before.project
    && after.byWorkspace == before.byWorkspace && after.usage == before.usage && (after.live ==> before.live)
  }

  /** The step is the end of the build of `p`, and its transaction is not lost. */
  predicate Ends(a: Step, p: Id) {
    a.OnPrebuild? && a.pb.FinishPrebuild? && a.pb.p == p && a.pb.commits
  }

  lemma PrebuildStepKeeps(s: Db, a: Step, t: Db, p: Id)
    requires Next(s, a, t) && p in s.prebuilds
    ensures p in t.prebuilds && SamePrebuild(s.prebuilds[p], t.prebuilds[p])
    ensures Ends(a, p) ==> t.prebuilds[p].status == if a.pb.built then Ready else Failed
    ensures !Ends(a, p) ==> t.prebuilds[p].status == s.prebuilds[p].status
    ensures s.prebuilds[p].live && !t.prebuilds[p].live <==>
            && s.prebuilds[p].live && a.OnPrebuild? && a.pb.CommitPrebuildDeletion? && a.pb.unused
            && a.pb.d in s.deletions && s.deletions[a.pb.d] == p
  {
  }

  lemma NewPrebuild(s: Db, a: Step, t: Db, p: Id)
    requires Next(s, a, t) && p !in s.prebuilds && p in t.prebuilds
    ensures a.OnPrebuild? && t.prebuilds[p].live && t.prebuilds[p].status == Building && t.prebuilds[p].usage !in s.usages
    ensures || (a.pb.CreatePrebuild? && a.pb.pick.Picked? && !t.prebuilds[p].byWorkspace && t.prebuilds[p].host == a.pb.pick.host
                && t.prebuilds[p].cores == a.pb.pick.cores && t.prebuilds[p].project == a.pb.project)
            || (a.pb.CreateWorkspacePrebuild? && a.pb.w in s.workspaces && t.prebuilds[p].byWorkspace
                && t.prebuilds[p].host == s.workspaces[a.pb.w].host && t.prebuilds[p].cores == s.workspaces[a.pb.w].cores
                && t.prebuilds[p].project == a.pb.project)
  {
  }

  lemma {:induction false} PrebuildKeepsItsPlace(states: seq<Db>, steps: seq<Step>, j: nat, k: nat, p: Id)
    requires Run(states, steps) && j <= k < |states| && p in states[j].prebuilds
    ensures p in states[k].prebuilds && SamePrebuild(states[j].prebuilds[p], states[k].prebuilds[p])
    decreases k
  {
    if j < k {
      PrebuildKeepsItsPlace(states, steps, j, k - 1, p);
      PrebuildStepKeeps(states[k - 1], steps[k - 1], states[k], p);
    }
  }

  /** A build of `p` has ended with this result among the first `k` steps. */
  ghost predicate Ended(steps: seq<Step>, k: nat, p: Id, built: bool)
    requires k <= |steps|
  {
    exists i | 0 <= i < k :: Ends(steps[i], p) && steps[i].pb.built == built
  }

  lemma EndedMore(steps: seq<Step>, k: nat, p: Id, built: bool)
    requires 0 < k <= |steps|
    ensures Ended(steps, k, p, built) <==> Ended(steps, k - 1, p, built) || (Ends(steps[k - 1], p) && steps[k - 1].pb.built == built)
  {
  }

  /** Ready tells of a build that succeeded, Failed of one that failed, and Building that none has ended. */
  lemma {:induction false} StatusTellsTheBuild(overcommit: nat, states: seq<Db>, steps: seq<Step>, k: nat, p: Id)
    requires Run(states, steps) && overcommit >= 1 && states[0] == Empty(overcommit) && k < |states|
    ensures p !in states[k].prebuilds ==> !Ended(steps, k, p, true) && !Ended(steps, k, p, false)
    ensures p in states[k].prebuilds ==>
              && (states[k].prebuilds[p].status == Ready <==> Ended(steps, k, p, true))
              && (states[k].prebuilds[p].status == Failed <==> Ended(steps, k, p, false))
  {
    if k > 0 {
      StatusTellsTheBuild(overcommit, states, steps, k - 1, p);
      EndedMore(steps, k, p, true);
      EndedMore(steps, k, p, false);
      EmptyIsSafe(overcommit);
      RunIsSafe(states, steps, k - 1);
      OnlyBuildingEnds(states[k - 1], steps[k - 1], states[k], p);
      if p in states[k - 1].prebuilds {
        PrebuildStepKeeps(states[k - 1], steps[k - 1], states[k], p);
      } else if p in states[k].prebuilds {
        NewPrebuild(states[k - 1], steps[k - 1], states[k], p);
      }
    }
  }

  lemma OnlyBuildingEnds(s: Db, a: Step, t: Db, p: Id)
    requires Safe(s) && Next(s, a, t)
    ensures Ends(a, p) ==> p in s.prebuilds && s.prebuilds[p].status == Building
  {
  }

  // ---------- hosts ----------

  /** What the monitor last reported of a host; nothing is reported of a new one. */
  function Reported(steps: seq<Step>, k: nat, h: Id): HostStatus
    requires k <= |steps|
  {
    if k == 0 then New
    else if steps[k - 1].OnHost? && steps[k - 1].hs.SetHostStatus? && steps[k - 1].hs.h == h then steps[k - 1].hs.reported
    else if steps[k - 1].OnHost? && steps[k - 1].hs.CreateHost? && steps[k - 1].hs.h == h then New
    else Reported(steps, k - 1, h)
  }

  lemma HostStepKeeps(s: Db, a: Step, t: Db, h: Id)
    requires Next(s, a, t) && h in s.hosts
    ensures h in t.hosts
    ensures t.hosts[h].status ==
            if a.OnHost? && a.hs.SetHostStatus? && a.hs.h == h then a.hs.reported else s.hosts[h].status
    ensures t.hosts[h].region == (if a.OnHost? && a.hs.BeginResize? && a.hs.h == h then a.hs.region else s.hosts[h].region)
    ensures t.hosts[h].totals == (if a.OnHost? && a.hs.BeginResize? && a.hs.h == h then a.hs.totals else s.hosts[h].totals)
    ensures t.hosts[h].live <==> s.hosts[h].live && !(a.OnHost? && a.hs.DeleteHost? && a.hs.h == h)
  {
  }

  lemma NewHost(s: Db, a: Step, t: Db, h: Id)
    requires Next(s, a, t) && h !in s.hosts && h in t.hosts
    ensures a.OnHost? && a.hs.CreateHost? && a.hs.h == h
    ensures t.hosts[h] == Host(true, New, a.hs.region, a.hs.totals,
                               Columns(a.hs.totals.cpu, a.hs.totals.cpu, a.hs.totals.memory, a.hs.totals.disk))
  {
  }

  /** A host is picked only after it was reported active: its status is the last report, and New before any. */
  lemma {:induction false} StatusIsTheLastReport(overcommit: nat, states: seq<Db>, steps: seq<Step>, k: nat, h: Id)
    requires Run(states, steps) && states[0] == Empty(overcommit) && k < |states| && h in states[k].hosts
    ensures states[k].hosts[h].status == Reported(steps, k, h)
  {
    if k > 0 {
      assert Takes(states[k - 1], steps[k - 1], states[k]);
      if h in states[k - 1].hosts {
        StatusIsTheLastReport(overcommit, states, steps, k - 1, h);
        HostStepKeeps(states[k - 1], steps[k - 1], states[k], h);
      } else {
        NewHost(states[k - 1], steps[k - 1], states[k], h);
      }
    }
  }

  /** The overcommit factor is the last one set, and setting it recalculates no host. */
  lemma FactorIsTheLastSetting(s: Db, a: Step, t: Db)
    requires Next(s, a, t)
    ensures t.overcommit == if a.OnHost? && a.hs.UpdateOvercommit? then a.hs.value else s.overcommit
    ensures a.OnHost? && a.hs.UpdateOvercommit? ==> a.hs.value >= 2 && t.hosts == s.hosts
  {
  }
}
