/**
 What holds in every state the allocator can reach: no core is handed out twice, and the usage ledger of the prebuilds is
 right.
 */
module AllocatorSafety {
  import opened Common
  import opened Scheduler
  import opened Allocator

  /** A prebuild is Building exactly as long as its usage record is open. */
  ghost predicate Ledger(s: Db) {
    && (forall p | p in s.prebuilds :: s.prebuilds[p].usage in s.usages)
    && (forall p, q | p in s.prebuilds && q in s.prebuilds && p != q :: s.prebuilds[p].usage != s.prebuilds[q].usage)
    && (forall p | p in s.prebuilds :: s.prebuilds[p].status == Building <==> s.usages[s.prebuilds[p].usage])
    && (forall p | p in s.builds :: p in s.prebuilds && s.prebuilds[p].status == Building)
  }

  /** No core is handed out twice. */
  ghost predicate CoresDisjoint(s: Db) {
    forall h :: Disjoint(ClaimsOn(s, h))
  }

  ghost predicate Safe(s: Db) {
    && s.overcommit >= 1
    && Linked(s)
    && DeletionsChecked(s)
    && Ledger(s)
    && CoresDisjoint(s)
  }

  lemma EmptyIsSafe(overcommit: nat)
    requires overcommit >= 1
    ensures Safe(Empty(overcommit))
  {
  }

  // ---------- links and ledger ----------

  lemma LinkedWorkspaceStep(s: Db, a: WorkspaceStep, t: Db)
    requires Linked(s) && WorkspaceNext(s, a, t)
    ensures Linked(t)
  {
  }

  lemma LinkedPrebuildStep(s: Db, a: PrebuildStep, t: Db)
    requires Linked(s) && PrebuildNext(s, a, t)
    ensures Linked(t)
  {
  }

  lemma LinkedHostStep(s: Db, a: HostStep, t: Db)
    requires Linked(s) && HostNext(s, a, t)
    ensures Linked(t)
  {
  }

  lemma LedgerInsert(s: Db, p: Id, row: Prebuild, t: Db)
    requires Ledger(s) && p !in s.prebuilds && row.usage !in s.usages && row.status == Building
    requires InsertsPrebuild(s, t, p, row)
    ensures Ledger(t)
  {
  }

  lemma LedgerFinish(s: Db, p: Id, status: PrebuildStatus, t: Db)
    requires Ledger(s) && p in s.prebuilds && status != Building
    requires t.prebuilds == s.prebuilds[p := s.prebuilds[p].(status := status)]
    requires t.usages == s.usages[s.prebuilds[p].usage := false] && t.builds == s.builds - {p}
    ensures Ledger(t)
  {
  }

  lemma LedgerUnchanged(s: Db, t: Db)
    requires Ledger(s) && t.usages == s.usages && t.builds <= s.builds && t.prebuilds.Keys == s.prebuilds.Keys
    requires forall p | p in s.prebuilds :: t.prebuilds[p].(live := s.prebuilds[p].live) == s.prebuilds[p]
    ensures Ledger(t)
  {
  }

  lemma LedgerPrebuildStep(s: Db, a: PrebuildStep, t: Db)
    requires Ledger(s) && PrebuildNext(s, a, t)
    ensures Ledger(t)
  {
    match a
    case CreatePrebuild(p, project, usage, _, _, pick, _) =>
      if pick.Picked? {
        LedgerInsert(s, p, Prebuild(pick.host, true, project, Building, pick.cores, false, usage), t);
      }
    case CreateWorkspacePrebuild(p, project, usage, w) => LedgerInsert(s, p, t.prebuilds[p], t);
    case FinishPrebuild(p, built, commits, _) =>
      if commits {
        LedgerFinish(s, p, if built then Ready else Failed, t);
      } else {
        LedgerUnchanged(s, t);
      }
    case RequestPrebuildDeletion(_, _) => LedgerUnchanged(s, t);
    case CommitPrebuildDeletion(_, _) => LedgerUnchanged(s, t);
  }

  /** A finished prebuild stays as it is; only its deletion mark may still change. */
  ghost predicate FinishedStay(s: Db, t: Db) {
    forall p | p in s.prebuilds ::
      p in t.prebuilds && (s.prebuilds[p].status != Building ==> t.prebuilds[p].(live := s.prebuilds[p].live) == s.prebuilds[p])
  }

  lemma FinishedStayStep(s: Db, a: PrebuildStep, t: Db)
    requires Ledger(s) && PrebuildNext(s, a, t)
    ensures FinishedStay(s, t)
  {
  }

  lemma DeletionsPrebuildStep(s: Db, a: PrebuildStep, t: Db)
    requires DeletionsChecked(s) && Ledger(s) && PrebuildNext(s, a, t)
    ensures DeletionsChecked(t)
  {
  }

  // ---------- cores ----------

  lemma DisjointChange(before: Claims, after: Claims, change: Change)
    requires Disjoint(before) && Changes(before, after, change)
    requires change.Adds? ==> CoreSet(change.claim.cores) !! Taken(before)
    ensures Disjoint(after)
  {
  }

  /**
   The cores a host gives for a machine type: a dedicated allocation has exactly the requested number of different
   cores, all of them cores of the host, and none of them in use.
   */
  ghost predicate ProperAllocation(s: Db, h: Id, cores: CpuCore, m: MachineType, licensed: bool) {
    && h in s.hosts
    && CoreSet(cores) !! Taken(ClaimsOn(s, h))
    && (forall i | i in CoreSet(cores) :: i < s.hosts[h].totals.cpu)
    && if licensed && m.shared then cores == Shared(m.cpu) else cores.Dedicated? && |CoreSet(cores)| == m.cpu
  }

  lemma PickIsProper(s: Db, m: MachineType, licensed: bool, region: string, prebuildHost: Option<Id>,
                     replicas: seq<Id>, pick: Pick)
    requires pick.Picked?
    requires PickSpec(s.hosts, AllClaims(s), RequestFor(m, licensed, region), prebuildHost, replicas, pick)
    ensures ProperAllocation(s, pick.host, pick.cores, m, licensed)
  {
    if pick.cores.Dedicated? {
      DistinctCount(pick.cores.cores);
    }
  }

  lemma CoresDisjointWorkspaceStep(s: Db, a: WorkspaceStep, t: Db)
    requires Linked(s) && CoresDisjoint(s) && WorkspaceNext(s, a, t)
    requires WorkspaceComputed(s, a, t)
    ensures CoresDisjoint(t)
  {
    if a.CreateWorkspace? && a.pick.Picked? {
      PickIsProper(s, s.machineTypes[a.machineType], a.licensed, a.region, a.prebuildHost, a.replicas, a.pick);
    }
    forall h
      ensures Disjoint(ClaimsOn(t, h))
    {
      ClaimsAfterWorkspaceStep(s, a, t, h);
      DisjointChange(ClaimsOn(s, h), ClaimsOn(t, h), WorkspaceChange(s, a, h));
    }
  }

  lemma CoresDisjointPrebuildStep(s: Db, a: PrebuildStep, t: Db)
    requires Linked(s) && DeletionsChecked(s) && CoresDisjoint(s) && PrebuildNext(s, a, t)
    requires PrebuildComputed(s, a, t)
    ensures CoresDisjoint(t)
  {
    if a.CreatePrebuild? && a.pick.Picked? {
      PickIsProper(s, s.machineTypes[s.projects[a.project]], a.licensed, a.region, None, [], a.pick);
    }
    forall h
      ensures Disjoint(ClaimsOn(t, h))
    {
      ClaimsAfterPrebuildStep(s, a, t, h);
      DisjointChange(ClaimsOn(s, h), ClaimsOn(t, h), PrebuildChange(s, a, h));
    }
  }

  lemma CoresDisjointCatalogStep(s: Db, a: CatalogStep, t: Db)
    requires Linked(s) && CoresDisjoint(s) && CatalogNext(s, a, t)
    ensures CoresDisjoint(t)
  {
    forall h
      ensures Disjoint(ClaimsOn(t, h))
    {
      if a.SetProjectMachineType? {
        ClaimsAfterProjectChange(s, a, t, h);
        var before, after := ClaimsOn(s, h), ClaimsOn(t, h);
        assert forall c | c in before :: after[c].cores == before[c].cores;
      } else {
        NewRowsClaims(s, t, h);
      }
    }
  }

  // ---------- safety of every run ----------

  lemma SafeWorkspaceStep(s: Db, a: WorkspaceStep, t: Db)
    requires Safe(s) && WorkspaceNext(s, a, t) && WorkspaceComputed(s, a, t)
    ensures Safe(t)
  {
    LinkedWorkspaceStep(s, a, t);
    CoresDisjointWorkspaceStep(s, a, t);
  }

  lemma SafePrebuildStep(s: Db, a: PrebuildStep, t: Db)
    requires Safe(s) && PrebuildNext(s, a, t) && PrebuildComputed(s, a, t)
    ensures Safe(t)
  {
    LinkedPrebuildStep(s, a, t);
    DeletionsPrebuildStep(s, a, t);
    LedgerPrebuildStep(s, a, t);
    CoresDisjointPrebuildStep(s, a, t);
    assert t.overcommit == s.overcommit;
  }

  lemma SafeHostStep(s: Db, a: HostStep, t: Db)
    requires Safe(s) && HostNext(s, a, t)
    ensures Safe(t)
  {
    LinkedHostStep(s, a, t);
    forall h
      ensures ClaimsOn(t, h) == ClaimsOn(s, h)
    {
      ClaimsSame(s, t, h);
    }
  }

  lemma SafeCatalogStep(s: Db, a: CatalogStep, t: Db)
    requires Safe(s) && CatalogNext(s, a, t)
    ensures Safe(t)
  {
    CoresDisjointCatalogStep(s, a, t);
  }

  lemma SafeStep(s: Db, a: Step, t: Db)
    requires Safe(s) && Next(s, a, t) && Computed(s, a, t)
    ensures Safe(t)
  {
    match a
    case OnWorkspace(x) => SafeWorkspaceStep(s, x, t);
    case OnPrebuild(x) => SafePrebuildStep(s, x, t);
    case OnCatalog(x) => SafeCatalogStep(s, x, t);
    case OnHost(x) => SafeHostStep(s, x, t);
  }

  /**
   In every state of every run no core is handed out twice, a prebuild is Building exactly while its usage is open,
   and no pending prebuild deletion can remove a counted claim.
   */
  lemma {:induction false} RunIsSafe(states: seq<Db>, steps: seq<Step>, k: nat)
    requires Run(states, steps) && Safe(states[0]) && k < |states|
    ensures Safe(states[k])
  {
    if k > 0 {
      RunIsSafe(states, steps, k - 1);
      SafeStep(states[k - 1], steps[k - 1], states[k]);
    }
  }

  /** Once finished, a prebuild never builds again and its usage never reopens. */
  lemma FinishedForGood(states: seq<Db>, steps: seq<Step>, j: nat, k: nat, p: Id)
    requires Run(states, steps) && Safe(states[0]) && j <= k < |states|
    requires p in states[j].prebuilds && states[j].prebuilds[p].status != Building
    ensures p in states[k].prebuilds && states[k].prebuilds[p].status == states[j].prebuilds[p].status
    ensures states[k].prebuilds[p].usage in states[k].usages && !states[k].usages[states[k].prebuilds[p].usage]
  {
    StatusKept(states, steps, j, k, p);
    RunIsSafe(states, steps, k);
  }

  lemma {:induction false} StatusKept(states: seq<Db>, steps: seq<Step>, j: nat, k: nat, p: Id)
    requires Run(states, steps) && Safe(states[0]) && j <= k < |states|
    requires p in states[j].prebuilds && states[j].prebuilds[p].status != Building
    ensures p in states[k].prebuilds && states[k].prebuilds[p].status == states[j].prebuilds[p].status
    decreases k
  {
    if j < k {
      StatusKept(states, steps, j, k - 1, p);
      RunIsSafe(states, steps, k - 1);
      StepKeepsStatus(states[k - 1], steps[k - 1], states[k], p);
    }
  }

  lemma StepKeepsStatus(s: Db, a: Step, t: Db, p: Id)
    requires Safe(s) && Next(s, a, t) && p in s.prebuilds && s.prebuilds[p].status != Building
    ensures p in t.prebuilds && t.prebuilds[p].status == s.prebuilds[p].status
  {
    if a.OnPrebuild? {
      FinishedStayStep(s, a.pb, t);
    }
  }
}
