# Lapdev conductor: a verified model

This project models the parts of Lapdev whose guarantees hold only over whole runs, and proves them with Dafny 4.11.
`dafny verify dfyconfig.toml` checks all of it.

- **Host scheduler** (`CoreSets`, `Scheduler`, `Allocator*`, `HostUpdates`): hosts, workspaces, prebuilds, projects and machine types as
  tables; every transaction that creates or releases a claim on a host is a step. No core is handed out twice, the four
  cached availability columns equal a recomputation, no run of allocations overcommits, and scheduling fails exactly when
  no host has room. `AllocatorDb` holds the transactions as methods that change the tables in place, and `AllocatorHistory` says what
  the rows tell of the past.
- **Workspace life cycle** (`Lifecycle`, `Families`, `UsageLedger`, `PaidUse`, `LifecycleLaws`, `LifecycleDb`, `LifecycleRuns`): requests
  and the background work they leave behind, with arbitrary answers from the hosts. Compose families are a forest of depth one, a
  finished build has exactly the services of its output, and at rest a main workspace has one open usage exactly while it runs.
- **Log replay** (`Updates`): publishers record under a mutex and send after releasing it; delivery of the current log is exactly
  once under every interleaving.
- **Devbox tunnels** (`TunnelRegistry`): generations, asynchronous cleanup, newest open client.
- **Quotas** (`Quota`, tied to the life cycle by `StatusMoves`), **automatic stop** (`AutoStop`), **organizations** (`Organization`), **date picker** (`Calendar`),
  **API host** (`ApiHost`).

Steps are relations between table states, runs are sequences of steps, and the main theorems speak of every state of every
run. What the program changes in place is a class whose methods are proved to take exactly these steps; what it computes
in loops is a method with a loop, proved against a closed form.

## Findings

The model follows the code. Where a property one would expect is false of it, a lemma gives an input or a run that shows it and
another states exactly when the property holds.

- A host update writes the totals, then reads the claims and writes the columns without locking the row, with the totals it
  remembers. Overlapping updates of one host leave a wrong cache that lasts until the next recalculation
  (`OverlappingUpdatesSpoilTheCache`; exactly when: `UpdatesExact`), and so does an allocation between reading and writing
  (`AllocationDuringUpdateSpoilsTheCache`; exactly when: `FinishResizeExact`).
- Changing a project's machine type while one of its prebuilds is building is not followed by a recalculation
  (`ProjectChangeSpoilsTheCache`; exactly when: `ProjectChangeExact`).
- A compose build without services never reaches the step that makes the workspace run: it stays Building with an open usage,
  and a later start opens a second one (`EmptyComposeStaysBilled`, `EmptyComposeLeaks`; exactly when: `FinishExact`).
- Logging in to a stopped service starts its main workspace without asking whether that one runs, and loses its open usage
  (`LoginToStoppedServiceLeaks`; exactly when: `StartExact`, `StartRequestExact`).
- A creation or rebuild that fails ends its usage but leaves it in the row, and a rebuild goes on with the usage it finds there. A
  workspace whose compilation failed and that is then rebuilt runs without an open usage (`RebuiltRunsUnbilled`; exactly when:
  `RebuildPaidExact` with `RebuildKeepsItsUsage`).
- The check for automatic stop asks for no organization in its queries, so the timeout of one stops the workspaces of all
  (`ForeignWorkspaceIsStopped`; exactly when not: `StopsOnlyItsOwnExact`).
- The running-workspace count includes workspaces that are being deleted, so deleting a stopped one can exceed the limit
  (`DeletionGoesOverTheLimit`; exactly when: `ChangeWithinExact`).
- Overlapping publishers of one key may deliver lines in another order than the log has (`OverlapSwapsLines`; exactly when:
  `OrderStepExact`, `RunOrderExact`).
- When the last page of a workspace is closed, its cleanup throws the log away. A page that is loaded again during a build does not get
  the earlier output (`ReloadLosesLines`; exactly when: `WholeOutputExact`). Prebuilds keep theirs (`PrebuildOutputIsWhole`).
- A deletion removes the main workspace although the host refused to remove a service, which then lives on beyond the reach of any
  request (`RefusedServiceIsOrphaned`; exactly when: `DeletionExact`).
- `resolve_api_host` promises the host without a path, but removes only `/api` and `/api/v1` (`PathKept`, `OtherPathsStay`;
  exactly when: `ResolvedHasNoPathExactly`). And a host such as `https:` with two slashes behind it is taken for a scheme
  (`SchemeIsNoHost`, `MisreadResolves`; exactly when: `ResolveUndoesDecoration`).

## Assumptions

- A transaction that holds the exclusive lock on a host row is one step. An administrator's update of a host takes no lock and is
  three steps; the deletion of a host is a step without a guard, because the check before it may be stale.
- An *orderly* run, for the cache: two updates of one host do not overlap, nothing is allocated or released on a host between the
  two halves of its recalculation, and a project keeps its size while one of its prebuilds is building. For the usage ledger:
  build outputs have a service, and a login does not start a family whose main workspace is running; that what runs is billed also
  needs that no rebuild is asked for of a row with an ended usage. For quotas: the license is
  valid and, for the program's own count, no stopped workspace is deleted. The exactness lemmas show what each condition is for.
- Database writes succeed, except where a transaction is modelled as lost. Identifiers are fresh.
- A request on a workspace is taken only while no background work of that workspace is under way.
- Cpu counts are natural numbers. 32-bit overflow and the casts between `usize` and `i32` are not modelled.
- The license flag of the scheduler, clock readings, answers of hosts and hash-set orders are arbitrary inputs.

## Model

| member | source | states |
|---|---|---|
| `CoreSets.AvailableCores` | crates/conductor/src/scheduler.rs:257-295 | the passes over exclusive and shared entries compute the closed form: cores below the total, in no exclusive set, with the number of shared sets that hold them, kept while below the overcommit factor |
| `CoreSets.AvailableExactly` | crates/conductor/src/scheduler.rs:257-295 | a core is available exactly if it is below the total, in no exclusive entry, and in fewer shared entries than the factor; its number is how many share it |
| `CoreSets.OrderIrrelevant` | crates/conductor/src/scheduler.rs:257-295 | the free cores do not depend on the order in which the rows come |
| `CoreSets.AllocateAndRelease` | crates/conductor/src/scheduler.rs:22-30 | handing out a set shrinks the free and the dedicated cores by exactly that set, wherever its row is listed; releasing a set that came out of the dedicated cores restores them |
| `CoreSets.OvercommitIrrelevant` | crates/conductor/src/scheduler.rs:286-288 | with exclusive entries only, every factor of at least 1 gives the same result, and shared and dedicated availability coincide |
| `Scheduler.AddRows` | crates/conductor/src/scheduler.rs:220-231 | one query loop accounts for each row of the listing exactly once: cores, non-negative memory and disk |
| `Scheduler.GetExistingResource` | crates/conductor/src/scheduler.rs:206-255 | the running totals are those of all claims of the host: the taken cores, the memory sum and the disk sum |
| `Scheduler.RecalculateWorkspaceHost` | crates/conductor/src/scheduler.rs:182-204 | the four columns equal the recomputation from the claims, whatever the overcommit factor |
| `Scheduler.DecideWorkspaceHost` | crates/conductor/src/scheduler.rs:91-180 | the prebuild host if eligible, else a lexicographic (cpu, memory, disk) maximum of the eligible replica hosts, else of all eligible hosts, else none |
| `Scheduler.DecidedMeans` | crates/conductor/src/scheduler.rs:105-126 | none is decided on exactly if no live Active host of the region has memory, disk and cpu in its columns; a decided host has it all |
| `Scheduler.DecidedIsBest` | crates/conductor/src/scheduler.rs:128-177 | no such host is passed over: not the prebuild's own, no replica for a host that is none, and in the same tier none with more cpu, or as much and more memory, or as much of both and more disk |
| `Scheduler.PickWorkspaceHost` | crates/conductor/src/scheduler.rs:49-88 | the decided host, with a shared count or with the requested number of different free cores, in any order of the set; otherwise one of the two errors |
| `Scheduler.TakeAny` | crates/conductor/src/scheduler.rs:76-79 | taking from a hash set gives that many different elements of it, or all of them |
| `Scheduler.TakenCount` | crates/conductor/src/scheduler.rs:220-252 | for disjoint claims the number of taken cores is the sum of the sizes of their sets |
| `Scheduler.PickCompleteAndOptimal` | crates/conductor/src/scheduler.rs:60-88 | with a coherent cache the scheduler fails exactly if no host has room on the rows themselves, never runs short of cores on the decided host, and returns the best host of the first tier that has one |
| `Allocator.CountedExactly` | crates/conductor/src/scheduler.rs:206-255 | the claims on a host, in the words of the tables: the live main workspaces on it, and the live Building prebuilds on it that no workspace asked for, with their cores and the memory and disk of their machine type |
| `Allocator.ClaimsAfterWorkspaceStep` | crates/conductor/src/server.rs:1188-1260 | a workspace transaction adds one claim, drops one claim or leaves all claims of a host as they were |
| `Allocator.ClaimsAfterPrebuildStep` | crates/conductor/src/server.rs:926-1022 | the same for prebuild transactions; a prebuild made for a workspace is never counted |
| `Allocator.ClaimsAfterFinish` | crates/conductor/src/server.rs:1063-1080 | finishing a prebuild drops its claim exactly if it was counted and the transaction commits |
| `Allocator.ClaimsAfterPrebuildDeletion` | crates/conductor/src/server.rs:3213-3239 | the status check before a prebuild deletion may be stale, yet the deletion never removes a counted claim |
| `Allocator.ClaimsAfterProjectChange` | crates/api/src/project.rs:244-251 | a new machine type of a project changes memory and disk of its prebuilds' claims and nothing else |
| `AllocatorSafety.PickIsProper` | crates/conductor/src/scheduler.rs:72-87 | a dedicated allocation has exactly the requested number of different cores, all below the host's cpu count, none of them in use |
| `AllocatorSafety.CoresDisjointWorkspaceStep` | crates/conductor/src/server.rs:1188-1260 | workspace transactions keep the core sets of the claims on every host disjoint |
| `AllocatorSafety.CoresDisjointPrebuildStep` | crates/conductor/src/server.rs:926-1022 | prebuild transactions keep them disjoint |
| `AllocatorSafety.LedgerPrebuildStep` | crates/conductor/src/server.rs:954-1022 | a prebuild is Building exactly while its usage record is open, kept by every prebuild transaction, also a lost one |
| `AllocatorSafety.FinishedStayStep` | crates/conductor/src/server.rs:1030-1083 | a finished prebuild row changes in nothing but its deletion mark |
| `AllocatorSafety.SafeStep` | crates/conductor/src/server.rs:2384-2407 | every transaction of the allocator keeps links, checked deletions, the prebuild ledger and disjoint cores |
| `AllocatorSafety.RunIsSafe` | crates/conductor/src/server.rs:1188-1260 | in every state of every run no core is handed out twice and a prebuild is Building exactly while its usage is open |
| `AllocatorSafety.FinishedForGood` | crates/conductor/src/server.rs:1030-1083 | over any run, a prebuild that is not Building never is again, and its usage stays closed |
| `AllocatorCache.ProjectChangeExact` | crates/api/src/project.rs:244-251 | changing a project's machine type keeps a host's cache right if and only if the host builds no prebuild of the project or the two types have the same memory and disk |
| `AllocatorCache.HostStepHost` | crates/api/src/admin.rs:110-229 | creating, updating and deleting hosts and changing the overcommit factor keep the cache right outside of an update |
| `AllocatorCache.CoherentStep` | crates/conductor/src/scheduler.rs:182-204 | every orderly step keeps the columns of every live host that is not being updated equal to a recomputation |
| `AllocatorCache.RunIsCoherent` | crates/conductor/src/scheduler.rs:182-204 | so in every state of every orderly run, although overcommit changes never trigger a recalculation |
| `AllocatorCache.CacheFromTheBeginning` | crates/conductor/src/scheduler.rs:182-204 | in every state of every orderly run from an empty installation no core is handed out twice and the columns are right |
| `AllocatorCache.CapacityIsNonNegative` | crates/conductor/src/scheduler.rs:187-201 | for a coherent host, fitting its claims is the same as having no negative column |
| `AllocatorCache.Conservation` | crates/conductor/src/scheduler.rs:187-201 | claimed plus available equals the host total, for cores, memory and disk, and both cpu columns agree |
| `AllocatorCache.CapacityStep` | crates/conductor/src/scheduler.rs:117-126 | no allocation or release overcommits a host that had capacity |
| `AllocatorCache.RunKeepsCapacity` | crates/conductor/src/scheduler.rs:117-126 | no run of allocations and releases takes a host's capacity away, nor puts a claim on a core it does not have |
| `AllocatorCache.RunNeverOvercommits` | crates/conductor/src/scheduler.rs:117-126 | if no availability column of a live host is negative, none becomes negative in any run of such steps while it lives |
| `AllocatorCache.CreateFailsIffNoRoom` | crates/conductor/src/server.rs:1188-1206 | in such a state creating a workspace is refused exactly if no host is live, Active, in the region, with the cores free and the memory and disk not yet claimed; a picked host is all of that |
| `AllocatorCache.PrebuildFailsIffNoRoom` | crates/conductor/src/server.rs:926-950 | the same for creating a prebuild of a project |
| `AllocatorCache.CreatePicksTheBest` | crates/conductor/src/scheduler.rs:128-177 | the prebuild host if it has room, else a replica host if one has, else any; and in that tier no host with room has more free cores, or as many and more memory, or as much of both and more disk, counted on the rows |
| `AllocatorHistory.WorkspaceKeepsItsPlace` | crates/conductor/src/server.rs:1207-1244 | over any run a workspace keeps host, cores, machine type and parent, and a deleted one stays deleted |
| `AllocatorHistory.NewWorkspace` | crates/conductor/src/server.rs:1927-1968 | a new row is what the scheduler picked, or a service with host, cores and type of its main workspace |
| `AllocatorHistory.PrebuildKeepsItsPlace` | crates/conductor/src/server.rs:970-986 | over any run a prebuild keeps host, cores, project and usage |
| `AllocatorHistory.StatusTellsTheBuild` | crates/conductor/src/server.rs:1035-1064 | in every run a prebuild is Ready exactly if its build has ended well and Failed exactly if it has ended in an error |
| `AllocatorHistory.StatusIsTheLastReport` | crates/api/src/admin.rs:127-145 | in every run the status of a host is the last one reported, and New before any report |
| `AllocatorHistory.FactorIsTheLastSetting` | crates/api/src/admin.rs:465-483 | only an accepted setting changes the overcommit factor, and it touches no host |
| `HostUpdates.FinishResizeExact` | crates/api/src/admin.rs:170-184 | with no other update of the host in flight, a step between the reading and the writing of an update leaves a wrong cache if and only if it adds or drops on that host a claim with memory, disk or a core the host has, writes totals of another memory, disk or free count to the row, or changes the size of a project that is built there |
| `HostUpdates.ChangeShowsExactly` | crates/conductor/src/scheduler.rs:187-201 | adding or dropping one claim moves the columns if and only if it has memory, disk or a core below the cpu count |
| `HostUpdates.AllocationDuringUpdateIsLost` | crates/api/src/admin.rs:180-184 | a workspace or prebuild created between the reading and the writing is missing from all four columns: they are too large by exactly the footprint of its claim |
| `HostUpdates.UpdatesExact` | crates/api/src/admin.rs:163-184 | over any run that allocates and releases nothing on a host, with any number of updates of it overlapping in any way: the cache is right if and only if the totals it was last computed with, those of the update that finished last or of a later recalculation, agree in memory, disk and free cores with those of the update that began last |
| `HostUpdates.OverlappingUpdatesSpoilTheCache` | crates/api/src/admin.rs:163-184 | a run from an empty installation with two overlapping updates of one host that ends with no update in flight and with a wrong cache, for any two different memory sizes |
| `AllocatorRuns.ProjectChangeSpoilsTheCache` | crates/api/src/project.rs:244-251 | reachable from an empty installation: a project gets a larger machine type during a prebuild, and the cache is wrong |
| `AllocatorRuns.AllocationDuringUpdateSpoilsTheCache` | crates/api/src/admin.rs:170-184 | reachable from an empty installation: a workspace is created during an update of its host, and the cache is wrong |
| `AllocatorDb.Tables.constructor` | crates/conductor/src/server.rs:122-128 | an empty installation with the configured overcommit factor, 4 by default and at least 1, is safe |
| `AllocatorDb.Tables.Recalculate` | crates/conductor/src/scheduler.rs:182-204 | writes the recomputed columns into the host row and nothing else |
| `AllocatorDb.Tables.RecalculateIfLocked` | crates/conductor/src/server.rs:2387-2407 | recalculates under the row lock, and leaves a deleted host alone |
| `AllocatorDb.Tables.Schedule` | crates/conductor/src/scheduler.rs:49-88 | the pick is one the scheduler may make for the rows as they are |
| `AllocatorDb.Tables.CreateWorkspaceModel` | crates/conductor/src/server.rs:1188-1260 | pick, insert and recalculation take exactly the create step and keep the tables safe; a failed pick changes nothing |
| `AllocatorDb.Tables.DeleteWorkspaceRow` | crates/conductor/src/server.rs:2384-2407 | marking a workspace deleted takes exactly the delete step and keeps the tables safe |
| `AllocatorDb.Tables.InsertServiceRow` | crates/conductor/src/server.rs:1927-1968 | a compose service gets the host and cores of its main workspace and is not counted |
| `AllocatorDb.Tables.DropServiceRow` | crates/conductor/src/server.rs:2776-2798 | a rebuild drops a service without recalculation, and no claim changes |
| `AllocatorDb.Tables.CreateProjectPrebuild` | crates/conductor/src/server.rs:926-1022 | pick, usage, insert and recalculation take exactly the prebuild step and keep the tables safe |
| `AllocatorDb.Tables.CreatePrebuildForWorkspace` | crates/conductor/src/server.rs:926-930 | a prebuild for a workspace uses that workspace's host and cores |
| `AllocatorDb.Tables.FinishProjectPrebuild` | crates/conductor/src/server.rs:1035-1080 | Ready for a build that succeeded and Failed for one that did not, recalculation and end of usage are written together or not at all |
| `AllocatorDb.Tables.RequestDeletion` | crates/conductor/src/server.rs:3213-3217 | a deletion is accepted exactly if the prebuild is not Building, and refused without a change |
| `AllocatorDb.Tables.CommitDeletion` | crates/conductor/src/server.rs:3219-3239 | the deletion transaction takes exactly its step and keeps the tables safe |
| `AllocatorDb.Tables.CreateWorkspaceHost` | crates/api/src/admin.rs:127-145 | a new host is fully available |
| `AllocatorDb.Tables.BeginUpdateHost` | crates/api/src/admin.rs:170-179 | the first statement of an update writes the totals |
| `AllocatorDb.Tables.ReadForUpdate` | crates/conductor/src/scheduler.rs:187-188 | the recalculation of an update reads the claims of its host without a lock |
| `AllocatorDb.Tables.FinishUpdateHost` | crates/api/src/admin.rs:180-184 | the columns are computed from the totals the update wrote and the claims it read |
| `AllocatorDb.Tables.DeleteWorkspaceHost` | crates/api/src/admin.rs:210-229 | a host is deleted exactly if no live workspace is on it |
| `AllocatorDb.Tables.UpdateCpuOvercommit` | crates/api/src/admin.rs:465-483 | a factor is accepted exactly from 2 on |
| `Updates.ExactlyOnceStep` | crates/conductor/src/server.rs:2137-2156 | each lock section, send, subscription, close and cleanup keeps: what an open subscriber has plus what is on its way is the log, as multisets |
| `Updates.RunIsExactlyOnce` | crates/conductor/src/server.rs:3072-3086 | exactly-once delivery in every state of every interleaving, whenever the subscriber came |
| `Updates.QuietMeansComplete` | crates/conductor/src/server.rs:3072-3086 | with nothing on its way, an open subscriber has every line of the log with its multiplicity |
| `Updates.CleanupDropsNoOpenSubscriber` | crates/conductor/src/server.rs:3101-3112 | cleanup keeps exactly the open subscribers and drops an entry only if none is left |
| `Updates.OrderStepExact` | crates/conductor/src/server.rs:2153-2155 | the lines an open subscriber has stay the beginning of the log if and only if a send to it sends the oldest line of the log it is owed; order once lost stays lost |
| `Updates.RunOrderExact` | crates/conductor/src/server.rs:2144-2156 | in any run an open subscriber has its lines in the order of the log if and only if every send to it was in turn |
| `Updates.EventReachesItsSubscribersOnce` | crates/conductor/src/server.rs:2137-2156 | an event of any kind, statuses too, is sent exactly once to each subscriber open when it is recorded, and never to a later one |
| `Updates.DeliveryFromTheBeginning` | crates/conductor/src/server.rs:3072-3086 | from an empty hub, every open subscriber has each line of the current log exactly once or on its way, the log is what was recorded since a cleanup last threw the entry away, and the lines are in order exactly if the sends were in turn |
| `Updates.LogIsRecorded` | crates/conductor/src/server.rs:3101-3112 | in every state of every run the log of a key is, in order, the Stdout and Stderr events recorded for it since a cleanup last threw its entry away |
| `Updates.LateSubscribersSeeOutput` | crates/conductor/src/server.rs:2144-2151 | output recorded on either stream, with the entry not dropped meanwhile, is in the channel of every later subscriber from its subscription on; what is replayed holds no status |
| `Updates.WholeOutputExact` | crates/conductor/src/server.rs:3072-3112 | an open subscriber has, or has on its way, the whole output of the run if and only if no cleanup has thrown recorded lines away |
| `Updates.PrebuildOutputIsWhole` | crates/conductor/src/server.rs:3065-3070 | for prebuilds, whose cleanup keeps the entry, that never happens |
| `Updates.ReloadLosesLines` | crates/api/src/websocket.rs:45 | a run: the only page of a building workspace is closed and loaded again, and the new one has nothing and nothing on its way |
| `Updates.RunIsInOrder` | crates/conductor/src/server.rs:2144-2156 | publishers of one key that take turns are always in turn: what a subscriber has, followed by what is on its way, is the log |
| `Updates.OverlapSwapsLines` | crates/conductor/src/server.rs:2144-2156 | a run of two overlapping publishers whose lines arrive swapped: in order if and only if the lines are equal |
| `Updates.Retained` | crates/conductor/src/server.rs:3065-3070 | what cleanup keeps: the open ones, in order, without repetition |
| `Updates.UpdateHub.RecordEvent` | crates/conductor/src/server.rs:2144-2151 | the lock section appends a Stdout or Stderr event to the log, leaves the log alone for a status, and takes the subscriber list |
| `Updates.UpdateHub.Send` | crates/conductor/src/server.rs:2153-2155 | one send reaches one subscriber, or nobody if the receiver is gone |
| `Updates.UpdateHub.SendAll` | crates/conductor/src/server.rs:2153-2155 | all sends: every target that is open gets the event once |
| `Updates.UpdateHub.AddUpdateEvent` | crates/conductor/src/server.rs:2137-2156 | an undisturbed publication appends the event to every open subscriber of the key and to no other |
| `Updates.UpdateHub.SubscribeTo` | crates/conductor/src/server.rs:3072-3086 | a new channel starts with exactly the log, replayed before the subscriber joins the list |
| `Updates.UpdateHub.CleanupUpdates` | crates/conductor/src/server.rs:3101-3112 | retain loop and removal of an empty entry take exactly the cleanup step |
| `Families.FramedStep` | crates/conductor/src/server.rs:2266-2270 | a step of one family touches no row, usage or background work of another |
| `Families.ForestStep` | crates/conductor/src/server.rs:1765-1803 | every request and every background step keeps the forest of depth one |
| `Families.RunIsForest` | crates/conductor/src/server.rs:1887-1968 | so in every run with one piece of background work per workspace at a time |
| `Families.ForestMeans` | crates/conductor/src/server.rs:1927-1968 | a child is flagged, its parent has no parent, a live child's parent is flagged, a child owns no usage, and requests on it are refused |
| `Families.RequestReachesAllChildren` | crates/conductor/src/server.rs:2306-2314 | an accepted start, stop, rebuild or delete looks up every live child |
| `Families.FinishedBuildHasItsServices` | crates/conductor/src/server.rs:1801-1968 | after a successful creation or rebuild the live children are exactly services 1 to n - 1 of the build output, one row each |
| `UsageLedger.LedgerStep` | crates/conductor/src/server.rs:2289-2302 | every orderly step keeps: at most one open usage, the one in the row, and none at rest unless running |
| `UsageLedger.RunKeepsLedger` | crates/conductor/src/server.rs:2105-2131 | so in every orderly run |
| `UsageLedger.LedgerFromTheBeginning` | crates/conductor/src/server.rs:2105-2131 | in every orderly run from the beginning a main workspace has at most one open usage, the one in its row, and none at rest unless running |
| `UsageLedger.StartExact` | crates/conductor/src/server.rs:2932-2961 | a successful start leaves one open usage if and only if none was open before |
| `UsageLedger.StartRequestExact` | crates/conductor/src/server.rs:2468-2518 | seen at the request: after a start or login is accepted nothing is open, if and only if the main workspace was not both running and billed; a start through the API always leaves nothing open |
| `UsageLedger.FinishExact` | crates/conductor/src/server.rs:1801-1985 | a finished creation or rebuild is at rest if and only if the output had a service or nothing was billed |
| `PaidUse.PaidStep` | crates/conductor/src/server.rs:1889-1922 | every step but a rebuild on an ended usage keeps: what runs, compiles or is rebuilt has an open usage in its row |
| `PaidUse.RunIsPaid` | crates/conductor/src/server.rs:2932-2958 | so in every run without such a rebuild |
| `PaidUse.BilledExactlyWhileRunning` | crates/conductor/src/server.rs:2586-2600 | in every such run a running main workspace at rest has an open usage of its own in its row; if the run is orderly too, exactly one usage is open exactly while it runs and none exactly while it does not |
| `PaidUse.RebuildPaidExact` | crates/conductor/src/server.rs:2693-2722 | a rebuild begins with an open usage if and only if the row held none or an open one |
| `PaidUse.RebuildKeepsItsUsage` | crates/conductor/src/server.rs:1889-1922 | no step of a rebuild opens another usage, and one with a service that does not fail ends running |
| `PaidUse.RebuiltRunsUnbilled` | crates/conductor/src/server.rs:2693-2712 | reachable: a compilation fails, the rebuild succeeds, and the workspace runs with no usage open |
| `LifecycleRuns.EmptyComposeStaysBilled` | crates/conductor/src/server.rs:1801-1985 | reachable: a compose build without services stays Building with an open usage |
| `LifecycleRuns.EmptyComposeLeaks` | crates/conductor/src/server.rs:2932-2961 | reachable: starting that workspace leaves two usages open |
| `LifecycleRuns.LoginToStoppedServiceLeaks` | crates/proxy-ssh/src/proxy.rs:98-118 | reachable: logging in to a stopped service of a running family starts the family again and leaves two usages open |
| `LifecycleDb.Workspaces.ComposeServices` | crates/conductor/src/server.rs:2306-2314 | the query returns exactly the live children of a flagged row |
| `LifecycleDb.Workspaces.CreateWorkspace` | crates/conductor/src/server.rs:1207-1244 | a new main workspace without usage, children or flag |
| `LifecycleDb.Workspaces.StartWorkspace` | crates/conductor/src/server.rs:2468-2553 | accepted exactly for a main workspace that is not running, within the organization limit and the quotas; takes exactly the start step |
| `LifecycleDb.Workspaces.StopWorkspace` | crates/conductor/src/server.rs:2556-2631 | accepted exactly for a main workspace that is not stopped; closes the usage and forgets it |
| `LifecycleDb.Workspaces.DeleteWorkspace` | crates/conductor/src/server.rs:2250-2337 | accepted exactly for a main workspace that is neither New, PrebuildBuilding, PrebuildCopying nor Building |
| `LifecycleDb.Workspaces.RebuildWorkspace` | crates/conductor/src/server.rs:2633-2724 | accepted exactly for a main workspace in none of these four, within the organization limit and, unless it runs, the quotas; keeps the usage in the row or opens one |
| `LifecycleDb.Workspaces.CreateServices` | crates/conductor/src/server.rs:1801-1968 | the loop stops at the first service that fails |
| `LifecycleDb.Workspaces.CreateWorkspaceFromOutput` | crates/conductor/src/server.rs:1752-1988 | succeeds exactly if every service does, and then the family is exactly the output; otherwise the workspace is failed; no other family changes |
| `LifecycleDb.Workspaces.AnswerChild` | crates/conductor/src/server.rs:2519-2540 | one service is left as its host answered; a waited-for start ends exactly without an answer |
| `LifecycleDb.Workspaces.AnswerMain` | crates/conductor/src/server.rs:2907-2992 | the main workspace comes last and is left as its host answered |
| `LifecycleDb.Workspaces.AnswerFamily` | crates/conductor/src/server.rs:2519-2540 | every service reached and then the main workspace is Running, Stopped or Deleted if its host was done, Failed, StopFailed or DeleteFailed if it refused, and as before without an answer; no other row changes; the loop ends early if and only if the start is waited for and a service gives no answer, and then leaves the rest as it was |
| `LifecycleDb.DeletionExact` | crates/conductor/src/server.rs:2318-2333 | a deletion leaves no live service behind a deleted main workspace if and only if every service's host was done or the main one's was not |
| `LifecycleLaws.RequestTargets` | crates/conductor/src/server.rs:2266-2270 | an accepted request is for a live main workspace and changes its status and usage and no other row |
| `LifecycleLaws.CreateMeans` | crates/conductor/src/server.rs:1207-1244 | a creation: a live New main workspace without a usage |
| `LifecycleLaws.StartMeans` | crates/conductor/src/server.rs:2468-2518 | a start is of what does not run, a login of a stopped workspace or its main one; only the status changes, to Starting |
| `LifecycleLaws.StopAndDeleteMean` | crates/conductor/src/server.rs:2586-2600 | a stop or deletion ends exactly the usage in the row and forgets it |
| `LifecycleLaws.RebuildMeans` | crates/conductor/src/server.rs:2693-2722 | a rebuild goes on with the usage in the row, and opens one exactly without any |
| `LifecycleLaws.BuildMeans` | crates/conductor/src/server.rs:1887-1922 | the bill of a build begins with the compilation, or with the first service if nothing was compiled |
| `LifecycleLaws.ServiceMeans` | crates/conductor/src/server.rs:1927-1968 | a further service is a live, running, flagged child without a usage; a dropped one is Deleted |
| `LifecycleLaws.FailureMeans` | crates/conductor/src/server.rs:2105-2131 | a creation or rebuild that fails is Failed and ends exactly the usage in the row, which stays there |
| `LifecycleLaws.AnswerMeans` | crates/conductor/src/server.rs:2907-2992 | start, stop and deletion, main workspace and service, for each of the three answers: the status and whether the row lives |
| `LifecycleLaws.RunningIffBilled` | crates/conductor/src/server.rs:2932-2990 | a start makes the workspace run if and only if it opens a usage, then in the row; refused it is Failed, without an answer Starting |
| `LifecycleRuns.RefusedServiceIsOrphaned` | crates/conductor/src/server.rs:2318-2333 | reachable: the host refuses to remove a service and removes the main workspace; the service lives on and neither row accepts a request |
| `TunnelRegistry.InsertNeverOverwrites` | crates/api/src/devbox_tunnels.rs:56-73 | a client's generation is free in its user's map when it is inserted |
| `TunnelRegistry.CleanupRemovesOnlyItsOwn` | crates/api/src/devbox_tunnels.rs:75-103 | a cleanup finds its own client and removes no other |
| `TunnelRegistry.ValidStep` | crates/api/src/devbox_tunnels.rs:35-37 | each step keeps: numbers differ, the maps hold exactly the inserted clients, no map is empty |
| `TunnelRegistry.RunIsValid` | crates/api/src/devbox_tunnels.rs:56-103 | so in every interleaving that does not wrap the 64-bit counter |
| `TunnelRegistry.RegistryFromTheBeginning` | crates/api/src/devbox_tunnels.rs:28-37 | so in every such run from an empty registry |
| `TunnelRegistry.DevboxTunnelRegistry.NextGeneration` | crates/api/src/devbox_tunnels.rs:35-37 | the number taken is nobody else's |
| `TunnelRegistry.DevboxTunnelRegistry.InsertClient` | crates/api/src/devbox_tunnels.rs:59-73 | the insert never overwrites |
| `TunnelRegistry.DevboxTunnelRegistry.CleanupClient` | crates/api/src/devbox_tunnels.rs:75-103 | the cleanup always finds its entry and drops an empty map |
| `TunnelRegistry.DevboxTunnelRegistry.Lookup` | crates/api/src/devbox_tunnels.rs:111-128 | the open client with the greatest generation, and a refusal exactly if the user has no open inserted client |
| `TunnelRegistry.NewestMeans` | crates/api/src/devbox_tunnels.rs:111-128 | a client is found exactly if one of the user is inserted, not cleaned up and open, and no such client has a greater generation |
| `TunnelRegistry.Reversed` | crates/api/src/devbox_tunnels.rs:115-121 | the keys of a map in descending order, all of them |
| `Quota.ReadQuotaValue` | lapdev-enterprise/src/quota.rs:25-74 | in any order of the rows: the value of the user's own positive row, whatever the default says, else of the positive default row, else 0; and the value of the positive row without a user, or 0 |
| `Quota.LimitsMean` | lapdev-enterprise/src/quota.rs:51-71 | the limits that admission counts against are those values |
| `Quota.UserAdmittedExact` | lapdev-enterprise/src/quota.rs:76-96 | in every admissible state the user's count passes if and only if the live main workspaces of the user that are not Stopped are fewer than the own positive limit, else the positive default; with neither it passes |
| `Quota.OrganizationAdmittedExact` | lapdev-enterprise/src/quota.rs:98-111 | the organization's count passes if and only if there is no positive organization row or the live main workspaces that are not Stopped are fewer |
| `Quota.AdmittedHasCounted` | lapdev-enterprise/src/quota.rs:113-122 | in every run an admitted transaction has passed both counts |
| `Quota.CommitMeans` | crates/conductor/src/server.rs:2487-2518 | only an admitted transaction commits, and writes one live row of its user: New, Starting or Building |
| `Quota.OneCounter` | lapdev-enterprise/src/quota.rs:33-49 | two transactions in flight never count against the same positive limit, because they would hold the same row |
| `Quota.CountStep` | lapdev-enterprise/src/quota.rs:76-111 | a transaction that passes a count has room for one more until it commits |
| `Quota.CommitStep` | crates/conductor/src/server.rs:2487-2518 | committing an admitted transaction exceeds no limit and spoils no other transaction's count |
| `Quota.AdmissionStep` | lapdev-enterprise/src/quota.rs:113-122 | every step keeps the limits, the exclusion and what the transactions know |
| `Quota.RunIsWithinLimits` | lapdev-enterprise/src/quota.rs:205-217 | with a valid license and existing limit rows that only rise, no interleaving takes the active workspaces above a positive limit, nor the program's own count if no stopped workspace is deleted |
| `Quota.LimitsFromTheBeginning` | lapdev-enterprise/src/quota.rs:113-122 | so in every state of every such run from the beginning, under whatever limits |
| `Quota.UnlicensedExact` | crates/enterprise/src/enterprise.rs:173-176 | without a valid license an admission keeps the limits if and only if it adds nothing to the count or there was room |
| `Quota.ChangeExact` | crates/conductor/src/server.rs:2289-2302 | an unguarded change raises the program's own count if and only if it starts deleting a stopped main workspace |
| `Quota.OrganizationChangeExact` | crates/conductor/src/server.rs:2289-2302 | the same for the organization's count |
| `Quota.ChangeWithinExact` | lapdev-enterprise/src/quota.rs:205-257 | an unguarded change keeps the limits of user and organization if and only if it does not start deleting a stopped main workspace or there was room for one more |
| `Quota.DeletingAStoppedWorkspaceExceeds` | lapdev-enterprise/src/quota.rs:205-217 | a user at the limit exceeds it by such a deletion |
| `Quota.DeletionGoesOverTheLimit` | lapdev-enterprise/src/quota.rs:205-217 | reachable under a limit of one: stop a workspace, create another, delete the first, and the count is two |
| `StatusMoves.EveryMoveIsKnown` | crates/conductor/src/server.rs:2468-2518 | every step of the life cycle leaves a main workspace alone, makes a move that admission leaves unguarded, or is a start or a rebuild of what does not run |
| `StatusMoves.NewRowsAreKnown` | crates/conductor/src/server.rs:1207-1244 | a new row is a creation's main workspace or a service of a family |
| `AutoStop.FindTimedOut` | lapdev-enterprise/src/auto_start_stop.rs:67-111 | exactly the running workspaces that timed out by the organization's or their own timeout, each once |
| `AutoStop.TimedOutMeans` | lapdev-enterprise/src/auto_start_stop.rs:67-111 | exactly a live Running workspace whose user has left for longer than the organization's timeout or, where workspaces have their own, for at least one second more than its own |
| `AutoStop.OrganizationAutoStopWorkspaces` | lapdev-enterprise/src/auto_start_stop.rs:63-141 | exactly the selected workspaces, each once |
| `AutoStop.ModesAgreeWithinASecond` | lapdev-enterprise/src/auto_start_stop.rs:67-111 | own timeouts at t select no more than the organization's at t, which selects no more than own timeouts one second later, through the compose filter |
| `AutoStop.ModesDifferExactly` | lapdev-enterprise/src/auto_start_stop.rs:77-107 | at one instant the modes differ if and only if the last activity lies between the timeout and one second more ago |
| `AutoStop.ClockReadingsBound` | lapdev-enterprise/src/auto_start_stop.rs:96-107 | reading the clock row by row selects between what the earliest and the latest reading would |
| `AutoStop.SelectionRespectsFamilies` | lapdev-enterprise/src/auto_start_stop.rs:113-141 | never a compose service; a main workspace exactly if it and all its live services timed out |
| `AutoStop.SelectedIsAccepted` | crates/conductor/src/server.rs:2562-2567 | in every state of every run a selected workspace is a live Running main one, and stopping it is never refused |
| `AutoStop.StopsOnlyItsOwnExact` | lapdev-enterprise/src/auto_start_stop.rs:72-96 | the check for an organization selects only its own workspaces, whenever it is made, if and only if no other organization has a main workspace that can time out with all its services |
| `AutoStop.ForeignWorkspaceIsStopped` | lapdev-enterprise/src/auto_start_stop.rs:72-83 | for instance: a timeout of a minute of organization 1 selects a workspace of organization 2 |
| `Organization.SecureStep` | crates/api/src/organization.rs:406-429 | the owner whose row no handler picked stays a live owner until the organization is closed |
| `Organization.OneMembershipStep` | crates/api/src/organization.rs:291-318 | no step gives a user a second live membership in an organization |
| `Organization.ValidStep` | crates/api/src/organization.rs:103-137 | every read and every transaction of every handler keeps the invariant |
| `Organization.RunIsValid` | crates/api/src/organization.rs:40-63 | so in every interleaving of handlers |
| `Organization.EveryOrganizationHasAnOwner` | crates/api/src/organization.rs:475-495 | each live organization has a live owner and a user at most one live membership in it, in every reachable state |
| `Organization.RoleWasGiven` | crates/api/src/organization.rs:421-429 | in every run the role in a row is the last one given: Owner with a new organization, Plain by joining, or any by a committed change |
| `Organization.ChangesAreAuthorized` | crates/api/src/organization.rs:396-415 | in every run a handler that is ready to change a member was authorized by a live owner or admin of the same organization, and found the member live and no owner in a live organization |
| `Organization.ClosesAreAuthorized` | crates/api/src/organization.rs:103-120 | in every run a handler that is ready to close an organization was let in by the row of a live owner of it while it lived, and found that owner with more or fewer than one live membership |
| `Organization.Organizations.FindMembership` | crates/db/src/api.rs:469-482 | a live membership if there is one, otherwise none |
| `Organization.Organizations.Create` | crates/api/src/organization.rs:40-63 | organization and owner are inserted together |
| `Organization.Organizations.BeginJoin` | crates/api/src/organization.rs:291-303 | accepted exactly if the user is no member yet |
| `Organization.Organizations.Join` | crates/api/src/organization.rs:305-318 | inserted exactly if the user is still no member, by the unique index |
| `Organization.Organizations.BeginMemberChange` | crates/api/src/organization.rs:392-402 | accepted exactly from an owner or an admin |
| `Organization.Organizations.FindMember` | crates/api/src/organization.rs:404-416 | found exactly if the organization is live and the user has a live membership in it that is no owner's |
| `Organization.Organizations.ChangeMember` | crates/api/src/organization.rs:421-429 | role or removal is written whatever happened since the read |
| `Organization.Organizations.BeginClose` | crates/api/src/organization.rs:103-113 | accepted exactly from an owner of a live organization |
| `Organization.Organizations.CheckLast` | crates/api/src/organization.rs:115-120 | refused exactly if it is the user's last membership |
| `Organization.Organizations.Close` | crates/api/src/organization.rs:122-137 | the owner's membership and the organization are closed together |
| `Calendar.TomorrowNumber` | crates/dashboard/src/datepicker.rs:190-191 | one day on is the next day number across months, years and leap days, and one day back undoes it |
| `Calendar.YearStartClosed` | crates/dashboard/src/datepicker.rs:190-191 | the days before a year are 365 for each year before it and one for every fourth, none for every hundredth, one for every four hundredth |
| `Calendar.FourCenturies` | crates/dashboard/src/datepicker.rs:190-191 | the calendar repeats after 400 years, which are 146097 days |
| `Calendar.WeekdayClosed` | crates/dashboard/src/datepicker.rs:193-195 | the weekday of every date by the formula of Sakamoto |
| `Calendar.WeekdaysRun` | crates/dashboard/src/datepicker.rs:193-195 | tomorrow has the next weekday, for every date |
| `Calendar.EpochIsThursday` | crates/dashboard/src/datepicker.rs:193-195 | 1 January 1970 is a Thursday |
| `Calendar.CellNumber` | crates/dashboard/src/datepicker.rs:182-229 | the cell in closed form lies that many days from the first of the month |
| `Calendar.DaysBackwards` | crates/dashboard/src/datepicker.rs:187-208 | the first loop ends and lists the cells before the shown date, last first |
| `Calendar.DaysForwards` | crates/dashboard/src/datepicker.rs:210-229 | the second loop ends and completes the grid |
| `Calendar.DateGrid` | crates/dashboard/src/datepicker.rs:182-229 | the two loops and the reversal give the grid in closed form |
| `Calendar.GridIsRight` | crates/dashboard/src/datepicker.rs:182-229 | for every date: consecutive days from Sunday to Saturday, a multiple of 7 between 28 and 42, every day of the month, tagged exactly by before, in and after the month |
| `ApiHost.ResolveApiHost` | crates/common/src/utils.rs:47-82 | the loops over schemes and API paths with their breaks compute the resolution |
| `ApiHost.ResolveUndoesDecoration` | crates/common/src/utils.rs:47-82 | resolving any decoration of a canonical host gives the host back if and only if the host with the slashes behind it does not read as a scheme at the front |
| `ApiHost.NoColonNoMisreading` | crates/common/src/utils.rs:47-82 | so always for a host without a trailing colon |
| `ApiHost.MisreadResolves` | crates/common/src/utils.rs:57-62 | a misread value resolves to api, api/v1 or app.lap.dev |
| `ApiHost.MisreadMeans` | crates/common/src/utils.rs:57-62 | only https:, http:, wss: and ws: themselves can be misread, with two slashes behind them and nothing but whitespace before |
| `ApiHost.SchemeIsNoHost` | crates/common/src/utils.rs:57-62 | for instance, https: with two slashes resolves to the default host |
| `ApiHost.ResolvedIsClean` | crates/common/src/utils.rs:64-81 | for every input the result is not empty and has no slash at either end |
| `ApiHost.BlankIsDefault` | crates/common/src/utils.rs:48-56 | nothing or only whitespace resolves to app.lap.dev |
| `ApiHost.ResolvedHasNoPathExactly` | crates/common/src/utils.rs:57-75 | the result has no path if and only if the value is blank or, without whitespace, one scheme and edge slashes, is a slash-free host with at most one of the two API paths behind it |
| `ApiHost.OtherPathsStay` | crates/common/src/utils.rs:69-75 | a host with any other one-segment path resolves to itself, path included |
| `ApiHost.PathKept` | crates/common/src/utils.rs:47-82 | for instance a/b |
| `ApiHost.WebsocketBaseRoundTrip` | crates/api/src/state.rs:424-444 | the websocket base of a canonical host is wss:// and the host, and resolving it gives the host |
| `ApiHost.SchemedBase` | crates/api/src/state.rs:425-444 | a value with a scheme keeps its security and everything behind the scheme: http becomes ws, https wss, ws and wss stay |
| `ApiHost.WebsocketBaseOfDecoration` | crates/api/src/state.rs:402-422 | however the environment's or the stored host is decorated, the websocket base is the same |

## Left out

- Authentication, cookies, OAuth, Git hosts, SSE and websocket adapters, all views: plumbing around the modelled state.
- The workspace-host side of the RPCs: answers are arbitrary.
- `AvailableCore::sorted`: only orders a listing.
- The unique index on prebuilds of one branch and commit: a refused insert rolls back and changes nothing.
- Host names of workspace hosts and the check that they differ: no modelled property depends on them.
- The pick of a host when a project is created: it records no claim.
- Prebuild reference counting: the code stores the prebuild's host id where its id belongs, so "no live workspace depends on a deleted
  prebuild" does not follow from it.
- Prebuild replica transfer and image lists: the reader expects another format than the writer stores.
- Cost quotas and the separate organization limits: the two levels use different units, and usage sums are not modelled.
- Lowering a quota and creating a limit row: the admission theorem is about existing limits that only rise. A row that does not
  exist yet is locked by nobody, so that transactions under way would not count against it.
- Negative organization timeouts: the cast to an unsigned number makes the program's clock arithmetic overflow.
- Which organization is checked next for automatic stop, and how often: it does not bear on what a check selects.
- Rows changing between the two queries of automatic stop: both read the same tables here.
- Invitations and their expiry: joining is modelled from the membership check on.
- Dates at the ends of the range that the date library supports: the calendar here has no ends.
- ReadForUpdate: reads both tables of claims in one step; the program reads workspaces first and prebuilds second.
- All-workspace status channels and prebuild replica updates: the same publish and subscribe code without a log.
- OrganizationAutoStopWorkspaces: takes one clock reading per row in both modes; the program reads the clock once for the
  organization's timeout, which is the case of equal readings.
