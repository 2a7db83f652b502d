# A model of AgentStackManager in Dafny

AgentStackManager is a control plane for coding agents.  Its stateful parts are small
transactional protocols over a file system and over child processes.  This project models
them one module per source file and proves what each keeps over whole runs: every crash
point of a commit, every interleaving of callers and timers, every failing step of a
reviewed apply.

Verify with `dafny verify dfyconfig.toml`.

How the model is built:

- A file system is a map from paths to contents.  A write, rename or removal happens whole
  or not at all; each primitive may fail, and where crashes matter it may also be the last
  thing that happens.  Those answers are arbitrary values, so a theorem holds for all of them.
- Regions under a mutex and the events between them are atomic steps of a state machine with
  any number of threads and keys.
- Hashes, JSON, clocks, locks, the network, installers and child processes are parameters or
  arbitrary answers.  No hash is taken to be injective: claims about resources are claims
  about digests.
- Maps are visited in arbitrary order.

| file | source |
|---|---|
| `WorkspaceTransaction.dfy`, `WorkspaceStore.dfy` | `internal/workspace` |
| `ChildPool.dfy`, `ChildSession.dfy` | `internal/mcp` |
| `DependencyGraph.dfy`, `Catalog.dfy` | `internal/catalog` |
| `Planner.dfy`, `Runner.dfy`, `ReviewedPlan.dfy` | `internal/planner`, `internal/runner`, `internal/reviewedplan` |
| `Saga.dfy`, `FreeNames.dfy` | the shape shared by the reviewed applies |
| `TreeDigest.dfy`, `ResourceTargets.dfy`, `ResourceSync.dfy`, `SyncSteps.dfy`, `SyncApply.dfy`, `SyncScenes.dfy`, `ResourceRegistry.dfy`, `ResourceRefresh.dfy` | `internal/resourcehub` |
| `ContextMerge.dfy`, `ContextRefresh.dfy` | `internal/contextengine` |
| `McpLink.dfy` | `internal/mcplink` |
| `Schedules.dfy`, `Routines.dfy` | `internal/routines` |
| `Numerals.dfy`, `SemVer.dfy` | `internal/version` |
| `Transport.dfy` | `internal/pathenv` |
| `Wrappers.dfy`, `Text.dfy`, `JsonSize.dfy` | result types, string helpers, the length of encoded JSON |

## What turned out to be false

Where a promise of the code fails, the code is modelled as it is, a lemma names a failing
case and another gives the exact condition.

- A request may be written on a session that is closed already, since the flag is looked at
  before and not while writing (`ChildSession.WrittenAfterCloseIff`,
  `ChildSession.AClosedSessionMayBeWrittenTo`); and after a caller gave up two readers may be
  on one stream (`ChildSession.TwoReadersAfterAKill`).
- `Close` of the pool may return while a session that an idle timer has just evicted is still
  open (`ChildPool.CloseMayReturnBeforeAnEviction`, `ChildPool.OnlyEvictionsOutliveClose`).
- A store that `Create` or `Update` has just saved may be refused by every later load: for a
  link id with a slash, for a text that is too long in bytes, or because the file has grown
  past what a load reads (`WorkspaceStore.AnAcceptedFolderLocksTheStore`,
  `WorkspaceStore.AnAcceptedUpdateLocksTheStore`, `WorkspaceStore.AnAcceptedNameLocksTheStore`,
  `WorkspaceStore.AnAcceptedWorkspaceOutgrowsTheFile`).  The exact conditions are
  `WorkspaceStore.CreateStaysLoadableIff` and `WorkspaceStore.UpdateStaysLoadableIff`.
- A plan may be installed twice if the lease does not exclude, since deleting a missing plan
  is no error (`ReviewedPlan.WithoutTheLeaseAPlanInstallsTwice`).
- An apply may destroy what was never recorded: linking clears the name it stages the link
  under, whoever's file, link or empty directory lies there
  (`SyncScenes.AForeignFileAtAStagingName`, `SyncScenes.TheForeignFileIsLost`).  Nothing else that
  is not recorded is ever lost, whatever the plan, so an apply that finds no such entry at the
  staging names of its creations and updates destroys recorded content only; and when its links
  are made, it does so only then (`SyncApply.OnlyRecordedGoneIff`).
- A rollback that reports success need not have restored everything, and a success need not
  have left alone what it reports as unchanged: a skill may be named like the staging name of
  another, whose link clears it (`SyncScenes.AStagingNameMayBeADestination`,
  `SyncScenes.ALinkedSkillAtAStagingName`, `SyncScenes.TheOtherSkillIsLost`).  Whatever is at
  risk and nothing else is lost so, and where the links that were tried were made all of it is
  (`SyncSteps.SurviveRollbackIff`, `SyncSteps.NoopsSurviveIff`).
- A resource that is removed and restored loses its source when none was tracked: the backup
  becomes its source (`ResourceRegistry.Manager.RemoveThenRestore`).
- Merging a context block twice grows the file after a stray end marker, loses text after a
  stray start marker, and trims leading space late (`ContextMerge.MergeManagedAbsorbsIff`).
- The router does not recognize its own entry under another executable name, so unlinking
  reports a conflict (`McpLink.UnlinkUndoesLinkIff`); a configuration file that holds just
  `null` makes the edit panic (`McpLink.PanicsIffNull`).
- A run that finishes before the stored last run is lost at the next load
  (`Routines.FinishedRunSurvivesIff`), and with more receipts than are listed a load may miss
  one (`Routines.OneTooManyIsMissed`, `Routines.LoadedCoversIff`).
- Versions with leading zeros in the core are accepted (`SemVer.CoreMayHaveLeadingZeros`); where
  what is accepted and the standard differ is stated by `SemVer.AcceptedIsStandardIff`.

## Model

| member | source | states |
|---|---|---|
| WorkspaceTransaction.Manager.CommitCollections | internal/workspace/transaction.go:71-103 | For every failure and crash point the store a recovery would leave is the old one or the one with all updates, and it is the new one exactly when the pointer was removed after the forward writes; success of a non-empty commit implies it, rejection excludes it |
| WorkspaceTransaction.Manager.BeginTransaction | internal/workspace/transaction.go:105-158 | Nothing is overwritten; success means that the paths of the commit are distinct and inside the root and that the published journal holds, for each of them, the bytes that are there or the fact that nothing is; every other end leaves no pointer |
| WorkspaceTransaction.Manager.OverwriteFiles | internal/workspace/transaction.go:85-94 | However far the forward writes come, none of them can be seen in the store that a recovery would leave |
| WorkspaceTransaction.Manager.RecoverPendingTransaction | internal/workspace/transaction.go:160-192 | Recovery, interrupted anywhere and as often as one likes, never changes the abstract store; when it succeeds no pointer is left and the files are that store; a young pointer is left alone unless forced |
| WorkspaceTransaction.Manager.RestoreTransaction | internal/workspace/transaction.go:194-226 | The restore loop goes on after a failure, drops the pointer only when every file is back, and keeps the abstract store throughout |
| WorkspaceTransaction.Manager.CleanupOrphanTransactions | internal/workspace/transaction.go:255-278 | With a pointer that could be read its directory is kept and the abstract store with it; young directories are kept in any case; without a pointer nothing that matters can go |
| WorkspaceTransaction.Manager.LoadCollection | internal/workspace/store.go:402-441 | A successful load reads the abstract store |
| WorkspaceTransaction.Manager.Run | internal/workspace/transaction.go:71-226 | Any sequential run of loads, commits and forced recoveries with arbitrary failures and crashes is explained step by step by an atomic store |
| WorkspaceTransaction.RestoreNarrowsDisagreement | internal/workspace/transaction.go:194-218 | Restoring a journal makes two stores agree on every journaled path, whatever a crash left there |
| WorkspaceTransaction.RestoreForgetsCoveredPaths | internal/workspace/transaction.go:194-218 | Stores that differ only on journaled paths are restored to the same store |
| WorkspaceTransaction.FaithfulJournalRestoresNothing | internal/workspace/transaction.go:134-146 | A journal that snapshots the present files restores them to themselves, so a crash before the first overwrite changes nothing |
| WorkspaceTransaction.AppliedTouchesOnlyItsPaths | internal/workspace/transaction.go:85-94 | A half-finished commit differs from the old store on its own paths only |
| WorkspaceTransaction.StoreIsAFoldOfCommits | internal/workspace/transaction.go:71-226 | In an explained run the store at every point is the fold, in order, of the commits that took effect before it |
| WorkspaceTransaction.ExplainedRunIsAFoldOfCommits | internal/workspace/transaction.go:71-226 | Every successful load of a run reads the fold of the committed updates; acknowledged commits are in it, rejected ones are not, only interrupted ones may go either way |
| WorkspaceStore.CreatesCycle | internal/workspace/store.go:324-339 | True exactly when the new parent is the item or one of its descendants, on every forest |
| WorkspaceStore.ValidateLoadedItems | internal/workspace/store.go:443-494 | Accepts exactly the stores of not too many items, each well formed with lengths counted in UTF-8 bytes, whose parents exist and are folders, and whose parent chains end |
| WorkspaceStore.PutKeepsForest | internal/workspace/store.go:129-187 | Storing an item under an existing folder that is not the item or below it keeps every chain finite |
| WorkspaceStore.DeleteKeepsForest | internal/workspace/store.go:235-249 | Removing an item with all its descendants leaves a forest |
| WorkspaceStore.CollectSubtree | internal/workspace/store.go:235-249 | The fixpoint over an unordered map collects exactly the item and its descendants |
| WorkspaceStore.DropMemories | internal/workspace/store.go:250-256 | The filter loop keeps exactly the memory entries not keyed to a removed id |
| WorkspaceStore.DropArtifacts | internal/workspace/store.go:257-261 | The filter loop keeps exactly the artifacts not keyed to a removed id |
| WorkspaceStore.Manager.Create | internal/workspace/store.go:72-127 | Unless a file operation fails, a request is carried out exactly when it is accepted; the item hangs under an existing folder under a fresh id and the rest is untouched; the saved store loads again exactly when there was room, the item is within the load bounds and the encoded file is within the 64 MiB that a load reads |
| WorkspaceStore.Manager.Update | internal/workspace/store.go:129-187 | The same for an update, which refuses cycles, missing parents and another type, keeps type and time of creation, and leaves a store that loads again exactly when the stored item is within the load bounds and the file, with it in place of the old one, within 64 MiB |
| WorkspaceStore.Manager.Delete | internal/workspace/store.go:218-314 | Delete removes exactly the subtree with its memory and artifacts, in one commit, or nothing, and the store, smaller by what is gone, still loads |
| WorkspaceStore.CreateStaysLoadableIff | internal/workspace/store.go:72-127 | The exact condition under which a store that a create has saved is still accepted by the loader: room, the item's bounds in bytes, and the size of the indented JSON; otherwise every later load fails |
| WorkspaceStore.UpdateStaysLoadableIff | internal/workspace/store.go:129-187 | The exact condition for an update, where the number of items plays no part but the size of the file does |
| WorkspaceStore.AnAcceptedFolderLocksTheStore | internal/workspace/store.go:72-127 | A folder accepted with a resource id that has a slash leaves a store that no request can change or repair |
| WorkspaceStore.AnAcceptedUpdateLocksTheStore | internal/workspace/store.go:129-187 | A concrete update of a sound store of one folder that is accepted and locks the store in the same way |
| WorkspaceStore.AnAcceptedNameLocksTheStore | internal/workspace/store.go:72-127 | A name of 40000 two-byte letters is accepted and locks the store, since the loader counts bytes |
| WorkspaceStore.AnAcceptedWorkspaceOutgrowsTheFile | internal/workspace/store.go:402-410 | Ten workspaces with prompts of 1 MiB of an escaped character load; an eleventh within every bound of an item is accepted and makes the file longer than a load reads |
| WorkspaceStore.FitsAfterPutIff | internal/workspace/transaction.go:56-69 | The encoded file with an item put in or replaced is within the limit exactly when the old size, less the replaced entry, has room for the new one |
| ChildPool.StepKeepsInv | internal/mcp/child_pool.go:82-254 | Every step of every caller, starter, timer and closer keeps the pool invariant, for any number of threads and keys |
| ChildPool.RunKeepsInv | internal/mcp/child_pool.go:82-254 | The invariant holds in every state of every interleaving |
| ChildPool.NoSessionIsClosedInUse | internal/mcp/child_pool.go:82-126 | Unless the pool was closed, a session with a caller inside an operation is open |
| ChildPool.NoSessionIsForgotten | internal/mcp/child_pool.go:82-254 | Every open session is in the map with an active caller, a live timer of the current generation or a pending acquirer, or off the map with an active caller or a pending close, or its starter is about to publish it |
| ChildPool.StepKeepsEvicted | internal/mcp/child_pool.go:209-219 | Every step keeps that a session an idle timer has taken off the map is open, unused, nobody else's to close and not handed to the closer, until the timer closes it |
| ChildPool.OnlyEvictionsOutliveClose | internal/mcp/child_pool.go:209-254 | When Close has returned and no call is in flight, the sessions still open are exactly those that an idle timer has taken off the map and is about to close; none is open exactly when there is no such timer |
| ChildPool.CloseMayReturnBeforeAnEviction | internal/mcp/child_pool.go:209-254 | A concrete run in which Close returns while an evicted session is still open, so the stronger claim is false of the code |
| ChildPool.StaleTimerNeverEvicts | internal/mcp/child_pool.go:209-219 | A timer armed before a later acquisition of the same worker never evicts it |
| ChildPool.GenerationGrowsAlong | internal/mcp/child_pool.go:184-198 | Generations only grow along a run |
| ChildPool.PooledChildClient.EnterAcquire | internal/mcp/child_pool.go:129-182 | A caller is refused exactly on a closed pool; otherwise it is sent to the one worker that serves the key, which is new exactly for a key without one, and nothing else changes; what callers rely on in the pool is kept |
| ChildPool.PooledChildClient.PublishSession | internal/mcp/child_pool.go:146-168 | The starter goes on to acquire exactly when it got a session that the open pool still hands out; it is told to close a session exactly when it is off the map, where nobody uses it; no other worker changes |
| ChildPool.PooledChildClient.AcquireSession | internal/mcp/child_pool.go:184-198 | A caller gets the session exactly when the pool is open and still hands it out; it is counted, and every timer of the worker is from then on an earlier one |
| ChildPool.PooledChildClient.FinishOperation | internal/mcp/child_pool.go:90-125 | The caller is uncounted; it is told to close exactly when it leaves the session unused and off the map, where a broken session goes; a worker left idle on the map has a timer of its present generation |
| ChildPool.PooledChildClient.ExpireWorker | internal/mcp/child_pool.go:209-219 | A timer evicts exactly a worker that serves its key, is unused and was not handed out since the timer was set; an evicted one is off the map and, if it ever served, has a session to close |
| ChildPool.PooledChildClient.BeginShutdown | internal/mcp/child_pool.go:223-235 | Closing empties the map, stops the timers and hands every worker to the closer |
| ChildSession.StepKeepsInv | internal/mcp/child_session.go:74-162 | Every step of any number of callers, readers and closers keeps the order of the ids, the one waiting holder of the token and the state of the child |
| ChildSession.OneReaderUntilKilled | internal/mcp/child_session.go:74-109 | In every interleaving, while the child has not been killed at most one reader is on its stream, for the last request written, whose caller holds the token |
| ChildSession.TwoReadersAfterAKill | internal/mcp/child_session.go:102-108 | A concrete run: a caller that gives up kills the child but does not mark the session closed, so the next caller may put a second reader on the stream |
| ChildSession.IdsAreFresh | internal/mcp/child_session.go:87-90 | Over a whole run no id is written twice |
| ChildSession.ResponseIsTheCallers | internal/mcp/child_session.go:97-104 | A response that is received is that of the caller's own request, and the token is free afterwards |
| ChildSession.WrittenAfterCloseIff | internal/mcp/child_session.go:81-92 | A request is written on a session that is already closed exactly when the first close came between the caller's look at the flag and its write |
| ChildSession.AClosedSessionMayBeWrittenTo | internal/mcp/child_session.go:81-92 | A concrete run of that kind |
| ChildSession.TakenDownOnce | internal/mcp/child_session.go:121-162 | However many calls close the session, the child is taken down at most once |
| ChildSession.CloseIsIdempotent | internal/mcp/child_session.go:121-128 | Of two closes in a run the later changes nothing |
| ChildSession.Session.WriteRequest | internal/mcp/child_session.go:87-92 | The written request has an id that was never written before; a failed write leaves nothing on the wire and frees the token |
| ChildSession.Session.AwaitResponse | internal/mcp/child_session.go:97-109 | Whether the response comes or the caller gives up, the token is free; giving up kills the child and leaves the reader where it is |
| DependencyGraph.TopologicalMeansAcyclic | internal/catalog/catalog.go:296-336 | A graph with a dependencies-first order of all its components has no cycle |
| DependencyGraph.RevisitIsACycle | internal/catalog/catalog.go:299-318 | A component met again on the stack of the walk closes a cycle |
| DependencyGraph.PathDescends | internal/catalog/catalog.go:296-336 | Along a path positions in a dependencies-first order only go down |
| DependencyGraph.Walk.Visit | internal/catalog/catalog.go:302-325 | The depth-first visit appends the component behind all it depends on, or names an unknown component or a cycle on the stack |
| DependencyGraph.Walk.VisitRoots | internal/catalog/catalog.go:326-335 | Visiting all roots in any order covers them or reports a real cycle or an unknown component |
| Catalog.ValidateDependencyCycles | internal/catalog/catalog.go:296-336 | No error exactly when the dependency graph is acyclic, for every order of roots |
| Catalog.Validate | internal/catalog/catalog.go:45-111 | Accepts exactly the catalogs with distinct ids, declared and acyclic dependencies, declared profiles and one preferred provider per capability, given the opaque per-component checks |
| Catalog.ValidateDependencies | internal/catalog/catalog.go:77-91 | The loop accepts exactly the catalogs whose dependencies are declared, not repeated and not the component itself |
| Planner.NeededIsLeast | internal/planner/planner.go:238-261 | The needed set is contained in every dependency-closed set with the selection |
| Planner.ExpandDependencies | internal/planner/planner.go:238-261 | The worklist, seeded in any order, ends with exactly the least closed set, or reports an excluded or unknown component that is really needed |
| Planner.ReconcileActiveProviders | internal/planner/planner.go:209-236 | Each capability with selected components ends with one selected provider of it; an error exactly when a choice is ambiguous |
| Planner.SelectRequested | internal/planner/planner.go:34-57 | Profile, additions and exclusions are combined as requested, and an error is reported exactly for an undeclared name |
| Planner.OrderByDependencies | internal/planner/planner.go:263-305 | Reorders the actions so that every dependency among them comes first, and fails only on a cycle |
| Planner.ActionsCoverTheSelection | internal/planner/planner.go:85-146 | The loop over the catalog makes exactly one action for each selected component |
| Planner.Build | internal/planner/planner.go:25-167 | A plan exists exactly when the request is plannable, and then lists each component of the least closed set once, dependencies first, nothing excluded, with one selected provider per capability; on an accepted catalog ordering never fails |
| Planner.AtMostOneActiveProvider | internal/planner/planner.go:105-117 | Two different components of one capability never both get keep, install, repair or configure |
| Planner.ActingComponentIsTheProvider | internal/planner/planner.go:105-117 | A component that gets one of those actions is the recorded provider of its capability |
| Planner.ProvidersAreTheSelectedCapabilities | internal/planner/planner.go:58-84 | The capabilities with a provider are exactly those with a selected component, and each provider is selected and has it |
| Runner.Engine.Apply | internal/runner/runner.go:95-233 | Published journals extend each other, records answer the actions in order, and the status is succeeded exactly for a non-dry run with every publish accepted and one clean record per action |
| Runner.Engine.Next | internal/runner/runner.go:123-218 | An installer is entered exactly for an install or repair none of whose declared dependencies failed |
| Runner.FailedDependency | internal/runner/runner.go:254-265 | Finds a declared dependency among the failed components whenever there is one |
| Runner.NoInstallOverAFailedDependency | internal/runner/runner.go:134-144 | Where an installer ran every dependency in the plan came earlier and has a clean record |
| Runner.FailureCarriesAlongChains | internal/runner/runner.go:134-144 | A failure at the end of a chain of installs and repairs keeps every installer up the chain from running, and fails their records |
| ReviewedPlan.StepKeepsInv | internal/reviewedplan/executor.go:45-124 | Every step of any number of executors, crashes and saves included, keeps a saved plan and its entries apart |
| ReviewedPlan.InstalledAtMostOnce | internal/reviewedplan/executor.go:45-124 | Over every interleaving under the lease the installer is entered at most once per saved plan, and only after identity, digest, expiry, catalog and inventory passed |
| ReviewedPlan.WithoutTheLeaseAPlanInstallsTwice | internal/state/store.go:89-98 | Because deleting a missing plan is no error, two executors without mutual exclusion can install the same plan |
| Saga.SagaStep | internal/resourcehub/sync.go:236-247 | A step that its own compensation takes back extends a run that its compensations take back, outside a set of paths that no backup lies on |
| Saga.UndoAllRespects | internal/resourcehub/sync.go:237-246 | What lies at paths that no backup of the compensations is at makes no difference to the rest |
| Saga.FileTree.RollBack | internal/resourcehub/sync.go:237-246 | Compensating newest first computes the undo of the whole run when every compensation works; in any case it makes up no content and leaves alone what no compensation names |
| TreeDigest.CopyKeepsDigest | internal/resourcehub/fs.go:191-235 | A copied tree has its source's digest, and so has a file copied under the same name; copying succeeds where digesting does unless the source is a link |
| TreeDigest.RenamedFileIsAnother | internal/resourcehub/fs.go:84-92 | A file is hashed with its name, so a copy under another name is hashed as another text |
| TreeDigest.ImportKeepsDigest | internal/resourcehub/manager.go:184-198 | An imported single file, which becomes a directory, keeps the digest of the file |
| TreeDigest.DigestDoesNotDetermineTheTree | internal/resourcehub/fs.go:137-147 | Since bodies are hashed without lengths, one file carrying the framed text of a second has the digest of the two, under any hash |
| ResourceTargets.DestinationsAreDistinct | internal/resourcehub/sync.go:372-441 | Two resources of a target never share a destination, for every agent and kind |
| ResourceSync.PlanConflictsIff | internal/resourcehub/sync.go:79-116 | A plan holds a conflict, so that no apply of it gets anywhere, exactly when the place of a chosen resource or of a stale entry holds content that is neither wanted, nor recorded for it, nor its own link |
| ResourceSync.ValidIdHasNoSlash | internal/resourcehub/fs.go:30-42 | An accepted id has no slash, although it is trimmed before it is checked |
| ResourceSync.LayoutScatters | internal/resourcehub/sync.go:372-441 | A registry that loads puts its resources at different destinations |
| ResourceSync.PlanSelected | internal/resourcehub/sync.go:45-96 | One operation per chosen resource, sorted by destination, each as the classification says; none for a blocked resource unless risk is allowed |
| ResourceSync.AddPruned | internal/resourcehub/sync.go:97-117 | Pruning adds one removal or conflict for each recorded destination that is not selected and still there, and nothing else |
| ResourceSync.PlansActOnlyOnRecordedContent | internal/resourcehub/sync.go:77-116 | An update or removal is planned only over content with the digest recorded for that destination, a creation only over nothing |
| SyncApply.Hub.PlanSync | internal/resourcehub/sync.go:20-133 | A refusal stores nothing; a stored plan is sound for the files, the registry and the managed state it was made from |
| SyncApply.Hub.Revalidate | internal/resourcehub/sync.go:184-229 | Passes exactly when every operation is still as reviewed; a conflict never passes |
| SyncApply.Hub.ApplySync | internal/resourcehub/sync.go:135-310 | A refusal touches nothing.  However an apply of any plan ends, failed compensations included, what was there and is gone had been recorded earlier for that destination or lay, removable, at the staging name of a link.  If no name of the plan is a rollback name, then even where destinations are staging names a rollback that worked restores all that was not at risk where linking was tried and leaves at most own links at staging names that were free, and a success does exactly what was reviewed and keeps what it replaced at fresh backup names, but for what was at risk; the trace tells which links were tried and which were made, and what lay where one was made is gone |
| SyncApply.Hub.Run | internal/resourcehub/sync.go:20-310 | Over every run of outside edits, imports, plans and applies, everything that an apply makes go had been recorded for that same destination by an earlier apply, or lay at the start at a staging name of that apply, as a file, a link or an empty directory |
| SyncApply.Hub.PendingFits | internal/resourcehub/sync.go:249-267 | What was checked before the first mutation still holds when an operation's turn comes, for every plan none of whose names is a rollback name |
| SyncApply.Hub.Retreat | internal/resourcehub/sync.go:236-247 | A rollback that worked restores all that was not at risk where linking was tried, for every plan none of whose names is a rollback name; one that failed still leaves alone all that was neither recorded nor at risk |
| SyncApply.Hub.Install | internal/resourcehub/sync.go:273-285 | Linking with its fallback to a copy reaches only the destination and its staging name, where it keeps a directory that is not empty and leaves at most its own link; after a link that was made nothing is left there |
| SyncSteps.StepExtends | internal/resourcehub/sync.go:249-296 | An operation that did what it should keeps the run undoable, backed up, confined and achieved so far, whether or not its destination is another's staging name |
| SyncSteps.Retracts | internal/resourcehub/sync.go:236-296 | An operation that set out, come through or not, leaves a run that its compensations take back but for what was at risk |
| SyncSteps.SurviveRollbackIff | internal/resourcehub/sync.go:236-247 | After a rollback that worked any paths, so all destinations, are as they were if none was at risk where linking was tried and only if none was where a link was made; exactly then, where every link that was tried was made |
| SyncSteps.NoopsSurviveIff | internal/resourcehub/fs.go:296-310 | After a success the destinations that were to be left alone are as they were if none was at risk and only if none was where a link was made; exactly then, where every link was made |
| SyncApply.OnlyRecordedGoneIff | internal/resourcehub/fs.go:300-313 | Of an apply that came through or was rolled back, of a plan none of whose names is a rollback name: where every link that was tried was made, it destroyed recorded content only exactly when all that lay removable where a link was made had been recorded |
| SyncScenes.AForeignFileAtAStagingName | internal/resourcehub/fs.go:300-313 | For any content a user may have there, any hash and any names: nothing is recorded, the stored plan that creates one skill is sound, reviewed and ready, and the content is at risk |
| SyncScenes.TheForeignFileIsLost | internal/resourcehub/fs.go:300-313 | When an apply of that plan made its link, the user's content is gone, after a success and after a rollback alike |
| SyncScenes.AStagingNameMayBeADestination | internal/resourcehub/fs.go:300-313 | For every plain id, the id with the staging suffix is accepted too, and its skill is placed at the staging name of the first |
| SyncScenes.ALinkedSkillAtAStagingName | internal/resourcehub/fs.go:296-310 | Two such skills in link mode: the plan that creates the first and leaves the second, which is linked as it should be, is sound, reviewed and ready, and the second's link is at risk |
| SyncScenes.TheOtherSkillIsLost | internal/resourcehub/fs.go:296-310 | When an apply of that plan made the first link, nothing of the second skill's link is left, after a success that reports it as unchanged and after a rollback that reports success alike |
| SyncApply.IntactCopyPasses | internal/resourcehub/sync.go:286-292 | The copy of a canonical directory that is as reviewed passes the digest check after copying |
| ResourceRegistry.Manager.Import | internal/resourcehub/manager.go:150-248 | Whatever was on the disk, an import adds or replaces one entry, which then describes its directory, keeps the replaced one among the backups and every other resource described; a failure undoes what it did, or where a compensation fails leaves only that one resource in doubt |
| ResourceRegistry.Manager.Install | internal/resourcehub/manager.go:175-247 | The same for content from any place, for a failure at any forward step |
| ResourceRegistry.Manager.RemoveResource | internal/resourcehub/manager.go:276-303 | The entry goes and its directory, intact or not, becomes a backup; a failed save brings the directory back; every other resource stays described |
| ResourceRegistry.Manager.RestoreBackup | internal/resourcehub/manager.go:473-509 | A backup whose content does not have the digest it records is refused and nothing changes; any other comes back under the identity it had, described by its entry, with all that was described before, and with the source it tracked or, where it tracked none, the backup itself |
| ResourceRegistry.Manager.RemoveThenRestore | internal/resourcehub/manager.go:276-509 | Removing a described resource and restoring the backup this made: when both succeed the entry has its old digest and describes its directory again, and it has its old source exactly when one was tracked, as a path in shortest form |
| ResourceRegistry.ImportedDigestIsTheSources | internal/resourcehub/manager.go:184-198 | What is imported has the digest of what it was imported from |
| ResourceRefresh.Refresher.PlanRefresh | internal/resourcehub/refresh.go:16-77 | One assessment per selected resource, update, noop or conflict as its source says |
| ResourceRefresh.Refresher.FreshImportIsLeftAlone | internal/resourcehub/refresh.go:46-60 | A refresh planned right after an import leaves the resource alone so long as the source is untouched |
| ResourceRefresh.Refresher.ApplyRefresh | internal/resourcehub/refresh.go:79-214 | A refusal touches nothing; otherwise all reviewed updates are swapped in and saved with the old directories in backups, or, where compensations work, nothing has changed; whatever was on the disk, resources that were described stay so, but for those whose compensation failed, and refreshed ones become so |
| ResourceRefresh.Refresher.Run | internal/resourcehub/refresh.go:16-214 | Over every run of imports, removals, restores, refreshes and outside edits of sources, backups and canonical trees, the recorded digest of a resource is that of its canonical content in every reached state, unless its directory was edited or a compensation for it failed; a call with a failed compensation puts in doubt at most the resource it is about, and a refresh at most those that the review stored at the time updates |
| ResourceRefresh.Refresher.StageAll | internal/resourcehub/refresh.go:152-162 | Stages are fresh, one for each update, and hold what was reviewed |
| ResourceRefresh.SwapExtends | internal/resourcehub/refresh.go:179-200 | One swap keeps the run undoable and confined to the directories swapped so far |
| ResourceRefresh.HeldAfterRefresh | internal/resourcehub/refresh.go:179-207 | After all swaps the new registry describes the new directories and all those it described before |
| ContextMerge.MergeManagedAbsorbsIff | internal/contextengine/refresh.go:248-263 | For any text and any two generated blocks, merging one and then the other equals merging the other exactly when the text is blank, or its first start marker precedes its first end marker, or it has no marker and no leading space |
| ContextMerge.MergeAbsorbsIff | internal/contextengine/refresh.go:248-263 | The same for any two markers without line breaks and any clean header |
| ContextMerge.AbsorbsAtMarkers | internal/contextengine/refresh.go:249-255 | Where the markers enclose a block the text around it is trimmed once and then stays |
| ContextMerge.GrowsAfterAStrayEnd | internal/contextengine/refresh.go:249-262 | With an end marker before any start marker each refresh appends another block |
| ContextMerge.LosesTextAfterAStrayStart | internal/contextengine/refresh.go:249-255 | With a start marker and no end marker the second refresh drops the text behind it |
| ContextMerge.AbsorbsIntoPlainText | internal/contextengine/refresh.go:262 | Without markers refreshing twice equals refreshing once exactly when the text has no leading space |
| ContextMerge.TextAroundTheBlockSurvives | internal/contextengine/refresh.go:252-255 | User text before and after the block survives up to surrounding space |
| ContextMerge.AppendedTextSurvives | internal/contextengine/refresh.go:262 | User text without a block survives up to surrounding space |
| ContextRefresh.SecondRefresh | internal/contextengine/refresh.go:45-63 | Refreshing again with the same block asks for the same text exactly under the condition of the merge, and then plans nothing |
| ContextRefresh.Manager.PlanRefresh | internal/contextengine/refresh.go:25-77 | One operation for each path, for the first target that has it, with the merged text |
| ContextRefresh.Manager.ApplyRefresh | internal/contextengine/refresh.go:79-200 | A refusal touches nothing, a failure that was rolled back leaves every file as it was, and a success leaves exactly the reviewed texts |
| ContextRefresh.Manager.WriteAll | internal/contextengine/refresh.go:157-196 | The writes done so far are always undone by the rollback list |
| ContextRefresh.EachIsApplied | internal/contextengine/refresh.go:157-196 | Each operation's file holds its content and each skipped file what it held |
| McpLink.OnlyOwnEntryChanges | internal/mcplink/manager.go:346-406 | Whatever the decision, everything in the document but the router's own entry is unchanged |
| McpLink.PanicsIffNull | internal/mcplink/manager.go:346-406 | The edit panics on exactly the files that hold the document null, in both modes |
| McpLink.ForeignEntryStays | internal/mcplink/manager.go:357-395 | An entry that somebody else made under the router's name survives every sequence of linking and unlinking, and the document with it |
| McpLink.LastChangeDecides | internal/mcplink/manager.go:357-395 | Of a document without such an entry only the last change of a sequence matters: it is the linked document or the one it was |
| McpLink.ExpectedIsOwned | internal/mcplink/manager.go:682-688 | The entry that linking writes is recognized as ours exactly when the executable is called agentstack and the router config is not blank |
| McpLink.UnlinkUndoesLinkIff | internal/mcplink/manager.go:365-395 | Unlinking takes back what linking added when the entry is recognized, and otherwise is a conflict |
| McpLink.LinkThenUnlinkRestores | internal/mcplink/manager.go:365-395 | A document with its object of servers comes back as it was |
| McpLink.LinkingIsIdempotent | internal/mcplink/manager.go:371-373 | Linking again does nothing |
| McpLink.FileRoundTrip | internal/mcplink/manager.go:346-406 | The same on the bytes of the file, if the linked document is read back as it was written |
| McpLink.WriteBacksRestore | internal/mcplink/manager.go:273-281 | Undoing all write-backs restores the start even where two clients share a file |
| McpLink.Manager.MakePlan | internal/mcplink/manager.go:87-130 | A plan holds the edit of each client's file, or nothing is stored |
| McpLink.Manager.Apply | internal/mcplink/manager.go:132-294 | A refusal touches nothing, a failure that was rolled back leaves every file as it was, a success leaves each file with the reviewed edit of what it held |
| McpLink.Manager.BackUp | internal/mcplink/manager.go:408-431 | Only a registration that is the router's own is ever copied into a backup |
| Routines.CrashedPersistIsAllOrNothing | internal/routines/manager.go:226-254 | With a clock past the stored last run, a crash anywhere while a run is persisted, pruning included, followed by a load gives the routines before the run or exactly those the finished run would have saved |
| Routines.FinishedRunSurvivesIff | internal/routines/manager.go:313-340 | A finished run survives a load exactly when its routine has no later receipt; a clock set back loses it |
| Routines.ReconciledCovers | internal/routines/manager.go:313-340 | After reconciling no listed receipt is later than its routine's last run |
| Routines.LoadedCoversIff | internal/routines/manager.go:256-340 | However many receipts there are, after a load all of them are covered exactly when no routine without a listed receipt was behind one of its receipts |
| Routines.OneTooManyIsMissed | internal/routines/manager.go:256-340 | With one receipt more than are listed, which a crash before the pruning leaves, a routine whose receipt is earlier than the others is not brought up to date |
| Routines.LoadGivesEffective | internal/routines/manager.go:313-455 | Where only the newest receipt may be ahead of the store, every load gives the routines with that run |
| Routines.PersistingIsAtomic | internal/routines/manager.go:241-254 | Under a clock past all that is on the disk a run stopped anywhere leaves a disk of that kind again, which stands for the routines after the run as soon as anything was written |
| Routines.Manager.History | internal/routines/manager.go:171-455 | Every sequence of runs and loads under such a clock, each stopped at any point, is one in which each run happened at once or not at all, reported runs did happen, and each load saw exactly the runs that did |
| Routines.ReconcilingTwice | internal/routines/manager.go:313-340 | Reconciliation is idempotent |
| Routines.CoveredStaysPut | internal/routines/manager.go:320-338 | Routines that no receipt is later than are left as they are, to the last field |
| Routines.Manager.ListRuns | internal/routines/manager.go:256-290 | The listing is sorted, latest first, and leaves out only receipts no later than all listed ones |
| Routines.Manager.ReconcileRuns | internal/routines/manager.go:313-340 | The loop over the listing computes the reconciled map and reports a change exactly when there is one |
| Routines.Manager.Load | internal/routines/manager.go:388-455 | A load yields the stored routines brought up to date and leaves exactly those in the file; a failure leaves the file alone |
| Routines.Manager.PersistRun | internal/routines/manager.go:241-254 | Receipt, store and pruning happen in this order, and every stop leaves one of the states of the crash theorem |
| Routines.Manager.Run | internal/routines/manager.go:171-239 | The same for a whole run from any stored state, with unknown, disabled and unconfirmed runs changing nothing but the catch-up of the load |
| Schedules.NextIsLeastMatch | internal/routines/schedule.go:26-45 | A daily or weekday schedule gives the least matching instant strictly after now, and an error exactly for a bad zone or clock |
| Schedules.UpcomingIsNext | internal/routines/schedule.go:35-45 | The first day not past, moved over a weekend, is that least instant |
| Schedules.SkipWeekend | internal/routines/schedule.go:40-44 | The loop stops at the first day that is no weekend day |
| Schedules.NextRun | internal/routines/schedule.go:10-49 | The whole decision with its error cases, the zero time included |
| Schedules.AcceptanceIsTimeless | internal/routines/schedule.go:10-49 | Whether a schedule is accepted does not depend on the instants, so a stored schedule cannot fail when receipts are caught up |
| Schedules.NextIsLater | internal/routines/schedule.go:10-49 | Every schedule but a manual one moves on |
| SemVer.ParseIffRendered | internal/version/semver.go:40-70 | A text is accepted exactly when it is the rendering of well-formed parts, which then are what it means |
| SemVer.TakeApartRendered | internal/version/semver.go:41-54 | Taking a rendered version apart gives its parts back |
| SemVer.RenderTakenApart | internal/version/semver.go:41-54 | Rendering what was taken apart gives the text back |
| SemVer.CoreMayHaveLeadingZeros | internal/version/semver.go:58-68 | A core with a leading zero is accepted, against section 2 of Semantic Versioning 2.0.0, a prerelease with one is not |
| SemVer.AcceptedIsStandardIff | internal/version/semver.go:40-70 | An accepted text is a version of Semantic Versioning 2.0.0 exactly when it has no leading v, no space around it and no core number with a leading zero; a version of the standard is refused exactly when a core number does not fit an int |
| SemVer.IdentifierOrder | internal/version/semver.go:132-149 | Comparing numerals by length and then by characters is comparing their values, and numerals are below words |
| SemVer.LeadingZerosWouldMislead | internal/version/semver.go:132-149 | With leading zeros that would be wrong |
| SemVer.EqualLengthByCharacters | internal/version/semver.go:140-148 | Among numerals of one length character order is numeric order |
| SemVer.ComparePrerelease | internal/version/semver.go:108-130 | The loop decides precedence of prereleases as section 11 defines it |
| SemVer.CompareVersions | internal/version/semver.go:72-90 | An answer exactly for two versions, and then their precedence |
| SemVer.MakeVersion | internal/version/semver.go:43-69 | The checks and the loop over the core accept exactly the well-formed parts |
| SemVer.PrecedenceTrichotomy | internal/version/semver.go:72-90 | Of two versions exactly one of below, above and same holds |
| SemVer.PrecedenceTransitive | internal/version/semver.go:72-90 | Precedence is transitive |
| SemVer.NotAboveTransitive | internal/version/semver.go:72-90 | Not above is transitive, so comparing is a total preorder |
| SemVer.Compatible | internal/version/semver.go:155-175 | Accepts exactly a closed interval; a malformed maximum goes unnoticed below the minimum, and without bounds nothing is parsed |
| Transport.DecodeEncoded | internal/pathenv/transport.go:18-54 | Decoding inverts encoding on every sequence of Unicode scalar values |
| Transport.EncodeDecoded | internal/pathenv/transport.go:18-54 | An accepted payload is encoded again to the same bytes |
| Transport.WellFormedIffEncoded | internal/pathenv/transport.go:41-52 | Units are well formed in the sense of section 2 of RFC 2781 exactly when they encode some text |
| Transport.ScanSurrogates | internal/pathenv/transport.go:41-52 | The scan accepts exactly the well-formed sequences |
| Transport.EncodeWindowsString | internal/pathenv/transport.go:18-25 | The loop over the units gives the Base64 of their little-endian bytes |
| Transport.DecodeWindowsString | internal/pathenv/transport.go:29-54 | The three errors and the text, each exactly when the specification says so |
| Transport.FitsBudgetIff | internal/pathenv/transport.go:11-13 | The budget holds exactly the encodings of at most 49152 units; 32767 units take 87380 bytes |
| Transport.DecodeGroupsOfEncoded | internal/pathenv/transport.go:24-30 | Base64 groups of section 4 of RFC 4648 are read back, padding included |
| Transport.BreaksDoNotMatter | internal/pathenv/transport.go:30 | Line breaks anywhere in a payload are skipped |
| Transport.UnusedBitsDoNotMatter | internal/pathenv/transport.go:30 | The low bits of the digit before the padding are not looked at |

## Left out

- SyncApply.Hub.ApplySync: that a rollback restores and that a success does what was reviewed is promised for plans none of whose destinations and staging names begins like a rollback name of a destination (a collision would also need the random id of the plan at its end); what an apply may destroy is bounded for every plan.
- SyncScenes.TheForeignFileIsLost: speaks of an apply that made its link; whether one does depends on answers of the file system, which are arbitrary.
- SyncScenes.TheOtherSkillIsLost: the same.
- WorkspaceStore.ValidateLoadedItems: a state file is taken to be as long as the encoder makes it, which a file edited by hand need not be; resource and routine ids of an item are sets, and years have four digits.
- ResourceRegistry.Manager.Import: a source inside the manager's own root is read like any other path, not as one of the directories that the same call moves.
- SyncApply.IntactCopyPasses: speaks of directories, which is what every import makes; a canonical tree that was edited into a file fails the check after copying, unless the names agree or hashes collide (`TreeDigest.RenamedFileIsAnother`).
- ChildSession.Session.WriteRequest: a failed write may have put part of a line on the wire, which is not modelled.
- Routines.Manager.History: puts and deletions of routines are not among its calls, and the clock does not go back; run ids are fresh.
- ContextMerge.MergeManagedAbsorbsIff: speaks of generated blocks with the end marker once, at their end; a project whose path or command contains a marker is not covered.
- ResourceRefresh.Refresher.PlanRefresh: the order of the steps is not modelled, because each concerns another resource.
- McpLink.FileRoundTrip: needs that the linked document is read back as it was written, because numbers beyond double precision do not survive the decoder.
- Failures of compensating steps: their outcome is reported; what is promised after one is that nothing else is touched, in `SyncApply`, `ResourceRegistry` and `ResourceRefresh`, and nothing in `ContextRefresh` and `McpLink`.
- An empty subdirectory in a tree: a directory is its files and links, so one with nothing but empty directories counts as empty.
- Outside edits between the checks and the mutations of one apply; between calls they are arbitrary.
- Nested destinations and case-insensitive file systems: paths are equal or unrelated.
- `safefile.Replace`, permissions and fsync: a replacement is one step.  Replacing a directory through its own temporary backup is one step as well.
- Temporary names: a fresh directory name is never a resource id.
- Lease file races: the lease is a mutex that may be switched off in the model of the executor.
- Windows API calls, process spawning, signals and the JSON-RPC framing: a child is open or closed, and the reader of a request yields that request's response.
- Supply-chain and acquisition checks of the catalog: one opaque predicate per component.
- The order of actions for review within one tier: any arrangement is allowed before the dependency order is computed.
- Resolution of link targets through further links: a managed link matches when it names the canonical path.
- Codex linking through the `codex` command; only clients with a configuration file are modelled.
- JSON text: claims are about decoded documents, and numbers that the decoder rounds to double precision are not tracked.
- Artifact directories that `Delete` moves aside before the commit and removes after it.
- Time zones with daylight saving: a zone is a fixed offset.
- Bytes that are not UTF-8: texts are sequences of characters.
- Resource names, tags, descriptions and metadata, and the contents of reports beyond what is applied, skipped and backed up.
- Retention, capped buffers, rate limits, scoring, redaction and the audit rules.
- The HTTP interface, the command line, notifications and session launching.
- Concurrent writers of one routine store or one resource registry, which the source does not lock against each other.
