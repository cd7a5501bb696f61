# Verified model of the worker coordination ledger and its neighbours

This project models, and proves properties of, four parts of the repository.

**The coordination ledger** (`scripts/coordination_state.py`), in three layers.

- *Durable layer* (`Json`, `DurableModel`, `Transactions`, `Durable`). `Durable.Store` is the state directory: documents, an event log
  whose last line may be torn, prepared transaction files. Its methods are the ledger's own: repair the event tail,
  complete a prepared transaction, run an atomic transaction. Each process has a budget of durable writes; when it is
  spent the process dies, possibly in the middle of an append, and possibly inside recovery. `DurableModel.Abs` maps a
  directory to a simple store in which a transaction happens all at once, and every write is proved to leave it alone
  except the one that prepares a transaction.
- *State machine* (`LedgerModel`, `LedgerInvariant`, `LedgerSteps`, `LedgerRuns`, `LedgerOneLive`, `LedgerGrants`,
  `LedgerEffects`, `LedgerLifecycles`, `Ledger`, `LedgerService`). `LedgerModel` says what each public operation answers and writes; `Ledger.CoordinationState` is the
  object with mutable documents whose methods make the checks and assignments in the order the source makes them, each
  proved to agree with the specification. `LedgerService` shows that the object goes through exactly the states of the
  run. One invariant is proved inductive over all calls with all arguments, and the history properties follow from it.
  `LedgerGrants` says who gets a lease, a task or a question, `LedgerEffects` what the other operations mean for a caller,
  `LedgerLifecycles` what becomes of it over a run.
- *Lock file* (`Lock`). The stage, link, read-owner and unlink steps of any number of processes, interleaved freely, with
  deaths between any two steps.

**The derived index** (`scripts/coordination_index.py`): the strongly-connected-components search (`Graphs`,
`ComponentInvariant`, `Tarjan`), the registration check it is compared with (`Registration`), the readiness table
(`Readiness`) and the JSON Pointer selectors (`Selectors`, `Digits`).

**The sync planner** (`scripts/sync_local.py`): the pruning directory walk (`SyncWalk`), staging, planning and the swap
(`Sync`).

**The task-definition parser** (`evals/cleanroom.py`): the character scans and scalars (`YamlText`, `YamlScalars`), the
line pass and the recursive parsers with their index loops (`YamlParser`), what printed documents parse to as lines
(`YamlRoundTrip`) and as text (`YamlTextTrip`), exactly which values survive the round trip (`YamlStrings`), block
scalars (`YamlBlocks`), and flow lists and quoted tokens (`YamlFlow`). `Options` holds the one shared datatype.

## Where the code does less than one would like

These are proved as exact conditions with a concrete input beside them.

- Renewing a lease looks neither at its expiry nor at the holder's other leases. A worker that renews a lease after it ran
  out, having taken another task meanwhile, has two live task leases: `LedgerOneLive.OneLiveExactly`,
  `LedgerOneLive.LateRenewalBreaksIt`.
- Reclaiming a dead owner's lock reads and unlinks in two steps. Two reclaimers can race, and the slower one removes the
  record of the faster, although the comment at `scripts/coordination_state.py:316-319` says that cannot happen:
  `Lock.HeldStepExactly`, `Lock.LateUnlinkCollides`, `Lock.RacingReclaimersCollide`.
- The index calls a task ready when its dependencies are published but not decided: `Readiness.ReadyExactly`,
  `Readiness.IndexOverReports`.
- The selector of a whole record is `/`, which as a JSON Pointer is the member with the empty name:
  `Selectors.RootSelectorIsAnotherMember`, `Selectors.SelectorsDistinctExactly`, `Selectors.RootSelectorNamesNothing`,
  `Selectors.SelectorsClash`.
- An exclude pattern that matches a whole directory path strands the files below it: they are neither scanned for drift nor
  carried over, so a sync drops them, against the comment at `scripts/sync_local.py:588-595`: `Sync.ExactlyOneClass`, `Sync.NestedPatternLosesFiles`. A mapped file that matches a
  pattern is overwritten without counting as drift: `Sync.UnforcedSyncExactly`, `Sync.ExcludedMappingOverwrites`.
- Starting an operation under the id of a finished one reopens it: `LedgerLifecycles.FinishedExactly`,
  `LedgerLifecycles.FinishedCanReopen`.
- The comment and separator scans do not know escapes. A printed string with an escaped quote can be cut at a `#`, and
  as a list item it can become a mapping at a colon: `YamlStrings.LinesRoundTrip`, `YamlStrings.TextRoundTrip`,
  `YamlStrings.ItemBecomesMapping`, `YamlStrings.StringIsCut`.

## Model

| member | source | states |
|---|---|---|
| Json.SafeIdempotent | scripts/coordination_state.py:129-140 | redacting a value twice is redacting it once, at any depth |
| Json.SafeExact | scripts/coordination_state.py:129-140 | redaction changes a value if and only if something shows under a credential-like key |
| Json.SafeHidesAll | scripts/coordination_state.py:129-140 | nothing shows under a credential-like key after redaction |
| Json.SensitiveExactly | scripts/coordination_state.py:129-140 | a key counts as credential-like exactly if it spells one of the eight words, in any case and with anything around it |
| Durable.ChecksumExact | scripts/coordination_state.py:711-724 | recovery accepts a prepared transaction exactly when its documents and event details were redacted before the checksum was taken |
| DurableModel.RepairedOk | scripts/coordination_state.py:523-577 | repairing the tail keeps exactly the readable records and ends every line |
| DurableModel.PrepareCommits | scripts/coordination_state.py:646-703 | writing the transaction file applies the whole transaction to the abstract store at once |
| DurableModel.WriteKeepsAbs | scripts/coordination_state.py:689-692 | writing a document of the prepared transaction leaves the abstract store as it is |
| DurableModel.AppendKeepsAbs | scripts/coordination_state.py:595-622 | so does appending its next event, with or without the final newline |
| DurableModel.TornKeepsAbs | scripts/coordination_state.py:595-622 | so does an append that dies part-way |
| DurableModel.UnlinkKeepsAbs | scripts/coordination_state.py:698-703 | so does removing the transaction file once everything is in place |
| DurableModel.FillKeepsAbs | scripts/coordination_state.py:768-779 | so does creating a missing document |
| DurableModel.ReplayLogSorted | scripts/coordination_state.py:646-703 | the log of a store is the events of its transactions in revision order |
| Durable.Store.RepairEventTail | scripts/coordination_state.py:523-577 | the tail repair, which may crash, loses no readable event and keeps the store's meaning |
| Durable.Store.RecoverLocked | scripts/coordination_state.py:705-750 | recovery, which may crash at every write, keeps the meaning of the directory, never finds a corrupt transaction, and when finished leaves nothing pending |
| Durable.Store.EnsureLocked | scripts/coordination_state.py:768-779 | after any crashes, a finished recovery leaves exactly the documents and log of the committed transactions |
| Durable.Store.AtomicTransaction | scripts/coordination_state.py:646-703 | a commit happens whole or not at all, and has happened exactly once when it reports success; then the documents and the log on disk are what such a commit is to make of them |
| Transactions.BodyCommits | scripts/coordination_state.py:646-703 | what a commit makes of the store: each updated document has the caller's keys in order with the caller's values redacted and the new revision, the metadata changes in its revision alone, other documents stay, and the log goes on with the caller's events in order, redacted and dated |
| Transactions.CommitCounts | scripts/coordination_state.py:660-667 | a commit leaves the metadata the schema and a count of commits one higher, and nothing else |
| Transactions.EmptyCounts | scripts/coordination_state.py:465-485 | in a fresh store that count is zero |
| Durable.Store.CompletePrepared | scripts/coordination_state.py:688-703 | carrying out a prepared transaction keeps the store's meaning at every crash point |
| Durable.Store.LogExactlyOnce | scripts/coordination_state.py:579-622 | the log is the events of the committed transactions in revision order, each id once, each numbered by its position |
| Durable.Store.Live | scripts/coordination_state.py:646-750 | over any sequence of processes, crashes and torn tails: each commit does what it is to do with its own documents and events or nothing, has done it if it reported success, and nothing else changes the history |
| LedgerSteps.StepKeeps | scripts/coordination_state.py:1048-2385 | any public call with any arguments keeps the invariant, moves every record forward, and raises the revision of a task it changes by exactly one |
| LedgerInvariant.CommitKeepsInv | scripts/coordination_state.py:646-703 | a transaction that is right record by record keeps the invariant of the whole ledger |
| LedgerRuns.Reachable | scripts/coordination_state.py:1048-2385 | the invariant holds in every state of every run |
| LedgerRuns.ResultsExactlyOnce | scripts/coordination_state.py:1856-1877 | once set, a task's result id, hash and record never change, even after the task moves to another status; task and record agree; a decision is immutable in both |
| LedgerRuns.IntegratedIffResult | scripts/coordination_state.py:1868-1877 | the integration count is 1 exactly when a result exists, else 0 |
| LedgerRuns.RevisionsAreVersions | scripts/coordination_state.py:1420-1432 | equal revisions at two moments mean equal task records; a call that changes a task raises its revision by one |
| LedgerRuns.PublishedOnInput | scripts/coordination_state.py:1861-1877 | an accepted publication acted on the very record that had its input revision |
| LedgerRuns.StaleCallWritesNothing | scripts/coordination_state.py:1303-1308 | a call whose fence is not current writes nothing, and is refused unless it publishes a result already there |
| LedgerRuns.FencedForever | scripts/coordination_state.py:1303-1308 | once a newer epoch of a lease key exists, no later call with an older epoch or an older epoch's token changes anything |
| LedgerRuns.GrantsAreNew | scripts/coordination_state.py:1709-1719 | every grant opens the next epoch of its key under a token never issued before |
| LedgerRuns.LiveHolderStep | scripts/coordination_state.py:1659-1666 | a call that does not show an active lease's epoch and token leaves it alone while its holder's process is alive, whatever the clock says |
| LedgerRuns.LiveHolderKeepsLease | scripts/coordination_state.py:1659-1686 | the same over any stretch of a run |
| LedgerRuns.FirstLeasesFollowDependencies | scripts/coordination_state.py:1652-1658 | when a task first gets a lease, by any route, each dependency is already accepted and has had a lease: first leases follow the dependency graph |
| LedgerRuns.LeasedTasksAreUnblocked | scripts/coordination_state.py:1164-1218 | a task that ever held a lease has all its dependencies registered, with accepted decisions that never change |
| LedgerRuns.DependenciesStayAcyclic | scripts/coordination_state.py:1238-1251 | registered dependencies are acyclic in every reachable state, forward references included |
| LedgerRuns.SomeTaskCanProceed | scripts/coordination_state.py:1135-1162 | with every dependency registered, some task without an accepted result has only accepted dependencies |
| LedgerOneLive.OneLiveExactly | scripts/coordination_state.py:1400-1416 | a call keeps "one live task lease per holder" if and only if it is not a renewal by a holder with another live task lease |
| LedgerOneLive.OneLiveAlways | scripts/coordination_state.py:1667-1680 | with a nondecreasing clock and no renewal of a task lease that ran out, no holder ever has two live task leases |
| LedgerOneLive.LateRenewalBreaksIt | scripts/coordination_state.py:1400-1416 | a run of six calls after which one holder has two live task leases |
| LedgerEffects.RegisterIsFullUpdate | scripts/coordination_state.py:1048-1096 | registering a known worker again is updating every field of it; only a negative budget is refused, and only registering makes a worker known |
| LedgerEffects.UpdatesCompose | scripts/coordination_state.py:1098-1119 | two updates of a worker are one update with both edits but for the revision; nothing but that worker changes |
| LedgerEffects.WorkersAreStored | scripts/coordination_state.py:1048-1119 | registration stores everything it is given, an update the fields it is given and no other |
| LedgerEffects.QuotaMeans | scripts/coordination_state.py:2124-2135 | a quota reading makes its worker available exactly if neither exhausted nor stale, blocks it if exhausted, and ends a block or a pending reset if not |
| LedgerLifecycles.WorkerRevisionsAreVersions | scripts/coordination_state.py:1098-1119 | equal worker revisions at two moments of a run mean equal worker records |
| Ledger.CoordinationState.RegisterTask | scripts/coordination_state.py:1220-1277 | registers exactly when the id is new, not its own dependency, and no cycle is reachable from it |
| LedgerEffects.RegistersExactly | scripts/coordination_state.py:1220-1277 | on an acyclic ledger a task is registered exactly if its id is new and the dependencies stay acyclic; each dependency is stored once, at its first place, and nothing is done yet |
| LedgerEffects.DedupMeans | scripts/coordination_state.py:1228-1232 | the stored dependencies are the given ones, each once, in the order of their first places |
| Ledger.CoordinationState.DependenciesReady | scripts/coordination_state.py:1164-1218 | the list of failures is empty exactly when every dependency has an accepted decision in force, and names each failing dependency with its reason |
| LedgerGrants.ReadyMeans | scripts/coordination_state.py:1164-1218 | a task is ready exactly if every dependency is completed, has a result its record confirms, and an accepted decision in force in both; each other dependency has its own reason |
| Ledger.CoordinationState.CheckAcquire | scripts/coordination_state.py:1617-1705 | the checks of an acquisition, in the source's order, give the specified refusal |
| Ledger.CoordinationState.AcquireLease | scripts/coordination_state.py:1617-1730 | the single grant: refuses without writing, or claims the task, its handoff and the next epoch in one transaction |
| LedgerGrants.GrantsExactly | scripts/coordination_state.py:1617-1730 | a lease is granted if and only if the caller is known and asks for some time, nobody holds the key or its holder is displaceable after expiry, and a task is unfinished, not in recovery, ready or handed over, not resumed by another, at the expected revision, and its worker free; the refusal names the first thing in the way; what a grant writes is given in full |
| LedgerGrants.OneFence | scripts/coordination_state.py:1303-1308 | a fence is current exactly if it is the one in the unreleased lease |
| LedgerLifecycles.OverOpensNoEpoch | scripts/coordination_state.py:1648-1651 | while a task is completed, failed or cancelled no call opens a new epoch of its lease |
| LedgerEffects.ReleaseEnds | scripts/coordination_state.py:1364-1386 | a release succeeds exactly under the current fence, changes that lease alone, and afterwards no fence of the key is current |
| LedgerLifecycles.ReleasedForGood | scripts/coordination_state.py:1364-1386 | after a release no call that shows that epoch or an older one changes anything, at any later point of the run |
| LedgerEffects.RenewKeepsFences | scripts/coordination_state.py:1400-1416 | a renewal succeeds exactly under the current fence for a positive time, expired or not; the lease is live again and the same fences are current as before |
| LedgerEffects.MarkingStopsWork | scripts/coordination_state.py:1754-1760 | marking works on every known task, finished or not: result, decision, checkpoint and leases stay, and nobody can lease, resume, route or operate on the task |
| LedgerLifecycles.RecoveryHolds | scripts/coordination_state.py:1732-1760 | whatever is called, a task stays in recovery and gets no lease until its recovery is resolved |
| LedgerEffects.CheckpointOutcomes | scripts/coordination_state.py:1439-1585 | a checkpoint is refused, pending, turned into recovery or written, each exactly when the fence, the holder's process and the operation call for it; a live process keeps its lease, and the last two outcomes end it |
| LedgerEffects.CheckpointHandsOver | scripts/coordination_state.py:1439-1615 | after a written checkpoint the task cannot be leased but by claiming it, and a claim that shows it succeeds exactly for a known worker without another live task lease, unless the task is in recovery |
| LedgerEffects.ClaimsOnce | scripts/coordination_state.py:1591-1615 | a claim is granted only on the task's own checkpoint, unchanged, at the revision expected; it puts the worker in charge, and no further claim succeeds |
| LedgerGrants.ClaimsExactly | scripts/coordination_state.py:1591-1615 | a claim is granted exactly if it shows the unchanged checkpoint of a task that waits at it and a lease through that handoff may be granted |
| LedgerEffects.ResolvingReopens | scripts/coordination_state.py:1732-1752 | exactly a task in recovery is resolved, once, into the checkpointed or the queued status with its result and decision as they were |
| LedgerEffects.BeginOpens | scripts/coordination_state.py:1764-1783 | an operation starts exactly under the current fence of a task not in recovery; the index reports it unresolved and it can be finished |
| LedgerEffects.FinishEnds | scripts/coordination_state.py:1785-1812 | an operation finishes exactly while in flight, a second finish changes nothing, and an unknown outcome takes its task out of work in the same transaction |
| LedgerLifecycles.FinishedExactly | scripts/coordination_state.py:1764-1812 | a call keeps the record of a finished operation if and only if it does not start an operation under the same id |
| LedgerLifecycles.FinishedStays | scripts/coordination_state.py:1785-1812 | over a run the outcome stands as long as no operation is started under its id |
| LedgerLifecycles.FinishedCanReopen | scripts/coordination_state.py:1764-1783 | a run in which a committed operation goes back in flight |
| LedgerEffects.PublishAccepts | scripts/coordination_state.py:1833-1901 | a result is accepted exactly when there is none, the fence is current and the revision expected; then the lease is over, its handoff completed, the same call a duplicate and any other result id refused |
| LedgerLifecycles.PublishedOnce | scripts/coordination_state.py:1833-1901 | at most one publication per task is accepted in a run; each later one is a duplicate or refused and changes nothing |
| LedgerEffects.DecidesOnce | scripts/coordination_state.py:1907-2072 | a lawful ruling under the live coordinator fence is recorded exactly when there is none, with the task completed, or failed if rejected for good; the same again is a duplicate; any other is refused from then on |
| LedgerEffects.RulingCounts | scripts/coordination_state.py:2047-2056 | what a ruling makes of the result as a dependency: it stands, or is reported as rejected, superseded or not completed |
| LedgerEffects.AcceptanceUnblocks | scripts/coordination_state.py:2047-2056 | after a ruling exactly those tasks are ready whose other dependencies stood, and which do not wait for this result unless it was accepted |
| LedgerLifecycles.DecidedOnce | scripts/coordination_state.py:1907-2072 | at most one ruling per task is recorded in a run; later calls change nothing |
| Ledger.CoordinationState.RouteTask | scripts/coordination_state.py:2204-2290 | gives the task to the first eligible worker that can take its lease, or records that none can |
| LedgerGrants.RoutesExactly | scripts/coordination_state.py:2204-2290 | who is served: the first eligible known worker that may lease the task, all before it passed over; whose lease is in the way; when every candidate is passed over; each answer exactly then, with what it writes |
| LedgerGrants.CandidateRefused | scripts/coordination_state.py:2256-2282 | an eligible worker is passed over because the task is under a lease, the worker is busy, or somebody else resumed the task |
| Ledger.CoordinationState.RouteQuestion | scripts/coordination_state.py:2292-2380 | one worker answers and pays from its budget if in reserve, or the task is marked blocked |
| LedgerGrants.QuestionsExactly | scripts/coordination_state.py:2292-2380 | the first candidate that is not in reserve or has budget left answers; only a worker in reserve pays, one question; otherwise the task is blocked and keeps the question |
| LedgerService.Serve | scripts/coordination_state.py:1048-2385 | serving a call on the object is one step of the run, with the run's answer |
| LedgerService.ServeRun | scripts/coordination_state.py:1048-2385 | after any calls the object is in the state of the run, and in the invariant |
| Registration.CycleCheck.Visit | scripts/coordination_state.py:1146-1160 | one visit of the search: a cycle can be reached when found, and everything visited reaches none when not |
| Registration.RegistrationClosesCycle | scripts/coordination_state.py:1135-1162 | answers true exactly when a cycle is reachable from the new task, self-loops and unknown targets allowed |
| Registration.RefusesExactlyNewCycles | scripts/coordination_state.py:1238-1251 | on an acyclic ledger it refuses exactly the tasks that would make the dependencies cyclic |
| Tarjan.CycleSearch.PopComponent | scripts/coordination_index.py:171-177 | pops exactly the tasks above the root of the component |
| Tarjan.CycleSearch.Visit | scripts/coordination_index.py:154-179 | keeps the invariant of the search, with the low link the least index reachable through open tasks |
| Tarjan.TaskCycles | scripts/coordination_index.py:145-184 | terminates and returns precisely the tasks that lie on some cycle, self-loops, duplicates and unknown targets included |
| ComponentInvariant.AllVisited | scripts/coordination_index.py:181-184 | with every task visited the recorded set is exact |
| ComponentInvariant.PopCycles | scripts/coordination_index.py:178-179 | a popped component is cyclic exactly when it has two members or a self-loop |
| Readiness.ReadinessTable | scripts/coordination_index.py:385-433 | every task's row holds exactly the reasons that apply to it |
| Readiness.ReadyExactly | scripts/coordination_index.py:418-425 | in every reachable state the ledger's gate is open exactly when the index lists no dependency reason and every dependency is accepted; so the index never under-reports |
| Readiness.NoReachableCycles | scripts/coordination_index.py:145-184 | the cycle search finds nothing on any reachable ledger |
| Readiness.IndexReadyMeans | scripts/coordination_index.py:406-433 | a task the index calls ready is refused by the ledger exactly when some dependency has no accepted decision |
| Readiness.IndexReadyExactly | scripts/coordination_index.py:385-433 | a task is index-ready exactly if queued, with no recovery, blocker, cycle, unpublished dependency, lease or operation in the way |
| Readiness.IndexReadyIsLeasable | scripts/coordination_index.py:385-433 | on a reachable ledger a worker gets the lease of an index-ready task exactly if every dependency is accepted, the worker known and free, the revision not stale, and nobody else resumed the task |
| Readiness.IndexOverReports | scripts/coordination_index.py:418-425 | a run after which the index calls a task ready and the ledger refuses it |
| Selectors.EscapeRoundTrip | scripts/coordination_index.py:138-139 | an escaped key decodes, as section 4 of RFC 6901 says, to the key |
| Selectors.PointerRoundTrip | scripts/coordination_index.py:138-142 | a built pointer decodes to its tokens, so different places have different pointers |
| Selectors.SelectorsReachTheirRecords | scripts/coordination_index.py:128-142 | every selector but the whole record's evaluates to an object with exactly the record it was yielded with |
| Selectors.RecordsAreYielded | scripts/coordination_index.py:128-142 | every object with an artifact path is yielded under the pointer that reaches it |
| Selectors.RecordsArePicked | scripts/coordination_index.py:128-135 | an object points at an artifact exactly if it has a string under one of the four path keys; path and hash are under the first keys that have one |
| Selectors.SelectorsDistinctExactly | scripts/coordination_index.py:136-142 | selectors are pairwise different unless the whole record and its member with the empty name are both records |
| Selectors.RootSelectorIsAnotherMember | scripts/coordination_index.py:136 | the whole record's selector evaluates to the member with the empty name |
| Selectors.RootSelectorNamesNothing | scripts/coordination_index.py:136 | a record whose own selector names nothing in it |
| Selectors.SelectorsClash | scripts/coordination_index.py:136-142 | a record in which two candidates share a selector |
| Lock.HeldStepExactly | scripts/coordination_state.py:313-347 | a step keeps every process inside at the lock path if and only if it is not an unlink that comes too late |
| Lock.LateUnlinkCollides | scripts/coordination_state.py:384-395 | after a late unlink the same process can link at once, and then two processes are inside |
| Lock.MutualExclusion | scripts/coordination_state.py:349-422 | for any number of processes, interleavings and deaths, without a late unlink at most one process is inside and the path shows its record |
| Lock.ExclusiveUnlessOwnerDies | scripts/coordination_state.py:349-422 | where no process dies while the path shows its record, at most one process is ever inside |
| Lock.PathIsWhole | scripts/coordination_state.py:359-378 | in every run the path shows only complete records, each of the process that drew its token |
| Lock.ExitRemovesOwn | scripts/coordination_state.py:414-422 | what a leaving process is about to remove is its own record |
| Lock.ExitFrees | scripts/coordination_state.py:414-422 | its unlink leaves the path free, and everybody else where they were |
| Lock.LeavingHandsOver | scripts/coordination_state.py:349-422 | from every timely state two steps of a leaving process free the lock, and three steps of any idle process then take it |
| Lock.DeadOwnerIsReclaimed | scripts/coordination_state.py:384-395 | the lock of a dead owner is taken by any idle process in steps of its own |
| Lock.ReclaimsOnlyDead | scripts/coordination_state.py:384-395 | only a record of a dead process is ever about to be reclaimed |
| Lock.ChecksAgain | scripts/coordination_state.py:313-347 | a reclaimer goes on exactly while the path shows the record it judged, a leaving process unlinks exactly if it shows its own |
| Lock.PromptUnlinkIsTimely | scripts/coordination_state.py:313-347 | an unlink right after its recheck removes the record of a dead process and is never late |
| Lock.RacingReclaimersCollide | scripts/coordination_state.py:384-395 | from every start with three processes a run leads to two processes inside |
| SyncWalk.IterFiles | scripts/sync_local.py:350-365 | the pruning walk yields exactly the files found below no excluded directory |
| SyncWalk.WalkYieldsVisible | scripts/sync_local.py:350-365 | from the root these are the files that no pattern excludes, below no directory that one excludes |
| Sync.BuildStagedTree | scripts/sync_local.py:467-505 | every managed overlay file is staged with its own bytes, any other staged file is what the last mapping to bring one brings, and nothing else is staged; the first bad mapping decides the error |
| Sync.StagedMeans | scripts/sync_local.py:467-505 | the staged tree is the overlay over the base, said of the mappings and the overlay alone |
| Sync.StagedIsNoControl | scripts/sync_local.py:474-503 | no control path is ever staged |
| Sync.Target.MakePlan | scripts/sync_local.py:610-668 | the plan is the specified one for the staged tree, the installed tree and the receipt |
| Sync.Target.ApplyPlan | scripts/sync_local.py:1028-1052 | the swap leaves the staged files, the carried files, and a receipt of exactly the staged files |
| Sync.Target.Run | scripts/sync_local.py:1112-1130 | a refused or dry run changes nothing; a run goes through exactly without a bad mapping and, unless forced, without drift |
| Sync.ExactlyOneClass | scripts/sync_local.py:588-668 | each installed non-control file is in exactly one class, unless it is stranded and not staged, and then it is lost |
| Sync.FatesAreMet | scripts/sync_local.py:1028-1052 | replaced files get the staged bytes, deleted ones go, kept ones keep their bytes, nothing else appears |
| Sync.FateExactly | scripts/sync_local.py:610-668 | what a sync leaves at a path and records of it, and what counts as drift, said of the trees, the patterns and the receipt |
| Sync.ActionsTell | scripts/sync_local.py:625-640 | the announced action tells the origin of a staged file, and for one of the base whether nothing, other bytes or the same are installed |
| Sync.ComponentPatternsStrandNothing | scripts/sync_local.py:337-347 | with patterns that match single components exclusion is inherited and nothing is stranded |
| Sync.UnforcedSyncExactly | scripts/sync_local.py:620-624 | without force a file that differs from its receipt hash keeps its bytes exactly if it is not at risk: staged with other content, or seen by neither scan |
| Sync.UnforcedSyncIsSafe | scripts/sync_local.py:620-624 | with component patterns and nothing staged at an excluded path no such file changes |
| Sync.NestedPatternLosesFiles | scripts/sync_local.py:354-358 | a pattern that names a nested directory drops an edited file without reporting drift |
| Sync.ExcludedMappingOverwrites | scripts/sync_local.py:620-623 | a mapped file that matches a pattern is overwritten without reporting drift |
| Sync.SyncIsFixedPoint | scripts/sync_local.py:610-668 | planning again after a sync finds no drift and no deletes, and applying again gives the same tree and the same receipt |
| Sync.Target.RunAgain | scripts/sync_local.py:1112-1130 | a second run on the target needs no force and leaves the tree and the receipt as they are |
| YamlText.StripComment | evals/cleanroom.py:100-118 | the result is the line up to the first # that is outside quotes and at the start or after a blank |
| YamlText.SplitUnquoted | evals/cleanroom.py:121-132 | the two sides of the least position that is a separator outside quotes, or nothing if there is none |
| YamlText.Scalar | evals/cleanroom.py:135-173 | the value of a token: JSON string, quoted text, flow list, word, integer or text |
| YamlText.JsonRoundTrip | evals/cleanroom.py:137-144 | encoding and decoding a string as JSON gives it back, whatever it holds |
| YamlText.UnicodeEscapeReads | evals/cleanroom.py:137-144 | four-digit escapes are decoded, alone or as a surrogate pair |
| YamlParser.ParseYaml | evals/cleanroom.py:176-217 | the document is the value of its lines, or the error of the first line that does not fit |
| YamlParser.IndentedLines | evals/cleanroom.py:187-211 | the first pass yields the uncommented lines with their indentation, block scalars folded to one |
| YamlParser.ParseBlockAt | evals/cleanroom.py:220-223 | the block at an index agrees with the grammar on the lines left; terminates on every input |
| YamlParser.ParseSeqAt | evals/cleanroom.py:226-251 | so does the loop over list items, with the lines of an item gathered for its mapping |
| YamlParser.ParseMapAt | evals/cleanroom.py:254-276 | so does the loop over keys; the measure is the lines left, then block over sequence over mapping |
| YamlRoundTrip.BadLineRejected | evals/cleanroom.py:254-276 | after a mapping at the margin, a line indented for no reason, a list item or a line without a colon is refused for just that |
| YamlScalars.ScalarReads | evals/cleanroom.py:135-173 | null, booleans, integers, every string and the empty list are read as they are written |
| YamlFlow.FlowReads | evals/cleanroom.py:146-166 | a flow list of scalars is read item by item, if the scan for commas leaves each string in one piece |
| YamlFlow.UnquotedInOnePiece | evals/cleanroom.py:146-166 | as it does with every string without a double quote |
| YamlFlow.SingleQuotedReads | evals/cleanroom.py:137-145 | between single quotes everything is taken as it stands |
| YamlFlow.BadEscapesStay | evals/cleanroom.py:137-145 | so it is between double quotes, if it is not the body of a JSON string |
| YamlRoundTrip.MapReads | evals/cleanroom.py:254-276 | the printed lines of a mapping, with any texts behind its keys, parse to what is read from the texts, before any lines further out, which are left |
| YamlRoundTrip.SeqReads | evals/cleanroom.py:226-251 | so do those of a sequence of texts and non-empty mappings, where a text with a colon outside quotes is a mapping |
| YamlTextTrip.TextReads | evals/cleanroom.py:176-276 | parsing the text of a printed document gives what is read from its texts once each is cut at its comment mark |
| YamlStrings.LinesRoundTrip | evals/cleanroom.py:220-276 | parsing the printed lines of a value gives it back if and only if no string that is a list item has a colon outside what the scan takes for quotes |
| YamlStrings.TextRoundTrip | evals/cleanroom.py:176-276 | parsing the printed text gives the value back if and only if, besides, no string has a comment mark outside what the scan takes for quotes |
| YamlStrings.SafeStrings | evals/cleanroom.py:100-132 | a string without a double quote passes both scans, as does one without a # the one and one without a colon the other |
| YamlBlocks.BlockScalarSurvives | evals/cleanroom.py:197-209 | a block scalar's key is assigned its lines trimmed and joined, whatever quotes and colons they hold |
| YamlBlocks.BlockItemSurvives | evals/cleanroom.py:226-251 | behind a dash, the item is a mapping whose first key is assigned the text and whose other keys are the deeper lines, or the two ways its key can spoil it |
| YamlBlocks.BlockDocument | evals/cleanroom.py:176-217 | raw lines that are one block scalar parse to the mapping of its key to its text, or to a list of it |
| YamlFlow.BlockTextMeans | evals/cleanroom.py:200-209 | a block opened by | keeps its lines, trimmed, in order; one opened by > is the same text with blanks for the line ends |
| YamlBlocks.OpensBlockMeans | evals/cleanroom.py:197-199 | a key opens a block exactly if one of the four styles follows it |
| YamlBlocks.InBodyMeans | evals/cleanroom.py:202-206 | a line goes on with a block exactly if it is blank or starts with more blanks than the line of the key |
| YamlBlocks.LineByLine | evals/cleanroom.py:187-211 | without blocks the first pass goes line by line |
| YamlBlocks.BlankLineVanishes | evals/cleanroom.py:190-193 | and blank lines and comments may stand anywhere |
| YamlStrings.ItemBecomesMapping | evals/cleanroom.py:231-247 | a string item with an escaped quote and a colon parses to a mapping |
| YamlStrings.StringIsCut | evals/cleanroom.py:100-118 | a string with an escaped quote and a comment mark parses to another string |

## Left out

- YamlStrings.TextRoundTrip: keys that cannot stand as they are (untrimmed, with a quote, a colon or a comment mark, or like a list item or a flow list) are left out, because the grammar has no way to write them.
- YamlStrings.LinesRoundTrip: the same keys are left out.
- YamlFlow.FlowReads: strings that the comma scan would cut are left out; what is read from those is not said.
- Selectors.SelectorsReachTheirRecords: the whole record's selector is left out, because it names another member.
- Lock.MutualExclusion: runs with a late unlink are left out, because in them it fails.
- JSON text, UTF-8, line splitting, hashing and unique-id generation: records are values, hashes are the hashed content, tokens come from a counter that never repeats, a torn record is told apart from a whole one.
- Lower-casing of keys in redaction beyond ASCII.
- Ids that contain a redacted word: redaction looks at mapping keys, so such a record would be blanked; ids are taken to be free of those words, and record keys are data rather than JSON keys in the state machine.
- Lease keys as text: a key is the pair of kind and resource, which the string `kind:resource` stands for when kinds hold no colon.
- More than one clock reading in a call: each call reads the clock once.
- The events of each operation: the durable layer has events in general, the state machine does not list them per operation.
- The failure of a handoff claim on a task without a handoff record: it cannot arise in a reachable state and counts as fenced here.
- Capability, quota and preference checks in routing: the order of workers and the eligible ones are parameters of the call.
- Messages, request evaluation, exports, snapshots, operation replay, the quota records themselves and worker fields beyond those routing and leases need: they touch none of the records the properties are about. What quota capture does to the worker is modelled.
- Calls with a blank reason, resolution or question: they are refused before anything is read or written, so they are no calls of the model.
- The refusal of unknown mode or status names: the types have no such values.
- File system details of the lock: staging-file names, hard-link support, sharing violations other than as failed steps, and how a process is proven dead.
- The transaction file's own torn write: it is replaced atomically.
- The SQLite tables, queries and artifact observation of the index; the sorted order of an object's members, which is the order the ledger writes them in.
- Sorting of readiness reasons: a row is the set of them.
- Sync: the install lock, orphan collection, skill fragments, symbolic links, backups, a path that is a file in one tree and a directory in another, and glob syntax (any predicate on text stands for the patterns).
- YAML: lone surrogates in JSON escapes, digits outside ASCII, and lists directly inside lists, which the grammar does not have.
- Validation of task definitions, and everything else in the evaluation programs.
