# SmartFlow daemon: a Dafny model

SmartFlow's daemon drives a run through prepare, work, review, repair and publish, and commits one
versioned project state per step. This project models the parts of it where a mistake would lose work,
publish twice or wedge a run, and proves what they keep over whole histories.

Six groups of modules:

1. **From snapshots to files.** `Snapshot`, `CandidateBuilder`, `WorkspaceTree`, `PublishOperations`,
   `WorkspaceApply`, `PublishReconcile`, `PublishMeaning`: diff two snapshots, translate the difference, sort it,
   apply it to a tree of files in two passes that may stop anywhere, observe what is there and read the result back.
2. **The durable mutation protocol.** `MutationExecutor` (replay, guards, build, receipt, fence), `StateStore`
   and `LeasedExecutor` (the lease row, the versioned row and `mutate` as classes), `MutationProtocol` and
   `LeaseSafety` (any number of executors in any number of processes, interleaved transaction by transaction,
   with crashes, expiry, preemption, pid reuse and lost answers), `PublishHandoff` (commit, then effect).
3. **The run lifecycle.** `ProjectModel` (the record and its schema), `ReviewRules`, `RunSteps` and
   `RunTransitions` (every builder), `StepMeaning` (where each builder leads, what it asks and what it leaves alone),
   `LifecycleInvariant`, `ProjectLifecycle`, `DaemonTasks` (which task commits what, and what each builder may
   therefore rely on), `LifecycleResults`, `ProtocolLifecycle`, `AutomaticReviews`, `WorkerEvents`,
   `ReviewRetry`, `PublishProtocol`, `PublishRecords`, `ResumeRoutes` (which offered actions are accepted) and
   `UnsettledPublish` (which runs can never leave a pause).
4. **One publish, from start to end.** `PublishStore` and `PublishService` (the attempt store and the service as
   classes over the durable state and the adapter), `PublishObservation` and `PublishOutcome` (what their steps
   amount to), `PublishRun` and `PublishRecovery` (a run from READY_TO_PUBLISH, or from a crash in PUBLISHING, to
   where it rests), `PublishResults` (from an approved candidate to a completed run and the files on disk).
5. **The repair loop.** `RepairLoop` (scope, progress, the termination measure) and `RepairRounds` (the stored rounds
   over whole histories).
6. **Three sequence algorithms.** `WorkspaceWalk`, `LineFraming`, and `TasksParser` with `TaskGrammar` (the forms of
   a document), `RepairTasks` and `RepairDraft`. `Text`, `Ordering` and `Wrappers` are shared.

How the model is built:

- A hash is an injective constructor: equal hashes mean equal content. An artifact reference stands for the
  immutable value it names.
- A SQLite transaction is one step. Clocks, the process table, `ps`, stdout chunks, adapter answers and faults
  are parameters; a clock reading is arbitrary at every transaction, so it may also go backwards.
- `localeCompare` is a parameter assumed to be a strict total order on the paths that are sorted. `<` on
  strings is modelled by code unit.
- The workspace is a tree of files (hash and mode), directories, symbolic links and other nodes. A file that lies
  where a path of the batch needs a directory makes `lstat` fail, and the check of the batch throws. Paths of a
  batch may be nested; that a snapshot names no path under another one is only asked of the snapshot a whole
  publish is said to install, since no tree holds it otherwise.
- Assumed of the daemon: identifiers of runs, attempts and requests are fresh where they are random, and one worker
  task and one publish task run per job and epoch. "Disciplined" (`LifecycleInvariant.StepDisciplined`) names what a
  builder relies on beyond the guards of its request (the next generation, no worker running, a publish record that
  fits, no lease left on a run that completes); `DaemonTasks` derives it for every commit of those tasks, and
  the histories of `LifecycleResults` assume none of it.

Where the code does not do what its surroundings suggest, the model follows the code and proves the condition:

- the depth-first walk is not always in the order snapshots are checked for
  (`WorkspaceWalk.WalkSortedExactly`, `WorkspaceWalk.SlashSortsAfterDot`);
- completing a cancellation is refused while the publish lease names the job (`LifecycleResults.CancelCompletesExactly`,
  `UnsettledPublish.CancellationCompletesExactly`);
- a file where a directory is needed makes the check of a batch throw, instead of reporting a conflict
  (`PublishOperations.ThrowsExactlyWhenObstructed`, `PublishOperations.FileInTheWayThrows`), and the publish lease stays
  taken (`PublishResults.ThrowingPublishKeepsLease`);
- a publish outcome whose status was recorded before is a repeat, and the run stays where it is
  (`PublishProtocol.OutcomeSettlesExactlyWhenFresh`, `PublishProtocol.SecondConflictLeavesRunReady`);
- not every action a pause offers is accepted: the retry of a worker that was canceled or failed with a code
  outside a fixed list, the retry of a publish after a manual confirmation found the target different, and
  the plain retry after any other failed stage lead nowhere (`ResumeRoutes.OffersAreExact`);
- a run that comes to rest, with no accepted way on, while its publish record is PREPARED, SUBMITTED or UNKNOWN or
  while the publish lease names it cannot be completed or cancelled any more and keeps its task; with the lease it
  keeps it from every other job of the project (`UnsettledPublish.StuckExactly`, `UnsettledPublish.TrapHoldsTheLease`,
  `UnsettledPublish.TrapStopsThePublishes`). A blocked publish, a blocked recovery and a cancellation lead there
  (`UnsettledPublish.StoppedPublishIsTrapped`), so one failed rename does (`PublishResults.BrokenCommitTrapsRun`), so
  does a crash before the adapter has recorded a COMMITTED or CONFLICT result
  (`PublishRecovery.RecoveryManager.RecoverRun`), and so does a cancellation after a publish that took the lease and
  then crashed or threw (`UnsettledPublish.CrashAfterAcquiringTraps`, `PublishResults.FailedPublishRests`);
- a publish repeated after its batch was applied finds the files changed and reports a precheck conflict instead of
  reading the recorded result (`PublishResults.RepeatedPublishConflicts`);
- a worker stream that throws after COMPLETED turns the completed attempt into a failed one
  (`WorkerEvents.ThrowAfterCompletedFailsAttempt`);
- the measure of the repair loop (`RepairLoop.RepairRoundFalls`) needs a component for a review left over from before
  the last user input: there is a round on which nothing else falls (`RepairLoop.LeftoverReviewKeepsTheRest`);
- the draft of a repair outside the scope is refused by the task parser (`RepairDraft.RenderedDraftIsRefused`), and the
  numbers of new tasks repeat exactly those that completed tasks already have, since only open tasks are counted
  (`RepairDraft.AddedIdsAreNewExactly`, `RepairDraft.CompletedIdRepeats`);
- a candidate without changes cannot be published (`PublishMeaning.NoChangeCandidateIsRefused`);
- no builder leads to FAILED (`LifecycleInvariant.StepsFollowGraph`, `LifecycleResults.CompletedRunsPublished`).

## Model

| member | source | states |
|---|---|---|
| `Snapshot.VerifiedExactly` | packages/workspace/src/git-snapshot.ts:134-175 | a snapshot is verified exactly when its paths are safe and in strict order, files and links are what they say, and the hash is of all of it |
| `Snapshot.SafePathsWalkToThemselves` | packages/workspace/src/git-snapshot.ts:61-64 | a path is safe exactly when walking its components from the root leads to itself: it never stays, steps back or leaves |
| `Snapshot.ControlPlaneExactly` | packages/workspace/src/git-snapshot.ts:45-52 | a path belongs to the control plane exactly when its first two components are .smartflow and tasks |
| `CandidateBuilder.GitOperations` | packages/workspace/src/candidate-builder.ts:101-128 | the loop over the merged, sorted paths computes the diff of two verified snapshots |
| `CandidateBuilder.DescribesOnlyDiff` | packages/workspace/src/candidate-builder.ts:101-128 | a list of operations is strictly path-sorted with exactly one right operation per path whose blob or mode differs if and only if it is the diff |
| `CandidateBuilder.OnlyTheBuiltCandidateIsAccepted` | packages/workspace/src/candidate-builder.ts:130-178 | for given snapshots the verifier of snapshot bindings accepts the built candidate and no other operation list |
| `CandidateBuilder.BuiltExactly` | packages/workspace/src/candidate-builder.ts:130-178 | a candidate is built exactly for two verified snapshots of one run, repository and policy whose difference keeps out of the control plane |
| `CandidateBuilder.AllPathsSorted` | packages/workspace/src/candidate-builder.ts:101-110 | the merged path list is strictly sorted and holds the paths of either side and no others |
| `WorkspaceTree.DirectoriesObstructNothing` | packages/publish/src/workspace-apply-adapter.ts:139-158 | the parent directories made for new files put nothing in the way of any path and clear nothing out of it |
| `WorkspaceTree.DirectoriesKeepTree` | packages/publish/src/workspace-apply-adapter.ts:139-158 | making all the directories above some paths, none of them taken by a file, keeps the workspace a tree |
| `WorkspaceTree.OnThePath` | packages/publish/src/preflight.ts:90-103 | a link lies on a path at the path or above it; only what lies above it and is neither directory nor link is in its way |
| `PublishOperations.CanonicalOperations` | packages/publish/src/preflight.ts:27-64 | sorts by path and refuses, with the first fault in order, an empty or repeated batch, an unsafe path, a malformed operation |
| `PublishOperations.CanonicalContents` | packages/publish/src/preflight.ts:27-64 | the canonical batch is a sorted rearrangement of the given one with distinct paths |
| `PublishOperations.CanonicalIsValid` | packages/publish/src/preflight.ts:33-62 | every operation of a canonical batch is well formed and its paths are distinct |
| `PublishOperations.CanonicalAccepts` | packages/publish/src/preflight.ts:27-64 | a nonempty batch of valid operations on distinct publishable paths is accepted |
| `PublishOperations.CanonicalIgnoresOrder` | packages/publish/src/preflight.ts:27-70 | the canonical batch, and so the operations hash, does not depend on the order the operations arrive in |
| `PublishOperations.ValidExactly` | packages/publish/src/preflight.ts:41-62 | an operation is valid exactly when an addition alone expects nothing, a deletion alone leaves nothing, and everything else is said in full |
| `PublishOperations.PublishablePathsStayInside` | packages/publish/src/preflight.ts:33-40 | a path that may be published never leaves the workspace |
| `PublishOperations.ChecksPassExactly` | packages/publish/src/preflight.ts:105-163 | the two checks pass an operation exactly when no link lies on its path and the path holds the one file, or nothing, it should before and after |
| `PublishOperations.PreflightOperations` | packages/publish/src/preflight.ts:105-131 | reports, in order, the one reason each operation conflicts with the files, and nothing else; throws exactly at the first path a file lies across, and refuses what the canonical form refuses |
| `PublishOperations.ObserveTargetState` | packages/publish/src/preflight.ts:138-163 | matches exactly when no operation's target state is missing; otherwise the reasons in order; the same throw |
| `PublishOperations.PreflightSorted` | packages/publish/src/preflight.ts:111-130 | the loop over the sorted batch stops with the throw, or ends with the conflicts |
| `PublishOperations.ObserveSorted` | packages/publish/src/preflight.ts:144-162 | the same for the target states |
| `PublishOperations.ThrowsExactlyWhenObstructed` | packages/publish/src/preflight.ts:90-103 | both checks throw exactly when some operation's path, with no symbolic link on it, has an ancestor that is neither a directory nor a link |
| `PublishOperations.FileInTheWayThrows` | packages/publish/src/preflight.ts:90-103 | adding notes/a.md where notes is a file is such a batch |
| `PublishOperations.ConflictsReportReasons` | packages/publish/src/preflight.ts:105-163 | a path is reported with a reason exactly when some operation on it has that reason |
| `WorkspaceApply.FilesystemWorkspaceApplyAdapter.constructor` | packages/publish/src/workspace-apply-adapter.ts:90-95 | an adapter over a workspace with no recorded results |
| `WorkspaceApply.FilesystemWorkspaceApplyAdapter.Apply` | packages/publish/src/workspace-apply-adapter.ts:112-193 | refusals, and a first check that throws, leave files and results alone; a known operation id replays its recorded result or is refused under another hash; otherwise files and the recorded result are the batch outcome |
| `WorkspaceApply.FilesystemWorkspaceApplyAdapter.ApplyBatch` | packages/publish/src/workspace-apply-adapter.ts:131-193 | preflight, staging, second preflight and commit give the outcome for every fault; a throw of the first preflight is answered and nothing is recorded |
| `WorkspaceApply.FilesystemWorkspaceApplyAdapter.Stage` | packages/publish/src/workspace-apply-adapter.ts:139-158 | every new file is staged under its path and the parents of the paths reached are made; staging stops at the first operation whose blob is unusable, whose directory cannot be made or whose write fails |
| `WorkspaceApply.FilesystemWorkspaceApplyAdapter.CommitStaged` | packages/publish/src/workspace-apply-adapter.ts:174-182 | after k operations the files are those with the first k applied |
| `PublishReconcile.ApplyFirstTouches` | packages/publish/src/workspace-apply-adapter.ts:174-182 | each of the first k paths holds its new state |
| `PublishReconcile.ApplyFirstKeeps` | packages/publish/src/workspace-apply-adapter.ts:174-182 | a path no operation of the first k names is as it was |
| `PublishReconcile.StoppedBatchIsReported` | packages/publish/src/workspace-apply-adapter.ts:58-88 | a batch stopped after k of n operations leaves k new and n-k old paths and is reported COMMITTED iff k = n, PARTIAL iff 0 < k < n, UNKNOWN iff k = 0 |
| `PublishReconcile.Reconcile` | packages/publish/src/publish-service.ts:53-74 | COMMITTED exactly for a bijection of path results and operations with every target observed; CONFLICT exactly when the result says so and the first broken claim is not a wrong observation |
| `PublishReconcile.ReconcileProduced` | packages/publish/src/publish-service.ts:53-74 | for results the adapter can produce, the verdict is COMMITTED iff the status is, CONFLICT iff CONFLICT, and BLOCKED otherwise |
| `PublishReconcile.PathIsObserved` | packages/publish/src/workspace-apply-adapter.ts:58-88 | a path is reported in its new state, in its old one or in neither exactly as the files are, with the file that is there |
| `PublishReconcile.StatusIsOfThePaths` | packages/publish/src/workspace-apply-adapter.ts:220-247 | COMMITTED iff all paths are, PARTIAL iff some, CONFLICT iff none and one conflicts, UNKNOWN iff none is anything |
| `PublishReconcile.ConflictNamesThePaths` | packages/publish/src/workspace-apply-adapter.ts:199-218 | a refused batch names as conflicts exactly the paths that failed the check |
| `PublishReconcile.StagesExactly` | packages/publish/src/workspace-apply-adapter.ts:139-158 | without a failing write a batch is staged exactly when each new file has its blob, of its size and hash, and a place to go to |
| `PublishReconcile.MatchesExactly` | apps/daemon/src/recovery/recovery-manager.ts:121-134 | the recovery check passes exactly a result with a path per operation, whose committed paths saw their targets and, if COMMITTED, are all committed |
| `PublishReconcile.ProducibleShape` | packages/publish/src/workspace-apply-adapter.ts:199-247 | a produced result names every operation once, in order, and says COMMITTED only where every target was observed |
| `PublishReconcile.ProducedResultReads` | apps/daemon/src/recovery/recovery-manager.ts:121-134 | the recovery check accepts a produced result exactly in the stated cases, and always a committed one |
| `PublishReconcile.CleanBatchIsUnnested` | packages/publish/src/preflight.ts:105-131 | in a batch that passed preflight and changes every path, no path lies under another |
| `PublishReconcile.CleanBatchStaysObservable` | packages/publish/src/workspace-apply-adapter.ts:174-193 | wherever the commit loop stops, no path of a batch that passed preflight is obstructed, so the observation afterwards never throws |
| `PublishMeaning.PublishPreservesMeaning` | packages/publish/src/workspace-apply-adapter.ts:112-193 | in a tree that holds the baseline on the touched paths with nothing in their way, diff, translate, sort and a fault-free apply leave the result there and the directories it needs, change nothing else and report COMMITTED |
| `PublishMeaning.BatchInAnyOrder` | packages/publish/src/preflight.ts:27-64 | any order of the same operations gives the same canonical batch, files and result |
| `PublishMeaning.BatchInstalls` | packages/publish/src/workspace-apply-adapter.ts:112-193 | in such a tree a fault-free batch installs the second snapshot on exactly the touched paths, with its directories |
| `PublishMeaning.TranslationIsBatch` | apps/daemon/src/publish/git-publish-source.ts:20-70 | translating a candidate yields one operation per touched path carrying its old and new entry |
| `PublishMeaning.TranslationCarries` | apps/daemon/src/publish/git-publish-source.ts:20-70 | one translated operation expects the old entry of its path and carries the new one, blob included |
| `PublishOperations.TranslatesExactly` | apps/daemon/src/publish/git-publish-source.ts:20-70 | an operation is refused exactly on the control plane, with a link on either side, or for another file than the snapshot holds; otherwise it is translated into a valid one |
| `PublishOperations.SourceIsBound` | apps/daemon/src/publish/git-publish-source.ts:20-31 | a candidate is translated only against its own result snapshot, and exactly when every operation is |
| `PublishMeaning.NoChangeCandidateIsRefused` | packages/publish/src/preflight.ts:29-31 | a candidate of equal snapshots has no operations, and no such batch is accepted |
| `MutationExecutor.OtherVersionIsRefused` | apps/daemon/src/runtime/project-mutation-executor.ts:129-138 | a new request that expects another state version is refused for that, whatever else it expects and would build |
| `MutationExecutor.GuardsDecide` | apps/daemon/src/runtime/project-mutation-executor.ts:127-185 | which refusal a request meets, in terms of the request and the run it names: version, fence, binding, attempt, phase, in that order; a repeat is not held against the version |
| `MutationExecutor.CommitMeetsGuards` | apps/daemon/src/runtime/project-mutation-executor.ts:127-225 | a commit means a new request whose every guard was met; what was built, given the fence of its run or the next one, is what is written |
| `MutationExecutor.MetGuardsReachBuilder` | apps/daemon/src/runtime/project-mutation-executor.ts:186-225 | a new request whose guards are met commits, unless its builder or the schema refuses |
| `MutationExecutor.CommitAdvancesCounters` | apps/daemon/src/runtime/project-mutation-executor.ts:186-225 | a commit raises version, project fence and number of receipts by one, keeps every receipt, stores its own and satisfies the schema |
| `MutationExecutor.HistoryCounts` | apps/daemon/src/runtime/project-mutation-executor.ts:186-225 | over j-i commits all three counters rise by j-i and no receipt is changed or dropped |
| `MutationExecutor.RepeatAnswersFirstResponse` | apps/daemon/src/runtime/project-mutation-executor.ts:67-81 | wherever later a request id returns, the answer is its first response, or a refusal under another payload, whatever it would build |
| `MutationExecutor.KnownRequestIsAnswered` | apps/daemon/src/runtime/project-mutation-executor.ts:121-190 | a request id with a receipt never reaches its builder; a CURRENT_EPOCH repeat still passes the guards first |
| `MutationExecutor.CommitRespectsFences` | apps/daemon/src/runtime/project-mutation-executor.ts:192-210 | run fences never fall and never pass the project fence; advancing lifts the run to the new project fence |
| `MutationExecutor.OldFencesNeverCommitAgain` | apps/daemon/src/runtime/project-mutation-executor.ts:139-145 | after an epoch step no request guarding an earlier fence of that run commits |
| `MutationExecutor.FencesRise` | apps/daemon/src/runtime/project-mutation-executor.ts:192-210 | along a history the fence of a run only rises and the run stays |
| `StateStore.RemoveStale` | packages/state-store/src/state-store.ts:263-290 | the row is removed exactly when it is foreign and expired, or of this host with its process gone, or expired with the pid given to another process; an expired one of this host that cannot be told is the only error |
| `StateStore.StateStore.Initialize` | packages/state-store/src/state-store.ts:394-421 | an existing state is returned unchanged; only a fresh database takes the initial one |
| `StateStore.StateStore.TryAcquire` | packages/state-store/src/state-store.ts:443-474 | one transaction acquires exactly when there is no row or a stale one |
| `StateStore.StateStore.AcquireMutationLease` | packages/state-store/src/state-store.ts:431-497 | whatever others commit between the polls, it acquires at the first poll that finds the lease free or stale, and otherwise gives up and leaves what the others left |
| `StateStore.StateStore.Renew` | packages/state-store/src/state-store.ts:566-587 | renews exactly when the row still carries the token, and otherwise leaves the row alone |
| `StateStore.StateStore.Release` | packages/state-store/src/state-store.ts:589-603 | deletes the row only when it carries the token |
| `StateStore.StateStore.WriteStateWithLease` | packages/state-store/src/state-store.ts:605-665 | writes exactly a valid state of the next version under the own token, renewing the row; every failure changes nothing |
| `StateStore.MutationLease.constructor` | packages/state-store/src/state-store.ts:304-328 | a fresh lease is usable |
| `StateStore.MutationLease.Renew` | packages/state-store/src/state-store.ts:365-375 | a failed renewal is remembered and leaves the row alone |
| `StateStore.MutationLease.AssertOwned` | packages/state-store/src/state-store.ts:330-334 | succeeds exactly for a usable lease whose row carries the token |
| `StateStore.MutationLease.WriteState` | packages/state-store/src/state-store.ts:336-344 | an answer means the state was written; a failed renewal during the write loses the answer, not the write |
| `StateStore.MutationLease.Release` | packages/state-store/src/state-store.ts:346-352 | releases once |
| `LeasedExecutor.ProjectMutationExecutor.Mutate` | apps/daemon/src/runtime/project-mutation-executor.ts:106-259 | whatever intervenes, between the polls too, nothing is written but the finalised build of the state that was read while its version was current, and the effect starts at most once and only for that commit; undisturbed, the answer and the state are those of one attempt and no lease is left |
| `LeasedExecutor.ProjectMutationExecutor.RunLeased` | apps/daemon/src/runtime/project-mutation-executor.ts:119-254 | the same between acquiring and releasing; a call that was overtaken writes nothing and answers what the other commit recorded for its request, and an effect starts only under a lease renewed after the commit |
| `MutationProtocol.CommitsFormOneChain` | apps/daemon/src/runtime/project-mutation-executor.ts:117-258 | in every interleaving commit i is the finalised build, by its executor, of the state committed immediately before it, which is the state it read |
| `MutationProtocol.WriteNeedsCurrentRead` | packages/state-store/src/state-store.ts:636-649 | a write goes through only on the state that was read and under the own token |
| `MutationProtocol.CommitsMetTheirGuards` | apps/daemon/src/runtime/project-mutation-executor.ts:127-185 | in every interleaving each commit met every guard of its request on the state committed immediately before it, the expected version included |
| `MutationProtocol.LostLeaseNeverCommits` | packages/state-store/src/state-store.ts:330-375 | an executor whose renewal has failed never commits again and starts no effect it was not confirmed for |
| `MutationProtocol.EffectWasConfirmed` | apps/daemon/src/runtime/project-mutation-executor.ts:227-254 | between the commit and its effect the lease was looked at and carried the executor's token |
| `MutationProtocol.OvertakenNeverCommits` | packages/state-store/src/state-store.ts:641-648 | a build whose read was overtaken never commits and never starts its effect, at any later time |
| `MutationProtocol.RequestCommitsOnce` | apps/daemon/src/runtime/project-mutation-executor.ts:67-81 | each request id commits at most once, whichever executors carry it |
| `MutationProtocol.EffectStartsOncePerRequest` | apps/daemon/src/runtime/project-mutation-executor.ts:242-254 | per request id at most one effect is started, and only after its own commit |
| `MutationProtocol.StepKeepsCommits` | apps/daemon/src/runtime/project-mutation-executor.ts:117-258 | every step of every executor keeps the commit invariant |
| `LeaseSafety.LiveOwnerIsNeverStale` | packages/state-store/src/state-store.ts:263-290 | with truthful start tokens no clock makes a live owner's row stale on its host |
| `LeaseSafety.WaiterAcquiresExactly` | packages/state-store/src/state-store.ts:263-290 | a waiting executor acquires exactly when there is no lease, a foreign one has expired, or the owner on its host is dead and its pid free, or dead, expired and its pid given again |
| `LeaseSafety.DeadOwnerIsReplaced` | packages/state-store/src/state-store.ts:263-290 | the lease of a process that is gone goes to whoever asks next on its host, expired or not |
| `LeaseSafety.ExpiredForeignLeaseIsReplaced` | packages/state-store/src/state-store.ts:263-290 | a foreign lease goes to whoever asks exactly once it has expired |
| `LeaseSafety.LockIsNeverLost` | packages/state-store/src/state-store.ts:431-497 | on one host, at any point of any run at which nobody live holds the lease, a waiting executor that looks after it has expired and is told the start of the process acquires it |
| `LeaseSafety.OthersKeepLiveRow` | packages/state-store/src/state-store.ts:263-290 | nobody but its owner changes the row of a live owner on its host |
| `LeaseSafety.RowChangesHands` | packages/state-store/src/state-store.ts:589-603 | across hosts too, a row passes to another token only by an acquisition and is given up only by its own |
| `LeaseSafety.AtMostOneHolder` | packages/state-store/src/state-store.ts:431-497 | on one host at most one live executor is between acquiring and releasing, and the row names it |
| `LeaseSafety.CommitsUnderOwnToken` | packages/state-store/src/state-store.ts:618-636 | across hosts too, every commit happens while the row carries the committer's token |
| `LeaseSafety.StepKeepsLease` | packages/state-store/src/state-store.ts:263-290 | every step keeps the exclusion invariant on one host |
| `PublishHandoff.ApplyStartsOncePerOperation` | apps/daemon/src/publish/publish-coordinator.ts:223-261 | for each operation apply is started at most once over the whole history, and only after a commit that records SUBMITTED |
| `PublishHandoff.SubmitCommitRecords` | apps/daemon/src/publish/publish-coordinator.ts:223-261 | the commit before the handoff leaves the run PUBLISHING with that operation SUBMITTED |
| `PublishHandoff.EffectsAreApplies` | apps/daemon/src/publish/publish-coordinator.ts:252-260 | every effect ever started is the apply of some operation |
| `ProjectModel.RefineAttempts` | packages/state-store/src/schema.ts:140-163 | the loop finds a repeated attempt id, and more than one active attempt, exactly when there is one |
| `ProjectModel.CheckGenerations` | apps/daemon/src/recovery/recovery-manager.ts:243-249 | the loop accepts exactly generations 0 to n-1 in order |
| `ProjectModel.BindingsAreTheNonterminalRuns` | packages/state-store/src/schema.ts:195-214 | in a valid project the task bindings are exactly the nonterminal runs |
| `ReviewRules.CoverageIsPermutation` | apps/daemon/src/review/review-coordinator.ts:82-94 | the size and membership tests hold exactly when the reviewed ids are the enabled ids rearranged |
| `ReviewRules.ValidResultExactly` | packages/protocol/src/schema/run-state.ts:135-170 | a valid result names each task and each complaint once, and a task is complete exactly when there is none |
| `ReviewRules.PlanPassesGate` | packages/review/src/review-gate.ts:41-48 | the planned decision is always one the gate allows, and accepts exactly when the gate accepted |
| `ReviewRules.GateAllowsExactly` | packages/review/src/review-gate.ts:15-48 | a gate always allows a pause, acceptance exactly of a complete review, and repair exactly otherwise |
| `ReviewRules.GateIsEvaluated` | packages/review/src/review-gate.ts:15-39 | a review is evaluated exactly when it is not the worker's own, is held in the bound session and fits its issues |
| `ReviewRules.BoundReviewer` | apps/daemon/src/review/review-coordinator.ts:126-133 | defined exactly when all rounds were held in one session, which it returns |
| `RunTransitions.ProceedMeansGuarded` | apps/daemon/src/runtime/project-mutation-executor.ts:139-185 | a request that reaches its builder has found the run, its binding, phase and attempt as guarded |
| `RunTransitions.BuildersKeepFences` | apps/daemon/src/runtime/project-runtime.ts:585-611 | no builder drops a run or changes its fence; a new run gets the fence it was given |
| `StepMeaning.CaptureLeads` | apps/daemon/src/worker/worker-runner.ts:1133-1212 | a captured candidate leads to FIXING iff it has no operations and must have some, otherwise to REVIEW_PENDING iff reviews are on, otherwise to READY_TO_PUBLISH; the pending action carries its hash, this attempt's session and the bound reviewer, or asks for a new one |
| `StepMeaning.CapturedFrom` | apps/daemon/src/worker/worker-runner.ts:1133-1165 | it is captured exactly from the completed last attempt, and for a review from another session than the reviewer's |
| `StepMeaning.EndedAttempt` | apps/daemon/src/worker/worker-runner.ts:787-942 | a completion keeps the run RUNNING with its one stored session, any other end pauses it under its code; a completion is refused exactly in another session or state |
| `StepMeaning.StartedAttempt` | apps/daemon/src/worker/worker-runner.ts:787-845 | a started attempt runs in the session it names, and no other attempt changes |
| `StepMeaning.ReviewBegins` | apps/daemon/src/review/review-coordinator.ts:171-208 | a review is begun exactly for a pending action that still fits the worker, the reviewer and the rounds so far |
| `StepMeaning.ReviewIsTaken` | apps/daemon/src/review/review-coordinator.ts:210-300 | a review is recorded exactly when it answers the awaited turn before its deadline, from the right session, validly, for the enabled tasks |
| `StepMeaning.ReviewIsRecorded` | apps/daemon/src/review/review-coordinator.ts:273-355 | what is recorded: one more round, held by this reviewer on the candidate of the action, with the decision that fits the phase |
| `StepMeaning.DecisionIsResumed` | apps/daemon/src/review/review-coordinator.ts:357-453 | a decision held back at the limit is resumed exactly when offered there, with the rounds counted anew |
| `StepMeaning.DriftKeepsAction` | apps/daemon/src/runtime/runtime-composition.ts:380-428 | a drift pause keeps a pending review's action under a new id and marks where to go back to |
| `StepMeaning.HostIsLost` | apps/daemon/src/review/review-coordinator.ts:507-570 | a lost host pauses exactly the review it was to hold and keeps its action under a new id |
| `StepMeaning.WorkerIsRecovered` | apps/daemon/src/recovery/recovery-manager.ts:455-492 | an interrupted worker is prepared again with its active attempt failed, exactly unless its attempt had timed out |
| `StepMeaning.RunIsCancelled` | apps/daemon/src/cancel/cancel-manager.ts:93-170 | a run is cancelled exactly when its publish record is missing or settled, ending the active attempt |
| `StepMeaning.ResumeRemembers` | apps/daemon/src/runtime/project-runtime.ts:666-741 | a resume takes exactly an offered action that has a route, clears the pause, and remembers a manual confirmation by its request and pause |
| `StepMeaning.OutcomeSettles` | apps/daemon/src/publish/publish-coordinator.ts:458-497 | an outcome completes the run or pauses it, and which retries it then offers |
| `StepMeaning.ManualPublishIsConfirmed` | apps/daemon/src/publish/publish-coordinator.ts:565-692 | a publish by hand is confirmed exactly for the request that asked, with the evidence unchanged and nothing on record |
| `StepMeaning.EvidenceIsTheRuns` | apps/daemon/src/publish/publish-coordinator.ts:716-767 | the evidence holds exactly when it is what the run holds, accepted by reviewer and leader for this candidate |
| `StepMeaning.LeaseIsReturnedExactly` | apps/daemon/src/publish/publish-coordinator.ts:289-319 | a step returns the publish lease exactly when it settles, completes by hand or recovers the publish it was taken for, and never passes it on |
| `StepMeaning.RepairStartsOver` | apps/daemon/src/repair/repair-coordinator.ts:217-294 | a repair that goes on starts over from its attempt and session with nothing judged, pending, published or open; one that does not keeps everything but the round and its count |
| `StepMeaning.StepsHaveTheirPhase` | apps/daemon/src/worker/worker-runner.ts:1137-1147 | the phases the steps of a worker, a review and a publish are committed in, and the attempt they are pinned to |
| `StepMeaning.StepsThatClose` | apps/daemon/src/runtime/project-runtime.ts:800-840 | a prepared workspace and a requested cancellation leave nothing to resume, a cancellation also nobody to wait for |
| `StepMeaning.StepsThatRest` | apps/daemon/src/recovery/recovery-manager.ts:553-575 | how a run is paused that cannot go on: what it offers and what it blames |
| `StepMeaning.FailedStageRests` | apps/daemon/src/runtime/project-runtime.ts:1011-1091 | a failed task offers its own retry and is blamed by its stage; a failed review waits for no host any more |
| `StepMeaning.PublishIsRecovered` | apps/daemon/src/recovery/recovery-manager.ts:494-542 | a recovered publish records exactly a valid result of its own operation and batch with the status it claims |
| `StepMeaning.AttemptKeepsIdentity` | apps/daemon/src/publish/publish-coordinator.ts:223-319 | an attempt is only taken up again, submitted or completed as the same operation, batch and adapter |
| `StepMeaning.StepChangesOnly` | apps/daemon/src/runtime/project-runtime.ts:245-316 | which steps touch the candidate, the review, the attempts, the publish record and the counters; every other leaves them as they are, and no review is taken back |
| `LifecycleInvariant.WorkerKeepsAttempts` | apps/daemon/src/worker/worker-runner.ts:749-942 | given what DaemonTasks derives, worker builders keep unique ids, generations 0 to n-1 and at most one active attempt, the last |
| `LifecycleInvariant.FinishKeepsReviews` | apps/daemon/src/review/review-coordinator.ts:210-355 | a finished review keeps one reviewer session, distinct attempt ids, full coverage and the round limit |
| `LifecycleInvariant.ResumeKeepsReviews` | apps/daemon/src/review/review-coordinator.ts:357-453 | so does resuming a stored decision |
| `LifecycleInvariant.RecoveryKeepsAttempts` | apps/daemon/src/recovery/recovery-manager.ts:455-492 | recovery ends the active attempt before the run is prepared again |
| `LifecycleInvariant.ControlKeepsAttempts` | apps/daemon/src/cancel/cancel-manager.ts:55-63 | resuming, cancelling and failing keep the attempts, given what DaemonTasks derives; a completed cancellation leaves none active |
| `LifecycleInvariant.PublishKeepsAttempt` | packages/state-store/src/schema.ts:140-228 | publish builders keep the publish record valid, and a completed run has a committed one |
| `LifecycleInvariant.StepKeepsRunInv` | packages/state-store/src/schema.ts:140-228 | every builder, given what DaemonTasks derives, keeps the run invariant, and ends the run exactly when it drops the binding |
| `LifecycleInvariant.StepsFollowGraph` | apps/daemon/src/runtime/project-runtime.ts:245-316 | every builder moves a run along the stated phase graph; nothing leads to FAILED |
| `ProjectLifecycle.SchemaIsBindingsAndRuns` | packages/state-store/src/schema.ts:185-228 | the project refinement is the binding rules plus a valid record per run |
| `ProjectLifecycle.ReplacementIsBound` | apps/daemon/src/cancel/cancel-manager.ts:34-53 | replacing a live run keeps the bindings exactly unless it ended while the lease names it |
| `ProjectLifecycle.MoveCommitsUnlessLeased` | packages/state-store/src/schema.ts:215-227 | a move that finds what DaemonTasks derives commits and keeps the whole invariant, except exactly when it ends the run under its own lease |
| `ProjectLifecycle.ExecuteCommits` | apps/daemon/src/runtime/project-runtime.ts:544-619 | starting a run on a free task commits and keeps the invariant |
| `ProjectLifecycle.LeaseStepCommits` | apps/daemon/src/publish/publish-coordinator.ts:144-202 | taking and returning the publish lease commit and keep the invariant |
| `ProjectLifecycle.DisciplinedTransitionsKeepInvariant` | packages/state-store/src/schema.ts:140-228 | every transition that finds what DaemonTasks derives and its builder accepts commits, and the committed project satisfies the invariant |
| `DaemonTasks.SupervisedStepIsDisciplined` | apps/daemon/src/worker/worker-runner.ts:325-345 | what a committed builder relies on beyond its guards was so: a new attempt has the next number and finds none active, a drift or a failed review or publish finds no worker running, a publish step fits the record and the lease |
| `DaemonTasks.SupervisedStepKeepsInvariant` | apps/daemon/src/runtime/runtime-composition.ts:380-388 | so every commit of the daemon's tasks keeps the whole invariant |
| `DaemonTasks.CommitKeepsTasks` | apps/daemon/src/worker/worker-runner.ts:749-785 | whatever commits, a worker task before its attempt still finds none active and its number the next, one at work finds its attempt last, and review and publish tasks find the attempt they were scheduled under ended |
| `DaemonTasks.CommitKeepsWorkedFirst` | apps/daemon/src/runtime/project-runtime.ts:941-960 | whatever commits, a run waits for a review or a publish only after an attempt |
| `LifecycleResults.HistoriesKeepInvariant` | packages/state-store/src/schema.ts:140-228 | every state of every history of the daemon's tasks, however they commit, end, crash and are scheduled again, satisfies the invariant |
| `LifecycleResults.CommittedStepsAreDisciplined` | apps/daemon/src/worker/worker-runner.ts:325-345 | in every history each committed builder found what it relies on |
| `LifecycleResults.AttemptsAreBegunInOrder` | apps/daemon/src/worker/worker-runner.ts:749-785 | in every history a new attempt has a new id, the number of attempts before it as its generation, and finds none active |
| `LifecycleResults.PausedTasksFoundIdleWorker` | apps/daemon/src/runtime/project-runtime.ts:1011-1060 | in every history no worker runs when a drift, a failed review or a failed publish pauses its run |
| `LifecycleResults.EpochShutsOutOlderFences` | apps/daemon/src/runtime/project-runtime.ts:458-475 | after a run's epoch step no request guarding any earlier fence of it commits |
| `LifecycleResults.EndedRunsStay` | apps/daemon/src/runtime/project-mutation-executor.ts:149-158 | a run that has ended is never changed again |
| `LifecycleResults.CompletedRunsPublished` | apps/daemon/src/runtime/project-runtime.ts:225-230 | in every history a completed run has a committed publish with a committed result, and none is FAILED |
| `LifecycleResults.AcceptingReviewIsFull` | packages/review/src/review-gate.ts:15-39 | a review allows acceptance exactly when all tasks are complete, and then the ids are a permutation, all at 100, without issues |
| `LifecycleResults.ReviewDecidesPhase` | apps/daemon/src/review/review-coordinator.ts:273-340 | READY_TO_PUBLISH exactly for a full review, FIXING exactly for an incomplete one below the limit, PAUSED at the limit; the session is that of all earlier rounds and the attempt id is new |
| `LifecycleResults.SubmittedWasFullyReviewed` | apps/daemon/src/publish/publish-coordinator.ts:716-767 | nothing is submitted without a full, leader-accepted review of this very candidate |
| `AutomaticReviews.ReadyRunsAreReviewed` | apps/daemon/src/worker/worker-runner.ts:1133-1212 | with reviews on, a run from PREPARING reaches READY_TO_PUBLISH only by a review just finished: of the candidate it holds, of every enabled task, each complete, accepted by the leader |
| `LifecycleResults.CancelCompletesExactly` | apps/daemon/src/cancel/cancel-manager.ts:141-170 | a cancellation completes exactly when the publish lease does not name the job |
| `ProtocolLifecycle.EveryCommittedStateIsInv` | apps/daemon/src/runtime/project-mutation-executor.ts:117-258 | the invariant holds of every state ever committed in any interleaving of executors whose commits are those of the daemon's tasks |
| `WorkerEvents.ConsumeEvents` | apps/daemon/src/worker/worker-runner.ts:347-412 | the event loop computes the fold up to the first terminal event, then closes |
| `WorkerEvents.LoopEndsAttempt` | apps/daemon/src/worker/worker-runner.ts:379-412 | a finished loop leaves the attempt with the status of its terminal event and the run RUNNING exactly for COMPLETED |
| `WorkerEvents.EventsAreTaken` | apps/daemon/src/worker/worker-runner.ts:347-412 | an event is refused exactly when it is another attempt's, and cannot be recorded exactly when it completes in another session |
| `WorkerEvents.RefusedExactly` | apps/daemon/src/worker/worker-runner.ts:787-800 | whatever the run, an event is refused exactly when it is not of its last attempt or would change a run that no longer runs |
| `WorkerEvents.FirstEndDecides` | apps/daemon/src/worker/worker-runner.ts:347-412 | the first end of the attempt decides, whatever follows; a stream that closes without one is a failure |
| `WorkerEvents.ThrowAfterCompletedFailsAttempt` | apps/daemon/src/worker/worker-runner.ts:391-401 | COMPLETED followed by an exception records FAILED and pauses the run |
| `ReviewRetry.RunRound` | apps/daemon/src/review/review-runner.ts:160-302 | the retry loop computes the round: how it ends and which session each call used |
| `ReviewRetry.RoundKeepsSession` | apps/daemon/src/review/review-runner.ts:236-282 | once known, a session is used by every later call and is the one the round finalizes in, with a result some attempt returned |
| `ReviewRetry.RoundEndsExactly` | apps/daemon/src/review/review-runner.ts:172-302 | a round ends with the first attempt that ends it: gone, out of time, or a valid result in its session; every call before resumes the session known by then |
| `ReviewRetry.PausedRoundIsExhausted` | apps/daemon/src/review/review-runner.ts:172-180 | a round pauses only after all attempts were used or the deadline passed |
| `PublishProtocol.AtMostOneApplyInFlight` | apps/daemon/src/publish/publish-coordinator.ts:223-261 | at most one apply is in flight per project, and the durable lease names its job and operation, with one publish task per job |
| `PublishProtocol.StepKeepsTasks` | apps/daemon/src/publish/publish-coordinator.ts:144-319 | whatever commits, a task past acquisition holds the lease |
| `PublishProtocol.StagesFollowCommits` | apps/daemon/src/publish/publish-coordinator.ts:204-287 | a task gets ready to apply, applies or recovers only after a new commit of its own, never on the answer to a repeat |
| `PublishProtocol.AcquisitionsAreNeverReplays` | apps/daemon/src/publish/publish-coordinator.ts:150-176 | an acquisition is never answered from a receipt |
| `PublishProtocol.LeaseAfterCommit` | apps/daemon/src/publish/publish-coordinator.ts:158-200 | what each committed transition does to the publish lease and answers |
| `PublishProtocol.CommitsExactlyWhenFresh` | apps/daemon/src/runtime/project-mutation-executor.ts:121-127 | a disciplined transition whose guards hold commits exactly when its request id is new |
| `PublishProtocol.OutcomeSettlesExactlyWhenFresh` | apps/daemon/src/publish/publish-coordinator.ts:458-497 | a publish outcome settles the run exactly when no outcome of that status was recorded for the job |
| `PublishProtocol.SecondConflictLeavesRunReady` | apps/daemon/src/publish/publish-coordinator.ts:461-462 | a second identical precheck conflict is answered from the receipt |
| `PublishRecords.LeaseFitsThroughout` | apps/daemon/src/publish/publish-coordinator.ts:144-221 | in every history of publishes a lease that names a run in PUBLISHING is the one of the attempt on record |
| `ResumeRoutes.OffersAreExact` | apps/daemon/src/runtime/project-runtime.ts:245-316 | for every pause a builder makes and every action it offers: the action is accepted exactly under the stated condition, and leads to the stated phase |
| `ResumeRoutes.LimitOffers` | apps/daemon/src/review/review-coordinator.ts:357-453 | resuming the decision at the round limit leads to repair again, with one round spent |
| `ResumeRoutes.StepsKeepDriftMark` | apps/daemon/src/review/review-coordinator.ts:455-505 | the mark of a drift found in review is only on a run at rest from it, whatever commits |
| `UnsettledPublish.StepKeepsTrapped` | apps/daemon/src/cancel/cancel-manager.ts:93-139 | no builder but the completion of a cancellation frees a trapped run, changes its publish record or ends it |
| `UnsettledPublish.StuckExactly` | apps/daemon/src/runtime/project-runtime.ts:666-741 | no commits of its own ever lead a resting run out of PAUSED and CANCELING exactly when its record is unsettled, or the publish lease names it, and no offered action is accepted and leads on |
| `UnsettledPublish.CancellationCompletesExactly` | apps/daemon/src/cancel/cancel-manager.ts:93-170 | a cancellation completes exactly when the publish record is settled, or missing, and the publish lease does not name the job |
| `UnsettledPublish.LeasedRunIsNotCanceled` | packages/state-store/src/schema.ts:215-227 | no completion of a cancellation commits while the lease names the job |
| `UnsettledPublish.CommitKeepsStuck` | apps/daemon/src/cancel/cancel-manager.ts:93-170 | whatever commits in the project, a stuck run stays stuck with its record, and with the lease if it has it |
| `UnsettledPublish.StoppedPublishIsTrapped` | apps/daemon/src/publish/publish-coordinator.ts:694-714 | a blocked publish, a blocked recovery and a cancellation trap a run exactly when its record is unsettled or it still has the lease |
| `UnsettledPublish.TrapHoldsTheLease` | apps/daemon/src/publish/publish-coordinator.ts:144-202 | in every continuation, restarts included, a stuck run stays stuck with the same record and task, and with the lease if it has it |
| `UnsettledPublish.TrapStopsThePublishes` | apps/daemon/src/publish/publish-coordinator.ts:144-176 | while a stuck run has the lease no other job of the project gets past asking for it, and the answer is no |
| `UnsettledPublish.CrashAfterAcquiringTraps` | apps/daemon/src/publish/publish-coordinator.ts:144-178 | from any project with a run ready to publish and a free lease: acquiring, a crash and a cancellation leave the run stuck with the lease, whatever its record |
| `PublishStore.StateStorePublishAttemptStore.constructor` | apps/daemon/src/publish/publish-coordinator.ts:122-133 | the store pins the identity and the evidence of the run it was made for |
| `PublishStore.StaleStoreNeverCommits` | apps/daemon/src/publish/publish-coordinator.ts:122-142 | a store made for another epoch or attempt of the run commits nothing |
| `PublishStore.StateStorePublishAttemptStore.MutateRun` | apps/daemon/src/publish/publish-coordinator.ts:204-318 | a publish mutation commits exactly when the phase fits, the builder accepts and the request is new, and then changes only this run and the lease |
| `PublishStore.StateStorePublishAttemptStore.AcquireLease` | apps/daemon/src/publish/publish-coordinator.ts:144-178 | takes a free or own lease, finds a foreign one busy, and is refused outside of publishing |
| `PublishStore.StateStorePublishAttemptStore.ReleaseLease` | apps/daemon/src/publish/publish-coordinator.ts:180-202 | returns exactly the own lease |
| `PublishStore.StateStorePublishAttemptStore.Get` | apps/daemon/src/publish/publish-coordinator.ts:134-142 | finds exactly the attempt of this operation |
| `PublishStore.StateStorePublishAttemptStore.Prepare` | apps/daemon/src/publish/publish-coordinator.ts:204-221 | prepares exactly once, from READY_TO_PUBLISH |
| `PublishStore.StateStorePublishAttemptStore.MarkSubmitted` | apps/daemon/src/publish/publish-coordinator.ts:228-251 | SUBMITTED commits exactly for a prepared attempt of this batch whose evidence still holds, once |
| `PublishStore.StateStorePublishAttemptStore.BeginRecovery` | apps/daemon/src/publish/publish-coordinator.ts:263-287 | moves the run to PUBLISHING once per attempt status |
| `PublishStore.StateStorePublishAttemptStore.Complete` | apps/daemon/src/publish/publish-coordinator.ts:289-318 | records a result once per status and frees the lease for COMMITTED and CONFLICT |
| `PublishStore.MutationOfRun` | apps/daemon/src/runtime/project-mutation-executor.ts:117-225 | what one such mutation commits, and that the identity stays current |
| `PublishObservation.ProducedResultReadsInAnyOrder` | packages/publish/src/publish-service.ts:53-74 | the verdict on a produced result, and its recovery reading, do not depend on the order of the operations |
| `PublishObservation.ProducedResultIsConsistent` | packages/publish/src/workspace-apply-adapter.ts:199-247 | a produced result names each path once, and its status fits the paths |
| `PublishOutcome.ReconcileSound` | packages/publish/src/publish-service.ts:53-74 | for recorded results the verdict is their status |
| `PublishOutcome.SupportNeedsEveryAbility` | packages/publish/src/publish-service.ts:91-104 | an adapter that lacks any one ability, or a name, is not used |
| `PublishOutcome.DurableAdapterIsSupported` | packages/publish/src/workspace-apply-adapter.ts:97-110 | the filesystem adapter never claims atomic batches, and has every other ability exactly with a durable result directory |
| `PublishOutcome.SubmittedThenRecorded` | packages/publish/src/publish-service.ts:210-227 | submission and completion together leave the settled attempt and the lease it says |
| `PublishOutcome.PreparedEndsApplied` | packages/publish/src/publish-service.ts:136-156 | a prepared attempt that may apply ends with the batch outcome on disk and on record |
| `PublishService.ObserveRecovery` | packages/publish/src/publish-service.ts:159-187 | answers the recorded result of an attempt of this batch and adapter, and otherwise that it is blocked |
| `PublishService.OperationIdsTellPublishesApart` | packages/publish/src/preflight.ts:66-87 | two publishes have the same operation id exactly when project, job, candidate, review and batch are the same |
| `PublishService.PublishService.Finish` | packages/publish/src/publish-service.ts:210-227 | the result is recorded with the status it says and answered as it reads |
| `PublishService.PublishService.Recover` | packages/publish/src/publish-service.ts:189-208 | what the adapter recorded is recorded; without a record nothing changes; nothing is applied |
| `PublishService.PublishService.MarkSubmittedAndApply` | apps/daemon/src/publish/publish-coordinator.ts:223-261 | the adapter is started exactly when this call committed SUBMITTED, and applies a batch it has no result for |
| `PublishService.PublishService.ContinueRecorded` | packages/publish/src/publish-service.ts:123-135 | a foreign attempt is blocked, a committed one answered as its result reads, a submitted one never applied again, an interrupted prepared one applied, and an unread result read |
| `PublishService.PublishService.PublishUnderLease` | packages/publish/src/publish-service.ts:107-157 | busy, a throw of the check with the lease still taken, a precheck conflict with the lease returned, or the batch outcome on disk and on record; files change only together with a new submission |
| `PublishService.PublishService.Publish` | packages/publish/src/publish-service.ts:79-157 | the same after the adapter was found fit; without one nothing changes and the publish is left to the user |
| `PublishRun.SettleCommits` | apps/daemon/src/publish/publish-coordinator.ts:458-497 | an outcome that is new and fits the phase commits and changes only this run |
| `PublishRun.AnswersSettle` | apps/daemon/src/publish/publish-coordinator.ts:694-714 | what becomes of a run by the answer of its publish: completed exactly for a published batch, else paused under the code of the answer |
| `PublishRun.OutcomesHaveTheirOwnRequest` | apps/daemon/src/publish/publish-coordinator.ts:458-462 | each outcome of a job has a request of its own |
| `PublishRun.FreshRunEnds` | apps/daemon/src/publish/publish-coordinator.ts:352-503 | a first publish ends COMPLETED, paused and cancellable, trapped with the lease, or, exactly when the check throws, where it was with the lease taken, as the files and the batch outcome say |
| `PublishRun.PublishCoordinator.Publish` | apps/daemon/src/publish/publish-coordinator.ts:352-503 | publishing and settling lead a fresh run there |
| `PublishResults.ApprovedCandidateIsPublished` | apps/daemon/src/publish/publish-coordinator.ts:352-503 | a candidate of two verified snapshots, published undisturbed into a tree that holds the first one on the touched paths with nothing in their way, completes the run, frees the lease, and leaves the result snapshot there with its directories and nothing else changed |
| `PublishResults.BrokenCommitTrapsRun` | packages/publish/src/workspace-apply-adapter.ts:174-192 | a commit loop that fails before its end leaves the first k files new and the run stuck with the lease |
| `PublishResults.RepeatedPublishConflicts` | packages/publish/src/publish-service.ts:107-122 | on files its batch was already applied to, a publish reports a precheck conflict and returns the lease, whatever is on record |
| `PublishResults.ThrowingPublishKeepsLease` | packages/publish/src/publish-service.ts:105-107 | a publish whose check throws changes no file and no run and leaves the lease taken |
| `PublishResults.FailedPublishRests` | apps/daemon/src/runtime/project-runtime.ts:1011-1091 | the failed task then pauses the run with the lease; a retry leads on, and a cancellation instead leaves it stuck with the lease |
| `PublishRecovery.ReconcilePublish` | apps/daemon/src/publish/publish-coordinator.ts:505-563 | reads the adapter exactly for an attempt the run still stands for |
| `PublishRecovery.RecoveryCommits` | apps/daemon/src/recovery/recovery-manager.ts:577-613 | the recovery mutation commits and keeps the invariant, except exactly when it would end the run under a lease for another operation |
| `PublishRecovery.RecoveryNeedsItsState` | apps/daemon/src/recovery/recovery-manager.ts:577-613 | a recovery is committed on the very state it was worked out on, or not at all |
| `PublishRecovery.RecoveryManager.RecoverRun` | apps/daemon/src/recovery/recovery-manager.ts:494-542 | a run in PUBLISHING settles exactly when a COMMITTED or CONFLICT result is recorded for it, but for a COMMITTED while the lease is for another operation of the job, which changes nothing; every other recovery traps an unsettled one |
| `RepairLoop.AssessRepairScope` | packages/review/src/repair-loop.ts:68-87 | the nested loops collect the reasons in order, and the repair is in scope exactly when there are none |
| `RepairLoop.NoReasonsMeansInScope` | packages/review/src/repair-loop.ts:68-87 | no reasons exactly when each reviewed task is in the manifest and each issue on one of its files |
| `RepairLoop.ReasonsExactly` | packages/review/src/repair-loop.ts:68-87 | a reason is given exactly when a reviewed task is unknown, or has an issue on a file the last manifest task of its id does not name |
| `RepairLoop.ReasonsComeInOrder` | packages/review/src/repair-loop.ts:68-87 | the reasons of two lists of tasks are those of the first, then those of the second |
| `RepairLoop.ProgressExactly` | packages/review/src/repair-loop.ts:106-141 | the count starts again exactly when nothing is left, the problems are strictly fewer, or a file an issue of either round names has another hash or one in only one round; otherwise it goes up by one |
| `RepairLoop.NoProgressPausesExactly` | apps/daemon/src/repair/repair-coordinator.ts:170-189 | a repair in scope pauses for no progress exactly when none of the three has happened since the round on record and the stored count had reached 14 |
| `RepairLoop.ContinuesExactly` | apps/daemon/src/repair/repair-coordinator.ts:191-215 | and goes on exactly otherwise, when the worker left a session to go on in |
| `RepairLoop.RoundExactly` | apps/daemon/src/repair/repair-coordinator.ts:85-144 | what a repair works on: the tasks of a review decided for repair, or one issue on the first file of the first task |
| `RepairLoop.HashesAreTheLast` | apps/daemon/src/repair/repair-coordinator.ts:39-44 | the last operation on a path says its hash |
| `RepairLoop.SecondEmptyRoundMakesNoProgress` | packages/review/src/repair-loop.ts:124-141 | a second empty candidate in a row always counts as no progress |
| `RepairLoop.RunsStayInLoop` | apps/daemon/src/worker/worker-runner.ts:1133-1212 | between PREPARING and FIXING the counters change only by one review round |
| `RepairLoop.RepairRoundFalls` | apps/daemon/src/repair/repair-coordinator.ts:191-294 | every automatic round from PREPARING through FIXING to PREPARING lowers (rounds left, stale review, not an empty round, progress left) lexicographically |
| `RepairLoop.RepairLoopEnds` | apps/daemon/src/repair/repair-coordinator.ts:191-294 | without user input the loop goes round fewer than 1024 times |
| `RepairLoop.LeftoverReviewKeepsTheRest` | apps/daemon/src/repair/repair-coordinator.ts:191-294 | after a drift restored in FIXING there is an automatic round, taken from the review left over, on which rounds left, not an empty round and progress left do not fall |
| `RepairRounds.EmptyRoundsFitThroughout` | apps/daemon/src/repair/repair-coordinator.ts:108-141 | in every history, with rounds made of any state the coordinator read before, a stored round of an empty candidate names the first file of the first task and no path hash |
| `RepairRounds.LoopsOfHistoriesEnd` | apps/daemon/src/repair/repair-coordinator.ts:191-294 | so the repair loop ends within that bound from every run a history reaches |
| `RepairLoop.ContinueKeepsBooks` | apps/daemon/src/repair/repair-coordinator.ts:246-291 | a continuation clears the review, stores the round and its count, and spends no review round |
| `LineFraming.CodexStream.constructor` | packages/review/src/agents/codex/cli/adapter.ts:211-214 | a stream starts empty, with the expected session if there is one |
| `LineFraming.CodexStream.ConsumeStdout` | packages/review/src/agents/codex/cli/adapter.ts:264-273 | after any chunk the state is the fold of all complete lines and the remainder is the last, unfinished one |
| `LineFraming.CodexStream.Close` | packages/review/src/agents/codex/cli/adapter.ts:288-294 | closing folds the rest: the state is that of the newline split of everything received |
| `LineFraming.ReadStream` | packages/review/src/agents/codex/cli/adapter.ts:264-294 | the final state depends on the concatenated text only, not on the chunks, and says what its events say |
| `LineFraming.StreamSays` | packages/review/src/agents/codex/cli/events.ts:38-119 | the final state in terms of the events: completed iff some event says so, the message the last with a text, the session the expected one or the first started, the failure the first there is, with its code and message |
| `LineFraming.DrainSplits` | packages/review/src/agents/codex/cli/adapter.ts:266-272 | draining complete lines is splitting at newlines |
| `LineFraming.LaterLinesKeepFirst` | packages/review/src/agents/codex/cli/events.ts:38-119 | the first failure stays and a session id once set never changes |
| `LineFraming.PrefixSettlesFailureAndSession` | packages/review/src/agents/codex/cli/events.ts:38-119 | what the lines of a prefix settle, the whole stream settles; an expected session is kept |
| `WorkspaceWalk.Visit` | packages/workspace/src/git-snapshot.ts:118-129 | the recursive visit appends the walk of the directory to what was found |
| `WorkspaceWalk.AllWorkspacePaths` | packages/workspace/src/git-snapshot.ts:116-132 | the listing is the walk from the root |
| `WorkspaceWalk.WalkListsExactly` | packages/workspace/src/git-snapshot.ts:116-132 | the walk lists exactly the files that are reached without stepping on anything that is skipped |
| `WorkspaceWalk.WalkSortedExactly` | packages/workspace/src/git-snapshot.ts:116-152 | the walk is strictly sorted by full path exactly when no contributing directory has a contributing sibling named like it plus a character below the slash |
| `WorkspaceWalk.SlashSortsAfterDot` | packages/workspace/src/git-snapshot.ts:119-127 | foo/x.ts beside foo.ts comes out in an order that is not sorted |
| `WorkspaceWalk.PairSortsWrongly` | packages/workspace/src/git-snapshot.ts:119-127 | so does every such pair of names |
| `Snapshot.SnapshotOrderIsStrict` | packages/workspace/src/git-snapshot.ts:146-152 | the order and uniqueness test of a snapshot is strict sortedness |
| `WorkspaceWalk.EffectivePathsAreSorted` | packages/workspace/src/git-snapshot.ts:106-114 | the listing of a repository always has that order |
| `WorkspaceWalk.EffectivePathsExactly` | packages/workspace/src/git-snapshot.ts:106-114 | and has exactly the listed paths that are kept |
| `TasksParser.ReadTags` | packages/task-manifest/src/tasks-parser.ts:52-59 | the loop splits the leading tags off the text |
| `TasksParser.ExtractTargetPaths` | packages/task-manifest/src/tasks-parser.ts:22-29 | the loop keeps, once and in order, the quoted texts that are target paths |
| `TasksParser.ParseTasksDocument` | packages/task-manifest/src/tasks-parser.ts:120-161 | the loop computes the tasks or the first error of the document |
| `TasksParser.HasDuplicateId` | packages/task-manifest/src/tasks-parser.ts:110-118 | finds a repeated id exactly when there is one |
| `TasksParser.ReadsPrefix` | packages/task-manifest/src/tasks-parser.ts:132-158 | the first error decides, whatever follows it |
| `TaskGrammar.HeadingExactly` | packages/task-manifest/src/tasks-parser.ts:132-153 | the heading a line is, by its first word: a module, the repair section, the convergence phase, or another |
| `TaskGrammar.OtherLinesAreNoHeading` | packages/task-manifest/src/tasks-parser.ts:150-153 | and a line not of that form is no heading |
| `TaskGrammar.ModuleNameExactly` | packages/task-manifest/src/tasks-parser.ts:60 | a module is named by M and two digits |
| `TaskGrammar.ConvergenceExactly` | packages/task-manifest/src/tasks-parser.ts:146-149 | the convergence phase is written exactly as Phase, a number, a colon and Convergence, in any case |
| `TaskGrammar.CheckboxExactly` | packages/task-manifest/src/tasks-parser.ts:36-43 | a line has a box exactly when it is of the stated form; what follows is trimmed |
| `TaskGrammar.TaskIdExactly` | packages/task-manifest/src/tasks-parser.ts:44-50 | the id is T and at least three digits before white space and a text |
| `TaskGrammar.TagsExactly` | packages/task-manifest/src/tasks-parser.ts:51-59 | the tags are read off one by one, and what is left begins with none |
| `TaskGrammar.ModuleExactly` | packages/task-manifest/src/tasks-parser.ts:60-88 | the module of a task is its own tag or the heading's, with at most one tag and under a module no other |
| `TaskGrammar.AcceptanceExactly` | packages/task-manifest/src/tasks-parser.ts:89 | a text is cut at its first separator, with the white space on both sides, and on from there |
| `TaskGrammar.TaskTextExactly` | packages/task-manifest/src/tasks-parser.ts:89-108 | a task needs exactly one separator, a description and a criterion |
| `TaskGrammar.QuotedPiece` | packages/task-manifest/src/tasks-parser.ts:22-29 | quoted texts are found one by one; two backticks side by side quote nothing |
| `TaskGrammar.LinesExactly` | packages/task-manifest/src/tasks-parser.ts:131 | a document is cut at line feeds, with the carriage return before them |
| `TaskGrammar.ReturnIsDropped` | packages/task-manifest/src/tasks-parser.ts:131 | one carriage return at the end of a line is dropped, and nothing else |
| `RepairTasks.SafeInlineIsPlain` | packages/review/src/repair-loop.ts:44-50 | inline text has no backtick, semicolon or white space other than inner spaces |
| `RepairTasks.InlineIsWords` | packages/review/src/repair-loop.ts:44-50 | inline text is exactly the words of the text, semicolons made commas, one space between two |
| `RepairTasks.CriterionSays` | packages/review/src/repair-loop.ts:61-65 | a rendered criterion is the message, the suggestion if there is one, and the task it was found in |
| `RepairTasks.ModuleOfRepair` | packages/review/src/repair-loop.ts:58-60 | a repair belongs to the module of the first manifest task with its id, or to the first module for an unknown one |
| `RepairTasks.IssuesComeInOrder` | packages/review/src/repair-loop.ts:94-96 | issues are rendered task by task, in order |
| `RepairTasks.IssuesOfOne` | packages/review/src/repair-loop.ts:94-96 | the issues of one task are all of them, in order, each with the id of the task |
| `RepairTasks.LineRoundTrip` | packages/review/src/repair-loop.ts:52-66 | a rendered line reads back as one open task with its number, module, exactly its path and its guidance |
| `RepairTasks.RenderedTasksRoundTrip` | packages/review/src/repair-loop.ts:89-100 | the document of the repair heading and the rendered lines parses into, in order, one open task per issue, with distinct ids |
| `RepairTasks.DoneLineRoundTrip` | packages/task-manifest/src/tasks-parser.ts:37-50 | the same line with a ticked box reads back as the completed task |
| `RepairTasks.TaskNumberReadsBack` | packages/review/src/repair-loop.ts:65 | a padded task number reads back as the number |
| `RepairTasks.TextSplits` | packages/task-manifest/src/tasks-parser.ts:89-95 | the rendered text splits at its one separator into description and criterion |
| `RepairDraft.AddedIdsAreNewAmongOpen` | apps/daemon/src/repair/repair-coordinator.ts:32-37 | added ids are new among the manifest's, that is the open, tasks |
| `RepairDraft.LargestIsReached` | apps/daemon/src/repair/repair-coordinator.ts:32-37 | the largest number is that of some task, or 0 |
| `RepairDraft.AddedIdsAreNewExactly` | apps/daemon/src/repair/repair-coordinator.ts:32-37 | with the manifest of a document's open tasks: the document's tasks and the k added ones have distinct ids exactly when no completed task has one of the k numbers given out |
| `RepairDraft.CompletedIdRepeats` | apps/daemon/src/repair/repair-coordinator.ts:32-37 | a document with T001 open and T002 done parses, its next number is 2, and the first added task repeats T002 |
| `RepairDraft.DraftIsRefused` | packages/task-manifest/src/tasks-parser.ts:138-156 | whatever the parent document, a follow-up section with a task line is refused |
| `RepairDraft.RenderedDraftIsRefused` | apps/daemon/src/repair/repair-coordinator.ts:145-161 | so is every draft the coordinator writes |

## Left out

- SQLite itself, fsync, chmod, git subprocesses and blob storage: an atomic row store and maps stand for them.
- SHA-256, JSON text and the schema library: injective constructors and predicates for the refinements.
- Writing the state without a lease, which the store allows and no caller does.
- The in-process mutation queue: it only removes interleavings, which the protocol covers without it.
- Sandbox profiles, processes, signals, sockets, IPC framing, the MCP server, CLI and doctor.
- The Pi, Codex Desktop and Claude adapters beyond the line framing of the Codex CLI.
- Prompts, messages, logging, redaction and configuration parsing.
- Symbolic links created during an apply, leaked temporary files, and edits by the user during the commit loop; a change during staging is modelled.
- Errors of `lstat` other than a missing file and a file in the way, such as missing permission, and a hash or mode that cannot be read.
- A worker that reports its start twice: the second report is answered from the receipt of the first, or refused, and `WorkerEvents` records it.
- Host-turn ownership and the authority checks of resume and cancel: they only remove transitions.
- The fields of a run that no guard, invariant or measure reads, among them workspace references and the repair continuation's prompt.
- The artifact store: reading an artifact gives the value that was written, so the integrity checks of artifacts are only modelled where they bind review, candidate and decision.
- One publish task per job, and no publish recovery beside it: stated as the shape of `PublishProtocol` and `DaemonTasks`, from the scheduler's background map.
- `PublishStore`, `PublishService`, `PublishRun` and `PublishRecovery` let nothing else commit between two steps of one publish; `PublishProtocol`, `PublishHandoff` and `UnsettledPublish` cover what may.
- The comparison of the approved tasks file at the publish boundary and before a resume: it only refuses.
- Confirming a publish by hand is a step of the lifecycle (`RunSteps`) with its file observation (`PublishOperations.ObserveTargetState`), not a method.
- RepairTasks.RenderedTasksRoundTrip: the document is characters; decoding its bytes is not part of the statement.
