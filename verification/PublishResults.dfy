/**
  What becomes of an approved candidate and its run, from the snapshots to the files on disk
  (apps/daemon/src/publish/publish-coordinator.ts, packages/publish/src).
 */
module PublishResults {
  import opened Wrappers
  import opened Ordering
  import opened Snapshot
  import opened CandidateBuilder
  import opened WorkspaceTree
  import opened PublishOperations
  import opened PublishMeaning
  import opened ProjectModel
  import opened LifecycleInvariant
  import opened UnsettledPublish
  import opened RunSteps
  import opened RunTransitions
  import opened ProjectLifecycle
  import opened PublishStore
  import opened PublishOutcome
  import opened PublishRun
  import PublishReconcile
  import MutationExecutor
  import WorkspaceApply

  // What becomes of an approved candidate

  /**
    An approved candidate of two verified snapshots, published undisturbed into a tree that holds the first one
    on the touched paths, with nothing in their way: the run is completed, the publish is on record as committed,
    the lease is free, and the files hold the second snapshot on the touched paths, the directories it needs, and
    what they held elsewhere.
   */
  lemma ApprovedCandidateIsPublished(
    baseline: GitSnapshot, result: GitSnapshot, candidate: Candidate, given: seq<ApplyOperation>,
    less: (Path, Path) -> bool, w: World, next: World, who: Setting, id: OperationId)
    requires BuildGitCandidate(baseline, result) == Ok(candidate)
    requires GitPublishOperations(candidate, result).Ok? ==> multiset(given) == multiset(GitPublishOperations(candidate, result).value)
    requires PublishableEntries(ByPath(baseline.entries)) && PublishableEntries(ByPath(result.entries))
    requires IsUnnested(ByPath(result.entries))
    requires HoldsBlobsOf(who.blobs, ByPath(result.entries)) && who.faults == WorkspaceApply.NO_FAULTS
    requires var touched := DifferingPaths(ByPath(baseline.entries), ByPath(result.entries));
             touched != {} && StrictTotalOn(less, touched) && Holds(w.workspace, ByPath(baseline.entries), touched)
    requires Canonical(given, less).Ok? ==> id.operationsHash.canonical == Canonical(given, less).value
    requires who.job in w.state.runs && RunEnds(w, next, who, id)
    ensures who.job in next.state.runs && next.state.runs[who.job].phase == Completed && PublishCommitted(next.state.runs[who.job])
    ensures next.state.publishLease.None?
    ensures forall p :: NodeAt(next.workspace.files, p) ==
              Installed(w.workspace.files, ByPath(baseline.entries), ByPath(result.entries), p)
  {
    PublishPreservesMeaning(baseline, result, candidate, given, less, who.blobs, w.workspace, id);
    CommittedPassedPreflight(w, who, id);
  }

  lemma CommittedPassedPreflight(w: World, who: Setting, id: OperationId)
    requires var seen := FirstOutcome(w, who, id).1; seen.Some? && seen.value.status == WorkspaceApply.Committed
    ensures PreflightAnswer(w.workspace, id.operationsHash.canonical) == Ok([])
  {
  }

  // A batch that nothing stops before its commit loop, and the files it is committed on
  ghost predicate IsStaged(w: Workspace, blobs: map<BlobId, Bytes>, operations: seq<ApplyOperation>, staged: Workspace) {
    && PreflightAnswer(w, operations) == Ok([])
    && WorkspaceApply.StagingStop(w.files, blobs, operations, None, 0) == |operations|
    && staged == Workspace(WithDirectories(w.files, WorkspaceApply.ParentsOf(operations)))
    && PublishReconcile.IsClean(staged, operations)
  }

  lemma StagedRunsOn(w: World, who: Setting, id: OperationId, staged: Workspace, k: nat)
    requires IsStaged(w.workspace, who.blobs, id.operationsHash.canonical, staged) && k <= |id.operationsHash.canonical|
    requires who.faults == WorkspaceApply.Faults(None, Some(k), None)
    ensures var left := Workspace(WorkspaceApply.ApplyFirst(staged.files, id.operationsHash.canonical, k));
            FirstOutcome(w, who, id) == (left, Some(WorkspaceApply.Observe(left, id, id.operationsHash, id.operationsHash.canonical)))
  {
    CleanIsUnobstructed(w.workspace, id.operationsHash.canonical);
    PublishReconcile.CleanBatchStaysObservable(staged, id.operationsHash.canonical, k);
  }

  /**
    A commit loop that fails after k of n operations, k < n: the first k paths hold their new state, and the run
    is trapped with the publish lease in its hand, whatever k is.
   */
  lemma BrokenCommitTrapsRun(w: World, next: World, who: Setting, id: OperationId, staged: Workspace, k: nat)
    requires IsStaged(w.workspace, who.blobs, id.operationsHash.canonical, staged) && k < |id.operationsHash.canonical|
    requires forall op | op in id.operationsHash.canonical :: PublishReconcile.ChangesItsPath(op)
    requires who.faults == WorkspaceApply.Faults(None, Some(k), None)
    requires who.job in w.state.runs && RunEnds(w, next, who, id)
    ensures Held(next.state, who.job)
    ensures next.workspace.files == WorkspaceApply.ApplyFirst(staged.files, id.operationsHash.canonical, k)
  {
    StagedRunsOn(w, who, id, staged, k);
    PublishReconcile.StoppedBatchIsReported(staged, id.operationsHash.canonical, k, id, id.operationsHash);
  }

  lemma NewStateConflicts(w: Workspace, op: ApplyOperation)
    requires IsValidOperation(op) && PublishReconcile.ChangesItsPath(op) && WorkspaceApply.HoldsNewState(w, op)
    ensures PreflightReason(w, op).Some?
  {
  }

  /**
    A publish repeated on files its batch was already applied to reports a precheck conflict and gives the lease
    back, whatever is on record for it: a result the adapter holds is not read.
   */
  lemma RepeatedPublishConflicts(staged: Workspace, w: World, next: World, who: Setting, id: OperationId, total: nat, r: Answer)
    requires PublishReconcile.IsClean(staged, id.operationsHash.canonical)
    requires forall op | op in id.operationsHash.canonical :: PublishReconcile.ChangesItsPath(op)
    requires var operations := id.operationsHash.canonical;
             w.workspace == Workspace(WorkspaceApply.ApplyFirst(staged.files, operations, |operations|))
    requires who.job in w.state.runs && w.state.runs[who.job].phase in LEASE_PHASES && LeaseFree(w.state, who.job, id)
    requires PublishEnds(w, next, who, id, total, r)
    ensures r.Ok? && r.value.Conflicting? && r.value.conflicts != [] && OnlyLeased(w, next, id)
  {
    var operations := id.operationsHash.canonical;
    PublishReconcile.CleanBatchStaysObservable(staged, operations, |operations|);
    PublishReconcile.StoppedBatchIsReported(staged, operations, |operations|, id, id.operationsHash);
    assert operations[0] in operations;
    NewStateConflicts(w.workspace, operations[0]);
    PreflightClean(w.workspace, operations);
  }

  // A path that cannot be looked at

  /** A publish whose check throws: the run stays ready to publish, and the lease stays taken. */
  lemma ThrowingPublishKeepsLease(w: World, next: World, who: Setting, id: OperationId, total: nat, r: Answer, op: ApplyOperation)
    requires op in id.operationsHash.canonical && !Linked(w.workspace, op.path) && Obstructed(w.workspace, op.path)
    requires who.job in w.state.runs && w.state.runs[who.job].phase == ReadyToPublish && LeaseFree(w.state, who.job, id)
    requires PublishEnds(w, next, who, id, total, r)
    ensures r.Err? && next.workspace == w.workspace && next.results == w.results
    ensures next.state.runs == w.state.runs && next.state.publishLease == Some(PublishLease(who.job, id))
  {
    ThrowsExactlyWhenObstructed(w.workspace, id.operationsHash.canonical);
    assert w.state.runs[who.job := w.state.runs[who.job]] == w.state.runs;
  }

  function FailureRequest(job: JobId, requestId: RequestId): MutationExecutor.Request {
    Plainly(job, requestId, Some({ReadyToPublish}))
  }

  lemma FailureIsGuarded(s: ProjectState, job: JobId, requestId: RequestId)
    requires ValidProject(s) && job in s.runs && s.runs[job].phase == ReadyToPublish && requestId !in s.receipts
    ensures MutationExecutor.Decide(s, FailureRequest(job, requestId)).Proceed?
    ensures RunTransitions.Carries(FailureRequest(job, requestId), Move(job, ControlMove(PauseFailure(PublishStage))))
  {
    assert OwnsItsTask(s, s.runs[job]);
  }

  lemma FailureProceeds(s: ProjectState, job: JobId, requestId: RequestId)
    requires ProjectInv(s) && job in s.runs && s.runs[job].phase == ReadyToPublish && requestId !in s.receipts
    ensures var request, step := FailureRequest(job, requestId), ControlMove(PauseFailure(PublishStage));
            && RunTransitions.Carries(request, Move(job, step)) && MutationExecutor.Decide(s, request).Proceed?
            && StepDisciplined(step, s.runs[job]) && StepRun(step, s.runs[job]).Ok?
  {
    IdleWhenReady(s, job);
    FailureIsGuarded(s, job, requestId);
  }

  lemma IdleWhenReady(s: ProjectState, job: JobId)
    requires ProjectInv(s) && job in s.runs && s.runs[job].phase == ReadyToPublish
    ensures !HasActive(s.runs[job]) && ValidProject(s)
  {
    assert RunInv(s.runs[job]);
  }

  lemma FailureOffersRetry(run: RunRecord)
    ensures var paused := StageFailed(run, PublishStage);
            && paused.phase == Paused && paused.publish == run.publish && CanLeave(paused)
  {
    var paused := StageFailed(run, PublishStage);
    assert RetryPublish in paused.pause.value.resumeActions && LeavesBy(paused, RetryPublish);
  }

  /**
    What the failed publish task then commits: the run is paused, still with the lease, and a retry leads on; but a
    cancellation instead leaves it stuck, and the lease with it.
   */
  lemma FailedPublishRests(s: ProjectState, job: JobId, requestId: RequestId) returns (paused: ProjectState)
    requires ProjectInv(s) && job in s.runs && s.runs[job].phase == ReadyToPublish && LeaseNames(s.publishLease, job)
    requires requestId !in s.receipts
    ensures LifecycleStep(s, FailureRequest(job, requestId), Move(job, ControlMove(PauseFailure(PublishStage))), paused)
    ensures ProjectInv(paused) && job in paused.runs && paused.runs[job].phase == Paused
    ensures paused.publishLease == s.publishLease && !Stuck(paused, job)
    ensures forall next, cancel, step | LifecycleStep(paused, cancel, Move(job, step), next) && CancelsRun(step) ::
              Held(next, job)
  {
    var request, step := FailureRequest(job, requestId), ControlMove(PauseFailure(PublishStage));
    FailureProceeds(s, job, requestId);
    MoveCommitsUnlessLeased(s, request, job, step);
    paused := MutationExecutor.Attempt(s, request, BuildOf(Move(job, step))).state;
    CommittedMoves(s, request, job, step, paused);
    FailureOffersRetry(s.runs[job]);
    SameOffers(StageFailed(s.runs[job], PublishStage), paused.runs[job]);
    forall next, cancel, canceling | LifecycleStep(paused, cancel, Move(job, canceling), next) && CancelsRun(canceling)
      ensures Held(next, job)
    {
      CancelKeepsLease(paused, cancel, job, canceling, next);
    }
  }

  predicate CancelsRun(step: RunStep) {
    step == ControlMove(RequestCancel) || (step.ControlMove? && step.control.ResumeRun? && step.control.action == CancelAction)
  }

  lemma CancelKeepsLease(s: ProjectState, request: MutationExecutor.Request, job: JobId, step: RunStep, next: ProjectState)
    requires LifecycleStep(s, request, Move(job, step), next) && CancelsRun(step) && LeaseNames(s.publishLease, job)
    ensures Held(next, job)
  {
    CommittedMoves(s, request, job, step, next);
  }
}
