/**
  The durable project state and the schema every committed state must satisfy
  (packages/state-store/src/schema.ts, packages/protocol/src/schema/run-state.ts).

  Only the fields that guards, invariants and measures read are kept. An artifact reference is
  modelled by the immutable value it names, and a hash by the value it was taken of.
 */
module ProjectModel {
  import opened Wrappers
  import Snapshot
  import CandidateBuilder
  import WorkspaceApply

  type JobId = string
  type TaskPath = string
  type SessionId = string
  type Path = Snapshot.Path
  type OperationId = WorkspaceApply.OperationId
  type PublishResult = WorkspaceApply.PublishResult

  datatype RunPhase =
    | Preparing | Running | Fixing | ReviewPending | Reviewing | ReadyToPublish | Publishing | Paused | Canceling
    | Completed | Canceled | Failed

  // Worker attempts

  datatype AttemptStatus =
    | AttemptPreparing | AttemptRunning | AttemptCompleted | AttemptBlocked | AttemptFailed | AttemptTimedOut | AttemptCanceled

  datatype WorkerAttempt = WorkerAttempt(
    attemptId: string, generation: int, status: AttemptStatus, piSessionId: Option<SessionId>, sessionStored: bool)

  predicate IsActive(a: WorkerAttempt) {
    a.status == AttemptPreparing || a.status == AttemptRunning
  }

  // Tasks, reviews and repairs

  datatype ManifestTask = ManifestTask(id: string, moduleId: string, filePaths: seq<Path>)
  datatype TaskManifest = TaskManifest(enabledTaskIds: seq<string>, tasks: seq<ManifestTask>, allowNoChange: bool)

  datatype Issue = Issue(path: Path, message: string, suggestedFix: Option<string>)
  datatype TaskReview = TaskReview(id: string, completion: nat, issues: seq<Issue>)
  datatype ReviewResult = ReviewResult(tasks: seq<TaskReview>)

  datatype Decision = Accept | Repair | Pause
  datatype ReviewGate = ReviewGate(accepted: bool, allowed: seq<Decision>, result: ReviewResult)
  datatype DurableReview = DurableReview(
    claimId: string, reviewAttemptId: string, candidateHash: CandidateBuilder.CandidateHash,
    reviewerSessionId: SessionId, piSessionId: SessionId, gate: ReviewGate)
  datatype LeaderDecision = LeaderDecision(review: DurableReview, decision: Decision)
  // the stored review hash is modelled by the review it was taken of
  datatype ReviewEntry = ReviewEntry(reviewAttemptId: string, reviewerSessionId: SessionId, review: DurableReview)

  datatype ReviewerSession = CreateSession | ResumeSession(reviewerSessionId: SessionId)
  datatype ReviewAction = ReviewAction(
    actionId: string, reviewAttemptId: string, reviewerSession: ReviewerSession, piSessionId: SessionId,
    candidateHash: CandidateBuilder.CandidateHash)
  datatype HostTurn =
    | AwaitingReview(turnToken: string, reviewAttemptId: string, deadline: int)
    | AwaitingUserInput(turnToken: string, pauseCode: string)

  // `None` is the marker DELETED
  datatype RepairRound = RepairRound(
    failureIds: seq<string>, tasks: seq<TaskReview>, pathHashes: map<Path, Option<Snapshot.Digest>>)

  // Publishing

  datatype PublishStatus = Prepared | Submitted | AttemptCommitted | AttemptConflict | AttemptUnknown
  datatype PublishAttempt = PublishAttempt(
    operationId: OperationId, operationsHash: WorkspaceApply.OperationsHash, adapterId: string, status: PublishStatus,
    result: Option<PublishResult>)
  datatype PublishLease = PublishLease(jobId: JobId, operationId: OperationId)

  // Runs and projects

  datatype PauseState = PauseState(code: string, resumeActions: set<ResumeAction>)
  datatype ResumeAction =
    | CancelAction | RetryHostReview | RetryPublish | ConfirmManualPublish | RetryCancel | RetryProviderProbe
    | RetryGitProbe | RetryProvider | RestoreApprovedTasks | ResumeReviewDecision | Retry | InspectOnly

  // `requested` until the workspace was found to differ from the target
  datatype ManualMark = ManualMark(requested: bool, pauseCode: string, requestId: string)
  datatype ErrorState = ErrorState(code: string, stage: string)

  datatype RunRecord = RunRecord(
    jobId: JobId, taskPath: TaskPath, fence: nat, phase: RunPhase, manifest: TaskManifest,
    attempts: seq<WorkerAttempt>, candidate: Option<CandidateBuilder.Candidate>,
    pendingAction: Option<ReviewAction>, hostTurn: Option<HostTurn>,
    review: Option<DurableReview>, leaderDecision: Option<LeaderDecision>, reviewHistory: seq<ReviewEntry>,
    noProgressCount: nat, autoRepairRounds: nat, publish: Option<PublishAttempt>,
    repairRound: Option<RepairRound>, manualMark: Option<ManualMark>, driftFromReview: bool,
    pause: Option<PauseState>, lastError: Option<ErrorState>)

  datatype RequestId =
    | LeaseAcquireRequest(operationId: OperationId, projectFence: nat)
    | LeaseReleaseRequest(operationId: OperationId, projectFence: nat)
    | PreparedRequest(operationId: OperationId)
    | SubmittedRequest(operationId: OperationId)
    | BeginRecoveryRequest(operationId: OperationId, status: PublishStatus)
    | CompleteRequest(operationId: OperationId, status: PublishStatus)
    | OutcomeRequest(jobId: JobId, serviceStatus: string)
    | OtherRequest(text: string)

  datatype Response = Acknowledged | LeaseAnswer(acquired: bool)
  // the stored request hash is modelled by the payload it was taken of
  datatype Receipt = Receipt(payload: string, response: Response)

  datatype ProjectState = ProjectState(
    stateVersion: nat, projectFence: nat, activeRuns: map<TaskPath, JobId>, publishLease: Option<PublishLease>,
    runs: map<JobId, RunRecord>, receipts: map<RequestId, Receipt>)

  predicate IsTerminal(phase: RunPhase) {
    phase == Completed || phase == Canceled || phase == Failed
  }

  function LastAttempt(run: RunRecord): Option<WorkerAttempt> {
    if run.attempts == [] then None else Some(run.attempts[|run.attempts| - 1])
  }

  function ActiveCount(attempts: seq<WorkerAttempt>): nat {
    if attempts == [] then 0
    else ActiveCount(attempts[..|attempts| - 1]) + if IsActive(attempts[|attempts| - 1]) then 1 else 0
  }

  predicate UniqueAttemptIds(attempts: seq<WorkerAttempt>) {
    forall i, j | 0 <= i < j < |attempts| :: attempts[i].attemptId != attempts[j].attemptId
  }

  // Schema

  predicate ValidResult(r: PublishResult) {
    && (forall i, j | 0 <= i < j < |r.paths| :: r.paths[i].path != r.paths[j].path)
    && (r.status == WorkspaceApply.Committed ==> forall p | p in r.paths :: p.status == WorkspaceApply.PathCommitted)
    && (r.status == WorkspaceApply.Conflicted && r.paths != [] ==>
          exists p :: p in r.paths && p.status == WorkspaceApply.PathConflict)
  }

  predicate ValidPublishAttempt(a: PublishAttempt) {
    && (a.result.Some? <==> a.status == AttemptCommitted || a.status == AttemptConflict || a.status == AttemptUnknown)
    && (a.result.Some? ==>
          && ValidResult(a.result.value)
          && a.result.value.operationId == a.operationId
          && a.result.value.operationsHash == a.operationsHash
          && (a.status == AttemptCommitted ==> a.result.value.status == WorkspaceApply.Committed)
          && (a.status == AttemptConflict ==> a.result.value.status == WorkspaceApply.Conflicted))
  }

  predicate ValidAttempt(a: WorkerAttempt) {
    a.status == AttemptCompleted ==> a.piSessionId.Some? && a.sessionStored
  }

  predicate ValidRun(run: RunRecord) {
    && UniqueAttemptIds(run.attempts)
    && ActiveCount(run.attempts) <= 1
    && (forall a | a in run.attempts :: ValidAttempt(a))
    && (run.publish.Some? ==> ValidPublishAttempt(run.publish.value))
    && run.fence > 0
  }

  predicate BindingHolds(s: ProjectState, taskPath: TaskPath, jobId: JobId) {
    && jobId in s.runs
    && s.runs[jobId].taskPath == taskPath
    && !IsTerminal(s.runs[jobId].phase)
  }

  predicate OwnsItsTask(s: ProjectState, run: RunRecord) {
    run.taskPath in s.activeRuns && s.activeRuns[run.taskPath] == run.jobId
  }

  predicate LeaseNamesActiveRun(s: ProjectState) {
    s.publishLease.Some? ==>
      s.publishLease.value.jobId in s.runs && OwnsItsTask(s, s.runs[s.publishLease.value.jobId])
  }

  /** What `projectStateSchema.parse` accepts. */
  predicate ValidProject(s: ProjectState) {
    && (forall key | key in s.runs :: s.runs[key].jobId == key && ValidRun(s.runs[key]))
    && (forall taskPath | taskPath in s.activeRuns :: BindingHolds(s, taskPath, s.activeRuns[taskPath]))
    && (forall key | key in s.runs && !IsTerminal(s.runs[key].phase) :: OwnsItsTask(s, s.runs[key]))
    && LeaseNamesActiveRun(s)
  }

  /** The task bindings match exactly the nonterminal runs. */
  lemma BindingsAreTheNonterminalRuns(s: ProjectState, taskPath: TaskPath, jobId: JobId)
    requires ValidProject(s)
    ensures (taskPath in s.activeRuns && s.activeRuns[taskPath] == jobId) <==>
              (jobId in s.runs && s.runs[jobId].taskPath == taskPath && !IsTerminal(s.runs[jobId].phase))
  {
  }

  lemma {:induction false} ActiveCountZero(attempts: seq<WorkerAttempt>)
    ensures ActiveCount(attempts) == 0 <==> forall a | a in attempts :: !IsActive(a)
  {
    if attempts != [] {
      var n := |attempts| - 1;
      assert attempts == attempts[..n] + [attempts[n]];
      ActiveCountZero(attempts[..n]);
    }
  }

  /** The refinement loop over the attempts of one run (schema.ts:140-163). */
  method RefineAttempts(attempts: seq<WorkerAttempt>) returns (repeatedIds: bool, tooManyActive: bool)
    ensures repeatedIds <==> !UniqueAttemptIds(attempts)
    ensures tooManyActive <==> ActiveCount(attempts) > 1
  {
    var attemptIds: set<string> := {};
    var activeAttempts := 0;
    repeatedIds := false;
    for i := 0 to |attempts|
      invariant attemptIds == set j | 0 <= j < i :: attempts[j].attemptId
      invariant activeAttempts == ActiveCount(attempts[..i])
      invariant repeatedIds <==> exists j, k :: 0 <= j < k < i && attempts[j].attemptId == attempts[k].attemptId
    {
      assert attempts[..i + 1][..i] == attempts[..i];
      if attempts[i].attemptId in attemptIds {
        repeatedIds := true;
      }
      attemptIds := attemptIds + {attempts[i].attemptId};
      if IsActive(attempts[i]) {
        activeAttempts := activeAttempts + 1;
      }
    }
    assert attempts[..|attempts|] == attempts;
    tooManyActive := activeAttempts > 1;
  }

  /** The generation check of the artifact verification (recovery-manager.ts:243-249). */
  method CheckGenerations(attempts: seq<WorkerAttempt>) returns (consecutive: bool)
    ensures consecutive <==> forall i | 0 <= i < |attempts| :: attempts[i].generation == i
  {
    var previousGeneration := -1;
    for i := 0 to |attempts|
      invariant previousGeneration == i - 1
      invariant forall j | 0 <= j < i :: attempts[j].generation == j
    {
      if attempts[i].generation != previousGeneration + 1 {
        return false;
      }
      previousGeneration := attempts[i].generation;
    }
    return true;
  }
}
