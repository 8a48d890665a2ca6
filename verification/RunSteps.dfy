/**
  Every builder that moves a run: the phases it is allowed in, what it checks and the run it returns
  (apps/daemon/src, one comment per group names the file).

  Where a coordinator checks the state it read and then mutates under a guard that pins that state, the
  check is written here, inside the builder. Host-turn ownership is not part of this model.
 */
module RunSteps {
  import opened Wrappers
  import opened ProjectModel
  import opened ReviewRules
  import CandidateBuilder
  import WorkspaceApply

  datatype Pin = Pin(attemptId: string, generation: int)

  datatype WorkerEnd =
    | WorkCompleted(piSessionId: SessionId) | WorkBlocked(code: string) | WorkFailed(code: string) | WorkTimedOut(code: string)
    | WorkCanceled

  datatype ServiceStatus = ServiceCommitted | PrecheckConflict | PublishBusy | RecoveryBlocked | ManualRequired
  datatype Evidence = Evidence(
    candidate: Option<CandidateBuilder.Candidate>, review: Option<DurableReview>, decision: Option<LeaderDecision>,
    reviewEnabled: bool)
  datatype Stage = PublishStage | ReviewStage | OtherStage(name: string)

  datatype WorkerStep =
    | ProbeFailed(code: string)
    | GitUnsupported(code: string)
    | WorkspaceReady
    | BeginAttempt(attemptId: string, generation: int)
    | AttemptStarted(pin: Pin, piSessionId: SessionId)
    | AttemptEnded(pin: Pin, end: WorkerEnd)
    | ContainmentBlocked(pin: Pin)
    | CaptureCandidate(
        pin: Pin, candidate: CandidateBuilder.Candidate, reviewEnabled: bool, actionId: string, reviewAttemptId: string)

  datatype ReviewStep =
    | BeginReview(turnToken: string, deadline: int)
    | FinalizeReview(turnToken: string, reviewerSessionId: SessionId, reviewed: ReviewResult, now: int)
    | ResumeStoredDecision
    | PauseForDrift(actionId: string)
    | PauseForHost(turnToken: string, actionId: string)

  datatype RepairStep =
    | ContinueRepair(pin: Pin, piSessionId: SessionId, round: RepairRound, noProgressCount: nat)
    | PauseRepair(round: RepairRound, noProgressCount: nat, code: string)

  datatype PublishStep =
    | PreparePublish(attempt: PublishAttempt)
    | SubmitPublish(operationId: OperationId, operationsHash: WorkspaceApply.OperationsHash, evidence: Evidence)
    | BeginPublishRecovery(attempt: PublishAttempt)
    | CompletePublish(operationId: OperationId, status: PublishStatus, result: PublishResult)
    | SettlePublish(service: ServiceStatus)
    | ConfirmManual(
        requestId: string, operationId: OperationId, operationsHash: WorkspaceApply.OperationsHash,
        paths: seq<WorkspaceApply.PathResult>, matches: bool, evidence: Evidence)

  datatype RecoveryStep =
    | RecoverWorker
    | RecoverPublish(committed: bool, result: PublishResult)
    | RecoverPause(code: string)
    | NewEpoch

  datatype ControlStep =
    | ResumeRun(action: ResumeAction, requestId: string, actionId: string, clearHostTurn: bool)
    | RecordHostTurn(turnToken: string, pauseCode: string)
    | RequestCancel
    | BlockCancel
    | CompleteCancel
    | PauseFailure(stage: Stage)

  datatype RunStep =
    | WorkerMove(worker: WorkerStep)
    | ReviewMove(review: ReviewStep)
    | RepairMove(repair: RepairStep)
    | PublishMove(publish: PublishStep)
    | RecoveryMove(recovery: RecoveryStep)
    | ControlMove(control: ControlStep)

  // The phases a builder's request allows; `None` when it names no phase

  const LIVE: set<RunPhase> := {Preparing, Running, Fixing, ReviewPending, Reviewing, ReadyToPublish, Publishing}

  function PhasesOf(step: RunStep): Option<set<RunPhase>> {
    match step
    case WorkerMove(worker) => Some(WorkerPhases(worker))
    case ReviewMove(review) => Some(ReviewPhases(review))
    case RepairMove(_) => Some({Fixing})
    case PublishMove(publish) => Some(PublishPhases(publish))
    case RecoveryMove(recovery) => RecoveryPhases(recovery)
    case ControlMove(control) => ControlPhases(control)
  }

  function WorkerPhases(step: WorkerStep): set<RunPhase> {
    match step
    case ProbeFailed(_) => {Preparing}
    case GitUnsupported(_) => {Preparing}
    case WorkspaceReady => {Preparing}
    case ContainmentBlocked(_) => {Running, Paused}
    case _ => {Running}
  }

  function ReviewPhases(step: ReviewStep): set<RunPhase> {
    match step
    case BeginReview(_, _) => {ReviewPending}
    case FinalizeReview(_, _, _, _) => {Reviewing}
    case ResumeStoredDecision => {Paused}
    case PauseForDrift(_) => LIVE
    case PauseForHost(_, _) => {Reviewing}
  }

  function PublishPhases(step: PublishStep): set<RunPhase> {
    match step
    case PreparePublish(_) => {ReadyToPublish}
    case SubmitPublish(_, _, _) => {Publishing}
    case BeginPublishRecovery(_) => {ReadyToPublish, Publishing}
    case CompletePublish(_, _, _) => {Publishing}
    case SettlePublish(service) =>
      if service == ServiceCommitted || service == RecoveryBlocked then {Publishing} else {ReadyToPublish}
    case ConfirmManual(_, _, _, _, _, _) => {ReadyToPublish}
  }

  function RecoveryPhases(step: RecoveryStep): Option<set<RunPhase>> {
    match step
    case RecoverWorker => Some({Running})
    case RecoverPublish(_, _) => Some({Publishing})
    case RecoverPause(_) => Some(LIVE + {Paused})
    case NewEpoch => None
  }

  function ControlPhases(step: ControlStep): Option<set<RunPhase>> {
    match step
    case RecordHostTurn(_, _) => Some({Paused})
    case BlockCancel => Some({Canceling})
    case CompleteCancel => Some({Canceling})
    case PauseFailure(_) => Some(LIVE)
    case ResumeRun(_, _, _, _) => None
    case RequestCancel => None
  }

  function PinOf(step: RunStep): Option<Pin> {
    match step
    case WorkerMove(AttemptStarted(pin, _)) => Some(pin)
    case WorkerMove(AttemptEnded(pin, _)) => Some(pin)
    case WorkerMove(ContainmentBlocked(pin)) => Some(pin)
    case WorkerMove(CaptureCandidate(pin, _, _, _, _)) => Some(pin)
    case RepairMove(ContinueRepair(pin, _, _, _)) => Some(pin)
    case _ => None
  }

  predicate Pinned(run: RunRecord, pin: Option<Pin>) {
    pin.Some? ==>
      && LastAttempt(run).Some?
      && LastAttempt(run).value.attemptId == pin.value.attemptId
      && LastAttempt(run).value.generation == pin.value.generation
  }

  predicate SameRun(run: RunRecord, next: RunRecord) {
    && next.jobId == run.jobId && next.taskPath == run.taskPath
    && next.fence == run.fence && next.manifest == run.manifest
  }

  predicate KeepsRun(run: RunRecord, r: Result<RunRecord, string>) {
    r.Ok? ==> SameRun(run, r.value)
  }

  // Worker (worker-runner.ts)

  function IndexOf(attempts: seq<WorkerAttempt>, attemptId: string): (r: Option<nat>)
    ensures r.Some? ==> r.value < |attempts| && attempts[r.value].attemptId == attemptId
    ensures r.Some? ==> forall i | 0 <= i < r.value :: attempts[i].attemptId != attemptId
    ensures r.None? ==> forall a | a in attempts :: a.attemptId != attemptId
  {
    if attempts == [] then None
    else if attempts[0].attemptId == attemptId then Some(0)
    else
      var rest := IndexOf(attempts[1..], attemptId);
      if rest.Some? then Some(rest.value + 1) else None
  }

  function StatusAfter(end: WorkerEnd): AttemptStatus {
    match end
    case WorkCompleted(_) => AttemptCompleted
    case WorkBlocked(_) => AttemptBlocked
    case WorkFailed(_) => AttemptFailed
    case WorkTimedOut(_) => AttemptTimedOut
    case WorkCanceled => AttemptCanceled
  }

  function PauseAfter(end: WorkerEnd): Option<PauseState> {
    match end
    case WorkCompleted(_) => None
    case WorkBlocked(code) => Some(PauseState(code, {CancelAction}))
    case WorkFailed(code) => Some(PauseState(code, {RetryProvider, CancelAction}))
    case WorkTimedOut(code) => Some(PauseState(code, {RetryProvider, CancelAction}))
    case WorkCanceled => Some(PauseState("ATTEMPT_CANCELED", {RetryProvider, CancelAction}))
  }

  // A completed session is stored once, from an attempt that still ran, under the session it started with.
  predicate SessionStorable(a: WorkerAttempt, piSessionId: SessionId) {
    if a.sessionStored then a.status == AttemptCompleted && a.piSessionId == Some(piSessionId)
    else IsActive(a) && (a.piSessionId.None? || a.piSessionId.value == piSessionId)
  }

  function EndAttempt(run: RunRecord, pin: Pin, end: WorkerEnd): (r: Result<RunRecord, string>)
    ensures KeepsRun(run, r)
  {
    var i := IndexOf(run.attempts, pin.attemptId);
    if i.None? then Err("PI_ATTEMPT_MISSING")
    else
      var a := run.attempts[i.value];
      if end.WorkCompleted? && !SessionStorable(a, end.piSessionId) then Err("PI_SESSION_ARTIFACT_STATE_INVALID")
      else
        var ended := if end.WorkCompleted? then
                       a.(status := AttemptCompleted, piSessionId := Some(end.piSessionId), sessionStored := true)
                     else a.(status := StatusAfter(end));
        Ok(run.(phase := if end.WorkCompleted? then run.phase else Paused,
                pause := PauseAfter(end),
                attempts := run.attempts[i.value := ended],
                lastError := if end.WorkFailed? then Some(ErrorState(end.code, "pi-provider")) else run.lastError))
  }

  function StartAttempt(run: RunRecord, pin: Pin, piSessionId: SessionId): (r: Result<RunRecord, string>)
    ensures KeepsRun(run, r)
  {
    var i := IndexOf(run.attempts, pin.attemptId);
    if i.None? then Err("PI_ATTEMPT_MISSING")
    else
      Ok(run.(attempts := run.attempts[i.value := run.attempts[i.value].(status := AttemptRunning, piSessionId := Some(piSessionId))]))
  }

  predicate CandidateIncomplete(run: RunRecord, candidate: CandidateBuilder.Candidate) {
    candidate.operations == [] && !run.manifest.allowNoChange
  }

  function Capture(run: RunRecord, step: WorkerStep): (r: Result<RunRecord, string>)
    requires step.CaptureCandidate?
    ensures KeepsRun(run, r)
  {
    var last := LastAttempt(run);
    if last.None? || last.value.attemptId != step.pin.attemptId || last.value.status != AttemptCompleted then
      Err("PI_ATTEMPT_NOT_COMPLETED")
    else if CandidateIncomplete(run, step.candidate) then
      Ok(run.(phase := Fixing, candidate := Some(step.candidate),
              lastError := Some(ErrorState("WORKER_CANDIDATE_EMPTY", "candidate-completeness"))))
    else
      var settled := run.(candidate := Some(step.candidate), lastError := None, pause := None);
      if !step.reviewEnabled then Ok(settled.(phase := ReadyToPublish))
      else
        var bound := BoundReviewer(run.reviewHistory);
        if last.value.piSessionId.None? then Err("PI_SESSION_MISSING")
        else if bound.Err? then Err("REVIEWER_SESSION_HISTORY_INVALID")
        else if bound.value == Some(last.value.piSessionId.value) then Err("REVIEW_ACTION_BINDING_INVALID")
        else
          Ok(settled.(phase := ReviewPending,
                      pendingAction := Some(ReviewAction(
                        step.actionId, step.reviewAttemptId,
                        if bound.value.None? then CreateSession else ResumeSession(bound.value.value),
                        last.value.piSessionId.value, step.candidate.candidateHash))))
  }

  // Review (review-coordinator.ts)

  function WorkerSession(run: RunRecord): Option<SessionId> {
    if LastAttempt(run).Some? then LastAttempt(run).value.piSessionId else None
  }

  predicate Reviewed(history: seq<ReviewEntry>, reviewAttemptId: string) {
    exists e :: e in history && e.reviewAttemptId == reviewAttemptId
  }

  predicate SessionMatches(session: ReviewerSession, bound: Option<SessionId>) {
    if bound.None? then session.CreateSession? else session == ResumeSession(bound.value)
  }

  function StartReview(run: RunRecord, turnToken: string, deadline: int): (r: Result<RunRecord, string>)
    ensures KeepsRun(run, r)
  {
    var bound := BoundReviewer(run.reviewHistory);
    if run.pendingAction.None? || run.candidate.None? then Err("REVIEW_ACTION_CONTEXT_MISSING")
    else if bound.Err? then Err("REVIEWER_SESSION_HISTORY_INVALID")
    else if Some(run.pendingAction.value.piSessionId) != WorkerSession(run) ||
            !SessionMatches(run.pendingAction.value.reviewerSession, bound.value) then Err("REVIEW_ACTION_CONTEXT_STALE")
    else if Reviewed(run.reviewHistory, run.pendingAction.value.reviewAttemptId) then Err("REVIEW_ATTEMPT_REUSED")
    else
      Ok(run.(phase := Reviewing, hostTurn := Some(AwaitingReview(turnToken, run.pendingAction.value.reviewAttemptId, deadline))))
  }

  // The limit pause has no host turn left: review-runner.ts clears the daemon's own turn.
  function Finalized(run: RunRecord, review: DurableReview): (next: RunRecord)
    ensures SameRun(run, next)
  {
    var plan := PlanReviewDecision(review.gate.result, run.autoRepairRounds);
    run.(phase := if plan == AcceptPlan then ReadyToPublish else if plan == RepairPlan then Fixing else Paused,
         pendingAction := None, hostTurn := None,
         review := Some(review), leaderDecision := Some(LeaderDecision(review, DecisionOf(plan))),
         reviewHistory := run.reviewHistory + [ReviewEntry(review.reviewAttemptId, review.reviewerSessionId, review)],
         autoRepairRounds := if plan == RepairPlan then run.autoRepairRounds + 1 else run.autoRepairRounds,
         pause := if plan == PauseAtLimitPlan
           then Some(PauseState("AUTOMATIC_REPAIR_LIMIT", {ResumeReviewDecision, CancelAction})) else None)
  }

  function FinishReview(run: RunRecord, turnToken: string, reviewer: SessionId, result: ReviewResult, now: int)
    : (r: Result<RunRecord, string>)
    ensures KeepsRun(run, r)
  {
    if run.hostTurn.None? || !run.hostTurn.value.AwaitingReview? || run.hostTurn.value.turnToken != turnToken ||
       run.pendingAction.None? || run.pendingAction.value.reviewAttemptId != run.hostTurn.value.reviewAttemptId then
      Err("REVIEW_TURN_STALE_OR_MISMATCHED")
    else if run.hostTurn.value.deadline <= now then Err("REVIEW_DEADLINE_EXPIRED")
    else
      var action, bound := run.pendingAction.value, BoundReviewer(run.reviewHistory);
      if bound.Err? then Err("REVIEWER_SESSION_HISTORY_INVALID")
      else if !SessionMatches(action.reviewerSession, bound.value) || (bound.value.Some? && bound.value.value != reviewer) then
        Err("REVIEWER_SESSION_BINDING_MISMATCH")
      else if !ValidReviewResult(result) then Err("REVIEW_RESULT_INVALID")
      else if !CoversTasks(run.manifest.enabledTaskIds, result) then Err("REVIEW_TASK_COVERAGE_INCOMPLETE")
      else if WorkerSession(run).None? then Err("REVIEW_WORKER_SESSION_MISSING")
      else
        match EvaluateGate(reviewer, WorkerSession(run).value, bound.value, result)
        case Err(_) => Err("REVIEW_GATE_REFUSED")
        case Ok(gate) =>
          Ok(Finalized(run, DurableReview(turnToken, action.reviewAttemptId, action.candidateHash, reviewer,
                                          WorkerSession(run).value, gate)))
  }

  // The stored result is planned again as if no repair round had been spent.
  function ResumeDecision(run: RunRecord): (r: Result<RunRecord, string>)
    ensures KeepsRun(run, r)
  {
    if run.pause.None? || ResumeReviewDecision !in run.pause.value.resumeActions then Err("RESUME_ACTION_NOT_ALLOWED")
    else if run.pause.value.code != "AUTOMATIC_REPAIR_LIMIT" || run.review.None? then Err("LEADER_DECISION_NOT_READY")
    else
      var plan := PlanReviewDecision(run.review.value.gate.result, 0);
      if DecisionOf(plan) !in run.review.value.gate.allowed then Err("LEADER_DECISION_REJECTED_BY_REVIEW_GATE")
      else
        Ok(run.(phase := if plan == AcceptPlan then ReadyToPublish else if plan == RepairPlan then Fixing else Paused,
                hostTurn := None, leaderDecision := Some(LeaderDecision(run.review.value, DecisionOf(plan))),
                autoRepairRounds := if plan == RepairPlan then 1 else 0, pause := None))
  }

  function Drifted(run: RunRecord, actionId: string): (r: Result<RunRecord, string>)
    ensures KeepsRun(run, r)
  {
    var pause := Some(PauseState("APPROVED_SOURCE_DRIFT", {RestoreApprovedTasks, CancelAction}));
    if run.phase != ReviewPending && run.phase != Reviewing then Ok(run.(phase := Paused, pause := pause))
    else if run.pendingAction.None? then Err("REVIEW_SOURCE_DRIFT_ACTION_MISSING")
    else
      Ok(run.(phase := Paused, hostTurn := None, pause := pause, driftFromReview := true,
              pendingAction := Some(run.pendingAction.value.(actionId := actionId))))
  }

  function HostLost(run: RunRecord, turnToken: string, actionId: string): (r: Result<RunRecord, string>)
    ensures KeepsRun(run, r)
  {
    if run.hostTurn.None? || !run.hostTurn.value.AwaitingReview? || run.hostTurn.value.turnToken != turnToken ||
       run.pendingAction.None? then Err("HOST_REVIEW_ACTION_NOT_ACTIVE")
    else
      Ok(run.(phase := Paused, hostTurn := None, pendingAction := Some(run.pendingAction.value.(actionId := actionId)),
              pause := Some(PauseState("HOST_REVIEW_UNAVAILABLE", {RetryHostReview, CancelAction})),
              lastError := Some(ErrorState("HOST_REVIEW_UNAVAILABLE", "review"))))
  }

  // Repair (repair-coordinator.ts)

  function Continued(run: RunRecord, pin: Pin, piSessionId: SessionId, round: RepairRound, noProgressCount: nat)
    : (r: Result<RunRecord, string>)
    ensures KeepsRun(run, r)
  {
    var last := LastAttempt(run);
    if last.None? || last.value.attemptId != pin.attemptId || last.value.generation != pin.generation ||
       last.value.status != AttemptCompleted || last.value.piSessionId != Some(piSessionId) || !last.value.sessionStored then
      Err("REPAIR_CONTEXT_CHANGED")
    else
      Ok(run.(phase := Preparing, noProgressCount := noProgressCount, candidate := None, pendingAction := None,
              hostTurn := None, review := None, leaderDecision := None, publish := None, pause := None, lastError := None,
              repairRound := Some(round), manualMark := None, driftFromReview := false))
  }

  // Publishing (publish-coordinator.ts)

  // What verifyRunArtifacts asks of a run that needs approval, with the review bound to the candidate
  predicate Approved(run: RunRecord) {
    && run.review.Some? && run.candidate.Some? && run.leaderDecision.Some?
    && Accept in run.review.value.gate.allowed
    && run.leaderDecision.value.decision == Accept
    && run.leaderDecision.value.review == run.review.value
    && run.review.value.candidateHash == run.candidate.value.candidateHash
    && run.review.value.reviewerSessionId != run.review.value.piSessionId
    && exists e :: e in run.reviewHistory && e.reviewAttemptId == run.review.value.reviewAttemptId && e.review == run.review.value
  }

  predicate EvidenceHolds(run: RunRecord, evidence: Evidence) {
    && run.candidate == evidence.candidate && run.review == evidence.review && run.leaderDecision == evidence.decision
    && (evidence.reviewEnabled ==> Approved(run))
  }

  function PauseForService(service: ServiceStatus): PauseState {
    match service
    case ManualRequired => PauseState("PUBLISH_ADAPTER_UNAVAILABLE", {RetryPublish, ConfirmManualPublish, CancelAction})
    case PrecheckConflict => PauseState("PUBLISH_PRECHECK_CONFLICT", {RetryPublish, ConfirmManualPublish, CancelAction})
    case PublishBusy => PauseState("PROJECT_PUBLISH_BUSY", {RetryPublish, CancelAction})
    case _ => PauseState("PUBLISH_RECOVERY_BLOCKED", {InspectOnly, CancelAction})
  }

  predicate ManualRequested(run: RunRecord) {
    && run.manualMark.Some? && run.manualMark.value.requested
    && run.manualMark.value.pauseCode in {"PUBLISH_ADAPTER_UNAVAILABLE", "PUBLISH_PRECHECK_CONFLICT"}
  }

  // The record of a publish that was made by hand, found to hold every target state
  function ManualAttempt(
    operationId: OperationId, operationsHash: WorkspaceApply.OperationsHash, paths: seq<WorkspaceApply.PathResult>): PublishAttempt
  {
    PublishAttempt(operationId, operationsHash, "manual-confirmation-v1", AttemptCommitted,
                   Some(WorkspaceApply.PublishResult(operationId, operationsHash, WorkspaceApply.Committed, paths)))
  }

  function StepPublish(step: PublishStep, run: RunRecord): (r: Result<RunRecord, string>)
    ensures KeepsRun(run, r)
  {
    match step
    case PreparePublish(attempt) => Ok(run.(phase := Publishing, publish := Some(attempt)))
    case SubmitPublish(operationId, operationsHash, evidence) =>
      if run.publish.None? || run.publish.value.operationId != operationId || run.publish.value.status != Prepared then
        Err("PUBLISH_OPERATION_STALE")
      else if !EvidenceHolds(run, evidence) || run.publish.value.operationsHash != operationsHash then
        Err("PUBLISH_APPLY_BOUNDARY_STALE")
      else Ok(run.(publish := Some(run.publish.value.(status := Submitted))))
    case BeginPublishRecovery(attempt) =>
      if run.publish.None? || run.publish.value.operationId != attempt.operationId ||
         run.publish.value.operationsHash != attempt.operationsHash || run.publish.value.adapterId != attempt.adapterId then
        Err("PUBLISH_RECOVERY_IDENTITY_MISMATCH")
      else Ok(run.(phase := Publishing, publish := Some(attempt)))
    case CompletePublish(operationId, status, result) =>
      if run.publish.None? || run.publish.value.operationId != operationId then Err("PUBLISH_OPERATION_STALE")
      else Ok(run.(publish := Some(run.publish.value.(status := status, result := Some(result)))))
    case SettlePublish(service) =>
      if service == ServiceCommitted then Ok(run.(phase := Completed, manualMark := None))
      else Ok(run.(phase := Paused, manualMark := None, pause := Some(PauseForService(service))))
    case ConfirmManual(requestId, operationId, operationsHash, paths, matches, evidence) =>
      if !EvidenceHolds(run, evidence) then Err("PUBLISH_APPLY_BOUNDARY_STALE")
      else if !ManualRequested(run) || run.publish.Some? || run.manualMark.value.requestId != requestId then
        Err("MANUAL_PUBLISH_CONFIRMATION_STALE")
      else if matches then
        Ok(run.(phase := Completed, publish := Some(ManualAttempt(operationId, operationsHash, paths)), manualMark := None, pause := None))
      else
        Ok(run.(phase := Paused, manualMark := Some(run.manualMark.value.(requested := false)),
                pause := Some(PauseState("MANUAL_PUBLISH_TARGET_MISMATCH", {ConfirmManualPublish, RetryPublish, CancelAction}))))
  }

  // Recovery and cancellation (recovery-manager.ts, cancel-manager.ts)

  function EndLastActive(attempts: seq<WorkerAttempt>, status: AttemptStatus): (r: seq<WorkerAttempt>)
    ensures |r| == |attempts|
  {
    if attempts == [] || !IsActive(attempts[|attempts| - 1]) then attempts
    else attempts[|attempts| - 1 := attempts[|attempts| - 1].(status := status)]
  }

  function RecoveredPublish(run: RunRecord, committed: bool, result: PublishResult): (r: Result<RunRecord, string>)
    ensures KeepsRun(run, r)
  {
    var status := if committed then WorkspaceApply.Committed else WorkspaceApply.Conflicted;
    if run.publish.None? then Err("PUBLISH_ATTEMPT_MISSING")
    else if !ValidResult(result) || result.operationId != run.publish.value.operationId ||
            result.operationsHash != run.publish.value.operationsHash || result.status != status then
      Err("RESULT_BINDING_INVALID")
    else
      var recorded := run.publish.value.(status := if committed then AttemptCommitted else AttemptConflict, result := Some(result));
      if committed then Ok(run.(phase := Completed, publish := Some(recorded)))
      else
        Ok(run.(phase := Paused, publish := Some(recorded),
                pause := Some(PauseState("PUBLISH_CONFLICT", {InspectOnly, CancelAction}))))
  }

  predicate PublishUnsettled(run: RunRecord) {
    run.publish.Some? && run.publish.value.status in {Prepared, Submitted, AttemptUnknown}
  }

  function Cancelled(run: RunRecord): (r: Result<RunRecord, string>)
    ensures KeepsRun(run, r)
  {
    if PublishUnsettled(run) then Err("PUBLISH_RECONCILIATION_REQUIRED")
    else
      Ok(run.(phase := Canceled, attempts := EndLastActive(run.attempts, AttemptCanceled), pendingAction := None,
              pause := None, lastError := None))
  }

  // Resuming a paused run (project-runtime.ts)

  const PROVIDER_CODES := {
    "PAUSED_PROCESS_RECONCILIATION", "PROVIDER_ERROR", "PROVIDER_UNAVAILABLE", "PI_PROVIDER_FAILED", "PI_PROCESS_EXITED",
    "ATTEMPT_DEADLINE_EXCEEDED"}

  function ResumePhase(run: RunRecord, action: ResumeAction): Option<RunPhase> {
    var code := if run.pause.Some? then run.pause.value.code else "";
    var publishFailed := code == "RUNTIME_STAGE_FAILED" && run.lastError.Some? && run.lastError.value.stage == "publish";
    match action
    case CancelAction => Some(Canceling)
    case RetryHostReview =>
      if code == "HOST_REVIEW_UNAVAILABLE" && run.pendingAction.Some? then Some(ReviewPending) else None
    case RetryPublish =>
      if publishFailed || code in {"PUBLISH_ADAPTER_UNAVAILABLE", "PUBLISH_PRECHECK_CONFLICT", "PUBLISH_RECOVERY_BLOCKED",
                                   "PROJECT_PUBLISH_BUSY"} then Some(ReadyToPublish) else None
    case ConfirmManualPublish =>
      if run.publish.None? && code in {"PUBLISH_ADAPTER_UNAVAILABLE", "PUBLISH_PRECHECK_CONFLICT",
                                       "MANUAL_PUBLISH_TARGET_MISMATCH"} then Some(ReadyToPublish) else None
    case RetryCancel =>
      if code in {"PAUSED_PROCESS_RECONCILIATION", "CANCEL_RETRY_REQUIRED"} then Some(Canceling) else None
    case RetryProviderProbe =>
      if code in {"PROVIDER_UNAVAILABLE", "PROVIDER_RUNTIME_CONFIG_DRIFT"} then Some(Preparing) else None
    case RetryGitProbe => if |code| >= 4 && code[..4] == "GIT_" then Some(Preparing) else None
    case RetryProvider => if run.attempts != [] && code in PROVIDER_CODES then Some(Preparing) else None
    case RestoreApprovedTasks =>
      if code != "APPROVED_SOURCE_DRIFT" then None
      else if run.driftFromReview then Some(ReviewPending) else Some(Preparing)
    case ResumeReviewDecision => None
    case Retry => None
    case InspectOnly => None
  }

  function Resumed(run: RunRecord, action: ResumeAction, requestId: string, actionId: string, clearHostTurn: bool)
    : (r: Result<RunRecord, string>)
    ensures KeepsRun(run, r)
  {
    if run.phase != Paused then Err("RESUME_NOT_ALLOWED")
    else if run.pause.None? || action !in run.pause.value.resumeActions then Err("RESUME_ACTION_NOT_ALLOWED")
    else if ResumePhase(run, action).None? then Err("RESUME_CODE_ACTION_MISMATCH")
    else
      var code := run.pause.value.code;
      var source := if code == "MANUAL_PUBLISH_TARGET_MISMATCH" && run.manualMark.Some? then run.manualMark.value.pauseCode else code;
      Ok(run.(phase := ResumePhase(run, action).value, pause := None, lastError := None,
              driftFromReview := run.driftFromReview && action != RestoreApprovedTasks,
              manualMark := if action == ConfirmManualPublish then Some(ManualMark(true, source, requestId)) else run.manualMark,
              pendingAction := if action == RetryHostReview && run.pendingAction.Some?
                then Some(run.pendingAction.value.(actionId := actionId)) else run.pendingAction,
              hostTurn := if clearHostTurn then None else run.hostTurn))
  }

  function StageName(stage: Stage): string {
    match stage
    case PublishStage => "publish"
    case ReviewStage => "review"
    case OtherStage(name) => name
  }

  function StageFailed(run: RunRecord, stage: Stage): (next: RunRecord)
    ensures SameRun(run, next)
  {
    var code := if stage.ReviewStage? then "HOST_REVIEW_UNAVAILABLE" else "RUNTIME_STAGE_FAILED";
    var retry := match stage case PublishStage => RetryPublish case ReviewStage => RetryHostReview case OtherStage(_) => Retry;
    run.(phase := Paused, hostTurn := if stage.ReviewStage? then None else run.hostTurn,
         pause := Some(PauseState(code, {retry, CancelAction})), lastError := Some(ErrorState(code, StageName(stage))))
  }

  function PausedBecause(run: RunRecord, code: string, actions: set<ResumeAction>, stage: string): (next: RunRecord)
    ensures SameRun(run, next)
  {
    run.(phase := Paused, pause := Some(PauseState(code, actions)), lastError := Some(ErrorState(code, stage)))
  }

  // One function per group

  function StepWorker(step: WorkerStep, run: RunRecord): (r: Result<RunRecord, string>)
    ensures KeepsRun(run, r)
  {
    match step
    case ProbeFailed(code) => Ok(run.(phase := Paused, pause := Some(PauseState(code, {RetryProviderProbe, CancelAction}))))
    case GitUnsupported(code) => Ok(PausedBecause(run, code, {RetryGitProbe, CancelAction}, "git-capability"))
    case WorkspaceReady => Ok(run.(phase := Running, pause := None, lastError := None))
    case BeginAttempt(attemptId, generation) =>
      Ok(run.(attempts := run.attempts + [WorkerAttempt(attemptId, generation, AttemptPreparing, None, false)]))
    case AttemptStarted(pin, piSessionId) => StartAttempt(run, pin, piSessionId)
    case AttemptEnded(pin, end) => EndAttempt(run, pin, end)
    case ContainmentBlocked(_) =>
      Ok(PausedBecause(run, "PI_CONTAINMENT_RECONCILIATION_REQUIRED", {InspectOnly, CancelAction}, "pi-containment"))
    case CaptureCandidate(_, _, _, _, _) => Capture(run, step)
  }

  function StepReview(step: ReviewStep, run: RunRecord): (r: Result<RunRecord, string>)
    ensures KeepsRun(run, r)
  {
    match step
    case BeginReview(turnToken, deadline) => StartReview(run, turnToken, deadline)
    case FinalizeReview(turnToken, reviewer, result, now) => FinishReview(run, turnToken, reviewer, result, now)
    case ResumeStoredDecision => ResumeDecision(run)
    case PauseForDrift(actionId) => Drifted(run, actionId)
    case PauseForHost(turnToken, actionId) => HostLost(run, turnToken, actionId)
  }

  function StepRepair(step: RepairStep, run: RunRecord): (r: Result<RunRecord, string>)
    ensures KeepsRun(run, r)
  {
    match step
    case ContinueRepair(pin, piSessionId, round, noProgressCount) => Continued(run, pin, piSessionId, round, noProgressCount)
    case PauseRepair(round, noProgressCount, code) =>
      Ok(run.(phase := Paused, noProgressCount := noProgressCount, repairRound := Some(round),
              pause := Some(PauseState(code, {InspectOnly, CancelAction}))))
  }

  function StepRecovery(step: RecoveryStep, run: RunRecord): (r: Result<RunRecord, string>)
    ensures KeepsRun(run, r)
  {
    match step
    case RecoverWorker =>
      if LastAttempt(run).Some? && LastAttempt(run).value.status == AttemptTimedOut then Err("ATTEMPT_DEADLINE_EXCEEDED")
      else Ok(run.(phase := Preparing, attempts := EndLastActive(run.attempts, AttemptFailed), pause := None))
    case RecoverPublish(committed, result) => RecoveredPublish(run, committed, result)
    case RecoverPause(code) => Ok(PausedBecause(run, code, {InspectOnly, CancelAction}, "recovery"))
    case NewEpoch => Ok(run)
  }

  function StepControl(step: ControlStep, run: RunRecord): (r: Result<RunRecord, string>)
    ensures KeepsRun(run, r)
  {
    match step
    case ResumeRun(action, requestId, actionId, clearHostTurn) => Resumed(run, action, requestId, actionId, clearHostTurn)
    case RecordHostTurn(turnToken, pauseCode) => Ok(run.(hostTurn := Some(AwaitingUserInput(turnToken, pauseCode))))
    case RequestCancel => Ok(run.(phase := Canceling, pause := None, hostTurn := None))
    case BlockCancel => Ok(PausedBecause(run, "PAUSED_PROCESS_RECONCILIATION", {RetryCancel, CancelAction}, "cancel"))
    case CompleteCancel => Cancelled(run)
    case PauseFailure(stage) => Ok(StageFailed(run, stage))
  }

  /** The run each builder returns. */
  function StepRun(step: RunStep, run: RunRecord): (r: Result<RunRecord, string>)
    ensures KeepsRun(run, r)
  {
    match step
    case WorkerMove(worker) => StepWorker(worker, run)
    case ReviewMove(review) => StepReview(review, run)
    case RepairMove(repair) => StepRepair(repair, run)
    case PublishMove(publish) => StepPublish(publish, run)
    case RecoveryMove(recovery) => StepRecovery(recovery, run)
    case ControlMove(control) => StepControl(control, run)
  }
}
