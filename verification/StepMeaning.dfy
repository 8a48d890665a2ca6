/**
  What the builders mean for the run they move: where a step leads, what it asks, and what it leaves alone
  (apps/daemon/src/worker/worker-runner.ts, review/review-coordinator.ts, repair/repair-coordinator.ts,
  recovery/recovery-manager.ts, cancel/cancel-manager.ts, runtime/project-runtime.ts, publish/publish-coordinator.ts).
 */
module StepMeaning {
  import opened Wrappers
  import opened ProjectModel
  import opened ReviewRules
  import opened RunSteps
  import opened RunTransitions
  import opened LifecycleInvariant
  import CandidateBuilder
  import WorkspaceApply

  // Worker attempts

  predicate IsAttempt(run: RunRecord, i: nat, pin: Pin) {
    && i < |run.attempts| && run.attempts[i].attemptId == pin.attemptId
    && forall j | 0 <= j < i :: run.attempts[j].attemptId != pin.attemptId
  }

  // One attempt is changed, and nothing else of the attempts.
  predicate ChangesAttempt(run: RunRecord, next: RunRecord, i: nat, status: AttemptStatus) {
    && i < |run.attempts| == |next.attempts|
    && next.attempts[i].status == status
    && next.attempts[i].attemptId == run.attempts[i].attemptId && next.attempts[i].generation == run.attempts[i].generation
    && forall j | 0 <= j < |run.attempts| && j != i :: next.attempts[j] == run.attempts[j]
  }

  lemma AttemptIsFound(run: RunRecord, pin: Pin)
    ensures IndexOf(run.attempts, pin.attemptId).Some? ==> IsAttempt(run, IndexOf(run.attempts, pin.attemptId).value, pin)
    ensures IndexOf(run.attempts, pin.attemptId).None? <==> forall i: nat :: !IsAttempt(run, i, pin)
  {
    var found := IndexOf(run.attempts, pin.attemptId);
    if found.Some? {
      assert IsAttempt(run, found.value, pin);
    } else {
      forall i: nat ensures !IsAttempt(run, i, pin) {
        assert i < |run.attempts| ==> run.attempts[i] in run.attempts;
      }
    }
  }

  /** A started attempt runs in the session it names. */
  lemma StartedAttempt(run: RunRecord, pin: Pin, piSessionId: SessionId)
    requires StepWorker(AttemptStarted(pin, piSessionId), run).Ok?
    ensures var next := StepWorker(AttemptStarted(pin, piSessionId), run).value;
            exists i: nat ::
              && IsAttempt(run, i, pin) && ChangesAttempt(run, next, i, AttemptRunning)
              && next.attempts[i].piSessionId == Some(piSessionId) && next.attempts[i].sessionStored == run.attempts[i].sessionStored
              && next == run.(attempts := next.attempts)
  {
    AttemptIsFound(run, pin);
    var i := IndexOf(run.attempts, pin.attemptId).value;
    assert IsAttempt(run, i, pin);
  }

  // The status and the pause code of an attempt that ended without completing
  predicate IsStop(end: WorkerEnd, status: AttemptStatus, code: string) {
    match end
    case WorkCompleted(_) => false
    case WorkBlocked(why) => status == AttemptBlocked && code == why
    case WorkFailed(why) => status == AttemptFailed && code == why
    case WorkTimedOut(why) => status == AttemptTimedOut && code == why
    case WorkCanceled => status == AttemptCanceled && code == "ATTEMPT_CANCELED"
  }

  predicate MayComplete(a: WorkerAttempt, piSessionId: SessionId) {
    if a.sessionStored then a.status == AttemptCompleted && a.piSessionId == Some(piSessionId)
    else IsActive(a) && (a.piSessionId.None? || a.piSessionId == Some(piSessionId))
  }

  // A completed attempt keeps its run RUNNING, in the one session it has stored.
  predicate Completes(run: RunRecord, next: RunRecord, i: nat, piSessionId: SessionId) {
    && ChangesAttempt(run, next, i, AttemptCompleted)
    && next.attempts[i].piSessionId == Some(piSessionId) && next.attempts[i].sessionStored
    && next == run.(attempts := next.attempts, pause := None)
  }

  // Any other end pauses the run under the code it gives.
  predicate Stops(run: RunRecord, next: RunRecord, i: nat, end: WorkerEnd) {
    && next.pause.Some? && next.phase == Paused
    && i < |next.attempts| && IsStop(end, next.attempts[i].status, next.pause.value.code)
    && next.pause.value.resumeActions == (if end.WorkBlocked? then {CancelAction} else {RetryProvider, CancelAction})
    && ChangesAttempt(run, next, i, next.attempts[i].status)
    && next.lastError == (if end.WorkFailed? then Some(ErrorState(end.code, "pi-provider")) else run.lastError)
    && next == run.(phase := Paused, attempts := next.attempts, pause := next.pause, lastError := next.lastError)
  }

  /**
    How an attempt ends. A completion is refused exactly when the attempt is unknown, has stored another session,
    has ended otherwise, or ran in another session.
   */
  lemma EndedAttempt(run: RunRecord, pin: Pin, end: WorkerEnd)
    ensures var r := StepWorker(AttemptEnded(pin, end), run);
            && (r.Err? <==> forall i: nat | IsAttempt(run, i, pin) :: end.WorkCompleted? && !MayComplete(run.attempts[i], end.piSessionId))
            && (r.Ok? ==>
                  exists i: nat :: IsAttempt(run, i, pin) &&
                    if end.WorkCompleted? then Completes(run, r.value, i, end.piSessionId) else Stops(run, r.value, i, end))
  {
    AttemptIsFound(run, pin);
    if IndexOf(run.attempts, pin.attemptId).Some? {
      var i := IndexOf(run.attempts, pin.attemptId).value;
      assert IsAttempt(run, i, pin);
      assert forall j: nat | IsAttempt(run, j, pin) :: j == i;
    }
  }

  // Candidates

  predicate IsEmptyHanded(run: RunRecord, candidate: CandidateBuilder.Candidate) {
    candidate.operations == [] && !run.manifest.allowNoChange
  }

  // What the review of a captured candidate is asked for
  predicate AsksForReview(run: RunRecord, next: RunRecord, step: WorkerStep)
    requires step.CaptureCandidate?
  {
    && next.pendingAction.Some? && run.attempts != []
    && var action := next.pendingAction.value;
       && action.candidateHash == step.candidate.candidateHash && action.actionId == step.actionId
       && action.reviewAttemptId == step.reviewAttemptId
       && run.attempts[|run.attempts| - 1].piSessionId == Some(action.piSessionId)
       && (if run.reviewHistory == [] then action.reviewerSession == CreateSession
           else action.reviewerSession == ResumeSession(run.reviewHistory[0].reviewerSessionId))
       && forall e | e in run.reviewHistory :: action.reviewerSession == ResumeSession(e.reviewerSessionId) && e.reviewerSessionId != action.piSessionId
  }

  /**
    Where a captured candidate leads: to FIXING exactly when it has no operations and must have some, otherwise to
    REVIEW_PENDING exactly when reviews are on, otherwise to READY_TO_PUBLISH.
   */
  lemma CaptureLeads(run: RunRecord, step: WorkerStep)
    requires step.CaptureCandidate? && Reaches(WorkerMove(step), run)
    ensures var next := StepWorker(step, run).value;
            && (next.phase == Fixing <==> IsEmptyHanded(run, step.candidate))
            && (next.phase == ReviewPending <==> !IsEmptyHanded(run, step.candidate) && step.reviewEnabled)
            && (next.phase == ReadyToPublish <==> !IsEmptyHanded(run, step.candidate) && !step.reviewEnabled)
            && next.candidate == Some(step.candidate) && next.phase != run.phase
            && (next.phase == ReviewPending ==> AsksForReview(run, next, step))
            && (next.phase != ReviewPending ==> next.pendingAction == run.pendingAction)
            && next.lastError == (if next.phase == Fixing then Some(ErrorState("WORKER_CANDIDATE_EMPTY", "candidate-completeness")) else None)
  {
  }

  /** A candidate is captured exactly from the completed last attempt; for a review its session must be another than the reviewer's. */
  lemma CapturedFrom(run: RunRecord, step: WorkerStep)
    requires step.CaptureCandidate?
    ensures Capture(run, step).Ok? <==>
              && run.attempts != []
              && var a := run.attempts[|run.attempts| - 1];
                 && a.attemptId == step.pin.attemptId && a.status == AttemptCompleted
                 && (!IsEmptyHanded(run, step.candidate) && step.reviewEnabled ==>
                       && a.piSessionId.Some?
                       && (forall e | e in run.reviewHistory :: e.reviewerSessionId == run.reviewHistory[0].reviewerSessionId)
                       && (run.reviewHistory != [] ==> run.reviewHistory[0].reviewerSessionId != a.piSessionId.value))
  {
  }

  // Reviews

  predicate OneSession(history: seq<ReviewEntry>) {
    forall e | e in history :: e.reviewerSessionId == history[0].reviewerSessionId
  }

  // The action asks for the session all earlier rounds were held in, or for a new one before the first.
  predicate AsksForBoundSession(run: RunRecord, action: ReviewAction) {
    && OneSession(run.reviewHistory)
    && if run.reviewHistory == [] then action.reviewerSession.CreateSession?
       else action.reviewerSession == ResumeSession(run.reviewHistory[0].reviewerSessionId)
  }

  predicate IsWorkerSession(run: RunRecord, piSessionId: SessionId) {
    run.attempts != [] && run.attempts[|run.attempts| - 1].piSessionId == Some(piSessionId)
  }

  lemma BoundIsFirst(history: seq<ReviewEntry>)
    ensures BoundReviewer(history).Ok? <==> OneSession(history)
    ensures OneSession(history) ==>
              BoundReviewer(history).value == if history == [] then None else Some(history[0].reviewerSessionId)
  {
  }

  /** A review is begun exactly for a pending action that still fits the worker, the reviewer and the rounds so far. */
  lemma ReviewBegins(run: RunRecord, turnToken: string, deadline: int)
    ensures var r := StartReview(run, turnToken, deadline);
            && (r.Ok? <==>
                  && run.pendingAction.Some? && run.candidate.Some?
                  && IsWorkerSession(run, run.pendingAction.value.piSessionId)
                  && AsksForBoundSession(run, run.pendingAction.value)
                  && forall e | e in run.reviewHistory :: e.reviewAttemptId != run.pendingAction.value.reviewAttemptId)
            && (r.Ok? ==>
                  r.value == run.(phase := Reviewing, hostTurn :=
                                  Some(AwaitingReview(turnToken, run.pendingAction.value.reviewAttemptId, deadline))))
  {
    BoundIsFirst(run.reviewHistory);
  }

  // The turn is the one that is awaited, and in time.
  predicate AnswersTurn(run: RunRecord, turnToken: string, now: int) {
    && run.hostTurn.Some? && run.hostTurn.value.AwaitingReview? && run.hostTurn.value.turnToken == turnToken
    && now < run.hostTurn.value.deadline
    && run.pendingAction.Some? && run.pendingAction.value.reviewAttemptId == run.hostTurn.value.reviewAttemptId
  }

  // The reviewer is not the worker, and is the one of all earlier rounds.
  predicate MayJudge(run: RunRecord, reviewer: SessionId) {
    && run.attempts != [] && run.attempts[|run.attempts| - 1].piSessionId.Some?
    && reviewer != run.attempts[|run.attempts| - 1].piSessionId.value
    && forall e | e in run.reviewHistory :: e.reviewerSessionId == reviewer
  }

  /** A review is recorded exactly when it answers the awaited turn in time, comes from the right session and covers the tasks. */
  lemma ReviewIsTaken(run: RunRecord, turnToken: string, reviewer: SessionId, result: ReviewResult, now: int)
    ensures FinishReview(run, turnToken, reviewer, result, now).Ok? <==>
              && AnswersTurn(run, turnToken, now) && MayJudge(run, reviewer)
              && AsksForBoundSession(run, run.pendingAction.value)
              && ValidReviewResult(result) && CoversTasks(run.manifest.enabledTaskIds, result)
  {
    BoundIsFirst(run.reviewHistory);
    assert run.reviewHistory != [] ==> run.reviewHistory[0] in run.reviewHistory;
  }

  /** What is recorded of it: one more round, held by this reviewer on this worker's candidate. */
  lemma ReviewIsRecorded(run: RunRecord, turnToken: string, reviewer: SessionId, result: ReviewResult, now: int)
    requires FinishReview(run, turnToken, reviewer, result, now).Ok?
    ensures var next := FinishReview(run, turnToken, reviewer, result, now).value;
            && next.review.Some?
            && var review := next.review.value;
               && review.claimId == turnToken && review.reviewAttemptId == run.pendingAction.value.reviewAttemptId
               && review.candidateHash == run.pendingAction.value.candidateHash && review.reviewerSessionId == reviewer
               && IsWorkerSession(run, review.piSessionId) && review.gate.result == result
               && next.reviewHistory == run.reviewHistory + [ReviewEntry(review.reviewAttemptId, reviewer, review)]
               && next.leaderDecision.Some? && next.leaderDecision.value.review == review
               && next.leaderDecision.value.decision ==
                    (if next.phase == ReadyToPublish then Accept else if next.phase == Fixing then Repair else Pause)
               && next.pendingAction.None? && next.hostTurn.None? && next.candidate == run.candidate && next.attempts == run.attempts
               && next.pause == (if next.phase == Paused then
                                   Some(PauseState("AUTOMATIC_REPAIR_LIMIT", {ResumeReviewDecision, CancelAction})) else None)
  {
    ReviewIsTaken(run, turnToken, reviewer, result, now);
  }

  /** A decision held back at the limit is taken again with the rounds counted anew, if the review allows it. */
  lemma DecisionIsResumed(run: RunRecord)
    requires RunInv(run)
    ensures var r := ResumeDecision(run);
            && (r.Ok? <==>
                  && run.pause.Some? && ResumeReviewDecision in run.pause.value.resumeActions
                  && run.pause.value.code == "AUTOMATIC_REPAIR_LIMIT" && run.review.Some?)
            && (r.Ok? ==>
                  && (r.value.phase == ReadyToPublish <==> AllComplete(run.review.value.gate.result))
                  && (r.value.phase == Fixing <==> !AllComplete(run.review.value.gate.result))
                  && r.value.autoRepairRounds == (if r.value.phase == Fixing then 1 else 0)
                  && r.value.leaderDecision == Some(LeaderDecision(run.review.value, if r.value.phase == Fixing then Repair else Accept))
                  && r.value.pause.None? && r.value.review == run.review && r.value.reviewHistory == run.reviewHistory)
  {
    if run.review.Some? {
      var e := run.reviewHistory[|run.reviewHistory| - 1];
      assert e in run.reviewHistory && SoundEntry(e, run.manifest.enabledTaskIds);
      PlanPassesGate(run.review.value.gate.result, 0);
    }
  }

  // Pauses of a review

  /** A drift found in review keeps the review's action, under a new id, and marks where to go back to. */
  lemma DriftKeepsAction(run: RunRecord, actionId: string)
    ensures var r, reviewing := Drifted(run, actionId), run.phase == ReviewPending || run.phase == Reviewing;
            && (r.Err? <==> reviewing && run.pendingAction.None?)
            && (r.Ok? ==>
                  r.value.phase == Paused && r.value.pause == Some(PauseState("APPROVED_SOURCE_DRIFT", {RestoreApprovedTasks, CancelAction})))
            && (r.Ok? && reviewing ==>
                  && r.value.driftFromReview && r.value.hostTurn.None?
                  && r.value.pendingAction == Some(run.pendingAction.value.(actionId := actionId)))
            && (r.Ok? && !reviewing ==>
                  r.value == run.(phase := Paused, pause := r.value.pause))
  {
  }

  /** A lost host pauses exactly the review it was to hold, and keeps its action under a new id. */
  lemma HostIsLost(run: RunRecord, turnToken: string, actionId: string)
    ensures var r := HostLost(run, turnToken, actionId);
            && (r.Ok? <==>
                  && run.hostTurn.Some? && run.hostTurn.value.AwaitingReview? && run.hostTurn.value.turnToken == turnToken
                  && run.pendingAction.Some?)
            && (r.Ok? ==>
                  && r.value.phase == Paused && r.value.hostTurn.None?
                  && r.value.pendingAction == Some(run.pendingAction.value.(actionId := actionId))
                  && r.value.pause == Some(PauseState("HOST_REVIEW_UNAVAILABLE", {RetryHostReview, CancelAction})))
  {
  }

  // Recovery and cancellation

  // The attempt that was still active, which is the last, now has this status.
  predicate EndsActive(run: RunRecord, next: RunRecord, status: AttemptStatus) {
    && |next.attempts| == |run.attempts|
    && forall i | 0 <= i < |run.attempts| ::
         next.attempts[i] ==
           if i == |run.attempts| - 1 && IsActive(run.attempts[i]) then run.attempts[i].(status := status) else run.attempts[i]
  }

  /** A worker that was running when the daemon stopped is prepared again, its attempt failed; one that had run out of time is not. */
  lemma WorkerIsRecovered(run: RunRecord)
    ensures var r := StepRecovery(RecoverWorker, run);
            && (r.Err? <==> run.attempts != [] && run.attempts[|run.attempts| - 1].status == AttemptTimedOut)
            && (r.Ok? ==>
                  EndsActive(run, r.value, AttemptFailed)
                  && r.value == run.(phase := Preparing, attempts := r.value.attempts, pause := None))
  {
  }

  /** A run is cancelled exactly when its publish record is missing, COMMITTED or CONFLICT. */
  lemma RunIsCancelled(run: RunRecord)
    ensures var r := Cancelled(run);
            && (r.Ok? <==> run.publish.None? || run.publish.value.status == AttemptCommitted || run.publish.value.status == AttemptConflict)
            && (r.Ok? ==>
                  && EndsActive(run, r.value, AttemptCanceled) && r.value.phase == Canceled && r.value.pause.None?
                  && r.value.publish == run.publish && r.value.pendingAction.None? && r.value.candidate == run.candidate)
  {
  }

  /**
    A resume takes exactly an offered action that has a route, clears the pause, and remembers a manual
    confirmation by the request that asked and the pause it was asked from.
   */
  lemma ResumeRemembers(run: RunRecord, action: ResumeAction, requestId: string, actionId: string, clearHostTurn: bool)
    ensures var r := Resumed(run, action, requestId, actionId, clearHostTurn);
            && (r.Ok? <==>
                  && run.phase == Paused && run.pause.Some? && action in run.pause.value.resumeActions
                  && ResumePhase(run, action).Some?)
            && (r.Ok? ==>
                  && r.value.pause.None? && r.value.lastError.None? && Some(r.value.phase) == ResumePhase(run, action)
                  && r.value.hostTurn == (if clearHostTurn then None else run.hostTurn))
            && (r.Ok? && action == RetryHostReview && run.pendingAction.Some? ==>
                  r.value.pendingAction == Some(run.pendingAction.value.(actionId := actionId)))
            && (r.Ok? && action == ConfirmManualPublish ==>
                  && r.value.manualMark.Some? && r.value.manualMark.value.requested && r.value.manualMark.value.requestId == requestId
                  && (run.pause.value.code != "MANUAL_PUBLISH_TARGET_MISMATCH" ==>
                        r.value.manualMark.value.pauseCode == run.pause.value.code)
                  && (run.pause.value.code == "MANUAL_PUBLISH_TARGET_MISMATCH" && run.manualMark.Some? ==>
                        r.value.manualMark.value.pauseCode == run.manualMark.value.pauseCode))
            && (r.Ok? && action != ConfirmManualPublish ==> r.value.manualMark == run.manualMark)
            && (r.Ok? && action == RestoreApprovedTasks ==> !r.value.driftFromReview)
  {
  }

  // Publishing

  /** How a publish outcome leaves the run: completed, or paused with what may be done about it. */
  lemma OutcomeSettles(run: RunRecord, service: ServiceStatus)
    ensures var next := StepPublish(SettlePublish(service), run).value;
            && (next.phase == Completed <==> service == ServiceCommitted)
            && (service != ServiceCommitted ==>
                  && next.phase == Paused && next.pause.Some? && CancelAction in next.pause.value.resumeActions
                  && (InspectOnly in next.pause.value.resumeActions <==> service == RecoveryBlocked)
                  && (RetryPublish in next.pause.value.resumeActions <==> service != RecoveryBlocked)
                  && (ConfirmManualPublish in next.pause.value.resumeActions <==>
                        service == ManualRequired || service == PrecheckConflict))
            && next.manualMark.None? && next.publish == run.publish
  {
  }

  /**
    A publish made by hand is confirmed exactly for the request that asked, with the evidence unchanged and nothing on
    record; files that hold the target complete the run with a committed record, others pause it again.
   */
  lemma ManualPublishIsConfirmed(
    run: RunRecord, requestId: string, operationId: OperationId, operationsHash: WorkspaceApply.OperationsHash,
    paths: seq<WorkspaceApply.PathResult>, matches: bool, evidence: Evidence)
    ensures var r := StepPublish(ConfirmManual(requestId, operationId, operationsHash, paths, matches, evidence), run);
            && (r.Ok? <==>
                  && EvidenceHolds(run, evidence) && run.publish.None? && run.manualMark.Some?
                  && run.manualMark.value.requested && run.manualMark.value.requestId == requestId
                  && (run.manualMark.value.pauseCode == "PUBLISH_ADAPTER_UNAVAILABLE" ||
                      run.manualMark.value.pauseCode == "PUBLISH_PRECHECK_CONFLICT"))
            && (r.Ok? && matches ==>
                  && r.value.phase == Completed && PublishCommitted(r.value) && r.value.manualMark.None? && r.value.pause.None?
                  && r.value.publish.value.operationId == operationId && r.value.publish.value.operationsHash == operationsHash
                  && r.value.publish.value.result.Some? && r.value.publish.value.result.value.paths == paths)
            && (r.Ok? && !matches ==>
                  && r.value.phase == Paused && r.value.publish.None?
                  && r.value.manualMark == Some(run.manualMark.value.(requested := false))
                  && r.value.pause == Some(PauseState("MANUAL_PUBLISH_TARGET_MISMATCH",
                                                      {ConfirmManualPublish, RetryPublish, CancelAction})))
  {
  }

  /** What is looked at before anything is handed over is what the run still holds, approved by its reviewer and its leader. */
  lemma EvidenceIsTheRuns(run: RunRecord, evidence: Evidence)
    ensures EvidenceHolds(run, evidence) <==>
              && evidence.candidate == run.candidate && evidence.review == run.review && evidence.decision == run.leaderDecision
              && (evidence.reviewEnabled ==>
                    && run.candidate.Some? && run.review.Some? && run.leaderDecision == Some(LeaderDecision(run.review.value, Accept))
                    && Accept in run.review.value.gate.allowed
                    && run.review.value.candidateHash == run.candidate.value.candidateHash
                    && run.review.value.reviewerSessionId != run.review.value.piSessionId
                    && exists e :: e in run.reviewHistory && e.review == run.review.value &&
                         e.reviewAttemptId == run.review.value.reviewAttemptId)
  {
  }

  /**
    A step returns the publish lease exactly when it records a result that settles the publish, or completes the run
    by hand while the lease names it, or recovers the attempt it was taken for; it never takes or passes it.
   */
  lemma LeaseIsReturnedExactly(lease: PublishLease, job: JobId, step: RunStep, run: RunRecord)
    ensures var after := LeaseAfter(Some(lease), job, step, run);
            && (after == Some(lease) || after.None?)
            && (after.None? <==>
                  || (step.PublishMove? && step.publish.CompletePublish? && step.publish.status in {AttemptCommitted, AttemptConflict})
                  || (step.PublishMove? && step.publish.ConfirmManual? && step.publish.matches && lease.jobId == job)
                  || (step.RecoveryMove? && step.recovery.RecoverPublish? && run.publish.Some? && lease.jobId == job &&
                      lease.operationId == run.publish.value.operationId))
    ensures LeaseAfter(None, job, step, run).None?
  {
  }

  // Steps that open or close something

  // What is still open about a run: why it rests, what went wrong, whom it waits for
  datatype Openings = Openings(pause: Option<PauseState>, error: Option<ErrorState>, turn: Option<HostTurn>)

  function OpeningsOf(run: RunRecord): Openings {
    Openings(run.pause, run.lastError, run.hostTurn)
  }

  // Only where the run is and what is open about it has changed.
  predicate OnlyMoves(run: RunRecord, next: RunRecord) {
    next.(phase := run.phase, pause := run.pause, lastError := run.lastError, hostTurn := run.hostTurn) == run
  }

  /** A prepared workspace and a requested cancellation leave nothing to resume; a cancellation also nobody to wait for. */
  lemma StepsThatClose(run: RunRecord)
    ensures var ready := StepWorker(WorkspaceReady, run).value;
            ready.phase == Running && OnlyMoves(run, ready) && OpeningsOf(ready) == Openings(None, None, run.hostTurn)
    ensures var canceling := StepControl(RequestCancel, run).value;
            canceling.phase == Canceling && OnlyMoves(run, canceling) && OpeningsOf(canceling) == Openings(None, run.lastError, None)
  {
  }

  // A pause under a code that says what may be done about it
  predicate Rests(run: RunRecord, next: RunRecord, code: string, actions: set<ResumeAction>) {
    next.phase == Paused && OnlyMoves(run, next) && next.pause == Some(PauseState(code, actions))
  }

  /** How a run is paused that cannot go on: what it then offers, what it blames, and whom it no longer waits for. */
  lemma StepsThatRest(run: RunRecord, code: string, pin: Pin)
    ensures var next := StepWorker(ProbeFailed(code), run).value;
            Rests(run, next, code, {RetryProviderProbe, CancelAction}) && OpeningsOf(next).error == run.lastError && next.hostTurn == run.hostTurn
    ensures var next := StepWorker(GitUnsupported(code), run).value;
            Rests(run, next, code, {RetryGitProbe, CancelAction}) && next.lastError == Some(ErrorState(code, "git-capability"))
    ensures var next := StepWorker(ContainmentBlocked(pin), run).value;
            Rests(run, next, "PI_CONTAINMENT_RECONCILIATION_REQUIRED", {InspectOnly, CancelAction})
    ensures var next := StepRecovery(RecoverPause(code), run).value;
            Rests(run, next, code, {InspectOnly, CancelAction}) && next.lastError == Some(ErrorState(code, "recovery"))
    ensures var next := StepControl(BlockCancel, run).value;
            Rests(run, next, "PAUSED_PROCESS_RECONCILIATION", {RetryCancel, CancelAction}) && next.lastError.Some?
  {
  }

  /** A failed task offers its own retry, is blamed by its stage, and a failed review waits for no host any more. */
  lemma FailedStageRests(run: RunRecord, stage: Stage)
    ensures var next := StepControl(PauseFailure(stage), run).value;
            && next.phase == Paused && OnlyMoves(run, next) && next.pause.Some? && next.lastError.Some?
            && next.lastError.value.code == next.pause.value.code
            && (stage.ReviewStage? ==>
                  && next.pause.value == PauseState("HOST_REVIEW_UNAVAILABLE", {RetryHostReview, CancelAction})
                  && next.hostTurn.None? && next.lastError.value.stage == "review")
            && (stage.PublishStage? ==>
                  && next.pause.value == PauseState("RUNTIME_STAGE_FAILED", {RetryPublish, CancelAction})
                  && next.hostTurn == run.hostTurn && next.lastError.value.stage == "publish")
            && (stage.OtherStage? ==>
                  && next.pause.value == PauseState("RUNTIME_STAGE_FAILED", {Retry, CancelAction})
                  && next.hostTurn == run.hostTurn && next.lastError.value.stage == stage.name)
  {
  }

  /**
    A repair that goes on starts over: from its attempt and session, with nothing judged, pending, published or
    open, and only the round and its count to remember; one that does not go on keeps everything but those two.
   */
  lemma RepairStartsOver(run: RunRecord, pin: Pin, piSessionId: SessionId, round: RepairRound, noProgressCount: nat, code: string)
    ensures var r := StepRepair(ContinueRepair(pin, piSessionId, round, noProgressCount), run);
            && (r.Ok? <==>
                  run.attempts != [] &&
                  var a := run.attempts[|run.attempts| - 1];
                  && a.attemptId == pin.attemptId && a.generation == pin.generation && a.status == AttemptCompleted
                  && a.piSessionId == Some(piSessionId) && a.sessionStored)
            && (r.Ok? ==>
                  && r.value.phase == Preparing && r.value.repairRound == Some(round) && r.value.noProgressCount == noProgressCount
                  && OpeningsOf(r.value) == Openings(None, None, None)
                  && r.value.candidate.None? && r.value.review.None? && r.value.leaderDecision.None? && r.value.pendingAction.None?
                  && r.value.publish.None? && r.value.manualMark.None? && !r.value.driftFromReview
                  && r.value.attempts == run.attempts && r.value.reviewHistory == run.reviewHistory
                  && r.value.autoRepairRounds == run.autoRepairRounds)
    ensures var next := StepRepair(PauseRepair(round, noProgressCount, code), run).value;
            && next.phase == Paused && next.pause == Some(PauseState(code, {InspectOnly, CancelAction}))
            && next.repairRound == Some(round) && next.noProgressCount == noProgressCount
            && next.(phase := run.phase, pause := run.pause, repairRound := run.repairRound, noProgressCount := run.noProgressCount) == run
  {
  }

  /** The phases a worker's, a review's and a publish's steps are committed in. */
  lemma StepsHaveTheirPhase(step: RunStep, run: RunRecord)
    requires Reaches(step, run)
    ensures step.WorkerMove? ==>
              run.phase == (if step.worker.ProbeFailed? || step.worker.GitUnsupported? || step.worker.WorkspaceReady? then Preparing else Running) ||
              (step.worker.ContainmentBlocked? && run.phase == Paused)
    ensures step.ReviewMove? && !step.review.PauseForDrift? ==>
              run.phase == (if step.review.BeginReview? then ReviewPending else if step.review.ResumeStoredDecision? then Paused else Reviewing)
    ensures step.RepairMove? ==> run.phase == Fixing
    ensures step.PublishMove? ==> run.phase in {ReadyToPublish, Publishing}
    ensures step.PublishMove? && (step.publish.SubmitPublish? || step.publish.CompletePublish?) ==> run.phase == Publishing
    ensures step.PublishMove? && (step.publish.PreparePublish? || step.publish.ConfirmManual?) ==> run.phase == ReadyToPublish
    ensures step == RecoveryMove(RecoverWorker) ==> run.phase == Running
    ensures step.RecoveryMove? && step.recovery.RecoverPublish? ==> run.phase == Publishing
    ensures step == ControlMove(CompleteCancel) || step == ControlMove(BlockCancel) ==> run.phase == Canceling
    ensures step.WorkerMove? && (step.worker.AttemptStarted? || step.worker.AttemptEnded? || step.worker.CaptureCandidate?) ==>
              && run.attempts != [] && run.attempts[|run.attempts| - 1].attemptId == step.worker.pin.attemptId
              && run.attempts[|run.attempts| - 1].generation == step.worker.pin.generation
  {
  }

  /** A recovered publish records exactly a valid result of its own operation and batch that says so. */
  lemma PublishIsRecovered(run: RunRecord, committed: bool, result: PublishResult)
    ensures var r := StepRecovery(RecoverPublish(committed, result), run);
            && (r.Ok? <==>
                  && run.publish.Some? && ValidResult(result)
                  && result.operationId == run.publish.value.operationId && result.operationsHash == run.publish.value.operationsHash
                  && result.status == (if committed then WorkspaceApply.Committed else WorkspaceApply.Conflicted))
            && (r.Ok? ==>
                  && r.value.publish == Some(run.publish.value.(status := if committed then AttemptCommitted else AttemptConflict,
                                                                  result := Some(result)))
                  && r.value.phase == (if committed then Completed else Paused)
                  && (!committed ==> r.value.pause == Some(PauseState("PUBLISH_CONFLICT", {InspectOnly, CancelAction}))))
  {
  }

  /** The attempt on record is only taken up again, submitted or completed as the same operation, batch and adapter. */
  lemma AttemptKeepsIdentity(run: RunRecord, step: PublishStep)
    requires StepPublish(step, run).Ok?
    ensures step.BeginPublishRecovery? ==>
              && run.publish.Some? && step.attempt.operationId == run.publish.value.operationId
              && step.attempt.operationsHash == run.publish.value.operationsHash && step.attempt.adapterId == run.publish.value.adapterId
    ensures step.SubmitPublish? ==>
              && run.publish.Some? && run.publish.value.operationId == step.operationId && run.publish.value.status == Prepared
              && run.publish.value.operationsHash == step.operationsHash && EvidenceHolds(run, step.evidence)
              && StepPublish(step, run).value == run.(publish := Some(run.publish.value.(status := Submitted)))
    ensures step.CompletePublish? ==>
              && run.publish.Some? && run.publish.value.operationId == step.operationId
              && StepPublish(step, run).value.publish == Some(run.publish.value.(status := step.status, result := Some(step.result)))
  {
  }

  // What a step leaves alone

  predicate MovesCandidate(step: RunStep) {
    step.RepairMove? || (step.WorkerMove? && step.worker.CaptureCandidate?)
  }

  predicate MovesReview(step: RunStep) {
    step.RepairMove? || (step.ReviewMove? && step.review.FinalizeReview?)
  }

  predicate MovesAttempts(step: RunStep) {
    || (step.WorkerMove? && (step.worker.BeginAttempt? || step.worker.AttemptStarted? || step.worker.AttemptEnded?))
    || step == RecoveryMove(RecoverWorker) || step == ControlMove(CompleteCancel)
  }

  predicate MovesPublish(step: RunStep) {
    step.PublishMove? || step.RepairMove? || (step.RecoveryMove? && step.recovery.RecoverPublish?)
  }

  /** Only these steps touch what was worked out, judged and published, and no review is ever taken back. */
  lemma StepChangesOnly(step: RunStep, run: RunRecord)
    requires Reaches(step, run)
    ensures var next := StepRun(step, run).value;
            && (next.candidate == run.candidate || MovesCandidate(step))
            && (next.review == run.review || MovesReview(step))
            && (next.leaderDecision == run.leaderDecision || MovesReview(step) || step == ReviewMove(ResumeStoredDecision))
            && (next.attempts == run.attempts || MovesAttempts(step))
            && (next.publish == run.publish || MovesPublish(step))
            && ((next.noProgressCount == run.noProgressCount && next.repairRound == run.repairRound) || step.RepairMove?)
            && (next.autoRepairRounds == run.autoRepairRounds || MovesReview(step) || step == ReviewMove(ResumeStoredDecision))
            && run.reviewHistory <= next.reviewHistory
            && (next.reviewHistory == run.reviewHistory || (step.ReviewMove? && step.review.FinalizeReview?))
  {
    match step
    case WorkerMove(worker) => WorkerChangesOnly(worker, run);
    case ReviewMove(review) => ReviewChangesOnly(review, run);
    case PublishMove(publish) => PublishChangesOnly(publish, run);
    case RecoveryMove(recovery) => RecoveryChangesOnly(recovery, run);
    case ControlMove(control) => ControlChangesOnly(control, run);
    case _ =>
  }

  predicate KeepsJudgement(run: RunRecord, next: RunRecord) {
    && next.review == run.review && next.leaderDecision == run.leaderDecision && next.reviewHistory == run.reviewHistory
    && next.autoRepairRounds == run.autoRepairRounds && next.noProgressCount == run.noProgressCount
    && next.repairRound == run.repairRound
  }

  lemma WorkerChangesOnly(step: WorkerStep, run: RunRecord)
    requires StepWorker(step, run).Ok?
    ensures var next := StepWorker(step, run).value;
            && KeepsJudgement(run, next) && next.publish == run.publish
            && (next.candidate == run.candidate || step.CaptureCandidate?)
            && (next.attempts == run.attempts || MovesAttempts(WorkerMove(step)))
  {
  }

  lemma ReviewChangesOnly(step: ReviewStep, run: RunRecord)
    requires StepReview(step, run).Ok?
    ensures var next := StepReview(step, run).value;
            && next.candidate == run.candidate && next.attempts == run.attempts && next.publish == run.publish
            && next.noProgressCount == run.noProgressCount && next.repairRound == run.repairRound
            && (step.FinalizeReview? || (next.review == run.review && next.reviewHistory == run.reviewHistory))
            && (step.FinalizeReview? || step.ResumeStoredDecision? || KeepsJudgement(run, next))
            && run.reviewHistory <= next.reviewHistory
  {
  }

  lemma PublishChangesOnly(step: PublishStep, run: RunRecord)
    requires StepPublish(step, run).Ok?
    ensures var next := StepPublish(step, run).value;
            KeepsJudgement(run, next) && next.candidate == run.candidate && next.attempts == run.attempts
  {
  }

  lemma RecoveryChangesOnly(step: RecoveryStep, run: RunRecord)
    requires StepRecovery(step, run).Ok?
    ensures var next := StepRecovery(step, run).value;
            && KeepsJudgement(run, next) && next.candidate == run.candidate
            && (next.attempts == run.attempts || step.RecoverWorker?)
            && (next.publish == run.publish || step.RecoverPublish?)
  {
  }

  lemma ControlChangesOnly(step: ControlStep, run: RunRecord)
    requires StepControl(step, run).Ok?
    ensures var next := StepControl(step, run).value;
            && KeepsJudgement(run, next) && next.candidate == run.candidate && next.publish == run.publish
            && (next.attempts == run.attempts || step.CompleteCancel?)
  {
  }
}
