/**
  Which of the actions a pause offers can be carried out, and where they lead: the pauses the builders
  make against the routes a resume is given (apps/daemon/src/runtime/project-runtime.ts, closedResumeRoute).
 */
module ResumeRoutes {
  import opened Wrappers
  import opened ProjectModel
  import opened ReviewRules
  import opened RunSteps
  import opened LifecycleInvariant

  const DRIFT_ACTIONS := {RestoreApprovedTasks, CancelAction, RetryCancel, InspectOnly}

  // A run that has not just been paused for drift carries no mark of one.
  predicate DriftMarkFits(run: RunRecord) {
    run.driftFromReview ==>
      && run.phase in {Paused, Canceling, Canceled}
      && (run.phase == Paused ==> (run.pause.Some? && run.pause.value.resumeActions <= DRIFT_ACTIONS))
  }

  function Resume(run: RunRecord, action: ResumeAction, requestId: string, actionId: string): Result<RunRecord, string> {
    if action == ResumeReviewDecision then ResumeDecision(run) else Resumed(run, action, requestId, actionId, true)
  }

  predicate IsGitCode(code: string) {
    |code| >= 4 && code[..4] == "GIT_"
  }

  /** Whether an action that a step offers with its pause can be carried out on the paused run. */
  predicate OfferHolds(step: RunStep, run: RunRecord, action: ResumeAction) {
    match action
    case CancelAction => true
    // only looked at, never submitted
    case InspectOnly => false
    // offered after any other failed stage, accepted by no route
    case Retry => false
    case RetryCancel => true
    case RestoreApprovedTasks => true
    case ResumeReviewDecision => true
    case RetryProviderProbe =>
      step.WorkerMove? && step.worker.ProbeFailed? && step.worker.code in {"PROVIDER_UNAVAILABLE", "PROVIDER_RUNTIME_CONFIG_DRIFT"}
    case RetryGitProbe => step.WorkerMove? && step.worker.GitUnsupported? && IsGitCode(step.worker.code)
    // a worker that failed or timed out under any other code, or was canceled, cannot be retried
    case RetryProvider =>
      && step.WorkerMove? && step.worker.AttemptEnded?
      && (step.worker.end.WorkFailed? || step.worker.end.WorkTimedOut?) && step.worker.end.code in PROVIDER_CODES
    case RetryHostReview => run.pendingAction.Some?
    // not after a manual confirmation that found the target different
    case RetryPublish => !(step.PublishMove? && step.publish.ConfirmManual?)
    case ConfirmManualPublish => run.publish.None?
  }

  /** Where the action leads. */
  function OfferLeadsTo(step: RunStep, run: RunRecord, action: ResumeAction): RunPhase {
    match action
    case CancelAction => Canceling
    case RetryCancel => Canceling
    case RestoreApprovedTasks => if run.phase == ReviewPending || run.phase == Reviewing then ReviewPending else Preparing
    case ResumeReviewDecision => Fixing
    case RetryHostReview => ReviewPending
    case RetryPublish => ReadyToPublish
    case ConfirmManualPublish => ReadyToPublish
    case _ => Preparing
  }

  predicate Offers(next: RunRecord, action: ResumeAction) {
    next.phase == Paused && next.pause.Some? && action in next.pause.value.resumeActions
  }

  predicate OfferIsExact(step: RunStep, run: RunRecord, next: RunRecord, action: ResumeAction, requestId: string, actionId: string) {
    var resumed := Resume(next, action, requestId, actionId);
    && (resumed.Ok? <==> OfferHolds(step, run, action))
    && (resumed.Ok? ==> resumed.value.phase == OfferLeadsTo(step, run, action))
  }

  // A resumed pause goes by its route.
  lemma PausedAnswers(run: RunRecord, pause: PauseState, action: ResumeAction, requestId: string, actionId: string)
    requires run.phase == Paused && run.pause == Some(pause) && action in pause.resumeActions
    requires action != ResumeReviewDecision
    ensures var resumed := Resume(run, action, requestId, actionId);
            && (resumed.Ok? <==> ResumePhase(run, action).Some?)
            && (resumed.Ok? ==> resumed.value.phase == ResumePhase(run, action).value)
  {
  }

  lemma CanceledIsNoProviderCode()
    ensures "ATTEMPT_CANCELED" !in PROVIDER_CODES
  {
    assert |"ATTEMPT_CANCELED"| == 16;
  }

  lemma EndOffers(step: WorkerStep, run: RunRecord, action: ResumeAction, requestId: string, actionId: string)
    requires step.AttemptEnded? && EndAttempt(run, step.pin, step.end).Ok?
    requires Offers(EndAttempt(run, step.pin, step.end).value, action) && run.phase == Running
    ensures OfferIsExact(WorkerMove(step), run, EndAttempt(run, step.pin, step.end).value, action, requestId, actionId)
  {
    var next := EndAttempt(run, step.pin, step.end).value;
    assert next.attempts != [];
    CanceledIsNoProviderCode();
    PausedAnswers(next, next.pause.value, action, requestId, actionId);
  }

  lemma ProbeOffers(step: WorkerStep, run: RunRecord, next: RunRecord, action: ResumeAction, requestId: string, actionId: string)
    requires step.ProbeFailed? || step.GitUnsupported? || step.ContainmentBlocked?
    requires StepWorker(step, run) == Ok(next) && Offers(next, action)
    ensures OfferIsExact(WorkerMove(step), run, next, action, requestId, actionId)
  {
    PausedAnswers(next, next.pause.value, action, requestId, actionId);
  }

  lemma WorkerOffers(step: WorkerStep, run: RunRecord, action: ResumeAction, requestId: string, actionId: string)
    requires Ready(WorkerMove(step), run) && Offers(StepWorker(step, run).value, action)
    ensures OfferIsExact(WorkerMove(step), run, StepWorker(step, run).value, action, requestId, actionId)
  {
    if step.AttemptEnded? {
      EndOffers(step, run, action, requestId, actionId);
    } else {
      ProbeOffers(step, run, StepWorker(step, run).value, action, requestId, actionId);
    }
  }

  lemma LimitOffers(run: RunRecord, turnToken: string, reviewer: SessionId, result: ReviewResult, now: int, action: ResumeAction,
                    requestId: string, actionId: string)
    requires RunInv(run) && run.phase == Reviewing
    requires FinishReview(run, turnToken, reviewer, result, now).Ok?
    requires Offers(FinishReview(run, turnToken, reviewer, result, now).value, action)
    ensures var next := FinishReview(run, turnToken, reviewer, result, now).value;
            OfferIsExact(ReviewMove(FinalizeReview(turnToken, reviewer, result, now)), run, next, action, requestId, actionId)
            && (action == ResumeReviewDecision ==> Resume(next, action, requestId, actionId).value.autoRepairRounds == 1)
  {
    FinishKeepsReviews(run, turnToken, reviewer, result, now);
    var next := FinishReview(run, turnToken, reviewer, result, now).value;
    PlanPassesGate(next.review.value.gate.result, 0);
  }

  lemma DriftOffers(run: RunRecord, newAction: string, action: ResumeAction, requestId: string, actionId: string)
    requires DriftMarkFits(run) && run.phase in LIVE && Drifted(run, newAction).Ok?
    requires Offers(Drifted(run, newAction).value, action)
    ensures OfferIsExact(ReviewMove(PauseForDrift(newAction)), run, Drifted(run, newAction).value, action, requestId, actionId)
  {
    var next := Drifted(run, newAction).value;
    PausedAnswers(next, next.pause.value, action, requestId, actionId);
  }

  lemma HostOffers(run: RunRecord, turnToken: string, newAction: string, action: ResumeAction, requestId: string, actionId: string)
    requires HostLost(run, turnToken, newAction).Ok? && Offers(HostLost(run, turnToken, newAction).value, action)
    ensures OfferIsExact(ReviewMove(PauseForHost(turnToken, newAction)), run, HostLost(run, turnToken, newAction).value,
                         action, requestId, actionId)
  {
    var next := HostLost(run, turnToken, newAction).value;
    PausedAnswers(next, next.pause.value, action, requestId, actionId);
  }

  lemma MismatchIsNoRetry()
    ensures "MANUAL_PUBLISH_TARGET_MISMATCH" !in {"PUBLISH_ADAPTER_UNAVAILABLE", "PUBLISH_PRECHECK_CONFLICT",
                                                  "PUBLISH_RECOVERY_BLOCKED", "PROJECT_PUBLISH_BUSY", "RUNTIME_STAGE_FAILED"}
  {
    assert |"MANUAL_PUBLISH_TARGET_MISMATCH"| == 30;
  }

  lemma ServiceOffers(service: ServiceStatus, run: RunRecord, next: RunRecord, action: ResumeAction, requestId: string, actionId: string)
    requires next.phase == Paused && next.pause == Some(PauseForService(service)) && next.publish == run.publish
    requires action in PauseForService(service).resumeActions
    ensures OfferIsExact(PublishMove(SettlePublish(service)), run, next, action, requestId, actionId)
  {
    PausedAnswers(next, PauseForService(service), action, requestId, actionId);
  }

  lemma MismatchOffers(step: PublishStep, run: RunRecord, action: ResumeAction, requestId: string, actionId: string)
    requires step.ConfirmManual? && StepPublish(step, run).Ok? && Offers(StepPublish(step, run).value, action)
    ensures OfferIsExact(PublishMove(step), run, StepPublish(step, run).value, action, requestId, actionId)
  {
    var next := StepPublish(step, run).value;
    MismatchIsNoRetry();
    PausedAnswers(next, next.pause.value, action, requestId, actionId);
  }

  lemma PublishOffers(step: PublishStep, run: RunRecord, action: ResumeAction, requestId: string, actionId: string)
    requires Ready(PublishMove(step), run) && Offers(StepPublish(step, run).value, action)
    ensures OfferIsExact(PublishMove(step), run, StepPublish(step, run).value, action, requestId, actionId)
  {
    if step.SettlePublish? {
      ServiceOffers(step.service, run, StepPublish(step, run).value, action, requestId, actionId);
    } else {
      MismatchOffers(step, run, action, requestId, actionId);
    }
  }

  lemma FailureOffers(stage: Stage, run: RunRecord, action: ResumeAction, requestId: string, actionId: string)
    requires run.phase in LIVE && Offers(StageFailed(run, stage), action)
    ensures OfferIsExact(ControlMove(PauseFailure(stage)), run, StageFailed(run, stage), action, requestId, actionId)
  {
    var next := StageFailed(run, stage);
    PausedAnswers(next, next.pause.value, action, requestId, actionId);
  }

  lemma BlockedCancelOffers(run: RunRecord, next: RunRecord, action: ResumeAction, requestId: string, actionId: string)
    requires StepControl(BlockCancel, run) == Ok(next) && Offers(next, action)
    ensures OfferIsExact(ControlMove(BlockCancel), run, next, action, requestId, actionId)
  {
    PausedAnswers(next, next.pause.value, action, requestId, actionId);
  }

  lemma OtherOffers(step: RunStep, run: RunRecord, action: ResumeAction, requestId: string, actionId: string)
    requires Ready(step, run)
    requires step.RepairMove? || (step.RecoveryMove? && !step.recovery.NewEpoch?)
    requires Offers(StepRun(step, run).value, action)
    ensures OfferIsExact(step, run, StepRun(step, run).value, action, requestId, actionId)
  {
    var next := StepRun(step, run).value;
    assert next.pause.value.resumeActions == {InspectOnly, CancelAction};
    PausedAnswers(next, next.pause.value, action, requestId, actionId);
  }

  // The steps that pause a run
  predicate Pauses(step: RunStep) {
    match step
    case RecoveryMove(recovery) => !recovery.NewEpoch?
    case ControlMove(control) => control.BlockCancel? || control.PauseFailure?
    case ReviewMove(review) => review.FinalizeReview? || review.PauseForDrift? || review.PauseForHost?
    case _ => true
  }

  /**
    For every pause a builder makes and every action it offers: the action can be carried out exactly when
    the stated condition holds, and leads to the stated phase.
   */
  lemma OffersAreExact(step: RunStep, run: RunRecord, action: ResumeAction, requestId: string, actionId: string)
    requires RunInv(run) && DriftMarkFits(run) && Ready(step, run) && Pauses(step)
    requires Offers(StepRun(step, run).value, action)
    ensures OfferIsExact(step, run, StepRun(step, run).value, action, requestId, actionId)
  {
    match step
    case WorkerMove(worker) => WorkerOffers(worker, run, action, requestId, actionId);
    case ReviewMove(FinalizeReview(turnToken, reviewer, result, now)) =>
      LimitOffers(run, turnToken, reviewer, result, now, action, requestId, actionId);
    case ReviewMove(PauseForDrift(newAction)) => DriftOffers(run, newAction, action, requestId, actionId);
    case ReviewMove(PauseForHost(turnToken, newAction)) => HostOffers(run, turnToken, newAction, action, requestId, actionId);
    case PublishMove(publish) => PublishOffers(publish, run, action, requestId, actionId);
    case ControlMove(PauseFailure(stage)) => FailureOffers(stage, run, action, requestId, actionId);
    case ControlMove(BlockCancel) => BlockedCancelOffers(run, StepRun(step, run).value, action, requestId, actionId);
    case _ => OtherOffers(step, run, action, requestId, actionId);
  }

  // The mark

  lemma WorkerKeepsMark(step: WorkerStep, run: RunRecord)
    requires DriftMarkFits(run) && Ready(WorkerMove(step), run)
    ensures DriftMarkFits(StepWorker(step, run).value)
  {
  }

  lemma ReviewKeepsMark(step: ReviewStep, run: RunRecord)
    requires DriftMarkFits(run) && Ready(ReviewMove(step), run)
    ensures DriftMarkFits(StepReview(step, run).value)
  {
  }

  lemma ResumedKeepsMark(run: RunRecord, action: ResumeAction, requestId: string, actionId: string, clearHostTurn: bool)
    requires DriftMarkFits(run) && Resumed(run, action, requestId, actionId, clearHostTurn).Ok?
    ensures DriftMarkFits(Resumed(run, action, requestId, actionId, clearHostTurn).value)
  {
  }

  lemma OtherKeepsMark(step: RunStep, run: RunRecord)
    requires DriftMarkFits(run) && Ready(step, run) && !step.WorkerMove? && !step.ReviewMove?
    ensures DriftMarkFits(StepRun(step, run).value)
  {
    if step.ControlMove? && step.control.ResumeRun? {
      var c := step.control;
      ResumedKeepsMark(run, c.action, c.requestId, c.actionId, c.clearHostTurn);
    }
  }

  /** Every builder keeps the drift mark where it belongs. */
  lemma StepsKeepDriftMark(step: RunStep, run: RunRecord)
    requires DriftMarkFits(run) && Ready(step, run)
    ensures DriftMarkFits(StepRun(step, run).value)
  {
    match step
    case WorkerMove(worker) => WorkerKeepsMark(worker, run);
    case ReviewMove(review) => ReviewKeepsMark(review, run);
    case _ => OtherKeepsMark(step, run);
  }
}
