/**
  What every builder keeps: the schema, the shape of the worker attempts, the review rounds and the
  fences, over every run of every project (packages/state-store/src/schema.ts and the builders of
  apps/daemon/src).
 */
module LifecycleInvariant {
  import opened Wrappers
  import opened Ordering
  import opened ProjectModel
  import opened ReviewRules
  import opened MutationExecutor
  import opened RunSteps
  import opened RunTransitions

  // Worker attempts

  predicate OnlyLastActive(attempts: seq<WorkerAttempt>) {
    forall i | 0 <= i < |attempts| - 1 :: !IsActive(attempts[i])
  }

  predicate HasActive(run: RunRecord) {
    LastAttempt(run).Some? && IsActive(LastAttempt(run).value)
  }

  // A paused run whose attempt still runs offers nothing that would start another one.
  const HARMLESS: set<ResumeAction> := {CancelAction, RetryCancel, InspectOnly, Retry}

  predicate MayBeActive(phase: RunPhase, pause: Option<PauseState>) {
    || phase == Running || phase == Canceling
    || (phase == Paused && pause.Some? && pause.value.resumeActions <= HARMLESS)
  }

  predicate AttemptsInv(run: RunRecord) {
    && UniqueAttemptIds(run.attempts)
    && (forall i | 0 <= i < |run.attempts| :: ValidAttempt(run.attempts[i]) && run.attempts[i].generation == i)
    && OnlyLastActive(run.attempts)
    && (HasActive(run) ==> MayBeActive(run.phase, run.pause))
  }

  // Review rounds

  predicate SoundReview(review: DurableReview, expected: seq<string>) {
    && review.reviewerSessionId != review.piSessionId
    && ValidReviewResult(review.gate.result)
    && CoversTasks(expected, review.gate.result)
    && review.gate == GateOf(review.gate.result)
  }

  predicate SoundEntry(entry: ReviewEntry, expected: seq<string>) {
    && entry.review.reviewAttemptId == entry.reviewAttemptId
    && entry.review.reviewerSessionId == entry.reviewerSessionId
    && SoundReview(entry.review, expected)
  }

  predicate SoundHistory(history: seq<ReviewEntry>, expected: seq<string>) {
    && (forall e | e in history :: SoundEntry(e, expected))
    && (forall i, j | 0 <= i < j < |history| :: history[i].reviewerSessionId == history[j].reviewerSessionId)
    && (forall i, j | 0 <= i < j < |history| :: history[i].reviewAttemptId != history[j].reviewAttemptId)
  }

  predicate ReviewsInv(run: RunRecord) {
    && Distinct(run.manifest.enabledTaskIds)
    && SoundHistory(run.reviewHistory, run.manifest.enabledTaskIds)
    && (run.review.Some? ==> run.reviewHistory != [] && run.reviewHistory[|run.reviewHistory| - 1].review == run.review.value)
    && (run.leaderDecision.Some? ==>
          && run.review.Some? && run.leaderDecision.value.review == run.review.value
          && run.leaderDecision.value.decision in run.review.value.gate.allowed)
    && (run.phase == Reviewing && run.pendingAction.Some? ==>
          !Reviewed(run.reviewHistory, run.pendingAction.value.reviewAttemptId))
    && run.autoRepairRounds <= REPAIR_ROUND_LIMIT
  }

  predicate PublishCommitted(run: RunRecord) {
    run.publish.Some? && run.publish.value.status == AttemptCommitted
  }

  predicate PublishInv(run: RunRecord) {
    && (run.publish.Some? ==> ValidPublishAttempt(run.publish.value))
    && (run.phase == Completed ==> PublishCommitted(run))
  }

  predicate RunInv(run: RunRecord) {
    run.fence > 0 && run.phase != Failed && AttemptsInv(run) && ReviewsInv(run) && PublishInv(run)
  }

  ghost predicate ProjectInv(s: ProjectState) {
    ValidProject(s) && FencesBounded(s) && forall job | job in s.runs :: RunInv(s.runs[job])
  }

  // What a step relies on beyond its guards. DaemonTasks derives it from the tasks that commit the steps and from the
  // schema.

  predicate StepDisciplined(step: RunStep, run: RunRecord) {
    match step
    // the number of a new attempt and its id
    case WorkerMove(BeginAttempt(attemptId, generation)) =>
      && generation == |run.attempts| && !HasActive(run)
      && forall a | a in run.attempts :: a.attemptId != attemptId
    // no worker is running when the approved source is compared, or when a review or publish task fails
    case ReviewMove(PauseForDrift(_)) => !HasActive(run)
    case ControlMove(PauseFailure(stage)) => stage.OtherStage? || !HasActive(run)
    // the records the publish service builds
    case PublishMove(PreparePublish(attempt)) => ValidPublishAttempt(attempt)
    case PublishMove(BeginPublishRecovery(attempt)) => ValidPublishAttempt(attempt)
    case PublishMove(CompletePublish(_, status, result)) =>
      run.publish.Some? ==> ValidPublishAttempt(run.publish.value.(status := status, result := Some(result)))
    case PublishMove(ConfirmManual(_, operationId, operationsHash, paths, matches, _)) =>
      matches ==> ValidPublishAttempt(ManualAttempt(operationId, operationsHash, paths))
    // the service answers COMMITTED only once the store has recorded it
    case PublishMove(SettlePublish(service)) => service == ServiceCommitted ==> PublishCommitted(run)
    case _ => true
  }

  predicate LeaseNames(lease: Option<PublishLease>, job: JobId) {
    lease.Some? && lease.value.jobId == job
  }

  predicate Disciplined(s: ProjectState, t: Transition) {
    match t
    case Execute(jobId, _, manifest) => jobId !in s.runs && Distinct(manifest.enabledTaskIds)
    case Move(job, step) =>
      job in s.runs ==>
        && StepDisciplined(step, s.runs[job])
        && (EndsRun(step) ==> !LeaseNames(LeaseAfter(s.publishLease, job, step, s.runs[job]), job))
    case _ => true
  }

  // The step passes the guards of its request, and its builder accepts.
  predicate Reaches(step: RunStep, run: RunRecord) {
    && !IsTerminal(run.phase)
    && (PhasesOf(step).Some? ==> run.phase in PhasesOf(step).value)
    && Pinned(run, PinOf(step))
    && StepRun(step, run).Ok?
  }

  predicate Ready(step: RunStep, run: RunRecord) {
    Reaches(step, run) && StepDisciplined(step, run)
  }

  // Group by group

  predicate Quiet(run: RunRecord, next: RunRecord) {
    next.attempts == run.attempts && (HasActive(run) ==> MayBeActive(next.phase, next.pause))
  }

  lemma QuietKeepsAttempts(run: RunRecord, next: RunRecord)
    requires AttemptsInv(run) && Quiet(run, next)
    ensures AttemptsInv(next)
  {
  }

  predicate SameReviews(run: RunRecord, next: RunRecord) {
    && next.manifest == run.manifest && next.reviewHistory == run.reviewHistory
    && next.review == run.review && next.leaderDecision == run.leaderDecision && next.autoRepairRounds == run.autoRepairRounds
    && (next.phase == Reviewing ==> run.phase == Reviewing && next.pendingAction == run.pendingAction)
  }

  lemma SameReviewsKeepReviews(run: RunRecord, next: RunRecord)
    requires ReviewsInv(run) && SameReviews(run, next)
    ensures ReviewsInv(next)
  {
  }

  lemma LastIsFirstMatch(run: RunRecord, pin: Pin)
    requires UniqueAttemptIds(run.attempts) && Pinned(run, Some(pin))
    ensures IndexOf(run.attempts, pin.attemptId) == Some(|run.attempts| - 1)
  {
    assert run.attempts[|run.attempts| - 1] in run.attempts;
  }

  lemma ReplaceLast(run: RunRecord, next: RunRecord, last: WorkerAttempt)
    requires AttemptsInv(run) && run.attempts != []
    requires next.attempts == run.attempts[|run.attempts| - 1 := last]
    requires last.attemptId == run.attempts[|run.attempts| - 1].attemptId
    requires last.generation == run.attempts[|run.attempts| - 1].generation
    requires ValidAttempt(last) && (IsActive(last) ==> MayBeActive(next.phase, next.pause))
    ensures AttemptsInv(next)
  {
  }

  // Worker steps

  predicate KeepsRest(run: RunRecord, next: RunRecord) {
    SameReviews(run, next) && next.publish == run.publish && !IsTerminal(next.phase)
  }

  lemma EndKeepsRest(run: RunRecord, pin: Pin, end: WorkerEnd)
    requires run.phase == Running && EndAttempt(run, pin, end).Ok?
    ensures KeepsRest(run, EndAttempt(run, pin, end).value)
  {
  }

  lemma CaptureKeepsRest(run: RunRecord, step: WorkerStep)
    requires run.phase == Running && step.CaptureCandidate? && Capture(run, step).Ok?
    ensures KeepsRest(run, Capture(run, step).value)
  {
  }

  lemma WorkerKeepsRest(step: WorkerStep, run: RunRecord)
    requires Ready(WorkerMove(step), run)
    ensures KeepsRest(run, StepWorker(step, run).value)
  {
    match step
    case AttemptEnded(pin, end) => EndKeepsRest(run, pin, end);
    case CaptureCandidate(_, _, _, _, _) => CaptureKeepsRest(run, step);
    case _ =>
  }

  lemma WorkerIsQuiet(step: WorkerStep, run: RunRecord)
    requires AttemptsInv(run) && Ready(WorkerMove(step), run)
    requires !step.BeginAttempt? && !step.AttemptStarted? && !step.AttemptEnded?
    ensures Quiet(run, StepWorker(step, run).value)
  {
  }

  lemma WorkerKeepsAttempts(step: WorkerStep, run: RunRecord)
    requires AttemptsInv(run) && Ready(WorkerMove(step), run)
    ensures AttemptsInv(StepWorker(step, run).value)
  {
    var next := StepWorker(step, run).value;
    if step.AttemptStarted? || step.AttemptEnded? {
      LastIsFirstMatch(run, step.pin);
      ReplaceLast(run, next, next.attempts[|run.attempts| - 1]);
    } else if !step.BeginAttempt? {
      WorkerIsQuiet(step, run);
      QuietKeepsAttempts(run, next);
    }
  }

  // Review steps

  predicate QuietAndUnpublished(run: RunRecord, next: RunRecord) {
    Quiet(run, next) && next.publish == run.publish && !IsTerminal(next.phase)
  }

  lemma FinishIsQuiet(run: RunRecord, turnToken: string, reviewer: SessionId, result: ReviewResult, now: int)
    requires AttemptsInv(run) && run.phase == Reviewing && FinishReview(run, turnToken, reviewer, result, now).Ok?
    ensures QuietAndUnpublished(run, FinishReview(run, turnToken, reviewer, result, now).value)
  {
  }

  lemma ReviewIsQuiet(step: ReviewStep, run: RunRecord)
    requires AttemptsInv(run) && Ready(ReviewMove(step), run)
    ensures QuietAndUnpublished(run, StepReview(step, run).value)
  {
    if step.FinalizeReview? {
      FinishIsQuiet(run, step.turnToken, step.reviewerSessionId, step.reviewed, step.now);
    }
  }

  lemma PausesKeepReviews(step: ReviewStep, run: RunRecord)
    requires Ready(ReviewMove(step), run) && (step.PauseForDrift? || step.PauseForHost?)
    ensures SameReviews(run, StepReview(step, run).value)
  {
  }

  lemma GateIsSound(reviewer: SessionId, worker: SessionId, bound: Option<SessionId>, r: ReviewResult)
    requires EvaluateGate(reviewer, worker, bound, r).Ok?
    ensures EvaluateGate(reviewer, worker, bound, r).value == GateOf(r) && reviewer != worker
  {
  }

  lemma FinalizedKeepsReviews(run: RunRecord, review: DurableReview)
    requires ReviewsInv(run) && SoundReview(review, run.manifest.enabledTaskIds)
    requires !Reviewed(run.reviewHistory, review.reviewAttemptId)
    requires forall e | e in run.reviewHistory :: e.reviewerSessionId == review.reviewerSessionId
    ensures ReviewsInv(Finalized(run, review))
  {
    PlanPassesGate(review.gate.result, run.autoRepairRounds);
    var entry := ReviewEntry(review.reviewAttemptId, review.reviewerSessionId, review);
    assert SoundEntry(entry, run.manifest.enabledTaskIds);
  }

  lemma FinishKeepsReviews(run: RunRecord, turnToken: string, reviewer: SessionId, result: ReviewResult, now: int)
    requires ReviewsInv(run) && run.phase == Reviewing
    requires FinishReview(run, turnToken, reviewer, result, now).Ok?
    ensures ReviewsInv(FinishReview(run, turnToken, reviewer, result, now).value)
  {
    var action, worker, bound := run.pendingAction.value, WorkerSession(run).value, BoundReviewer(run.reviewHistory).value;
    GateIsSound(reviewer, worker, bound, result);
    var review := DurableReview(turnToken, action.reviewAttemptId, action.candidateHash, reviewer, worker, GateOf(result));
    FinalizedKeepsReviews(run, review);
  }

  lemma ResumeKeepsReviews(run: RunRecord)
    requires ReviewsInv(run) && ResumeDecision(run).Ok?
    ensures ReviewsInv(ResumeDecision(run).value)
  {
    PlanPassesGate(run.review.value.gate.result, 0);
  }

  lemma ReviewKeepsReviews(step: ReviewStep, run: RunRecord)
    requires ReviewsInv(run) && Ready(ReviewMove(step), run)
    ensures ReviewsInv(StepReview(step, run).value)
  {
    match step
    case BeginReview(_, _) =>
    case FinalizeReview(turnToken, reviewer, result, now) => FinishKeepsReviews(run, turnToken, reviewer, result, now);
    case ResumeStoredDecision => ResumeKeepsReviews(run);
    case _ =>
      PausesKeepReviews(step, run);
      SameReviewsKeepReviews(run, StepReview(step, run).value);
  }

  // Repair steps

  lemma RepairIsQuiet(step: RepairStep, run: RunRecord)
    requires AttemptsInv(run) && Ready(RepairMove(step), run)
    ensures var next := StepRepair(step, run).value;
            Quiet(run, next) && (next.publish == run.publish || next.publish.None?) && !IsTerminal(next.phase)
  {
  }

  lemma RepairKeepsReviews(step: RepairStep, run: RunRecord)
    requires ReviewsInv(run) && Ready(RepairMove(step), run)
    ensures ReviewsInv(StepRepair(step, run).value)
  {
  }

  // Publish steps

  lemma PublishKeepsRest(step: PublishStep, run: RunRecord)
    requires AttemptsInv(run) && Ready(PublishMove(step), run)
    ensures var next := StepPublish(step, run).value;
            Quiet(run, next) && SameReviews(run, next) && (IsTerminal(next.phase) <==> EndsRun(PublishMove(step)))
  {
  }

  lemma PublishKeepsAttempt(step: PublishStep, run: RunRecord)
    requires PublishInv(run) && Ready(PublishMove(step), run)
    ensures PublishInv(StepPublish(step, run).value)
  {
  }

  // Recovery and control steps

  lemma RecoveryKeepsRest(step: RecoveryStep, run: RunRecord)
    requires PublishInv(run) && Ready(RecoveryMove(step), run)
    ensures var next := StepRecovery(step, run).value;
            SameReviews(run, next) && PublishInv(next) && (IsTerminal(next.phase) <==> EndsRun(RecoveryMove(step)))
  {
  }

  lemma RecoveryKeepsAttempts(step: RecoveryStep, run: RunRecord)
    requires AttemptsInv(run) && Ready(RecoveryMove(step), run)
    ensures AttemptsInv(StepRecovery(step, run).value)
  {
    var next := StepRecovery(step, run).value;
    if step.RecoverWorker? && HasActive(run) {
      ReplaceLast(run, next, next.attempts[|run.attempts| - 1]);
    } else {
      QuietKeepsAttempts(run, next);
    }
  }

  lemma ControlKeepsRest(step: ControlStep, run: RunRecord)
    requires Ready(ControlMove(step), run)
    ensures var next := StepControl(step, run).value;
            SameReviews(run, next) && next.publish == run.publish && (IsTerminal(next.phase) <==> EndsRun(ControlMove(step)))
  {
  }

  lemma ResumedIsQuiet(run: RunRecord, action: ResumeAction, requestId: string, actionId: string, clearHostTurn: bool)
    requires AttemptsInv(run) && Resumed(run, action, requestId, actionId, clearHostTurn).Ok?
    ensures Quiet(run, Resumed(run, action, requestId, actionId, clearHostTurn).value)
  {
  }

  lemma ControlIsQuiet(step: ControlStep, run: RunRecord)
    requires AttemptsInv(run) && Ready(ControlMove(step), run) && !step.CompleteCancel?
    ensures Quiet(run, StepControl(step, run).value)
  {
    if step.ResumeRun? {
      ResumedIsQuiet(run, step.action, step.requestId, step.actionId, step.clearHostTurn);
    }
  }

  lemma ControlKeepsAttempts(step: ControlStep, run: RunRecord)
    requires AttemptsInv(run) && Ready(ControlMove(step), run)
    ensures AttemptsInv(StepControl(step, run).value)
  {
    var next := StepControl(step, run).value;
    if step.CompleteCancel? && HasActive(run) {
      ReplaceLast(run, next, next.attempts[|run.attempts| - 1]);
    } else if step.CompleteCancel? {
      QuietKeepsAttempts(run, next);
    } else {
      ControlIsQuiet(step, run);
      QuietKeepsAttempts(run, next);
    }
  }

  /** Every builder, from any run that satisfies the invariant, leads to a run that satisfies it. */
  lemma StepKeepsRunInv(step: RunStep, run: RunRecord)
    requires RunInv(run) && Ready(step, run)
    ensures RunInv(StepRun(step, run).value)
    ensures IsTerminal(StepRun(step, run).value.phase) <==> EndsRun(step)
  {
    StepsFollowGraph(step, run);
    match step
    case WorkerMove(worker) =>
      WorkerKeepsRest(worker, run);
      WorkerKeepsAttempts(worker, run);
      SameReviewsKeepReviews(run, StepWorker(worker, run).value);
    case ReviewMove(review) =>
      ReviewIsQuiet(review, run);
      QuietKeepsAttempts(run, StepReview(review, run).value);
      ReviewKeepsReviews(review, run);
    case RepairMove(repair) =>
      RepairIsQuiet(repair, run);
      QuietKeepsAttempts(run, StepRepair(repair, run).value);
      RepairKeepsReviews(repair, run);
    case PublishMove(publish) =>
      PublishKeepsRest(publish, run);
      QuietKeepsAttempts(run, StepPublish(publish, run).value);
      SameReviewsKeepReviews(run, StepPublish(publish, run).value);
      PublishKeepsAttempt(publish, run);
    case RecoveryMove(recovery) =>
      RecoveryKeepsRest(recovery, run);
      RecoveryKeepsAttempts(recovery, run);
      SameReviewsKeepReviews(run, StepRecovery(recovery, run).value);
    case ControlMove(control) =>
      ControlKeepsRest(control, run);
      ControlKeepsAttempts(control, run);
      SameReviewsKeepReviews(run, StepControl(control, run).value);
  }

  // Which phases lead to which

  function EntryPhases(phase: RunPhase): set<RunPhase> {
    match phase
    case Preparing => {Running, Fixing, Paused}
    case Running => {Preparing}
    case Fixing => {Running, Reviewing, Paused}
    case ReviewPending => {Running, Paused}
    case Reviewing => {ReviewPending}
    case ReadyToPublish => {Running, Reviewing, Paused}
    case Publishing => {ReadyToPublish}
    case Paused => LIVE + {Canceling}
    case Canceling => LIVE + {Paused}
    case Completed => {ReadyToPublish, Publishing}
    case Canceled => {Canceling}
    case Failed => {}
  }

  predicate FollowsGraph(run: RunRecord, next: RunRecord) {
    next.phase == run.phase || run.phase in EntryPhases(next.phase)
  }

  lemma WorkerFollowsGraph(step: WorkerStep, run: RunRecord)
    requires Ready(WorkerMove(step), run)
    ensures FollowsGraph(run, StepWorker(step, run).value)
  {
  }

  lemma ReviewFollowsGraph(step: ReviewStep, run: RunRecord)
    requires Ready(ReviewMove(step), run)
    ensures FollowsGraph(run, StepReview(step, run).value)
  {
  }

  lemma PublishFollowsGraph(step: PublishStep, run: RunRecord)
    requires Ready(PublishMove(step), run)
    ensures FollowsGraph(run, StepPublish(step, run).value)
  {
  }

  lemma ResumedFollowsGraph(run: RunRecord, action: ResumeAction, requestId: string, actionId: string, clearHostTurn: bool)
    requires Resumed(run, action, requestId, actionId, clearHostTurn).Ok?
    ensures FollowsGraph(run, Resumed(run, action, requestId, actionId, clearHostTurn).value)
  {
  }

  lemma OtherFollowsGraph(step: RunStep, run: RunRecord)
    requires Ready(step, run) && (step.RepairMove? || step.RecoveryMove? || step.ControlMove?)
    ensures FollowsGraph(run, StepRun(step, run).value)
  {
    if step.ControlMove? && step.control.ResumeRun? {
      var c := step.control;
      ResumedFollowsGraph(run, c.action, c.requestId, c.actionId, c.clearHostTurn);
    }
  }

  /** Every builder moves a run along the phase graph; nothing leads to FAILED. */
  lemma StepsFollowGraph(step: RunStep, run: RunRecord)
    requires Ready(step, run)
    ensures FollowsGraph(run, StepRun(step, run).value)
  {
    match step
    case WorkerMove(worker) => WorkerFollowsGraph(worker, run);
    case ReviewMove(review) => ReviewFollowsGraph(review, run);
    case PublishMove(publish) => PublishFollowsGraph(publish, run);
    case _ => OtherFollowsGraph(step, run);
  }
}
