/**
  Reviews between two user inputs: with reviews on, a run gets from PREPARING to READY_TO_PUBLISH only through a full
  review of the candidate it then holds (apps/daemon/src/worker/worker-runner.ts, captureCandidate;
  apps/daemon/src/review/review-coordinator.ts).
 */
module AutomaticReviews {
  import opened Wrappers
  import opened Ordering
  import opened ProjectModel
  import opened ReviewRules
  import opened RunSteps
  import opened LifecycleResults
  import opened StepMeaning
  import opened RepairLoop

  predicate ReviewsAreOn(steps: seq<RunStep>) {
    forall i | 0 <= i < |steps| && steps[i].WorkerMove? && steps[i].worker.CaptureCandidate? :: steps[i].worker.reviewEnabled
  }

  // The review that is awaited is one of the candidate that is held.
  predicate AwaitsReview(run: RunRecord) {
    && run.pendingAction.Some? && run.candidate.Some?
    && run.pendingAction.value.candidateHash == run.candidate.value.candidateHash
  }

  predicate IsReviewed(run: RunRecord) {
    && run.review.Some? && run.candidate.Some?
    && run.review.value.candidateHash == run.candidate.value.candidateHash
    && FullyReviewed(run.review.value, run.manifest.enabledTaskIds)
    && run.leaderDecision == Some(LeaderDecision(run.review.value, Accept))
  }

  predicate ReviewFits(run: RunRecord) {
    && (run.phase == ReviewPending || run.phase == Reviewing ==> AwaitsReview(run))
    && (run.phase == ReadyToPublish ==> IsReviewed(run))
  }

  lemma WorkerKeepsReviewFit(run: RunRecord, step: WorkerStep, next: RunRecord)
    requires Takes(run, WorkerMove(step), next) && (step.CaptureCandidate? ==> step.reviewEnabled)
    ensures ReviewFits(next) && next.phase != ReadyToPublish
  {
    if step.CaptureCandidate? {
      CaptureLeads(run, step);
    }
  }

  lemma TakenReviewIsFull(run: RunRecord, turnToken: string, reviewer: SessionId, result: ReviewResult, now: int)
    requires Distinct(run.manifest.enabledTaskIds) && FinishReview(run, turnToken, reviewer, result, now).Ok?
    requires FinishReview(run, turnToken, reviewer, result, now).value.phase == ReadyToPublish
    ensures FullyReviewed(FinishReview(run, turnToken, reviewer, result, now).value.review.value, run.manifest.enabledTaskIds)
  {
    ReviewIsTaken(run, turnToken, reviewer, result, now);
    ReviewIsRecorded(run, turnToken, reviewer, result, now);
    CoverageIsPermutation(run.manifest.enabledTaskIds, result);
    assert AllComplete(result);
  }

  lemma FinishKeepsReviewFit(run: RunRecord, turnToken: string, reviewer: SessionId, result: ReviewResult, now: int)
    requires Distinct(run.manifest.enabledTaskIds) && AwaitsReview(run)
    requires FinishReview(run, turnToken, reviewer, result, now).Ok?
    ensures ReviewFits(FinishReview(run, turnToken, reviewer, result, now).value)
  {
    var next := FinishReview(run, turnToken, reviewer, result, now).value;
    ReviewIsRecorded(run, turnToken, reviewer, result, now);
    if next.phase == ReadyToPublish {
      TakenReviewIsFull(run, turnToken, reviewer, result, now);
    }
  }

  lemma StepKeepsReviewFit(run: RunRecord, step: RunStep, next: RunRecord)
    requires Distinct(run.manifest.enabledTaskIds) && ReviewFits(run) && Takes(run, step, next)
    requires step.WorkerMove? && step.worker.CaptureCandidate? ==> step.worker.reviewEnabled
    ensures ReviewFits(next) && next.manifest == run.manifest
    ensures next.phase == ReadyToPublish ==> step.ReviewMove? && step.review.FinalizeReview?
  {
    match step
    case WorkerMove(worker) => WorkerKeepsReviewFit(run, worker, next);
    case ReviewMove(FinalizeReview(token, reviewer, result, now)) => FinishKeepsReviewFit(run, token, reviewer, result, now);
    case ReviewMove(BeginReview(token, deadline)) => ReviewBegins(run, token, deadline);
  }

  lemma {:induction false} AutomaticRunsFit(runs: seq<RunRecord>, steps: seq<RunStep>, i: nat)
    requires AutomaticRun(runs, steps) && ReviewsAreOn(steps) && Distinct(runs[0].manifest.enabledTaskIds) && i < |runs|
    ensures ReviewFits(runs[i]) && runs[i].manifest == runs[0].manifest
    ensures runs[i].phase == ReadyToPublish ==> i > 0 && steps[i - 1].ReviewMove? && steps[i - 1].review.FinalizeReview?
  {
    if i > 0 {
      AutomaticRunsFit(runs, steps, i - 1);
      assert Takes(runs[i - 1], steps[i - 1], runs[i - 1 + 1]);
      StepKeepsReviewFit(runs[i - 1], steps[i - 1], runs[i]);
    }
  }

  /**
    When every capture has reviews on, a run from PREPARING reaches READY_TO_PUBLISH only by a review that was just
    finished: one of the candidate it holds, of every enabled task, each complete and without an issue, that the
    leader accepted.
   */
  lemma ReadyRunsAreReviewed(runs: seq<RunRecord>, steps: seq<RunStep>, i: nat)
    requires AutomaticRun(runs, steps) && ReviewsAreOn(steps) && Distinct(runs[0].manifest.enabledTaskIds)
    requires i < |runs| && runs[i].phase == ReadyToPublish
    ensures i > 0 && steps[i - 1].ReviewMove? && steps[i - 1].review.FinalizeReview?
    ensures runs[i].review.Some? && runs[i].review.value.gate.result == steps[i - 1].review.reviewed
    ensures runs[i].candidate.Some? && runs[i].review.value.candidateHash == runs[i].candidate.value.candidateHash
    ensures FullyReviewed(runs[i].review.value, runs[0].manifest.enabledTaskIds)
    ensures runs[i].leaderDecision == Some(LeaderDecision(runs[i].review.value, Accept))
  {
    AutomaticRunsFit(runs, steps, i);
    assert Takes(runs[i - 1], steps[i - 1], runs[i - 1 + 1]);
    var review := steps[i - 1].review;
    ReviewIsRecorded(runs[i - 1], review.turnToken, review.reviewerSessionId, review.reviewed, review.now);
  }
}
