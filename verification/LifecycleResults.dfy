/**
  The lifecycle invariant over whole histories, and what it gives (apps/daemon/src,
  packages/state-store/src/schema.ts).
 */
module LifecycleResults {
  import opened Wrappers
  import opened Ordering
  import opened ProjectModel
  import opened ReviewRules
  import opened MutationExecutor
  import opened RunSteps
  import opened RunTransitions
  import opened LifecycleInvariant
  import opened ProjectLifecycle
  import opened DaemonTasks
  import WorkspaceApply

  // Whole histories

  const EMPTY_PROJECT := ProjectState(0, 0, map[], None, map[], map[])

  /** The commits of a project from its beginning, with the tasks that ran when each was made. */
  ghost predicate LifecycleHistory(
    states: seq<ProjectState>, requests: seq<Request>, transitions: seq<Transition>, tasks: seq<Tasks>)
  {
    && |states| == |tasks| == |requests| + 1 == |transitions| + 1
    && states[0] == EMPTY_PROJECT && tasks[0] == NO_TASKS
    && forall i | 0 <= i < |requests| ::
         && LifecycleStep(states[i], requests[i], transitions[i], states[i + 1])
         && Supervised(tasks[i], states[i], requests[i], transitions[i])
         && TasksMayBecome(states[i + 1], TasksAfter(tasks[i], requests[i], transitions[i], states[i + 1]), tasks[i + 1])
  }

  lemma StepOf(states: seq<ProjectState>, requests: seq<Request>, transitions: seq<Transition>, tasks: seq<Tasks>, i: nat)
    requires LifecycleHistory(states, requests, transitions, tasks) && i < |requests|
    ensures LifecycleStep(states[i], requests[i], transitions[i], states[i + 1])
    ensures Supervised(tasks[i], states[i], requests[i], transitions[i])
    ensures TasksMayBecome(states[i + 1], TasksAfter(tasks[i], requests[i], transitions[i], states[i + 1]), tasks[i + 1])
  {
  }

  ghost predicate HistoryInv(s: ProjectState, tasks: Tasks) {
    ProjectInv(s) && TasksFit(s, tasks) && AllWorkedFirst(s)
  }

  lemma SupervisedStepKeepsAll(s: ProjectState, request: Request, t: Transition, next: ProjectState, tasks: Tasks, later: Tasks)
    requires HistoryInv(s, tasks) && LifecycleStep(s, request, t, next) && Supervised(tasks, s, request, t)
    requires TasksMayBecome(next, TasksAfter(tasks, request, t, next), later)
    ensures HistoryInv(next, later)
  {
    SupervisedStepKeepsInvariant(s, request, t, next, tasks);
    CommitKeepsTasks(s, request, t, next, tasks);
    CommitKeepsWorkedFirst(s, request, t, next, tasks);
    NewTasksFit(next, TasksAfter(tasks, request, t, next), later);
  }

  lemma EmptyProjectIsInv()
    ensures HistoryInv(EMPTY_PROJECT, NO_TASKS)
  {
  }

  /**
    Every state of every history satisfies the whole invariant, whichever tasks commit, end and are scheduled in
    between. Nothing is assumed of the builders but fresh identifiers and one worker and one publish task per job and
    epoch.
   */
  lemma {:induction false} HistoriesKeepInvariant(
    states: seq<ProjectState>, requests: seq<Request>, transitions: seq<Transition>, tasks: seq<Tasks>, i: nat)
    requires LifecycleHistory(states, requests, transitions, tasks) && i < |states|
    ensures HistoryInv(states[i], tasks[i])
  {
    if i == 0 {
      EmptyProjectIsInv();
    } else {
      HistoriesKeepInvariant(states, requests, transitions, tasks, i - 1);
      StepOf(states, requests, transitions, tasks, i - 1);
      SupervisedStepKeepsAll(states[i - 1], requests[i - 1], transitions[i - 1], states[i], tasks[i - 1], tasks[i]);
    }
  }

  /** Every committed builder found what it relies on. */
  lemma CommittedStepsAreDisciplined(
    states: seq<ProjectState>, requests: seq<Request>, transitions: seq<Transition>, tasks: seq<Tasks>, i: nat)
    requires LifecycleHistory(states, requests, transitions, tasks) && i < |requests|
    ensures Disciplined(states[i], transitions[i])
  {
    HistoriesKeepInvariant(states, requests, transitions, tasks, i);
    StepOf(states, requests, transitions, tasks, i);
    SupervisedStepKeepsInvariant(states[i], requests[i], transitions[i], states[i + 1], tasks[i]);
  }

  /** A new attempt has a new identifier and the next number, and is begun while none is active. */
  lemma AttemptsAreBegunInOrder(
    states: seq<ProjectState>, requests: seq<Request>, transitions: seq<Transition>, tasks: seq<Tasks>, i: nat, job: JobId,
    attemptId: string, generation: int)
    requires LifecycleHistory(states, requests, transitions, tasks) && i < |requests|
    requires transitions[i] == Move(job, WorkerMove(BeginAttempt(attemptId, generation)))
    ensures job in states[i].runs && generation == |states[i].runs[job].attempts| && !HasActive(states[i].runs[job])
    ensures forall a | a in states[i].runs[job].attempts :: a.attemptId != attemptId
  {
    CommittedStepsAreDisciplined(states, requests, transitions, tasks, i);
    StepOf(states, requests, transitions, tasks, i);
    CommittedMoves(states[i], requests[i], job, transitions[i].step, states[i + 1]);
  }

  /** No worker runs when a drift of the approved source, a failed review or a failed publish pauses its run. */
  lemma PausedTasksFoundIdleWorker(
    states: seq<ProjectState>, requests: seq<Request>, transitions: seq<Transition>, tasks: seq<Tasks>, i: nat, job: JobId,
    step: RunStep)
    requires LifecycleHistory(states, requests, transitions, tasks) && i < |requests| && transitions[i] == Move(job, step)
    requires (step.ReviewMove? && step.review.PauseForDrift?) || step == ControlMove(PauseFailure(ReviewStage)) ||
             step == ControlMove(PauseFailure(PublishStage))
    ensures job in states[i].runs && !HasActive(states[i].runs[job])
  {
    CommittedStepsAreDisciplined(states, requests, transitions, tasks, i);
    StepOf(states, requests, transitions, tasks, i);
    CommittedMoves(states[i], requests[i], job, step, states[i + 1]);
  }

  lemma StepRespectsFences(s: ProjectState, request: Request, t: Transition, next: ProjectState)
    requires ProjectInv(s) && LifecycleStep(s, request, t, next)
    ensures RespectsFences(s, next) && CommitsOnce(s, next)
  {
    CommittedReachedBuilder(s, request, t);
    BuildersKeepFences(t, s, NextContext(s, request));
    CommitRespectsFences(s, request, BuildOf(t));
    CommitAdvancesCounters(s, request, BuildOf(t));
    assert Attempt(s, request, BuildOf(t)) == Committed(next, AnswerIn(next, request));
  }

  lemma EpochLiftsFence(s: ProjectState, request: Request, t: Transition, next: ProjectState, job: JobId)
    requires ProjectInv(s) && LifecycleStep(s, request, t, next) && t == Move(job, RecoveryMove(NewEpoch))
    ensures job in s.runs && job in next.runs && next.runs[job].fence == next.projectFence
  {
    CommittedReachedBuilder(s, request, t);
    BuildersKeepFences(t, s, NextContext(s, request));
    CommitRespectsFences(s, request, BuildOf(t));
  }

  lemma HistoriesRespectFences(
    states: seq<ProjectState>, requests: seq<Request>, transitions: seq<Transition>, tasks: seq<Tasks>)
    requires LifecycleHistory(states, requests, transitions, tasks)
    ensures History(states)
    ensures forall n | 0 <= n < |states| - 1 :: RespectsFences(states[n], states[n + 1])
  {
    forall n | 0 <= n < |states| - 1 ensures RespectsFences(states[n], states[n + 1]) && CommitsOnce(states[n], states[n + 1]) {
      HistoriesKeepInvariant(states, requests, transitions, tasks, n);
      StepOf(states, requests, transitions, tasks, n);
      StepRespectsFences(states[n], requests[n], transitions[n], states[n + 1]);
    }
  }

  lemma HistoriesBoundFences(
    states: seq<ProjectState>, requests: seq<Request>, transitions: seq<Transition>, tasks: seq<Tasks>)
    requires LifecycleHistory(states, requests, transitions, tasks)
    ensures forall n | 0 <= n < |states| :: FencesBounded(states[n])
  {
    forall n | 0 <= n < |states| ensures FencesBounded(states[n]) {
      HistoriesKeepInvariant(states, requests, transitions, tasks, n);
    }
  }

  lemma EpochLiftsFenceIn(
    states: seq<ProjectState>, requests: seq<Request>, transitions: seq<Transition>, tasks: seq<Tasks>, i: nat, job: JobId)
    requires LifecycleHistory(states, requests, transitions, tasks) && i < |requests|
    requires transitions[i] == Move(job, RecoveryMove(NewEpoch))
    ensures job in states[i + 1].runs && states[i + 1].runs[job].fence == states[i + 1].projectFence
  {
    HistoriesKeepInvariant(states, requests, transitions, tasks, i);
    StepOf(states, requests, transitions, tasks, i);
    EpochLiftsFence(states[i], requests[i], transitions[i], states[i + 1], job);
  }

  /**
    After an epoch step of a run, no request that guards a fence the run had at any earlier point of the
    history commits at any later one.
   */
  lemma EpochShutsOutOlderFences(
    states: seq<ProjectState>, requests: seq<Request>, transitions: seq<Transition>, tasks: seq<Tasks>, k: nat, i: nat, j: nat,
    job: JobId, stale: Request, build: Build)
    requires LifecycleHistory(states, requests, transitions, tasks) && k <= i < j < |states|
    requires transitions[i] == Move(job, RecoveryMove(NewEpoch)) && job in states[k].runs
    requires stale.expectedJobId == Some(job) && stale.expectedFence == Some(states[k].runs[job].fence)
    ensures !Attempt(states[j], stale, build).Committed?
  {
    HistoriesRespectFences(states, requests, transitions, tasks);
    HistoriesBoundFences(states, requests, transitions, tasks);
    EpochLiftsFenceIn(states, requests, transitions, tasks, i, job);
    OldFencesNeverCommitAgain(states, i, k, j, job, stale, build);
  }

  // Ended runs

  /** No transition touches a run that has ended. */
  lemma EndedRunsStay(s: ProjectState, request: Request, t: Transition, next: ProjectState, job: JobId)
    requires ProjectInv(s) && LifecycleStep(s, request, t, next) && job in s.runs && IsTerminal(s.runs[job].phase)
    ensures job in next.runs && next.runs[job] == s.runs[job]
  {
    EndedRunIsNotMoved(s, request, t, next, job);
    OthersStay(s, request, t, next, job);
  }

  lemma EndedRunIsNotMoved(s: ProjectState, request: Request, t: Transition, next: ProjectState, job: JobId)
    requires ProjectInv(s) && LifecycleStep(s, request, t, next) && job in s.runs && IsTerminal(s.runs[job].phase)
    ensures t.Execute? || t.jobId != job
  {
    CommittedReachedBuilder(s, request, t);
    ProceedMeansGuarded(s, request, t);
    if !t.Execute? {
      GuardedRunIsLive(s, t);
    }
  }

  lemma GuardedRunIsLive(s: ProjectState, t: Transition)
    requires ProjectInv(s) && Guarded(s, t) && !t.Execute?
    ensures !IsTerminal(s.runs[t.jobId].phase)
  {
    assert BindingHolds(s, s.runs[t.jobId].taskPath, s.activeRuns[s.runs[t.jobId].taskPath]);
  }

  /** A completed run has a publish recorded as committed, with a committed result; no run is ever FAILED. */
  lemma CompletedRunsPublished(
    states: seq<ProjectState>, requests: seq<Request>, transitions: seq<Transition>, tasks: seq<Tasks>, i: nat, job: JobId)
    requires LifecycleHistory(states, requests, transitions, tasks) && i < |states| && job in states[i].runs
    ensures states[i].runs[job].phase == Completed ==>
              && PublishCommitted(states[i].runs[job]) && states[i].runs[job].publish.value.result.Some?
              && states[i].runs[job].publish.value.result.value.status == WorkspaceApply.Committed
    ensures states[i].runs[job].phase != Failed
  {
    HistoriesKeepInvariant(states, requests, transitions, tasks, i);
    assert RunInv(states[i].runs[job]);
  }

  // Review rounds

  predicate FullyReviewed(review: DurableReview, expected: seq<string>) {
    && multiset(ReviewedIds(review.gate.result)) == multiset(expected)
    && (forall t | t in review.gate.result.tasks :: t.completion == 100 && t.issues == [])
    && review.reviewerSessionId != review.piSessionId
  }

  lemma AcceptingReviewIsFull(review: DurableReview, expected: seq<string>)
    requires Distinct(expected) && SoundReview(review, expected)
    ensures Accept in review.gate.allowed <==> AllComplete(review.gate.result)
    ensures Accept in review.gate.allowed ==> FullyReviewed(review, expected)
  {
    CoverageIsPermutation(expected, review.gate.result);
    var gate := GateOf(review.gate.result);
    if AllComplete(review.gate.result) {
      assert gate.allowed[0] == Accept;
    }
  }

  /**
    The phase a finished review leads to: publishing exactly when the reviewed ids are the enabled tasks
    rearranged, all at 100 with no issues; repair exactly when one is not and a round is left.
   */
  lemma ReviewDecidesPhase(run: RunRecord, turnToken: string, reviewer: SessionId, result: ReviewResult, now: int)
    requires RunInv(run) && run.phase == Reviewing
    requires FinishReview(run, turnToken, reviewer, result, now).Ok?
    ensures var next := FinishReview(run, turnToken, reviewer, result, now).value;
            && next.review.Some? && next.review.value.gate.result == result
            && (next.phase == ReadyToPublish <==> FullyReviewed(next.review.value, run.manifest.enabledTaskIds))
            && (next.phase == Fixing <==> !AllComplete(result) && run.autoRepairRounds < REPAIR_ROUND_LIMIT)
            && (next.phase == Paused <==> !AllComplete(result) && run.autoRepairRounds == REPAIR_ROUND_LIMIT)
            && (next.phase == Fixing ==> next.autoRepairRounds == run.autoRepairRounds + 1)
            && (forall e | e in run.reviewHistory :: e.reviewerSessionId == next.review.value.reviewerSessionId)
            && (forall e | e in run.reviewHistory :: e.reviewAttemptId != next.review.value.reviewAttemptId)
  {
    FinishKeepsReviews(run, turnToken, reviewer, result, now);
    var next := FinishReview(run, turnToken, reviewer, result, now).value;
    var history := next.reviewHistory;
    assert history[|history| - 1] in history;
    AcceptingReviewIsFull(next.review.value, run.manifest.enabledTaskIds);
    PlanPassesGate(result, run.autoRepairRounds);
  }

  /** Nothing is handed to the adapter without a full review that the leader accepted, of this very candidate. */
  lemma SubmittedWasFullyReviewed(run: RunRecord, step: PublishStep)
    requires RunInv(run) && step.SubmitPublish? && step.evidence.reviewEnabled
    requires StepPublish(step, run).Ok?
    ensures run.review.Some? && run.candidate.Some? && FullyReviewed(run.review.value, run.manifest.enabledTaskIds)
    ensures run.review.value.candidateHash == run.candidate.value.candidateHash
    ensures run.leaderDecision == Some(LeaderDecision(run.review.value, Accept))
  {
    var e := run.reviewHistory[|run.reviewHistory| - 1];
    assert e in run.reviewHistory && SoundEntry(e, run.manifest.enabledTaskIds);
    AcceptingReviewIsFull(run.review.value, run.manifest.enabledTaskIds);
  }

  // Cancelling

  /** Completing a cancellation commits exactly when the publish lease does not name the job. */
  lemma CancelCompletesExactly(s: ProjectState, request: Request, job: JobId)
    requires ProjectInv(s) && Carries(request, Move(job, ControlMove(CompleteCancel))) && Decide(s, request).Proceed?
    requires !PublishUnsettled(s.runs[job])
    ensures var outcome := Attempt(s, request, BuildOf(Move(job, ControlMove(CompleteCancel))));
            if LeaseNames(s.publishLease, job) then outcome == Refused(SchemaRefused)
            else outcome.Committed? && ProjectInv(outcome.state) && outcome.state.runs[job].phase == Canceled
  {
    MoveCommitsUnlessLeased(s, request, job, ControlMove(CompleteCancel));
    AttemptUnfolds(s, request, Move(job, ControlMove(CompleteCancel)));
    ProceedMeansGuarded(s, request, Move(job, ControlMove(CompleteCancel)));
    var context := NextContext(s, request);
    FinalisedMove(s, request, context, job, ControlMove(CompleteCancel), StepRun(ControlMove(CompleteCancel), s.runs[job]).value);
  }
}
