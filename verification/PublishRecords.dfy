/**
  The publish lease and the publish record of one run: while the run is in PUBLISHING, a lease that names it is
  the one of the attempt on record (apps/daemon/src/publish/publish-coordinator.ts).
 */
module PublishRecords {
  import opened Wrappers
  import opened ProjectModel
  import opened MutationExecutor
  import opened RunSteps
  import opened RunTransitions
  import opened LifecycleInvariant
  import opened ProjectLifecycle
  import opened PublishProtocol
  import opened UnsettledPublish

  /** The lease is free, another job's, or taken for the attempt on record. */
  predicate LeaseFits(s: ProjectState, job: JobId) {
    LeaseNames(s.publishLease, job) ==>
      job in s.runs && s.runs[job].publish.Some? && s.publishLease == Some(PublishLease(job, s.runs[job].publish.value.operationId))
  }

  predicate RecordFits(s: ProjectState, job: JobId)
    requires job in s.runs
  {
    s.runs[job].phase == Publishing ==> LeaseFits(s, job)
  }

  // A task that has not prepared its attempt yet finds the run outside of PUBLISHING.
  predicate TaskWaits(w: PublishWorld, job: JobId)
    requires job in w.tasks
  {
    w.tasks[job].Wanting? || w.tasks[job].HasLease? ==> job in w.s.runs && w.s.runs[job].phase != Publishing
  }

  ghost predicate RecordsFit(w: PublishWorld) {
    && (forall job | job in w.s.runs :: RecordFits(w.s, job))
    && (forall job | job in w.tasks :: TaskWaits(w, job))
  }

  // The steps that put an attempt on record
  predicate Records(step: RunStep) {
    step.PublishMove? && (step.publish.PreparePublish? || step.publish.BeginPublishRecovery?)
  }

  // Staying in PUBLISHING keeps the operation on record.
  predicate KeepsOperation(run: RunRecord, next: RunRecord) {
    next.phase == Publishing ==>
      && run.phase == Publishing
      && (run.publish.Some? ==> next.publish.Some? && next.publish.value.operationId == run.publish.value.operationId)
  }

  lemma WorkerKeepsOperation(step: WorkerStep, run: RunRecord)
    requires Reaches(WorkerMove(step), run)
    ensures KeepsOperation(run, StepWorker(step, run).value)
  {
  }

  lemma ReviewKeepsOperation(step: ReviewStep, run: RunRecord)
    requires Reaches(ReviewMove(step), run)
    ensures KeepsOperation(run, StepReview(step, run).value)
  {
  }

  lemma PublishKeepsOperation(step: PublishStep, run: RunRecord)
    requires Reaches(PublishMove(step), run) && !Records(PublishMove(step))
    ensures KeepsOperation(run, StepPublish(step, run).value)
  {
  }

  lemma ControlKeepsOperation(step: ControlStep, run: RunRecord)
    requires Reaches(ControlMove(step), run)
    ensures KeepsOperation(run, StepControl(step, run).value)
  {
  }

  lemma OtherStepsKeepOperation(step: RunStep, run: RunRecord)
    requires Reaches(step, run) && !Records(step)
    ensures KeepsOperation(run, StepRun(step, run).value)
  {
    match step
    case WorkerMove(worker) => WorkerKeepsOperation(worker, run);
    case ReviewMove(review) => ReviewKeepsOperation(review, run);
    case PublishMove(publish) => PublishKeepsOperation(publish, run);
    case ControlMove(control) => ControlKeepsOperation(control, run);
    case _ =>
  }

  // What a commit does to the records and the lease

  predicate IsRecording(t: Transition) {
    t.Move? && Records(t.step)
  }

  lemma MovedRecordFits(s: ProjectState, request: Request, job: JobId, step: RunStep, next: ProjectState)
    requires ValidProject(s) && LifecycleStep(s, request, Move(job, step), next) && !Records(step)
    requires job in s.runs && RecordFits(s, job)
    ensures job in next.runs && RecordFits(next, job)
    ensures s.runs[job].phase != Publishing ==> next.runs[job].phase != Publishing
  {
    MoveReaches(s, request, job, step, next);
    OtherStepsKeepOperation(step, s.runs[job]);
    CommittedMoves(s, request, job, step, next);
    LeaseOnlyCleared(s.publishLease, job, step, s.runs[job]);
  }

  lemma OtherRecordFits(s: ProjectState, request: Request, t: Transition, next: ProjectState, job: JobId)
    requires LifecycleStep(s, request, t, next) && job in s.runs && (t.Execute? || t.jobId != job) && RecordFits(s, job)
    ensures job in next.runs && RecordFits(next, job) && next.runs[job] == s.runs[job]
  {
    OthersStay(s, request, t, next, job);
    LeaseAfterCommit(s, request, t);
    if t.Move? {
      LeaseOnlyCleared(s.publishLease, t.jobId, t.step, s.runs[t.jobId]);
    }
  }

  lemma NewRecordFits(s: ProjectState, request: Request, t: Transition, next: ProjectState, job: JobId)
    requires LifecycleStep(s, request, t, next) && job in next.runs && job !in s.runs
    ensures next.runs[job].phase != Publishing
  {
    CommittedReachedBuilder(s, request, t);
    AttemptUnfolds(s, request, t);
    match t
    case Execute(_, _, _) => FinalisedExecute(s, request, t);
    case Move(mover, step) => CommittedMoves(s, request, mover, step, next);
    case _ => FinalisedLeaseStep(s, request, t);
  }

  lemma RecordingFits(s: ProjectState, request: Request, job: JobId, attempt: PublishAttempt, step: PublishStep, next: ProjectState)
    requires step == PreparePublish(attempt) || step == BeginPublishRecovery(attempt)
    requires LifecycleStep(s, request, Move(job, PublishMove(step)), next)
    requires s.publishLease == Some(PublishLease(job, attempt.operationId))
    ensures job in next.runs && RecordFits(next, job)
  {
    CommittedMoves(s, request, job, PublishMove(step), next);
  }

  lemma LeaseStepRecordFits(s: ProjectState, request: Request, t: Transition, next: ProjectState)
    requires LifecycleStep(s, request, t, next) && (t.AcquireLease? || t.ReleaseLease?) && t.jobId in s.runs
    requires RecordFits(s, t.jobId) && (t.AcquireLease? ==> s.runs[t.jobId].phase != Publishing)
    ensures next.runs == s.runs && RecordFits(next, t.jobId)
  {
    CommittedReachedBuilder(s, request, t);
    AttemptUnfolds(s, request, t);
    FinalisedLeaseStep(s, request, t);
    LeaseAfterCommit(s, request, t);
  }

  // What the task of a job knows when it commits

  lemma RecordingTaskHasLease(w: PublishWorld, step: TaskStep)
    requires TasksFit(w) && Allowed(w, step) && TransitionOf(w, step).Some? && IsRecording(TransitionOf(w, step).value)
    ensures (step.Prepare? || step.BeginRecovery?) && TransitionOf(w, step).value.jobId == step.job
    ensures step.job in w.tasks && w.tasks[step.job].HasLease?
    ensures w.s.publishLease == Some(PublishLease(step.job, step.attempt.operationId))
  {
    if step.Prepare? || step.BeginRecovery? {
      assert TaskFits(w, step.job);
    }
  }

  lemma AcquiringTaskWaits(w: PublishWorld, step: TaskStep)
    requires RecordsFit(w) && Allowed(w, step) && TransitionOf(w, step).Some? && TransitionOf(w, step).value.AcquireLease?
    ensures step.Acquire? && TransitionOf(w, step).value.jobId == step.job
    ensures step.job in w.s.runs && w.s.runs[step.job].phase != Publishing
  {
    if step.Acquire? {
      assert TaskWaits(w, step.job);
    }
  }

  lemma CommitRecordFits(w: PublishWorld, step: TaskStep, next: ProjectState, job: JobId)
    requires ValidProject(w.s) && TasksFit(w) && RecordsFit(w) && Allowed(w, step) && TransitionOf(w, step).Some? && RequestOf(step).Some?
    requires LifecycleStep(w.s, RequestOf(step).value, TransitionOf(w, step).value, next) && job in next.runs
    ensures RecordFits(next, job)
  {
    var request, t := RequestOf(step).value, TransitionOf(w, step).value;
    if job !in w.s.runs {
      NewRecordFits(w.s, request, t, next, job);
    } else if t.Execute? || t.jobId != job {
      OtherRecordFits(w.s, request, t, next, job);
    } else {
      OwnCommitRecordFits(w, step, next, job);
    }
  }

  lemma OwnCommitRecordFits(w: PublishWorld, step: TaskStep, next: ProjectState, job: JobId)
    requires ValidProject(w.s) && TasksFit(w) && RecordsFit(w) && Allowed(w, step) && TransitionOf(w, step).Some? && RequestOf(step).Some?
    requires LifecycleStep(w.s, RequestOf(step).value, TransitionOf(w, step).value, next) && job in next.runs && job in w.s.runs
    requires !TransitionOf(w, step).value.Execute? && TransitionOf(w, step).value.jobId == job
    ensures RecordFits(next, job)
  {
    var request, t := RequestOf(step).value, TransitionOf(w, step).value;
    if IsRecording(t) {
      RecordingTaskHasLease(w, step);
      RecordingFits(w.s, request, job, step.attempt, t.step.publish, next);
    } else if t.Move? {
      MovedRecordFits(w.s, request, job, t.step, next);
    } else {
      if t.AcquireLease? {
        AcquiringTaskWaits(w, step);
      }
      LeaseStepRecordFits(w.s, request, t, next);
    }
  }

  lemma WorldRecordFits(w: PublishWorld, step: TaskStep, job: JobId)
    requires ValidProject(w.s) && TasksFit(w) && RecordsFit(w) && Allowed(w, step) && UnderGuards(w, step)
    requires job in NextWorld(w, step).s.runs
    ensures RecordFits(NextWorld(w, step).s, job)
  {
    WorldAfter(w, step);
    if NextWorld(w, step).s != w.s {
      CommitRecordFits(w, step, NextWorld(w, step).s, job);
    }
  }

  // The phase of a waiting task's run

  lemma WaitingTaskWasWaiting(w: PublishWorld, step: TaskStep, job: JobId)
    requires Allowed(w, step) && job in NextWorld(w, step).tasks
    requires NextWorld(w, step).tasks[job].Wanting? || NextWorld(w, step).tasks[job].HasLease?
    ensures step == Observe(job, NextWorld(w, step).tasks[job].operationId) ||
            (job in w.tasks && (w.tasks[job].Wanting? || w.tasks[job].HasLease?))
    ensures TransitionOf(w, step).Some? && IsRecording(TransitionOf(w, step).value) && TransitionOf(w, step).value.jobId == job ==>
              step.Elsewhere? || NextWorld(w, step).s == w.s
  {
  }

  lemma WorldTaskWaits(w: PublishWorld, step: TaskStep, job: JobId)
    requires ValidProject(w.s) && TasksFit(w) && RecordsFit(w) && Allowed(w, step) && UnderGuards(w, step)
    requires job in NextWorld(w, step).tasks
    ensures TaskWaits(NextWorld(w, step), job)
  {
    var next := NextWorld(w, step);
    if next.tasks[job].Wanting? || next.tasks[job].HasLease? {
      WaitingTaskWasWaiting(w, step, job);
      WorldAfter(w, step);
      if next.s != w.s {
        assert TaskWaits(w, job);
        CommitKeepsWaiting(w, step, next.s, job);
      } else if !step.Observe? || step.job != job {
        assert TaskWaits(w, job);
      }
    }
  }

  lemma CommitKeepsWaiting(w: PublishWorld, step: TaskStep, next: ProjectState, job: JobId)
    requires ValidProject(w.s) && TasksFit(w) && RecordsFit(w) && Allowed(w, step) && TransitionOf(w, step).Some? && RequestOf(step).Some?
    requires LifecycleStep(w.s, RequestOf(step).value, TransitionOf(w, step).value, next)
    requires job in w.s.runs && w.s.runs[job].phase != Publishing
    requires IsRecording(TransitionOf(w, step).value) && TransitionOf(w, step).value.jobId == job ==> step.Elsewhere?
    ensures job in next.runs && next.runs[job].phase != Publishing
  {
    var request, t := RequestOf(step).value, TransitionOf(w, step).value;
    if t.Execute? || t.jobId != job {
      OtherRecordFits(w.s, request, t, next, job);
    } else if t.Move? {
      MovedRecordFits(w.s, request, job, t.step, next);
    } else {
      LeaseStepKeepsRuns(w.s, request, t, next);
    }
  }

  lemma LeaseStepKeepsRuns(s: ProjectState, request: Request, t: Transition, next: ProjectState)
    requires LifecycleStep(s, request, t, next) && (t.AcquireLease? || t.ReleaseLease?)
    ensures next.runs == s.runs
  {
    CommittedReachedBuilder(s, request, t);
    AttemptUnfolds(s, request, t);
    FinalisedLeaseStep(s, request, t);
  }

  lemma WorldKeepsRecords(w: PublishWorld, step: TaskStep)
    requires ValidProject(w.s) && TasksFit(w) && RecordsFit(w) && Allowed(w, step) && UnderGuards(w, step)
    ensures RecordsFit(NextWorld(w, step))
  {
    var next := NextWorld(w, step);
    forall job | job in next.s.runs ensures RecordFits(next.s, job) {
      WorldRecordFits(w, step, job);
    }
    forall job | job in next.tasks ensures TaskWaits(next, job) {
      WorldTaskWaits(w, step, job);
    }
  }

  /** In every history of publishes, a lease that names a run in PUBLISHING is the one of the attempt on record. */
  lemma {:induction false} LeaseFitsThroughout(worlds: seq<PublishWorld>, steps: seq<TaskStep>, n: nat)
    requires GuardedTrace(worlds, steps) && n < |worlds| && forall job | job in worlds[0].s.runs :: RecordFits(worlds[0].s, job)
    ensures RecordsFit(worlds[n])
  {
    if n > 0 {
      LeaseFitsThroughout(worlds, steps, n - 1);
      TraceStaysValid(worlds, steps, n - 1);
      TracesKeepTasks(worlds, steps, n - 1);
      TraceStep(worlds, steps, n - 1);
      WorldKeepsRecords(worlds[n - 1], steps[n - 1]);
    }
  }

  lemma TraceStep(worlds: seq<PublishWorld>, steps: seq<TaskStep>, n: nat)
    requires GuardedTrace(worlds, steps) && n < |steps|
    ensures Allowed(worlds[n], steps[n]) && UnderGuards(worlds[n], steps[n]) && worlds[n + 1] == NextWorld(worlds[n], steps[n])
  {
  }
}
