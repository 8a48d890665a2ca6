/**
  Every builder as a transition of the whole project: what it does to the task bindings and the publish
  lease, and what the request around it guards (apps/daemon/src).
 */
module RunTransitions {
  import opened Wrappers
  import opened ProjectModel
  import opened MutationExecutor
  import opened RunSteps

  datatype Transition =
    | Execute(jobId: JobId, taskPath: TaskPath, manifest: TaskManifest)
    | Move(jobId: JobId, step: RunStep)
    | AcquireLease(jobId: JobId, operationId: OperationId)
    | ReleaseLease(jobId: JobId, operationId: OperationId)

  // The builders that drop the task binding
  predicate EndsRun(step: RunStep) {
    match step
    case PublishMove(SettlePublish(service)) => service == ServiceCommitted
    case PublishMove(ConfirmManual(_, _, _, _, matches, _)) => matches
    case RecoveryMove(RecoverPublish(committed, _)) => committed
    case ControlMove(CompleteCancel) => true
    case _ => false
  }

  function LeaseAfter(lease: Option<PublishLease>, job: JobId, step: RunStep, run: RunRecord): Option<PublishLease> {
    match step
    case PublishMove(CompletePublish(_, status, _)) =>
      if status == AttemptCommitted || status == AttemptConflict then None else lease
    case PublishMove(ConfirmManual(_, _, _, _, matches, _)) =>
      if matches && lease.Some? && lease.value.jobId == job then None else lease
    case RecoveryMove(RecoverPublish(_, _)) =>
      if run.publish.Some? && lease == Some(PublishLease(job, run.publish.value.operationId)) then None else lease
    case _ => lease
  }

  function MoveRun(s: ProjectState, job: JobId, step: RunStep): Result<ProjectState, string> {
    if job !in s.runs then Err("RUN_NOT_FOUND")
    else
      match StepRun(step, s.runs[job])
      case Err(message) => Err(message)
      case Ok(next) =>
        Ok(s.(runs := s.runs[job := next],
              activeRuns := if EndsRun(step) then s.activeRuns - {s.runs[job].taskPath} else s.activeRuns,
              publishLease := LeaseAfter(s.publishLease, job, step, s.runs[job])))
  }

  function NewRun(jobId: JobId, taskPath: TaskPath, manifest: TaskManifest, fence: nat): RunRecord {
    RunRecord(jobId, taskPath, fence, Preparing, manifest, [], None, None, None, None, None, [], 0, 0, None, None, None, false,
              None, None)
  }

  /** The `build` callback each transition hands to the executor. */
  function BuildOf(t: Transition): Build {
    (s: ProjectState, context: Context) => Built(t, s, context)
  }

  function Built(t: Transition, s: ProjectState, context: Context): Result<Draft, string> {
    match t
    case Execute(jobId, taskPath, manifest) =>
      if taskPath in s.activeRuns then Err("TASK_ALREADY_ACTIVE")
      else
        Ok(Draft(s.(activeRuns := s.activeRuns[taskPath := jobId],
                    runs := s.runs[jobId := NewRun(jobId, taskPath, manifest, context.fence)]), Acknowledged))
    case Move(jobId, step) =>
      var moved := MoveRun(s, jobId, step);
      if moved.Ok? then Ok(Draft(moved.value, Acknowledged)) else Err(moved.error)
    case AcquireLease(jobId, operationId) =>
      var wanted := Some(PublishLease(jobId, operationId));
      var available := s.publishLease.None? || s.publishLease == wanted;
      Ok(Draft(if available then s.(publishLease := wanted) else s, LeaseAnswer(available)))
    case ReleaseLease(jobId, operationId) =>
      Ok(Draft(if s.publishLease == Some(PublishLease(jobId, operationId)) then s.(publishLease := None) else s, Acknowledged))
  }

  // What the request around a builder guards

  function JobOf(t: Transition): Option<JobId> {
    if t.Execute? then None else Some(t.jobId)
  }

  function PhasesGuarded(t: Transition): Option<set<RunPhase>> {
    match t
    case Execute(_, _, _) => None
    case Move(_, step) => PhasesOf(step)
    case AcquireLease(_, _) => Some({ReadyToPublish, Publishing})
    case ReleaseLease(_, _) => Some({ReadyToPublish, Publishing})
  }

  function PinGuarded(t: Transition): Option<Pin> {
    if t.Move? then PinOf(t.step) else None
  }

  /** The guards the source puts on the request of this transition; it may put on more. */
  predicate Carries(request: Request, t: Transition) {
    && request.expectedJobId == JobOf(t)
    && (PhasesGuarded(t).Some? ==> request.expectedPhases.Some? && request.expectedPhases.value <= PhasesGuarded(t).value)
    && (PinGuarded(t).Some? ==>
          && request.expectedAttemptId == Some(Some(PinGuarded(t).value.attemptId))
          && request.expectedGeneration == Some(PinGuarded(t).value.generation))
    && (request.advanceFence <==> t.Move? && t.step == RecoveryMove(NewEpoch))
  }

  predicate Guarded(s: ProjectState, t: Transition) {
    t.Execute? ||
    (&& t.jobId in s.runs
     && OwnsItsTask(s, s.runs[t.jobId]) && s.runs[t.jobId].jobId == t.jobId
     && (PhasesGuarded(t).Some? ==> s.runs[t.jobId].phase in PhasesGuarded(t).value)
     && Pinned(s.runs[t.jobId], PinGuarded(t)))
  }

  /** A request that reaches its builder has found everything the builder relies on. */
  lemma ProceedMeansGuarded(s: ProjectState, request: Request, t: Transition)
    requires ValidProject(s) && Carries(request, t)
    requires Decide(s, request).Proceed?
    ensures Guarded(s, t)
  {
  }

  /** No builder drops a run or touches the fence of an existing one. */
  lemma BuildersKeepFences(t: Transition, s: ProjectState, context: Context)
    requires Built(t, s, context).Ok?
    requires t.Execute? ==> t.jobId !in s.runs
    ensures KeepsFences(s, context, Built(t, s, context).value.nextState)
  {
  }
}
