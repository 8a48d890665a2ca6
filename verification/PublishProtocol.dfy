/**
  The publish tasks of all jobs over the committed project states: who may be applying, and when a
  publish settles (packages/publish/src/publish-service.ts,
  apps/daemon/src/publish/publish-coordinator.ts).

  One publish task runs per job (apps/daemon/src/runtime/project-runtime.ts, `schedule`); every commit of
  every task is one `Attempt` on the last committed state, as MutationProtocol proves.
 */
module PublishProtocol {
  import opened Wrappers
  import opened ProjectModel
  import WorkspaceApply
  import opened MutationExecutor
  import opened RunSteps
  import opened RunTransitions
  import opened LifecycleInvariant
  import opened ProjectLifecycle

  // Where the publish task of a job is; no entry means it does not run.
  datatype TaskStage =
    | Wanting(operationId: OperationId, seenFence: nat)
    | HasLease(operationId: OperationId)
    | ReadyToApply(operationId: OperationId)
    | Applying(operationId: OperationId)
    | Applied(operationId: OperationId)
    | Recovering(operationId: OperationId)

  datatype PublishWorld = PublishWorld(s: ProjectState, tasks: map<JobId, TaskStage>)

  datatype TaskStep =
    | Observe(job: JobId, operationId: OperationId)
    | Acquire(job: JobId, request: Request)
    | ReleaseOnConflict(job: JobId, request: Request)
    | Prepare(job: JobId, attempt: PublishAttempt, request: Request)
    | BeginRecovery(job: JobId, attempt: PublishAttempt, request: Request)
    // the commit of SUBMITTED; the apply starts unless the handoff is lost
    | SubmitAndApply(job: JobId, operationsHash: WorkspaceApply.OperationsHash, evidence: Evidence, request: Request, started: bool)
    | ApplyReturns(job: JobId)
    | Complete(job: JobId, status: PublishStatus, result: PublishResult, request: Request)
    | GiveUp(job: JobId)
    | CrashProcess
    // anything any other part of the daemon commits
    | Elsewhere(request: Request, t: Transition)

  function TransitionOf(w: PublishWorld, step: TaskStep): Option<Transition> {
    match step
    case Acquire(job, _) => if job in w.tasks then Some(AcquireLease(job, w.tasks[job].operationId)) else None
    case ReleaseOnConflict(job, _) => if job in w.tasks then Some(ReleaseLease(job, w.tasks[job].operationId)) else None
    case Prepare(job, attempt, _) => Some(Move(job, PublishMove(PreparePublish(attempt))))
    case BeginRecovery(job, attempt, _) => Some(Move(job, PublishMove(BeginPublishRecovery(attempt))))
    case SubmitAndApply(job, operationsHash, evidence, _, _) =>
      if job in w.tasks then Some(Move(job, PublishMove(SubmitPublish(w.tasks[job].operationId, operationsHash, evidence)))) else None
    case Complete(job, status, result, _) =>
      if job in w.tasks then Some(Move(job, PublishMove(CompletePublish(w.tasks[job].operationId, status, result)))) else None
    case Elsewhere(_, t) => Some(t)
    case _ => None
  }

  // The steps the publish store makes; nobody else makes them.
  predicate StoreOnly(t: Transition) {
    || t.AcquireLease? || t.ReleaseLease?
    || (t.Move? && t.step.PublishMove? && !t.step.publish.SettlePublish? && !t.step.publish.ConfirmManual?)
  }

  // Manual confirmation and publish recovery run as the publish or recovery task of the job itself.
  predicate InsteadOfTask(t: Transition) {
    || (t.Move? && t.step.RecoveryMove? && t.step.recovery.RecoverPublish?)
    || (t.Move? && t.step.PublishMove? && t.step.publish.ConfirmManual?)
  }

  predicate Allowed(w: PublishWorld, step: TaskStep) {
    match step
    // a publish starts from READY_TO_PUBLISH; an operation identifier contains its job
    case Observe(job, operationId) =>
      job !in w.tasks && operationId.jobId == job && job in w.s.runs && w.s.runs[job].phase == ReadyToPublish
    case Acquire(job, _) => job in w.tasks && w.tasks[job].Wanting?
    case ReleaseOnConflict(job, _) => job in w.tasks && w.tasks[job].HasLease?
    case Prepare(job, attempt, _) => job in w.tasks && w.tasks[job] == HasLease(attempt.operationId)
    case BeginRecovery(job, attempt, _) => job in w.tasks && w.tasks[job] == HasLease(attempt.operationId)
    case SubmitAndApply(job, _, _, _, _) => job in w.tasks && w.tasks[job].ReadyToApply?
    case ApplyReturns(job) => job in w.tasks && w.tasks[job].Applying?
    case Complete(job, _, _, _) => job in w.tasks && (w.tasks[job].Applied? || w.tasks[job].Recovering?)
    case GiveUp(job) => job in w.tasks && !w.tasks[job].Applying?
    case CrashProcess => true
    case Elsewhere(_, t) => !StoreOnly(t) && (InsteadOfTask(t) ==> t.jobId !in w.tasks)
  }

  // Only an acquisition carries an acquisition identifier, made of the operation and the fence it saw.
  predicate IdentifierFits(w: PublishWorld, step: TaskStep) {
    RequestOf(step).Some? ==>
      if step.Acquire? then
        step.job in w.tasks && w.tasks[step.job].Wanting? &&
        step.request.requestId == LeaseAcquireRequest(w.tasks[step.job].operationId, w.tasks[step.job].seenFence)
      else !RequestOf(step).value.requestId.LeaseAcquireRequest?
  }

  function RequestOf(step: TaskStep): Option<Request> {
    match step
    case Observe(_, _) => None
    case ApplyReturns(_) => None
    case GiveUp(_) => None
    case CrashProcess => None
    case _ => Some(step.request)
  }

  // The task's stage after its mutation. A refusal makes it give up, and so does a replayed handoff; a
  // replayed acquisition would be believed.
  function StageAfter(w: PublishWorld, step: TaskStep, outcome: Outcome): Option<TaskStage> {
    if step.Acquire? && step.job in w.tasks then
      if outcome == Replayed(LeaseAnswer(true)) || (outcome.Committed? && outcome.answer == LeaseAnswer(true))
        then Some(HasLease(w.tasks[step.job].operationId)) else None
    else if !outcome.Committed? then None
    else
      match step
      case Prepare(_, attempt, _) => Some(ReadyToApply(attempt.operationId))
      case BeginRecovery(_, attempt, _) =>
        Some(if attempt.status == Prepared then ReadyToApply(attempt.operationId) else Recovering(attempt.operationId))
      case SubmitAndApply(job, _, _, _, started) => if started && job in w.tasks then Some(Applying(w.tasks[job].operationId)) else None
      case _ => None
  }

  function WithTask(tasks: map<JobId, TaskStage>, job: JobId, stage: Option<TaskStage>): map<JobId, TaskStage> {
    if stage.Some? then tasks[job := stage.value] else tasks - {job}
  }

  function NextWorld(w: PublishWorld, step: TaskStep): PublishWorld
    requires Allowed(w, step)
  {
    match step
    case Observe(job, operationId) => w.(tasks := w.tasks[job := Wanting(operationId, w.s.projectFence)])
    case ApplyReturns(job) => w.(tasks := w.tasks[job := Applied(w.tasks[job].operationId)])
    case GiveUp(job) => w.(tasks := w.tasks - {job})
    case CrashProcess => w.(tasks := map[])
    case Elsewhere(request, t) =>
      var outcome := Attempt(w.s, request, BuildOf(t));
      if outcome.Committed? then w.(s := outcome.state) else w
    case _ =>
      var outcome := Attempt(w.s, step.request, BuildOf(TransitionOf(w, step).value));
      PublishWorld(if outcome.Committed? then outcome.state else w.s, WithTask(w.tasks, step.job, StageAfter(w, step, outcome)))
  }

  ghost predicate AcquireReceiptsAreOld(s: ProjectState) {
    forall id | id in s.receipts && id.LeaseAcquireRequest? :: id.projectFence < s.projectFence
  }

  // A task past acquisition is the one the durable lease names; before it, its request is still new.
  ghost predicate TaskFits(w: PublishWorld, job: JobId)
    requires job in w.tasks
  {
    var stage := w.tasks[job];
    && stage.operationId.jobId == job
    && if stage.Wanting?
         then stage.seenFence <= w.s.projectFence && LeaseAcquireRequest(stage.operationId, stage.seenFence) !in w.s.receipts
         else w.s.publishLease == Some(PublishLease(job, stage.operationId))
  }

  ghost predicate TasksFit(w: PublishWorld) {
    AcquireReceiptsAreOld(w.s) && forall job | job in w.tasks :: TaskFits(w, job)
  }

  lemma LeaseAfterCommit(s: ProjectState, request: Request, t: Transition)
    requires Attempt(s, request, BuildOf(t)).Committed?
    ensures var next, answer := Attempt(s, request, BuildOf(t)).state, Attempt(s, request, BuildOf(t)).answer;
            match t
            case Execute(_, _, _) => next.publishLease == s.publishLease
            case Move(job, step) => job in s.runs && next.publishLease == LeaseAfter(s.publishLease, job, step, s.runs[job])
            case AcquireLease(job, operationId) =>
              if s.publishLease.None? || s.publishLease == Some(PublishLease(job, operationId))
                then answer == LeaseAnswer(true) && next.publishLease == Some(PublishLease(job, operationId))
                else answer == LeaseAnswer(false) && next.publishLease == s.publishLease
            case ReleaseLease(job, operationId) =>
              next.publishLease == if s.publishLease == Some(PublishLease(job, operationId)) then None else s.publishLease
  {
    assert BuildOf(t)(s, NextContext(s, request)) == Built(t, s, NextContext(s, request));
  }

  lemma ReceiptsAfterCommit(s: ProjectState, request: Request, build: Build)
    requires Attempt(s, request, build).Committed?
    ensures var next := Attempt(s, request, build).state;
            && next.projectFence == s.projectFence + 1
            && forall id :: id in next.receipts <==> id in s.receipts || id == request.requestId
  {
  }

  lemma ElsewhereKeepsTasks(w: PublishWorld, step: TaskStep)
    requires TasksFit(w) && step.Elsewhere? && Allowed(w, step) && IdentifierFits(w, step)
    ensures TasksFit(NextWorld(w, step))
  {
    var outcome := Attempt(w.s, step.request, BuildOf(step.t));
    if outcome.Committed? {
      LeaseAfterCommit(w.s, step.request, step.t);
      ReceiptsAfterCommit(w.s, step.request, BuildOf(step.t));
    }
    var v := NextWorld(w, step);
    forall job | job in v.tasks ensures TaskFits(v, job) {
      assert TaskFits(w, job);
    }
  }

  lemma AcquireKeepsTasks(w: PublishWorld, step: TaskStep)
    requires TasksFit(w) && Allowed(w, step) && IdentifierFits(w, step) && step.Acquire?
    ensures TasksFit(NextWorld(w, step))
  {
    var t := TransitionOf(w, step).value;
    assert TaskFits(w, step.job);
    if Attempt(w.s, step.request, BuildOf(t)).Committed? {
      LeaseAfterCommit(w.s, step.request, t);
      ReceiptsAfterCommit(w.s, step.request, BuildOf(t));
    }
    var v := NextWorld(w, step);
    forall job | job in v.tasks ensures TaskFits(v, job) {
      assert TaskFits(w, job);
    }
  }

  lemma TaskStepKeepsTasks(w: PublishWorld, step: TaskStep)
    requires TasksFit(w) && Allowed(w, step) && IdentifierFits(w, step) && RequestOf(step).Some?
    requires !step.Elsewhere? && !step.Acquire?
    ensures TasksFit(NextWorld(w, step))
  {
    var t := TransitionOf(w, step).value;
    assert TaskFits(w, step.job);
    if Attempt(w.s, step.request, BuildOf(t)).Committed? {
      LeaseAfterCommit(w.s, step.request, t);
      ReceiptsAfterCommit(w.s, step.request, BuildOf(t));
    }
    var v := NextWorld(w, step);
    forall job | job in v.tasks ensures TaskFits(v, job) {
      assert TaskFits(w, job);
    }
  }

  lemma LocalStepKeepsTasks(w: PublishWorld, step: TaskStep)
    requires TasksFit(w) && Allowed(w, step) && RequestOf(step).None?
    ensures TasksFit(NextWorld(w, step))
  {
    var v := NextWorld(w, step);
    forall job | job in v.tasks ensures TaskFits(v, job) {
      assert job in w.tasks ==> TaskFits(w, job);
    }
  }

  lemma StepKeepsTasks(w: PublishWorld, step: TaskStep)
    requires TasksFit(w) && Allowed(w, step) && IdentifierFits(w, step)
    ensures TasksFit(NextWorld(w, step))
  {
    if step.Elsewhere? {
      ElsewhereKeepsTasks(w, step);
    } else if step.Acquire? {
      AcquireKeepsTasks(w, step);
    } else if RequestOf(step).Some? {
      TaskStepKeepsTasks(w, step);
    } else {
      LocalStepKeepsTasks(w, step);
    }
  }

  ghost predicate PublishTrace(worlds: seq<PublishWorld>, steps: seq<TaskStep>) {
    && |worlds| == |steps| + 1 && worlds[0].tasks == map[] && AcquireReceiptsAreOld(worlds[0].s)
    && forall i | 0 <= i < |steps| ::
         Allowed(worlds[i], steps[i]) && IdentifierFits(worlds[i], steps[i]) && worlds[i + 1] == NextWorld(worlds[i], steps[i])
  }

  lemma {:induction false} TracesKeepTasks(worlds: seq<PublishWorld>, steps: seq<TaskStep>, n: nat)
    requires PublishTrace(worlds, steps) && n < |worlds|
    ensures TasksFit(worlds[n])
  {
    if n > 0 {
      TracesKeepTasks(worlds, steps, n - 1);
      assert Allowed(worlds[n - 1], steps[n - 1]) && worlds[n - 1 + 1] == NextWorld(worlds[n - 1], steps[n - 1]);
      StepKeepsTasks(worlds[n - 1], steps[n - 1]);
    }
  }

  /**
    At most one apply is in flight per project, whatever else commits meanwhile and wherever the process
    crashes; and while it is, the durable lease names its job and operation.
   */
  lemma AtMostOneApplyInFlight(worlds: seq<PublishWorld>, steps: seq<TaskStep>, n: nat, a: JobId, b: JobId)
    requires PublishTrace(worlds, steps) && n < |worlds|
    requires a in worlds[n].tasks && worlds[n].tasks[a].Applying?
    requires b in worlds[n].tasks && worlds[n].tasks[b].Applying?
    ensures a == b
    ensures worlds[n].s.publishLease == Some(PublishLease(a, worlds[n].tasks[a].operationId))
  {
    TracesKeepTasks(worlds, steps, n);
    assert TaskFits(worlds[n], a) && TaskFits(worlds[n], b);
  }

  /** A lease acquisition is never answered from a receipt, so a task that was told it has the lease has it. */
  lemma AcquisitionsAreNeverReplays(worlds: seq<PublishWorld>, steps: seq<TaskStep>, n: nat)
    requires PublishTrace(worlds, steps) && n < |steps| && steps[n].Acquire?
    ensures !Attempt(worlds[n].s, steps[n].request, BuildOf(TransitionOf(worlds[n], steps[n]).value)).Replayed?
  {
    TracesKeepTasks(worlds, steps, n);
    assert TaskFits(worlds[n], steps[n].job);
  }

  // When a publish settles

  /**
    A disciplined transition whose guards hold commits exactly when its request identifier is new; a
    repeat leaves the project as it is, whether it is answered or refused.
   */
  lemma CommitsExactlyWhenFresh(s: ProjectState, request: Request, t: Transition)
    requires ProjectInv(s) && Carries(request, t) && Disciplined(s, t) && request.replayPolicy == Canonical
    requires FirstFailedGuard(s, request).None? && Built(t, s, NextContext(s, request)).Ok?
    ensures Attempt(s, request, BuildOf(t)).Committed? <==> request.requestId !in s.receipts
    ensures request.requestId in s.receipts ==>
              Attempt(s, request, BuildOf(t)) ==
                if s.receipts[request.requestId].payload == request.payload then Replayed(s.receipts[request.requestId].response)
                else Refused(IdempotencyKeyReused)
  {
    if request.requestId !in s.receipts {
      DisciplinedTransitionsKeepInvariant(s, request, t);
    }
  }

  function ServiceName(service: ServiceStatus): string {
    match service
    case ServiceCommitted => "COMMITTED"
    case PrecheckConflict => "PRECHECK_CONFLICT"
    case PublishBusy => "PUBLISH_BUSY"
    case RecoveryBlocked => "PUBLISH_RECOVERY_BLOCKED"
    case ManualRequired => "MANUAL_PUBLISH_REQUIRED"
  }

  lemma ServiceNamesDiffer(a: ServiceStatus, b: ServiceStatus)
    ensures ServiceName(a) == ServiceName(b) <==> a == b
  {
    assert |ServiceName(ServiceCommitted)| == 9 && |ServiceName(PublishBusy)| == 12 && |ServiceName(PrecheckConflict)| == 17;
    assert |ServiceName(ManualRequired)| == 23 && |ServiceName(RecoveryBlocked)| == 24;
  }

  // The mutation of the step commits, and its request was not known before.
  ghost predicate CommitsAnew(w: PublishWorld, step: TaskStep) {
    && TransitionOf(w, step).Some? && RequestOf(step).Some? && RequestOf(step).value.requestId !in w.s.receipts
    && Attempt(w.s, RequestOf(step).value, BuildOf(TransitionOf(w, step).value)).Committed?
  }

  /**
    A task is ready to apply, applies, or recovers only after a commit of its own: an apply starts only with a new
    commit of SUBMITTED, never on the answer to a repeat, and an attempt is taken up to be applied only while prepared.
   */
  lemma StagesFollowCommits(w: PublishWorld, step: TaskStep, job: JobId)
    requires Allowed(w, step) && job in NextWorld(w, step).tasks
    requires job !in w.tasks || w.tasks[job] != NextWorld(w, step).tasks[job]
    ensures var stage := NextWorld(w, step).tasks[job];
            && (stage.Applying? ==>
                  step.SubmitAndApply? && step.job == job && step.started && CommitsAnew(w, step)
                  && job in w.tasks && w.tasks[job] == ReadyToApply(stage.operationId))
            && (stage.ReadyToApply? ==>
                  && (step.Prepare? || (step.BeginRecovery? && step.attempt.status == Prepared)) && step.job == job && CommitsAnew(w, step)
                  && job in w.tasks && w.tasks[job] == HasLease(stage.operationId) && step.attempt.operationId == stage.operationId)
            && (stage.Recovering? ==>
                  step.BeginRecovery? && step.job == job && step.attempt.status != Prepared && CommitsAnew(w, step))
            && (stage.HasLease? ==> step.Acquire? && step.job == job)
  {
    if TransitionOf(w, step).Some? && RequestOf(step).Some? &&
       Attempt(w.s, RequestOf(step).value, BuildOf(TransitionOf(w, step).value)).Committed? {
      CommitAdvancesCounters(w.s, RequestOf(step).value, BuildOf(TransitionOf(w, step).value));
    }
  }

  /**
    The outcome request carries job and service status only, so an outcome settles the run exactly when no
    outcome with that status was ever recorded for the job. Otherwise the run stays where it is:
    READY_TO_PUBLISH after a second precheck conflict, PUBLISHING with the lease held after a second
    blocked recovery.
   */
  lemma OutcomeSettlesExactlyWhenFresh(s: ProjectState, request: Request, job: JobId, service: ServiceStatus)
    requires ProjectInv(s) && Carries(request, Move(job, PublishMove(SettlePublish(service))))
    requires request.replayPolicy == Canonical && request.requestId == OutcomeRequest(job, ServiceName(service))
    requires FirstFailedGuard(s, request).None? && job in s.runs
    requires service == ServiceCommitted ==> PublishCommitted(s.runs[job]) && !LeaseNames(s.publishLease, job)
    ensures var outcome := Attempt(s, request, BuildOf(Move(job, PublishMove(SettlePublish(service)))));
            if OutcomeRequest(job, ServiceName(service)) in s.receipts then !outcome.Committed?
            else
              && outcome.Committed? && job in outcome.state.runs
              && outcome.state.runs[job].phase == if service == ServiceCommitted then Completed else Paused
  {
    var t := Move(job, PublishMove(SettlePublish(service)));
    CommitsExactlyWhenFresh(s, request, t);
    if OutcomeRequest(job, ServiceName(service)) !in s.receipts {
      AttemptUnfolds(s, request, t);
      FinalisedMove(s, request, NextContext(s, request), job, t.step, StepRun(t.step, s.runs[job]).value);
    }
  }

  /** A second precheck conflict of the same job, in concrete terms: the run is left ready to publish. */
  lemma SecondConflictLeavesRunReady(s: ProjectState, request: Request, job: JobId)
    requires job in s.runs && s.runs[job].phase == ReadyToPublish
    requires request.replayPolicy == Canonical && request.requestId == OutcomeRequest(job, "PRECHECK_CONFLICT")
    requires request.requestId in s.receipts && s.receipts[request.requestId].payload == request.payload
    ensures Attempt(s, request, BuildOf(Move(job, PublishMove(SettlePublish(PrecheckConflict))))) ==
              Replayed(s.receipts[request.requestId].response)
  {
  }
}
