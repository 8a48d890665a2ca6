/**
  Which task commits what: the worker, review and publish tasks of the jobs, and what every builder relies on,
  derived from them (apps/daemon/src/worker/worker-runner.ts, apps/daemon/src/runtime/runtime-composition.ts,
  apps/daemon/src/runtime/project-runtime.ts, apps/daemon/src/publish/publish-coordinator.ts).

  One worker task and one publish task run per job and epoch; identifiers of runs and attempts are fresh.
  Everything else a committed builder relies on follows.
 */
module DaemonTasks {
  import opened Wrappers
  import opened Ordering
  import opened ProjectModel
  import opened MutationExecutor
  import opened RunSteps
  import opened RunTransitions
  import opened LifecycleInvariant
  import opened ProjectLifecycle

  // A task of a job, under the fence its context was taken under
  datatype Epoch = Epoch(jobId: JobId, fence: nat)

  datatype WorkerStage =
    // compares the approved source and prepares the workspace
    | Starting
    // the workspace is ready; the next attempt has this number
    | WorkspacePrepared(generation: int)
    | Working(pin: Pin)
    // a terminal event was recorded
    | Ending

  // A review or publish task with the attempt it was scheduled under
  datatype StageTask = StageTask(epoch: Epoch, pin: Pin)

  datatype Tasks = Tasks(
    workers: map<Epoch, WorkerStage>, stages: set<StageTask>,
    // whether the publish task has recorded COMMITTED
    publishers: map<Epoch, bool>)

  const NO_TASKS := Tasks(map[], {}, map[])

  function EpochOf(request: Request, job: JobId): Option<Epoch> {
    if request.expectedFence.Some? then Some(Epoch(job, request.expectedFence.value)) else None
  }

  predicate WorkerIs(tasks: Tasks, epoch: Option<Epoch>, stage: WorkerStage) {
    epoch.Some? && epoch.value in tasks.workers && tasks.workers[epoch.value] == stage
  }

  predicate StageRuns(tasks: Tasks, epoch: Option<Epoch>, request: Request) {
    exists task :: task in tasks.stages && epoch == Some(task.epoch) && request.expectedAttemptId == Some(Some(task.pin.attemptId))
  }

  predicate Publisher(tasks: Tasks, epoch: Option<Epoch>) {
    epoch.Some? && epoch.value in tasks.publishers
  }

  /** Which task makes each commit. Every other builder may be committed by anyone. */
  predicate Supervised(tasks: Tasks, s: ProjectState, request: Request, t: Transition) {
    match t
    case Execute(job, _, manifest) => job !in s.runs && Distinct(manifest.enabledTaskIds)
    case Move(job, step) =>
      var epoch := EpochOf(request, job);
      (match step
       case WorkerMove(WorkspaceReady) => WorkerIs(tasks, epoch, Starting)
       case WorkerMove(BeginAttempt(attemptId, generation)) =>
         && WorkerIs(tasks, epoch, WorkspacePrepared(generation))
         && (job in s.runs ==> forall a | a in s.runs[job].attempts :: a.attemptId != attemptId)
       case WorkerMove(AttemptStarted(pin, _)) => WorkerIs(tasks, epoch, Working(pin))
       case WorkerMove(AttemptEnded(pin, _)) => WorkerIs(tasks, epoch, Working(pin)) || WorkerIs(tasks, epoch, Ending)
       case ReviewMove(PauseForDrift(_)) => WorkerIs(tasks, epoch, Starting) || StageRuns(tasks, epoch, request)
       case ControlMove(PauseFailure(stage)) => stage.OtherStage? || StageRuns(tasks, epoch, request)
       case PublishMove(PreparePublish(_)) => Publisher(tasks, epoch)
       case PublishMove(BeginPublishRecovery(_)) => Publisher(tasks, epoch)
       case PublishMove(CompletePublish(_, _, _)) => Publisher(tasks, epoch)
       case PublishMove(SettlePublish(service)) =>
         service == ServiceCommitted ==> Publisher(tasks, epoch) && tasks.publishers[epoch.value]
       case _ => true)
    case _ => true
  }

  function NextGeneration(run: RunRecord): int {
    (if LastAttempt(run).Some? then LastAttempt(run).value.generation else -1) + 1
  }

  /** What a commit makes of the tasks. */
  function TasksAfter(tasks: Tasks, request: Request, t: Transition, next: ProjectState): Tasks {
    if !t.Move? || EpochOf(request, t.jobId).None? || t.jobId !in next.runs then tasks
    else
      var epoch := EpochOf(request, t.jobId).value;
      match t.step
      case WorkerMove(WorkspaceReady) =>
        tasks.(workers := tasks.workers[epoch := WorkspacePrepared(NextGeneration(next.runs[t.jobId]))])
      case WorkerMove(BeginAttempt(attemptId, generation)) =>
        tasks.(workers := tasks.workers[epoch := Working(Pin(attemptId, generation))])
      case WorkerMove(AttemptEnded(_, _)) => tasks.(workers := tasks.workers[epoch := Ending])
      case PublishMove(PreparePublish(_)) => tasks.(publishers := tasks.publishers[epoch := false])
      case PublishMove(BeginPublishRecovery(_)) => tasks.(publishers := tasks.publishers[epoch := false])
      case PublishMove(CompletePublish(_, status, _)) =>
        tasks.(publishers := tasks.publishers[epoch := status == AttemptCommitted])
      case _ => tasks
  }

  const WORKER_PHASES := {Preparing, Fixing}
  const STAGE_PHASES := {ReviewPending, Reviewing, ReadyToPublish}

  predicate Scheduled(s: ProjectState, epoch: Epoch, phases: set<RunPhase>) {
    epoch.jobId in s.runs && s.runs[epoch.jobId].fence == epoch.fence && s.runs[epoch.jobId].phase in phases
  }

  /** Between two commits tasks end, however, and new ones are scheduled from the committed state. */
  predicate TasksMayBecome(s: ProjectState, before: Tasks, after: Tasks) {
    && (forall epoch | epoch in after.workers ::
          || (epoch in before.workers && before.workers[epoch] == after.workers[epoch])
          || (after.workers[epoch] == Starting && Scheduled(s, epoch, WORKER_PHASES)))
    && (forall task | task in after.stages ::
          || task in before.stages
          || (Scheduled(s, task.epoch, STAGE_PHASES) && Pinned(s.runs[task.epoch.jobId], Some(task.pin))))
    && (forall epoch | epoch in after.publishers ::
          || (epoch in before.publishers && before.publishers[epoch] == after.publishers[epoch])
          || (!after.publishers[epoch] && Scheduled(s, epoch, {ReadyToPublish})))
  }

  // What the tasks may count on

  predicate HasAttemptId(run: RunRecord, attemptId: string) {
    exists a :: a in run.attempts && a.attemptId == attemptId
  }

  predicate WorkerFits(run: RunRecord, fence: nat, stage: WorkerStage) {
    fence <= run.fence && (run.fence == fence ==>
      match stage
      case Starting => !HasActive(run)
      case WorkspacePrepared(generation) => generation == |run.attempts| && !HasActive(run)
      case Working(pin) => Pinned(run, Some(pin)) && (run.phase == Running ==> HasActive(run))
      case Ending => true)
  }

  predicate StageFits(run: RunRecord, task: StageTask) {
    task.epoch.fence <= run.fence && (run.fence == task.epoch.fence ==>
      && HasAttemptId(run, task.pin.attemptId)
      && (LastAttempt(run).Some? && LastAttempt(run).value.attemptId == task.pin.attemptId ==> !HasActive(run)))
  }

  predicate PublisherFits(run: RunRecord, fence: nat, recorded: bool) {
    fence <= run.fence && (run.fence == fence && recorded && run.phase == Publishing ==> PublishCommitted(run))
  }

  ghost predicate TasksFit(s: ProjectState, tasks: Tasks) {
    && (forall epoch | epoch in tasks.workers :: epoch.jobId in s.runs && WorkerFits(s.runs[epoch.jobId], epoch.fence, tasks.workers[epoch]))
    && (forall task | task in tasks.stages :: task.epoch.jobId in s.runs && StageFits(s.runs[task.epoch.jobId], task))
    && (forall epoch | epoch in tasks.publishers ::
          epoch.jobId in s.runs && PublisherFits(s.runs[epoch.jobId], epoch.fence, tasks.publishers[epoch]))
  }

  // What a step does to the attempts and the publish record of its run

  predicate KeepsIds(run: RunRecord, next: RunRecord) {
    && |run.attempts| <= |next.attempts|
    && forall i | 0 <= i < |run.attempts| :: next.attempts[i].attemptId == run.attempts[i].attemptId
  }

  // No attempt is added or started, and none of a running run ends.
  predicate Calm(run: RunRecord, next: RunRecord) {
    && |next.attempts| == |run.attempts| && KeepsIds(run, next)
    && (forall i | 0 <= i < |run.attempts| :: next.attempts[i].generation == run.attempts[i].generation)
    && (HasActive(next) ==> HasActive(run))
    && (next.phase == Running ==> run.phase == Running && (HasActive(run) ==> HasActive(next)))
  }

  predicate IsWorkerTaskStep(step: RunStep) {
    step.WorkerMove? && (step.worker.WorkspaceReady? || step.worker.BeginAttempt? || step.worker.AttemptStarted? || step.worker.AttemptEnded?)
  }

  predicate IsPublisherStep(step: RunStep) {
    step.PublishMove? && (step.publish.PreparePublish? || step.publish.BeginPublishRecovery? || step.publish.CompletePublish?)
  }

  lemma WorkerIsCalm(step: WorkerStep, run: RunRecord)
    requires Reaches(WorkerMove(step), run) && !IsWorkerTaskStep(WorkerMove(step))
    ensures Calm(run, StepWorker(step, run).value)
  {
  }

  lemma ReviewIsCalm(step: ReviewStep, run: RunRecord)
    requires Reaches(ReviewMove(step), run)
    ensures Calm(run, StepReview(step, run).value)
  {
  }

  lemma RepairIsCalm(step: RepairStep, run: RunRecord)
    requires Reaches(RepairMove(step), run)
    ensures Calm(run, StepRepair(step, run).value)
  {
  }

  lemma PublishIsCalm(step: PublishStep, run: RunRecord)
    requires Reaches(PublishMove(step), run)
    ensures Calm(run, StepPublish(step, run).value)
  {
  }

  lemma EndingIsCalm(run: RunRecord, next: RunRecord, status: AttemptStatus)
    requires next.attempts == EndLastActive(run.attempts, status) && status != AttemptPreparing && status != AttemptRunning
    requires next.phase != Running
    ensures Calm(run, next)
  {
  }

  lemma RecoveryIsCalm(step: RecoveryStep, run: RunRecord)
    requires Reaches(RecoveryMove(step), run)
    ensures Calm(run, StepRecovery(step, run).value)
  {
    if step.RecoverWorker? {
      EndingIsCalm(run, StepRecovery(step, run).value, AttemptFailed);
    }
  }

  lemma ResumedIsCalm(run: RunRecord, action: ResumeAction, requestId: string, actionId: string, clearHostTurn: bool)
    requires Resumed(run, action, requestId, actionId, clearHostTurn).Ok?
    ensures Calm(run, Resumed(run, action, requestId, actionId, clearHostTurn).value)
  {
  }

  lemma ControlIsCalm(step: ControlStep, run: RunRecord)
    requires Reaches(ControlMove(step), run)
    ensures Calm(run, StepControl(step, run).value)
  {
    if step.ResumeRun? {
      ResumedIsCalm(run, step.action, step.requestId, step.actionId, step.clearHostTurn);
    }
  }

  lemma OtherStepsAreCalm(step: RunStep, run: RunRecord)
    requires Reaches(step, run) && !IsWorkerTaskStep(step)
    ensures Calm(run, StepRun(step, run).value)
  {
    match step
    case WorkerMove(worker) => WorkerIsCalm(worker, run);
    case ReviewMove(review) => ReviewIsCalm(review, run);
    case RepairMove(repair) => RepairIsCalm(repair, run);
    case PublishMove(publish) => PublishIsCalm(publish, run);
    case RecoveryMove(recovery) => RecoveryIsCalm(recovery, run);
    case ControlMove(control) => ControlIsCalm(control, run);
  }

  // A publish that is recorded as committed stays so while the run is in PUBLISHING.
  predicate KeepsCommitted(run: RunRecord, next: RunRecord) {
    next.phase == Publishing ==> run.phase == Publishing && (PublishCommitted(run) ==> PublishCommitted(next))
  }

  lemma WorkerKeepsCommitted(step: WorkerStep, run: RunRecord)
    requires Reaches(WorkerMove(step), run)
    ensures KeepsCommitted(run, StepWorker(step, run).value)
  {
  }

  lemma ReviewKeepsCommitted(step: ReviewStep, run: RunRecord)
    requires Reaches(ReviewMove(step), run)
    ensures KeepsCommitted(run, StepReview(step, run).value)
  {
  }

  lemma PublishKeepsCommitted(step: PublishStep, run: RunRecord)
    requires Reaches(PublishMove(step), run) && !IsPublisherStep(PublishMove(step))
    ensures KeepsCommitted(run, StepPublish(step, run).value)
  {
  }

  lemma ControlKeepsCommitted(step: ControlStep, run: RunRecord)
    requires Reaches(ControlMove(step), run)
    ensures KeepsCommitted(run, StepControl(step, run).value)
  {
  }

  lemma OtherStepsKeepCommitted(step: RunStep, run: RunRecord)
    requires Reaches(step, run) && !IsPublisherStep(step)
    ensures KeepsCommitted(run, StepRun(step, run).value)
  {
    match step
    case WorkerMove(worker) => WorkerKeepsCommitted(worker, run);
    case ReviewMove(review) => ReviewKeepsCommitted(review, run);
    case PublishMove(publish) => PublishKeepsCommitted(publish, run);
    case ControlMove(control) => ControlKeepsCommitted(control, run);
    case _ =>
  }

  // The guards a commit passed

  lemma GuardsHold(s: ProjectState, request: Request, job: JobId)
    requires Decide(s, request).Proceed? && request.expectedJobId == Some(job) && job in s.runs
    ensures request.expectedFence.Some? ==> request.expectedFence.value == s.runs[job].fence
    ensures request.expectedAttemptId.Some? ==> AttemptIdOf(LastAttempt(s.runs[job])) == request.expectedAttemptId.value
  {
  }

  // What the steps rely on, from the tasks

  lemma StageIsIdle(run: RunRecord, task: StageTask)
    requires StageFits(run, task) && run.fence == task.epoch.fence && AttemptIdOf(LastAttempt(run)) == Some(task.pin.attemptId)
    ensures !HasActive(run)
  {
  }

  lemma TasksFindIdleWorker(s: ProjectState, request: Request, job: JobId, tasks: Tasks)
    requires TasksFit(s, tasks) && Decide(s, request).Proceed? && request.expectedJobId == Some(job) && job in s.runs
    requires WorkerIs(tasks, EpochOf(request, job), Starting) || StageRuns(tasks, EpochOf(request, job), request)
    ensures !HasActive(s.runs[job])
  {
    GuardsHold(s, request, job);
    var epoch := EpochOf(request, job).value;
    if WorkerIs(tasks, EpochOf(request, job), Starting) {
      assert WorkerFits(s.runs[job], epoch.fence, tasks.workers[epoch]);
    } else {
      var task :| task in tasks.stages && EpochOf(request, job) == Some(task.epoch) && request.expectedAttemptId == Some(Some(task.pin.attemptId));
      StageIsIdle(s.runs[job], task);
    }
  }

  lemma PreparedWorkerNumbersNext(s: ProjectState, request: Request, job: JobId, tasks: Tasks, generation: int)
    requires TasksFit(s, tasks) && Decide(s, request).Proceed? && request.expectedJobId == Some(job) && job in s.runs
    requires WorkerIs(tasks, EpochOf(request, job), WorkspacePrepared(generation))
    ensures generation == |s.runs[job].attempts| && !HasActive(s.runs[job])
  {
    GuardsHold(s, request, job);
    var epoch := EpochOf(request, job).value;
    assert WorkerFits(s.runs[job], epoch.fence, tasks.workers[epoch]);
  }

  lemma CommittedIsRecorded(s: ProjectState, request: Request, job: JobId, tasks: Tasks)
    requires TasksFit(s, tasks) && Decide(s, request).Proceed? && request.expectedJobId == Some(job) && job in s.runs
    requires Publisher(tasks, EpochOf(request, job)) && tasks.publishers[EpochOf(request, job).value]
    requires s.runs[job].phase == Publishing
    ensures PublishCommitted(s.runs[job])
  {
    GuardsHold(s, request, job);
    var epoch := EpochOf(request, job).value;
    assert PublisherFits(s.runs[job], epoch.fence, tasks.publishers[epoch]);
  }

  lemma CommittedRecordIsValid(s: ProjectState, request: Request, job: JobId, step: RunStep, next: ProjectState)
    requires LifecycleStep(s, request, Move(job, step), next) && step.PublishMove?
    ensures job in s.runs && StepRun(step, s.runs[job]).Ok?
    ensures var moved := StepRun(step, s.runs[job]).value; moved.publish.Some? ==> ValidPublishAttempt(moved.publish.value)
  {
    CommittedMoves(s, request, job, step, next);
    assert ValidRun(next.runs[job]);
  }

  lemma ValidRecordIsDisciplined(step: PublishStep, run: RunRecord)
    requires StepPublish(step, run).Ok? && step != SettlePublish(ServiceCommitted)
    requires StepPublish(step, run).value.publish.Some? ==> ValidPublishAttempt(StepPublish(step, run).value.publish.value)
    ensures StepDisciplined(PublishMove(step), run)
  {
  }

  lemma PublishStepIsDisciplined(s: ProjectState, request: Request, job: JobId, step: PublishStep, next: ProjectState, tasks: Tasks)
    requires ValidProject(s) && TasksFit(s, tasks) && Supervised(tasks, s, request, Move(job, PublishMove(step)))
    requires LifecycleStep(s, request, Move(job, PublishMove(step)), next)
    ensures job in s.runs && StepDisciplined(PublishMove(step), s.runs[job])
  {
    MoveReaches(s, request, job, PublishMove(step), next);
    if step == SettlePublish(ServiceCommitted) {
      CommittedIsRecorded(s, request, job, tasks);
    } else {
      CommittedRecordIsValid(s, request, job, PublishMove(step), next);
      ValidRecordIsDisciplined(step, s.runs[job]);
    }
  }

  /** What a committed builder relied on was so: the tasks and the schema made sure of it. */
  lemma SupervisedStepIsDisciplined(s: ProjectState, request: Request, job: JobId, step: RunStep, next: ProjectState, tasks: Tasks)
    requires ValidProject(s) && TasksFit(s, tasks) && Supervised(tasks, s, request, Move(job, step))
    requires LifecycleStep(s, request, Move(job, step), next)
    ensures job in s.runs && StepDisciplined(step, s.runs[job])
  {
    MoveReaches(s, request, job, step, next);
    match step
    case WorkerMove(BeginAttempt(_, generation)) => PreparedWorkerNumbersNext(s, request, job, tasks, generation);
    case ReviewMove(PauseForDrift(_)) => TasksFindIdleWorker(s, request, job, tasks);
    case ControlMove(PauseFailure(stage)) =>
      if !stage.OtherStage? {
        TasksFindIdleWorker(s, request, job, tasks);
      }
    case PublishMove(publish) => PublishStepIsDisciplined(s, request, job, publish, next, tasks);
    case _ =>
  }

  /** So every supervised commit keeps the whole invariant. */
  lemma SupervisedStepKeepsInvariant(s: ProjectState, request: Request, t: Transition, next: ProjectState, tasks: Tasks)
    requires ProjectInv(s) && TasksFit(s, tasks) && Supervised(tasks, s, request, t) && LifecycleStep(s, request, t, next)
    ensures Disciplined(s, t) && ProjectInv(next)
  {
    CommittedReachedBuilder(s, request, t);
    if t.Move? {
      SupervisedStepIsDisciplined(s, request, t.jobId, t.step, next, tasks);
      MoveCommitsUnlessLeased(s, request, t.jobId, t.step);
    }
    DisciplinedTransitionsKeepInvariant(s, request, t);
  }

  // What a commit leaves the tasks with

  // The run after a commit: its fence only rises, and a run that gets a new fence leaves the old one for good.
  predicate Refenced(run: RunRecord, moved: RunRecord, next: RunRecord) {
    next == moved.(fence := next.fence) && run.fence <= next.fence
  }

  lemma CalmKeepsWorker(run: RunRecord, moved: RunRecord, next: RunRecord, fence: nat, stage: WorkerStage)
    requires Calm(run, moved) && Refenced(run, moved, next) && WorkerFits(run, fence, stage)
    ensures WorkerFits(next, fence, stage)
  {
  }

  lemma IdsKeepStage(run: RunRecord, moved: RunRecord, next: RunRecord, task: StageTask)
    requires KeepsIds(run, moved) && Refenced(run, moved, next) && StageFits(run, task)
    requires HasActive(moved) && LastAttempt(moved).value.attemptId == task.pin.attemptId ==>
               HasActive(run) && LastAttempt(run).value.attemptId == task.pin.attemptId
    ensures StageFits(next, task)
  {
    if next.fence == task.epoch.fence {
      var a :| a in run.attempts && a.attemptId == task.pin.attemptId;
      var i :| 0 <= i < |run.attempts| && run.attempts[i] == a;
      assert moved.attempts[i] in moved.attempts && moved.attempts[i].attemptId == task.pin.attemptId;
    }
  }

  lemma CommittedKeepsPublisher(run: RunRecord, moved: RunRecord, next: RunRecord, fence: nat, recorded: bool)
    requires KeepsCommitted(run, moved) && Refenced(run, moved, next) && PublisherFits(run, fence, recorded)
    ensures PublisherFits(next, fence, recorded)
  {
  }

  // The worker task's own steps

  lemma WorkspaceReadyFits(run: RunRecord)
    requires AttemptsInv(run) && !HasActive(run)
    ensures var moved := StepWorker(WorkspaceReady, run).value;
            moved.attempts == run.attempts && WorkerFits(moved, moved.fence, WorkspacePrepared(NextGeneration(moved)))
  {
  }

  lemma BegunFits(run: RunRecord, attemptId: string, generation: int)
    ensures var moved := StepWorker(BeginAttempt(attemptId, generation), run).value;
            && WorkerFits(moved, moved.fence, Working(Pin(attemptId, generation)))
            && KeepsIds(run, moved) && LastAttempt(moved).value.attemptId == attemptId
  {
  }

  lemma StartedFits(run: RunRecord, pin: Pin, piSessionId: SessionId)
    requires AttemptsInv(run) && Reaches(WorkerMove(AttemptStarted(pin, piSessionId)), run)
    ensures var moved := StepWorker(AttemptStarted(pin, piSessionId), run).value;
            && WorkerFits(moved, moved.fence, Working(pin))
            && KeepsIds(run, moved) && LastAttempt(moved).value.attemptId == LastAttempt(run).value.attemptId
  {
    LastIsFirstMatch(run, pin);
  }

  lemma EndedFits(run: RunRecord, pin: Pin, end: WorkerEnd)
    requires AttemptsInv(run) && Reaches(WorkerMove(AttemptEnded(pin, end)), run)
    ensures var moved := StepWorker(AttemptEnded(pin, end), run).value;
            KeepsIds(run, moved) && !HasActive(moved)
  {
    LastIsFirstMatch(run, pin);
  }

  lemma MovedIsRefenced(s: ProjectState, request: Request, job: JobId, step: RunStep, next: ProjectState)
    requires ProjectInv(s) && LifecycleStep(s, request, Move(job, step), next)
    ensures job in s.runs && StepRun(step, s.runs[job]).Ok? && job in next.runs
    ensures Refenced(s.runs[job], StepRun(step, s.runs[job]).value, next.runs[job])
    ensures step != RecoveryMove(NewEpoch) ==> next.runs[job].fence == s.runs[job].fence
  {
    CommittedMoves(s, request, job, step, next);
  }

  // A commit by the worker task of this epoch
  lemma WorkerStepFits(run: RunRecord, step: WorkerStep, tasks: Tasks, request: Request, next: ProjectState, epoch: Epoch)
    requires AttemptsInv(run) && Reaches(WorkerMove(step), run) && IsWorkerTaskStep(WorkerMove(step))
    requires EpochOf(request, epoch.jobId) == Some(epoch) && epoch.fence == run.fence && epoch.jobId in next.runs
    requires next.runs[epoch.jobId] == StepWorker(step, run).value.(fence := run.fence)
    requires epoch in tasks.workers && WorkerFits(run, epoch.fence, tasks.workers[epoch])
    requires step.WorkspaceReady? ==> tasks.workers[epoch] == Starting
    requires step.AttemptStarted? ==> tasks.workers[epoch] == Working(step.pin)
    ensures var after := TasksAfter(tasks, request, Move(epoch.jobId, WorkerMove(step)), next);
            epoch in after.workers && WorkerFits(next.runs[epoch.jobId], epoch.fence, after.workers[epoch])
  {
    match step
    case WorkspaceReady => WorkspaceReadyFits(run);
    case BeginAttempt(attemptId, generation) => BegunFits(run, attemptId, generation);
    case AttemptStarted(pin, piSessionId) => StartedFits(run, pin, piSessionId);
    case AttemptEnded(pin, end) => EndedFits(run, pin, end);
  }

  lemma SupervisedWorkerStep(s: ProjectState, request: Request, job: JobId, step: WorkerStep, tasks: Tasks)
    requires TasksFit(s, tasks) && Supervised(tasks, s, request, Move(job, WorkerMove(step))) && IsWorkerTaskStep(WorkerMove(step))
    requires Decide(s, request).Proceed? && request.expectedJobId == Some(job) && job in s.runs
    ensures EpochOf(request, job) == Some(Epoch(job, s.runs[job].fence))
    ensures var epoch := Epoch(job, s.runs[job].fence);
            && epoch in tasks.workers && WorkerFits(s.runs[job], epoch.fence, tasks.workers[epoch])
            && (step.WorkspaceReady? ==> tasks.workers[epoch] == Starting)
            && (step.AttemptStarted? ==> tasks.workers[epoch] == Working(step.pin))
  {
    GuardsHold(s, request, job);
  }

  lemma OwnWorkerFits(s: ProjectState, request: Request, job: JobId, step: RunStep, next: ProjectState, tasks: Tasks, epoch: Epoch)
    requires ProjectInv(s) && TasksFit(s, tasks) && Supervised(tasks, s, request, Move(job, step))
    requires LifecycleStep(s, request, Move(job, step), next) && epoch.jobId == job
    requires epoch in TasksAfter(tasks, request, Move(job, step), next).workers
    ensures job in next.runs && WorkerFits(next.runs[job], epoch.fence, TasksAfter(tasks, request, Move(job, step), next).workers[epoch])
  {
    MoveReaches(s, request, job, step, next);
    MovedIsRefenced(s, request, job, step, next);
    var run, moved := s.runs[job], StepRun(step, s.runs[job]).value;
    if !IsWorkerTaskStep(step) {
      OtherStepsAreCalm(step, run);
      CalmKeepsWorker(run, moved, next.runs[job], epoch.fence, tasks.workers[epoch]);
    } else {
      SupervisedWorkerStep(s, request, job, step.worker, tasks);
      if epoch.fence == run.fence {
        WorkerStepFits(run, step.worker, tasks, request, next, epoch);
      } else {
        assert WorkerFits(run, epoch.fence, tasks.workers[epoch]);
      }
    }
  }

  // Whether the last attempt of a run runs, under this id
  predicate RunsAs(run: RunRecord, attemptId: string) {
    HasActive(run) && LastAttempt(run).value.attemptId == attemptId
  }

  lemma WorkerStepKeepsStage(s: ProjectState, request: Request, job: JobId, step: WorkerStep, tasks: Tasks, task: StageTask)
    requires job in s.runs && RunInv(s.runs[job]) && TasksFit(s, tasks)
    requires Supervised(tasks, s, request, Move(job, WorkerMove(step)))
    requires Decide(s, request).Proceed? && request.expectedJobId == Some(job)
    requires Reaches(WorkerMove(step), s.runs[job]) && IsWorkerTaskStep(WorkerMove(step))
    requires task in tasks.stages && task.epoch == Epoch(job, s.runs[job].fence)
    ensures var moved := StepWorker(step, s.runs[job]).value;
            KeepsIds(s.runs[job], moved) && (RunsAs(moved, task.pin.attemptId) ==> RunsAs(s.runs[job], task.pin.attemptId))
  {
    var run := s.runs[job];
    assert StageFits(run, task);
    SupervisedWorkerStep(s, request, job, step, tasks);
    match step
    case WorkspaceReady =>
    case BeginAttempt(attemptId, generation) => BegunFits(run, attemptId, generation);
    case AttemptStarted(pin, piSessionId) => StartedFits(run, pin, piSessionId);
    case AttemptEnded(pin, end) => EndedFits(run, pin, end);
  }

  lemma OwnStageFits(s: ProjectState, request: Request, job: JobId, step: RunStep, next: ProjectState, tasks: Tasks, task: StageTask)
    requires ProjectInv(s) && TasksFit(s, tasks) && Supervised(tasks, s, request, Move(job, step))
    requires LifecycleStep(s, request, Move(job, step), next) && task.epoch.jobId == job && task in tasks.stages
    ensures job in next.runs && StageFits(next.runs[job], task)
  {
    MoveReaches(s, request, job, step, next);
    MovedIsRefenced(s, request, job, step, next);
    var run, moved := s.runs[job], StepRun(step, s.runs[job]).value;
    assert StageFits(run, task);
    if task.epoch.fence == run.fence {
      if IsWorkerTaskStep(step) {
        WorkerStepKeepsStage(s, request, job, step.worker, tasks, task);
      } else {
        OtherStepsAreCalm(step, run);
      }
      IdsKeepStage(run, moved, next.runs[job], task);
    }
  }

  lemma PublisherStepFits(run: RunRecord, step: PublishStep, tasks: Tasks, request: Request, next: ProjectState, epoch: Epoch)
    requires IsPublisherStep(PublishMove(step)) && StepPublish(step, run).Ok?
    requires EpochOf(request, epoch.jobId) == Some(epoch) && epoch.jobId in next.runs && epoch.fence <= run.fence
    requires next.runs[epoch.jobId] == StepPublish(step, run).value.(fence := run.fence)
    ensures var after := TasksAfter(tasks, request, Move(epoch.jobId, PublishMove(step)), next);
            epoch in after.publishers && PublisherFits(next.runs[epoch.jobId], epoch.fence, after.publishers[epoch])
  {
  }

  lemma SupervisedPublisherStep(s: ProjectState, request: Request, job: JobId, step: RunStep, tasks: Tasks)
    requires Supervised(tasks, s, request, Move(job, step)) && IsPublisherStep(step)
    requires Decide(s, request).Proceed? && request.expectedJobId == Some(job) && job in s.runs
    ensures EpochOf(request, job) == Some(Epoch(job, s.runs[job].fence))
  {
    GuardsHold(s, request, job);
  }

  lemma PublisherTasksAfter(tasks: Tasks, request: Request, job: JobId, step: RunStep, next: ProjectState, epoch: Epoch)
    requires !IsPublisherStep(step) || EpochOf(request, job) != Some(epoch)
    ensures var after := TasksAfter(tasks, request, Move(job, step), next).publishers;
            epoch in after ==> epoch in tasks.publishers && after[epoch] == tasks.publishers[epoch]
  {
  }

  lemma OwnPublisherFits(s: ProjectState, request: Request, job: JobId, step: RunStep, next: ProjectState, tasks: Tasks, epoch: Epoch)
    requires ProjectInv(s) && TasksFit(s, tasks) && Supervised(tasks, s, request, Move(job, step))
    requires LifecycleStep(s, request, Move(job, step), next) && epoch.jobId == job
    requires epoch in TasksAfter(tasks, request, Move(job, step), next).publishers
    ensures job in next.runs && PublisherFits(next.runs[job], epoch.fence, TasksAfter(tasks, request, Move(job, step), next).publishers[epoch])
  {
    MoveReaches(s, request, job, step, next);
    MovedIsRefenced(s, request, job, step, next);
    if IsPublisherStep(step) {
      SupervisedPublisherStep(s, request, job, step, tasks);
    }
    if IsPublisherStep(step) && EpochOf(request, job) == Some(epoch) {
      PublisherStepFits(s.runs[job], step.publish, tasks, request, next, epoch);
    } else {
      PublisherTasksAfter(tasks, request, job, step, next, epoch);
      OtherPublisherFits(s, request, job, step, next, tasks, epoch);
    }
  }

  lemma OtherPublisherFits(s: ProjectState, request: Request, job: JobId, step: RunStep, next: ProjectState, tasks: Tasks, epoch: Epoch)
    requires job in s.runs && Reaches(step, s.runs[job]) && job in next.runs
    requires Refenced(s.runs[job], StepRun(step, s.runs[job]).value, next.runs[job])
    requires step != RecoveryMove(NewEpoch) ==> next.runs[job].fence == s.runs[job].fence
    requires epoch in tasks.publishers && PublisherFits(s.runs[job], epoch.fence, tasks.publishers[epoch])
    requires IsPublisherStep(step) ==> EpochOf(request, job) == Some(Epoch(job, s.runs[job].fence)) && epoch.fence != s.runs[job].fence
    ensures PublisherFits(next.runs[job], epoch.fence, tasks.publishers[epoch])
  {
    if !IsPublisherStep(step) {
      OtherStepsKeepCommitted(step, s.runs[job]);
      CommittedKeepsPublisher(s.runs[job], StepRun(step, s.runs[job]).value, next.runs[job], epoch.fence, tasks.publishers[epoch]);
    }
  }

  // All tasks

  lemma OtherTasksStay(tasks: Tasks, request: Request, t: Transition, next: ProjectState, epoch: Epoch)
    requires !(t.Move? && t.jobId == epoch.jobId)
    ensures var after := TasksAfter(tasks, request, t, next);
            && (epoch in after.workers ==> epoch in tasks.workers && after.workers[epoch] == tasks.workers[epoch])
            && (epoch in after.publishers ==> epoch in tasks.publishers && after.publishers[epoch] == tasks.publishers[epoch])
  {
  }

  lemma OtherRunsStay(s: ProjectState, request: Request, t: Transition, next: ProjectState, job: JobId)
    requires LifecycleStep(s, request, t, next) && job in s.runs && !(t.Move? && t.jobId == job)
    ensures job in next.runs && next.runs[job] == s.runs[job]
  {
    if t.Execute? || t.jobId != job {
      OthersStay(s, request, t, next, job);
    } else {
      CommittedReachedBuilder(s, request, t);
      AttemptUnfolds(s, request, t);
      FinalisedLeaseStep(s, request, t);
    }
  }

  lemma CommitKeepsWorkers(s: ProjectState, request: Request, t: Transition, next: ProjectState, tasks: Tasks, epoch: Epoch)
    requires ProjectInv(s) && TasksFit(s, tasks) && Supervised(tasks, s, request, t) && LifecycleStep(s, request, t, next)
    requires epoch in TasksAfter(tasks, request, t, next).workers
    ensures epoch.jobId in next.runs
    ensures WorkerFits(next.runs[epoch.jobId], epoch.fence, TasksAfter(tasks, request, t, next).workers[epoch])
  {
    if t.Move? && t.jobId == epoch.jobId {
      OwnWorkerFits(s, request, t.jobId, t.step, next, tasks, epoch);
    } else {
      OtherTasksStay(tasks, request, t, next, epoch);
      OtherRunsStay(s, request, t, next, epoch.jobId);
    }
  }

  lemma CommitKeepsStages(s: ProjectState, request: Request, t: Transition, next: ProjectState, tasks: Tasks, task: StageTask)
    requires ProjectInv(s) && TasksFit(s, tasks) && Supervised(tasks, s, request, t) && LifecycleStep(s, request, t, next)
    requires task in tasks.stages
    ensures task.epoch.jobId in next.runs && StageFits(next.runs[task.epoch.jobId], task)
  {
    if t.Move? && t.jobId == task.epoch.jobId {
      OwnStageFits(s, request, t.jobId, t.step, next, tasks, task);
    } else {
      OtherRunsStay(s, request, t, next, task.epoch.jobId);
    }
  }

  lemma CommitKeepsPublishers(s: ProjectState, request: Request, t: Transition, next: ProjectState, tasks: Tasks, epoch: Epoch)
    requires ProjectInv(s) && TasksFit(s, tasks) && Supervised(tasks, s, request, t) && LifecycleStep(s, request, t, next)
    requires epoch in TasksAfter(tasks, request, t, next).publishers
    ensures epoch.jobId in next.runs
    ensures PublisherFits(next.runs[epoch.jobId], epoch.fence, TasksAfter(tasks, request, t, next).publishers[epoch])
  {
    if t.Move? && t.jobId == epoch.jobId {
      OwnPublisherFits(s, request, t.jobId, t.step, next, tasks, epoch);
    } else {
      OtherTasksStay(tasks, request, t, next, epoch);
      OtherRunsStay(s, request, t, next, epoch.jobId);
    }
  }

  lemma StagesStaySame(tasks: Tasks, request: Request, t: Transition, next: ProjectState)
    ensures TasksAfter(tasks, request, t, next).stages == tasks.stages
  {
  }

  /** Whatever commits, the tasks can still count on what they could count on. */
  lemma CommitKeepsTasks(s: ProjectState, request: Request, t: Transition, next: ProjectState, tasks: Tasks)
    requires ProjectInv(s) && TasksFit(s, tasks) && Supervised(tasks, s, request, t) && LifecycleStep(s, request, t, next)
    ensures TasksFit(next, TasksAfter(tasks, request, t, next))
  {
    var after := TasksAfter(tasks, request, t, next);
    forall epoch | epoch in after.workers
      ensures epoch.jobId in next.runs && WorkerFits(next.runs[epoch.jobId], epoch.fence, after.workers[epoch])
    {
      CommitKeepsWorkers(s, request, t, next, tasks, epoch);
    }
    StagesStaySame(tasks, request, t, next);
    forall task | task in after.stages ensures task.epoch.jobId in next.runs && StageFits(next.runs[task.epoch.jobId], task) {
      CommitKeepsStages(s, request, t, next, tasks, task);
    }
    forall epoch | epoch in after.publishers
      ensures epoch.jobId in next.runs && PublisherFits(next.runs[epoch.jobId], epoch.fence, after.publishers[epoch])
    {
      CommitKeepsPublishers(s, request, t, next, tasks, epoch);
    }
  }

  // New tasks

  lemma ScheduledWorkerFits(s: ProjectState, epoch: Epoch)
    requires ProjectInv(s) && Scheduled(s, epoch, WORKER_PHASES)
    ensures WorkerFits(s.runs[epoch.jobId], epoch.fence, Starting)
  {
    assert RunInv(s.runs[epoch.jobId]);
  }

  lemma ScheduledStageFits(s: ProjectState, task: StageTask)
    requires ProjectInv(s) && Scheduled(s, task.epoch, STAGE_PHASES) && Pinned(s.runs[task.epoch.jobId], Some(task.pin))
    ensures StageFits(s.runs[task.epoch.jobId], task)
  {
    var run := s.runs[task.epoch.jobId];
    assert RunInv(run);
    assert run.attempts[|run.attempts| - 1] in run.attempts;
  }

  lemma NewWorkersFit(s: ProjectState, before: Tasks, after: Tasks)
    requires ProjectInv(s) && TasksFit(s, before) && TasksMayBecome(s, before, after)
    ensures forall epoch | epoch in after.workers ::
              epoch.jobId in s.runs && WorkerFits(s.runs[epoch.jobId], epoch.fence, after.workers[epoch])
  {
    forall epoch | epoch in after.workers
      ensures epoch.jobId in s.runs && WorkerFits(s.runs[epoch.jobId], epoch.fence, after.workers[epoch])
    {
      if !(epoch in before.workers && before.workers[epoch] == after.workers[epoch]) {
        ScheduledWorkerFits(s, epoch);
      }
    }
  }

  lemma NewStagesFit(s: ProjectState, before: Tasks, after: Tasks)
    requires ProjectInv(s) && TasksFit(s, before) && TasksMayBecome(s, before, after)
    ensures forall task | task in after.stages :: task.epoch.jobId in s.runs && StageFits(s.runs[task.epoch.jobId], task)
  {
    forall task | task in after.stages ensures task.epoch.jobId in s.runs && StageFits(s.runs[task.epoch.jobId], task) {
      if task !in before.stages {
        ScheduledStageFits(s, task);
      }
    }
  }

  lemma NewPublishersFit(s: ProjectState, before: Tasks, after: Tasks)
    requires TasksFit(s, before) && TasksMayBecome(s, before, after)
    ensures forall epoch | epoch in after.publishers ::
              epoch.jobId in s.runs && PublisherFits(s.runs[epoch.jobId], epoch.fence, after.publishers[epoch])
  {
  }

  lemma NewTasksFit(s: ProjectState, before: Tasks, after: Tasks)
    requires ProjectInv(s) && TasksFit(s, before) && TasksMayBecome(s, before, after)
    ensures TasksFit(s, after)
  {
    NewWorkersFit(s, before, after);
    NewStagesFit(s, before, after);
    NewPublishersFit(s, before, after);
  }

  // A run that waits for a review or a publish has been worked on

  predicate WorkedFirst(run: RunRecord) {
    run.attempts == [] ==>
      && run.phase in {Preparing, Running, Paused, Canceling, Canceled}
      && run.pendingAction.None? && run.review.None? && !run.driftFromReview
      && (run.phase == Paused ==>
            run.pause.Some? && RetryPublish !in run.pause.value.resumeActions && ConfirmManualPublish !in run.pause.value.resumeActions)
  }

  ghost predicate AllWorkedFirst(s: ProjectState) {
    forall job | job in s.runs :: WorkedFirst(s.runs[job])
  }

  lemma WorkerKeepsWorkedFirst(step: WorkerStep, run: RunRecord)
    requires WorkedFirst(run) && Reaches(WorkerMove(step), run)
    ensures WorkedFirst(StepWorker(step, run).value)
  {
  }

  lemma ReviewKeepsWorkedFirst(step: ReviewStep, run: RunRecord)
    requires WorkedFirst(run) && Reaches(ReviewMove(step), run)
    ensures WorkedFirst(StepReview(step, run).value)
  {
    ReviewIsCalm(step, run);
  }

  lemma PublishKeepsWorkedFirst(step: PublishStep, run: RunRecord)
    requires WorkedFirst(run) && Reaches(PublishMove(step), run)
    ensures WorkedFirst(StepPublish(step, run).value)
  {
    PublishIsCalm(step, run);
  }

  lemma RecoveryKeepsWorkedFirst(step: RecoveryStep, run: RunRecord)
    requires WorkedFirst(run) && Reaches(RecoveryMove(step), run)
    ensures WorkedFirst(StepRecovery(step, run).value)
  {
    RecoveryIsCalm(step, run);
  }

  lemma ResumedKeepsWorkedFirst(run: RunRecord, action: ResumeAction, requestId: string, actionId: string, clearHostTurn: bool)
    requires WorkedFirst(run) && Resumed(run, action, requestId, actionId, clearHostTurn).Ok?
    ensures WorkedFirst(Resumed(run, action, requestId, actionId, clearHostTurn).value)
  {
  }

  lemma ControlKeepsWorkedFirst(step: ControlStep, run: RunRecord)
    requires WorkedFirst(run) && Reaches(ControlMove(step), run) && (step == PauseFailure(PublishStage) ==> run.attempts != [])
    ensures WorkedFirst(StepControl(step, run).value)
  {
    ControlIsCalm(step, run);
    if step.ResumeRun? {
      ResumedKeepsWorkedFirst(run, step.action, step.requestId, step.actionId, step.clearHostTurn);
    }
  }

  lemma StepKeepsWorkedFirst(step: RunStep, run: RunRecord)
    requires WorkedFirst(run) && Reaches(step, run)
    requires step == ControlMove(PauseFailure(PublishStage)) ==> run.attempts != []
    ensures WorkedFirst(StepRun(step, run).value)
  {
    match step
    case WorkerMove(worker) => WorkerKeepsWorkedFirst(worker, run);
    case ReviewMove(review) => ReviewKeepsWorkedFirst(review, run);
    case RepairMove(repair) => RepairIsCalm(repair, run);
    case PublishMove(publish) => PublishKeepsWorkedFirst(publish, run);
    case RecoveryMove(recovery) => RecoveryKeepsWorkedFirst(recovery, run);
    case ControlMove(control) => ControlKeepsWorkedFirst(control, run);
  }

  lemma FailingPublishWasWorkedOn(s: ProjectState, request: Request, job: JobId, tasks: Tasks)
    requires TasksFit(s, tasks) && Decide(s, request).Proceed? && request.expectedJobId == Some(job) && job in s.runs
    requires StageRuns(tasks, EpochOf(request, job), request)
    ensures s.runs[job].attempts != []
  {
    GuardsHold(s, request, job);
    var task :| task in tasks.stages && EpochOf(request, job) == Some(task.epoch) && request.expectedAttemptId == Some(Some(task.pin.attemptId));
    assert StageFits(s.runs[job], task);
  }

  lemma MoveKeepsWorkedFirst(s: ProjectState, request: Request, job: JobId, step: RunStep, next: ProjectState, tasks: Tasks)
    requires ProjectInv(s) && TasksFit(s, tasks) && AllWorkedFirst(s)
    requires Supervised(tasks, s, request, Move(job, step)) && LifecycleStep(s, request, Move(job, step), next)
    ensures job in next.runs && WorkedFirst(next.runs[job])
  {
    MoveReaches(s, request, job, step, next);
    MovedIsRefenced(s, request, job, step, next);
    if step == ControlMove(PauseFailure(PublishStage)) {
      FailingPublishWasWorkedOn(s, request, job, tasks);
    }
    StepKeepsWorkedFirst(step, s.runs[job]);
  }

  /** Whatever commits, a run waits for a review or a publish only after an attempt. */
  lemma CommitKeepsWorkedFirst(s: ProjectState, request: Request, t: Transition, next: ProjectState, tasks: Tasks)
    requires ProjectInv(s) && TasksFit(s, tasks) && AllWorkedFirst(s)
    requires Supervised(tasks, s, request, t) && LifecycleStep(s, request, t, next)
    ensures AllWorkedFirst(next)
  {
    forall job | job in next.runs ensures WorkedFirst(next.runs[job]) {
      if t.Move? && t.jobId == job {
        MoveKeepsWorkedFirst(s, request, job, t.step, next, tasks);
      } else if job in s.runs {
        OtherRunsStay(s, request, t, next, job);
      } else {
        NewRunWasNotWorkedOn(s, request, t, next, job);
      }
    }
  }

  lemma NewRunWasNotWorkedOn(s: ProjectState, request: Request, t: Transition, next: ProjectState, job: JobId)
    requires LifecycleStep(s, request, t, next) && job in next.runs && job !in s.runs
    ensures WorkedFirst(next.runs[job])
  {
    CommittedReachedBuilder(s, request, t);
    AttemptUnfolds(s, request, t);
    match t
    case Execute(_, _, _) => FinalisedExecute(s, request, t);
    case Move(mover, step) => CommittedMoves(s, request, mover, step, next);
    case _ => FinalisedLeaseStep(s, request, t);
  }
}
