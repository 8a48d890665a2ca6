/**
  A run that stops with an unsettled publish record: which way out it has, and what it keeps from the rest
  of the project (apps/daemon/src/cancel/cancel-manager.ts, apps/daemon/src/runtime/project-runtime.ts,
  apps/daemon/src/publish/publish-coordinator.ts).
 */
module UnsettledPublish {
  import opened Wrappers
  import opened ProjectModel
  import opened MutationExecutor
  import opened RunSteps
  import opened RunTransitions
  import opened LifecycleInvariant
  import opened ProjectLifecycle
  import opened PublishProtocol

  predicate AtRest(phase: RunPhase) {
    phase == Paused || phase == Canceling
  }

  predicate LeavesBy(run: RunRecord, action: ResumeAction) {
    if action == ResumeReviewDecision then ResumeDecision(run).Ok?
    else ResumePhase(run, action).Some? && ResumePhase(run, action).value != Canceling
  }

  // Some action the pause offers is accepted and leads on.
  predicate CanLeave(run: RunRecord) {
    run.pause.Some? && exists action :: action in run.pause.value.resumeActions && LeavesBy(run, action)
  }

  /** At rest, with no accepted way on, and with something that keeps a cancellation from completing. */
  predicate Trapped(run: RunRecord, leased: bool) {
    AtRest(run.phase) && (PublishUnsettled(run) || leased) && (run.phase == Paused ==> !CanLeave(run))
  }

  const STOP_ACTIONS := {InspectOnly, CancelAction, RetryCancel}

  lemma StopActionsNeverLeave(run: RunRecord)
    requires run.pause.Some? && run.pause.value.resumeActions <= STOP_ACTIONS
    ensures !CanLeave(run)
  {
    forall action | action in run.pause.value.resumeActions ensures !LeavesBy(run, action) {
      assert action in STOP_ACTIONS;
    }
  }

  predicate KeepsTrap(run: RunRecord, next: RunRecord) {
    AtRest(next.phase) && next.publish == run.publish && (next.phase == Paused ==> !CanLeave(next))
  }

  lemma ResumeOfTrapped(run: RunRecord, action: ResumeAction, requestId: string, actionId: string, clearHostTurn: bool)
    requires !CanLeave(run) && Resumed(run, action, requestId, actionId, clearHostTurn).Ok?
    ensures var next := Resumed(run, action, requestId, actionId, clearHostTurn).value;
            next.phase == Canceling && next.publish == run.publish
  {
    assert !LeavesBy(run, action);
  }

  lemma ControlKeepsTrap(step: ControlStep, run: RunRecord, leased: bool)
    requires Trapped(run, leased) && Reaches(ControlMove(step), run) && !step.CompleteCancel?
    ensures KeepsTrap(run, StepControl(step, run).value)
  {
    var next := StepControl(step, run).value;
    match step
    case ResumeRun(action, requestId, actionId, clearHostTurn) => ResumeOfTrapped(run, action, requestId, actionId, clearHostTurn);
    case BlockCancel => StopActionsNeverLeave(next);
    case RecordHostTurn(_, _) => SameOffers(run, next);
    case _ =>
  }

  lemma SameOffers(run: RunRecord, next: RunRecord)
    requires next == run.(hostTurn := next.hostTurn, fence := next.fence)
    ensures CanLeave(next) <==> CanLeave(run)
  {
    forall action ensures LeavesBy(next, action) <==> LeavesBy(run, action) {
      SameWayOn(run, next, action);
    }
  }

  lemma SameWayOn(run: RunRecord, next: RunRecord, action: ResumeAction)
    requires next == run.(hostTurn := next.hostTurn, fence := next.fence)
    ensures LeavesBy(next, action) <==> LeavesBy(run, action)
  {
  }

  lemma RecoveryKeepsTrap(step: RecoveryStep, run: RunRecord, leased: bool)
    requires Trapped(run, leased) && Reaches(RecoveryMove(step), run)
    ensures KeepsTrap(run, StepRecovery(step, run).value)
  {
    if step.RecoverPause? {
      StopActionsNeverLeave(StepRecovery(step, run).value);
    }
  }

  lemma ContainmentKeepsTrap(run: RunRecord, pin: Pin)
    ensures KeepsTrap(run, StepWorker(ContainmentBlocked(pin), run).value)
  {
    StopActionsNeverLeave(StepWorker(ContainmentBlocked(pin), run).value);
  }

  // The steps a request can reach while its run is at rest
  predicate ReachesRest(step: RunStep) {
    match step
    case WorkerMove(worker) => worker.ContainmentBlocked?
    case ReviewMove(review) => review.ResumeStoredDecision?
    case RecoveryMove(recovery) => recovery.RecoverPause? || recovery.NewEpoch?
    case ControlMove(control) => !control.PauseFailure?
    case _ => false
  }

  lemma RestIsReachedBy(step: RunStep, run: RunRecord)
    requires AtRest(run.phase) && Reaches(step, run)
    ensures ReachesRest(step)
  {
  }

  /** No step but the completion of a cancellation frees a trapped run, changes its publish record or ends it. */
  lemma StepKeepsTrapped(step: RunStep, run: RunRecord, leased: bool)
    requires Trapped(run, leased) && Reaches(step, run) && step != ControlMove(CompleteCancel)
    ensures KeepsTrap(run, StepRun(step, run).value) && Trapped(StepRun(step, run).value, leased) && !EndsRun(step)
  {
    RestIsReachedBy(step, run);
    match step
    case WorkerMove(worker) => ContainmentKeepsTrap(run, worker.pin);
    case RecoveryMove(recovery) => RecoveryKeepsTrap(recovery, run, leased);
    case ControlMove(control) => ControlKeepsTrap(control, run, leased);
    case ReviewMove(_) => NoDecisionToResume(run);
  }

  lemma NoDecisionToResume(run: RunRecord)
    requires !CanLeave(run)
    ensures ResumeDecision(run).Err?
  {
    assert ResumeDecision(run).Ok? ==> LeavesBy(run, ResumeReviewDecision);
  }

  // The ways in

  predicate StopsPublish(step: RunStep) {
    match step
    case PublishMove(SettlePublish(service)) => service == RecoveryBlocked
    case RecoveryMove(RecoverPause(_)) => true
    case ControlMove(RequestCancel) => true
    case ControlMove(ResumeRun(action, _, _, _)) => action == CancelAction
    case _ => false
  }

  /**
    A blocked publish, a blocked recovery and a cancellation trap every run whose publish record is unsettled, and
    every run that still has the publish lease.
   */
  lemma StoppedPublishIsTrapped(step: RunStep, run: RunRecord, leased: bool)
    requires StopsPublish(step) && Reaches(step, run)
    ensures Trapped(StepRun(step, run).value, leased) <==> PublishUnsettled(run) || leased
  {
    var next := StepRun(step, run).value;
    if next.phase == Paused {
      StopActionsNeverLeave(next);
    }
  }

  // In the project

  predicate Stuck(s: ProjectState, job: JobId) {
    job in s.runs && Trapped(s.runs[job], LeaseNames(s.publishLease, job))
  }

  // Stuck, with the publish lease in its hand
  predicate Held(s: ProjectState, job: JobId) {
    Stuck(s, job) && LeaseNames(s.publishLease, job)
  }

  predicate Completes(t: Transition) {
    t.Move? && t.step.PublishMove? && t.step.publish.CompletePublish?
  }

  predicate StillStuck(s: ProjectState, next: ProjectState, job: JobId)
    requires job in s.runs
  {
    && Stuck(next, job) && next.runs[job].publish == s.runs[job].publish
    && (LeaseNames(s.publishLease, job) ==> next.publishLease == s.publishLease)
  }

  lemma FenceKeepsTrap(run: RunRecord, fence: nat, leased: bool)
    ensures Trapped(run.(fence := fence), leased) <==> Trapped(run, leased)
  {
    SameOffers(run, run.(fence := fence));
  }

  lemma RestKeepsLease(lease: Option<PublishLease>, job: JobId, step: RunStep, run: RunRecord)
    requires ReachesRest(step)
    ensures LeaseAfter(lease, job, step, run) == lease
  {
  }

  /** The schema completes no cancellation while the lease names the job. */
  lemma LeasedRunIsNotCanceled(s: ProjectState, request: Request, job: JobId, next: ProjectState)
    requires ValidProject(s) && LeaseNames(s.publishLease, job)
    ensures !LifecycleStep(s, request, Move(job, ControlMove(CompleteCancel)), next)
  {
    if LifecycleStep(s, request, Move(job, ControlMove(CompleteCancel)), next) {
      CommittedMoves(s, request, job, ControlMove(CompleteCancel), next);
      assert false;
    }
  }

  lemma TrappedCancelIsRefused(s: ProjectState, request: Request, job: JobId, step: RunStep, next: ProjectState)
    requires ValidProject(s) && LifecycleStep(s, request, Move(job, step), next) && Stuck(s, job)
    ensures step != ControlMove(CompleteCancel)
  {
    if step == ControlMove(CompleteCancel) {
      CommittedMoves(s, request, job, step, next);
      LeasedRunIsNotCanceled(s, request, job, next);
      assert false;
    }
  }

  lemma OwnMoveKeepsStuck(s: ProjectState, request: Request, step: RunStep, next: ProjectState, job: JobId)
    requires ValidProject(s) && LifecycleStep(s, request, Move(job, step), next) && Stuck(s, job)
    ensures StillStuck(s, next, job)
  {
    var leased := LeaseNames(s.publishLease, job);
    MoveReaches(s, request, job, step, next);
    TrappedCancelIsRefused(s, request, job, step, next);
    StepKeepsTrapped(step, s.runs[job], leased);
    RestIsReachedBy(step, s.runs[job]);
    RestKeepsLease(s.publishLease, job, step, s.runs[job]);
    CommittedMoves(s, request, job, step, next);
    FenceKeepsTrap(StepRun(step, s.runs[job]).value, next.runs[job].fence, leased);
  }

  lemma RestIsNoLeasePhase(s: ProjectState, t: Transition, job: JobId)
    requires Guarded(s, t) && Stuck(s, job) && (t.AcquireLease? || t.ReleaseLease?)
    ensures t.jobId != job
  {
  }

  lemma LeaseStepNeedsLiveRun(s: ProjectState, request: Request, t: Transition, next: ProjectState, job: JobId)
    requires ValidProject(s) && LifecycleStep(s, request, t, next) && Stuck(s, job) && (t.AcquireLease? || t.ReleaseLease?)
    ensures t.jobId != job
  {
    CommittedReachedBuilder(s, request, t);
    ProceedMeansGuarded(s, request, t);
    RestIsNoLeasePhase(s, t, job);
  }

  lemma OtherKeepsLease(s: ProjectState, request: Request, t: Transition, next: ProjectState, job: JobId)
    requires LifecycleStep(s, request, t, next) && (t.Execute? || t.jobId != job)
    ensures LeaseNames(s.publishLease, job) && !Completes(t) ==>
              && next.publishLease == s.publishLease
              && (t.AcquireLease? ==> Attempt(s, request, BuildOf(t)).answer == LeaseAnswer(false))
    ensures !LeaseNames(s.publishLease, job) ==> !LeaseNames(next.publishLease, job)
  {
    LeaseAfterCommit(s, request, t);
  }

  lemma CommitKeepsStuck(s: ProjectState, request: Request, t: Transition, next: ProjectState, job: JobId)
    requires ValidProject(s) && LifecycleStep(s, request, t, next) && Stuck(s, job)
    requires Completes(t) && LeaseNames(s.publishLease, job) ==> t.jobId == job
    ensures StillStuck(s, next, job)
  {
    if t.Move? && t.jobId == job {
      OwnMoveKeepsStuck(s, request, t.step, next, job);
    } else {
      if t.AcquireLease? || t.ReleaseLease? {
        LeaseStepNeedsLiveRun(s, request, t, next, job);
      }
      OthersStay(s, request, t, next, job);
      OtherKeepsLease(s, request, t, next, job);
    }
  }

  // Whether a run at rest ever leaves

  /** These commits of one job, in order, lead its run out of PAUSED and CANCELING. */
  ghost predicate Leads(s: ProjectState, job: JobId, requests: seq<Request>, steps: seq<RunStep>)
    requires |requests| == |steps|
    decreases |steps|
  {
    if steps == [] then job in s.runs && !AtRest(s.runs[job].phase)
    else
      var outcome := Attempt(s, requests[0], BuildOf(Move(job, steps[0])));
      outcome.Committed? && LifecycleStep(s, requests[0], Move(job, steps[0]), outcome.state)
      && Leads(outcome.state, job, requests[1..], steps[1..])
  }

  ghost predicate StaysForGood(s: ProjectState, job: JobId) {
    forall requests: seq<Request>, steps: seq<RunStep> | |requests| == |steps| :: !Leads(s, job, requests, steps)
  }

  lemma {:induction false} StuckNeverLeads(s: ProjectState, job: JobId, requests: seq<Request>, steps: seq<RunStep>)
    requires ValidProject(s) && Stuck(s, job) && |requests| == |steps|
    ensures !Leads(s, job, requests, steps)
    decreases |steps|
  {
    if steps != [] {
      var outcome := Attempt(s, requests[0], BuildOf(Move(job, steps[0])));
      if outcome.Committed? && LifecycleStep(s, requests[0], Move(job, steps[0]), outcome.state) {
        OwnMoveKeepsStuck(s, requests[0], steps[0], outcome.state, job);
        CommittedMoves(s, requests[0], job, steps[0], outcome.state);
        StuckNeverLeads(outcome.state, job, requests[1..], steps[1..]);
      }
    }
  }

  lemma FirstLeads(s: ProjectState, request: Request, job: JobId, step: RunStep, next: ProjectState, requests: seq<Request>, steps: seq<RunStep>)
    requires LifecycleStep(s, request, Move(job, step), next) && |requests| == |steps| && Leads(next, job, requests, steps)
    ensures Leads(s, job, [request] + requests, [step] + steps)
  {
    assert ([request] + requests)[1..] == requests && ([step] + steps)[1..] == steps;
  }

  lemma StuckStays(s: ProjectState, job: JobId)
    requires ValidProject(s) && Stuck(s, job)
    ensures StaysForGood(s, job)
  {
    forall requests: seq<Request>, steps: seq<RunStep> | |requests| == |steps| ensures !Leads(s, job, requests, steps) {
      StuckNeverLeads(s, job, requests, steps);
    }
  }

  // A request with nothing but its job and phase, under an identifier nobody used

  function Plainly(job: JobId, requestId: RequestId, phases: Option<set<RunPhase>>): Request {
    Request(requestId, "", Canonical, None, None, Some(job), None, None, phases, false)
  }

  lemma {:induction false} LongerThanAll(texts: set<string>) returns (text: string)
    ensures text !in texts && forall t | t in texts :: |t| < |text|
    decreases |texts|
  {
    if texts == {} {
      text := "";
    } else {
      var t :| t in texts;
      var longer := LongerThanAll(texts - {t});
      text := if |longer| > |t| then longer else seq(|t| + 1, i => 'x');
    }
  }

  lemma NewRequestId(s: ProjectState) returns (requestId: RequestId)
    ensures requestId !in s.receipts && requestId.OtherRequest?
  {
    var text := LongerThanAll(set id | id in s.receipts && id.OtherRequest? :: id.text);
    requestId := OtherRequest(text);
  }

  // The moves a user can always make on a run at rest
  predicate IsUserMove(step: RunStep) {
    match step
    case ReviewMove(review) => review.ResumeStoredDecision?
    case ControlMove(control) => control.ResumeRun? || control.RequestCancel? || control.CompleteCancel?
    case _ => false
  }

  lemma PlainMoveCommits(s: ProjectState, job: JobId, requestId: RequestId, step: RunStep)
    requires ProjectInv(s) && job in s.runs && IsUserMove(step) && Reaches(step, s.runs[job]) && requestId !in s.receipts
    requires step == ControlMove(CompleteCancel) ==> !LeaseNames(s.publishLease, job)
    ensures var request, t := Plainly(job, requestId, PhasesOf(step)), Move(job, step);
            && Attempt(s, request, BuildOf(t)).Committed?
            && LifecycleStep(s, request, t, Attempt(s, request, BuildOf(t)).state)
            && ProjectInv(Attempt(s, request, BuildOf(t)).state)
  {
    PlainMoveProceeds(s, job, requestId, step);
    MoveCommitsUnlessLeased(s, Plainly(job, requestId, PhasesOf(step)), job, step);
  }

  lemma PlainMoveProceeds(s: ProjectState, job: JobId, requestId: RequestId, step: RunStep)
    requires ValidProject(s) && job in s.runs && IsUserMove(step) && Reaches(step, s.runs[job]) && requestId !in s.receipts
    ensures var request := Plainly(job, requestId, PhasesOf(step));
            && Carries(request, Move(job, step)) && Decide(s, request).Proceed?
    ensures StepDisciplined(step, s.runs[job])
  {
    assert OwnsItsTask(s, s.runs[job]);
  }

  function StepFor(action: ResumeAction): RunStep {
    if action == ResumeReviewDecision then ReviewMove(ResumeStoredDecision) else ControlMove(ResumeRun(action, "", "", true))
  }

  lemma OfferLeadsOn(run: RunRecord, action: ResumeAction)
    requires run.phase == Paused && run.pause.Some? && action in run.pause.value.resumeActions && LeavesBy(run, action)
    ensures Reaches(StepFor(action), run) && IsUserMove(StepFor(action)) && !AtRest(StepRun(StepFor(action), run).value.phase)
  {
  }

  lemma OneMoveLeads(s: ProjectState, job: JobId, requestId: RequestId, step: RunStep)
    requires ProjectInv(s) && job in s.runs && IsUserMove(step) && Reaches(step, s.runs[job]) && requestId !in s.receipts
    requires step == ControlMove(CompleteCancel) ==> !LeaseNames(s.publishLease, job)
    requires !AtRest(StepRun(step, s.runs[job]).value.phase)
    ensures Leads(s, job, [Plainly(job, requestId, PhasesOf(step))], [step])
  {
    var request := Plainly(job, requestId, PhasesOf(step));
    PlainMoveCommits(s, job, requestId, step);
    var next := Attempt(s, request, BuildOf(Move(job, step))).state;
    CommittedMoves(s, request, job, step, next);
    FirstLeads(s, request, job, step, next, [], []);
    assert [request] + [] == [request] && [step] + [] == [step];
  }

  lemma CancelReaches(run: RunRecord)
    requires !IsTerminal(run.phase)
    ensures Reaches(ControlMove(RequestCancel), run)
    ensures StepRun(ControlMove(RequestCancel), run).value.phase == Canceling
    ensures StepRun(ControlMove(RequestCancel), run).value.publish == run.publish
  {
  }

  lemma CompletionReaches(run: RunRecord)
    requires run.phase == Canceling && !PublishUnsettled(run)
    ensures Reaches(ControlMove(CompleteCancel), run) && StepRun(ControlMove(CompleteCancel), run).value.phase == Canceled
  {
  }

  lemma CancelRequestCommits(s: ProjectState, job: JobId, requestId: RequestId) returns (canceling: ProjectState)
    requires ProjectInv(s) && job in s.runs && !IsTerminal(s.runs[job].phase) && requestId !in s.receipts
    ensures LifecycleStep(s, Plainly(job, requestId, None), Move(job, ControlMove(RequestCancel)), canceling)
    ensures ProjectInv(canceling) && job in canceling.runs && canceling.runs[job].phase == Canceling
    ensures canceling.runs[job].publish == s.runs[job].publish && canceling.publishLease == s.publishLease
  {
    var step := ControlMove(RequestCancel);
    CancelReaches(s.runs[job]);
    PlainMoveCommits(s, job, requestId, step);
    canceling := Attempt(s, Plainly(job, requestId, None), BuildOf(Move(job, step))).state;
    CommittedMoves(s, Plainly(job, requestId, None), job, step, canceling);
  }

  lemma CompletionLeads(s: ProjectState, job: JobId) returns (requests: seq<Request>, steps: seq<RunStep>)
    requires ProjectInv(s) && job in s.runs && s.runs[job].phase == Canceling
    requires !PublishUnsettled(s.runs[job]) && !LeaseNames(s.publishLease, job)
    ensures |requests| == |steps| && Leads(s, job, requests, steps)
  {
    var requestId := NewRequestId(s);
    CompletionReaches(s.runs[job]);
    OneMoveLeads(s, job, requestId, ControlMove(CompleteCancel));
    requests, steps := [Plainly(job, requestId, PhasesOf(ControlMove(CompleteCancel)))], [ControlMove(CompleteCancel)];
  }

  lemma CancellationLeads(s: ProjectState, job: JobId) returns (requests: seq<Request>, steps: seq<RunStep>)
    requires ProjectInv(s) && job in s.runs && AtRest(s.runs[job].phase)
    requires !PublishUnsettled(s.runs[job]) && !LeaseNames(s.publishLease, job)
    ensures |requests| == |steps| && Leads(s, job, requests, steps)
  {
    var requestId := NewRequestId(s);
    var canceling := CancelRequestCommits(s, job, requestId);
    requests, steps := CompletionLeads(canceling, job);
    FirstLeads(s, Plainly(job, requestId, None), job, ControlMove(RequestCancel), canceling, requests, steps);
    requests, steps := [Plainly(job, requestId, None)] + requests, [ControlMove(RequestCancel)] + steps;
  }

  lemma FreeRunLeads(s: ProjectState, job: JobId) returns (requests: seq<Request>, steps: seq<RunStep>)
    requires ProjectInv(s) && job in s.runs && AtRest(s.runs[job].phase) && !Stuck(s, job)
    ensures |requests| == |steps| && Leads(s, job, requests, steps)
  {
    var run := s.runs[job];
    if PublishUnsettled(run) || LeaseNames(s.publishLease, job) {
      var action :| action in run.pause.value.resumeActions && LeavesBy(run, action);
      OfferLeadsOn(run, action);
      var requestId := NewRequestId(s);
      OneMoveLeads(s, job, requestId, StepFor(action));
      requests, steps := [Plainly(job, requestId, PhasesOf(StepFor(action)))], [StepFor(action)];
    } else {
      requests, steps := CancellationLeads(s, job);
    }
  }

  lemma LeadingRefutes(s: ProjectState, job: JobId, requests: seq<Request>, steps: seq<RunStep>)
    requires |requests| == |steps| && Leads(s, job, requests, steps)
    ensures !StaysForGood(s, job)
  {
  }

  /**
    No commit of its own ever leads a resting run out of PAUSED and CANCELING exactly when its publish record is
    unsettled, or the publish lease names it, and no offered action is accepted and leads on.
   */
  lemma StuckExactly(s: ProjectState, job: JobId)
    requires ProjectInv(s) && job in s.runs && AtRest(s.runs[job].phase)
    ensures Stuck(s, job) <==> StaysForGood(s, job)
  {
    if Stuck(s, job) {
      StuckStays(s, job);
    } else {
      var requests, steps := FreeRunLeads(s, job);
      LeadingRefutes(s, job, requests, steps);
    }
  }

  /** A cancellation completes exactly when the publish record is settled and the lease does not name the job. */
  lemma CancellationCompletesExactly(s: ProjectState, job: JobId, requestId: RequestId)
    requires ProjectInv(s) && job in s.runs && s.runs[job].phase == Canceling && requestId !in s.receipts
    ensures var step := ControlMove(CompleteCancel);
            var outcome := Attempt(s, Plainly(job, requestId, PhasesOf(step)), BuildOf(Move(job, step)));
            && (outcome.Committed? <==> !PublishUnsettled(s.runs[job]) && !LeaseNames(s.publishLease, job))
            && (outcome.Committed? ==> job in outcome.state.runs && outcome.state.runs[job].phase == Canceled)
  {
    var step := ControlMove(CompleteCancel);
    var request := Plainly(job, requestId, PhasesOf(step));
    var outcome := Attempt(s, request, BuildOf(Move(job, step)));
    if !PublishUnsettled(s.runs[job]) && !LeaseNames(s.publishLease, job) {
      CompletionReaches(s.runs[job]);
      PlainMoveCommits(s, job, requestId, step);
      CommittedMoves(s, request, job, step, outcome.state);
    } else if outcome.Committed? {
      assert LifecycleStep(s, request, Move(job, step), outcome.state);
      TrappedCancelIsRefused(s, request, job, step, outcome.state);
    }
  }

  // The publish tasks of all jobs, each committing under its guards

  ghost predicate UnderGuards(w: PublishWorld, step: TaskStep) {
    RequestOf(step).Some? ==>
      && TransitionOf(w, step).Some?
      && Carries(RequestOf(step).value, TransitionOf(w, step).value)
      && FreshRun(w.s, TransitionOf(w, step).value)
  }

  ghost predicate GuardedTrace(worlds: seq<PublishWorld>, steps: seq<TaskStep>) {
    && PublishTrace(worlds, steps) && ValidProject(worlds[0].s)
    && forall i | 0 <= i < |steps| :: UnderGuards(worlds[i], steps[i])
  }

  lemma WorldAfter(w: PublishWorld, step: TaskStep)
    requires Allowed(w, step) && UnderGuards(w, step)
    ensures NextWorld(w, step).s == w.s ||
            (RequestOf(step).Some? && LifecycleStep(w.s, RequestOf(step).value, TransitionOf(w, step).value, NextWorld(w, step).s))
  {
  }

  lemma CommittedIsValid(s: ProjectState, request: Request, t: Transition, next: ProjectState)
    requires LifecycleStep(s, request, t, next)
    ensures ValidProject(next)
  {
  }

  lemma HolderCompletes(w: PublishWorld, step: TaskStep, job: JobId)
    requires TasksFit(w) && Allowed(w, step) && RequestOf(step).Some? && TransitionOf(w, step).Some?
    requires LeaseNames(w.s.publishLease, job)
    ensures Completes(TransitionOf(w, step).value) ==> TransitionOf(w, step).value.jobId == job
  {
    if step.Complete? {
      assert TaskFits(w, step.job);
    }
  }

  lemma WorldKeepsStuck(w: PublishWorld, step: TaskStep, job: JobId)
    requires ValidProject(w.s) && TasksFit(w) && Allowed(w, step) && UnderGuards(w, step) && Stuck(w.s, job)
    ensures StillStuck(w.s, NextWorld(w, step).s, job)
  {
    WorldAfter(w, step);
    if NextWorld(w, step).s != w.s {
      if LeaseNames(w.s.publishLease, job) {
        HolderCompletes(w, step, job);
      }
      CommitKeepsStuck(w.s, RequestOf(step).value, TransitionOf(w, step).value, NextWorld(w, step).s, job);
    }
  }

  lemma {:induction false} TraceStaysValid(worlds: seq<PublishWorld>, steps: seq<TaskStep>, n: nat)
    requires GuardedTrace(worlds, steps) && n < |worlds|
    ensures ValidProject(worlds[n].s)
  {
    if n > 0 {
      TraceStaysValid(worlds, steps, n - 1);
      var w, step := worlds[n - 1], steps[n - 1];
      assert UnderGuards(w, step) && worlds[n - 1 + 1] == NextWorld(w, step);
      WorldAfter(w, step);
      if worlds[n].s != w.s {
        CommittedIsValid(w.s, RequestOf(step).value, TransitionOf(w, step).value, worlds[n].s);
      }
    }
  }

  lemma StuckOwnsItsTask(s: ProjectState, job: JobId)
    requires ValidProject(s) && Stuck(s, job)
    ensures OwnsItsTask(s, s.runs[job])
  {
  }

  lemma NextKeepsStuck(worlds: seq<PublishWorld>, steps: seq<TaskStep>, n: nat, job: JobId)
    requires GuardedTrace(worlds, steps) && n < |steps| && Stuck(worlds[n].s, job)
    ensures StillStuck(worlds[n].s, worlds[n + 1].s, job)
  {
    TraceStaysValid(worlds, steps, n);
    TracesKeepTasks(worlds, steps, n);
    WorldKeepsStuck(worlds[n], steps[n], job);
  }

  lemma StillStuckChains(s: ProjectState, middle: ProjectState, next: ProjectState, job: JobId)
    requires Stuck(s, job) && StillStuck(s, middle, job) && StillStuck(middle, next, job)
    ensures StillStuck(s, next, job)
  {
  }

  lemma {:induction false} StuckThroughout(states: seq<ProjectState>, i: nat, j: nat, job: JobId)
    requires i <= j < |states| && Stuck(states[i], job)
    requires forall n | 0 <= n < |states| - 1 && Stuck(states[n], job) :: StillStuck(states[n], states[n + 1], job)
    ensures StillStuck(states[i], states[j], job)
    decreases j
  {
    if i < j {
      StuckThroughout(states, i, j - 1, job);
      assert StillStuck(states[j - 1], states[j - 1 + 1], job);
      StillStuckChains(states[i], states[j - 1], states[j], job);
    }
  }

  function StatesOf(worlds: seq<PublishWorld>): (states: seq<ProjectState>)
    ensures |states| == |worlds| && forall n | 0 <= n < |worlds| :: states[n] == worlds[n].s
  {
    seq(|worlds|, n requires 0 <= n < |worlds| => worlds[n].s)
  }

  /**
    Whatever the daemon and its users do afterwards, and wherever it restarts: a stuck run stays stuck, its publish
    record stays as it is, its task stays bound to it, and if it has the publish lease it keeps it for good.
   */
  lemma TrapHoldsTheLease(worlds: seq<PublishWorld>, steps: seq<TaskStep>, i: nat, j: nat, job: JobId)
    requires GuardedTrace(worlds, steps) && i <= j < |worlds| && Stuck(worlds[i].s, job)
    ensures StillStuck(worlds[i].s, worlds[j].s, job)
    ensures OwnsItsTask(worlds[j].s, worlds[j].s.runs[job])
  {
    var states := StatesOf(worlds);
    forall n | 0 <= n < |states| - 1 && Stuck(states[n], job) ensures StillStuck(states[n], states[n + 1], job) {
      NextKeepsStuck(worlds, steps, n, job);
    }
    StuckThroughout(states, i, j, job);
    TraceStaysValid(worlds, steps, j);
    StuckOwnsItsTask(worlds[j].s, job);
  }

  /** With the lease: no other job of the project gets past asking for it any more, and the answer is no. */
  lemma TrapStopsThePublishes(worlds: seq<PublishWorld>, steps: seq<TaskStep>, i: nat, j: nat, job: JobId, other: JobId)
    requires GuardedTrace(worlds, steps) && i <= j < |worlds| && Held(worlds[i].s, job) && other != job
    ensures other in worlds[j].tasks ==> worlds[j].tasks[other].Wanting?
    ensures j < |steps| && steps[j].Acquire? && steps[j].job == other ==>
              var outcome := Attempt(worlds[j].s, steps[j].request, BuildOf(TransitionOf(worlds[j], steps[j]).value));
              outcome.Committed? ==> outcome.answer == LeaseAnswer(false)
  {
    TrapHoldsTheLease(worlds, steps, i, j, job);
    TracesKeepTasks(worlds, steps, j);
    if other in worlds[j].tasks {
      assert TaskFits(worlds[j], other);
    }
    if j < |steps| && steps[j].Acquire? && steps[j].job == other {
      RefusedLease(worlds[j], steps[j], job);
    }
  }

  lemma RefusedLease(w: PublishWorld, step: TaskStep, job: JobId)
    requires step.Acquire? && UnderGuards(w, step) && LeaseNames(w.s.publishLease, job) && step.job != job
    ensures var outcome := Attempt(w.s, step.request, BuildOf(TransitionOf(w, step).value));
            outcome.Committed? ==> outcome.answer == LeaseAnswer(false)
  {
    var t := TransitionOf(w, step).value;
    if Attempt(w.s, step.request, BuildOf(t)).Committed? {
      OtherKeepsLease(w.s, step.request, t, Attempt(w.s, step.request, BuildOf(t)).state, job);
    }
  }

  // A way there without any publish record: taking the lease, a crash, a cancellation

  const LEASE_PHASES_GUARDED := Some({ReadyToPublish, Publishing})

  lemma AcquisitionProceeds(s: ProjectState, job: JobId, operationId: OperationId)
    requires ValidProject(s) && job in s.runs && s.runs[job].phase == ReadyToPublish
    requires LeaseAcquireRequest(operationId, s.projectFence) !in s.receipts
    ensures var request := Plainly(job, LeaseAcquireRequest(operationId, s.projectFence), LEASE_PHASES_GUARDED);
            && Decide(s, request).Proceed? && Carries(request, AcquireLease(job, operationId))
            && Built(AcquireLease(job, operationId), s, NextContext(s, request)).Ok?
  {
    assert OwnsItsTask(s, s.runs[job]);
  }

  lemma LeaseIsTaken(s: ProjectState, job: JobId, operationId: OperationId) returns (leased: ProjectState)
    requires ProjectInv(s) && job in s.runs && s.runs[job].phase == ReadyToPublish && s.publishLease.None?
    requires LeaseAcquireRequest(operationId, s.projectFence) !in s.receipts
    ensures var request := Plainly(job, LeaseAcquireRequest(operationId, s.projectFence), LEASE_PHASES_GUARDED);
            var t := AcquireLease(job, operationId);
            && Carries(request, t)
            && Attempt(s, request, BuildOf(t)) == MutationExecutor.Committed(leased, LeaseAnswer(true))
    ensures ProjectInv(leased) && leased.runs == s.runs && leased.publishLease == Some(PublishLease(job, operationId))
    ensures leased.receipts.Keys == s.receipts.Keys + {LeaseAcquireRequest(operationId, s.projectFence)}
  {
    var request := Plainly(job, LeaseAcquireRequest(operationId, s.projectFence), LEASE_PHASES_GUARDED);
    var t := AcquireLease(job, operationId);
    AcquisitionProceeds(s, job, operationId);
    LeaseStepCommits(s, request, t);
    AttemptUnfolds(s, request, t);
    FinalisedLeaseStep(s, request, t);
    LeaseAfterCommit(s, request, t);
    leased := Attempt(s, request, BuildOf(t)).state;
  }

  function CrashAfterAcquiring(s: ProjectState, job: JobId, operationId: OperationId, requestId: RequestId): seq<TaskStep> {
    [Observe(job, operationId), AcquireStep(s, job, operationId), CrashProcess] + [CancelStep(job, requestId)]
  }

  function AcquireStep(s: ProjectState, job: JobId, operationId: OperationId): TaskStep {
    Acquire(job, Plainly(job, LeaseAcquireRequest(operationId, s.projectFence), LEASE_PHASES_GUARDED))
  }

  function CancelStep(job: JobId, requestId: RequestId): TaskStep {
    Elsewhere(Plainly(job, requestId, None), Move(job, ControlMove(RequestCancel)))
  }

  ghost predicate TakesStep(w: PublishWorld, step: TaskStep, next: PublishWorld) {
    Allowed(w, step) && IdentifierFits(w, step) && UnderGuards(w, step) && next == NextWorld(w, step)
  }

  lemma TakesAcquisition(s: ProjectState, job: JobId, operationId: OperationId, leased: ProjectState)
    requires var request := Plainly(job, LeaseAcquireRequest(operationId, s.projectFence), LEASE_PHASES_GUARDED);
             Carries(request, AcquireLease(job, operationId)) &&
             Attempt(s, request, BuildOf(AcquireLease(job, operationId))) == MutationExecutor.Committed(leased, LeaseAnswer(true))
    ensures TakesStep(PublishWorld(s, map[job := Wanting(operationId, s.projectFence)]), AcquireStep(s, job, operationId),
                      PublishWorld(leased, map[job := HasLease(operationId)]))
  {
    assert map[job := Wanting(operationId, s.projectFence)][job := HasLease(operationId)] == map[job := HasLease(operationId)];
  }

  lemma TakesElsewhere(s: ProjectState, request: Request, t: Transition, next: ProjectState)
    requires LifecycleStep(s, request, t, next) && !StoreOnly(t) && !request.requestId.LeaseAcquireRequest?
    ensures TakesStep(PublishWorld(s, map[]), Elsewhere(request, t), PublishWorld(next, map[]))
  {
  }

  lemma TakesObservation(s: ProjectState, job: JobId, operationId: OperationId)
    requires job in s.runs && s.runs[job].phase == ReadyToPublish && operationId.jobId == job
    ensures TakesStep(PublishWorld(s, map[]), Observe(job, operationId), PublishWorld(s, map[job := Wanting(operationId, s.projectFence)]))
  {
  }

  lemma TakesCrash(s: ProjectState, tasks: map<JobId, TaskStage>)
    ensures TakesStep(PublishWorld(s, tasks), CrashProcess, PublishWorld(s, map[]))
  {
  }

  lemma TraceExtends(worlds: seq<PublishWorld>, steps: seq<TaskStep>, step: TaskStep, next: PublishWorld)
    requires GuardedTrace(worlds, steps) && TakesStep(worlds[|worlds| - 1], step, next)
    ensures GuardedTrace(worlds + [next], steps + [step])
  {
    var longer, more := worlds + [next], steps + [step];
    forall i | 0 <= i < |more|
      ensures Allowed(longer[i], more[i]) && IdentifierFits(longer[i], more[i]) && UnderGuards(longer[i], more[i])
      ensures longer[i + 1] == NextWorld(longer[i], more[i])
    {
      if i < |steps| {
        assert UnderGuards(worlds[i], steps[i]) && worlds[i + 1] == NextWorld(worlds[i], steps[i]);
      }
    }
  }

  lemma TraceStarts(s: ProjectState)
    requires ProjectInv(s) && AcquireReceiptsAreOld(s)
    ensures GuardedTrace([PublishWorld(s, map[])], [])
  {
  }

  // The trace up to the crash
  lemma CrashedAfterAcquiring(s: ProjectState, job: JobId, operationId: OperationId, leased: ProjectState)
    returns (worlds: seq<PublishWorld>)
    requires ProjectInv(s) && AcquireReceiptsAreOld(s)
    requires job in s.runs && s.runs[job].phase == ReadyToPublish && operationId.jobId == job
    requires TakesStep(PublishWorld(s, map[job := Wanting(operationId, s.projectFence)]), AcquireStep(s, job, operationId),
                       PublishWorld(leased, map[job := HasLease(operationId)]))
    ensures |worlds| == 4 && worlds[0] == PublishWorld(s, map[]) && worlds[3] == PublishWorld(leased, map[])
    ensures GuardedTrace(worlds, [Observe(job, operationId), AcquireStep(s, job, operationId), CrashProcess])
  {
    TraceStarts(s);
    TakesObservation(s, job, operationId);
    var start, wanting := PublishWorld(s, map[]), PublishWorld(s, map[job := Wanting(operationId, s.projectFence)]);
    TraceExtends([start], [], Observe(job, operationId), wanting);
    worlds := [start] + [wanting];
    var having := PublishWorld(leased, map[job := HasLease(operationId)]);
    TraceExtends(worlds, [] + [Observe(job, operationId)], AcquireStep(s, job, operationId), having);
    worlds := worlds + [having];
    TakesCrash(leased, map[job := HasLease(operationId)]);
    TraceExtends(worlds, [] + [Observe(job, operationId)] + [AcquireStep(s, job, operationId)], CrashProcess, PublishWorld(leased, map[]));
    worlds := worlds + [PublishWorld(leased, map[])];
    assert [] + [Observe(job, operationId)] + [AcquireStep(s, job, operationId)] + [CrashProcess] ==
           [Observe(job, operationId), AcquireStep(s, job, operationId), CrashProcess];
  }

  lemma AcquiresAndCrashes(s: ProjectState, job: JobId, operationId: OperationId)
    returns (leased: ProjectState, worlds: seq<PublishWorld>)
    requires ProjectInv(s) && AcquireReceiptsAreOld(s) && s.publishLease.None?
    requires job in s.runs && s.runs[job].phase == ReadyToPublish && operationId.jobId == job
    ensures |worlds| == 4 && worlds[0] == PublishWorld(s, map[]) && worlds[3] == PublishWorld(leased, map[])
    ensures GuardedTrace(worlds, [Observe(job, operationId), AcquireStep(s, job, operationId), CrashProcess])
    ensures ProjectInv(leased) && leased.runs == s.runs && leased.publishLease == Some(PublishLease(job, operationId))
    ensures leased.receipts.Keys == s.receipts.Keys + {LeaseAcquireRequest(operationId, s.projectFence)}
  {
    leased := LeaseIsTaken(s, job, operationId);
    TakesAcquisition(s, job, operationId, leased);
    worlds := CrashedAfterAcquiring(s, job, operationId, leased);
  }

  lemma TakesCancel(s: ProjectState, job: JobId, requestId: RequestId, canceling: ProjectState)
    requires requestId.OtherRequest?
    requires LifecycleStep(s, Plainly(job, requestId, None), Move(job, ControlMove(RequestCancel)), canceling)
    ensures TakesStep(PublishWorld(s, map[]), CancelStep(job, requestId), PublishWorld(canceling, map[]))
  {
    TakesElsewhere(s, Plainly(job, requestId, None), Move(job, ControlMove(RequestCancel)), canceling);
  }

  lemma LeasedCancelIsHeld(s: ProjectState, job: JobId)
    requires job in s.runs && s.runs[job].phase == Canceling && LeaseNames(s.publishLease, job)
    ensures Held(s, job)
  {
  }

  lemma CancelsWhileLeased(s: ProjectState, job: JobId, requestId: RequestId) returns (canceling: ProjectState)
    requires ProjectInv(s) && job in s.runs && s.runs[job].phase == ReadyToPublish && LeaseNames(s.publishLease, job)
    requires requestId.OtherRequest? && requestId !in s.receipts
    ensures TakesStep(PublishWorld(s, map[]), CancelStep(job, requestId), PublishWorld(canceling, map[]))
    ensures Held(canceling, job) && canceling.runs[job].publish == s.runs[job].publish
  {
    canceling := CancelRequestCommits(s, job, requestId);
    LeasedCancelIsHeld(canceling, job);
    TakesCancel(s, job, requestId, canceling);
  }

  /**
    From any project in which a run is ready to publish and nobody publishes: a publish that takes the lease and
    crashes, and a cancellation after it, leave the run stuck with the lease, whatever its publish record.
   */
  lemma CrashAfterAcquiringTraps(s: ProjectState, job: JobId, operationId: OperationId, requestId: RequestId)
    returns (worlds: seq<PublishWorld>)
    requires ProjectInv(s) && AcquireReceiptsAreOld(s) && s.publishLease.None?
    requires job in s.runs && s.runs[job].phase == ReadyToPublish && operationId.jobId == job
    requires requestId.OtherRequest? && requestId !in s.receipts
    ensures GuardedTrace(worlds, CrashAfterAcquiring(s, job, operationId, requestId)) && worlds[0] == PublishWorld(s, map[])
    ensures Held(worlds[4].s, job) && worlds[4].s.runs[job].publish == s.runs[job].publish
  {
    var leased, crashed := AcquiresAndCrashes(s, job, operationId);
    var canceling := CancelsWhileLeased(leased, job, requestId);
    var steps := [Observe(job, operationId), AcquireStep(s, job, operationId), CrashProcess];
    TraceExtends(crashed, steps, CancelStep(job, requestId), PublishWorld(canceling, map[]));
    worlds := crashed + [PublishWorld(canceling, map[])];
  }
}
