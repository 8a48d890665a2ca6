/**
  Recovering a run that a crash left in PUBLISHING (apps/daemon/src/recovery/recovery-manager.ts,
  `recover` of apps/daemon/src/publish/publish-coordinator.ts).
 */
module PublishRecovery {
  import opened Wrappers
  import opened Ordering
  import opened ProjectModel
  import opened MutationExecutor
  import opened RunSteps
  import opened RunTransitions
  import opened LifecycleInvariant
  import opened ProjectLifecycle
  import opened PublishOperations
  import opened PublishObservation
  import opened PublishStore
  import opened PublishOutcome
  import opened PublishService
  import opened UnsettledPublish
  import opened PublishRecords
  import WorkspaceApply

  // The request names the state version it read, so it is never a repeat.
  function RecoveryRequest(s: ProjectState, job: JobId, text: string, payload: string): Request
    requires job in s.runs
  {
    var identity := IdentityOf(s.runs[job]);
    Request(OtherRequest(text), payload, CurrentEpoch, Some(s.stateVersion), Some(identity.fence), Some(job), identity.generation,
            if identity.attemptId.Some? then Some(identity.attemptId) else None, Some({s.runs[job].phase}), false)
  }

  predicate CanRecover(s: ProjectState, job: JobId, text: string) {
    && job in s.runs && s.runs[job].jobId == job && OwnsItsTask(s, s.runs[job]) && s.runs[job].phase == Publishing
    && OtherRequest(text) !in s.receipts
  }

  lemma RecoveryProceeds(s: ProjectState, job: JobId, text: string, payload: string)
    requires CanRecover(s, job, text)
    ensures Decide(s, RecoveryRequest(s, job, text, payload)).Proceed?
  {
  }

  /** A recovery is committed on the very state it was worked out on, or not at all. */
  lemma RecoveryNeedsItsState(s: ProjectState, later: ProjectState, job: JobId, text: string, payload: string, build: Build)
    requires job in s.runs && OtherRequest(text) !in later.receipts && later.stateVersion != s.stateVersion
    ensures Attempt(later, RecoveryRequest(s, job, text, payload), build) == Refused(StateVersionMismatch)
  {
    OtherVersionIsRefused(later, RecoveryRequest(s, job, text, payload), build);
  }

  lemma RecoveryIsCarried(s: ProjectState, job: JobId, text: string, payload: string, step: RecoveryStep)
    requires CanRecover(s, job, text) && (step.RecoverPublish? || step.RecoverPause?)
    ensures Carries(RecoveryRequest(s, job, text, payload), Move(job, RecoveryMove(step)))
  {
  }

  predicate RecoversAs(s: ProjectState, next: ProjectState, job: JobId, step: RecoveryStep)
    requires job in s.runs && StepRecovery(step, s.runs[job]).Ok?
  {
    && next.runs == s.runs[job := StepRecovery(step, s.runs[job]).value]
    && next.publishLease == LeaseAfter(s.publishLease, job, RecoveryMove(step), s.runs[job])
  }

  // The schema refuses the end of a run that the lease, taken for another operation, still names.
  predicate SchemaAllows(s: ProjectState, job: JobId, step: RecoveryStep) {
    EndsRun(RecoveryMove(step)) ==> LeaseFits(s, job)
  }

  lemma RecoveryCommits(s: ProjectState, job: JobId, text: string, payload: string, step: RecoveryStep)
    requires ProjectInv(s) && CanRecover(s, job, text)
    requires (step.RecoverPublish? || step.RecoverPause?) && StepRecovery(step, s.runs[job]).Ok?
    ensures var outcome := Attempt(s, RecoveryRequest(s, job, text, payload), BuildOf(Move(job, RecoveryMove(step))));
            && (outcome.Committed? <==> SchemaAllows(s, job, step))
            && (outcome.Committed? ==> ProjectInv(outcome.state) && RecoversAs(s, outcome.state, job, step))
  {
    var request, t := RecoveryRequest(s, job, text, payload), Move(job, RecoveryMove(step));
    RecoveryProceeds(s, job, text, payload);
    RecoveryIsCarried(s, job, text, payload, step);
    MoveCommitsUnlessLeased(s, request, job, t.step);
    if Attempt(s, request, BuildOf(t)).Committed? {
      CommittedMove(s, request, job, t.step);
    }
  }

  // What the adapter has for the attempt on record, as far as it settles it
  predicate IsSettling(result: PublishResult) {
    result.status == WorkspaceApply.Committed || result.status == WorkspaceApply.Conflicted
  }

  // The lease after a recovery that settles: returned if it was taken for the attempt on record
  function LeaseReturned(s: ProjectState, job: JobId): Option<PublishLease> {
    if LeaseNames(s.publishLease, job) && LeaseFits(s, job) then None else s.publishLease
  }

  /**
    Where a recovery leads: a recorded COMMITTED completes the run, a recorded CONFLICT lets it be cancelled, and
    both return the lease; in every other case an unsettled attempt traps the run. Only a lease for another operation
    of the job keeps a COMMITTED from completing it, and then nothing changes.
   */
  predicate RecoveryEnds(s: ProjectState, next: ProjectState, job: JobId, seen: Option<PublishResult>)
    requires job in s.runs
  {
    && job in next.runs
    && var run := next.runs[job];
       if seen.Some? && seen.value.status == WorkspaceApply.Committed && !LeaseFits(s, job) then next == s
       else if seen.Some? && IsSettling(seen.value) then
         && run.publish.Some? && run.publish.value.result == seen && next.publishLease == LeaseReturned(s, job)
         && if seen.value.status == WorkspaceApply.Committed then run.phase == Completed && PublishCommitted(run)
            else run.phase == Paused && !PublishUnsettled(run)
       else
         && run.phase == Paused && run.publish == s.runs[job].publish && next.publishLease == s.publishLease
         && (PublishUnsettled(s.runs[job]) || LeaseNames(s.publishLease, job) ==> Stuck(next, job))
  }

  lemma RecoveredEnds(s: ProjectState, next: ProjectState, job: JobId, result: PublishResult)
    requires job in s.runs && s.runs[job].publish.Some? && IsSettling(result)
    requires result.status == WorkspaceApply.Committed ==> LeaseFits(s, job)
    requires var step := RecoverPublish(result.status == WorkspaceApply.Committed, result);
             StepRecovery(step, s.runs[job]).Ok? && RecoversAs(s, next, job, step)
    ensures RecoveryEnds(s, next, job, Some(result))
  {
  }

  lemma PausedEnds(s: ProjectState, next: ProjectState, job: JobId, code: string, seen: Option<PublishResult>)
    requires job in s.runs && RecoversAs(s, next, job, RecoverPause(code))
    requires seen.Some? ==> !IsSettling(seen.value)
    ensures RecoveryEnds(s, next, job, seen)
  {
    StopActionsNeverLeave(next.runs[job]);
  }

  class RecoveryManager {
    var state: ProjectState
    const job: JobId

    constructor (state: ProjectState, job: JobId)
      ensures this.state == state && this.job == job
    {
      this.state, this.job := state, job;
    }

    method Commit(step: RecoveryStep, text: string, payload: string)
      requires ProjectInv(state) && CanRecover(state, job, text)
      requires (step.RecoverPublish? || step.RecoverPause?) && StepRecovery(step, state.runs[job]).Ok?
      modifies this
      ensures ProjectInv(state)
      ensures if SchemaAllows(old(state), job, step) then RecoversAs(old(state), state, job, step) else state == old(state)
    {
      var outcome := Attempt(state, RecoveryRequest(state, job, text, payload), BuildOf(Move(job, RecoveryMove(step))));
      RecoveryCommits(state, job, text, payload, step);
      if outcome.Committed? {
        state := outcome.state;
      }
    }

    /**
      Recovery of a run in PUBLISHING: it settles exactly when the adapter has recorded a result, for the batch
      the run still stands for, that is COMMITTED or CONFLICT.
     */
    method RecoverRun(
      bindings: Bindings, given: seq<ApplyOperation>, adapter: WorkspaceApply.FilesystemWorkspaceApplyAdapter, intact: bool,
      text: string, payload: string)
      requires ProjectInv(state) && CanRecover(state, job, text)
      requires StrictTotalOn(adapter.less, PathSet(given)) && SoundResults(adapter.results)
      modifies this
      ensures ProjectInv(state)
      ensures RecoveryEnds(old(state), state, job, SeenFor(old(state).runs[job].publish, bindings, job, given, adapter, intact))
    {
      var publish := state.runs[job].publish;
      match publish
      case None =>
        Commit(RecoverPause("PUBLISH_ATTEMPT_MISSING"), text, payload);
        PausedEnds(old(state), state, job, "PUBLISH_ATTEMPT_MISSING", None);
      case Some(attempt) =>
        var observed := ReconcilePublish(attempt, bindings, job, given, adapter, intact);
        RecordRecovered(attempt, observed, text, payload);
    }

    method RecordRecovered(attempt: PublishAttempt, observed: ServiceResult, text: string, payload: string)
      requires ProjectInv(state) && CanRecover(state, job, text)
      requires state.runs[job].publish == Some(attempt) && (SeenIn(observed).Some? ==>
                 && SoundResult(attempt.operationId, SeenIn(observed).value) && RecordedAs(Some(attempt), attempt.operationId)
                 && observed == AnswerFor(attempt.operationId, SeenIn(observed).value))
      modifies this
      ensures ProjectInv(state) && RecoveryEnds(old(state), state, job, SeenIn(observed))
    {
      var seen := SeenIn(observed);
      if seen.Some? && IsSettling(seen.value) {
        RecordSettling(attempt, seen.value, text, payload);
      } else {
        Commit(RecoverPause("PUBLISH_RECOVERY_BLOCKED"), text, payload);
        PausedEnds(old(state), state, job, "PUBLISH_RECOVERY_BLOCKED", seen);
      }
    }

    method RecordSettling(attempt: PublishAttempt, result: PublishResult, text: string, payload: string)
      requires ProjectInv(state) && CanRecover(state, job, text)
      requires state.runs[job].publish == Some(attempt) && RecordedAs(Some(attempt), attempt.operationId)
      requires SoundResult(attempt.operationId, result) && IsSettling(result)
      modifies this
      ensures ProjectInv(state) && RecoveryEnds(old(state), state, job, Some(result))
    {
      SettlingResultIsAccepted(state.runs[job], attempt.operationId, result);
      var step := RecoverPublish(result.status == WorkspaceApply.Committed, result);
      Commit(step, text, payload);
      if SchemaAllows(old(state), job, step) {
        RecoveredEnds(old(state), state, job, result);
      }
    }
  }

  lemma SettlingResultIsAccepted(run: RunRecord, id: OperationId, result: PublishResult)
    requires RecordedAs(run.publish, id) && SoundResult(id, result) && IsSettling(result)
    ensures StepRecovery(RecoverPublish(result.status == WorkspaceApply.Committed, result), run).Ok?
  {
    ProducedResultIsConsistent(id, id.operationsHash, id.operationsHash.canonical, result);
  }

  // The attempt on record is the one the run's candidate and review stand for.
  predicate StandsFor(attempt: PublishAttempt, bindings: Bindings, job: JobId, given: seq<ApplyOperation>, less: (Path, Path) -> bool) {
    && PublishOperations.Canonical(given, less).Ok?
    && attempt.operationsHash == WorkspaceApply.OperationsHash(PublishOperations.Canonical(given, less).value)
    && attempt.operationId == OperationIdOf(bindings, job, PublishOperations.Canonical(given, less).value)
  }

  function SeenFor(publish: Option<PublishAttempt>, bindings: Bindings, job: JobId, given: seq<ApplyOperation>,
                   adapter: WorkspaceApply.FilesystemWorkspaceApplyAdapter, intact: bool): Option<PublishResult>
    reads adapter
  {
    if publish.Some? && intact && StandsFor(publish.value, bindings, job, given, adapter.less) && Recoverable(adapter, publish.value)
    then Some(adapter.results[publish.value.operationId]) else None
  }

  /** Reads the adapter for the attempt on record; anything that does not fit blocks. */
  method ReconcilePublish(
    attempt: PublishAttempt, bindings: Bindings, job: JobId, given: seq<ApplyOperation>,
    adapter: WorkspaceApply.FilesystemWorkspaceApplyAdapter, intact: bool) returns (r: ServiceResult)
    requires StrictTotalOn(adapter.less, PathSet(given)) && SoundResults(adapter.results)
    ensures SeenIn(r) == SeenFor(Some(attempt), bindings, job, given, adapter, intact)
    ensures SeenIn(r).Some? ==>
              && SoundResult(attempt.operationId, SeenIn(r).value) && RecordedAs(Some(attempt), attempt.operationId)
              && r == AnswerFor(attempt.operationId, SeenIn(r).value)
  {
    var blocked := Blocked(attempt.operationId, None);
    if !intact {
      return blocked;
    }
    var canonical := CanonicalOperations(given, adapter.less);
    if canonical.Err? {
      return blocked;
    }
    if WorkspaceApply.OperationsHash(canonical.value) != attempt.operationsHash ||
       OperationIdOf(bindings, job, canonical.value) != attempt.operationId {
      return blocked;
    }
    var observed := ObserveRecovery(attempt, given, adapter);
    return if observed.Ok? then observed.value else blocked;
  }
}
