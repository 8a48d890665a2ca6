/**
  The durable attempt store of a publish: every operation is one guarded mutation of the project state
  (apps/daemon/src/publish/publish-coordinator.ts, StateStorePublishAttemptStore).

  Nobody else commits between two operations here; interleavings are the subject of PublishProtocol.
 */
module PublishStore {
  import opened Wrappers
  import opened ProjectModel
  import opened MutationExecutor
  import opened RunSteps
  import opened RunTransitions
  import opened LifecycleInvariant
  import opened ProjectLifecycle
  import PublishProtocol
  import WorkspaceApply

  type OperationsHash = WorkspaceApply.OperationsHash

  // What the identifier of a request is not made of; repeats are compared by its digest.
  datatype Payload =
    | LeasePayload(operationId: OperationId, jobId: JobId)
    | AttemptPayload(attempt: PublishAttempt)
    | SubmitPayload(operationId: OperationId)
    | CompletePayload(operationId: OperationId, status: PublishStatus, result: PublishResult)
    | OutcomePayload(service: ServiceStatus)

  datatype Identity = Identity(fence: nat, generation: Option<int>, attemptId: Option<string>)

  function IdentityOf(run: RunRecord): Identity {
    Identity(run.fence, GenerationOf(LastAttempt(run)), AttemptIdOf(LastAttempt(run)))
  }

  predicate IdentityMatches(s: ProjectState, job: JobId, identity: Identity) {
    && job in s.runs && OwnsItsTask(s, s.runs[job]) && s.runs[job].jobId == job
    && s.runs[job].fence == identity.fence
    && (identity.generation.Some? ==> GenerationOf(LastAttempt(s.runs[job])) == identity.generation)
    && (identity.attemptId.Some? ==> AttemptIdOf(LastAttempt(s.runs[job])) == identity.attemptId)
  }

  function RequestFor(job: JobId, identity: Identity, requestId: RequestId, payload: string, phases: set<RunPhase>): Request {
    Request(requestId, payload, Canonical, None, Some(identity.fence), Some(job), identity.generation,
            if identity.attemptId.Some? then Some(identity.attemptId) else None, Some(phases), false)
  }

  lemma GuardsPass(s: ProjectState, job: JobId, identity: Identity, requestId: RequestId, payload: string, phases: set<RunPhase>)
    requires IdentityMatches(s, job, identity)
    ensures FirstFailedGuard(s, RequestFor(job, identity, requestId, payload, phases)).None? <==> s.runs[job].phase in phases
  {
  }

  /** A store that was made for another epoch or attempt of the run, or for a run that has left these phases, commits nothing. */
  lemma StaleStoreNeverCommits(
    s: ProjectState, job: JobId, identity: Identity, requestId: RequestId, payload: string, phases: set<RunPhase>, build: Build)
    requires Attempt(s, RequestFor(job, identity, requestId, payload, phases), build).Committed?
    ensures job in s.runs && s.runs[job].fence == identity.fence && s.runs[job].phase in phases
    ensures s.runs[job].taskPath in s.activeRuns && s.activeRuns[s.runs[job].taskPath] == job
    ensures identity.generation.Some? ==>
              exists a :: IsLast(s.runs[job].attempts, a) && a.generation == identity.generation.value
    ensures identity.attemptId.Some? ==>
              exists a :: IsLast(s.runs[job].attempts, a) && a.attemptId == identity.attemptId.value
  {
    CommitMeetsGuards(s, RequestFor(job, identity, requestId, payload, phases), build);
  }

  // The state after a mutation of one run
  predicate Moved(s: ProjectState, next: ProjectState, job: JobId, run: RunRecord, lease: Option<PublishLease>, requestId: RequestId) {
    && next.runs == s.runs[job := run]
    && next.activeRuns == s.activeRuns
    && next.publishLease == lease
    && next.receipts.Keys == s.receipts.Keys + {requestId}
    && next.projectFence == s.projectFence + 1
  }

  // The same after several, whose requests are all recorded
  predicate Reached(
    s: ProjectState, next: ProjectState, job: JobId, run: RunRecord, lease: Option<PublishLease>, requestIds: set<RequestId>)
  {
    && next.runs == s.runs[job := run]
    && next.activeRuns == s.activeRuns
    && next.publishLease == lease
    && next.receipts.Keys == s.receipts.Keys + requestIds
  }

  predicate HasAttempt(s: ProjectState, job: JobId) {
    job in s.runs && s.runs[job].publish.Some?
  }

  // The commit of SUBMITTED goes through, and what it records
  predicate CanSubmit(s: ProjectState, job: JobId, evidence: Evidence, operationId: OperationId, operationsHash: OperationsHash) {
    && HasAttempt(s, job)
    && var run := s.runs[job];
       && run.phase == Publishing && SubmittedRequest(operationId) !in s.receipts
       && run.publish.value.operationId == operationId && run.publish.value.operationsHash == operationsHash
       && run.publish.value.status == Prepared
       && EvidenceHolds(run, evidence)
  }

  predicate RecordsSubmission(s: ProjectState, next: ProjectState, job: JobId, operationId: OperationId)
    requires HasAttempt(s, job)
  {
    var run := s.runs[job];
    Moved(s, next, job, run.(publish := Some(run.publish.value.(status := Submitted))), s.publishLease, SubmittedRequest(operationId))
  }

  lemma SubmissionSteps(s: ProjectState, job: JobId, evidence: Evidence, operationId: OperationId, operationsHash: OperationsHash)
    requires job in s.runs
    ensures var run, step := s.runs[job], SubmitPublish(operationId, operationsHash, evidence);
            && (CanSubmit(s, job, evidence, operationId, operationsHash) <==>
                  run.phase in PublishPhases(step) && StepPublish(step, run).Ok? && SubmittedRequest(operationId) !in s.receipts)
            && (StepPublish(step, run).Ok? ==>
                  && run.publish.Some?
                  && StepPublish(step, run).value == run.(publish := Some(run.publish.value.(status := Submitted)))
                  && LeaseAfter(s.publishLease, job, PublishMove(step), run) == s.publishLease)
  {
  }

  lemma BeginningAgainSteps(s: ProjectState, job: JobId, attempt: PublishAttempt)
    requires HasAttempt(s, job) && s.runs[job].publish.value == attempt
    ensures var run, step := s.runs[job], BeginPublishRecovery(attempt);
            && PublishPhases(step) == LEASE_PHASES && StepPublish(step, run) == Ok(run.(phase := Publishing))
            && LeaseAfter(s.publishLease, job, PublishMove(step), run) == s.publishLease
  {
  }

  lemma MovedIsReached(s: ProjectState, next: ProjectState, job: JobId, run: RunRecord, lease: Option<PublishLease>, requestId: RequestId)
    requires Moved(s, next, job, run, lease, requestId)
    ensures Reached(s, next, job, run, lease, {requestId})
  {
  }

  lemma ReachedChains(
    s: ProjectState, middle: ProjectState, next: ProjectState, job: JobId, between: RunRecord, run: RunRecord,
    first: Option<PublishLease>, lease: Option<PublishLease>, before: set<RequestId>, after: set<RequestId>)
    requires Reached(s, middle, job, between, first, before) && Reached(middle, next, job, run, lease, after)
    ensures Reached(s, next, job, run, lease, before + after)
  {
    assert s.runs[job := between][job := run] == s.runs[job := run];
  }

  lemma CommittedMove(s: ProjectState, request: Request, job: JobId, step: RunStep)
    requires Attempt(s, request, BuildOf(Move(job, step))).Committed?
    requires job in s.runs && request.expectedJobId == Some(job) && !request.advanceFence
    ensures StepRun(step, s.runs[job]).Ok?
    ensures var next := Attempt(s, request, BuildOf(Move(job, step))).state;
            && next.runs == s.runs[job := StepRun(step, s.runs[job]).value]
            && next.publishLease == LeaseAfter(s.publishLease, job, step, s.runs[job])
    ensures !EndsRun(step) ==>
              Moved(s, Attempt(s, request, BuildOf(Move(job, step))).state, job, StepRun(step, s.runs[job]).value,
                    LeaseAfter(s.publishLease, job, step, s.runs[job]), request.requestId)
  {
    CommittedReachedBuilder(s, request, Move(job, step));
    AttemptUnfolds(s, request, Move(job, step));
    FinalisedMove(s, request, NextContext(s, request), job, step, StepRun(step, s.runs[job]).value);
  }

  lemma CommittedLeaseStep(s: ProjectState, request: Request, t: Transition)
    requires Attempt(s, request, BuildOf(t)).Committed? && (t.AcquireLease? || t.ReleaseLease?)
    requires t.jobId in s.runs && request.expectedJobId == Some(t.jobId) && !request.advanceFence
    ensures var lease := Attempt(s, request, BuildOf(t)).state.publishLease;
            Moved(s, Attempt(s, request, BuildOf(t)).state, t.jobId, s.runs[t.jobId], lease, request.requestId)
  {
    CommittedReachedBuilder(s, request, t);
    AttemptUnfolds(s, request, t);
    assert s.runs[t.jobId := s.runs[t.jobId]] == s.runs;
  }

  // Lease requests name the fence they saw, so their identifiers are never used again.
  ghost predicate LeaseReceiptsAreOld(s: ProjectState) {
    forall id | id in s.receipts && (id.LeaseAcquireRequest? || id.LeaseReleaseRequest?) :: id.projectFence < s.projectFence
  }

  ghost predicate IsCurrent(s: ProjectState, job: JobId, identity: Identity) {
    ProjectInv(s) && IdentityMatches(s, job, identity) && LeaseReceiptsAreOld(s)
  }

  lemma PublishStepsKeepAttempts(step: PublishStep, run: RunRecord)
    requires StepPublish(step, run).Ok?
    ensures SameRun(run, StepPublish(step, run).value) && StepPublish(step, run).value.attempts == run.attempts
  {
  }

  lemma MovedIsCurrent(s: ProjectState, next: ProjectState, job: JobId, identity: Identity, run: RunRecord,
                       lease: Option<PublishLease>, requestId: RequestId)
    requires IsCurrent(s, job, identity) && ProjectInv(next) && Moved(s, next, job, run, lease, requestId)
    requires SameRun(s.runs[job], run) && run.attempts == s.runs[job].attempts
    requires requestId.LeaseAcquireRequest? || requestId.LeaseReleaseRequest? ==> requestId.projectFence == s.projectFence
    ensures IsCurrent(next, job, identity)
  {
  }

  class StateStorePublishAttemptStore {
    var state: ProjectState
    const job: JobId
    const identity: Identity
    const evidence: Evidence
    const digest: Payload -> string

    constructor (state: ProjectState, job: JobId, reviewEnabled: bool, digest: Payload -> string)
      requires ProjectInv(state) && LeaseReceiptsAreOld(state) && job in state.runs && !IsTerminal(state.runs[job].phase)
      ensures Current() && this.state == state && this.job == job && this.digest == digest
      ensures identity == IdentityOf(state.runs[job]) && identity.fence == state.runs[job].fence
      ensures state.runs[job].attempts != [] ==>
                var last := state.runs[job].attempts[|state.runs[job].attempts| - 1];
                identity.generation == Some(last.generation) && identity.attemptId == Some(last.attemptId)
      ensures evidence == Evidence(state.runs[job].candidate, state.runs[job].review, state.runs[job].leaderDecision, reviewEnabled)
    {
      this.state, this.job, this.digest := state, job, digest;
      this.identity, this.evidence := IdentityOf(state.runs[job]), EvidenceOf(state.runs[job], reviewEnabled);
    }

    ghost predicate Current()
      reads this
    {
      IsCurrent(state, job, identity)
    }

    function Run(): RunRecord
      reads this
      requires job in state.runs
    {
      state.runs[job]
    }

    ghost predicate Became(was: ProjectState, run: RunRecord, lease: Option<PublishLease>, requestId: RequestId)
      reads this
    {
      Moved(was, state, job, run, lease, requestId)
    }

    /** One guarded mutation; a refusal and a repeat leave the state alone. */
    method Mutate(requestId: RequestId, payload: Payload, phases: set<RunPhase>, t: Transition) returns (outcome: Outcome)
      requires Current()
      modifies this
      ensures outcome == Attempt(old(state), RequestFor(job, identity, requestId, digest(payload), phases), BuildOf(t))
      ensures state == if outcome.Committed? then outcome.state else old(state)
    {
      outcome := Attempt(state, RequestFor(job, identity, requestId, digest(payload), phases), BuildOf(t));
      if outcome.Committed? {
        state := outcome.state;
      }
    }

    /** A publish step: it commits exactly when the phase fits, its builder accepts and the request is new. */
    method MutateRun(requestId: RequestId, payload: Payload, step: PublishStep) returns (outcome: Outcome)
      requires Current() && Disciplined(state, Move(job, PublishMove(step))) && !EndsRun(PublishMove(step))
      requires !requestId.LeaseAcquireRequest? && !requestId.LeaseReleaseRequest?
      modifies this
      ensures Current()
      ensures outcome.Committed? <==>
                && old(Run()).phase in PublishPhases(step) && StepPublish(step, old(Run())).Ok?
                && requestId !in old(state).receipts
      ensures if outcome.Committed? then
                Became(old(state), StepPublish(step, old(Run())).value,
                       LeaseAfter(old(state).publishLease, job, PublishMove(step), old(Run())), requestId)
              else state == old(state)
    {
      outcome := Mutate(requestId, payload, PublishPhases(step), Move(job, PublishMove(step)));
      MutationOfRun(old(state), job, identity, requestId, digest(payload), step);
    }

    /** The lease is taken, or found held by another publish; an error only outside of publishing. */
    method AcquireLease(operationId: OperationId) returns (r: Result<bool, MutationError>)
      requires Current()
      modifies this
      ensures Current()
      ensures old(state).publishLease.Some? && old(state).publishLease != Some(PublishLease(job, operationId)) ==>
                r == Ok(false) && state == old(state)
      ensures (old(state).publishLease.None? || old(state).publishLease == Some(PublishLease(job, operationId))) ==>
                if old(Run()).phase in LEASE_PHASES then
                  && r == Ok(true)
                  && Became(old(state), old(Run()), Some(PublishLease(job, operationId)),
                            LeaseAcquireRequest(operationId, old(state).projectFence))
                else r.Err? && state == old(state)
    {
      if state.publishLease.Some? && state.publishLease != Some(PublishLease(job, operationId)) {
        return Ok(false);
      }
      var requestId := LeaseAcquireRequest(operationId, state.projectFence);
      var t := Transition.AcquireLease(job, operationId);
      var payload := LeasePayload(operationId, job);
      var outcome := Mutate(requestId, payload, LEASE_PHASES, t);
      MutationOfLease(old(state), job, identity, requestId, digest(payload), t);
      if outcome.Refused? {
        return Err(outcome.error);
      }
      return Ok(Answer(outcome) == LeaseAnswer(true));
    }

    method ReleaseLease(operationId: OperationId) returns (failed: Option<MutationError>)
      requires Current()
      modifies this
      ensures Current()
      ensures old(state).publishLease != Some(PublishLease(job, operationId)) ==> failed.None? && state == old(state)
      ensures old(state).publishLease == Some(PublishLease(job, operationId)) ==>
                if old(Run()).phase in LEASE_PHASES then
                  && failed.None?
                  && Became(old(state), old(Run()), None, LeaseReleaseRequest(operationId, old(state).projectFence))
                else failed.Some? && state == old(state)
    {
      if state.publishLease != Some(PublishLease(job, operationId)) {
        return None;
      }
      var requestId := LeaseReleaseRequest(operationId, state.projectFence);
      var t := Transition.ReleaseLease(job, operationId);
      var payload := LeasePayload(operationId, job);
      var outcome := Mutate(requestId, payload, LEASE_PHASES, t);
      MutationOfLease(old(state), job, identity, requestId, digest(payload), t);
      return if outcome.Refused? then Some(outcome.error) else None;
    }

    /** The recorded attempt of this operation. */
    method Get(operationId: OperationId) returns (attempt: Option<PublishAttempt>)
      requires Current()
      ensures attempt.Some? ==> Run().publish == attempt && attempt.value.operationId == operationId
      ensures attempt.None? ==> Run().publish.None? || Run().publish.value.operationId != operationId
    {
      var publish := Run().publish;
      return if publish.Some? && publish.value.operationId == operationId then publish else None;
    }

    method Prepare(attempt: PublishAttempt) returns (outcome: Outcome)
      requires Current() && ValidPublishAttempt(attempt)
      modifies this
      ensures Current()
      ensures outcome.Committed? <==>
                old(Run()).phase == ReadyToPublish && PreparedRequest(attempt.operationId) !in old(state).receipts
      ensures if outcome.Committed? then
                Became(old(state), old(Run()).(phase := Publishing, publish := Some(attempt)), old(state).publishLease,
                       PreparedRequest(attempt.operationId))
              else state == old(state)
    {
      outcome := MutateRun(PreparedRequest(attempt.operationId), AttemptPayload(attempt), PreparePublish(attempt));
    }

    method BeginRecovery(attempt: PublishAttempt) returns (outcome: Outcome)
      requires Current() && Run().publish == Some(attempt)
      modifies this
      ensures Current()
      ensures outcome.Committed? <==>
                old(Run()).phase in LEASE_PHASES && BeginRecoveryRequest(attempt.operationId, attempt.status) !in old(state).receipts
      ensures if outcome.Committed? then
                Became(old(state), old(Run()).(phase := Publishing), old(state).publishLease,
                       BeginRecoveryRequest(attempt.operationId, attempt.status))
              else state == old(state)
    {
      BeginningAgainSteps(state, job, attempt);
      outcome := MutateRun(BeginRecoveryRequest(attempt.operationId, attempt.status), AttemptPayload(attempt),
                           BeginPublishRecovery(attempt));
    }

    /** The commit before the adapter is started; only a fresh commit starts it. */
    method MarkSubmitted(operationId: OperationId, operationsHash: OperationsHash) returns (outcome: Outcome)
      requires Current()
      modifies this
      ensures Current()
      ensures outcome.Committed? <==> CanSubmit(old(state), job, evidence, operationId, operationsHash)
      ensures if outcome.Committed? then RecordsSubmission(old(state), state, job, operationId) else state == old(state)
    {
      SubmissionSteps(state, job, evidence, operationId, operationsHash);
      outcome := MutateRun(SubmittedRequest(operationId), SubmitPayload(operationId),
                           SubmitPublish(operationId, operationsHash, evidence));
    }

    method Complete(operationId: OperationId, status: PublishStatus, result: PublishResult) returns (outcome: Outcome)
      requires Current()
      requires Run().publish.Some? ==> ValidPublishAttempt(Run().publish.value.(status := status, result := Some(result)))
      modifies this
      ensures Current()
      ensures outcome.Committed? <==>
                && old(Run()).phase == Publishing && CompleteRequest(operationId, status) !in old(state).receipts
                && old(Run()).publish.Some? && old(Run()).publish.value.operationId == operationId
      ensures if outcome.Committed? then
                Became(old(state), old(Run()).(publish := Some(old(Run()).publish.value.(status := status, result := Some(result)))),
                       if status == AttemptCommitted || status == AttemptConflict then None else old(state).publishLease,
                       CompleteRequest(operationId, status))
              else state == old(state)
    {
      outcome := MutateRun(CompleteRequest(operationId, status), CompletePayload(operationId, status, result),
                           CompletePublish(operationId, status, result));
    }
  }

  function EvidenceOf(run: RunRecord, reviewEnabled: bool): Evidence {
    Evidence(run.candidate, run.review, run.leaderDecision, reviewEnabled)
  }

  lemma MutationOfRun(s: ProjectState, job: JobId, identity: Identity, requestId: RequestId, payload: string, step: PublishStep)
    requires IsCurrent(s, job, identity) && Disciplined(s, Move(job, PublishMove(step))) && !EndsRun(PublishMove(step))
    requires !requestId.LeaseAcquireRequest? && !requestId.LeaseReleaseRequest?
    ensures var request := RequestFor(job, identity, requestId, payload, PublishPhases(step));
            var outcome := Attempt(s, request, BuildOf(Move(job, PublishMove(step))));
            && (outcome.Committed? <==>
                  s.runs[job].phase in PublishPhases(step) && StepPublish(step, s.runs[job]).Ok? && requestId !in s.receipts)
            && (outcome.Committed? ==>
                  && IsCurrent(outcome.state, job, identity)
                  && Moved(s, outcome.state, job, StepPublish(step, s.runs[job]).value,
                           LeaseAfter(s.publishLease, job, PublishMove(step), s.runs[job]), requestId))
  {
    var request := RequestFor(job, identity, requestId, payload, PublishPhases(step));
    var t := Move(job, PublishMove(step));
    GuardsPass(s, job, identity, requestId, payload, PublishPhases(step));
    CommitNeedsFresh(s, request, t);
    if s.runs[job].phase in PublishPhases(step) && StepPublish(step, s.runs[job]).Ok? && requestId !in s.receipts {
      DisciplinedTransitionsKeepInvariant(s, request, t);
    }
    if Attempt(s, request, BuildOf(t)).Committed? {
      CommittedMove(s, request, job, t.step);
      PublishStepsKeepAttempts(step, s.runs[job]);
      MovedIsCurrent(s, Attempt(s, request, BuildOf(t)).state, job, identity, StepPublish(step, s.runs[job]).value,
                     LeaseAfter(s.publishLease, job, t.step, s.runs[job]), requestId);
    }
  }

  const LEASE_PHASES := {ReadyToPublish, Publishing}

  function Answer(outcome: Outcome): Response {
    match outcome
    case Committed(_, answer) => answer
    case Replayed(response) => response
    case Refused(_) => Acknowledged
  }

  lemma MutationOfLease(s: ProjectState, job: JobId, identity: Identity, requestId: RequestId, payload: string, t: Transition)
    requires IsCurrent(s, job, identity) && (t.AcquireLease? || t.ReleaseLease?) && t.jobId == job
    requires requestId.LeaseAcquireRequest? || requestId.LeaseReleaseRequest?
    requires requestId.projectFence == s.projectFence
    ensures var outcome := Attempt(s, RequestFor(job, identity, requestId, payload, LEASE_PHASES), BuildOf(t));
            && (outcome.Committed? <==> s.runs[job].phase in LEASE_PHASES)
            && !outcome.Replayed?
            && (outcome.Committed? ==>
                  && IsCurrent(outcome.state, job, identity)
                  && Moved(s, outcome.state, job, s.runs[job], outcome.state.publishLease, requestId)
                  && (t.ReleaseLease? && s.publishLease == Some(PublishLease(job, t.operationId)) ==> outcome.state.publishLease.None?)
                  && (t.AcquireLease? && (s.publishLease.None? || s.publishLease == Some(PublishLease(job, t.operationId))) ==>
                        outcome.answer == LeaseAnswer(true) && outcome.state.publishLease == Some(PublishLease(job, t.operationId))))
  {
    var request := RequestFor(job, identity, requestId, payload, LEASE_PHASES);
    GuardsPass(s, job, identity, requestId, payload, LEASE_PHASES);
    CommitNeedsFresh(s, request, t);
    if s.runs[job].phase in LEASE_PHASES {
      DisciplinedTransitionsKeepInvariant(s, request, t);
      CommittedLeaseStep(s, request, t);
      PublishProtocol.LeaseAfterCommit(s, request, t);
      var next := Attempt(s, request, BuildOf(t)).state;
      MovedIsCurrent(s, next, job, identity, s.runs[job], next.publishLease, requestId);
    }
  }

  lemma CommitNeedsFresh(s: ProjectState, request: Request, t: Transition)
    requires request.replayPolicy == Canonical
    ensures Attempt(s, request, BuildOf(t)).Committed? ==>
              && request.requestId !in s.receipts && FirstFailedGuard(s, request).None?
              && Built(t, s, NextContext(s, request)).Ok?
  {
  }
}
