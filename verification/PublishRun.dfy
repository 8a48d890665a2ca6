/**
  A whole publish of a run, from READY_TO_PUBLISH to where it rests, and its recovery after a crash
  (apps/daemon/src/publish/publish-coordinator.ts, apps/daemon/src/recovery/recovery-manager.ts).
 */
module PublishRun {
  import opened Wrappers
  import opened Ordering
  import opened ProjectModel
  import opened RunSteps
  import opened RunTransitions
  import opened LifecycleInvariant
  import opened ProjectLifecycle
  import opened PublishOperations
  import opened PublishObservation
  import opened PublishStore
  import opened PublishOutcome
  import opened PublishService
  import opened UnsettledPublish
  import MutationExecutor
  import PublishProtocol
  import WorkspaceApply

  function ServiceOf(answer: ServiceResult): ServiceStatus {
    match answer
    case Published(_, _) => ServiceCommitted
    case Conflicting(_, _) => PrecheckConflict
    case Busy => PublishBusy
    case Blocked(_, _) => RecoveryBlocked
    case Manual(_) => ManualRequired
  }

  /** What becomes of a run by the answer of its publish: completed exactly for a published batch, else paused under its own code. */
  lemma AnswersSettle(run: RunRecord, answer: ServiceResult)
    ensures var next := SettledRun(run, ServiceOf(answer));
            && (next.phase == Completed <==> answer.Published?)
            && (answer.Published? ==> next == run.(phase := Completed, manualMark := None))
            && (!answer.Published? ==> next.pause.Some? && next == run.(phase := Paused, manualMark := None, pause := next.pause))
            && (answer.Conflicting? ==> next.pause.value.code == "PUBLISH_PRECHECK_CONFLICT")
            && (answer.Busy? ==> next.pause.value.code == "PROJECT_PUBLISH_BUSY")
            && (answer.Blocked? ==> next.pause.value.code == "PUBLISH_RECOVERY_BLOCKED")
            && (answer.Manual? ==> next.pause.value.code == "PUBLISH_ADAPTER_UNAVAILABLE")
  {
  }

  function OutcomeOf(job: JobId, service: ServiceStatus): RequestId {
    OutcomeRequest(job, PublishProtocol.ServiceName(service))
  }

  /** Each outcome of a job has a request of its own, so only a repeat of the same outcome is taken for one. */
  lemma OutcomesHaveTheirOwnRequest(a: ServiceStatus, jobA: JobId, b: ServiceStatus, jobB: JobId)
    ensures OutcomeOf(jobA, a) == OutcomeOf(jobB, b) <==> jobA == jobB && a == b
  {
    PublishProtocol.ServiceNamesDiffer(a, b);
  }

  // Settling

  predicate CanSettle(s: ProjectState, job: JobId, service: ServiceStatus) {
    && job in s.runs && s.runs[job].phase in PublishPhases(SettlePublish(service))
    && OutcomeOf(job, service) !in s.receipts
    && (service == ServiceCommitted ==> PublishCommitted(s.runs[job]) && !LeaseNames(s.publishLease, job))
  }

  function SettledRun(run: RunRecord, service: ServiceStatus): RunRecord {
    if service == ServiceCommitted then run.(phase := Completed, manualMark := None)
    else run.(phase := Paused, manualMark := None, pause := Some(PauseForService(service)))
  }

  function SettleRequest(job: JobId, identity: Identity, service: ServiceStatus, payload: string): MutationExecutor.Request {
    RequestFor(job, identity, OutcomeOf(job, service), payload, PublishPhases(SettlePublish(service)))
  }

  lemma SettledRunIsStep(run: RunRecord, service: ServiceStatus)
    ensures StepPublish(SettlePublish(service), run) == Ok(SettledRun(run, service))
  {
  }

  lemma FreshProceeds(s: ProjectState, request: MutationExecutor.Request)
    requires request.requestId !in s.receipts && MutationExecutor.FirstFailedGuard(s, request).None?
    ensures MutationExecutor.Decide(s, request).Proceed?
  {
  }

  lemma SettleIsDisciplined(s: ProjectState, job: JobId, identity: Identity, service: ServiceStatus, payload: string)
    requires CanSettle(s, job, service)
    ensures var t := Move(job, PublishMove(SettlePublish(service)));
            Carries(SettleRequest(job, identity, service, payload), t) && Disciplined(s, t)
  {
  }

  lemma SettleProceeds(s: ProjectState, job: JobId, identity: Identity, service: ServiceStatus, payload: string)
    requires IsCurrent(s, job, identity) && CanSettle(s, job, service)
    ensures var t := Move(job, PublishMove(SettlePublish(service)));
            var request := SettleRequest(job, identity, service, payload);
            && Carries(request, t) && Disciplined(s, t)
            && MutationExecutor.Decide(s, request).Proceed? && Built(t, s, MutationExecutor.NextContext(s, request)).Ok?
            && StepPublish(SettlePublish(service), s.runs[job]) == Ok(SettledRun(s.runs[job], service))
  {
    GuardsPass(s, job, identity, OutcomeOf(job, service), payload, PublishPhases(SettlePublish(service)));
    FreshProceeds(s, SettleRequest(job, identity, service, payload));
    SettleIsDisciplined(s, job, identity, service, payload);
    SettledRunIsStep(s.runs[job], service);
  }

  lemma SettleCommits(s: ProjectState, job: JobId, identity: Identity, service: ServiceStatus, payload: string)
    requires IsCurrent(s, job, identity) && CanSettle(s, job, service)
    ensures var t := Move(job, PublishMove(SettlePublish(service)));
            var outcome := MutationExecutor.Attempt(s, SettleRequest(job, identity, service, payload), BuildOf(t));
            outcome.Committed? && ProjectInv(outcome.state) && SettlesAs(s, outcome.state, job, service)
  {
    var t := Move(job, PublishMove(SettlePublish(service)));
    var request := SettleRequest(job, identity, service, payload);
    SettleProceeds(s, job, identity, service, payload);
    DisciplinedTransitionsKeepInvariant(s, request, t);
    CommittedMove(s, request, job, t.step);
  }

  predicate SettlesAs(s: ProjectState, next: ProjectState, job: JobId, service: ServiceStatus)
    requires job in s.runs
  {
    next.runs == s.runs[job := SettledRun(s.runs[job], service)] && next.publishLease == s.publishLease
  }

  // Where a first publish leads

  predicate IsFreshRun(w: World, who: Setting, id: OperationId) {
    && IsFresh(w.state, who, id) && LeaseFree(w.state, who.job, id) && id !in w.results
    && OutcomeOf(who.job, ServiceCommitted) !in w.state.receipts
    && OutcomeOf(who.job, PrecheckConflict) !in w.state.receipts
    && OutcomeOf(who.job, RecoveryBlocked) !in w.state.receipts
  }

  // Where a run rests after the adapter was started, given the result it recorded, if any
  predicate RestsAfterApply(next: ProjectState, job: JobId, seen: Option<PublishResult>) {
    && job in next.runs && next.runs[job].publish.Some? && next.runs[job].publish.value.result == seen
    && if seen.Some? && seen.value.status == WorkspaceApply.Committed then
         next.runs[job].phase == Completed && PublishCommitted(next.runs[job]) && next.publishLease.None?
       else if seen.Some? && seen.value.status == WorkspaceApply.Conflicted then
         next.runs[job].phase == Paused && !PublishUnsettled(next.runs[job]) && next.publishLease.None?
       else next.runs[job].phase == Paused && Held(next, job)
  }

  /**
    The files decide: a path that cannot be looked at, a conflict found first, a complete batch, a conflict found
    last, or anything in between.
   */
  predicate RunEnds(w: World, next: World, who: Setting, id: OperationId)
    requires who.job in w.state.runs
  {
    match PreflightAnswer(w.workspace, id.operationsHash.canonical)
    case Err(_) => OnlyAcquired(w, next, who.job, id)
    case Ok(conflicts) =>
      if conflicts != [] then
        && next.workspace == w.workspace && next.results == w.results && next.state.publishLease.None?
        && next.state.runs == w.state.runs[who.job := SettledRun(w.state.runs[who.job], PrecheckConflict)]
      else
        var (left, seen) := FirstOutcome(w, who, id);
        && next.workspace == left && next.results == ResultsAfter(w.results, id, seen)
        && RestsAfterApply(next.state, who.job, seen)
  }

  lemma OutcomesAreApart(s: ProjectState, next: ProjectState, job: JobId, run: RunRecord, lease: Option<PublishLease>,
                         requestIds: set<RequestId>, service: ServiceStatus)
    requires Reached(s, next, job, run, lease, requestIds) && OutcomeOf(job, service) !in s.receipts
    requires forall request | request in requestIds :: !request.OutcomeRequest?
    ensures OutcomeOf(job, service) !in next.receipts
  {
  }

  lemma AppliedCanSettle(w: World, published: World, who: Setting, id: OperationId, before: set<RequestId>, r: Answer)
    requires IsFreshRun(w, who, id) && EndsApplied(w, published, who, id, Some(PublishLease(who.job, id)), before, r)
    requires forall request | request in before :: !request.OutcomeRequest?
    ensures r.Ok? && CanSettle(published.state, who.job, ServiceOf(r.value))
  {
    var seen := FirstOutcome(w, who, id).1;
    var run := Publishes(w.state.runs[who.job], Ending(FirstAttempt(id), seen));
    var lease := LeaseOnceEnded(Some(PublishLease(who.job, id)), seen);
    OutcomesAreApart(w.state, published.state, who.job, run, lease, before + RequestsOf(id, seen), ServiceOf(r.value));
  }

  lemma BlockedIsTrapped(run: RunRecord, leased: bool)
    requires PublishUnsettled(run)
    ensures Trapped(SettledRun(run, RecoveryBlocked), leased)
  {
    StopActionsNeverLeave(SettledRun(run, RecoveryBlocked));
  }

  lemma AppliedRests(
    w: World, published: World, next: ProjectState, who: Setting, id: OperationId, before: set<RequestId>, r: Answer)
    requires who.job in w.state.runs
    requires EndsApplied(w, published, who, id, Some(PublishLease(who.job, id)), before, r)
    requires next.runs == published.state.runs[who.job := SettledRun(published.state.runs[who.job], ServiceOf(r.value))]
    requires next.publishLease == published.state.publishLease
    ensures RestsAfterApply(next, who.job, FirstOutcome(w, who, id).1)
  {
    var seen := FirstOutcome(w, who, id).1;
    SettledRests(published.state.runs[who.job], id, seen);
  }

  lemma SettledRests(run: RunRecord, id: OperationId, seen: Option<PublishResult>)
    requires run.publish == Some(Ending(FirstAttempt(id), seen))
    ensures var rested := SettledRun(run, ServiceOf(AnswerOf(id, seen)));
            && rested.publish == run.publish && rested.publish.value.result == seen
            && if seen.Some? && seen.value.status == WorkspaceApply.Committed then rested.phase == Completed && PublishCommitted(rested)
               else if seen.Some? && seen.value.status == WorkspaceApply.Conflicted then
                 rested.phase == Paused && !PublishUnsettled(rested)
               else rested.phase == Paused && Trapped(rested, true)
  {
    if !(seen.Some? && (seen.value.status == WorkspaceApply.Committed || seen.value.status == WorkspaceApply.Conflicted)) {
      BlockedIsTrapped(run, true);
    }
  }

  lemma FreshRunEnds(w: World, published: World, next: World, who: Setting, id: OperationId, total: nat, r: Answer)
    requires IsFreshRun(w, who, id) && PublishEnds(w, published, who, id, total, r)
    requires next.workspace == published.workspace && next.results == published.results
    requires r.Ok? && CanSettle(published.state, who.job, ServiceOf(r.value)) ==>
               SettlesAs(published.state, next.state, who.job, ServiceOf(r.value))
    requires r.Err? ==> next == published
    ensures RunEnds(w, next, who, id) && (r.Err? <==> PreflightAnswer(w.workspace, id.operationsHash.canonical).Err?)
    ensures r.Ok? ==> CanSettle(published.state, who.job, ServiceOf(r.value))
  {
    if PreflightAnswer(w.workspace, id.operationsHash.canonical) == Ok([]) {
      var before := {LeaseAcquireRequest(id, w.state.projectFence), PreparedRequest(id)};
      AppliedCanSettle(w, published, who, id, before, r);
      AppliedRests(w, published, next.state, who, id, before, r);
    }
  }

  // The same, for whatever run it was.
  lemma SettledRunEnds(w: World, published: World, next: World, who: Setting, id: OperationId, total: nat, r: Answer)
    requires PublishEnds(w, published, who, id, total, r)
    requires next.workspace == published.workspace && next.results == published.results
    requires r.Ok? && CanSettle(published.state, who.job, ServiceOf(r.value)) ==>
               SettlesAs(published.state, next.state, who.job, ServiceOf(r.value))
    requires r.Err? ==> next == published
    ensures IsFreshRun(w, who, id) ==>
              && RunEnds(w, next, who, id) && (r.Err? <==> PreflightAnswer(w.workspace, id.operationsHash.canonical).Err?)
              && (r.Ok? ==> CanSettle(published.state, who.job, ServiceOf(r.value)))
  {
    if IsFreshRun(w, who, id) {
      FreshRunEnds(w, published, next, who, id, total, r);
    }
  }

  class PublishCoordinator {
    const service: PublishService

    constructor (service: PublishService)
      ensures this.service == service
    {
      this.service := service;
    }

    /** Publishes, then settles the run with the answer. */
    method Publish(
      bindings: Bindings, given: seq<ApplyOperation>, adapter: WorkspaceApply.FilesystemWorkspaceApplyAdapter,
      faults: WorkspaceApply.Faults) returns (r: Answer)
      requires service.store.Current() && StrictTotalOn(service.less, PathSet(given))
      requires adapter.durable && adapter.less == service.less && SoundResults(adapter.results)
      modifies service.store, adapter
      ensures SoundResults(adapter.results)
      ensures Canonical(given, service.less).Ok? ==>
                var id := OperationIdOf(bindings, service.store.job, Canonical(given, service.less).value);
                IsFreshRun(old(service.Now(adapter)), service.Who(adapter, faults), id) ==>
                  && RunEnds(old(service.Now(adapter)), service.Now(adapter), service.Who(adapter, faults), id)
                  && (r.Err? <==> PreflightAnswer(old(adapter.workspace), id.operationsHash.canonical).Err?)
    {
      var answer := service.Publish(bindings, given, adapter, faults);
      ghost var published := service.Now(adapter);
      if answer.Err? {
        r := answer;
      } else {
        r := Settle(answer.value);
      }
      if Canonical(given, service.less).Ok? {
        SettledRunEnds(old(service.Now(adapter)), published, service.Now(adapter), service.Who(adapter, faults),
                       OperationIdOf(bindings, service.store.job, Canonical(given, service.less).value), |given|, answer);
      }
    }

    method Settle(answer: ServiceResult) returns (r: Answer)
      requires service.store.Current()
      modifies service.store
      ensures CanSettle(old(service.store.state), service.store.job, ServiceOf(answer)) ==>
                && r == Ok(answer) && ProjectInv(service.store.state)
                && SettlesAs(old(service.store.state), service.store.state, service.store.job, ServiceOf(answer))
    {
      var status := ServiceOf(answer);
      var outcome := service.store.Mutate(
        OutcomeOf(service.store.job, status), OutcomePayload(status), PublishPhases(SettlePublish(status)),
        Move(service.store.job, PublishMove(SettlePublish(status))));
      if CanSettle(old(service.store.state), service.store.job, status) {
        SettleCommits(old(service.store.state), service.store.job, service.store.identity, status,
                      service.store.digest(OutcomePayload(status)));
      }
      return if outcome.Refused? then Err(MutationFailed(outcome.error)) else Ok(answer);
    }
  }
}
