/**
  Publishing one batch: preflight, record, hand over to the adapter, read the result back; and reading
  it back after a crash (packages/publish/src/publish-service.ts).
 */
module PublishService {
  import opened Wrappers
  import opened Ordering
  import opened ProjectModel
  import opened RunSteps
  import opened PublishOperations
  import opened PublishObservation
  import opened PublishStore
  import opened PublishOutcome
  import WorkspaceApply
  import PublishReconcile

  datatype Bindings = Bindings(projectId: string, candidateHash: string, reviewHash: Option<string>)

  function OperationIdOf(bindings: Bindings, job: JobId, canonical: seq<ApplyOperation>): OperationId {
    WorkspaceApply.OperationId(
      bindings.projectId, job, bindings.candidateHash, bindings.reviewHash, WorkspaceApply.OperationsHash(canonical))
  }

  /** Two publishes have the same operation id exactly when project, job, candidate, review and batch are the same. */
  lemma OperationIdsTellPublishesApart(
    a: Bindings, jobA: JobId, batchA: seq<ApplyOperation>, b: Bindings, jobB: JobId, batchB: seq<ApplyOperation>)
    ensures OperationIdOf(a, jobA, batchA) == OperationIdOf(b, jobB, batchB) <==> a == b && jobA == jobB && batchA == batchB
  {
  }

  // The operations as handed over, the batch they make, and an adapter that only recorded what it produced
  ghost predicate IsBatchFor(adapter: WorkspaceApply.FilesystemWorkspaceApplyAdapter, given: seq<ApplyOperation>, id: OperationId)
    reads adapter
  {
    && SoundResults(adapter.results)
    && StrictTotalOn(adapter.less, PathSet(given))
    && Canonical(given, adapter.less) == Ok(id.operationsHash.canonical)
  }

  predicate Recoverable(adapter: WorkspaceApply.FilesystemWorkspaceApplyAdapter, attempt: PublishAttempt)
    reads adapter
  {
    adapter.durable && attempt.adapterId == ADAPTER_ID && attempt.operationId in adapter.results
  }

  /** What a recovery answers: the recorded result, or that there is none. */
  function WhatAdapterSaw(adapter: WorkspaceApply.FilesystemWorkspaceApplyAdapter, attempt: PublishAttempt): (r: ServiceResult)
    reads adapter
    ensures SeenIn(r) == if Recoverable(adapter, attempt) then Some(adapter.results[attempt.operationId]) else None
  {
    var id := attempt.operationId;
    if Recoverable(adapter, attempt) then AnswerFor(id, adapter.results[id]) else Blocked(id, None)
  }

  lemma ApplyRecordsSound(w: World, next: World, who: Setting, id: OperationId)
    requires SoundResults(w.results) && PublishReconcile.Valid(id.operationsHash.canonical)
    requires AppliedOnce(w, next, who, id)
    ensures SoundResults(next.results)
    ensures SeenAfter(w, who, id).Some? ==> SoundResult(id, SeenAfter(w, who, id).value)
    ensures id in w.results ==> w.results[id].operationsHash == id.operationsHash
  {
    var seen := FirstOutcome(w, who, id).1;
    assert seen.Some? ==> SoundResult(id, seen.value);
    if id in w.results {
      assert SoundResult(id, w.results[id]);
      ProducedResultIsConsistent(id, id.operationsHash, id.operationsHash.canonical, w.results[id]);
    }
  }

  lemma SubmissionKeepsEvidence(s: ProjectState, next: ProjectState, job: JobId, evidence: Evidence, id: OperationId)
    requires CanSubmit(s, job, evidence, id, id.operationsHash) && RecordsSubmission(s, next, job, id)
    ensures job in next.runs && EvidenceHolds(next.runs[job], evidence) && RecordedAs(next.runs[job].publish, id)
  {
  }

  class PublishService {
    const store: StateStorePublishAttemptStore
    const less: (Path, Path) -> bool

    constructor (store: StateStorePublishAttemptStore, less: (Path, Path) -> bool)
      ensures this.store == store && this.less == less
    {
      this.store, this.less := store, less;
    }

    function Now(adapter: WorkspaceApply.FilesystemWorkspaceApplyAdapter): World
      reads store, adapter
    {
      World(store.state, adapter.workspace, adapter.results)
    }

    function Who(adapter: WorkspaceApply.FilesystemWorkspaceApplyAdapter, faults: WorkspaceApply.Faults): Setting {
      Setting(store.job, store.evidence, adapter.blobs, faults)
    }

    /** The result is recorded once, with the status it says, and answered as it reads. */
    method Finish(id: OperationId, given: seq<ApplyOperation>, result: PublishResult) returns (r: Answer)
      requires store.Current() && RecordedAs(store.Run().publish, id)
      requires BatchOf(id, given) && SoundResult(id, result)
      modifies store
      ensures store.Current()
      ensures Records(old(store.state), store.state, store.job, id, result, r)
    {
      SettledIsValid(store.Run().publish.value, id, result);
      var reconciled := ReconcileSound(id, given, result);
      var status := match reconciled
        case VerdictCommitted => AttemptCommitted
        case VerdictConflict => AttemptConflict
        case VerdictBlocked => AttemptUnknown;
      var outcome := store.Complete(id, status, result);
      if outcome.Refused? {
        return Err(MutationFailed(outcome.error));
      }
      return Ok(if reconciled == PublishReconcile.VerdictCommitted then Published(id, result) else Blocked(id, Some(result)));
    }

    /** After a crash or a lost answer: what the adapter recorded is recorded here; nothing is applied. */
    method Recover(id: OperationId, given: seq<ApplyOperation>, adapter: WorkspaceApply.FilesystemWorkspaceApplyAdapter)
      returns (r: Answer)
      requires store.Current() && RecordedAs(store.Run().publish, id)
      requires IsBatchFor(adapter, given, id)
      modifies store
      ensures store.Current()
      ensures if Recoverable(adapter, old(store.Run()).publish.value) then
                Records(old(store.state), store.state, store.job, id, adapter.results[id], r)
              else r == Ok(Blocked(id, None)) && store.state == old(store.state)
    {
      var attempt := store.Get(id);
      if attempt.None? {
        return Err(AttemptMissing);
      }
      CanonicalIsSameBatch(given, adapter.less);
      var observed := ObserveRecovery(attempt.value, given, adapter);
      if observed.Err? {
        return observed;
      }
      r := RecordObserved(id, given, observed.value);
    }

    /** The last step of a recovery: a result that was seen is recorded. */
    method RecordObserved(id: OperationId, given: seq<ApplyOperation>, observed: ServiceResult) returns (r: Answer)
      requires store.Current() && RecordedAs(store.Run().publish, id) && BatchOf(id, given)
      requires SeenIn(observed).Some? ==>
                 SoundResult(id, SeenIn(observed).value) && observed == AnswerFor(id, SeenIn(observed).value)
      modifies store
      ensures store.Current()
      ensures if SeenIn(observed).Some? then Records(old(store.state), store.state, store.job, id, SeenIn(observed).value, r)
              else r == Ok(observed) && store.state == old(store.state)
    {
      var seen := SeenIn(observed);
      if seen.None? {
        return Ok(observed);
      }
      SettledIsValid(store.Run().publish.value, id, seen.value);
      var verdict := ReconcileSound(id, given, seen.value);
      var status := if observed.Published? then AttemptCommitted
                    else if verdict == PublishReconcile.VerdictConflict then AttemptConflict else AttemptUnknown;
      var outcome := store.Complete(id, status, seen.value);
      return if outcome.Refused? then Err(MutationFailed(outcome.error)) else Ok(observed);
    }

    /**
      The adapter is started exactly when this call committed SUBMITTED. It then applies the batch, unless it
      already has a result for it; `None` also when it fails without a result.
     */
    method MarkSubmittedAndApply(
      id: OperationId, given: seq<ApplyOperation>, adapter: WorkspaceApply.FilesystemWorkspaceApplyAdapter,
      faults: WorkspaceApply.Faults) returns (r: Option<PublishResult>)
      requires store.Current() && IsBatchFor(adapter, given, id) && adapter.durable
      modifies store, adapter
      ensures store.Current() && SoundResults(adapter.results)
      ensures r.Some? ==> SoundResult(id, r.value) && BatchOf(id, given) && RecordedAs(store.Run().publish, id)
      ensures Started(old(Now(adapter)), Now(adapter), Who(adapter, faults), id, r)
    {
      var outcome := store.MarkSubmitted(id, id.operationsHash);
      if !outcome.Committed? {
        NotStarted(Now(adapter), Who(adapter, faults), id);
        return None;
      }
      SubmissionKeepsEvidence(old(store.state), store.state, store.job, store.evidence, id);
      if !EvidenceHolds(store.Run(), store.evidence) {
        return None;
      }
      ghost var submitted := Now(adapter);
      r := ApplySubmitted(id, given, adapter, faults);
      SubmittedThenApplied(old(Now(adapter)), submitted, Now(adapter), Who(adapter, faults), id, r);
    }

    method ApplySubmitted(
      id: OperationId, given: seq<ApplyOperation>, adapter: WorkspaceApply.FilesystemWorkspaceApplyAdapter,
      faults: WorkspaceApply.Faults) returns (r: Option<PublishResult>)
      requires IsBatchFor(adapter, given, id) && adapter.durable
      modifies adapter
      ensures SoundResults(adapter.results) && BatchOf(id, given)
      ensures r == SeenAfter(old(Now(adapter)), Who(adapter, faults), id) && (r.Some? ==> SoundResult(id, r.value))
      ensures AppliedOnce(old(Now(adapter)), Now(adapter), Who(adapter, faults), id)
    {
      CanonicalIsSameBatch(given, adapter.less);
      var applied := adapter.Apply(id, id.operationsHash, given, faults);
      ApplyRecordsSound(old(Now(adapter)), Now(adapter), Who(adapter, faults), id);
      return if applied.Ok? then Some(applied.value) else None;
    }

    method FinishApplied(id: OperationId, given: seq<ApplyOperation>, applied: Option<PublishResult>) returns (r: Answer)
      requires store.Current()
      requires applied.Some? ==> SoundResult(id, applied.value) && BatchOf(id, given) && RecordedAs(store.Run().publish, id)
      modifies store
      ensures store.Current()
      ensures if applied.Some? then Records(old(store.state), store.state, store.job, id, applied.value, r)
              else r == Ok(Blocked(id, None)) && store.state == old(store.state)
    {
      if applied.None? {
        return Ok(Blocked(id, None));
      }
      r := Finish(id, given, applied.value);
    }

    /** The handover: nothing happens, or the adapter is started, its result recorded and answered. */
    method SubmitAndFinish(
      id: OperationId, given: seq<ApplyOperation>, adapter: WorkspaceApply.FilesystemWorkspaceApplyAdapter,
      faults: WorkspaceApply.Faults) returns (r: Answer)
      requires store.Current() && IsBatchFor(adapter, given, id) && adapter.durable
      modifies store, adapter
      ensures store.Current() && SoundResults(adapter.results)
      ensures HandedOver(old(Now(adapter)), Now(adapter), Who(adapter, faults), id, r)
    {
      var applied := MarkSubmittedAndApply(id, given, adapter, faults);
      ghost var started := Now(adapter);
      r := FinishApplied(id, given, applied);
      StartedThenRecorded(old(Now(adapter)), started, Now(adapter), Who(adapter, faults), id, applied, r);
    }

    /** A first attempt is prepared; a repeated or refused preparation leads to no handover. */
    method PrepareAndSubmit(
      id: OperationId, given: seq<ApplyOperation>, adapter: WorkspaceApply.FilesystemWorkspaceApplyAdapter,
      faults: WorkspaceApply.Faults) returns (r: Answer)
      requires store.Current() && IsBatchFor(adapter, given, id) && adapter.durable
      modifies store, adapter
      ensures store.Current() && SoundResults(adapter.results)
      ensures TouchedOnce(old(Now(adapter)), Now(adapter), id) && AnswersHonestly(r)
      ensures IsFresh(old(store.state), Who(adapter, faults), id) && id !in old(adapter.results) ==>
                EndsApplied(old(Now(adapter)), Now(adapter), Who(adapter, faults), id, old(store.state).publishLease,
                            {PreparedRequest(id)}, r)
    {
      var outcome := store.Prepare(FirstAttempt(id));
      if outcome.Refused? {
        return Err(MutationFailed(outcome.error));
      }
      ghost var prepared := Now(adapter);
      r := SubmitAndFinish(id, given, adapter, faults);
      PreparedThenHandedOver(old(Now(adapter)), prepared, Now(adapter), Who(adapter, faults), id, r);
    }

    /** An attempt on record: what it says is answered, or its result is read, or it is submitted at last. */
    method ContinueRecorded(
      existing: PublishAttempt, given: seq<ApplyOperation>, adapter: WorkspaceApply.FilesystemWorkspaceApplyAdapter,
      faults: WorkspaceApply.Faults) returns (r: Answer)
      requires store.Current() && IsBatchFor(adapter, given, existing.operationId) && adapter.durable
      requires store.Run().publish == Some(existing)
      modifies store, adapter
      ensures store.Current() && SoundResults(adapter.results)
      ensures Continues(old(Now(adapter)), Now(adapter), Who(adapter, faults), existing, r)
    {
      if IsAnswered(existing) {
        CanonicalIsSameBatch(given, adapter.less);
        var answer := AnswerRecorded(existing, given);
        AnsweredFromRecord(Now(adapter), Who(adapter, faults), existing, Ok(answer));
        return Ok(answer);
      }
      r := BeginAgain(existing, given, adapter, faults);
    }

    method BeginAgain(
      existing: PublishAttempt, given: seq<ApplyOperation>, adapter: WorkspaceApply.FilesystemWorkspaceApplyAdapter,
      faults: WorkspaceApply.Faults) returns (r: Answer)
      requires store.Current() && IsBatchFor(adapter, given, existing.operationId) && adapter.durable
      requires store.Run().publish == Some(existing) && !IsAnswered(existing)
      modifies store, adapter
      ensures store.Current() && SoundResults(adapter.results)
      ensures Continues(old(Now(adapter)), Now(adapter), Who(adapter, faults), existing, r)
    {
      var outcome := store.BeginRecovery(existing);
      ghost var again := Now(adapter);
      if outcome.Refused? {
        r := Err(MutationFailed(outcome.error));
        RefusedToBegin(old(Now(adapter)), Who(adapter, faults), existing, r);
      } else if existing.status != Prepared {
        r := Recover(existing.operationId, given, adapter);
        ReadContinues(old(Now(adapter)), again, Now(adapter), Who(adapter, faults), existing, r);
      } else {
        r := SubmitAndFinish(existing.operationId, given, adapter, faults);
        InterruptedThenHandedOver(old(Now(adapter)), again, Now(adapter), Who(adapter, faults), existing, r);
      }
    }

    /** Everything after the capabilities of the adapter were accepted. */
    method PublishUnderLease(
      id: OperationId, given: seq<ApplyOperation>, adapter: WorkspaceApply.FilesystemWorkspaceApplyAdapter,
      faults: WorkspaceApply.Faults) returns (r: Answer)
      requires store.Current() && IsBatchFor(adapter, given, id) && adapter.durable
      modifies store, adapter
      ensures store.job in old(store.state).runs && SoundResults(adapter.results) && store.Current()
      ensures PublishEnds(old(Now(adapter)), Now(adapter), Who(adapter, faults), id, |given|, r)
    {
      var acquired := store.AcquireLease(id);
      if acquired.Err? || !acquired.value {
        r := if acquired.Err? then Err(MutationFailed(acquired.error)) else Ok(Busy);
        UnleasedPublishEnds(Now(adapter), Who(adapter, faults), id, |given|, r);
        return;
      }
      r := PublishLeased(id, given, adapter, faults, old(Now(adapter)));
    }

    method PublishLeased(
      id: OperationId, given: seq<ApplyOperation>, adapter: WorkspaceApply.FilesystemWorkspaceApplyAdapter,
      faults: WorkspaceApply.Faults, ghost w: World) returns (r: Answer)
      requires store.Current() && IsBatchFor(adapter, given, id) && adapter.durable
      requires store.job in w.state.runs && Acquires(w.state, store.state, store.job, id) && LeaseFree(w.state, store.job, id)
      requires w.workspace == adapter.workspace && w.results == adapter.results && w.state.runs[store.job].phase in LEASE_PHASES
      modifies store, adapter
      ensures store.Current() && SoundResults(adapter.results)
      ensures PublishEnds(w, Now(adapter), Who(adapter, faults), id, |given|, r)
    {
      var checked := PreflightOperations(adapter.workspace, given, adapter.less);
      match checked
      case Err(error) =>
        ThrowingPublishEnds(w, Now(adapter), Who(adapter, faults), id, |given|, error);
        return Err(OperationsInvalid(error));
      case Ok(conflicts) =>
        if conflicts != [] {
          r := ReportConflicts(id, conflicts, |given|, adapter, faults, w);
        } else {
          r := PublishClean(id, given, adapter, faults, w);
        }
    }

    method ReportConflicts(
      id: OperationId, conflicts: seq<Conflict>, total: nat, adapter: WorkspaceApply.FilesystemWorkspaceApplyAdapter,
      faults: WorkspaceApply.Faults, ghost w: World) returns (r: Answer)
      requires store.Current()
      requires store.job in w.state.runs && Acquires(w.state, store.state, store.job, id) && LeaseFree(w.state, store.job, id)
      requires w.workspace == adapter.workspace && w.results == adapter.results && w.state.runs[store.job].phase in LEASE_PHASES
      requires PreflightAnswer(w.workspace, id.operationsHash.canonical) == Ok(conflicts) && conflicts != []
      modifies store
      ensures store.Current()
      ensures PublishEnds(w, Now(adapter), Who(adapter, faults), id, total, r)
    {
      var failed := store.ReleaseLease(id);
      match failed
      case Some(cause) => return Err(MutationFailed(cause));
      case None =>
        ConflictingPublishEnds(w, old(Now(adapter)), Now(adapter), Who(adapter, faults), id, total, conflicts);
        return Ok(Conflicting(conflicts, total));
    }

    method PublishClean(
      id: OperationId, given: seq<ApplyOperation>, adapter: WorkspaceApply.FilesystemWorkspaceApplyAdapter,
      faults: WorkspaceApply.Faults, ghost w: World) returns (r: Answer)
      requires store.Current() && IsBatchFor(adapter, given, id) && adapter.durable
      requires store.job in w.state.runs && Acquires(w.state, store.state, store.job, id) && LeaseFree(w.state, store.job, id)
      requires w.workspace == adapter.workspace && w.results == adapter.results
      requires PreflightAnswer(w.workspace, id.operationsHash.canonical) == Ok([])
      modifies store, adapter
      ensures store.Current() && SoundResults(adapter.results)
      ensures PublishEnds(w, Now(adapter), Who(adapter, faults), id, |given|, r)
    {
      ghost var leased := Now(adapter);
      var existing := store.Get(id);
      match existing
      case Some(attempt) =>
        r := ContinueRecorded(attempt, given, adapter, faults);
        RecordedPublishEnds(w, leased, Now(adapter), Who(adapter, faults), attempt, |given|, r);
      case None =>
        r := PrepareAndSubmit(id, given, adapter, faults);
        FreshPublishEnds(w, leased, Now(adapter), Who(adapter, faults), id, |given|, r);
    }

    /** One publish: without an adapter, or one that cannot be asked for results, it is left to the user. */
    method Publish(
      bindings: Bindings, given: seq<ApplyOperation>, adapter: WorkspaceApply.FilesystemWorkspaceApplyAdapter?,
      faults: WorkspaceApply.Faults) returns (r: Answer)
      requires store.Current() && StrictTotalOn(less, PathSet(given))
      requires adapter != null ==> adapter.less == less && SoundResults(adapter.results)
      modifies store, adapter
      ensures store.Current()
      ensures adapter != null ==> SoundResults(adapter.results)
      ensures Canonical(given, less).Err? ==> r == Err(OperationsInvalid(Canonical(given, less).error)) && store.state == old(store.state)
      ensures Canonical(given, less).Ok? && adapter == null ==>
                r == Ok(Manual(AdapterUnavailable)) && store.state == old(store.state)
      ensures Canonical(given, less).Ok? && adapter != null ==>
                if adapter.durable then
                  PublishEnds(old(Now(adapter)), Now(adapter), Who(adapter, faults),
                              OperationIdOf(bindings, store.job, Canonical(given, less).value), |given|, r)
                else r == Ok(Manual(AtomicCasUnavailable)) && Now(adapter) == old(Now(adapter))
    {
      var canonical := CanonicalOperations(given, less);
      if canonical.Err? {
        return Err(OperationsInvalid(canonical.error));
      }
      var id := OperationIdOf(bindings, store.job, canonical.value);
      if adapter == null {
        return Ok(Manual(AdapterUnavailable));
      }
      DurableAdapterIsSupported(adapter.durable);
      if !Supports(Probe(adapter.durable)) {
        return Ok(Manual(AtomicCasUnavailable));
      }
      r := PublishUnderLease(id, given, adapter, faults);
    }
  }

  lemma CommittedRecordReads(attempt: PublishAttempt, given: seq<ApplyOperation>)
    requires IsCommittedOnRecord(attempt) && BatchOf(attempt.operationId, given)
    ensures SoundResult(attempt.operationId, attempt.result.value) && attempt.result.value.status == WorkspaceApply.Committed ==>
              && PublishReconcile.IdentityMatches(attempt.operationId, attempt.operationsHash, given, attempt.result.value)
              && forall i | 0 <= i < |attempt.result.value.paths| ::
                   && PublishReconcile.Claims(attempt.result.value.paths, given, i)
                   && PublishReconcile.ObservesTarget(attempt.result.value.paths, given, i)
  {
    var id := attempt.operationId;
    if SoundResult(id, attempt.result.value) {
      ProducedResultReadsInAnyOrder(id, id.operationsHash, given, id.operationsHash.canonical, attempt.result.value);
    }
  }

  /** A record of another batch or adapter blocks; a committed one is read once more. */
  method AnswerRecorded(existing: PublishAttempt, given: seq<ApplyOperation>) returns (answer: ServiceResult)
    requires IsAnswered(existing) && BatchOf(existing.operationId, given)
    ensures answer.Published? ==>
              && existing.status == AttemptCommitted && existing.result == Some(answer.result)
              && answer.result.status == WorkspaceApply.Committed && answer.operationId == existing.operationId
    ensures !answer.Published? ==> answer.Blocked?
    ensures AnswersFromRecord(existing, Ok(answer))
  {
    if existing.operationsHash != existing.operationId.operationsHash || existing.adapterId != ADAPTER_ID {
      return Blocked(existing.operationId, None);
    }
    var verdict := PublishReconcile.Reconcile(existing.operationId, existing.operationsHash, given, existing.result.value);
    CommittedRecordReads(existing, given);
    return if verdict == PublishReconcile.VerdictCommitted then Published(existing.operationId, existing.result.value)
           else Blocked(existing.operationId, existing.result);
  }

  /** What the adapter recorded for the attempt, read without touching anything. */
  method ObserveRecovery(attempt: PublishAttempt, given: seq<ApplyOperation>, adapter: WorkspaceApply.FilesystemWorkspaceApplyAdapter)
    returns (r: Answer)
    requires StrictTotalOn(adapter.less, PathSet(given)) && SoundResults(adapter.results)
    requires attempt.operationsHash == attempt.operationId.operationsHash
    ensures Canonical(given, adapter.less).Err? ==> r == Err(OperationsInvalid(Canonical(given, adapter.less).error))
    ensures Canonical(given, adapter.less).Ok? ==>
              r == if attempt.operationsHash.canonical == Canonical(given, adapter.less).value then Ok(WhatAdapterSaw(adapter, attempt))
                   else Err(AttemptMissing)
  {
    var canonical := CanonicalOperations(given, adapter.less);
    if canonical.Err? {
      return Err(OperationsInvalid(canonical.error));
    }
    if attempt.operationsHash != WorkspaceApply.OperationsHash(canonical.value) {
      return Err(AttemptMissing);
    }
    CanonicalIsSameBatch(given, adapter.less);
    var answer := ReadRecorded(attempt, given, adapter);
    return Ok(answer);
  }

  method ReadRecorded(attempt: PublishAttempt, given: seq<ApplyOperation>, adapter: WorkspaceApply.FilesystemWorkspaceApplyAdapter)
    returns (r: ServiceResult)
    requires BatchOf(attempt.operationId, given) && SoundResults(adapter.results)
    ensures r == WhatAdapterSaw(adapter, attempt)
  {
    var id := attempt.operationId;
    if !SupportsRecovery(Probe(adapter.durable), attempt.adapterId) || id !in adapter.results {
      return Blocked(id, None);
    }
    var verdict := ReconcileSound(id, given, adapter.results[id]);
    return if verdict == PublishReconcile.VerdictCommitted then Published(id, adapter.results[id])
           else Blocked(id, Some(adapter.results[id]));
  }
}
