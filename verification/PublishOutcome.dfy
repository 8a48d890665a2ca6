/**
  What one publish leaves behind, in terms of the state before: the durable state, the files, and the
  results the adapter has recorded (packages/publish/src/publish-service.ts).
 */
module PublishOutcome {
  import opened Wrappers
  import opened Snapshot
  import opened ProjectModel
  import opened RunSteps
  import opened WorkspaceTree
  import opened PublishOperations
  import opened PublishObservation
  import opened PublishStore
  import WorkspaceApply
  import PublishReconcile
  import MutationExecutor
  import Text

  datatype ManualReason = AdapterUnavailable | AtomicCasUnavailable
  datatype ServiceResult =
    | Published(operationId: OperationId, result: PublishResult)
    | Conflicting(conflicts: seq<Conflict>, totalCount: nat)
    | Busy
    | Blocked(operationId: OperationId, seen: Option<PublishResult>)
    | Manual(reason: ManualReason)

  datatype ServiceError =
    | OperationsInvalid(error: PublishError)
    | MutationFailed(cause: MutationExecutor.MutationError)
    | AttemptMissing

  type Answer = Result<ServiceResult, ServiceError>

  // The filesystem adapter

  datatype Capabilities = Capabilities(
    expectedOldHashCas: bool, atomicBatchCas: bool, preflightBatchWrite: bool, stableOperationId: bool, queryResult: bool,
    adapterId: string)

  const ADAPTER_ID := "filesystem-preflight-batch-v1"

  function Probe(durable: bool): Capabilities {
    Capabilities(durable, false, durable, durable, durable, ADAPTER_ID)
  }

  predicate Supports(c: Capabilities) {
    && c.expectedOldHashCas && (c.atomicBatchCas || c.preflightBatchWrite) && c.stableOperationId && c.queryResult
    && Text.Trim(c.adapterId) != ""
  }

  predicate SupportsRecovery(c: Capabilities, adapterId: string) {
    && c.expectedOldHashCas && (c.atomicBatchCas || c.preflightBatchWrite) && c.stableOperationId && c.queryResult
    && c.adapterId == adapterId
  }

  /** The filesystem adapter writes batches in two passes, never atomically, and only where it can keep its results. */
  lemma DurableAdapterIsSupported(durable: bool)
    ensures Supports(Probe(durable)) <==> durable
    ensures !Probe(durable).atomicBatchCas
    ensures forall ability: Ability :: Offers(Probe(durable), ability) <==> durable
  {
    assert Text.TrimStart(ADAPTER_ID) == ADAPTER_ID;
    assert Text.TrimEnd(ADAPTER_ID) == ADAPTER_ID;
  }

  // The abilities a batch needs, one by one
  datatype Ability = ComparesOldFiles | WritesBatches | KeepsOperationIds | AnswersForResults

  predicate Offers(c: Capabilities, ability: Ability) {
    match ability
    case ComparesOldFiles => c.expectedOldHashCas
    case WritesBatches => c.atomicBatchCas || c.preflightBatchWrite
    case KeepsOperationIds => c.stableOperationId
    case AnswersForResults => c.queryResult
  }

  /** An adapter that lacks any one ability, or a name, is not used; for a recovery it must be the one the attempt was made with. */
  lemma SupportNeedsEveryAbility(c: Capabilities, adapterId: string)
    ensures Supports(c) <==> (forall ability: Ability :: Offers(c, ability)) && exists i :: 0 <= i < |c.adapterId| && !Text.IsSpace(c.adapterId[i])
    ensures SupportsRecovery(c, adapterId) <==> (forall ability: Ability :: Offers(c, ability)) && c.adapterId == adapterId
  {
    Text.TrimLeavesInk(c.adapterId);
    assert Offers(c, ComparesOldFiles) <==> c.expectedOldHashCas;
    assert Offers(c, WritesBatches) <==> c.atomicBatchCas || c.preflightBatchWrite;
    assert Offers(c, KeepsOperationIds) <==> c.stableOperationId;
    assert Offers(c, AnswersForResults) <==> c.queryResult;
  }

  // What a recorded result is taken for

  function StatusFor(status: WorkspaceApply.ResultStatus): PublishStatus {
    match status
    case Committed => AttemptCommitted
    case Conflicted => AttemptConflict
    case _ => AttemptUnknown
  }

  function VerdictFor(status: WorkspaceApply.ResultStatus): PublishReconcile.Verdict {
    match status
    case Committed => PublishReconcile.VerdictCommitted
    case Conflicted => PublishReconcile.VerdictConflict
    case _ => PublishReconcile.VerdictBlocked
  }

  function AnswerFor(id: OperationId, result: PublishResult): ServiceResult {
    if result.status == WorkspaceApply.Committed then Published(id, result) else Blocked(id, Some(result))
  }

  function SeenIn(r: ServiceResult): Option<PublishResult> {
    match r
    case Published(_, result) => Some(result)
    case Blocked(_, seen) => seen
    case _ => None
  }

  // The recorded attempt once its result is known, and the lease with it

  function Settled(attempt: PublishAttempt, result: PublishResult): PublishAttempt {
    attempt.(status := StatusFor(result.status), result := Some(result))
  }

  function LeaseOnceSettled(lease: Option<PublishLease>, result: PublishResult): Option<PublishLease> {
    if result.status == WorkspaceApply.Committed || result.status == WorkspaceApply.Conflicted then None else lease
  }

  // The same for an adapter that recorded a result, or failed without one

  function Ending(attempt: PublishAttempt, seen: Option<PublishResult>): PublishAttempt {
    if seen.Some? then Settled(attempt, seen.value) else attempt.(status := Submitted)
  }

  function LeaseOnceEnded(lease: Option<PublishLease>, seen: Option<PublishResult>): Option<PublishLease> {
    if seen.Some? then LeaseOnceSettled(lease, seen.value) else lease
  }

  function RequestsOf(id: OperationId, seen: Option<PublishResult>): set<RequestId> {
    {SubmittedRequest(id)} + if seen.Some? then {CompleteRequest(id, StatusFor(seen.value.status))} else {}
  }

  function AnswerOf(id: OperationId, seen: Option<PublishResult>): ServiceResult {
    if seen.Some? then AnswerFor(id, seen.value) else Blocked(id, None)
  }

  predicate RecordedAs(publish: Option<PublishAttempt>, id: OperationId) {
    publish.Some? && publish.value.operationId == id && publish.value.operationsHash == id.operationsHash
  }

  // The batch that was handed over
  ghost predicate BatchOf(id: OperationId, given: seq<ApplyOperation>) {
    SameBatch(given, id.operationsHash.canonical)
  }

  lemma SettledIsValid(attempt: PublishAttempt, id: OperationId, result: PublishResult)
    requires RecordedAs(Some(attempt), id) && SoundResult(id, result)
    ensures ValidPublishAttempt(Settled(attempt, result))
  {
    ProducedResultIsConsistent(id, id.operationsHash, id.operationsHash.canonical, result);
  }

  /** The reading of a sound result, whatever order the operations are given in. */
  method ReconcileSound(id: OperationId, given: seq<ApplyOperation>, result: PublishResult)
    returns (verdict: PublishReconcile.Verdict)
    requires BatchOf(id, given) && SoundResult(id, result)
    ensures verdict == VerdictFor(result.status)
  {
    ProducedResultReadsInAnyOrder(id, id.operationsHash, given, id.operationsHash.canonical, result);
    verdict := PublishReconcile.Reconcile(id, id.operationsHash, given, result);
  }

  // Everything a publish touches
  datatype World = World(state: ProjectState, workspace: Workspace, results: map<OperationId, PublishResult>)

  // Who publishes: the job, the evidence it was approved on, and what may go wrong in the adapter
  datatype Setting = Setting(job: JobId, evidence: Evidence, blobs: map<BlobId, Bytes>, faults: WorkspaceApply.Faults)

  predicate ResultIsNew(s: ProjectState, job: JobId, id: OperationId, result: PublishResult) {
    job in s.runs && s.runs[job].phase == Publishing && CompleteRequest(id, StatusFor(result.status)) !in s.receipts
  }

  // The result is recorded unless a result with its status was before, and answered as it reads.
  predicate Records(s: ProjectState, next: ProjectState, job: JobId, id: OperationId, result: PublishResult, r: Answer)
    requires HasAttempt(s, job)
  {
    var run := s.runs[job];
    && (r.Ok? ==> r.value == AnswerFor(id, result))
    && if ResultIsNew(s, job, id, result) then
         && r.Ok?
         && Moved(s, next, job, run.(publish := Some(Settled(run.publish.value, result))),
                  LeaseOnceSettled(s.publishLease, result), CompleteRequest(id, StatusFor(result.status)))
       else next == s
  }

  /** What the files and the results become when the adapter is handed the batch, and what it answers. */
  function FirstOutcome(w: World, who: Setting, id: OperationId): (Workspace, Option<PublishResult>) {
    WorkspaceApply.Outcome(w.workspace, who.blobs, id, id.operationsHash, id.operationsHash.canonical, who.faults)
  }

  function SeenAfter(w: World, who: Setting, id: OperationId): Option<PublishResult> {
    if id in w.results then Some(w.results[id]) else FirstOutcome(w, who, id).1
  }

  function ResultsAfter(results: map<OperationId, PublishResult>, id: OperationId, seen: Option<PublishResult>)
    : map<OperationId, PublishResult>
  {
    if seen.Some? then results[id := seen.value] else results
  }

  // The batch is applied once, over its whole history: a recorded result is only answered again.
  predicate AppliedOnce(w: World, next: World, who: Setting, id: OperationId) {
    if id in w.results then next.workspace == w.workspace && next.results == w.results
    else next.workspace == FirstOutcome(w, who, id).0 && next.results == ResultsAfter(w.results, id, FirstOutcome(w, who, id).1)
  }

  // The adapter is started, or nothing happens.
  predicate Started(w: World, next: World, who: Setting, id: OperationId, r: Option<PublishResult>) {
    if CanSubmit(w.state, who.job, who.evidence, id, id.operationsHash) then
      && r == SeenAfter(w, who, id)
      && AppliedOnce(w, next, who, id)
      && RecordsSubmission(w.state, next.state, who.job, id)
    else r.None? && next == w
  }

  lemma SubmittedThenApplied(w: World, submitted: World, next: World, who: Setting, id: OperationId, r: Option<PublishResult>)
    requires CanSubmit(w.state, who.job, who.evidence, id, id.operationsHash)
    requires RecordsSubmission(w.state, submitted.state, who.job, id)
    requires submitted.workspace == w.workspace && submitted.results == w.results && next.state == submitted.state
    requires r == SeenAfter(submitted, who, id) && AppliedOnce(submitted, next, who, id)
    ensures Started(w, next, who, id, r)
  {
  }

  lemma NotStarted(w: World, who: Setting, id: OperationId)
    requires !CanSubmit(w.state, who.job, who.evidence, id, id.operationsHash)
    ensures Started(w, w, who, id, None)
  {
  }

  // What a started adapter leads to, given what it answered
  predicate Finished(s: ProjectState, next: ProjectState, job: JobId, id: OperationId, seen: Option<PublishResult>, r: Answer)
    requires HasAttempt(s, job)
  {
    var run := s.runs[job];
    && SubmittedRequest(id) in next.receipts
    && (r.Ok? ==> r.value == AnswerOf(id, seen))
    && ((seen.Some? ==> CompleteRequest(id, StatusFor(seen.value.status)) !in s.receipts) ==>
          && r == Ok(AnswerOf(id, seen))
          && Reached(s, next, job, run.(publish := Some(Ending(run.publish.value, seen))), LeaseOnceEnded(s.publishLease, seen),
                     RequestsOf(id, seen)))
  }

  predicate HandedOver(w: World, next: World, who: Setting, id: OperationId, r: Answer) {
    if CanSubmit(w.state, who.job, who.evidence, id, id.operationsHash) then
      AppliedOnce(w, next, who, id) && Finished(w.state, next.state, who.job, id, SeenAfter(w, who, id), r)
    else r == Ok(Blocked(id, None)) && next == w
  }

  lemma SubmittedThenRecorded(
    s: ProjectState, submitted: ProjectState, next: ProjectState, job: JobId, id: OperationId, result: PublishResult, r: Answer)
    requires HasAttempt(s, job) && s.runs[job].phase == Publishing
    requires RecordsSubmission(s, submitted, job, id)
    requires HasAttempt(submitted, job) && Records(submitted, next, job, id, result, r)
    ensures Finished(s, next, job, id, Some(result), r)
  {
    var run := s.runs[job];
    if CompleteRequest(id, StatusFor(result.status)) !in s.receipts {
      var between := run.(publish := Some(run.publish.value.(status := Submitted)));
      var final := run.(publish := Some(Settled(run.publish.value, result)));
      assert between.(publish := Some(Settled(between.publish.value, result))) == final;
      MovedIsReached(s, submitted, job, between, s.publishLease, SubmittedRequest(id));
      MovedIsReached(submitted, next, job, final, LeaseOnceSettled(s.publishLease, result),
                     CompleteRequest(id, StatusFor(result.status)));
      ReachedChains(s, submitted, next, job, between, final, s.publishLease, LeaseOnceSettled(s.publishLease, result),
                    {SubmittedRequest(id)}, {CompleteRequest(id, StatusFor(result.status))});
    }
  }

  lemma SubmittedOnly(s: ProjectState, next: ProjectState, job: JobId, id: OperationId)
    requires HasAttempt(s, job) && RecordsSubmission(s, next, job, id)
    ensures Finished(s, next, job, id, None, Ok(Blocked(id, None)))
  {
    var run := s.runs[job];
    MovedIsReached(s, next, job, run.(publish := Some(run.publish.value.(status := Submitted))), s.publishLease, SubmittedRequest(id));
  }

  lemma StartedThenRecorded(
    w: World, started: World, next: World, who: Setting, id: OperationId, seen: Option<PublishResult>, r: Answer)
    requires Started(w, started, who, id, seen)
    requires next.workspace == started.workspace && next.results == started.results
    requires seen.None? ==> r == Ok(Blocked(id, None)) && next == started
    requires seen.Some? ==> HasAttempt(started.state, who.job) && Records(started.state, next.state, who.job, id, seen.value, r)
    ensures HandedOver(w, next, who, id, r)
  {
    if seen.Some? {
      SubmittedThenRecorded(w.state, started.state, next.state, who.job, id, seen.value, r);
    } else if CanSubmit(w.state, who.job, who.evidence, id, id.operationsHash) {
      SubmittedOnly(w.state, started.state, who.job, id);
    }
  }

  // A first publish of an operation

  // The submission and its result are not on record yet.
  predicate MayApply(s: ProjectState, who: Setting, id: OperationId) {
    && who.job in s.runs && EvidenceHolds(s.runs[who.job], who.evidence)
    && SubmittedRequest(id) !in s.receipts
    && CompleteRequest(id, AttemptCommitted) !in s.receipts && CompleteRequest(id, AttemptConflict) !in s.receipts
    && CompleteRequest(id, AttemptUnknown) !in s.receipts
  }

  predicate IsFresh(s: ProjectState, who: Setting, id: OperationId) {
    && MayApply(s, who, id)
    && s.runs[who.job].phase == ReadyToPublish
    && (s.runs[who.job].publish.None? || s.runs[who.job].publish.value.operationId != id)
    && PreparedRequest(id) !in s.receipts
  }

  // Prepared before, by this adapter, and interrupted
  predicate IsInterrupted(s: ProjectState, who: Setting, id: OperationId) {
    && MayApply(s, who, id)
    && s.runs[who.job].phase in LEASE_PHASES
    && s.runs[who.job].publish == Some(FirstAttempt(id))
    && BeginRecoveryRequest(id, Prepared) !in s.receipts
  }

  function FirstAttempt(id: OperationId): PublishAttempt {
    PublishAttempt(id, id.operationsHash, ADAPTER_ID, Prepared, None)
  }

  function Publishes(run: RunRecord, attempt: PublishAttempt): RunRecord {
    run.(phase := Publishing, publish := Some(attempt))
  }

  // The batch was applied, and what came of it is on record: the status of the result, or that there is none.
  predicate EndsApplied(w: World, next: World, who: Setting, id: OperationId, lease: Option<PublishLease>, before: set<RequestId>, r: Answer) {
    var (left, seen) := FirstOutcome(w, who, id);
    && next.workspace == left && next.results == ResultsAfter(w.results, id, seen)
    && r == Ok(AnswerOf(id, seen))
    && who.job in w.state.runs
    && Reached(w.state, next.state, who.job, Publishes(w.state.runs[who.job], Ending(FirstAttempt(id), seen)),
               LeaseOnceEnded(lease, seen), before + RequestsOf(id, seen))
  }

  lemma PreparedCanSubmit(w: World, prepared: World, who: Setting, id: OperationId, lease: Option<PublishLease>, before: set<RequestId>)
    requires MayApply(w.state, who, id)
    requires Reached(w.state, prepared.state, who.job, Publishes(w.state.runs[who.job], FirstAttempt(id)), lease, before)
    requires forall request | request in before :: !request.SubmittedRequest? && !request.CompleteRequest?
    ensures CanSubmit(prepared.state, who.job, who.evidence, id, id.operationsHash)
    ensures forall status: WorkspaceApply.ResultStatus :: CompleteRequest(id, StatusFor(status)) !in prepared.state.receipts
  {
    forall status: WorkspaceApply.ResultStatus ensures CompleteRequest(id, StatusFor(status)) !in prepared.state.receipts {
      assert StatusFor(status) in {AttemptCommitted, AttemptConflict, AttemptUnknown};
    }
  }

  lemma PreparedEndsApplied(
    w: World, prepared: World, next: World, who: Setting, id: OperationId, lease: Option<PublishLease>, before: set<RequestId>,
    r: Answer)
    requires MayApply(w.state, who, id) && id !in w.results
    requires prepared.workspace == w.workspace && prepared.results == w.results
    requires Reached(w.state, prepared.state, who.job, Publishes(w.state.runs[who.job], FirstAttempt(id)), lease, before)
    requires forall request | request in before :: !request.SubmittedRequest? && !request.CompleteRequest?
    requires HandedOver(prepared, next, who, id, r)
    ensures EndsApplied(w, next, who, id, lease, before, r)
  {
    PreparedCanSubmit(w, prepared, who, id, lease, before);
    var run, seen := w.state.runs[who.job], FirstOutcome(w, who, id).1;
    assert FirstOutcome(prepared, who, id) == FirstOutcome(w, who, id);
    var between := Publishes(run, FirstAttempt(id));
    var final := Publishes(run, Ending(FirstAttempt(id), seen));
    assert between.(publish := Some(Ending(between.publish.value, seen))) == final;
    ReachedChains(w.state, prepared.state, next.state, who.job, between, final, lease, LeaseOnceEnded(lease, seen), before,
                  RequestsOf(id, seen));
  }

  // Whatever was recorded before

  // The adapter did something only if this very publish recorded the submission.
  predicate TouchedOnce(w: World, next: World, id: OperationId) {
    next.workspace != w.workspace || next.results != w.results ==>
      SubmittedRequest(id) !in w.state.receipts && SubmittedRequest(id) in next.state.receipts
  }

  predicate AnswersHonestly(r: Answer) {
    r.Ok? && r.value.Published? ==> r.value.result.status == WorkspaceApply.Committed
  }

  lemma HandedOverIsHonest(w: World, next: World, who: Setting, id: OperationId, r: Answer)
    requires HandedOver(w, next, who, id, r)
    ensures TouchedOnce(w, next, id) && AnswersHonestly(r)
  {
  }

  predicate Prepares(s: ProjectState, next: ProjectState, job: JobId, id: OperationId)
    requires job in s.runs
  {
    if s.runs[job].phase == ReadyToPublish && PreparedRequest(id) !in s.receipts then
      Moved(s, next, job, Publishes(s.runs[job], FirstAttempt(id)), s.publishLease, PreparedRequest(id))
    else next == s
  }

  lemma PreparedThenHandedOver(w: World, prepared: World, next: World, who: Setting, id: OperationId, r: Answer)
    requires who.job in w.state.runs && Prepares(w.state, prepared.state, who.job, id)
    requires prepared.workspace == w.workspace && prepared.results == w.results
    requires HandedOver(prepared, next, who, id, r)
    ensures TouchedOnce(w, next, id) && AnswersHonestly(r)
    ensures IsFresh(w.state, who, id) && id !in w.results ==>
              EndsApplied(w, next, who, id, w.state.publishLease, {PreparedRequest(id)}, r)
  {
    HandedOverIsHonest(prepared, next, who, id, r);
    if IsFresh(w.state, who, id) && id !in w.results {
      var run := Publishes(w.state.runs[who.job], FirstAttempt(id));
      MovedIsReached(w.state, prepared.state, who.job, run, w.state.publishLease, PreparedRequest(id));
      PreparedEndsApplied(w, prepared, next, who, id, w.state.publishLease, {PreparedRequest(id)}, r);
    }
  }

  // A publish that finds its attempt on record

  predicate BeginsAgain(s: ProjectState, next: ProjectState, job: JobId, attempt: PublishAttempt)
    requires job in s.runs
  {
    var request := BeginRecoveryRequest(attempt.operationId, attempt.status);
    if s.runs[job].phase in LEASE_PHASES && request !in s.receipts then
      Moved(s, next, job, s.runs[job].(phase := Publishing), s.publishLease, request)
    else next == s
  }

  // Submitted before, with a result that the adapter has and the state has not
  predicate IsUnread(s: ProjectState, results: map<OperationId, PublishResult>, job: JobId, id: OperationId) {
    && HasAttempt(s, job) && RecordedAs(s.runs[job].publish, id) && s.runs[job].phase in LEASE_PHASES
    && var attempt := s.runs[job].publish.value;
       && attempt.adapterId == ADAPTER_ID && attempt.status in {Submitted, AttemptConflict, AttemptUnknown}
       && BeginRecoveryRequest(id, attempt.status) !in s.receipts
       && id in results && CompleteRequest(id, StatusFor(results[id].status)) !in s.receipts
  }

  predicate ReadsBack(w: World, next: World, job: JobId, id: OperationId, r: Answer)
    requires HasAttempt(w.state, job) && id in w.results
  {
    var run, result := w.state.runs[job], w.results[id];
    && r == Ok(AnswerFor(id, result))
    && next.workspace == w.workspace && next.results == w.results
    && Reached(w.state, next.state, job, Publishes(run, Settled(run.publish.value, result)),
               LeaseOnceSettled(w.state.publishLease, result),
               {BeginRecoveryRequest(id, run.publish.value.status), CompleteRequest(id, StatusFor(result.status))})
  }

  // The attempt on record is of another batch, or was made by another adapter.
  predicate IsForeign(attempt: PublishAttempt) {
    attempt.operationsHash != attempt.operationId.operationsHash || attempt.adapterId != ADAPTER_ID
  }

  predicate IsCommittedOnRecord(attempt: PublishAttempt) {
    !IsForeign(attempt) && attempt.status == AttemptCommitted && attempt.result.Some?
  }

  // A foreign attempt is blocked; a committed one is answered as its result reads.
  ghost predicate AnswersFromRecord(attempt: PublishAttempt, r: Answer) {
    && (IsForeign(attempt) ==> r == Ok(Blocked(attempt.operationId, None)))
    && (IsCommittedOnRecord(attempt) ==>
          && r.Ok?
          && (SoundResult(attempt.operationId, attempt.result.value) ==> r == Ok(AnswerFor(attempt.operationId, attempt.result.value))))
  }

  /**
    What a publish does with an attempt on record: one that was submitted is never applied again, one that
    was only prepared is applied, and a result that was not read before is read.
   */
  ghost predicate Continues(w: World, next: World, who: Setting, attempt: PublishAttempt, r: Answer) {
    var id := attempt.operationId;
    && TouchedOnce(w, next, id) && AnswersHonestly(r) && AnswersFromRecord(attempt, r)
    && (IsForeign(attempt) || IsCommittedOnRecord(attempt) ==> next == w)
    && (attempt.status != Prepared ==> next.workspace == w.workspace && next.results == w.results)
    && (IsInterrupted(w.state, who, id) && id !in w.results ==>
          EndsApplied(w, next, who, id, w.state.publishLease, {BeginRecoveryRequest(id, Prepared)}, r))
    && (IsUnread(w.state, w.results, who.job, id) ==> ReadsBack(w, next, who.job, id, r))
  }

  // It can be answered without going on.
  predicate IsAnswered(attempt: PublishAttempt) {
    IsForeign(attempt) || (attempt.status == AttemptCommitted && attempt.result.Some?)
  }

  lemma AnsweredFromRecord(w: World, who: Setting, attempt: PublishAttempt, r: Answer)
    requires HasAttempt(w.state, who.job) && w.state.runs[who.job].publish == Some(attempt)
    requires IsAnswered(attempt) && AnswersHonestly(r) && AnswersFromRecord(attempt, r)
    ensures Continues(w, w, who, attempt, r)
  {
  }

  lemma RefusedToBegin(w: World, who: Setting, attempt: PublishAttempt, r: Answer)
    requires HasAttempt(w.state, who.job) && w.state.runs[who.job].publish == Some(attempt) && r.Err? && !IsAnswered(attempt)
    requires w.state.runs[who.job].phase !in LEASE_PHASES || BeginRecoveryRequest(attempt.operationId, attempt.status) in w.state.receipts
    ensures Continues(w, w, who, attempt, r)
  {
  }

  lemma InterruptedThenHandedOver(w: World, again: World, next: World, who: Setting, attempt: PublishAttempt, r: Answer)
    requires HasAttempt(w.state, who.job) && w.state.runs[who.job].publish == Some(attempt) && attempt.status == Prepared
    requires !IsAnswered(attempt)
    requires BeginsAgain(w.state, again.state, who.job, attempt)
    requires again.workspace == w.workspace && again.results == w.results
    requires HandedOver(again, next, who, attempt.operationId, r)
    ensures Continues(w, next, who, attempt, r)
  {
    var id, run := attempt.operationId, w.state.runs[who.job];
    HandedOverIsHonest(again, next, who, id, r);
    if IsInterrupted(w.state, who, id) && id !in w.results {
      assert run.(phase := Publishing) == Publishes(run, FirstAttempt(id));
      MovedIsReached(w.state, again.state, who.job, Publishes(run, FirstAttempt(id)), w.state.publishLease,
                     BeginRecoveryRequest(id, Prepared));
      PreparedEndsApplied(w, again, next, who, id, w.state.publishLease, {BeginRecoveryRequest(id, Prepared)}, r);
    }
  }

  lemma ReadContinues(w: World, again: World, next: World, who: Setting, attempt: PublishAttempt, r: Answer)
    requires HasAttempt(w.state, who.job) && w.state.runs[who.job].publish == Some(attempt) && attempt.status != Prepared
    requires !IsAnswered(attempt)
    requires BeginsAgain(w.state, again.state, who.job, attempt)
    requires again.workspace == w.workspace && again.results == w.results
    requires next.workspace == w.workspace && next.results == w.results
    requires HasAttempt(again.state, who.job)
    requires if attempt.adapterId == ADAPTER_ID && attempt.operationId in w.results
               then Records(again.state, next.state, who.job, attempt.operationId, w.results[attempt.operationId], r)
               else r == Ok(Blocked(attempt.operationId, None))
    ensures Continues(w, next, who, attempt, r)
  {
    if IsUnread(w.state, w.results, who.job, attempt.operationId) {
      BegunThenRecovered(w, again, next, who.job, attempt.operationId, r);
    }
  }

  lemma BegunThenRecovered(w: World, again: World, next: World, job: JobId, id: OperationId, r: Answer)
    requires IsUnread(w.state, w.results, job, id)
    requires BeginsAgain(w.state, again.state, job, w.state.runs[job].publish.value)
    requires again.workspace == w.workspace && again.results == w.results
    requires next.workspace == w.workspace && next.results == w.results
    requires HasAttempt(again.state, job) && Records(again.state, next.state, job, id, w.results[id], r)
    ensures ReadsBack(w, next, job, id, r)
  {
    var run, result := w.state.runs[job], w.results[id];
    var between := run.(phase := Publishing);
    var final := Publishes(run, Settled(run.publish.value, result));
    assert between.(publish := Some(Settled(between.publish.value, result))) == final;
    var began := BeginRecoveryRequest(id, run.publish.value.status);
    var complete := CompleteRequest(id, StatusFor(result.status));
    MovedIsReached(w.state, again.state, job, between, w.state.publishLease, began);
    MovedIsReached(again.state, next.state, job, final, LeaseOnceSettled(w.state.publishLease, result), complete);
    ReachedChains(w.state, again.state, next.state, job, between, final, w.state.publishLease,
                  LeaseOnceSettled(w.state.publishLease, result), {began}, {complete});
  }

  // The whole publish

  predicate LeaseFree(s: ProjectState, job: JobId, id: OperationId) {
    s.publishLease.None? || s.publishLease == Some(PublishLease(job, id))
  }

  predicate Acquires(s: ProjectState, next: ProjectState, job: JobId, id: OperationId)
    requires job in s.runs
  {
    Moved(s, next, job, s.runs[job], Some(PublishLease(job, id)), LeaseAcquireRequest(id, s.projectFence))
  }

  // Only the lease was taken and returned.
  predicate OnlyLeased(w: World, next: World, id: OperationId) {
    && next.workspace == w.workspace && next.results == w.results
    && next.state.runs == w.state.runs && next.state.activeRuns == w.state.activeRuns && next.state.publishLease.None?
    && next.state.receipts.Keys == w.state.receipts.Keys +
         {LeaseAcquireRequest(id, w.state.projectFence), LeaseReleaseRequest(id, w.state.projectFence + 1)}
  }

  // Only the lease was taken, and it stays taken.
  predicate OnlyAcquired(w: World, next: World, job: JobId, id: OperationId) {
    next.workspace == w.workspace && next.results == w.results && job in w.state.runs && Acquires(w.state, next.state, job, id)
  }

  ghost predicate PublishEnds(w: World, next: World, who: Setting, id: OperationId, total: nat, r: Answer) {
    && TouchedOnce(w, next, id) && AnswersHonestly(r)
    && (!LeaseFree(w.state, who.job, id) ==> r == Ok(Busy) && next == w)
    && (LeaseFree(w.state, who.job, id) && who.job in w.state.runs && w.state.runs[who.job].phase in LEASE_PHASES ==>
          EndsUnderLease(w, next, who, id, total, r))
  }

  ghost predicate EndsUnderLease(w: World, next: World, who: Setting, id: OperationId, total: nat, r: Answer) {
    var acquire := LeaseAcquireRequest(id, w.state.projectFence);
    var lease := Some(PublishLease(who.job, id));
    match PreflightAnswer(w.workspace, id.operationsHash.canonical)
    // a path that cannot be looked at: the publish fails and the lease stays taken
    case Err(error) => r == Err(OperationsInvalid(error)) && OnlyAcquired(w, next, who.job, id)
    case Ok(conflicts) =>
      if conflicts != [] then r == Ok(Conflicting(conflicts, total)) && OnlyLeased(w, next, id)
      else
        && (IsFresh(w.state, who, id) && id !in w.results ==> EndsApplied(w, next, who, id, lease, {acquire, PreparedRequest(id)}, r))
        && (IsInterrupted(w.state, who, id) && id !in w.results ==>
              EndsApplied(w, next, who, id, lease, {acquire, BeginRecoveryRequest(id, Prepared)}, r))
        && (HasAttempt(w.state, who.job) && w.state.runs[who.job].publish.value.operationId == id ==>
              EndsFromRecord(w, next, who.job, w.state.runs[who.job].publish.value, r))
  }

  // With an attempt on record: only a prepared one is ever applied, and one whose result was not read is read.
  ghost predicate EndsFromRecord(w: World, next: World, job: JobId, attempt: PublishAttempt, r: Answer)
    requires HasAttempt(w.state, job)
  {
    var id := attempt.operationId;
    && AnswersFromRecord(attempt, r)
    && (IsForeign(attempt) || IsCommittedOnRecord(attempt) ==> OnlyAcquired(w, next, job, id))
    && (attempt.status != Prepared ==> next.workspace == w.workspace && next.results == w.results)
    && (IsUnread(w.state, w.results, job, id) ==> ReadsBackLeased(w, next, job, id, r))
  }

  predicate ReadsBackLeased(w: World, next: World, job: JobId, id: OperationId, r: Answer)
    requires HasAttempt(w.state, job) && id in w.results
  {
    var run, result := w.state.runs[job], w.results[id];
    && r == Ok(AnswerFor(id, result))
    && next.workspace == w.workspace && next.results == w.results
    && Reached(w.state, next.state, job, Publishes(run, Settled(run.publish.value, result)),
               LeaseOnceSettled(Some(PublishLease(job, id)), result),
               {LeaseAcquireRequest(id, w.state.projectFence), BeginRecoveryRequest(id, run.publish.value.status),
                CompleteRequest(id, StatusFor(result.status))})
  }

  lemma AcquiredThenRead(w: World, leased: World, next: World, job: JobId, id: OperationId, r: Answer)
    requires IsUnread(w.state, w.results, job, id) && Acquires(w.state, leased.state, job, id)
    requires leased.workspace == w.workspace && leased.results == w.results
    requires IsUnread(leased.state, leased.results, job, id) && ReadsBack(leased, next, job, id, r)
    ensures ReadsBackLeased(w, next, job, id, r)
  {
    var run, result := w.state.runs[job], w.results[id];
    var acquire := LeaseAcquireRequest(id, w.state.projectFence);
    var after := {BeginRecoveryRequest(id, run.publish.value.status), CompleteRequest(id, StatusFor(result.status))};
    var lease := Some(PublishLease(job, id));
    MovedIsReached(w.state, leased.state, job, run, lease, acquire);
    ReachedChains(w.state, leased.state, next.state, job, run, Publishes(run, Settled(run.publish.value, result)), lease,
                  LeaseOnceSettled(lease, result), {acquire}, after);
    assert {acquire} + after == {acquire, BeginRecoveryRequest(id, run.publish.value.status), CompleteRequest(id, StatusFor(result.status))};
  }

  lemma AcquiringKeepsUnread(w: World, leased: World, job: JobId, id: OperationId)
    requires IsUnread(w.state, w.results, job, id) && Acquires(w.state, leased.state, job, id) && leased.results == w.results
    ensures IsUnread(leased.state, leased.results, job, id)
  {
  }

  lemma RecordedEnds(w: World, leased: World, next: World, who: Setting, attempt: PublishAttempt, r: Answer)
    requires who.job in w.state.runs && Acquires(w.state, leased.state, who.job, attempt.operationId)
    requires leased.workspace == w.workspace && leased.results == w.results
    requires w.state.runs[who.job].publish == Some(attempt) && Continues(leased, next, who, attempt, r)
    ensures EndsFromRecord(w, next, who.job, attempt, r)
  {
    var id := attempt.operationId;
    if IsUnread(w.state, w.results, who.job, id) {
      AcquiringKeepsUnread(w, leased, who.job, id);
      AcquiredThenRead(w, leased, next, who.job, id, r);
    }
  }

  lemma AcquiredThenApplied(
    w: World, leased: World, next: World, who: Setting, id: OperationId, request: RequestId, r: Answer)
    requires who.job in w.state.runs && Acquires(w.state, leased.state, who.job, id)
    requires leased.workspace == w.workspace && leased.results == w.results
    requires EndsApplied(leased, next, who, id, leased.state.publishLease, {request}, r)
    ensures EndsApplied(w, next, who, id, Some(PublishLease(who.job, id)), {LeaseAcquireRequest(id, w.state.projectFence), request}, r)
  {
    var run, lease := w.state.runs[who.job], Some(PublishLease(who.job, id));
    var acquire := LeaseAcquireRequest(id, w.state.projectFence);
    var seen := FirstOutcome(w, who, id).1;
    var final := Publishes(run, Ending(FirstAttempt(id), seen));
    var after := {request} + RequestsOf(id, seen);
    MovedIsReached(w.state, leased.state, who.job, run, lease, acquire);
    ReachedChains(w.state, leased.state, next.state, who.job, run, final, lease, LeaseOnceEnded(lease, seen), {acquire}, after);
    assert {acquire} + after == {acquire, request} + RequestsOf(id, seen);
  }

  lemma AcquiringKeepsStanding(s: ProjectState, leased: ProjectState, who: Setting, id: OperationId)
    requires who.job in s.runs && Acquires(s, leased, who.job, id)
    ensures IsFresh(s, who, id) ==> IsFresh(leased, who, id)
    ensures IsInterrupted(s, who, id) ==> IsInterrupted(leased, who, id)
  {
  }

  lemma FreshPublishEnds(w: World, leased: World, next: World, who: Setting, id: OperationId, total: nat, r: Answer)
    requires who.job in w.state.runs && Acquires(w.state, leased.state, who.job, id) && LeaseFree(w.state, who.job, id)
    requires leased.workspace == w.workspace && leased.results == w.results
    requires PreflightAnswer(w.workspace, id.operationsHash.canonical) == Ok([])
    requires w.state.runs[who.job].publish.None? || w.state.runs[who.job].publish.value.operationId != id
    requires TouchedOnce(leased, next, id) && AnswersHonestly(r)
    requires IsFresh(leased.state, who, id) && id !in leased.results ==>
               EndsApplied(leased, next, who, id, leased.state.publishLease, {PreparedRequest(id)}, r)
    ensures PublishEnds(w, next, who, id, total, r)
  {
    AcquiringKeepsStanding(w.state, leased.state, who, id);
    if IsFresh(w.state, who, id) && id !in w.results {
      AcquiredThenApplied(w, leased, next, who, id, PreparedRequest(id), r);
    }
  }

  lemma RecordedPublishEnds(w: World, leased: World, next: World, who: Setting, attempt: PublishAttempt, total: nat, r: Answer)
    requires who.job in w.state.runs && Acquires(w.state, leased.state, who.job, attempt.operationId)
    requires LeaseFree(w.state, who.job, attempt.operationId)
    requires leased.workspace == w.workspace && leased.results == w.results
    requires PreflightAnswer(w.workspace, attempt.operationId.operationsHash.canonical) == Ok([])
    requires w.state.runs[who.job].publish == Some(attempt)
    requires Continues(leased, next, who, attempt, r)
    ensures PublishEnds(w, next, who, attempt.operationId, total, r)
  {
    var id := attempt.operationId;
    AcquiringKeepsStanding(w.state, leased.state, who, id);
    RecordedEnds(w, leased, next, who, attempt, r);
    if IsInterrupted(w.state, who, id) && id !in w.results {
      AcquiredThenApplied(w, leased, next, who, id, BeginRecoveryRequest(id, Prepared), r);
    }
  }

  lemma ThrowingPublishEnds(w: World, leased: World, who: Setting, id: OperationId, total: nat, error: PublishError)
    requires who.job in w.state.runs && Acquires(w.state, leased.state, who.job, id) && LeaseFree(w.state, who.job, id)
    requires leased.workspace == w.workspace && leased.results == w.results
    requires PreflightAnswer(w.workspace, id.operationsHash.canonical) == Err(error)
    ensures PublishEnds(w, leased, who, id, total, Err(OperationsInvalid(error)))
  {
  }

  lemma ConflictingPublishEnds(
    w: World, leased: World, next: World, who: Setting, id: OperationId, total: nat, conflicts: seq<Conflict>)
    requires who.job in w.state.runs && Acquires(w.state, leased.state, who.job, id) && LeaseFree(w.state, who.job, id)
    requires leased.workspace == w.workspace && leased.results == w.results
    requires next.workspace == w.workspace && next.results == w.results
    requires Moved(leased.state, next.state, who.job, leased.state.runs[who.job], None, LeaseReleaseRequest(id, leased.state.projectFence))
    requires PreflightAnswer(w.workspace, id.operationsHash.canonical) == Ok(conflicts) && conflicts != []
    ensures PublishEnds(w, next, who, id, total, Ok(Conflicting(conflicts, total)))
  {
    assert next.state.runs == w.state.runs;
  }

  lemma UnleasedPublishEnds(w: World, who: Setting, id: OperationId, total: nat, r: Answer)
    requires if LeaseFree(w.state, who.job, id) then r.Err? && who.job in w.state.runs && w.state.runs[who.job].phase !in LEASE_PHASES
             else r == Ok(Busy)
    ensures PublishEnds(w, w, who, id, total, r)
  {
  }
}
