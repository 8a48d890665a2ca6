/**
  One durable mutation of the project state: replay, guards, build, receipt and fence
  (apps/daemon/src/runtime/project-mutation-executor.ts).

  `Attempt` is what one call of `mutate` does when no other process intervenes. The lease, the version
  check of the store and the commit-to-effect handoff are in StateStore and MutationProtocol.
 */
module MutationExecutor {
  import opened Wrappers
  import opened ProjectModel

  datatype ReplayPolicy = Canonical | CurrentEpoch

  datatype Request = Request(
    requestId: RequestId, payload: string, replayPolicy: ReplayPolicy, expectedStateVersion: Option<nat>,
    expectedFence: Option<nat>, expectedJobId: Option<JobId>, expectedGeneration: Option<int>,
    expectedAttemptId: Option<Option<string>>, expectedPhases: Option<set<RunPhase>>, advanceFence: bool)

  datatype Context = Context(fence: nat, nextStateVersion: nat)
  datatype Draft = Draft(nextState: ProjectState, response: Response)
  type Build = (ProjectState, Context) -> Result<Draft, string>

  datatype MutationError =
    | IdempotencyKeyReused | StateVersionMismatch | StaleFence | StateInvalid | BuildFailed(message: string) | SchemaRefused

  datatype Decision = Refuse(error: MutationError) | Replay(first: Response) | Proceed(context: Context)
  datatype Outcome = Refused(error: MutationError) | Replayed(response: Response) | Committed(state: ProjectState, answer: Response)

  function RunOf(s: ProjectState, request: Request): Option<RunRecord> {
    if request.expectedJobId.Some? && request.expectedJobId.value in s.runs then Some(s.runs[request.expectedJobId.value])
    else None
  }

  function AttemptOf(run: Option<RunRecord>): Option<WorkerAttempt> {
    if run.Some? then LastAttempt(run.value) else None
  }

  function FenceOf(run: Option<RunRecord>): Option<nat> {
    if run.Some? then Some(run.value.fence) else None
  }

  function GenerationOf(attempt: Option<WorkerAttempt>): Option<int> {
    if attempt.Some? then Some(attempt.value.generation) else None
  }

  function AttemptIdOf(attempt: Option<WorkerAttempt>): Option<string> {
    if attempt.Some? then Some(attempt.value.attemptId) else None
  }

  // The guards, in the order they are checked

  function FirstFailedGuard(s: ProjectState, request: Request): Option<MutationError> {
    var run := RunOf(s, request);
    if request.requestId !in s.receipts && request.expectedStateVersion.Some? &&
       request.expectedStateVersion.value != s.stateVersion then Some(StateVersionMismatch)
    else if request.expectedFence.Some? && request.expectedFence != FenceOf(run) then Some(StaleFence)
    else if request.expectedJobId.Some? && run.None? then Some(StateInvalid)
    else if request.expectedJobId.Some? && run.Some? &&
            !(run.value.taskPath in s.activeRuns && s.activeRuns[run.value.taskPath] == request.expectedJobId.value) then
      Some(StateInvalid)
    else if request.expectedGeneration.Some? && request.expectedGeneration != GenerationOf(AttemptOf(run)) then Some(StaleFence)
    else if request.expectedAttemptId.Some? && AttemptIdOf(AttemptOf(run)) != request.expectedAttemptId.value then
      Some(StaleFence)
    else if request.expectedPhases.Some? && (run.None? || run.value.phase !in request.expectedPhases.value) then
      Some(StateInvalid)
    else None
  }

  function NextContext(s: ProjectState, request: Request): Context {
    var next := s.projectFence + 1;
    var fence := FenceOf(RunOf(s, request));
    Context(if request.advanceFence || fence.None? then next else fence.value, s.stateVersion + 1)
  }

  function Decide(s: ProjectState, request: Request): Decision {
    var known := request.requestId in s.receipts;
    if known && s.receipts[request.requestId].payload != request.payload then Refuse(IdempotencyKeyReused)
    else if known && request.replayPolicy == Canonical then Replay(s.receipts[request.requestId].response)
    else
      var failed := FirstFailedGuard(s, request);
      if failed.Some? then Refuse(failed.value)
      else if known then Replay(s.receipts[request.requestId].response)
      else Proceed(NextContext(s, request))
  }

  function WithFence(s: ProjectState, request: Request, fence: nat): ProjectState {
    if request.advanceFence && request.expectedJobId.Some? && request.expectedJobId.value in s.runs then
      s.(runs := s.runs[request.expectedJobId.value := s.runs[request.expectedJobId.value].(fence := fence)])
    else s
  }

  /** The state that is written: the draft, with the executor's own counters and receipt over it. */
  function Finalise(s: ProjectState, request: Request, context: Context, draft: Draft): ProjectState {
    WithFence(draft.nextState, request, context.fence).(
      projectFence := s.projectFence + 1,
      stateVersion := context.nextStateVersion,
      receipts := s.receipts[request.requestId := Receipt(request.payload, draft.response)])
  }

  function Attempt(s: ProjectState, request: Request, build: Build): Outcome {
    match Decide(s, request)
    case Refuse(error) => Refused(error)
    case Replay(first) => Replayed(first)
    case Proceed(context) =>
      match build(s, context)
      case Err(message) => Refused(BuildFailed(message))
      case Ok(draft) =>
        var next := Finalise(s, request, context, draft);
        if ValidProject(next) then Committed(next, draft.response) else Refused(SchemaRefused)
  }

  // What the guards ask, in terms of the request and the run it names

  predicate NamesRun(s: ProjectState, request: Request) {
    request.expectedJobId.Some? && request.expectedJobId.value in s.runs
  }

  function Named(s: ProjectState, request: Request): RunRecord
    requires NamesRun(s, request)
  {
    s.runs[request.expectedJobId.value]
  }

  predicate VersionIsMet(s: ProjectState, request: Request) {
    request.expectedStateVersion.Some? ==> s.stateVersion == request.expectedStateVersion.value
  }

  predicate FenceIsMet(s: ProjectState, request: Request) {
    request.expectedFence.Some? ==> NamesRun(s, request) && Named(s, request).fence == request.expectedFence.value
  }

  predicate BindingIsMet(s: ProjectState, request: Request) {
    request.expectedJobId.Some? ==>
      && NamesRun(s, request)
      && Named(s, request).taskPath in s.activeRuns
      && s.activeRuns[Named(s, request).taskPath] == request.expectedJobId.value
  }

  predicate IsLast(attempts: seq<WorkerAttempt>, a: WorkerAttempt) {
    attempts != [] && attempts[|attempts| - 1] == a
  }

  ghost predicate AttemptIsMet(s: ProjectState, request: Request) {
    && (request.expectedGeneration.Some? ==>
          NamesRun(s, request) &&
          exists a :: IsLast(Named(s, request).attempts, a) && a.generation == request.expectedGeneration.value)
    && (request.expectedAttemptId.Some? && request.expectedAttemptId.value.Some? ==>
          NamesRun(s, request) &&
          exists a :: IsLast(Named(s, request).attempts, a) && a.attemptId == request.expectedAttemptId.value.value)
    // `null`: no attempt was begun yet
    && (request.expectedAttemptId.Some? && request.expectedAttemptId.value.None? && NamesRun(s, request) ==>
          Named(s, request).attempts == [])
  }

  predicate PhaseIsMet(s: ProjectState, request: Request) {
    request.expectedPhases.Some? ==> NamesRun(s, request) && Named(s, request).phase in request.expectedPhases.value
  }

  ghost predicate EpochIsMet(s: ProjectState, request: Request) {
    FenceIsMet(s, request) && BindingIsMet(s, request) && AttemptIsMet(s, request) && PhaseIsMet(s, request)
  }

  lemma LastIsMet(run: RunRecord)
    ensures LastAttempt(run).Some? <==> run.attempts != []
    ensures LastAttempt(run).Some? ==> IsLast(run.attempts, LastAttempt(run).value)
  {
  }

  /**
    Which refusal a request meets: a new one that expects another version, whatever else it expects, a version
    mismatch; then, in this order, another fence, a run that is not bound, another attempt, another phase. A repeat
    is not held against the version.
   */
  lemma GuardsDecide(s: ProjectState, request: Request)
    ensures var known := request.requestId in s.receipts;
            var failed := FirstFailedGuard(s, request);
            && (failed == Some(StateVersionMismatch) <==> !known && !VersionIsMet(s, request))
            && (known || VersionIsMet(s, request) ==>
                  && (failed.None? <==> EpochIsMet(s, request))
                  && (failed == Some(StaleFence) <==>
                        !FenceIsMet(s, request) || (BindingIsMet(s, request) && !AttemptIsMet(s, request)))
                  && (failed == Some(StateInvalid) <==>
                        FenceIsMet(s, request) &&
                        (!BindingIsMet(s, request) || (AttemptIsMet(s, request) && !PhaseIsMet(s, request)))))
  {
    if NamesRun(s, request) {
      LastIsMet(Named(s, request));
    }
  }

  // The fence a builder is given: that of its run, or the next one
  predicate IsContext(s: ProjectState, request: Request, context: Context) {
    && context.nextStateVersion == s.stateVersion + 1
    && (NamesRun(s, request) && !request.advanceFence ==> context.fence == Named(s, request).fence)
    && (!NamesRun(s, request) || request.advanceFence ==> context.fence == s.projectFence + 1)
  }

  // What is written: what was built, with the counters raised, the receipt added and an advanced fence set.
  predicate IsWritten(s: ProjectState, request: Request, draft: Draft, t: ProjectState) {
    && t.stateVersion == s.stateVersion + 1 && t.projectFence == s.projectFence + 1
    && t.receipts == s.receipts[request.requestId := Receipt(request.payload, draft.response)]
    && t.activeRuns == draft.nextState.activeRuns && t.publishLease == draft.nextState.publishLease
    && t.runs.Keys == draft.nextState.runs.Keys
    && forall job | job in t.runs ::
         t.runs[job] == if request.advanceFence && request.expectedJobId == Some(job)
           then draft.nextState.runs[job].(fence := s.projectFence + 1) else draft.nextState.runs[job]
  }

  ghost predicate Writes(s: ProjectState, request: Request, build: Build, context: Context, next: ProjectState) {
    IsContext(s, request, context) && build(s, context).Ok? && IsWritten(s, request, build(s, context).value, next)
  }

  /** What a commit says: the request was new, every one of its guards was met, and what was built is what is written. */
  lemma CommitMeetsGuards(s: ProjectState, request: Request, build: Build)
    requires Attempt(s, request, build).Committed?
    ensures request.requestId !in s.receipts && VersionIsMet(s, request) && EpochIsMet(s, request)
    ensures exists context ::
              && Writes(s, request, build, context, Attempt(s, request, build).state)
              && Attempt(s, request, build).answer == build(s, context).value.response
  {
    GuardsDecide(s, request);
    assert Writes(s, request, build, NextContext(s, request), Attempt(s, request, build).state);
  }

  // What the builder and the schema decide once the guards are met
  ghost predicate IsBuilt(s: ProjectState, request: Request, build: Build, context: Context, outcome: Outcome) {
    match build(s, context)
    case Err(message) => outcome == Refused(BuildFailed(message))
    case Ok(draft) =>
      exists next ::
        && IsWritten(s, request, draft, next)
        && outcome == if ValidProject(next) then Committed(next, draft.response) else Refused(SchemaRefused)
  }

  /** And conversely: a new request whose guards are met commits, unless its builder or the schema refuses. */
  lemma MetGuardsReachBuilder(s: ProjectState, request: Request, build: Build)
    requires request.requestId !in s.receipts && VersionIsMet(s, request) && EpochIsMet(s, request)
    ensures exists context :: IsContext(s, request, context) && IsBuilt(s, request, build, context, Attempt(s, request, build))
  {
    GuardsDecide(s, request);
    var context := NextContext(s, request);
    if build(s, context).Ok? {
      var draft := build(s, context).value;
      assert IsWritten(s, request, draft, Finalise(s, request, context, draft));
    }
    assert IsContext(s, request, context) && IsBuilt(s, request, build, context, Attempt(s, request, build));
  }

  /** The version guard, for every state, request and builder. */
  lemma OtherVersionIsRefused(s: ProjectState, request: Request, build: Build)
    requires request.requestId !in s.receipts && request.expectedStateVersion.Some?
    requires request.expectedStateVersion.value != s.stateVersion
    ensures Attempt(s, request, build) == Refused(StateVersionMismatch)
  {
    GuardsDecide(s, request);
  }

  // Counters and receipts

  predicate KeepsReceipts(s: ProjectState, t: ProjectState) {
    forall id | id in s.receipts :: id in t.receipts && t.receipts[id] == s.receipts[id]
  }

  /** Each commit raises the version, the project fence and the number of receipts by one and drops no receipt. */
  lemma CommitAdvancesCounters(s: ProjectState, request: Request, build: Build)
    requires Attempt(s, request, build).Committed?
    ensures var t := Attempt(s, request, build).state;
            && t.stateVersion == s.stateVersion + 1
            && t.projectFence == s.projectFence + 1
            && |t.receipts| == |s.receipts| + 1
            && KeepsReceipts(s, t)
            && request.requestId in t.receipts && request.requestId !in s.receipts
            && t.receipts[request.requestId] == Receipt(request.payload, Attempt(s, request, build).answer)
            && ValidProject(t)
  {
    var t := Attempt(s, request, build).state;
    assert t.receipts.Keys == s.receipts.Keys + {request.requestId};
  }

  // A history is the list of states committed one after the other.
  ghost predicate CommitsOnce(s: ProjectState, t: ProjectState) {
    exists request: Request, build: Build :: Attempt(s, request, build) == Committed(t, AnswerIn(t, request))
  }

  function AnswerIn(t: ProjectState, request: Request): Response {
    if request.requestId in t.receipts then t.receipts[request.requestId].response else Acknowledged
  }

  ghost predicate History(states: seq<ProjectState>) {
    states != [] && forall i | 0 <= i < |states| - 1 :: CommitsOnce(states[i], states[i + 1])
  }

  lemma {:induction false} HistoryCounts(states: seq<ProjectState>, i: nat, j: nat)
    requires History(states) && i <= j < |states|
    ensures states[j].stateVersion == states[i].stateVersion + (j - i)
    ensures states[j].projectFence == states[i].projectFence + (j - i)
    ensures |states[j].receipts| == |states[i].receipts| + (j - i)
    ensures KeepsReceipts(states[i], states[j])
    decreases j - i
  {
    if i < j {
      HistoryCounts(states, i, j - 1);
      assert CommitsOnce(states[j - 1], states[j - 1 + 1]);
      var request: Request, build: Build :|
        Attempt(states[j - 1], request, build) == Committed(states[j], AnswerIn(states[j], request));
      CommitAdvancesCounters(states[j - 1], request, build);
    }
  }

  /**
    A request that was committed once answers every later repeat with its first response and is refused
    under any other payload, wherever in the history the repeat arrives and whatever it would build.
   */
  lemma RepeatAnswersFirstResponse(states: seq<ProjectState>, i: nat, j: nat, request: Request, build: Build,
                                   repeat: Request, later: Build)
    requires History(states) && i + 1 <= j < |states|
    requires Attempt(states[i], request, build).Committed? && Attempt(states[i], request, build).state == states[i + 1]
    requires repeat.requestId == request.requestId
    ensures Attempt(states[j], repeat, later) ==
              Recorded(states[j], repeat, Receipt(request.payload, Attempt(states[i], request, build).answer))
  {
    CommitAdvancesCounters(states[i], request, build);
    HistoryCounts(states, i + 1, j);
    KnownRequestIsAnswered(states[j], repeat, later);
  }

  /** What a request whose identifier has a receipt gets: a refusal, or the recorded response. */
  function Recorded(s: ProjectState, repeat: Request, receipt: Receipt): Outcome {
    if repeat.payload != receipt.payload then Refused(IdempotencyKeyReused)
    else if repeat.replayPolicy == CurrentEpoch && FirstFailedGuard(s, repeat).Some? then
      Refused(FirstFailedGuard(s, repeat).value)
    else Replayed(receipt.response)
  }

  lemma KnownRequestIsAnswered(s: ProjectState, repeat: Request, later: Build)
    requires repeat.requestId in s.receipts
    ensures Attempt(s, repeat, later) == Recorded(s, repeat, s.receipts[repeat.requestId])
  {
  }

  // Fences

  ghost predicate FencesBounded(s: ProjectState) {
    forall job | job in s.runs :: s.runs[job].fence <= s.projectFence
  }

  // A builder may add runs under the fence it was given; it never touches the fence of an existing run.
  ghost predicate KeepsFences(s: ProjectState, context: Context, next: ProjectState) {
    && s.runs.Keys <= next.runs.Keys
    && (forall job | job in s.runs :: next.runs[job].fence == s.runs[job].fence)
    && (forall job | job in next.runs && job !in s.runs :: next.runs[job].fence == context.fence)
  }

  ghost predicate RespectsFences(s: ProjectState, t: ProjectState) {
    && s.runs.Keys <= t.runs.Keys
    && s.projectFence < t.projectFence
    && forall job | job in s.runs :: s.runs[job].fence <= t.runs[job].fence
  }

  /** Run fences never fall and never pass the project fence; an epoch step lifts its run above all of them. */
  lemma CommitRespectsFences(s: ProjectState, request: Request, build: Build)
    requires FencesBounded(s)
    requires Attempt(s, request, build).Committed?
    requires var draft := build(s, NextContext(s, request)).value; KeepsFences(s, NextContext(s, request), draft.nextState)
    ensures var t := Attempt(s, request, build).state;
            && FencesBounded(t) && RespectsFences(s, t)
            && (request.advanceFence && request.expectedJobId.Some? ==>
                  && request.expectedJobId.value in t.runs
                  && t.runs[request.expectedJobId.value].fence == t.projectFence == s.projectFence + 1)
  {
  }

  /**
    After an epoch step at version i+1 no request guarded by a fence that was current for the run at any
    point of the history up to version i commits at any later version j.
   */
  lemma {:induction false} OldFencesNeverCommitAgain(
    states: seq<ProjectState>, i: nat, k: nat, j: nat, job: JobId, request: Request, build: Build)
    requires History(states) && k <= i < j < |states|
    requires forall n | 0 <= n < |states| :: FencesBounded(states[n])
    requires forall n | 0 <= n < |states| - 1 :: RespectsFences(states[n], states[n + 1])
    requires job in states[k].runs && job in states[i + 1].runs
    requires states[i + 1].runs[job].fence == states[i + 1].projectFence
    requires request.expectedJobId == Some(job) && request.expectedFence == Some(states[k].runs[job].fence)
    ensures !Attempt(states[j], request, build).Committed?
    ensures request.requestId !in states[j].receipts && request.expectedStateVersion.None? ==>
              Attempt(states[j], request, build) == Refused(StaleFence)
  {
    FencesRise(states, i + 1, j, job);
    HistoryCounts(states, k, i + 1);
    assert states[k].runs[job].fence <= states[k].projectFence < states[i + 1].projectFence;
  }

  lemma {:induction false} FencesRise(states: seq<ProjectState>, i: nat, j: nat, job: JobId)
    requires i <= j < |states|
    requires forall n | 0 <= n < |states| - 1 :: RespectsFences(states[n], states[n + 1])
    requires job in states[i].runs
    ensures job in states[j].runs && states[i].runs[job].fence <= states[j].runs[job].fence
    decreases j - i
  {
    if i < j {
      FencesRise(states, i, j - 1, job);
      assert RespectsFences(states[j - 1], states[j - 1 + 1]);
    }
  }
}
