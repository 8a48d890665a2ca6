/**
  `ProjectMutationExecutor.mutate`: acquire the lease, read, decide, build, write, hand over to the
  effect, release (apps/daemon/src/runtime/project-mutation-executor.ts).

  What other processes and the renewal timer do meanwhile is a parameter, `Surroundings`.
 */
module LeasedExecutor {
  import opened Wrappers
  import opened ProjectModel
  import opened MutationExecutor
  import opened StateStore

  // The acquisition polls, what another process left behind between read and write, the write, the
  // renewals that fire during the write and before the effect
  datatype Surroundings = Surroundings(
    polls: seq<Poll>, overtaken: Option<LeftBehind>, write: Observation, timer: Option<Observation>, confirm: Observation)

  datatype MutationResult = MutationResult(response: Response, state: ProjectState, replayed: bool, effectStarted: bool)
  datatype Failure = StoreFailed(cause: StoreError) | MutationRefused(error: MutationError)

  function CanonicalReplay(s: ProjectState, request: Request): Result<Option<MutationResult>, Failure> {
    if request.requestId !in s.receipts then Ok(None)
    else if s.receipts[request.requestId].payload != request.payload then Err(MutationRefused(IdempotencyKeyReused))
    else Ok(Some(MutationResult(s.receipts[request.requestId].response, s, true, false)))
  }

  function Found(s: ProjectState, around: Surroundings): ProjectState {
    if around.overtaken.Some? then around.overtaken.value.state else s
  }

  /**
    What an answer and the state left behind say, whatever happened meanwhile: nothing was written but the
    finalised build of the state that was read, and only while its version was still current.
   */
  ghost predicate Explains(
    s: ProjectState, around: Surroundings, request: Request, build: Build, r: Result<MutationResult, Failure>, left: ProjectState)
  {
    var found := Found(s, around);
    && (left == s || left == found ||
         (Attempt(s, request, build).Committed? && left == Attempt(s, request, build).state && found.stateVersion == s.stateVersion))
    && (r.Ok? && !r.value.replayed ==>
          Attempt(s, request, build) == Committed(r.value.state, r.value.response) && left == r.value.state)
    && (r.Ok? && r.value.replayed ==>
          request.requestId in r.value.state.receipts && (r.value.state == s || r.value.state == found) &&
          r.value.state.receipts[request.requestId] == Receipt(request.payload, r.value.response))
  }

  /** What an undisturbed call answers, and the state it leaves. */
  ghost predicate Settles(
    s: ProjectState, request: Request, build: Build, wantsEffect: bool, r: Result<MutationResult, Failure>, left: ProjectState)
  {
    match Attempt(s, request, build)
    case Refused(error) => r == Err(MutationRefused(error)) && left == s
    case Replayed(first) => r == Ok(MutationResult(first, s, true, false)) && left == s
    case Committed(next, answer) => r == Ok(MutationResult(answer, next, false, wantsEffect)) && left == next
  }

  /**
    Another process has committed between the read and the write: nothing is written, and the answer is what that
    commit recorded for the same request, if it did and the request asks for a canonical answer.
   */
  predicate AnswersLostRace(found: ProjectState, request: Request, r: Result<MutationResult, Failure>) {
    if request.replayPolicy == MutationExecutor.Canonical && request.requestId in found.receipts then
      if found.receipts[request.requestId].payload == request.payload
      then r == Ok(MutationResult(found.receipts[request.requestId].response, found, true, false))
      else r == Err(MutationRefused(IdempotencyKeyReused))
    else r == Err(StoreFailed(VersionMismatch))
  }

  // The state that is written over is another than the one that was read.
  ghost predicate LosesRace(s: ProjectState, lease: MutationLease, request: Request, build: Build, around: Surroundings) {
    && Attempt(s, request, build).Committed? && around.overtaken.Some?
    && OwnsRow(around.overtaken.value.row, lease.token, lease.here, around.write)
    && around.overtaken.value.state.stateVersion != s.stateVersion
  }

  // The lease is no longer the executor's when it writes.
  ghost predicate LosesLease(s: ProjectState, lease: MutationLease, request: Request, build: Build, around: Surroundings) {
    && Attempt(s, request, build).Committed? && around.overtaken.Some?
    && !OwnsRow(around.overtaken.value.row, lease.token, lease.here, around.write)
  }

  /** Nothing intervenes, and the owner sees its own process alive under its own start token. */
  predicate Undisturbed(owner: Instance, around: Surroundings) {
    && (around.polls != [] ==> around.polls[0].before.None?)
    && around.overtaken.None? && around.timer.None?
    && around.write.pidExists && around.write.startToken == Some(owner.start)
    && around.confirm.pidExists && around.confirm.startToken == Some(owner.start)
  }

  class ProjectMutationExecutor {
    const store: StateStore
    // the committed states effects were started for, in order
    var effects: seq<ProjectState>

    constructor (store: StateStore)
      ensures this.store == store && effects == []
    {
      this.store := store;
      effects := [];
    }

    method Mutate(request: Request, build: Build, wantsEffect: bool, owner: Instance, token: Token, around: Surroundings)
      returns (r: Result<MutationResult, Failure>)
      requires store.state.Some?
      modifies this`effects, store
      // the state that is read is the one found after some of the polls
      ensures store.state.Some?
      ensures exists k: nat ::
                k <= |around.polls| &&
                Explains(StateAfter(old(store.state), around.polls, k).value, around, request, build, r, store.state.value)
      // an effect starts at most once, and only for a state this very call committed
      ensures if r.Ok? && !r.value.replayed && wantsEffect then effects == old(effects) + [r.value.state] else effects == old(effects)
      ensures r.Ok? ==> r.value.effectStarted == (!r.value.replayed && wantsEffect)
      ensures old(store.row).None? && around.polls != [] && Undisturbed(owner, around) ==>
                store.row.None? && Settles(old(store.state).value, request, build, wantsEffect, r, store.state.value)
    {
      assert RowAfter(store.row, around.polls, 0) == store.row && StateAfter(store.state, around.polls, 0) == store.state;
      assert store.row.None? && around.polls != [] && Undisturbed(owner, around) ==>
          FindsFree(store.row, owner.host, around.polls, 0) && StateAfter(store.state, around.polls, 1) == store.state;
      var acquired := store.AcquireMutationLease(owner, token, around.polls);
      if acquired.Err? {
        return Err(StoreFailed(acquired.error));
      }
      var lease := new MutationLease(store, token, owner.host);
      r := RunLeased(lease, request, build, wantsEffect, around);
      lease.Release();
    }

    /** The part between acquiring and releasing the lease. */
    method RunLeased(lease: MutationLease, request: Request, build: Build, wantsEffect: bool, around: Surroundings)
      returns (r: Result<MutationResult, Failure>)
      requires store.state.Some? && lease.store == store && lease.Usable()
      modifies this`effects, store, lease`renewalFailure
      ensures store.state.Some? && Explains(old(store.state).value, around, request, build, r, store.state.value)
      ensures if r.Ok? && !r.value.replayed && wantsEffect then effects == old(effects) + [r.value.state] else effects == old(effects)
      ensures r.Ok? ==> r.value.effectStarted == (!r.value.replayed && wantsEffect)
      // an effect starts only under a lease that was renewed after the commit
      ensures effects != old(effects) ==>
                store.row.Some? && store.row.value.token == lease.token &&
                store.row.value.expires == around.confirm.now + MUTATION_LEASE_TTL_MS
      ensures LosesRace(old(store.state).value, lease, request, build, around) ==>
                && AnswersLostRace(around.overtaken.value.state, request, r)
                && store.state == Some(around.overtaken.value.state) && store.row == around.overtaken.value.row
      ensures LosesLease(old(store.state).value, lease, request, build, around) ==>
                r.Err? && store.state == Some(around.overtaken.value.state) && store.row == around.overtaken.value.row
      ensures old(store.row).Some? && old(store.row).value.token == lease.token && old(store.row).value.owner.host == lease.here &&
              Undisturbed(old(store.row).value.owner, around) ==>
                && store.row.Some? && store.row.value.token == lease.token
                && Settles(old(store.state).value, request, build, wantsEffect, r, store.state.value)
    {
      var s := store.state.value;
      var decision := Decide(s, request);
      if decision.Refuse? {
        return Err(MutationRefused(decision.error));
      }
      if decision.Replay? {
        return Ok(MutationResult(decision.first, s, true, false));
      }
      var draft := build(s, decision.context);
      if draft.Err? {
        return Err(MutationRefused(BuildFailed(draft.error)));
      }
      var next := Finalise(s, request, decision.context, draft.value);
      if !ValidProject(next) {
        return Err(MutationRefused(SchemaRefused));
      }
      if around.overtaken.Some? {
        store.row, store.state := around.overtaken.value.row, Some(around.overtaken.value.state);
      }
      var written := lease.WriteState(next, around.write, around.timer);
      if written.Err? {
        if written.error == VersionMismatch && request.replayPolicy == MutationExecutor.Canonical {
          var replay := CanonicalReplay(store.state.value, request);
          if replay.Err? {
            return Err(replay.error);
          }
          if replay.value.Some? {
            return Ok(replay.value.value);
          }
        }
        return Err(StoreFailed(written.error));
      }
      if !wantsEffect {
        return Ok(MutationResult(draft.value.response, next, false, false));
      }
      var owned := lease.AssertOwned(around.confirm);
      if owned.Err? {
        return Err(StoreFailed(owned.error));
      }
      effects := effects + [next];
      return Ok(MutationResult(draft.value.response, next, false, true));
    }
  }
}
