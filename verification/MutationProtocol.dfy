/**
  Any number of executors in any number of processes, interleaved transaction by transaction, with
  crashes, expiry, preemption, pid reuse and lost answers
  (apps/daemon/src/runtime/project-mutation-executor.ts with packages/state-store/src/state-store.ts).

  The queue of one process only removes interleavings, so executors of one process interleave here too.
 */
module MutationProtocol {
  import opened Wrappers
  import opened ProjectModel
  import opened MutationExecutor
  import opened StateStore

  // `at` is the position, in the list of committed states, of the state the executor read.
  datatype Stage =
    | Waiting | Holding | Reading(at: nat) | Drafted(at: nat, next: ProjectState) | Stored | Confirmed | Leaving | Gone

  datatype Executor = Executor(instance: Instance, request: Request, build: Build, wantsEffect: bool, stage: Stage, poisoned: bool)

  datatype Commit = Commit(token: Token, readAt: nat)

  datatype World = World(
    live: set<Instance>, dead: set<Instance>, row: Option<LeaseRow>, states: seq<ProjectState>, commits: seq<Commit>,
    executors: map<Token, Executor>, effects: seq<Token>)

  datatype Step =
    | Spawn(instance: Instance)
    | Crash(instance: Instance)
    | Start(token: Token, instance: Instance, request: Request, build: Build, wantsEffect: bool)
    | TryAcquire(token: Token, seen: Observation)
    | RenewByTimer(token: Token, seen: Observation)
    | Read(token: Token)
    | RunBuild(token: Token)
    | Write(token: Token, seen: Observation, answerLost: bool)
    | Confirm(token: Token, seen: Observation)
    | StartEffect(token: Token)
    | Release(token: Token)

  predicate Holds(stage: Stage) {
    stage != Waiting && stage != Gone
  }

  predicate SamePid(a: Instance, b: Instance) {
    a.host == b.host && a.pid == b.pid
  }

  // The process table and `ps` tell the truth about the recorded owner, or `ps` tells nothing.
  predicate Truthful(w: World, here: Host, seen: Observation) {
    w.row.Some? && w.row.value.owner.host == here ==>
      && (seen.pidExists <==> exists i :: i in w.live && SamePid(i, w.row.value.owner))
      && (seen.startToken.Some? ==> forall i | i in w.live && SamePid(i, w.row.value.owner) :: seen.startToken.value == i.start)
  }

  predicate Runs(w: World, token: Token) {
    token in w.executors && w.executors[token].instance in w.live
  }

  predicate Sees(w: World, token: Token, seen: Observation) {
    Runs(w, token) && Truthful(w, w.executors[token].instance.host, seen)
  }

  predicate Enabled(w: World, step: Step) {
    match step
    case Spawn(i) => i !in w.live && i !in w.dead && forall j | j in w.live :: !SamePid(i, j)
    case Crash(i) => i in w.live
    case Start(token, i, _, _, _) => token !in w.executors && i in w.live
    case TryAcquire(token, seen) => Sees(w, token, seen) && w.executors[token].stage == Waiting
    case RenewByTimer(token, seen) => Sees(w, token, seen) && Holds(w.executors[token].stage)
    case Read(token) => Runs(w, token) && w.executors[token].stage == Holding && w.states != []
    case RunBuild(token) => Runs(w, token) && w.executors[token].stage.Reading? && w.executors[token].stage.at < |w.states|
    case Write(token, seen, _) => Sees(w, token, seen) && w.executors[token].stage.Drafted? && w.states != []
    case Confirm(token, seen) => Sees(w, token, seen) && w.executors[token].stage == Stored && w.executors[token].wantsEffect
    case StartEffect(token) => Runs(w, token) && w.executors[token].stage == Confirmed
    case Release(token) => Runs(w, token) && (w.executors[token].stage == Leaving || w.executors[token].stage == Stored)
  }

  function At(w: World, token: Token, stage: Stage): World
    requires token in w.executors
  {
    w.(executors := w.executors[token := w.executors[token].(stage := stage)])
  }

  function Poisoned(w: World, token: Token): World
    requires token in w.executors
  {
    w.(executors := w.executors[token := w.executors[token].(poisoned := true)])
  }

  predicate Owned(w: World, token: Token, seen: Observation)
    requires token in w.executors
  {
    OwnsRow(w.row, token, w.executors[token].instance.host, seen)
  }

  function Last(w: World): ProjectState
    requires w.states != []
  {
    w.states[|w.states| - 1]
  }

  function Next(w: World, step: Step): World
    requires Enabled(w, step)
  {
    match step
    case Spawn(i) => w.(live := w.live + {i})
    case Crash(i) => w.(live := w.live - {i}, dead := w.dead + {i})
    case Start(token, i, request, build, wantsEffect) =>
      w.(executors := w.executors[token := Executor(i, request, build, wantsEffect, Waiting, false)])
    case TryAcquire(token, seen) =>
      var e := w.executors[token];
      if IsFree(w.row, e.instance.host, seen)
      then At(w, token, Holding).(row := Some(LeaseRow(token, e.instance, seen.now + MUTATION_LEASE_TTL_MS)))
      else w
    case RenewByTimer(token, seen) =>
      if Owned(w, token, seen) then w.(row := Some(Renewed(w.row.value, seen.now))) else Poisoned(w, token)
    case Read(token) => At(w, token, Reading(|w.states| - 1))
    case RunBuild(token) =>
      var e := w.executors[token];
      var outcome := Attempt(w.states[e.stage.at], e.request, e.build);
      At(w, token, if outcome.Committed? then Drafted(e.stage.at, outcome.state) else Leaving)
    case Write(token, seen, answerLost) =>
      var e := w.executors[token];
      if e.poisoned || !Owned(w, token, seen) || e.stage.next.stateVersion != Last(w).stateVersion + 1 then At(w, token, Leaving)
      else
        At(w, token, if answerLost then Leaving else Stored).(
          row := Some(Renewed(w.row.value, seen.now)),
          states := w.states + [e.stage.next],
          commits := w.commits + [Commit(token, e.stage.at)])
    case Confirm(token, seen) =>
      if w.executors[token].poisoned || !Owned(w, token, seen) then At(w, token, Leaving)
      else At(w, token, Confirmed).(row := Some(Renewed(w.row.value, seen.now)))
    case StartEffect(token) => At(w, token, Leaving).(effects := w.effects + [token])
    case Release(token) =>
      At(w, token, Gone).(row := if w.row.Some? && w.row.value.token == token then None else w.row)
  }

  ghost predicate Initial(w: World) {
    && w.live == {} && w.dead == {} && w.row.None? && w.commits == [] && w.executors == map[] && w.effects == []
    && |w.states| == 1 && ValidProject(w.states[0])
  }

  // A run of the protocol, from an initial world
  ghost predicate Trace(worlds: seq<World>, steps: seq<Step>) {
    && |worlds| == |steps| + 1 && Initial(worlds[0])
    && forall i | 0 <= i < |steps| :: Enabled(worlds[i], steps[i]) && worlds[i + 1] == Next(worlds[i], steps[i])
  }

  // Commits

  // `next` is the finalised build of `s` by the executor's request.
  ghost predicate Makes(e: Executor, s: ProjectState, next: ProjectState) {
    Attempt(s, e.request, e.build).Committed? && Attempt(s, e.request, e.build).state == next
  }

  ghost predicate CommitFits(w: World, i: nat)
    requires i < |w.commits| && |w.states| == |w.commits| + 1
  {
    var c := w.commits[i];
    c.token in w.executors && c.readAt == i && Makes(w.executors[c.token], w.states[i], w.states[i + 1])
  }

  ghost predicate Versioned(states: seq<ProjectState>) {
    forall i | 0 <= i < |states| :: states[i].stateVersion == states[0].stateVersion + i
  }

  predicate BeforeWrite(stage: Stage) {
    stage.Waiting? || stage.Holding? || stage.Reading? || stage.Drafted?
  }

  ghost predicate HasCommitted(w: World, token: Token) {
    exists i :: 0 <= i < |w.commits| && w.commits[i].token == token
  }

  ghost predicate StageFits(w: World, token: Token)
    requires token in w.executors
  {
    var e := w.executors[token];
    && (BeforeWrite(e.stage) ==> !HasCommitted(w, token))
    && (e.stage.Reading? ==> e.stage.at < |w.states|)
    && (e.stage.Drafted? ==>
          && e.stage.at < |w.states|
          && Makes(e, w.states[e.stage.at], e.stage.next))
    && (e.stage == Stored || e.stage == Confirmed ==> HasCommitted(w, token) && token !in w.effects)
    && (token in w.effects ==> HasCommitted(w, token))
  }

  ghost predicate CommitInv(w: World) {
    && |w.states| == |w.commits| + 1 && ValidProject(w.states[0])
    && Versioned(w.states)
    && (forall i | 0 <= i < |w.commits| :: CommitFits(w, i))
    && (forall i, j | 0 <= i < j < |w.commits| :: w.commits[i].token != w.commits[j].token)
    && (forall token | token in w.executors :: StageFits(w, token))
    && (forall token | token in w.effects :: token in w.executors)
    && (forall i, j | 0 <= i < j < |w.effects| :: w.effects[i] != w.effects[j])
  }

  lemma MakesIgnoresStage(e: Executor, f: Executor, s: ProjectState, next: ProjectState)
    requires e.request == f.request && e.build == f.build
    ensures Makes(e, s, next) <==> Makes(f, s, next)
  {
  }

  predicate SameWork(w: World, v: World) {
    v.states == w.states && v.commits == w.commits && v.effects == w.effects
  }

  lemma OneExecutorMoves(w: World, v: World, token: Token, f: Executor)
    requires CommitInv(w) && SameWork(w, v) && token in w.executors
    requires v.executors == w.executors[token := f]
    requires f.request == w.executors[token].request && f.build == w.executors[token].build
    requires StageFits(v, token)
    ensures CommitInv(v)
  {
    forall i | 0 <= i < |v.commits| ensures CommitFits(v, i) {
      assert CommitFits(w, i);
      if v.commits[i].token == token {
        MakesIgnoresStage(w.executors[token], f, v.states[i], v.states[i + 1]);
      }
    }
    forall other | other in v.executors ensures StageFits(v, other) {
      if other != token {
        assert StageFits(w, other);
        assert HasCommitted(v, other) <==> HasCommitted(w, other);
      }
    }
  }

  lemma NobodyMoves(w: World, v: World)
    requires CommitInv(w) && SameWork(w, v) && v.executors == w.executors
    ensures CommitInv(v)
  {
    forall i | 0 <= i < |v.commits| ensures CommitFits(v, i) {
      assert CommitFits(w, i);
    }
    forall other | other in v.executors ensures StageFits(v, other) {
      assert StageFits(w, other);
      assert HasCommitted(v, other) <==> HasCommitted(w, other);
    }
  }

  lemma CommittersAreKnown(w: World, token: Token)
    requires CommitInv(w)
    ensures HasCommitted(w, token) ==> token in w.executors
  {
    if HasCommitted(w, token) {
      var i :| 0 <= i < |w.commits| && w.commits[i].token == token;
      assert CommitFits(w, i);
    }
  }

  lemma StartKeepsCommits(w: World, step: Step)
    requires CommitInv(w) && step.Start? && Enabled(w, step)
    ensures CommitInv(Next(w, step))
  {
    var v := Next(w, step);
    forall i | 0 <= i < |v.commits| ensures CommitFits(v, i) {
      assert CommitFits(w, i);
    }
    forall other | other in v.executors ensures StageFits(v, other) {
      assert HasCommitted(v, other) <==> HasCommitted(w, other);
      CommittersAreKnown(w, other);
      if other != step.token {
        assert StageFits(w, other);
      }
    }
  }

  /** A write goes through only while the state that was read is still the last one committed. */
  lemma WriteNeedsCurrentRead(w: World, token: Token, seen: Observation, answerLost: bool)
    requires CommitInv(w) && Enabled(w, Write(token, seen, answerLost))
    ensures var v := Next(w, Write(token, seen, answerLost));
            if v.states == w.states then v.commits == w.commits
            else
              && w.executors[token].stage.at == |w.states| - 1
              && v.states == w.states + [w.executors[token].stage.next]
              && Makes(w.executors[token], Last(w), w.executors[token].stage.next)
              && w.row.Some? && w.row.value.token == token && v.row.Some? && v.row.value.token == token
  {
    var e := w.executors[token];
    assert StageFits(w, token);
    CommitCounts(e, w.states[e.stage.at], e.stage.next);
    assert w.states[e.stage.at].stateVersion == w.states[0].stateVersion + e.stage.at;
    assert Last(w).stateVersion == w.states[0].stateVersion + |w.states| - 1;
  }

  lemma CommitCounts(e: Executor, s: ProjectState, next: ProjectState)
    requires Makes(e, s, next)
    ensures next.stateVersion == s.stateVersion + 1
  {
    CommitAdvancesCounters(s, e.request, e.build);
  }

  lemma AppendedCommitFits(w: World, v: World, token: Token, next: ProjectState, f: Executor)
    requires CommitInv(w) && token in w.executors && !HasCommitted(w, token)
    requires Makes(w.executors[token], Last(w), next)
    requires v.states == w.states + [next] && v.commits == w.commits + [Commit(token, |w.states| - 1)]
    requires v.executors == w.executors[token := f] && v.effects == w.effects
    requires f.request == w.executors[token].request && f.build == w.executors[token].build
    requires f.stage == Stored || f.stage == Leaving
    ensures CommitInv(v)
  {
    var n := |w.commits|;
    CommitCounts(w.executors[token], Last(w), next);
    assert v.commits[n].token == token;
    forall i | 0 <= i < |v.commits| ensures CommitFits(v, i) {
      if i < n {
        assert CommitFits(w, i);
      } else {
        MakesIgnoresStage(w.executors[token], f, v.states[i], v.states[i + 1]);
      }
    }
    forall other | other in v.executors ensures StageFits(v, other) {
      assert StageFits(w, other);
      AppendCommits(w, v, other, token);
    }
  }

  lemma AppendCommits(w: World, v: World, other: Token, token: Token)
    requires exists at :: v.commits == w.commits + [Commit(token, at)]
    ensures HasCommitted(v, other) <==> HasCommitted(w, other) || other == token
  {
    var n := |w.commits|;
    assert v.commits[n].token == token;
    if HasCommitted(w, other) {
      var i :| 0 <= i < n && w.commits[i].token == other;
      assert v.commits[i].token == other;
    }
    if HasCommitted(v, other) && other != token {
      var i :| 0 <= i < |v.commits| && v.commits[i].token == other;
      assert w.commits[i].token == other;
    }
  }

  lemma WriteKeepsCommits(w: World, token: Token, seen: Observation, answerLost: bool)
    requires CommitInv(w) && Enabled(w, Write(token, seen, answerLost))
    ensures CommitInv(Next(w, Write(token, seen, answerLost)))
  {
    var v, e := Next(w, Write(token, seen, answerLost)), w.executors[token];
    assert StageFits(w, token);
    WriteNeedsCurrentRead(w, token, seen, answerLost);
    if v.states == w.states {
      assert HasCommitted(v, token) <==> HasCommitted(w, token);
      OneExecutorMoves(w, v, token, e.(stage := Leaving));
    } else {
      AppendedCommitFits(w, v, token, e.stage.next, e.(stage := if answerLost then Leaving else Stored));
    }
  }

  lemma EffectKeepsCommits(w: World, token: Token)
    requires CommitInv(w) && Enabled(w, StartEffect(token))
    ensures CommitInv(Next(w, StartEffect(token)))
  {
    var v := Next(w, StartEffect(token));
    assert StageFits(w, token);
    forall i | 0 <= i < |v.commits| ensures CommitFits(v, i) {
      assert CommitFits(w, i);
      MakesIgnoresStage(w.executors[token], v.executors[token], v.states[i], v.states[i + 1]);
    }
    forall other | other in v.executors ensures StageFits(v, other) {
      assert StageFits(w, other);
      assert HasCommitted(v, other) <==> HasCommitted(w, other);
    }
  }

  lemma StageKeepsCommits(w: World, step: Step)
    requires CommitInv(w) && Enabled(w, step)
    requires step.TryAcquire? || step.RenewByTimer? || step.Read? || step.RunBuild? || step.Confirm? || step.Release?
    ensures CommitInv(Next(w, step))
  {
    var v, token := Next(w, step), step.token;
    assert StageFits(w, token);
    assert HasCommitted(v, token) <==> HasCommitted(w, token);
    if v.executors == w.executors {
      NobodyMoves(w, v);
    } else {
      OneExecutorMoves(w, v, token, v.executors[token]);
    }
  }

  lemma StepKeepsCommits(w: World, step: Step)
    requires CommitInv(w) && Enabled(w, step)
    ensures CommitInv(Next(w, step))
  {
    match step
    case Spawn(_) => NobodyMoves(w, Next(w, step));
    case Crash(_) => NobodyMoves(w, Next(w, step));
    case Start(_, _, _, _, _) => StartKeepsCommits(w, step);
    case Write(token, seen, answerLost) => WriteKeepsCommits(w, token, seen, answerLost);
    case StartEffect(token) => EffectKeepsCommits(w, token);
    case _ => StageKeepsCommits(w, step);
  }

  lemma {:induction false} TracesKeepCommits(worlds: seq<World>, steps: seq<Step>, n: nat)
    requires Trace(worlds, steps) && n < |worlds|
    ensures CommitInv(worlds[n])
  {
    if n > 0 {
      TracesKeepCommits(worlds, steps, n - 1);
      assert Enabled(worlds[n - 1], steps[n - 1]) && worlds[n - 1 + 1] == Next(worlds[n - 1], steps[n - 1]);
      StepKeepsCommits(worlds[n - 1], steps[n - 1]);
    }
  }

  // The chain

  lemma CommitsAreHistory(w: World)
    requires CommitInv(w)
    ensures History(w.states)
  {
    forall i | 0 <= i < |w.states| - 1 ensures CommitsOnce(w.states[i], w.states[i + 1]) {
      assert CommitFits(w, i);
      var e := w.executors[w.commits[i].token];
      CommitAdvancesCounters(w.states[i], e.request, e.build);
      assert Attempt(w.states[i], e.request, e.build) == Committed(w.states[i + 1], AnswerIn(w.states[i + 1], e.request));
    }
  }

  /**
    In every interleaving the committed states form one chain, and commit i is the finalised build, by the
    executor that committed it, of the state committed immediately before it, which is the state it read.
   */
  lemma CommitsFormOneChain(worlds: seq<World>, steps: seq<Step>, n: nat, i: nat)
    requires Trace(worlds, steps) && n < |worlds| && i < |worlds[n].commits|
    ensures var w := worlds[n];
            && |w.states| == |w.commits| + 1 && History(w.states)
            && w.commits[i].token in w.executors && w.commits[i].readAt == i
            && Makes(w.executors[w.commits[i].token], w.states[i], w.states[i + 1])
  {
    TracesKeepCommits(worlds, steps, n);
    CommitsAreHistory(worlds[n]);
    assert CommitFits(worlds[n], i);
  }

  /**
    In every interleaving the state a commit was made on met every guard of its request: the version it expects is
    the version of exactly the state committed immediately before it.
   */
  lemma CommitsMetTheirGuards(worlds: seq<World>, steps: seq<Step>, n: nat, i: nat)
    requires Trace(worlds, steps) && n < |worlds| && i < |worlds[n].commits|
    ensures |worlds[n].states| == |worlds[n].commits| + 1 && worlds[n].commits[i].token in worlds[n].executors
    ensures var s, request := worlds[n].states[i], worlds[n].executors[worlds[n].commits[i].token].request;
            && (request.expectedStateVersion.Some? ==>
                  s.stateVersion == request.expectedStateVersion.value == worlds[n].states[i + 1].stateVersion - 1)
            && EpochIsMet(s, request) && request.requestId !in s.receipts
  {
    CommitsFormOneChain(worlds, steps, n, i);
    var e := worlds[n].executors[worlds[n].commits[i].token];
    CommitMeetsGuards(worlds[n].states[i], e.request, e.build);
    CommitAdvancesCounters(worlds[n].states[i], e.request, e.build);
  }

  // The executor drafted on a state that is no longer the last one, or has given up, without committing.
  ghost predicate Overtaken(w: World, token: Token) {
    && token in w.executors && !HasCommitted(w, token)
    && var stage := w.executors[token].stage;
       (stage.Drafted? && stage.at < |w.states| - 1) || stage == Leaving || stage == Gone
  }

  lemma OvertakenStays(w: World, step: Step, token: Token)
    requires CommitInv(w) && Enabled(w, step) && Overtaken(w, token)
    ensures Overtaken(Next(w, step), token)
  {
    var v := Next(w, step);
    if step.Write? {
      WriteNeedsCurrentRead(w, step.token, step.seen, step.answerLost);
      if v.states != w.states {
        AppendCommits(w, v, token, step.token);
      } else {
        assert HasCommitted(v, token) <==> HasCommitted(w, token);
      }
    } else {
      assert HasCommitted(v, token) <==> HasCommitted(w, token);
    }
  }

  lemma OvertakenStaysInTrace(worlds: seq<World>, steps: seq<Step>, k: nat, token: Token)
    requires Trace(worlds, steps) && k < |steps| && Overtaken(worlds[k], token)
    ensures Overtaken(worlds[k + 1], token)
  {
    TracesKeepCommits(worlds, steps, k);
    OvertakenStays(worlds[k], steps[k], token);
  }

  lemma OvertakenHasNoEffect(w: World, token: Token)
    requires CommitInv(w) && Overtaken(w, token)
    ensures token !in w.effects
  {
    assert StageFits(w, token);
  }

  lemma OldDraftIsOvertaken(w: World, token: Token)
    requires CommitInv(w) && token in w.executors && w.executors[token].stage.Drafted?
    requires w.executors[token].stage.at < |w.states| - 1
    ensures Overtaken(w, token)
  {
    assert StageFits(w, token);
  }

  /** A build whose read was overtaken never commits and never starts its effect, however long the run goes on. */
  lemma {:induction false} OvertakenNeverCommits(worlds: seq<World>, steps: seq<Step>, n: nat, m: nat, token: Token)
    requires Trace(worlds, steps) && n <= m < |worlds|
    requires token in worlds[n].executors && worlds[n].executors[token].stage.Drafted?
    requires worlds[n].executors[token].stage.at < |worlds[n].states| - 1
    ensures Overtaken(worlds[m], token) && token !in worlds[m].effects
    decreases m - n
  {
    TracesKeepCommits(worlds, steps, m);
    if m == n {
      OldDraftIsOvertaken(worlds[n], token);
    } else {
      OvertakenNeverCommits(worlds, steps, n, m - 1, token);
      OvertakenStaysInTrace(worlds, steps, m - 1, token);
    }
    OvertakenHasNoEffect(worlds[m], token);
  }

  // Requests and effects

  lemma CommitStoresReceipt(w: World, i: nat, j: nat)
    requires CommitInv(w) && i < j < |w.states|
    ensures CommitFits(w, i) && w.executors[w.commits[i].token].request.requestId in w.states[j].receipts
  {
    assert CommitFits(w, i);
    var e := w.executors[w.commits[i].token];
    CommitAdvancesCounters(w.states[i], e.request, e.build);
    CommitsAreHistory(w);
    HistoryCounts(w.states, i + 1, j);
  }

  /** Each request identifier commits at most once, whichever executors carry it. */
  lemma RequestCommitsOnce(w: World, i: nat, j: nat)
    requires CommitInv(w) && i < |w.commits| && j < |w.commits|
    requires CommitFits(w, i) && CommitFits(w, j)
    requires w.executors[w.commits[i].token].request.requestId == w.executors[w.commits[j].token].request.requestId
    ensures i == j
  {
    if i != j {
      var first, second := if i < j then i else j, if i < j then j else i;
      CommitStoresReceipt(w, first, second);
      var e := w.executors[w.commits[second].token];
      CommitAdvancesCounters(w.states[second], e.request, e.build);
    }
  }

  /**
    For each request identifier at most one effect is ever started, and only after the commit of that very
    request; crashes, preemption and lost answers included.
   */
  lemma EffectStartsOncePerRequest(worlds: seq<World>, steps: seq<Step>, n: nat, a: nat, b: nat)
    requires Trace(worlds, steps) && n < |worlds|
    requires a < |worlds[n].effects| && b < |worlds[n].effects|
    ensures var w := worlds[n];
            && w.effects[a] in w.executors && w.effects[b] in w.executors
            && HasCommitted(w, w.effects[a])
            && (w.executors[w.effects[a]].request.requestId == w.executors[w.effects[b]].request.requestId ==> a == b)
  {
    TracesKeepCommits(worlds, steps, n);
    var w := worlds[n];
    assert w.effects[a] in w.effects && w.effects[b] in w.effects;
    assert StageFits(w, w.effects[a]) && StageFits(w, w.effects[b]);
    var i :| 0 <= i < |w.commits| && w.commits[i].token == w.effects[a];
    var j :| 0 <= j < |w.commits| && w.commits[j].token == w.effects[b];
    assert CommitFits(w, i) && CommitFits(w, j);
    if w.executors[w.effects[a]].request.requestId == w.executors[w.effects[b]].request.requestId {
      RequestCommitsOnce(w, i, j);
    }
  }

  // Failed renewals

  ghost predicate HasLostLease(w: World, token: Token) {
    token in w.executors && w.executors[token].poisoned
  }

  lemma LostLeaseStays(w: World, step: Step, token: Token)
    requires Enabled(w, step) && HasLostLease(w, token)
    ensures var v := Next(w, step);
            && HasLostLease(v, token)
            && (HasCommitted(v, token) ==> HasCommitted(w, token))
            && (w.executors[token].stage != Confirmed ==> v.executors[token].stage != Confirmed)
            && (token in v.effects && w.executors[token].stage != Confirmed ==> token in w.effects)
  {
    var v := Next(w, step);
    if HasCommitted(v, token) {
      var i :| 0 <= i < |v.commits| && v.commits[i].token == token;
      assert i < |w.commits| && w.commits[i].token == token;
    }
  }

  /** An executor whose renewal has failed commits nothing more, and starts no effect it has not been confirmed for. */
  lemma {:induction false} LostLeaseNeverCommits(worlds: seq<World>, steps: seq<Step>, n: nat, m: nat, token: Token)
    requires Trace(worlds, steps) && n <= m < |worlds| && HasLostLease(worlds[n], token)
    ensures HasLostLease(worlds[m], token)
    ensures HasCommitted(worlds[m], token) ==> HasCommitted(worlds[n], token)
    ensures worlds[n].executors[token].stage != Confirmed ==>
              worlds[m].executors[token].stage != Confirmed && (token in worlds[m].effects ==> token in worlds[n].effects)
    decreases m - n
  {
    if n < m {
      LostLeaseNeverCommits(worlds, steps, n, m - 1, token);
      TraceStep(worlds, steps, m - 1);
      LostLeaseStays(worlds[m - 1], steps[m - 1], token);
    }
  }

  lemma TraceStep(worlds: seq<World>, steps: seq<Step>, n: nat)
    requires Trace(worlds, steps) && n < |steps|
    ensures Enabled(worlds[n], steps[n]) && worlds[n + 1] == Next(worlds[n], steps[n])
  {
  }

  /** The lease was looked at between the commit and the effect: it carried the executor's token, and no renewal had failed. */
  ghost predicate IsConfirmation(worlds: seq<World>, steps: seq<Step>, k: nat, token: Token) {
    && k < |steps| && |worlds| == |steps| + 1
    && steps[k].Confirm? && steps[k].token == token && HasCommitted(worlds[k], token)
    && worlds[k].row.Some? && worlds[k].row.value.token == token
    && token in worlds[k].executors && !worlds[k].executors[token].poisoned
  }

  lemma ConfirmedBy(worlds: seq<World>, steps: seq<Step>, n: nat, token: Token)
    requires Trace(worlds, steps) && n < |steps|
    requires token in worlds[n + 1].executors && worlds[n + 1].executors[token].stage == Confirmed
    ensures IsConfirmation(worlds, steps, n, token) || (token in worlds[n].executors && worlds[n].executors[token].stage == Confirmed)
  {
    TraceStep(worlds, steps, n);
    TracesKeepCommits(worlds, steps, n);
    if token in worlds[n].executors && worlds[n].executors[token].stage != Confirmed {
      assert StageFits(worlds[n], token);
    }
  }

  lemma {:induction false} ConfirmedStageWasReached(worlds: seq<World>, steps: seq<Step>, n: nat, token: Token)
    requires Trace(worlds, steps) && n < |worlds|
    requires token in worlds[n].executors && worlds[n].executors[token].stage == Confirmed
    ensures exists k: nat | k < n :: IsConfirmation(worlds, steps, k, token)
  {
    ConfirmedBy(worlds, steps, n - 1, token);
    if !IsConfirmation(worlds, steps, n - 1, token) {
      ConfirmedStageWasReached(worlds, steps, n - 1, token);
    }
  }

  /** Every effect was confirmed under the lease before it was started. */
  lemma EffectWasConfirmed(worlds: seq<World>, steps: seq<Step>, n: nat)
    requires Trace(worlds, steps) && n < |steps| && steps[n].StartEffect?
    ensures exists k: nat | k < n :: IsConfirmation(worlds, steps, k, steps[n].token)
  {
    TraceStep(worlds, steps, n);
    ConfirmedStageWasReached(worlds, steps, n, steps[n].token);
  }
}
