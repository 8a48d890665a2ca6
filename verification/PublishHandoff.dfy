/**
  Starting `adapter.apply`: at most once per operation over the whole history, after a commit that records
  SUBMITTED (apps/daemon/src/publish/publish-coordinator.ts, markSubmittedAndApply).
 */
module PublishHandoff {
  import opened ProjectModel
  import opened MutationExecutor
  import opened RunSteps
  import opened RunTransitions
  import opened MutationProtocol
  import opened StateStore

  // The only request that carries an effect, and what it builds
  ghost predicate Submits(e: Executor, job: JobId, operationId: OperationId) {
    && e.request.requestId == SubmittedRequest(operationId)
    && exists hash, evidence ::
         var t := Move(job, PublishMove(SubmitPublish(operationId, hash, evidence)));
         e.build == BuildOf(t) && Carries(e.request, t)
  }

  ghost predicate OnlySubmitsHaveEffects(w: World) {
    forall token | token in w.executors && w.executors[token].wantsEffect ::
      exists job, operationId :: Submits(w.executors[token], job, operationId)
  }

  predicate RecordsSubmitted(s: ProjectState, job: JobId, operationId: OperationId) {
    && job in s.runs && s.runs[job].phase == Publishing && s.runs[job].publish.Some?
    && s.runs[job].publish.value.operationId == operationId && s.runs[job].publish.value.status == Submitted
  }

  lemma SubmitRecords(s: ProjectState, request: Request, job: JobId, step: PublishStep, next: ProjectState)
    requires ValidProject(s) && step.SubmitPublish?
    requires Carries(request, Move(job, PublishMove(step))) && Decide(s, request).Proceed?
    requires Built(Move(job, PublishMove(step)), s, NextContext(s, request)).Ok?
    requires next == Finalise(s, request, NextContext(s, request),
                              Built(Move(job, PublishMove(step)), s, NextContext(s, request)).value)
    ensures RecordsSubmitted(next, job, step.operationId)
  {
    ProceedMeansGuarded(s, request, Move(job, PublishMove(step)));
  }

  lemma MadeByBuilding(e: Executor, t: Transition, s: ProjectState, next: ProjectState)
    requires e.build == BuildOf(t) && Makes(e, s, next)
    ensures Decide(s, e.request).Proceed? && Built(t, s, NextContext(s, e.request)).Ok?
    ensures next == Finalise(s, e.request, NextContext(s, e.request), Built(t, s, NextContext(s, e.request)).value)
  {
    assert BuildOf(t)(s, NextContext(s, e.request)) == Built(t, s, NextContext(s, e.request));
  }

  lemma SubmitCommitRecords(e: Executor, job: JobId, operationId: OperationId, s: ProjectState, next: ProjectState)
    requires ValidProject(s) && Submits(e, job, operationId) && Makes(e, s, next)
    ensures RecordsSubmitted(next, job, operationId)
  {
    var hash, evidence :|
      var t := Move(job, PublishMove(SubmitPublish(operationId, hash, evidence)));
      e.build == BuildOf(t) && Carries(e.request, t);
    var step := SubmitPublish(operationId, hash, evidence);
    MadeByBuilding(e, Move(job, PublishMove(step)), s, next);
    SubmitRecords(s, e.request, job, step, next);
  }

  // An effect is only ever started by an executor that asked for one.
  ghost predicate EffectsWanted(w: World) {
    && (forall token | token in w.effects :: token in w.executors && w.executors[token].wantsEffect)
    && (forall token | token in w.executors && w.executors[token].stage == Confirmed :: w.executors[token].wantsEffect)
  }

  lemma {:induction false} TracesKeepEffectsWanted(worlds: seq<World>, steps: seq<Step>, n: nat)
    requires Trace(worlds, steps) && n < |worlds|
    ensures EffectsWanted(worlds[n])
  {
    if n > 0 {
      TracesKeepEffectsWanted(worlds, steps, n - 1);
      assert Enabled(worlds[n - 1], steps[n - 1]) && worlds[n - 1 + 1] == Next(worlds[n - 1], steps[n - 1]);
      StepKeepsEffectsWanted(worlds[n - 1], steps[n - 1]);
    }
  }

  lemma StepKeepsEffectsWanted(w: World, step: Step)
    requires EffectsWanted(w) && Enabled(w, step)
    ensures EffectsWanted(Next(w, step))
  {
  }

  /**
    For each operation `adapter.apply` is started at most once over the whole history, crashes and lost
    answers included, and only after a commit that records SUBMITTED for it.
   */
  lemma ApplyStartsOncePerOperation(worlds: seq<World>, steps: seq<Step>, n: nat, a: nat, b: nat, job: JobId, other: JobId,
                                    operationId: OperationId)
    requires Trace(worlds, steps) && n < |worlds|
    requires a < |worlds[n].effects| && b < |worlds[n].effects|
    requires worlds[n].effects[a] in worlds[n].executors && worlds[n].effects[b] in worlds[n].executors
    requires Submits(worlds[n].executors[worlds[n].effects[a]], job, operationId)
    requires Submits(worlds[n].executors[worlds[n].effects[b]], other, operationId)
    ensures a == b
    ensures exists i :: 0 <= i < |worlds[n].commits| && worlds[n].commits[i].token == worlds[n].effects[a] &&
              |worlds[n].states| == |worlds[n].commits| + 1 && RecordsSubmitted(worlds[n].states[i + 1], job, operationId)
  {
    EffectStartsOncePerRequest(worlds, steps, n, a, b);
    TracesKeepCommits(worlds, steps, n);
    EffectFollowsSubmitted(worlds[n], worlds[n].effects[a], job, operationId);
  }

  lemma EffectFollowsSubmitted(w: World, token: Token, job: JobId, operationId: OperationId)
    requires CommitInv(w) && HasCommitted(w, token)
    requires token in w.executors && Submits(w.executors[token], job, operationId)
    ensures exists i :: 0 <= i < |w.commits| && w.commits[i].token == token && RecordsSubmitted(w.states[i + 1], job, operationId)
  {
    var i :| 0 <= i < |w.commits| && w.commits[i].token == token;
    CommitRecordsSubmitted(w, i, job, operationId);
  }

  lemma CommitRecordsSubmitted(w: World, i: nat, job: JobId, operationId: OperationId)
    requires CommitInv(w) && i < |w.commits| && w.commits[i].token in w.executors
    requires Submits(w.executors[w.commits[i].token], job, operationId)
    ensures RecordsSubmitted(w.states[i + 1], job, operationId)
  {
    assert CommitFits(w, i);
    StatesAreValid(w, i);
    SubmitCommitRecords(w.executors[w.commits[i].token], job, operationId, w.states[i], w.states[i + 1]);
  }

  lemma StatesAreValid(w: World, i: nat)
    requires CommitInv(w) && i < |w.states|
    ensures ValidProject(w.states[i])
  {
    if i > 0 {
      assert CommitFits(w, i - 1);
      MadeIsValid(w.executors[w.commits[i - 1].token], w.states[i - 1], w.states[i]);
    }
  }

  lemma MadeIsValid(e: Executor, s: ProjectState, next: ProjectState)
    requires Makes(e, s, next)
    ensures ValidProject(next)
  {
  }

  /** Every effect ever started is the apply of some operation. */
  lemma EffectsAreApplies(worlds: seq<World>, steps: seq<Step>, n: nat, a: nat)
    requires Trace(worlds, steps) && n < |worlds| && a < |worlds[n].effects|
    requires OnlySubmitsHaveEffects(worlds[n])
    ensures worlds[n].effects[a] in worlds[n].executors
    ensures exists job, operationId :: Submits(worlds[n].executors[worlds[n].effects[a]], job, operationId)
  {
    TracesKeepEffectsWanted(worlds, steps, n);
    assert worlds[n].effects[a] in worlds[n].effects;
  }
}
