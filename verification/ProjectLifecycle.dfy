/**
  The lifecycle invariant at project level: the schema never refuses a disciplined builder, and exactly
  when it refuses the ones that are not (packages/state-store/src/schema.ts, apps/daemon/src).
 */
module ProjectLifecycle {
  import opened Wrappers
  import opened Ordering
  import opened ProjectModel
  import opened MutationExecutor
  import opened RunSteps
  import opened RunTransitions
  import opened LifecycleInvariant

  lemma {:induction false} OnlyLastActiveCountsOnce(attempts: seq<WorkerAttempt>)
    requires OnlyLastActive(attempts)
    ensures ActiveCount(attempts) <= 1
  {
    if attempts != [] {
      var n := |attempts| - 1;
      ActiveCountZero(attempts[..n]);
    }
  }

  lemma RunInvIsValid(run: RunRecord)
    requires RunInv(run)
    ensures ValidRun(run)
  {
    OnlyLastActiveCountsOnce(run.attempts);
  }

  lemma RunStaysInv(run: RunRecord, fence: nat)
    requires RunInv(run) && fence > 0
    ensures RunInv(run.(fence := fence))
  {
  }

  // The bindings alone: who owns which task, and which runs have ended

  datatype Owner = Owner(jobId: JobId, taskPath: TaskPath, ended: bool)

  function OwnerOf(run: RunRecord): Owner {
    Owner(run.jobId, run.taskPath, IsTerminal(run.phase))
  }

  function Owners(runs: map<JobId, RunRecord>): map<JobId, Owner> {
    map job | job in runs :: OwnerOf(runs[job])
  }

  predicate Owns(bindings: map<TaskPath, JobId>, owner: Owner) {
    owner.taskPath in bindings && bindings[owner.taskPath] == owner.jobId
  }

  predicate Bound(owners: map<JobId, Owner>, bindings: map<TaskPath, JobId>, lease: Option<PublishLease>) {
    && (forall job | job in owners :: owners[job].jobId == job)
    && (forall path | path in bindings ::
          bindings[path] in owners && owners[bindings[path]].taskPath == path && !owners[bindings[path]].ended)
    && (forall job | job in owners && !owners[job].ended :: Owns(bindings, owners[job]))
    && (lease.Some? ==> lease.value.jobId in owners && Owns(bindings, owners[lease.value.jobId]))
  }

  predicate RunsValid(runs: map<JobId, RunRecord>) {
    forall job | job in runs :: ValidRun(runs[job])
  }

  lemma SchemaIsBindingsAndRuns(s: ProjectState)
    ensures ValidProject(s) <==> RunsValid(s.runs) && Bound(Owners(s.runs), s.activeRuns, s.publishLease)
  {
    var owners := Owners(s.runs);
    if ValidProject(s) {
      forall path | path in s.activeRuns
        ensures s.activeRuns[path] in owners && owners[s.activeRuns[path]].taskPath == path && !owners[s.activeRuns[path]].ended
      {
        assert BindingHolds(s, path, s.activeRuns[path]);
      }
      forall job | job in owners && !owners[job].ended ensures Owns(s.activeRuns, owners[job]) {
        assert OwnsItsTask(s, s.runs[job]);
      }
    }
    if RunsValid(s.runs) && Bound(owners, s.activeRuns, s.publishLease) {
      forall job | job in s.runs ensures s.runs[job].jobId == job && ValidRun(s.runs[job]) {
        assert owners[job].jobId == job;
      }
      forall path | path in s.activeRuns ensures BindingHolds(s, path, s.activeRuns[path]) {
        assert owners[s.activeRuns[path]] == OwnerOf(s.runs[s.activeRuns[path]]);
      }
      forall job | job in s.runs && !IsTerminal(s.runs[job].phase) ensures OwnsItsTask(s, s.runs[job]) {
        assert Owns(s.activeRuns, owners[job]);
      }
    }
  }

  /** Replacing one live run keeps the bindings unless the run ended while the publish lease still names it. */
  lemma ReplacementIsBound(owners: map<JobId, Owner>, bindings: map<TaskPath, JobId>, lease: Option<PublishLease>,
                           job: JobId, ended: bool, kept: Option<PublishLease>)
    requires Bound(owners, bindings, lease) && job in owners && !owners[job].ended
    requires kept == lease || kept.None?
    ensures Bound(owners[job := owners[job].(ended := ended)], if ended then bindings - {owners[job].taskPath} else bindings, kept)
            <==> !(ended && LeaseNames(kept, job))
  {
    assert Owns(bindings, owners[job]);
  }

  lemma AdditionIsBound(owners: map<JobId, Owner>, bindings: map<TaskPath, JobId>, lease: Option<PublishLease>,
                        job: JobId, path: TaskPath)
    requires Bound(owners, bindings, lease) && job !in owners && path !in bindings
    ensures Bound(owners[job := Owner(job, path, false)], bindings[path := job], lease)
  {
  }

  // One move

  function FinalFence(request: Request, context: Context, run: RunRecord): nat {
    if request.advanceFence then context.fence else run.fence
  }

  lemma FinalisedMove(s: ProjectState, request: Request, context: Context, job: JobId, step: RunStep, next: RunRecord)
    requires job in s.runs && StepRun(step, s.runs[job]) == Ok(next) && request.expectedJobId == Some(job)
    ensures var t := Finalise(s, request, context, Draft(MoveRun(s, job, step).value, Acknowledged));
            && t.runs == s.runs[job := next.(fence := FinalFence(request, context, next))]
            && t.activeRuns == (if EndsRun(step) then s.activeRuns - {s.runs[job].taskPath} else s.activeRuns)
            && t.publishLease == LeaseAfter(s.publishLease, job, step, s.runs[job])
            && t.projectFence == s.projectFence + 1
  {
  }

  lemma LeaseOnlyCleared(lease: Option<PublishLease>, job: JobId, step: RunStep, run: RunRecord)
    ensures LeaseAfter(lease, job, step, run) == lease || LeaseAfter(lease, job, step, run).None?
  {
  }

  predicate RunsInv(runs: map<JobId, RunRecord>, projectFence: nat) {
    forall job | job in runs :: RunInv(runs[job]) && runs[job].fence <= projectFence
  }

  lemma RunsInvAreValid(runs: map<JobId, RunRecord>, projectFence: nat)
    requires RunsInv(runs, projectFence)
    ensures RunsValid(runs)
  {
    forall job | job in runs ensures ValidRun(runs[job]) {
      RunInvIsValid(runs[job]);
    }
  }

  lemma ProjectInvIsBoundAndRuns(s: ProjectState)
    ensures ProjectInv(s) <==> RunsInv(s.runs, s.projectFence) && Bound(Owners(s.runs), s.activeRuns, s.publishLease)
  {
    SchemaIsBindingsAndRuns(s);
    if RunsInv(s.runs, s.projectFence) {
      RunsInvAreValid(s.runs, s.projectFence);
    }
  }

  lemma OwnersReplaced(runs: map<JobId, RunRecord>, job: JobId, next: RunRecord)
    ensures Owners(runs[job := next]) == Owners(runs)[job := OwnerOf(next)]
  {
  }

  lemma RunsReplaced(runs: map<JobId, RunRecord>, fence: nat, job: JobId, next: RunRecord, nextFence: nat)
    requires RunsInv(runs, fence) && RunInv(next) && next.fence <= nextFence && fence <= nextFence
    ensures RunsInv(runs[job := next], nextFence)
  {
    var after := runs[job := next];
    forall key | key in after ensures RunInv(after[key]) && after[key].fence <= nextFence {
    }
  }

  lemma MoveIsBound(s: ProjectState, t: ProjectState, job: JobId, ended: bool, next: RunRecord)
    requires Bound(Owners(s.runs), s.activeRuns, s.publishLease)
    requires job in s.runs && !IsTerminal(s.runs[job].phase)
    requires next.jobId == s.runs[job].jobId && next.taskPath == s.runs[job].taskPath
    requires ended == IsTerminal(next.phase)
    requires t.runs == s.runs[job := next]
    requires t.activeRuns == if ended then s.activeRuns - {s.runs[job].taskPath} else s.activeRuns
    requires t.publishLease == s.publishLease || t.publishLease.None?
    ensures Bound(Owners(t.runs), t.activeRuns, t.publishLease) <==> !(ended && LeaseNames(t.publishLease, job))
  {
    OwnersReplaced(s.runs, job, next);
    ReplacementIsBound(Owners(s.runs), s.activeRuns, s.publishLease, job, ended, t.publishLease);
  }

  lemma AttemptUnfolds(s: ProjectState, request: Request, t: Transition)
    requires Decide(s, request).Proceed? && Built(t, s, NextContext(s, request)).Ok?
    ensures var draft := Built(t, s, NextContext(s, request)).value;
            var next := Finalise(s, request, NextContext(s, request), draft);
            Attempt(s, request, BuildOf(t)) == if ValidProject(next) then Committed(next, draft.response) else Refused(SchemaRefused)
  {
    assert BuildOf(t)(s, NextContext(s, request)) == Built(t, s, NextContext(s, request));
  }

  lemma ProceedIsReady(s: ProjectState, request: Request, job: JobId, step: RunStep)
    requires ProjectInv(s) && Carries(request, Move(job, step)) && Decide(s, request).Proceed?
    requires StepDisciplined(step, s.runs[job]) && StepRun(step, s.runs[job]).Ok?
    ensures Ready(step, s.runs[job]) && RunInv(s.runs[job]) && s.runs[job].fence <= s.projectFence
    ensures NextContext(s, request).fence <= s.projectFence + 1 && NextContext(s, request).fence > 0
  {
    ProceedMeansGuarded(s, request, Move(job, step));
  }

  lemma FinalRunKeepsInv(s: ProjectState, request: Request, job: JobId, step: RunStep)
    requires ProjectInv(s) && Carries(request, Move(job, step)) && Decide(s, request).Proceed?
    requires StepDisciplined(step, s.runs[job]) && StepRun(step, s.runs[job]).Ok?
    ensures var next := StepRun(step, s.runs[job]).value;
            var final := next.(fence := FinalFence(request, NextContext(s, request), next));
            && RunInv(final) && final.fence <= s.projectFence + 1
            && (IsTerminal(final.phase) <==> EndsRun(step))
            && SameRun(s.runs[job], next) && !IsTerminal(s.runs[job].phase)
  {
    ProceedIsReady(s, request, job, step);
    StepKeepsRunInv(step, s.runs[job]);
    var next := StepRun(step, s.runs[job]).value;
    RunStaysInv(next, FinalFence(request, NextContext(s, request), next));
  }

  /**
    A move is refused by the schema exactly when it ends the run while the lease that would be written
    still names it. Everything else it could break, it keeps.
   */
  lemma MoveCommitsUnlessLeased(s: ProjectState, request: Request, job: JobId, step: RunStep)
    requires ProjectInv(s) && Carries(request, Move(job, step)) && Decide(s, request).Proceed?
    requires StepDisciplined(step, s.runs[job])
    requires StepRun(step, s.runs[job]).Ok?
    ensures var outcome := Attempt(s, request, BuildOf(Move(job, step)));
            if EndsRun(step) && LeaseNames(LeaseAfter(s.publishLease, job, step, s.runs[job]), job)
              then outcome == Refused(SchemaRefused)
              else outcome.Committed? && ProjectInv(outcome.state)
  {
    AttemptUnfolds(s, request, Move(job, step));
    FinalRunKeepsInv(s, request, job, step);
    var context, next := NextContext(s, request), StepRun(step, s.runs[job]).value;
    var final := next.(fence := FinalFence(request, context, next));
    FinalisedMove(s, request, context, job, step, next);
    LeaseOnlyCleared(s.publishLease, job, step, s.runs[job]);
    var t := Finalise(s, request, context, Draft(MoveRun(s, job, step).value, Acknowledged));
    ProjectInvIsBoundAndRuns(s);
    RunsReplaced(s.runs, s.projectFence, job, final, t.projectFence);
    MoveIsBound(s, t, job, EndsRun(step), final);
    ProjectInvIsBoundAndRuns(t);
    RunsInvAreValid(t.runs, t.projectFence);
    SchemaIsBindingsAndRuns(t);
  }

  lemma FinalisedExecute(s: ProjectState, request: Request, t: Transition)
    requires t.Execute? && Carries(request, t) && Decide(s, request).Proceed?
    requires Built(t, s, NextContext(s, request)).Ok?
    ensures var next := Finalise(s, request, NextContext(s, request), Built(t, s, NextContext(s, request)).value);
            && next.runs == s.runs[t.jobId := NewRun(t.jobId, t.taskPath, t.manifest, s.projectFence + 1)]
            && next.activeRuns == s.activeRuns[t.taskPath := t.jobId]
            && next.publishLease == s.publishLease && next.projectFence == s.projectFence + 1
            && t.taskPath !in s.activeRuns
  {
  }

  lemma NewRunIsInv(jobId: JobId, taskPath: TaskPath, manifest: TaskManifest, fence: nat)
    requires fence > 0 && Distinct(manifest.enabledTaskIds)
    ensures RunInv(NewRun(jobId, taskPath, manifest, fence))
  {
  }

  lemma ExecuteCommits(s: ProjectState, request: Request, t: Transition)
    requires ProjectInv(s) && t.Execute? && Carries(request, t) && Disciplined(s, t)
    requires Decide(s, request).Proceed? && Built(t, s, NextContext(s, request)).Ok?
    ensures Attempt(s, request, BuildOf(t)).Committed?
    ensures ProjectInv(Attempt(s, request, BuildOf(t)).state)
  {
    AttemptUnfolds(s, request, t);
    FinalisedExecute(s, request, t);
    var next := Finalise(s, request, NextContext(s, request), Built(t, s, NextContext(s, request)).value);
    var run := NewRun(t.jobId, t.taskPath, t.manifest, s.projectFence + 1);
    NewRunIsInv(t.jobId, t.taskPath, t.manifest, s.projectFence + 1);
    ProjectInvIsBoundAndRuns(s);
    RunsReplaced(s.runs, s.projectFence, t.jobId, run, next.projectFence);
    OwnersReplaced(s.runs, t.jobId, run);
    AdditionIsBound(Owners(s.runs), s.activeRuns, s.publishLease, t.jobId, t.taskPath);
    ProjectInvIsBoundAndRuns(next);
  }

  lemma FinalisedLeaseStep(s: ProjectState, request: Request, t: Transition)
    requires (t.AcquireLease? || t.ReleaseLease?) && Carries(request, t) && Decide(s, request).Proceed?
    ensures Built(t, s, NextContext(s, request)).Ok?
    ensures var next := Finalise(s, request, NextContext(s, request), Built(t, s, NextContext(s, request)).value);
            && next.runs == s.runs && next.activeRuns == s.activeRuns && next.projectFence == s.projectFence + 1
            && (next.publishLease == s.publishLease || next.publishLease.None? || LeaseNames(next.publishLease, t.jobId))
  {
  }

  lemma LeaseIsBound(owners: map<JobId, Owner>, bindings: map<TaskPath, JobId>, lease: Option<PublishLease>,
                     job: JobId, next: Option<PublishLease>)
    requires Bound(owners, bindings, lease) && job in owners && Owns(bindings, owners[job])
    requires next == lease || next.None? || LeaseNames(next, job)
    ensures Bound(owners, bindings, next)
  {
  }

  lemma LeaseHolderOwns(s: ProjectState, request: Request, t: Transition)
    requires ProjectInv(s) && (t.AcquireLease? || t.ReleaseLease?) && Carries(request, t) && Decide(s, request).Proceed?
    ensures t.jobId in s.runs && Owns(s.activeRuns, OwnerOf(s.runs[t.jobId]))
  {
    ProceedMeansGuarded(s, request, t);
  }

  lemma LeaseStepCommits(s: ProjectState, request: Request, t: Transition)
    requires ProjectInv(s) && (t.AcquireLease? || t.ReleaseLease?) && Carries(request, t)
    requires Decide(s, request).Proceed?
    ensures Attempt(s, request, BuildOf(t)).Committed?
    ensures ProjectInv(Attempt(s, request, BuildOf(t)).state)
  {
    FinalisedLeaseStep(s, request, t);
    AttemptUnfolds(s, request, t);
    LeaseHolderOwns(s, request, t);
    var next := Finalise(s, request, NextContext(s, request), Built(t, s, NextContext(s, request)).value);
    ProjectInvIsBoundAndRuns(s);
    LeaseIsBound(Owners(s.runs), s.activeRuns, s.publishLease, t.jobId, next.publishLease);
    ProjectInvIsBoundAndRuns(next);
  }

  /**
    Every disciplined transition that reaches its builder and is not refused by it commits, and the
    committed project satisfies the whole invariant again.
   */
  lemma DisciplinedTransitionsKeepInvariant(s: ProjectState, request: Request, t: Transition)
    requires ProjectInv(s) && Carries(request, t) && Disciplined(s, t)
    requires Decide(s, request).Proceed? && Built(t, s, NextContext(s, request)).Ok?
    ensures Attempt(s, request, BuildOf(t)).Committed?
    ensures ProjectInv(Attempt(s, request, BuildOf(t)).state)
  {
    match t
    case Execute(_, _, _) => ExecuteCommits(s, request, t);
    case Move(job, step) =>
      ProceedMeansGuarded(s, request, t);
      MoveCommitsUnlessLeased(s, request, job, step);
    case _ => LeaseStepCommits(s, request, t);
  }

  // What a commit did

  // A new run has an identifier of its own.
  predicate FreshRun(s: ProjectState, t: Transition) {
    t.Execute? ==> t.jobId !in s.runs
  }

  ghost predicate LifecycleStep(s: ProjectState, request: Request, t: Transition, next: ProjectState) {
    && Carries(request, t) && FreshRun(s, t)
    && Attempt(s, request, BuildOf(t)).Committed? && Attempt(s, request, BuildOf(t)).state == next
  }

  lemma CommittedReachedBuilder(s: ProjectState, request: Request, t: Transition)
    requires Attempt(s, request, BuildOf(t)).Committed?
    ensures Decide(s, request).Proceed? && Built(t, s, NextContext(s, request)).Ok?
    ensures BuildOf(t)(s, NextContext(s, request)) == Built(t, s, NextContext(s, request))
  {
  }

  lemma OthersStayUnderMove(s: ProjectState, request: Request, mover: JobId, step: RunStep, job: JobId)
    requires Carries(request, Move(mover, step)) && Built(Move(mover, step), s, NextContext(s, request)).Ok?
    requires job in s.runs && mover != job
    ensures var draft := Built(Move(mover, step), s, NextContext(s, request)).value;
            var next := Finalise(s, request, NextContext(s, request), draft);
            job in next.runs && next.runs[job] == s.runs[job]
  {
    FinalisedMove(s, request, NextContext(s, request), mover, step, StepRun(step, s.runs[mover]).value);
  }

  lemma OthersStayInBuild(s: ProjectState, request: Request, t: Transition, job: JobId)
    requires Carries(request, t) && FreshRun(s, t) && Decide(s, request).Proceed?
    requires Built(t, s, NextContext(s, request)).Ok? && job in s.runs && (t.Execute? || t.jobId != job)
    ensures var next := Finalise(s, request, NextContext(s, request), Built(t, s, NextContext(s, request)).value);
            job in next.runs && next.runs[job] == s.runs[job]
  {
    match t
    case Execute(_, _, _) => FinalisedExecute(s, request, t);
    case Move(mover, step) => OthersStayUnderMove(s, request, mover, step, job);
    case _ => FinalisedLeaseStep(s, request, t);
  }

  lemma OthersStay(s: ProjectState, request: Request, t: Transition, next: ProjectState, job: JobId)
    requires LifecycleStep(s, request, t, next) && job in s.runs && (t.Execute? || t.jobId != job)
    ensures job in next.runs && next.runs[job] == s.runs[job]
  {
    CommittedReachedBuilder(s, request, t);
    AttemptUnfolds(s, request, t);
    OthersStayInBuild(s, request, t, job);
  }

  /** The run a committed move leaves, and the lease. */
  lemma CommittedMoves(s: ProjectState, request: Request, job: JobId, step: RunStep, next: ProjectState)
    requires LifecycleStep(s, request, Move(job, step), next)
    ensures job in s.runs && StepRun(step, s.runs[job]).Ok? && ValidProject(next)
    ensures var moved := StepRun(step, s.runs[job]).value;
            && next.runs == s.runs[job := moved.(fence := FinalFence(request, NextContext(s, request), moved))]
            && next.activeRuns == (if EndsRun(step) then s.activeRuns - {s.runs[job].taskPath} else s.activeRuns)
            && next.publishLease == LeaseAfter(s.publishLease, job, step, s.runs[job])
            && next.projectFence == s.projectFence + 1
  {
    CommittedReachedBuilder(s, request, Move(job, step));
    AttemptUnfolds(s, request, Move(job, step));
    FinalisedMove(s, request, NextContext(s, request), job, step, StepRun(step, s.runs[job]).value);
  }

  lemma MoveReaches(s: ProjectState, request: Request, job: JobId, step: RunStep, next: ProjectState)
    requires ValidProject(s) && LifecycleStep(s, request, Move(job, step), next)
    ensures job in s.runs && Reaches(step, s.runs[job]) && request.expectedJobId == Some(job) && Decide(s, request).Proceed?
  {
    CommittedReachedBuilder(s, request, Move(job, step));
    ProceedMeansGuarded(s, request, Move(job, step));
  }
}
