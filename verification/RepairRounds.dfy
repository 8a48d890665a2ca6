/**
  The stored repair rounds of a project: a round of an empty candidate is always the one the coordinator makes of it
  (apps/daemon/src/repair/repair-coordinator.ts, prepare; apps/daemon/src/worker/worker-runner.ts).
 */
module RepairRounds {
  import opened Wrappers
  import opened ProjectModel
  import opened MutationExecutor
  import opened RunSteps
  import opened RunTransitions
  import opened LifecycleInvariant
  import opened ProjectLifecycle
  import opened DaemonTasks
  import opened LifecycleResults
  import opened RepairLoop

  // A run that is repaired for an empty candidate, and not for a review, has one.
  predicate EmptyMarkFits(run: RunRecord) {
    run.phase == Fixing && CandidateWasEmpty(run) && run.review.None? ==>
      run.candidate.Some? && run.candidate.value.operations == []
  }

  predicate RoundsFit(run: RunRecord) {
    EmptyRoundFits(run) && EmptyMarkFits(run)
  }

  // What the coordinator hands to a repair step is the round it made of the run it read, earlier or now.
  ghost predicate IsPrepared(step: RepairStep, read: RunRecord) {
    read.phase == Fixing && exists fix :: RoundOf(read, fix) == Ok(step.round)
  }

  lemma PreparedRoundFits(read: RunRecord, fix: string, next: RunRecord)
    requires RoundsFit(read) && read.phase == Fixing && RoundOf(read, fix).Ok?
    requires next.repairRound == Some(RoundOf(read, fix).value) && next.manifest == read.manifest
    ensures EmptyRoundFits(next)
  {
  }

  lemma RepairKeepsRounds(step: RepairStep, read: RunRecord, run: RunRecord)
    requires RoundsFit(read) && IsPrepared(step, read) && read.manifest == run.manifest
    requires RoundsFit(run) && Reaches(RepairMove(step), run)
    ensures RoundsFit(StepRepair(step, run).value)
  {
    var fix :| RoundOf(read, fix) == Ok(step.round);
    PreparedRoundFits(read, fix, StepRepair(step, run).value);
  }

  lemma WorkerKeepsRounds(step: WorkerStep, run: RunRecord)
    requires RoundsFit(run) && Reaches(WorkerMove(step), run)
    ensures RoundsFit(StepWorker(step, run).value)
  {
  }

  lemma ReviewKeepsRounds(step: ReviewStep, run: RunRecord)
    requires RoundsFit(run) && Reaches(ReviewMove(step), run)
    ensures RoundsFit(StepReview(step, run).value)
  {
  }

  lemma PublishKeepsRounds(step: PublishStep, run: RunRecord)
    requires RoundsFit(run) && Reaches(PublishMove(step), run)
    ensures RoundsFit(StepPublish(step, run).value)
  {
  }

  lemma ControlKeepsRounds(step: ControlStep, run: RunRecord)
    requires RoundsFit(run) && Reaches(ControlMove(step), run)
    ensures RoundsFit(StepControl(step, run).value)
  {
  }

  lemma StepKeepsRounds(step: RunStep, run: RunRecord)
    requires RoundsFit(run) && Reaches(step, run) && !step.RepairMove?
    ensures RoundsFit(StepRun(step, run).value)
  {
    match step
    case WorkerMove(worker) => WorkerKeepsRounds(worker, run);
    case ReviewMove(review) => ReviewKeepsRounds(review, run);
    case PublishMove(publish) => PublishKeepsRounds(publish, run);
    case RecoveryMove(_) =>
    case ControlMove(control) => ControlKeepsRounds(control, run);
  }

  ghost predicate AllRoundsFit(s: ProjectState) {
    forall job | job in s.runs :: RoundsFit(s.runs[job])
  }

  lemma RefencedRoundsFit(moved: RunRecord, next: RunRecord, run: RunRecord)
    requires RoundsFit(moved) && Refenced(run, moved, next)
    ensures RoundsFit(next)
  {
  }

  lemma NewRunHasNoRound(s: ProjectState, request: Request, t: Transition, next: ProjectState, job: JobId)
    requires LifecycleStep(s, request, t, next) && job in next.runs && job !in s.runs
    ensures RoundsFit(next.runs[job])
  {
    CommittedReachedBuilder(s, request, t);
    AttemptUnfolds(s, request, t);
    match t
    case Execute(_, _, _) => FinalisedExecute(s, request, t);
    case Move(mover, step) => CommittedMoves(s, request, mover, step, next);
    case _ => FinalisedLeaseStep(s, request, t);
  }

  // In a project, with the state the coordinator read

  ghost predicate IsRepairOf(t: Transition, read: ProjectState)
    requires t.Move? && t.step.RepairMove?
  {
    t.jobId in read.runs && IsPrepared(t.step.repair, read.runs[t.jobId])
  }

  ghost predicate ReadRoundsFit(t: Transition, read: ProjectState, s: ProjectState) {
    t.Move? && t.step.RepairMove? ==>
      && t.jobId in s.runs && IsRepairOf(t, read) && RoundsFit(read.runs[t.jobId])
      && read.runs[t.jobId].manifest == s.runs[t.jobId].manifest
  }

  lemma MoveKeepsRounds(s: ProjectState, request: Request, job: JobId, step: RunStep, next: ProjectState, read: ProjectState)
    requires ProjectInv(s) && AllRoundsFit(s) && LifecycleStep(s, request, Move(job, step), next)
    requires ReadRoundsFit(Move(job, step), read, s)
    ensures job in next.runs && RoundsFit(next.runs[job])
  {
    MoveReaches(s, request, job, step, next);
    MovedIsRefenced(s, request, job, step, next);
    if step.RepairMove? {
      RepairKeepsRounds(step.repair, read.runs[job], s.runs[job]);
    } else {
      StepKeepsRounds(step, s.runs[job]);
    }
    RefencedRoundsFit(StepRun(step, s.runs[job]).value, next.runs[job], s.runs[job]);
  }

  lemma CommitKeepsRounds(s: ProjectState, request: Request, t: Transition, next: ProjectState, read: ProjectState)
    requires ProjectInv(s) && AllRoundsFit(s) && LifecycleStep(s, request, t, next) && ReadRoundsFit(t, read, s)
    ensures AllRoundsFit(next)
  {
    forall job | job in next.runs ensures RoundsFit(next.runs[job]) {
      if t.Move? && t.jobId == job {
        MoveKeepsRounds(s, request, job, t.step, next, read);
      } else if job in s.runs {
        OtherRunsStay(s, request, t, next, job);
      } else {
        NewRunHasNoRound(s, request, t, next, job);
      }
    }
  }

  // Over whole histories

  lemma ManifestStays(s: ProjectState, request: Request, t: Transition, next: ProjectState, job: JobId)
    requires ProjectInv(s) && LifecycleStep(s, request, t, next) && job in s.runs
    ensures job in next.runs && next.runs[job].manifest == s.runs[job].manifest
  {
    if t.Move? && t.jobId == job {
      MovedIsRefenced(s, request, job, t.step, next);
    } else {
      OtherRunsStay(s, request, t, next, job);
    }
  }

  lemma NextManifestStays(
    states: seq<ProjectState>, requests: seq<Request>, transitions: seq<Transition>, tasks: seq<Tasks>, i: nat, job: JobId)
    requires LifecycleHistory(states, requests, transitions, tasks) && i < |requests| && job in states[i].runs
    ensures job in states[i + 1].runs && states[i + 1].runs[job].manifest == states[i].runs[job].manifest
  {
    HistoriesKeepInvariant(states, requests, transitions, tasks, i);
    StepOf(states, requests, transitions, tasks, i);
    ManifestStays(states[i], requests[i], transitions[i], states[i + 1], job);
  }

  lemma {:induction false} ManifestsStay(
    states: seq<ProjectState>, requests: seq<Request>, transitions: seq<Transition>, tasks: seq<Tasks>, r: nat, i: nat, job: JobId)
    requires LifecycleHistory(states, requests, transitions, tasks) && r <= i < |states| && job in states[r].runs
    ensures job in states[i].runs && states[i].runs[job].manifest == states[r].runs[job].manifest
    decreases i
  {
    if r < i {
      ManifestsStay(states, requests, transitions, tasks, r, i - 1, job);
      NextManifestStays(states, requests, transitions, tasks, i - 1, job);
    }
  }

  // The coordinator computes the round of its k-th commit from one of the states before it.
  ghost predicate ReadsBefore(states: seq<ProjectState>, t: Transition, k: nat)
    requires k < |states|
  {
    t.Move? && t.step.RepairMove? ==> exists r: nat :: r <= k && IsRepairOf(t, states[r])
  }

  ghost predicate RepairsPrepared(states: seq<ProjectState>, transitions: seq<Transition>)
    requires |transitions| <= |states|
  {
    forall k | 0 <= k < |transitions| :: ReadsBefore(states, transitions[k], k)
  }

  /**
    In every history, with the rounds the coordinator makes, a stored round of an empty candidate names the first
    file of the first task and nothing else: what the end of the repair loop rests on.
   */
  lemma {:induction false} EmptyRoundsFitThroughout(
    states: seq<ProjectState>, requests: seq<Request>, transitions: seq<Transition>, tasks: seq<Tasks>, i: nat)
    requires LifecycleHistory(states, requests, transitions, tasks) && i < |states| && RepairsPrepared(states, transitions)
    ensures AllRoundsFit(states[i])
  {
    if i > 0 {
      EmptyRoundsFitThroughout(states, requests, transitions, tasks, i - 1);
      HistoriesKeepInvariant(states, requests, transitions, tasks, i - 1);
      StepOf(states, requests, transitions, tasks, i - 1);
      var t, read := transitions[i - 1], states[0];
      if t.Move? && t.step.RepairMove? {
        assert ReadsBefore(states, t, i - 1);
        var r: nat :| r <= i - 1 && IsRepairOf(t, states[r]);
        EmptyRoundsFitThroughout(states, requests, transitions, tasks, r);
        ManifestsStay(states, requests, transitions, tasks, r, i - 1, t.jobId);
        read := states[r];
      }
      CommitKeepsRounds(states[i - 1], requests[i - 1], t, states[i], read);
    }
  }

  /** So the repair loop ends from whatever run a history has reached. */
  lemma LoopsOfHistoriesEnd(
    states: seq<ProjectState>, requests: seq<Request>, transitions: seq<Transition>, tasks: seq<Tasks>, i: nat, job: JobId,
    starts: seq<RunRecord>, n: nat)
    requires LifecycleHistory(states, requests, transitions, tasks) && i < |states| && job in states[i].runs
    requires RepairsPrepared(states, transitions)
    requires n < |starts| && starts[0] == states[i].runs[job]
    requires forall k | 0 <= k < |starts| - 1 :: OneRound(starts[k], starts[k + 1])
    ensures Rank(starts[n]) + n <= Rank(starts[0]) && n < 1024
  {
    EmptyRoundsFitThroughout(states, requests, transitions, tasks, i);
    RepairLoopEnds(starts, n);
  }
}
