/**
  The automatic repair loop: scope, progress, and why it ends (packages/review/src/repair-loop.ts,
  apps/daemon/src/repair/repair-coordinator.ts, apps/daemon/src/worker/worker-runner.ts,
  apps/daemon/src/review/review-coordinator.ts).
 */
module RepairLoop {
  import opened Wrappers
  import opened ProjectModel
  import opened ReviewRules
  import opened RunSteps
  import CandidateBuilder
  import Snapshot

  const NO_PROGRESS_THRESHOLD: nat := 15
  const EMPTY_CANDIDATE := "candidate:EMPTY:WORKER_CANDIDATE_EMPTY"

  // Scope

  datatype ScopeReason = TaskOutOfScope(taskId: string) | PathOutOfScope(taskId: string, path: Path)

  /** A map built from a list keeps the last task of each id. */
  function ManifestTaskOf(tasks: seq<ManifestTask>, id: string): (r: Option<ManifestTask>)
    ensures r.Some? ==> r.value in tasks && r.value.id == id
    ensures r.None? ==> forall t | t in tasks :: t.id != id
  {
    if tasks == [] then None
    else
      var n := |tasks| - 1;
      assert tasks == tasks[..n] + [tasks[n]];
      if tasks[n].id == id then Some(tasks[n]) else ManifestTaskOf(tasks[..n], id)
  }

  // The issues of one task whose path its manifest entry does not list, in order
  function StrayIssues(taskId: string, allowed: seq<Path>, issues: seq<Issue>): seq<ScopeReason> {
    if issues == [] then []
    else
      var n := |issues| - 1;
      StrayIssues(taskId, allowed, issues[..n]) +
      if issues[n].path in allowed then [] else [PathOutOfScope(taskId, issues[n].path)]
  }

  function TaskReasons(manifest: TaskManifest, t: TaskReview): seq<ScopeReason> {
    var known := ManifestTaskOf(manifest.tasks, t.id);
    if known.None? then [TaskOutOfScope(t.id)] else StrayIssues(t.id, known.value.filePaths, t.issues)
  }

  function ScopeReasons(manifest: TaskManifest, tasks: seq<TaskReview>): seq<ScopeReason> {
    if tasks == [] then []
    else ScopeReasons(manifest, tasks[..|tasks| - 1]) + TaskReasons(manifest, tasks[|tasks| - 1])
  }

  method AssessRepairScope(manifest: TaskManifest, tasks: seq<TaskReview>) returns (inScope: bool, reasons: seq<ScopeReason>)
    ensures reasons == ScopeReasons(manifest, tasks)
    ensures inScope <==> reasons == []
  {
    reasons := [];
    for i := 0 to |tasks|
      invariant reasons == ScopeReasons(manifest, tasks[..i])
    {
      assert tasks[..i + 1][..i] == tasks[..i];
      var reviewTask := tasks[i];
      var manifestTask := ManifestTaskOf(manifest.tasks, reviewTask.id);
      if manifestTask.None? {
        reasons := reasons + [TaskOutOfScope(reviewTask.id)];
        continue;
      }
      var filePaths, before := manifestTask.value.filePaths, reasons;
      for j := 0 to |reviewTask.issues|
        invariant reasons == before + StrayIssues(reviewTask.id, filePaths, reviewTask.issues[..j])
      {
        assert reviewTask.issues[..j + 1][..j] == reviewTask.issues[..j];
        if reviewTask.issues[j].path !in filePaths {
          reasons := reasons + [PathOutOfScope(reviewTask.id, reviewTask.issues[j].path)];
        }
      }
      assert reviewTask.issues[..|reviewTask.issues|] == reviewTask.issues;
    }
    assert tasks[..|tasks|] == tasks;
    inScope := reasons == [];
  }

  ghost predicate TaskInScope(manifest: TaskManifest, t: TaskReview) {
    var known := ManifestTaskOf(manifest.tasks, t.id);
    known.Some? && forall issue | issue in t.issues :: issue.path in known.value.filePaths
  }

  lemma {:induction false} NoStrayIssues(taskId: string, allowed: seq<Path>, issues: seq<Issue>)
    ensures StrayIssues(taskId, allowed, issues) == [] <==> forall issue | issue in issues :: issue.path in allowed
  {
    if issues != [] {
      var n := |issues| - 1;
      assert issues == issues[..n] + [issues[n]];
      NoStrayIssues(taskId, allowed, issues[..n]);
    }
  }

  /** No reason is found exactly when every reviewed task is a manifest task and every issue is on one of its files. */
  lemma {:induction false} NoReasonsMeansInScope(manifest: TaskManifest, tasks: seq<TaskReview>)
    ensures ScopeReasons(manifest, tasks) == [] <==> forall t | t in tasks :: TaskInScope(manifest, t)
  {
    if tasks != [] {
      var n := |tasks| - 1;
      assert tasks == tasks[..n] + [tasks[n]];
      NoReasonsMeansInScope(manifest, tasks[..n]);
      var known := ManifestTaskOf(manifest.tasks, tasks[n].id);
      if known.Some? {
        NoStrayIssues(tasks[n].id, known.value.filePaths, tasks[n].issues);
      }
      assert ScopeReasons(manifest, tasks) == ScopeReasons(manifest, tasks[..n]) + TaskReasons(manifest, tasks[n]);
      assert TaskInScope(manifest, tasks[n]) <==> TaskReasons(manifest, tasks[n]) == [];
    }
  }

  lemma MoreReasons(manifest: TaskManifest, tasks: seq<TaskReview>, t: TaskReview)
    ensures ScopeReasons(manifest, tasks + [t]) == ScopeReasons(manifest, tasks) + TaskReasons(manifest, t)
  {
    assert (tasks + [t])[..|tasks|] == tasks;
  }

  /** What a list of two parts is held against is what each part is, in order. */
  lemma {:induction false} ReasonsComeInOrder(manifest: TaskManifest, early: seq<TaskReview>, late: seq<TaskReview>)
    ensures ScopeReasons(manifest, early + late) == ScopeReasons(manifest, early) + ScopeReasons(manifest, late)
  {
    if late == [] {
      assert early + late == early;
    } else {
      var n := |late| - 1;
      assert early + late == (early + late[..n]) + [late[n]] && late == late[..n] + [late[n]];
      ReasonsComeInOrder(manifest, early, late[..n]);
      MoreReasons(manifest, early + late[..n], late[n]);
      MoreReasons(manifest, late[..n], late[n]);
    }
  }

  lemma {:induction false} StrayIssuesComeInOrder(taskId: string, allowed: seq<Path>, early: seq<Issue>, late: seq<Issue>)
    ensures StrayIssues(taskId, allowed, early + late) == StrayIssues(taskId, allowed, early) + StrayIssues(taskId, allowed, late)
  {
    if late == [] {
      assert early + late == early;
    } else {
      var n, all := |late| - 1, early + late;
      assert all[..|all| - 1] == early + late[..n] && all[|all| - 1] == late[n];
      StrayIssuesComeInOrder(taskId, allowed, early, late[..n]);
    }
  }

  // The last manifest task of an id is the one a reviewed task is held against.
  predicate IsLastOfId(tasks: seq<ManifestTask>, i: nat) {
    i < |tasks| && forall j | i < j < |tasks| :: tasks[j].id != tasks[i].id
  }

  lemma {:induction false} LastOfIdCounts(tasks: seq<ManifestTask>, i: nat)
    requires IsLastOfId(tasks, i)
    ensures ManifestTaskOf(tasks, tasks[i].id) == Some(tasks[i])
  {
    if i < |tasks| - 1 {
      LastOfIdCounts(tasks[..|tasks| - 1], i);
    }
  }

  ghost predicate IsReason(manifest: TaskManifest, t: TaskReview, reason: ScopeReason) {
    match reason
    case TaskOutOfScope(taskId) => t.id == taskId && forall m | m in manifest.tasks :: m.id != taskId
    case PathOutOfScope(taskId, path) =>
      && t.id == taskId && (exists issue :: issue in t.issues && issue.path == path)
      && exists i: nat :: IsLastOfId(manifest.tasks, i) && manifest.tasks[i].id == taskId && path !in manifest.tasks[i].filePaths
  }

  lemma {:induction false} StrayIssuesAre(taskId: string, allowed: seq<Path>, issues: seq<Issue>, reason: ScopeReason)
    ensures reason in StrayIssues(taskId, allowed, issues) <==>
              && reason.PathOutOfScope? && reason.taskId == taskId && reason.path !in allowed
              && exists issue :: issue in issues && issue.path == reason.path
  {
    if issues != [] {
      var n := |issues| - 1;
      assert issues == issues[..n] + [issues[n]];
      StrayIssuesAre(taskId, allowed, issues[..n], reason);
    }
  }

  lemma {:induction false} ManifestTaskIsLast(tasks: seq<ManifestTask>, id: string) returns (i: nat)
    requires ManifestTaskOf(tasks, id).Some?
    ensures IsLastOfId(tasks, i) && tasks[i].id == id && ManifestTaskOf(tasks, id) == Some(tasks[i])
  {
    i := |tasks| - 1;
    if tasks[i].id != id {
      i := ManifestTaskIsLast(tasks[..i], id);
    }
  }

  lemma OneTaskReasons(manifest: TaskManifest, t: TaskReview, reason: ScopeReason)
    ensures reason in ScopeReasons(manifest, [t]) <==> IsReason(manifest, t, reason)
  {
    var known := ManifestTaskOf(manifest.tasks, t.id);
    assert [t][..0] == [];
    assert ScopeReasons(manifest, [t]) == TaskReasons(manifest, t);
    if known.Some? {
      var last := ManifestTaskIsLast(manifest.tasks, t.id);
      StrayIssuesAre(t.id, known.value.filePaths, t.issues, reason);
    }
    if reason.PathOutOfScope? && IsReason(manifest, t, reason) {
      var i: nat :| IsLastOfId(manifest.tasks, i) && manifest.tasks[i].id == reason.taskId && reason.path !in manifest.tasks[i].filePaths;
      LastOfIdCounts(manifest.tasks, i);
    }
  }

  /** A reason is given exactly when some reviewed task is unknown, or has an issue on a file its own task does not name. */
  lemma {:induction false} ReasonsExactly(manifest: TaskManifest, tasks: seq<TaskReview>, reason: ScopeReason)
    ensures reason in ScopeReasons(manifest, tasks) <==> exists t :: t in tasks && IsReason(manifest, t, reason)
  {
    if tasks != [] {
      var n := |tasks| - 1;
      assert tasks == tasks[..n] + [tasks[n]];
      ReasonsExactly(manifest, tasks[..n], reason);
      ReasonsComeInOrder(manifest, tasks[..n], [tasks[n]]);
      OneTaskReasons(manifest, tasks[n], reason);
    }
  }

  // Progress

  // Task ids contain no colon, so the source's problem strings tell these apart.
  datatype Problem = FailureProblem(id: string) | IssueProblem(taskId: string, path: Path)

  function StableProblems(round: RepairRound): set<Problem> {
    (set id | id in round.failureIds :: FailureProblem(id)) +
    (set t, issue | t in round.tasks && issue in t.issues :: IssueProblem(t.id, issue.path))
  }

  function IssuePaths(tasks: seq<TaskReview>): set<Path> {
    set t, issue | t in tasks && issue in t.issues :: issue.path
  }

  function HashAt(round: RepairRound, path: Path): Option<Option<Snapshot.Digest>> {
    if path in round.pathHashes then Some(round.pathHashes[path]) else None
  }

  predicate RelevantPathsChanged(previous: RepairRound, current: RepairRound) {
    exists path :: path in IssuePaths(previous.tasks) + IssuePaths(current.tasks) && HashAt(previous, path) != HashAt(current, path)
  }

  function NoProgressAfter(previous: RepairRound, current: RepairRound, existing: int): int {
    if StableProblems(current) == {} || StableProblems(current) < StableProblems(previous) || RelevantPathsChanged(previous, current)
    then 0 else existing + 1
  }

  // Progress, in terms of the tasks, their issues and the hashes of their files

  ghost predicate Raises(round: RepairRound, taskId: string, path: Path) {
    exists t, issue :: t in round.tasks && t.id == taskId && issue in t.issues && issue.path == path
  }

  ghost predicate Mentions(round: RepairRound, path: Path) {
    exists taskId :: Raises(round, taskId, path)
  }

  predicate SameHashAt(previous: RepairRound, current: RepairRound, path: Path) {
    && (path in previous.pathHashes <==> path in current.pathHashes)
    && (path in previous.pathHashes ==> previous.pathHashes[path] == current.pathHashes[path])
  }

  ghost predicate FileMoved(previous: RepairRound, current: RepairRound) {
    exists path :: (Mentions(previous, path) || Mentions(current, path)) && !SameHashAt(previous, current, path)
  }

  predicate NothingLeft(round: RepairRound) {
    round.failureIds == [] && forall t | t in round.tasks :: t.issues == []
  }

  ghost predicate FewerProblems(previous: RepairRound, current: RepairRound) {
    && (forall id | id in current.failureIds :: id in previous.failureIds)
    && (forall taskId, path | Raises(current, taskId, path) :: Raises(previous, taskId, path))
    && ((exists id :: id in previous.failureIds && id !in current.failureIds) ||
        (exists taskId, path :: Raises(previous, taskId, path) && !Raises(current, taskId, path)))
  }

  ghost predicate MadeProgress(previous: RepairRound, current: RepairRound) {
    NothingLeft(current) || FewerProblems(previous, current) || FileMoved(previous, current)
  }

  lemma ProblemsOf(round: RepairRound)
    ensures forall id :: FailureProblem(id) in StableProblems(round) <==> id in round.failureIds
    ensures forall taskId, path :: IssueProblem(taskId, path) in StableProblems(round) <==> Raises(round, taskId, path)
    ensures StableProblems(round) == {} <==> NothingLeft(round)
  {
    var problems := StableProblems(round);
    forall taskId, path | Raises(round, taskId, path) ensures IssueProblem(taskId, path) in problems {
      var t, issue :| t in round.tasks && t.id == taskId && issue in t.issues && issue.path == path;
      assert IssueProblem(t.id, issue.path) in problems;
    }
    if round.failureIds != [] {
      assert FailureProblem(round.failureIds[0]) in problems;
    }
    forall t | t in round.tasks && t.issues != [] ensures problems != {} {
      assert t.issues[0] in t.issues;
      assert IssueProblem(t.id, t.issues[0].path) in problems;
    }
  }

  lemma FewerProblemsIsSubset(previous: RepairRound, current: RepairRound)
    ensures StableProblems(current) < StableProblems(previous) <==> FewerProblems(previous, current)
  {
    var before, now := StableProblems(previous), StableProblems(current);
    ProblemsOf(previous);
    ProblemsOf(current);
    if now < before {
      var gone :| gone in before && gone !in now;
      if gone.FailureProblem? {
        assert gone.id in previous.failureIds && gone.id !in current.failureIds;
      } else {
        assert Raises(previous, gone.taskId, gone.path) && !Raises(current, gone.taskId, gone.path);
      }
    }
    if FewerProblems(previous, current) {
      forall p | p in now ensures p in before {
        assert p.FailureProblem? || Raises(current, p.taskId, p.path);
      }
    }
  }

  lemma IssuePathsAreMentioned(round: RepairRound, path: Path)
    ensures path in IssuePaths(round.tasks) <==> Mentions(round, path)
  {
    if path in IssuePaths(round.tasks) {
      var t, issue :| t in round.tasks && issue in t.issues && issue.path == path;
      assert Raises(round, t.id, path);
    }
  }

  lemma ChangedPathsMoved(previous: RepairRound, current: RepairRound)
    ensures RelevantPathsChanged(previous, current) <==> FileMoved(previous, current)
  {
    forall path ensures path in IssuePaths(previous.tasks) + IssuePaths(current.tasks) <==>
                          Mentions(previous, path) || Mentions(current, path) {
      IssuePathsAreMentioned(previous, path);
      IssuePathsAreMentioned(current, path);
    }
    forall path ensures HashAt(previous, path) == HashAt(current, path) <==> SameHashAt(previous, current, path) {
    }
    if RelevantPathsChanged(previous, current) {
      var path :| path in IssuePaths(previous.tasks) + IssuePaths(current.tasks) && HashAt(previous, path) != HashAt(current, path);
      assert (Mentions(previous, path) || Mentions(current, path)) && !SameHashAt(previous, current, path);
    }
    if FileMoved(previous, current) {
      var path :| (Mentions(previous, path) || Mentions(current, path)) && !SameHashAt(previous, current, path);
      assert path in IssuePaths(previous.tasks) + IssuePaths(current.tasks) && HashAt(previous, path) != HashAt(current, path);
    }
  }

  /**
    The count starts again exactly when nothing is left, the problems have become fewer, or a file that an issue of
    either round names has another hash, or one in only one of the rounds; otherwise it goes up by one.
   */
  lemma ProgressExactly(previous: RepairRound, current: RepairRound, existing: int)
    ensures NoProgressAfter(previous, current, existing) == if MadeProgress(previous, current) then 0 else existing + 1
  {
    ProblemsOf(current);
    FewerProblemsIsSubset(previous, current);
    ChangedPathsMoved(previous, current);
  }

  // Preparing a repair

  datatype Preparation =
    | Unprepared(message: string)
    | NeedsApproval(round: RepairRound)
    | NoProgress(round: RepairRound, noProgressCount: int)
    | Continues(round: RepairRound, noProgressCount: int)

  function PathHashes(operations: seq<CandidateBuilder.CandidateOperation>): map<Path, Option<Snapshot.Digest>> {
    if operations == [] then map[]
    else
      var op := operations[|operations| - 1];
      PathHashes(operations[..|operations| - 1])[op.path := if op.Delete? then None else Some(op.newEntry.sha256)]
  }

  /** The last operation on a path says its hash; a path of no operation has none. */
  lemma {:induction false} HashesAreTheLast(operations: seq<CandidateBuilder.CandidateOperation>, path: Path)
    ensures path in PathHashes(operations) <==> exists op :: op in operations && op.path == path
    ensures forall i | 0 <= i < |operations| && operations[i].path == path &&
                       (forall j | i < j < |operations| :: operations[j].path != path) ::
              PathHashes(operations)[path] == if operations[i].Delete? then None else Some(operations[i].newEntry.sha256)
  {
    if operations != [] {
      var n := |operations| - 1;
      assert operations == operations[..n] + [operations[n]];
      HashesAreTheLast(operations[..n], path);
    }
  }

  // The single task a repair without a review works on
  function ParentTask(manifest: TaskManifest, message: string, fix: string): Option<seq<TaskReview>> {
    if manifest.tasks == [] || manifest.tasks[0].filePaths == [] then None
    else Some([TaskReview(manifest.tasks[0].id, 0, [Issue(manifest.tasks[0].filePaths[0], message, Some(fix))])])
  }

  predicate CandidateWasEmpty(run: RunRecord) {
    run.lastError.Some? && run.lastError.value.code == "WORKER_CANDIDATE_EMPTY"
  }

  predicate RepairDecided(run: RunRecord) {
    && run.review.Some? && run.leaderDecision.Some?
    && run.leaderDecision.value.decision == Repair && run.leaderDecision.value.review == run.review.value
    && Repair in run.review.value.gate.allowed
  }

  /** `fix` is the advice the source words from the hash of an empty candidate. */
  function RoundOf(run: RunRecord, fix: string): Result<RepairRound, string> {
    if run.candidate.None? then Err("REPAIR_CANDIDATE_MISSING")
    else
      var hashes := PathHashes(run.candidate.value.operations);
      if run.review.Some? then
        var tasks := run.review.value.gate.result.tasks;
        if !RepairDecided(run) then Err("REPAIR_LEADER_DECISION_INVALID")
        else if forall t | t in tasks :: t.issues == [] then Err("REPAIR_REVIEW_HAS_NO_ISSUES")
        else Ok(RepairRound([], tasks, hashes))
      else
        var empty := CandidateWasEmpty(run);
        var tasks :=
          if empty then ParentTask(run.manifest, "Worker completed without producing a changed Candidate", fix)
          else ParentTask(run.manifest, "The current Candidate requires a corrective pass",
                          "Implement the approved task acceptance criteria in the named file");
        if tasks.None? then Err("REPAIR_PARENT_TASK_MISSING")
        else Ok(RepairRound(if empty then [EMPTY_CANDIDATE] else [], tasks.value, hashes))
  }

  // The round of a review is its tasks, and needs a decision for it and an issue in it.
  ghost predicate IsRoundOfReview(run: RunRecord, r: Result<RepairRound, string>)
    requires run.review.Some?
  {
    var tasks := run.review.value.gate.result.tasks;
    && (r.Ok? <==>
          && run.candidate.Some? && run.leaderDecision.Some?
          && run.leaderDecision.value == LeaderDecision(run.review.value, Repair) && Repair in run.review.value.gate.allowed
          && exists t, issue :: t in tasks && issue in t.issues)
    && (r.Ok? ==> r.value.tasks == tasks && r.value.failureIds == [])
  }

  // Without a review it is one issue on the first file of the first task, and a failure if the candidate was empty.
  predicate IsRoundOfCandidate(run: RunRecord, r: Result<RepairRound, string>) {
    && (r.Ok? <==> run.candidate.Some? && run.manifest.tasks != [] && run.manifest.tasks[0].filePaths != [])
    && (r.Ok? ==>
          && |r.value.tasks| == 1 && r.value.tasks[0].id == run.manifest.tasks[0].id && |r.value.tasks[0].issues| == 1
          && r.value.tasks[0].completion == 0 && r.value.tasks[0].issues[0].path == run.manifest.tasks[0].filePaths[0]
          && (run.lastError.Some? && run.lastError.value.code == "WORKER_CANDIDATE_EMPTY" <==> r.value.failureIds == [EMPTY_CANDIDATE])
          && (r.value.failureIds != [EMPTY_CANDIDATE] ==> r.value.failureIds == []))
  }

  lemma ReviewRoundExactly(run: RunRecord, fix: string)
    requires run.review.Some?
    ensures IsRoundOfReview(run, RoundOf(run, fix))
  {
    var tasks := run.review.value.gate.result.tasks;
    forall t | t in tasks && t.issues != [] ensures exists issue :: issue in t.issues {
      assert t.issues[0] in t.issues;
    }
  }

  lemma CandidateRoundExactly(run: RunRecord, fix: string)
    requires run.review.None?
    ensures IsRoundOfCandidate(run, RoundOf(run, fix))
  {
    if CandidateWasEmpty(run) {
      ParentTaskIs(run.manifest, "Worker completed without producing a changed Candidate", fix);
    } else {
      ParentTaskIs(run.manifest, "The current Candidate requires a corrective pass",
                   "Implement the approved task acceptance criteria in the named file");
    }
  }

  lemma ParentTaskIs(manifest: TaskManifest, message: string, fix: string)
    ensures var tasks := ParentTask(manifest, message, fix);
            && (tasks.Some? <==> manifest.tasks != [] && manifest.tasks[0].filePaths != [])
            && (tasks.Some? ==>
                  |tasks.value| == 1 && tasks.value[0] == TaskReview(manifest.tasks[0].id, 0, tasks.value[0].issues) &&
                  tasks.value[0].issues == [Issue(manifest.tasks[0].filePaths[0], message, Some(fix))])
  {
  }

  /** What a repair works on. */
  lemma RoundExactly(run: RunRecord, fix: string)
    ensures if run.review.Some? then IsRoundOfReview(run, RoundOf(run, fix)) else IsRoundOfCandidate(run, RoundOf(run, fix))
    ensures RoundOf(run, fix).Ok? ==> RoundOf(run, fix).value.pathHashes == PathHashes(run.candidate.value.operations)
  {
    if run.review.Some? {
      ReviewRoundExactly(run, fix);
    } else {
      CandidateRoundExactly(run, fix);
    }
  }

  predicate SessionReady(run: RunRecord) {
    && LastAttempt(run).Some? && LastAttempt(run).value.status == AttemptCompleted
    && LastAttempt(run).value.piSessionId.Some? && LastAttempt(run).value.sessionStored
  }

  function Prepare(run: RunRecord, fix: string): Preparation {
    match RoundOf(run, fix)
    case Err(message) => Unprepared(message)
    case Ok(round) =>
      if ScopeReasons(run.manifest, round.tasks) != [] then NeedsApproval(round)
      else
        var count := NoProgressAfter(if run.repairRound.Some? then run.repairRound.value else round, round,
                                     if run.repairRound.Some? then run.noProgressCount else -1);
        if count >= NO_PROGRESS_THRESHOLD then NoProgress(round, count)
        else if !SessionReady(run) then Unprepared("REPAIR_PI_SESSION_MISSING")
        else Continues(round, count)
  }

  predicate HasIssue(round: RepairRound) {
    exists t :: t in round.tasks && t.issues != []
  }

  lemma RoundsHaveIssues(run: RunRecord, fix: string)
    requires RoundOf(run, fix).Ok?
    ensures HasIssue(RoundOf(run, fix).value)
  {
    var round := RoundOf(run, fix).value;
    if run.review.None? {
      assert round.tasks[0] in round.tasks;
    }
  }

  /**
    A repair inside the scope pauses for no progress exactly when the round before it is on record, nothing of
    the three has happened since, and the stored count had reached 14.
   */
  lemma NoProgressPausesExactly(run: RunRecord, fix: string)
    requires RoundOf(run, fix).Ok?
    ensures var round := RoundOf(run, fix).value;
            Prepare(run, fix).NoProgress? <==>
              && ScopeReasons(run.manifest, round.tasks) == [] && run.repairRound.Some?
              && !MadeProgress(run.repairRound.value, round) && run.noProgressCount >= 14
    ensures ScopeReasons(run.manifest, RoundOf(run, fix).value.tasks) != [] <==>
              Prepare(run, fix) == NeedsApproval(RoundOf(run, fix).value)
    ensures Prepare(run, fix).Continues? ==>
              Prepare(run, fix).noProgressCount ==
                if run.repairRound.None? || MadeProgress(run.repairRound.value, RoundOf(run, fix).value) then 0
                else run.noProgressCount + 1
  {
    var round := RoundOf(run, fix).value;
    if run.repairRound.Some? {
      ProgressExactly(run.repairRound.value, round, run.noProgressCount);
    } else {
      ProgressExactly(round, round, -1);
      RoundsHaveIssues(run, fix);
    }
  }

  /** A repair goes on exactly when it is prepared, in scope, makes progress, and the worker left a session to go on in. */
  lemma ContinuesExactly(run: RunRecord, fix: string)
    ensures Prepare(run, fix).Continues? <==>
              && RoundOf(run, fix).Ok? && ScopeReasons(run.manifest, RoundOf(run, fix).value.tasks) == []
              && !Prepare(run, fix).NoProgress?
              && run.attempts != []
              && var a := run.attempts[|run.attempts| - 1];
                 a.status == AttemptCompleted && a.piSessionId.Some? && a.sessionStored
    ensures Prepare(run, fix).Continues? ==> Prepare(run, fix).round == RoundOf(run, fix).value
  {
    CountIsNatural(run, fix);
  }

  lemma CountIsNatural(run: RunRecord, fix: string)
    ensures Prepare(run, fix).Continues? ==> 0 <= Prepare(run, fix).noProgressCount < NO_PROGRESS_THRESHOLD
  {
  }

  /** The run the continuation commits, from PREPARING on. */
  function ContinueRun(run: RunRecord, fix: string): RunRecord
    requires Prepare(run, fix).Continues?
  {
    CountIsNatural(run, fix);
    var a := LastAttempt(run).value;
    Continued(run, Pin(a.attemptId, a.generation), a.piSessionId.value, Prepare(run, fix).round, Prepare(run, fix).noProgressCount).value
  }

  // The loop between two user inputs

  predicate AutomaticStep(step: RunStep) {
    step.WorkerMove? || (step.ReviewMove? && (step.review.BeginReview? || step.review.FinalizeReview?))
  }

  predicate Takes(run: RunRecord, step: RunStep, next: RunRecord) {
    && AutomaticStep(step) && PhasesOf(step).Some? && run.phase in PhasesOf(step).value
    && Pinned(run, PinOf(step)) && StepRun(step, run) == Ok(next)
  }

  ghost predicate AutomaticRun(runs: seq<RunRecord>, steps: seq<RunStep>) {
    && |runs| == |steps| + 1 && runs[0].phase == Preparing
    && forall i | 0 <= i < |steps| :: Takes(runs[i], steps[i], runs[i + 1])
  }

  predicate SameBooks(start: RunRecord, run: RunRecord) {
    && run.autoRepairRounds == start.autoRepairRounds && run.repairRound == start.repairRound
    && run.noProgressCount == start.noProgressCount && run.manifest == start.manifest
  }

  predicate FixesEmpty(start: RunRecord, run: RunRecord) {
    && SameBooks(start, run) && run.review == start.review && CandidateWasEmpty(run)
    && run.candidate.Some? && run.candidate.value.operations == []
  }

  predicate FixesReview(start: RunRecord, run: RunRecord) {
    && run.autoRepairRounds == start.autoRepairRounds + 1 <= REPAIR_ROUND_LIMIT
    && run.review.Some?
  }

  // What the loop has done to the books of the run it started from
  predicate InLoop(start: RunRecord, run: RunRecord) {
    match run.phase
    case Preparing => SameBooks(start, run) && run.review == start.review
    case Running => SameBooks(start, run) && run.review == start.review
    case ReviewPending => SameBooks(start, run)
    case Reviewing => SameBooks(start, run)
    case Fixing => FixesEmpty(start, run) || FixesReview(start, run)
    case _ => true
  }

  lemma WorkerStaysInLoop(start: RunRecord, run: RunRecord, step: WorkerStep, next: RunRecord)
    requires InLoop(start, run) && Takes(run, WorkerMove(step), next)
    ensures InLoop(start, next)
  {
  }

  lemma ReviewStaysInLoop(start: RunRecord, run: RunRecord, step: ReviewStep, next: RunRecord)
    requires InLoop(start, run) && Takes(run, ReviewMove(step), next)
    ensures InLoop(start, next)
  {
  }

  lemma StaysInLoop(start: RunRecord, run: RunRecord, step: RunStep, next: RunRecord)
    requires InLoop(start, run) && Takes(run, step, next)
    ensures InLoop(start, next)
  {
    match step
    case WorkerMove(worker) => WorkerStaysInLoop(start, run, worker, next);
    case ReviewMove(review) => ReviewStaysInLoop(start, run, review, next);
  }

  lemma {:induction false} RunsStayInLoop(runs: seq<RunRecord>, steps: seq<RunStep>, i: nat)
    requires AutomaticRun(runs, steps) && i < |runs|
    ensures InLoop(runs[0], runs[i])
  {
    if i > 0 {
      RunsStayInLoop(runs, steps, i - 1);
      assert Takes(runs[i - 1], steps[i - 1], runs[i - 1 + 1]);
      StaysInLoop(runs[0], runs[i - 1], steps[i - 1], runs[i]);
    }
  }

  // The measure

  function RoundsLeft(run: RunRecord): nat {
    if run.autoRepairRounds >= REPAIR_ROUND_LIMIT then 0 else REPAIR_ROUND_LIMIT - run.autoRepairRounds
  }

  // a review left over from before the last user input
  function StaleReview(run: RunRecord): nat {
    if run.review.Some? then 1 else 0
  }

  function NotEmptyRound(run: RunRecord): nat {
    if run.repairRound.Some? && run.repairRound.value.failureIds == [EMPTY_CANDIDATE] then 0 else 1
  }

  function ProgressLeft(run: RunRecord): nat {
    if run.noProgressCount >= NO_PROGRESS_THRESHOLD then 0 else NO_PROGRESS_THRESHOLD - run.noProgressCount
  }

  predicate Falls(before: RunRecord, after: RunRecord) {
    if RoundsLeft(after) != RoundsLeft(before) then RoundsLeft(after) < RoundsLeft(before)
    else if StaleReview(after) != StaleReview(before) then StaleReview(after) < StaleReview(before)
    else if NotEmptyRound(after) != NotEmptyRound(before) then NotEmptyRound(after) < NotEmptyRound(before)
    else ProgressLeft(after) < ProgressLeft(before)
  }

  // A round of an empty candidate always names the first file of the first task and no path hash.
  predicate IsEmptyRound(manifest: TaskManifest, round: RepairRound) {
    && round.failureIds == [EMPTY_CANDIDATE] && round.pathHashes == map[]
    && manifest.tasks != [] && manifest.tasks[0].filePaths != []
    && |round.tasks| == 1 && round.tasks[0].id == manifest.tasks[0].id
    && |round.tasks[0].issues| == 1 && round.tasks[0].issues[0].path == manifest.tasks[0].filePaths[0]
  }

  predicate EmptyRoundFits(run: RunRecord) {
    run.repairRound.Some? && run.repairRound.value.failureIds == [EMPTY_CANDIDATE] ==>
      IsEmptyRound(run.manifest, run.repairRound.value)
  }

  lemma EmptyRoundProblems(manifest: TaskManifest, round: RepairRound)
    requires IsEmptyRound(manifest, round)
    ensures StableProblems(round) ==
              {FailureProblem(EMPTY_CANDIDATE), IssueProblem(manifest.tasks[0].id, manifest.tasks[0].filePaths[0])}
  {
    var t := round.tasks[0];
    assert t in round.tasks && t.issues[0] in t.issues;
    assert FailureProblem(EMPTY_CANDIDATE) in set id | id in round.failureIds :: FailureProblem(id);
    assert round.tasks == [t] && t.issues == [t.issues[0]];
  }

  lemma SecondEmptyRoundMakesNoProgress(manifest: TaskManifest, previous: RepairRound, current: RepairRound, existing: int)
    requires IsEmptyRound(manifest, previous) && IsEmptyRound(manifest, current)
    ensures NoProgressAfter(previous, current, existing) == existing + 1
  {
    EmptyRoundProblems(manifest, previous);
    EmptyRoundProblems(manifest, current);
  }

  lemma ContinueKeepsBooks(run: RunRecord, fix: string)
    requires Prepare(run, fix).Continues?
    ensures var next := ContinueRun(run, fix);
            && next.phase == Preparing && next.review.None? && next.repairRound == Some(Prepare(run, fix).round)
            && next.noProgressCount == Prepare(run, fix).noProgressCount && next.autoRepairRounds == run.autoRepairRounds
            && next.manifest == run.manifest
            && Prepare(run, fix).round == RoundOf(run, fix).value
  {
    CountIsNatural(run, fix);
  }

  lemma EmptyFixFalls(start: RunRecord, run: RunRecord, fix: string)
    requires FixesEmpty(start, run) && Prepare(run, fix).Continues? && EmptyRoundFits(start)
    ensures Falls(start, ContinueRun(run, fix)) && EmptyRoundFits(ContinueRun(run, fix))
  {
    ContinueKeepsBooks(run, fix);
    var next, round := ContinueRun(run, fix), RoundOf(run, fix).value;
    if run.review.None? {
      assert IsEmptyRound(run.manifest, round);
      if NotEmptyRound(start) == 0 {
        SecondEmptyRoundMakesNoProgress(run.manifest, start.repairRound.value, round, start.noProgressCount);
      }
    }
  }

  /**
    Every automatic round, from PREPARING through FIXING back to PREPARING, makes the measure fall
    lexicographically: repair rounds left, a stale review, not an empty-candidate round, progress left.
   */
  lemma RepairRoundFalls(runs: seq<RunRecord>, steps: seq<RunStep>, fix: string)
    requires AutomaticRun(runs, steps) && EmptyRoundFits(runs[0])
    requires runs[|steps|].phase == Fixing && Prepare(runs[|steps|], fix).Continues?
    ensures Falls(runs[0], ContinueRun(runs[|steps|], fix))
    ensures ContinueRun(runs[|steps|], fix).phase == Preparing && ContinueRun(runs[|steps|], fix).review.None?
    ensures EmptyRoundFits(ContinueRun(runs[|steps|], fix))
  {
    var start, run := runs[0], runs[|steps|];
    RunsStayInLoop(runs, steps, |steps|);
    ContinueKeepsBooks(run, fix);
    if FixesEmpty(start, run) {
      EmptyFixFalls(start, run, fix);
    }
  }

  // How long the loop can go on

  function Rank(run: RunRecord): (r: nat)
    ensures r < 1024
  {
    64 * RoundsLeft(run) + 32 * StaleReview(run) + 16 * NotEmptyRound(run) + ProgressLeft(run)
  }

  // The runs the loop comes back to PREPARING with, one automatic round after the other
  ghost predicate RepairLoopRuns(starts: seq<RunRecord>) {
    && starts != [] && EmptyRoundFits(starts[0])
    && forall i | 0 <= i < |starts| - 1 :: OneRound(starts[i], starts[i + 1])
  }

  ghost predicate OneRound(start: RunRecord, next: RunRecord) {
    exists runs: seq<RunRecord>, steps: seq<RunStep>, fix: string ::
      && AutomaticRun(runs, steps) && runs[0] == start
      && runs[|steps|].phase == Fixing && Prepare(runs[|steps|], fix).Continues? && next == ContinueRun(runs[|steps|], fix)
  }

  /** Without user input the loop goes round fewer than 1024 times: the rank bounds the rounds that are left. */
  lemma {:induction false} RepairLoopEnds(starts: seq<RunRecord>, i: nat)
    requires RepairLoopRuns(starts) && i < |starts|
    ensures Rank(starts[i]) + i <= Rank(starts[0])
    ensures EmptyRoundFits(starts[i])
    ensures i < 1024
  {
    if i > 0 {
      RepairLoopEnds(starts, i - 1);
      assert OneRound(starts[i - 1], starts[i - 1 + 1]);
      OneRoundFalls(starts[i - 1], starts[i]);
    }
  }

  lemma OneRoundFalls(start: RunRecord, next: RunRecord)
    requires OneRound(start, next) && EmptyRoundFits(start)
    ensures Falls(start, next) && EmptyRoundFits(next) && Rank(next) < Rank(start)
  {
    var runs: seq<RunRecord>, steps: seq<RunStep>, fix: string :|
      && AutomaticRun(runs, steps) && runs[0] == start
      && runs[|steps|].phase == Fixing && Prepare(runs[|steps|], fix).Continues? && next == ContinueRun(runs[|steps|], fix);
    RepairRoundFalls(runs, steps, fix);
    FallingLowersRank(start, next);
  }

  lemma FallingLowersRank(before: RunRecord, after: RunRecord)
    requires Falls(before, after)
    ensures Rank(after) < Rank(before)
  {
  }

  // Why a review left over is a component of the measure

  // The measure without it
  predicate FallsWithoutReview(before: RunRecord, after: RunRecord) {
    if RoundsLeft(after) != RoundsLeft(before) then RoundsLeft(after) < RoundsLeft(before)
    else if NotEmptyRound(after) != NotEmptyRound(before) then NotEmptyRound(after) < NotEmptyRound(before)
    else ProgressLeft(after) < ProgressLeft(before)
  }

  // A first review asked for a repair inside the scope.
  predicate FirstRepairDecided(run: RunRecord) {
    && run.phase == Fixing && RepairDecided(run) && run.repairRound.None? && run.noProgressCount == 0
    && !run.driftFromReview && !run.manifest.allowNoChange
    && var tasks := run.review.value.gate.result.tasks;
       ScopeReasons(run.manifest, tasks) == [] && exists t :: t in tasks && t.issues != []
  }

  // The approved source drifts and the user restores it.
  function Restored(run: RunRecord, actionId: string, requestId: string): RunRecord
    requires FirstRepairDecided(run)
  {
    Resumed(Drifted(run, actionId).value, RestoreApprovedTasks, requestId, actionId, true).value
  }

  // A new attempt of the restored run completes without a change.
  function EmptyRoundSteps(pin: Pin, piSessionId: SessionId, candidate: CandidateBuilder.Candidate): seq<RunStep> {
    [WorkerMove(WorkspaceReady), WorkerMove(BeginAttempt(pin.attemptId, pin.generation)),
     WorkerMove(AttemptStarted(pin, piSessionId)), WorkerMove(AttemptEnded(pin, WorkCompleted(piSessionId))),
     WorkerMove(CaptureCandidate(pin, candidate, true, "", ""))]
  }

  function WorkedRun(start: RunRecord, pin: Pin, status: AttemptStatus, piSessionId: Option<SessionId>): RunRecord {
    start.(phase := Running, pause := None, lastError := None,
           attempts := start.attempts +
                       [WorkerAttempt(pin.attemptId, pin.generation, status, piSessionId, status == AttemptCompleted)])
  }

  function EmptyRoundRuns(start: RunRecord, pin: Pin, piSessionId: SessionId, candidate: CandidateBuilder.Candidate): seq<RunRecord> {
    [start, start.(phase := Running, pause := None, lastError := None),
     WorkedRun(start, pin, AttemptPreparing, None), WorkedRun(start, pin, AttemptRunning, Some(piSessionId)),
     WorkedRun(start, pin, AttemptCompleted, Some(piSessionId)),
     WorkedRun(start, pin, AttemptCompleted, Some(piSessionId)).(phase := Fixing, candidate := Some(candidate),
       lastError := Some(ErrorState("WORKER_CANDIDATE_EMPTY", "candidate-completeness")))]
  }

  lemma {:induction false} NewAttemptIsFound(attempts: seq<WorkerAttempt>, a: WorkerAttempt)
    requires forall b | b in attempts :: b.attemptId != a.attemptId
    ensures RunSteps.IndexOf(attempts + [a], a.attemptId) == Some(|attempts|)
  {
    if attempts != [] {
      NewAttemptIsFound(attempts[1..], a);
      assert (attempts + [a])[1..] == attempts[1..] + [a];
    }
  }

  lemma WorkedRunSteps(start: RunRecord, pin: Pin, piSessionId: SessionId)
    requires forall a | a in start.attempts :: a.attemptId != pin.attemptId
    ensures StepWorker(AttemptStarted(pin, piSessionId), WorkedRun(start, pin, AttemptPreparing, None)) ==
              Ok(WorkedRun(start, pin, AttemptRunning, Some(piSessionId)))
    ensures StepWorker(AttemptEnded(pin, WorkCompleted(piSessionId)), WorkedRun(start, pin, AttemptRunning, Some(piSessionId))) ==
              Ok(WorkedRun(start, pin, AttemptCompleted, Some(piSessionId)))
  {
    var begun := WorkerAttempt(pin.attemptId, pin.generation, AttemptPreparing, None, false);
    var started := begun.(status := AttemptRunning, piSessionId := Some(piSessionId));
    var ended := started.(status := AttemptCompleted, sessionStored := true);
    NewAttemptIsFound(start.attempts, begun);
    NewAttemptIsFound(start.attempts, started);
    assert (start.attempts + [begun])[|start.attempts| := started] == start.attempts + [started];
    assert (start.attempts + [started])[|start.attempts| := ended] == start.attempts + [ended];
  }

  lemma EmptyRoundIsAutomatic(start: RunRecord, pin: Pin, piSessionId: SessionId, candidate: CandidateBuilder.Candidate)
    requires start.phase == Preparing && !start.manifest.allowNoChange && candidate.operations == []
    requires forall a | a in start.attempts :: a.attemptId != pin.attemptId
    ensures AutomaticRun(EmptyRoundRuns(start, pin, piSessionId, candidate), EmptyRoundSteps(pin, piSessionId, candidate))
  {
    WorkedRunSteps(start, pin, piSessionId);
    var runs, steps := EmptyRoundRuns(start, pin, piSessionId, candidate), EmptyRoundSteps(pin, piSessionId, candidate);
    forall i | 0 <= i < 5 ensures Takes(runs[i], steps[i], runs[i + 1]) {
    }
  }

  lemma SameRoundMakesNoProgress(round: RepairRound)
    requires exists t :: t in round.tasks && t.issues != []
    ensures NoProgressAfter(round, round, -1) == 0
  {
  }

  lemma FirstRepairContinues(run: RunRecord, fix: string)
    requires RepairDecided(run) && run.repairRound.None? && run.candidate.Some? && SessionReady(run)
    requires var tasks := run.review.value.gate.result.tasks;
             ScopeReasons(run.manifest, tasks) == [] && exists t :: t in tasks && t.issues != []
    ensures Prepare(run, fix).Continues? && Prepare(run, fix).noProgressCount == 0 && Prepare(run, fix).round.failureIds == []
  {
    SameRoundMakesNoProgress(RoundOf(run, fix).value);
  }

  /**
    A review left over from before a restored drift makes a round on which repair rounds left, not an
    empty-candidate round and progress left stay as they are: the round of an empty candidate is taken from it.
   */
  lemma LeftoverReviewKeepsTheRest(run: RunRecord, actionId: string, requestId: string, pin: Pin, piSessionId: SessionId,
                                   candidate: CandidateBuilder.Candidate, fix: string)
    requires FirstRepairDecided(run) && candidate.operations == []
    requires forall a | a in run.attempts :: a.attemptId != pin.attemptId
    ensures var start := Restored(run, actionId, requestId);
            var runs := EmptyRoundRuns(start, pin, piSessionId, candidate);
            && AutomaticRun(runs, EmptyRoundSteps(pin, piSessionId, candidate)) && runs[0] == start && EmptyRoundFits(start)
            && runs[5].phase == Fixing && Prepare(runs[5], fix).Continues?
            && !FallsWithoutReview(start, ContinueRun(runs[5], fix))
            && StaleReview(start) == 1 && StaleReview(ContinueRun(runs[5], fix)) == 0
  {
    var start := Restored(run, actionId, requestId);
    EmptyRoundIsAutomatic(start, pin, piSessionId, candidate);
    var last := EmptyRoundRuns(start, pin, piSessionId, candidate)[5];
    assert LastAttempt(last) == Some(WorkerAttempt(pin.attemptId, pin.generation, AttemptCompleted, Some(piSessionId), true));
    FirstRepairContinues(last, fix);
    ContinueKeepsBooks(last, fix);
  }
}
