/**
  The rules a review round is judged by (packages/review/src/review-gate.ts, review-decision.ts,
  apps/daemon/src/review/review-coordinator.ts).
 */
module ReviewRules {
  import opened Wrappers
  import opened Ordering
  import opened ProjectModel

  const REPAIR_ROUND_LIMIT: nat := 15

  datatype ReviewError =
    | CoverageIncomplete | SessionMatchesWorker | SessionBindingMismatch | ResultInconsistent | SessionHistoryInvalid

  datatype DecisionPlan = AcceptPlan | RepairPlan | PauseAtLimitPlan

  // reviewResultSchema

  predicate ValidTaskReview(t: TaskReview) {
    && t.completion <= 100
    && (t.completion == 100 <==> t.issues == [])
    && forall i, j | 0 <= i < j < |t.issues| :: (t.issues[i].path, t.issues[i].message) != (t.issues[j].path, t.issues[j].message)
  }

  predicate ValidReviewResult(r: ReviewResult) {
    && r.tasks != []
    && (forall t | t in r.tasks :: ValidTaskReview(t))
    && forall i, j | 0 <= i < j < |r.tasks| :: r.tasks[i].id != r.tasks[j].id
  }

  // What is complained about, once each
  function Complaints(t: TaskReview): (pairs: seq<(Path, string)>)
    ensures |pairs| == |t.issues| && forall i | 0 <= i < |pairs| :: pairs[i] == (t.issues[i].path, t.issues[i].message)
  {
    seq(|t.issues|, i requires 0 <= i < |t.issues| => (t.issues[i].path, t.issues[i].message))
  }

  /** A valid result names each task once and each complaint once, and a task is complete exactly when there is none. */
  lemma ValidResultExactly(r: ReviewResult)
    ensures ValidReviewResult(r) <==>
              && r.tasks != [] && Distinct(ReviewedIds(r))
              && forall t | t in r.tasks :: Distinct(Complaints(t)) && (if t.issues == [] then t.completion == 100 else t.completion < 100)
  {
    assert forall i | 0 <= i < |r.tasks| :: ReviewedIds(r)[i] == r.tasks[i].id;
    forall t | t in r.tasks
      ensures Distinct(Complaints(t)) <==>
                forall i, j | 0 <= i < j < |t.issues| :: (t.issues[i].path, t.issues[i].message) != (t.issues[j].path, t.issues[j].message)
    {
      assert forall i | 0 <= i < |t.issues| :: Complaints(t)[i] == (t.issues[i].path, t.issues[i].message);
    }
  }

  predicate AllComplete(r: ReviewResult) {
    forall t | t in r.tasks :: t.completion == 100
  }

  function ReviewedIds(r: ReviewResult): (ids: seq<string>)
    ensures |ids| == |r.tasks|
    ensures forall i | 0 <= i < |ids| :: ids[i] == r.tasks[i].id
  {
    seq(|r.tasks|, i requires 0 <= i < |r.tasks| => r.tasks[i].id)
  }

  predicate CoversTasks(expected: seq<string>, r: ReviewResult) {
    var reviewed := set id | id in ReviewedIds(r);
    && |reviewed| == |expected|
    && |r.tasks| == |expected|
    && forall id | id in expected :: id in reviewed
  }

  /** The three size and membership tests mean: the reviewed ids are the expected ids, rearranged. */
  lemma CoverageIsPermutation(expected: seq<string>, r: ReviewResult)
    requires Distinct(expected)
    ensures CoversTasks(expected, r) <==> multiset(ReviewedIds(r)) == multiset(expected)
  {
    var ids := ReviewedIds(r);
    var reviewed, wanted := set id | id in ids, set id | id in expected;
    SetSizeTestsDistinct(expected);
    SetSizeTestsDistinct(ids);
    DistinctCountsOnce(expected);
    if CoversTasks(expected, r) {
      DistinctCountsOnce(ids);
      assert wanted <= reviewed;
      SubsetOfSameSize(wanted, reviewed);
      forall x ensures multiset(ids)[x] == multiset(expected)[x] {
        assert x in ids <==> x in multiset(ids);
        assert x in expected <==> x in multiset(expected);
        assert x in reviewed <==> x in wanted;
      }
      assert multiset(ids) == multiset(expected);
    }
    if multiset(ids) == multiset(expected) {
      PermutationKeepsDistinct(expected, ids);
      assert |ids| == |multiset(ids)| == |expected|;
      forall x ensures x in ids <==> x in expected { SamePermutedElement(ids, expected, x); }
      assert reviewed == wanted;
    }
  }

  lemma SubsetOfSameSize<T>(a: set<T>, b: set<T>)
    requires a <= b && |a| == |b|
    ensures a == b
  {
    assert |b - a| == |b| - |a|;
    assert b == a + (b - a);
  }

  function GateOf(r: ReviewResult): ReviewGate {
    ReviewGate(AllComplete(r), if AllComplete(r) then [Accept, Pause] else [Repair, Pause], r)
  }

  function EvaluateGate(reviewer: SessionId, worker: SessionId, bound: Option<SessionId>, r: ReviewResult)
    : Result<ReviewGate, ReviewError>
  {
    if reviewer == worker then Err(SessionMatchesWorker)
    else if bound.Some? && reviewer != bound.value then Err(SessionBindingMismatch)
    else if exists t :: t in r.tasks && (t.completion == 100) != (t.issues == []) then Err(ResultInconsistent)
    else Ok(GateOf(r))
  }

  /** A gate always lets the leader pause, lets it accept exactly a complete review, and ask for repair exactly otherwise. */
  lemma GateAllowsExactly(r: ReviewResult)
    ensures var gate := GateOf(r);
            && gate.result == r && (gate.accepted <==> forall t | t in r.tasks :: t.completion == 100)
            && Pause in gate.allowed
            && (Accept in gate.allowed <==> gate.accepted) && (Repair in gate.allowed <==> !gate.accepted)
  {
    var gate := GateOf(r);
    assert gate.allowed[0] in gate.allowed && gate.allowed[1] in gate.allowed;
  }

  /** A review is evaluated exactly when it is not the worker's own, is held in the bound session, and fits its issues. */
  lemma GateIsEvaluated(reviewer: SessionId, worker: SessionId, bound: Option<SessionId>, r: ReviewResult)
    ensures EvaluateGate(reviewer, worker, bound, r).Ok? <==>
              && reviewer != worker && (bound.None? || bound == Some(reviewer))
              && forall t | t in r.tasks :: t.completion == 100 <==> t.issues == []
    ensures EvaluateGate(reviewer, worker, bound, r).Ok? ==> EvaluateGate(reviewer, worker, bound, r).value == GateOf(r)
  {
  }

  function PlanReviewDecision(r: ReviewResult, repairRounds: nat): DecisionPlan {
    if AllComplete(r) then AcceptPlan
    else if repairRounds >= REPAIR_ROUND_LIMIT then PauseAtLimitPlan
    else RepairPlan
  }

  function DecisionOf(plan: DecisionPlan): Decision {
    match plan
    case AcceptPlan => Accept
    case RepairPlan => Repair
    case PauseAtLimitPlan => Pause
  }

  /** The plan is always a decision the gate allows, so assertLeaderDecision never refuses it. */
  lemma PlanPassesGate(r: ReviewResult, repairRounds: nat)
    ensures DecisionOf(PlanReviewDecision(r, repairRounds)) in GateOf(r).allowed
    ensures PlanReviewDecision(r, repairRounds) == AcceptPlan <==> GateOf(r).accepted
  {
    var plan, gate := PlanReviewDecision(r, repairRounds), GateOf(r);
    assert gate.allowed[0] in gate.allowed && gate.allowed[1] in gate.allowed;
    assert DecisionOf(plan) == gate.allowed[0] || DecisionOf(plan) == gate.allowed[1];
  }

  /** The reviewer session every earlier round of the run was held in. */
  function BoundReviewer(history: seq<ReviewEntry>): (r: Result<Option<SessionId>, ReviewError>)
    ensures r.Ok? <==> forall i, j | 0 <= i < j < |history| :: history[i].reviewerSessionId == history[j].reviewerSessionId
    ensures r.Ok? ==> (r.value.None? <==> history == [])
    ensures r.Ok? && r.value.Some? ==> forall e | e in history :: e.reviewerSessionId == r.value.value
  {
    if history == [] then Ok(None)
    else if forall e | e in history :: e.reviewerSessionId == history[0].reviewerSessionId then
      Ok(Some(history[0].reviewerSessionId))
    else
      Err(SessionHistoryInvalid)
  }
}
