/**
  Reading a recorded result against the operations in the order they were handed over, which need not be
  the order they were applied in (packages/publish/src/publish-service.ts).
 */
module PublishObservation {
  import opened Ordering
  import opened Snapshot
  import opened WorkspaceTree
  import opened PublishOperations
  import opened WorkspaceApply
  import opened PublishReconcile

  // The same batch, as handed over and as applied
  ghost predicate SameBatch(given: seq<ApplyOperation>, sorted: seq<ApplyOperation>) {
    multiset(given) == multiset(sorted) && DistinctPaths(given) && Valid(sorted)
  }

  lemma CanonicalIsSameBatch(given: seq<ApplyOperation>, less: (Path, Path) -> bool)
    requires StrictTotalOn(less, PathSet(given)) && Canonical(given, less).Ok?
    ensures SameBatch(given, Canonical(given, less).value)
    ensures Canonical(Canonical(given, less).value, less) == Canonical(given, less)
  {
    CanonicalContents(given, less);
    CanonicalAccepts(given, less);
    CanonicalIgnoresOrder(given, Canonical(given, less).value, less);
  }

  lemma SameOperationAt(given: seq<ApplyOperation>, sorted: seq<ApplyOperation>, path: Path)
    requires SameBatch(given, sorted)
    ensures OperationAt(given, path) == OperationAt(sorted, path)
  {
    var a, b := OperationAt(given, path), OperationAt(sorted, path);
    assert forall op :: op in given <==> op in multiset(given);
    assert forall op :: op in sorted <==> op in multiset(sorted);
    if a.Some? && b.Some? {
      var i :| 0 <= i < |given| && given[i] == a.value;
      var j :| 0 <= j < |given| && given[j] == b.value;
      assert given[i].path == given[j].path;
    }
  }

  /** What the verdict on a produced result rests on does not depend on the order of the operations. */
  lemma ProducedResultReadsInAnyOrder(
    id: OperationId, hash: OperationsHash, given: seq<ApplyOperation>, sorted: seq<ApplyOperation>, result: PublishResult)
    requires SameBatch(given, sorted) && Producible(id, hash, sorted, result)
    ensures IdentityMatches(id, hash, given, result) && result.paths != []
    ensures result.status == Committed <==>
              forall i | 0 <= i < |result.paths| :: Claims(result.paths, given, i) && ObservesTarget(result.paths, given, i)
    ensures result.status == Conflicted ==> !Claims(result.paths, given, 0)
    ensures ResultMatchesOperations(result, given)
  {
    ProducedResultReads(id, hash, sorted, result);
    assert |given| == |multiset(given)| == |sorted|;
    forall i | 0 <= i < |result.paths|
      ensures Claims(result.paths, given, i) <==> Claims(result.paths, sorted, i)
      ensures ObservesTarget(result.paths, given, i) <==> ObservesTarget(result.paths, sorted, i)
    {
      SameOperationAt(given, sorted, result.paths[i].path);
    }
    forall path | path in result.paths ensures OperationAt(given, path.path) == OperationAt(sorted, path.path) {
      SameOperationAt(given, sorted, path.path);
    }
  }

  // What the adapter has recorded

  ghost predicate SoundResult(id: OperationId, result: PublishResult) {
    && Valid(id.operationsHash.canonical)
    && Producible(id, id.operationsHash, id.operationsHash.canonical, result)
  }

  ghost predicate SoundResults(results: map<OperationId, PublishResult>) {
    forall id | id in results :: SoundResult(id, results[id])
  }

  /** A recorded result names its paths once, and its status fits them. */
  lemma ProducedResultIsConsistent(id: OperationId, hash: OperationsHash, operations: seq<ApplyOperation>, result: PublishResult)
    requires Valid(operations) && Producible(id, hash, operations, result)
    ensures result.operationId == id && result.operationsHash == hash
    ensures forall i, j | 0 <= i < j < |result.paths| :: result.paths[i].path != result.paths[j].path
    ensures result.status == Committed ==> forall p | p in result.paths :: p.status == PathCommitted
    ensures result.status == Conflicted ==> exists p :: p in result.paths && p.status == PathConflict
  {
    var seen := ProducedFrom(id, hash, operations, result);
    if result == Observe(seen, id, hash, operations) {
      ObservedResultIsConsistent(seen, id, hash, operations);
    } else {
      var w, conflicts :| conflicts == Preflight(w, operations) && conflicts != [] && result == ConflictResult(w, id, hash, operations, conflicts);
      ConflictResultIsConsistent(w, id, hash, operations);
    }
  }

  lemma ObservedResultIsConsistent(w: Workspace, id: OperationId, hash: OperationsHash, operations: seq<ApplyOperation>)
    requires Valid(operations)
    ensures var result := Observe(w, id, hash, operations);
            && result.operationId == id && result.operationsHash == hash
            && (forall i, j | 0 <= i < j < |result.paths| :: result.paths[i].path != result.paths[j].path)
            && (result.status == Committed ==> forall p | p in result.paths :: p.status == PathCommitted)
            && (result.status == Conflicted ==> exists p :: p in result.paths && p.status == PathConflict)
  {
    AllCommittedCount(PathOutcomes(w, operations));
  }

  lemma ConflictResultIsConsistent(w: Workspace, id: OperationId, hash: OperationsHash, operations: seq<ApplyOperation>)
    requires Valid(operations) && Preflight(w, operations) != []
    ensures var result := ConflictResult(w, id, hash, operations, Preflight(w, operations));
            && result.operationId == id && result.operationsHash == hash && result.status == Conflicted
            && (forall i, j | 0 <= i < j < |result.paths| :: result.paths[i].path != result.paths[j].path)
            && (exists p :: p in result.paths && p.status == PathConflict)
  {
    var conflicts := Preflight(w, operations);
    var result := ConflictResult(w, id, hash, operations, conflicts);
    ConflictsReportReasons(PreflightReasons(w, operations), operations);
    assert conflicts[0] in conflicts;
    var i :| 0 <= i < |operations| && operations[i].path == conflicts[0].path;
    assert result.paths[i].status == PathConflict && result.paths[i] in result.paths;
  }
}
