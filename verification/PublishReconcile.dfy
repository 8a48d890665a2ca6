/**
  What a recorded publish result means: how far a batch got, and how the publish service and the
  recovery check read it (packages/publish/src/publish-service.ts, workspace-apply-adapter.ts,
  apps/daemon/src/recovery/recovery-manager.ts).
 */
module PublishReconcile {
  import opened Wrappers
  import opened Snapshot
  import opened WorkspaceTree
  import opened PublishOperations
  import opened WorkspaceApply

  datatype Verdict = VerdictCommitted | VerdictConflict | VerdictBlocked

  ghost predicate Valid(operations: seq<ApplyOperation>) {
    && operations != []
    && DistinctPaths(operations)
    && forall op | op in operations :: IsValidOperation(op)
  }

  function OperationAt(operations: seq<ApplyOperation>, path: Path): (r: Option<ApplyOperation>)
    ensures r.Some? ==> r.value in operations && r.value.path == path
    ensures r.None? ==> forall op | op in operations :: op.path != path
  {
    if operations == [] then None
    else
      var n := |operations| - 1;
      assert operations == operations[..n] + [operations[n]];
      if operations[n].path == path then Some(operations[n]) else OperationAt(operations[..n], path)
  }

  // The path result at `i` names an operation, for the first time, and says COMMITTED.
  ghost predicate Claims(paths: seq<PathResult>, operations: seq<ApplyOperation>, i: nat)
    requires i < |paths|
  {
    && OperationAt(operations, paths[i].path).Some?
    && paths[i].status == PathCommitted
    && forall j | 0 <= j < i :: paths[j].path != paths[i].path
  }

  ghost predicate ObservesTarget(paths: seq<PathResult>, operations: seq<ApplyOperation>, i: nat)
    requires i < |paths|
  {
    var op := OperationAt(operations, paths[i].path);
    op.Some? && paths[i].observedHash == op.value.newHash && paths[i].observedMode == op.value.newMode
  }

  ghost predicate IdentityMatches(
    id: OperationId, hash: OperationsHash, operations: seq<ApplyOperation>, result: PublishResult)
  {
    result.operationId == id && result.operationsHash == hash && |result.paths| == |operations|
  }

  /**
    COMMITTED is answered only when every path result claims a different operation and observed its
    target; CONFLICT when the result says so and the first path that breaks this breaks it by not
    claiming an operation; everything else blocks.
   */
  method Reconcile(id: OperationId, hash: OperationsHash, operations: seq<ApplyOperation>, result: PublishResult)
    returns (verdict: Verdict)
    requires DistinctPaths(operations)
    ensures verdict == VerdictCommitted <==>
              && IdentityMatches(id, hash, operations, result)
              && result.status == Committed
              && forall i | 0 <= i < |result.paths| :: Claims(result.paths, operations, i) && ObservesTarget(result.paths, operations, i)
    ensures verdict == VerdictConflict <==>
              && IdentityMatches(id, hash, operations, result)
              && result.status == Conflicted
              && exists i :: 0 <= i < |result.paths| && !Claims(result.paths, operations, i) &&
                   forall j | 0 <= j < i :: Claims(result.paths, operations, j) && ObservesTarget(result.paths, operations, j)
  {
    if result.operationId != id || result.operationsHash != hash {
      return VerdictBlocked;
    }
    if |result.paths| != |operations| {
      return VerdictBlocked;
    }
    var observedPaths: set<Path> := {};
    for i := 0 to |result.paths|
      invariant observedPaths == set j | 0 <= j < i :: result.paths[j].path
      invariant |observedPaths| == i
      invariant observedPaths <= PathSet(operations)
      invariant forall j | 0 <= j < i :: Claims(result.paths, operations, j) && ObservesTarget(result.paths, operations, j)
    {
      var path := result.paths[i];
      var operation := OperationAt(operations, path.path);
      if operation.None? || path.path in observedPaths || path.status != PathCommitted {
        assert !Claims(result.paths, operations, i);
        return if result.status == Conflicted then VerdictConflict else VerdictBlocked;
      }
      assert path.path !in observedPaths;
      observedPaths := observedPaths + {path.path};
      if path.observedHash != operation.value.newHash || path.observedMode != operation.value.newMode {
        assert Claims(result.paths, operations, i) && !ObservesTarget(result.paths, operations, i);
        return VerdictBlocked;
      }
    }
    DistinctPathsBySetSize(operations);
    return if |observedPaths| == |PathSet(operations)| && result.status == Committed then VerdictCommitted else VerdictBlocked;
  }

  /** The recovery-side reading of a stored result (recovery-manager.ts, publishResultMatchesOperations). */
  predicate ResultMatchesOperations(result: PublishResult, operations: seq<ApplyOperation>) {
    && |result.paths| == |operations|
    && forall path | path in result.paths ::
         var op := OperationAt(operations, path.path);
         && op.Some?
         && if path.status != PathCommitted then result.status != Committed
            else path.observedHash == op.value.newHash && path.observedMode == op.value.newMode
  }

  // What the files hold after the first k operations

  lemma {:induction false} ApplyFirstTouches(files: map<Path, Node>, operations: seq<ApplyOperation>, k: nat, i: nat)
    requires i < k <= |operations|
    requires DistinctPaths(operations) && forall op | op in operations :: IsValidOperation(op)
    ensures var left, op := ApplyFirst(files, operations, k), operations[i];
            if op.kind == Deletes then op.path !in left
            else
              && op.path in left && left[op.path].File?
              && Some(left[op.path].hash) == op.newHash && Some(left[op.path].mode) == op.newMode
  {
    assert operations[k - 1] in operations && operations[i] in operations;
    assert IsValidOperation(operations[i]) && IsValidOperation(operations[k - 1]);
    if i < k - 1 {
      ApplyFirstTouches(files, operations, k - 1, i);
      assert operations[i].path != operations[k - 1].path;
    }
  }

  lemma {:induction false} ApplyFirstKeeps(files: map<Path, Node>, operations: seq<ApplyOperation>, k: nat, path: Path)
    requires k <= |operations|
    requires forall i | 0 <= i < k :: operations[i].path != path
    ensures var left := ApplyFirst(files, operations, k);
            (path in left <==> path in files) && (path in files ==> left[path] == files[path])
  {
    if k > 0 {
      ApplyFirstKeeps(files, operations, k - 1, path);
    }
  }

  lemma {:induction false} CountOfPrefix(paths: seq<PathResult>, k: nat)
    requires k <= |paths|
    requires forall i | 0 <= i < |paths| :: paths[i].status == PathCommitted <==> i < k
    ensures CommittedCount(paths) == k
  {
    if paths != [] {
      var n := |paths| - 1;
      CountOfPrefix(paths[..n], if k <= n then k else n);
    }
  }

  predicate ChangesItsPath(op: ApplyOperation) {
    op.newHash != op.oldHash || op.newMode != op.oldMode
  }

  /**
    A commit loop that stops after `k` operations leaves the first `k` paths in their new state,
    every other file as it was, and the status reported tells exactly how far it got.
   */
  lemma StoppedBatchIsReported(
    w: Workspace, operations: seq<ApplyOperation>, k: nat, id: OperationId, hash: OperationsHash)
    requires Valid(operations) && k <= |operations|
    requires Preflight(w, operations) == []
    requires forall op | op in operations :: ChangesItsPath(op)
    ensures var left := w.(files := ApplyFirst(w.files, operations, k));
            var result := Observe(left, id, hash, operations);
            && (forall i | 0 <= i < k :: HoldsNewState(left, operations[i]))
            && (forall i | k <= i < |operations| :: HoldsOldState(left, operations[i]) && !HoldsNewState(left, operations[i]))
            && (forall path | (forall i | 0 <= i < k :: operations[i].path != path) ::
                  (path in left.files <==> path in w.files) && (path in w.files ==> left.files[path] == w.files[path]))
            && (result.status == Committed <==> k == |operations|)
            && (result.status == Partial <==> 0 < k < |operations|)
            && (result.status == Unknown <==> k == 0)
  {
    var left := w.(files := ApplyFirst(w.files, operations, k));
    var paths := PathOutcomes(left, operations);
    PreflightClean(w, operations);
    forall i | 0 <= i < |operations|
      ensures i < k ==> HoldsNewState(left, operations[i])
      ensures k <= i ==> HoldsOldState(left, operations[i]) && !HoldsNewState(left, operations[i])
      ensures paths[i].status == if i < k then PathCommitted else PathUnresolved
    {
      assert operations[i] in operations;
      assert IsValidOperation(operations[i]) && ChangesItsPath(operations[i]);
      if i < k {
        ApplyFirstTouches(w.files, operations, k, i);
      } else {
        ApplyFirstKeeps(w.files, operations, k, operations[i].path);
        assert PreflightReason(w, operations[i]).None?;
      }
    }
    forall path | forall i | 0 <= i < k :: operations[i].path != path
      ensures (path in left.files <==> path in w.files) && (path in w.files ==> left.files[path] == w.files[path])
    {
      ApplyFirstKeeps(w.files, operations, k, path);
    }
    CountOfPrefix(paths, k);
  }

  // Reading back what the adapter can produce

  lemma {:induction false} AllCommittedCount(paths: seq<PathResult>)
    ensures CommittedCount(paths) == |paths| <==> forall i | 0 <= i < |paths| :: paths[i].status == PathCommitted
    ensures CommittedCount(paths) == 0 <==> forall i | 0 <= i < |paths| :: paths[i].status != PathCommitted
  {
    if paths != [] {
      var n := |paths| - 1;
      AllCommittedCount(paths[..n]);
      assert forall i | 0 <= i < n :: paths[..n][i] == paths[i];
    }
  }

  lemma OperationAtIndex(operations: seq<ApplyOperation>, i: nat)
    requires DistinctPaths(operations) && i < |operations|
    ensures OperationAt(operations, operations[i].path) == Some(operations[i])
  {
    var r := OperationAt(operations, operations[i].path);
    assert operations[i] in operations;
    var j :| 0 <= j < |operations| && operations[j] == r.value;
  }

  lemma ObservedPathsClaim(w: Workspace, operations: seq<ApplyOperation>, i: nat)
    requires Valid(operations) && i < |operations|
    ensures var paths := PathOutcomes(w, operations);
            && paths[i].path == operations[i].path
            && (Claims(paths, operations, i) <==> paths[i].status == PathCommitted)
            && (paths[i].status == PathCommitted ==> HoldsNewState(w, operations[i]) && ObservesTarget(paths, operations, i))
  {
    OperationAtIndex(operations, i);
    assert operations[i] in operations && IsValidOperation(operations[i]);
    assert forall j | 0 <= j < |operations| :: PathOutcomes(w, operations)[j].path == operations[j].path;
  }

  /** Every result the adapter can return for these operations, whatever goes wrong on the way. */
  ghost predicate Producible(
    id: OperationId, hash: OperationsHash, operations: seq<ApplyOperation>, result: PublishResult)
  {
    exists w, blobs, faults :: Outcome(w, blobs, id, hash, operations, faults).1 == Some(result)
  }

  lemma StagedOutcomeShape(
    staged: Workspace, id: OperationId, hash: OperationsHash, operations: seq<ApplyOperation>, fault: Option<nat>, result: PublishResult)
    returns (seen: Workspace)
    requires StagedOutcome(staged, id, hash, operations, fault).1 == Some(result)
    ensures result == Observe(seen, id, hash, operations) || ReportsConflict(id, hash, operations, result)
  {
    seen := staged.(files := ApplyFirst(staged.files, operations, CommitStop(operations, fault)));
  }

  ghost predicate ReportsConflict(id: OperationId, hash: OperationsHash, operations: seq<ApplyOperation>, result: PublishResult) {
    exists w, conflicts :: conflicts == Preflight(w, operations) && conflicts != [] && result == ConflictResult(w, id, hash, operations, conflicts)
  }

  lemma ProducedFrom(id: OperationId, hash: OperationsHash, operations: seq<ApplyOperation>, result: PublishResult)
    returns (seen: Workspace)
    requires Producible(id, hash, operations, result)
    ensures result == Observe(seen, id, hash, operations) || ReportsConflict(id, hash, operations, result)
  {
    var w, blobs, faults :| Outcome(w, blobs, id, hash, operations, faults).1 == Some(result);
    if AnyObstructed(w, operations) || Preflight(w, operations) != [] {
      seen := w;
    } else {
      var found := if faults.outside.Some? then Workspace(faults.outside.value) else w;
      var staged := Staged(found, blobs, operations, faults.staging);
      if StagingStop(found.files, blobs, operations, faults.staging, 0) < |operations| {
        seen := staged;
      } else {
        seen := StagedOutcomeShape(staged, id, hash, operations, faults.commit, result);
      }
    }
  }

  lemma ProducibleShape(id: OperationId, hash: OperationsHash, operations: seq<ApplyOperation>, result: PublishResult)
    returns (seen: Workspace)
    requires Valid(operations) && Producible(id, hash, operations, result)
    ensures IdentityMatches(id, hash, operations, result)
    ensures forall i | 0 <= i < |operations| :: result.paths[i].path == operations[i].path
    ensures result == Observe(seen, id, hash, operations) ||
            (result.status == Conflicted && forall i | 0 <= i < |operations| :: result.paths[i].status != PathCommitted)
  {
    seen := ProducedFrom(id, hash, operations, result);
    if result != Observe(seen, id, hash, operations) {
      var w, conflicts :| conflicts == Preflight(w, operations) && conflicts != [] && result == ConflictResult(w, id, hash, operations, conflicts);
    }
  }

  /**
    The publish service reads every result the adapter can produce correctly, and a result it calls
    COMMITTED pairs paths and operations one to one, saw every target state, and passes the
    recovery-side check. The recovery-side check accepts all the others as well.
   */
  method ReconcileProduced(
    id: OperationId, hash: OperationsHash, operations: seq<ApplyOperation>, result: PublishResult)
    returns (verdict: Verdict)
    requires Valid(operations) && Producible(id, hash, operations, result)
    ensures verdict == VerdictCommitted <==> result.status == Committed
    ensures verdict == VerdictConflict <==> result.status == Conflicted
    ensures verdict == VerdictCommitted ==>
              && |result.paths| == |operations|
              && forall i | 0 <= i < |operations| ::
                   && result.paths[i].path == operations[i].path
                   && result.paths[i].status == PathCommitted
                   && result.paths[i].observedHash == operations[i].newHash
                   && result.paths[i].observedMode == operations[i].newMode
    ensures ResultMatchesOperations(result, operations)
  {
    ProducedResultReads(id, hash, operations, result);
    verdict := Reconcile(id, hash, operations, result);
  }

  // Everything the readers of a result rely on, gathered.
  ghost predicate ReadsCorrectly(operations: seq<ApplyOperation>, result: PublishResult)
    requires |result.paths| == |operations| && operations != []
  {
    && (result.status == Committed <==>
          forall i | 0 <= i < |operations| :: Claims(result.paths, operations, i) && ObservesTarget(result.paths, operations, i))
    && (result.status == Conflicted ==> !Claims(result.paths, operations, 0))
    && (result.status == Committed ==> forall i | 0 <= i < |operations| ::
          && result.paths[i].path == operations[i].path
          && result.paths[i].status == PathCommitted
          && result.paths[i].observedHash == operations[i].newHash
          && result.paths[i].observedMode == operations[i].newMode)
    && ResultMatchesOperations(result, operations)
  }

  lemma ObservedResultReads(w: Workspace, id: OperationId, hash: OperationsHash, operations: seq<ApplyOperation>)
    requires Valid(operations)
    ensures ReadsCorrectly(operations, Observe(w, id, hash, operations))
  {
    var result := Observe(w, id, hash, operations);
    AllCommittedCount(result.paths);
    forall i | 0 <= i < |operations|
      ensures OperationAt(operations, result.paths[i].path) == Some(operations[i])
      ensures result.paths[i].path == operations[i].path
      ensures Claims(result.paths, operations, i) <==> result.paths[i].status == PathCommitted
      ensures result.paths[i].status == PathCommitted ==> ObservesTarget(result.paths, operations, i)
    {
      OperationAtIndex(operations, i);
      ObservedPathsClaim(w, operations, i);
    }
  }

  lemma ConflictResultReads(operations: seq<ApplyOperation>, result: PublishResult)
    requires Valid(operations) && |result.paths| == |operations|
    requires result.status == Conflicted
    requires forall i | 0 <= i < |operations| ::
               result.paths[i].path == operations[i].path && result.paths[i].status != PathCommitted
    ensures ReadsCorrectly(operations, result)
  {
    assert !Claims(result.paths, operations, 0);
    forall i | 0 <= i < |operations| ensures OperationAt(operations, result.paths[i].path) == Some(operations[i]) {
      OperationAtIndex(operations, i);
    }
  }

  lemma ProducedResultReads(
    id: OperationId, hash: OperationsHash, operations: seq<ApplyOperation>, result: PublishResult)
    requires Valid(operations) && Producible(id, hash, operations, result)
    ensures IdentityMatches(id, hash, operations, result)
    ensures ReadsCorrectly(operations, result)
  {
    var seen := ProducibleShape(id, hash, operations, result);
    if result == Observe(seen, id, hash, operations) {
      ObservedResultReads(seen, id, hash, operations);
    } else {
      ConflictResultReads(operations, result);
    }
  }

  // A batch that passes the second check lies side by side

  ghost predicate IsClean(w: Workspace, operations: seq<ApplyOperation>) {
    && Valid(operations) && IsTree(w.files)
    && !AnyObstructed(w, operations) && Preflight(w, operations) == []
    && forall a | a in ParentsOf(operations) :: a in w.files
  }

  lemma StagedStaysTree(w: Workspace, operations: seq<ApplyOperation>)
    requires IsTree(w.files) && !AnyObstructed(w, operations)
    ensures IsTree(WithDirectories(w.files, ParentsOf(operations)))
  {
    var wanted := ParentsOf(operations);
    forall a | a in wanted
      ensures forall b | b in AncestorsOf(a) :: b in wanted
      ensures a in w.files ==> w.files[a].Directory? || w.files[a].Symlink?
    {
      ParentsLieAbove(operations, a);
      var op :| op in operations && NeedsStaging(op) && a in AncestorsOf(op.path);
      assert !Obstructed(w, op.path);
      forall b | b in AncestorsOf(a) ensures b in wanted {
        AncestorsAreProper(b, a);
        AncestorsAreProper(a, op.path);
        AncestorsChain(b, a, op.path);
        AncestorsAreProper(b, op.path);
        ParentsLieAbove(operations, b);
      }
    }
    DirectoriesKeepTree(w.files, wanted);
  }

  lemma CleanBatchIsUnnested(w: Workspace, operations: seq<ApplyOperation>, i: nat, j: nat)
    requires IsClean(w, operations) && i < |operations| && j < |operations|
    ensures operations[i].path !in AncestorsOf(operations[j].path)
  {
    PreflightClean(w, operations);
    var a, below := operations[i], operations[j];
    assert a in operations && below in operations;
    ParentsLieAbove(operations, a.path);
    assert IsValidOperation(a) && IsValidOperation(below);
    assert PreflightReason(w, operations[i]).None? && PreflightReason(w, operations[j]).None?;
  }

  /** However far the commit loop gets, every path of the batch can still be looked at. */
  lemma CleanBatchStaysObservable(w: Workspace, operations: seq<ApplyOperation>, k: nat)
    requires IsClean(w, operations) && k <= |operations|
    ensures !AnyObstructed(w.(files := ApplyFirst(w.files, operations, k)), operations)
  {
    var left := w.(files := ApplyFirst(w.files, operations, k));
    forall op | op in operations ensures !Obstructed(left, op.path) {
      var j :| 0 <= j < |operations| && operations[j] == op;
      assert !Obstructed(w, op.path);
      forall a | a in AncestorsOf(op.path) && a in left.files ensures !left.files[a].File? && !left.files[a].Special? {
        forall i | 0 <= i < k ensures operations[i].path != a {
          CleanBatchIsUnnested(w, operations, i, j);
        }
        ApplyFirstKeeps(w.files, operations, k, a);
      }
    }
  }

  // What a recorded result says of the files

  predicate Has(files: map<Path, Node>, path: Path, hash: Option<Digest>, mode: Option<nat>) {
    hash.Some? && mode.Some? && path in files && files[path] == File(hash.value, mode.value)
  }

  /** One path as it is found: in its new state, in its old one, or in neither, with the file that is there. */
  lemma PathIsObserved(w: Workspace, op: ApplyOperation)
    requires IsValidOperation(op)
    ensures var r := PathOutcome(w, op);
            var isNew := if op.kind == Deletes then op.path !in w.files else Has(w.files, op.path, op.newHash, op.newMode);
            var isOld := if op.kind == Adds then op.path !in w.files else Has(w.files, op.path, op.oldHash, op.oldMode);
            && r.path == op.path
            && (r.status == PathCommitted <==> isNew)
            && (r.status == PathUnresolved <==> !isNew && isOld)
            && (r.status == PathConflict <==> !isNew && !isOld)
            && (op.path in w.files && w.files[op.path].File? <==> r.observedHash.Some? && r.observedMode.Some?)
            && (r.observedHash.Some? <==> r.observedMode.Some?)
            && (r.observedHash.Some? ==> Has(w.files, op.path, r.observedHash, r.observedMode))
  {
  }

  /** The status of a result is that of its paths. */
  lemma StatusIsOfThePaths(paths: seq<PathResult>)
    ensures var status := ObservedStatus(paths);
            && (status == Committed <==> forall p | p in paths :: p.status == PathCommitted)
            && (status == Partial <==>
                  (exists p :: p in paths && p.status == PathCommitted) && (exists p :: p in paths && p.status != PathCommitted))
            && (status == Conflicted <==>
                  (forall p | p in paths :: p.status != PathCommitted) && (exists p :: p in paths && p.status == PathConflict))
            && (status == Unknown <==> paths != [] && forall p | p in paths :: p.status == PathUnresolved)
  {
    AllCommittedCount(paths);
    if paths != [] {
      assert paths[0] in paths;
    }
  }

  /** A batch that is refused names, as conflicts, exactly the paths that did not hold what they should. */
  lemma ConflictNamesThePaths(w: Workspace, id: OperationId, hash: OperationsHash, operations: seq<ApplyOperation>, i: nat)
    requires DistinctPaths(operations) && i < |operations|
    ensures var result := ConflictResult(w, id, hash, operations, Preflight(w, operations));
            && result.status == Conflicted && result.operationId == id && result.operationsHash == hash
            && |result.paths| == |operations| && result.paths[i].path == operations[i].path
            && (result.paths[i].status == PathConflict <==> PreflightReason(w, operations[i]).Some?)
            && (result.paths[i].status == PathUnresolved <==> PreflightReason(w, operations[i]).None?)
            && result.paths[i].observedHash == PathOutcome(w, operations[i]).observedHash
            && result.paths[i].observedMode == PathOutcome(w, operations[i]).observedMode
  {
    var conflicts := Preflight(w, operations);
    var reasons := PreflightReasons(w, operations);
    ConflictsReportReasons(reasons, operations);
    if PreflightReason(w, operations[i]).Some? {
      assert reasons[i] == Some(PreflightReason(w, operations[i]).value);
      assert Conflict(operations[i].path, PreflightReason(w, operations[i]).value) in conflicts;
    }
    if c :| c in conflicts && c.path == operations[i].path {
      var j :| 0 <= j < |reasons| && reasons[j] == Some(c.reason) && operations[j].path == c.path;
      assert j == i;
    }
  }

  // The blob an operation installs is on hand, has its size, and is what it says.
  predicate HasItsBlob(blobs: map<BlobId, Bytes>, op: ApplyOperation) {
    && op.blobRef.Some? && op.blobRef.value.blobId in blobs
    && var bytes := blobs[op.blobRef.value.blobId];
       |bytes| == op.blobRef.value.size && op.blobRef.value.sha256 == Sha256(bytes) && op.newHash == Some(Sha256(bytes))
  }

  /** Without a failing write a batch is staged exactly when every new file has its blob and a place to go to. */
  lemma StagesExactly(files: map<Path, Node>, blobs: map<BlobId, Bytes>, operations: seq<ApplyOperation>)
    requires forall op | op in operations :: IsValidOperation(op)
    ensures StagingStop(files, blobs, operations, None, 0) == |operations| <==>
              forall op | op in operations && op.kind != Deletes :: HasItsBlob(blobs, op) && !Obstructed(Workspace(files), op.path)
  {
    forall i | 0 <= i < |operations|
      ensures StopsStaging(files, blobs, operations[i], None, i) <==>
                operations[i].kind != Deletes && !(HasItsBlob(blobs, operations[i]) && !Obstructed(Workspace(files), operations[i].path))
    {
      assert operations[i] in operations;
      assert IsValidOperation(operations[i]);
    }
  }

  // The path result is of an operation of the batch.
  predicate IsResultOf(p: PathResult, op: ApplyOperation) {
    p.path == op.path
  }

  /**
    The recovery-side check passes a result exactly when it has as many paths as the batch, each of some operation,
    each that says COMMITTED saw the target of its operation, and a COMMITTED result has no other.
   */
  lemma MatchesExactly(result: PublishResult, operations: seq<ApplyOperation>)
    requires DistinctPaths(operations)
    ensures ResultMatchesOperations(result, operations) <==>
              && |result.paths| == |operations|
              && (forall p | p in result.paths :: exists op :: op in operations && IsResultOf(p, op))
              && (forall p, op | p in result.paths && op in operations && IsResultOf(p, op) && p.status == PathCommitted ::
                    p.observedHash == op.newHash && p.observedMode == op.newMode)
              && (result.status == Committed ==> forall p | p in result.paths :: p.status == PathCommitted)
  {
    forall p, op | p in result.paths && op in operations && IsResultOf(p, op) ensures OperationAt(operations, p.path) == Some(op) {
      var i :| 0 <= i < |operations| && operations[i] == op;
      OperationAtIndex(operations, i);
    }
    forall p | p in result.paths
      ensures OperationAt(operations, p.path).Some? <==> exists op :: op in operations && IsResultOf(p, op)
    {
      if OperationAt(operations, p.path).Some? {
        assert IsResultOf(p, OperationAt(operations, p.path).value);
      }
    }
  }
}
