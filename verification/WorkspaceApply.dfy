/**
  The adapter that writes a publish batch into the active workspace
  (packages/publish/src/workspace-apply-adapter.ts) and the reconciliation of its result
  (packages/publish/src/publish-service.ts, apps/daemon/src/recovery/recovery-manager.ts).

  The operation identifier and the operations hash are injective in what they are taken of.
 */
module WorkspaceApply {
  import opened Wrappers
  import opened Snapshot
  import opened WorkspaceTree
  import opened PublishOperations

  datatype OperationsHash = OperationsHash(canonical: seq<ApplyOperation>)
  datatype OperationId = OperationId(
    projectId: string, jobId: string, candidateHash: string, reviewHash: Option<string>, operationsHash: OperationsHash)

  datatype PathStatus = PathCommitted | PathConflict | PathUnresolved
  datatype PathResult = PathResult(path: Path, status: PathStatus, observedHash: Option<Digest>, observedMode: Option<nat>)
  datatype ResultStatus = Committed | Conflicted | Partial | Unknown
  datatype PublishResult = PublishResult(
    operationId: OperationId, operationsHash: OperationsHash, status: ResultStatus, paths: seq<PathResult>)

  datatype ApplyError =
    | ResultDirectoryMissing
    | OperationsRefused(error: PublishError)
    | OperationsHashMismatch
    | OperationIdReused
    // something stands in the way of a path, so that it cannot be looked at
    | NotObservable

  // What may go wrong while a batch is applied: writing a new file fails at an operation, before or after its
  // parent directories were made, the commit loop fails at an operation, or another writer replaces the
  // files before the batch is staged.
  datatype StagingFault = StagingFault(index: nat, parentsMade: bool)
  datatype Faults = Faults(staging: Option<StagingFault>, commit: Option<nat>, outside: Option<map<Path, Node>>)

  const NO_FAULTS := Faults(None, None, None)

  // Observation

  function HoldsNewState(w: Workspace, op: ApplyOperation): bool {
    if op.kind == Deletes && op.path !in w.files then true
    else
      && op.path in w.files
      && w.files[op.path].File?
      && Some(w.files[op.path].hash) == op.newHash
      && Some(w.files[op.path].mode) == op.newMode
  }

  function HoldsOldState(w: Workspace, op: ApplyOperation): bool {
    if op.oldKind == ExpectAbsent then op.path !in w.files
    else
      && op.path in w.files
      && w.files[op.path].File?
      && Some(w.files[op.path].hash) == op.oldHash
      && Some(w.files[op.path].mode) == op.oldMode
  }

  function PathOutcome(w: Workspace, op: ApplyOperation): PathResult {
    var seen := op.path in w.files && w.files[op.path].File?;
    PathResult(
      op.path,
      if HoldsNewState(w, op) then PathCommitted else if HoldsOldState(w, op) then PathUnresolved else PathConflict,
      if seen then Some(w.files[op.path].hash) else None,
      if seen then Some(w.files[op.path].mode) else None)
  }

  function PathOutcomes(w: Workspace, operations: seq<ApplyOperation>): (r: seq<PathResult>)
    ensures |r| == |operations|
  {
    seq(|operations|, i requires 0 <= i < |operations| => PathOutcome(w, operations[i]))
  }

  function CommittedCount(paths: seq<PathResult>): (n: nat)
    ensures n <= |paths|
  {
    if paths == [] then 0
    else CommittedCount(paths[..|paths| - 1]) + if paths[|paths| - 1].status == PathCommitted then 1 else 0
  }

  function ObservedStatus(paths: seq<PathResult>): ResultStatus {
    if CommittedCount(paths) == |paths| then Committed
    else if CommittedCount(paths) > 0 then Partial
    else if exists path :: path in paths && path.status == PathConflict then Conflicted
    else Unknown
  }

  function Observe(w: Workspace, id: OperationId, hash: OperationsHash, operations: seq<ApplyOperation>): PublishResult {
    var paths := PathOutcomes(w, operations);
    PublishResult(id, hash, ObservedStatus(paths), paths)
  }

  // Looking at the paths fails as a whole when one of them cannot be looked at.
  function ObserveAll(w: Workspace, id: OperationId, hash: OperationsHash, operations: seq<ApplyOperation>): Option<PublishResult> {
    if AnyObstructed(w, operations) then None else Some(Observe(w, id, hash, operations))
  }

  function ConflictOutcomes(w: Workspace, operations: seq<ApplyOperation>, conflicting: set<Path>): (r: seq<PathResult>)
    ensures |r| == |operations|
  {
    seq(|operations|, i requires 0 <= i < |operations| =>
      PathOutcome(w, operations[i]).(status := if operations[i].path in conflicting then PathConflict else PathUnresolved))
  }

  function ConflictResult(
    w: Workspace, id: OperationId, hash: OperationsHash, operations: seq<ApplyOperation>, conflicts: seq<Conflict>)
    : PublishResult
  {
    PublishResult(id, hash, Conflicted, ConflictOutcomes(w, operations, set c | c in conflicts :: c.path))
  }

  // Effect

  function ApplyOne(files: map<Path, Node>, op: ApplyOperation): map<Path, Node> {
    if op.kind == Deletes then files - {op.path}
    else if op.newHash.Some? && op.newMode.Some? then files[op.path := File(op.newHash.value, op.newMode.value)]
    else files
  }

  function ApplyFirst(files: map<Path, Node>, operations: seq<ApplyOperation>, k: nat): map<Path, Node>
    requires k <= |operations|
  {
    if k == 0 then files else ApplyOne(ApplyFirst(files, operations, k - 1), operations[k - 1])
  }

  predicate NeedsStaging(op: ApplyOperation) {
    op.blobRef.Some? && op.newHash.Some? && op.newMode.Some?
  }

  predicate BlobUsable(blobs: map<BlobId, Bytes>, op: ApplyOperation)
    requires NeedsStaging(op)
  {
    && op.blobRef.value.blobId in blobs
    && var bytes := blobs[op.blobRef.value.blobId];
       && |bytes| == op.blobRef.value.size
       && Sha256(bytes) == op.blobRef.value.sha256
       && Sha256(bytes) == op.newHash.value
  }

  // Staging stops at this operation.
  predicate StopsStaging(files: map<Path, Node>, blobs: map<BlobId, Bytes>, op: ApplyOperation, fault: Option<StagingFault>, i: nat) {
    NeedsStaging(op) &&
    (FaultAt(fault, i).Some? || !BlobUsable(blobs, op) || Obstructed(Workspace(files), op.path))
  }

  /** The first operation staging stops at; the number of operations when it goes through. */
  function StagingStop(
    files: map<Path, Node>, blobs: map<BlobId, Bytes>, operations: seq<ApplyOperation>, fault: Option<StagingFault>, i: nat): (k: nat)
    requires i <= |operations|
    ensures i <= k <= |operations|
    ensures forall j | i <= j < k :: !StopsStaging(files, blobs, operations[j], fault, j)
    ensures k < |operations| ==> StopsStaging(files, blobs, operations[k], fault, k)
    decreases |operations| - i
  {
    if i == |operations| || StopsStaging(files, blobs, operations[i], fault, i) then i
    else StagingStop(files, blobs, operations, fault, i + 1)
  }

  /** The directories new files of these operations lie in. */
  function ParentsOf(operations: seq<ApplyOperation>): set<Path> {
    if operations == [] then {}
    else
      var n := |operations| - 1;
      ParentsOf(operations[..n]) + if NeedsStaging(operations[n]) then AncestorsOf(operations[n].path) else {}
  }

  lemma {:induction false} ParentsLieAbove(operations: seq<ApplyOperation>, a: Path)
    ensures a in ParentsOf(operations) <==> exists op :: op in operations && NeedsStaging(op) && a in AncestorsOf(op.path)
  {
    if operations != [] {
      var n := |operations| - 1;
      ParentsLieAbove(operations[..n], a);
      assert operations == operations[..n] + [operations[n]];
    }
  }

  /** The directories one operation makes, whether or not it then fails. */
  function DirectoriesMade(w: Workspace, blobs: map<BlobId, Bytes>, op: ApplyOperation, fault: Option<bool>): set<Path> {
    if NeedsStaging(op) && BlobUsable(blobs, op) && !Obstructed(w, op.path) && fault != Some(false) then AncestorsOf(op.path) else {}
  }

  function FaultAt(fault: Option<StagingFault>, i: nat): Option<bool> {
    if fault.Some? && fault.value.index == i then Some(fault.value.parentsMade) else None
  }

  /** The directories that staging leaves behind. */
  function StagedDirectories(
    files: map<Path, Node>, blobs: map<BlobId, Bytes>, operations: seq<ApplyOperation>, fault: Option<StagingFault>): set<Path>
  {
    var k := StagingStop(files, blobs, operations, fault, 0);
    if k < |operations| then ParentsOf(operations[..k]) + DirectoriesMade(Workspace(files), blobs, operations[k], FaultAt(fault, k)) else ParentsOf(operations)
  }

  function Staged(w: Workspace, blobs: map<BlobId, Bytes>, operations: seq<ApplyOperation>, fault: Option<StagingFault>): Workspace {
    w.(files := WithDirectories(w.files, StagedDirectories(w.files, blobs, operations, fault)))
  }

  function CommitStop(operations: seq<ApplyOperation>, fault: Option<nat>): (k: nat)
    ensures k <= |operations|
  {
    if fault.Some? && fault.value < |operations| then fault.value else |operations|
  }

  /** What applying a staged batch leaves behind and records. */
  function StagedOutcome(
    staged: Workspace, id: OperationId, hash: OperationsHash, operations: seq<ApplyOperation>, fault: Option<nat>)
    : (Workspace, Option<PublishResult>)
  {
    if AnyObstructed(staged, operations) then (staged, None)
    else if Preflight(staged, operations) != [] then
      (staged, Some(ConflictResult(staged, id, hash, operations, Preflight(staged, operations))))
    else
      var left := staged.(files := ApplyFirst(staged.files, operations, CommitStop(operations, fault)));
      (left, ObserveAll(left, id, hash, operations))
  }

  /**
    The files left behind and the result recorded when a canonical batch is applied for the first time. No
    result is recorded when the paths could not be looked at.
   */
  function Outcome(
    w: Workspace, blobs: map<BlobId, Bytes>, id: OperationId, hash: OperationsHash, operations: seq<ApplyOperation>,
    faults: Faults) : (Workspace, Option<PublishResult>)
  {
    if AnyObstructed(w, operations) then (w, None)
    else if Preflight(w, operations) != [] then (w, Some(ConflictResult(w, id, hash, operations, Preflight(w, operations))))
    else
      var found := if faults.outside.Some? then Workspace(faults.outside.value) else w;
      var staged := Staged(found, blobs, operations, faults.staging);
      if StagingStop(found.files, blobs, operations, faults.staging, 0) < |operations| then
        (staged, ObserveAll(staged, id, hash, operations))
      else StagedOutcome(staged, id, hash, operations, faults.commit)
  }

  // The staged file of every operation from `lo` up to `hi` is in `prepared`.
  ghost predicate HoldsStaged(prepared: map<Path, Node>, operations: seq<ApplyOperation>, lo: nat, hi: nat)
    requires hi <= |operations|
  {
    forall j | lo <= j < hi && NeedsStaging(operations[j]) ::
      && operations[j].path in prepared
      && prepared[operations[j].path] == File(operations[j].newHash.value, operations[j].newMode.value)
  }

  class FilesystemWorkspaceApplyAdapter {
    var workspace: Workspace
    // the durable result directory, one record per operation id
    var results: map<OperationId, PublishResult>
    const durable: bool
    const blobs: map<BlobId, Bytes>
    const less: (Path, Path) -> bool

    constructor (workspace: Workspace, blobs: map<BlobId, Bytes>, less: (Path, Path) -> bool, durable: bool)
      ensures this.workspace == workspace && results == map[]
      ensures this.blobs == blobs && this.less == less && this.durable == durable
    {
      this.workspace, this.results := workspace, map[];
      this.blobs, this.less, this.durable := blobs, less, durable;
    }

    method Apply(id: OperationId, hash: OperationsHash, operations: seq<ApplyOperation>, faults: Faults)
      returns (r: Result<PublishResult, ApplyError>)
      modifies this
      ensures r.Err? ==> results == old(results) && (r.error != NotObservable ==> workspace == old(workspace))
      ensures !durable ==> r == Err(ResultDirectoryMissing)
      ensures durable && Canonical(operations, less).Err? ==> r == Err(OperationsRefused(Canonical(operations, less).error))
      ensures durable && Canonical(operations, less).Ok? ==>
                var sorted := Canonical(operations, less).value;
                if Canonical(sorted, less) != Ok(hash.canonical) then r == Err(OperationsHashMismatch)
                else if id in old(results) then
                  && workspace == old(workspace) && results == old(results)
                  && r == if old(results)[id].operationsHash != hash then Err(OperationIdReused) else Ok(old(results)[id])
                else
                  var (left, recorded) := Outcome(old(workspace), blobs, id, hash, sorted, faults);
                  && workspace == left
                  && if recorded.Some? then results == old(results)[id := recorded.value] && r == Ok(recorded.value)
                     else results == old(results) && r == Err(NotObservable)
    {
      if !durable {
        return Err(ResultDirectoryMissing);
      }
      var canonical := CanonicalOperations(operations, less);
      if canonical.Err? {
        return Err(OperationsRefused(canonical.error));
      }
      var sorted := canonical.value;
      if Canonical(sorted, less) != Ok(hash.canonical) {
        return Err(OperationsHashMismatch);
      }
      if id in results {
        if results[id].operationsHash != hash {
          return Err(OperationIdReused);
        }
        return Ok(results[id]);
      }
      CanonicalIsValid(operations, less);
      var result := ApplyBatch(id, hash, sorted, faults);
      if result.None? {
        return Err(NotObservable);
      }
      results := results[id := result.value];
      return Ok(result.value);
    }

    /**
      The staged two-pass write; a failure after the first check is followed by an observation of what is
      there. `None` when that, or the first check, throws.
     */
    method ApplyBatch(id: OperationId, hash: OperationsHash, operations: seq<ApplyOperation>, faults: Faults)
      returns (result: Option<PublishResult>)
      requires DistinctPaths(operations)
      requires forall op | op in operations :: IsValidOperation(op)
      modifies this`workspace
      ensures (workspace, result) == Outcome(old(workspace), blobs, id, hash, operations, faults)
    {
      var checked := PreflightSorted(workspace, operations);
      if checked.Err? {
        return None;
      }
      if checked.value != [] {
        result := ReportConflicts(id, hash, operations, checked.value);
        return;
      }
      CleanIsUnobstructed(workspace, operations);
      if faults.outside.Some? {
        workspace := Workspace(faults.outside.value);
      }
      var staged := Stage(operations, faults.staging);
      if staged.None? {
        return ObserveAll(workspace, id, hash, operations);
      }
      var checkedAgain := PreflightSorted(workspace, operations);
      if checkedAgain.Err? {
        return ObserveAll(workspace, id, hash, operations);
      }
      if checkedAgain.value != [] {
        result := ReportConflicts(id, hash, operations, checkedAgain.value);
        return;
      }
      CleanIsUnobstructed(workspace, operations);
      CommitStaged(staged.value, operations, faults.commit);
      return ObserveAll(workspace, id, hash, operations);
    }

    /** A conflict is recorded with what every path looks like, which fails when one cannot be looked at. */
    method ReportConflicts(id: OperationId, hash: OperationsHash, operations: seq<ApplyOperation>, conflicts: seq<Conflict>)
      returns (result: Option<PublishResult>)
      ensures result == if AnyObstructed(workspace, operations) then None
                        else Some(ConflictResult(workspace, id, hash, operations, conflicts))
    {
      if AnyObstructed(workspace, operations) {
        return None;
      }
      return Some(ConflictResult(workspace, id, hash, operations, conflicts));
    }

    /** Writes every new file beside its target, making its directories; `None` when a blob or a write fails. */
    method Stage(operations: seq<ApplyOperation>, fault: Option<StagingFault>) returns (staged: Option<map<Path, Node>>)
      requires DistinctPaths(operations)
      modifies this`workspace
      ensures workspace == Staged(old(workspace), blobs, operations, fault)
      ensures staged.Some? <==> StagingStop(old(workspace).files, blobs, operations, fault, 0) == |operations|
      ensures staged.Some? ==> HoldsStaged(staged.value, operations, 0, |operations|)
    {
      var prepared: map<Path, Node> := map[];
      ghost var files, k := workspace.files, StagingStop(workspace.files, blobs, operations, fault, 0);
      for i := 0 to |operations|
        invariant i <= k
        invariant workspace.files == WithDirectories(files, ParentsOf(operations[..i]))
        invariant HoldsStaged(prepared, operations, 0, i)
      {
        var op := operations[i];
        var node := StageOne(op, FaultAt(fault, i));
        StagingStep(files, blobs, operations, fault, i);
        if NeedsStaging(op) && node.None? {
          return None;
        }
        StagedOneMore(prepared, operations, i);
        prepared := if NeedsStaging(op) then prepared[op.path := node.value] else prepared;
      }
      assert operations[..|operations|] == operations;
      return Some(prepared);
    }

    /** Checks the blob, makes the directories, writes the file; `fault` fails it, before or after the directories. */
    method StageOne(op: ApplyOperation, fault: Option<bool>) returns (node: Option<Node>)
      modifies this`workspace
      ensures node.None? <==> !NeedsStaging(op) || fault.Some? || !BlobUsable(blobs, op) || Obstructed(old(workspace), op.path)
      ensures node.Some? ==> node.value == File(op.newHash.value, op.newMode.value)
      ensures workspace.files == WithDirectories(old(workspace).files, DirectoriesMade(old(workspace), blobs, op, fault))
    {
      if !NeedsStaging(op) || !BlobUsable(blobs, op) || Obstructed(workspace, op.path) || fault == Some(false) {
        return None;
      }
      workspace := workspace.(files := WithDirectories(workspace.files, AncestorsOf(op.path)));
      if fault.Some? {
        return None;
      }
      return Some(File(Sha256(blobs[op.blobRef.value.blobId]), op.newMode.value));
    }

    /** Unlinks and renames, in order, up to the operation that fails. */
    method CommitStaged(staged: map<Path, Node>, operations: seq<ApplyOperation>, fault: Option<nat>)
      requires DistinctPaths(operations)
      requires forall op | op in operations :: IsValidOperation(op)
      requires HoldsStaged(staged, operations, 0, |operations|)
      modifies this`workspace
      ensures workspace.files == ApplyFirst(old(workspace).files, operations, CommitStop(operations, fault))
    {
      var prepared := staged;
      var i := 0;
      while i < |operations| && fault != Some(i)
        invariant 0 <= i <= CommitStop(operations, fault)
        invariant workspace.files == ApplyFirst(old(workspace).files, operations, i)
        invariant HoldsStaged(prepared, operations, i, |operations|)
      {
        var op := operations[i];
        assert IsValidOperation(op);
        if op.kind == Deletes {
          workspace := workspace.(files := workspace.files - {op.path});
        } else if op.path in prepared {
          workspace := workspace.(files := workspace.files[op.path := prepared[op.path]]);
          prepared := prepared - {op.path};
        }
        i := i + 1;
      }
    }
  }

  lemma MoreParents(operations: seq<ApplyOperation>, i: nat)
    requires i < |operations|
    ensures ParentsOf(operations[..i + 1]) ==
              ParentsOf(operations[..i]) + if NeedsStaging(operations[i]) then AncestorsOf(operations[i].path) else {}
  {
    assert operations[..i + 1][..i] == operations[..i];
  }

  lemma StagedOneMore(prepared: map<Path, Node>, operations: seq<ApplyOperation>, i: nat)
    requires i < |operations| && DistinctPaths(operations) && HoldsStaged(prepared, operations, 0, i)
    ensures var op := operations[i];
            HoldsStaged(if NeedsStaging(op) then prepared[op.path := File(op.newHash.value, op.newMode.value)] else prepared,
                        operations, 0, i + 1)
  {
  }

  // One operation of the staging loop, on the directories made before it
  lemma StagingStep(
    files: map<Path, Node>, blobs: map<BlobId, Bytes>, operations: seq<ApplyOperation>, fault: Option<StagingFault>, i: nat)
    requires i < |operations| && i <= StagingStop(files, blobs, operations, fault, 0)
    ensures var op, here := operations[i], FaultAt(fault, i);
            var seen := Workspace(WithDirectories(files, ParentsOf(operations[..i])));
            var files' := WithDirectories(seen.files, DirectoriesMade(seen, blobs, op, here));
            if NeedsStaging(op) && (here.Some? || !BlobUsable(blobs, op) || Obstructed(seen, op.path)) then
              && StagingStop(files, blobs, operations, fault, 0) == i
              && files' == WithDirectories(files, StagedDirectories(files, blobs, operations, fault))
            else
              i < StagingStop(files, blobs, operations, fault, 0) && files' == WithDirectories(files, ParentsOf(operations[..i + 1]))
  {
    var op, made := operations[i], ParentsOf(operations[..i]);
    DirectoriesObstructNothing(files, made, op.path);
    DirectoriesAddUp(files, made, DirectoriesMade(Workspace(files), blobs, op, FaultAt(fault, i)));
    MoreParents(operations, i);
  }
}
