/**
  Publishing preserves meaning: the difference between two snapshots, translated, ordered and
  applied, turns a workspace that holds the first on the touched paths into one that holds the
  second, and touches nothing else.
 */
module PublishMeaning {
  import opened Wrappers
  import opened Ordering
  import opened Snapshot
  import opened CandidateBuilder
  import opened WorkspaceTree
  import opened PublishOperations
  import opened WorkspaceApply
  import opened PublishReconcile

  // Assumptions on captured snapshots

  // git-snapshot.ts takes the blob id, the digest and the size of one entry from the same bytes.
  predicate Faithful(e: Entry) {
    e.blobId.content == e.sha256.content && e.size == |e.sha256.content|
  }

  // File systems hand out no path with a NUL character, and symbolic links are not published.
  predicate Publishable(e: Entry) {
    Faithful(e) && e.kind == FileKind && e.mode != Link && '\0' !in e.path
  }

  ghost predicate PublishableEntries(m: map<Path, Entry>) {
    forall p | p in m :: m[p].path == p && Publishable(m[p])
  }

  predicate HoldsBlobsOf(blobs: map<BlobId, Bytes>, m: map<Path, Entry>) {
    forall p | p in m :: m[p].blobId in blobs && blobs[m[p].blobId] == m[p].blobId.content
  }

  // The state of one path, on disk and in a snapshot

  function NodeAt(files: map<Path, Node>, path: Path): Option<Node> {
    if path in files then Some(files[path]) else None
  }

  function EntryNode(entries: map<Path, Entry>, path: Path): Option<Node> {
    if path in entries then Some(File(entries[path].sha256, ModeBits(entries[path].mode))) else None
  }

  // The operation leads from one state of its path to another, and its new content can be read.
  ghost predicate Carries(op: ApplyOperation, was: Option<Node>, becomes: Option<Node>, blobs: map<BlobId, Bytes>) {
    && IsValidOperation(op)
    && was != becomes
    && (if op.oldKind == ExpectAbsent then was == None
        else op.oldHash.Some? && op.oldMode.Some? && was == Some(File(op.oldHash.value, op.oldMode.value)))
    && (if op.kind == Deletes then becomes == None
        else op.newHash.Some? && op.newMode.Some? && becomes == Some(File(op.newHash.value, op.newMode.value)))
    && (NeedsStaging(op) ==> BlobUsable(blobs, op))
  }

  lemma TranslationCarries(before: map<Path, Entry>, after: map<Path, Entry>, path: Path, blobs: map<BlobId, Bytes>)
    requires PublishableEntries(before) && PublishableEntries(after)
    requires HoldsBlobsOf(blobs, after)
    requires Differs(before, after, path) && !IsControlPlanePath(path)
    ensures TargetsPresent(before) && TargetsPresent(after)
    ensures var op := PublishOperation(OperationFor(before, after, path), after);
            op.Ok? && op.value.path == path && Carries(op.value, EntryNode(before, path), EntryNode(after, path), blobs)
  {
    assert TargetsPresent(before) && TargetsPresent(after);
    if path in before { assert Publishable(before[path]); }
    if path in after { assert Publishable(after[path]); }
    assert PublishOperation(OperationFor(before, after, path), after).Ok?;
    var op := PublishOperation(OperationFor(before, after, path), after).value;
    if path in before && path in after {
      assert before[path].sha256 == after[path].sha256 ==> before[path].blobId == after[path].blobId by {
        assert before[path].blobId == GitBlob(before[path].blobId.content);
        assert after[path].blobId == GitBlob(after[path].blobId.content);
      }
    }
    if path in after {
      assert op.newHash == Some(after[path].sha256);
      assert BlobUsable(blobs, op) by {
        assert Sha256(after[path].sha256.content) == after[path].sha256;
      }
    }
  }

  lemma {:induction false} PublishEachCarries(
    operations: seq<CandidateOperation>, before: map<Path, Entry>, after: map<Path, Entry>, blobs: map<BlobId, Bytes>)
    requires PublishableEntries(before) && PublishableEntries(after)
    requires HoldsBlobsOf(blobs, after)
    requires TargetsPresent(before) && TargetsPresent(after)
    requires forall i | 0 <= i < |operations| ::
               && Differs(before, after, operations[i].path) && !IsControlPlanePath(operations[i].path)
               && operations[i] == OperationFor(before, after, operations[i].path)
    ensures var r := PublishEach(operations, after);
            && r.Ok? && |r.value| == |operations|
            && forall i | 0 <= i < |operations| ::
                 && r.value[i].path == operations[i].path
                 && Carries(r.value[i], EntryNode(before, operations[i].path), EntryNode(after, operations[i].path), blobs)
  {
    if operations != [] {
      TranslationCarries(before, after, operations[0].path, blobs);
      PublishEachCarries(operations[1..], before, after, blobs);
      var r, rest := PublishEach(operations, after).value, PublishEach(operations[1..], after).value;
      assert forall i | 0 < i < |operations| :: r[i] == rest[i - 1] && operations[i] == operations[1..][i - 1];
    }
  }

  // One operation for each touched path, whatever their order.
  ghost predicate Batch(
    operations: seq<ApplyOperation>, before: map<Path, Entry>, after: map<Path, Entry>, blobs: map<BlobId, Bytes>)
  {
    && DistinctPaths(operations)
    && PathSet(operations) == DifferingPaths(before, after)
    && forall op | op in operations :: Carries(op, EntryNode(before, op.path), EntryNode(after, op.path), blobs)
  }

  // The touched paths of the workspace hold the snapshot's entries; no link lies on them and nothing stands in
  // their way.
  ghost predicate Holds(w: Workspace, entries: map<Path, Entry>, touched: set<Path>) {
    && IsTree(w.files)
    && forall p | p in touched :: !Linked(w, p) && !Obstructed(w, p) && NodeAt(w.files, p) == EntryNode(entries, p)
  }

  // No file of a snapshot lies under another one.
  ghost predicate IsUnnested(entries: map<Path, Entry>) {
    forall p, q | p in entries && q in entries :: p !in AncestorsOf(q)
  }

  lemma BatchIsValid(
    operations: seq<ApplyOperation>, before: map<Path, Entry>, after: map<Path, Entry>, blobs: map<BlobId, Bytes>)
    requires Batch(operations, before, after, blobs)
    ensures forall op | op in operations :: ChangesItsPath(op) && IsValidOperation(op)
    ensures forall op | op in operations ::
              && (NeedsStaging(op) ==> BlobUsable(blobs, op))
              && (NeedsStaging(op) <==> op.path in after)
              && op.path in DifferingPaths(before, after)
  {
    forall op | op in operations ensures ChangesItsPath(op) && IsValidOperation(op)
      ensures (NeedsStaging(op) ==> BlobUsable(blobs, op)) && (NeedsStaging(op) <==> op.path in after)
      ensures op.path in DifferingPaths(before, after)
    {
      assert Carries(op, EntryNode(before, op.path), EntryNode(after, op.path), blobs);
      assert op.path in PathSet(operations);
    }
  }

  lemma BatchPassesPreflight(
    w: Workspace, operations: seq<ApplyOperation>, before: map<Path, Entry>, after: map<Path, Entry>, blobs: map<BlobId, Bytes>)
    requires Batch(operations, before, after, blobs)
    requires Holds(w, before, DifferingPaths(before, after))
    ensures Preflight(w, operations) == [] && !AnyObstructed(w, operations)
  {
    BatchIsValid(operations, before, after, blobs);
    forall i | 0 <= i < |operations| ensures PreflightReason(w, operations[i]).None? {
      var op := operations[i];
      assert op in operations && op.path in PathSet(operations);
      assert Carries(op, EntryNode(before, op.path), EntryNode(after, op.path), blobs);
      assert NodeAt(w.files, op.path) == EntryNode(before, op.path);
    }
    PreflightClean(w, operations);
  }

  lemma BatchStages(
    w: Workspace, operations: seq<ApplyOperation>, before: map<Path, Entry>, after: map<Path, Entry>, blobs: map<BlobId, Bytes>)
    requires Batch(operations, before, after, blobs)
    requires Holds(w, before, DifferingPaths(before, after))
    ensures StagingStop(w.files, blobs, operations, None, 0) == |operations|
    ensures Staged(w, blobs, operations, None).files == WithDirectories(w.files, ParentsOf(operations))
  {
    BatchIsValid(operations, before, after, blobs);
    forall i | 0 <= i < |operations| ensures !StopsStaging(w.files, blobs, operations[i], None, i) {
      assert operations[i] in operations;
    }
  }

  // The directories that are made: those that are missing above a file of the second snapshot
  lemma ParentsOfBatch(
    operations: seq<ApplyOperation>, before: map<Path, Entry>, after: map<Path, Entry>, blobs: map<BlobId, Bytes>, a: Path)
    requires Batch(operations, before, after, blobs)
    ensures a in ParentsOf(operations) <==> exists q :: q in DifferingPaths(before, after) && q in after && a in AncestorsOf(q)
  {
    BatchIsValid(operations, before, after, blobs);
    ParentsLieAbove(operations, a);
    if q :| q in DifferingPaths(before, after) && q in after && a in AncestorsOf(q) {
      assert q in PathSet(operations);
      var op :| op in operations && op.path == q;
    }
  }

  lemma ParentsStayOutOfTheWay(
    w: Workspace, operations: seq<ApplyOperation>, before: map<Path, Entry>, after: map<Path, Entry>, blobs: map<BlobId, Bytes>, p: Path)
    requires Batch(operations, before, after, blobs) && IsUnnested(after)
    requires Holds(w, before, DifferingPaths(before, after)) && p in DifferingPaths(before, after)
    ensures var staged := Workspace(WithDirectories(w.files, ParentsOf(operations)));
            !Linked(staged, p) && !Obstructed(staged, p) && NodeAt(staged.files, p) == EntryNode(before, p)
  {
    DirectoriesObstructNothing(w.files, ParentsOf(operations), p);
    DirectoriesAreAdded(w.files, ParentsOf(operations), p);
    ParentsOfBatch(operations, before, after, blobs, p);
  }

  lemma StagedBatchIsClean(
    w: Workspace, operations: seq<ApplyOperation>, before: map<Path, Entry>, after: map<Path, Entry>, blobs: map<BlobId, Bytes>)
    requires operations != [] && Batch(operations, before, after, blobs) && IsUnnested(after)
    requires Holds(w, before, DifferingPaths(before, after))
    ensures IsClean(Workspace(WithDirectories(w.files, ParentsOf(operations))), operations)
  {
    var staged := Workspace(WithDirectories(w.files, ParentsOf(operations)));
    BatchPassesPreflight(w, operations, before, after, blobs);
    StagedStaysTree(w, operations);
    forall p | p in DifferingPaths(before, after)
      ensures !Linked(staged, p) && !Obstructed(staged, p) && NodeAt(staged.files, p) == EntryNode(before, p)
    {
      ParentsStayOutOfTheWay(w, operations, before, after, blobs, p);
    }
    BatchPassesPreflight(staged, operations, before, after, blobs);
    BatchIsValid(operations, before, after, blobs);
  }

  /** What a path holds once the second snapshot is installed over the first. */
  ghost function Installed(files: map<Path, Node>, before: map<Path, Entry>, after: map<Path, Entry>, p: Path): Option<Node> {
    if p in DifferingPaths(before, after) then EntryNode(after, p)
    else if p in files then Some(files[p])
    else if exists q :: q in DifferingPaths(before, after) && q in after && p in AncestorsOf(q) then Some(Directory)
    else None
  }

  lemma BatchLeaves(
    files: map<Path, Node>, operations: seq<ApplyOperation>, before: map<Path, Entry>, after: map<Path, Entry>,
    blobs: map<BlobId, Bytes>, p: Path)
    requires Batch(operations, before, after, blobs)
    ensures NodeAt(ApplyFirst(WithDirectories(files, ParentsOf(operations)), operations, |operations|), p) ==
              Installed(files, before, after, p)
  {
    var n := |operations|;
    BatchIsValid(operations, before, after, blobs);
    var made := WithDirectories(files, ParentsOf(operations));
    if p in PathSet(operations) {
      var op :| op in operations && op.path == p;
      var i :| 0 <= i < n && operations[i] == op;
      ApplyFirstTouches(made, operations, n, i);
      assert Carries(op, EntryNode(before, op.path), EntryNode(after, op.path), blobs);
    } else {
      forall i | 0 <= i < n ensures operations[i].path != p { assert operations[i] in operations; }
      ApplyFirstKeeps(made, operations, n, p);
      DirectoriesAreAdded(files, ParentsOf(operations), p);
      ParentsOfBatch(operations, before, after, blobs, p);
    }
  }

  lemma BatchCommits(
    w: Workspace, operations: seq<ApplyOperation>, before: map<Path, Entry>, after: map<Path, Entry>,
    blobs: map<BlobId, Bytes>, id: OperationId, hash: OperationsHash)
    requires operations != [] && Batch(operations, before, after, blobs) && IsUnnested(after)
    requires Holds(w, before, DifferingPaths(before, after))
    ensures var left := Workspace(ApplyFirst(WithDirectories(w.files, ParentsOf(operations)), operations, |operations|));
            && Outcome(w, blobs, id, hash, operations, NO_FAULTS) == (left, Some(Observe(left, id, hash, operations)))
            && Observe(left, id, hash, operations).status == Committed
  {
    var staged := Workspace(WithDirectories(w.files, ParentsOf(operations)));
    BatchPassesPreflight(w, operations, before, after, blobs);
    BatchStages(w, operations, before, after, blobs);
    StagedBatchIsClean(w, operations, before, after, blobs);
    BatchIsValid(operations, before, after, blobs);
    CleanBatchStaysObservable(staged, operations, |operations|);
    StoppedBatchIsReported(staged, operations, |operations|, id, hash);
  }

  /**
    A fault-free application of a batch installs the second snapshot on exactly the touched paths, makes the
    missing directories above its files, and leaves everything else as it was.
   */
  lemma BatchInstalls(
    w: Workspace, operations: seq<ApplyOperation>, before: map<Path, Entry>, after: map<Path, Entry>,
    blobs: map<BlobId, Bytes>, id: OperationId, hash: OperationsHash)
    requires operations != []
    requires Batch(operations, before, after, blobs) && IsUnnested(after)
    requires Holds(w, before, DifferingPaths(before, after))
    ensures var (left, recorded) := Outcome(w, blobs, id, hash, operations, NO_FAULTS);
            && recorded.Some? && recorded.value.status == Committed
            && forall p :: NodeAt(left.files, p) == Installed(w.files, before, after, p)
  {
    BatchCommits(w, operations, before, after, blobs, id, hash);
    forall p ensures NodeAt(ApplyFirst(WithDirectories(w.files, ParentsOf(operations)), operations, |operations|), p) ==
                     Installed(w.files, before, after, p) {
      BatchLeaves(w.files, operations, before, after, blobs, p);
    }
  }

  lemma PermutedBatch(
    xs: seq<ApplyOperation>, ys: seq<ApplyOperation>, before: map<Path, Entry>, after: map<Path, Entry>,
    blobs: map<BlobId, Bytes>)
    requires multiset(xs) == multiset(ys) && Batch(xs, before, after, blobs)
    ensures Batch(ys, before, after, blobs)
  {
    assert |xs| == |multiset(xs)| == |ys|;
    forall op ensures op in xs <==> op in ys { SamePermutedElement(xs, ys, op); }
    assert PathSet(xs) == PathSet(ys);
    DistinctPathsBySetSize(xs);
    DistinctPathsBySetSize(ys);
  }

  lemma TranslatedPaths(
    operations: seq<CandidateOperation>, ops: seq<ApplyOperation>, before: map<Path, Entry>, after: map<Path, Entry>)
    requires TargetsPresent(before) && TargetsPresent(after)
    requires Describes(operations, before, after)
    requires |ops| == |operations| && forall i | 0 <= i < |ops| :: ops[i].path == operations[i].path
    ensures DistinctPaths(ops) && PathSet(ops) == DifferingPaths(before, after)
  {
    forall i, j | 0 <= i < j < |ops| ensures ops[i].path != ops[j].path {
      TextLessTrichotomy(operations[i].path, operations[j].path);
      assert TextLess(operations[i].path, operations[j].path);
    }
    var touched := set i | 0 <= i < |operations| :: operations[i].path;
    forall p ensures p in PathSet(ops) <==> p in touched {
      if p in PathSet(ops) {
        var op :| op in ops && op.path == p;
        var i :| 0 <= i < |ops| && ops[i] == op;
        assert operations[i].path == p;
      }
      if p in touched {
        var i :| 0 <= i < |operations| && operations[i].path == p;
        assert ops[i].path == p && ops[i] in ops;
      }
    }
  }

  lemma TranslationIsBatch(
    operations: seq<CandidateOperation>, before: map<Path, Entry>, after: map<Path, Entry>, blobs: map<BlobId, Bytes>)
    requires PublishableEntries(before) && PublishableEntries(after)
    requires HoldsBlobsOf(blobs, after)
    requires TargetsPresent(before) && TargetsPresent(after)
    requires Describes(operations, before, after)
    requires forall i | 0 <= i < |operations| :: !IsControlPlanePath(operations[i].path)
    ensures PublishEach(operations, after).Ok? && Batch(PublishEach(operations, after).value, before, after, blobs)
  {
    PublishEachCarries(operations, before, after, blobs);
    var ops := PublishEach(operations, after).value;
    TranslatedPaths(operations, ops, before, after);
    forall op | op in ops ensures Carries(op, EntryNode(before, op.path), EntryNode(after, op.path), blobs) {
      var i :| 0 <= i < |ops| && ops[i] == op;
    }
  }

  lemma BuiltCandidate(baseline: GitSnapshot, result: GitSnapshot, candidate: Candidate)
    requires BuildGitCandidate(baseline, result) == Ok(candidate)
    ensures var before, after := ByPath(baseline.entries), ByPath(result.entries);
            && VerifySnapshot(baseline) && VerifySnapshot(result)
            && TargetsPresent(before) && TargetsPresent(after)
            && Describes(candidate.operations, before, after)
            && (forall i | 0 <= i < |candidate.operations| :: !IsControlPlanePath(candidate.operations[i].path))
            && GitPublishOperations(candidate, result) == PublishEach(candidate.operations, after)
  {
    OnlyTheBuiltCandidateIsAccepted(candidate, baseline, result);
  }

  lemma SafePathIsPublishable(path: Path)
    requires IsSafeRelativePath(path) && '\0' !in path
    ensures IsPublishablePath(path)
  {
  }

  lemma TouchedPathsArePublishable(baseline: GitSnapshot, result: GitSnapshot, path: Path)
    requires VerifySnapshot(baseline) && VerifySnapshot(result)
    requires PublishableEntries(ByPath(baseline.entries)) && PublishableEntries(ByPath(result.entries))
    requires path in DifferingPaths(ByPath(baseline.entries), ByPath(result.entries))
    ensures IsPublishablePath(path)
  {
    if path in ByPath(baseline.entries) {
      ByPathKeys(baseline.entries, path);
    } else {
      ByPathKeys(result.entries, path);
    }
    SafePathIsPublishable(path);
  }

  lemma BatchInAnyOrder(
    ops: seq<ApplyOperation>, given: seq<ApplyOperation>, before: map<Path, Entry>, after: map<Path, Entry>,
    less: (Path, Path) -> bool, blobs: map<BlobId, Bytes>, w: Workspace, id: OperationId)
    requires Batch(ops, before, after, blobs) && multiset(given) == multiset(ops)
    requires forall p | p in DifferingPaths(before, after) :: IsPublishablePath(p)
    requires DifferingPaths(before, after) != {}
    requires StrictTotalOn(less, DifferingPaths(before, after))
    requires Holds(w, before, DifferingPaths(before, after)) && IsUnnested(after)
    ensures Canonical(given, less) == Ok(SortBy(OnPath(less), ops))
    ensures var sorted := SortBy(OnPath(less), ops);
            var (left, recorded) := Outcome(w, blobs, id, OperationsHash(sorted), sorted, NO_FAULTS);
            && recorded.Some? && recorded.value.status == Committed
            && forall p :: NodeAt(left.files, p) == Installed(w.files, before, after, p)
  {
    PermutedBatch(ops, given, before, after, blobs);
    forall op | op in given ensures IsPublishablePath(op.path) && IsValidOperation(op) {
      assert op.path in PathSet(given);
      assert Carries(op, EntryNode(before, op.path), EntryNode(after, op.path), blobs);
    }
    assert given != [] by {
      assert PathSet(given) != {};
    }
    CanonicalAccepts(given, less);
    CanonicalContents(given, less);
    CanonicalIgnoresOrder(given, ops, less);
    var sorted := SortBy(OnPath(less), ops);
    PermutedBatch(ops, sorted, before, after, blobs);
    BatchInstalls(w, sorted, before, after, blobs, id, OperationsHash(sorted));
  }

  /**
    From two verified snapshots without symbolic links to the files on disk: whatever order the
    operations are handed over in, a fault-free publish of the built candidate is accepted, reports
    COMMITTED, leaves the result snapshot on the touched paths, makes the directories its files need and
    leaves every other path alone. The workspace is a tree, nothing stands in the way of a touched path, and
    no file of the result lies under another.
   */
  lemma PublishPreservesMeaning(
    baseline: GitSnapshot, result: GitSnapshot, candidate: Candidate, given: seq<ApplyOperation>,
    less: (Path, Path) -> bool, blobs: map<BlobId, Bytes>, w: Workspace, id: OperationId)
    requires BuildGitCandidate(baseline, result) == Ok(candidate)
    requires PublishableEntries(ByPath(baseline.entries)) && PublishableEntries(ByPath(result.entries))
    requires HoldsBlobsOf(blobs, ByPath(result.entries)) && IsUnnested(ByPath(result.entries))
    requires var touched := DifferingPaths(ByPath(baseline.entries), ByPath(result.entries));
             touched != {} && StrictTotalOn(less, touched) && Holds(w, ByPath(baseline.entries), touched)
    requires GitPublishOperations(candidate, result).Ok? ==>
               multiset(given) == multiset(GitPublishOperations(candidate, result).value)
    ensures GitPublishOperations(candidate, result).Ok?
    ensures Canonical(given, less).Ok?
    ensures var sorted := Canonical(given, less).value;
            var (left, recorded) := Outcome(w, blobs, id, OperationsHash(sorted), sorted, NO_FAULTS);
            && sorted == SortBy(OnPath(less), GitPublishOperations(candidate, result).value)
            && recorded.Some? && recorded.value.status == Committed
            && forall p :: NodeAt(left.files, p) == Installed(w.files, ByPath(baseline.entries), ByPath(result.entries), p)
  {
    var before, after := ByPath(baseline.entries), ByPath(result.entries);
    BuiltCandidate(baseline, result, candidate);
    TranslationIsBatch(candidate.operations, before, after, blobs);
    forall p | p in DifferingPaths(before, after) ensures IsPublishablePath(p) {
      TouchedPathsArePublishable(baseline, result, p);
    }
    BatchInAnyOrder(GitPublishOperations(candidate, result).value, given, before, after, less, blobs, w, id);
  }

  /**
    A candidate without operations, which an allowed no-change task produces, cannot be published:
    its batch is refused before the adapter is asked for anything.
   */
  lemma NoChangeCandidateIsRefused(
    baseline: GitSnapshot, result: GitSnapshot, candidate: Candidate, less: (Path, Path) -> bool)
    requires BuildGitCandidate(baseline, result) == Ok(candidate)
    ensures DifferingPaths(ByPath(baseline.entries), ByPath(result.entries)) == {} ==>
              && GitPublishOperations(candidate, result) == Ok([])
              && Canonical([], less) == Err(EmptyOrDuplicate)
  {
    OnlyTheBuiltCandidateIsAccepted(candidate, baseline, result);
  }
}
