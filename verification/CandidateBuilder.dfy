/**
  The candidate: the list of operations that leads from a run's baseline snapshot to its result
  snapshot (packages/workspace/src/candidate-builder.ts).
 */
module CandidateBuilder {
  import opened Wrappers
  import opened Ordering
  import opened Snapshot

  datatype CandidateEntry =
    | FileEntry(path: Path, sha256: Digest, size: nat, mode: nat)
    | SymlinkEntry(path: Path, sha256: Digest, target: Bytes, mode: nat)

  datatype CandidateOperation =
    | Add(path: Path, newEntry: CandidateEntry)
    | Modify(path: Path, oldEntry: CandidateEntry, newEntry: CandidateEntry)
    | Delete(path: Path, oldEntry: CandidateEntry)

  datatype CandidateHash = CandidateHash(baseline: SnapshotHash, result: SnapshotHash, operations: seq<CandidateOperation>)
  datatype Candidate = Candidate(
    baselineHash: SnapshotHash, resultHash: SnapshotHash, operations: seq<CandidateOperation>, candidateHash: CandidateHash)

  datatype CandidateError = SnapshotBindingInvalid | ControlPathForbidden(path: Path)

  // 0o644, 0o755 and 0o777
  function ModeBits(mode: GitMode): nat {
    match mode
    case Regular => 420
    case Executable => 493
    case Link => 511
  }

  predicate HasItsTarget(e: Entry) {
    e.kind == SymlinkKind ==> e.target.Some?
  }

  function ToCandidateEntry(e: Entry): CandidateEntry
    requires HasItsTarget(e)
  {
    if e.kind == SymlinkKind then SymlinkEntry(e.path, e.sha256, e.target.value, ModeBits(Link))
    else FileEntry(e.path, e.sha256, e.size, ModeBits(e.mode))
  }

  ghost predicate TargetsPresent(m: map<Path, Entry>) {
    forall p | p in m :: m[p].path == p && HasItsTarget(m[p])
  }

  /** A path is touched when it exists on one side only, or its blob or mode differs. */
  predicate Differs(before: map<Path, Entry>, after: map<Path, Entry>, path: Path) {
    if path in before && path in after then
      before[path].blobId != after[path].blobId || before[path].mode != after[path].mode
    else path in before || path in after
  }

  /** The one operation that takes `path` from its old entry to its new one. */
  function OperationFor(before: map<Path, Entry>, after: map<Path, Entry>, path: Path): (op: CandidateOperation)
    requires TargetsPresent(before) && TargetsPresent(after)
    requires Differs(before, after, path)
    ensures op.path == path
  {
    if path !in before then Add(path, ToCandidateEntry(after[path]))
    else if path !in after then Delete(path, ToCandidateEntry(before[path]))
    else Modify(path, ToCandidateEntry(before[path]), ToCandidateEntry(after[path]))
  }

  function OperationsAlong(before: map<Path, Entry>, after: map<Path, Entry>, paths: seq<Path>): seq<CandidateOperation>
    requires TargetsPresent(before) && TargetsPresent(after)
  {
    if paths == [] then []
    else
      var last := paths[|paths| - 1];
      var earlier := OperationsAlong(before, after, paths[..|paths| - 1]);
      if Differs(before, after, last) then earlier + [OperationFor(before, after, last)] else earlier
  }

  /** `[...new Set(xs)]`: first occurrences, in order. */
  function Dedup(xs: seq<Path>): (r: seq<Path>)
    ensures Distinct(r)
    ensures forall x :: x in r <==> x in xs
  {
    if xs == [] then []
    else
      var last := xs[|xs| - 1];
      var rest := Dedup(xs[..|xs| - 1]);
      assert forall x :: x in xs <==> x in xs[..|xs| - 1] || x == last;
      if last in rest then rest else rest + [last]
  }

  function AllPaths(baseline: GitSnapshot, result: GitSnapshot): seq<Path> {
    SortBy(TextLess, Dedup(Paths(baseline.entries) + Paths(result.entries)))
  }

  function Diff(baseline: GitSnapshot, result: GitSnapshot): seq<CandidateOperation>
    requires VerifySnapshot(baseline) && VerifySnapshot(result)
  {
    OperationsAlong(ByPath(baseline.entries), ByPath(result.entries), AllPaths(baseline, result))
  }

  method GitOperations(baseline: GitSnapshot, result: GitSnapshot) returns (operations: seq<CandidateOperation>)
    requires VerifySnapshot(baseline) && VerifySnapshot(result)
    ensures operations == Diff(baseline, result)
  {
    operations := CollectOperations(ByPath(baseline.entries), ByPath(result.entries), AllPaths(baseline, result));
  }

  method CollectOperations(before: map<Path, Entry>, after: map<Path, Entry>, paths: seq<Path>)
    returns (operations: seq<CandidateOperation>)
    requires TargetsPresent(before) && TargetsPresent(after)
    ensures operations == OperationsAlong(before, after, paths)
  {
    operations := [];
    for i := 0 to |paths|
      invariant operations == OperationsAlong(before, after, paths[..i])
    {
      var path := paths[i];
      assert paths[..i + 1][..i] == paths[..i];
      if path !in before && path in after {
        operations := operations + [Add(path, ToCandidateEntry(after[path]))];
      } else if path in before && path !in after {
        operations := operations + [Delete(path, ToCandidateEntry(before[path]))];
      } else if path in before && path in after &&
                (before[path].blobId != after[path].blobId || before[path].mode != after[path].mode) {
        operations := operations + [Modify(path, ToCandidateEntry(before[path]), ToCandidateEntry(after[path]))];
      }
    }
    assert paths[..|paths|] == paths;
  }

  ghost function DifferingPaths(before: map<Path, Entry>, after: map<Path, Entry>): set<Path> {
    set path | path in before.Keys + after.Keys && Differs(before, after, path)
  }

  // What a list of operations must look like to describe the step from one set of entries to the
  // other, stated without saying how it is computed.
  ghost predicate Describes(operations: seq<CandidateOperation>, before: map<Path, Entry>, after: map<Path, Entry>)
    requires TargetsPresent(before) && TargetsPresent(after)
  {
    && (forall i, j | 0 <= i < j < |operations| :: TextLess(operations[i].path, operations[j].path))
    && (forall i | 0 <= i < |operations| :: Differs(before, after, operations[i].path) &&
          operations[i] == OperationFor(before, after, operations[i].path))
    && (set i | 0 <= i < |operations| :: operations[i].path) == DifferingPaths(before, after)
  }

  ghost predicate OrderedByPath(ops: seq<CandidateOperation>) {
    forall i, j | 0 <= i < j < |ops| :: TextLess(ops[i].path, ops[j].path)
  }

  // Every operation is the one for its path, among `paths`.
  ghost predicate DrawnAlong(ops: seq<CandidateOperation>, before: map<Path, Entry>, after: map<Path, Entry>, paths: seq<Path>)
    requires TargetsPresent(before) && TargetsPresent(after)
  {
    forall i | 0 <= i < |ops| ::
      ops[i].path in paths && Differs(before, after, ops[i].path) && ops[i] == OperationFor(before, after, ops[i].path)
  }

  ghost predicate HasPath(ops: seq<CandidateOperation>, path: Path) {
    exists i :: 0 <= i < |ops| && ops[i].path == path
  }

  ghost predicate DescribesAlong(
    ops: seq<CandidateOperation>, before: map<Path, Entry>, after: map<Path, Entry>, paths: seq<Path>)
    requires TargetsPresent(before) && TargetsPresent(after)
  {
    && OrderedByPath(ops)
    && DrawnAlong(ops, before, after, paths)
    && (forall path | path in paths && Differs(before, after, path) :: HasPath(ops, path))
  }

  lemma OneMoreHasPath(earlier: seq<CandidateOperation>, op: CandidateOperation, path: Path)
    ensures HasPath(earlier, path) || op.path == path ==> HasPath(earlier + [op], path)
  {
    var ops := earlier + [op];
    assert ops[|earlier|] == op;
    if HasPath(earlier, path) {
      var i :| 0 <= i < |earlier| && earlier[i].path == path;
      assert ops[i].path == path;
    }
  }

  lemma OneMoreIsOrdered(
    earlier: seq<CandidateOperation>, op: CandidateOperation, before: map<Path, Entry>, after: map<Path, Entry>, paths: seq<Path>)
    requires TargetsPresent(before) && TargetsPresent(after)
    requires OrderedByPath(earlier) && DrawnAlong(earlier, before, after, paths)
    requires forall path | path in paths :: TextLess(path, op.path)
    ensures OrderedByPath(earlier + [op])
  {
    var ops := earlier + [op];
    forall i, j | 0 <= i < j < |ops| ensures TextLess(ops[i].path, ops[j].path) {
      assert ops[i] == earlier[i];
    }
  }

  lemma DescribesOneMore(
    earlier: seq<CandidateOperation>, before: map<Path, Entry>, after: map<Path, Entry>, paths: seq<Path>, last: Path)
    requires TargetsPresent(before) && TargetsPresent(after)
    requires DescribesAlong(earlier, before, after, paths)
    requires forall path | path in paths :: TextLess(path, last)
    ensures Differs(before, after, last) ==>
              DescribesAlong(earlier + [OperationFor(before, after, last)], before, after, paths + [last])
    ensures !Differs(before, after, last) ==> DescribesAlong(earlier, before, after, paths + [last])
  {
    var more := paths + [last];
    assert forall path :: path in more <==> path in paths || path == last;
    if Differs(before, after, last) {
      var op := OperationFor(before, after, last);
      OneMoreIsOrdered(earlier, op, before, after, paths);
      forall path | path in more && Differs(before, after, path) ensures HasPath(earlier + [op], path) {
        OneMoreHasPath(earlier, op, path);
      }
    }
  }

  lemma {:induction false} OperationsAlongContents(before: map<Path, Entry>, after: map<Path, Entry>, paths: seq<Path>)
    requires TargetsPresent(before) && TargetsPresent(after)
    requires StrictlySortedBy(TextLess, paths)
    ensures DescribesAlong(OperationsAlong(before, after, paths), before, after, paths)
  {
    if paths != [] {
      var n := |paths| - 1;
      OperationsAlongContents(before, after, paths[..n]);
      DescribesOneMore(OperationsAlong(before, after, paths[..n]), before, after, paths[..n], paths[n]);
      assert paths == paths[..n] + [paths[n]];
    }
  }

  lemma AllPathsSorted(baseline: GitSnapshot, result: GitSnapshot)
    ensures StrictlySortedBy(TextLess, AllPaths(baseline, result))
    ensures forall p :: p in AllPaths(baseline, result) <==> p in Paths(baseline.entries) || p in Paths(result.entries)
  {
    var keys := Dedup(Paths(baseline.entries) + Paths(result.entries));
    var domain := set p | p in keys;
    TextLessStrictTotal(domain);
    SortBySorts(TextLess, keys, domain);
    forall p ensures p in AllPaths(baseline, result) <==> p in keys {
      SamePermutedElement(AllPaths(baseline, result), keys, p);
    }
    PermutationKeepsDistinct(keys, AllPaths(baseline, result));
    SortedDistinctIsStrict(TextLess, AllPaths(baseline, result), domain);
  }

  function OperationPaths(operations: seq<CandidateOperation>): (paths: seq<Path>)
    ensures |paths| == |operations|
    ensures forall i | 0 <= i < |operations| :: paths[i] == operations[i].path
  {
    seq(|operations|, i requires 0 <= i < |operations| => operations[i].path)
  }

  lemma SamePathsSameOperations(
    xs: seq<CandidateOperation>, ys: seq<CandidateOperation>, before: map<Path, Entry>, after: map<Path, Entry>)
    requires TargetsPresent(before) && TargetsPresent(after)
    requires Describes(xs, before, after) && Describes(ys, before, after)
    ensures xs == ys
  {
    var ps, qs := OperationPaths(xs), OperationPaths(ys);
    var domain := DifferingPaths(before, after);
    PathsAsSet(xs);
    PathsAsSet(ys);
    TextLessStrictTotal(domain);
    StrictlySortedUnique(TextLess, ps, qs, domain);
    forall i | 0 <= i < |xs| ensures xs[i] == ys[i] {
      assert ps[i] == qs[i];
    }
  }

  lemma PathsAsSet(operations: seq<CandidateOperation>)
    ensures forall p :: p in OperationPaths(operations) <==> p in (set i | 0 <= i < |operations| :: operations[i].path)
  {
    var paths := OperationPaths(operations);
    forall p | p in paths ensures p in (set i | 0 <= i < |operations| :: operations[i].path) {
      var i :| 0 <= i < |paths| && paths[i] == p;
      assert operations[i].path == p;
    }
    forall i | 0 <= i < |operations| ensures operations[i].path in paths {
      assert paths[i] == operations[i].path;
    }
  }

  lemma AlongDescribes(before: map<Path, Entry>, after: map<Path, Entry>, paths: seq<Path>)
    requires TargetsPresent(before) && TargetsPresent(after)
    requires StrictlySortedBy(TextLess, paths)
    requires forall p | p in before || p in after :: p in paths
    ensures Describes(OperationsAlong(before, after, paths), before, after)
  {
    OperationsAlongContents(before, after, paths);
  }

  lemma DescribesOnlyOperationsAlong(
    operations: seq<CandidateOperation>, before: map<Path, Entry>, after: map<Path, Entry>, paths: seq<Path>)
    requires TargetsPresent(before) && TargetsPresent(after)
    requires StrictlySortedBy(TextLess, paths)
    requires forall p | p in before || p in after :: p in paths
    ensures Describes(operations, before, after) <==> operations == OperationsAlong(before, after, paths)
    ensures OperationsAlong(before, after, paths) == [] <==> DifferingPaths(before, after) == {}
  {
    var along := OperationsAlong(before, after, paths);
    AlongDescribes(before, after, paths);
    if Describes(operations, before, after) {
      SamePathsSameOperations(operations, along, before, after);
    }
    if along != [] {
      assert along[0].path in DifferingPaths(before, after);
    }
  }

  lemma ByPathKeys(entries: seq<Entry>, path: Path)
    requires path in ByPath(entries)
    ensures path in Paths(entries)
  {
    var i :| 0 <= i < |entries| && entries[i] == ByPath(entries)[path];
    assert Paths(entries)[i] == path;
  }

  /** Nothing but `Diff` describes the step between two verified snapshots. */
  lemma DescribesOnlyDiff(operations: seq<CandidateOperation>, baseline: GitSnapshot, result: GitSnapshot)
    requires VerifySnapshot(baseline) && VerifySnapshot(result)
    ensures Describes(operations, ByPath(baseline.entries), ByPath(result.entries)) <==> operations == Diff(baseline, result)
    ensures Diff(baseline, result) == [] <==> DifferingPaths(ByPath(baseline.entries), ByPath(result.entries)) == {}
  {
    var before, after := ByPath(baseline.entries), ByPath(result.entries);
    AllPathsSorted(baseline, result);
    forall p | p in before || p in after ensures p in AllPaths(baseline, result) {
      if p in before { ByPathKeys(baseline.entries, p); }
      if p in after { ByPathKeys(result.entries, p); }
    }
    DescribesOnlyOperationsAlong(operations, before, after, AllPaths(baseline, result));
  }

  predicate SnapshotsBind(baseline: GitSnapshot, result: GitSnapshot) {
    && VerifySnapshot(baseline)
    && VerifySnapshot(result)
    && baseline.kind == RunBaseline
    && result.kind == RunResult
    && baseline.repositoryId == result.repositoryId
    && baseline.policyHash == result.policyHash
  }

  function FirstControlPath(operations: seq<CandidateOperation>): (r: Option<Path>)
    ensures r.None? <==> forall i | 0 <= i < |operations| :: !IsControlPlanePath(operations[i].path)
  {
    if operations == [] then None
    else if IsControlPlanePath(operations[0].path) then Some(operations[0].path)
    else
      assert forall i | 1 <= i < |operations| :: operations[i] == operations[1..][i - 1];
      FirstControlPath(operations[1..])
  }

  function BuildGitCandidate(baseline: GitSnapshot, result: GitSnapshot): Result<Candidate, CandidateError> {
    if !SnapshotsBind(baseline, result) then Err(SnapshotBindingInvalid)
    else
      var operations := Diff(baseline, result);
      var forbidden := FirstControlPath(operations);
      if forbidden.Some? then Err(ControlPathForbidden(forbidden.value))
      else
        Ok(Candidate(baseline.snapshotHash, result.snapshotHash, operations,
                     CandidateHash(baseline.snapshotHash, result.snapshotHash, operations)))
  }

  predicate VerifyCandidate(c: Candidate) {
    && FirstControlPath(c.operations).None?
    && c.candidateHash == CandidateHash(c.baselineHash, c.resultHash, c.operations)
  }

  predicate VerifyCandidateSnapshotBindings(c: Candidate, baseline: GitSnapshot, result: GitSnapshot) {
    && VerifyCandidate(c)
    && SnapshotsBind(baseline, result)
    && c.baselineHash == baseline.snapshotHash
    && c.resultHash == result.snapshotHash
    && c.operations == Diff(baseline, result)
  }

  /**
    The candidate that is built is the one candidate the recovery-side check accepts, and its
    operations are the one path-ordered description of the difference.
   */
  lemma OnlyTheBuiltCandidateIsAccepted(c: Candidate, baseline: GitSnapshot, result: GitSnapshot)
    ensures VerifyCandidateSnapshotBindings(c, baseline, result) <==> BuildGitCandidate(baseline, result) == Ok(c)
    ensures BuildGitCandidate(baseline, result) == Ok(c) ==>
              && SnapshotsBind(baseline, result)
              && (var before, after := ByPath(baseline.entries), ByPath(result.entries);
                  && (forall operations :: Describes(operations, before, after) <==> operations == c.operations)
                  && (c.operations == [] <==> DifferingPaths(before, after) == {}))
  {
    if BuildGitCandidate(baseline, result) == Ok(c) {
      DescribesOnlyDiff(c.operations, baseline, result);
      var before, after := ByPath(baseline.entries), ByPath(result.entries);
      forall operations ensures Describes(operations, before, after) <==> operations == c.operations {
        DescribesOnlyDiff(operations, baseline, result);
      }
    }
  }

  /** A candidate is built exactly for two verified snapshots of one run whose difference keeps out of the control plane. */
  lemma BuiltExactly(baseline: GitSnapshot, result: GitSnapshot)
    ensures BuildGitCandidate(baseline, result) == Err(SnapshotBindingInvalid) <==>
              || !VerifySnapshot(baseline) || !VerifySnapshot(result)
              || baseline.kind != RunBaseline || result.kind != RunResult
              || baseline.repositoryId != result.repositoryId || baseline.policyHash != result.policyHash
    ensures BuildGitCandidate(baseline, result) != Err(SnapshotBindingInvalid) ==>
              (BuildGitCandidate(baseline, result).Ok? <==>
                forall path | path in DifferingPaths(ByPath(baseline.entries), ByPath(result.entries)) :: !IsControlPlanePath(path))
    ensures BuildGitCandidate(baseline, result).Ok? ==>
              && BuildGitCandidate(baseline, result).value.baselineHash == baseline.snapshotHash
              && BuildGitCandidate(baseline, result).value.resultHash == result.snapshotHash
  {
    if SnapshotsBind(baseline, result) {
      DescribesOnlyDiff(Diff(baseline, result), baseline, result);
      assert forall op | op in Diff(baseline, result) :: op.path in DifferingPaths(ByPath(baseline.entries), ByPath(result.entries));
    }
  }
}
