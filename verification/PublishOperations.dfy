/**
  Publish operations and the checks made on them before anything is written
  (packages/publish/src/preflight.ts, apps/daemon/src/publish/git-publish-source.ts).
 */
module PublishOperations {
  import opened Wrappers
  import opened Ordering
  import opened Text
  import opened Snapshot
  import opened WorkspaceTree
  import CandidateBuilder

  datatype OperationType = Adds | Modifies | Deletes
  datatype OldKind = ExpectAbsent | ExpectFile
  datatype BlobRef = BlobRef(blobId: BlobId, sha256: Digest, size: nat)
  datatype ApplyOperation = ApplyOperation(
    path: Path, kind: OperationType, oldKind: OldKind, oldHash: Option<Digest>, oldMode: Option<nat>,
    newHash: Option<Digest>, newMode: Option<nat>, blobRef: Option<BlobRef>)

  datatype PublishError =
    | SourceBindingInvalid
    | ControlPlaneBlocked(path: Path)
    | SymlinkUnsupported(path: Path)
    | BlobBindingInvalid(path: Path)
    | EmptyOrDuplicate
    | PathUnsafe(path: Path)
    | OperationInvalid(path: Path)
    | NotADirectory(path: Path)

  // From candidate to publish operations

  function FileMode(e: Entry): nat
    requires e.kind == FileKind && e.mode != Link
  {
    CandidateBuilder.ModeBits(e.mode)
  }

  function OldEntryOf(op: CandidateBuilder.CandidateOperation): Option<CandidateBuilder.CandidateEntry> {
    if op.Add? then None else Some(op.oldEntry)
  }

  function NewEntryOf(op: CandidateBuilder.CandidateOperation): Option<CandidateBuilder.CandidateEntry> {
    if op.Delete? then None else Some(op.newEntry)
  }

  function TypeOf(op: CandidateBuilder.CandidateOperation): OperationType {
    match op
    case Add(_, _) => Adds
    case Modify(_, _, _) => Modifies
    case Delete(_, _) => Deletes
  }

  predicate BindsBlob(entry: CandidateBuilder.CandidateEntry, snapshotEntry: Entry)
    requires entry.FileEntry?
  {
    && snapshotEntry.path == entry.path
    && snapshotEntry.kind == FileKind
    && snapshotEntry.sha256 == entry.sha256
    && snapshotEntry.size == entry.size
    && snapshotEntry.mode != Link
    && FileMode(snapshotEntry) == entry.mode
  }

  function PublishOperation(op: CandidateBuilder.CandidateOperation, entries: map<Path, Entry>)
    : Result<ApplyOperation, PublishError>
  {
    var oldEntry, newEntry := OldEntryOf(op), NewEntryOf(op);
    if IsControlPlanePath(op.path) then Err(ControlPlaneBlocked(op.path))
    else if (oldEntry.Some? && oldEntry.value.SymlinkEntry?) || (newEntry.Some? && newEntry.value.SymlinkEntry?) then
      Err(SymlinkUnsupported(op.path))
    else if newEntry.Some? && !(op.path in entries && BindsBlob(newEntry.value, entries[op.path])) then
      Err(BlobBindingInvalid(op.path))
    else
      Ok(ApplyOperation(
        op.path, TypeOf(op),
        if oldEntry.None? then ExpectAbsent else ExpectFile,
        if oldEntry.None? then None else Some(oldEntry.value.sha256),
        if oldEntry.None? then None else Some(oldEntry.value.mode),
        if newEntry.None? then None else Some(newEntry.value.sha256),
        if newEntry.None? then None else Some(newEntry.value.mode),
        if newEntry.None? then None
        else Some(BlobRef(entries[op.path].blobId, entries[op.path].sha256, entries[op.path].size))))
  }

  function PublishEach(operations: seq<CandidateBuilder.CandidateOperation>, entries: map<Path, Entry>)
    : Result<seq<ApplyOperation>, PublishError>
  {
    if operations == [] then Ok([])
    else
      match PublishOperation(operations[0], entries)
      case Err(e) => Err(e)
      case Ok(first) =>
        match PublishEach(operations[1..], entries)
        case Err(e) => Err(e)
        case Ok(rest) => Ok([first] + rest)
  }

  function GitPublishOperations(candidate: CandidateBuilder.Candidate, result: GitSnapshot)
    : Result<seq<ApplyOperation>, PublishError>
  {
    if candidate.resultHash != result.snapshotHash || result.kind != RunResult then Err(SourceBindingInvalid)
    else PublishEach(candidate.operations, ByPath(result.entries))
  }

  // Canonical form: sorted by path, checked

  predicate IsPublishablePath(path: Path) {
    && |path| > 0
    && '\0' !in path
    && '\\' !in path
    && path[0] != '/'
    && ".." !in Split(path, '/')
  }

  predicate IsValidOperation(op: ApplyOperation) {
    match op.kind
    case Adds =>
      && op.oldKind == ExpectAbsent && op.oldHash == None && op.oldMode == None
      && op.newHash.Some? && op.newMode.Some? && op.blobRef.Some?
    case Modifies =>
      && op.oldKind == ExpectFile && op.oldHash.Some? && op.oldMode.Some?
      && op.newHash.Some? && op.newMode.Some? && op.blobRef.Some?
    case Deletes =>
      && op.oldKind == ExpectFile && op.oldHash.Some? && op.oldMode.Some?
      && op.newHash == None && op.newMode == None && op.blobRef == None
  }

  function OnPath(less: (Path, Path) -> bool): (ApplyOperation, ApplyOperation) -> bool {
    (a: ApplyOperation, b: ApplyOperation) => less(a.path, b.path)
  }

  function PathSet(operations: seq<ApplyOperation>): set<Path> {
    set op | op in operations :: op.path
  }

  function FirstFault(operations: seq<ApplyOperation>): (r: Option<PublishError>)
    ensures r.None? <==> forall op | op in operations :: IsPublishablePath(op.path) && IsValidOperation(op)
  {
    if operations == [] then None
    else
      assert operations == [operations[0]] + operations[1..];
      if !IsPublishablePath(operations[0].path) then Some(PathUnsafe(operations[0].path))
      else if !IsValidOperation(operations[0]) then Some(OperationInvalid(operations[0].path))
      else FirstFault(operations[1..])
  }

  function Canonical(operations: seq<ApplyOperation>, less: (Path, Path) -> bool): Result<seq<ApplyOperation>, PublishError> {
    var sorted := SortBy(OnPath(less), operations);
    if |sorted| == 0 || |PathSet(sorted)| != |sorted| then Err(EmptyOrDuplicate)
    else
      var fault := FirstFault(sorted);
      if fault.Some? then Err(fault.value) else Ok(sorted)
  }

  method CanonicalOperations(operations: seq<ApplyOperation>, less: (Path, Path) -> bool)
    returns (r: Result<seq<ApplyOperation>, PublishError>)
    ensures r == Canonical(operations, less)
  {
    var sorted := SortBy(OnPath(less), operations);
    if |sorted| == 0 || |PathSet(sorted)| != |sorted| {
      return Err(EmptyOrDuplicate);
    }
    for i := 0 to |sorted|
      invariant FirstFault(sorted) == FirstFault(sorted[i..])
    {
      var op := sorted[i];
      if !IsPublishablePath(op.path) {
        return Err(PathUnsafe(op.path));
      }
      if !IsValidOperation(op) {
        return Err(OperationInvalid(op.path));
      }
      assert sorted[i..][1..] == sorted[i + 1..];
    }
    return Ok(sorted);
  }

  ghost predicate DistinctPaths(operations: seq<ApplyOperation>) {
    forall i, j | 0 <= i < j < |operations| :: operations[i].path != operations[j].path
  }

  lemma DistinctPathsBySetSize(operations: seq<ApplyOperation>)
    ensures |PathSet(operations)| == |operations| <==> DistinctPaths(operations)
  {
    var paths := seq(|operations|, i requires 0 <= i < |operations| => operations[i].path);
    SetSizeTestsDistinct(paths);
    assert forall i | 0 <= i < |operations| :: paths[i] == operations[i].path;
    forall p ensures p in PathSet(operations) <==> p in (set x | x in paths) {
      if p in PathSet(operations) {
        var op :| op in operations && op.path == p;
        var i :| 0 <= i < |operations| && operations[i] == op;
        assert paths[i] == p;
      }
      if p in paths {
        var i :| 0 <= i < |paths| && paths[i] == p;
        assert operations[i] in operations;
      }
    }
    assert PathSet(operations) == set x | x in paths;
  }

  lemma PathOrderIsStrictTotal(operations: seq<ApplyOperation>, less: (Path, Path) -> bool)
    requires StrictTotalOn(less, PathSet(operations)) && DistinctPaths(operations)
    ensures StrictTotalOn(OnPath(less), set op | op in operations)
  {
    var domain := set op | op in operations;
    assert forall op | op in domain :: op.path in PathSet(operations);
    forall a, b | a in domain && b in domain && a != b ensures a.path != b.path {
      var i :| 0 <= i < |operations| && operations[i] == a;
      var j :| 0 <= j < |operations| && operations[j] == b;
    }
  }

  /**
    The canonical form, and so the operations hash taken of it, does not depend on the order the
    operations arrive in, whether they are accepted or refused.
   */
  lemma CanonicalIgnoresOrder(xs: seq<ApplyOperation>, ys: seq<ApplyOperation>, less: (Path, Path) -> bool)
    requires multiset(xs) == multiset(ys)
    requires StrictTotalOn(less, PathSet(xs))
    ensures Canonical(xs, less) == Canonical(ys, less)
  {
    var sx, sy := SortBy(OnPath(less), xs), SortBy(OnPath(less), ys);
    assert |xs| == |multiset(xs)| == |ys|;
    forall op ensures (op in sx <==> op in xs) && (op in sy <==> op in ys) && (op in xs <==> op in ys) {
      SamePermutedElement(sx, xs, op);
      SamePermutedElement(sy, ys, op);
      SamePermutedElement(xs, ys, op);
    }
    assert PathSet(sx) == PathSet(xs) == PathSet(ys) == PathSet(sy);
    if |PathSet(sx)| == |sx| {
      DistinctPathsBySetSize(xs);
      PathOrderIsStrictTotal(xs, less);
      SortByIgnoresOrder(OnPath(less), xs, ys, set op | op in xs);
    }
  }

  /** What an accepted list is: the same operations in path order, each valid, one per path. */
  lemma CanonicalContents(operations: seq<ApplyOperation>, less: (Path, Path) -> bool)
    requires StrictTotalOn(less, PathSet(operations))
    requires Canonical(operations, less).Ok?
    ensures var sorted := Canonical(operations, less).value;
            && sorted != []
            && multiset(sorted) == multiset(operations)
            && DistinctPaths(sorted)
            && (forall i, j | 0 <= i < j < |sorted| :: less(sorted[i].path, sorted[j].path))
            && (forall op | op in sorted :: IsPublishablePath(op.path) && IsValidOperation(op))
  {
    var sorted := SortBy(OnPath(less), operations);
    forall op ensures op in sorted <==> op in operations { SamePermutedElement(sorted, operations, op); }
    assert PathSet(sorted) == PathSet(operations);
    DistinctPathsBySetSize(sorted);
    DistinctPathsBySetSize(operations);
    PathOrderIsStrictTotal(operations, less);
    SortBySorts(OnPath(less), operations, set op | op in operations);
    forall i, j | 0 <= i < j < |sorted| ensures less(sorted[i].path, sorted[j].path) {
      assert !OnPath(less)(sorted[j], sorted[i]);
    }
  }

  lemma CanonicalIsValid(operations: seq<ApplyOperation>, less: (Path, Path) -> bool)
    requires Canonical(operations, less).Ok?
    ensures var sorted := Canonical(operations, less).value;
            DistinctPaths(sorted) && forall op | op in sorted :: IsValidOperation(op)
  {
    DistinctPathsBySetSize(SortBy(OnPath(less), operations));
  }

  /** Acceptance, stated on the operations as given. */
  lemma CanonicalAccepts(operations: seq<ApplyOperation>, less: (Path, Path) -> bool)
    ensures Canonical(operations, less).Ok? <==>
              && operations != []
              && DistinctPaths(operations)
              && (forall op | op in operations :: IsPublishablePath(op.path) && IsValidOperation(op))
  {
    var sorted := SortBy(OnPath(less), operations);
    forall op ensures op in sorted <==> op in operations { SamePermutedElement(sorted, operations, op); }
    assert PathSet(sorted) == PathSet(operations);
    DistinctPathsBySetSize(operations);
  }

  // The two observations of the workspace

  datatype ConflictReason = ExpectedAbsent | ExpectedFile | HashMismatch | ModeMismatch | UnsafePath
  datatype Conflict = Conflict(path: Path, reason: ConflictReason)

  function PreflightReason(w: Workspace, op: ApplyOperation): Option<ConflictReason> {
    if Linked(w, op.path) then Some(UnsafePath)
    else if op.oldKind == ExpectAbsent then
      if op.path in w.files then Some(ExpectedAbsent) else None
    else if op.path !in w.files || !w.files[op.path].File? then Some(ExpectedFile)
    else if Some(w.files[op.path].hash) != op.oldHash then Some(HashMismatch)
    else if Some(w.files[op.path].mode) != op.oldMode then Some(ModeMismatch)
    else None
  }

  function TargetReason(w: Workspace, op: ApplyOperation): Option<ConflictReason> {
    if Linked(w, op.path) then Some(UnsafePath)
    else if op.kind == Deletes then
      if op.path in w.files then Some(ExpectedAbsent) else None
    else if op.path !in w.files || !w.files[op.path].File? then Some(ExpectedFile)
    else if Some(w.files[op.path].hash) != op.newHash then Some(HashMismatch)
    else if Some(w.files[op.path].mode) != op.newMode then Some(ModeMismatch)
    else None
  }

  function Conflicts(reasons: seq<Option<ConflictReason>>, operations: seq<ApplyOperation>): seq<Conflict>
    requires |reasons| == |operations|
  {
    if reasons == [] then []
    else
      var n := |reasons| - 1;
      var earlier := Conflicts(reasons[..n], operations[..n]);
      if reasons[n].Some? then earlier + [Conflict(operations[n].path, reasons[n].value)] else earlier
  }

  function PreflightReasons(w: Workspace, operations: seq<ApplyOperation>): (r: seq<Option<ConflictReason>>)
    ensures |r| == |operations|
  {
    seq(|operations|, i requires 0 <= i < |operations| => PreflightReason(w, operations[i]))
  }

  function TargetReasons(w: Workspace, operations: seq<ApplyOperation>): (r: seq<Option<ConflictReason>>)
    ensures |r| == |operations|
  {
    seq(|operations|, i requires 0 <= i < |operations| => TargetReason(w, operations[i]))
  }

  // The first operation whose path cannot be looked at, because something stands in its way
  function FirstObstructed(w: Workspace, operations: seq<ApplyOperation>): (r: Option<Path>)
    ensures r.None? <==> forall op | op in operations :: Linked(w, op.path) || !Obstructed(w, op.path)
    ensures r.Some? ==> exists op :: op in operations && op.path == r.value && !Linked(w, op.path) && Obstructed(w, op.path)
  {
    if operations == [] then None
    else
      assert operations == [operations[0]] + operations[1..];
      var op := operations[0];
      if !Linked(w, op.path) && Obstructed(w, op.path) then Some(op.path) else FirstObstructed(w, operations[1..])
  }

  predicate AnyObstructed(w: Workspace, operations: seq<ApplyOperation>) {
    exists op :: op in operations && Obstructed(w, op.path)
  }

  function Preflight(w: Workspace, operations: seq<ApplyOperation>): seq<Conflict> {
    Conflicts(PreflightReasons(w, operations), operations)
  }

  function TargetConflicts(w: Workspace, operations: seq<ApplyOperation>): seq<Conflict> {
    Conflicts(TargetReasons(w, operations), operations)
  }

  lemma {:induction false} ConflictsReportReasons(reasons: seq<Option<ConflictReason>>, operations: seq<ApplyOperation>)
    requires |reasons| == |operations|
    ensures var cs := Conflicts(reasons, operations);
            && (cs == [] <==> forall i | 0 <= i < |reasons| :: reasons[i].None?)
            && (forall c :: c in cs <==> exists i :: 0 <= i < |reasons| && reasons[i] == Some(c.reason) && operations[i].path == c.path)
  {
    if reasons != [] {
      var n := |reasons| - 1;
      ConflictsReportReasons(reasons[..n], operations[..n]);
      var earlier, all := Conflicts(reasons[..n], operations[..n]), Conflicts(reasons, operations);
      forall c ensures c in all <==> exists i :: 0 <= i < |reasons| && reasons[i] == Some(c.reason) && operations[i].path == c.path {
        if c in earlier {
          var i :| 0 <= i < n && reasons[..n][i] == Some(c.reason) && operations[..n][i].path == c.path;
          assert reasons[i] == Some(c.reason) && operations[i].path == c.path;
        }
        if i :| 0 <= i < |reasons| && reasons[i] == Some(c.reason) && operations[i].path == c.path {
          if i < n {
            assert reasons[..n][i] == Some(c.reason) && operations[..n][i].path == c.path;
          }
        }
      }
    }
  }

  lemma PreflightClean(w: Workspace, operations: seq<ApplyOperation>)
    ensures Preflight(w, operations) == [] <==> forall i | 0 <= i < |operations| :: PreflightReason(w, operations[i]).None?
  {
    var reasons := PreflightReasons(w, operations);
    ConflictsReportReasons(reasons, operations);
    assert forall i | 0 <= i < |operations| :: reasons[i] == PreflightReason(w, operations[i]);
  }

  lemma CleanIsUnobstructed(w: Workspace, operations: seq<ApplyOperation>)
    requires PreflightAnswer(w, operations) == Ok([])
    ensures !AnyObstructed(w, operations)
  {
    PreflightClean(w, operations);
    forall op | op in operations ensures !Obstructed(w, op.path) {
      var i :| 0 <= i < |operations| && operations[i] == op;
      assert PreflightReason(w, operations[i]).None?;
    }
  }

  /** What `preflightOperations` answers for a canonical batch: it throws at the first obstructed path. */
  function PreflightAnswer(w: Workspace, operations: seq<ApplyOperation>): Result<seq<Conflict>, PublishError> {
    if FirstObstructed(w, operations).Some? then Err(NotADirectory(FirstObstructed(w, operations).value))
    else Ok(Preflight(w, operations))
  }

  function TargetAnswer(w: Workspace, operations: seq<ApplyOperation>): Result<(bool, seq<Conflict>), PublishError> {
    if FirstObstructed(w, operations).Some? then Err(NotADirectory(FirstObstructed(w, operations).value))
    else Ok((TargetConflicts(w, operations) == [], TargetConflicts(w, operations)))
  }

  lemma {:induction false} ObstructedFirst(w: Workspace, operations: seq<ApplyOperation>, i: nat)
    requires i < |operations|
    requires forall j | 0 <= j < i :: Linked(w, operations[j].path) || !Obstructed(w, operations[j].path)
    requires !Linked(w, operations[i].path) && Obstructed(w, operations[i].path)
    ensures FirstObstructed(w, operations) == Some(operations[i].path)
  {
    if i > 0 {
      assert operations[1..][i - 1] == operations[i];
      assert forall j | 0 <= j < i - 1 :: operations[1..][j] == operations[j + 1];
      ObstructedFirst(w, operations[1..], i - 1);
    }
  }

  method PreflightOperations(w: Workspace, operations: seq<ApplyOperation>, less: (Path, Path) -> bool)
    returns (r: Result<seq<Conflict>, PublishError>)
    ensures Canonical(operations, less).Err? ==> r == Err(Canonical(operations, less).error)
    ensures Canonical(operations, less).Ok? ==> r == PreflightAnswer(w, Canonical(operations, less).value)
  {
    var canonical := CanonicalOperations(operations, less);
    if canonical.Err? {
      return Err(canonical.error);
    }
    r := PreflightSorted(w, canonical.value);
  }

  method PreflightSorted(w: Workspace, operations: seq<ApplyOperation>) returns (r: Result<seq<Conflict>, PublishError>)
    ensures r == PreflightAnswer(w, operations)
  {
    var conflicts := [];
    for i := 0 to |operations|
      invariant conflicts == Conflicts(PreflightReasons(w, operations)[..i], operations[..i])
      invariant forall j | 0 <= j < i :: Linked(w, operations[j].path) || !Obstructed(w, operations[j].path)
    {
      var op := operations[i];
      assert PreflightReasons(w, operations)[..i + 1][..i] == PreflightReasons(w, operations)[..i];
      assert operations[..i + 1][..i] == operations[..i];
      if Linked(w, op.path) {
        conflicts := conflicts + [Conflict(op.path, UnsafePath)];
      } else if Obstructed(w, op.path) {
        ObstructedFirst(w, operations, i);
        return Err(NotADirectory(op.path));
      } else if op.oldKind == ExpectAbsent {
        if op.path in w.files {
          conflicts := conflicts + [Conflict(op.path, ExpectedAbsent)];
        }
      } else if op.path !in w.files || !w.files[op.path].File? {
        conflicts := conflicts + [Conflict(op.path, ExpectedFile)];
      } else if Some(w.files[op.path].hash) != op.oldHash {
        conflicts := conflicts + [Conflict(op.path, HashMismatch)];
      } else if Some(w.files[op.path].mode) != op.oldMode {
        conflicts := conflicts + [Conflict(op.path, ModeMismatch)];
      }
    }
    assert PreflightReasons(w, operations)[..|operations|] == PreflightReasons(w, operations);
    assert operations[..|operations|] == operations;
    return Ok(conflicts);
  }

  /** The manual-publish check: does the workspace already hold every target state? */
  method ObserveTargetState(w: Workspace, operations: seq<ApplyOperation>, less: (Path, Path) -> bool)
    returns (r: Result<(bool, seq<Conflict>), PublishError>)
    ensures Canonical(operations, less).Err? ==> r == Err(Canonical(operations, less).error)
    ensures Canonical(operations, less).Ok? ==> r == TargetAnswer(w, Canonical(operations, less).value)
  {
    var canonical := CanonicalOperations(operations, less);
    if canonical.Err? {
      return Err(canonical.error);
    }
    r := ObserveSorted(w, canonical.value);
  }

  method ObserveSorted(w: Workspace, operations: seq<ApplyOperation>) returns (r: Result<(bool, seq<Conflict>), PublishError>)
    ensures r == TargetAnswer(w, operations)
  {
    var conflicts := [];
    for i := 0 to |operations|
      invariant conflicts == Conflicts(TargetReasons(w, operations)[..i], operations[..i])
      invariant forall j | 0 <= j < i :: Linked(w, operations[j].path) || !Obstructed(w, operations[j].path)
    {
      var op := operations[i];
      assert TargetReasons(w, operations)[..i + 1][..i] == TargetReasons(w, operations)[..i] && operations[..i + 1][..i] == operations[..i];
      if Linked(w, op.path) {
        conflicts := conflicts + [Conflict(op.path, UnsafePath)];
      } else if Obstructed(w, op.path) {
        ObstructedFirst(w, operations, i);
        return Err(NotADirectory(op.path));
      } else if op.kind == Deletes {
        if op.path in w.files {
          conflicts := conflicts + [Conflict(op.path, ExpectedAbsent)];
        }
      } else if op.path !in w.files || !w.files[op.path].File? {
        conflicts := conflicts + [Conflict(op.path, ExpectedFile)];
      } else if Some(w.files[op.path].hash) != op.newHash {
        conflicts := conflicts + [Conflict(op.path, HashMismatch)];
      } else if Some(w.files[op.path].mode) != op.newMode {
        conflicts := conflicts + [Conflict(op.path, ModeMismatch)];
      }
    }
    assert TargetReasons(w, operations)[..|operations|] == TargetReasons(w, operations) && operations[..|operations|] == operations;
    return Ok((|conflicts| == 0, conflicts));
  }

  /** The checks throw exactly when something stands in the way of an operation that no link lies on. */
  lemma ThrowsExactlyWhenObstructed(w: Workspace, operations: seq<ApplyOperation>)
    ensures PreflightAnswer(w, operations).Err? <==> exists op :: op in operations && !Linked(w, op.path) && Obstructed(w, op.path)
    ensures TargetAnswer(w, operations).Err? <==> PreflightAnswer(w, operations).Err?
  {
  }

  /** A file in the way, in concrete terms: adding notes/a.md where notes is a file. */
  lemma FileInTheWayThrows(hash: Digest, mode: nat, op: ApplyOperation)
    requires op.path == "notes/a.md"
    ensures PreflightAnswer(Workspace(map["notes" := File(hash, mode)]), [op]) == Err(NotADirectory("notes/a.md"))
  {
    var w := Workspace(map["notes" := File(hash, mode)]);
    assert op.path[..5] == "notes" && op.path[5] == '/';
    assert "notes" in AncestorsOf(op.path);
    assert !Linked(w, op.path);
  }

  // What the tests of an operation mean

  /** A path that may be published names no component that steps back, so it never leaves the workspace. */
  lemma PublishablePathsStayInside(path: Path)
    ensures IsPublishablePath(path) ==> Walked(Split(path, '/')).Some?
    ensures IsPublishablePath(path) <==>
              path != "" && path[0] != '/' && '\0' !in path && '\\' !in path && ".." !in Split(path, '/')
  {
    if IsPublishablePath(path) {
      ForwardWalkStays(Split(path, '/'));
    }
  }

  // Nothing, or everything, is said of the old and of the new file.

  predicate ExpectsNothing(op: ApplyOperation) {
    op.oldKind == ExpectAbsent && op.oldHash.None? && op.oldMode.None?
  }

  predicate ExpectsOneFile(op: ApplyOperation) {
    op.oldKind == ExpectFile && op.oldHash.Some? && op.oldMode.Some?
  }

  predicate LeavesNothing(op: ApplyOperation) {
    op.newHash.None? && op.newMode.None? && op.blobRef.None?
  }

  predicate LeavesOneFile(op: ApplyOperation) {
    op.newHash.Some? && op.newMode.Some? && op.blobRef.Some?
  }

  /** An operation is valid exactly when an addition alone expects nothing and a deletion alone leaves nothing. */
  lemma ValidExactly(op: ApplyOperation)
    ensures IsValidOperation(op) <==>
              && (if op.kind == Adds then ExpectsNothing(op) else ExpectsOneFile(op))
              && (if op.kind == Deletes then LeavesNothing(op) else LeavesOneFile(op))
  {
  }

  predicate HoldsFile(w: Workspace, path: Path, hash: Option<Digest>, mode: Option<nat>) {
    hash.Some? && mode.Some? && path in w.files && w.files[path] == File(hash.value, mode.value)
  }

  /** The two checks pass an operation exactly when no link lies on its path, and the path holds what it should before and after. */
  lemma ChecksPassExactly(w: Workspace, op: ApplyOperation)
    requires IsValidOperation(op)
    ensures PreflightReason(w, op).None? <==>
              !Linked(w, op.path) &&
              if op.kind == Adds then op.path !in w.files else HoldsFile(w, op.path, op.oldHash, op.oldMode)
    ensures TargetReason(w, op).None? <==>
              !Linked(w, op.path) &&
              if op.kind == Deletes then op.path !in w.files else HoldsFile(w, op.path, op.newHash, op.newMode)
  {
  }

  predicate HasSymlink(op: CandidateBuilder.CandidateOperation) {
    (!op.Add? && op.oldEntry.SymlinkEntry?) || (!op.Delete? && op.newEntry.SymlinkEntry?)
  }

  // The snapshot holds the file the operation installs.
  predicate IsInSnapshot(op: CandidateBuilder.CandidateOperation, entries: map<Path, Entry>)
    requires !op.Delete? && op.newEntry.FileEntry?
  {
    && op.path in entries && entries[op.path].kind == FileKind && entries[op.path].mode != Link
    && entries[op.path].path == op.newEntry.path && entries[op.path].sha256 == op.newEntry.sha256
    && entries[op.path].size == op.newEntry.size && CandidateBuilder.ModeBits(entries[op.path].mode) == op.newEntry.mode
  }

  /**
    An operation of a candidate is refused exactly when it is on the control plane, has a link on either side, or
    installs another file than the snapshot holds; otherwise it is translated into a valid one.
   */
  lemma TranslatesExactly(op: CandidateBuilder.CandidateOperation, entries: map<Path, Entry>)
    ensures var r := PublishOperation(op, entries);
            && (r == Err(ControlPlaneBlocked(op.path)) <==> IsControlPlanePath(op.path))
            && (r == Err(SymlinkUnsupported(op.path)) <==> !IsControlPlanePath(op.path) && HasSymlink(op))
            && (r == Err(BlobBindingInvalid(op.path)) <==>
                  !IsControlPlanePath(op.path) && !HasSymlink(op) && !op.Delete? && !IsInSnapshot(op, entries))
            && (r.Err? ==> r.error in {ControlPlaneBlocked(op.path), SymlinkUnsupported(op.path), BlobBindingInvalid(op.path)})
            && (r.Ok? ==> IsValidOperation(r.value) && r.value.path == op.path)
  {
  }

  /** A candidate is translated only against the run's own result snapshot, and operation by operation. */
  lemma {:induction false} EachIsTranslated(operations: seq<CandidateBuilder.CandidateOperation>, entries: map<Path, Entry>)
    ensures PublishEach(operations, entries).Ok? <==>
              forall i | 0 <= i < |operations| :: PublishOperation(operations[i], entries).Ok?
    ensures PublishEach(operations, entries).Ok? ==>
              && |PublishEach(operations, entries).value| == |operations|
              && forall i | 0 <= i < |operations| ::
                   PublishOperation(operations[i], entries) == Ok(PublishEach(operations, entries).value[i])
  {
    if operations != [] {
      EachIsTranslated(operations[1..], entries);
      assert forall i | 1 <= i < |operations| :: operations[i] == operations[1..][i - 1];
      if PublishEach(operations[1..], entries).Ok? {
        assert forall i | 0 <= i < |operations| - 1 :: operations[1..][i] == operations[i + 1];
      }
    }
  }

  lemma SourceIsBound(candidate: CandidateBuilder.Candidate, result: GitSnapshot)
    ensures candidate.resultHash != result.snapshotHash || result.kind != RunResult ==>
              GitPublishOperations(candidate, result) == Err(SourceBindingInvalid)
    ensures GitPublishOperations(candidate, result).Ok? <==>
              && candidate.resultHash == result.snapshotHash && result.kind == RunResult
              && forall i | 0 <= i < |candidate.operations| :: PublishOperation(candidate.operations[i], ByPath(result.entries)).Ok?
  {
    EachIsTranslated(candidate.operations, ByPath(result.entries));
  }
}
