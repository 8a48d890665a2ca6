/**
  Git workspace snapshots and the candidate built from two of them
  (packages/workspace/src/git-snapshot.ts and candidate-builder.ts).

  Digests are collision-free: a digest is modelled by the content it was taken of, so two
  digests are equal exactly when their contents are.
 */
module Snapshot {
  import opened Wrappers
  import opened Ordering
  import opened Text

  type Path = string
  type Bytes = seq<bv8>

  datatype Digest = Sha256(content: Bytes)
  datatype BlobId = GitBlob(content: Bytes)

  datatype EntryKind = FileKind | SymlinkKind
  // 100644, 100755 and 120000
  datatype GitMode = Regular | Executable | Link
  datatype Entry = Entry(
    path: Path, kind: EntryKind, mode: GitMode, blobId: BlobId, sha256: Digest, size: nat, target: Option<Bytes>)

  datatype SnapshotKind = RunBaseline | RunResult
  datatype SnapshotHash = SnapshotHash(
    repositoryId: string, kind: SnapshotKind, treeId: string, policyHash: string, entries: seq<Entry>)
  datatype GitSnapshot = GitSnapshot(
    repositoryId: string, kind: SnapshotKind, treeId: string, policyHash: string, entries: seq<Entry>,
    snapshotHash: SnapshotHash)

  const CONTROL_PLANE_PREFIX := ".smartflow/tasks/"

  predicate IsControlPlanePath(path: Path) {
    path == CONTROL_PLANE_PREFIX[..|CONTROL_PLANE_PREFIX| - 1] || StartsWith(path, CONTROL_PLANE_PREFIX)
  }

  predicate IsSafeRelativePath(path: Path) {
    && |path| > 0
    && path[0] != '/'
    && '\\' !in path
    && forall part | part in Split(path, '/') :: part != "" && part != "." && part != ".."
  }

  function Paths(entries: seq<Entry>): (paths: seq<Path>)
    ensures |paths| == |entries|
    ensures forall i | 0 <= i < |entries| :: paths[i] == entries[i].path
  {
    seq(|entries|, i requires 0 <= i < |entries| => entries[i].path)
  }

  predicate IsWellFormedEntry(e: Entry) {
    match e.kind
    case FileKind => e.mode != Link && e.target == None
    case SymlinkKind => e.mode == Link && e.target.Some? && e.size == |e.target.value| && e.sha256 == Sha256(e.target.value)
  }

  predicate VerifySnapshot(s: GitSnapshot) {
    var paths := Paths(s.entries);
    && Distinct(paths)
    && (forall path | path in paths :: IsSafeRelativePath(path))
    && SortBy(TextLess, paths) == paths
    && (forall e | e in s.entries :: IsWellFormedEntry(e))
    && s.snapshotHash == SnapshotHash(s.repositoryId, s.kind, s.treeId, s.policyHash, s.entries)
  }

  /** `new Map(entries.map((entry) => [entry.path, entry]))`: a later entry replaces an earlier one. */
  function ByPath(entries: seq<Entry>): (m: map<Path, Entry>)
    ensures forall p | p in m :: m[p] in entries && m[p].path == p
    ensures forall e | e in entries :: e.path in m
  {
    if entries == [] then map[]
    else
      var last := entries[|entries| - 1];
      assert forall e | e in entries :: e in entries[..|entries| - 1] || e == last;
      ByPath(entries[..|entries| - 1])[last.path := last]
  }

  // What a safe path is: walking it from the root never steps back, stays, or leaves

  /** Where a list of path components leads from the root; `None` when it climbs above it. */
  function Walked(parts: seq<string>): Option<seq<string>> {
    if parts == [] then Some([])
    else
      var before, part := Walked(parts[..|parts| - 1]), parts[|parts| - 1];
      if before.None? then None
      else if part == "" || part == "." then before
      else if part != ".." then Some(before.value + [part])
      else if before.value == [] then None
      else Some(before.value[..|before.value| - 1])
  }

  predicate StepsDown(part: string) {
    part != "" && part != "." && part != ".."
  }

  lemma {:induction false} WalkIsShorter(parts: seq<string>)
    ensures Walked(parts).Some? ==> |Walked(parts).value| <= |parts|
    ensures Walked(parts) == Some(parts) <==> forall part | part in parts :: StepsDown(part)
  {
    if parts != [] {
      var n := |parts| - 1;
      var part, early := parts[n], Walked(parts[..n]);
      assert parts == parts[..n] + [part];
      WalkIsShorter(parts[..n]);
      assert (forall p | p in parts :: StepsDown(p)) <==> StepsDown(part) && forall p | p in parts[..n] :: StepsDown(p);
      if !StepsDown(part) {
        assert Walked(parts).Some? ==> |Walked(parts).value| < |parts|;
      } else if early.Some? {
        assert Walked(parts) == Some(early.value + [part]);
        assert (early.value + [part])[..|early.value|] == early.value;
      }
    }
  }

  lemma {:induction false} ForwardWalkStays(parts: seq<string>)
    requires ".." !in parts
    ensures Walked(parts).Some?
  {
    if parts != [] {
      ForwardWalkStays(parts[..|parts| - 1]);
    }
  }

  /** A path of a snapshot is exactly one that walks to itself. */
  lemma SafePathsWalkToThemselves(path: Path)
    ensures IsSafeRelativePath(path) <==> path != "" && '\\' !in path && Walked(Split(path, '/')) == Some(Split(path, '/'))
  {
    WalkIsShorter(Split(path, '/'));
    if path != "" && path[0] == '/' {
      SplitCons('/', path[1..], '/');
      assert path == ['/'] + path[1..];
      assert Split(path, '/')[0] == "" && "" in Split(path, '/');
    }
  }

  /** The order test of a snapshot: sorting changes nothing and no path repeats. */
  lemma SnapshotOrderIsStrict(paths: seq<Path>)
    ensures Distinct(paths) && SortBy(TextLess, paths) == paths <==> StrictlySortedBy(TextLess, paths)
  {
    var domain := set p | p in paths;
    TextLessStrictTotal(domain);
    SortBySorts(TextLess, paths, domain);
    if Distinct(paths) && SortBy(TextLess, paths) == paths {
      SortedDistinctIsStrict(TextLess, paths, domain);
    }
    if StrictlySortedBy(TextLess, paths) {
      forall i, j | 0 <= i < j < |paths| ensures paths[i] != paths[j] && !TextLess(paths[j], paths[i]) {
        assert paths[i] in domain && paths[j] in domain;
      }
      SortedArrangementUnique(TextLess, paths, SortBy(TextLess, paths), domain);
    }
  }

  lemma PathsSatisfy(entries: seq<Entry>, p: Path -> bool)
    ensures (forall path | path in Paths(entries) :: p(path)) <==> (forall e | e in entries :: p(e.path))
  {
    forall e | e in entries ensures e.path in Paths(entries) {
      var i :| 0 <= i < |entries| && entries[i] == e;
      assert Paths(entries)[i] == e.path;
    }
    forall path | path in Paths(entries) ensures exists e :: e in entries && e.path == path {
      var i :| 0 <= i < |entries| && Paths(entries)[i] == path;
      assert entries[i] in entries;
    }
  }

  lemma WellFormedExactly(e: Entry)
    ensures IsWellFormedEntry(e) <==>
              if e.kind == FileKind then e.mode in {Regular, Executable} && e.target.None?
              else e.mode == Link && e.target.Some? && e.size == |e.target.value| && e.sha256 == Sha256(e.target.value)
  {
  }

  /** A verified snapshot lists safe paths in strict order, and files and links as what they are. */
  lemma VerifiedExactly(s: GitSnapshot)
    ensures VerifySnapshot(s) <==>
              && StrictlySortedBy(TextLess, Paths(s.entries))
              && (forall e | e in s.entries :: IsSafeRelativePath(e.path))
              && (forall e | e in s.entries && e.kind == FileKind :: e.mode in {Regular, Executable} && e.target.None?)
              && (forall e | e in s.entries && e.kind == SymlinkKind ::
                    e.mode == Link && e.target.Some? && e.size == |e.target.value| && e.sha256 == Sha256(e.target.value))
              && s.snapshotHash == SnapshotHash(s.repositoryId, s.kind, s.treeId, s.policyHash, s.entries)
  {
    SnapshotOrderIsStrict(Paths(s.entries));
    PathsSatisfy(s.entries, IsSafeRelativePath);
    forall e | e in s.entries ensures IsWellFormedEntry(e) <==> IsWellFormedEntry(e) {
      WellFormedExactly(e);
    }
  }

  // The control plane: everything at and below .smartflow/tasks

  const CONTROL_DIRECTORY := ".smartflow"
  const TASKS_DIRECTORY := "tasks"

  lemma ControlPrefix()
    ensures CONTROL_PLANE_PREFIX == CONTROL_DIRECTORY + ['/'] + (TASKS_DIRECTORY + ['/'])
    ensures CONTROL_PLANE_PREFIX[..|CONTROL_PLANE_PREFIX| - 1] == CONTROL_DIRECTORY + ['/'] + TASKS_DIRECTORY
    ensures '/' !in CONTROL_DIRECTORY && '/' !in TASKS_DIRECTORY
  {
  }

  predicate LiesInControlPlane(parts: seq<string>) {
    |parts| >= 2 && parts[0] == CONTROL_DIRECTORY && parts[1] == TASKS_DIRECTORY
  }

  lemma BelowControlPrefix(rest: string)
    ensures LiesInControlPlane(Split(CONTROL_DIRECTORY + ['/'] + (TASKS_DIRECTORY + ['/'] + rest), '/'))
    ensures LiesInControlPlane(Split(CONTROL_DIRECTORY + ['/'] + TASKS_DIRECTORY, '/'))
  {
    ControlPrefix();
    SplitAtSeparator(CONTROL_DIRECTORY, TASKS_DIRECTORY + ['/'] + rest, '/');
    SplitAtSeparator(TASKS_DIRECTORY, rest, '/');
    SplitAtSeparator(CONTROL_DIRECTORY, TASKS_DIRECTORY, '/');
    SplitPlain(TASKS_DIRECTORY, '/');
  }

  /** A path belongs to the control plane exactly when its first two components are .smartflow and tasks. */
  lemma ControlPlaneExactly(path: Path)
    ensures IsControlPlanePath(path) <==> LiesInControlPlane(Split(path, '/'))
  {
    ControlPrefix();
    var parts := Split(path, '/');
    if IsControlPlanePath(path) {
      if StartsWith(path, CONTROL_PLANE_PREFIX) {
        var rest := path[|CONTROL_PLANE_PREFIX|..];
        assert path == CONTROL_PLANE_PREFIX + rest == CONTROL_DIRECTORY + ['/'] + (TASKS_DIRECTORY + ['/'] + rest);
        BelowControlPrefix(rest);
      } else {
        BelowControlPrefix("");
      }
    }
    if LiesInControlPlane(parts) {
      JoinSplit(path, '/');
      assert parts[1..][1..] == parts[2..] && parts[1..][0] == parts[1];
      if |parts| > 2 {
        assert path == CONTROL_DIRECTORY + ['/'] + (TASKS_DIRECTORY + ['/'] + Join(parts[2..], '/'));
        assert path[..|CONTROL_PLANE_PREFIX|] == CONTROL_PLANE_PREFIX;
      }
    }
  }
}
