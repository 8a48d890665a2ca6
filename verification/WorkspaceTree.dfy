/**
  The workspace as a tree of paths: what `lstat` answers for each, what stands in the way of a path, and the
  directories that are made for new files (packages/publish/src/internal-utils.ts, preflight.ts and
  workspace-apply-adapter.ts).
 */
module WorkspaceTree {
  import opened Snapshot

  datatype Node = File(hash: Digest, mode: nat) | Directory | Symlink | Special
  // what exists, directories included
  datatype Workspace = Workspace(files: map<Path, Node>)

  /** The proper ancestors of a relative path. */
  function AncestorsOf(path: Path): set<Path> {
    set i | 0 <= i < |path| && path[i] == '/' :: path[..i]
  }

  predicate IsAncestor(a: Path, path: Path) {
    |a| < |path| && path[..|a|] == a && path[|a|] == '/'
  }

  lemma AncestorsAreProper(a: Path, path: Path)
    ensures a in AncestorsOf(path) <==> IsAncestor(a, path)
  {
    if IsAncestor(a, path) {
      assert path[..|a|] in AncestorsOf(path);
    }
  }

  lemma AncestorsChain(a: Path, b: Path, path: Path)
    requires IsAncestor(a, b) && IsAncestor(b, path)
    ensures IsAncestor(a, path)
  {
    assert path[..|a|] == path[..|b|][..|a|];
    assert path[|a|] == path[..|b|][|a|];
  }

  // A symbolic link lies on the path.
  predicate Linked(w: Workspace, path: Path) {
    exists a :: a in AncestorsOf(path) + {path} && a in w.files && w.files[a].Symlink?
  }

  // An ancestor of the path is neither a directory nor a link to follow: `lstat` fails with ENOTDIR.
  predicate Obstructed(w: Workspace, path: Path) {
    exists a :: a in AncestorsOf(path) && a in w.files && (w.files[a].File? || w.files[a].Special?)
  }

  /** A link lies on a path at the path itself or above it; only what lies above it, and is no directory, is in its way. */
  lemma OnThePath(w: Workspace, path: Path)
    ensures Linked(w, path) <==> exists p :: (p == path || IsAncestor(p, path)) && p in w.files && w.files[p].Symlink?
    ensures Obstructed(w, path) <==>
              exists p :: IsAncestor(p, path) && p in w.files && !w.files[p].Directory? && !w.files[p].Symlink?
  {
    forall p ensures p in AncestorsOf(path) <==> IsAncestor(p, path) {
      AncestorsAreProper(p, path);
    }
  }

  // Everything lies in a directory, or behind a link.
  predicate IsTree(files: map<Path, Node>) {
    forall path | path in files ::
      forall a | a in AncestorsOf(path) :: a in files && (files[a].Directory? || files[a].Symlink?)
  }

  // `mkdir` with `recursive`

  function WithDirectories(files: map<Path, Node>, wanted: set<Path>): map<Path, Node> {
    files + map a | a in wanted - files.Keys :: Directory
  }

  lemma DirectoriesAreAdded(files: map<Path, Node>, wanted: set<Path>, path: Path)
    ensures var made := WithDirectories(files, wanted);
            && (path in files ==> path in made && made[path] == files[path])
            && (path !in files ==> (path in made <==> path in wanted) && (path in wanted ==> made[path] == Directory))
  {
  }

  lemma DirectoriesAddUp(files: map<Path, Node>, wanted: set<Path>, more: set<Path>)
    ensures WithDirectories(WithDirectories(files, wanted), more) == WithDirectories(files, wanted + more)
  {
  }

  /** Making directories puts nothing in the way of a path, and clears nothing out of it. */
  lemma DirectoriesObstructNothing(files: map<Path, Node>, wanted: set<Path>, path: Path)
    ensures Obstructed(Workspace(WithDirectories(files, wanted)), path) <==> Obstructed(Workspace(files), path)
    ensures Linked(Workspace(WithDirectories(files, wanted)), path) <==> Linked(Workspace(files), path)
  {
    var made := WithDirectories(files, wanted);
    forall a ensures a in made && !made[a].Directory? <==> a in files && !files[a].Directory? {
      DirectoriesAreAdded(files, wanted, a);
    }
    forall a | a in made && !made[a].Directory? ensures made[a] == files[a] {
      DirectoriesAreAdded(files, wanted, a);
    }
  }

  /** Making the parents of a path nothing stands in the way of keeps the workspace a tree. */
  lemma DirectoriesKeepTree(files: map<Path, Node>, wanted: set<Path>)
    requires IsTree(files)
    requires forall a, b | a in wanted && b in AncestorsOf(a) :: b in wanted
    requires forall a | a in wanted && a in files :: files[a].Directory? || files[a].Symlink?
    ensures IsTree(WithDirectories(files, wanted))
  {
    var made := WithDirectories(files, wanted);
    forall path, a | path in made && a in AncestorsOf(path) ensures a in made && (made[a].Directory? || made[a].Symlink?) {
      DirectoriesAreAdded(files, wanted, a);
      DirectoriesAreAdded(files, wanted, path);
    }
  }
}
