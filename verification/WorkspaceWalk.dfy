/**
  The depth-first walk of a run's workspace against the order snapshots must have
  (packages/workspace/src/git-snapshot.ts, allWorkspacePaths, effectivePaths, verifyGitWorkspaceSnapshot).

  Which relative paths are sensitive or belong to the control plane is a parameter, `skip`.
 */
module WorkspaceWalk {
  import opened Ordering

  type Path = string

  datatype Tree = File | Directory(children: seq<Child>)
  datatype Child = Child(name: string, tree: Tree)

  predicate ByName(a: Child, b: Child) {
    TextLess(a.name, b.name)
  }

  // A directory as a file system can hold it: proper, distinct names
  predicate WellFormed(t: Tree) {
    t.Directory? ==>
      && (forall i | 0 <= i < |t.children| :: t.children[i].name != "" && '/' !in t.children[i].name && WellFormed(t.children[i].tree))
      && (forall i, j | 0 <= i < j < |t.children| :: t.children[i].name != t.children[j].name)
  }

  predicate Skipped(skip: Path -> bool, prefix: Path, c: Child) {
    c.name == ".git" || c.name == ".smartflow-runtime" || skip(prefix + c.name)
  }

  function SortedChildren(t: Tree): (r: seq<Child>)
    requires t.Directory?
    ensures multiset(r) == multiset(t.children)
  {
    SortBy(ByName, t.children)
  }

  lemma SortedAreChildren(t: Tree, c: Child)
    requires t.Directory?
    ensures c in SortedChildren(t) <==> c in t.children
  {
    SamePermutedElement(SortedChildren(t), t.children, c);
  }

  /** The relative paths below `t`, in the order they are visited. */
  function Walk(skip: Path -> bool, t: Tree, prefix: Path): seq<Path>
    requires t.Directory?
    decreases t, 1, 0
  {
    assert forall c | c in SortedChildren(t) :: c in t.children by {
      forall c | c in SortedChildren(t) ensures c in t.children { SortedAreChildren(t, c); }
    }
    WalkAll(skip, t, SortedChildren(t), prefix)
  }

  function WalkAll(skip: Path -> bool, t: Tree, rest: seq<Child>, prefix: Path): seq<Path>
    requires t.Directory? && forall c | c in rest :: c in t.children
    decreases t, 0, |rest|
  {
    if rest == [] then [] else Block(skip, t, rest[0], prefix) + WalkAll(skip, t, rest[1..], prefix)
  }

  // What one child contributes
  function Block(skip: Path -> bool, t: Tree, c: Child, prefix: Path): seq<Path>
    requires t.Directory? && c in t.children
    decreases t, 0, 0
  {
    if Skipped(skip, prefix, c) then []
    else if c.tree.Directory? then Walk(skip, c.tree, prefix + c.name + "/")
    else [prefix + c.name]
  }

  /** The recursive visit, appending to the list of paths found so far. */
  method Visit(skip: Path -> bool, t: Tree, prefix: Path, found: seq<Path>) returns (paths: seq<Path>)
    requires t.Directory?
    ensures paths == found + Walk(skip, t, prefix)
    decreases t
  {
    paths := found;
    var children := SortedChildren(t);
    forall c | c in children ensures c in t.children { SortedAreChildren(t, c); }
    for i := 0 to |children|
      invariant paths == found + WalkTo(skip, t, children, i, prefix)
    {
      var child := children[i];
      ghost var before := paths;
      assert child in t.children;
      if !Skipped(skip, prefix, child) {
        if child.tree.Directory? {
          paths := Visit(skip, child.tree, prefix + child.name + "/", paths);
        } else {
          paths := paths + [prefix + child.name];
        }
      }
      assert paths == before + Block(skip, t, child, prefix);
      WalkToStep(skip, t, children, i, prefix, found);
    }
    WalkToAll(skip, t, children, |children|, prefix);
  }

  // The blocks of the first n children
  ghost function WalkTo(skip: Path -> bool, t: Tree, children: seq<Child>, n: nat, prefix: Path): seq<Path>
    requires t.Directory? && (forall c | c in children :: c in t.children) && n <= |children|
  {
    if n == 0 then [] else WalkTo(skip, t, children, n - 1, prefix) + Block(skip, t, children[n - 1], prefix)
  }

  lemma WalkToStep(skip: Path -> bool, t: Tree, children: seq<Child>, i: nat, prefix: Path, found: seq<Path>)
    requires t.Directory? && (forall c | c in children :: c in t.children) && i < |children|
    ensures found + WalkTo(skip, t, children, i, prefix) + Block(skip, t, children[i], prefix) ==
              found + WalkTo(skip, t, children, i + 1, prefix)
  {
  }

  lemma {:induction false} WalkToAll(skip: Path -> bool, t: Tree, children: seq<Child>, n: nat, prefix: Path)
    requires t.Directory? && (forall c | c in children :: c in t.children) && n <= |children|
    ensures WalkTo(skip, t, children, n, prefix) + WalkAll(skip, t, children[n..], prefix) == WalkAll(skip, t, children, prefix)
    ensures n == |children| ==> WalkTo(skip, t, children, n, prefix) == WalkAll(skip, t, children, prefix)
  {
    if n == 0 {
      assert children[0..] == children;
    } else {
      WalkToAll(skip, t, children, n - 1, prefix);
      WalkAllStep(skip, t, children, n - 1, prefix);
    }
  }

  lemma WalkAllStep(skip: Path -> bool, t: Tree, children: seq<Child>, i: nat, prefix: Path)
    requires t.Directory? && (forall c | c in children :: c in t.children) && i < |children|
    ensures WalkAll(skip, t, children[i..], prefix) ==
              Block(skip, t, children[i], prefix) + WalkAll(skip, t, children[i + 1..], prefix)
  {
    assert children[i..][1..] == children[i + 1..];
  }

  method AllWorkspacePaths(skip: Path -> bool, root: Tree) returns (paths: seq<Path>)
    requires root.Directory?
    ensures paths == Walk(skip, root, "")
  {
    paths := Visit(skip, root, "", []);
  }

  // When the walk is sorted

  predicate ExtendsBelowSlash(longer: string, shorter: string) {
    |shorter| < |longer| && shorter <= longer && longer[|shorter|] < '/'
  }

  // A contributing directory with a contributing sibling named like it plus a character below '/'
  predicate Clash(skip: Path -> bool, t: Tree, d: Child, e: Child, prefix: Path)
    requires t.Directory? && d in t.children && e in t.children
  {
    && d.tree.Directory? && ExtendsBelowSlash(e.name, d.name)
    && Block(skip, t, d, prefix) != [] && Block(skip, t, e, prefix) != []
  }

  predicate NoClash(skip: Path -> bool, t: Tree, prefix: Path)
    requires t.Directory?
    decreases t
  {
    && (forall d, e | d in t.children && e in t.children :: !Clash(skip, t, d, e, prefix))
    && (forall i | 0 <= i < |t.children| && t.children[i].tree.Directory? && !Skipped(skip, prefix, t.children[i]) ::
          NoClash(skip, t.children[i].tree, prefix + t.children[i].name + "/"))
  }

  // Comparing paths

  lemma {:induction false} CommonPrefix(p: string, a: string, b: string)
    ensures TextLess(p + a, p + b) == TextLess(a, b)
  {
    if p == "" {
      assert p + a == a && p + b == b;
    } else {
      assert (p + a)[1..] == p[1..] + a && (p + b)[1..] == p[1..] + b;
      CommonPrefix(p[1..], a, b);
    }
  }

  lemma {:induction false} DivergingNames(a: string, b: string, r: string, s: string)
    requires !(a <= b) && !(b <= a)
    ensures TextLess(a + r, b + s) == TextLess(a, b)
  {
    if a[0] == b[0] {
      assert a == [a[0]] + a[1..] && b == [b[0]] + b[1..];
      assert (a + r)[1..] == a[1..] + r && (b + s)[1..] == b[1..] + s;
      DivergingNames(a[1..], b[1..], r, s);
    }
  }

  lemma {:induction false} PrefixIsLess(a: string, b: string)
    requires a <= b && a != b
    ensures TextLess(a, b)
  {
    if a != "" {
      PrefixIsLess(a[1..], b[1..]);
    }
  }

  // A path contributed by a child: its name, and for a directory a slash after it
  predicate Below(x: Path, prefix: Path, c: Child) {
    var head := prefix + c.name;
    head <= x && if c.tree.Directory? then |x| > |head| && x[|head|] == '/' else x == head
  }

  lemma {:induction false} WalkIsBelow(skip: Path -> bool, t: Tree, prefix: Path, x: Path)
    requires t.Directory? && x in Walk(skip, t, prefix)
    ensures prefix <= x
    decreases t, 1, 0
  {
    forall c | c in SortedChildren(t) ensures c in t.children { SortedAreChildren(t, c); }
    WalkAllIsBelow(skip, t, SortedChildren(t), prefix, x);
  }

  lemma {:induction false} WalkAllIsBelow(skip: Path -> bool, t: Tree, rest: seq<Child>, prefix: Path, x: Path)
    requires t.Directory? && (forall c | c in rest :: c in t.children) && x in WalkAll(skip, t, rest, prefix)
    ensures prefix <= x
    decreases t, 0, |rest|
  {
    if x in Block(skip, t, rest[0], prefix) {
      BlockIsBelow(skip, t, rest[0], prefix, x);
    } else {
      WalkAllIsBelow(skip, t, rest[1..], prefix, x);
    }
  }

  lemma {:induction false} BlockIsBelow(skip: Path -> bool, t: Tree, c: Child, prefix: Path, x: Path)
    requires t.Directory? && c in t.children && x in Block(skip, t, c, prefix)
    ensures Below(x, prefix, c)
    decreases t, 0, 0
  {
    if c.tree.Directory? {
      WalkIsBelow(skip, c.tree, prefix + c.name + "/", x);
      assert (prefix + c.name + "/")[|prefix + c.name|] == '/';
    }
  }

  // What follows a name in a path is nothing or starts with a slash.
  predicate Follows(r: string) {
    r == "" || r[0] == '/'
  }

  lemma ExtendedName(a: string, b: string, r: string, s: string)
    requires a <= b && a != b && '/' !in b && Follows(r)
    ensures TextLess(a + r, b + s) <==> !(r != "" && ExtendsBelowSlash(b, a))
  {
    var tail := b[|a|..];
    assert b == a + tail && tail[0] == b[|a|] && tail[0] in b;
    assert b + s == a + (tail + s);
    CommonPrefix(a, r, tail + s);
  }

  lemma NamesCompare(a: string, b: string, r: string, s: string)
    requires TextLess(a, b) && '/' !in b && Follows(r)
    ensures TextLess(a + r, b + s) <==> !(r != "" && ExtendsBelowSlash(b, a))
  {
    TextLessTrichotomy(a, b);
    if a <= b {
      ExtendedName(a, b, r, s);
    } else if b <= a {
      PrefixIsLess(b, a);
    } else {
      DivergingNames(a, b, r, s);
    }
  }

  /** Paths of a smaller-named child come first, unless it is a directory and the other name goes on below '/'. */
  lemma BlocksCompare(prefix: Path, d: Child, e: Child, x: Path, y: Path)
    requires TextLess(d.name, e.name) && '/' !in e.name
    requires Below(x, prefix, d) && Below(y, prefix, e)
    ensures TextLess(x, y) <==> !(d.tree.Directory? && ExtendsBelowSlash(e.name, d.name))
  {
    var r, s := x[|prefix + d.name|..], y[|prefix + e.name|..];
    assert x == prefix + (d.name + r) && y == prefix + (e.name + s);
    CommonPrefix(prefix, d.name + r, e.name + s);
    NamesCompare(d.name, e.name, r, s);
  }

  // Sortedness of the concatenated blocks

  ghost predicate AllBefore(xs: seq<Path>, ys: seq<Path>) {
    forall x, y | x in xs && y in ys :: TextLess(x, y)
  }

  lemma ConcatSorted(xs: seq<Path>, ys: seq<Path>)
    ensures StrictlySortedBy(TextLess, xs + ys) <==>
              StrictlySortedBy(TextLess, xs) && StrictlySortedBy(TextLess, ys) && AllBefore(xs, ys)
  {
    var zs := xs + ys;
    if StrictlySortedBy(TextLess, zs) {
      forall i, j | 0 <= i < j < |xs| ensures TextLess(xs[i], xs[j]) { assert zs[i] == xs[i] && zs[j] == xs[j]; }
      forall i, j | 0 <= i < j < |ys| ensures TextLess(ys[i], ys[j]) {
        assert zs[|xs| + i] == ys[i] && zs[|xs| + j] == ys[j];
      }
      forall x, y | x in xs && y in ys ensures TextLess(x, y) {
        var i :| 0 <= i < |xs| && xs[i] == x;
        var j :| 0 <= j < |ys| && ys[j] == y;
        assert zs[i] == x && zs[|xs| + j] == y;
      }
    }
  }

  lemma BlocksBeforeExactly(skip: Path -> bool, t: Tree, d: Child, e: Child, prefix: Path)
    requires t.Directory? && WellFormed(t) && d in t.children && e in t.children && TextLess(d.name, e.name)
    ensures AllBefore(Block(skip, t, d, prefix), Block(skip, t, e, prefix)) <==> !Clash(skip, t, d, e, prefix)
  {
    var xs, ys := Block(skip, t, d, prefix), Block(skip, t, e, prefix);
    var apart := !(d.tree.Directory? && ExtendsBelowSlash(e.name, d.name));
    forall x, y | x in xs && y in ys ensures TextLess(x, y) <==> apart {
      BlockIsBelow(skip, t, d, prefix, x);
      BlockIsBelow(skip, t, e, prefix, y);
      BlocksCompare(prefix, d, e, x, y);
    }
    if xs != [] && ys != [] {
      assert xs[0] in xs && ys[0] in ys;
      assert TextLess(xs[0], ys[0]) <==> apart;
    }
  }

  // The whole walk

  ghost predicate ByNameFrom(rest: seq<Child>) {
    forall i, j | 0 <= i < j < |rest| :: TextLess(rest[i].name, rest[j].name)
  }

  ghost predicate BlocksSorted(skip: Path -> bool, t: Tree, rest: seq<Child>, prefix: Path)
    requires t.Directory? && forall c | c in rest :: c in t.children
  {
    forall c | c in rest :: StrictlySortedBy(TextLess, Block(skip, t, c, prefix))
  }

  ghost predicate NoClashAmong(skip: Path -> bool, t: Tree, rest: seq<Child>, prefix: Path)
    requires t.Directory? && forall c | c in rest :: c in t.children
  {
    forall d, e | d in rest && e in rest :: !Clash(skip, t, d, e, prefix)
  }

  ghost predicate InSomeBlock(skip: Path -> bool, t: Tree, rest: seq<Child>, prefix: Path, y: Path)
    requires t.Directory? && forall c | c in rest :: c in t.children
  {
    exists c :: c in rest && y in Block(skip, t, c, prefix)
  }

  lemma {:induction false} InLaterBlock(skip: Path -> bool, t: Tree, rest: seq<Child>, prefix: Path, y: Path)
    requires t.Directory? && forall c | c in rest :: c in t.children
    ensures y in WalkAll(skip, t, rest, prefix) <==> InSomeBlock(skip, t, rest, prefix, y)
    decreases |rest|
  {
    if rest != [] {
      InLaterBlock(skip, t, rest[1..], prefix, y);
      assert y in WalkAll(skip, t, rest, prefix) <==>
             y in Block(skip, t, rest[0], prefix) || y in WalkAll(skip, t, rest[1..], prefix);
      if InSomeBlock(skip, t, rest, prefix, y) {
        var c :| c in rest && y in Block(skip, t, c, prefix);
        assert c == rest[0] || c in rest[1..];
      }
      if InSomeBlock(skip, t, rest[1..], prefix, y) {
        var c :| c in rest[1..] && y in Block(skip, t, c, prefix);
        assert c in rest;
      }
      assert rest[0] in rest;
    }
  }

  lemma ClashNeedsSmallerName(skip: Path -> bool, t: Tree, d: Child, e: Child, prefix: Path)
    requires t.Directory? && d in t.children && e in t.children
    ensures Clash(skip, t, d, e, prefix) ==> TextLess(d.name, e.name) && !TextLess(e.name, d.name)
  {
    if Clash(skip, t, d, e, prefix) {
      PrefixIsLess(d.name, e.name);
      TextLessTrichotomy(d.name, e.name);
    }
  }

  lemma NoneClashesWithFirst(skip: Path -> bool, t: Tree, rest: seq<Child>, e: Child, prefix: Path)
    requires t.Directory? && (forall c | c in rest :: c in t.children) && ByNameFrom(rest) && rest != [] && e in rest
    ensures !Clash(skip, t, e, rest[0], prefix)
  {
    var i :| 0 <= i < |rest| && rest[i] == e;
    ClashNeedsSmallerName(skip, t, e, rest[0], prefix);
    assert i > 0 ==> TextLess(rest[0].name, rest[i].name);
  }

  lemma {:induction false} HeadBeforeRest(skip: Path -> bool, t: Tree, rest: seq<Child>, prefix: Path)
    requires t.Directory? && WellFormed(t) && rest != [] && (forall c | c in rest :: c in t.children) && ByNameFrom(rest)
    ensures AllBefore(Block(skip, t, rest[0], prefix), WalkAll(skip, t, rest[1..], prefix)) <==>
              forall e | e in rest[1..] :: !Clash(skip, t, rest[0], e, prefix)
  {
    var d, xs, ys := rest[0], Block(skip, t, rest[0], prefix), WalkAll(skip, t, rest[1..], prefix);
    forall e | e in rest[1..]
      ensures AllBefore(xs, Block(skip, t, e, prefix)) <==> !Clash(skip, t, d, e, prefix)
    {
      var i :| 0 <= i < |rest[1..]| && rest[1..][i] == e;
      assert TextLess(rest[0].name, rest[i + 1].name);
      BlocksBeforeExactly(skip, t, d, e, prefix);
    }
    forall y ensures y in ys <==> InSomeBlock(skip, t, rest[1..], prefix, y) {
      InLaterBlock(skip, t, rest[1..], prefix, y);
    }
    BeforeAllBlocks(skip, t, xs, rest[1..], ys, prefix);
  }

  lemma BeforeAllBlocks(skip: Path -> bool, t: Tree, xs: seq<Path>, rest: seq<Child>, ys: seq<Path>, prefix: Path)
    requires t.Directory? && forall c | c in rest :: c in t.children
    requires forall y :: y in ys <==> InSomeBlock(skip, t, rest, prefix, y)
    ensures AllBefore(xs, ys) <==> forall c | c in rest :: AllBefore(xs, Block(skip, t, c, prefix))
  {
    if AllBefore(xs, ys) {
      forall c, x, y | c in rest && x in xs && y in Block(skip, t, c, prefix) ensures TextLess(x, y) {
        assert InSomeBlock(skip, t, rest, prefix, y);
      }
    }
    if forall c | c in rest :: AllBefore(xs, Block(skip, t, c, prefix)) {
      forall x, y | x in xs && y in ys ensures TextLess(x, y) {
        assert InSomeBlock(skip, t, rest, prefix, y);
        var c :| c in rest && y in Block(skip, t, c, prefix);
        assert AllBefore(xs, Block(skip, t, c, prefix));
      }
    }
  }

  lemma {:induction false} WalkAllSortedExactly(skip: Path -> bool, t: Tree, rest: seq<Child>, prefix: Path)
    requires t.Directory? && WellFormed(t) && (forall c | c in rest :: c in t.children) && ByNameFrom(rest)
    ensures StrictlySortedBy(TextLess, WalkAll(skip, t, rest, prefix)) <==>
              BlocksSorted(skip, t, rest, prefix) && NoClashAmong(skip, t, rest, prefix)
    decreases |rest|
  {
    if rest != [] {
      assert forall c :: c in rest <==> c == rest[0] || c in rest[1..];
      assert ByNameFrom(rest[1..]);
      WalkAllSortedExactly(skip, t, rest[1..], prefix);
      HeadBeforeRest(skip, t, rest, prefix);
      ConcatSorted(Block(skip, t, rest[0], prefix), WalkAll(skip, t, rest[1..], prefix));
      forall e | e in rest ensures !Clash(skip, t, e, rest[0], prefix) {
        NoneClashesWithFirst(skip, t, rest, e, prefix);
      }
    }
  }

  lemma NamesOrderChildren(t: Tree)
    requires t.Directory? && WellFormed(t)
    ensures StrictTotalOn(ByName, set c | c in t.children)
  {
    NamesTellChildren(t);
    forall a, b | a in t.children && b in t.children
      ensures !ByName(a, a) && (a != b ==> ByName(a, b) != ByName(b, a))
    {
      TextLessTrichotomy(a.name, b.name);
    }
    forall a, b, c | a in t.children && b in t.children && c in t.children && ByName(a, b) && ByName(b, c)
      ensures ByName(a, c)
    {
      TextLessTransitive(a.name, b.name, c.name);
    }
  }

  lemma SortedByName(t: Tree)
    requires t.Directory? && WellFormed(t)
    ensures ByNameFrom(SortedChildren(t))
  {
    var domain, sorted := (set c | c in t.children), SortedChildren(t);
    NamesOrderChildren(t);
    SortBySorts(ByName, t.children, domain);
    NamesTellChildren(t);
    PermutationKeepsDistinct(t.children, sorted);
    forall c | c in sorted ensures c in domain { SortedAreChildren(t, c); }
    SortedDistinctIsStrict(ByName, sorted, domain);
    forall i, j | 0 <= i < j < |sorted| ensures TextLess(sorted[i].name, sorted[j].name) {
      assert ByName(sorted[i], sorted[j]);
    }
  }

  lemma NamesTellChildren(t: Tree)
    requires t.Directory? && WellFormed(t)
    ensures Distinct(t.children)
    ensures forall a, b | a in t.children && b in t.children && a != b :: a.name != b.name
  {
  }

  /**
    The walk comes out in the strictly sorted full-path order exactly when no contributing directory has a
    contributing sibling whose name is the directory's plus a character below '/', at any depth.
   */
  lemma {:induction false} WalkSortedExactly(skip: Path -> bool, t: Tree, prefix: Path)
    requires t.Directory? && WellFormed(t)
    ensures StrictlySortedBy(TextLess, Walk(skip, t, prefix)) <==> NoClash(skip, t, prefix)
    decreases t
  {
    forall c ensures c in SortedChildren(t) <==> c in t.children { SortedAreChildren(t, c); }
    SortedByName(t);
    WalkAllSortedExactly(skip, t, SortedChildren(t), prefix);
    forall i | 0 <= i < |t.children|
      ensures StrictlySortedBy(TextLess, Block(skip, t, t.children[i], prefix)) <==>
                (t.children[i].tree.Directory? && !Skipped(skip, prefix, t.children[i]) ==>
                  NoClash(skip, t.children[i].tree, prefix + t.children[i].name + "/"))
    {
      if t.children[i].tree.Directory? {
        WalkSortedExactly(skip, t.children[i].tree, prefix + t.children[i].name + "/");
      }
    }
  }

  // What the snapshot check asks, and what the other listing gives it

  /** `ls-files` output split at NUL, filtered, made unique and sorted. */
  function EffectivePaths(listed: seq<Path>, keep: Path -> bool): seq<Path> {
    SortBy(TextLess, Unique(Kept(listed, keep)))
  }

  function Kept(listed: seq<Path>, keep: Path -> bool): seq<Path> {
    if listed == [] then []
    else Kept(listed[..|listed| - 1], keep) + if keep(listed[|listed| - 1]) then [listed[|listed| - 1]] else []
  }

  function Unique(xs: seq<Path>): (r: seq<Path>)
    ensures Distinct(r)
  {
    if xs == [] then []
    else
      var rest := Unique(xs[..|xs| - 1]);
      if xs[|xs| - 1] in rest then rest else rest + [xs[|xs| - 1]]
  }

  /** The listing of a repository always has the order a snapshot must have. */
  lemma EffectivePathsAreSorted(listed: seq<Path>, keep: Path -> bool)
    ensures StrictlySortedBy(TextLess, EffectivePaths(listed, keep))
  {
    var unique := Unique(Kept(listed, keep));
    var domain := set p | p in unique;
    TextLessStrictTotal(domain);
    SortBySorts(TextLess, unique, domain);
    PermutationKeepsDistinct(unique, EffectivePaths(listed, keep));
    forall p | p in EffectivePaths(listed, keep) ensures p in domain { SamePermutedElement(EffectivePaths(listed, keep), unique, p); }
    SortedDistinctIsStrict(TextLess, EffectivePaths(listed, keep), domain);
  }

  lemma OneFileWalk(skip: Path -> bool, t: Tree, name: string, prefix: Path)
    requires t == Directory([Child(name, File)]) && !Skipped(skip, prefix, t.children[0])
    ensures Walk(skip, t, prefix) == [prefix + name]
  {
    assert SortedChildren(t) == t.children;
    assert Block(skip, t, t.children[0], prefix) == [prefix + name];
    var none := t.children[1..];
    assert none == [] && WalkAll(skip, t, none, prefix) == [];
    assert WalkAll(skip, t, t.children, prefix) == [prefix + name];
  }

  /** A directory with one file beside a file named like it plus a character below '/': the walk is refused. */
  lemma PairSortsWrongly(skip: Path -> bool, t: Tree, a: Child, b: Child, name: string)
    requires t == Directory([a, b]) && WellFormed(t) && a.tree == Directory([Child(name, File)]) && b.tree == File
    requires ExtendsBelowSlash(b.name, a.name)
    requires !Skipped(skip, "", a) && !Skipped(skip, "", b) && !Skipped(skip, a.name + "/", Child(name, File))
    ensures !StrictlySortedBy(TextLess, Walk(skip, t, ""))
  {
    assert "" + a.name + "/" == a.name + "/";
    OneFileWalk(skip, a.tree, name, a.name + "/");
    assert t.children[0] == a && t.children[1] == b;
    assert Clash(skip, t, a, b, "");
    WalkSortedExactly(skip, t, "");
  }

  const FOO := Child("foo", Directory([Child("x.ts", File)]))
  const FOO_TS := Child("foo.ts", File)

  /** `foo/x.ts` beside `foo.ts`. */
  lemma SlashSortsAfterDot()
    ensures !StrictlySortedBy(TextLess, Walk((p: Path) => false, Directory([FOO, FOO_TS]), ""))
  {
    assert FOO_TS.name[3] == '.';
    PairSortsWrongly((p: Path) => false, Directory([FOO, FOO_TS]), FOO, FOO_TS, "x.ts");
  }

  // What is listed

  // A list of names that leads, child by child, to a file, past nothing that is skipped
  predicate IsRoute(skip: Path -> bool, t: Tree, prefix: Path, route: seq<string>)
    decreases |route|
  {
    && route != [] && t.Directory?
    && exists c :: c in t.children && c.name == route[0]
         && c.name != ".git" && c.name != ".smartflow-runtime" && !skip(prefix + c.name)
         && (if |route| == 1 then c.tree.File? else IsRoute(skip, c.tree, prefix + c.name + "/", route[1..]))
  }

  function Joined(route: seq<string>): Path {
    if route == [] then "" else if |route| == 1 then route[0] else route[0] + "/" + Joined(route[1..])
  }

  ghost predicate Reaches(skip: Path -> bool, t: Tree, prefix: Path, path: Path) {
    exists route :: IsRoute(skip, t, prefix, route) && path == prefix + Joined(route)
  }

  // The path is reached through this child.
  ghost predicate ReachesBy(skip: Path -> bool, c: Child, prefix: Path, path: Path) {
    && c.name != ".git" && c.name != ".smartflow-runtime" && !skip(prefix + c.name)
    && if c.tree.File? then path == prefix + c.name else Reaches(skip, c.tree, prefix + c.name + "/", path)
  }

  lemma ReachedByChild(skip: Path -> bool, t: Tree, prefix: Path, path: Path)
    requires t.Directory?
    ensures Reaches(skip, t, prefix, path) <==> exists c :: c in t.children && ReachesBy(skip, c, prefix, path)
  {
    if Reaches(skip, t, prefix, path) {
      var route :| IsRoute(skip, t, prefix, route) && path == prefix + Joined(route);
      var c :| c in t.children && c.name == route[0]
        && c.name != ".git" && c.name != ".smartflow-runtime" && !skip(prefix + c.name)
        && (if |route| == 1 then c.tree.File? else IsRoute(skip, c.tree, prefix + c.name + "/", route[1..]));
      if |route| > 1 {
        assert path == prefix + c.name + "/" + Joined(route[1..]);
      }
      assert ReachesBy(skip, c, prefix, path);
    }
    if c :| c in t.children && ReachesBy(skip, c, prefix, path) {
      if c.tree.File? {
        assert IsRoute(skip, t, prefix, [c.name]) && Joined([c.name]) == c.name;
      } else {
        var route :| IsRoute(skip, c.tree, prefix + c.name + "/", route) && path == prefix + c.name + "/" + Joined(route);
        var longer := [c.name] + route;
        assert longer[1..] == route && longer[0] == c.name && |longer| > 1;
        assert IsRoute(skip, t, prefix, longer);
        assert path == prefix + Joined(longer);
      }
    }
  }

  lemma {:induction false} WalkAllIsOfChildren(skip: Path -> bool, t: Tree, rest: seq<Child>, prefix: Path, path: Path)
    requires t.Directory? && forall c | c in rest :: c in t.children
    ensures path in WalkAll(skip, t, rest, prefix) <==> exists c :: c in rest && path in Block(skip, t, c, prefix)
  {
    if rest != [] {
      WalkAllIsOfChildren(skip, t, rest[1..], prefix, path);
      assert rest == [rest[0]] + rest[1..];
      assert rest[0] in rest;
    }
  }

  /** The walk lists exactly the files that are reached without stepping on anything that is skipped. */
  lemma {:induction false} WalkListsExactly(skip: Path -> bool, t: Tree, prefix: Path, path: Path)
    requires t.Directory?
    ensures path in Walk(skip, t, prefix) <==> Reaches(skip, t, prefix, path)
    decreases t
  {
    forall c ensures c in SortedChildren(t) <==> c in t.children { SortedAreChildren(t, c); }
    WalkAllIsOfChildren(skip, t, SortedChildren(t), prefix, path);
    forall i | 0 <= i < |t.children|
      ensures path in Block(skip, t, t.children[i], prefix) <==> ReachesBy(skip, t.children[i], prefix, path)
    {
      if t.children[i].tree.Directory? {
        WalkListsExactly(skip, t.children[i].tree, prefix + t.children[i].name + "/", path);
      }
    }
    ReachedByChild(skip, t, prefix, path);
    assert forall c | c in t.children :: path in Block(skip, t, c, prefix) <==> ReachesBy(skip, c, prefix, path);
  }

  lemma {:induction false} KeptExactly(listed: seq<Path>, keep: Path -> bool, path: Path)
    ensures path in Kept(listed, keep) <==> path in listed && keep(path)
  {
    if listed != [] {
      assert listed == listed[..|listed| - 1] + [listed[|listed| - 1]];
      KeptExactly(listed[..|listed| - 1], keep, path);
    }
  }

  lemma {:induction false} UniqueExactly(xs: seq<Path>, path: Path)
    ensures path in Unique(xs) <==> path in xs
  {
    if xs != [] {
      assert xs == xs[..|xs| - 1] + [xs[|xs| - 1]];
      UniqueExactly(xs[..|xs| - 1], path);
    }
  }

  /** The listing of a repository has exactly the listed paths that are kept. */
  lemma EffectivePathsExactly(listed: seq<Path>, keep: Path -> bool, path: Path)
    ensures path in EffectivePaths(listed, keep) <==> path in listed && keep(path)
  {
    var kept := Unique(Kept(listed, keep));
    SamePermutedElement(EffectivePaths(listed, keep), kept, path);
    UniqueExactly(Kept(listed, keep), path);
    KeptExactly(listed, keep, path);
  }
}
