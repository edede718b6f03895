/** Projected payloads and the directory trees that hold them.

    A path is the sequence of its components. A tree lists the directories and the
    regular files below one directory. */
module ProjectedFiles {
  import opened Arithmetic

  type Path = seq<string>
  datatype File = File(bytes: seq<int>, mode: nat)
  type Payload = map<Path, File>
  datatype Tree = Tree(dirs: set<Path>, files: Payload)

  const LIMIT := 1024 * 1024
  const MAX_FILES := 1024
  const MAX_DEPTH := 32
  /** What reading a generation back may cost: its bytes and one per directory. */
  const READ_BUDGET := LIMIT + 65536

  // ----- payload paths -----

  function Length(path: Path): nat {
    if path == [] then 0
    else if |path| == 1 then |path[0]|
    else |path[0]| + 1 + Length(path[1..])
  }

  predicate Relative(path: Path) {
    && 1 <= |path| <= MAX_DEPTH
    && Length(path) <= 4096
    && (forall i | 0 <= i < |path| ::
          path[i] != "" && |path[i]| <= 255 && path[i] != "." && path[i] != ".." && '\0' !in path[i] && '/' !in path[i])
    && !(".." <= path[0])
  }

  /** No path is a directory of another. */
  ghost predicate NoConflict(paths: set<Path>) {
    forall p, q | p in paths && q in paths :: p <= q ==> p == q
  }

  /** Accept the payload's paths: each relative, none repeated, none a directory of another. */
  method CheckPaths(paths: seq<Path>) returns (ok: bool)
    ensures ok <==>
            && (forall p | p in paths :: Relative(p))
            && (forall i, j | 0 <= i < j < |paths| :: paths[i] != paths[j])
            && NoConflict(set p | p in paths)
  {
    var seen: set<Path> := {};
    for i := 0 to |paths|
      invariant seen == set p | p in paths[..i]
      invariant forall p | p in paths[..i] :: Relative(p)
      invariant forall j, k | 0 <= j < k < i :: paths[j] != paths[k]
    {
      assert paths[i] in paths;
      if !Relative(paths[i]) { return false; }
      if paths[i] in seen {
        var j :| 0 <= j < i && paths[j] == paths[i];
        return false;
      }
      assert paths[..i + 1] == paths[..i] + [paths[i]];
      seen := seen + {paths[i]};
    }
    assert paths[..|paths|] == paths;
    var left := seen;
    while left != {}
      invariant left <= seen
      invariant forall p, q | p in seen && q in seen && q !in left :: p <= q ==> p == q
    {
      var path :| path in left;
      var clash := HasDirectoryIn(path, seen);
      if clash { return false; }
      left := left - {path};
    }
    return true;
  }

  /** Whether some proper, nonempty prefix of `path` is a path itself. */
  method HasDirectoryIn(path: Path, seen: set<Path>) returns (clash: bool)
    requires forall p | p in seen :: p != []
    ensures clash <==> exists p | p in seen :: p <= path && p != path
  {
    var n := |path|;
    while n > 1
      invariant n <= |path| && (path != [] ==> n > 0)
      invariant forall p | p in seen && p <= path && p != path :: |p| < n
      decreases n
    {
      n := n - 1;
      if path[..n] in seen { return true; }
      forall p | p in seen && p <= path && p != path ensures |p| < n {
        assert p == path[..|p|];
      }
    }
    return false;
  }

  // ----- sizes -----

  ghost function TotalBytes(files: Payload): nat { Cost(Tree({}, files), files.Keys) }

  /** Reading costs a file's bytes, and one unit for every directory. */
  ghost function Weight(tree: Tree, path: Path): nat {
    if path in tree.files then |tree.files[path].bytes| else 1
  }

  ghost function Cost(tree: Tree, paths: set<Path>): nat {
    if paths == {} then 0
    else
      var path :| path in paths;
      Weight(tree, path) + Cost(tree, paths - {path})
  }

  lemma {:induction false} CostRemove(tree: Tree, paths: set<Path>, path: Path)
    requires path in paths
    ensures Cost(tree, paths) == Weight(tree, path) + Cost(tree, paths - {path})
    decreases |paths|
  {
    var first :| first in paths && Cost(tree, paths) == Weight(tree, first) + Cost(tree, paths - {first});
    if first != path {
      CostRemove(tree, paths - {first}, path);
      CostRemove(tree, paths - {path}, first);
      assert paths - {first} - {path} == paths - {path} - {first};
    }
  }

  lemma {:induction false} CostUnion(tree: Tree, a: set<Path>, b: set<Path>)
    requires a !! b
    ensures Cost(tree, a + b) == Cost(tree, a) + Cost(tree, b)
    decreases |b|
  {
    if b == {} {
      assert a + b == a;
    } else {
      var path :| path in b;
      CostUnion(tree, a, b - {path});
      CostRemove(tree, b, path);
      CostRemove(tree, a + b, path);
      assert (a + b) - {path} == a + (b - {path});
    }
  }

  lemma CostMonotone(tree: Tree, a: set<Path>, b: set<Path>)
    requires a <= b
    ensures Cost(tree, a) <= Cost(tree, b)
  {
    CostUnion(tree, a, b - a);
    assert a + (b - a) == b;
  }

  ghost predicate AllRelative(files: Payload) { forall p | p in files :: Relative(p) }

  /** What one source is checked for: relative paths without conflict, within the limits. */
  ghost predicate ValidPayload(files: Payload) {
    && AllRelative(files)
    && NoConflict(files.Keys)
    && |files| <= MAX_FILES
    && TotalBytes(files) <= LIMIT
  }

  /** A payload that can stand in a directory tree. */
  ghost predicate Placeable(files: Payload) { AllRelative(files) && NoConflict(files.Keys) }

  // ----- trees -----

  /** The directories a file at `path` needs: its proper, nonempty prefixes. */
  function Parents(path: Path): set<Path> {
    set n | 1 <= n < |path| :: path[..n]
  }

  function AllParents(paths: set<Path>): set<Path> {
    set p, n | p in paths && 1 <= n < |p| :: p[..n]
  }

  /** The tree that holds exactly a payload. */
  function TreeOf(files: Payload): Tree { Tree(AllParents(files.Keys), files) }

  /** Every entry sits in a directory of the tree, and nothing is both. */
  ghost predicate Proper(tree: Tree) {
    && tree.dirs !! tree.files.Keys
    && (forall p {:trigger HasParents(tree.dirs, p)} | p in tree.dirs + tree.files.Keys :: HasParents(tree.dirs, p))
  }

  ghost predicate HasParents(dirs: set<Path>, p: Path) {
    p != [] && Parents(p) <= dirs
  }

  lemma TreeOfIsProper(files: Payload)
    requires NoConflict(files.Keys) && [] !in files
    ensures Proper(TreeOf(files))
  {
    var dirs := AllParents(files.Keys);
    forall d | d in dirs ensures d !in files && HasParents(dirs, d) {
      var p, n :| p in files.Keys && 1 <= n < |p| && d == p[..n];
      forall m | 1 <= m < |d| ensures d[..m] in dirs { assert d[..m] == p[..m]; }
    }
    forall p | p in files ensures HasParents(dirs, p) {
      forall m | 1 <= m < |p| ensures p[..m] in dirs {}
    }
  }

  // ----- reading a tree back -----

  function Entries(tree: Tree): set<Path> { tree.dirs + tree.files.Keys }

  function Below(tree: Tree, dir: Path): set<Path> {
    set p | p in Entries(tree) && dir < p
  }

  function Children(tree: Tree, dir: Path): set<Path> {
    set p | p in Entries(tree) && dir < p && |p| == |dir| + 1
  }

  /** The entries of `dir` that lie at or below one of `children`. */
  function Inside(tree: Tree, dir: Path, children: set<Path>): set<Path> {
    set p | p in Entries(tree) && dir < p && p[..|dir| + 1] in children
  }

  function Held(tree: Tree, paths: set<Path>): Payload {
    map p | p in paths && p in tree.files :: tree.files[p]
  }

  lemma SplitChild(tree: Tree, dir: Path, children: set<Path>, child: Path)
    requires child in Children(tree, dir) && child !in children
    ensures Inside(tree, dir, children + {child}) == Inside(tree, dir, children) + ({child} + Below(tree, child))
    ensures Inside(tree, dir, children) !! {child} + Below(tree, child)
  {
    assert child[..|dir| + 1] == child;
    forall p | p in Entries(tree) && child < p ensures dir < p && p[..|dir| + 1] == child {}
    forall p | p in Entries(tree) && dir < p && p[..|dir| + 1] == child ensures p == child || child < p {}
  }

  lemma NothingBelowFiles(tree: Tree, file: Path)
    requires Proper(tree) && file in tree.files
    ensures Below(tree, file) == {}
  {
    assert HasParents(tree.dirs, file);
    forall p | p in Entries(tree) ensures !(file < p) {
      assert HasParents(tree.dirs, p);
      if file < p { PrefixIsParent(file, p); }
    }
  }

  lemma PrefixIsParent(dir: Path, p: Path)
    requires dir != [] && dir < p
    ensures dir in Parents(p)
  {
    assert dir == p[..|dir|];
  }

  lemma WholeDirectory(tree: Tree, dir: Path)
    requires Proper(tree)
    ensures Inside(tree, dir, Children(tree, dir)) == Below(tree, dir)
    ensures Inside(tree, dir, {}) == {}
  {
    forall p | p in Entries(tree) && dir < p ensures p[..|dir| + 1] in Children(tree, dir) {
      assert HasParents(tree.dirs, p);
      if |p| > |dir| + 1 { assert p[..|dir| + 1] in Parents(p); } else { assert p[..|dir| + 1] == p; }
    }
  }

  datatype Reading = Read(files: Payload, remaining: nat) | Oversized

  ghost predicate Fits(tree: Tree, paths: set<Path>, found: Payload, remaining: nat) {
    Cost(tree, paths) <= remaining && |(found + Held(tree, paths)).Keys| <= MAX_FILES
  }

  /** Collect the files below `dir`, each at its path, within a byte, directory and file
      budget. The result is exact, and it is there exactly when the budget suffices. */
  method ReadTree(tree: Tree, dir: Path, found: Payload, remaining: nat) returns (r: Reading)
    requires Proper(tree) && found.Keys !! Below(tree, dir) && |found| <= MAX_FILES
    ensures r.Read? ==>
              r.files == found + Held(tree, Below(tree, dir)) && r.remaining + Cost(tree, Below(tree, dir)) == remaining
    ensures r.Read? ==> |r.files| <= MAX_FILES
    ensures r.Read? <==> Fits(tree, Below(tree, dir), found, remaining)
    decreases Below(tree, dir), 1
  {
    r := Read(found, remaining);
    ghost var done: set<Path> := {};
    var todo := Children(tree, dir);
    NothingRead(tree, dir, found, remaining);
    while todo != {} && r.Read?
      invariant done <= Children(tree, dir) && todo == Children(tree, dir) - done
      invariant ReadSoFar(tree, dir, done, found, remaining, r)
      decreases todo
    {
      var child :| child in todo;
      r := ReadNext(tree, dir, done, child, found, remaining, r);
      todo, done := todo - {child}, done + {child};
    }
    if r.Read? { DirectoryRead(tree, dir, done, found, remaining, r); }
  }

  lemma NothingRead(tree: Tree, dir: Path, found: Payload, remaining: nat)
    requires Proper(tree) && |found| <= MAX_FILES
    ensures ReadSoFar(tree, dir, {}, found, remaining, Read(found, remaining))
  {
    WholeDirectory(tree, dir);
  }

  lemma DirectoryRead(tree: Tree, dir: Path, done: set<Path>, found: Payload, remaining: nat, r: Reading)
    requires Proper(tree) && r.Read? && ReadSoFar(tree, dir, done, found, remaining, r)
    requires done <= Children(tree, dir) && Children(tree, dir) - done == {}
    ensures Reached(tree, found, remaining, Below(tree, dir), r.files, r.remaining)
    ensures Fits(tree, Below(tree, dir), found, remaining)
  {
    assert done == Children(tree, dir);
    WholeDirectory(tree, dir);
    AllRead(tree, Below(tree, dir), found, remaining, r.files, r.remaining);
  }

  ghost predicate ReadSoFar(tree: Tree, dir: Path, done: set<Path>, found: Payload, remaining: nat, r: Reading) {
    && (r.Read? ==> Reached(tree, found, remaining, Inside(tree, dir, done), r.files, r.remaining))
    && (r.Oversized? ==> !Fits(tree, Below(tree, dir), found, remaining))
  }

  lemma AllRead(tree: Tree, paths: set<Path>, found: Payload, remaining: nat, out: Payload, left: nat)
    requires Reached(tree, found, remaining, paths, out, left)
    ensures Fits(tree, paths, found, remaining)
  {
    assert |out| == |out.Keys|;
  }

  method ReadNext(tree: Tree, ghost dir: Path, ghost done: set<Path>, child: Path, ghost found: Payload, ghost remaining: nat, now: Reading)
      returns (r: Reading)
    requires Proper(tree) && done <= Children(tree, dir) && child in Children(tree, dir) && child !in done
    requires found.Keys !! Below(tree, dir) && now.Read? && ReadSoFar(tree, dir, done, found, remaining, now)
    ensures ReadSoFar(tree, dir, done + {child}, found, remaining, r)
    decreases Below(tree, dir), 0
  {
    NextChild(tree, dir, done, child, found, remaining, Inside(tree, dir, done), now.files, now.remaining);
    r := ReadEntry(tree, child, now.files, now.remaining);
    if r.Read? { AllRead(tree, {child} + Below(tree, child), now.files, now.remaining, r.files, r.remaining); }
  }

  /** The reading's state once exactly `seen` has been read. */
  ghost predicate Reached(tree: Tree, found: Payload, remaining: nat, seen: set<Path>, out: Payload, left: nat) {
    out == found + Held(tree, seen) && left + Cost(tree, seen) == remaining && |out| <= MAX_FILES
  }

  lemma NextChild(tree: Tree, dir: Path, done: set<Path>, child: Path, found: Payload, remaining: nat,
                  seen: set<Path>, out: Payload, left: nat)
    requires Proper(tree) && done <= Children(tree, dir) && child in Children(tree, dir) && child !in done
    requires found.Keys !! Below(tree, dir) && seen == Inside(tree, dir, done)
    requires out == found + Held(tree, seen) && left + Cost(tree, seen) == remaining
    ensures var part := {child} + Below(tree, child);
            && child in Entries(tree) && out.Keys !! part && Below(tree, child) < Below(tree, dir)
            && Inside(tree, dir, done + {child}) == seen + part
            && Cost(tree, seen + part) == Cost(tree, seen) + Cost(tree, part)
            && found + Held(tree, seen + part) == out + Held(tree, part)
            && (Fits(tree, Below(tree, dir), found, remaining) ==> Fits(tree, part, out, left))
  {
    SplitChild(tree, dir, done, child);
    Spending(tree, dir, done, child, found, remaining);
  }

  method ReadEntry(tree: Tree, child: Path, found: Payload, remaining: nat) returns (r: Reading)
    requires Proper(tree) && child in Entries(tree) && found.Keys !! {child} + Below(tree, child) && |found| <= MAX_FILES
    ensures r.Read? ==>
              && r.files == found + Held(tree, {child} + Below(tree, child))
              && r.remaining + Cost(tree, {child} + Below(tree, child)) == remaining
    ensures r.Read? ==> |r.files| <= MAX_FILES
    ensures r.Read? <==> Fits(tree, {child} + Below(tree, child), found, remaining)
    decreases Below(tree, child), 2
  {
    if child in tree.dirs {
      DirectoryCost(tree, child, found, remaining);
      if remaining == 0 { return Oversized; }
      r := ReadTree(tree, child, found, remaining - 1);
    } else {
      NothingBelowFiles(tree, child);
      FileCost(tree, child, found, remaining);
      var file := tree.files[child];
      if |file.bytes| > remaining || |found| >= MAX_FILES { return Oversized; }
      r := Read(found[child := file], remaining - |file.bytes|);
    }
  }

  /** What one child adds, and that it fits if the whole directory does. */
  lemma Spending(tree: Tree, dir: Path, done: set<Path>, child: Path, found: Payload, remaining: nat)
    requires Proper(tree) && done <= Children(tree, dir) && child in Children(tree, dir) && child !in done
    requires found.Keys !! Below(tree, dir) && Cost(tree, Inside(tree, dir, done)) <= remaining
    ensures var part := {child} + Below(tree, child);
            var out, left := found + Held(tree, Inside(tree, dir, done)), remaining - Cost(tree, Inside(tree, dir, done));
            && Cost(tree, Inside(tree, dir, done + {child})) == Cost(tree, Inside(tree, dir, done)) + Cost(tree, part)
            && found + Held(tree, Inside(tree, dir, done + {child})) == out + Held(tree, part)
            && out.Keys !! part && child !in Below(tree, child)
            && Below(tree, child) < Below(tree, dir)
            && (Fits(tree, Below(tree, dir), found, remaining) ==> Fits(tree, part, out, left))
  {
    var part, before, after := {child} + Below(tree, child), Inside(tree, dir, done), Inside(tree, dir, done + {child});
    SplitChild(tree, dir, done, child);
    assert after <= Below(tree, dir) && child in Below(tree, dir) && child !in Below(tree, child);
    assert Below(tree, child) < Below(tree, dir);
    assert Cost(tree, after) == Cost(tree, before) + Cost(tree, part) by { CostUnion(tree, before, part); }
    HeldParts(tree, found, before, part);
    if Fits(tree, Below(tree, dir), found, remaining) { FitsPart(tree, after, Below(tree, dir), found, remaining); }
  }

  lemma HeldParts(tree: Tree, found: Payload, before: set<Path>, part: set<Path>)
    ensures found + Held(tree, before + part) == (found + Held(tree, before)) + Held(tree, part)
  {
  }

  lemma FitsPart(tree: Tree, some: set<Path>, all: set<Path>, found: Payload, remaining: nat)
    requires some <= all && Fits(tree, all, found, remaining)
    ensures Fits(tree, some, found, remaining)
  {
    CostMonotone(tree, some, all);
    SubsetSize((found + Held(tree, some)).Keys, (found + Held(tree, all)).Keys);
  }

  lemma DirectoryCost(tree: Tree, child: Path, out: Payload, left: nat)
    requires Proper(tree) && child in tree.dirs
    ensures var part := {child} + Below(tree, child);
            && Cost(tree, part) == 1 + Cost(tree, Below(tree, child))
            && Held(tree, part) == Held(tree, Below(tree, child))
            && (Fits(tree, part, out, left) <==> left > 0 && Fits(tree, Below(tree, child), out, left - 1))
  {
    var part := {child} + Below(tree, child);
    CostRemove(tree, part, child);
    assert part - {child} == Below(tree, child);
  }

  lemma FileCost(tree: Tree, child: Path, out: Payload, left: nat)
    requires Proper(tree) && child in tree.files && Below(tree, child) == {} && child !in out
    ensures var part := {child} + Below(tree, child);
            && Cost(tree, part) == |tree.files[child].bytes|
            && out + Held(tree, part) == out[child := tree.files[child]]
            && (Fits(tree, part, out, left) <==> |tree.files[child].bytes| <= left && |out| < MAX_FILES)
  {
    var part := {child} + Below(tree, child);
    CostRemove(tree, part, child);
    assert part - {child} == {};
    assert (out + Held(tree, part)).Keys == out.Keys + {child};
  }

  // ----- a complete generation always fits the reading budget -----

  lemma {:induction false} FewDirectories(paths: set<Path>)
    requires forall p | p in paths :: |p| <= MAX_DEPTH
    ensures |AllParents(paths)| <= (MAX_DEPTH - 1) * |paths|
    decreases |paths|
  {
    if paths != {} {
      var path :| path in paths;
      var rest := paths - {path};
      FewDirectories(rest);
      assert AllParents(paths) == AllParents(rest) + Parents(path);
      FewParents(path, |path|);
      assert |AllParents(rest) + Parents(path)| <= |AllParents(rest)| + |Parents(path)|;
    }
  }

  lemma {:induction false} FewParents(path: Path, n: nat)
    requires n <= |path|
    ensures |set k | 1 <= k < n :: path[..k]| <= (if n == 0 then 0 else n - 1)
  {
    if n > 1 {
      FewParents(path, n - 1);
      assert (set k | 1 <= k < n :: path[..k]) == (set k | 1 <= k < n - 1 :: path[..k]) + {path[..n - 1]};
    }
  }

  lemma {:induction false} DirectoryCosts(tree: Tree, dirs: set<Path>)
    requires dirs !! tree.files.Keys
    ensures Cost(tree, dirs) == |dirs|
    decreases |dirs|
  {
    if dirs != {} {
      var d :| d in dirs;
      CostRemove(tree, dirs, d);
      DirectoryCosts(tree, dirs - {d});
    }
  }

  lemma {:induction false} FileCosts(tree: Tree, other: Tree, paths: set<Path>)
    requires tree.files == other.files && paths <= tree.files.Keys
    ensures Cost(tree, paths) == Cost(other, paths)
    decreases |paths|
  {
    if paths != {} {
      var p :| p in paths;
      CostRemove(tree, paths, p);
      CostRemove(other, paths, p);
      FileCosts(tree, other, paths - {p});
    }
  }

  /** A generation reads back. */
  ghost predicate ReadsBack(tree: Tree) { Fits(tree, Below(tree, []), map[], READ_BUDGET) }

  /** A complete generation reads back exactly when its files, and its bytes and directories
      together, are within the budget. */
  lemma ReadsBackIff(files: Payload)
    requires NoConflict(files.Keys) && [] !in files
    ensures Proper(TreeOf(files))
    ensures ReadsBack(TreeOf(files)) <==> |files| <= MAX_FILES && TotalBytes(files) + |AllParents(files.Keys)| <= READ_BUDGET
  {
    var tree := TreeOf(files);
    TreeOfIsProper(files);
    Everything(tree);
    FileCosts(tree, Tree({}, files), files.Keys);
    CostUnion(tree, tree.dirs, tree.files.Keys);
    DirectoryCosts(tree, tree.dirs);
    assert |files| == |files.Keys|;
  }

  /** Reading back the generation of a payload within the limits returns that payload. */
  lemma OwnTreeFits(files: Payload)
    requires ValidPayload(files)
    ensures ReadsBack(TreeOf(files))
  {
    FewDirectories(files.Keys);
    ReadsBackIff(files);
  }

  lemma Everything(tree: Tree)
    requires Proper(tree)
    ensures Below(tree, []) == tree.dirs + tree.files.Keys
    ensures Held(tree, Below(tree, [])) == tree.files
    ensures map[] + Held(tree, Below(tree, [])) == tree.files
  {
    forall p: Path | p in Entries(tree) ensures [] < p { assert HasParents(tree.dirs, p); }
  }
}
