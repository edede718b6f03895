/** Crash-safe publication of a projected volume.

    `Disk` is one volume directory. Its methods are the file-system operations the
    projection uses, one system call each; the process may stop before any of them, and
    in the middle of a write. A contract that holds of whatever `Publish` leaves behind,
    for every `steps`, therefore holds at every crash point. */
module Projection {
  import opened Wrappers
  import opened ProjectedFiles

  type Name = string
  /** Symbolic link targets are relative paths. */
  datatype Node = Directory(tree: Tree) | Link(target: Path) | Plain(file: File)
  /** The entries of a volume directory. */
  type Listing = map<Name, Node>

  const DATA: Name := "..data"
  const PENDING: Name := "..data_tmp"
  const GENERATION: Name := "..h3s-"

  predicate AlphaNumeric(c: char) {
    '0' <= c <= '9' || 'a' <= c <= 'z' || 'A' <= c <= 'Z'
  }

  predicate IsGeneration(name: Name) {
    && GENERATION <= name
    && |name| >= |GENERATION| + 6
    && forall i | |GENERATION| <= i < |name| :: AlphaNumeric(name[i])
  }

  lemma SpecialNames(name: Name)
    requires IsGeneration(name)
    ensures name != DATA && name != PENDING && ".." <= name
  {
    assert name[2] == GENERATION[2];
    assert DATA[2] != GENERATION[2] && PENDING[2] != GENERATION[2];
  }

  /** The names the payload's files have in the volume directory. */
  function Top(files: Payload): set<Name> {
    set p | p in files && p != [] :: p[0]
  }

  /** What any file system guarantees: entries sit in directories that exist. */
  ghost predicate Real(entries: Listing) {
    forall name | name in entries && entries[name].Directory? :: Proper(entries[name].tree)
  }

  // ----- what the directory shows -----

  /** The tree the data link names, if it names one. */
  function Active(entries: Listing): Option<Tree> {
    if DATA in entries && entries[DATA].Link? && |entries[DATA].target| == 1
       && entries[DATA].target[0] in entries && entries[entries[DATA].target[0]].Directory?
    then Some(entries[entries[DATA].target[0]].tree)
    else None
  }

  function ActiveName(entries: Listing): Option<Name> {
    if DATA in entries && entries[DATA].Link? && |entries[DATA].target| == 1 then Some(entries[DATA].target[0]) else None
  }

  /** What a container reads at a path: through the user link, then the data link. */
  function ReadThrough(entries: Listing, path: Path): Option<File>
    requires path != []
  {
    if path[0] in entries && entries[path[0]] == Link([DATA, path[0]]) && Active(entries).Some?
       && path in Active(entries).value.files
    then Some(Active(entries).value.files[path])
    else None
  }

  /** Every state a projection can leave behind, finished or not. */
  ghost predicate Recoverable(entries: Listing) {
    && (DATA in entries ==>
          && entries[DATA].Link? && |entries[DATA].target| == 1 && IsGeneration(entries[DATA].target[0])
          && entries[DATA].target[0] in entries && entries[entries[DATA].target[0]].Directory?
          && Complete(entries[entries[DATA].target[0]].tree))
    && (PENDING in entries ==> entries[PENDING].Link?)
    && (forall name {:trigger Allowed(name, entries[name])} | name in entries :: Allowed(name, entries[name]))
  }

  ghost predicate Complete(tree: Tree) {
    Placeable(tree.files) && tree == TreeOf(tree.files)
  }

  /** What the directory shows can be read back, as the next run will do. */
  ghost predicate ActiveReads(entries: Listing) {
    Active(entries).Some? ==> ReadsBack(Active(entries).value)
  }

  ghost predicate Allowed(name: Name, node: Node) {
    if name == DATA || name == PENDING then true
    else if IsGeneration(name) then node.Directory? && Proper(node.tree)
    else !(".." <= name) && node == Link([DATA, name])
  }

  ghost predicate Shows(entries: Listing, files: Payload) {
    Active(entries) == Some(TreeOf(files))
  }

  /** Nothing but the payload: one generation, the data link, one link per top-level name. */
  ghost predicate Published(entries: Listing, files: Payload) {
    exists name: Name ::
      && IsGeneration(name)
      && entries.Keys == {DATA, name} + Top(files)
      && entries[DATA] == Link([name]) && entries[name] == Directory(TreeOf(files))
      && forall top | top in Top(files) :: entries[top] == Link([DATA, top])
  }

  /** A published payload is readable at exactly its own paths. */
  lemma PublishedReads(entries: Listing, files: Payload, path: Path)
    requires Published(entries, files) && path != []
    ensures ReadThrough(entries, path) == if path in files then Some(files[path]) else None
  {
    if path in files { assert path[0] in Top(files); }
  }

  datatype Outcome =
    /** The run finished. */
    | Done
    /** The process stopped. */
    | Stopped
    /** The run found something it must not touch. */
    | Refused

  class Disk {
    var entries: Listing
    /** System calls left before the process stops. */
    var steps: nat

    constructor (entries: Listing, steps: nat)
      ensures this.entries == entries && this.steps == steps
    {
      this.entries, this.steps := entries, steps;
    }

    method Call() returns (alive: bool)
      modifies this`steps
      ensures alive <==> old(steps) > 0
      ensures !alive ==> steps == 0
      ensures steps == if alive then old(steps) - 1 else old(steps)
    {
      alive := steps > 0;
      if alive { steps := steps - 1; }
    }

    method CreateDirectory(name: Name) returns (alive: bool)
      requires name !in entries
      modifies this
      ensures !alive ==> steps == 0
      ensures entries == if alive then old(entries)[name := Directory(Tree({}, map[]))] else old(entries)
    {
      alive := Call();
      if alive { entries := entries[name := Directory(Tree({}, map[]))]; }
    }

    method Symlink(target: Path, name: Name) returns (alive: bool)
      requires name !in entries
      modifies this
      ensures !alive ==> steps == 0
      ensures entries == if alive then old(entries)[name := Link(target)] else old(entries)
    {
      alive := Call();
      if alive { entries := entries[name := Link(target)]; }
    }

    /** Removes a file or link, or an empty directory. */
    method Remove(name: Name) returns (alive: bool)
      requires name in entries && (entries[name].Directory? ==> entries[name].tree == Tree({}, map[]))
      modifies this
      ensures !alive ==> steps == 0
      ensures entries == if alive then old(entries) - {name} else old(entries)
    {
      alive := Call();
      if alive { entries := entries - {name}; }
    }

    /** Atomically replaces whatever link `to` was. */
    method Rename(from: Name, to: Name) returns (alive: bool)
      requires from in entries && from != to && (to in entries ==> !entries[to].Directory?)
      modifies this
      ensures !alive ==> steps == 0
      ensures entries == if alive then (old(entries) - {from})[to := old(entries)[from]] else old(entries)
    {
      alive := Call();
      if alive { entries := (entries - {from})[to := entries[from]]; }
    }

    // ----- inside a generation -----

    method MakeDirectory(generation: Name, path: Path) returns (alive: bool)
      requires generation in entries && entries[generation].Directory?
      requires path !in entries[generation].tree.dirs + entries[generation].tree.files.Keys
      modifies this
      ensures !alive ==> steps == 0
      ensures var tree := old(entries[generation].tree);
              entries == if alive then old(entries)[generation := Directory(Tree(tree.dirs + {path}, tree.files))] else old(entries)
    {
      var tree := entries[generation].tree;
      alive := Call();
      if alive { entries := entries[generation := Directory(Tree(tree.dirs + {path}, tree.files))]; }
    }

    method SetFile(generation: Name, path: Path, file: File) returns (alive: bool)
      requires generation in entries && entries[generation].Directory?
      modifies this
      ensures !alive ==> steps == 0
      ensures var tree := old(entries[generation].tree);
              entries == if alive then old(entries)[generation := Directory(Tree(tree.dirs, tree.files[path := file]))] else old(entries)
    {
      var tree := entries[generation].tree;
      alive := Call();
      if alive { entries := entries[generation := Directory(Tree(tree.dirs, tree.files[path := file]))]; }
    }

    /** Write a whole file. A process that stops in the middle leaves any prefix of it. */
    method WriteAll(generation: Name, path: Path, bytes: seq<int>, reached: nat) returns (alive: bool)
      requires generation in entries && entries[generation].Directory? && path in entries[generation].tree.files
      modifies this
      ensures !alive ==> steps == 0
      ensures var tree := old(entries[generation].tree);
              var mode := tree.files[path].mode;
              var written := if alive then bytes else bytes[..if reached < |bytes| then reached else |bytes|];
              entries == old(entries)[generation := Directory(Tree(tree.dirs, tree.files[path := File(written, mode)]))]
    {
      var tree := entries[generation].tree;
      alive := Call();
      var written := if alive then bytes else bytes[..if reached < |bytes| then reached else |bytes|];
      entries := entries[generation := Directory(Tree(tree.dirs, tree.files[path := File(written, tree.files[path].mode)]))];
    }

    method RemoveFrom(generation: Name, path: Path) returns (alive: bool)
      requires generation in entries && entries[generation].Directory?
      requires path in entries[generation].tree.dirs + entries[generation].tree.files.Keys
      requires Below(entries[generation].tree, path) == {}
      modifies this
      ensures !alive ==> steps == 0
      ensures var tree := old(entries[generation].tree);
              entries == if alive then old(entries)[generation := Directory(Tree(tree.dirs - {path}, tree.files - {path}))] else old(entries)
    {
      var tree := entries[generation].tree;
      alive := Call();
      if alive { entries := entries[generation := Directory(Tree(tree.dirs - {path}, tree.files - {path}))]; }
    }
  }

  // ----- states along the way -----

  lemma GenerationIsNotData(name: Name)
    requires IsGeneration(name)
    ensures name != DATA && name != PENDING
  {
    SpecialNames(name);
  }

  /** Changing a generation that is not the active one changes nothing visible. */
  lemma OtherGeneration(before: Listing, name: Name, tree: Tree)
    requires Recoverable(before) && IsGeneration(name) && ActiveName(before) != Some(name) && Proper(tree)
    ensures Recoverable(before[name := Directory(tree)]) && Active(before[name := Directory(tree)]) == Active(before)
    ensures ActiveName(before[name := Directory(tree)]) == ActiveName(before)
  {
    GenerationIsNotData(name);
    StillActive(before, name, tree);
    var after := before[name := Directory(tree)];
    forall other | other in after ensures Allowed(other, after[other]) {
      if other != name { assert Allowed(other, before[other]); }
    }
  }

  lemma StillActive(before: Listing, name: Name, tree: Tree)
    requires name != DATA && ActiveName(before) != Some(name)
    ensures Active(before[name := Directory(tree)]) == Active(before)
  {
  }

  lemma GenerationGone(before: Listing, name: Name)
    requires Recoverable(before) && IsGeneration(name) && ActiveName(before) != Some(name)
    ensures Recoverable(before - {name}) && Active(before - {name}) == Active(before)
    ensures ActiveName(before - {name}) == ActiveName(before)
  {
    SpecialNames(name);
  }

  lemma AddFileProper(tree: Tree, path: Path, file: File)
    requires Proper(tree) && path != [] && Parents(path) <= tree.dirs && path !in tree.dirs
    ensures Proper(Tree(tree.dirs, tree.files[path := file]))
  {
    forall p | p in tree.dirs + tree.files.Keys ensures HasParents(tree.dirs, p) {}
  }

  lemma AddDirectoryProper(tree: Tree, path: Path)
    requires Proper(tree) && path != [] && Parents(path) <= tree.dirs && path !in tree.files
    ensures Proper(Tree(tree.dirs + {path}, tree.files))
  {
    forall p | p in tree.dirs + tree.files.Keys ensures HasParents(tree.dirs + {path}, p) {
      assert HasParents(tree.dirs, p);
    }
  }

  lemma RemoveProper(tree: Tree, path: Path)
    requires Proper(tree) && Below(tree, path) == {}
    ensures Proper(Tree(tree.dirs - {path}, tree.files - {path}))
  {
    forall p | p in tree.dirs + tree.files.Keys ensures HasParents(tree.dirs - {path}, p) {
      assert p !in Below(tree, path) && HasParents(tree.dirs, p);
      if path in Parents(p) { ParentIsPrefix(path, p); }
    }
  }

  lemma ParentIsPrefix(dir: Path, p: Path)
    requires dir in Parents(p)
    ensures dir < p
  {
  }

  /** A tree with anything in it has an entry with nothing below it. */
  lemma {:induction false} SomethingRemovable(tree: Tree, from: Path) returns (leaf: Path)
    requires from in tree.dirs + tree.files.Keys
    ensures leaf in tree.dirs + tree.files.Keys && Below(tree, leaf) == {}
    decreases Below(tree, from)
  {
    if Below(tree, from) == {} {
      leaf := from;
    } else {
      var next :| next in Below(tree, from);
      assert next !in Below(tree, next) && Below(tree, next) < Below(tree, from);
      leaf := SomethingRemovable(tree, next);
    }
  }

  // ----- the projection -----

  /** There is room for a file: nothing is there, and no file is in the way. */
  ghost predicate Free(tree: Tree, path: Path) {
    path !in Entries(tree) && Parents(path) !! tree.files.Keys
  }

  /** Make the directories above `path`, then write the file. */
  method WriteFile(disk: Disk, generation: Name, path: Path, file: File, reached: nat) returns (outcome: Outcome)
    requires generation in disk.entries && disk.entries[generation].Directory?
    requires path != [] && Proper(disk.entries[generation].tree)
    modifies disk
    ensures outcome.Stopped? ==> disk.steps == 0
    ensures Unfinished(old(disk.entries), disk.entries, generation)
    ensures !outcome.Stopped? ==> (outcome.Done? <==> Free(old(disk.entries[generation].tree), path))
    ensures outcome.Done? ==> var tree := old(disk.entries[generation].tree);
              disk.entries[generation].tree == Tree(tree.dirs + Parents(path), tree.files[path := file])
  {
    ghost var start := disk.entries[generation].tree;
    var n := 1;
    while n < |path|
      invariant 1 <= n <= |path|
      invariant Unfinished(old(disk.entries), disk.entries, generation)
      invariant disk.entries[generation].tree == Tree(start.dirs + PartOf(path, n), start.files)
      invariant PartOf(path, n) !! start.files.Keys
    {
      ghost var before := disk.entries;
      PartGrows(path, n);
      outcome := EnsureDirectory(disk, generation, path, n, start);
      if !outcome.Done? { return; }
      n := n + 1;
    }
    assert PartOf(path, n) == Parents(path);
    if path in disk.entries[generation].tree.dirs + disk.entries[generation].tree.files.Keys { return Refused; }
    var alive := WriteContent(disk, generation, path, file, reached);
    return if alive then Done else Stopped;
  }

  /** The first directories above a path. */
  function PartOf(path: Path, n: nat): set<Path>
    requires n <= |path|
  {
    set k | 1 <= k < n :: path[..k]
  }

  lemma PartGrows(path: Path, n: nat)
    requires 1 <= n < |path|
    ensures PartOf(path, n + 1) == PartOf(path, n) + {path[..n]} && Parents(path[..n]) == PartOf(path, n) && path[..n] in Parents(path)
  {
    forall k | 1 <= k < n ensures path[..n][..k] == path[..k] {
    }
  }

  /** One directory on the way: found, made, or a file. */
  method EnsureDirectory(disk: Disk, generation: Name, path: Path, n: nat, ghost start: Tree) returns (outcome: Outcome)
    requires 1 <= n < |path| && generation in disk.entries && disk.entries[generation].Directory?
    requires Proper(disk.entries[generation].tree) && disk.entries[generation].tree == Tree(start.dirs + PartOf(path, n), start.files)
    modifies disk
    ensures outcome.Stopped? ==> disk.steps == 0
    ensures Unfinished(old(disk.entries), disk.entries, generation)
    ensures outcome.Refused? <==> path[..n] in start.files
    ensures outcome.Done? ==> disk.entries[generation].tree == Tree(start.dirs + PartOf(path, n + 1), start.files)
  {
    var tree := disk.entries[generation].tree;
    var dir := path[..n];
    PartGrows(path, n);
    if dir in tree.files { return Refused; }
    if dir !in tree.dirs {
      AddDirectoryProper(tree, dir);
      var alive := disk.MakeDirectory(generation, dir);
      if !alive { return Stopped; }
    }
    assert disk.entries[generation].tree.dirs == start.dirs + PartOf(path, n + 1);
    var alive := disk.Call();
    return if alive then Done else Stopped;
  }

  /** create_new with mode 0600, write_all, then the file's own mode. */
  method WriteContent(disk: Disk, generation: Name, path: Path, file: File, reached: nat) returns (alive: bool)
    requires generation in disk.entries && disk.entries[generation].Directory?
    requires path != [] && Proper(disk.entries[generation].tree)
    requires path !in Entries(disk.entries[generation].tree) && Parents(path) <= disk.entries[generation].tree.dirs
    modifies disk
    ensures !alive ==> disk.steps == 0
    ensures Unfinished(old(disk.entries), disk.entries, generation)
    ensures alive ==> var tree := old(disk.entries[generation].tree);
              disk.entries[generation].tree == Tree(tree.dirs, tree.files[path := file])
  {
    ghost var tree := disk.entries[generation].tree;
    AddFileProper(tree, path, File([], 0x180));
    alive := disk.SetFile(generation, path, File([], 0x180));
    if !alive { return; }
    alive := disk.WriteAll(generation, path, file.bytes, reached);
    AddFileProper(tree, path, disk.entries[generation].tree.files[path]);
    assert disk.entries[generation].tree == Tree(tree.dirs, tree.files[path := disk.entries[generation].tree.files[path]]);
    if !alive { return; }
    AddFileProper(tree, path, file);
    alive := disk.SetFile(generation, path, file);
  }

  /** Write the payload into a new generation, in any order. It is refused exactly when one of
      its files is a directory of another. */
  method Build(disk: Disk, generation: Name, files: Payload, reached: nat) returns (outcome: Outcome)
    requires [] !in files
    requires generation in disk.entries && disk.entries[generation] == Directory(Tree({}, map[]))
    modifies disk
    ensures outcome.Stopped? ==> disk.steps == 0
    ensures Unfinished(old(disk.entries), disk.entries, generation)
    ensures !outcome.Stopped? ==> (outcome.Done? <==> NoConflict(files.Keys))
    ensures outcome.Done? ==> disk.entries[generation].tree == TreeOf(files)
  {
    var left := files.Keys;
    ghost var base := disk.entries;
    NothingWritten(files);
    while left != {}
      invariant left <= files.Keys
      invariant Unfinished(base, disk.entries, generation) && Written(disk.entries[generation].tree, files, left)
      decreases left
    {
      var path :| path in left;
      outcome := WriteNext(disk, generation, files, left, path, reached, base);
      if !outcome.Done? { return; }
      left := left - {path};
    }
    assert files - {} == files;
    return Done;
  }

  /** The files outside `left` stand in the tree, and do not conflict. */
  ghost predicate Written(tree: Tree, files: Payload, left: set<Path>) {
    NoConflict((files - left).Keys) && tree == TreeOf(files - left)
  }

  lemma NothingWritten(files: Payload)
    ensures Written(Tree({}, map[]), files, files.Keys)
  {
    assert files - files.Keys == map[] && TreeOf(map[]) == Tree({}, map[]);
  }

  /** Only one generation differs from `base`, and it is a directory. */
  ghost predicate Unfinished(base: Listing, entries: Listing, generation: Name) {
    && generation in entries && entries[generation].Directory? && Proper(entries[generation].tree)
    && entries == base[generation := entries[generation]]
  }

  lemma UnfinishedAgain(base: Listing, before: Listing, after: Listing, generation: Name)
    requires Unfinished(base, before, generation) && Unfinished(before, after, generation)
    ensures Unfinished(base, after, generation)
  {
  }

  method WriteNext(disk: Disk, generation: Name, files: Payload, ghost left: set<Path>, path: Path, reached: nat,
                   ghost base: Listing)
    returns (outcome: Outcome)
    requires Unfinished(base, disk.entries, generation)
    requires [] !in files && path in left && left <= files.Keys && Written(disk.entries[generation].tree, files, left)
    modifies disk
    ensures outcome.Stopped? ==> disk.steps == 0
    ensures Unfinished(base, disk.entries, generation)
    ensures outcome.Done? ==> Written(disk.entries[generation].tree, files, left - {path})
    ensures outcome.Refused? ==> !NoConflict(files.Keys)
  {
    ghost var before := disk.entries;
    NextFile(files, left, path);
    outcome := WriteFile(disk, generation, path, files[path], reached);
    UnfinishedAgain(base, before, disk.entries, generation);
  }

  /** There is room for the next file exactly when it conflicts with none before it, and the
      tree with it is the tree of one file more. */
  lemma NextFile(files: Payload, left: set<Path>, path: Path)
    requires [] !in files && path in left && left <= files.Keys && NoConflict((files - left).Keys)
    ensures var written, after := files - left, files - (left - {path});
            && Proper(TreeOf(written)) && (Free(TreeOf(written), path) <==> NoConflict(after.Keys))
            && (NoConflict(files.Keys) ==> NoConflict(after.Keys))
            && TreeOf(after) == Tree(TreeOf(written).dirs + Parents(path), written[path := files[path]])
  {
    var written := files - left;
    TreeOfIsProper(written);
    OneLess(files, left, path);
    OneMore(written, path, files[path]);
    assert written[path := files[path]].Keys == written.Keys + {path};
    FreeIff(written, path);
  }

  lemma ParentOfOne(paths: set<Path>, dir: Path, p: Path)
    requires dir in Parents(p) && p in paths
    ensures dir in AllParents(paths)
  {
  }

  lemma FreeIff(written: Payload, path: Path)
    requires NoConflict(written.Keys) && [] !in written && path != [] && path !in written
    ensures Free(TreeOf(written), path) <==> NoConflict(written.Keys + {path})
  {
    var all := written.Keys + {path};
    if NoConflict(all) {
      forall p, n | p in written && 1 <= n < |p| ensures p[..n] != path { assert p[..n] <= p && p[..n] != p; }
      forall d | d in Parents(path) ensures d !in written { ParentIsPrefix(d, path); }
    }
    if Free(TreeOf(written), path) {
      forall p, q | p in all && q in all && p <= q ensures p == q {
        if p != q {
          PrefixIsParent(p, q);
          ParentOfOne(written.Keys, p, q);
        }
      }
    }
  }

  lemma OneLess(files: Payload, left: set<Path>, path: Path)
    requires path in left && left <= files.Keys
    ensures files - (left - {path}) == (files - left)[path := files[path]]
  {
  }

  lemma OneMore(written: Payload, path: Path, file: File)
    ensures TreeOf(written[path := file]) == Tree(TreeOf(written).dirs + Parents(path), written[path := file])
  {
    assert written[path := file].Keys == written.Keys + {path};
    MoreParents(written.Keys, path);
  }

  lemma MoreParents(done: set<Path>, path: Path)
    ensures AllParents(done + {path}) == AllParents(done) + Parents(path)
  {
  }

  /** Remove a directory and everything in it, in any order that a file system allows. */
  method RemoveAll(disk: Disk, name: Name) returns (alive: bool)
    requires name in disk.entries && disk.entries[name].Directory? && Proper(disk.entries[name].tree)
    modifies disk
    ensures !alive ==> disk.steps == 0
    ensures alive ==> disk.entries == old(disk.entries) - {name}
    ensures !alive ==> Unfinished(old(disk.entries), disk.entries, name)
  {
    while disk.entries[name].tree.dirs + disk.entries[name].tree.files.Keys != {}
      invariant Unfinished(old(disk.entries), disk.entries, name)
      decreases disk.entries[name].tree.dirs + disk.entries[name].tree.files.Keys
    {
      var tree := disk.entries[name].tree;
      assert exists leaf :: leaf in tree.dirs + tree.files.Keys && Below(tree, leaf) == {} by {
        var from :| from in tree.dirs + tree.files.Keys;
        var leaf := SomethingRemovable(tree, from);
      }
      var leaf :| leaf in tree.dirs + tree.files.Keys && Below(tree, leaf) == {};
      RemoveProper(tree, leaf);
      alive := disk.RemoveFrom(name, leaf);
      if !alive { return; }
    }
    assert disk.entries[name].tree.files == map[];
    alive := disk.Remove(name);
  }

  datatype Found = Absent | Generation(name: Name) | BadLink

  /** The active generation, if the data link is absent or names a real directory. */
  method Current(disk: Disk) returns (found: Found)
    ensures found.Absent? <==> DATA !in disk.entries
    ensures found.Generation? ==>
              && DATA in disk.entries && disk.entries[DATA] == Link([found.name]) && IsGeneration(found.name)
              && found.name in disk.entries && disk.entries[found.name].Directory?
    ensures Recoverable(disk.entries) ==> !found.BadLink?
  {
    if DATA !in disk.entries { return Absent; }
    var data := disk.entries[DATA];
    if !data.Link? || |data.target| != 1 || !IsGeneration(data.target[0]) { return BadLink; }
    var name := data.target[0];
    if name !in disk.entries || !disk.entries[name].Directory? { return BadLink; }
    assert data.target == [name];
    return Generation(name);
  }

  /** Remove a pending link left by an earlier run. */
  method DropPending(disk: Disk) returns (outcome: Outcome)
    modifies disk
    ensures outcome.Stopped? ==> disk.steps == 0
    ensures outcome.Done? ==> disk.entries == old(disk.entries) - {PENDING}
    ensures !outcome.Done? ==> disk.entries == old(disk.entries)
    ensures outcome.Refused? ==> PENDING in disk.entries && !disk.entries[PENDING].Link?
  {
    if PENDING in disk.entries {
      if !disk.entries[PENDING].Link? { return Refused; }
      var alive := disk.Remove(PENDING);
      if !alive { return Stopped; }
    }
    return Done;
  }

  lemma PendingChanges(before: Listing)
    requires Recoverable(before)
    ensures Recoverable(before - {PENDING}) && Active(before - {PENDING}) == Active(before)
    ensures forall target: Path ::
      Recoverable(before[PENDING := Link(target)]) && Active(before[PENDING := Link(target)]) == Active(before)
  {
  }

  /** Write a new generation and publish it with one rename. A payload that conflicts with
      itself is refused, and its half-written generation removed again. */
  method Replace(disk: Disk, files: Payload, newest: Name, reached: nat) returns (outcome: Outcome)
    requires AllRelative(files) && IsGeneration(newest) && newest !in disk.entries
    requires DATA in disk.entries ==> disk.entries[DATA].Link?
    modifies disk
    ensures outcome.Stopped? ==> disk.steps == 0
    ensures outcome.Done? ==>
              && NoConflict(files.Keys)
              && disk.entries == (old(disk.entries) - {PENDING})[newest := Directory(TreeOf(files))][DATA := Link([newest])]
    ensures old(Recoverable(disk.entries)) ==>
              && Recoverable(disk.entries) && (outcome.Refused? ==> !NoConflict(files.Keys))
              && (!outcome.Done? ==> Active(disk.entries) == old(Active(disk.entries)))
  {
    ghost var before := disk.entries;
    SpecialNames(newest);
    var alive := disk.CreateDirectory(newest);
    ProperGenerations(before, newest);
    if !alive { return Stopped; }
    forall p | p in files ensures p != [] { assert Relative(p); }
    outcome := Build(disk, newest, files, reached);
    assert disk.entries == before[newest := disk.entries[newest]];
    if outcome.Refused? {
      alive := RemoveAll(disk, newest);
      assert alive ==> disk.entries == before;
      return if alive then Refused else Stopped;
    }
    if outcome.Stopped? { return; }
    outcome := Switch(disk, before, files, newest);
  }

  /** Point the data link at a complete generation, with one rename. */
  method Switch(disk: Disk, ghost before: Listing, ghost files: Payload, newest: Name) returns (outcome: Outcome)
    requires AllRelative(files) && NoConflict(files.Keys) && IsGeneration(newest) && newest !in before
    requires disk.entries == before[newest := Directory(TreeOf(files))] && (DATA in before ==> before[DATA].Link?)
    modifies disk
    ensures outcome.Stopped? ==> disk.steps == 0
    ensures outcome.Done? ==>
              disk.entries == (before - {PENDING})[newest := Directory(TreeOf(files))][DATA := Link([newest])]
    ensures Recoverable(before) ==>
              && Recoverable(disk.entries) && !outcome.Refused?
              && (!outcome.Done? ==> Active(disk.entries) == Active(before))
  {
    SpecialNames(newest);
    ProperGenerations(before, newest);
    forall p | p in files ensures p != [] { assert Relative(p); }
    TreeOfIsProper(files);
    ghost var built := disk.entries;
    outcome := DropPending(disk);
    ghost var dropped := disk.entries;
    if Recoverable(before) { PendingChanges(built); PendingChanges(built - {PENDING}); }
    if !outcome.Done? { return; }
    assert PENDING !in dropped && newest in dropped;
    var alive := disk.Symlink([newest], PENDING);
    if !alive { return Stopped; }
    alive := disk.Rename(PENDING, DATA);
    if !alive { return Stopped; }
    assert disk.entries == (before - {PENDING})[newest := Directory(TreeOf(files))][DATA := Link([newest])];
    if Recoverable(before) { Switched(before, files, newest); }
    return Done;
  }

  lemma ProperGenerations(before: Listing, name: Name)
    requires IsGeneration(name) && name !in before
    ensures Recoverable(before) ==> forall tree | Proper(tree) ::
      Recoverable(before[name := Directory(tree)]) && Active(before[name := Directory(tree)]) == Active(before)
  {
    if Recoverable(before) {
      forall tree | Proper(tree)
        ensures Recoverable(before[name := Directory(tree)]) && Active(before[name := Directory(tree)]) == Active(before)
      {
        OtherGeneration(before, name, tree);
      }
    }
  }

  lemma Switched(before: Listing, files: Payload, newest: Name)
    requires Recoverable(before) && IsGeneration(newest) && Placeable(files)
    ensures var after := (before - {PENDING})[newest := Directory(TreeOf(files))][DATA := Link([newest])];
            Recoverable(after) && Shows(after, files)
  {
    SpecialNames(newest);
    forall p | p in files ensures p != [] { assert Relative(p); }
    TreeOfIsProper(files);
  }

  /** Make sure a top-level name links through the data link. */
  method EnsureLink(disk: Disk, name: Name) returns (outcome: Outcome)
    modifies disk
    ensures outcome.Stopped? ==> disk.steps == 0
    ensures outcome.Done? ==> disk.entries == old(disk.entries)[name := Link([DATA, name])]
    ensures !outcome.Done? ==> disk.entries == old(disk.entries)
    ensures outcome.Refused? ==> name in disk.entries && disk.entries[name] != Link([DATA, name])
  {
    if name in disk.entries {
      if disk.entries[name] == Link([DATA, name]) { return Done; }
      return Refused;
    }
    var alive := disk.Symlink([DATA, name], name);
    return if alive then Done else Stopped;
  }

  lemma LinkAdded(before: Listing, name: Name)
    requires Recoverable(before) && !(".." <= name)
    ensures Recoverable(before[name := Link([DATA, name])])
    ensures Active(before[name := Link([DATA, name])]) == Active(before)
    ensures name in before ==> before[name] == Link([DATA, name])
  {
    assert GENERATION[..2] == "..";
    if name in before { assert Allowed(name, before[name]); }
    if IsGeneration(name) { SpecialNames(name); }
  }

  function Linked(before: Listing, names: set<Name>): Listing {
    before + (map name | name in names :: Link([DATA, name]))
  }

  lemma LinkedStep(before: Listing, names: set<Name>, name: Name)
    ensures Linked(before, names)[name := Link([DATA, name])] == Linked(before, names + {name})
  {
  }

  method LinkAll(disk: Disk, top: set<Name>) returns (outcome: Outcome)
    requires forall name | name in top :: !(".." <= name)
    modifies disk
    ensures outcome.Stopped? ==> disk.steps == 0
    ensures outcome.Done? ==> disk.entries == Linked(old(disk.entries), top)
    ensures old(Recoverable(disk.entries)) ==>
              !outcome.Refused? && Recoverable(disk.entries) && Active(disk.entries) == old(Active(disk.entries))
  {
    var left := top;
    ghost var before := disk.entries;
    assert Linked(before, top - left) == before;
    while left != {}
      invariant left <= top
      invariant disk.entries == Linked(before, top - left)
      invariant Recoverable(before) ==> Recoverable(disk.entries) && Active(disk.entries) == Active(before)
      decreases left
    {
      var name :| name in left;
      LinkedStep(before, top - left, name);
      assert top - (left - {name}) == top - left + {name};
      if Recoverable(disk.entries) { LinkAdded(disk.entries, name); }
      outcome := EnsureLink(disk, name);
      if !outcome.Done? { return; }
      left := left - {name};
    }
    assert top - {} == top;
    return Done;
  }

  predicate Stale(name: Name, active: Name, top: set<Name>) {
    if IsGeneration(name) then name != active else !(".." <= name) && name !in top
  }

  /** What is left of a directory once every stale entry outside `left` is gone. */
  function Swept(before: Listing, left: set<Name>, active: Name, top: set<Name>): Listing {
    map name | name in before && (name in left || !Stale(name, active, top)) :: before[name]
  }

  ghost predicate Serving(entries: Listing, active: Name) {
    Recoverable(entries) && ActiveName(entries) == Some(active)
  }

  /** Remove every other generation and every user link the payload no longer has. */
  method Sweep(disk: Disk, active: Name, top: set<Name>) returns (outcome: Outcome)
    requires Real(disk.entries)
    modifies disk
    ensures outcome.Stopped? ==> disk.steps == 0
    ensures outcome.Done? ==> disk.entries == Swept(old(disk.entries), {}, active, top)
    ensures old(Serving(disk.entries, active)) ==>
              && !outcome.Refused? && Serving(disk.entries, active)
              && Active(disk.entries) == old(Active(disk.entries))
  {
    ghost var before := disk.entries;
    var left := disk.entries.Keys;
    assert Swept(before, left, active, top) == before;
    while left != {}
      invariant left <= before.Keys
      invariant disk.entries == Swept(before, left, active, top)
      invariant Serving(before, active) ==> Serving(disk.entries, active) && Active(disk.entries) == Active(before)
      decreases left
    {
      var name :| name in left;
      SweptStep(before, left, name, active, top);
      outcome := SweepEntry(disk, name, active, top);
      if !outcome.Done? { return; }
      left := left - {name};
    }
    return Done;
  }

  lemma SweptStep(before: Listing, left: set<Name>, name: Name, active: Name, top: set<Name>)
    requires left <= before.Keys && name in left
    ensures var now := Swept(before, left, active, top);
            && name in now && now[name] == before[name]
            && Swept(before, left - {name}, active, top) == if Stale(name, active, top) then now - {name} else now
  {
  }

  method SweepEntry(disk: Disk, name: Name, active: Name, top: set<Name>) returns (outcome: Outcome)
    requires name in disk.entries && (disk.entries[name].Directory? ==> Proper(disk.entries[name].tree))
    modifies disk
    ensures outcome.Stopped? ==> disk.steps == 0
    ensures outcome.Done? ==> disk.entries == if Stale(name, active, top) then old(disk.entries) - {name} else old(disk.entries)
    ensures old(Serving(disk.entries, active)) ==>
              && !outcome.Refused? && Serving(disk.entries, active)
              && Active(disk.entries) == old(Active(disk.entries))
  {
    if Serving(disk.entries, active) && Stale(name, active, top) { RemoveStale(disk.entries, name, active, top); }
    if IsGeneration(name) && name != active {
      if !disk.entries[name].Directory? { return Refused; }
      var alive := RemoveAll(disk, name);
      return if alive then Done else Stopped;
    } else if !(".." <= name) && name !in top {
      SpecialOrNot(name);
      if !disk.entries[name].Link? { return Refused; }
      var alive := disk.Remove(name);
      return if alive then Done else Stopped;
    }
    if !(".." <= name) { SpecialOrNot(name); }
    return Done;
  }

  lemma SpecialOrNot(name: Name)
    requires !(".." <= name)
    ensures !IsGeneration(name)
  {
    if IsGeneration(name) { SpecialNames(name); }
  }

  lemma RemoveStale(held: Listing, name: Name, active: Name, top: set<Name>)
    requires Recoverable(held) && ActiveName(held) == Some(active) && name in held && Stale(name, active, top)
    ensures IsGeneration(name) ==> held[name].Directory?
    ensures !IsGeneration(name) ==> held[name].Link?
    ensures Recoverable(held - {name}) && Active(held - {name}) == Active(held) && ActiveName(held - {name}) == Some(active)
    ensures IsGeneration(name) ==> forall tree | Proper(tree) ::
      Serving(held[name := Directory(tree)], active) && Active(held[name := Directory(tree)]) == Active(held)
  {
    assert Allowed(name, held[name]);
    if IsGeneration(name) {
      SpecialNames(name);
      GenerationGone(held, name);
      forall tree | Proper(tree)
        ensures Serving(held[name := Directory(tree)], active) && Active(held[name := Directory(tree)]) == Active(held)
      {
        OtherGeneration(held, name, tree);
      }
    } else {
      assert name != DATA && name != PENDING;
      assert IsGeneration(active);
    }
  }

  /** Bring the volume to `files`, whatever they are: the limits are checked source by source
      and not for what the sources come to together. Whatever stops the run, wherever, the
      directory stays recoverable and shows the old payload or the new one, whole; a run that
      finishes leaves the new payload and nothing else. A run that is not stopped finishes
      exactly when no file is a directory of another and the old payload reads back. */
  method Publish(disk: Disk, files: Payload, newest: Name, reached: nat) returns (outcome: Outcome)
    requires AllRelative(files) && IsGeneration(newest) && newest !in disk.entries
    requires Real(disk.entries)
    modifies disk
    ensures outcome.Stopped? ==> disk.steps == 0
    ensures old(Recoverable(disk.entries)) ==>
              && Recoverable(disk.entries)
              && (Active(disk.entries) == old(Active(disk.entries)) || Shows(disk.entries, files))
              && (outcome.Done? ==> Shows(disk.entries, files) && Published(disk.entries, files))
              && (!outcome.Stopped? ==> (outcome.Done? <==> NoConflict(files.Keys) && old(ActiveReads(disk.entries))))
  {
    ghost var before := disk.entries;
    outcome := Refresh(disk, files, newest, reached);
    if !outcome.Done? { return; }
    if Recoverable(before) { RealDirectories(disk.entries); }
    outcome := Reconcile(disk, files);
  }

  lemma RealDirectories(entries: Listing)
    requires Recoverable(entries)
    ensures Real(entries)
  {
    forall name | name in entries && entries[name].Directory? ensures Proper(entries[name].tree) {
      assert Allowed(name, entries[name]);
    }
  }

  /** Write and switch to a new generation unless the active one already holds the payload. */
  method Refresh(disk: Disk, files: Payload, newest: Name, reached: nat) returns (outcome: Outcome)
    requires AllRelative(files) && IsGeneration(newest) && newest !in disk.entries && Real(disk.entries)
    modifies disk
    ensures outcome.Stopped? ==> disk.steps == 0
    ensures outcome.Done? ==> Real(disk.entries)
    ensures old(Recoverable(disk.entries)) ==>
              && Recoverable(disk.entries)
              && (if outcome.Done? then Shows(disk.entries, files) else Active(disk.entries) == old(Active(disk.entries)))
              && (!outcome.Stopped? ==> (outcome.Done? <==> NoConflict(files.Keys) && old(ActiveReads(disk.entries))))
  {
    ghost var before := disk.entries;
    var found := Current(disk);
    if found.BadLink? { return Refused; }
    if found.Generation? {
      var tree := disk.entries[found.name].tree;
      Everything(tree);
      var reading := ReadTree(tree, [], map[], READ_BUDGET);
      if reading.Oversized? { return Refused; }
      assert Recoverable(before) ==> ActiveReads(before);
      if reading.files == files {
        assert Recoverable(before) ==> tree == TreeOf(files);
        return Done;
      }
    }
    outcome := Replace(disk, files, newest, reached);
    if outcome.Done? {
      forall p | p in files ensures p != [] { assert Relative(p); }
      TreeOfIsProper(files);
      if Recoverable(before) { Switched(before, files, newest); }
    }
  }

  /** Match the user links to the payload and remove everything else. */
  method Reconcile(disk: Disk, files: Payload) returns (outcome: Outcome)
    requires AllRelative(files) && Real(disk.entries)
    modifies disk
    ensures outcome.Stopped? ==> disk.steps == 0
    ensures old(Recoverable(disk.entries) && Shows(disk.entries, files)) ==>
              && !outcome.Refused? && Recoverable(disk.entries) && Shows(disk.entries, files)
              && (outcome.Done? ==> Published(disk.entries, files))
  {
    ghost var before := disk.entries;
    var top := TopNames(files);
    outcome := LinkAll(disk, top);
    if !outcome.Done? { return; }
    assert Recoverable(before) && Shows(before, files) ==> Recoverable(disk.entries) && Shows(disk.entries, files);
    assert AllLinked(disk.entries, top);
    outcome := Clear(disk, files, top);
  }

  ghost predicate AllLinked(entries: Listing, top: set<Name>) {
    forall name | name in top :: name in entries && entries[name] == Link([DATA, name])
  }

  /** Remove the pending link and everything stale. */
  method Clear(disk: Disk, ghost files: Payload, top: set<Name>) returns (outcome: Outcome)
    requires Real(disk.entries) && top == Top(files) && forall name | name in top :: !(".." <= name)
    modifies disk
    ensures outcome.Stopped? ==> disk.steps == 0
    ensures old(Recoverable(disk.entries) && Shows(disk.entries, files)) ==>
              && !outcome.Refused? && Recoverable(disk.entries) && Shows(disk.entries, files)
    ensures old(Recoverable(disk.entries) && Shows(disk.entries, files) && AllLinked(disk.entries, top)) && outcome.Done? ==>
              Published(disk.entries, files)
  {
    ghost var linked := disk.entries;
    var found := Current(disk);
    if !found.Generation? { return Refused; }
    outcome := DropPending(disk);
    if Recoverable(linked) { PendingChanges(linked); }
    if !outcome.Done? { return; }
    assert Recoverable(linked) ==> Serving(disk.entries, found.name);
    outcome := Sweep(disk, found.name, top);
    if outcome.Done? && Recoverable(linked) && Shows(linked, files) && AllLinked(linked, top) {
      Finished(linked, disk.entries, files, found.name);
    }
  }

  /** The set of first components, collected file by file. */
  method TopNames(files: Payload) returns (top: set<Name>)
    requires AllRelative(files)
    ensures top == Top(files) && forall name | name in top :: !(".." <= name)
  {
    top := set p | p in files && p != [] :: p[0];
    forall p | p in files ensures Relative(p) {}
  }

  /** What linking and sweeping leave of a directory that already shows the payload. */
  lemma Finished(linked: Listing, swept: Listing, files: Payload, active: Name)
    requires Recoverable(linked) && Shows(linked, files) && ActiveName(linked) == Some(active)
    requires AllLinked(linked, Top(files)) && forall name | name in Top(files) :: !(".." <= name)
    requires swept == Swept(linked - {PENDING}, {}, active, Top(files))
    ensures Published(swept, files)
  {
    SpecialNames(active);
    SweptNames(linked, files, active);
    assert swept[active] == Directory(TreeOf(files));
  }

  lemma SweptNames(linked: Listing, files: Payload, active: Name)
    requires Recoverable(linked) && ActiveName(linked) == Some(active) && IsGeneration(active)
    requires forall name | name in Top(files) :: !(".." <= name) && name in linked
    ensures Swept(linked - {PENDING}, {}, active, Top(files)).Keys == {DATA, active} + Top(files)
  {
    var swept := Swept(linked - {PENDING}, {}, active, Top(files));
    assert DATA in swept && active in swept by { NotStale(active, Top(files)); }
    forall name | name in swept ensures name in {DATA, active} + Top(files) {
      assert Allowed(name, linked[name]);
    }
    forall name | name in Top(files) ensures name in swept { UserName(name); }
  }

  lemma NotStale(active: Name, top: set<Name>)
    requires IsGeneration(active)
    ensures !Stale(DATA, active, top) && !Stale(active, active, top) && active != PENDING && DATA != PENDING
  {
    SpecialNames(active);
    assert DATA[..2] == "..";
  }

  lemma UserName(name: Name)
    requires !(".." <= name)
    ensures !IsGeneration(name) && name != PENDING && name != DATA
  {
    SpecialOrNot(name);
    assert PENDING[..2] == ".." && DATA[..2] == "..";
  }

  datatype Attempt = Attempt(files: Payload, newest: Name, steps: nat, reached: nat)

  /** Any number of runs for any payloads, each stopped anywhere: the volume always shows
      what it showed at first or one attempted payload; and while every payload is within the
      limits, no run is refused. */
  method Restarts(disk: Disk, attempts: seq<Attempt>) returns (ghost shown: int, ghost refused: bool)
    requires Recoverable(disk.entries)
    requires forall i | 0 <= i < |attempts| :: AllRelative(attempts[i].files) && IsGeneration(attempts[i].newest)
    modifies disk
    ensures Recoverable(disk.entries)
    ensures -1 <= shown < |attempts|
    ensures if shown == -1 then Active(disk.entries) == old(Active(disk.entries)) else Shows(disk.entries, attempts[shown].files)
    ensures old(ActiveReads(disk.entries)) && (forall i | 0 <= i < |attempts| :: ValidPayload(attempts[i].files)) ==> !refused
  {
    shown, refused := -1, false;
    ghost var withinLimits := ActiveReads(disk.entries) && forall i | 0 <= i < |attempts| :: ValidPayload(attempts[i].files);
    for i := 0 to |attempts|
      invariant Recoverable(disk.entries) && -1 <= shown < i
      invariant if shown == -1 then Active(disk.entries) == old(Active(disk.entries)) else Shows(disk.entries, attempts[shown].files)
      invariant withinLimits ==> ActiveReads(disk.entries) && !refused
    {
      // The directory name is drawn at random until it is unused.
      if attempts[i].newest in disk.entries { continue; }
      disk.steps := attempts[i].steps;
      RealDirectories(disk.entries);
      ghost var before := Active(disk.entries);
      var outcome := Publish(disk, attempts[i].files, attempts[i].newest, attempts[i].reached);
      if Active(disk.entries) != before { shown := i; }
      if withinLimits { OwnTreeFits(attempts[i].files); }
      refused := refused || outcome.Refused?;
    }
  }
}
