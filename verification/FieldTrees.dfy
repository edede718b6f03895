/** A set of owned fields as the tree that records it, and back. */
module FieldTrees {
  import opened JsonPaths
  import opened OwnedFields

  /** A recorded tree; a node without children is an owned field. */
  datatype Tree = Node(children: map<Segment, Tree>)

  const NOTHING := Node(map[])

  ghost function Leaves(t: Tree): set<Path> {
    if t.children == map[] then {[]}
    else set s, p | s in t.children && p in Leaves(t.children[s]) :: [s] + p
  }

  /** Make every node along a path. */
  function Grow(t: Tree, path: Path): Tree
    decreases |path|
  {
    if path == [] then t
    else
      var s := path[0];
      Node(t.children[s := Grow(if s in t.children then t.children[s] else NOTHING, path[1..])])
  }

  ghost predicate ApartFrom(ps: set<Path>, path: Path) {
    forall p :: p in ps ==> Apart(p, path)
  }

  lemma LeafStep(t: Tree, p: Path)
    requires t.children != map[]
    ensures p in Leaves(t) <==> p != [] && p[0] in t.children && p[1..] in Leaves(t.children[p[0]])
  {
    if p in Leaves(t) {
      var s, q :| s in t.children && q in Leaves(t.children[s]) && p == [s] + q;
      assert p[1..] == q;
    }
    if p != [] { assert p == [p[0]] + p[1..]; }
  }

  lemma {:induction false} HasLeaf(t: Tree) returns (p: Path)
    ensures p in Leaves(t)
    decreases t
  {
    if t.children == map[] {
      p := [];
    } else {
      var s :| s in t.children;
      var q := HasLeaf(t.children[s]);
      p := [s] + q;
    }
  }

  /** The leaves of a tree are prefix-free, and there is at least one. */
  lemma {:induction false} LeavesPrefixFree(t: Tree)
    ensures PrefixFree(Leaves(t)) && Leaves(t) != {}
    decreases t
  {
    var first := HasLeaf(t);
    if t.children != map[] {
      forall p, q | p in Leaves(t) && q in Leaves(t) && p <= q ensures p == q {
        LeafStep(t, p);
        LeafStep(t, q);
        assert p[0] == q[0] && p[1..] <= q[1..];
        LeavesPrefixFree(t.children[p[0]]);
        assert p == [p[0]] + p[1..] && q == [q[0]] + q[1..];
      }
    }
  }

  lemma {:induction false} GrowNothing(path: Path)
    ensures Leaves(Grow(NOTHING, path)) == {path}
    decreases |path|
  {
    if path != [] {
      var t := Grow(NOTHING, path);
      GrowNothing(path[1..]);
      assert t.children == map[path[0] := Grow(NOTHING, path[1..])];
      forall p ensures p in Leaves(t) <==> p == path {
        LeafStep(t, p);
        if p != [] { assert p == [p[0]] + p[1..]; }
        assert path == [path[0]] + path[1..];
      }
    }
  }

  /** The leaves below one child are apart from the rest of the path. */
  lemma ChildApart(t: Tree, path: Path)
    requires t.children != map[] && path != [] && path[0] in t.children && ApartFrom(Leaves(t), path)
    ensures t.children[path[0]].children != map[] && ApartFrom(Leaves(t.children[path[0]]), path[1..]) && path[1..] != []
  {
    var c := t.children[path[0]];
    assert path == [path[0]] + path[1..];
    forall q | q in Leaves(c) ensures Apart(q, path[1..]) {
      var p: Path := [path[0]] + q;
      assert p[1..] == q;
      PrefixTails(p, path);
      LeafStep(t, p);
    }
    var first := HasLeaf(c);
    RootLeaf(c);
  }

  lemma PrefixTails(p: Path, q: Path)
    requires p != [] && q != [] && p[0] == q[0]
    ensures p[1..] <= q[1..] ==> p <= q
    ensures q[1..] <= p[1..] ==> q <= p
  {
    assert p == [p[0]] + p[1..] && q == [q[0]] + q[1..];
  }

  lemma RootLeaf(t: Tree)
    ensures t.children == map[] ==> [] in Leaves(t)
  {
  }

  /** Growing along a path apart from all leaves adds exactly that leaf. */
  lemma {:induction false} GrowAddsLeaf(t: Tree, path: Path)
    requires t.children != map[] && path != [] && ApartFrom(Leaves(t), path)
    ensures Leaves(Grow(t, path)) == Leaves(t) + {path}
    decreases |path|
  {
    var s := path[0];
    var child := if s in t.children then t.children[s] else NOTHING;
    var grown := Grow(t, path);
    if s in t.children {
      ChildApart(t, path);
      GrowAddsLeaf(child, path[1..]);
    } else {
      GrowNothing(path[1..]);
    }
    assert path == [s] + path[1..];
    forall p ensures p in Leaves(grown) <==> p in Leaves(t) || p == path {
      LeafStep(grown, p);
      LeafStep(t, p);
      if p != [] { assert p == [p[0]] + p[1..]; }
    }
  }

  /** Record a set of fields. Reading the record back gives the set. */
  method FieldsV1(paths: set<Path>) returns (t: Tree)
    ensures paths != {} && PrefixFree(paths) ==> Leaves(t) == paths
  {
    t := NOTHING;
    var rest := paths;
    while rest != {}
      invariant rest <= paths
      invariant PrefixFree(paths) ==> if rest == paths then t == NOTHING else Leaves(t) == paths - rest
      decreases |rest|
    {
      var path :| path in rest;
      if PrefixFree(paths) { Recorded(paths, rest, t, path); }
      t := Grow(t, path);
      rest := rest - {path};
    }
  }

  lemma Recorded(paths: set<Path>, rest: set<Path>, t: Tree, path: Path)
    requires PrefixFree(paths) && rest <= paths && path in rest
    requires if rest == paths then t == NOTHING else Leaves(t) == paths - rest
    ensures Leaves(Grow(t, path)) == paths - (rest - {path})
  {
    if rest == paths {
      GrowNothing(path);
      assert paths - (rest - {path}) == {path};
    } else {
      forall p | p in Leaves(t) ensures Apart(p, path) {
        assert p in paths && p !in rest;
      }
      var first := HasLeaf(t);
      assert [] <= path;
      RootLeaf(t);
      GrowAddsLeaf(t, path);
      assert paths - (rest - {path}) == (paths - rest) + {path};
    }
  }

  /** A record can only hold a nonempty prefix-free set. */
  lemma RecordedExactly(paths: set<Path>, t: Tree)
    requires Leaves(t) == paths
    ensures paths != {} && PrefixFree(paths)
  {
    LeavesPrefixFree(t);
  }

  /** Read a record back, below a prefix. */
  method ReadTree(t: Tree, prefix: Path, out: set<Path>) returns (r: set<Path>)
    ensures r == out + Under(prefix, Leaves(t))
    decreases t, 2
  {
    if t.children == map[] {
      assert Under(prefix, {[]}) == {prefix + []} && prefix + [] == prefix;
      return out + {prefix};
    }
    AllBelow(t);
    r := ReadChildren(t, prefix, out);
  }

  method ReadChildren(t: Tree, prefix: Path, out: set<Path>) returns (r: set<Path>)
    ensures r == out + UnderBelow(t, prefix, t.children.Keys)
    decreases t, 1
  {
    r := out;
    var keys := t.children.Keys;
    ghost var done: set<Segment> := {};
    NoneBelow(t, prefix);
    while keys != {}
      invariant done + keys == t.children.Keys
      invariant r == out + UnderBelow(t, prefix, done)
      decreases |keys|
    {
      var s :| s in keys;
      r := AddChild(t, s, prefix, done, out, r);
      keys, done := keys - {s}, done + {s};
    }
    assert done == t.children.Keys;
  }

  method AddChild(t: Tree, s: Segment, prefix: Path, ghost done: set<Segment>, ghost out: set<Path>, now: set<Path>) returns (r: set<Path>)
    requires s in t.children && done <= t.children.Keys && now == out + UnderBelow(t, prefix, done)
    ensures r == out + UnderBelow(t, prefix, done + {s})
    decreases t, 0
  {
    r := ReadTree(t.children[s], prefix + [s], now);
    UnderStep(prefix, s, Leaves(t.children[s]));
    BelowGrows(t, prefix, done, s);
  }

  ghost function UnderBelow(t: Tree, prefix: Path, keys: set<Segment>): set<Path>
    requires keys <= t.children.Keys
  {
    Under(prefix, Below(t, keys))
  }

  ghost function UnderChild(t: Tree, prefix: Path, s: Segment): set<Path>
    requires s in t.children
  {
    Under(prefix, Under([s], Leaves(t.children[s])))
  }

  lemma NoneBelow(t: Tree, prefix: Path)
    ensures UnderBelow(t, prefix, {}) == {}
  {
  }

  lemma BelowGrows(t: Tree, prefix: Path, done: set<Segment>, s: Segment)
    requires done <= t.children.Keys && s in t.children
    ensures UnderBelow(t, prefix, done + {s}) == UnderBelow(t, prefix, done) + UnderChild(t, prefix, s)
  {
    assert Below(t, done + {s}) == Below(t, done) + Under([s], Leaves(t.children[s]));
    UnderUnion(prefix, Below(t, done), Under([s], Leaves(t.children[s])));
  }

  ghost function Below(t: Tree, keys: set<Segment>): set<Path>
    requires keys <= t.children.Keys
  {
    set s, p | s in keys && p in Under([s], Leaves(t.children[s])) :: p
  }

  lemma AllBelow(t: Tree)
    requires t.children != map[]
    ensures Leaves(t) == Below(t, t.children.Keys) && Below(t, {}) == {}
  {
    forall p | p in Leaves(t) ensures p in Below(t, t.children.Keys) {
      var s, q :| s in t.children && q in Leaves(t.children[s]) && p == [s] + q;
      assert p in Under([s], Leaves(t.children[s]));
    }
  }
}
