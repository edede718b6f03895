/** The fields an applied object declares, and how sets of fields are recorded as trees. */
module OwnedFields {
  import opened Wrappers
  import opened JsonPaths

  const MANAGED := "managedFields"

  /** A list keyed by its items' names: every item has one. */
  predicate Named(items: seq<Json>) {
    items != [] && forall x :: x in items ==> Text(x, "name").Some? && Text(x, "name").value != ""
  }

  /** Owned as a whole: scalars, empty and unnamed lists. */
  predicate Leaf(v: Json) { !v.Obj? && !(v.Arr? && Named(v.items)) }

  function NameOf(item: Json): Segment
    requires Text(item, "name").Some?
  {
    Keyed("name", Text(item, "name").value)
  }

  /** Whether a field is walked: `managedFields` under metadata is not. */
  predicate Walked(key: string, underMetadata: bool) { !(underMetadata && key == MANAGED) }

  /** The declared paths: one for each leaf; an empty object declares nothing. */
  ghost function Paths(v: Json, underMetadata: bool): set<Path> {
    match v
    case Obj(m) =>
      set key, p | key in m && Walked(key, underMetadata) && p in Paths(m[key], key == "metadata") :: [Field(key)] + p
    case Arr(items) =>
      if Named(items) then
        set i, p | 0 <= i < |items| && p in Paths(items[i], false) :: [NameOf(items[i])] + p
      else {[]}
    case _ => {[]}
  }

  /** Every list that is keyed by name, at any depth, has distinct names. */
  predicate DistinctNames(v: Json) {
    match v
    case Obj(m) => forall key :: key in m ==> DistinctNames(m[key])
    case Arr(items) =>
      && (forall i | 0 <= i < |items| :: DistinctNames(items[i]))
      && (Named(items) ==> forall i, j | 0 <= i < j < |items| :: Text(items[i], "name") != Text(items[j], "name"))
    case _ => true
  }

  predicate PrefixFree(ps: set<Path>) {
    forall p, q :: p in ps && q in ps && p <= q ==> p == q
  }

  /** A request body after decoding: an object with named metadata. */
  predicate Request(v: Json) {
    && v.Obj? && "metadata" in v.fields && v.fields["metadata"].Obj? && Text(v.fields["metadata"], "name").Some?
  }

  // ----- walking -----

  function Under(prefix: Path, ps: set<Path>): set<Path> {
    set p | p in ps :: prefix + p
  }

  lemma UnderStep(prefix: Path, s: Segment, ps: set<Path>)
    ensures Under(prefix + [s], ps) == Under(prefix, Under([s], ps))
  {
    forall p | p in ps ensures (prefix + [s]) + p == prefix + ([s] + p) {
    }
    forall x | x in Under(prefix + [s], ps) ensures x in Under(prefix, Under([s], ps)) {
      var p :| p in ps && x == (prefix + [s]) + p;
      assert [s] + p in Under([s], ps);
    }
    forall x | x in Under(prefix, Under([s], ps)) ensures x in Under(prefix + [s], ps) {
      var y :| y in Under([s], ps) && x == prefix + y;
      var p :| p in ps && y == [s] + p;
    }
  }

  ghost function FieldPaths(m: map<string, Json>, key: string, underMetadata: bool): set<Path>
    requires key in m
  {
    if Walked(key, underMetadata) then Under([Field(key)], Paths(m[key], key == "metadata")) else {}
  }

  ghost function SomeFields(m: map<string, Json>, keys: set<string>, underMetadata: bool): set<Path>
    requires keys <= m.Keys
  {
    set key, p | key in keys && p in FieldPaths(m, key, underMetadata) :: p
  }

  lemma ObjectPaths(v: Json, underMetadata: bool)
    requires v.Obj?
    ensures Paths(v, underMetadata) == SomeFields(v.fields, v.fields.Keys, underMetadata)
  {
    var m := v.fields;
    forall x | x in Paths(v, underMetadata) ensures x in SomeFields(m, m.Keys, underMetadata) {
      var key, p :| key in m && Walked(key, underMetadata) && p in Paths(m[key], key == "metadata") && x == [Field(key)] + p;
      assert x in FieldPaths(m, key, underMetadata);
    }
    forall x | x in SomeFields(m, m.Keys, underMetadata) ensures x in Paths(v, underMetadata) {
      var key :| key in m && x in FieldPaths(m, key, underMetadata);
      var p :| p in Paths(m[key], key == "metadata") && x == [Field(key)] + p;
    }
  }

  ghost function ItemPaths(item: Json): set<Path>
    requires Text(item, "name").Some?
  {
    Under([NameOf(item)], Paths(item, false))
  }

  ghost function SomeItems(items: seq<Json>, n: nat): set<Path>
    requires Named(items) && n <= |items|
  {
    set i, p | 0 <= i < n && p in ItemPaths(items[i]) :: p
  }

  lemma ListPaths(v: Json, underMetadata: bool)
    requires v.Arr? && Named(v.items)
    ensures Paths(v, underMetadata) == SomeItems(v.items, |v.items|)
  {
    var items := v.items;
    forall x | x in Paths(v, underMetadata) ensures x in SomeItems(items, |items|) {
      var i, p :| 0 <= i < |items| && p in Paths(items[i], false) && x == [NameOf(items[i])] + p;
      assert x in ItemPaths(items[i]);
    }
    forall x | x in SomeItems(items, |items|) ensures x in Paths(v, underMetadata) {
      var i :| 0 <= i < |items| && x in ItemPaths(items[i]);
      var p :| p in Paths(items[i], false) && x == [NameOf(items[i])] + p;
    }
  }

  lemma UnderUnion(prefix: Path, a: set<Path>, b: set<Path>)
    ensures Under(prefix, a + b) == Under(prefix, a) + Under(prefix, b)
  {
  }

  /** Collect the declared paths below `prefix`. */
  method Walk(v: Json, underMetadata: bool, prefix: Path, out: set<Path>) returns (r: set<Path>)
    ensures r == out + Under(prefix, Paths(v, underMetadata))
    decreases v, 3
  {
    if v.Obj? {
      ObjectPaths(v, underMetadata);
      r := WalkObject(v, underMetadata, prefix, out);
    } else if v.Arr? && Named(v.items) {
      ListPaths(v, underMetadata);
      r := WalkList(v, prefix, out);
    } else {
      assert Under(prefix, {[]}) == {prefix + []};
      assert prefix + [] == prefix;
      r := out + {prefix};
    }
  }

  lemma FieldsGrow(m: map<string, Json>, keys: set<string>, key: string, underMetadata: bool)
    requires keys <= m.Keys && key in m
    ensures SomeFields(m, keys + {key}, underMetadata) == SomeFields(m, keys, underMetadata) + FieldPaths(m, key, underMetadata)
  {
  }

  method WalkField(v: Json, key: string, underMetadata: bool, prefix: Path, out: set<Path>) returns (r: set<Path>)
    requires v.Obj? && key in v.fields
    ensures r == out + Under(prefix, FieldPaths(v.fields, key, underMetadata))
    decreases v, 1
  {
    r := out;
    if Walked(key, underMetadata) {
      r := Walk(v.fields[key], key == "metadata", prefix + [Field(key)], r);
      UnderStep(prefix, Field(key), Paths(v.fields[key], key == "metadata"));
    }
  }

  method WalkObject(v: Json, underMetadata: bool, prefix: Path, out: set<Path>) returns (r: set<Path>)
    requires v.Obj?
    ensures r == out + Under(prefix, SomeFields(v.fields, v.fields.Keys, underMetadata))
    decreases v, 2
  {
    r := out;
    var keys := v.fields.Keys;
    assert SomeFields(v.fields, v.fields.Keys - keys, underMetadata) == {};
    while keys != {}
      invariant keys <= v.fields.Keys
      invariant r == out + Under(prefix, SomeFields(v.fields, v.fields.Keys - keys, underMetadata))
      decreases |keys|
    {
      var key :| key in keys;
      ghost var done := v.fields.Keys - keys;
      r := WalkField(v, key, underMetadata, prefix, r);
      FieldsGrow(v.fields, done, key, underMetadata);
      UnderUnion(prefix, SomeFields(v.fields, done, underMetadata), FieldPaths(v.fields, key, underMetadata));
      keys := keys - {key};
      assert v.fields.Keys - keys == done + {key};
    }
    assert v.fields.Keys - {} == v.fields.Keys;
  }

  ghost function Done(prefix: Path, items: seq<Json>, n: nat): set<Path>
    requires Named(items) && n <= |items|
  {
    Under(prefix, SomeItems(items, n))
  }

  ghost function UnderItem(prefix: Path, item: Json): set<Path>
    requires Text(item, "name").Some?
  {
    Under(prefix, ItemPaths(item))
  }

  lemma DoneGrows(prefix: Path, items: seq<Json>, n: nat)
    requires Named(items) && n < |items|
    ensures Done(prefix, items, n + 1) == Done(prefix, items, n) + UnderItem(prefix, items[n])
  {
    assert SomeItems(items, n + 1) == SomeItems(items, n) + ItemPaths(items[n]);
    UnderUnion(prefix, SomeItems(items, n), ItemPaths(items[n]));
  }

  lemma NoneDone(prefix: Path, items: seq<Json>)
    requires Named(items)
    ensures Done(prefix, items, 0) == {}
  {
  }

  method WalkItem(v: Json, n: nat, prefix: Path, ghost out: set<Path>, now: set<Path>) returns (r: set<Path>)
    requires v.Arr? && Named(v.items) && n < |v.items| && now == out + Done(prefix, v.items, n)
    ensures r == out + Done(prefix, v.items, n + 1)
    decreases v, 1
  {
    r := Walk(v.items[n], false, prefix + [NameOf(v.items[n])], now);
    UnderStep(prefix, NameOf(v.items[n]), Paths(v.items[n], false));
    DoneGrows(prefix, v.items, n);
  }

  method WalkList(v: Json, prefix: Path, out: set<Path>) returns (r: set<Path>)
    requires v.Arr? && Named(v.items)
    ensures r == out + Done(prefix, v.items, |v.items|)
    decreases v, 2
  {
    r := out;
    NoneDone(prefix, v.items);
    for n := 0 to |v.items|
      invariant r == out + Done(prefix, v.items, n)
    {
      r := WalkItem(v, n, prefix, out, r);
    }
  }

  method Declared(v: Json) returns (paths: set<Path>)
    ensures paths == Paths(v, false)
  {
    paths := Walk(v, false, [], {});
    forall p: Path ensures [] + p == p {
    }
  }

  // ----- what is declared -----

  /** One step into a value along one of its declared paths. */
  lemma PathStep(v: Json, underMetadata: bool, p: Path)
    requires p in Paths(v, underMetadata) && !Leaf(v)
    ensures p != []
    ensures v.Obj? ==> p[0].Field? && p[0].name in v.fields && Walked(p[0].name, underMetadata)
                       && p[1..] in Paths(v.fields[p[0].name], p[0].name == "metadata")
    ensures v.Arr? ==> exists i :: 0 <= i < |v.items| && p[0] == NameOf(v.items[i]) && p[1..] in Paths(v.items[i], false)
  {
    if v.Obj? {
      var key, q :| key in v.fields && Walked(key, underMetadata) && q in Paths(v.fields[key], key == "metadata") && p == [Field(key)] + q;
      assert p[1..] == q;
    } else {
      var i, q :| 0 <= i < |v.items| && q in Paths(v.items[i], false) && p == [NameOf(v.items[i])] + q;
      assert p[1..] == q;
    }
  }

  /** The item a path of a named list goes through. */
  lemma ListStep(v: Json, underMetadata: bool, p: Path) returns (i: nat)
    requires v.Arr? && Named(v.items) && p in Paths(v, underMetadata)
    ensures p != [] && i < |v.items| && p[0] == NameOf(v.items[i]) && p[1..] in Paths(v.items[i], false)
  {
    PathStep(v, underMetadata, p);
    i :| 0 <= i < |v.items| && p[0] == NameOf(v.items[i]) && p[1..] in Paths(v.items[i], false);
  }

  lemma FieldBack(v: Json, underMetadata: bool, p: Path)
    requires v.Obj? && p != [] && p[0].Field? && p[0].name in v.fields && Walked(p[0].name, underMetadata)
    requires p[1..] in Paths(v.fields[p[0].name], p[0].name == "metadata")
    ensures p in Paths(v, underMetadata)
  {
    assert p == [p[0]] + p[1..];
  }

  lemma ItemBack(v: Json, underMetadata: bool, p: Path, i: nat)
    requires v.Arr? && Named(v.items) && i < |v.items| && p != []
    requires p[0] == NameOf(v.items[i]) && p[1..] in Paths(v.items[i], false)
    ensures p in Paths(v, underMetadata)
  {
    assert p == [p[0]] + p[1..];
  }

  /** With distinct names, a named item is the one found by its name. */
  lemma NamedItem(v: Json, i: nat)
    requires v.Arr? && Named(v.items) && DistinctNames(v) && i < |v.items|
    ensures Child(v, NameOf(v.items[i])) == Some(v.items[i])
  {
    var name := Text(v.items[i], "name").value;
    FindIs(v.items, "name", name, i);
  }

  /** A declared path leads to a leaf. */
  lemma {:induction false} DeclaredIsLeaf(v: Json, underMetadata: bool, p: Path)
    requires p in Paths(v, underMetadata) && DistinctNames(v)
    ensures Get(v, p).Some? && Leaf(Get(v, p).value)
    decreases v
  {
    if !Leaf(v) {
      PathStep(v, underMetadata, p);
      if v.Obj? {
        DeclaredIsLeaf(v.fields[p[0].name], p[0].name == "metadata", p[1..]);
      } else {
        var i :| 0 <= i < |v.items| && p[0] == NameOf(v.items[i]) && p[1..] in Paths(v.items[i], false);
        NamedItem(v, i);
        DeclaredIsLeaf(v.items[i], false, p[1..]);
      }
    }
  }

  /** Two declared paths that start with one segment go through one child. */
  lemma SharedStep(v: Json, underMetadata: bool, p: Path, q: Path) returns (c: Json, under: bool)
    requires p in Paths(v, underMetadata) && q in Paths(v, underMetadata) && !Leaf(v) && DistinctNames(v)
    requires p != [] && q != [] && p[0] == q[0]
    ensures c < v && DistinctNames(c) && p[1..] in Paths(c, under) && q[1..] in Paths(c, under)
  {
    if v.Obj? {
      PathStep(v, underMetadata, p);
      PathStep(v, underMetadata, q);
      c, under := v.fields[p[0].name], p[0].name == "metadata";
    } else {
      var i := ListStep(v, underMetadata, p);
      var j := ListStep(v, underMetadata, q);
      NamedItem(v, i);
      NamedItem(v, j);
      c, under := v.items[i], false;
    }
  }

  /** No declared path extends another. */
  lemma {:induction false} DeclaredApart(v: Json, underMetadata: bool, p: Path, q: Path)
    requires p in Paths(v, underMetadata) && q in Paths(v, underMetadata) && p <= q && DistinctNames(v)
    ensures p == q
    decreases v
  {
    if !Leaf(v) {
      PathStep(v, underMetadata, p);
      var c, under := SharedStep(v, underMetadata, p, q);
      DeclaredApart(c, under, p[1..], q[1..]);
      assert p == [p[0]] + p[1..] && q == [q[0]] + q[1..];
    }
  }

  // ----- exactly when no declared path extends another -----

  /** Objects whose walked fields are again such objects: they declare nothing. */
  predicate DeclaresNothing(v: Json, underMetadata: bool) {
    v.Obj? && forall key | key in v.fields && Walked(key, underMetadata) :: DeclaresNothing(v.fields[key], key == "metadata")
  }

  /** Two values that can stand at one path: a leaf beside a leaf, or beside something that
      declares nothing; objects whose shared fields agree; named lists whose items of one
      name agree. */
  predicate Agree(x: Json, y: Json, underMetadata: bool) {
    if Leaf(x) || Leaf(y) then
      (Leaf(x) || DeclaresNothing(x, underMetadata)) && (Leaf(y) || DeclaresNothing(y, underMetadata))
    else if x.Obj? && y.Obj? then
      forall key | key in x.fields && key in y.fields && Walked(key, underMetadata) ::
        Agree(x.fields[key], y.fields[key], key == "metadata")
    else if x.Arr? && y.Arr? then
      forall i, j | 0 <= i < |x.items| && 0 <= j < |y.items| && Text(x.items[i], "name") == Text(y.items[j], "name") ::
        Agree(x.items[i], y.items[j], false)
    else true
  }

  /** No path of one value extends a path of the other. */
  ghost predicate NoClash(x: Json, y: Json, underMetadata: bool) {
    SetsDoNotClash(Paths(x, underMetadata), Paths(y, underMetadata))
  }

  ghost predicate SetsDoNotClash(ps: set<Path>, qs: set<Path>) {
    forall p, q :: p in ps && q in qs && !Apart(p, q) ==> p == q
  }

  lemma {:induction false} NothingDeclared(v: Json, underMetadata: bool)
    ensures DeclaresNothing(v, underMetadata) <==> Paths(v, underMetadata) == {}
    decreases v
  {
    if v.Obj? {
      forall key | key in v.fields && Walked(key, underMetadata)
        ensures DeclaresNothing(v.fields[key], key == "metadata") <==> Paths(v.fields[key], key == "metadata") == {}
        ensures Paths(v, underMetadata) == {} ==> Paths(v.fields[key], key == "metadata") == {}
      {
        NothingDeclared(v.fields[key], key == "metadata");
        if Paths(v.fields[key], key == "metadata") != {} {
          var p :| p in Paths(v.fields[key], key == "metadata");
          FieldOn(v, underMetadata, key, p);
        }
      }
      if Paths(v, underMetadata) != {} {
        var p :| p in Paths(v, underMetadata);
        PathStep(v, underMetadata, p);
      }
    } else if Leaf(v) {
      assert [] in Paths(v, underMetadata);
    } else {
      NamedDeclares(v, underMetadata);
    }
  }

  /** Every item of a named list declares its name. */
  lemma NamedDeclares(v: Json, underMetadata: bool)
    requires v.Arr? && Named(v.items)
    ensures Paths(v, underMetadata) != {}
  {
    var first := v.items[0];
    assert first in v.items;
    var name: Path := [Field("name")];
    assert name[1..] == [];
    FieldBack(first, false, name);
    ItemOn(v, underMetadata, 0, name);
  }

  lemma FieldOn(v: Json, underMetadata: bool, key: string, p: Path)
    requires v.Obj? && key in v.fields && Walked(key, underMetadata) && p in Paths(v.fields[key], key == "metadata")
    ensures [Field(key)] + p in Paths(v, underMetadata)
  {
    assert ([Field(key)] + p)[1..] == p;
    FieldBack(v, underMetadata, [Field(key)] + p);
  }

  lemma ItemOn(v: Json, underMetadata: bool, i: nat, p: Path)
    requires v.Arr? && Named(v.items) && i < |v.items| && p in Paths(v.items[i], false)
    ensures [NameOf(v.items[i])] + p in Paths(v, underMetadata)
  {
    assert ([NameOf(v.items[i])] + p)[1..] == p;
    ItemBack(v, underMetadata, [NameOf(v.items[i])] + p, i);
  }

  lemma {:induction false} AgreeIff(x: Json, y: Json, underMetadata: bool)
    ensures Agree(x, y, underMetadata) <==> NoClash(x, y, underMetadata)
    decreases x
  {
    if Leaf(x) || Leaf(y) {
      AgreeAtLeaf(x, y, underMetadata);
    } else if x.Obj? && y.Obj? {
      forall key | key in x.fields && key in y.fields && Walked(key, underMetadata)
        ensures Agree(x.fields[key], y.fields[key], key == "metadata") <==> NoClash(x.fields[key], y.fields[key], key == "metadata")
      {
        AgreeIff(x.fields[key], y.fields[key], key == "metadata");
      }
      ObjectsClash(x, y, underMetadata);
    } else if x.Arr? && y.Arr? {
      forall i, j | 0 <= i < |x.items| && 0 <= j < |y.items|
        ensures Agree(x.items[i], y.items[j], false) <==> NoClash(x.items[i], y.items[j], false)
      {
        AgreeIff(x.items[i], y.items[j], false);
      }
      ListsClash(x, y, underMetadata);
    } else {
      forall p, q | p in Paths(x, underMetadata) && q in Paths(y, underMetadata) ensures Apart(p, q) {
        PathStep(x, underMetadata, p);
        PathStep(y, underMetadata, q);
      }
    }
  }

  lemma AgreeAtLeaf(x: Json, y: Json, underMetadata: bool)
    requires Leaf(x) || Leaf(y)
    ensures Agree(x, y, underMetadata) <==> NoClash(x, y, underMetadata)
  {
    ClashIsMutual(x, y, underMetadata);
    if Leaf(x) { LeafClash(x, y, underMetadata); } else { LeafClash(y, x, underMetadata); }
  }

  lemma ClashIsMutual(x: Json, y: Json, underMetadata: bool)
    ensures NoClash(x, y, underMetadata) <==> NoClash(y, x, underMetadata)
  {
  }

  /** A leaf is in the way of anything that is declared beside it, except another leaf. */
  lemma LeafClash(x: Json, y: Json, underMetadata: bool)
    requires Leaf(x)
    ensures NoClash(x, y, underMetadata) <==> Leaf(y) || DeclaresNothing(y, underMetadata)
  {
    assert Paths(x, underMetadata) == {[]};
    RootClashes(Paths(y, underMetadata));
    NothingDeclared(y, underMetadata);
    OnlyLeavesAreRoots(y, underMetadata);
  }

  lemma RootClashes(qs: set<Path>)
    ensures SetsDoNotClash({[]}, qs) <==> qs <= {[]}
  {
    if !(qs <= {[]}) {
      var q :| q in qs && q != [];
      var root: Path := [];
      assert root in {[]} && !Apart(root, q);
    }
  }

  lemma OnlyLeavesAreRoots(v: Json, underMetadata: bool)
    ensures [] in Paths(v, underMetadata) <==> Leaf(v)
    ensures Leaf(v) ==> Paths(v, underMetadata) == {[]}
  {
    if !Leaf(v) && [] in Paths(v, underMetadata) { PathStep(v, underMetadata, []); }
  }

  lemma TailsMeet(p: Path, q: Path)
    requires p != [] && q != [] && p[0] == q[0]
    ensures Apart(p, q) <==> Apart(p[1..], q[1..])
    ensures p == q <==> p[1..] == q[1..]
  {
    assert p == [p[0]] + p[1..] && q == [q[0]] + q[1..];
  }

  lemma ObjectsClash(x: Json, y: Json, underMetadata: bool)
    requires x.Obj? && y.Obj?
    ensures NoClash(x, y, underMetadata)
            <==> forall key | key in x.fields && key in y.fields && Walked(key, underMetadata) ::
                   NoClash(x.fields[key], y.fields[key], key == "metadata")
  {
    if NoClash(x, y, underMetadata) {
      forall key, p, q | key in x.fields && key in y.fields && Walked(key, underMetadata)
        && p in Paths(x.fields[key], key == "metadata") && q in Paths(y.fields[key], key == "metadata") && !Apart(p, q)
        ensures p == q
      {
        FieldOn(x, underMetadata, key, p);
        FieldOn(y, underMetadata, key, q);
        MeetBelow(Field(key), p, q);
      }
    }
    if forall key | key in x.fields && key in y.fields && Walked(key, underMetadata) ::
         NoClash(x.fields[key], y.fields[key], key == "metadata")
    {
      forall p, q | p in Paths(x, underMetadata) && q in Paths(y, underMetadata) && !Apart(p, q) ensures p == q {
        PathStep(x, underMetadata, p);
        PathStep(y, underMetadata, q);
        assert p[0] == q[0];
        TailsMeet(p, q);
      }
    }
  }

  lemma MeetBelow(s: Segment, p: Path, q: Path)
    ensures Apart([s] + p, [s] + q) <==> Apart(p, q)
    ensures [s] + p == [s] + q <==> p == q
  {
    assert ([s] + p)[1..] == p && ([s] + q)[1..] == q;
    TailsMeet([s] + p, [s] + q);
  }

  ghost predicate ItemsDoNotClash(xs: seq<Json>, ys: seq<Json>) {
    forall i, j | 0 <= i < |xs| && 0 <= j < |ys| && Text(xs[i], "name") == Text(ys[j], "name") :: NoClash(xs[i], ys[j], false)
  }

  lemma ListsClash(x: Json, y: Json, underMetadata: bool)
    requires x.Arr? && y.Arr? && Named(x.items) && Named(y.items)
    ensures NoClash(x, y, underMetadata) <==> ItemsDoNotClash(x.items, y.items)
  {
    if NoClash(x, y, underMetadata) {
      forall i, j | 0 <= i < |x.items| && 0 <= j < |y.items| && Text(x.items[i], "name") == Text(y.items[j], "name")
        ensures NoClash(x.items[i], y.items[j], false)
      {
        ItemsClashToo(x, y, underMetadata, i, j);
      }
    }
    if ItemsDoNotClash(x.items, y.items) {
      forall p, q | p in Paths(x, underMetadata) && q in Paths(y, underMetadata) && !Apart(p, q) ensures p == q {
        ListPathsMeet(x, y, underMetadata, p, q);
      }
    }
  }

  lemma ItemsClashToo(x: Json, y: Json, underMetadata: bool, i: nat, j: nat)
    requires x.Arr? && y.Arr? && Named(x.items) && Named(y.items) && NoClash(x, y, underMetadata)
    requires i < |x.items| && j < |y.items| && Text(x.items[i], "name") == Text(y.items[j], "name")
    ensures NoClash(x.items[i], y.items[j], false)
  {
    forall p, q | p in Paths(x.items[i], false) && q in Paths(y.items[j], false) && !Apart(p, q) ensures p == q {
      ItemOn(x, underMetadata, i, p);
      ItemOn(y, underMetadata, j, q);
      MeetBelow(NameOf(x.items[i]), p, q);
    }
  }

  lemma ListPathsMeet(x: Json, y: Json, underMetadata: bool, p: Path, q: Path)
    requires x.Arr? && y.Arr? && Named(x.items) && Named(y.items) && ItemsDoNotClash(x.items, y.items)
    requires p in Paths(x, underMetadata) && q in Paths(y, underMetadata) && !Apart(p, q)
    ensures p == q
  {
    var i := ListStep(x, underMetadata, p);
    var j := ListStep(y, underMetadata, q);
    TailsMeet(p, q);
    assert NoClash(x.items[i], y.items[j], false);
  }

  /** The declared paths of an object are prefix-free exactly when what it puts at one path
      agrees, at every depth. */
  lemma DeclaredPrefixFreeIff(v: Json)
    ensures Agree(v, v, false) <==> PrefixFree(Paths(v, false))
  {
    AgreeIff(v, v, false);
  }

  /** With distinct names nothing is put at one path twice, so no declared path extends another. */
  lemma DeclaredPrefixFree(v: Json)
    requires DistinctNames(v)
    ensures PrefixFree(Paths(v, false)) && Agree(v, v, false)
  {
    forall p, q | p in Paths(v, false) && q in Paths(v, false) && p <= q ensures p == q {
      DeclaredApart(v, false, p, q);
    }
    DeclaredPrefixFreeIff(v);
  }

  const SCALAR_ITEM := Obj(map["name" := Str("x"), "a" := Num(1)])
  const NESTED_ITEM := Obj(map["name" := Str("x"), "a" := Obj(map["b" := Num(1)])])
  const CLASHING := Obj(map["metadata" := Obj(map["name" := Str("n")]), "list" := Arr([SCALAR_ITEM, NESTED_ITEM])])

  /** A request body that fails it: two list items of one name declare a field and something
      inside that field. */
  lemma RepeatedNamesOverlap()
    ensures Request(CLASHING) && !PrefixFree(Paths(CLASHING, false))
  {
    ScalarBesideObject();
    FieldsDisagree(SCALAR_ITEM, NESTED_ITEM, "a");
    ItemsDisagree(CLASHING.fields["list"], 0, 1);
    FieldsDisagree(CLASHING, CLASHING, "list");
    DeclaredPrefixFreeIff(CLASHING);
  }

  lemma ScalarBesideObject()
    ensures !Agree(Num(1), Obj(map["b" := Num(1)]), false)
  {
    var v := Obj(map["b" := Num(1)]);
    assert !DeclaresNothing(Num(1), false);
    assert "b" in v.fields && !DeclaresNothing(v, false);
  }

  lemma FieldsDisagree(x: Json, y: Json, key: string)
    requires x.Obj? && y.Obj? && key in x.fields && key in y.fields && key != "metadata"
    requires !Agree(x.fields[key], y.fields[key], false)
    ensures !Agree(x, y, false)
  {
    assert Walked(key, false);
  }

  lemma ItemsDisagree(x: Json, i: nat, j: nat)
    requires x.Arr? && Named(x.items) && i < |x.items| && j < |x.items|
    requires Text(x.items[i], "name") == Text(x.items[j], "name") && !Agree(x.items[i], x.items[j], false)
    ensures !Agree(x, x, false)
  {
  }

  /** Declared paths address items by name, end in a field, and write no other name than the
      one they go by. */
  lemma {:induction false} DeclaredIsTame(v: Json, underMetadata: bool, p: Path)
    requires p in Paths(v, underMetadata)
    ensures ByName(p) && (p != [] ==> p[|p| - 1].Field?) && (v.Obj? ==> p != [])
    decreases v
  {
    if !Leaf(v) {
      PathStep(v, underMetadata, p);
      if v.Obj? {
        DeclaredIsTame(v.fields[p[0].name], p[0].name == "metadata", p[1..]);
      } else {
        var i :| 0 <= i < |v.items| && p[0] == NameOf(v.items[i]) && p[1..] in Paths(v.items[i], false);
        assert v.items[i] in v.items;
        DeclaredIsTame(v.items[i], false, p[1..]);
      }
      ByNameCons(p);
    }
  }

  lemma ByNameCons(p: Path)
    requires p != [] && ByName(p[1..]) && (p[0].Keyed? ==> p[0].key == "name")
    ensures ByName(p)
  {
    forall i | 0 <= i < |p| ensures p[i].Keyed? ==> p[i].key == "name" {
      if i > 0 { assert p[i] == p[1..][i - 1]; }
    }
  }

  lemma {:induction false} DeclaredKeepsNames(v: Json, underMetadata: bool, p: Path)
    requires p in Paths(v, underMetadata) && DistinctNames(v)
    ensures Get(v, p).Some? && KeepsNames(p, Get(v, p).value)
    decreases v
  {
    DeclaredIsLeaf(v, underMetadata, p);
    if !Leaf(v) {
      PathStep(v, underMetadata, p);
      if v.Obj? {
        DeclaredKeepsNames(v.fields[p[0].name], p[0].name == "metadata", p[1..]);
      } else {
        var i :| 0 <= i < |v.items| && p[0] == NameOf(v.items[i]) && p[1..] in Paths(v.items[i], false);
        NamedItem(v, i);
        DeclaredKeepsNames(v.items[i], false, p[1..]);
      }
    }
  }

  /** Whoever declares something inside a list item declares its name. */
  lemma {:induction false} NamesAreDeclared(v: Json, underMetadata: bool, d: Path, s: Path)
    requires d in Paths(v, underMetadata) && NamesItemOf(s, d) && DistinctNames(v) && ByName(d)
    ensures s in Paths(v, underMetadata)
    decreases v
  {
    if Leaf(v) { return; }
    PathStep(v, underMetadata, d);
    ByNameTail(d);
    if v.Obj? {
      NamesAreDeclared(v.fields[d[0].name], d[0].name == "metadata", d[1..], s[1..]);
      FieldBack(v, underMetadata, s);
    } else {
      var i :| 0 <= i < |v.items| && d[0] == NameOf(v.items[i]) && d[1..] in Paths(v.items[i], false);
      if |s| == 2 {
        assert s[1..] == [Field("name")] && s[1..][1..] == [];
        FieldBack(v.items[i], false, s[1..]);
      } else {
        NamesAreDeclared(v.items[i], false, d[1..], s[1..]);
      }
      ItemBack(v, underMetadata, s, i);
    }
  }

  /** A declared path can be written exactly where the stored containers have its shape. */
  lemma DeclaredWrites(a: Json, d: Path, v: Json, value: Json)
    requires a.Obj? && d in Paths(a, false)
    ensures d != [] && (Set(v, d, value).Some? <==> ShapesMatch(v, d))
  {
    DeclaredIsTame(a, false, d);
    DeclaredNamesEnd(a, false, d);
    SetSucceedsIff(v, d, value);
  }

  lemma {:induction false} DeclaredNamesEnd(v: Json, underMetadata: bool, p: Path)
    requires p in Paths(v, underMetadata)
    ensures NamesEnd(p)
    decreases v
  {
    if !Leaf(v) {
      PathStep(v, underMetadata, p);
      if v.Obj? {
        DeclaredNamesEnd(v.fields[p[0].name], p[0].name == "metadata", p[1..]);
      } else {
        var i :| 0 <= i < |v.items| && p[0] == NameOf(v.items[i]) && p[1..] in Paths(v.items[i], false);
        DeclaredNamesEnd(v.items[i], false, p[1..]);
        assert v.items[i] in v.items;
        PathStep(v.items[i], false, p[1..]);
        if p[1] == Field("name") { assert Paths(v.items[i].fields["name"], false) == {[]}; }
      }
    }
  }

  /** Declared paths that part go on in the same kind of container. */
  lemma {:induction false} DeclaredSameKinds(v: Json, underMetadata: bool, p: Path, q: Path)
    requires p in Paths(v, underMetadata) && q in Paths(v, underMetadata) && DistinctNames(v)
    ensures SameKinds(p, q)
    decreases v
  {
    if !Leaf(v) {
      PathStep(v, underMetadata, p);
      PathStep(v, underMetadata, q);
      if p[0] == q[0] {
        var c, under := SharedStep(v, underMetadata, p, q);
        DeclaredSameKinds(c, under, p[1..], q[1..]);
      }
    }
  }
}
