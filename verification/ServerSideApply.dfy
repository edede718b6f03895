/** Server-Side Apply: merging an applied object field by field and recording who owns what. */
module ServerSideApply {
  import opened Wrappers
  import opened JsonPaths
  import opened OwnedFields
  import opened FieldTrees
  import opened FieldOwners
  import opened PathOrder
  import opened ForcedOwners

  // ----- editing by sets of paths -----

  ghost predicate AllByName(ps: set<Path>) { forall p :: p in ps ==> ByName(p) }

  /** A path no removal touches: apart from all of them, and none takes an item's name on the way. */
  ghost predicate Clear(gone: set<Path>, s: Path) {
    forall q :: q in gone ==> Apart(q, s) && !NamesItemOf(q, s)
  }

  ghost predicate KeptClear(v: Json, gone: set<Path>, r: Json) {
    forall s {:trigger Clear(gone, s)} :: ByName(s) && Clear(gone, s) ==> Get(r, s) == Get(v, s)
  }

  ghost predicate Unambiguous(v: Json, r: Json) {
    forall s :: ByName(s) && UniqueOnRoute(v, s) ==> UniqueOnRoute(r, s)
  }

  ghost predicate Gone(v: Json, gone: set<Path>, r: Json) {
    forall q :: q in gone && q != [] && UniqueOnRoute(v, q) ==> Get(r, q).None?
  }

  /** A path that goes through nothing that is removed and through no item that is unnamed. */
  ghost predicate Spared(gone: set<Path>, d: Path) {
    forall q :: q in gone ==> !(q <= d) && !NamesItemOf(q, d)
  }

  ghost predicate KeptShapes(v: Json, gone: set<Path>, r: Json) {
    forall d {:trigger Spared(gone, d)} :: ByName(d) && Spared(gone, d) ==> (ShapesMatch(r, d) <==> ShapesMatch(v, d))
  }

  /** Nothing spared is taken away, and nothing appears. */
  ghost predicate KeptPresence(v: Json, gone: set<Path>, r: Json) {
    && (forall s {:trigger Spared(gone, s)} :: ByName(s) && Spared(gone, s) && Get(v, s).Some? ==> Get(r, s).Some?)
    && forall s {:trigger UniqueOnRoute(v, s)} :: ByName(s) && UniqueOnRoute(v, s) && Get(v, s).None? ==> Get(r, s).None?
  }

  /** `r` is `v` with the paths of `gone` removed. */
  ghost predicate Removed(v: Json, gone: set<Path>, r: Json) {
    && KeptClear(v, gone, r) && Unambiguous(v, r) && Gone(v, gone, r) && KeptShapes(v, gone, r)
    && KeptPresence(v, gone, r)
  }

  lemma RemovedMore(v: Json, gone: set<Path>, r: Json, q: Path)
    requires Removed(v, gone, r) && AllByName(gone) && ByName(q)
    ensures Removed(v, gone + {q}, Remove(r, q))
  {
    var w := Remove(r, q);
    forall s | ByName(s) && Clear(gone + {q}, s) ensures Get(w, s) == Get(v, s) {
      assert q in gone + {q} && Clear(gone, s);
      RemoveOther(r, q, s);
    }
    forall s | ByName(s) && UniqueOnRoute(v, s) ensures UniqueOnRoute(w, s) {
      RemoveKeepsUnique(r, q, s);
    }
    forall p | p in gone + {q} && p != [] && UniqueOnRoute(v, p) ensures Get(w, p).None? {
      if p == q { RemoveSame(r, q); } else { RemoveKeepsAbsent(r, q, p); }
    }
    RemovedKeepsShapes(v, gone, r, q);
    RemovedKeepsPresence(v, gone, r, q);
  }

  lemma RemovedKeepsPresence(v: Json, gone: set<Path>, r: Json, q: Path)
    requires KeptPresence(v, gone, r) && Unambiguous(v, r) && ByName(q)
    ensures KeptPresence(v, gone + {q}, Remove(r, q))
  {
    forall s | ByName(s) && Spared(gone + {q}, s) && Get(v, s).Some? ensures Get(Remove(r, q), s).Some? {
      assert q in gone + {q} && Spared(gone, s);
      RemoveKeepsPresent(r, q, s);
    }
    forall s | ByName(s) && UniqueOnRoute(v, s) && Get(v, s).None? ensures Get(Remove(r, q), s).None? {
      RemoveKeepsAbsent(r, q, s);
    }
  }

  lemma RemovedKeepsShapes(v: Json, gone: set<Path>, r: Json, q: Path)
    requires KeptShapes(v, gone, r) && ByName(q)
    ensures KeptShapes(v, gone + {q}, Remove(r, q))
  {
    forall d | ByName(d) && Spared(gone + {q}, d) ensures ShapesMatch(Remove(r, q), d) <==> ShapesMatch(v, d) {
      assert q in gone + {q} && Spared(gone, d);
      RemoveKeepsShape(r, q, d);
    }
  }

  /** What the manager declared before and now neither declares nor extends. */
  ghost function Dropped(previous: set<Path>, declared: set<Path>): set<Path> {
    set p | p in previous && DroppedOne(p, declared)
  }

  predicate DroppedOne(p: Path, declared: set<Path>) { forall d :: d in declared ==> !(p <= d) }

  /** The object while the dropped paths are being removed. */
  ghost predicate Removing(v: Json, previous: set<Path>, declared: set<Path>, seen: set<Path>, now: Json) {
    && (AllByName(previous) ==> Removed(v, Dropped(seen, declared), now))
    && (Dropped(previous, declared) == {} ==> now == v)
  }

  method RemoveOne(ghost v: Json, ghost previous: set<Path>, declared: set<Path>, ghost seen: set<Path>, now: Json, p: Path)
      returns (r: Json)
    requires Removing(v, previous, declared, seen, now) && seen <= previous && p in previous
    ensures Removing(v, previous, declared, seen + {p}, r)
  {
    if !DroppedOne(p, declared) {
      assert Dropped(seen + {p}, declared) == Dropped(seen, declared);
      return now;
    }
    assert p in Dropped(previous, declared);
    assert Dropped(seen + {p}, declared) == Dropped(seen, declared) + {p};
    if AllByName(previous) { RemovedMore(v, Dropped(seen, declared), now, p); }
    return Remove(now, p);
  }

  method RemoveDropped(v: Json, previous: set<Path>, declared: set<Path>) returns (r: Json)
    ensures Removing(v, previous, declared, previous, r)
  {
    r := v;
    var rest := previous;
    ghost var seen: set<Path> := {};
    assert Dropped({}, declared) == {};
    while rest != {}
      invariant seen + rest == previous
      invariant Removing(v, previous, declared, seen, r)
      decreases |rest|
    {
      var p :| p in rest;
      r := RemoveOne(v, previous, declared, seen, r, p);
      rest, seen := rest - {p}, seen + {p};
    }
    assert seen == previous;
  }

  ghost predicate ApartFromAll(ds: set<Path>, s: Path) { forall d :: d in ds ==> Apart(d, s) }

  ghost predicate NamesNone(ds: set<Path>, s: Path) { forall d :: d in ds ==> !NamesItemOf(s, d) }

  ghost predicate Elsewhere(v: Json, ds: set<Path>, r: Json) {
    forall s {:trigger ApartFromAll(ds, s)} ::
      ByName(s) && ApartFromAll(ds, s) && (Get(v, s).Some? || NamesNone(ds, s)) ==> Get(r, s) == Get(v, s)
  }

  /** What an applied object declares can be written path by path. */
  ghost predicate Writable(a: Json, ds: set<Path>) {
    PrefixFree(ds) && (forall d :: d in ds ==> WritableOne(a, d)) && forall d, e :: d in ds && e in ds ==> SameKinds(d, e)
  }

  ghost predicate WritableOne(a: Json, d: Path) {
    && d != [] && d[|d| - 1].Field? && ByName(d) && NamesEnd(d)
    && Get(a, d).Some? && KeepsNames(d, Get(a, d).value)
  }

  lemma DeclaredIsWritable(a: Json)
    requires a.Obj? && DistinctNames(a)
    ensures Writable(a, Paths(a, false))
  {
    DeclaredPrefixFree(a);
    forall d | d in Paths(a, false) ensures WritableOne(a, d) {
      DeclaredIsTame(a, false, d);
      DeclaredKeepsNames(a, false, d);
      DeclaredNamesEnd(a, false, d);
    }
    forall d, e | d in Paths(a, false) && e in Paths(a, false) ensures SameKinds(d, e) {
      DeclaredSameKinds(a, false, d, e);
    }
  }

  /** Everything already on the way to any of the paths has the shape it needs. */
  ghost predicate AllFit(v: Json, ds: set<Path>) { forall d :: d in ds ==> ShapesMatch(v, d) }

  /** What is still to be written can be written exactly where it could be at first. */
  ghost predicate Fitting(v: Json, ds: set<Path>, done: set<Path>, now: Json) {
    && AllFit(v, done)
    && forall d {:trigger ShapesMatch(now, d)} {:trigger ShapesMatch(v, d)} ::
         d in ds && d !in done ==> (ShapesMatch(now, d) <==> ShapesMatch(v, d))
  }

  lemma FitsOne(v: Json, a: Json, ds: set<Path>, done: set<Path>, r: Json, d: Path, w: Json)
    requires Writable(a, ds) && done <= ds && d in ds && d !in done
    requires Fitting(v, ds, done, r) && Set(r, d, Get(a, d).value) == Some(w)
    ensures Fitting(v, ds, done + {d}, w)
  {
    var value := Get(a, d).value;
    assert WritableOne(a, d);
    SetSucceedsIff(r, d, value);
    forall e | e in ds && e !in done + {d} ensures ShapesMatch(w, e) <==> ShapesMatch(v, e) {
      assert WritableOne(a, e) && Apart(d, e) && SameKinds(d, e);
      SetKeepsShape(r, d, value, e);
    }
  }

  /** Where the declared values already are, they fit. */
  lemma SameFits(v: Json, a: Json, ds: set<Path>)
    requires Writable(a, ds) && Same(a, ds, v)
    ensures AllFit(v, ds)
  {
    forall d | d in ds ensures ShapesMatch(v, d) {
      assert WritableOne(a, d);
      FoundMatches(v, d);
    }
  }

  /** One more path written. */
  lemma WroteOne(v: Json, a: Json, ds: set<Path>, done: set<Path>, r: Json, d: Path, w: Json)
    requires Writable(a, ds) && done <= ds && d in ds && d !in done
    requires Same(a, done, r) && Elsewhere(v, ds, r) && Set(r, d, Get(a, d).value) == Some(w)
    ensures Same(a, done + {d}, w) && Elsewhere(v, ds, w)
  {
    var value := Get(a, d).value;
    assert WritableOne(a, d);
    forall p | p in done + {d} ensures Get(w, p) == Get(a, p) {
      if p == d {
        SetSame(r, d, value);
      } else {
        assert WritableOne(a, p);
        SetOther(r, d, value, p);
      }
    }
    forall s | ByName(s) && ApartFromAll(ds, s) && (Get(v, s).Some? || NamesNone(ds, s)) ensures Get(w, s) == Get(v, s) {
      SetOther(r, d, value, s);
    }
  }

  /** Writing what is there changes nothing. */
  lemma {:induction false} SetIdentity(v: Json, d: Path)
    requires d != [] && Get(v, d).Some?
    ensures Set(v, d, Get(v, d).value) == Some(v)
    decreases |d|
  {
    if |d| == 1 {
      assert d[1..] == [];
      if d[0].Field? { assert v.fields[d[0].name := v.fields[d[0].name]] == v.fields; }
    } else {
      SetIdentity(Child(v, d[0]).value, d[1..]);
      if d[0].Field? { assert v.fields[d[0].name := v.fields[d[0].name]] == v.fields; }
    }
    if d[0].Keyed? {
      var i := Find(v.items, d[0].key, d[0].value);
      assert v.items[i := v.items[i]] == v.items;
    }
  }

  /** The object while the declared paths are being written. */
  ghost predicate Writing(v: Json, a: Json, declared: set<Path>, done: set<Path>, now: Json) {
    Writable(a, declared) ==>
      && Same(a, done, now) && Elsewhere(v, declared, now) && Fitting(v, declared, done, now)
      && (Same(a, declared, v) ==> now == v)
  }

  lemma WrittenOne(v: Json, a: Json, declared: set<Path>, done: set<Path>, now: Json, d: Path)
    requires Writing(v, a, declared, done, now) && Writable(a, declared) && done <= declared && d in declared && d !in done
    ensures Get(a, d).Some?
    ensures var r := Set(now, d, Get(a, d).value);
            if r.Some? then Writing(v, a, declared, done + {d}, r.value) else !AllFit(v, declared)
  {
    assert WritableOne(a, d);
    var r := Set(now, d, Get(a, d).value);
    SetSucceedsIff(now, d, Get(a, d).value);
    if r.Some? {
      if Same(a, declared, v) { SetIdentity(v, d); }
      WroteOne(v, a, declared, done, now, d, r.value);
      FitsOne(v, a, declared, done, now, d, r.value);
    }
  }

  method WriteOne(ghost v: Json, a: Json, ghost declared: set<Path>, ghost done: set<Path>, now: Json, d: Path) returns (r: Option<Json>)
    requires Writing(v, a, declared, done, now) && done <= declared && d in declared && d !in done
    ensures r.Some? ==> Writing(v, a, declared, done + {d}, r.value)
    ensures r.None? ==> Writable(a, declared) ==> !AllFit(v, declared)
  {
    if Writable(a, declared) { WrittenOne(v, a, declared, done, now, d); }
    if Get(a, d).None? { return Some(now); }
    return Set(now, d, Get(a, d).value);
  }

  /** Write every declared path; None when the server stops at a parent of another shape,
      which is exactly when some declared path did not fit at first. */
  method WriteDeclared(v: Json, a: Json, declared: set<Path>) returns (r: Option<Json>)
    ensures r.Some? ==> Writing(v, a, declared, declared, r.value)
    ensures Writable(a, declared) ==> (r.Some? <==> AllFit(v, declared))
  {
    var now := v;
    var rest := declared;
    ghost var done: set<Path> := {};
    NothingWritten(v, a, declared);
    while rest != {}
      invariant done + rest == declared && done !! rest
      invariant Writing(v, a, declared, done, now)
      decreases |rest|
    {
      var d :| d in rest;
      var next := WriteOne(v, a, declared, done, now, d);
      if next.None? { return None; }
      now, rest, done := next.value, rest - {d}, done + {d};
    }
    assert done == declared;
    AllWritten(v, a, declared, now);
    return Some(now);
  }

  lemma NothingWritten(v: Json, a: Json, declared: set<Path>)
    ensures Writing(v, a, declared, {}, v)
  {
  }

  lemma AllWritten(v: Json, a: Json, declared: set<Path>, now: Json)
    requires Writing(v, a, declared, declared, now)
    ensures Writable(a, declared) ==> AllFit(v, declared)
  {
  }

  // ----- what a merge amounts to -----

  lemma {:induction false} GetThrough(v: Json, d: Path, rest: Path)
    ensures Get(v, d + rest) == if Get(v, d).Some? then Get(Get(v, d).value, rest) else None
    decreases |d|
  {
    if d == [] {
      assert d + rest == rest;
    } else {
      assert (d + rest)[1..] == d[1..] + rest;
      if Child(v, d[0]).Some? { GetThrough(Child(v, d[0]).value, d[1..], rest); }
    }
  }

  /** Every declared path has its applied value. */
  ghost predicate TakesDeclared(a: Json, declared: set<Path>, r: Json) { Same(a, declared, r) }

  /** Every dropped path is gone, unless it is now inside something declared as a whole. */
  ghost predicate LosesDropped(v: Json, a: Json, declared: set<Path>, gone: set<Path>, r: Json) {
    forall q :: q in gone && q != [] && UniqueOnRoute(v, q) ==>
      Get(r, q) == if exists d :: d in declared && d <= q then Get(a, q) else None
  }

  /** A stored field the merge has nothing to do with. */
  ghost predicate Unrelated(v: Json, declared: set<Path>, gone: set<Path>, s: Path) {
    && ByName(s) && s != [] && s[|s| - 1].Field?
    && UniqueOnRoute(v, s) && Get(v, s).Some? && ApartFromAll(declared, s) && ApartFromAll(gone, s)
  }

  /** A dropped path is the name of a list item this one goes through. */
  ghost predicate Unnamed(gone: set<Path>, s: Path) { exists q :: q in gone && NamesItemOf(q, s) }

  /** Every other field of the item with this name is dropped. */
  ghost predicate LosesTheRest(v: Json, gone: set<Path>, s: Path)
    requires s != []
  {
    var item := s[..|s| - 1];
    forall k {:trigger Field(k)} :: k != "name" && Get(v, item + [Field(k)]).Some? ==> item + [Field(k)] in gone
  }

  /** What an apply costs a field it has nothing to do with: an item on its way loses its name,
      or, where the field is an item's name, the item loses everything else. */
  ghost predicate Lost(v: Json, gone: set<Path>, s: Path)
    requires s != []
  {
    Unnamed(gone, s) || (EndsInName(s) && LosesTheRest(v, gone, s))
  }

  /** What the merge has nothing to do with stays, bare list items inside it aside, if and only
      if it is not lost in this way; otherwise it is out of reach. */
  ghost predicate KeepsUnrelated(v: Json, declared: set<Path>, gone: set<Path>, r: Json) {
    forall s :: Unrelated(v, declared, gone, s) ==>
      Get(r, s) == if Lost(v, gone, s) then None else Some(Prune(Get(v, s).value))
  }

  ghost predicate Merged(v: Json, a: Json, previous: set<Path>, r: Json) {
    var declared := Paths(a, false);
    var gone := Dropped(previous, declared);
    TakesDeclared(a, declared, r) && LosesDropped(v, a, declared, gone, r) && KeepsUnrelated(v, declared, gone, r)
  }

  lemma DroppedIsLost(v: Json, a: Json, gone: set<Path>, removed: Json, r: Json, q: Path)
    requires a.Obj? && DistinctNames(a) && Removed(v, gone, removed)
    requires var ds := Paths(a, false); Same(a, ds, r) && Elsewhere(Prune(removed), ds, r) && DroppedOne(q, ds)
    requires q in gone && q != [] && ByName(q) && UniqueOnRoute(v, q)
    ensures Get(r, q) == if exists d :: d in Paths(a, false) && d <= q then Get(a, q) else None
  {
    var ds := Paths(a, false);
    if exists d :: d in ds && d <= q {
      var d :| d in ds && d <= q;
      GetThrough(r, d, q[|d|..]);
      GetThrough(a, d, q[|d|..]);
      assert d + q[|d|..] == q;
    } else {
      forall d | d in ds ensures !NamesItemOf(q, d) {
        if NamesItemOf(q, d) {
          DeclaredIsTame(a, false, d);
          NamesAreDeclared(a, false, d, q);
        }
      }
      assert ApartFromAll(ds, q) && NamesNone(ds, q);
      PruneGet(removed, q);
    }
  }

  lemma UnrelatedIsKeptIff(v: Json, a: Json, gone: set<Path>, removed: Json, r: Json, s: Path)
    requires a.Obj? && DistinctNames(a) && Removed(v, gone, removed)
    requires Elsewhere(Prune(removed), Paths(a, false), r) && Unrelated(v, Paths(a, false), gone, s)
    ensures Get(r, s) == if Lost(v, gone, s) then None else Some(Prune(Get(v, s).value))
  {
    UndeclaredNamesNone(a, s);
    PruneGet(removed, s);
    if Unnamed(gone, s) {
      var q :| q in gone && NamesItemOf(q, s);
      NameIsUnique(v, q, s);
      UnnamedIsLost(removed, q, s);
    } else {
      assert Clear(gone, s) && Get(removed, s) == Get(v, s);
      if EndsInName(s) { NameIsLostIff(v, gone, removed, s); } else { FieldsSurvive(removed, s); }
    }
  }

  /** Whoever declares something inside an item declares its name. */
  lemma UndeclaredNamesNone(a: Json, s: Path)
    requires a.Obj? && DistinctNames(a) && ApartFromAll(Paths(a, false), s)
    ensures NamesNone(Paths(a, false), s)
  {
    forall d | d in Paths(a, false) ensures !NamesItemOf(s, d) {
      if NamesItemOf(s, d) {
        DeclaredIsTame(a, false, d);
        NamesAreDeclared(a, false, d, s);
      }
    }
  }

  lemma NameIsLostIff(v: Json, gone: set<Path>, removed: Json, s: Path)
    requires Removed(v, gone, removed) && ByName(s) && EndsInName(s) && UniqueOnRoute(v, s) && Get(v, s).Some?
    requires ApartFromAll(gone, s) && !Unnamed(gone, s) && Get(removed, s) == Get(v, s)
    ensures Survives(removed, s) <==> !LosesTheRest(v, gone, s)
  {
    var t := s[..|s| - 1];
    assert s == t + [Field("name")];
    ByNameInit(s);
    NameSurvives(removed, t);
    GetLast(removed, t, "name");
    var item := Get(removed, t).value;
    forall k | k != "name"
      ensures k in item.fields <==> Get(v, t + [Field(k)]).Some? && t + [Field(k)] !in gone
    {
      GetLast(removed, t, k);
      FieldIsLostIff(v, gone, removed, t, k);
    }
    if Bare(item) {
      forall k | k != "name" && Get(v, t + [Field(k)]).Some? ensures t + [Field(k)] in gone { assert k !in item.fields; }
    }
  }

  lemma ByNameInit(s: Path)
    requires ByName(s) && s != []
    ensures ByName(s[..|s| - 1])
  {
  }

  /** A field beside a kept name is lost exactly when it is dropped itself. */
  lemma FieldIsLostIff(v: Json, gone: set<Path>, removed: Json, t: Path, k: string)
    requires Removed(v, gone, removed) && ByName(t) && UniqueOnRoute(v, t + [Field("name")]) && k != "name"
    requires ApartFromAll(gone, t + [Field("name")]) && !Unnamed(gone, t + [Field("name")])
    ensures Get(removed, t + [Field(k)]).Some? <==> Get(v, t + [Field(k)]).Some? && t + [Field(k)] !in gone
  {
    var p := t + [Field(k)];
    ByNameField(t, k);
    UniqueSiblings(v, t, "name", k);
    if Get(v, p).Some? && p !in gone {
      forall q | q in gone ensures !(q <= p) && !NamesItemOf(q, p) {
        if q <= p { PrefixOfField(q, t, k); }
        if NamesItemOf(q, p) { NamesSiblings(q, t, k, "name"); }
      }
      assert Spared(gone, p);
    }
  }

  lemma ByNameField(t: Path, k: string)
    requires ByName(t)
    ensures ByName(t + [Field(k)])
  {
  }

  lemma PrefixOfField(q: Path, t: Path, k: string)
    requires q <= t + [Field(k)] && q != t + [Field(k)]
    ensures q <= t + [Field("name")]
  {
    assert q == (t + [Field(k)])[..|q|] == t[..|q|];
  }

  lemma MergeIsMerged(v: Json, a: Json, previous: set<Path>, removed: Json, r: Json)
    requires a.Obj? && DistinctNames(a) && AllByName(previous)
    requires Removing(v, previous, Paths(a, false), previous, removed)
    requires Writing(Prune(removed), a, Paths(a, false), Paths(a, false), r)
    ensures Merged(v, a, previous, r)
  {
    var declared := Paths(a, false);
    var gone := Dropped(previous, declared);
    DeclaredIsWritable(a);
    forall q | q in gone && q != [] && UniqueOnRoute(v, q)
      ensures Get(r, q) == if exists d :: d in declared && d <= q then Get(a, q) else None
    {
      DroppedIsLost(v, a, gone, removed, r, q);
    }
    forall s | Unrelated(v, declared, gone, s) ensures Get(r, s) == if Lost(v, gone, s) then None else Some(Prune(Get(v, s).value)) {
      UnrelatedIsKeptIff(v, a, gone, removed, r, s);
    }
  }

  // ----- when a merge is possible -----

  /** At most one item has each name on the way to any of the paths. */
  ghost predicate AllUnique(v: Json, ds: set<Path>) { forall d :: d in ds ==> UniqueOnRoute(v, d) }

  /** Removing and pruning neither make a declared path fit nor keep one from fitting. */
  lemma StillFits(v: Json, a: Json, previous: set<Path>, removed: Json, d: Path)
    requires a.Obj? && DistinctNames(a) && AllByName(previous)
    requires Removing(v, previous, Paths(a, false), previous, removed)
    requires d in Paths(a, false) && UniqueOnRoute(v, d)
    ensures ShapesMatch(Prune(removed), d) <==> ShapesMatch(v, d)
  {
    var declared := Paths(a, false);
    DeclaredIsTame(a, false, d);
    DeclaredNamesEnd(a, false, d);
    forall q | q in Dropped(previous, declared) ensures !(q <= d) && !NamesItemOf(q, d) {
      if NamesItemOf(q, d) { NamesAreDeclared(a, false, d, q); }
    }
    assert Spared(Dropped(previous, declared), d);
    PruneKeepsShape(removed, d);
  }

  lemma FitsAsStored(v: Json, a: Json, previous: set<Path>, removed: Json)
    requires a.Obj? && DistinctNames(a) && AllByName(previous) && AllUnique(v, Paths(a, false))
    requires Removing(v, previous, Paths(a, false), previous, removed)
    ensures AllFit(Prune(removed), Paths(a, false)) <==> AllFit(v, Paths(a, false))
  {
    forall d | d in Paths(a, false) ensures ShapesMatch(Prune(removed), d) <==> ShapesMatch(v, d) {
      StillFits(v, a, previous, removed, d);
    }
  }

  // ----- apply -----

  /** A stored object; its recorded entries are kept beside its other content. */
  datatype Object = Object(value: Json, managed: seq<Managed>)

  datatype Failure = Conflict(path: Path) | Stopped

  const OWN_FIELDS := {"managedFields", "resourceVersion", "uid", "creationTimestamp"}

  /** The server's own metadata is never applied. */
  function Stripped(v: Json): (a: Json)
    requires Request(v)
    ensures Request(a)
  {
    Obj(v.fields["metadata" := Obj(v.fields["metadata"].fields - OWN_FIELDS)])
  }

  /** The object already is what the manager applied, and holds no bare list items. */
  ghost predicate Settled(stored: Object, a: Json, manager: string) {
    && Previous(Decoded(stored.managed), manager) == Paths(a, false)
    && Same(a, Paths(a, false), stored.value) && Prune(stored.value) == stored.value
  }

  /** The manager's new entry. */
  ghost function Declaration(a: Json, manager: string): Entry {
    Entry(manager, "Apply", Text(a, "apiVersion").GetOr(""), Paths(a, false))
  }

  /** What an apply takes from the others, in the order it visits the declared paths. */
  ghost function Taking(v: Json, a: Json): seq<Path> { InOrder(Changed(Paths(a, false), v, a)) }

  /** The new record: the manager's own declaration, and the others' as far as they keep it. */
  ghost function Recorded(es: seq<Entry>, v: Json, a: Json, manager: string): seq<Entry> {
    Rebuilt(Take(es, manager, Taking(v, a)), Declaration(a, manager))
  }

  /** One apply entry for each manager stays one for each. */
  lemma RecordsOneApply(es: seq<Entry>, v: Json, a: Json, manager: string)
    requires OneApply(es)
    ensures OneApply(Recorded(es, v, a, manager))
  {
    var left := Take(es, manager, Taking(v, a));
    TakeForces(es, manager, Taking(v, a));
    ChangedInOrder(Paths(a, false), v, a);
    ForcedOneApply(es, left, manager, Changed(Paths(a, false), v, a));
    RebuiltOneApply(left, Declaration(a, manager));
  }

  lemma NothingChanged(v: Json, a: Json, ds: set<Path>)
    ensures Same(a, ds, v) <==> Changed(ds, v, a) == {}
  {
    if !Same(a, ds, v) {
      var d :| d in ds && Get(v, d) != Get(a, d);
      assert d in Changed(ds, v, a);
    }
  }

  lemma NothingDropped(declared: set<Path>)
    ensures Dropped(declared, declared) == {}
  {
  }

  lemma StrippedDistinct(v: Json)
    requires Request(v) && DistinctNames(v)
    ensures DistinctNames(Stripped(v))
  {
    var m := v.fields["metadata"];
    assert DistinctNames(m);
    assert DistinctNames(Obj(m.fields - OWN_FIELDS));
  }

  lemma EntriesRecorded(ms: seq<Managed>, left: seq<Entry>, mine: Entry, changed: set<Path>)
    requires Yielded(Decoded(ms), left, mine.manager, changed) && PrefixFree(mine.paths)
    ensures Recordable(Rebuilt(left, mine))
  {
    var es := Decoded(ms);
    DecodedPrefixFree(ms);
    forall i | 0 <= i < |left| ensures PrefixFree(left[i].paths) {
      assert PrefixFree(es[i].paths) && left[i].paths <= es[i].paths;
    }
    RebuiltRecordable(left, mine);
  }

  /** The object's content: remove, prune, write. With unambiguous names it stops exactly when
      the stored object has another shape on the way to something declared. */
  method MergeValue(v: Json, previous: set<Path>, a: Json, declared: set<Path>) returns (r: Option<Json>)
    requires a.Obj? && declared == Paths(a, false)
    ensures DistinctNames(a) && AllByName(previous) && AllUnique(v, declared) ==> (r.Some? <==> AllFit(v, declared))
    ensures r.Some? && DistinctNames(a) && AllByName(previous) ==> Merged(v, a, previous, r.value)
    ensures DistinctNames(a) && previous == declared && Prune(v) == v && Same(a, declared, v) ==> r == Some(v)
  {
    var removed := RemoveDropped(v, previous, declared);
    if previous == declared { NothingDropped(declared); }
    var pruned := Prune(removed);
    r := WriteDeclared(pruned, a, declared);
    if DistinctNames(a) {
      DeclaredIsWritable(a);
      if Same(a, declared, pruned) { SameFits(pruned, a, declared); }
      if AllByName(previous) && AllUnique(v, declared) { FitsAsStored(v, a, previous, removed); }
      if AllByName(previous) && r.Some? { MergeIsMerged(v, a, previous, removed, r.value); }
    }
  }

  /** The owners' records. */
  method RecordOwners(stored: Object, left: seq<Entry>, a: Json, manager: string, declared: set<Path>, ghost force: bool)
      returns (ms: seq<Managed>)
    requires declared == Paths(a, false) && left == Take(Decoded(stored.managed), manager, Taking(stored.value, a))
    requires !force ==> left == Decoded(stored.managed)
    ensures PrefixFree(declared) ==> Records(stored, Decoded(ms), a, manager, force)
  {
    var mine := Entry(manager, "Apply", Text(a, "apiVersion").GetOr(""), declared);
    ms := Encode(Rebuilt(left, mine));
    TakingMeans(Decoded(stored.managed), manager, Taking(stored.value, a));
    ChangedInOrder(declared, stored.value, a);
    DecodedPrefixFree(stored.managed);
    if PrefixFree(declared) { EntriesRecorded(stored.managed, left, mine, Changed(declared, stored.value, a)); }
  }

  /** Merge an applied object into what is stored, recording ownership. */
  method Apply(stored: Object, applied: Json, manager: string, force: bool) returns (r: Result<Object, Failure>)
    requires Request(applied)
    ensures (r.Err? && r.error.Conflict?) <==> !force && Opposed(stored, Stripped(applied), manager)
    ensures DistinctNames(applied) && Addressable(stored, Stripped(applied), manager) ==>
              (r == Err(Stopped) <==>
                (force || !Opposed(stored, Stripped(applied), manager)) && !AllFit(stored.value, Paths(Stripped(applied), false)))
    ensures r.Ok? && DistinctNames(applied) && AllByName(Previous(Decoded(stored.managed), manager)) ==>
              Merged(stored.value, Stripped(applied), Previous(Decoded(stored.managed), manager), r.value.value)
    ensures r.Err? && r.error.Conflict? ==>
              FirstContested(Decoded(stored.managed), Paths(Stripped(applied), false), manager, stored.value, Stripped(applied), r.error.path)
    ensures r.Ok? && Agree(Stripped(applied), Stripped(applied), false) ==>
              Records(stored, Decoded(r.value.managed), Stripped(applied), manager, force)
    ensures DistinctNames(applied) && Settled(stored, Stripped(applied), manager) ==> r.Ok? && r.value.value == stored.value
  {
    var a := Stripped(applied);
    var declared := Declared(a);
    var existing := Decode(stored.managed);
    DeclaredPrefixFreeIff(a);
    if DistinctNames(applied) { StrippedDistinct(applied); }
    NothingChanged(stored.value, a, declared);
    var contested := Contest(existing, declared, stored.value, a, manager, force);
    if contested.Err? { return Err(Conflict(contested.error)); }
    var written := MergeValue(stored.value, Previous(existing, manager), a, declared);
    if written.None? { return Err(Stopped); }
    var managed := RecordOwners(stored, contested.value, a, manager, declared, force);
    return Ok(Object(written.value, managed));
  }

  /** The record an apply leaves. With one apply entry for each manager it is also told from the
      stored entries alone, one by one. */
  ghost predicate Records(stored: Object, r: seq<Entry>, a: Json, manager: string, force: bool) {
    var es := Decoded(stored.managed);
    && r == Recorded(es, stored.value, a, manager)
    && (OneApply(es) ==> r == Rebuilt(AfterForce(es, manager, Taking(stored.value, a)), Declaration(a, manager)))
    && (!force ==> r == Rebuilt(es, Declaration(a, manager)))
  }

  /** Another manager owns something the apply would change. */
  ghost predicate Opposed(stored: Object, a: Json, manager: string) {
    AnyContested(Decoded(stored.managed), Paths(a, false), manager, stored.value, a)
  }

  /** List items are addressed by name, and at most one item has each name on the way to
      something declared. */
  ghost predicate Addressable(stored: Object, a: Json, manager: string) {
    AllByName(Previous(Decoded(stored.managed), manager)) && AllUnique(stored.value, Paths(a, false))
  }

  // ----- applying again -----

  /** Applying the same object again as the same manager, with or without force, never
      conflicts and leaves the object and the recorded entries, when the object holds no empty
      or name-only list items. */
  method ApplyTwice(stored: Object, applied: Json, manager: string, force: bool, again: bool)
      returns (first: Result<Object, Failure>, second: Result<Object, Failure>)
    requires Request(applied)
    ensures first.Ok? && DistinctNames(applied) && AllByName(Previous(Decoded(stored.managed), manager))
            && Prune(first.value.value) == first.value.value ==>
              && second.Ok? && second.value.value == first.value.value
              && Decoded(second.value.managed) == Decoded(first.value.managed)
  {
    first := Apply(stored, applied, manager, force);
    if first.Err? { return first, first; }
    second := Apply(first.value, applied, manager, again);
    if DistinctNames(applied) && AllByName(Previous(Decoded(stored.managed), manager)) && Prune(first.value.value) == first.value.value {
      StrippedDistinct(applied);
      DeclaredPrefixFree(Stripped(applied));
      FirstSettles(stored, applied, manager, force, first.value);
      SecondRecords(stored, first.value, second.value, applied, manager, force, again);
    }
  }

  lemma FirstSettles(stored: Object, applied: Json, manager: string, force: bool, first: Object)
    requires Request(applied)
    requires Merged(stored.value, Stripped(applied), Previous(Decoded(stored.managed), manager), first.value)
    requires Records(stored, Decoded(first.managed), Stripped(applied), manager, force)
    requires Prune(first.value) == first.value
    ensures Settled(first, Stripped(applied), manager)
  {
    var a := Stripped(applied);
    RecordedIsPrevious(Take(Decoded(stored.managed), manager, Taking(stored.value, a)), Declaration(a, manager));
  }

  lemma SecondRecords(stored: Object, first: Object, second: Object, applied: Json, manager: string, force: bool, again: bool)
    requires Request(applied) && Same(Stripped(applied), Paths(Stripped(applied), false), first.value)
    requires Records(stored, Decoded(first.managed), Stripped(applied), manager, force)
    requires Records(first, Decoded(second.managed), Stripped(applied), manager, again)
    ensures Decoded(second.managed) == Decoded(first.managed)
  {
    var a := Stripped(applied);
    NothingChanged(first.value, a, Paths(a, false));
    TakingMeans(Decoded(first.managed), manager, Taking(first.value, a));
    ChangedInOrder(Paths(a, false), first.value, a);
    RebuiltTwice(Take(Decoded(stored.managed), manager, Taking(stored.value, a)), Declaration(a, manager));
  }
}
