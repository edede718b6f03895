/** Two concrete applies: what dropping a shared item's name does, and what force takes. */
module ApplyExamples {
  import opened Wrappers
  import KeyOrder
  import opened JsonPaths
  import opened OwnedFields
  import opened FieldOwners
  import opened PathOrder
  import opened ForcedOwners
  import opened ServerSideApply

  const METADATA := Obj(map["name" := Str("n")])
  const META_NAME: Path := [Field("metadata"), Field("name")]

  lemma PathsIff(v: Json, underMetadata: bool, p: Path)
    requires v.Obj?
    ensures p in Paths(v, underMetadata)
            <==> p != [] && p[0].Field? && p[0].name in v.fields && Walked(p[0].name, underMetadata)
                 && p[1..] in Paths(v.fields[p[0].name], p[0].name == "metadata")
  {
    if p in Paths(v, underMetadata) { PathStep(v, underMetadata, p); }
    if p != [] && p[0].Field? && p[0].name in v.fields && Walked(p[0].name, underMetadata)
       && p[1..] in Paths(v.fields[p[0].name], p[0].name == "metadata")
    {
      FieldBack(v, underMetadata, p);
    }
  }

  lemma MetadataPaths(p: Path)
    ensures p in Paths(METADATA, true) <==> p == [Field("name")]
  {
    PathsIff(METADATA, true, p);
    assert Paths(Str("n"), false) == {[]};
    if p != [] { assert p == [p[0]] + p[1..]; }
  }

  lemma MetaNameIs(p: Path)
    ensures (p != [] && p[0] == Field("metadata") && p[1..] == [Field("name")]) <==> p == META_NAME
  {
    if p != [] { assert p == [p[0]] + p[1..]; }
  }

  lemma StripsNothing(v: Json)
    requires Request(v) && v.fields["metadata"] == METADATA
    ensures Stripped(v) == v
  {
    assert METADATA.fields - OWN_FIELDS == METADATA.fields;
    assert v.fields["metadata" := METADATA] == v.fields;
  }

  /** Store an object with these owners and apply to it, where nothing stands in the way. */
  method ApplyTo(v: Json, es: seq<Entry>, request: Json, manager: string, force: bool) returns (stored: Object, r: Result<Object, Failure>)
    requires Request(request) && Stripped(request) == request && DistinctNames(request) && Recordable(es)
    requires AllFit(v, Paths(request, false)) && AllUnique(v, Paths(request, false)) && AllByName(Previous(es, manager))
    requires force || !AnyContested(es, Paths(request, false), manager, v, request)
    ensures stored.value == v && Decoded(stored.managed) == es
    ensures r.Ok? && Merged(v, request, Previous(es, manager), r.value.value)
    ensures Decoded(r.value.managed) == Recorded(es, v, request, manager)
  {
    var managed := Encode(es);
    stored := Object(v, managed);
    DeclaredPrefixFree(request);
    r := Apply(stored, request, manager, force);
  }

  // ----- an item's name, dropped by one of its two owners -----

  const ITEM := Obj(map["name" := Str("x"), "f" := Num(1)])
  const SHARED := Obj(map["metadata" := METADATA, "list" := Arr([ITEM])])
  const RELEASING := Obj(map["metadata" := METADATA])
  const X := Keyed("name", "x")
  const ITEM_NAME: Path := [Field("list"), X, Field("name")]
  const ITEM_FIELD: Path := [Field("list"), X, Field("f")]
  const KEEPER := Entry("a", "Apply", "", {META_NAME, ITEM_NAME, ITEM_FIELD})
  const RELEASER := Entry("b", "Apply", "", {META_NAME, ITEM_NAME})

  lemma ReleasingPaths()
    ensures Request(RELEASING) && DistinctNames(RELEASING) && Stripped(RELEASING) == RELEASING
    ensures Paths(RELEASING, false) == {META_NAME}
  {
    StripsNothing(RELEASING);
    forall p ensures p in Paths(RELEASING, false) <==> p == META_NAME {
      PathsIff(RELEASING, false, p);
      if p != [] { MetadataPaths(p[1..]); }
      MetaNameIs(p);
    }
  }

  lemma SharedAt()
    ensures Get(SHARED, META_NAME) == Some(Str("n")) && Get(SHARED, ITEM_FIELD) == Some(Num(1))
    ensures UniqueOnRoute(SHARED, META_NAME) && UniqueOnRoute(SHARED, ITEM_FIELD)
  {
    var list := SHARED.fields["list"];
    FindIs(list.items, "name", "x", 0);
    assert Child(list, X) == Some(ITEM);
    assert META_NAME[1..] == [Field("name")] && META_NAME[1..][1..] == [];
    assert ITEM_FIELD[1..] == [X, Field("f")] && ITEM_FIELD[1..][1..] == [Field("f")] && ITEM_FIELD[1..][1..][1..] == [];
    assert Get(METADATA, [Field("name")]) == Some(Str("n")) && Get(ITEM, [Field("f")]) == Some(Num(1));
    assert Get(list, [X, Field("f")]) == Some(Num(1));
    assert UniqueOnRoute(METADATA, [Field("name")]) && UniqueOnRoute(ITEM, [Field("f")]);
    assert UniqueOnRoute(list, [X, Field("f")]);
  }

  lemma ReleaseMerges(r: Json)
    requires Merged(SHARED, RELEASING, RELEASER.paths, r)
    ensures Get(r, ITEM_FIELD).None?
  {
    ReleasingPaths();
    ItemIsUnnamed();
    ItemIsUnrelated();
  }

  lemma ItemIsUnnamed()
    ensures Dropped(RELEASER.paths, {META_NAME}) == {ITEM_NAME} && Unnamed({ITEM_NAME}, ITEM_FIELD)
  {
    assert DroppedOne(ITEM_NAME, {META_NAME}) by { assert META_NAME[0] != ITEM_NAME[0]; }
    assert !DroppedOne(META_NAME, {META_NAME});
    assert ITEM_NAME[1..] == [X, Field("name")] && ITEM_FIELD[1..] == [X, Field("f")];
    assert NamesItemOf([X, Field("name")], [X, Field("f")]) && NamesItemOf(ITEM_NAME, ITEM_FIELD);
  }

  lemma ItemIsUnrelated()
    ensures Unrelated(SHARED, {META_NAME}, {ITEM_NAME}, ITEM_FIELD)
  {
    SharedAt();
    assert META_NAME[0] != ITEM_FIELD[0] && ITEM_NAME[2] != ITEM_FIELD[2];
  }

  /** Managers a and b both name a list item, and a also owns a field of it. When b no longer
      declares the item, the apply succeeds, a's entry still records the field, and the field
      is found there no more. */
  method ReleasedNameHidesItem() returns (stored: Object, r: Result<Object, Failure>)
    ensures stored.value == SHARED && Decoded(stored.managed) == [KEEPER, RELEASER]
    ensures Get(stored.value, ITEM_FIELD) == Some(Num(1))
    ensures r.Ok? && KEEPER in Decoded(r.value.managed) && Get(r.value.value, ITEM_FIELD).None?
  {
    ReleasingPaths();
    OwnersRecordable();
    ReleasePasses();
    SharedAt();
    stored, r := ApplyTo(SHARED, [KEEPER, RELEASER], RELEASING, "b", false);
    ReleaseMerges(r.value.value);
    ReleaseRecords();
  }

  lemma OwnersRecordable()
    ensures Recordable([KEEPER, RELEASER])
  {
    assert META_NAME[0] != ITEM_NAME[0] && META_NAME[0] != ITEM_FIELD[0] && ITEM_NAME[2] != ITEM_FIELD[2];
  }

  lemma ReleaseRecords()
    ensures KEEPER in Recorded([KEEPER, RELEASER], SHARED, RELEASING, "b")
  {
    ReleasingPaths();
    ReleasePasses();
    var ds := Taking(SHARED, RELEASING);
    forall d | d in ds ensures OwnerOf([KEEPER, RELEASER], d, "b").None? {
      assert !Contested([KEEPER, RELEASER], d, "b", SHARED, RELEASING);
    }
    TakesNothing([KEEPER, RELEASER], "b", ds);
    RebuiltHolds([KEEPER, RELEASER], Declaration(RELEASING, "b"));
    assert [KEEPER, RELEASER][0] == KEEPER;
  }

  lemma ReleasePasses()
    ensures AllFit(SHARED, {META_NAME}) && AllUnique(SHARED, {META_NAME})
    ensures !AnyContested([KEEPER, RELEASER], {META_NAME}, "b", SHARED, RELEASING)
    ensures Previous([KEEPER, RELEASER], "b") == RELEASER.paths && AllByName(RELEASER.paths)
  {
    MetaNameAt(SHARED);
    MetaNameAt(RELEASING);
    FoundMatches(SHARED, META_NAME);
    ReleaserHeld();
  }

  lemma ReleaserHeld()
    ensures Previous([KEEPER, RELEASER], "b") == RELEASER.paths && AllByName(RELEASER.paths)
  {
    assert [KEEPER, RELEASER][1..] == [RELEASER];
  }

  // ----- one field forced, the others lost -----

  const THREE := Obj(map["metadata" := METADATA, "a" := Num(1), "b" := Num(1), "c" := Num(1)])
  const FORCING := Obj(map["metadata" := METADATA, "a" := Num(2), "b" := Num(2)])
  const A: Path := [Field("a")]
  const B: Path := [Field("b")]
  const C: Path := [Field("c")]
  const LOSER := Entry("o", "Apply", "", {A, B, C})

  lemma ForcingPaths()
    ensures Request(FORCING) && DistinctNames(FORCING) && Stripped(FORCING) == FORCING
    ensures Paths(FORCING, false) == {META_NAME, A, B}
  {
    StripsNothing(FORCING);
    forall p ensures p in Paths(FORCING, false) <==> p in {META_NAME, A, B} { ForcingPath(p); }
  }

  lemma ForcingPath(p: Path)
    ensures p in Paths(FORCING, false) <==> p == META_NAME || p == A || p == B
  {
    PathsIff(FORCING, false, p);
    MetaNameIs(p);
    if p != [] {
      assert p == [p[0]] + p[1..];
      if p[0] == Field("metadata") {
        MetadataPaths(p[1..]);
      } else if p[0] == Field("a") || p[0] == Field("b") {
        assert FORCING.fields[p[0].name] == Num(2) && Paths(Num(2), false) == {[]};
      }
    }
  }

  lemma FieldAt(v: Json, name: string)
    requires v.Obj? && name in v.fields
    ensures Get(v, [Field(name)]) == Some(v.fields[name])
  {
    assert [Field(name)][1..] == [];
  }

  lemma MetaNameAt(v: Json)
    requires v.Obj? && "metadata" in v.fields && v.fields["metadata"] == METADATA
    ensures Get(v, META_NAME) == Some(Str("n")) && UniqueOnRoute(v, META_NAME)
  {
    assert META_NAME[1..] == [Field("name")];
    FieldAt(METADATA, "name");
    assert UniqueOnRoute(METADATA, [Field("name")]);
  }

  lemma ForcingChanges()
    ensures Changed({META_NAME, A, B}, THREE, FORCING) == {A, B}
    ensures AllFit(THREE, {META_NAME, A, B}) && AllUnique(THREE, {META_NAME, A, B})
  {
    MetaNameAt(THREE);
    MetaNameAt(FORCING);
    FieldAt(THREE, "a");
    FieldAt(THREE, "b");
    FieldAt(FORCING, "a");
    FieldAt(FORCING, "b");
    forall d | d in {META_NAME, A, B} ensures ShapesMatch(THREE, d) && UniqueOnRoute(THREE, d) { FoundMatches(THREE, d); }
  }

  lemma ForcedInOrder()
    ensures Taking(THREE, FORCING) == [A, B]
  {
    ForcingPaths();
    ForcingChanges();
    FieldsInOrder();
    TwoInOrder(A, B);
  }

  lemma FieldsInOrder()
    ensures Before(A, B)
  {
    assert KeyOrder.Less("a", "b");
  }

  /** A is visited first: its owner keeps that path alone, and so has no part of B when B's
      turn comes. */
  lemma LoserKeepsFirst()
    ensures Take([LOSER], "m", [A, B]) == [LOSER.(paths := {A})]
  {
    var kept := LOSER.(paths := {A});
    TakeLast([LOSER], "m", [A], B);
    TakeLast([LOSER], "m", [], A);
    assert [] + [A] == [A] && [A] + [B] == [A, B];
    LoserOwnsA();
    YieldsOne(LOSER, A);
    NotCovered(kept);
  }

  lemma LoserOwnsA()
    ensures OwnerOf([LOSER], A, "m") == Some("o")
  {
    assert A in LOSER.paths && Covers([LOSER][0], A);
  }

  lemma YieldsOne(e: Entry, d: Path)
    requires PrefixFree(e.paths) && d in e.paths
    ensures Yield([e], e.manager, d) == [e.(paths := {d})]
  {
    forall q | q in e.paths && q <= d ensures q == d {
    }
    assert (set q | q in e.paths && q <= d) == {d};
  }

  lemma NotCovered(kept: Entry)
    requires kept.paths == {A}
    ensures OwnerOf([kept], B, "m").None?
  {
    assert A[0] != B[0] && [kept][1..] == [];
  }

  lemma LoserPrefixFree()
    ensures PrefixFree(LOSER.paths)
  {
  }

  /** Manager o owns three fields and m forces two of them: o is left with the first of those
      two, which m also owns now, and has lost the third, which nobody touched. */
  method ForceTakesTheRest() returns (stored: Object, r: Result<Object, Failure>)
    ensures stored.value == THREE && Decoded(stored.managed) == [LOSER]
    ensures r.Ok? && Get(r.value.value, C) == Some(Num(1))
    ensures LOSER.(paths := {A}) in Decoded(r.value.managed)
    ensures forall e :: e in Decoded(r.value.managed) && e.manager != "m" ==> e == LOSER.(paths := {A})
  {
    ForcingPaths();
    ForcingChanges();
    LoserPrefixFree();
    NothingHeld();
    stored, r := ApplyTo(THREE, [LOSER], FORCING, "m", true);
    KeepsUntouched(r.value.value);
    ForcedInOrder();
    LoserKeepsFirst();
    OneLeft([LOSER.(paths := {A})], LOSER.(paths := {A}), Declaration(FORCING, "m"));
  }

  lemma OneLeft(left: seq<Entry>, e: Entry, mine: Entry)
    requires left == [e] && Stays(e, mine.manager)
    ensures e in Rebuilt(left, mine) && forall x :: x in Rebuilt(left, mine) && x.manager != mine.manager ==> x == e
  {
    RebuiltHolds(left, mine);
    assert left[0] == e;
  }

  lemma NothingHeld()
    ensures Previous([LOSER], "m") == {} && AllByName({})
  {
    assert [LOSER][1..] == [];
  }

  lemma KeepsUntouched(r: Json)
    requires Merged(THREE, FORCING, {}, r)
    ensures Get(r, C) == Some(Num(1))
  {
    ForcingPaths();
    FieldAt(THREE, "c");
    assert Dropped({}, {META_NAME, A, B}) == {};
    assert Unrelated(THREE, {META_NAME, A, B}, {}, C);
  }

  // ----- two owners of one field -----

  const FORCING_ONE := Obj(map["metadata" := METADATA, "a" := Num(2)])
  const FIRST_OWNER := Entry("o", "Apply", "", {A, B})
  const CO_OWNER := Entry("p", "Apply", "", {A, B})

  lemma ForcingOnePaths()
    ensures Request(FORCING_ONE) && DistinctNames(FORCING_ONE) && Stripped(FORCING_ONE) == FORCING_ONE
    ensures Paths(FORCING_ONE, false) == {META_NAME, A}
  {
    StripsNothing(FORCING_ONE);
    forall p ensures p in Paths(FORCING_ONE, false) <==> p in {META_NAME, A} { ForcingOnePath(p); }
  }

  lemma ForcingOnePath(p: Path)
    ensures p in Paths(FORCING_ONE, false) <==> p == META_NAME || p == A
  {
    PathsIff(FORCING_ONE, false, p);
    MetaNameIs(p);
    if p != [] {
      assert p == [p[0]] + p[1..];
      if p[0] == Field("metadata") {
        MetadataPaths(p[1..]);
      } else if p[0] == Field("a") {
        assert FORCING_ONE.fields[p[0].name] == Num(2) && Paths(Num(2), false) == {[]};
      }
    }
  }

  lemma OneForced()
    ensures Taking(THREE, FORCING_ONE) == [A]
    ensures AllFit(THREE, {META_NAME, A}) && AllUnique(THREE, {META_NAME, A})
  {
    ForcingOnePaths();
    MetaNameAt(THREE);
    MetaNameAt(FORCING_ONE);
    FieldAt(THREE, "a");
    FieldAt(FORCING_ONE, "a");
    forall d | d in {META_NAME, A} ensures ShapesMatch(THREE, d) && UniqueOnRoute(THREE, d) { FoundMatches(THREE, d); }
    assert Changed({META_NAME, A}, THREE, FORCING_ONE) == {A};
    OneInOrder(A);
  }

  lemma OnlyFirstYields()
    ensures Take([FIRST_OWNER, CO_OWNER], "m", [A]) == [FIRST_OWNER.(paths := {A}), CO_OWNER]
  {
    var es := [FIRST_OWNER, CO_OWNER];
    TakeLast(es, "m", [], A);
    assert [] + [A] == [A];
    assert A in FIRST_OWNER.paths && Covers(es[0], A);
    YieldsOne(FIRST_OWNER, A);
    var after := Yield(es, "o", A);
    assert es[0] == FIRST_OWNER && es[1] == CO_OWNER && after[0] == Yield([FIRST_OWNER], "o", A)[0];
  }

  /** Managers o and p own the same two fields and m forces one of them: o keeps that one alone,
      and p loses nothing. */
  method CoOwnerKeepsAll() returns (stored: Object, r: Result<Object, Failure>)
    ensures stored.value == THREE && Decoded(stored.managed) == [FIRST_OWNER, CO_OWNER]
    ensures r.Ok? && FIRST_OWNER.(paths := {A}) in Decoded(r.value.managed) && CO_OWNER in Decoded(r.value.managed)
  {
    ForcingOnePaths();
    OneForced();
    OwnersHoldNothing();
    stored, r := ApplyTo(THREE, [FIRST_OWNER, CO_OWNER], FORCING_ONE, "m", true);
    OnlyFirstYields();
    BothStay([FIRST_OWNER.(paths := {A}), CO_OWNER], Declaration(FORCING_ONE, "m"));
  }

  lemma OwnersHoldNothing()
    ensures Recordable([FIRST_OWNER, CO_OWNER]) && Previous([FIRST_OWNER, CO_OWNER], "m") == {} && AllByName({})
  {
    assert [FIRST_OWNER, CO_OWNER][1..] == [CO_OWNER] && [CO_OWNER][1..] == [];
    assert Previous([CO_OWNER], "m") == {};
    assert PrefixFree(FIRST_OWNER.paths) && PrefixFree(CO_OWNER.paths);
  }

  lemma BothStay(left: seq<Entry>, mine: Entry)
    requires |left| == 2 && Stays(left[0], mine.manager) && Stays(left[1], mine.manager)
    ensures left[0] in Rebuilt(left, mine) && left[1] in Rebuilt(left, mine)
  {
    RebuiltHolds(left, mine);
  }
}
