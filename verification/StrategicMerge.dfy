/** Strategic merge: a patch merged field by field, lists by key, within a work budget. */
module StrategicMerge {
  import opened Wrappers
  import opened JsonPaths
  import opened StableLists
  import opened StrategicOrder

  // ----- what a patch names -----

  predicate Dollar(s: string) { s != "" && s[0] == '$' }

  const DELETE := "$deleteFromPrimitiveList/"
  const ORDER := "$setElementOrder/"

  /** A field some directive of the patch is about. */
  predicate Directed(m: map<string, Json>, f: string) { DELETE + f in m || ORDER + f in m }

  /** The names a `$retainKeys` list holds. */
  predicate Retains(m: map<string, Json>, f: string) {
    "$retainKeys" in m && m["$retainKeys"].Arr? && Str(f) in m["$retainKeys"].items
  }

  /** One field's schema: which pinned definition it has, whether its list is merged, and by which key. */
  datatype Schema = Schema(definition: nat, merge: bool, key: Option<string>)

  /** The pinned schema table: the schema of a field and of a list's items. */
  datatype Table = Table(field: (Schema, string) -> Schema, items: Schema -> Schema)

  predicate PlainKey(s: Schema) { s.key.Some? ==> !Dollar(s.key.value) }

  datatype Problem = Invalid | TooMuchWork

  // ----- what a merged map is -----

  /** The fields of a map: those the original has, or none. */
  function FieldsOf(v: Json): map<string, Json> { if v.Obj? then v.fields else map[] }

  function FieldAt(m: map<string, Json>, f: string): Option<Json> { if f in m then Some(m[f]) else None }

  // ----- what a merged list is -----

  function PatchDirective(item: Json): Option<Json> {
    if item.Obj? && "$patch" in item.fields then Some(item.fields["$patch"]) else None
  }

  predicate Ordinary(item: Json) { PatchDirective(item).None? }

  predicate Deletes(item: Json, id: Json, key: Option<string>) {
    PatchDirective(item) == Some(Str("delete")) && Identity(item, key) == Some(id)
  }

  ghost predicate DeletedIn(patch: seq<Json>, id: Json, key: Option<string>) {
    exists i :: 0 <= i < |patch| && Deletes(patch[i], id, key)
  }

  ghost predicate HasId(vs: seq<Json>, id: Json, key: Option<string>) {
    exists i :: 0 <= i < |vs| && Identity(vs[i], key) == Some(id)
  }

  predicate Replaces(patch: seq<Json>) {
    exists i | 0 <= i < |patch| :: PatchDirective(patch[i]) == Some(Str("replace"))
  }

  function OrdinaryItems(patch: seq<Json>): seq<Json> {
    if patch == [] then []
    else OrdinaryItems(patch[..|patch| - 1]) + (if Ordinary(patch[|patch| - 1]) then [patch[|patch| - 1]] else [])
  }

  /** A keyed list after a patch: distinct keys, exactly the old ones not deleted and the patched
      ones; what was neither deleted nor patched is unchanged; ordered as requested. */
  ghost predicate KeyedListMerged(was: seq<Json>, patch: seq<Json>, key: Option<string>, r: seq<Json>) {
    var ordinary := OrdinaryItems(patch);
    && Identified(r, key) && DistinctItems(r, key)
    && (forall id :: HasId(r, id, key) <==> (HasId(was, id, key) && !DeletedIn(patch, id, key)) || HasId(ordinary, id, key))
    && (forall x :: x in was && Untouched(x, patch, key) ==> x in r)
    && exists merged :: Permutes(merged, r) && r == Reordered(merged, ordinary, was, key)
  }

  ghost predicate Untouched(x: Json, patch: seq<Json>, key: Option<string>) {
    Identity(x, key).Some? && !DeletedIn(patch, Identity(x, key).value, key) && !HasId(OrdinaryItems(patch), Identity(x, key).value, key)
  }

  /** A list of scalars after a patch: their union, each once. */
  ghost predicate ScalarsMerged(was: seq<Json>, patch: seq<Json>, r: seq<Json>) {
    && DistinctItems(r, None) && (forall v :: v in r <==> v in was || v in patch)
    && exists merged :: Permutes(merged, r) && r == Reordered(merged, patch, was, None)
  }

  // ----- new fields are copied -----

  /** What a newly introduced value is stored as: nulls and everything with a directive dropped. */
  function FreshOf(v: Json): Option<Json> {
    match v
    case Obj(m) =>
      if "$patch" in m then None
      else Some(Obj(map k | k in m && !m[k].Null? && FreshOf(m[k]).Some? :: FreshOf(m[k]).value))
    case Arr(items) => Some(Arr(FreshItems(items)))
    case _ => Some(v)
  }

  function FreshItems(items: seq<Json>): seq<Json> {
    if items == [] then []
    else
      var last := FreshOf(items[|items| - 1]);
      FreshItems(items[..|items| - 1]) + (if last.Some? then [last.value] else [])
  }

  /** Nothing left that a new subtree is copied without. */
  predicate Clean(v: Json) {
    match v
    case Obj(m) => "$patch" !in m && forall k :: k in m ==> !m[k].Null? && Clean(m[k])
    case Arr(items) => forall i | 0 <= i < |items| :: Clean(items[i])
    case _ => true
  }

  /** A copied subtree is clean, at every depth. */
  lemma {:induction false} FreshIsClean(v: Json)
    ensures FreshOf(v).Some? ==> Clean(FreshOf(v).value)
    decreases v, 1
  {
    match v
    case Obj(m) =>
      forall k | k in m ensures FreshOf(m[k]).Some? ==> Clean(FreshOf(m[k]).value) && (!m[k].Null? ==> !FreshOf(m[k]).value.Null?) {
        FreshIsClean(m[k]);
      }
    case Arr(items) =>
      FreshItemsClean(v, |items|);
      assert items[..|items|] == items;
    case _ =>
  }

  lemma {:induction false} FreshItemsClean(v: Json, n: nat)
    requires v.Arr? && n <= |v.items|
    ensures forall i :: 0 <= i < |FreshItems(v.items[..n])| ==> Clean(FreshItems(v.items[..n])[i])
    decreases v, 0, n
  {
    if n > 0 {
      assert v.items[..n][..n - 1] == v.items[..n - 1];
      FreshItemsClean(v, n - 1);
      FreshIsClean(v.items[n - 1]);
    } else {
      assert v.items[..0] == [];
    }
  }

  /** A clean value is copied as it is. */
  lemma {:induction false} CleanIsCopied(v: Json)
    requires Clean(v)
    ensures FreshOf(v) == Some(v)
    decreases v, 1
  {
    match v
    case Obj(m) =>
      forall k | k in m ensures FreshOf(m[k]) == Some(m[k]) { CleanIsCopied(m[k]); }
      assert FreshOf(v).value.fields == m;
    case Arr(items) =>
      CleanItemsCopied(v, |items|);
      assert items[..|items|] == items;
    case _ =>
  }

  lemma {:induction false} CleanItemsCopied(v: Json, n: nat)
    requires v.Arr? && n <= |v.items| && Clean(v)
    ensures FreshItems(v.items[..n]) == v.items[..n]
    decreases v, 0, n
  {
    if n > 0 {
      assert v.items[..n][..n - 1] == v.items[..n - 1];
      CleanItemsCopied(v, n - 1);
      CleanIsCopied(v.items[n - 1]);
      assert v.items[..n] == v.items[..n - 1] + [v.items[n - 1]];
    }
  }

  // ----- what a merged value is, at every depth -----

  /** What the patch must have made of a value. */
  ghost predicate Merged(t: Table, original: Json, patch: Json, s: Schema, r: Json)
    decreases patch, 1
  {
    match patch
    case Obj(m) =>
      if "$patch" in m then r == (if m["$patch"] == Str("replace") then Obj(m - {"$patch"}) else Obj(map[]))
      else
        r.Obj? && forall f :: FieldOutcome(t, FieldsOf(original), patch, s, f, FieldAt(r.fields, f))
    case Arr(items) =>
      if !s.merge then r == patch
      else r.Arr? && (match s.key
                      case None => ScalarsMerged(ItemsOf(original), items, r.items)
                      case Some(_) =>
                        if Replaces(items) then r.items == OrdinaryItems(items)
                        else
                          PlainKey(s) && DistinctItems(ItemsOf(original), s.key) ==>
                            && KeyedListMerged(ItemsOf(original), items, s.key, r.items)
                            && (DistinctItems(OrdinaryItems(items), s.key) ==>
                                  forall k | 0 <= k < |items| && Ordinary(items[k]) ::
                                    ItemIs(t, Surviving(ItemsOf(original), items, items[k], s.key), items[k], s, r.items)))
    case _ => r == patch
  }

  /** One field of a merged map: kept, removed, copied or merged, and then its list directives. */
  ghost predicate FieldOutcome(t: Table, was: map<string, Json>, patch: Json, s: Schema, f: string, out: Option<Json>)
    requires patch.Obj?
    decreases patch, 0
  {
    var m := patch.fields;
    exists v: Option<Json> ::
      && out == Directives(t, s, was, m, f, v)
      && (if f !in m || Dollar(f) then v == Unpatched(was, m, f)
          else if m[f].Null? then v == None
          else FieldIs(t, FieldAt(was, f), m[f], t.field(s, f), v))
  }

  /** A field the patch sets: copied when it is new, otherwise merged into what was there. */
  ghost predicate FieldIs(t: Table, was: Option<Json>, value: Json, s: Schema, r: Option<Json>)
    decreases value, 2
  {
    if was.None? || was.value.Null? then r == FreshOf(value)
    else r.Some? && Merged(t, was.value, value, s, r.value)
  }

  /** An item the patch names: appended when its key is new, otherwise merged into the old item. */
  ghost predicate ItemIs(t: Table, was: Option<Json>, item: Json, s: Schema, r: seq<Json>)
    decreases item, 2
  {
    exists x :: x in r && (if was.None? then x == item else Merged(t, was.value, item, t.items(s), x))
  }

  /** The items of a list, or none. */
  function ItemsOf(v: Json): seq<Json> { if v.Arr? then v.items else [] }

  /** The old item of an item's key, if the patch did not delete it. */
  ghost function Surviving(was: seq<Json>, patch: seq<Json>, item: Json, key: Option<string>): Option<Json> {
    var rank := RankIn(item, was, key);
    if rank == 0 || (Identity(item, key).Some? && DeletedIn(patch, Identity(item, key).value, key)) then None
    else Some(was[rank - 1])
  }

  predicate SameField(a: map<string, Json>, b: map<string, Json>, f: string) { FieldAt(a, f) == FieldAt(b, f) }

  /** A field the patch does not set: kept, unless `$retainKeys` does not list it. */
  function Unpatched(was: map<string, Json>, m: map<string, Json>, f: string): Option<Json> {
    if "$retainKeys" in m && !Retains(m, f) then None else FieldAt(was, f)
  }

  /** The items a list of removals leaves. */
  function Excluding(items: seq<Json>, removals: seq<Json>): seq<Json> {
    if items == [] then []
    else Excluding(items[..|items| - 1], removals) + (if items[|items| - 1] in removals then [] else [items[|items| - 1]])
  }

  /** What a `$deleteFromPrimitiveList` directive leaves of a field. */
  function Excluded(m: map<string, Json>, f: string, v: Option<Json>): Option<Json> {
    if DELETE + f in m && v.Some? && v.value.Arr? then Some(Arr(Excluding(v.value.items, ItemsOf(m[DELETE + f])))) else v
  }

  /** The order a `$setElementOrder` directive gives a field. */
  function Ordered(t: Table, s: Schema, was: map<string, Json>, m: map<string, Json>, f: string, v: Option<Json>): Option<Json> {
    if ORDER + f in m && v.Some? && v.value.Arr?
    then Some(Arr(Reordered(v.value.items, ItemsOf(m[ORDER + f]), ItemsOf(FieldAt(was, f).GetOr(Null)), t.field(s, f).key)))
    else v
  }

  /** List directives: deletions first, then order. */
  function Directives(t: Table, s: Schema, was: map<string, Json>, m: map<string, Json>, f: string, v: Option<Json>): Option<Json> {
    Ordered(t, s, was, m, f, Excluded(m, f, v))
  }

  /** What the patch does not mention stays, or is dropped by `$retainKeys`. */
  ghost predicate Untold(was: map<string, Json>, m: map<string, Json>, r: map<string, Json>) {
    forall f :: (f !in m || Dollar(f)) && !Directed(m, f) ==> FieldAt(r, f) == Unpatched(was, m, f)
  }

  /** Null removes, a scalar is taken. */
  ghost predicate Told(m: map<string, Json>, r: map<string, Json>) {
    forall f :: f in m && !Dollar(f) ==> (m[f].Null? ==> f !in r) && (Scalar(m[f]) ==> FieldAt(r, f) == Some(m[f]))
  }

  /** What a map patch means for the fields it sets simply and for those it does not set. */
  lemma PatchedMap(t: Table, original: Json, m: map<string, Json>, s: Schema, r: Json)
    requires "$patch" !in m && Merged(t, original, Obj(m), s, r)
    ensures Untold(FieldsOf(original), m, r.fields) && Told(m, r.fields)
  {
    var was := FieldsOf(original);
    forall f ensures (f !in m || Dollar(f)) && !Directed(m, f) ==> FieldAt(r.fields, f) == Unpatched(was, m, f)
      ensures f in m && !Dollar(f) ==> (m[f].Null? ==> f !in r.fields) && (Scalar(m[f]) ==> FieldAt(r.fields, f) == Some(m[f]))
    {
      assert FieldOutcome(t, was, Obj(m), s, f, FieldAt(r.fields, f));
      if f in m && !Dollar(f) && Scalar(m[f]) {
        var v: Option<Json> :| FieldAt(r.fields, f) == Directives(t, s, was, m, f, v) && FieldIs(t, FieldAt(was, f), m[f], t.field(s, f), v);
        ScalarIsTaken(t, FieldAt(was, f), m[f], t.field(s, f), v);
      }
    }
  }

  lemma ScalarIsTaken(t: Table, was: Option<Json>, value: Json, s: Schema, r: Option<Json>)
    requires Scalar(value) && FieldIs(t, was, value, s, r)
    ensures r == Some(value)
  {
  }

  /** Merging a patch item into an item never changes the item's key. */
  lemma MergeKeepsKey(t: Table, original: Json, item: Json, s: Schema, key: string, r: Json)
    requires Merged(t, original, item, s, r) && Ordinary(item) && Identity(item, Some(key)).Some? && !Dollar(key)
    ensures Identity(r, Some(key)) == Identity(item, Some(key))
  {
    PatchedMap(t, original, item.fields, s, r);
    assert key in item.fields && Scalar(item.fields[key]);
    assert FieldAt(r.fields, key) == Some(item.fields[key]);
  }

  // ----- lists -----

  /** The items with another identity. */
  function Without(vs: seq<Json>, id: Json, key: Option<string>): seq<Json> {
    if vs == [] then []
    else (if Identity(vs[0], key) == Some(id) then [] else [vs[0]]) + Without(vs[1..], id, key)
  }

  lemma {:induction false} WithoutHolds(vs: seq<Json>, id: Json, key: Option<string>)
    ensures forall x :: x in Without(vs, id, key) <==> x in vs && Identity(x, key) != Some(id)
  {
    if vs != [] {
      WithoutHolds(vs[1..], id, key);
      assert vs == [vs[0]] + vs[1..];
    }
  }

  lemma {:induction false} WithoutDistinct(vs: seq<Json>, id: Json, key: Option<string>)
    requires DistinctItems(vs, key)
    ensures DistinctItems(Without(vs, id, key), key)
  {
    if vs != [] {
      var rest := Without(vs[1..], id, key);
      forall i, j | 0 <= i < j < |vs| - 1 ensures !SameItem(vs[1..][i], vs[1..][j], key) {
        assert !SameItem(vs[i + 1], vs[j + 1], key);
      }
      WithoutDistinct(vs[1..], id, key);
      WithoutHolds(vs[1..], id, key);
      forall j | 0 <= j < |rest| ensures !SameItem(vs[0], rest[j], key) {
        assert rest[j] in rest;
        var k :| 0 <= k < |vs| - 1 && vs[1..][k] == rest[j];
        assert !SameItem(vs[0], vs[k + 1], key);
      }
    }
  }

  lemma {:induction false} OrdinaryPrefix(patch: seq<Json>, i: nat)
    requires i < |patch|
    ensures OrdinaryItems(patch[..i + 1]) == OrdinaryItems(patch[..i]) + (if Ordinary(patch[i]) then [patch[i]] else [])
  {
    assert patch[..i + 1][..i] == patch[..i];
  }

  /** Whether one of the first `i` patch items deletes an item. */
  ghost predicate DeletedBy(patch: seq<Json>, i: nat, x: Json, key: Option<string>)
    requires i <= |patch|
  {
    exists j :: 0 <= j < i && Identity(x, key).Some? && Deletes(patch[j], Identity(x, key).value, key)
  }

  lemma DeletedNext(patch: seq<Json>, i: nat, x: Json, key: Option<string>)
    requires i < |patch|
    ensures DeletedBy(patch, i + 1, x, key)
            <==> DeletedBy(patch, i, x, key) || (Identity(x, key).Some? && Deletes(patch[i], Identity(x, key).value, key))
  {
  }

  /** The list while the patch's directives are carried out. */
  ghost predicate Deleting(was: seq<Json>, patch: seq<Json>, i: nat, key: Option<string>, result: seq<Json>)
    requires i <= |patch|
  {
    && (DistinctItems(was, key) ==> DistinctItems(result, key))
    && forall x :: x in result <==> x in was && !DeletedBy(patch, i, x, key)
  }

  lemma DeleteNone(was: seq<Json>, patch: seq<Json>, i: nat, key: Option<string>, result: seq<Json>)
    requires i < |patch| && Deleting(was, patch, i, key, result) && PatchDirective(patch[i]) != Some(Str("delete"))
    ensures Deleting(was, patch, i + 1, key, result)
  {
    forall x { DeletedNext(patch, i, x, key); }
  }

  lemma DeleteOne(was: seq<Json>, patch: seq<Json>, i: nat, key: Option<string>, result: seq<Json>, id: Json)
    requires i < |patch| && Deleting(was, patch, i, key, result) && Deletes(patch[i], id, key)
    ensures Deleting(was, patch, i + 1, key, Without(result, id, key))
  {
    WithoutHolds(result, id, key);
    if DistinctItems(result, key) { WithoutDistinct(result, id, key); }
    forall x { DeletedNext(patch, i, x, key); }
  }

  /** The item of a key, if the list has one. */
  function ItemOf(list: seq<Json>, item: Json, key: Option<string>): Option<Json> {
    var rank := RankIn(item, list, key);
    if rank == 0 then None else Some(list[rank - 1])
  }

  /** The list while ordinary items are merged in. */
  ghost predicate Merging(t: Table, s: Schema, base: seq<Json>, done: seq<Json>, result: seq<Json>) {
    && Identified(result, s.key) && DistinctItems(result, s.key)
    && (forall id :: HasId(result, id, s.key) <==> HasId(base, id, s.key) || HasId(done, id, s.key))
    && (forall x :: x in base && Identity(x, s.key).Some? && !HasId(done, Identity(x, s.key).value, s.key) ==> x in result)
    && (DistinctItems(done, s.key) ==> AllMerged(t, s, base, done, result))
  }

  ghost predicate AllMerged(t: Table, s: Schema, base: seq<Json>, done: seq<Json>, result: seq<Json>) {
    forall k :: 0 <= k < |done| ==> OneMerged(t, s, base, done[k], result)
  }

  /** A merged item stands in the result under its own key. */
  ghost predicate OneMerged(t: Table, s: Schema, base: seq<Json>, item: Json, result: seq<Json>) {
    exists x :: x in result && Identity(x, s.key) == Identity(item, s.key) && Identity(item, s.key).Some?
                && (match ItemOf(base, item, s.key)
                    case None => x == item
                    case Some(b) => Merged(t, b, item, t.items(s), x))
  }

  lemma HasIdAppend(vs: seq<Json>, v: Json, id: Json, key: Option<string>)
    ensures HasId(vs + [v], id, key) <==> HasId(vs, id, key) || Identity(v, key) == Some(id)
  {
    var more := vs + [v];
    assert more[|vs|] == v;
    if HasId(vs, id, key) {
      var i :| 0 <= i < |vs| && Identity(vs[i], key) == Some(id);
      assert Identity(more[i], key) == Some(id);
    }
  }

  lemma DistinctStart(vs: seq<Json>, v: Json, key: Option<string>)
    requires DistinctItems(vs + [v], key)
    ensures DistinctItems(vs, key) && forall k :: 0 <= k < |vs| ==> Identity(vs[k], key) != Identity(v, key)
  {
    var more := vs + [v];
    assert forall k :: 0 <= k < |vs| ==> more[k] == vs[k];
    forall k | 0 <= k < |vs| ensures Identity(vs[k], key) != Identity(v, key) { assert !SameItem(more[k], more[|vs|], key); }
    forall i, j | 0 <= i < j < |vs| ensures !SameItem(vs[i], vs[j], key) { assert !SameItem(more[i], more[j], key); }
  }

  /** A new key is appended. */
  lemma MergePushed(t: Table, s: Schema, base: seq<Json>, done: seq<Json>, result: seq<Json>, item: Json)
    requires Merging(t, s, base, done, result) && Identity(item, s.key).Some? && !HasId(result, Identity(item, s.key).value, s.key)
    ensures Merging(t, s, base, done + [item], result + [item])
  {
    var key := s.key;
    forall id ensures HasId(result + [item], id, key) <==> HasId(result, id, key) || Identity(item, key) == Some(id) {
      HasIdAppend(result, item, id, key);
    }
    forall id ensures HasId(done + [item], id, key) <==> HasId(done, id, key) || Identity(item, key) == Some(id) {
      HasIdAppend(done, item, id, key);
    }
    forall i | 0 <= i < |result| ensures !SameItem(result[i], item, key) {
      assert Identity(result[i], key).Some?;
    }
    if DistinctItems(done + [item], key) {
      DistinctStart(done, item, key);
      NotInBase(base, item, key);
      forall k | 0 <= k < |done| + 1 ensures OneMerged(t, s, base, (done + [item])[k], result + [item]) {
        if k < |done| { StillMerged(t, s, base, done[k], result, result + [item]); } else { assert item in result + [item]; }
      }
    }
  }

  lemma NotInBase(base: seq<Json>, item: Json, key: Option<string>)
    requires Identity(item, key).Some? && !HasId(base, Identity(item, key).value, key)
    ensures ItemOf(base, item, key).None?
  {
  }

  /** What is merged stays merged while the items of other keys change. */
  lemma StillMerged(t: Table, s: Schema, base: seq<Json>, item: Json, result: seq<Json>, after: seq<Json>)
    requires OneMerged(t, s, base, item, result)
    requires forall x :: x in result && Identity(x, s.key) == Identity(item, s.key) ==> x in after
    ensures OneMerged(t, s, base, item, after)
  {
  }

  lemma HasIdUpdate(vs: seq<Json>, i: nat, w: Json, id: Json, key: Option<string>)
    requires i < |vs| && Identity(w, key) == Identity(vs[i], key)
    ensures HasId(vs[i := w], id, key) <==> HasId(vs, id, key)
  {
    if HasId(vs, id, key) {
      var j :| 0 <= j < |vs| && Identity(vs[j], key) == Some(id);
      assert Identity(vs[i := w][j], key) == Some(id);
    }
    if HasId(vs[i := w], id, key) {
      var j :| 0 <= j < |vs| && Identity(vs[i := w][j], key) == Some(id);
      assert Identity(vs[j], key) == Some(id);
    }
  }

  lemma OthersInUpdate(vs: seq<Json>, i: nat, w: Json, x: Json)
    requires i < |vs| && x in vs && x != vs[i]
    ensures x in vs[i := w]
  {
    var k :| 0 <= k < |vs| && vs[k] == x;
    assert vs[i := w][k] == x;
  }

  /** An item of a known key is merged in place, keeping its key. */
  lemma MergeUpdated(t: Table, s: Schema, base: seq<Json>, done: seq<Json>, result: seq<Json>, i: nat, w: Json, item: Json)
    requires Merging(t, s, base, done, result) && i < |result|
    requires Identity(item, s.key).Some? && Identity(result[i], s.key) == Identity(item, s.key) == Identity(w, s.key)
    requires Merged(t, result[i], item, t.items(s), w)
    ensures Merging(t, s, base, done + [item], result[i := w])
  {
    var key, after := s.key, result[i := w];
    forall j ensures 0 <= j < |result| ==> Identity(after[j], key) == Identity(result[j], key) {
    }
    forall id ensures HasId(after, id, key) <==> HasId(result, id, key) { HasIdUpdate(result, i, w, id, key); }
    forall id ensures HasId(done + [item], id, key) <==> HasId(done, id, key) || Identity(item, key) == Some(id) {
      HasIdAppend(done, item, id, key);
    }
    forall x | x in result && Identity(x, key) != Identity(item, key) ensures x in after { OthersInUpdate(result, i, w, x); }
    if DistinctItems(done + [item], key) { UpdatedAllMerged(t, s, base, done, result, i, w, item); }
  }

  lemma UpdatedAllMerged(t: Table, s: Schema, base: seq<Json>, done: seq<Json>, result: seq<Json>, i: nat, w: Json, item: Json)
    requires Merging(t, s, base, done, result) && i < |result| && DistinctItems(done + [item], s.key)
    requires Identity(item, s.key).Some? && Identity(result[i], s.key) == Identity(item, s.key) == Identity(w, s.key)
    requires Merged(t, result[i], item, t.items(s), w)
    ensures AllMerged(t, s, base, done + [item], result[i := w])
  {
    var after := result[i := w];
    DistinctStart(done, item, s.key);
    forall k | 0 <= k < |done| + 1 ensures OneMerged(t, s, base, (done + [item])[k], after) {
      if k < |done| {
        forall x | x in result && Identity(x, s.key) == Identity(done[k], s.key) ensures x in after {
          OthersInUpdate(result, i, w, x);
        }
        StillMerged(t, s, base, done[k], result, after);
      } else {
        FirstMerge(t, s, base, done, result, i, item);
        assert after[i] == w && w in after;
      }
    }
  }

  lemma OneIndex(vs: seq<Json>, key: Option<string>, i: nat, j: nat)
    requires DistinctItems(vs, key) && i < |vs| && j < |vs| && SameItem(vs[i], vs[j], key)
    ensures i == j
  {
  }

  /** The first patch of a key merges into the old item itself. */
  lemma FirstMerge(t: Table, s: Schema, base: seq<Json>, done: seq<Json>, result: seq<Json>, i: nat, item: Json)
    requires Merging(t, s, base, done, result) && i < |result| && Identity(item, s.key).Some? && Identity(result[i], s.key) == Identity(item, s.key)
    requires forall k :: 0 <= k < |done| ==> Identity(done[k], s.key) != Identity(item, s.key)
    ensures ItemOf(base, item, s.key) == Some(result[i])
  {
    var id := Identity(item, s.key).value;
    assert HasId(result, id, s.key) && !HasId(done, id, s.key);
    assert HasId(base, id, s.key);
    var b := ItemOf(base, item, s.key).value;
    assert b in base && b in result;
    var j :| 0 <= j < |result| && result[j] == b;
    OneIndex(result, s.key, i, j);
  }

  lemma MergingStarts(t: Table, s: Schema, base: seq<Json>)
    requires Identified(base, s.key) && DistinctItems(base, s.key)
    ensures Merging(t, s, base, [], base)
  {
  }

  /** What the two loops and the final ordering amount to: the keys. */
  lemma ListIsMerged(t: Table, s: Schema, was: seq<Json>, patch: seq<Json>, base: seq<Json>, merged: seq<Json>, r: seq<Json>)
    requires Identified(was, s.key) && DistinctItems(was, s.key) && Deleting(was, patch, |patch|, s.key, base)
    requires Merging(t, s, base, OrdinaryItems(patch), merged) && r == Reordered(merged, OrdinaryItems(patch), was, s.key)
    ensures KeyedListMerged(was, patch, s.key, r)
  {
    var ordinary, key := OrdinaryItems(patch), s.key;
    ReorderPermutes(merged, ordinary, was, key);
    DistinctPermutes(merged, r, key);
    SameMembers(merged, r);
    IdsOfMembers(merged, r, key);
    forall id ensures HasId(base, id, key) <==> HasId(was, id, key) && !DeletedIn(patch, id, key) {
      BaseIds(was, patch, key, base, id);
    }
    forall x | x in was && Untouched(x, patch, key) ensures x in r {
      assert !DeletedBy(patch, |patch|, x, key);
      assert x in base && x in merged;
    }
    assert Permutes(merged, r);
  }

  /** ... and the items. */
  lemma ItemsAreMerged(t: Table, s: Schema, was: seq<Json>, patch: seq<Json>, base: seq<Json>, merged: seq<Json>, r: seq<Json>, k: nat)
    requires Identified(was, s.key) && DistinctItems(was, s.key) && Deleting(was, patch, |patch|, s.key, base)
    requires Merging(t, s, base, OrdinaryItems(patch), merged) && r == Reordered(merged, OrdinaryItems(patch), was, s.key)
    requires DistinctItems(OrdinaryItems(patch), s.key) && k < |patch| && Ordinary(patch[k])
    ensures ItemIs(t, Surviving(was, patch, patch[k], s.key), patch[k], s, r)
  {
    OrdinaryHolds(patch, k);
    var i :| 0 <= i < |OrdinaryItems(patch)| && OrdinaryItems(patch)[i] == patch[k];
    assert OneMerged(t, s, base, patch[k], merged);
    SurvivingIsBase(was, patch, patch[k], s.key, base);
    ReorderPermutes(merged, OrdinaryItems(patch), was, s.key);
    SameMembers(merged, r);
  }

  lemma {:induction false} OrdinaryHolds(patch: seq<Json>, k: nat)
    requires k < |patch| && Ordinary(patch[k])
    ensures patch[k] in OrdinaryItems(patch)
  {
    if k < |patch| - 1 { OrdinaryHolds(patch[..|patch| - 1], k); }
  }

  /** What the deletions leave under a key is the old item of that key. */
  lemma SurvivingIsBase(was: seq<Json>, patch: seq<Json>, item: Json, key: Option<string>, base: seq<Json>)
    requires Deleting(was, patch, |patch|, key, base) && DistinctItems(was, key) && Identity(item, key).Some?
    ensures Surviving(was, patch, item, key) == ItemOf(base, item, key)
  {
    var id := Identity(item, key).value;
    BaseIds(was, patch, key, base, id);
    var rank := RankIn(item, base, key);
    if rank > 0 {
      var b := base[rank - 1];
      assert b in base && b in was && Identity(b, key) == Some(id);
      var j :| 0 <= j < |was| && was[j] == b;
      var m := RankIn(item, was, key);
      assert m > 0;
      OneIndex(was, key, m - 1, j);
      assert HasId(base, id, key);
    } else {
      assert !HasId(base, id, key);
      var m := RankIn(item, was, key);
      if m > 0 { assert HasId(was, id, key); }
    }
  }

  lemma IdsOfMembers(a: seq<Json>, b: seq<Json>, key: Option<string>)
    requires forall v :: v in a <==> v in b
    ensures forall id :: HasId(a, id, key) <==> HasId(b, id, key)
    ensures Identified(a, key) ==> Identified(b, key)
  {
    forall id ensures HasId(a, id, key) <==> HasId(b, id, key) {
      if HasId(a, id, key) {
        var i :| 0 <= i < |a| && Identity(a[i], key) == Some(id);
        assert a[i] in b;
        var j :| 0 <= j < |b| && b[j] == a[i];
      }
      if HasId(b, id, key) {
        var i :| 0 <= i < |b| && Identity(b[i], key) == Some(id);
        assert b[i] in a;
        var j :| 0 <= j < |a| && a[j] == b[i];
      }
    }
    forall i | 0 <= i < |b| && Identified(a, key) ensures Identity(b[i], key).Some? {
      assert b[i] in a;
      var j :| 0 <= j < |a| && a[j] == b[i];
    }
  }

  lemma BaseIds(was: seq<Json>, patch: seq<Json>, key: Option<string>, base: seq<Json>, id: Json)
    requires Deleting(was, patch, |patch|, key, base)
    ensures HasId(base, id, key) <==> HasId(was, id, key) && !DeletedIn(patch, id, key)
  {
    if HasId(base, id, key) {
      var i :| 0 <= i < |base| && Identity(base[i], key) == Some(id);
      assert base[i] in base && base[i] in was && !DeletedBy(patch, |patch|, base[i], key);
      var j :| 0 <= j < |was| && was[j] == base[i];
    }
    if HasId(was, id, key) && !DeletedIn(patch, id, key) {
      var i :| 0 <= i < |was| && Identity(was[i], key) == Some(id);
      assert was[i] in was && !DeletedBy(patch, |patch|, was[i], key);
      assert was[i] in base;
      var j :| 0 <= j < |base| && base[j] == was[i];
    }
  }

  // ----- lists of scalars -----

  /** The list while new scalars are appended. */
  ghost predicate Appending(was: seq<Json>, done: seq<Json>, result: seq<Json>) {
    forall v :: v in result <==> v in was || v in done
  }

  ghost predicate Unique(vs: seq<Json>, unique: seq<Json>) {
    && (forall i, j :: 0 <= i < j < |unique| ==> unique[i] != unique[j])
    && forall v :: v in unique <==> v in vs
  }

  method Dedupe(vs: seq<Json>) returns (unique: seq<Json>)
    ensures Unique(vs, unique)
  {
    unique := [];
    for i := 0 to |vs|
      invariant Unique(vs[..i], unique)
    {
      assert vs[..i + 1] == vs[..i] + [vs[i]];
      if vs[i] !in unique { unique := unique + [vs[i]]; }
    }
    assert vs[..|vs|] == vs;
  }

  lemma ScalarsAreMerged(was: seq<Json>, patch: seq<Json>, result: seq<Json>, unique: seq<Json>, r: seq<Json>)
    requires Identified(was, None) && Identified(patch, None)
    requires Appending(was, patch, result) && Unique(result, unique) && r == Reordered(unique, patch, was, None)
    ensures ScalarsMerged(was, patch, r)
  {
    ReorderPermutes(unique, patch, was, None);
    SameMembers(unique, r);
    forall v | v in unique ensures Identity(v, None) == Some(v) {
      if v in was { var i :| 0 <= i < |was| && was[i] == v; } else { var i :| 0 <= i < |patch| && patch[i] == v; }
    }
    assert DistinctItems(unique, None) by {
      forall i, j | 0 <= i < j < |unique| ensures !SameItem(unique[i], unique[j], None) {
        assert unique[i] in unique && unique[j] in unique;
      }
    }
    DistinctPermutes(unique, r, None);
    assert Permutes(unique, r);
  }

  // ----- maps -----

  /** The map while the ordinary fields of the patch are merged. */
  ghost predicate FieldsDone(t: Table, s: Schema, base: map<string, Json>, m: map<string, Json>, done: set<string>, result: map<string, Json>) {
    forall f :: if f in done then f in m && FieldSet(t, s, base, m, result, f) else SameField(base, result, f)
  }

  /** One ordinary field after the patch. */
  ghost predicate FieldSet(t: Table, s: Schema, base: map<string, Json>, m: map<string, Json>, result: map<string, Json>, f: string)
    requires f in m
  {
    if m[f].Null? then f !in result else FieldIs(t, FieldAt(base, f), m[f], t.field(s, f), FieldAt(result, f))
  }

  lemma FieldDone(t: Table, s: Schema, base: map<string, Json>, m: map<string, Json>, done: set<string>, result: map<string, Json>,
                  f: string, after: map<string, Json>)
    requires FieldsDone(t, s, base, m, done, result) && f in m && f !in done
    requires after == result - {f} || (f in after && after == result[f := after[f]])
    requires FieldSet(t, s, base, m, after, f)
    ensures FieldsDone(t, s, base, m, done + {f}, after)
  {
    forall g | g != f ensures SameField(result, after, g) {
    }
    forall g ensures if g in done + {f} then g in m && FieldSet(t, s, base, m, after, g) else SameField(base, after, g) {
      if g != f { assert if g in done then g in m && FieldSet(t, s, base, m, result, g) else SameField(base, result, g); }
    }
  }

  function OrdinaryFields(m: map<string, Json>): set<string> {
    set f | f in m && !Dollar(f)
  }

  /** Only retained fields are left, and every field the patch sets is retained. */
  ghost predicate Retained(m: map<string, Json>, was: map<string, Json>, base: map<string, Json>) {
    && (forall f :: f in base <==> f in was && Retains(m, f))
    && (forall f :: f in base ==> base[f] == was[f])
    && (forall f :: f in m && !Dollar(f) && !m[f].Null? ==> Retains(m, f))
  }

  /** The map while deletions from scalar lists are carried out. */
  ghost predicate Trimming(m: map<string, Json>, pre: map<string, Json>, done: set<string>, result: map<string, Json>) {
    forall f :: FieldAt(result, f) == if DELETE + f in done then Excluded(m, f, FieldAt(pre, f)) else FieldAt(pre, f)
  }

  /** The map while lists are put in the requested order. */
  ghost predicate Ordering(t: Table, s: Schema, was: map<string, Json>, m: map<string, Json>, pre: map<string, Json>,
                           done: set<string>, result: map<string, Json>) {
    forall f :: FieldAt(result, f) == if ORDER + f in done then Ordered(t, s, was, m, f, FieldAt(pre, f)) else FieldAt(pre, f)
  }

  lemma DirectiveName(prefix: string, f: string, directive: string)
    requires prefix <= directive
    ensures prefix + f == directive <==> f == directive[|prefix|..]
  {
    assert prefix + directive[|prefix|..] == directive;
    if prefix + f == directive { assert directive[|prefix|..] == f; }
  }

  lemma TrimOne(m: map<string, Json>, pre: map<string, Json>, done: set<string>, result: map<string, Json>, directive: string,
                after: map<string, Json>)
    requires Trimming(m, pre, done, result) && DELETE <= directive && directive !in done
    requires var f := directive[|DELETE|..];
             FieldAt(after, f) == Excluded(m, f, FieldAt(result, f)) && forall g :: g != f ==> SameField(result, after, g)
    ensures Trimming(m, pre, done + {directive}, after)
  {
    forall g ensures FieldAt(after, g) == if DELETE + g in done + {directive} then Excluded(m, g, FieldAt(pre, g)) else FieldAt(pre, g) {
      DirectiveName(DELETE, g, directive);
      assert FieldAt(result, g) == if DELETE + g in done then Excluded(m, g, FieldAt(pre, g)) else FieldAt(pre, g);
      if g != directive[|DELETE|..] { assert SameField(result, after, g); }
    }
  }

  lemma OrderOne(t: Table, s: Schema, was: map<string, Json>, m: map<string, Json>, pre: map<string, Json>, done: set<string>,
                 result: map<string, Json>, directive: string, after: map<string, Json>)
    requires Ordering(t, s, was, m, pre, done, result) && ORDER <= directive && directive !in done
    requires var f := directive[|ORDER|..];
             FieldAt(after, f) == Ordered(t, s, was, m, f, FieldAt(result, f)) && forall g :: g != f ==> SameField(result, after, g)
    ensures Ordering(t, s, was, m, pre, done + {directive}, after)
  {
    forall g ensures FieldAt(after, g) == if ORDER + g in done + {directive} then Ordered(t, s, was, m, g, FieldAt(pre, g)) else FieldAt(pre, g) {
      DirectiveName(ORDER, g, directive);
      assert FieldAt(result, g) == if ORDER + g in done then Ordered(t, s, was, m, g, FieldAt(pre, g)) else FieldAt(pre, g);
      if g != directive[|ORDER|..] { assert SameField(result, after, g); }
    }
  }

  /** The three passes over a map patch make of every field what the patch says. */
  lemma PassesMerge(t: Table, s: Schema, original: Json, m: map<string, Json>, base: map<string, Json>, set1: map<string, Json>,
                    trimmed: map<string, Json>, r: map<string, Json>, deletes: set<string>, orders: set<string>)
    requires "$patch" !in m && FieldsDone(t, s, base, m, OrdinaryFields(m), set1)
    requires if "$retainKeys" in m then Retained(m, FieldsOf(original), base) else base == FieldsOf(original)
    requires Trimming(m, set1, deletes, trimmed) && (forall f :: DELETE + f in deletes <==> DELETE + f in m)
    requires Ordering(t, s, FieldsOf(original), m, trimmed, orders, r) && (forall f :: ORDER + f in orders <==> ORDER + f in m)
    ensures Merged(t, original, Obj(m), s, Obj(r))
  {
    var was := FieldsOf(original);
    forall f ensures FieldOutcome(t, was, Obj(m), s, f, FieldAt(r, f)) {
      assert FieldAt(trimmed, f) == Excluded(m, f, FieldAt(set1, f));
      assert FieldAt(r, f) == Ordered(t, s, was, m, f, FieldAt(trimmed, f));
      assert if f in OrdinaryFields(m) then f in m && FieldSet(t, s, base, m, set1, f) else SameField(base, set1, f);
      OnePass(t, s, was, m, base, f, FieldAt(set1, f), FieldAt(r, f));
    }
  }

  lemma OnePass(t: Table, s: Schema, was: map<string, Json>, m: map<string, Json>, base: map<string, Json>, f: string,
                v: Option<Json>, out: Option<Json>)
    requires if "$retainKeys" in m then Retained(m, was, base) else base == was
    requires out == Directives(t, s, was, m, f, v)
    requires if f in OrdinaryFields(m) then (if m[f].Null? then v == None else FieldIs(t, FieldAt(base, f), m[f], t.field(s, f), v))
             else v == FieldAt(base, f)
    ensures FieldOutcome(t, was, Obj(m), s, f, out)
  {
    if f in m && !Dollar(f) {
      assert !m[f].Null? ==> FieldAt(was, f) == FieldAt(base, f);
    } else {
      assert FieldAt(base, f) == Unpatched(was, m, f);
    }
  }
}
