/** Running a strategic patch: one recursive walk that spends a shared work budget. */
module StrategicPatch {
  import opened Wrappers
  import opened JsonPaths
  import opened StableLists
  import opened StrategicOrder
  import opened StrategicMerge

  const MAX_DEPTH := 64
  const MAX_WORK := 1_000_000

  /** Whether the patched items come in the requested order. */
  predicate Follows(values: seq<Json>, order: seq<Json>, key: Option<string>) {
    if values == [] then true
    else if !Ordinary(values[0]) then Follows(values[1..], order, key)
    else Identity(values[0], key).Some? && RankIn(values[0], order, key) > 0
         && Follows(values[1..], order[RankIn(values[0], order, key)..], key)
  }

  /** The first pass over a list patch: deletions done, ordinary items and `replace` noted. */
  ghost predicate Directing(was: seq<Json>, patch: seq<Json>, i: nat, key: Option<string>, result: seq<Json>, ordinary: seq<Json>, replace: bool)
    requires i <= |patch|
  {
    && Deleting(was, patch, i, key, result)
    && ordinary == OrdinaryItems(patch[..i]) && replace == Replaces(patch[..i]) && Identified(ordinary, key)
    && (key.None? ==> result == was && ordinary == patch[..i] && !replace)
  }

  lemma ReplacesNext(patch: seq<Json>, i: nat)
    requires i < |patch|
    ensures patch[..i + 1] == patch[..i] + [patch[i]]
    ensures Replaces(patch[..i + 1]) <==> Replaces(patch[..i]) || PatchDirective(patch[i]) == Some(Str("replace"))
  {
    assert forall j :: 0 <= j < i ==> patch[..i + 1][j] == patch[..i][j];
    assert patch[..i + 1][i] == patch[i];
  }

  class Patcher {
    const table: Table
    var budget: nat

    constructor (table: Table)
      ensures this.table == table && budget == MAX_WORK
    {
      this.table, budget := table, MAX_WORK;
    }

    method Spend(amount: nat) returns (ok: bool)
      modifies this
      ensures ok <==> amount <= old(budget)
      ensures budget == if ok then old(budget) - amount else old(budget)
    {
      ok := amount <= budget;
      if ok { budget := budget - amount; }
    }

    /** Split, sort and interleave. */
    method Reorder(values: seq<Json>, order: seq<Json>, was: seq<Json>, key: Option<string>) returns (r: Result<seq<Json>, Problem>)
      modifies this
      ensures r.Ok? <==> ((|values| + |order|) * (|was| + |order| + 1) <= old(budget)
                          && Identified(values, key) && Identified(order, key) && Identified(was, key))
      ensures r.Ok? ==> r.value == Reordered(values, order, was, key)
      ensures budget <= old(budget)
    {
      var ok := Spend((|values| + |order|) * (|was| + |order| + 1));
      if !ok { return Err(TooMuchWork); }
      if !Identified(values, key) || !Identified(order, key) || !Identified(was, key) { return Err(Invalid); }
      var requested, untouched := Partition(values, Requested(order, key));
      var result := MergeBy(SortByRank(untouched, Rank(was, key)), SortByRank(requested, Rank(order, key)), Before(was, key));
      return Ok(result);
    }

    /** Copy a newly introduced value. */
    method Fresh(v: Json, depth: nat) returns (r: Result<Option<Json>, Problem>)
      modifies this
      ensures r.Ok? ==> r.value == FreshOf(v)
      ensures budget <= old(budget)
      decreases v, 1
    {
      var ok := Spend(1);
      if !ok { return Err(TooMuchWork); }
      if depth > MAX_DEPTH { return Err(Invalid); }
      match v
      case Obj(m) =>
        if "$patch" in m { return Ok(None); }
        var fields := FreshFields(v, depth);
        if fields.Err? { return Err(fields.error); }
        return Ok(Some(Obj(fields.value)));
      case Arr(list) =>
        var copied := FreshList(v, depth);
        if copied.Err? { return Err(copied.error); }
        return Ok(Some(Arr(copied.value)));
      case _ => return Ok(Some(v));
    }

    method FreshFields(v: Json, depth: nat) returns (r: Result<map<string, Json>, Problem>)
      requires v.Obj? && "$patch" !in v.fields
      modifies this
      ensures r.Ok? ==> FreshOf(v) == Some(Obj(r.value))
      ensures budget <= old(budget)
      decreases v, 0
    {
      var m := v.fields;
      var result: map<string, Json> := map[];
      var keys := m.Keys;
      while keys != {}
        invariant keys <= m.Keys && budget <= old(budget)
        invariant result == map k | k in m && k !in keys && !m[k].Null? && FreshOf(m[k]).Some? :: FreshOf(m[k]).value
        decreases |keys|
      {
        var k :| k in keys;
        if !m[k].Null? {
          var value := Fresh(m[k], depth + 1);
          if value.Err? { return Err(value.error); }
          if value.value.Some? { result := result[k := value.value.value]; }
        }
        keys := keys - {k};
      }
      assert result == map k | k in m && !m[k].Null? && FreshOf(m[k]).Some? :: FreshOf(m[k]).value;
      return Ok(result);
    }

    method FreshList(v: Json, depth: nat) returns (r: Result<seq<Json>, Problem>)
      requires v.Arr?
      modifies this
      ensures r.Ok? ==> FreshOf(v) == Some(Arr(r.value))
      ensures budget <= old(budget)
      decreases v, 0
    {
      var list := v.items;
      var result := [];
      for i := 0 to |list|
        invariant result == FreshItems(list[..i]) && budget <= old(budget)
      {
        assert list[..i + 1][..i] == list[..i];
        var value := Fresh(list[i], depth + 1);
        if value.Err? { return Err(value.error); }
        if value.value.Some? { result := result + [value.value.value]; }
      }
      assert list[..|list|] == list;
      return Ok(result);
    }

    /** Merge a patch into a value. */
    method Merge(original: Json, patch: Json, s: Schema, depth: nat) returns (r: Result<Json, Problem>)
      requires depth <= MAX_DEPTH + 1
      modifies this
      ensures r.Ok? ==> Merged(table, original, patch, s, r.value)
      ensures budget <= old(budget)
      decreases MAX_DEPTH + 1 - depth, 4
    {
      var ok := Spend(1);
      if !ok { return Err(TooMuchWork); }
      if depth > MAX_DEPTH { return Err(Invalid); }
      if patch.Obj? {
        r := MergeMap(original, patch.fields, s, depth);
      } else if patch.Arr? && s.merge {
        var list := MergeList(original, patch, s, depth);
        if list.Err? { return Err(list.error); }
        return Ok(Arr(list.value));
      } else {
        return Ok(patch);
      }
    }

    method MergeMap(original: Json, m: map<string, Json>, s: Schema, depth: nat) returns (r: Result<Json, Problem>)
      requires depth <= MAX_DEPTH
      modifies this
      ensures r.Ok? ==> Merged(table, original, Obj(m), s, r.value)
      ensures budget <= old(budget)
      decreases MAX_DEPTH + 1 - depth, 3
    {
      if "$patch" in m {
        if m["$patch"] == Str("replace") { return Ok(Obj(m - {"$patch"})); }
        if m["$patch"] == Str("delete") { return Ok(Obj(map[])); }
        return Err(Invalid);
      }
      var base := Retain(FieldsOf(original), m);
      if base.Err? { return Err(base.error); }
      var fields := MergeFields(base.value, m, s, depth);
      if fields.Err? { return Err(fields.error); }
      var trimmed := DeletePrimitives(fields.value, m, s);
      if trimmed.Err? { return Err(trimmed.error); }
      var ordered := OrderElements(FieldsOf(original), trimmed.value, m, s);
      if ordered.Err? { return Err(ordered.error); }
      AllDirectives(m);
      PassesMerge(table, s, original, m, base.value, fields.value, trimmed.value, ordered.value, Starting(m, DELETE), Starting(m, ORDER));
      return Ok(Obj(ordered.value));
    }

    /** `$retainKeys` keeps only the fields it lists, and must list every field the patch sets. */
    method Retain(was: map<string, Json>, m: map<string, Json>) returns (r: Result<map<string, Json>, Problem>)
      modifies this
      ensures r.Ok? ==> if "$retainKeys" in m then Retained(m, was, r.value) else r.value == was
      ensures budget <= old(budget)
    {
      if "$retainKeys" !in m { return Ok(was); }
      var retain := m["$retainKeys"];
      if !retain.Arr? { return Err(Invalid); }
      var ok := Spend(|retain.items| * (|was| + |m|));
      if !ok { return Err(TooMuchWork); }
      if exists i | 0 <= i < |retain.items| :: !retain.items[i].Str? { return Err(Invalid); }
      if exists f | f in m :: !Dollar(f) && !m[f].Null? && Str(f) !in retain.items { return Err(Invalid); }
      return Ok(map f | f in was && Str(f) in retain.items :: was[f]);
    }

    /** The ordinary fields, in any order. */
    method MergeFields(base: map<string, Json>, m: map<string, Json>, s: Schema, depth: nat) returns (r: Result<map<string, Json>, Problem>)
      requires depth <= MAX_DEPTH
      modifies this
      ensures r.Ok? ==> FieldsDone(table, s, base, m, OrdinaryFields(m), r.value)
      ensures budget <= old(budget)
      decreases MAX_DEPTH + 1 - depth, 2
    {
      var result := base;
      var keys := OrdinaryFields(m);
      ghost var done: set<string> := {};
      while keys != {}
        invariant done + keys == OrdinaryFields(m) && done !! keys
        invariant FieldsDone(table, s, base, m, done, result) && budget <= old(budget)
        decreases |keys|
      {
        var f :| f in keys;
        var next := MergeField(base, result, m, f, s, depth, done);
        if next.Err? { return Err(next.error); }
        result, keys, done := next.value, keys - {f}, done + {f};
      }
      assert done == OrdinaryFields(m);
      return Ok(result);
    }

    method MergeField(ghost base: map<string, Json>, result: map<string, Json>, m: map<string, Json>, f: string, s: Schema, depth: nat,
                      ghost done: set<string>)
        returns (r: Result<map<string, Json>, Problem>)
      requires depth <= MAX_DEPTH && f in m && f !in done && FieldsDone(table, s, base, m, done, result)
      modifies this
      ensures r.Ok? ==> FieldsDone(table, s, base, m, done + {f}, r.value)
      ensures budget <= old(budget)
      decreases MAX_DEPTH + 1 - depth, 1
    {
      var value := m[f];
      var rest := result - {f};
      if value.Null? {
        FieldDone(table, s, base, m, done, result, f, rest);
        return Ok(rest);
      }
      if f !in result || result[f].Null? {
        var copied := Fresh(value, depth + 1);
        if copied.Err? { return Err(copied.error); }
        var after := if copied.value.Some? then result[f := copied.value.value] else rest;
        FieldDone(table, s, base, m, done, result, f, after);
        return Ok(after);
      }
      var merged := Merge(result[f], value, table.field(s, f), depth + 1);
      if merged.Err? { return Err(merged.error); }
      FieldDone(table, s, base, m, done, result, f, result[f := merged.value]);
      return Ok(result[f := merged.value]);
    }

    /** `$deleteFromPrimitiveList` directives; any other unknown directive is refused. */
    method DeletePrimitives(fields: map<string, Json>, m: map<string, Json>, s: Schema) returns (r: Result<map<string, Json>, Problem>)
      modifies this
      ensures r.Ok? ==> Trimming(m, fields, Starting(m, DELETE), r.value)
      ensures budget <= old(budget)
    {
      var result := fields;
      var keys := set f | f in m && Dollar(f);
      ghost var done: set<string> := {};
      while keys != {}
        invariant keys <= m.Keys && budget <= old(budget) && done !! keys
        invariant Trimming(m, fields, done, result)
        invariant forall d :: d in Starting(m, DELETE) <==> d in done || (d in keys && DELETE <= d)
        decreases |keys|
      {
        var directive :| directive in keys;
        if DELETE <= directive {
          var next := DeletePrimitive(fields, done, result, m, directive, s);
          if next.Err? { return Err(next.error); }
          result, done := next.value, done + {directive};
        } else if directive != "$retainKeys" && !(ORDER <= directive) {
          return Err(Invalid);
        }
        keys := keys - {directive};
      }
      assert done == Starting(m, DELETE);
      return Ok(result);
    }

    method DeletePrimitive(ghost fields: map<string, Json>, ghost done: set<string>, result: map<string, Json>, m: map<string, Json>,
                           directive: string, s: Schema)
        returns (r: Result<map<string, Json>, Problem>)
      requires directive in m && DELETE <= directive && directive !in done && Trimming(m, fields, done, result)
      modifies this
      ensures r.Ok? ==> Trimming(m, fields, done + {directive}, r.value)
      ensures budget <= old(budget)
    {
      var name := directive[|DELETE|..];
      assert DELETE + name == directive;
      var child := table.field(s, name);
      if !child.merge || child.key.Some? || !m[directive].Arr? { return Err(Invalid); }
      var removals := m[directive].items;
      if !Identified(removals, None) { return Err(Invalid); }
      if name !in result {
        TrimOne(m, fields, done, result, directive, result);
        return Ok(result);
      }
      if !result[name].Arr? { return Err(Invalid); }
      var ok := Spend(|result[name].items| * |removals|);
      if !ok { return Err(TooMuchWork); }
      var after := result[name := Arr(Excluding(result[name].items, removals))];
      TrimOne(m, fields, done, result, directive, after);
      return Ok(after);
    }

    /** `$setElementOrder` directives. */
    method OrderElements(was: map<string, Json>, fields: map<string, Json>, m: map<string, Json>, s: Schema) returns (r: Result<map<string, Json>, Problem>)
      modifies this
      ensures r.Ok? ==> Ordering(table, s, was, m, fields, Starting(m, ORDER), r.value)
      ensures budget <= old(budget)
    {
      var result := fields;
      var keys := Starting(m, ORDER);
      ghost var done: set<string> := {};
      while keys != {}
        invariant done + keys == Starting(m, ORDER) && done !! keys && budget <= old(budget)
        invariant Ordering(table, s, was, m, fields, done, result)
        decreases |keys|
      {
        var directive :| directive in keys;
        var next := OrderElement(was, fields, done, result, m, directive, s);
        if next.Err? { return Err(next.error); }
        result, keys, done := next.value, keys - {directive}, done + {directive};
      }
      assert done == Starting(m, ORDER);
      return Ok(result);
    }

    method OrderElement(was: map<string, Json>, ghost fields: map<string, Json>, ghost done: set<string>, result: map<string, Json>,
                        m: map<string, Json>, directive: string, s: Schema)
        returns (r: Result<map<string, Json>, Problem>)
      requires directive in m && ORDER <= directive && directive !in done && Ordering(table, s, was, m, fields, done, result)
      modifies this
      ensures r.Ok? ==> Ordering(table, s, was, m, fields, done + {directive}, r.value)
      ensures budget <= old(budget)
    {
      var name := directive[|ORDER|..];
      assert ORDER + name == directive;
      var child := table.field(s, name);
      if !child.merge || !m[directive].Arr? { return Err(Invalid); }
      var order := m[directive].items;
      if !Identified(order, child.key) { return Err(Invalid); }
      if name in m {
        if !m[name].Arr? { return Err(Invalid); }
        var ok := Spend(|m[name].items| * |order|);
        if !ok { return Err(TooMuchWork); }
        if !Follows(m[name].items, order, child.key) { return Err(Invalid); }
      }
      if name !in result {
        OrderOne(table, s, was, m, fields, done, result, directive, result);
        return Ok(result);
      }
      if !result[name].Arr? { return Err(Invalid); }
      var ordered := Reorder(result[name].items, order, ItemsOf(FieldAt(was, name).GetOr(Null)), child.key);
      if ordered.Err? { return Err(ordered.error); }
      var after := result[name := Arr(ordered.value)];
      OrderOne(table, s, was, m, fields, done, result, directive, after);
      return Ok(after);
    }

    /** Merge a list by key, or as a set of scalars. */
    method MergeList(original: Json, patch: Json, s: Schema, depth: nat) returns (r: Result<seq<Json>, Problem>)
      requires depth <= MAX_DEPTH && patch.Arr? && s.merge
      modifies this
      ensures r.Ok? ==> Merged(table, original, patch, s, Arr(r.value))
      ensures budget <= old(budget)
      decreases MAX_DEPTH + 1 - depth, 3
    {
      var was, items := ItemsOf(original), patch.items;
      var ok := Spend((|was| + |items|) * (|items| + 1));
      if !ok { return Err(TooMuchWork); }
      if !Identified(was, s.key) { return Err(Invalid); }
      var directed := Direct(was, items, s.key);
      if directed.Err? { return Err(directed.error); }
      var (base, ordinary, replace) := directed.value;
      assert items[..|items|] == items;
      if s.key.None? {
        r := MergeScalars(was, items, base, ordinary);
        return;
      }
      if replace { return Ok(ordinary); }
      OrdinaryAre(items);
      var merged := MergeItems(base, ordinary, s, depth);
      if merged.Err? { return Err(merged.error); }
      var ordered := Reorder(merged.value, ordinary, was, s.key);
      if ordered.Err? { return Err(ordered.error); }
      if PlainKey(s) && DistinctItems(was, s.key) {
        BaseIdentified(was, items, s.key, base);
        KeyedIsMerged(table, s, original, patch, base, merged.value, ordered.value);
      }
      return ordered;
    }

    /** Carry out the directives and collect the ordinary items. */
    method Direct(was: seq<Json>, patch: seq<Json>, key: Option<string>) returns (r: Result<(seq<Json>, seq<Json>, bool), Problem>)
      ensures r.Ok? ==> Directing(was, patch, |patch|, key, r.value.0, r.value.1, r.value.2)
    {
      var result, ordinary, replace := was, [], false;
      for i := 0 to |patch|
        invariant Directing(was, patch, i, key, result, ordinary, replace)
      {
        var next := DirectOne(was, patch, i, key, result, ordinary, replace);
        if next.Err? { return Err(next.error); }
        result, ordinary, replace := next.value.0, next.value.1, next.value.2;
      }
      return Ok((result, ordinary, replace));
    }

    method DirectOne(ghost was: seq<Json>, patch: seq<Json>, i: nat, key: Option<string>, result: seq<Json>, ordinary: seq<Json>, replace: bool)
        returns (r: Result<(seq<Json>, seq<Json>, bool), Problem>)
      requires i < |patch| && Directing(was, patch, i, key, result, ordinary, replace)
      ensures r.Ok? ==> Directing(was, patch, i + 1, key, r.value.0, r.value.1, r.value.2)
    {
      OrdinaryPrefix(patch, i);
      ReplacesNext(patch, i);
      var directive := PatchDirective(patch[i]);
      if directive.None? {
        if Identity(patch[i], key).None? { return Err(Invalid); }
        DeleteNone(was, patch, i, key, result);
        return Ok((result, ordinary + [patch[i]], replace));
      }
      if key.None? { return Err(Invalid); }
      if directive == Some(Str("replace")) {
        DeleteNone(was, patch, i, key, result);
        return Ok((result, ordinary, true));
      }
      if directive == Some(Str("delete")) {
        if Identity(patch[i], key).None? { return Err(Invalid); }
        var id := Identity(patch[i], key).value;
        DeleteOne(was, patch, i, key, result, id);
        return Ok((Without(result, id, key), ordinary, replace));
      }
      return Err(Invalid);
    }

    /** Merge each ordinary item into the item of its key, or append it. */
    method MergeItems(base: seq<Json>, ordinary: seq<Json>, s: Schema, depth: nat) returns (r: Result<seq<Json>, Problem>)
      requires depth <= MAX_DEPTH && s.key.Some? && Identified(ordinary, s.key)
      requires forall i :: 0 <= i < |ordinary| ==> Ordinary(ordinary[i])
      modifies this
      ensures r.Ok? && PlainKey(s) && Identified(base, s.key) && DistinctItems(base, s.key) ==> Merging(table, s, base, ordinary, r.value)
      ensures budget <= old(budget)
      decreases MAX_DEPTH + 1 - depth, 2
    {
      var result := base;
      ghost var sound := PlainKey(s) && Identified(base, s.key) && DistinctItems(base, s.key);
      if sound { MergingStarts(table, s, base); }
      for i := 0 to |ordinary|
        invariant budget <= old(budget)
        invariant sound ==> Merging(table, s, base, ordinary[..i], result)
      {
        assert ordinary[..i + 1] == ordinary[..i] + [ordinary[i]];
        var next := MergeItem(base, ordinary[..i], result, ordinary[i], s, depth);
        if next.Err? { return Err(next.error); }
        result := next.value;
      }
      assert ordinary[..|ordinary|] == ordinary;
      return Ok(result);
    }

    method MergeItem(ghost base: seq<Json>, ghost done: seq<Json>, result: seq<Json>, item: Json, s: Schema, depth: nat)
        returns (r: Result<seq<Json>, Problem>)
      requires depth <= MAX_DEPTH && s.key.Some? && Identity(item, s.key).Some?
      modifies this
      ensures r.Ok? && PlainKey(s) && Ordinary(item) && Merging(table, s, base, done, result) ==> Merging(table, s, base, done + [item], r.value)
      ensures budget <= old(budget)
      decreases MAX_DEPTH + 1 - depth, 1
    {
      var rank := RankIn(item, result, s.key);
      if rank == 0 {
        if Merging(table, s, base, done, result) { MergePushed(table, s, base, done, result, item); }
        return Ok(result + [item]);
      }
      var merged := Merge(result[rank - 1], item, table.items(s), depth + 1);
      if merged.Err? { return Err(merged.error); }
      if PlainKey(s) && Ordinary(item) && Merging(table, s, base, done, result) {
        MergeKeepsKey(table, result[rank - 1], item, table.items(s), s.key.value, merged.value);
        MergeUpdated(table, s, base, done, result, rank - 1, merged.value, item);
      }
      return Ok(result[rank - 1 := merged.value]);
    }

    /** A list of scalars: append what is new, drop repetitions, order. */
    method MergeScalars(was: seq<Json>, patch: seq<Json>, base: seq<Json>, ordinary: seq<Json>) returns (r: Result<seq<Json>, Problem>)
      requires base == was && ordinary == patch && Identified(was, None) && Identified(patch, None)
      modifies this
      ensures r.Ok? ==> ScalarsMerged(was, patch, r.value)
      ensures budget <= old(budget)
    {
      var result := base;
      for i := 0 to |ordinary|
        invariant Appending(was, ordinary[..i], result)
      {
        assert ordinary[..i + 1] == ordinary[..i] + [ordinary[i]];
        if ordinary[i] !in result { result := result + [ordinary[i]]; }
      }
      assert ordinary[..|ordinary|] == ordinary;
      var ok := Spend(|result| * |result|);
      if !ok { return Err(TooMuchWork); }
      var unique := Dedupe(result);
      r := Reorder(unique, ordinary, was, None);
      if r.Ok? { ScalarsAreMerged(was, patch, result, unique, r.value); }
    }
  }

  lemma BaseIdentified(was: seq<Json>, patch: seq<Json>, key: Option<string>, base: seq<Json>)
    requires Identified(was, key) && Deleting(was, patch, |patch|, key, base)
    ensures Identified(base, key)
  {
    forall i | 0 <= i < |base| ensures Identity(base[i], key).Some? {
      assert base[i] in base;
      var j :| 0 <= j < |was| && was[j] == base[i];
    }
  }

  lemma {:induction false} OrdinaryAre(patch: seq<Json>)
    ensures forall i :: 0 <= i < |OrdinaryItems(patch)| ==> Ordinary(OrdinaryItems(patch)[i])
  {
    if patch != [] { OrdinaryAre(patch[..|patch| - 1]); }
  }

  /** A keyed list merge is what the patch says: its keys, its order and its items. */
  lemma KeyedIsMerged(t: Table, s: Schema, original: Json, patch: Json, base: seq<Json>, merged: seq<Json>, r: seq<Json>)
    requires patch.Arr? && s.merge && s.key.Some? && !Replaces(patch.items)
    requires Identified(ItemsOf(original), s.key) && DistinctItems(ItemsOf(original), s.key)
    requires Deleting(ItemsOf(original), patch.items, |patch.items|, s.key, base)
    requires Merging(t, s, base, OrdinaryItems(patch.items), merged)
    requires r == Reordered(merged, OrdinaryItems(patch.items), ItemsOf(original), s.key)
    ensures Merged(t, original, patch, s, Arr(r))
  {
    var was, items := ItemsOf(original), patch.items;
    ListIsMerged(t, s, was, items, base, merged, r);
    if DistinctItems(OrdinaryItems(items), s.key) {
      forall k | 0 <= k < |items| && Ordinary(items[k]) ensures ItemIs(t, Surviving(was, items, items[k], s.key), items[k], s, r) {
        ItemsAreMerged(t, s, was, items, base, merged, r, k);
      }
    }
  }

  /** The directives of one kind. */
  function Starting(m: map<string, Json>, prefix: string): set<string> {
    set f | f in m && prefix <= f
  }

  lemma AllDirectives(m: map<string, Json>)
    ensures forall f :: DELETE + f in Starting(m, DELETE) <==> DELETE + f in m
    ensures forall f :: ORDER + f in Starting(m, ORDER) <==> ORDER + f in m
  {
  }
}
