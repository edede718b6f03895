/** JSON values, and reading and editing them at a path. A list whose items carry a `name` is
    addressed by it. */
module JsonPaths {
  import opened Wrappers

  datatype Json = Null | Bool(b: bool) | Num(n: int) | Str(s: string) | Arr(items: seq<Json>) | Obj(fields: map<string, Json>)

  datatype Segment = Field(name: string) | Keyed(key: string, value: string)
  type Path = seq<Segment>

  /** The string a value has under a key. */
  function Text(v: Json, key: string): Option<string> {
    if v.Obj? && key in v.fields && v.fields[key].Str? then Some(v.fields[key].s) else None
  }

  /** The first item whose key has this value; the length when there is none. */
  function Find(items: seq<Json>, key: string, value: string): (i: nat)
    ensures i <= |items|
    ensures i < |items| ==> Text(items[i], key) == Some(value)
    ensures forall j :: 0 <= j < i ==> Text(items[j], key) != Some(value)
  {
    if items == [] || Text(items[0], key) == Some(value) then 0 else 1 + Find(items[1..], key, value)
  }

  /** The item with a key value, if any. */
  function Item(items: seq<Json>, key: string, value: string): Option<Json> {
    if Find(items, key, value) < |items| then Some(items[Find(items, key, value)]) else None
  }

  function Child(v: Json, s: Segment): Option<Json> {
    match s
    case Field(name) => if v.Obj? && name in v.fields then Some(v.fields[name]) else None
    case Keyed(key, value) => if v.Arr? then Item(v.items, key, value) else None
  }

  function Get(v: Json, path: Path): Option<Json> {
    if path == [] then Some(v)
    else match Child(v, path[0])
         case None => None
         case Some(c) => Get(c, path[1..])
  }

  /** What a missing parent is created as: the container its next segment needs. */
  function Seed(rest: Path): Json {
    if rest != [] && rest[0].Keyed? then Arr([]) else Obj(map[])
  }

  /** Items with the keyed one present. */
  function WithItem(items: seq<Json>, key: string, value: string): (r: seq<Json>)
    ensures Find(items, key, value) < |r|
  {
    if Find(items, key, value) < |items| then items else items + [Obj(map[key := Str(value)])]
  }

  /** Write a value at a path, creating what is missing. None when a parent on the way is not
      the container its segment needs: the server stops there. */
  function Set(v: Json, path: Path, value: Json): Option<Json>
    decreases |path|
  {
    if path == [] then Some(v)
    else
      match path[0]
      case Field(name) =>
        if !v.Obj? then None
        else if |path| == 1 then Some(Obj(v.fields[name := value]))
        else
          var child := if name in v.fields then v.fields[name] else Seed(path[1..]);
          (match Set(child, path[1..], value)
           case None => None
           case Some(c) => Some(Obj(v.fields[name := c])))
      case Keyed(key, text) =>
        if !v.Arr? then None
        else
          var items, i := WithItem(v.items, key, text), Find(v.items, key, text);
          if |path| == 1 then Some(Arr(items[i := value]))
          else
            match Set(items[i], path[1..], value)
            case None => None
            case Some(c) => Some(Arr(items[i := c]))
  }

  function Others(items: seq<Json>, key: string, value: string): seq<Json> {
    if items == [] then []
    else (if Text(items[0], key) == Some(value) then [] else [items[0]]) + Others(items[1..], key, value)
  }

  /** Remove what is at a path, if it is there. */
  function Remove(v: Json, path: Path): Json
    decreases |path|
  {
    if path == [] then v
    else
      match path[0]
      case Field(name) =>
        if !v.Obj? || name !in v.fields then v
        else if |path| == 1 then Obj(v.fields - {name})
        else Obj(v.fields[name := Remove(v.fields[name], path[1..])])
      case Keyed(key, text) =>
        if !v.Arr? then v
        else if |path| == 1 then Arr(Others(v.items, key, text))
        else
          var i := Find(v.items, key, text);
          if i < |v.items| then Arr(v.items[i := Remove(v.items[i], path[1..])]) else v
  }

  /** An item that says nothing, or only its name. */
  predicate Bare(item: Json) {
    item.Obj? && item.fields.Keys <= {"name"}
  }

  /** Drop bare list items, everywhere. */
  function Prune(v: Json): (r: Json)
    ensures Bare(r) <==> Bare(v)
  {
    match v
    case Obj(m) => Obj(map k | k in m :: Prune(m[k]))
    case Arr(items) => Arr(PruneItems(items))
    case _ => v
  }

  function PruneItems(items: seq<Json>): seq<Json> {
    if items == [] then []
    else
      var head := Prune(items[0]);
      (if Bare(head) then [] else [head]) + PruneItems(items[1..])
  }

  // ----- which paths meet -----

  predicate Apart(p: Path, q: Path) { !(p <= q) && !(q <= p) }

  /** All list items on the path are addressed by name. */
  predicate ByName(p: Path) { forall i | 0 <= i < |p| :: p[i].Keyed? ==> p[i].key == "name" }

  /** `s` is the name of a list item that `d` passes through. */
  predicate NamesItemOf(s: Path, d: Path) {
    && |s| >= 2 && |d| >= 1 && s[0] == d[0]
    && ((|s| == 2 && s[0].Keyed? && s[1] == Field(s[0].key)) || NamesItemOf(s[1..], d[1..]))
  }

  /** Where the path ends in the name of an item, the value is that name. */
  predicate KeepsNames(d: Path, value: Json) {
    d == [] || ((|d| == 2 && d[0].Keyed? && d[1] == Field(d[0].key) ==> value == Str(d[0].value)) && KeepsNames(d[1..], value))
  }

  lemma ApartTails(p: Path, q: Path)
    requires Apart(p, q) && p[0] == q[0]
    ensures Apart(p[1..], q[1..])
  {
    assert p == [p[0]] + p[1..] && q == [q[0]] + q[1..];
  }

  lemma ByNameTail(p: Path)
    requires ByName(p) && p != []
    ensures ByName(p[1..]) && (p[0].Keyed? ==> p[0].key == "name")
  {
    forall i | 0 <= i < |p| - 1 ensures p[1..][i].Keyed? ==> p[1..][i].key == "name" {
      assert p[1..][i] == p[i + 1];
    }
  }

  // ----- lists and their keys -----

  lemma FindIs(items: seq<Json>, key: string, value: string, i: nat)
    requires i <= |items| && (i < |items| ==> Text(items[i], key) == Some(value))
    requires forall j :: 0 <= j < i ==> Text(items[j], key) != Some(value)
    ensures Find(items, key, value) == i
  {
  }

  /** Changing one item without changing its key moves nothing. */
  lemma FindAfterUpdate(items: seq<Json>, i: nat, w: Json, key: string, value: string)
    requires i < |items| && Text(w, key) == Text(items[i], key)
    ensures Find(items[i := w], key, value) == Find(items, key, value)
  {
    FindIs(items[i := w], key, value, Find(items, key, value));
  }

  /** Changing an item to one without this key value moves no item with another. */
  lemma FindElsewhere(items: seq<Json>, i: nat, w: Json, key: string, value: string)
    requires i < |items| && Text(items[i], key) != Some(value) && Text(w, key) != Some(value)
    ensures Find(items[i := w], key, value) == Find(items, key, value)
  {
    FindIs(items[i := w], key, value, Find(items, key, value));
  }

  lemma FindAppended(items: seq<Json>, w: Json, key: string, value: string)
    ensures Find(items + [w], key, value)
            == if Find(items, key, value) < |items| then Find(items, key, value)
               else if Text(w, key) == Some(value) then |items| else |items| + 1
  {
    var more, f := items + [w], Find(items, key, value);
    assert forall j :: 0 <= j < |items| ==> more[j] == items[j];
    assert more[|items|] == w;
    if f < |items| {
      FindIs(more, key, value, f);
    } else if Text(w, key) == Some(value) {
      FindIs(more, key, value, |items|);
    } else {
      FindIs(more, key, value, |items| + 1);
    }
  }

  lemma ItemFirst(items: seq<Json>, key: string, value: string)
    requires items != []
    ensures Item(items, key, value) == if Text(items[0], key) == Some(value) then Some(items[0]) else Item(items[1..], key, value)
  {
  }

  lemma ItemPushed(x: Json, items: seq<Json>, key: string, value: string)
    ensures Item([x] + items, key, value) == if Text(x, key) == Some(value) then Some(x) else Item(items, key, value)
  {
    ItemFirst([x] + items, key, value);
    assert ([x] + items)[1..] == items;
  }

  /** Removing the items with one key value removes nothing else. */
  lemma {:induction false} OthersItem(items: seq<Json>, key: string, gone: string, value: string)
    ensures Item(Others(items, key, gone), key, value) == if value == gone then None else Item(items, key, value)
  {
    if items != [] {
      OthersItem(items[1..], key, gone, value);
      ItemFirst(items, key, value);
      if Text(items[0], key) == Some(gone) {
        assert Others(items, key, gone) == [] + Others(items[1..], key, gone) == Others(items[1..], key, gone);
      } else {
        ItemPushed(items[0], Others(items[1..], key, gone), key, value);
      }
    }
  }

  // ----- writing -----

  /** Writing inside an item leaves its key, unless it is the key that is written. */
  lemma SetKeepsKey(v: Json, key: string, text: string, d: Path, value: Json)
    requires Text(v, key) == Some(text) && d != [] && Set(v, d, value).Some?
    requires d == [Field(key)] ==> value == Str(text)
    ensures Text(Set(v, d, value).value, key) == Some(text)
  {
    if |d| > 1 && d[0] == Field(key) {
      SetInScalar(v.fields[key], d[1..], value);
    }
  }

  lemma SetInScalar(v: Json, d: Path, value: Json)
    requires v.Str? && d != []
    ensures Set(v, d, value).None?
  {
  }

  lemma SetItem(v: Json, d: Path, value: Json)
    requires v.Arr? && |d| > 1 && d[0].Keyed? && Set(v, d, value).Some? && KeepsNames(d, value)
    ensures var items, i := WithItem(v.items, d[0].key, d[0].value), Find(v.items, d[0].key, d[0].value);
            && Set(items[i], d[1..], value).Some?
            && Set(v, d, value) == Some(Arr(items[i := Set(items[i], d[1..], value).value]))
            && Text(items[i], d[0].key) == Some(d[0].value)
            && Text(Set(items[i], d[1..], value).value, d[0].key) == Some(d[0].value)
  {
    var items, i := WithItem(v.items, d[0].key, d[0].value), Find(v.items, d[0].key, d[0].value);
    SetKeepsKey(items[i], d[0].key, d[0].value, d[1..], value);
  }

  /** What was written is read back. */
  lemma {:induction false} SetSame(v: Json, d: Path, value: Json)
    requires d != [] && d[|d| - 1].Field? && Set(v, d, value).Some? && KeepsNames(d, value)
    ensures Get(Set(v, d, value).value, d) == Some(value)
    decreases |d|
  {
    var w := Set(v, d, value).value;
    if |d| == 1 {
      assert d[1..] == [];
    } else if d[0].Field? {
      var child := if d[0].name in v.fields then v.fields[d[0].name] else Seed(d[1..]);
      SetSame(child, d[1..], value);
    } else {
      var items, i := WithItem(v.items, d[0].key, d[0].value), Find(v.items, d[0].key, d[0].value);
      SetItem(v, d, value);
      SetSame(items[i], d[1..], value);
      var c := Set(items[i], d[1..], value).value;
      FindAfterUpdate(items, i, c, d[0].key, d[0].value);
      FindAppended(v.items, Obj(map[d[0].key := Str(d[0].value)]), d[0].key, d[0].value);
    }
  }

  /** In a list, an item read by name is another one than that written by another name. */
  lemma SetOtherItem(v: Json, d: Path, value: Json, s: Path)
    requires v.Arr? && d != [] && s != [] && d[0].Keyed? && s[0].Keyed? && d[0].key == s[0].key && d[0] != s[0]
    requires Set(v, d, value).Some? && KeepsNames(d, value) && |d| > 1
    ensures Child(Set(v, d, value).value, s[0]) == Child(v, s[0])
  {
    var key, name, other := d[0].key, d[0].value, s[0].value;
    var i := Find(v.items, key, name);
    var pushed := Obj(map[key := Str(name)]);
    FindAppended(v.items, pushed, key, other);
    SetItem(v, d, value);
    var c := Set(WithItem(v.items, key, name)[i], d[1..], value).value;
    FindElsewhere(WithItem(v.items, key, name), i, c, key, other);
  }

  /** Writing at one path leaves every path apart from it, except that creating an item names it. */
  lemma {:induction false} SetOther(v: Json, d: Path, value: Json, s: Path)
    requires Set(v, d, value).Some? && KeepsNames(d, value) && ByName(d) && ByName(s) && Apart(d, s)
    requires d[|d| - 1].Field?
    requires Get(v, s).Some? || !NamesItemOf(s, d)
    ensures Get(Set(v, d, value).value, s) == Get(v, s)
    decreases |d|
  {
    ByNameTail(d);
    ByNameTail(s);
    if d[0] != s[0] {
      if d[0].Keyed? && s[0].Keyed? { SetOtherItem(v, d, value, s); }
    } else {
      ApartTails(d, s);
      if d[0].Field? {
        SetOtherField(v, d, value, s);
      } else {
        SetOtherKeyed(v, d, value, s);
      }
    }
  }

  lemma SetOtherField(v: Json, d: Path, value: Json, s: Path)
    requires Set(v, d, value).Some? && KeepsNames(d, value) && ByName(d) && ByName(s) && Apart(d, s) && Apart(d[1..], s[1..])
    requires d[|d| - 1].Field? && d[0] == s[0] && d[0].Field? && ByName(d[1..]) && ByName(s[1..])
    requires Get(v, s).Some? || !NamesItemOf(s, d)
    ensures Get(Set(v, d, value).value, s) == Get(v, s)
    decreases |d|, 0
  {
    var name := d[0].name;
    var child := if name in v.fields then v.fields[name] else Seed(d[1..]);
    if name !in v.fields { SeedIsEmpty(d[1..], s[1..]); }
    SetOther(child, d[1..], value, s[1..]);
  }

  /** Nothing is read back from a fresh container. */
  lemma SeedIsEmpty(rest: Path, s: Path)
    requires s != []
    ensures Get(Seed(rest), s).None?
  {
  }

  lemma SetOtherKeyed(v: Json, d: Path, value: Json, s: Path)
    requires Set(v, d, value).Some? && KeepsNames(d, value) && ByName(d) && ByName(s) && Apart(d, s) && Apart(d[1..], s[1..])
    requires d[|d| - 1].Field? && d[0] == s[0] && d[0].Keyed? && ByName(d[1..]) && ByName(s[1..])
    requires Get(v, s).Some? || !NamesItemOf(s, d)
    ensures Get(Set(v, d, value).value, s) == Get(v, s)
    decreases |d|, 0
  {
    var key, text := d[0].key, d[0].value;
    var items, i := WithItem(v.items, key, text), Find(v.items, key, text);
    SetItem(v, d, value);
    var c := Set(items[i], d[1..], value).value;
    FindAppended(v.items, Obj(map[key := Str(text)]), key, text);
    FindAfterUpdate(items, i, c, key, text);
    if i == |v.items| {
      assert Get(v, s).None?;
      NewItemIsEmpty(key, text, s[1..]);
    }
    SetOther(items[i], d[1..], value, s[1..]);
  }

  /** A fresh item has only its name. */
  lemma NewItemIsEmpty(key: string, text: string, s: Path)
    requires s != [] && s != [Field(key)]
    ensures Get(Obj(map[key := Str(text)]), s).None?
  {
  }

  // ----- removing -----

  /** At each list on the way at most one item has the name. */
  predicate UniqueOnRoute(v: Json, s: Path) {
    s == []
    || ((s[0].Keyed? && v.Arr? ==> AtMostOne(v.items, s[0].key, s[0].value))
        && (Child(v, s[0]).Some? ==> UniqueOnRoute(Child(v, s[0]).value, s[1..])))
  }

  predicate AtMostOne(items: seq<Json>, key: string, value: string) {
    forall i, j | 0 <= i < j < |items| :: Text(items[i], key) != Some(value) || Text(items[j], key) != Some(value)
  }

  lemma RemoveKeepsKey(v: Json, key: string, q: Path)
    requires q != [] && q != [Field(key)]
    ensures Text(Remove(v, q), key) == Text(v, key)
  {
  }

  lemma RemoveChild(v: Json, q: Path, s: Segment)
    requires q != [] && q[0] != s && (q[0].Keyed? && s.Keyed? ==> q[0].key == s.key)
    ensures Child(Remove(v, q), s) == Child(v, s)
  {
    if q[0].Keyed? && s.Keyed? && v.Arr? {
      var key, gone := q[0].key, q[0].value;
      if |q| == 1 {
        OthersItem(v.items, key, gone, s.value);
      } else {
        var i := Find(v.items, key, gone);
        if i < |v.items| {
          var w := Remove(v.items[i], q[1..]);
          if q[1..] != [Field(key)] { RemoveKeepsKey(v.items[i], key, q[1..]); }
          FindElsewhere(v.items, i, w, key, s.value);
        }
      }
    }
  }

  /** Removing at one path leaves every path apart from it, unless it takes away the name of a
      list item on the way. */
  lemma {:induction false} RemoveOther(v: Json, q: Path, s: Path)
    requires ByName(q) && ByName(s) && Apart(q, s) && !NamesItemOf(q, s)
    ensures Get(Remove(v, q), s) == Get(v, s)
    decreases |q|
  {
    ByNameTail(q);
    ByNameTail(s);
    if q[0] != s[0] {
      RemoveChild(v, q, s[0]);
    } else {
      ApartTails(q, s);
      if Child(v, s[0]).Some? {
        RemoveOther(Child(v, s[0]).value, q[1..], s[1..]);
        if q[0].Keyed? {
          var i := Find(v.items, q[0].key, q[0].value);
          RemoveKeepsKey(v.items[i], q[0].key, q[1..]);
          FindAfterUpdate(v.items, i, Remove(v.items[i], q[1..]), q[0].key, q[0].value);
        }
      }
    }
  }

  lemma {:induction false} OthersAtMostOne(items: seq<Json>, key: string, gone: string, value: string)
    requires AtMostOne(items, key, value)
    ensures AtMostOne(Others(items, key, gone), key, value)
    ensures (forall x :: x in items ==> Text(x, key) != Some(value)) ==> forall x :: x in Others(items, key, gone) ==> Text(x, key) != Some(value)
  {
    if items != [] {
      OthersAtMostOne(items[1..], key, gone, value);
      if Text(items[0], key) != Some(gone) && Text(items[0], key) == Some(value) {
        forall x | x in items[1..] ensures Text(x, key) != Some(value) {
          var j :| 0 <= j < |items| - 1 && items[1..][j] == x;
          assert Text(items[j + 1], key) != Some(value);
        }
      }
    }
  }

  lemma UpdateAtMostOne(items: seq<Json>, i: nat, w: Json, key: string, value: string)
    requires AtMostOne(items, key, value) && i < |items|
    requires Text(w, key) == Text(items[i], key) || Text(w, key) != Some(value)
    ensures AtMostOne(items[i := w], key, value)
  {
  }

  /** An unnamed item is not found by its old name. */
  lemma UnnamedIsGone(items: seq<Json>, w: Json, key: string, value: string)
    requires AtMostOne(items, key, value) && Find(items, key, value) < |items| && Text(w, key) != Some(value)
    ensures Item(items[Find(items, key, value) := w], key, value).None?
  {
    var f := Find(items, key, value);
    FindIs(items[f := w], key, value, |items|);
  }

  /** What removing does at the segment both paths start with. */
  lemma RemoveSameChild(v: Json, q: Path)
    requires q != [] && UniqueOnRoute(v, [q[0]]) && Child(v, q[0]).Some?
    ensures Child(Remove(v, q), q[0])
            == if |q| == 1 || (q[0].Keyed? && q[1..] == [Field(q[0].key)]) then None
               else Some(Remove(Child(v, q[0]).value, q[1..]))
  {
    if q[0].Keyed? {
      var key, name := q[0].key, q[0].value;
      assert AtMostOne(v.items, key, name);
      if |q| == 1 {
        OthersItem(v.items, key, name, name);
      } else {
        var i := Find(v.items, key, name);
        var w := Remove(v.items[i], q[1..]);
        if q[1..] == [Field(key)] {
          UnnamedIsGone(v.items, w, key, name);
        } else {
          RemoveKeepsKey(v.items[i], key, q[1..]);
          FindAfterUpdate(v.items, i, w, key, name);
        }
      }
    }
  }

  lemma AbsentChild(v: Json, q: Path)
    requires q != [] && Child(v, q[0]).None?
    ensures Child(Remove(v, q), q[0]).None?
  {
    if q[0].Keyed? && v.Arr? { OthersItem(v.items, q[0].key, q[0].value, q[0].value); }
  }

  lemma UniqueStep(v: Json, s: Path)
    requires s != [] && UniqueOnRoute(v, s)
    ensures UniqueOnRoute(v, [s[0]])
    ensures Child(v, s[0]).Some? ==> UniqueOnRoute(Child(v, s[0]).value, s[1..])
  {
    assert [s[0]][1..] == [];
  }

  /** What is removed is gone. */
  lemma {:induction false} RemoveSame(v: Json, q: Path)
    requires q != [] && UniqueOnRoute(v, q)
    ensures Get(Remove(v, q), q).None?
    decreases |q|
  {
    UniqueStep(v, q);
    if Child(v, q[0]).None? {
      AbsentChild(v, q);
    } else {
      RemoveSameChild(v, q);
      if |q| > 1 { RemoveSame(Child(v, q[0]).value, q[1..]); }
    }
  }

  lemma SameKeys(q: Path, s: Path)
    requires ByName(q) && ByName(s) && q != [] && s != []
    ensures q[0].Keyed? && s[0].Keyed? ==> q[0].key == s[0].key
  {
    ByNameTail(q);
    ByNameTail(s);
  }

  /** Removing makes nothing appear. */
  lemma {:induction false} RemoveKeepsAbsent(v: Json, q: Path, s: Path)
    requires UniqueOnRoute(v, s) && ByName(q) && ByName(s) && Get(v, s).None?
    ensures Get(Remove(v, q), s).None?
    decreases |s|
  {
    if q == [] { return; }
    SameKeys(q, s);
    UniqueStep(v, s);
    if q[0] != s[0] {
      RemoveChild(v, q, s[0]);
    } else if Child(v, s[0]).None? {
      AbsentChild(v, q);
    } else {
      ByNameTail(q);
      ByNameTail(s);
      RemoveSameChild(v, q);
      RemoveKeepsAbsent(Child(v, s[0]).value, q[1..], s[1..]);
    }
  }

  lemma RemoveKeepsAtMostOne(v: Json, q: Path, key: string, value: string)
    requires v.Arr? && AtMostOne(v.items, key, value) && q != [] && (q[0].Keyed? ==> q[0].key == key)
    ensures Remove(v, q).Arr? && AtMostOne(Remove(v, q).items, key, value)
  {
    if q[0].Keyed? {
      if |q| == 1 {
        OthersAtMostOne(v.items, key, q[0].value, value);
      } else {
        var i := Find(v.items, key, q[0].value);
        if i < |v.items| {
          var w := Remove(v.items[i], q[1..]);
          if q[1..] != [Field(key)] { RemoveKeepsKey(v.items[i], key, q[1..]); }
          UpdateAtMostOne(v.items, i, w, key, value);
        }
      }
    }
  }

  /** Removing makes no name ambiguous. */
  lemma {:induction false} RemoveKeepsUnique(v: Json, q: Path, s: Path)
    requires UniqueOnRoute(v, s) && ByName(q) && ByName(s)
    ensures UniqueOnRoute(Remove(v, q), s)
    decreases |s|
  {
    if q == [] || s == [] { return; }
    SameKeys(q, s);
    UniqueStep(v, s);
    if s[0].Keyed? && v.Arr? { RemoveKeepsAtMostOne(v, q, s[0].key, s[0].value); }
    if q[0] != s[0] {
      RemoveChild(v, q, s[0]);
    } else if Child(v, s[0]).None? {
      AbsentChild(v, q);
    } else {
      ByNameTail(q);
      ByNameTail(s);
      RemoveSameChild(v, q);
      RemoveKeepsUnique(Child(v, s[0]).value, q[1..], s[1..]);
    }
  }

  // ----- pruning -----

  /** No list item on the way is bare. */
  predicate Survives(v: Json, s: Path) {
    s == []
    || (Child(v, s[0]).Some?
        && (s[0].Keyed? ==> !Bare(Child(v, s[0]).value))
        && Survives(Child(v, s[0]).value, s[1..]))
  }

  lemma PruneKeepsKey(v: Json, key: string)
    ensures Text(Prune(v), key) == Text(v, key)
  {
  }

  lemma {:induction false} PruneNone(items: seq<Json>, key: string, value: string)
    requires forall x :: x in items ==> Text(x, key) != Some(value)
    ensures forall x :: x in PruneItems(items) ==> Text(x, key) != Some(value)
  {
    if items != [] {
      PruneNone(items[1..], key, value);
      PruneKeepsKey(items[0], key);
    }
  }

  lemma NoItem(items: seq<Json>, key: string, value: string)
    ensures Item(items, key, value).None? <==> forall x :: x in items ==> Text(x, key) != Some(value)
  {
    if Item(items, key, value).Some? { assert items[Find(items, key, value)] in items; }
  }

  /** A named item is pruned where it is, or gone when it was bare. */
  lemma {:induction false} PruneItem(items: seq<Json>, key: string, value: string)
    requires AtMostOne(items, key, value)
    ensures Item(PruneItems(items), key, value)
            == match Item(items, key, value)
               case None => None
               case Some(x) => if Bare(x) then None else Some(Prune(x))
  {
    if items != [] {
      ItemFirst(items, key, value);
      PruneKeepsKey(items[0], key);
      if Text(items[0], key) == Some(value) {
        forall x | x in items[1..] ensures Text(x, key) != Some(value) {
          var j :| 0 <= j < |items| - 1 && items[1..][j] == x;
          assert Text(items[j + 1], key) != Some(value);
        }
        PruneNone(items[1..], key, value);
        NoItem(PruneItems(items[1..]), key, value);
      } else {
        PruneItem(items[1..], key, value);
      }
      ItemPushed(Prune(items[0]), PruneItems(items[1..]), key, value);
      assert [] + PruneItems(items[1..]) == PruneItems(items[1..]);
    }
  }

  /** Pruning keeps what is at a path, itself pruned, unless a bare item is on the way. */
  lemma {:induction false} PruneGet(v: Json, s: Path)
    requires UniqueOnRoute(v, s)
    ensures Survives(v, s) ==> Get(v, s).Some?
    ensures Get(Prune(v), s) == if Survives(v, s) then Some(Prune(Get(v, s).value)) else None
    decreases |s|
  {
    if s != [] {
      UniqueStep(v, s);
      if s[0].Keyed? && v.Arr? { PruneItem(v.items, s[0].key, s[0].value); }
      if Child(v, s[0]).Some? { PruneGet(Child(v, s[0]).value, s[1..]); }
    }
  }

  /** A path that ends in a field survives, unless that field is the name of a list item. */
  predicate EndsInName(s: Path) {
    |s| >= 2 && s[|s| - 2].Keyed? && s[|s| - 1] == Field("name")
  }

  lemma {:induction false} FieldsSurvive(v: Json, s: Path)
    requires Get(v, s).Some? && ByName(s) && s != [] && s[|s| - 1].Field? && !EndsInName(s)
    ensures Survives(v, s)
    decreases |s|
  {
    if |s| > 1 {
      ByNameTail(s);
      var c := Child(v, s[0]).value;
      if s[0].Keyed? { NotBare(c, s[1..]); }
      FieldsSurvive(c, s[1..]);
    } else {
      assert s[1..] == [];
    }
  }

  /** An item with something below a field other than its name is not bare. */
  lemma NotBare(item: Json, s: Path)
    requires Text(item, "name").Some? && s != [] && s != [Field("name")]
    ensures Get(item, s).Some? ==> !Bare(item)
  {
    if s[0] == Field("name") { assert Get(item.fields["name"], s[1..]).None?; }
  }

  // ----- losing a name -----

  /** The name of an item on an unambiguous way is unambiguous. */
  lemma {:induction false} NameIsUnique(v: Json, q: Path, s: Path)
    requires NamesItemOf(q, s) && UniqueOnRoute(v, s)
    ensures UniqueOnRoute(v, q)
    decreases |q|
  {
    UniqueStep(v, s);
    if |q| == 2 && q[0].Keyed? && q[1] == Field(q[0].key) {
      assert q[1..][1..] == [];
    } else if Child(v, q[0]).Some? {
      NameIsUnique(Child(v, q[0]).value, q[1..], s[1..]);
    }
  }

  /** An item found by its name has it. */
  lemma FoundHasName(v: Json, q: Path)
    requires |q| == 2 && q[0].Keyed? && q[1] == Field(q[0].key)
    ensures Child(v, q[0]).Some? <==> Get(v, q).Some?
  {
    assert q[1..] == [q[1]] && q[1..][1..] == [];
    if Child(v, q[0]).Some? {
      var c := Child(v, q[0]).value;
      assert Child(c, q[1]) == Some(c.fields[q[0].key]) && Get(c.fields[q[0].key], []).Some?;
      assert Get(c, q[1..]).Some?;
    }
  }

  /** Where an item's name is gone, nothing inside the item is found by that name. */
  lemma {:induction false} UnnamedIsLost(v: Json, q: Path, s: Path)
    requires NamesItemOf(q, s) && Get(v, q).None?
    ensures Get(v, s).None?
    decreases |q|
  {
    if |q| == 2 && q[0].Keyed? && q[1] == Field(q[0].key) {
      FoundHasName(v, q);
    } else if Child(v, q[0]).Some? {
      UnnamedIsLost(Child(v, q[0]).value, q[1..], s[1..]);
    }
  }

  lemma {:induction false} NamesEndInName(s: Path, d: Path)
    requires ByName(s) && NamesItemOf(s, d)
    ensures EndsInName(s)
    decreases |s|
  {
    ByNameTail(s);
    if !(|s| == 2 && s[0].Keyed? && s[1] == Field(s[0].key)) { NamesEndInName(s[1..], d[1..]); }
  }

  // ----- keeping a name -----

  lemma {:induction false} GetLast(v: Json, t: Path, k: string)
    ensures Get(v, t + [Field(k)])
            == if Get(v, t).Some? && Get(v, t).value.Obj? && k in Get(v, t).value.fields then Some(Get(v, t).value.fields[k]) else None
    decreases |t|
  {
    if t == [] {
      assert t + [Field(k)] == [Field(k)] && [Field(k)][1..] == [];
    } else {
      assert (t + [Field(k)])[1..] == t[1..] + [Field(k)];
      if Child(v, t[0]).Some? { GetLast(Child(v, t[0]).value, t[1..], k); }
    }
  }

  /** Fields of one value are as unambiguous as each other. */
  lemma {:induction false} UniqueSiblings(v: Json, t: Path, j: string, k: string)
    requires UniqueOnRoute(v, t + [Field(j)])
    ensures UniqueOnRoute(v, t + [Field(k)])
    decreases |t|
  {
    var p, q := t + [Field(j)], t + [Field(k)];
    if t == [] {
      assert q == [Field(k)] && [Field(k)][1..] == [];
    } else {
      assert p[1..] == t[1..] + [Field(j)] && q[1..] == t[1..] + [Field(k)];
      UniqueStep(v, p);
      if Child(v, t[0]).Some? { UniqueSiblings(Child(v, t[0]).value, t[1..], j, k); }
    }
  }

  /** A name on the way to one field is on the way to every other. */
  lemma {:induction false} NamesSiblings(q: Path, t: Path, j: string, k: string)
    requires NamesItemOf(q, t + [Field(j)])
    ensures NamesItemOf(q, t + [Field(k)])
    decreases |q|
  {
    if t != [] {
      assert (t + [Field(j)])[1..] == t[1..] + [Field(j)] && (t + [Field(k)])[1..] == t[1..] + [Field(k)];
      if !(|q| == 2 && q[0].Keyed? && q[1] == Field(q[0].key)) { NamesSiblings(q[1..], t[1..], j, k); }
    }
  }

  /** Removing elsewhere, or further down, takes nothing away. */
  lemma {:induction false} RemoveKeepsPresent(v: Json, q: Path, s: Path)
    requires ByName(q) && ByName(s) && !(q <= s) && !NamesItemOf(q, s) && Get(v, s).Some?
    ensures Get(Remove(v, q), s).Some?
    decreases |s|
  {
    if s == [] { return; }
    SameKeys(q, s);
    if q[0] != s[0] {
      RemoveChild(v, q, s[0]);
    } else {
      ByNameTail(q);
      ByNameTail(s);
      assert q == [q[0]] + q[1..] && s == [s[0]] + s[1..];
      RemoveOnRoute(v, q);
      RemoveKeepsPresent(Child(v, s[0]).value, q[1..], s[1..]);
    }
  }

  /** An item's name survives exactly when the item is not bare. */
  lemma {:induction false} NameSurvives(v: Json, t: Path)
    requires Get(v, t + [Field("name")]).Some? && ByName(t) && t != [] && t[|t| - 1].Keyed?
    ensures Get(v, t).Some?
    ensures Survives(v, t + [Field("name")]) <==> !Bare(Get(v, t).value)
    decreases |t|
  {
    var s := t + [Field("name")];
    assert s[1..] == t[1..] + [Field("name")];
    ByNameTail(t);
    var c := Child(v, t[0]).value;
    if |t| == 1 {
      assert s[1..] == [Field("name")] && s[1..][1..] == [] && t[1..] == [];
      assert Get(c, t[1..]) == Some(c) && Get(c, s[1..]).Some?;
      assert Survives(c, s[1..]) by { assert Survives(Child(c, Field("name")).value, s[1..][1..]); }
    } else {
      NameSurvives(c, t[1..]);
      if t[0].Keyed? { NotBare(c, s[1..]); }
    }
  }

  /** Two values agree at these paths. */
  ghost predicate Same(a: Json, ps: set<Path>, r: Json) {
    forall p :: p in ps ==> Get(r, p) == Get(a, p)
  }

  // ----- when a write is possible -----

  predicate Holds(v: Json, s: Segment) { if s.Field? then v.Obj? else v.Arr? }

  /** Everything already on the way is the container its segment needs. */
  ghost predicate ShapesMatch(v: Json, d: Path) {
    forall i | 0 <= i < |d| :: ShapeAt(v, d, i)
  }

  predicate ShapeAt(v: Json, d: Path, i: nat)
    requires i < |d|
  {
    Get(v, d[..i]).Some? ==> Holds(Get(v, d[..i]).value, d[i])
  }

  /** A list item is followed by one of its fields, and its name by nothing. */
  predicate NamesEnd(d: Path) {
    d == []
    || ((d[0].Keyed? && |d| > 1 ==> d[1].Field? && (|d| > 2 ==> d[1] != Field(d[0].key))) && NamesEnd(d[1..]))
  }

  lemma ShapeBelow(v: Json, d: Path, c: Json)
    requires d != [] && Child(v, d[0]) == Some(c)
    ensures ShapesMatch(v, d) <==> Holds(v, d[0]) && ShapesMatch(c, d[1..])
  {
    forall i | 0 <= i < |d| - 1 ensures ShapeAt(v, d, i + 1) <==> ShapeAt(c, d[1..], i) {
      assert d[..i + 1][1..] == d[1..][..i] && d[..i + 1][0] == d[0];
    }
    assert d[..0] == [];
    if ShapesMatch(v, d) {
      assert ShapeAt(v, d, 0);
      forall i | 0 <= i < |d| - 1 ensures ShapeAt(c, d[1..], i) { assert ShapeAt(v, d, i + 1); }
    }
    if Holds(v, d[0]) && ShapesMatch(c, d[1..]) {
      forall i | 0 <= i < |d| ensures ShapeAt(v, d, i) {
        if i > 0 { assert ShapeAt(c, d[1..], i - 1); }
      }
    }
  }

  lemma ShapeAbsent(v: Json, d: Path)
    requires d != [] && Child(v, d[0]).None?
    ensures ShapesMatch(v, d) <==> Holds(v, d[0])
  {
    assert d[..0] == [];
    if ShapesMatch(v, d) { assert ShapeAt(v, d, 0); }
    forall i | 0 < i < |d| ensures ShapeAt(v, d, i) { assert d[..i][0] == d[0]; }
  }

  /** A fresh container takes any path it was made for. */
  lemma {:induction false} SeedTakes(rest: Path, value: Json)
    requires rest != [] && NamesEnd(rest)
    ensures Set(Seed(rest), rest, value).Some?
    decreases |rest|, 1
  {
    if rest[0].Keyed? {
      if |rest| > 1 { NewItemTakes(rest, value); }
    } else if |rest| > 1 {
      SeedTakes(rest[1..], value);
    }
  }

  lemma {:induction false} NewItemTakes(d: Path, value: Json)
    requires |d| > 1 && d[0].Keyed? && NamesEnd(d)
    ensures Set(Obj(map[d[0].key := Str(d[0].value)]), d[1..], value).Some?
    decreases |d|, 0
  {
    if |d| > 2 {
      assert d[1..][1..] == d[2..] && NamesEnd(d[1..]);
      SeedTakes(d[2..], value);
    }
  }

  /** A write is possible exactly when everything already on the way has the right shape. */
  lemma {:induction false} SetSucceedsIff(v: Json, d: Path, value: Json)
    requires d != [] && NamesEnd(d)
    ensures Set(v, d, value).Some? <==> ShapesMatch(v, d)
    decreases |d|
  {
    var c := Child(v, d[0]);
    if c.None? {
      ShapeAbsent(v, d);
      if |d| > 1 && Holds(v, d[0]) {
        if d[0].Field? { SeedTakes(d[1..], value); } else { NewItemTakes(d, value); }
      }
    } else {
      ShapeBelow(v, d, c.value);
      if |d| > 1 { SetSucceedsIff(c.value, d[1..], value); }
    }
  }

  lemma ShapeStep(v: Json, d: Path)
    requires d != []
    ensures ShapesMatch(v, d)
            <==> Holds(v, d[0]) && (Child(v, d[0]).Some? ==> ShapesMatch(Child(v, d[0]).value, d[1..]))
  {
    if Child(v, d[0]).Some? { ShapeBelow(v, d, Child(v, d[0]).value); } else { ShapeAbsent(v, d); }
  }

  /** What is there was reached through containers of the right shape. */
  lemma {:induction false} FoundMatches(v: Json, d: Path)
    requires Get(v, d).Some?
    ensures ShapesMatch(v, d)
    decreases |d|
  {
    if d != [] {
      FoundMatches(Child(v, d[0]).value, d[1..]);
      ShapeStep(v, d);
    }
  }

  /** Removing at a path changes no shape on the way to a path that neither extends it nor
      goes through an item it unnames. */
  lemma {:induction false} RemoveKeepsShape(v: Json, q: Path, d: Path)
    requires ByName(q) && ByName(d) && !(q <= d) && !NamesItemOf(q, d)
    ensures ShapesMatch(Remove(v, q), d) <==> ShapesMatch(v, d)
    decreases |d|
  {
    if d == [] { return; }
    SameKeys(q, d);
    ShapeStep(v, d);
    ShapeStep(Remove(v, q), d);
    if q[0] != d[0] {
      RemoveChild(v, q, d[0]);
    } else {
      ByNameTail(q);
      ByNameTail(d);
      assert q == [q[0]] + q[1..] && d == [d[0]] + d[1..];
      RemoveOnRoute(v, q);
      if Child(v, d[0]).Some? { RemoveKeepsShape(Child(v, d[0]).value, q[1..], d[1..]); }
    }
  }

  lemma RemoveOnRoute(v: Json, q: Path)
    requires |q| > 1 && (q[0].Keyed? ==> q[1..] != [Field(q[0].key)])
    ensures Child(Remove(v, q), q[0])
            == if Child(v, q[0]).Some? then Some(Remove(Child(v, q[0]).value, q[1..])) else None
  {
    if q[0].Keyed? && v.Arr? {
      var i := Find(v.items, q[0].key, q[0].value);
      if i < |v.items| {
        RemoveKeepsKey(v.items[i], q[0].key, q[1..]);
        FindAfterUpdate(v.items, i, Remove(v.items[i], q[1..]), q[0].key, q[0].value);
      }
    }
  }

  /** Pruning changes no shape on the way to a path. */
  lemma {:induction false} PruneKeepsShape(v: Json, d: Path)
    requires UniqueOnRoute(v, d) && ByName(d) && NamesEnd(d)
    ensures ShapesMatch(Prune(v), d) <==> ShapesMatch(v, d)
    decreases |d|
  {
    if d == [] { return; }
    ByNameTail(d);
    UniqueStep(v, d);
    ShapeStep(v, d);
    ShapeStep(Prune(v), d);
    if d[0].Keyed? && v.Arr? { PruneItem(v.items, d[0].key, d[0].value); }
    if Child(v, d[0]).Some? {
      var c := Child(v, d[0]).value;
      PruneKeepsShape(c, d[1..]);
      if d[0].Keyed? && Bare(c) { BareFits(c, d); }
    }
  }

  lemma BareFits(c: Json, d: Path)
    requires Bare(c) && d != [] && d[0].Keyed? && d[0].key == "name" && NamesEnd(d)
    ensures ShapesMatch(c, d[1..])
  {
    if |d| > 1 {
      ShapeStep(c, d[1..]);
      assert |d| > 2 ==> d[1] != Field("name");
    }
  }

  /** Where two paths part, both go on in the same kind of container. */
  predicate SameKinds(d: Path, e: Path) {
    d == [] || e == [] || ((d[0].Field? <==> e[0].Field?) && (d[0] == e[0] ==> SameKinds(d[1..], e[1..])))
  }

  /** Writing at one path changes no shape on the way to another of the same kinds. */
  lemma {:induction false} SetKeepsShape(v: Json, d: Path, value: Json, e: Path)
    requires Set(v, d, value).Some? && KeepsNames(d, value) && ByName(d) && ByName(e) && Apart(d, e)
    requires SameKinds(d, e) && NamesEnd(e) && d[|d| - 1].Field?
    ensures ShapesMatch(Set(v, d, value).value, e) <==> ShapesMatch(v, e)
    decreases |d|
  {
    SameKeys(d, e);
    if d[0] != e[0] {
      SetKeepsShapeBeside(v, d, value, e);
    } else {
      ApartTails(d, e);
      ByNameTail(d);
      ByNameTail(e);
      SetOnRoute(v, d, value);
      SetKeepsShape(Opened(v, d), d[1..], value, e[1..]);
      SetKeepsShapeAbove(v, d, value, e);
    }
  }

  /** Where the paths part at once, the other child stays. */
  lemma SetKeepsShapeBeside(v: Json, d: Path, value: Json, e: Path)
    requires Set(v, d, value).Some? && KeepsNames(d, value) && d != [] && e != [] && d[0] != e[0]
    requires d[|d| - 1].Field? && (d[0].Keyed? && e[0].Keyed? ==> d[0].key == e[0].key) && SameKinds(d, e)
    ensures ShapesMatch(Set(v, d, value).value, e) <==> ShapesMatch(v, e)
  {
    ShapeStep(v, e);
    ShapeStep(Set(v, d, value).value, e);
    if d[0].Keyed? { SetOtherItem(v, d, value, e); }
  }

  /** Where they go on together, what holds below holds above. */
  lemma SetKeepsShapeAbove(v: Json, d: Path, value: Json, e: Path)
    requires Set(v, d, value).Some? && KeepsNames(d, value) && |d| > 1 && |e| > 1 && d[0] == e[0]
    requires SameKinds(d, e) && NamesEnd(e) && Set(Opened(v, d), d[1..], value).Some?
    requires ShapesMatch(Set(Opened(v, d), d[1..], value).value, e[1..]) <==> ShapesMatch(Opened(v, d), e[1..])
    ensures ShapesMatch(Set(v, d, value).value, e) <==> ShapesMatch(v, e)
  {
    ShapeStep(v, e);
    ShapeStep(Set(v, d, value).value, e);
    SetOnRoute(v, d, value);
    if Child(v, d[0]).None? { OpenedFits(v, d, e); }
  }

  /** What a write finds or makes at its first segment. */
  function Opened(v: Json, d: Path): Json
    requires d != []
  {
    match Child(v, d[0])
    case Some(c) => c
    case None => if d[0].Field? then Seed(d[1..]) else Obj(map[d[0].key := Str(d[0].value)])
  }

  lemma SetOnRoute(v: Json, d: Path, value: Json)
    requires |d| > 1 && Set(v, d, value).Some? && KeepsNames(d, value)
    ensures Set(Opened(v, d), d[1..], value).Some?
    ensures Child(Set(v, d, value).value, d[0]) == Set(Opened(v, d), d[1..], value)
  {
    if d[0].Keyed? {
      var key, text := d[0].key, d[0].value;
      var items, i := WithItem(v.items, key, text), Find(v.items, key, text);
      SetItem(v, d, value);
      assert items[i] == Opened(v, d);
      FindAppended(v.items, Obj(map[key := Str(text)]), key, text);
      FindAfterUpdate(items, i, Set(items[i], d[1..], value).value, key, text);
    }
  }

  /** What is made for one path fits every other of the same kinds. */
  lemma OpenedFits(v: Json, d: Path, e: Path)
    requires |d| > 1 && |e| > 1 && d[0] == e[0] && Child(v, d[0]).None? && SameKinds(d, e) && NamesEnd(e)
    ensures ShapesMatch(Opened(v, d), e[1..])
  {
    ShapeStep(Opened(v, d), e[1..]);
  }
}
