/** Who owns which fields: the recorded entries, and how they are rebuilt. */
module FieldOwners {
  import opened Wrappers
  import opened JsonPaths
  import opened OwnedFields
  import opened FieldTrees
  import KeyOrder

  /** One manager's entry, reduced to the paths it owns. */
  datatype Entry = Entry(manager: string, operation: string, version: string, paths: set<Path>)

  /** One recorded entry as it is stored. */
  datatype Managed = Managed(manager: Option<string>, operation: Option<string>, version: Option<string>, fieldsV1: bool, fields: Tree)

  ghost function DecodedOne(m: Managed): Entry
    requires m.manager.Some?
  {
    Entry(m.manager.value, m.operation.GetOr("Update"), m.version.GetOr(""), if m.fieldsV1 then Leaves(m.fields) else {})
  }

  ghost function Decoded(ms: seq<Managed>): seq<Entry> {
    if ms == [] then []
    else Decoded(ms[..|ms| - 1]) + (if ms[|ms| - 1].manager.Some? then [DecodedOne(ms[|ms| - 1])] else [])
  }

  method Decode(ms: seq<Managed>) returns (es: seq<Entry>)
    ensures es == Decoded(ms)
  {
    es := [];
    for i := 0 to |ms|
      invariant es == Decoded(ms[..i])
    {
      assert ms[..i + 1][..i] == ms[..i];
      var m := ms[i];
      if m.manager.Some? {
        var paths: set<Path> := {};
        if m.fieldsV1 {
          paths := ReadTree(m.fields, [], {});
          UnderNothing(Leaves(m.fields));
          assert paths == {} + Leaves(m.fields) == Leaves(m.fields);
        }
        es := es + [Entry(m.manager.value, m.operation.GetOr("Update"), m.version.GetOr(""), paths)];
      }
    }
    assert ms[..|ms|] == ms;
  }

  lemma UnderNothing(ps: set<Path>)
    ensures Under([], ps) == ps
  {
    forall p: Path ensures [] + p == p {
    }
  }

  ghost predicate Recordable(es: seq<Entry>) {
    forall i :: 0 <= i < |es| ==> es[i].paths != {} && PrefixFree(es[i].paths)
  }

  /** Recording entries loses nothing. */
  method Encode(es: seq<Entry>) returns (ms: seq<Managed>)
    ensures Recordable(es) ==> Decoded(ms) == es
  {
    ms := [];
    for i := 0 to |es|
      invariant Recordable(es) ==> Decoded(ms) == es[..i]
    {
      var fields := FieldsV1(es[i].paths);
      var m := Managed(Some(es[i].manager), Some(es[i].operation), Some(es[i].version), true, fields);
      assert (ms + [m])[..|ms|] == ms;
      assert es[..i + 1] == es[..i] + [es[i]];
      ms := ms + [m];
    }
    assert es[..|es|] == es;
  }

  /** Every decoded entry holds a prefix-free set. */
  lemma {:induction false} DecodedPrefixFree(ms: seq<Managed>)
    ensures forall i :: 0 <= i < |Decoded(ms)| ==> PrefixFree(Decoded(ms)[i].paths)
  {
    if ms != [] {
      DecodedPrefixFree(ms[..|ms| - 1]);
      LeavesPrefixFree(ms[|ms| - 1].fields);
    }
  }

  predicate Mine(e: Entry, manager: string) { e.manager == manager && e.operation == "Apply" }

  /** The paths the manager's apply entry holds. */
  function Previous(es: seq<Entry>, manager: string): set<Path> {
    if es == [] then {} else if Mine(es[0], manager) then es[0].paths else Previous(es[1..], manager)
  }

  predicate Covers(e: Entry, path: Path) { exists owned :: owned in e.paths && owned <= path }

  /** Another manager's apply entry. */
  predicate Other(e: Entry, manager: string) { e.manager != manager && e.operation == "Apply" }

  /** The first other manager that applied the path or something it lies in. */
  function OwnerOf(es: seq<Entry>, path: Path, manager: string): (r: Option<string>)
    ensures r.Some? ==> r.value != manager
  {
    if es == [] then None
    else if Other(es[0], manager) && Covers(es[0], path) then Some(es[0].manager)
    else OwnerOf(es[1..], path, manager)
  }

  /** Forcing a path: the owner keeps exactly the paths the contested one lies in. */
  function Yield(es: seq<Entry>, owner: string, path: Path): (r: seq<Entry>)
    ensures |r| == |es|
    ensures forall i :: 0 <= i < |es| ==>
              r[i] == if es[i].manager == owner then es[i].(paths := set q | q in es[i].paths && q <= path) else es[i]
  {
    if es == [] then []
    else
      [if es[0].manager == owner then es[0].(paths := set q | q in es[0].paths && q <= path) else es[0]]
      + Yield(es[1..], owner, path)
  }

  /** At most one apply entry for each manager. */
  ghost predicate OneApply(es: seq<Entry>) {
    forall i, j | 0 <= i < j < |es| :: !(es[i].operation == "Apply" && Mine(es[j], es[i].manager))
  }

  lemma TailOneApply(es: seq<Entry>)
    requires OneApply(es) && es != []
    ensures OneApply(es[1..])
  {
  }

  // ----- rebuilding the entries -----

  predicate Stays(e: Entry, manager: string) { !Mine(e, manager) && e.paths != {} }

  function Staying(es: seq<Entry>, manager: string): seq<Entry> {
    if es == [] then [] else (if Stays(es[0], manager) then [es[0]] else []) + Staying(es[1..], manager)
  }

  /** Stable insertion by manager name. */
  function InsertEntry(es: seq<Entry>, e: Entry): seq<Entry> {
    if es == [] then [e]
    else if KeyOrder.Less(e.manager, es[|es| - 1].manager) then InsertEntry(es[..|es| - 1], e) + [es[|es| - 1]]
    else es + [e]
  }

  function SortEntries(es: seq<Entry>): seq<Entry> {
    if es == [] then [] else InsertEntry(SortEntries(es[..|es| - 1]), es[|es| - 1])
  }

  lemma {:induction false} InsertKeeps(es: seq<Entry>, e: Entry)
    ensures forall x :: x in InsertEntry(es, e) <==> x in es || x == e
  {
    if es != [] && KeyOrder.Less(e.manager, es[|es| - 1].manager) {
      InsertKeeps(es[..|es| - 1], e);
      assert es == es[..|es| - 1] + [es[|es| - 1]];
    }
  }

  lemma {:induction false} SortKeeps(es: seq<Entry>)
    ensures forall x :: x in SortEntries(es) <==> x in es
  {
    if es != [] {
      SortKeeps(es[..|es| - 1]);
      InsertKeeps(SortEntries(es[..|es| - 1]), es[|es| - 1]);
      assert es == es[..|es| - 1] + [es[|es| - 1]];
    }
  }

  ghost predicate ByManager(es: seq<Entry>) {
    forall i, j :: 0 <= i < j < |es| ==> !KeyOrder.Less(es[j].manager, es[i].manager)
  }

  lemma NotLessTransitive(a: string, b: string, c: string)
    requires !KeyOrder.Less(b, a) && !KeyOrder.Less(c, b)
    ensures !KeyOrder.Less(c, a)
  {
    KeyOrder.LessTotal(a, b);
    if KeyOrder.Less(c, a) && KeyOrder.Less(a, b) { KeyOrder.LessTransitive(c, a, b); }
  }

  lemma {:induction false} InsertOrders(es: seq<Entry>, e: Entry)
    requires ByManager(es)
    ensures ByManager(InsertEntry(es, e))
  {
    if es == [] { return; }
    var init, last := es[..|es| - 1], es[|es| - 1];
    if KeyOrder.Less(e.manager, last.manager) {
      InsertOrders(init, e);
      InsertKeeps(init, e);
      var r := InsertEntry(init, e);
      NotBothLess(e.manager, last.manager);
      forall i | 0 <= i < |r| ensures !KeyOrder.Less(last.manager, r[i].manager) {
        assert r[i] in r;
        if r[i] in init { var k :| 0 <= k < |init| && init[k] == r[i]; }
      }
    } else {
      forall i | 0 <= i < |es| ensures !KeyOrder.Less(e.manager, es[i].manager) {
        if i < |es| - 1 { NotLessTransitive(es[i].manager, last.manager, e.manager); }
      }
    }
  }

  lemma NotBothLess(a: string, b: string)
    requires KeyOrder.Less(a, b)
    ensures !KeyOrder.Less(b, a)
  {
    if KeyOrder.Less(b, a) {
      KeyOrder.LessTransitive(a, b, a);
      KeyOrder.LessIrreflexive(a);
    }
  }

  /** The recorded entries are in order of manager. */
  lemma {:induction false} SortOrders(es: seq<Entry>)
    ensures ByManager(SortEntries(es))
  {
    if es != [] {
      SortOrders(es[..|es| - 1]);
      InsertOrders(SortEntries(es[..|es| - 1]), es[|es| - 1]);
    }
  }

  lemma {:induction false} StayingStays(es: seq<Entry>, manager: string)
    ensures forall x :: x in Staying(es, manager) <==> x in es && Stays(x, manager)
  {
    if es != [] { StayingStays(es[1..], manager); }
  }

  /** The manager's entry replaced, empty entries dropped, in order of manager. */
  function Rebuilt(es: seq<Entry>, mine: Entry): seq<Entry> {
    SortEntries(Staying(es, mine.manager) + (if mine.paths != {} then [mine] else []))
  }

  lemma RebuiltHolds(es: seq<Entry>, mine: Entry)
    ensures forall x :: x in Rebuilt(es, mine) <==> (x in es && Stays(x, mine.manager)) || (x == mine && mine.paths != {})
  {
    StayingStays(es, mine.manager);
    SortKeeps(Staying(es, mine.manager) + (if mine.paths != {} then [mine] else []));
  }

  lemma RebuiltRecordable(es: seq<Entry>, mine: Entry)
    requires (forall i :: 0 <= i < |es| ==> PrefixFree(es[i].paths)) && PrefixFree(mine.paths)
    ensures Recordable(Rebuilt(es, mine))
  {
    var r := Rebuilt(es, mine);
    RebuiltHolds(es, mine);
    forall i | 0 <= i < |r| ensures r[i].paths != {} && PrefixFree(r[i].paths) {
      assert r[i] in r;
      if r[i] in es { var k :| 0 <= k < |es| && es[k] == r[i]; }
    }
  }

  // ----- recording again -----

  lemma {:induction false} PreviousIs(es: seq<Entry>, mine: Entry)
    requires Mine(mine, mine.manager) && forall x :: x in es && Mine(x, mine.manager) ==> x == mine
    ensures Previous(es, mine.manager) == if mine in es then mine.paths else {}
  {
    if es != [] && !Mine(es[0], mine.manager) { PreviousIs(es[1..], mine); }
  }

  lemma RecordedIsPrevious(left: seq<Entry>, mine: Entry)
    requires Mine(mine, mine.manager)
    ensures Previous(Rebuilt(left, mine), mine.manager) == mine.paths
  {
    RebuiltHolds(left, mine);
    PreviousIs(Rebuilt(left, mine), mine);
  }

  lemma SortedIsSorted(es: seq<Entry>)
    requires ByManager(es)
    ensures SortEntries(es) == es
  {
    if es != [] {
      var init, last := es[..|es| - 1], es[|es| - 1];
      SortedIsSorted(init);
      assert init + [last] == es;
    }
  }

  lemma {:induction false} StayingAppends(es: seq<Entry>, e: Entry, manager: string)
    ensures Staying(es + [e], manager) == Staying(es, manager) + (if Stays(e, manager) then [e] else [])
  {
    if es == [] {
      assert [e][1..] == [] && es + [e] == [e];
    } else {
      StayingAppends(es[1..], e, manager);
      assert (es + [e])[1..] == es[1..] + [e];
    }
  }

  lemma {:induction false} AllStay(es: seq<Entry>, manager: string)
    requires forall x :: x in es ==> Stays(x, manager)
    ensures Staying(es, manager) == es
  {
    if es != [] {
      AllStay(es[1..], manager);
      assert es == [es[0]] + es[1..];
    }
  }

  /** Taking the manager's own entry out of a sorted list again gives the list before it was
      put in. */
  lemma {:induction false} InsertedLeaves(es: seq<Entry>, mine: Entry)
    requires Mine(mine, mine.manager) && forall x :: x in es ==> Stays(x, mine.manager)
    ensures Staying(InsertEntry(es, mine), mine.manager) == es
  {
    if es != [] && KeyOrder.Less(mine.manager, es[|es| - 1].manager) {
      var init, last := es[..|es| - 1], es[|es| - 1];
      InsertedLeaves(init, mine);
      StayingAppends(InsertEntry(init, mine), last, mine.manager);
      assert es == init + [last];
    } else {
      AllStay(es, mine.manager);
      StayingAppends(es, mine, mine.manager);
    }
  }

  /** Recording the same declaration again leaves the recorded list as it is. */
  lemma RebuiltTwice(left: seq<Entry>, mine: Entry)
    requires Mine(mine, mine.manager)
    ensures Rebuilt(Rebuilt(left, mine), mine) == Rebuilt(left, mine)
  {
    var others := SortEntries(Staying(left, mine.manager));
    StayingStays(left, mine.manager);
    SortKeeps(Staying(left, mine.manager));
    SortOrders(Staying(left, mine.manager));
    SortedIsSorted(others);
    if mine.paths == {} {
      AllStay(others, mine.manager);
      assert Staying(left, mine.manager) + [] == Staying(left, mine.manager) && others + [] == others;
    } else {
      SortsLast(Staying(left, mine.manager), mine);
      InsertedLeaves(others, mine);
      SortsLast(others, mine);
    }
  }

  lemma SortsLast(es: seq<Entry>, e: Entry)
    ensures SortEntries(es + [e]) == InsertEntry(SortEntries(es), e)
  {
    assert (es + [e])[..|es|] == es;
  }

  /** Recording keeps one apply entry for each manager. */
  lemma RebuiltOneApply(left: seq<Entry>, mine: Entry)
    requires OneApply(left) && Mine(mine, mine.manager)
    ensures OneApply(Rebuilt(left, mine))
  {
    var others := Staying(left, mine.manager);
    StayingOneApply(left, mine.manager);
    StayingStays(left, mine.manager);
    if mine.paths == {} {
      assert others + [] == others;
    } else {
      forall x | x in others ensures !(x.operation == "Apply" && Mine(mine, x.manager)) {
      }
      AppendOneApply(others, mine);
    }
    SortOneApply(others + (if mine.paths != {} then [mine] else []));
  }

  lemma AppendOneApply(es: seq<Entry>, e: Entry)
    requires OneApply(es) && forall x :: x in es ==> !(x.operation == "Apply" && Mine(e, x.manager))
    ensures OneApply(es + [e])
  {
    var r := es + [e];
    forall i, j | 0 <= i < j < |r| ensures !(r[i].operation == "Apply" && Mine(r[j], r[i].manager)) {
      assert r[i] == es[i] && es[i] in es;
    }
  }

  lemma {:induction false} StayingOneApply(es: seq<Entry>, manager: string)
    requires OneApply(es)
    ensures OneApply(Staying(es, manager))
  {
    if es != [] {
      TailOneApply(es);
      StayingOneApply(es[1..], manager);
      StayingStays(es[1..], manager);
      if Stays(es[0], manager) { PrependOneApply(es, Staying(es[1..], manager)); }
      assert [] + Staying(es[1..], manager) == Staying(es[1..], manager);
    }
  }

  lemma PrependOneApply(es: seq<Entry>, kept: seq<Entry>)
    requires es != [] && OneApply(es) && OneApply(kept) && forall x :: x in kept ==> x in es[1..]
    ensures OneApply([es[0]] + kept)
  {
    var r := [es[0]] + kept;
    forall i, j | 0 <= i < j < |r| ensures !(r[i].operation == "Apply" && Mine(r[j], r[i].manager)) {
      assert r[j] == kept[j - 1] && kept[j - 1] in es[1..];
      if i == 0 {
        var k :| 0 <= k < |es| - 1 && es[1..][k] == r[j];
        assert es[k + 1] == r[j];
      } else {
        assert r[i] == kept[i - 1];
      }
    }
  }

  lemma {:induction false} InsertOneApply(es: seq<Entry>, e: Entry)
    requires OneApply(es + [e])
    ensures OneApply(InsertEntry(es, e))
  {
    if es != [] && KeyOrder.Less(e.manager, es[|es| - 1].manager) {
      var init, last := es[..|es| - 1], es[|es| - 1];
      var all := es + [e];
      assert forall i | 0 <= i < |init| :: all[i] == init[i] && (init + [e])[i] == init[i];
      assert all[|init|] == last && all[|es|] == e;
      InsertOneApply(init, e);
      InsertKeeps(init, e);
      var r := InsertEntry(init, e);
      forall i | 0 <= i < |r| ensures !(r[i].operation == "Apply" && Mine(last, r[i].manager)) {
        assert r[i] in r;
        if r[i] in init {
          var k :| 0 <= k < |init| && init[k] == r[i];
          assert all[k] == r[i];
        }
      }
    }
  }

  lemma {:induction false} SortOneApply(es: seq<Entry>)
    requires OneApply(es)
    ensures OneApply(SortEntries(es))
  {
    if es != [] {
      var init, last := es[..|es| - 1], es[|es| - 1];
      SortOneApply(init);
      SortKeeps(init);
      forall x | x in SortEntries(init) ensures !(x.operation == "Apply" && Mine(last, x.manager)) {
        var k :| 0 <= k < |init| && init[k] == x;
        assert es[k] == x;
      }
      AppendOneApply(SortEntries(init), last);
      InsertOneApply(SortEntries(init), last);
    }
  }
}
