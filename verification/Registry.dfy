/** The SQLite registry: each method below is one transaction over the version table.

    `rows` and the two counters are what the database holds. The ghost `log` is the
    history including what compaction deleted; `Valid` ties the two together. */
module Registry {
  import opened Wrappers
  import opened KeyOrder
  import opened RegistryLog

  datatype Error =
    | AlreadyExists(key: StoreKey)
    | NotFound(key: StoreKey)
    | Conflict(expected: nat, actual: nat)
    | Compacted(requested: nat, floor: nat)
    | FutureRevision(requested: nat, current: nat)
    | Invalid
    | OutOfRange

  datatype Page = Page(items: seq<Object>, revision: nat, nextAfter: Option<StoreKey>)

  /** Revisions are stored as signed 64-bit integers. */
  const MAX_REVISION: nat := 0x7FFF_FFFF_FFFF_FFFF
  const MAX_LIST_LIMIT := 4096
  const WATCH_BATCH := 256

  function ValidateRevision(rev: nat, current: nat, floor: nat): Option<Error> {
    if rev < floor then Some(Compacted(rev, floor))
    else if rev > current then Some(FutureRevision(rev, current))
    else None
  }

  /** The revision a maintenance pass compacts to: `window` behind the head, if that is
      above the floor and not the head itself. */
  function MaintenanceRevision(current: nat, floor: nat, window: nat): Option<nat> {
    if window > current then None
    else
      var target := current - window;
      if target > floor && target < current then Some(target) else None
  }

  // ----- ORDER BY key -----

  function Insert(row: Row, sorted: seq<Row>): seq<Row> {
    if sorted != [] && Less(sorted[0].key, row.key) then [sorted[0]] + Insert(row, sorted[1..])
    else [row] + sorted
  }

  function OrderByKey(rows: seq<Row>): seq<Row> {
    if rows == [] then [] else Insert(rows[0], OrderByKey(rows[1..]))
  }

  ghost predicate KeysDiffer(rows: seq<Row>) {
    forall i, j | 0 <= i < j < |rows| :: rows[i].key != rows[j].key
  }

  ghost predicate RowKeysAscend(rows: seq<Row>) {
    forall i, j | 0 <= i < j < |rows| :: Less(rows[i].key, rows[j].key)
  }

  lemma {:induction false} InsertMembers(row: Row, sorted: seq<Row>)
    ensures multiset(Insert(row, sorted)) == multiset{row} + multiset(sorted)
  {
    if sorted != [] && Less(sorted[0].key, row.key) {
      InsertMembers(row, sorted[1..]);
      assert sorted == [sorted[0]] + sorted[1..];
    }
  }

  lemma {:induction false} OrderMembers(rows: seq<Row>)
    ensures multiset(OrderByKey(rows)) == multiset(rows)
    ensures forall row :: row in OrderByKey(rows) <==> row in rows
  {
    if rows != [] {
      OrderMembers(rows[1..]);
      InsertMembers(rows[0], OrderByKey(rows[1..]));
      assert rows == [rows[0]] + rows[1..];
    }
    forall row ensures row in OrderByKey(rows) <==> row in rows {
      assert row in OrderByKey(rows) <==> row in multiset(OrderByKey(rows));
      assert row in rows <==> row in multiset(rows);
    }
  }

  lemma {:induction false} InsertAscends(row: Row, sorted: seq<Row>)
    requires RowKeysAscend(sorted) && forall other | other in sorted :: other.key != row.key
    ensures RowKeysAscend(Insert(row, sorted))
  {
    if sorted != [] {
      LessTotal(sorted[0].key, row.key);
      if Less(sorted[0].key, row.key) {
        InsertAscends(row, sorted[1..]);
        var rest := Insert(row, sorted[1..]);
        InsertMembers(row, sorted[1..]);
        forall j | 0 <= j < |rest| ensures Less(sorted[0].key, rest[j].key) {
          assert rest[j] in multiset(rest);
          if rest[j] != row { assert rest[j] in sorted[1..]; }
        }
      } else {
        forall j | 0 <= j < |sorted| ensures Less(row.key, sorted[j].key) {
          if j > 0 { LessTransitive(row.key, sorted[0].key, sorted[j].key); }
        }
      }
    }
  }

  lemma {:induction false} OrderAscends(rows: seq<Row>)
    requires KeysDiffer(rows)
    ensures RowKeysAscend(OrderByKey(rows))
  {
    if rows != [] {
      OrderAscends(rows[1..]);
      OrderMembers(rows[1..]);
      InsertAscends(rows[0], OrderByKey(rows[1..]));
    }
  }

  // ----- pages of a view -----

  /** An absent continuation key starts below every key. */
  function Bound(after: Option<StoreKey>): string {
    match after
    case Some(key) => key
    case None => ""
  }

  ghost predicate OwnKeys(view: View) {
    forall key | key in view :: key != "" && view[key].key == key
  }

  lemma ViewsOwnKeys(log: seq<Row>, rev: nat)
    requires WellFormed(log) && rev <= |log|
    ensures OwnKeys(At(log, rev))
  {
    forall key | key in At(log, rev) ensures key != "" && At(log, rev)[key].key == key { ViewHoldsItsKeys(log, rev, key); }
  }

  ghost predicate KeysAscend(items: seq<Object>) {
    forall i, j | 0 <= i < j < |items| :: Less(items[i].key, items[j].key)
  }

  ghost predicate UpTo(key: StoreKey, bound: Option<StoreKey>) {
    bound.Some? ==> key == bound.value || Less(key, bound.value)
  }

  /** `items` is exactly the part of `view` under `prefix` with keys above `after` and up
      to `upTo`, each object once, in key order. */
  ghost predicate IsRange(items: seq<Object>, view: View, prefix: string, after: string, upTo: Option<StoreKey>) {
    && KeysAscend(items)
    && (forall item | item in items ::
          item.key in view && view[item.key] == item && prefix <= item.key && Less(after, item.key)
          && UpTo(item.key, upTo))
    && (forall key | key in view && prefix <= key && Less(after, key) && UpTo(key, upTo) :: view[key] in items)
  }

  /** The LIST query's row test: visible at `rev`, under `prefix`, above `after`. */
  function Selects(rows: seq<Row>, prefix: string, after: string, rev: nat): Row -> bool {
    (row: Row) =>
      prefix <= row.key && Less(after, row.key) && !row.kind.Deleted? && Latest(rows, row.key, rev) == Some(row)
  }

  lemma SelectedRows(log: seq<Row>, floor: nat, prefix: string, after: string, rev: nat, row: Row)
    requires WellFormed(log) && floor <= rev <= |log|
    ensures var rows := Retained(log, floor); var view := At(log, rev);
            row in Filter(rows, Selects(rows, prefix, after, rev))
            <==> prefix <= row.key && Less(after, row.key) && row.key in view
                 && Visible(Latest(rows, row.key, rev)) == Some(view[row.key])
                 && Latest(rows, row.key, rev) == Some(row)
  {
    var rows := Retained(log, floor);
    FilterMembers(rows, Selects(rows, prefix, after, rev), row);
    CompactionKeepsReads(log, floor, row.key, rev);
  }

  lemma SelectedKeysDiffer(rows: seq<Row>, prefix: string, after: string, rev: nat)
    requires Ascending(rows)
    ensures KeysDiffer(Filter(rows, Selects(rows, prefix, after, rev)))
  {
    var test := Selects(rows, prefix, after, rev);
    var found := Filter(rows, test);
    SubsequenceAscends(rows, test);
    forall i, j | 0 <= i < j < |found| ensures found[i].key != found[j].key {
      FilterMembers(rows, test, found[i]);
      FilterMembers(rows, test, found[j]);
    }
  }

  /** The rows of the LIST query, as the objects it returns. */
  function Query(rows: seq<Row>, prefix: string, after: string, rev: nat): seq<Object> {
    ObjectsOf(OrderByKey(Filter(rows, Selects(rows, prefix, after, rev))))
  }

  lemma QueryAscends(log: seq<Row>, floor: nat, prefix: string, after: string, rev: nat)
    requires WellFormed(log)
    ensures KeysAscend(Query(Retained(log, floor), prefix, after, rev))
  {
    var rows := Retained(log, floor);
    LogAscends(log);
    SubsequenceAscends(log, Kept(log, floor));
    SelectedKeysDiffer(rows, prefix, after, rev);
    var found := Filter(rows, Selects(rows, prefix, after, rev));
    OrderAscends(found);
  }

  lemma QueryIsSound(log: seq<Row>, floor: nat, prefix: string, after: string, rev: nat, i: nat)
    requires WellFormed(log) && floor <= rev <= |log| && i < |Query(Retained(log, floor), prefix, after, rev)|
    ensures var item := Query(Retained(log, floor), prefix, after, rev)[i];
            item.key in At(log, rev) && At(log, rev)[item.key] == item && prefix <= item.key && Less(after, item.key)
  {
    var rows := Retained(log, floor);
    var selected := Filter(rows, Selects(rows, prefix, after, rev));
    OrderMembers(selected);
    var row := OrderByKey(selected)[i];
    assert row in OrderByKey(selected);
    SelectedRows(log, floor, prefix, after, rev, row);
  }

  lemma QueryIsComplete(log: seq<Row>, floor: nat, prefix: string, after: string, rev: nat, key: StoreKey)
    requires WellFormed(log) && floor <= rev <= |log| && key in At(log, rev) && prefix <= key && Less(after, key)
    ensures At(log, rev)[key] in Query(Retained(log, floor), prefix, after, rev)
  {
    var rows := Retained(log, floor);
    var selected := Filter(rows, Selects(rows, prefix, after, rev));
    CompactionKeepsReads(log, floor, key, rev);
    var row := Latest(rows, key, rev).value;
    SelectedRows(log, floor, prefix, after, rev, row);
    OrderMembers(selected);
    var found := OrderByKey(selected);
    var i :| 0 <= i < |found| && found[i] == row;
    assert ObjectsOf(found)[i] == At(log, rev)[key];
  }

  /** The whole ordered result of the LIST query. */
  lemma QueryIsRange(log: seq<Row>, floor: nat, prefix: string, after: string, rev: nat)
    requires WellFormed(log) && floor <= rev <= |log|
    ensures IsRange(Query(Retained(log, floor), prefix, after, rev), At(log, rev), prefix, after, None)
  {
    var items, view := Query(Retained(log, floor), prefix, after, rev), At(log, rev);
    QueryAscends(log, floor, prefix, after, rev);
    forall item | item in items
      ensures item.key in view && view[item.key] == item && prefix <= item.key && Less(after, item.key)
    {
      var i :| 0 <= i < |items| && items[i] == item;
      QueryIsSound(log, floor, prefix, after, rev, i);
    }
    forall key: StoreKey | key in view && prefix <= key && Less(after, key) ensures view[key] in items {
      QueryIsComplete(log, floor, prefix, after, rev, key);
    }
  }

  lemma NotBeyond(key: StoreKey, bound: StoreKey)
    requires UpTo(key, Some(bound))
    ensures !Less(bound, key)
  {
    LessIrreflexive(key);
    if Less(key, bound) && Less(bound, key) { LessTransitive(key, bound, key); }
  }

  lemma BelowBound(key: StoreKey, last: StoreKey, upTo: Option<StoreKey>)
    requires UpTo(key, Some(last)) && UpTo(last, upTo)
    ensures UpTo(key, upTo)
  {
    if upTo.Some? && Less(key, last) && Less(last, upTo.value) { LessTransitive(key, last, upTo.value); }
  }

  /** Cutting a range after its first items leaves the range up to the last one kept. */
  lemma RangePrefix(items: seq<Object>, n: nat, view: View, prefix: string, after: string, upTo: Option<StoreKey>)
    requires 0 < n <= |items| && IsRange(items, view, prefix, after, upTo) && OwnKeys(view)
    ensures IsRange(items[..n], view, prefix, after, Some(items[n - 1].key))
  {
    var last := items[n - 1].key;
    assert UpTo(last, upTo) by { assert items[n - 1] in items; }
    forall key | key in view && prefix <= key && Less(after, key) && UpTo(key, Some(last))
      ensures view[key] in items[..n]
    {
      BelowBound(key, last, upTo);
      var i :| 0 <= i < |items| && items[i] == view[key];
      NotBeyond(key, last);
      assert i < n;
      assert items[..n][i] == view[key];
    }
    forall item | item in items[..n] ensures UpTo(item.key, Some(last)) && item in items {
      var i :| 0 <= i < n && items[i] == item;
    }
  }

  /** A range up to a key followed by the range above that key is one range. */
  lemma RangesJoin(first: seq<Object>, second: seq<Object>, view: View, prefix: string, after: string,
                   middle: StoreKey, upTo: Option<StoreKey>)
    requires OwnKeys(view) && Less(after, middle) && UpTo(middle, upTo)
    requires IsRange(first, view, prefix, after, Some(middle)) && IsRange(second, view, prefix, middle, upTo)
    ensures IsRange(first + second, view, prefix, after, upTo)
  {
    TotalOrder();
    var all := first + second;
    forall i, j | 0 <= i < j < |all| ensures Less(all[i].key, all[j].key) {
      if i < |first| <= j {
        assert first[i] in first && second[j - |first|] in second;
      }
    }
    forall item | item in all ensures Less(after, item.key) && UpTo(item.key, upTo) {}
    forall key | key in view && prefix <= key && Less(after, key) && UpTo(key, upTo) ensures view[key] in all {
      if !UpTo(key, Some(middle)) { assert view[key] in second; }
    }
  }

  /** One LIST answer: a range no longer than the limit, cut only when it is full and
      something is left, and then cut at its own last key. */
  ghost predicate IsPage(items: seq<Object>, next: Option<StoreKey>, view: View, prefix: string, after: string, limit: nat) {
    && |items| <= limit
    && IsRange(items, view, prefix, after, next)
    && (next.Some? ==>
          && |items| == limit > 0 && items[limit - 1].key == next.value
          && exists key :: key in view && prefix <= key && Less(next.value, key))
  }

  lemma CutPage(all: seq<Object>, limit: nat, view: View, prefix: string, after: string)
    requires IsRange(all, view, prefix, after, None) && OwnKeys(view) && 0 < limit
    ensures |all| > limit ==> IsPage(all[..limit], Some(all[limit - 1].key), view, prefix, after, limit)
    ensures |all| <= limit ==> IsPage(all, None, view, prefix, after, limit)
  {
    if |all| > limit {
      RangePrefix(all, limit, view, prefix, after, None);
      var rest := all[limit];
      assert rest in all && Less(all[limit - 1].key, rest.key);
      assert rest.key in view && prefix <= rest.key;
    }
  }

  function ObjectsOf(found: seq<Row>): (items: seq<Object>)
    ensures |items| == |found|
    ensures forall i | 0 <= i < |found| :: items[i] == ObjectOf(found[i])
  {
    if found == [] then [] else ObjectsOf(found[..|found| - 1]) + [ObjectOf(found[|found| - 1])]
  }

  lemma {:induction false} SameOrder(a: seq<Object>, b: seq<Object>)
    requires KeysAscend(a) && KeysAscend(b) && forall item :: item in a <==> item in b
    ensures a == b
  {
    assert b == [] || b[0] in b;
    if a != [] {
      var first := a[0];
      assert first in a && first in b;
      var j :| 0 <= j < |b| && b[j] == first;
      assert b[0] in b && b[0] in a;
      var i :| 0 <= i < |a| && a[i] == b[0];
      LessIrreflexive(first.key);
      if i > 0 && j > 0 { LessTransitive(a[0].key, b[0].key, a[0].key); }
      assert a[0] == b[0];
      forall item ensures item in a[1..] <==> item in b[1..] { TailMembers(a, item); TailMembers(b, item); }
      SameOrder(a[1..], b[1..]);
      assert a == [a[0]] + a[1..] && b == [b[0]] + b[1..];
    }
  }

  lemma TailMembers(items: seq<Object>, item: Object)
    requires KeysAscend(items) && items != []
    ensures item in items[1..] <==> item in items && item != items[0]
  {
    LessIrreflexive(item.key);
    assert items == [items[0]] + items[1..];
  }

  /** A range is determined by its view and bounds. */
  lemma RangeUnique(a: seq<Object>, b: seq<Object>, view: View, prefix: string, after: string, upTo: Option<StoreKey>)
    requires IsRange(a, view, prefix, after, upTo) && IsRange(b, view, prefix, after, upTo)
    ensures a == b
  {
    forall item ensures item in a <==> item in b {}
    SameOrder(a, b);
  }

  // ----- the WATCH query -----

  function InWindow(prefix: string, after: nat): Row -> bool {
    (row: Row) => row.revision > after && prefix <= row.key
  }

  /** The event the watch reader builds from a row and the table it was read from:
      the previous version is the newest row of the key with a smaller revision. */
  function EventOf(rows: seq<Row>, row: Row): Event {
    var earlier := if row.revision == 0 then None else Latest(rows, row.key, row.revision - 1);
    Change(Visible(earlier), row.kind, row.revision, ObjectOf(row))
  }

  function EventsOf(rows: seq<Row>, found: seq<Row>): (events: seq<Event>)
    ensures |events| == |found|
    ensures forall i | 0 <= i < |found| :: events[i] == EventOf(rows, found[i])
  {
    if found == [] then []
    else EventsOf(rows, found[..|found| - 1]) + [EventOf(rows, found[|found| - 1])]
  }

  lemma FirstEvents(rows: seq<Row>, found: seq<Row>, n: nat)
    requires n <= |found|
    ensures EventsOf(rows, found[..n]) == EventsOf(rows, found)[..n]
  {
  }

  method ReadEvents(rows: seq<Row>, raw: seq<Row>) returns (events: seq<Event>)
    ensures events == EventsOf(rows, raw)
  {
    events := [];
    for i := 0 to |raw|
      invariant |events| == i && forall k | 0 <= k < i :: events[k] == EventOf(rows, raw[k])
    {
      events := events + [EventOf(rows, raw[i])];
    }
  }

  /** Reading the retained rows above a revision at or above the floor yields the log's own events. */
  lemma {:induction false} WindowIsChanges(log: seq<Row>, floor: nat, prefix: string, after: nat, n: nat)
    requires WellFormed(log) && floor <= after <= n <= |log|
    ensures EventsOf(Retained(log, floor), Filter(log[..n], InWindow(prefix, after))) == Changes(log, prefix, after, n)
    decreases n
  {
    var test, rows := InWindow(prefix, after), Retained(log, floor);
    if n > after {
      WindowIsChanges(log, floor, prefix, after, n - 1);
      WindowGrows(log, prefix, after, n);
      RetainedEvent(log, floor, n - 1);
      EventsLast(rows, Filter(log[..n - 1], test), log[n - 1]);
    } else {
      NothingInWindow(log[..n], prefix, after);
    }
  }

  lemma WindowGrows(log: seq<Row>, prefix: string, after: nat, n: nat)
    requires WellFormed(log) && after < n <= |log|
    ensures Filter(log[..n], InWindow(prefix, after))
            == Filter(log[..n - 1], InWindow(prefix, after)) + (if prefix <= log[n - 1].key then [log[n - 1]] else [])
  {
    assert log[..n] == log[..n - 1] + [log[n - 1]] && log[n - 1].revision == n;
    FilterLast(log[..n - 1], log[n - 1], InWindow(prefix, after));
  }

  lemma RetainedEvent(log: seq<Row>, floor: nat, n: nat)
    requires WellFormed(log) && floor <= n < |log|
    ensures EventOf(Retained(log, floor), log[n]) == EventAt(log, n)
  {
    CompactionKeepsReads(log, floor, log[n].key, n);
  }

  lemma EventsLast(rows: seq<Row>, found: seq<Row>, row: Row)
    ensures EventsOf(rows, found + [row]) == EventsOf(rows, found) + [EventOf(rows, row)]
  {
    assert (found + [row])[..|found|] == found;
  }

  /** Compaction is invisible at and above the new floor: every lookup, every LIST query
      and every batch of events answers as before it. */
  lemma CompactionInvisible(log: seq<Row>, low: nat, high: nat, rev: nat, key: StoreKey, prefix: string, after: string)
    requires WellFormed(log) && low <= high <= rev <= |log|
    ensures var before, later := Retained(log, low), Retained(log, high);
            && Latest(before, key, rev) == Latest(later, key, rev)
            && Query(before, prefix, after, rev) == Query(later, prefix, after, rev)
            && EventsOf(before, Filter(before, InWindow(prefix, rev))) == EventsOf(later, Filter(later, InWindow(prefix, rev)))
  {
    CompactionKeepsReads(log, low, key, rev);
    CompactionKeepsReads(log, high, key, rev);
    QueryIsRange(log, low, prefix, after, rev);
    QueryIsRange(log, high, prefix, after, rev);
    RangeUnique(Query(Retained(log, low), prefix, after, rev), Query(Retained(log, high), prefix, after, rev),
                At(log, rev), prefix, after, None);
    RetainedWindow(log, low, prefix, rev);
    RetainedWindow(log, high, prefix, rev);
  }

  lemma RetainedWindow(log: seq<Row>, floor: nat, prefix: string, after: nat)
    requires WellFormed(log) && floor <= after <= |log|
    ensures EventsOf(Retained(log, floor), Filter(Retained(log, floor), InWindow(prefix, after)))
         == Changes(log, prefix, after, |log|)
  {
    FilterFilter(log, Kept(log, floor), InWindow(prefix, after), InWindow(prefix, after));
    WindowIsChanges(log, floor, prefix, after, |log|);
    assert log[..|log|] == log;
  }

  lemma {:induction false} NothingInWindow(rows: seq<Row>, prefix: string, after: nat)
    requires forall row | row in rows :: row.revision <= after
    ensures Filter(rows, InWindow(prefix, after)) == []
  {
    if rows != [] { NothingInWindow(rows[..|rows| - 1], prefix, after); }
  }

  /** The first rows of a window, up to one with revision `last`, are the changes up to `last`. */
  lemma ChangesPrefix(log: seq<Row>, prefix: string, after: nat, n: nat)
    requires after <= |log| && 0 < n <= |Changes(log, prefix, after, |log|)|
    ensures var all := Changes(log, prefix, after, |log|);
            var last := all[n - 1].revision;
            after < last <= |log| && all[..n] == Changes(log, prefix, after, last)
  {
    var all := Changes(log, prefix, after, |log|);
    var last := all[n - 1].revision;
    ChangesAscend(log, prefix, after, |log|);
    assert all[n - 1] in all;
    var head, tail := Changes(log, prefix, after, last), Changes(log, prefix, last, |log|);
    ChangesConcat(log, prefix, after, last, |log|);
    ChangesAscend(log, prefix, after, last);
    ChangesAscend(log, prefix, last, |log|);
    forall i | 0 <= i < |all| ensures all[i].revision <= last <==> i < |head| {
      if i < |head| { assert head[i] in head; } else { assert tail[i - |head|] in tail; }
    }
    assert n < |all| ==> all[n - 1].revision < all[n].revision;
    assert |head| == n;
  }

  /** The rows the compaction DELETE leaves in a table. */
  function Spared(rows: seq<Row>, rev: nat): Row -> bool {
    (row: Row) => !(row.revision < rev && Latest(rows, row.key, rev) != Some(row))
  }

  lemma LogAppend(log: seq<Row>, floor: nat, row: Row)
    requires WellFormed(log) && floor <= |log| && row.revision == |log| + 1 && row.key != ""
    requires row.kind.Added? <==> row.key !in At(log, |log|)
    requires row.kind.Deleted? ==> row.key in At(log, |log|) && At(log, |log|)[row.key].value == row.value
    ensures WellFormed(log + [row])
    ensures Retained(log + [row], floor) == Retained(log, floor) + [row]
    ensures At(log + [row], |log| + 1) == RegistryLog.Apply(At(log, |log|), row)
  {
    var longer := log + [row];
    assert Retained(longer, floor) == Retained(log, floor) + [row] by { RetainedAppend(log, floor, row); }
    assert At(longer, |log| + 1) == RegistryLog.Apply(At(log, |log|), row) by { AtExtends(log, longer, |log|); }
    assert forall i | 0 <= i < |longer| :: Fits(longer, i) by {
      forall i | 0 <= i < |longer| ensures Fits(longer, i) { FitsAppend(log, row, i); }
    }
    assert forall i | 0 <= i < |longer| :: longer[i].revision == i + 1;
  }

  lemma FitsAppend(log: seq<Row>, row: Row, i: nat)
    requires WellFormed(log) && i <= |log| && row.key != ""
    requires row.kind.Added? <==> row.key !in At(log, |log|)
    requires row.kind.Deleted? ==> row.key in At(log, |log|) && At(log, |log|)[row.key].value == row.value
    ensures Fits(log + [row], i)
  {
    AtExtends(log, log + [row], i);
    if i < |log| { assert Fits(log, i); }
  }

  class Store {
    var revision: nat
    var compacted: nat
    var rows: seq<Row>
    ghost var log: seq<Row>

    ghost predicate Valid()
      reads this
    {
      && WellFormed(log)
      && revision == |log| <= MAX_REVISION
      && compacted <= revision
      && rows == Retained(log, compacted)
    }

    /** The registry now. */
    ghost function Current(): View
      reads this
    {
      At(log, |log|)
    }

    constructor ()
      ensures Valid() && log == [] && compacted == 0
    {
      revision, compacted, rows, log := 0, 0, [], [];
    }

    method Get(key: StoreKey) returns (found: Option<Object>)
      requires Valid()
      ensures found == Lookup(Current(), key)
    {
      var newest := Latest(rows, key, revision);
      CompactionKeepsReads(log, compacted, key, revision);
      found := Visible(newest);
    }

    /** Create (`expected` absent), update, or delete by compare-and-set. */
    method Mutate(key: StoreKey, value: Payload, expected: Option<nat>, delete: bool)
      returns (r: Result<Object, Error>)
      requires Valid()
      requires key != "" && (delete ==> expected.Some?)
      modifies this
      ensures Valid() && compacted == old(compacted)
      ensures r.Ok? <==>
              && old(revision) < MAX_REVISION
              && (if expected.None? then key !in old(Current())
                  else key in old(Current()) && old(Current())[key].revision == expected.value)
      ensures r.Err? ==> unchanged(this)
      ensures r.Err? ==> match r.error {
                case AlreadyExists(k) => expected.None? && k == key && key in Current()
                case NotFound(k) => expected.Some? && k == key && key !in Current()
                case Conflict(e, a) => expected == Some(e) && key in Current() && Current()[key].revision == a != e
                case OutOfRange => revision == MAX_REVISION
                case _ => false
              }
      ensures r.Ok? ==>
                && revision == old(revision) + 1
                && r.value.key == key && r.value.revision == revision
                && r.value.value == (if delete then old(Current())[key].value else value)
                && Current() == (if delete then old(Current()) - {key} else old(Current())[key := r.value])
                && log == old(log) + [Row(key, revision, r.value.value,
                       if delete then Deleted else if expected.Some? then Modified else Added)]
    {
      var previous := Get(key);
      if expected.None? && previous.Some? { return Err(AlreadyExists(key)); }
      if expected.Some? && previous.None? { return Err(NotFound(key)); }
      if expected.Some? && expected.value != previous.value.revision {
        return Err(Conflict(expected.value, previous.value.revision));
      }
      if revision == MAX_REVISION { return Err(OutOfRange); }
      if delete {
        Commit(key, previous.value.value, Deleted);
        return Ok(Object(key, previous.value.value, revision));
      }
      Commit(key, value, if previous.Some? then Modified else Added);
      return Ok(Object(key, value, revision));
    }

    /** Take the next revision and append the version it names. */
    method Commit(key: StoreKey, value: Payload, kind: Kind)
      requires Valid() && revision < MAX_REVISION && key != ""
      requires kind.Added? <==> key !in Current()
      requires kind.Deleted? ==> key in Current() && Current()[key].value == value
      modifies this
      ensures Valid() && compacted == old(compacted) && revision == old(revision) + 1
      ensures log == old(log) + [Row(key, revision, value, kind)]
      ensures Current() == (if kind.Deleted? then old(Current()) - {key}
                            else old(Current())[key := Object(key, value, revision)])
    {
      var row := Row(key, revision + 1, value, kind);
      LogAppend(log, compacted, row);
      revision := revision + 1;
      rows := rows + [row];
      log := log + [row];
    }

    /** One LIST page at a fixed revision; an absent or zero revision means the head. */
    method List(prefix: string, at: Option<nat>, after: Option<StoreKey>, limit: nat)
      returns (r: Result<Page, Error>)
      requires Valid()
      ensures var rev := if at.None? || at.value == 0 then revision else at.value;
              if limit == 0 || limit > MAX_LIST_LIMIT || (after.Some? && !(prefix <= after.value)) then r == Err(Invalid)
              else if rev < compacted then r == Err(Compacted(rev, compacted))
              else if rev > revision then r == Err(FutureRevision(rev, revision))
              else
                && r.Ok? && r.value.revision == rev
                && IsPage(r.value.items, r.value.nextAfter, At(log, rev), prefix, Bound(after), limit)
    {
      if limit == 0 || limit > MAX_LIST_LIMIT { return Err(Invalid); }
      if after.Some? && !(prefix <= after.value) { return Err(Invalid); }
      var rev := if at.None? || at.value == 0 then revision else at.value;
      var refused := ValidateRevision(rev, revision, compacted);
      if refused.Some? { return Err(refused.value); }
      var items, next := Select(prefix, rev, Bound(after), limit);
      return Ok(Page(items, rev, next));
    }

    /** The LIST statement and the cut after it, inside one read transaction. */
    method Select(prefix: string, rev: nat, after: string, limit: nat)
      returns (items: seq<Object>, next: Option<StoreKey>)
      requires Valid() && compacted <= rev <= revision && limit > 0
      ensures IsPage(items, next, At(log, rev), prefix, after, limit)
    {
      var found := OrderByKey(Filter(rows, Selects(rows, prefix, after, rev)));
      ghost var all := Query(rows, prefix, after, rev);
      assert IsRange(all, At(log, rev), prefix, after, None) by { QueryIsRange(log, compacted, prefix, after, rev); }
      assert OwnKeys(At(log, rev)) by { ViewsOwnKeys(log, rev); }
      CutPage(all, limit, At(log, rev), prefix, after);
      items := Read(if |found| > limit + 1 then found[..limit + 1] else found);
      next := None;
      if |items| > limit {
        items := items[..limit];
        next := Some(items[limit - 1].key);
        assert items == all[..limit];
      } else {
        assert items == all;
      }
    }

    method Read(raw: seq<Row>) returns (items: seq<Object>)
      ensures |items| == |raw| && forall i | 0 <= i < |raw| :: items[i] == ObjectOf(raw[i])
    {
      items := [];
      for i := 0 to |raw|
        invariant |items| == i && forall k | 0 <= k < i :: items[k] == ObjectOf(raw[k])
      {
        items := items + [ObjectOf(raw[i])];
      }
    }

    /** One batch of a watch: the events after a revision, and where the next batch starts. */
    method ReadChanges(prefix: string, after: nat) returns (r: Result<(seq<Event>, nat), Error>)
      requires Valid()
      ensures if after < compacted then r == Err(Compacted(after, compacted))
              else if after > revision then r == Err(FutureRevision(after, revision))
              else
                && r.Ok? && after <= r.value.1 <= revision
                && r.value.0 == Changes(log, prefix, after, r.value.1)
                && |r.value.0| <= WATCH_BATCH
                && (|r.value.0| < WATCH_BATCH ==> r.value.1 == revision)
                && (|r.value.0| == WATCH_BATCH ==> r.value.1 > after)
    {
      var refused := ValidateRevision(after, revision, compacted);
      if refused.Some? { return Err(refused.value); }
      var found := Filter(rows, InWindow(prefix, after));
      ghost var all := Changes(log, prefix, after, revision);
      RetainedWindow(log, compacted, prefix, after);
      var raw := if |found| > WATCH_BATCH then found[..WATCH_BATCH] else found;
      var events := ReadEvents(rows, raw);
      FirstEvents(rows, found, |raw|);
      var next := if |events| == WATCH_BATCH then events[|events| - 1].revision else revision;
      if |events| == WATCH_BATCH { ChangesPrefix(log, prefix, after, WATCH_BATCH); }
      return Ok((events, next));
    }

    /** Delete every row below `rev` that is not its key's newest row up to `rev`. */
    method Compact(rev: nat) returns (r: Result<(), Error>)
      requires Valid()
      modifies this
      ensures Valid() && log == old(log) && revision == old(revision)
      ensures rev > revision ==> r == Err(FutureRevision(rev, revision)) && unchanged(this)
      ensures rev <= revision ==> r.Ok? && compacted == (if rev > old(compacted) then rev else old(compacted))
    {
      if rev > revision { return Err(FutureRevision(rev, revision)); }
      if rev <= compacted { return Ok(()); }
      CompactionComposes(log, compacted, rev);
      BelowIsKept(rev);
      rows := Filter(rows, Spared(rows, rev));
      compacted := rev;
      return Ok(());
    }

    /** The DELETE's test spares exactly the rows compaction is meant to keep. */
    lemma BelowIsKept(rev: nat)
      requires Valid() && compacted < rev <= revision
      ensures Filter(rows, Spared(rows, rev)) == Filter(rows, Kept(rows, rev))
    {
      var test := Spared(rows, rev);
      LogAscends(log);
      SubsequenceAscends(log, Kept(log, compacted));
      forall row | row in rows ensures test(row) <==> Kept(rows, rev)(row) {
        if row.revision == rev {
          LatestIsNewest(rows, row.key, rev);
          UniqueRevision(rows, row, Latest(rows, row.key, rev).value);
        }
      }
      FilterAgrees(rows, test, Kept(rows, rev));
    }

    /** Anything other clients may do between two transactions of one client. */
    method Interfere(actions: seq<Action>)
      requires Valid()
      modifies this
      ensures Valid() && old(log) <= log && old(compacted) <= compacted
      ensures actions == [] ==> unchanged(this)
    {
      for i := 0 to |actions|
        invariant Valid() && old(log) <= log && old(compacted) <= compacted
        invariant i == 0 ==> unchanged(this)
      {
        if !actions[i].Compact? && actions[i].key == "" { continue; }
        match actions[i]
        case Create(key, value) => var _ := Mutate(key, value, None, false);
        case Update(key, value, rev) => var _ := Mutate(key, value, Some(rev), false);
        case Delete(key, rev) => var _ := Mutate(key, "", Some(rev), true);
        case Compact(rev) => var _ := Compact(rev);
      }
    }

    /** Maintenance reads the head, then compacts; others may run in between. Its own
        compaction never brings the floor within `window` of the head it read. */
    method Maintain(window: nat, between: seq<Action>) returns (ghost floorBefore: nat)
      requires Valid()
      modifies this
      ensures Valid() && old(log) <= log
      ensures old(compacted) <= floorBefore <= compacted
      ensures compacted > floorBefore ==> compacted + window == old(revision) && window > 0
      ensures between == [] ==>
                compacted == (if 0 < window && old(compacted) + window < old(revision)
                              then old(revision) - window else old(compacted))
    {
      var target := MaintenanceRevision(revision, compacted, window);
      Interfere(between);
      floorBefore := compacted;
      if target.Some? { var _ := Compact(target.value); }
    }
  }

  datatype Action =
    | Create(key: StoreKey, value: Payload)
    | Update(key: StoreKey, value: Payload, expected: nat)
    | Delete(key: StoreKey, expected: nat)
    | Compact(rev: nat)
}
