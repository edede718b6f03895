/** The version log behind the registry, and what it means.

    The complete log is the history no compaction touches: one row per revision.
    `At(log, rev)` is the registry it describes at a revision. Everything the store
    answers is specified against these two; the store itself only holds
    `Retained(log, floor)`. */
module RegistryLog {
  import opened Wrappers
  import opened KeyOrder

  /** A registry path; never empty (`Fits` and the store's methods say so where it matters). */
  type StoreKey = string
  /** Object payloads are opaque to the store. */
  type Payload = string

  datatype Kind = Added | Modified | Deleted
  datatype Row = Row(key: StoreKey, revision: nat, value: Payload, kind: Kind)
  datatype Object = Object(key: StoreKey, value: Payload, revision: nat)

  /** A label or field selector: any test of one object. */
  type Selector = Object -> bool

  type View = map<StoreKey, Object>

  function ObjectOf(row: Row): Object { Object(row.key, row.value, row.revision) }

  function Lookup(view: View, key: StoreKey): Option<Object> {
    if key in view then Some(view[key]) else None
  }

  function Apply(view: View, row: Row): View {
    if row.kind.Deleted? then view - {row.key} else view[row.key := ObjectOf(row)]
  }

  function At(log: seq<Row>, rev: nat): View
    requires rev <= |log|
  {
    if rev == 0 then map[] else Apply(At(log, rev - 1), log[rev - 1])
  }

  /** A log the store can have written: consecutive revisions, kinds that agree with
      what was there before, and deletions that keep the deleted value. */
  ghost predicate WellFormed(log: seq<Row>) {
    && (forall i | 0 <= i < |log| :: log[i].revision == i + 1)
    && (forall i | 0 <= i < |log| :: Fits(log, i))
  }

  ghost predicate Fits(log: seq<Row>, i: nat)
    requires i < |log|
  {
    var before := Lookup(At(log, i), log[i].key);
    && log[i].key != ""
    && (log[i].kind.Added? <==> before.None?)
    && (log[i].kind.Deleted? ==> before.Some? && before.value.value == log[i].value)
  }

  lemma {:induction false} AtExtends(log: seq<Row>, longer: seq<Row>, rev: nat)
    requires rev <= |log| && log <= longer
    ensures At(longer, rev) == At(log, rev)
  {
    if rev > 0 { AtExtends(log, longer, rev - 1); }
  }

  lemma {:induction false} ViewHoldsItsKeys(log: seq<Row>, rev: nat, key: StoreKey)
    requires WellFormed(log) && rev <= |log| && key in At(log, rev)
    ensures key != "" && At(log, rev)[key].key == key && 1 <= At(log, rev)[key].revision <= rev
    ensures log[At(log, rev)[key].revision - 1].key == key
  {
    assert Fits(log, rev - 1);
    if log[rev - 1].key != key { ViewHoldsItsKeys(log, rev - 1, key); }
  }

  // ----- reading rows -----

  /** The row a query with MAX(revision) picks: the newest of `key` no newer than `rev`. */
  function Latest(rows: seq<Row>, key: StoreKey, rev: nat): (r: Option<Row>)
    ensures r.Some? ==> r.value in rows && r.value.key == key && r.value.revision <= rev
  {
    if rows == [] then None
    else
      var last := rows[|rows| - 1];
      if last.key == key && last.revision <= rev then Some(last) else Latest(rows[..|rows| - 1], key, rev)
  }

  function Visible(row: Option<Row>): Option<Object> {
    if row.Some? && !row.value.kind.Deleted? then Some(ObjectOf(row.value)) else None
  }

  function Filter<T>(s: seq<T>, p: T -> bool): seq<T> {
    if s == [] then []
    else
      var kept := Filter(s[..|s| - 1], p);
      if p(s[|s| - 1]) then kept + [s[|s| - 1]] else kept
  }

  lemma {:induction false} FilterMembers<T>(s: seq<T>, p: T -> bool, x: T)
    ensures x in Filter(s, p) <==> x in s && p(x)
  {
    if s != [] {
      assert s == s[..|s| - 1] + [s[|s| - 1]];
      FilterMembers(s[..|s| - 1], p, x);
    }
  }

  lemma FilterLast<T>(s: seq<T>, x: T, p: T -> bool)
    ensures Filter(s + [x], p) == if p(x) then Filter(s, p) + [x] else Filter(s, p)
  {
    assert (s + [x])[..|s|] == s;
  }

  lemma {:induction false} FilterConcat<T>(a: seq<T>, b: seq<T>, p: T -> bool)
    ensures Filter(a + b, p) == Filter(a, p) + Filter(b, p)
  {
    if b == [] {
      assert a + b == a;
    } else {
      assert (a + b)[..|a + b| - 1] == a + b[..|b| - 1];
      FilterConcat(a, b[..|b| - 1], p);
    }
  }

  ghost predicate Ascending(rows: seq<Row>) {
    forall i, j | 0 <= i < j < |rows| :: rows[i].revision < rows[j].revision
  }

  /** Reading the newest row of a key up to a revision is reading the view there. */
  lemma {:induction false} LatestIsView(log: seq<Row>, n: nat, key: StoreKey, rev: nat)
    requires WellFormed(log) && rev <= n <= |log|
    ensures Visible(Latest(log[..n], key, rev)) == Lookup(At(log, rev), key)
    decreases n
  {
    if n > 0 {
      assert log[..n][..n - 1] == log[..n - 1];
      var last := log[n - 1];
      if rev == n {
        if last.key != key {
          LatestUpTo(log, n - 1, key, n);
          LatestIsView(log, n - 1, key, n - 1);
        }
      } else {
        LatestIsView(log, n - 1, key, rev);
      }
    }
  }

  /** Raising the bound above the newest row changes nothing. */
  lemma {:induction false} LatestUpTo(log: seq<Row>, n: nat, key: StoreKey, rev: nat)
    requires WellFormed(log) && n <= |log| && n <= rev
    ensures Latest(log[..n], key, rev) == Latest(log[..n], key, n)
  {
    if n > 0 && log[n - 1].key != key {
      assert log[..n][..n - 1] == log[..n - 1];
      LatestUpTo(log, n - 1, key, rev);
      LatestUpTo(log, n - 1, key, n);
    }
  }

  // ----- compaction -----

  /** What compaction to `floor` leaves of the full log: each key's newest row up to the
      floor, tombstones included, and every row above it. */
  function Kept(log: seq<Row>, floor: nat): Row -> bool {
    (row: Row) => row.revision > floor || Latest(log, row.key, floor) == Some(row)
  }

  function Retained(log: seq<Row>, floor: nat): seq<Row> { Filter(log, Kept(log, floor)) }

  /** A filter that spares the newest row does not change what reading finds. */
  lemma {:induction false} LatestThroughFilter(rows: seq<Row>, p: Row -> bool, key: StoreKey, rev: nat)
    requires Latest(rows, key, rev).Some? ==> p(Latest(rows, key, rev).value)
    ensures Latest(Filter(rows, p), key, rev) == Latest(rows, key, rev)
  {
    if rows != [] {
      var init, last := rows[..|rows| - 1], rows[|rows| - 1];
      assert rows == init + [last];
      if last.key == key && last.revision <= rev {
        assert p(last);
        assert Filter(rows, p)[|Filter(rows, p)| - 1] == last;
      } else {
        LatestThroughFilter(init, p, key, rev);
        if p(last) {
          assert Filter(rows, p) == Filter(init, p) + [last];
          assert Filter(rows, p)[..|Filter(rows, p)| - 1] == Filter(init, p);
        }
      }
    }
  }

  lemma {:induction false} LatestIsNewest(rows: seq<Row>, key: StoreKey, rev: nat)
    requires Ascending(rows)
    ensures forall row | row in rows && row.key == key && row.revision <= rev ::
      Latest(rows, key, rev).Some? && row.revision <= Latest(rows, key, rev).value.revision
  {
    if rows != [] {
      var init, last := rows[..|rows| - 1], rows[|rows| - 1];
      assert rows == init + [last];
      LatestIsNewest(init, key, rev);
    }
  }

  lemma LogAscends(log: seq<Row>)
    requires WellFormed(log)
    ensures Ascending(log)
  {
  }

  lemma {:induction false} SubsequenceAscends(rows: seq<Row>, p: Row -> bool)
    requires Ascending(rows)
    ensures Ascending(Filter(rows, p))
  {
    if rows != [] {
      var init, last := rows[..|rows| - 1], rows[|rows| - 1];
      assert rows == init + [last];
      SubsequenceAscends(init, p);
      forall row | row in Filter(init, p) ensures row.revision < last.revision {
        FilterMembers(init, p, row);
        var i :| 0 <= i < |init| && init[i] == row;
        assert rows[i] == row;
      }
    }
  }

  lemma UniqueRevision(log: seq<Row>, a: Row, b: Row)
    requires Ascending(log) && a in log && b in log && a.revision == b.revision
    ensures a == b
  {
    var i :| 0 <= i < |log| && log[i] == a;
    var j :| 0 <= j < |log| && log[j] == b;
  }

  /** The newest row up to a revision at or above the floor survives compaction. */
  lemma LatestIsKept(log: seq<Row>, floor: nat, key: StoreKey, rev: nat)
    requires WellFormed(log) && floor <= rev
    ensures Latest(log, key, rev).Some? ==> Kept(log, floor)(Latest(log, key, rev).value)
  {
    var newest := Latest(log, key, rev);
    if newest.Some? && newest.value.revision <= floor {
      LogAscends(log);
      LatestIsNewest(log, key, floor);
      LatestIsNewest(log, key, rev);
      UniqueRevision(log, newest.value, Latest(log, key, floor).value);
    }
  }

  /** Compaction is invisible at and above the floor. */
  lemma CompactionKeepsReads(log: seq<Row>, floor: nat, key: StoreKey, rev: nat)
    requires WellFormed(log) && floor <= rev
    ensures Latest(Retained(log, floor), key, rev) == Latest(log, key, rev)
    ensures rev <= |log| ==> Visible(Latest(Retained(log, floor), key, rev)) == Lookup(At(log, rev), key)
  {
    LatestIsKept(log, floor, key, rev);
    LatestThroughFilter(log, Kept(log, floor), key, rev);
    if rev <= |log| {
      LatestIsView(log, |log|, key, rev);
      assert log[..|log|] == log;
    }
  }

  lemma {:induction false} FilterFilter<T>(s: seq<T>, p: T -> bool, q: T -> bool, r: T -> bool)
    requires forall x | x in s :: r(x) <==> p(x) && q(x)
    ensures Filter(Filter(s, p), q) == Filter(s, r)
  {
    if s != [] {
      var init, last := s[..|s| - 1], s[|s| - 1];
      assert s == init + [last];
      FilterFilter(init, p, q, r);
      if p(last) { FilterLast(Filter(init, p), last, q); }
    }
  }

  /** Compacting twice is compacting once, to the higher floor. */
  lemma CompactionComposes(log: seq<Row>, low: nat, high: nat)
    requires WellFormed(log) && low <= high
    ensures Filter(Retained(log, low), Kept(Retained(log, low), high)) == Retained(log, high)
  {
    var rows := Retained(log, low);
    LogAscends(log);
    forall row | row in log
      ensures Kept(log, high)(row) <==> Kept(log, low)(row) && Kept(rows, high)(row)
    {
      CompactionKeepsReads(log, low, row.key, high);
      if Kept(log, high)(row) && row.revision <= low { LatestIsKept(log, low, row.key, high); }
    }
    FilterFilter(log, Kept(log, low), Kept(rows, high), Kept(log, high));
  }

  /** Appending a version commutes with compaction at or below the head. */
  lemma RetainedAppend(log: seq<Row>, floor: nat, row: Row)
    requires WellFormed(log) && floor <= |log| && row.revision == |log| + 1
    ensures Retained(log + [row], floor) == Retained(log, floor) + [row]
  {
    var longer := log + [row];
    FilterLast(log, row, Kept(longer, floor));
    forall r | r in log ensures Kept(longer, floor)(r) <==> Kept(log, floor)(r) {
      assert longer[..|longer| - 1] == log;
      assert Latest(longer, r.key, floor) == Latest(log, r.key, floor);
    }
    FilterAgrees(log, Kept(longer, floor), Kept(log, floor));
  }

  lemma {:induction false} FilterAgrees<T>(s: seq<T>, p: T -> bool, q: T -> bool)
    requires forall x | x in s :: p(x) <==> q(x)
    ensures Filter(s, p) == Filter(s, q)
  {
    if s != [] { FilterAgrees(s[..|s| - 1], p, q); }
  }

  // ----- events -----

  /** A watch event; a bookmark carries no object. */
  datatype Event =
    | Change(previous: Option<Object>, kind: Kind, revision: nat, current: Object)
    | Bookmark(revision: nat)

  function EventAt(log: seq<Row>, i: nat): Event
    requires i < |log|
  {
    Change(Lookup(At(log, i), log[i].key), log[i].kind, i + 1, ObjectOf(log[i]))
  }

  /** Every version under `prefix` with a revision in (after, upTo], oldest first. */
  function Changes(log: seq<Row>, prefix: string, after: nat, upTo: nat): seq<Event>
    requires after <= upTo <= |log|
  {
    if after == upTo then []
    else
      var earlier := Changes(log, prefix, after, upTo - 1);
      if prefix <= log[upTo - 1].key then earlier + [EventAt(log, upTo - 1)] else earlier
  }

  lemma {:induction false} ChangesConcat(log: seq<Row>, prefix: string, a: nat, b: nat, c: nat)
    requires a <= b <= c <= |log|
    ensures Changes(log, prefix, a, c) == Changes(log, prefix, a, b) + Changes(log, prefix, b, c)
  {
    if b < c { ChangesConcat(log, prefix, a, b, c - 1); }
  }

  lemma {:induction false} ChangesExtends(log: seq<Row>, longer: seq<Row>, prefix: string, a: nat, b: nat)
    requires a <= b <= |log| && log <= longer
    ensures Changes(longer, prefix, a, b) == Changes(log, prefix, a, b)
  {
    if a < b {
      ChangesExtends(log, longer, prefix, a, b - 1);
      AtExtends(log, longer, b - 1);
    }
  }

  lemma {:induction false} ChangesAscend(log: seq<Row>, prefix: string, a: nat, b: nat)
    requires a <= b <= |log|
    ensures forall e | e in Changes(log, prefix, a, b) :: e.Change? && a < e.revision <= b
    ensures forall i, j | 0 <= i < j < |Changes(log, prefix, a, b)| ::
      Changes(log, prefix, a, b)[i].revision < Changes(log, prefix, a, b)[j].revision
  {
    if a < b { ChangesAscend(log, prefix, a, b - 1); }
  }

  /** Nothing is lost and nothing is invented: an event is in the range exactly when the
      log has that version under the prefix. */
  lemma {:induction false} ChangesComplete(log: seq<Row>, prefix: string, a: nat, b: nat, i: nat)
    requires a <= b <= |log| && i < |log|
    ensures EventAt(log, i) in Changes(log, prefix, a, b) <==> a <= i < b && prefix <= log[i].key
  {
    if a < b { ChangesComplete(log, prefix, a, b - 1, i); }
  }

  function Restrict(view: View, prefix: string): View {
    map key | key in view && prefix <= key :: view[key]
  }

  function Absorb(held: View, event: Event): View {
    if event.Bookmark? then held
    else if event.kind.Deleted? then held - {event.current.key}
    else held[event.current.key := event.current]
  }

  /** What a client holds after applying events to what it held. */
  function Fold(view: View, events: seq<Event>): View {
    if events == [] then view
    else Absorb(Fold(view, events[..|events| - 1]), events[|events| - 1])
  }

  lemma FoldLast(view: View, events: seq<Event>, event: Event)
    ensures Fold(view, events + [event]) == Absorb(Fold(view, events), event)
  {
    assert (events + [event])[..|events|] == events;
  }

  /** Folding the events of a range over the registry at its start gives the registry at its end. */
  lemma {:induction false} FoldChanges(log: seq<Row>, prefix: string, a: nat, b: nat)
    requires a <= b <= |log|
    ensures Fold(Restrict(At(log, a), prefix), Changes(log, prefix, a, b)) == Restrict(At(log, b), prefix)
  {
    if a < b {
      FoldChanges(log, prefix, a, b - 1);
      RestrictApply(At(log, b - 1), log[b - 1], prefix);
      if prefix <= log[b - 1].key {
        FoldLast(Restrict(At(log, a), prefix), Changes(log, prefix, a, b - 1), EventAt(log, b - 1));
      }
    }
  }

  lemma RestrictApply(view: View, row: Row, prefix: string)
    ensures Restrict(Apply(view, row), prefix)
         == if prefix <= row.key then Apply(Restrict(view, prefix), row) else Restrict(view, prefix)
  {
  }
}
