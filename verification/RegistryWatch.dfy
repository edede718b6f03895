/** The registry watch stream: an optional snapshot replay in pages, then change batches.

    A `Watcher` moves one transaction at a time, and any other transaction may commit
    between two of its moves. */
module RegistryWatch {
  import opened Wrappers
  import opened KeyOrder
  import opened RegistryLog
  import opened Registry

  const REPLAY_PAGE := 256

  function AddedEvents(items: seq<Object>): seq<Event> {
    if items == [] then []
    else
      var last := items[|items| - 1];
      AddedEvents(items[..|items| - 1]) + [Change(None, Added, last.revision, last)]
  }

  lemma {:induction false} AddedConcat(first: seq<Object>, second: seq<Object>)
    ensures AddedEvents(first + second) == AddedEvents(first) + AddedEvents(second)
  {
    if second == [] {
      assert first + second == first;
    } else {
      AddedConcat(first, second[..|second| - 1]);
      assert (first + second)[..|first + second| - 1] == first + second[..|second| - 1];
    }
  }

  /** A stream without its bookmarks. */
  function Delivered(sent: seq<Event>): seq<Event> {
    if sent == [] then []
    else
      var earlier, last := Delivered(sent[..|sent| - 1]), sent[|sent| - 1];
      if last.Bookmark? then earlier else earlier + [last]
  }

  lemma {:induction false} DeliveredConcat(sent: seq<Event>, more: seq<Event>)
    ensures Delivered(sent + more) == Delivered(sent) + Delivered(more)
  {
    if more == [] {
      assert sent + more == sent;
    } else {
      DeliveredConcat(sent, more[..|more| - 1]);
      assert (sent + more)[..|sent + more| - 1] == sent + more[..|more| - 1];
    }
  }

  ghost predicate NoBookmarks(events: seq<Event>) {
    forall i | 0 <= i < |events| :: events[i].Change?
  }

  lemma {:induction false} DeliveredAll(events: seq<Event>)
    requires NoBookmarks(events)
    ensures Delivered(events) == events
  {
    if events != [] { DeliveredAll(events[..|events| - 1]); }
  }

  lemma {:induction false} AddedAreChanges(items: seq<Object>)
    ensures NoBookmarks(AddedEvents(items))
  {
    if items != [] { AddedAreChanges(items[..|items| - 1]); }
  }

  lemma {:induction false} BatchesAreChanges(log: seq<Row>, prefix: string, a: nat, b: nat)
    requires a <= b <= |log|
    ensures NoBookmarks(Changes(log, prefix, a, b))
  {
    if a < b { BatchesAreChanges(log, prefix, a, b - 1); }
  }

  // ----- what a client reconstructs -----

  lemma {:induction false} FoldConcat(view: View, first: seq<Event>, second: seq<Event>)
    ensures Fold(view, first + second) == Fold(Fold(view, first), second)
  {
    if second == [] {
      assert first + second == first;
    } else {
      FoldConcat(view, first, second[..|second| - 1]);
      assert (first + second)[..|first + second| - 1] == first + second[..|second| - 1];
    }
  }

  lemma {:induction false} FoldDelivered(view: View, sent: seq<Event>)
    ensures Fold(view, sent) == Fold(view, Delivered(sent))
  {
    if sent != [] {
      var earlier, last := sent[..|sent| - 1], sent[|sent| - 1];
      FoldDelivered(view, earlier);
      if last.Change? { FoldLast(view, Delivered(earlier), last); }
    }
  }

  /** The objects of a sequence, by key. */
  function ByKey(items: seq<Object>): View {
    if items == [] then map[] else ByKey(items[..|items| - 1])[items[|items| - 1].key := items[|items| - 1]]
  }

  lemma {:induction false} ByKeyHolds(items: seq<Object>, key: StoreKey)
    ensures key in ByKey(items) ==> ByKey(items)[key] in items && ByKey(items)[key].key == key
    ensures (forall i | 0 <= i < |items| :: items[i].key != key) ==> key !in ByKey(items)
  {
    if items != [] { ByKeyHolds(items[..|items| - 1], key); }
  }

  lemma {:induction false} ByKeyHas(items: seq<Object>, i: nat)
    requires i < |items|
    ensures items[i].key in ByKey(items)
  {
    if i < |items| - 1 { ByKeyHas(items[..|items| - 1], i); }
  }

  lemma {:induction false} FoldAdded(items: seq<Object>)
    ensures Fold(map[], AddedEvents(items)) == ByKey(items)
  {
    if items != [] {
      var last := items[|items| - 1];
      FoldAdded(items[..|items| - 1]);
      FoldLast(map[], AddedEvents(items[..|items| - 1]), Change(None, Added, last.revision, last));
    }
  }

  /** A complete range, indexed by key, is the part of the view it ranges over. */
  lemma RangeByKey(items: seq<Object>, view: View, prefix: string)
    requires OwnKeys(view) && IsRange(items, view, prefix, "", None)
    ensures ByKey(items) == Restrict(view, prefix)
  {
    var held, part := ByKey(items), Restrict(view, prefix);
    forall key | key in held ensures key in part && part[key] == held[key] { ByKeyHolds(items, key); }
    forall key | key in part ensures key in held {
      assert view[key] in items;
      var i :| 0 <= i < |items| && items[i] == view[key];
      ByKeyHas(items, i);
    }
  }

  /** Folding the replay of a complete range gives the selected part of the view. */
  lemma FoldSnapshot(items: seq<Object>, view: View, prefix: string)
    requires OwnKeys(view) && IsRange(items, view, prefix, "", None)
    ensures Fold(map[], AddedEvents(items)) == Restrict(view, prefix)
  {
    FoldAdded(items);
    RangeByKey(items, view, prefix);
  }

  // ----- the stream -----

  /** Every bookmark of a stream stands after exactly the versions up to its revision. */
  ghost predicate Truthful(log: seq<Row>, prefix: string, anchor: nat, initial: seq<Object>, sent: seq<Event>)
  {
    forall i | 0 <= i < |sent| && sent[i].Bookmark? :: Stands(log, prefix, anchor, initial, sent, i)
  }

  ghost predicate Stands(log: seq<Row>, prefix: string, anchor: nat, initial: seq<Object>, sent: seq<Event>, i: nat)
    requires i < |sent|
  {
    && anchor <= sent[i].revision <= |log|
    && Delivered(sent[..i]) == AddedEvents(initial) + Changes(log, prefix, anchor, sent[i].revision)
  }

  lemma TruthAppend(log: seq<Row>, prefix: string, anchor: nat, initial: seq<Object>, sent: seq<Event>, more: seq<Event>)
    requires Truthful(log, prefix, anchor, initial, sent)
    requires forall j | 0 <= j < |more| && more[j].Bookmark? ::
      Stands(log, prefix, anchor, initial, sent + more, |sent| + j)
    ensures Truthful(log, prefix, anchor, initial, sent + more)
  {
    var all := sent + more;
    forall i | 0 <= i < |all| && all[i].Bookmark? ensures Stands(log, prefix, anchor, initial, all, i) {
      if i < |sent| {
        assert Stands(log, prefix, anchor, initial, sent, i);
        assert all[..i] == sent[..i];
      } else {
        assert all[i] == more[i - |sent|];
      }
    }
  }

  datatype Phase = Replaying(next: Option<StoreKey>) | Following

  /** The stream so far is the replayed part of the snapshot at the anchor, then every
      version of the prefix up to the cursor, each once and in order; and wherever a
      bookmark stands, everything up to its revision stands before it. */
  ghost predicate Exact(log: seq<Row>, prefix: string, anchor: nat, replay: bool, phase: Phase, cursor: nat,
                        initial: seq<Object>, sent: seq<Event>)
  {
    && WellFormed(log)
    && anchor <= cursor <= |log|
    && Delivered(sent) == AddedEvents(initial) + Changes(log, prefix, anchor, cursor)
    && Truthful(log, prefix, anchor, initial, sent)
    && (phase.Replaying? ==>
          && replay && cursor == anchor
          && NoBookmarks(sent)
          && (if phase.next.None? then initial == []
              else phase.next.value != "" && prefix <= phase.next.value && IsRange(initial, At(log, anchor), prefix, "", phase.next)))
    && (phase.Following? ==>
          if replay then IsRange(initial, At(log, anchor), prefix, "", None) else initial == [])
  }

  /** Whatever else commits, what was sent stays an exact stream of the longer log. */
  lemma Stable(log: seq<Row>, longer: seq<Row>, prefix: string, anchor: nat, replay: bool, phase: Phase, cursor: nat,
               initial: seq<Object>, sent: seq<Event>)
    requires Exact(log, prefix, anchor, replay, phase, cursor, initial, sent)
    requires WellFormed(longer) && log <= longer
    ensures Exact(longer, prefix, anchor, replay, phase, cursor, initial, sent)
  {
    AtExtends(log, longer, anchor);
    ChangesExtends(log, longer, prefix, anchor, cursor);
    forall i | 0 <= i < |sent| && sent[i].Bookmark? ensures Stands(longer, prefix, anchor, initial, sent, i) {
      assert Stands(log, prefix, anchor, initial, sent, i);
      ChangesExtends(log, longer, prefix, anchor, sent[i].revision);
    }
  }

  lemma AfterBookmark(log: seq<Row>, prefix: string, anchor: nat, replay: bool, cursor: nat,
                      initial: seq<Object>, sent: seq<Event>)
    requires Exact(log, prefix, anchor, replay, Following, cursor, initial, sent)
    ensures Exact(log, prefix, anchor, replay, Following, cursor, initial, sent + [Bookmark(cursor)])
  {
    var after := sent + [Bookmark(cursor)];
    assert after[..|sent|] == sent;
    DeliveredConcat(sent, [Bookmark(cursor)]);
    TruthAppend(log, prefix, anchor, initial, sent, [Bookmark(cursor)]);
  }

  lemma BatchDelivered(log: seq<Row>, prefix: string, anchor: nat, cursor: nat, next: nat, initial: seq<Object>,
                       sent: seq<Event>)
    requires anchor <= cursor <= next <= |log|
    requires Delivered(sent) == AddedEvents(initial) + Changes(log, prefix, anchor, cursor)
    ensures Delivered(sent + Changes(log, prefix, cursor, next)) == AddedEvents(initial) + Changes(log, prefix, anchor, next)
  {
    var events := Changes(log, prefix, cursor, next);
    BatchesAreChanges(log, prefix, cursor, next);
    ChangesConcat(log, prefix, anchor, cursor, next);
    DeliveredConcat(sent, events);
    DeliveredAll(events);
  }

  lemma AfterBatch(log: seq<Row>, prefix: string, anchor: nat, replay: bool, cursor: nat, next: nat,
                   initial: seq<Object>, sent: seq<Event>)
    requires Exact(log, prefix, anchor, replay, Following, cursor, initial, sent) && cursor <= next <= |log|
    ensures Exact(log, prefix, anchor, replay, Following, next, initial, sent + Changes(log, prefix, cursor, next))
  {
    var events := Changes(log, prefix, cursor, next);
    BatchDelivered(log, prefix, anchor, cursor, next, initial, sent);
    assert Truthful(log, prefix, anchor, initial, sent + events) by {
      BatchesAreChanges(log, prefix, cursor, next);
      TruthAppend(log, prefix, anchor, initial, sent, events);
    }
  }

  lemma PageDelivered(log: seq<Row>, prefix: string, anchor: nat, initial: seq<Object>, sent: seq<Event>, items: seq<Object>)
    requires anchor <= |log| && NoBookmarks(sent)
    requires Delivered(sent) == AddedEvents(initial) + Changes(log, prefix, anchor, anchor)
    ensures NoBookmarks(sent + AddedEvents(items))
    ensures Delivered(sent + AddedEvents(items)) == AddedEvents(initial + items) + Changes(log, prefix, anchor, anchor)
  {
    AddedAreChanges(items);
    AddedConcat(initial, items);
    DeliveredConcat(sent, AddedEvents(items));
    DeliveredAll(AddedEvents(items));
  }

  lemma AfterPage(log: seq<Row>, prefix: string, anchor: nat, from: Option<StoreKey>, next: Option<StoreKey>,
                  initial: seq<Object>, sent: seq<Event>, items: seq<Object>)
    requires Exact(log, prefix, anchor, true, Replaying(from), anchor, initial, sent)
    requires IsPage(items, next, At(log, anchor), prefix, Bound(from), REPLAY_PAGE)
    ensures Exact(log, prefix, anchor, true, if next.None? then Following else Replaying(next), anchor,
                  initial + items, sent + AddedEvents(items))
  {
    var view := At(log, anchor);
    PageDelivered(log, prefix, anchor, initial, sent, items);
    assert next.Some? ==> next.value != "" && prefix <= next.value by {
      if next.Some? { assert items[REPLAY_PAGE - 1] in items; }
    }
    assert IsRange(initial + items, view, prefix, "", next) by {
      ViewsOwnKeys(log, anchor);
      ReplayedRange(view, prefix, from, next, initial, items);
    }
  }

  lemma ReplayedRange(view: View, prefix: string, from: Option<StoreKey>, next: Option<StoreKey>,
                      initial: seq<Object>, items: seq<Object>)
    requires OwnKeys(view) && IsPage(items, next, view, prefix, Bound(from), REPLAY_PAGE)
    requires if from.None? then initial == [] else from.value != "" && IsRange(initial, view, prefix, "", from)
    ensures IsRange(initial + items, view, prefix, "", next)
  {
    if from.Some? {
      if next.Some? { PageAdvances(items, from.value, next.value, view, prefix); }
      RangesJoin(initial, items, view, prefix, "", from.value, next);
    } else {
      assert initial + items == items;
    }
  }

  lemma PageAdvances(items: seq<Object>, from: StoreKey, next: StoreKey, view: View, prefix: string)
    requires IsPage(items, Some(next), view, prefix, from, REPLAY_PAGE)
    ensures Less(from, next)
  {
    assert items[REPLAY_PAGE - 1] in items;
  }

  class Watcher {
    const prefix: string
    const anchor: nat
    /** No start revision was asked for: the snapshot at the anchor is replayed first. */
    const replay: bool
    var phase: Phase
    var cursor: nat
    var failed: Option<Error>
    var sent: seq<Event>
    ghost var initial: seq<Object>

    ghost predicate Valid(log: seq<Row>)
      reads this
    {
      Exact(log, prefix, anchor, replay, phase, cursor, initial, sent)
    }

    constructor (prefix: string, anchor: nat, replay: bool, ghost log: seq<Row>)
      requires WellFormed(log) && anchor <= |log|
      ensures Valid(log)
      ensures this.prefix == prefix && this.anchor == anchor && this.replay == replay
      ensures cursor == anchor && sent == [] && failed.None?
    {
      this.prefix, this.anchor, this.replay := prefix, anchor, replay;
      phase := if replay then Replaying(None) else Following;
      cursor, failed, sent, initial := anchor, None, [], [];
    }

    /** One page of the snapshot replay; after the last page, the bookmark that ends it. */
    method ReplayPage(store: Store)
      requires store.Valid() && Valid(store.log) && phase.Replaying? && failed.None?
      modifies this
      ensures Valid(store.log) && cursor == old(cursor)
      ensures failed.Some? <==> 0 < anchor < store.compacted
      ensures failed.Some? ==> failed.value == Compacted(anchor, store.compacted) && sent == old(sent)
      ensures phase.Following? ==> sent != [] && sent[|sent| - 1] == Bookmark(anchor)
    {
      if anchor > 0 {
        var r := store.List(prefix, Some(anchor), phase.next, REPLAY_PAGE);
        if r.Err? {
          failed := Some(r.error);
          return;
        }
        var items, next := r.value.items, r.value.nextAfter;
        AfterPage(store.log, prefix, anchor, phase.next, next, initial, sent, items);
        var added := Replay(items);
        sent := sent + added;
        initial := initial + items;
        phase := if next.None? then Following else Replaying(next);
      } else {
        phase := Following;
        EmptySnapshot(store.log);
      }
      if phase.Following? {
        AfterBookmark(store.log, prefix, anchor, replay, cursor, initial, sent);
        sent := sent + [Bookmark(anchor)];
      }
    }

    lemma EmptySnapshot(log: seq<Row>)
      requires Exact(log, prefix, 0, true, Replaying(None), 0, [], sent)
      ensures Exact(log, prefix, 0, true, Following, 0, [], sent)
    {
    }

    method Replay(items: seq<Object>) returns (added: seq<Event>)
      ensures added == AddedEvents(items)
    {
      added := [];
      for i := 0 to |items|
        invariant added == AddedEvents(items[..i])
      {
        assert items[..i + 1][..i] == items[..i];
        added := added + [Change(None, Added, items[i].revision, items[i])];
      }
      assert items[..|items|] == items;
    }

    /** One batch of changes, then a bookmark when one is due. */
    method Poll(store: Store, bookmarkDue: bool)
      requires store.Valid() && Valid(store.log) && phase.Following? && failed.None?
      modifies this
      ensures Valid(store.log) && phase.Following?
      ensures failed.Some? <==> old(cursor) < store.compacted
      ensures failed.Some? ==> failed.value == Compacted(cursor, store.compacted) && cursor == old(cursor) && sent == old(sent)
      ensures failed.None? ==> cursor == store.revision || old(cursor) < cursor
      ensures old(cursor) <= cursor && old(sent) <= sent
      ensures failed.None? && bookmarkDue ==> sent != [] && sent[|sent| - 1] == Bookmark(cursor)
    {
      var r := store.ReadChanges(prefix, cursor);
      if r.Err? {
        failed := Some(r.error);
        return;
      }
      var (events, next) := r.value;
      AfterBatch(store.log, prefix, anchor, replay, cursor, next, initial, sent);
      sent := sent + events;
      cursor := next;
      if bookmarkDue {
        AfterBookmark(store.log, prefix, anchor, replay, cursor, initial, sent);
        sent := sent + [Bookmark(cursor)];
      }
    }

    method Step(store: Store, bookmarkDue: bool)
      requires store.Valid() && Valid(store.log)
      modifies this
      ensures Valid(store.log) && old(cursor) <= cursor
      ensures old(failed).Some? ==> unchanged(this)
    {
      if failed.Some? { return; }
      match phase
      case Replaying(_) => ReplayPage(store);
      case Following => Poll(store, bookmarkDue);
    }
  }

  /** Start a watch: an absent or zero revision asks for a replay at the head. */
  method Open(store: Store, prefix: string, requested: Option<nat>, bookmarkInterval: nat)
    returns (r: Result<Watcher, Error>)
    requires store.Valid()
    ensures r.Ok? ==>
              && fresh(r.value) && r.value.Valid(store.log) && r.value.prefix == prefix && r.value.sent == []
              && r.value.replay == (requested.None? || requested.value == 0)
              && r.value.anchor == (if r.value.replay then store.revision else requested.value)
    ensures r.Err? <==>
              || bookmarkInterval == 0
              || (requested.Some? && requested.value != 0
                  && !(store.compacted <= requested.value <= store.revision))
  {
    if bookmarkInterval == 0 { return Err(Invalid); }
    var start := if requested.Some? && requested.value != 0 then requested else None;
    var revision := start.GetOr(store.revision);
    var refused := ValidateRevision(revision, store.revision, store.compacted);
    if refused.Some? { return Err(refused.value); }
    var watcher := new Watcher(prefix, revision, start.None?, store.log);
    return Ok(watcher);
  }

  datatype Turn = Other(action: Action) | Watch(bookmarkDue: bool)

  /** Every interleaving of one watcher with writers and compaction. */
  method Interleave(store: Store, watcher: Watcher, turns: seq<Turn>)
    requires store.Valid() && watcher.Valid(store.log)
    modifies store, watcher
    ensures store.Valid() && watcher.Valid(store.log) && old(store.log) <= store.log
    ensures old(watcher.cursor) <= watcher.cursor
    ensures watcher.phase.Following? && watcher.replay ==>
              Fold(map[], watcher.sent) == Restrict(At(store.log, watcher.cursor), watcher.prefix)
    ensures !watcher.replay ==>
              Fold(Restrict(At(store.log, watcher.anchor), watcher.prefix), watcher.sent)
              == Restrict(At(store.log, watcher.cursor), watcher.prefix)
  {
    for i := 0 to |turns|
      invariant store.Valid() && watcher.Valid(store.log) && old(store.log) <= store.log
      invariant old(watcher.cursor) <= watcher.cursor
    {
      match turns[i]
      case Watch(bookmarkDue) => watcher.Step(store, bookmarkDue);
      case Other(action) =>
        ghost var log := store.log;
        store.Interfere([action]);
        Stable(log, store.log, watcher.prefix, watcher.anchor, watcher.replay, watcher.phase, watcher.cursor,
               watcher.initial, watcher.sent);
    }
    ClientView(watcher, store.log);
  }

  /** A client that applies the stream holds the selected registry at the cursor. */
  lemma ClientView(watcher: Watcher, log: seq<Row>)
    requires watcher.Valid(log)
    ensures watcher.phase.Following? && watcher.replay ==>
              Fold(map[], watcher.sent) == Restrict(At(log, watcher.cursor), watcher.prefix)
    ensures !watcher.replay ==>
              Fold(Restrict(At(log, watcher.anchor), watcher.prefix), watcher.sent)
              == Restrict(At(log, watcher.cursor), watcher.prefix)
  {
    var view := At(log, watcher.anchor);
    var start := if watcher.replay then map[] else Restrict(view, watcher.prefix);
    var added, changes := AddedEvents(watcher.initial), Changes(log, watcher.prefix, watcher.anchor, watcher.cursor);
    if watcher.phase.Following? || !watcher.replay {
      FoldDelivered(start, watcher.sent);
      FoldConcat(start, added, changes);
      if watcher.replay {
        ViewsOwnKeys(log, watcher.anchor);
        FoldSnapshot(watcher.initial, view, watcher.prefix);
      }
      FoldChanges(log, watcher.prefix, watcher.anchor, watcher.cursor);
    }
  }
}
