/** The API watch: registry events narrowed to the objects a selector picks. An object
    may enter or leave the selected view without being created or deleted. */
module SelectorWatch {
  import opened Wrappers
  import opened KeyOrder
  import opened RegistryLog
  import opened Registry
  import opened RegistryWatch

  datatype WireEvent =
    | WireAdded(item: Object)
    | WireModified(item: Object)
    | WireDeleted(item: Object)
    | WireBookmark(revision: nat, initialEnd: bool)

  /** The wire form of a change, if it concerns the selected view at all. The object sent
      carries the revision of the change, also when it is the version that left. */
  function Transition(previous: Option<Object>, kind: Kind, revision: nat, current: Object, selected: Selector): Option<WireEvent> {
    var before := previous.Some? && selected(previous.value);
    var after := !kind.Deleted? && selected(current);
    match (before, after)
    case (false, true) => Some(WireAdded(current.(revision := revision)))
    case (true, true) => Some(WireModified(current.(revision := revision)))
    case (true, false) => Some(WireDeleted(previous.value.(revision := revision)))
    case (false, false) => None
  }

  function Pending(events: seq<Event>, initial: bool): bool {
    initial && forall i | 0 <= i < |events| :: events[i].Change?
  }

  /** The bytes a watch sends for a stream of registry events, as a function. */
  function Wire(events: seq<Event>, selected: Selector, bookmarks: bool, initial: bool): seq<WireEvent> {
    if events == [] then []
    else
      var earlier, last := events[..|events| - 1], events[|events| - 1];
      var sent := Wire(earlier, selected, bookmarks, initial);
      match last
      case Bookmark(revision) =>
        if bookmarks || Pending(earlier, initial) then sent + [WireBookmark(revision, Pending(earlier, initial))] else sent
      case Change(previous, kind, revision, current) =>
        match Transition(previous, kind, revision, current, selected)
        case Some(event) => sent + [event]
        case None => sent
  }

  /** The watch loop. The first bookmark of a watch that asked for initial events always
      goes out, marked as their end. */
  method Serve(events: seq<Event>, selected: Selector, bookmarks: bool, initial: bool) returns (wire: seq<WireEvent>)
    ensures wire == Wire(events, selected, bookmarks, initial)
  {
    wire := [];
    var initialPending := initial;
    for i := 0 to |events|
      invariant wire == Wire(events[..i], selected, bookmarks, initial)
      invariant initialPending == Pending(events[..i], initial)
    {
      assert events[..i + 1][..i] == events[..i];
      var event := events[i];
      if event.Bookmark? {
        if !bookmarks && !initialPending { continue; }
        wire := wire + [WireBookmark(event.revision, initialPending)];
        initialPending := false;
      } else {
        var wireEvent := Transition(event.previous, event.kind, event.revision, event.current, selected);
        if wireEvent.None? { continue; }
        wire := wire + [wireEvent.value];
      }
    }
    assert events[..|events|] == events;
  }

  // ----- what a client of the wire holds -----

  function ReceiveObject(held: View, event: WireEvent): View {
    match event
    case WireAdded(item) => held[item.key := item]
    case WireModified(item) => held[item.key := item]
    case WireDeleted(item) => held - {item.key}
    case WireBookmark(_, _) => held
  }

  function Held(start: View, wire: seq<WireEvent>): View {
    if wire == [] then start else ReceiveObject(Held(start, wire[..|wire| - 1]), wire[|wire| - 1])
  }

  /** ADDED is for objects the client does not hold; MODIFIED and DELETED for ones it does. */
  predicate Expected(held: View, event: WireEvent) {
    match event
    case WireAdded(item) => item.key !in held
    case WireModified(item) => item.key in held
    case WireDeleted(item) => item.key in held
    case WireBookmark(_, _) => true
  }

  predicate AllExpected(start: View, wire: seq<WireEvent>) {
    wire == [] || (AllExpected(start, wire[..|wire| - 1]) && Expected(Held(start, wire[..|wire| - 1]), wire[|wire| - 1]))
  }

  function Selected(view: View, prefix: string, selected: Selector): View {
    map key | key in view && prefix <= key && selected(view[key]) :: view[key]
  }

  lemma HeldLast(start: View, wire: seq<WireEvent>, event: WireEvent)
    ensures Held(start, wire + [event]) == ReceiveObject(Held(start, wire), event)
    ensures AllExpected(start, wire + [event]) <==> AllExpected(start, wire) && Expected(Held(start, wire), event)
  {
    assert (wire + [event])[..|wire|] == wire;
  }

  /** One version of the log moves the selected view exactly as its wire event says. */
  lemma SelectedStep(log: seq<Row>, n: nat, prefix: string, selected: Selector)
    requires WellFormed(log) && n < |log| && prefix <= log[n].key
    ensures var change := EventAt(log, n);
            var event := Transition(change.previous, change.kind, change.revision, change.current, selected);
            var before, after := Selected(At(log, n), prefix, selected), Selected(At(log, n + 1), prefix, selected);
            if event.Some? then Expected(before, event.value) && ReceiveObject(before, event.value) == after
            else before == after
  {
    assert Fits(log, n);
    if log[n].key in At(log, n) { ViewHoldsItsKeys(log, n, log[n].key); }
  }

  lemma SelectedElsewhere(log: seq<Row>, n: nat, prefix: string, selected: Selector)
    requires n < |log| && !(prefix <= log[n].key)
    ensures Selected(At(log, n), prefix, selected) == Selected(At(log, n + 1), prefix, selected)
  {
  }

  /** One more change on the wire: what its event does to what the client holds. */
  lemma WireLast(start: View, earlier: seq<Event>, event: Event, selected: Selector, bookmarks: bool, initial: bool)
    requires event.Change?
    ensures var wire := Wire(earlier, selected, bookmarks, initial);
            var more := Wire(earlier + [event], selected, bookmarks, initial);
            var out := Transition(event.previous, event.kind, event.revision, event.current, selected);
            if out.Some? then
              && Held(start, more) == ReceiveObject(Held(start, wire), out.value)
              && (AllExpected(start, more) <==> AllExpected(start, wire) && Expected(Held(start, wire), out.value))
            else more == wire
  {
    assert (earlier + [event])[..|earlier|] == earlier;
    var out := Transition(event.previous, event.kind, event.revision, event.current, selected);
    if out.Some? { HeldLast(start, Wire(earlier, selected, bookmarks, initial), out.value); }
  }

  /** Applying the wire events of any range of versions to the selected part of the
      snapshot at its start gives the selected part at its end. */
  lemma {:induction false} WireFollowsSelection(log: seq<Row>, prefix: string, a: nat, b: nat, selected: Selector,
                                                bookmarks: bool, initial: bool)
    requires WellFormed(log) && a <= b <= |log|
    ensures var wire := Wire(Changes(log, prefix, a, b), selected, bookmarks, initial);
            && Held(Selected(At(log, a), prefix, selected), wire) == Selected(At(log, b), prefix, selected)
            && AllExpected(Selected(At(log, a), prefix, selected), wire)
  {
    if a < b {
      WireFollowsSelection(log, prefix, a, b - 1, selected, bookmarks, initial);
      if prefix <= log[b - 1].key {
        SelectedStep(log, b - 1, prefix, selected);
        var start, earlier := Selected(At(log, a), prefix, selected), Changes(log, prefix, a, b - 1);
        assert Changes(log, prefix, a, b) == earlier + [EventAt(log, b - 1)];
        WireLast(start, earlier, EventAt(log, b - 1), selected, bookmarks, initial);
      } else {
        SelectedElsewhere(log, b - 1, prefix, selected);
      }
    }
  }

  /** The replayed snapshot puts its selected objects on the wire, each as ADDED. */
  lemma {:induction false} WireSnapshot(items: seq<Object>, selected: Selector, bookmarks: bool, initial: bool)
    requires KeysAscend(items)
    ensures var wire := Wire(AddedEvents(items), selected, bookmarks, initial);
            Held(map[], wire) == ByKey(Filter(items, selected)) && AllExpected(map[], wire)
  {
    if items != [] {
      var init, last := items[..|items| - 1], items[|items| - 1];
      WireSnapshot(init, selected, bookmarks, initial);
      var earlier := AddedEvents(init);
      assert AddedEvents(items)[..|earlier|] == earlier;
      if selected(last) {
        NewKey(items, selected);
        assert last.(revision := last.revision) == last;
        HeldLast(map[], Wire(earlier, selected, bookmarks, initial), WireAdded(last));
      }
    }
  }

  lemma NewKey(items: seq<Object>, selected: Selector)
    requires KeysAscend(items) && items != []
    ensures items[|items| - 1].key !in ByKey(Filter(items[..|items| - 1], selected))
  {
    var init, last := items[..|items| - 1], items[|items| - 1];
    var found := Filter(init, selected);
    ByKeyHolds(found, last.key);
    forall i | 0 <= i < |found| ensures found[i].key != last.key {
      FilterMembers(init, selected, found[i]);
      var k :| 0 <= k < |init| && init[k] == found[i];
      assert Less(items[k].key, last.key);
      LessIrreflexive(last.key);
    }
  }

  lemma SelectedByKey(items: seq<Object>, view: View, prefix: string, selected: Selector)
    requires OwnKeys(view) && IsRange(items, view, prefix, "", None)
    ensures ByKey(Filter(items, selected)) == Selected(view, prefix, selected)
  {
    var found := Filter(items, selected);
    var held, part := ByKey(found), Selected(view, prefix, selected);
    forall key | key in held ensures key in part && part[key] == held[key] {
      ByKeyHolds(found, key);
      FilterMembers(items, selected, held[key]);
    }
    forall key | key in part ensures key in held {
      assert view[key] in items;
      FilterMembers(items, selected, view[key]);
      var i :| 0 <= i < |found| && found[i] == view[key];
      ByKeyHas(found, i);
    }
  }

  /** Bookmarks never change what a client holds, so a stream and its changes agree. */
  lemma {:induction false} WireDelivered(start: View, sent: seq<Event>, selected: Selector, bookmarks: bool, initial: bool)
    ensures Held(start, Wire(sent, selected, bookmarks, initial)) == Held(start, Wire(Delivered(sent), selected, bookmarks, initial))
    ensures AllExpected(start, Wire(sent, selected, bookmarks, initial))
         <==> AllExpected(start, Wire(Delivered(sent), selected, bookmarks, initial))
  {
    if sent != [] {
      var earlier, last := sent[..|sent| - 1], sent[|sent| - 1];
      WireDelivered(start, earlier, selected, bookmarks, initial);
      var wire := Wire(earlier, selected, bookmarks, initial);
      if last.Bookmark? {
        HeldLast(start, wire, WireBookmark(last.revision, Pending(earlier, initial)));
      } else {
        assert Delivered(sent)[..|Delivered(earlier)|] == Delivered(earlier);
        var out := Transition(last.previous, last.kind, last.revision, last.current, selected);
        if out.Some? {
          HeldLast(start, wire, out.value);
          HeldLast(start, Wire(Delivered(earlier), selected, bookmarks, initial), out.value);
        }
      }
    }
  }

  lemma {:induction false} WireConcat(start: View, first: seq<Event>, second: seq<Event>, selected: Selector,
                                      bookmarks: bool, initial: bool)
    requires NoBookmarks(second)
    ensures var middle := Held(start, Wire(first, selected, bookmarks, initial));
            var wire := Wire(first + second, selected, bookmarks, initial);
            && Held(start, wire) == Held(middle, Wire(second, selected, bookmarks, initial))
            && (AllExpected(start, wire) <==>
                  (AllExpected(start, Wire(first, selected, bookmarks, initial))
                   && AllExpected(middle, Wire(second, selected, bookmarks, initial))))
  {
    if second == [] {
      assert first + second == first;
    } else {
      var init, last := second[..|second| - 1], second[|second| - 1];
      WireConcat(start, first, init, selected, bookmarks, initial);
      assert first + second == (first + init) + [last] && second == init + [last];
      WireLast(start, first + init, last, selected, bookmarks, initial);
      WireLast(Held(start, Wire(first, selected, bookmarks, initial)), init, last, selected, bookmarks, initial);
    }
  }

  /** A selector watch over any exact registry stream: the client ends with the selected
      part of the registry at the watch's position, and every event was expected. */
  lemma SelectorWatchIsExact(log: seq<Row>, prefix: string, anchor: nat, replay: bool, cursor: nat, initial: seq<Object>,
                             sent: seq<Event>, selected: Selector, bookmarks: bool, initialEvents: bool)
    requires Exact(log, prefix, anchor, replay, Following, cursor, initial, sent)
    ensures var start := if replay then map[] else Selected(At(log, anchor), prefix, selected);
            var wire := Wire(sent, selected, bookmarks, initialEvents);
            && Held(start, wire) == Selected(At(log, cursor), prefix, selected)
            && AllExpected(start, wire)
  {
    StreamOnWire(log, prefix, anchor, replay, cursor, initial, sent, selected, bookmarks, initialEvents);
  }

  lemma StreamOnWire(log: seq<Row>, prefix: string, anchor: nat, replay: bool, at: nat, initial: seq<Object>,
                     sent: seq<Event>, selected: Selector, bookmarks: bool, initialEvents: bool)
    requires WellFormed(log) && anchor <= at <= |log|
    requires Delivered(sent) == AddedEvents(initial) + Changes(log, prefix, anchor, at)
    requires if replay then IsRange(initial, At(log, anchor), prefix, "", None) else initial == []
    ensures var start := if replay then map[] else Selected(At(log, anchor), prefix, selected);
            var wire := Wire(sent, selected, bookmarks, initialEvents);
            && Held(start, wire) == Selected(At(log, at), prefix, selected)
            && AllExpected(start, wire)
  {
    var view := At(log, anchor);
    var start := if replay then map[] else Selected(view, prefix, selected);
    var added, changes := AddedEvents(initial), Changes(log, prefix, anchor, at);
    WireDelivered(start, sent, selected, bookmarks, initialEvents);
    BatchesAreChanges(log, prefix, anchor, at);
    WireConcat(start, added, changes, selected, bookmarks, initialEvents);
    if replay {
      ViewsOwnKeys(log, anchor);
      WireSnapshot(initial, selected, bookmarks, initialEvents);
      SelectedByKey(initial, view, prefix, selected);
    }
    WireFollowsSelection(log, prefix, anchor, at, selected, bookmarks, initialEvents);
  }

  /** The end-of-initial-events mark goes out once, at the first bookmark, and the client
      then holds exactly the selected registry at the revision it names. */
  lemma InitialEndIsExact(log: seq<Row>, prefix: string, anchor: nat, cursor: nat, initial: seq<Object>,
                          sent: seq<Event>, i: nat, selected: Selector, bookmarks: bool)
    requires Exact(log, prefix, anchor, true, Following, cursor, initial, sent)
    requires i < |sent| && sent[i].Bookmark? && NoBookmarks(sent[..i])
    ensures var wire := Wire(sent[..i], selected, bookmarks, true);
            && Wire(sent[..i + 1], selected, bookmarks, true) == wire + [WireBookmark(sent[i].revision, true)]
            && Held(map[], wire) == Selected(At(log, sent[i].revision), prefix, selected)
            && (forall event | event in wire :: !event.WireBookmark?)
  {
    assert Stands(log, prefix, anchor, initial, sent, i);
    StreamOnWire(log, prefix, anchor, true, sent[i].revision, initial, sent[..i], selected, bookmarks, true);
    assert sent[..i + 1][..i] == sent[..i];
    NoMarks(sent[..i], selected, bookmarks, true);
  }

  lemma {:induction false} NoMarks(events: seq<Event>, selected: Selector, bookmarks: bool, initial: bool)
    requires NoBookmarks(events)
    ensures forall event | event in Wire(events, selected, bookmarks, initial) :: !event.WireBookmark?
  {
    if events != [] { NoMarks(events[..|events| - 1], selected, bookmarks, initial); }
  }

  /** After the first bookmark no later one is marked as the end of the initial events. */
  lemma {:induction false} InitialEndOnce(sent: seq<Event>, i: nat, n: nat, selected: Selector, bookmarks: bool)
    requires i < n <= |sent| && sent[i].Bookmark?
    ensures var wire, head := Wire(sent[..n], selected, bookmarks, true), Wire(sent[..i + 1], selected, bookmarks, true);
            && head <= wire
            && forall k | |head| <= k < |wire| && wire[k].WireBookmark? :: !wire[k].initialEnd
    decreases n
  {
    if n > i + 1 {
      InitialEndOnce(sent, i, n - 1, selected, bookmarks);
      assert sent[..n][..n - 1] == sent[..n - 1];
      assert sent[..n - 1][i].Bookmark?;
    }
  }
}
