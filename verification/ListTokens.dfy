/** The API's filtered LIST: pages of the registry scanned through a selector, and the
    continue tokens that chain bounded responses over one snapshot. */
module ListTokens {
  import opened Wrappers
  import opened KeyOrder
  import opened RegistryLog
  import opened Registry

  const DEFAULT_LIMIT := 256
  const MAX_SCAN := 4096
  const PAGE := 256

  /** A missing or zero limit is 256; no response returns more than 4096 objects. */
  function EffectiveLimit(requested: Option<nat>): nat {
    var limit := if requested.Some? && requested.value > 0 then requested.value else DEFAULT_LIMIT;
    if limit > MAX_SCAN then MAX_SCAN else limit
  }

  datatype Response =
    | Refused(error: Error)
    | Truncated(error: Error)
    | Complete(items: seq<Object>, revision: nat, token: Option<StoreKey>)

  /** What a response answers: it scanned one range of the snapshot, from the request's
      start up to its token, and returned the selected objects of that range. */
  ghost predicate Answers(scan: seq<Object>, items: seq<Object>, token: Option<StoreKey>, view: View, prefix: string,
                          start: Option<StoreKey>, selected: Selector)
  {
    && IsRange(scan, view, prefix, Bound(start), token)
    && items == Filter(scan, selected)
    && (token.Some? ==> token.value in view && prefix <= token.value && Less(Bound(start), token.value))
  }

  function Turn(between: seq<seq<Action>>, k: nat): seq<Action> {
    if k < |between| then between[k] else []
  }

  /** One LIST request. `between[k]` commits before the k-th page after the first. */
  method ListObjects(store: Store, prefix: string, limit: Option<nat>, at: Option<nat>, start: Option<StoreKey>,
                     selected: Selector, between: seq<seq<Action>>)
    returns (response: Response, ghost scan: seq<Object>)
    requires store.Valid()
    modifies store
    ensures store.Valid() && old(store.log) <= store.log && old(store.compacted) <= store.compacted
    ensures response.Complete? ==>
              && response.revision == (if at.None? || at.value == 0 then old(store.revision) else at.value)
              && response.revision <= |store.log|
              && |response.items| <= EffectiveLimit(limit)
              && Answers(scan, response.items, response.token, At(store.log, response.revision), prefix, start, selected)
    ensures response.Refused? ==>
              || (start.Some? && !(prefix <= start.value))
              || (at.Some? && at.value != 0 && !(old(store.compacted) <= at.value <= old(store.revision)))
    ensures response.Truncated? ==>
              store.compacted > (if at.None? || at.value == 0 then old(store.revision) else at.value)
  {
    scan := [];
    var first := store.List(prefix, at, start, PAGE);
    if first.Err? { return Refused(first.error), scan; }
    response, scan := ScanPages(store, prefix, EffectiveLimit(limit), first.value, start, selected, between);
  }

  /** The scan loop's state: everything up to `from` has been read and filtered. */
  ghost predicate Scanned(scan: seq<Object>, items: seq<Object>, view: View, prefix: string, start: Option<StoreKey>,
                          from: Option<StoreKey>, selected: Selector)
  {
    && items == Filter(scan, selected)
    && (if from == start then scan == []
        else from.Some? && IsRange(scan, view, prefix, Bound(start), from) && Less(Bound(start), from.value))
  }

  /** One page of the scan: what it adds, whether the response is full, and the token that
      would continue it. */
  method TakePage(page: Page, ghost view: View, ghost prefix: string, ghost start: Option<StoreKey>, ghost from: Option<StoreKey>,
                  selected: Selector, bound: nat, items: seq<Object>, ghost scan: seq<Object>, scanned: nat)
      returns (more: seq<Object>, ghost further: seq<Object>, count: nat, full: bool, token: Option<StoreKey>)
    requires OwnKeys(view) && IsPage(page.items, page.nextAfter, view, prefix, Bound(from), PAGE)
    requires Scanned(scan, items, view, prefix, start, from, selected)
    requires |items| < bound && scanned == |scan| < MAX_SCAN
    ensures Answers(further, more, token, view, prefix, start, selected) && |more| <= bound
    ensures count == |further| && (!full ==> |more| < bound && count < MAX_SCAN && token == page.nextAfter)
    ensures !full && page.nextAfter.Some? ==>
              count > scanned && Scanned(further, more, view, prefix, start, page.nextAfter, selected)
  {
    var taken, found := ScanPage(page.items, selected, bound - |items|, MAX_SCAN - scanned);
    full := |items| + |found| >= bound || scanned + taken >= MAX_SCAN;
    token := page.nextAfter;
    if full { token := if taken < |page.items| || page.nextAfter.Some? then Some(page.items[taken - 1].key) else None; }
    JoinScan(scan, items, page, taken, token, view, prefix, start, from, selected);
    further, more, count := scan + page.items[..taken], items + found, scanned + taken;
  }

  method ScanPages(store: Store, prefix: string, bound: nat, first: Page, start: Option<StoreKey>, selected: Selector,
                   between: seq<seq<Action>>)
    returns (response: Response, ghost scan: seq<Object>)
    requires store.Valid() && 0 < bound <= MAX_SCAN && first.revision <= |store.log|
    requires IsPage(first.items, first.nextAfter, At(store.log, first.revision), prefix, Bound(start), PAGE)
    modifies store
    ensures store.Valid() && old(store.log) <= store.log && old(store.compacted) <= store.compacted
    ensures !response.Refused?
    ensures response.Truncated? ==> store.compacted > first.revision
    ensures response.Complete? ==>
              && response.revision == first.revision && |response.items| <= bound
              && Answers(scan, response.items, response.token, At(store.log, first.revision), prefix, start, selected)
  {
    var page, revision, from := first, first.revision, start;
    ghost var view := At(store.log, revision);
    ViewsOwnKeys(store.log, revision);
    var items, scanned, turn := [], 0, 0;
    scan := [];
    while true
      invariant store.Valid() && old(store.log) <= store.log && old(store.compacted) <= store.compacted
      invariant revision <= |store.log| && view == At(store.log, revision) && OwnKeys(view)
      invariant IsPage(page.items, page.nextAfter, view, prefix, Bound(from), PAGE)
      invariant Scanned(scan, items, view, prefix, start, from, selected)
      invariant |items| < bound && scanned == |scan| < MAX_SCAN
      decreases MAX_SCAN - scanned
    {
      var full, token;
      items, scan, scanned, full, token := TakePage(page, view, prefix, start, from, selected, bound, items, scan, scanned);
      if full || page.nextAfter.None? { return Complete(items, revision, token), scan; }
      from := page.nextAfter;
      var r := NextPage(store, prefix, revision, from.value, Turn(between, turn));
      if r.Err? { return Truncated(r.error), scan; }
      page := r.value;
      turn := turn + 1;
    }
  }

  /** The next page of the same snapshot, after whatever committed meanwhile. */
  method NextPage(store: Store, prefix: string, revision: nat, after: StoreKey, meanwhile: seq<Action>)
    returns (r: Result<Page, Error>)
    requires store.Valid() && 0 < revision <= |store.log| && prefix <= after
    modifies store
    ensures store.Valid() && old(store.log) <= store.log && old(store.compacted) <= store.compacted
    ensures At(store.log, revision) == old(At(store.log, revision))
    ensures r.Err? ==> store.compacted > revision
    ensures r.Ok? ==>
              r.value.revision == revision
              && IsPage(r.value.items, r.value.nextAfter, old(At(store.log, revision)), prefix, after, PAGE)
  {
    ghost var log := store.log;
    store.Interfere(meanwhile);
    AtExtends(log, store.log, revision);
    r := store.List(prefix, Some(revision), Some(after), PAGE);
  }

  /** Scan a page until the response is full or the scan is used up. */
  method ScanPage(objects: seq<Object>, selected: Selector, room: nat, scans: nat)
    returns (taken: nat, items: seq<Object>)
    requires room > 0 && scans > 0
    ensures taken <= |objects| && taken <= scans && items == Filter(objects[..taken], selected) && |items| <= room
    ensures taken < |objects| ==> |items| == room || taken == scans
    ensures |items| == room || taken == scans ==> taken > 0
  {
    taken, items := 0, [];
    while taken < |objects|
      invariant taken <= |objects| && taken < scans && items == Filter(objects[..taken], selected) && |items| < room
    {
      FilterLast(objects[..taken], objects[taken], selected);
      assert objects[..taken + 1] == objects[..taken] + [objects[taken]];
      if selected(objects[taken]) { items := items + [objects[taken]]; }
      taken := taken + 1;
      if |items| >= room || taken >= scans { return; }
    }
  }

  /** Extending the scan by the part of a page that was taken. */
  lemma JoinScan(before: seq<Object>, items: seq<Object>, page: Page, taken: nat, token: Option<StoreKey>, view: View,
                 prefix: string, start: Option<StoreKey>, from: Option<StoreKey>, selected: Selector)
    requires OwnKeys(view) && IsPage(page.items, page.nextAfter, view, prefix, Bound(from), PAGE)
    requires Scanned(before, items, view, prefix, start, from, selected)
    requires taken <= |page.items|
    requires || (taken == |page.items| && token == page.nextAfter)
             || (taken > 0 && token == Some(page.items[taken - 1].key))
    ensures Answers(before + page.items[..taken], items + Filter(page.items[..taken], selected), token, view, prefix,
                    start, selected)
    ensures token.Some? ==> token != start
  {
    var part := page.items[..taken];
    FilterConcat(before, part, selected);
    if token == page.nextAfter && taken == |page.items| {
      assert part == page.items;
    } else {
      RangePrefix(page.items, taken, view, prefix, Bound(from), page.nextAfter);
    }
    if token.Some? {
      assert taken > 0 && token.value == page.items[taken - 1].key;
      assert page.items[taken - 1] in page.items;
      if from != start { LessTransitive(Bound(start), from.value, token.value); }
      LessIrreflexive(token.value);
    }
    if from == start {
      assert before + part == part;
    } else {
      RangesJoin(before, part, view, prefix, Bound(start), from.value, token);
    }
  }

  // ----- following tokens -----

  ghost function Beyond(view: View, bound: string): set<StoreKey> {
    set key | key in view && Less(bound, key)
  }

  lemma BeyondShrinks(view: View, low: string, high: StoreKey)
    requires Less(low, high)
    requires high in view
    ensures Beyond(view, high) < Beyond(view, low)
  {
    TotalOrder();
    assert high in Beyond(view, low) && high !in Beyond(view, high);
  }

  /** A client that follows continue tokens, over any writes and compactions between
      requests, ends with every selected object of one snapshot exactly once in key
      order; it can only fail because that snapshot was compacted away. */
  method FollowTokens(store: Store, prefix: string, limits: nat -> Option<nat>, selected: Selector,
                      between: seq<seq<seq<Action>>>)
    returns (failed: bool, all: seq<Object>, revision: nat, ghost scan: seq<Object>)
    requires store.Valid()
    modifies store
    ensures store.Valid() && old(store.log) <= store.log
    ensures revision == old(store.revision) <= |store.log|
    ensures failed ==> store.compacted > revision
    ensures !failed ==> all == Filter(scan, selected) && IsRange(scan, At(store.log, revision), prefix, "", None)
  {
    all, scan, revision, failed := [], [], store.revision, false;
    var token: Option<StoreKey> := None;
    var round := 0;
    ghost var view := At(store.log, revision);
    ViewsOwnKeys(store.log, revision);
    while true
      invariant store.Valid() && old(store.log) <= store.log
      invariant revision == old(store.revision) <= |store.log| && view == At(store.log, revision) && OwnKeys(view)
      invariant round == 0 ==> store.revision == revision
      invariant all == Filter(scan, selected)
      invariant if round == 0 then token.None? && scan == []
                else token.Some? && prefix <= token.value && Less("", token.value)
                     && IsRange(scan, view, prefix, "", token)
      invariant round == 0 || revision > 0
      decreases Beyond(view, Bound(token))
    {
      var at := if round == 0 then None else Some(revision);
      ghost var log := store.log;
      var response, part := ListObjects(store, prefix, limits(round), at, token, selected,
                                        if round < |between| then between[round] else []);
      AtExtends(log, store.log, revision);
      if !response.Complete? {
        failed := true;
        return;
      }
      FilterConcat(scan, part, selected);
      all := all + response.items;
      if round > 0 {
        if response.token.Some? { LessTransitive("", token.value, response.token.value); }
        RangesJoin(scan, part, view, prefix, "", token.value, response.token);
      } else {
        assert scan + part == part;
      }
      scan := scan + part;
      if response.token.None? { return; }
      ViewHoldsItsKeys(store.log, revision, response.token.value);
      BeyondShrinks(view, Bound(token), response.token.value);
      token := response.token;
      round := round + 1;
    }
  }
}
