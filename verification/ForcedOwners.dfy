/** Conflicts and force: what an apply takes from the other managers, path after path, and what
    that comes to for each recorded entry. */
module ForcedOwners {
  import opened Wrappers
  import opened JsonPaths
  import opened OwnedFields
  import opened FieldOwners
  import opened PathOrder

  // ----- one path -----

  /** Forcing a path leaves its owner the path's owner. */
  lemma {:induction false} LoserStillOwns(es: seq<Entry>, path: Path, manager: string)
    requires OwnerOf(es, path, manager).Some?
    ensures OwnerOf(Yield(es, OwnerOf(es, path, manager).value, path), path, manager) == OwnerOf(es, path, manager)
  {
    var owner := OwnerOf(es, path, manager).value;
    var after := Yield(es, owner, path);
    forall owned | owned in es[0].paths && owned <= path ensures owned in after[0].paths {
    }
    assert Covers(after[0], path) <==> Covers(es[0], path);
    YieldTail(es, owner, path);
    if !(Other(es[0], manager) && Covers(es[0], path)) {
      LoserStillOwns(es[1..], path, manager);
    }
  }

  lemma YieldTail(es: seq<Entry>, owner: string, path: Path)
    requires es != []
    ensures Yield(es, owner, path)[1..] == Yield(es[1..], owner, path)
  {
  }

  ghost predicate AllWithin(es: seq<Entry>, owner: string, path: Path) {
    forall i, q | 0 <= i < |es| && es[i].manager == owner && q in es[i].paths :: q <= path
  }

  /** Nobody else's path changes owner: nor does one of the loser's, where all it still owns
      lies above that path. */
  lemma {:induction false} OtherOwnersStay(es: seq<Entry>, d: Path, p: Path, manager: string)
    requires OneApply(es) && OwnerOf(es, d, manager).Some?
    requires OwnerOf(es, p, manager) == OwnerOf(es, d, manager) ==> AllWithin(es, OwnerOf(es, d, manager).value, p)
    ensures OwnerOf(Yield(es, OwnerOf(es, d, manager).value, d), p, manager) == OwnerOf(es, p, manager)
  {
    var owner := OwnerOf(es, d, manager).value;
    var e, after, rest := es[0], Yield(es, owner, d), es[1..];
    YieldTail(es, owner, d);
    TailOneApply(es);
    if Mine(e, owner) {
      NoneMine(es, manager, d);
      NoneMine(es, manager, p);
      YieldsNothing(rest, owner, d, p, manager);
      if Covers(e, p) {
        var owned :| owned in e.paths && owned <= d;
        assert owned in after[0].paths && owned <= p;
      }
    } else if Other(e, manager) && Covers(e, p) {
    } else {
      OtherOwnersStay(rest, d, p, manager);
    }
  }

  /** The manager of the first entry, when that is an apply entry, owns no path further on. */
  lemma NoneMine(es: seq<Entry>, manager: string, p: Path)
    requires OneApply(es) && es != [] && es[0].operation == "Apply"
    ensures OwnerOf(es[1..], p, manager) != Some(es[0].manager)
  {
    if OwnerOf(es[1..], p, manager).Some? { var i := OwnerIs(es[1..], p, manager); }
  }

  /** The entry that makes its manager the owner. */
  lemma {:induction false} OwnerIs(es: seq<Entry>, p: Path, manager: string) returns (i: nat)
    requires OwnerOf(es, p, manager).Some?
    ensures i < |es| && Mine(es[i], OwnerOf(es, p, manager).value) && Covers(es[i], p)
  {
    if Other(es[0], manager) && Covers(es[0], p) {
      i := 0;
    } else {
      var k := OwnerIs(es[1..], p, manager);
      i := k + 1;
    }
  }

  lemma {:induction false} YieldsNothing(es: seq<Entry>, owner: string, d: Path, p: Path, manager: string)
    requires forall i | 0 <= i < |es| :: !Mine(es[i], owner)
    ensures OwnerOf(Yield(es, owner, d), p, manager) == OwnerOf(es, p, manager)
  {
    if es != [] {
      YieldTail(es, owner, d);
      YieldsNothing(es[1..], owner, d, p, manager);
    }
  }

  /** The declared paths whose value the apply changes. */
  ghost function Changed(ds: set<Path>, v: Json, a: Json): set<Path> {
    set d | d in ds && Get(v, d) != Get(a, d)
  }

  ghost predicate Contested(es: seq<Entry>, d: Path, manager: string, v: Json, a: Json) {
    OwnerOf(es, d, manager).Some? && Get(v, d) != Get(a, d)
  }

  /** Every changed path that the owner still owns lies in this one. */
  ghost predicate KeepsPath(r: seq<Entry>, owner: string, manager: string, changed: set<Path>, q: Path) {
    forall d {:trigger OwnerOf(r, d, manager)} :: d in changed && OwnerOf(r, d, manager) == Some(owner) ==> q <= d
  }

  ghost function Kept(e: Entry, r: seq<Entry>, manager: string, changed: set<Path>): set<Path> {
    set q | q in e.paths && KeepsPath(r, e.manager, manager, changed, q)
  }

  /** The entries once the changed paths are forced: each keeps exactly the paths in which all
      changed paths lie that its manager owns in the end. */
  ghost predicate Forced(es: seq<Entry>, r: seq<Entry>, manager: string, changed: set<Path>) {
    && |r| == |es|
    && forall i | 0 <= i < |es| :: r[i] == es[i].(paths := Kept(es[i], r, manager, changed))
  }

  lemma ForcedOneApply(es: seq<Entry>, r: seq<Entry>, manager: string, changed: set<Path>)
    requires Forced(es, r, manager, changed) && OneApply(es)
    ensures OneApply(r)
  {
  }

  lemma NothingForced(es: seq<Entry>, manager: string)
    ensures Forced(es, es, manager, {})
  {
    forall i | 0 <= i < |es| ensures Kept(es[i], es, manager, {}) == es[i].paths {
    }
  }

  /** A changed path that nobody else owns takes nothing. */
  lemma ForcedFree(es: seq<Entry>, now: seq<Entry>, manager: string, done: set<Path>, d: Path)
    requires Forced(es, now, manager, done) && OwnerOf(now, d, manager).None?
    ensures Forced(es, now, manager, done + {d})
  {
    forall i | 0 <= i < |es| ensures Kept(es[i], now, manager, done + {d}) == Kept(es[i], now, manager, done) {
      forall q ensures KeepsPath(now, es[i].manager, manager, done + {d}, q) <==> KeepsPath(now, es[i].manager, manager, done, q) {
      }
    }
  }

  /** One more changed path taken over. */
  lemma ForcedMore(es: seq<Entry>, now: seq<Entry>, manager: string, done: set<Path>, d: Path)
    requires Forced(es, now, manager, done) && OneApply(es) && OwnerOf(now, d, manager).Some?
    ensures Forced(es, Yield(now, OwnerOf(now, d, manager).value, d), manager, done + {d})
  {
    var owner := OwnerOf(now, d, manager).value;
    var w := Yield(now, owner, d);
    LoserStillOwns(now, d, manager);
    ForcedOneApply(es, now, manager, done);
    forall p | p in done ensures OwnerOf(w, p, manager) == OwnerOf(now, p, manager) {
      if OwnerOf(now, p, manager) == Some(owner) { KeptWithin(es, now, manager, done, p); }
      OtherOwnersStay(now, d, p, manager);
    }
    forall i | 0 <= i < |es| ensures w[i] == es[i].(paths := Kept(es[i], w, manager, done + {d})) {
      forall q ensures KeepsPath(w, es[i].manager, manager, done + {d}, q)
        <==> KeepsPath(now, es[i].manager, manager, done, q) && (es[i].manager == owner ==> q <= d)
      {
        KeepsMore(now, w, es[i].manager, manager, done, d, q);
      }
      assert w[i].paths == Kept(es[i], w, manager, done + {d});
    }
  }

  lemma KeepsMore(now: seq<Entry>, w: seq<Entry>, owner: string, manager: string, done: set<Path>, d: Path, q: Path)
    requires forall p | p in done :: OwnerOf(w, p, manager) == OwnerOf(now, p, manager)
    requires OwnerOf(w, d, manager) == OwnerOf(now, d, manager)
    ensures KeepsPath(w, owner, manager, done + {d}, q)
            <==> KeepsPath(now, owner, manager, done, q) && (OwnerOf(now, d, manager) == Some(owner) ==> q <= d)
  {
    if KeepsPath(w, owner, manager, done + {d}, q) {
      forall p | p in done && OwnerOf(now, p, manager) == Some(owner) ensures q <= p {
        assert OwnerOf(w, p, manager) == Some(owner);
      }
      assert OwnerOf(w, d, manager) == Some(owner) ==> q <= d;
    }
  }

  /** All that the owner of a forced path has left lies above that path. */
  lemma KeptWithin(es: seq<Entry>, r: seq<Entry>, manager: string, changed: set<Path>, d: Path)
    requires Forced(es, r, manager, changed) && d in changed && OwnerOf(r, d, manager).Some?
    ensures AllWithin(r, OwnerOf(r, d, manager).value, d)
  {
  }

  /** Without any assumption on the entries: only other managers lose, and only paths that some
      changed one lies outside of. */
  ghost predicate Yielded(es: seq<Entry>, r: seq<Entry>, manager: string, changed: set<Path>) {
    && |r| == |es|
    && forall i :: 0 <= i < |es| ==>
         && r[i] == es[i].(paths := r[i].paths) && r[i].paths <= es[i].paths
         && (es[i].manager == manager ==> r[i] == es[i])
         && forall q :: q in es[i].paths && q !in r[i].paths ==> exists d :: d in changed && !(q <= d)
  }

  lemma YieldedMore(es: seq<Entry>, r: seq<Entry>, manager: string, changed: set<Path>, d: Path, owner: string)
    requires Yielded(es, r, manager, changed) && owner != manager
    ensures Yielded(es, Yield(r, owner, d), manager, changed + {d})
  {
    var w := Yield(r, owner, d);
    forall i | 0 <= i < |es|
      ensures w[i] == es[i].(paths := w[i].paths) && w[i].paths <= es[i].paths && (es[i].manager == manager ==> w[i] == es[i])
      ensures forall q :: q in es[i].paths && q !in w[i].paths ==> exists p :: p in changed + {d} && !(q <= p)
    {
      forall q | q in es[i].paths && q !in w[i].paths ensures exists p :: p in changed + {d} && !(q <= p) {
        if q in r[i].paths {
          assert d in changed + {d} && !(q <= d);
        } else {
          var p :| p in changed && !(q <= p);
          assert p in changed + {d};
        }
      }
    }
  }

  // ----- path after path -----

  /** Taking one path from its owner, if another manager owns it. */
  function TakeOne(es: seq<Entry>, manager: string, d: Path): seq<Entry> {
    match OwnerOf(es, d, manager)
    case Some(owner) => Yield(es, owner, d)
    case None => es
  }

  /** Taking paths one after the other. */
  function Take(es: seq<Entry>, manager: string, ds: seq<Path>): (r: seq<Entry>)
    ensures |r| == |es|
  {
    if ds == [] then es else TakeOne(Take(es, manager, ds[..|ds| - 1]), manager, ds[|ds| - 1])
  }

  lemma TakeLast(es: seq<Entry>, manager: string, ds: seq<Path>, d: Path)
    ensures Take(es, manager, ds + [d]) == TakeOne(Take(es, manager, ds), manager, d)
  {
    assert (ds + [d])[..|ds|] == ds;
  }

  lemma {:induction false} TakesNothing(es: seq<Entry>, manager: string, ds: seq<Path>)
    requires forall d | d in ds :: OwnerOf(es, d, manager).None?
    ensures Take(es, manager, ds) == es
  {
    if ds != [] { TakesNothing(es, manager, ds[..|ds| - 1]); }
  }

  lemma {:induction false} TakeForces(es: seq<Entry>, manager: string, ds: seq<Path>)
    requires OneApply(es)
    ensures Forced(es, Take(es, manager, ds), manager, Elements(ds))
  {
    if ds == [] {
      NothingForced(es, manager);
      assert Elements(ds) == {};
    } else {
      var init, d := ds[..|ds| - 1], ds[|ds| - 1];
      TakeForces(es, manager, init);
      assert Elements(ds) == Elements(init) + {d};
      if OwnerOf(Take(es, manager, init), d, manager).None? {
        ForcedFree(es, Take(es, manager, init), manager, Elements(init), d);
      } else {
        ForcedMore(es, Take(es, manager, init), manager, Elements(init), d);
      }
    }
  }

  lemma {:induction false} TakeYields(es: seq<Entry>, manager: string, ds: seq<Path>)
    ensures Yielded(es, Take(es, manager, ds), manager, Elements(ds))
  {
    if ds != [] {
      var init, d := ds[..|ds| - 1], ds[|ds| - 1];
      TakeYields(es, manager, init);
      assert Elements(ds) == Elements(init) + {d};
      YieldedGrows(es, Take(es, manager, init), manager, Elements(init), d);
      var owner := OwnerOf(Take(es, manager, init), d, manager);
      if owner.Some? { YieldedMore(es, Take(es, manager, init), manager, Elements(init), d, owner.value); }
    }
  }

  lemma YieldedGrows(es: seq<Entry>, r: seq<Entry>, manager: string, changed: set<Path>, d: Path)
    requires Yielded(es, r, manager, changed)
    ensures Yielded(es, r, manager, changed + {d})
  {
    forall i, q | 0 <= i < |es| && q in es[i].paths && q !in r[i].paths ensures exists p :: p in changed + {d} && !(q <= p) {
      var p :| p in changed && !(q <= p);
      assert p in changed + {d};
    }
  }

  // ----- an apply -----

  /** The paths of a sequence whose value the apply changes. */
  function InTurn(ds: seq<Path>, v: Json, a: Json): seq<Path> {
    if ds == [] then []
    else
      var d := ds[|ds| - 1];
      InTurn(ds[..|ds| - 1], v, a) + (if Get(v, d) != Get(a, d) then [d] else [])
  }

  lemma InTurnLast(ds: seq<Path>, d: Path, v: Json, a: Json)
    ensures InTurn(ds + [d], v, a) == InTurn(ds, v, a) + (if Get(v, d) != Get(a, d) then [d] else [])
  {
    assert (ds + [d])[..|ds|] == ds;
  }

  lemma {:induction false} InTurnHolds(ds: seq<Path>, v: Json, a: Json)
    ensures forall d :: d in InTurn(ds, v, a) <==> d in ds && Get(v, d) != Get(a, d)
  {
    if ds != [] {
      InTurnHolds(ds[..|ds| - 1], v, a);
      assert ds == ds[..|ds| - 1] + [ds[|ds| - 1]];
    }
  }

  lemma {:induction false} InTurnAscends(ds: seq<Path>, v: Json, a: Json)
    requires Ascending(ds)
    ensures Ascending(InTurn(ds, v, a))
  {
    if ds != [] {
      var init, d := ds[..|ds| - 1], ds[|ds| - 1];
      InTurnAscends(init, v, a);
      InTurnHolds(init, v, a);
      forall p | p in InTurn(init, v, a) ensures Before(p, d) {
        var i :| 0 <= i < |init| && init[i] == p;
      }
    }
  }

  /** Visited in order, the changed paths come in order. */
  lemma ChangedInOrder(ds: set<Path>, v: Json, a: Json)
    ensures InTurn(InOrder(ds), v, a) == InOrder(Changed(ds, v, a)) && Elements(InOrder(Changed(ds, v, a))) == Changed(ds, v, a)
  {
    var turn := InTurn(InOrder(ds), v, a);
    InOrderAscends(ds);
    InTurnAscends(InOrder(ds), v, a);
    InTurnHolds(InOrder(ds), v, a);
    assert Elements(turn) == Changed(ds, v, a);
    InOrderUnique(turn);
  }

  ghost predicate AnyContested(es: seq<Entry>, ds: set<Path>, manager: string, v: Json, a: Json) {
    exists d :: d in ds && Contested(es, d, manager, v, a)
  }

  /** The first of the declared paths that is contested. */
  ghost predicate FirstContested(es: seq<Entry>, ds: set<Path>, manager: string, v: Json, a: Json, d: Path) {
    && d in ds && Contested(es, d, manager, v, a)
    && forall p | p in ds && Contested(es, p, manager, v, a) :: p == d || Before(d, p)
  }

  /** Some of the paths have been visited, the rest come after them in order. */
  ghost predicate Visiting(ds: set<Path>, done: seq<Path>, rest: set<Path>) {
    rest <= ds && done + InOrder(rest) == InOrder(ds)
  }

  ghost predicate NoneContested(es: seq<Entry>, done: seq<Path>, manager: string, v: Json, a: Json) {
    forall d | d in done :: !Contested(es, d, manager, v, a)
  }

  /** The entries once these paths have been visited. */
  ghost predicate Contesting(es: seq<Entry>, now: seq<Entry>, done: seq<Path>, manager: string, v: Json, a: Json, force: bool) {
    now == Take(es, manager, InTurn(done, v, a)) && (!force ==> now == es && NoneContested(es, done, manager, v, a))
  }

  /** Refuse a change to what another manager owns, or with force take it over, visiting the
      declared paths in order. The entries left are those of taking the changed paths one after
      the other; `AfterForce` says what that comes to. */
  method Contest(es: seq<Entry>, declared: set<Path>, v: Json, a: Json, manager: string, force: bool) returns (r: Result<seq<Entry>, Path>)
    ensures r.Err? <==> !force && AnyContested(es, declared, manager, v, a)
    ensures r.Err? ==> FirstContested(es, declared, manager, v, a, r.error)
    ensures r.Ok? ==> r.value == Take(es, manager, InOrder(Changed(declared, v, a))) && (!force ==> r.value == es)
    ensures r.Ok? && OneApply(es) && AllPrefixFree(es) ==> r.value == AfterForce(es, manager, InOrder(Changed(declared, v, a)))
    ensures r.Ok? ==> Yielded(es, r.value, manager, Changed(declared, v, a))
    ensures r.Ok? && OneApply(es) ==> Forced(es, r.value, manager, Changed(declared, v, a))
    ensures Changed(declared, v, a) == {} ==> r == Ok(es)
  {
    r := Visit(es, declared, v, a, manager, force);
    TakingMeans(es, manager, InOrder(Changed(declared, v, a)));
    ChangedInOrder(declared, v, a);
    if r.Ok? { AllVisited(es, r.value, declared, manager, v, a, force); } else { FirstIsOne(es, declared, manager, v, a, r.error); }
  }

  method Visit(es: seq<Entry>, declared: set<Path>, v: Json, a: Json, manager: string, force: bool) returns (r: Result<seq<Entry>, Path>)
    ensures r.Err? ==> !force && FirstContested(es, declared, manager, v, a, r.error)
    ensures r.Ok? ==> Contesting(es, r.value, InOrder(declared), manager, v, a, force)
  {
    var now := es;
    var rest := declared;
    ghost var done: seq<Path> := [];
    while rest != {}
      invariant Visiting(declared, done, rest) && Contesting(es, now, done, manager, v, a, force)
      decreases |rest|
    {
      ghost var least := LeastExists(rest);
      var d :| d in rest && IsLeast(d, rest);
      var next := ContestOne(es, now, done, d, manager, v, a, force);
      if next.Err? {
        IsFirst(es, declared, done, rest, manager, v, a, d);
        return next;
      }
      Visited(declared, done, rest, d);
      now, rest, done := next.value, rest - {d}, done + [d];
    }
    assert done + [] == done;
    return Ok(now);
  }

  /** What taking path after path means, with and without an assumption on the entries. */
  lemma TakingMeans(es: seq<Entry>, manager: string, ds: seq<Path>)
    ensures OneApply(es) && AllPrefixFree(es) ==> Take(es, manager, ds) == AfterForce(es, manager, ds)
    ensures Yielded(es, Take(es, manager, ds), manager, Elements(ds))
    ensures OneApply(es) ==> Forced(es, Take(es, manager, ds), manager, Elements(ds))
    ensures Elements(ds) == {} ==> Take(es, manager, ds) == es
  {
    TakeYields(es, manager, ds);
    if OneApply(es) {
      TakeForces(es, manager, ds);
      if AllPrefixFree(es) { TakeIsAfterForce(es, manager, ds); }
    }
    if Elements(ds) == {} {
      forall d ensures d in ds ==> d in Elements(ds) {
      }
      TakesNothing(es, manager, ds);
    }
  }

  method ContestOne(ghost es: seq<Entry>, now: seq<Entry>, ghost done: seq<Path>, d: Path, manager: string, v: Json, a: Json, force: bool)
      returns (r: Result<seq<Entry>, Path>)
    requires Contesting(es, now, done, manager, v, a, force)
    ensures r.Err? ==> r.error == d && !force && Contested(es, d, manager, v, a) && NoneContested(es, done, manager, v, a)
    ensures r.Ok? ==> Contesting(es, r.value, done + [d], manager, v, a, force)
  {
    InTurnLast(done, d, v, a);
    if Get(v, d) == Get(a, d) {
      assert InTurn(done, v, a) + [] == InTurn(done, v, a);
      return Ok(now);
    }
    TakeLast(es, manager, InTurn(done, v, a), d);
    var owner := OwnerOf(now, d, manager);
    if owner.None? { return Ok(now); }
    if !force { return Err(d); }
    return Ok(Yield(now, owner.value, d));
  }

  lemma Visited(ds: set<Path>, done: seq<Path>, rest: set<Path>, d: Path)
    requires Visiting(ds, done, rest) && IsLeast(d, rest)
    ensures Visiting(ds, done + [d], rest - {d})
  {
    InOrderFirst(rest, d);
    assert (done + [d]) + InOrder(rest - {d}) == done + ([d] + InOrder(rest - {d}));
  }

  lemma IsFirst(es: seq<Entry>, ds: set<Path>, done: seq<Path>, rest: set<Path>, manager: string, v: Json, a: Json, d: Path)
    requires Visiting(ds, done, rest) && IsLeast(d, rest) && Contested(es, d, manager, v, a) && NoneContested(es, done, manager, v, a)
    ensures FirstContested(es, ds, manager, v, a, d)
  {
    forall p | p in ds && Contested(es, p, manager, v, a) ensures p == d || Before(d, p) {
      assert p in done + InOrder(rest);
    }
  }

  lemma FirstIsOne(es: seq<Entry>, ds: set<Path>, manager: string, v: Json, a: Json, d: Path)
    requires FirstContested(es, ds, manager, v, a, d)
    ensures AnyContested(es, ds, manager, v, a) && Changed(ds, v, a) != {}
  {
    assert d in Changed(ds, v, a);
  }

  lemma AllVisited(es: seq<Entry>, now: seq<Entry>, ds: set<Path>, manager: string, v: Json, a: Json, force: bool)
    requires Contesting(es, now, InOrder(ds), manager, v, a, force)
    ensures now == Take(es, manager, InOrder(Changed(ds, v, a)))
    ensures !force ==> !AnyContested(es, ds, manager, v, a)
  {
    ChangedInOrder(ds, v, a);
    forall d | d in ds && Contested(es, d, manager, v, a) ensures force { assert d in InOrder(ds); }
  }

  // ----- what that means for each owner, in any order -----

  /** Forced takes nothing from a manager that had no part of a changed path. */
  lemma UninvolvedKeeps(es: seq<Entry>, r: seq<Entry>, manager: string, changed: set<Path>, i: nat)
    requires Forced(es, r, manager, changed) && i < |es|
    requires forall j, d | 0 <= j < |es| && d in changed && Mine(es[j], es[i].manager) :: !Covers(es[j], d)
    ensures r[i] == es[i]
  {
    forall d | d in changed ensures OwnerOf(r, d, manager) != Some(es[i].manager) {
      if OwnerOf(r, d, manager) == Some(es[i].manager) {
        var j := OwnerIs(r, d, manager);
        CoveredBefore(es, r, manager, changed, j, d);
      }
    }
    assert Kept(es[i], r, manager, changed) == es[i].paths;
  }

  lemma CoveredBefore(es: seq<Entry>, r: seq<Entry>, manager: string, changed: set<Path>, j: nat, d: Path)
    requires Forced(es, r, manager, changed) && j < |es| && Covers(r[j], d)
    ensures Covers(es[j], d)
  {
    var owned :| owned in r[j].paths && owned <= d;
    assert owned in es[j].paths;
  }

  /** The first owner of a changed path is left with one path, which covers a changed path it
      still owns, and loses every other, contested or not. */
  lemma LoserKeepsOnePath(es: seq<Entry>, r: seq<Entry>, manager: string, changed: set<Path>, d: Path)
      returns (i: nat, kept: Path, still: Path)
    requires Forced(es, r, manager, changed) && d in changed && OwnerOf(es, d, manager).Some?
    requires forall k | 0 <= k < |es| :: PrefixFree(es[k].paths)
    ensures i < |es| && Mine(es[i], OwnerOf(es, d, manager).value) && kept in es[i].paths
    ensures r[i] == es[i].(paths := {kept})
    ensures still in changed && OwnerOf(r, still, manager) == Some(es[i].manager)
    ensures forall p :: p in changed && OwnerOf(r, p, manager) == Some(es[i].manager) ==> kept <= p
  {
    still := StillOwnsOne(es, r, manager, changed, d);
    i := OwnerIs(r, still, manager);
    kept :| kept in r[i].paths && kept <= still;
    KeptWithin(es, r, manager, changed, still);
    forall q | q in r[i].paths ensures q == kept {
      PrefixesMeet(q, kept, still);
    }
    assert r[i].paths == {kept};
  }

  /** Whoever owned a changed path still owns one of them. */
  lemma StillOwnsOne(es: seq<Entry>, r: seq<Entry>, manager: string, changed: set<Path>, d: Path) returns (still: Path)
    requires Forced(es, r, manager, changed) && d in changed && OwnerOf(es, d, manager).Some?
    ensures still in changed && OwnerOf(r, still, manager) == OwnerOf(es, d, manager)
  {
    var owner := OwnerOf(es, d, manager).value;
    if p :| p in changed && OwnerOf(r, p, manager) == Some(owner) {
      still := p;
    } else {
      forall i | 0 <= i < |es| && es[i].manager == owner ensures r[i] == es[i] {
        assert Kept(es[i], r, manager, changed) == es[i].paths;
      }
      OwnerSurvives(es, r, d, manager);
      still := d;
    }
  }

  /** An owner that loses nothing stays the owner, whatever the others lose. */
  lemma {:induction false} OwnerSurvives(es: seq<Entry>, r: seq<Entry>, d: Path, manager: string)
    requires |r| == |es| && OwnerOf(es, d, manager).Some?
    requires forall i | 0 <= i < |es| :: r[i] == es[i].(paths := r[i].paths) && r[i].paths <= es[i].paths
    requires forall i | 0 <= i < |es| && es[i].manager == OwnerOf(es, d, manager).value :: r[i] == es[i]
    ensures OwnerOf(r, d, manager) == OwnerOf(es, d, manager)
  {
    if !(Other(es[0], manager) && Covers(es[0], d)) {
      assert Covers(r[0], d) ==> Covers(es[0], d);
      OwnerSurvives(es[1..], r[1..], d, manager);
    }
  }

  lemma PrefixesMeet(p: Path, q: Path, d: Path)
    requires p <= d && q <= d
    ensures p <= q || q <= p
  {
  }

  /** Every entry comes out whole or with at most one path. */
  lemma AllOrOne(es: seq<Entry>, r: seq<Entry>, manager: string, changed: set<Path>, i: nat)
    requires Forced(es, r, manager, changed) && i < |es| && PrefixFree(es[i].paths)
    ensures r[i] == es[i] || |r[i].paths| <= 1
  {
    if d :| d in changed && OwnerOf(r, d, manager) == Some(es[i].manager) {
      KeptWithin(es, r, manager, changed, d);
      if kept :| kept in r[i].paths {
        forall q | q in r[i].paths ensures q == kept { PrefixesMeet(q, kept, d); }
        assert r[i].paths == {kept};
      }
    } else {
      assert Kept(es[i], r, manager, changed) == es[i].paths;
    }
  }

  // ----- what it comes to, from the stored entries alone -----

  ghost predicate AllPrefixFree(es: seq<Entry>) {
    forall i | 0 <= i < |es| :: PrefixFree(es[i].paths)
  }

  /** The paths of an entry that a path lies in. */
  function Above(e: Entry, d: Path): Entry { e.(paths := set q | q in e.paths && q <= d) }

  /** The first of the paths that the entry covers and no earlier entry does. */
  function FirstOpen(e: Entry, earlier: seq<Entry>, manager: string, ds: seq<Path>): Option<Path> {
    if ds == [] then None
    else
      var d, sooner := ds[|ds| - 1], FirstOpen(e, earlier, manager, ds[..|ds| - 1]);
      if sooner.Some? then sooner
      else if Covers(e, d) && OwnerOf(earlier, d, manager).None? then Some(d) else None
  }

  /** What is left of another manager's apply entry, given what is left of those before it. */
  function Reduced(e: Entry, earlier: seq<Entry>, manager: string, ds: seq<Path>): Entry {
    var first := FirstOpen(e, earlier, manager, ds);
    if Other(e, manager) && first.Some? then Above(e, first.value) else e
  }

  /** What is left of the apply entries, first to last. */
  function Standing(es: seq<Entry>, manager: string, ds: seq<Path>): (r: seq<Entry>)
    ensures |r| == |es| && forall i | 0 <= i < |es| :: r[i] == es[i].(paths := r[i].paths)
  {
    if es == [] then []
    else
      var earlier := Standing(es[..|es| - 1], manager, ds);
      earlier + [Reduced(es[|es| - 1], earlier, manager, ds)]
  }

  /** What is left of every entry: of an apply entry as above, of any other the paths in which
      all paths lie that its manager still owns. */
  ghost function AfterForce(es: seq<Entry>, manager: string, ds: seq<Path>): (r: seq<Entry>)
    ensures |r| == |es|
  {
    var standing := Standing(es, manager, ds);
    seq(|es|, i requires 0 <= i < |es| =>
      if es[i].operation == "Apply" then standing[i]
      else es[i].(paths := Kept(es[i], standing, manager, Elements(ds))))
  }

  lemma {:induction false} OwnerAppend(es: seq<Entry>, e: Entry, d: Path, manager: string)
    ensures OwnerOf(es + [e], d, manager)
            == if OwnerOf(es, d, manager).Some? then OwnerOf(es, d, manager)
               else if Other(e, manager) && Covers(e, d) then Some(e.manager) else None
  {
    if es == [] {
      assert es + [e] == [e] && [e][1..] == [];
    } else {
      assert (es + [e])[0] == es[0] && (es + [e])[1..] == es[1..] + [e];
      if !(Other(es[0], manager) && Covers(es[0], d)) { OwnerAppend(es[1..], e, d, manager); }
    }
  }

  lemma {:induction false} FirstOpenIs(e: Entry, earlier: seq<Entry>, manager: string, ds: seq<Path>)
    ensures var first := FirstOpen(e, earlier, manager, ds);
            && (first.Some? ==> first.value in ds && Covers(e, first.value) && OwnerOf(earlier, first.value, manager).None?)
            && (first.None? <==> forall d | d in ds :: Covers(e, d) ==> OwnerOf(earlier, d, manager).Some?)
  {
    if ds != [] {
      FirstOpenIs(e, earlier, manager, ds[..|ds| - 1]);
      assert ds == ds[..|ds| - 1] + [ds[|ds| - 1]];
    }
  }

  lemma FirstOpenLast(e: Entry, earlier: seq<Entry>, manager: string, ds: seq<Path>, d: Path)
    ensures FirstOpen(e, earlier, manager, ds + [d])
            == if FirstOpen(e, earlier, manager, ds).Some? then FirstOpen(e, earlier, manager, ds)
               else if Covers(e, d) && OwnerOf(earlier, d, manager).None? then Some(d) else None
  {
    assert (ds + [d])[..|ds|] == ds;
  }

  /** Only who owns nothing of a path matters. */
  lemma {:induction false} FirstOpenSame(e: Entry, one: seq<Entry>, two: seq<Entry>, manager: string, ds: seq<Path>)
    requires forall d | d in ds :: OwnerOf(one, d, manager) == OwnerOf(two, d, manager)
    ensures FirstOpen(e, one, manager, ds) == FirstOpen(e, two, manager, ds)
  {
    if ds != [] { FirstOpenSame(e, one, two, manager, ds[..|ds| - 1]); }
  }

  /** An apply entry of the owner loses what the path does not lie in; every other stays. */
  function TakenFrom(e: Entry, owner: Option<string>, d: Path): Entry {
    if owner.Some? && Mine(e, owner.value) then Above(e, d) else e
  }

  ghost predicate OneStep(before: seq<Entry>, after: seq<Entry>, manager: string, ds: seq<Path>, d: Path) {
    && |after| == |before|
    && (forall k | 0 <= k < |before| :: after[k] == TakenFrom(before[k], OwnerOf(before, d, manager), d))
    && (forall p | p in ds || p == d :: OwnerOf(after, p, manager) == OwnerOf(before, p, manager))
  }

  lemma AboveOnce(e: Entry, d: Path, p: Path)
    requires PrefixFree(e.paths) && Covers(Above(e, d), p)
    ensures Above(Above(e, d), p) == Above(e, d)
  {
    var owned :| owned in Above(e, d).paths && owned <= p;
    forall q | q in Above(e, d).paths ensures q == owned { PrefixesMeet(q, owned, d); }
    assert Above(Above(e, d), p).paths == Above(e, d).paths;
  }

  lemma AboveCovers(e: Entry, d: Path)
    requires Covers(e, d)
    ensures Covers(Above(e, d), d)
  {
    var owned :| owned in e.paths && owned <= d;
    assert owned in Above(e, d).paths;
  }

  /** What one more path does to one entry. */
  lemma ReducedStep(e: Entry, one: seq<Entry>, two: seq<Entry>, manager: string, ds: seq<Path>, d: Path)
    requires PrefixFree(e.paths) && OneStep(one, two, manager, ds, d)
    requires OwnerOf(one, d, manager).Some? ==> !Mine(e, OwnerOf(one, d, manager).value)
    ensures var left, after := Reduced(e, one, manager, ds), Reduced(e, two, manager, ds + [d]);
            && after == TakenFrom(left, OwnerOf(one + [left], d, manager), d)
            && forall p | p in ds || p == d :: OwnerOf(two + [after], p, manager) == OwnerOf(one + [left], p, manager)
  {
    var left, after := Reduced(e, one, manager, ds), Reduced(e, two, manager, ds + [d]);
    var first := FirstOpen(e, one, manager, ds);
    FirstOpenSame(e, one, two, manager, ds);
    FirstOpenLast(e, two, manager, ds, d);
    FirstOpenIs(e, one, manager, ds);
    OwnerAppend(one, left, d, manager);
    if Other(e, manager) && OwnerOf(one, d, manager).None? {
      if first.Some? {
        if Covers(left, d) { AboveOnce(e, first.value, d); }
      } else if Covers(e, d) {
        AboveCovers(e, d);
      }
    }
    forall p | p in ds || p == d ensures OwnerOf(two + [after], p, manager) == OwnerOf(one + [left], p, manager) {
      OwnerAppend(one, left, p, manager);
      OwnerAppend(two, after, p, manager);
      if after != left && p != d && Covers(after, p) { AboveCoversLess(e, d, p); }
    }
  }

  lemma AboveCoversLess(e: Entry, d: Path, p: Path)
    requires Covers(Above(e, d), p)
    ensures Covers(e, p)
  {
    var owned :| owned in Above(e, d).paths && owned <= p;
    assert owned in e.paths;
  }

  lemma NotTheOwner(es: seq<Entry>, standing: seq<Entry>, manager: string, d: Path)
    requires OneApply(es) && es != [] && |standing| == |es| - 1
    requires forall i | 0 <= i < |standing| :: standing[i] == es[i].(paths := standing[i].paths)
    ensures OwnerOf(standing, d, manager).Some? ==> !Mine(es[|es| - 1], OwnerOf(standing, d, manager).value)
  {
    if OwnerOf(standing, d, manager).Some? { var i := OwnerIs(standing, d, manager); }
  }

  /** One more path taken from the standing entries. */
  lemma {:induction false} StandingStep(es: seq<Entry>, manager: string, ds: seq<Path>, d: Path)
    requires OneApply(es) && AllPrefixFree(es)
    ensures OneStep(Standing(es, manager, ds), Standing(es, manager, ds + [d]), manager, ds, d)
    decreases |es|
  {
    if es != [] {
      var init, e := es[..|es| - 1], es[|es| - 1];
      var one, two := Standing(init, manager, ds), Standing(init, manager, ds + [d]);
      StandingStep(init, manager, ds, d);
      NotTheOwner(es, one, manager, d);
      ReducedStep(e, one, two, manager, ds, d);
      forall k | 0 <= k < |one| && e.operation == "Apply" ensures !Mine(one[k], e.manager) { assert one[k].manager == es[k].manager; }
      StepJoins(one, two, manager, ds, d, Reduced(e, one, manager, ds), Reduced(e, two, manager, ds + [d]));
    }
  }

  lemma StepJoins(one: seq<Entry>, two: seq<Entry>, manager: string, ds: seq<Path>, d: Path, left: Entry, after: Entry)
    requires OneStep(one, two, manager, ds, d) && after == TakenFrom(left, OwnerOf(one + [left], d, manager), d)
    requires forall p | p in ds || p == d :: OwnerOf(two + [after], p, manager) == OwnerOf(one + [left], p, manager)
    requires left.operation == "Apply" ==> forall k | 0 <= k < |one| :: !Mine(one[k], left.manager)
    ensures OneStep(one + [left], two + [after], manager, ds, d)
  {
    OwnerAppend(one, left, d, manager);
    var before, later := one + [left], two + [after];
    forall k | 0 <= k < |before| ensures later[k] == TakenFrom(before[k], OwnerOf(before, d, manager), d) {
      if k < |one| { assert before[k] == one[k] && later[k] == two[k]; }
    }
  }

  /** Two lists with the same apply entries give every path the same owner. */
  lemma {:induction false} OwnerByApply(one: seq<Entry>, two: seq<Entry>, d: Path, manager: string)
    requires |one| == |two| && forall i | 0 <= i < |one| :: SameApply(one[i], two[i])
    ensures OwnerOf(one, d, manager) == OwnerOf(two, d, manager)
  {
    if one != [] {
      assert SameApply(one[0], two[0]);
      OwnerByApply(one[1..], two[1..], d, manager);
    }
  }

  predicate SameApply(a: Entry, b: Entry) {
    a.operation == b.operation && a.manager == b.manager && (a.operation == "Apply" ==> a == b)
  }

  lemma {:induction false} StandingNothing(es: seq<Entry>, manager: string)
    ensures Standing(es, manager, []) == es
  {
    if es != [] {
      StandingNothing(es[..|es| - 1], manager);
      assert es == es[..|es| - 1] + [es[|es| - 1]];
    }
  }

  /** Taking path after path leaves of the apply entries what stands. */
  lemma {:induction false} TakeStands(es: seq<Entry>, manager: string, ds: seq<Path>)
    requires OneApply(es) && AllPrefixFree(es)
    ensures forall k | 0 <= k < |es| :: SameApply(Take(es, manager, ds)[k], Standing(es, manager, ds)[k])
  {
    if ds == [] {
      StandingNothing(es, manager);
    } else {
      var init, d := ds[..|ds| - 1], ds[|ds| - 1];
      var taken, standing := Take(es, manager, init), Standing(es, manager, init);
      TakeStands(es, manager, init);
      StandingStep(es, manager, init, d);
      assert init + [d] == ds;
      OwnerByApply(taken, standing, d, manager);
      forall k | 0 <= k < |es| ensures SameApply(Take(es, manager, ds)[k], Standing(es, manager, ds)[k]) {
        assert SameApply(taken[k], standing[k]);
        assert Standing(es, manager, ds)[k] == TakenFrom(standing[k], OwnerOf(standing, d, manager), d);
      }
    }
  }

  /** Taking path after path comes to what the stored entries alone say. */
  lemma TakeIsAfterForce(es: seq<Entry>, manager: string, ds: seq<Path>)
    requires OneApply(es) && AllPrefixFree(es)
    ensures Take(es, manager, ds) == AfterForce(es, manager, ds)
  {
    var taken, standing, after := Take(es, manager, ds), Standing(es, manager, ds), AfterForce(es, manager, ds);
    TakeStands(es, manager, ds);
    TakeForces(es, manager, ds);
    forall k | 0 <= k < |es| ensures taken[k] == after[k] {
      assert SameApply(taken[k], standing[k]);
      if es[k].operation != "Apply" { KeptSame(es[k], taken, standing, manager, Elements(ds)); }
    }
  }

  lemma KeptSame(e: Entry, one: seq<Entry>, two: seq<Entry>, manager: string, changed: set<Path>)
    requires |one| == |two| && forall i | 0 <= i < |one| :: SameApply(one[i], two[i])
    ensures Kept(e, one, manager, changed) == Kept(e, two, manager, changed)
  {
    forall d: Path ensures OwnerOf(one, d, manager) == OwnerOf(two, d, manager) { OwnerByApply(one, two, d, manager); }
    forall q | q in e.paths ensures KeepsPath(one, e.manager, manager, changed, q) <==> KeepsPath(two, e.manager, manager, changed, q) {
    }
  }

  // ----- who loses, and who owns alone -----

  lemma {:induction false} StandingPrefix(es: seq<Entry>, manager: string, ds: seq<Path>, k: nat)
    requires k < |es|
    ensures Standing(es, manager, ds)[k] == Reduced(es[k], Standing(es[..k], manager, ds), manager, ds)
    decreases |es|
  {
    if k < |es| - 1 {
      StandingPrefix(es[..|es| - 1], manager, ds, k);
      assert es[..|es| - 1][..k] == es[..k];
    }
  }

  /** The first changed path that costs an apply entry something: it lies in the entry, and in
      nothing that is left of the entries before. */
  ghost function Cost(es: seq<Entry>, manager: string, ds: seq<Path>, k: nat): Option<Path>
    requires k < |es|
  {
    FirstOpen(es[k], Standing(es[..k], manager, ds), manager, ds)
  }

  /** Another manager's apply entry comes out whole exactly when nothing costs it anything or it
      has one path; otherwise it keeps the one path in which the first such changed path lies. */
  lemma LosesIff(es: seq<Entry>, manager: string, ds: seq<Path>, k: nat)
    requires k < |es| && Other(es[k], manager) && PrefixFree(es[k].paths)
    ensures AfterForce(es, manager, ds)[k] == es[k] <==> Cost(es, manager, ds, k).None? || |es[k].paths| == 1
    ensures Cost(es, manager, ds, k).Some? ==>
              exists q :: q in es[k].paths && q <= Cost(es, manager, ds, k).value && AfterForce(es, manager, ds)[k] == es[k].(paths := {q})
  {
    StandingPrefix(es, manager, ds, k);
    var cost := Cost(es, manager, ds, k);
    FirstOpenIs(es[k], Standing(es[..k], manager, ds), manager, ds);
    if cost.Some? {
      var q :| q in es[k].paths && q <= cost.value;
      OnlyAbove(es[k], cost.value, q);
      if |es[k].paths| == 1 { OneElement(es[k].paths, q); }
    }
  }

  lemma OnlyAbove(e: Entry, d: Path, q: Path)
    requires PrefixFree(e.paths) && q in e.paths && q <= d
    ensures Above(e, d) == e.(paths := {q})
  {
    forall p | p in Above(e, d).paths ensures p == q { PrefixesMeet(p, q, d); }
    assert Above(e, d).paths == {q};
  }

  lemma OneElement<T>(s: set<T>, x: T)
    requires x in s && |s| == 1
    ensures s == {x}
  {
    assert |s - {x}| == 0;
  }

  /** No other manager's apply entry covers the path. */
  ghost predicate SoleOwner(es: seq<Entry>, d: Path, manager: string) {
    forall e :: e in es && e.operation == "Apply" && Covers(e, d) ==> e.manager == manager
  }

  lemma {:induction false} OwnerNone(es: seq<Entry>, d: Path, manager: string)
    ensures OwnerOf(es, d, manager).None?
            <==> SoleOwner(es, d, manager)
  {
    if es != [] { OwnerNone(es[1..], d, manager); }
  }

  lemma SoleInRebuilt(left: seq<Entry>, mine: Entry, d: Path)
    requires Mine(mine, mine.manager)
    ensures SoleOwner(Rebuilt(left, mine), d, mine.manager) <==> OwnerOf(left, d, mine.manager).None?
  {
    RebuiltHolds(left, mine);
    OwnerNone(left, d, mine.manager);
    forall e | e in left && e.operation == "Apply" && e.manager != mine.manager && Covers(e, d) ensures e in Rebuilt(left, mine) {
    }
  }

  /** The stored entry keeps nothing that covers the path. */
  ghost predicate GivesUp(es: seq<Entry>, manager: string, ds: seq<Path>, k: nat, d: Path)
    requires k < |es|
  {
    Cost(es, manager, ds, k).Some? && !Covers(Above(es[k], Cost(es, manager, ds, k).value), d)
  }

  /** After an apply its manager is a path's only owner exactly when every other manager whose
      stored apply entry covers the path gives it up. */
  lemma SoleOwnerIff(es: seq<Entry>, mine: Entry, ds: seq<Path>, d: Path)
    requires OneApply(es) && AllPrefixFree(es) && Mine(mine, mine.manager)
    ensures SoleOwner(Rebuilt(Take(es, mine.manager, ds), mine), d, mine.manager)
            <==> forall k | 0 <= k < |es| && Other(es[k], mine.manager) && Covers(es[k], d) :: GivesUp(es, mine.manager, ds, k, d)
  {
    var standing := Standing(es, mine.manager, ds);
    SoleInRebuilt(Take(es, mine.manager, ds), mine, d);
    TakeStands(es, mine.manager, ds);
    OwnerByApply(Take(es, mine.manager, ds), standing, d, mine.manager);
    OwnerNone(standing, d, mine.manager);
    forall k | 0 <= k < |es| && Other(es[k], mine.manager)
      ensures Covers(standing[k], d) <==> Covers(es[k], d) && !GivesUp(es, mine.manager, ds, k, d)
    {
      StandingPrefix(es, mine.manager, ds, k);
      var cost := Cost(es, mine.manager, ds, k);
      if cost.Some? && Covers(Above(es[k], cost.value), d) { AboveCoversLess(es[k], cost.value, d); }
      assert standing[k] in standing;
    }
  }

  /** It owns every changed path alone exactly when nobody else owned any of them before. */
  lemma SoleOwnerOfAllIff(es: seq<Entry>, mine: Entry, ds: seq<Path>)
    requires OneApply(es) && Mine(mine, mine.manager)
    ensures (forall d | d in ds :: SoleOwner(Rebuilt(Take(es, mine.manager, ds), mine), d, mine.manager))
            <==> forall d | d in ds :: OwnerOf(es, d, mine.manager).None?
  {
    var manager, taken := mine.manager, Take(es, mine.manager, ds);
    forall d | d in ds ensures SoleOwner(Rebuilt(taken, mine), d, manager) <==> OwnerOf(taken, d, manager).None? {
      SoleInRebuilt(taken, mine, d);
    }
    if forall d | d in ds :: OwnerOf(es, d, manager).None? {
      TakesNothing(es, manager, ds);
    }
    forall d | d in ds && OwnerOf(es, d, manager).Some? ensures exists p :: p in ds && OwnerOf(taken, p, manager).Some? {
      TakeForces(es, manager, ds);
      var still := StillOwnsOne(es, taken, manager, Elements(ds), d);
    }
  }
}
