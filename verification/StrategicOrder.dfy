/** Ordering of merged lists: requested items in the requested order, the others in their old
    order, interleaved by where they used to be. */
module StrategicOrder {
  import opened Wrappers
  import opened JsonPaths
  import opened StableLists

  predicate Scalar(v: Json) { v.Str? || v.Num? || v.Bool? }

  /** What tells a list item apart: its merge key, or the item itself; None when it is missing
      or not a scalar. */
  function Identity(v: Json, key: Option<string>): Option<Json> {
    match key
    case None => if Scalar(v) then Some(v) else None
    case Some(k) => if v.Obj? && k in v.fields && Scalar(v.fields[k]) then Some(v.fields[k]) else None
  }

  predicate Identified(vs: seq<Json>, key: Option<string>) { forall i | 0 <= i < |vs| :: Identity(vs[i], key).Some? }

  predicate SameItem(v: Json, w: Json, key: Option<string>) { Identity(v, key) == Identity(w, key) }

  predicate DistinctItems(vs: seq<Json>, key: Option<string>) {
    forall i, j | 0 <= i < j < |vs| :: !SameItem(vs[i], vs[j], key)
  }

  /** Where a list first has an item: 0 when nowhere, otherwise one more than the index. */
  function RankIn(v: Json, list: seq<Json>, key: Option<string>): (r: nat)
    ensures r <= |list|
    ensures r > 0 ==> SameItem(v, list[r - 1], key)
    ensures forall i :: 0 <= i < |list| && (r == 0 || i < r - 1) ==> !SameItem(v, list[i], key)
  {
    if list == [] then 0
    else if SameItem(v, list[0], key) then 1
    else
      var r := RankIn(v, list[1..], key);
      if r == 0 then 0 else r + 1
  }

  function Rank(list: seq<Json>, key: Option<string>): Json -> nat {
    (v: Json) => RankIn(v, list, key)
  }

  function Requested(order: seq<Json>, key: Option<string>): Json -> bool {
    (v: Json) => RankIn(v, order, key) > 0
  }

  /** Whether an untouched item goes before a requested one: both were in the old list, in that order. */
  function Before(was: seq<Json>, key: Option<string>): (Json, Json) -> bool {
    (left: Json, right: Json) => 0 < RankIn(left, was, key) < RankIn(right, was, key)
  }

  /** The order the merged list is given. */
  function Reordered(values: seq<Json>, order: seq<Json>, was: seq<Json>, key: Option<string>): seq<Json> {
    Interleave(SortByRank(Part(values, Requested(order, key), false), Rank(was, key)),
               SortByRank(Part(values, Requested(order, key), true), Rank(order, key)),
               Before(was, key))
  }

  /** Nothing is lost or repeated. */
  lemma ReorderPermutes(values: seq<Json>, order: seq<Json>, was: seq<Json>, key: Option<string>)
    ensures Permutes(Reordered(values, order, was, key), values)
  {
    var u, q := Part(values, Requested(order, key), false), Part(values, Requested(order, key), true);
    PartsMakeWhole(values, Requested(order, key));
    SortPermutes(u, Rank(was, key));
    SortPermutes(q, Rank(order, key));
    InterleavePermutes(SortByRank(u, Rank(was, key)), SortByRank(q, Rank(order, key)), Before(was, key));
  }

  /** The requested items come in the requested order, the others in their old order. */
  lemma ReorderOrders(values: seq<Json>, order: seq<Json>, was: seq<Json>, key: Option<string>)
    ensures var r := Reordered(values, order, was, key);
            && Ranked(Part(r, Requested(order, key), true), Rank(order, key))
            && Ranked(Part(r, Requested(order, key), false), Rank(was, key))
            && Permutes(Part(r, Requested(order, key), true), Part(values, Requested(order, key), true))
            && Permutes(Part(r, Requested(order, key), false), Part(values, Requested(order, key), false))
  {
    var meets := Requested(order, key);
    var u, q := Part(values, meets, false), Part(values, meets, true);
    PartMeets(values, meets, false);
    PartMeets(values, meets, true);
    SortedMeets(u, Rank(was, key), meets, false);
    SortedMeets(q, Rank(order, key), meets, true);
    InterleaveParts(SortByRank(u, Rank(was, key)), SortByRank(q, Rank(order, key)), meets, Before(was, key));
    SortRanks(u, Rank(was, key));
    SortRanks(q, Rank(order, key));
    SortPermutes(u, Rank(was, key));
    SortPermutes(q, Rank(order, key));
  }

  // ----- it is stable -----

  lemma OwnRank(vs: seq<Json>, key: Option<string>, i: nat)
    requires DistinctItems(vs, key) && i < |vs|
    ensures RankIn(vs[i], vs, key) == i + 1
  {
    var r := RankIn(vs[i], vs, key);
    assert r == 0 ==> !SameItem(vs[i], vs[i], key);
    assert SameItem(vs[i], vs[r - 1], key);
  }

  lemma OwnBefore(vs: seq<Json>, key: Option<string>, i: nat, j: nat)
    requires DistinctItems(vs, key) && i < |vs| && j < |vs|
    ensures Before(vs, key)(vs[i], vs[j]) <==> i < j
  {
    OwnRank(vs, key, i);
    OwnRank(vs, key, j);
  }

  lemma OwnOrder(vs: seq<Json>, key: Option<string>)
    requires DistinctItems(vs, key)
    ensures Ranked(vs, Rank(vs, key))
  {
    forall i, j | 0 <= i < j < |vs| ensures Rank(vs, key)(vs[i]) <= Rank(vs, key)(vs[j]) {
      OwnRank(vs, key, i);
      OwnRank(vs, key, j);
    }
  }

  /** A list of distinct items that has its requested items in the requested order is left as it is. */
  lemma OrderedIsLeft(r: seq<Json>, order: seq<Json>, key: Option<string>)
    requires DistinctItems(r, key) && Ranked(Part(r, Requested(order, key), true), Rank(order, key))
    ensures Reordered(r, order, r, key) == r
  {
    var meets := Requested(order, key);
    OwnOrder(r, key);
    forall i, j | 0 <= i < |r| && 0 <= j < |r| ensures Before(r, key)(r[i], r[j]) <==> i < j { OwnBefore(r, key, i, j); }
    PartRanked(r, meets, false, Rank(r, key));
    SortOfRanked(Part(r, meets, false), Rank(r, key));
    SortOfRanked(Part(r, meets, true), Rank(order, key));
    InterleaveBack(r, meets, Before(r, key));
  }

  /** Reordering the result against itself as the old list gives it again. */
  lemma ReorderIsStable(values: seq<Json>, order: seq<Json>, was: seq<Json>, key: Option<string>)
    requires DistinctItems(values, key)
    ensures var r := Reordered(values, order, was, key); Reordered(r, order, r, key) == r
  {
    var r := Reordered(values, order, was, key);
    ReorderPermutes(values, order, was, key);
    DistinctPermutes(values, r, key);
    ReorderOrders(values, order, was, key);
    OrderedIsLeft(r, order, key);
  }

  /** Distinct items stay distinct in any order. */
  lemma DistinctPermutes(a: seq<Json>, b: seq<Json>, key: Option<string>)
    requires Permutes(a, b) && DistinctItems(a, key)
    ensures DistinctItems(b, key)
  {
    SameMembers(a, b);
    forall i, j | 0 <= i < j < |b| ensures !SameItem(b[i], b[j], key) {
      assert b[i] in b && b[j] in b;
      if b[i] == b[j] {
        TwoOf(b, i, j);
        var k, m := TwiceIn(a, b[i]);
        assert !SameItem(a[k], a[m], key);
      } else {
        var k :| 0 <= k < |a| && a[k] == b[i];
        var m :| 0 <= m < |a| && a[m] == b[j];
        assert !SameItem(a[if k < m then k else m], a[if k < m then m else k], key);
      }
    }
  }
}
