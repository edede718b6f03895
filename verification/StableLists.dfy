/** Splitting, stable sorting and interleaving of lists. */
module StableLists {

  ghost predicate Permutes<T>(a: seq<T>, b: seq<T>) { multiset(a) == multiset(b) }

  /** The values that do, or do not, meet a condition, in order. */
  function Part<T>(values: seq<T>, meets: T -> bool, want: bool): seq<T> {
    if values == [] then []
    else (if meets(values[0]) == want then [values[0]] else []) + Part(values[1..], meets, want)
  }

  /** Stable insertion by rank. */
  function InsertByRank<T>(sorted: seq<T>, v: T, rank: T -> nat): seq<T> {
    if sorted == [] || rank(sorted[|sorted| - 1]) <= rank(v) then sorted + [v]
    else InsertByRank(sorted[..|sorted| - 1], v, rank) + [sorted[|sorted| - 1]]
  }

  function SortByRank<T>(vs: seq<T>, rank: T -> nat): seq<T> {
    if vs == [] then [] else InsertByRank(SortByRank(vs[..|vs| - 1], rank), vs[|vs| - 1], rank)
  }

  /** Merge two lists, taking from the first while its head goes before the other's. */
  function Interleave<T>(a: seq<T>, b: seq<T>, before: (T, T) -> bool): seq<T>
    decreases |a| + |b|
  {
    if a == [] then b
    else if b == [] then a
    else if before(a[0], b[0]) then [a[0]] + Interleave(a[1..], b, before)
    else [b[0]] + Interleave(a, b[1..], before)
  }

  ghost predicate Ranked<T>(vs: seq<T>, rank: T -> nat) {
    forall i, j :: 0 <= i < j < |vs| ==> rank(vs[i]) <= rank(vs[j])
  }

  ghost predicate All<T(!new)>(vs: seq<T>, meets: T -> bool, want: bool) {
    forall v :: v in vs ==> meets(v) == want
  }

  lemma {:induction false} PartAppend<T>(a: seq<T>, b: seq<T>, meets: T -> bool, want: bool)
    ensures Part(a + b, meets, want) == Part(a, meets, want) + Part(b, meets, want)
  {
    if a == [] {
      assert a + b == b;
    } else {
      PartAppend(a[1..], b, meets, want);
      assert a + b == [a[0]] + (a[1..] + b) && a == [a[0]] + a[1..];
      PartHead(a[0], a[1..] + b, meets, want);
      PartHead(a[0], a[1..], meets, want);
    }
  }

  lemma PartHead<T>(x: T, rest: seq<T>, meets: T -> bool, want: bool)
    ensures Part([x] + rest, meets, want) == (if meets(x) == want then [x] else []) + Part(rest, meets, want)
  {
    assert ([x] + rest)[1..] == rest;
  }

  lemma PartNext<T>(vs: seq<T>, i: nat, meets: T -> bool, want: bool)
    requires i < |vs|
    ensures Part(vs[..i + 1], meets, want) == Part(vs[..i], meets, want) + (if meets(vs[i]) == want then [vs[i]] else [])
  {
    assert vs[..i + 1] == vs[..i] + [vs[i]];
    PartAppend(vs[..i], [vs[i]], meets, want);
  }

  /** Take from the first list while its head goes before the other's. */
  method MergeBy<T>(first: seq<T>, second: seq<T>, before: (T, T) -> bool) returns (result: seq<T>)
    ensures result == Interleave(first, second, before)
  {
    var a, b := first, second;
    result := [];
    while a != [] && b != []
      invariant result + Interleave(a, b, before) == Interleave(first, second, before)
      decreases |a| + |b|
    {
      if before(a[0], b[0]) {
        Regroup(result, a[0], Interleave(a[1..], b, before));
        result, a := result + [a[0]], a[1..];
      } else {
        Regroup(result, b[0], Interleave(a, b[1..], before));
        result, b := result + [b[0]], b[1..];
      }
    }
    result := result + (if a == [] then b else a);
  }

  lemma Regroup<T>(s: seq<T>, v: T, rest: seq<T>)
    ensures (s + [v]) + rest == s + ([v] + rest)
  {
  }

  /** Split a list by a condition. */
  method Partition<T>(values: seq<T>, meets: T -> bool) returns (met: seq<T>, unmet: seq<T>)
    ensures met == Part(values, meets, true) && unmet == Part(values, meets, false)
  {
    met, unmet := [], [];
    for i := 0 to |values|
      invariant met == Part(values[..i], meets, true) && unmet == Part(values[..i], meets, false)
    {
      PartNext(values, i, meets, true);
      PartNext(values, i, meets, false);
      if meets(values[i]) { met := met + [values[i]]; } else { unmet := unmet + [values[i]]; }
    }
    assert values[..|values|] == values;
  }

  // ----- nothing is lost -----

  lemma {:induction false} PartsMakeWhole<T>(values: seq<T>, meets: T -> bool)
    ensures Permutes(Part(values, meets, false) + Part(values, meets, true), values)
  {
    if values != [] {
      PartsMakeWhole(values[1..], meets);
      assert values == [values[0]] + values[1..];
    }
  }

  lemma {:induction false} InsertPermutes<T>(sorted: seq<T>, v: T, rank: T -> nat)
    ensures Permutes(InsertByRank(sorted, v, rank), sorted + [v])
  {
    if !(sorted == [] || rank(sorted[|sorted| - 1]) <= rank(v)) {
      InsertPermutes(sorted[..|sorted| - 1], v, rank);
      assert sorted == sorted[..|sorted| - 1] + [sorted[|sorted| - 1]];
    }
  }

  lemma {:induction false} SortPermutes<T>(vs: seq<T>, rank: T -> nat)
    ensures Permutes(SortByRank(vs, rank), vs)
  {
    if vs != [] {
      SortPermutes(vs[..|vs| - 1], rank);
      InsertPermutes(SortByRank(vs[..|vs| - 1], rank), vs[|vs| - 1], rank);
      assert vs == vs[..|vs| - 1] + [vs[|vs| - 1]];
    }
  }

  lemma {:induction false} InterleavePermutes<T>(a: seq<T>, b: seq<T>, before: (T, T) -> bool)
    ensures Permutes(Interleave(a, b, before), a + b)
    decreases |a| + |b|
  {
    if a == [] {
      assert a + b == b;
    } else if b == [] {
      assert a + b == a;
    } else if before(a[0], b[0]) {
      InterleavePermutes(a[1..], b, before);
      Split(a, b);
    } else {
      InterleavePermutes(a, b[1..], before);
      Split(b, a);
      assert multiset(a + b[1..]) == multiset(b[1..] + a);
      assert multiset(a + b) == multiset(b + a);
    }
  }

  lemma Split<T>(a: seq<T>, b: seq<T>)
    requires a != []
    ensures multiset(a + b) == multiset{a[0]} + multiset(a[1..] + b)
  {
    assert a + b == [a[0]] + (a[1..] + b);
  }

  lemma SameMembers<T(!new)>(a: seq<T>, b: seq<T>)
    requires Permutes(a, b)
    ensures |a| == |b| && forall v :: v in a <==> v in b
  {
    forall v ensures v in a <==> v in b {
      assert v in a <==> v in multiset(a);
      assert v in b <==> v in multiset(b);
    }
    assert |a| == |multiset(a)| && |b| == |multiset(b)|;
  }

  lemma TwoOf<T>(vs: seq<T>, i: nat, j: nat)
    requires i < j < |vs| && vs[i] == vs[j]
    ensures multiset(vs)[vs[i]] >= 2
  {
    var x := vs[i];
    assert vs == vs[..j] + vs[j..];
    assert multiset(vs[..j])[x] > 0 by { assert vs[..j][i] == x; assert x in vs[..j]; }
    assert multiset(vs[j..])[x] > 0 by { assert vs[j..][0] == x; assert x in vs[j..]; }
  }

  lemma {:induction false} TwiceIn<T>(vs: seq<T>, x: T) returns (i: nat, j: nat)
    requires multiset(vs)[x] >= 2
    ensures i < j < |vs| && vs[i] == x && vs[j] == x
  {
    assert vs == [vs[0]] + vs[1..];
    if vs[0] == x {
      assert x in multiset(vs[1..]);
      var k: nat :| k < |vs| - 1 && vs[1..][k] == x;
      i, j := 0, k + 1;
    } else {
      i, j := TwiceIn(vs[1..], x);
      i, j := i + 1, j + 1;
    }
  }

  // ----- in which order -----

  lemma {:induction false} InsertRanks<T(!new)>(sorted: seq<T>, v: T, rank: T -> nat)
    requires Ranked(sorted, rank)
    ensures Ranked(InsertByRank(sorted, v, rank), rank)
  {
    if !(sorted == [] || rank(sorted[|sorted| - 1]) <= rank(v)) {
      var init, last := sorted[..|sorted| - 1], sorted[|sorted| - 1];
      var r := InsertByRank(init, v, rank);
      InsertRanks(init, v, rank);
      InsertPermutes(init, v, rank);
      SameMembers(r, init + [v]);
      forall i | 0 <= i < |r| ensures rank(r[i]) <= rank(last) {
        assert r[i] in r;
        if r[i] in init { var k :| 0 <= k < |init| && init[k] == r[i]; }
      }
    }
  }

  lemma {:induction false} SortRanks<T(!new)>(vs: seq<T>, rank: T -> nat)
    ensures Ranked(SortByRank(vs, rank), rank)
  {
    if vs != [] {
      SortRanks(vs[..|vs| - 1], rank);
      InsertRanks(SortByRank(vs[..|vs| - 1], rank), vs[|vs| - 1], rank);
    }
  }

  lemma {:induction false} SortOfRanked<T>(vs: seq<T>, rank: T -> nat)
    requires Ranked(vs, rank)
    ensures SortByRank(vs, rank) == vs
  {
    if vs != [] {
      SortOfRanked(vs[..|vs| - 1], rank);
      assert vs == vs[..|vs| - 1] + [vs[|vs| - 1]];
    }
  }

  lemma {:induction false} PartMeets<T(!new)>(values: seq<T>, meets: T -> bool, want: bool)
    ensures All(Part(values, meets, want), meets, want)
  {
    if values != [] { PartMeets(values[1..], meets, want); }
  }

  lemma {:induction false} PartOfAll<T(!new)>(vs: seq<T>, meets: T -> bool, have: bool, want: bool)
    requires All(vs, meets, have)
    ensures Part(vs, meets, want) == if want == have then vs else []
  {
    if vs != [] {
      assert vs[0] in vs;
      PartOfAll(vs[1..], meets, have, want);
      assert vs == [vs[0]] + vs[1..];
    }
  }

  lemma SortedMeets<T(!new)>(vs: seq<T>, rank: T -> nat, meets: T -> bool, want: bool)
    requires All(vs, meets, want)
    ensures All(SortByRank(vs, rank), meets, want)
  {
    SortPermutes(vs, rank);
    SameMembers(SortByRank(vs, rank), vs);
  }

  /** Splitting an interleaving gives back what was interleaved. */
  lemma {:induction false} InterleaveParts<T(!new)>(a: seq<T>, b: seq<T>, meets: T -> bool, before: (T, T) -> bool)
    requires All(a, meets, false) && All(b, meets, true)
    ensures Part(Interleave(a, b, before), meets, false) == a && Part(Interleave(a, b, before), meets, true) == b
    decreases |a| + |b|
  {
    if a == [] {
      PartOfAll(b, meets, true, false);
      PartOfAll(b, meets, true, true);
    } else if b == [] {
      PartOfAll(a, meets, false, false);
      PartOfAll(a, meets, false, true);
    } else {
      assert a[0] in a && b[0] in b;
      assert a == [a[0]] + a[1..] && b == [b[0]] + b[1..];
      if before(a[0], b[0]) { InterleaveParts(a[1..], b, meets, before); } else { InterleaveParts(a, b[1..], meets, before); }
    }
  }

  /** Interleaving the two parts of a list by the list's own order gives the list. */
  lemma {:induction false} InterleaveBack<T(!new)>(vs: seq<T>, meets: T -> bool, before: (T, T) -> bool)
    requires forall i, j :: 0 <= i < |vs| && 0 <= j < |vs| ==> (before(vs[i], vs[j]) <==> i < j)
    ensures Interleave(Part(vs, meets, false), Part(vs, meets, true), before) == vs
  {
    if vs == [] { return; }
    var rest := vs[1..];
    var a, b := Part(rest, meets, false), Part(rest, meets, true);
    InterleaveBack(rest, meets, before);
    assert vs == [vs[0]] + rest;
    PartInside(rest, meets, false);
    PartInside(rest, meets, true);
    assert [] + a == a && [] + b == b;
    if meets(vs[0]) {
      assert Part(vs, meets, false) == a && Part(vs, meets, true) == [vs[0]] + b;
      if a != [] { HeadFirst(vs, a[0], before); }
      TakeRight(a, vs[0], b, before);
    } else {
      assert Part(vs, meets, false) == [vs[0]] + a && Part(vs, meets, true) == b;
      if b != [] { HeadFirst(vs, b[0], before); }
      TakeLeft(vs[0], a, b, before);
    }
  }

  lemma TakeRight<T>(a: seq<T>, v: T, b: seq<T>, before: (T, T) -> bool)
    requires a != [] ==> !before(a[0], v)
    ensures Interleave(a, [v] + b, before) == [v] + Interleave(a, b, before)
  {
    assert ([v] + b)[1..] == b;
  }

  lemma TakeLeft<T>(v: T, a: seq<T>, b: seq<T>, before: (T, T) -> bool)
    requires b != [] ==> before(v, b[0])
    ensures Interleave([v] + a, b, before) == [v] + Interleave(a, b, before)
  {
    assert ([v] + a)[1..] == a;
  }

  lemma {:induction false} PartInside<T(!new)>(values: seq<T>, meets: T -> bool, want: bool)
    ensures forall v :: v in Part(values, meets, want) ==> v in values
  {
    if values != [] { PartInside(values[1..], meets, want); }
  }

  lemma HeadFirst<T(!new)>(vs: seq<T>, v: T, before: (T, T) -> bool)
    requires forall i, j :: 0 <= i < |vs| && 0 <= j < |vs| ==> (before(vs[i], vs[j]) <==> i < j)
    requires vs != [] && v in vs[1..]
    ensures before(vs[0], v) && !before(v, vs[0])
  {
    var k :| 0 <= k < |vs| - 1 && vs[1..][k] == v;
    assert vs[k + 1] == v;
  }

  lemma {:induction false} PartRanked<T(!new)>(vs: seq<T>, meets: T -> bool, want: bool, rank: T -> nat)
    requires Ranked(vs, rank)
    ensures Ranked(Part(vs, meets, want), rank)
  {
    if vs != [] {
      PartRanked(vs[1..], meets, want, rank);
      PartInside(vs[1..], meets, want);
      forall v | v in vs[1..] ensures rank(vs[0]) <= rank(v) {
        var k :| 0 <= k < |vs| - 1 && vs[1..][k] == v;
        assert vs[k + 1] == v;
      }
    }
  }
}
