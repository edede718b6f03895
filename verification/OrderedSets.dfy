/** Sets kept as sequences in increasing key order, as a B-tree set iterates. */
module OrderedSets {

  ghost predicate Increasing<T(!new)>(s: seq<T>, key: T -> int) {
    forall i, j :: 0 <= i < j < |s| ==> key(s[i]) < key(s[j])
  }

  /** Insert an element unless one with its key is there. */
  function Insert<T(!new)>(s: seq<T>, x: T, key: T -> int): seq<T> {
    if s == [] || key(s[|s| - 1]) < key(x) then s + [x]
    else if key(s[|s| - 1]) == key(x) then s
    else Insert(s[..|s| - 1], x, key) + [s[|s| - 1]]
  }

  lemma {:induction false} InsertElements<T(!new)>(s: seq<T>, x: T, key: T -> int)
    requires forall y :: y in s && key(y) == key(x) ==> y == x
    ensures forall y :: y in Insert(s, x, key) <==> y in s || y == x
  {
    if s != [] && key(s[|s| - 1]) > key(x) {
      assert s == s[..|s| - 1] + [s[|s| - 1]];
      InsertElements(s[..|s| - 1], x, key);
    }
  }

  lemma AppendIncreasing<T(!new)>(s: seq<T>, x: T, key: T -> int)
    requires Increasing(s, key) && forall y :: y in s ==> key(y) < key(x)
    ensures Increasing(s + [x], key)
  {
    forall i | 0 <= i < |s| ensures key(s[i]) < key(x) { assert s[i] in s; }
  }

  lemma PrefixIncreasing<T(!new)>(s: seq<T>, key: T -> int)
    requires Increasing(s, key) && s != []
    ensures Increasing(s[..|s| - 1], key)
    ensures forall y :: y in s[..|s| - 1] ==> key(y) < key(s[|s| - 1])
  {
    forall y | y in s[..|s| - 1] ensures key(y) < key(s[|s| - 1]) {
      var i :| 0 <= i < |s| - 1 && s[..|s| - 1][i] == y;
      assert s[i] == y;
    }
  }

  lemma {:induction false} InsertIncreasing<T(!new)>(s: seq<T>, x: T, key: T -> int)
    requires Increasing(s, key) && forall y :: y in s && key(y) == key(x) ==> y == x
    ensures Increasing(Insert(s, x, key), key)
  {
    if s == [] { return; }
    var init, last := s[..|s| - 1], s[|s| - 1];
    PrefixIncreasing(s, key);
    assert s == init + [last];
    if key(last) < key(x) {
      forall y | y in s ensures key(y) < key(x) {
        if y != last { assert y in init; }
      }
      AppendIncreasing(s, x, key);
    } else if key(last) > key(x) {
      InsertIncreasing(init, x, key);
      InsertElements(init, x, key);
      AppendIncreasing(Insert(init, x, key), last, key);
    }
  }

  lemma {:induction false} InsertSize<T(!new)>(s: seq<T>, x: T, key: T -> int)
    requires Increasing(s, key) && forall y :: y in s && key(y) == key(x) ==> y == x
    ensures |Insert(s, x, key)| == if x in s then |s| else |s| + 1
  {
    if s == [] { return; }
    var init, last := s[..|s| - 1], s[|s| - 1];
    PrefixIncreasing(s, key);
    assert s == init + [last];
    if key(last) > key(x) { InsertSize(init, x, key); }
  }

  /** Two increasing sequences of the same elements are the same sequence. */
  lemma {:induction false} SameElements<T(!new)>(a: seq<T>, b: seq<T>, key: T -> int)
    requires Increasing(a, key) && Increasing(b, key) && forall x :: x in a <==> x in b
    ensures a == b
  {
    if a != [] && b != [] {
      var m, n := |a| - 1, |b| - 1;
      assert a[m] in b && b[n] in a;
      assert a[m] == b[n];
      assert a == a[..m] + [a[m]] && b == b[..n] + [b[n]];
      forall x ensures x in a[..m] <==> x in b[..n] {
        LastIsLast(a, key, x);
        LastIsLast(b, key, x);
      }
      SameElements(a[..m], b[..n], key);
    } else if a != [] {
      HasFirst(a);
    } else if b != [] {
      HasFirst(b);
    }
  }

  lemma HasFirst<T(!new)>(s: seq<T>)
    requires s != []
    ensures s[0] in s
  {
  }

  lemma LastIsLast<T(!new)>(s: seq<T>, key: T -> int, x: T)
    requires Increasing(s, key) && s != []
    ensures x in s[..|s| - 1] <==> x in s && x != s[|s| - 1]
  {
  }
}
