/** The order in which an ordered set of paths is visited: segment by segment, fields before
    keyed items. */
module PathOrder {
  import opened JsonPaths
  import KeyOrder

  predicate SegmentLess(a: Segment, b: Segment) {
    match (a, b)
    case (Field(x), Field(y)) => KeyOrder.Less(x, y)
    case (Field(_), Keyed(_, _)) => true
    case (Keyed(_, _), Field(_)) => false
    case (Keyed(k, x), Keyed(l, y)) => KeyOrder.Less(k, l) || (k == l && KeyOrder.Less(x, y))
  }

  predicate Before(p: Path, q: Path) {
    if q == [] then false
    else if p == [] then true
    else SegmentLess(p[0], q[0]) || (p[0] == q[0] && Before(p[1..], q[1..]))
  }

  lemma SegmentOrder(a: Segment, b: Segment, c: Segment)
    ensures !SegmentLess(a, a)
    ensures SegmentLess(a, b) || a == b || SegmentLess(b, a)
    ensures SegmentLess(a, b) && SegmentLess(b, c) ==> SegmentLess(a, c)
  {
    KeyOrder.TotalOrder();
  }

  lemma {:induction false} BeforeIrreflexive(p: Path)
    ensures !Before(p, p)
  {
    if p != [] {
      SegmentOrder(p[0], p[0], p[0]);
      BeforeIrreflexive(p[1..]);
    }
  }

  lemma {:induction false} BeforeTotal(p: Path, q: Path)
    ensures Before(p, q) || p == q || Before(q, p)
  {
    if p != [] && q != [] {
      SegmentOrder(p[0], q[0], q[0]);
      BeforeTotal(p[1..], q[1..]);
      assert p == [p[0]] + p[1..] && q == [q[0]] + q[1..];
    }
  }

  lemma {:induction false} BeforeTransitive(p: Path, q: Path, s: Path)
    requires Before(p, q) && Before(q, s)
    ensures Before(p, s)
  {
    if p != [] {
      SegmentOrder(p[0], q[0], s[0]);
      if p[0] == q[0] == s[0] { BeforeTransitive(p[1..], q[1..], s[1..]); }
    }
  }

  // ----- sets in order -----

  predicate IsLeast(d: Path, ps: set<Path>) {
    d in ps && forall p | p in ps :: p == d || Before(d, p)
  }

  lemma {:induction false} LeastExists(ps: set<Path>) returns (d: Path)
    requires ps != {}
    ensures IsLeast(d, ps)
    decreases |ps|
  {
    d :| d in ps;
    var rest := ps - {d};
    if rest != {} {
      var e := LeastExists(rest);
      BeforeTotal(d, e);
      if Before(d, e) {
        forall p | p in ps ensures p == d || Before(d, p) {
          if p != d && p != e { BeforeTransitive(d, e, p); }
        }
      } else {
        d := e;
      }
    }
  }

  lemma LeastIsOne(d: Path, e: Path, ps: set<Path>)
    requires IsLeast(d, ps) && IsLeast(e, ps)
    ensures d == e
  {
    if d != e {
      BeforeTransitive(d, e, d);
      BeforeIrreflexive(d);
    }
  }

  ghost predicate Ascending(ds: seq<Path>) {
    forall i, j | 0 <= i < j < |ds| :: Before(ds[i], ds[j])
  }

  ghost function Least(ps: set<Path>): (d: Path)
    requires ps != {}
    ensures IsLeast(d, ps)
  {
    assert exists d :: IsLeast(d, ps) by { var d := LeastExists(ps); }
    var d :| IsLeast(d, ps);
    d
  }

  /** A set of paths, first to last. */
  ghost function InOrder(ps: set<Path>): (ds: seq<Path>)
    ensures forall p :: p in ds <==> p in ps
    decreases |ps|
  {
    if ps == {} then [] else [Least(ps)] + InOrder(ps - {Least(ps)})
  }

  lemma {:induction false} InOrderAscends(ps: set<Path>)
    ensures Ascending(InOrder(ps))
    decreases |ps|
  {
    if ps != {} {
      var d, rest := Least(ps), InOrder(ps - {Least(ps)});
      InOrderAscends(ps - {d});
      forall j | 0 <= j < |rest| ensures Before(d, rest[j]) {
        assert rest[j] in rest;
      }
    }
  }

  /** Taking the least one first is going through the set in order. */
  lemma InOrderFirst(ps: set<Path>, d: Path)
    requires IsLeast(d, ps)
    ensures InOrder(ps) == [d] + InOrder(ps - {d})
  {
    LeastIsOne(d, Least(ps), ps);
  }

  ghost function Elements(ds: seq<Path>): set<Path> { set d | d in ds }

  /** A set has one ascending sequence. */
  lemma {:induction false} InOrderUnique(ds: seq<Path>)
    requires Ascending(ds)
    ensures InOrder(Elements(ds)) == ds
  {
    if ds != [] {
      var ps, rest := Elements(ds), ds[1..];
      forall p | p in rest ensures Before(ds[0], p) {
        var j :| 0 <= j < |rest| && rest[j] == p;
        assert ds[j + 1] == p;
      }
      BeforeIrreflexive(ds[0]);
      assert ds == [ds[0]] + rest;
      assert Elements(rest) == ps - {ds[0]};
      InOrderUnique(rest);
      InOrderFirst(ps, ds[0]);
    }
  }

  lemma OneInOrder(p: Path)
    ensures InOrder({p}) == [p]
  {
    InOrderUnique([p]);
    assert Elements([p]) == {p};
  }

  lemma TwoInOrder(p: Path, q: Path)
    requires Before(p, q)
    ensures InOrder({p, q}) == [p, q]
  {
    InOrderUnique([p, q]);
    assert Elements([p, q]) == {p, q};
  }
}
