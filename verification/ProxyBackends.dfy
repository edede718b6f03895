/** The backends of one Service port, gathered from the endpoint slices. */
module ProxyBackends {
  import opened Arithmetic
  import opened Wrappers
  import opened Ipv4
  import opened OrderedSets
  import opened ProxyNetworks

  datatype Protocol = Tcp | Udp {
    function Name(): string { if Tcp? then "TCP" else "UDP" }
  }

  datatype Backend = Backend(ip: nat, port: nat)

  datatype Endpoint = Endpoint(ready: Option<bool>, terminating: Option<bool>, nodeName: string, addresses: seq<Option<nat>>)
  datatype SlicePort = SlicePort(name: string, protocol: string, port: Option<int>)
  datatype Owner = Owner(kind: string, name: string, uid: string)
  datatype Slice = Slice(addressType: string, deleting: bool, service: Option<string>, namespace: string,
                         owners: seq<Owner>, ports: seq<SlicePort>, endpoints: seq<Endpoint>)

  /** The Service port backends are wanted for. `single` when the Service has at most one port;
      `local` when only endpoints on `node` count. */
  datatype Target = Target(namespace: string, name: string, uid: string, port: string, protocol: Protocol,
                           single: bool, local: bool, node: string)

  const MAX_BACKENDS := 16384

  // ----- which endpoints count -----

  predicate Listed(s: Slice) { s.addressType == "IPv4" && !s.deleting && s.service.Some? }

  /** Slices of another Service of the same name are stale. */
  predicate OwnedBy(t: Target, s: Slice) {
    forall o :: o in s.owners && o.kind == "Service" ==> o.uid == t.uid && o.name == t.name
  }

  predicate Matches(t: Target, s: Slice) {
    Listed(s) && s.service == Some(t.name) && s.namespace == t.namespace && OwnedBy(t, s)
  }

  /** A single port on both sides pairs by protocol alone; otherwise the names must agree. */
  predicate Pairs(t: Target, s: Slice, p: SlicePort) {
    && ((t.single && |s.ports| <= 1) || (t.port != "" && p.name == t.port))
    && p.protocol == t.protocol.Name() && p.port.Some?
  }

  predicate Serves(t: Target, e: Endpoint) {
    e.ready != Some(false) && e.terminating != Some(true) && (t.local ==> e.nodeName == t.node)
  }

  predicate PortNumber(n: int) { 1 <= n <= 65535 }

  predicate BackendIp(a: Option<nat>) { Usable(a) && !Contains(SERVICES, a.value) }

  // ----- the backends, as a set -----

  function AtAddresses(addresses: seq<Option<nat>>, port: int): set<Backend>
    requires PortNumber(port)
  {
    set a | a in addresses && a.Some? :: Backend(a.value, port)
  }

  ghost function AtEndpoints(t: Target, endpoints: seq<Endpoint>, port: int): set<Backend>
    requires PortNumber(port)
  {
    set e, b | e in endpoints && Serves(t, e) && b in AtAddresses(e.addresses, port) :: b
  }

  ghost function AtPorts(t: Target, s: Slice, ports: seq<SlicePort>): set<Backend> {
    set p, b | p in ports && Pairs(t, s, p) && PortNumber(p.port.value) && b in AtEndpoints(t, s.endpoints, p.port.value) :: b
  }

  /** Every address of every endpoint that serves, at every paired port of every matching slice. */
  ghost function BackendsOf(t: Target, slices: seq<Slice>): set<Backend> {
    set s, b | s in slices && Matches(t, s) && b in AtPorts(t, s, s.ports) :: b
  }

  ghost predicate AddressesGood(addresses: seq<Option<nat>>) {
    forall a :: a in addresses ==> BackendIp(a)
  }

  ghost predicate EndpointsGood(t: Target, endpoints: seq<Endpoint>) {
    forall e :: e in endpoints && Serves(t, e) ==> AddressesGood(e.addresses)
  }

  ghost predicate PortsGood(t: Target, s: Slice, ports: seq<SlicePort>) {
    forall p :: p in ports && Pairs(t, s, p) ==> PortNumber(p.port.value) && EndpointsGood(t, s.endpoints)
  }

  /** Nothing that counts is malformed. */
  ghost predicate SlicesGood(t: Target, slices: seq<Slice>) {
    forall s :: s in slices && Matches(t, s) ==> PortsGood(t, s, s.ports)
  }

  // ----- collecting -----

  function BackendKey(b: Backend): int { b.ip * 65536 + b.port }

  predicate InKeyRange(b: Backend) { b.port < 65536 }

  lemma BackendKeyInjective(a: Backend, b: Backend)
    requires InKeyRange(a) && InKeyRange(b) && BackendKey(a) == BackendKey(b)
    ensures a == b
  {
  }

  function Members(bs: seq<Backend>): set<Backend> { set b | b in bs }

  /** The backends so far and how many the whole plan has. */
  datatype Tally = Tally(backends: seq<Backend>, total: nat) {
    ghost predicate Valid() {
      && Increasing(backends, BackendKey) && (forall b :: b in backends ==> InKeyRange(b))
      && |backends| <= total <= MAX_BACKENDS
    }
  }

  /** Whether a set can still be added within the limit. */
  ghost predicate Room(before: Tally, added: set<Backend>)
    requires before.Valid()
  {
    before.total - |before.backends| + |Members(before.backends) + added| <= MAX_BACKENDS
  }

  ghost predicate Grown(before: Tally, after: Tally, added: set<Backend>)
    requires before.Valid()
  {
    && after.Valid() && Members(after.backends) == Members(before.backends) + added
    && after.total - |after.backends| == before.total - |before.backends|
  }

  lemma {:induction false} MembersCount(bs: seq<Backend>)
    requires Increasing(bs, BackendKey)
    ensures |Members(bs)| == |bs|
  {
    if bs != [] {
      var n := |bs| - 1;
      PrefixIncreasing(bs, BackendKey);
      MembersCount(bs[..n]);
      assert bs == bs[..n] + [bs[n]];
      assert Members(bs) == Members(bs[..n]) + {bs[n]};
    }
  }

  lemma RoomShrinks(before: Tally, added: set<Backend>, more: set<Backend>)
    requires before.Valid() && added <= more && Room(before, more)
    ensures Room(before, added)
  {
    SubsetSize(Members(before.backends) + added, Members(before.backends) + more);
  }

  /** What fits after a first part fits as the two parts together. */
  lemma RoomAgain(before: Tally, after: Tally, added: set<Backend>, more: set<Backend>)
    requires before.Valid() && Grown(before, after, added)
    ensures Room(after, more) <==> Room(before, added + more)
  {
    assert Members(after.backends) + more == Members(before.backends) + (added + more);
  }

  /** Insert one backend, counting it when it is new. */
  method Add(tally: Tally, b: Backend) returns (r: Option<Tally>)
    requires tally.Valid() && InKeyRange(b)
    ensures r.Some? <==> Room(tally, {b})
    ensures r.Some? ==> Grown(tally, r.value, {b})
  {
    forall y | y in tally.backends && BackendKey(y) == BackendKey(b) ensures y == b { BackendKeyInjective(y, b); }
    InsertElements(tally.backends, b, BackendKey);
    InsertIncreasing(tally.backends, b, BackendKey);
    InsertSize(tally.backends, b, BackendKey);
    var backends := Insert(tally.backends, b, BackendKey);
    MembersCount(tally.backends);
    MembersCount(backends);
    assert Members(backends) == Members(tally.backends) + {b};
    var total := tally.total + (|backends| - |tally.backends|);
    if total > MAX_BACKENDS { return None; }
    return Some(Tally(backends, total));
  }

  lemma NothingAdded(tally: Tally)
    requires tally.Valid()
    ensures Room(tally, {}) && Grown(tally, tally, {})
  {
    MembersCount(tally.backends);
    assert Members(tally.backends) + {} == Members(tally.backends);
  }

  /** A loop that adds set by set, one step on. */
  lemma StepDone(before: Tally, middle: Tally, after: Tally, added: set<Backend>, more: set<Backend>, sum: set<Backend>)
    requires before.Valid() && Grown(before, middle, added) && Grown(middle, after, more) && sum == added + more
    ensures Grown(before, after, sum)
  {
  }

  /** A step without room is a whole without room. */
  lemma StepFull(before: Tally, middle: Tally, added: set<Backend>, more: set<Backend>, all: set<Backend>)
    requires before.Valid() && Grown(before, middle, added) && !Room(middle, more) && added + more <= all
    ensures !Room(before, all)
  {
    RoomAgain(before, middle, added, more);
    if Room(before, all) { RoomShrinks(before, added + more, all); }
  }

  // ----- the four loops, innermost first -----

  function AtAddress(a: Option<nat>, port: int): set<Backend>
    requires PortNumber(port)
  {
    if a.Some? then {Backend(a.value, port)} else {}
  }

  lemma OneMoreAddress(addresses: seq<Option<nat>>, i: nat, port: int)
    requires i < |addresses| && PortNumber(port)
    ensures AtAddresses(addresses[..i + 1], port) == AtAddresses(addresses[..i], port) + AtAddress(addresses[i], port)
    ensures AtAddresses(addresses[..i + 1], port) <= AtAddresses(addresses, port)
  {
    assert addresses[..i + 1] == addresses[..i] + [addresses[i]];
    assert forall a :: a in addresses[..i + 1] ==> a in addresses;
  }

  method AddAddress(ghost before: Tally, now: Tally, addresses: seq<Option<nat>>, i: nat, port: int) returns (r: Option<Tally>)
    requires before.Valid() && PortNumber(port) && i < |addresses|
    requires AddressesGood(addresses[..i]) && Grown(before, now, AtAddresses(addresses[..i], port))
    ensures r.Some? ==> AddressesGood(addresses[..i + 1]) && Grown(before, r.value, AtAddresses(addresses[..i + 1], port))
    ensures r.None? ==> !AddressesGood(addresses) || !Room(before, AtAddresses(addresses, port))
  {
    OneMoreAddress(addresses, i, port);
    assert addresses[..i + 1] == addresses[..i] + [addresses[i]];
    ghost var added, more := AtAddresses(addresses[..i], port), AtAddress(addresses[i], port);
    if !BackendIp(addresses[i]) { return None; }
    var next := Add(now, Backend(addresses[i].value, port));
    if next.None? {
      StepFull(before, now, added, more, AtAddresses(addresses, port));
      return None;
    }
    StepDone(before, now, next.value, added, more, AtAddresses(addresses[..i + 1], port));
    return next;
  }

  method AddAddresses(tally: Tally, addresses: seq<Option<nat>>, port: int) returns (r: Option<Tally>)
    requires tally.Valid() && PortNumber(port)
    ensures r.Some? <==> AddressesGood(addresses) && Room(tally, AtAddresses(addresses, port))
    ensures r.Some? ==> Grown(tally, r.value, AtAddresses(addresses, port))
  {
    NothingAdded(tally);
    var now := tally;
    assert AtAddresses(addresses[..0], port) == {};
    for i := 0 to |addresses|
      invariant AddressesGood(addresses[..i]) && Grown(tally, now, AtAddresses(addresses[..i], port))
    {
      var next := AddAddress(tally, now, addresses, i, port);
      if next.None? { return None; }
      now := next.value;
    }
    assert addresses[..|addresses|] == addresses;
    FullyGrown(tally, now, AtAddresses(addresses, port));
    return Some(now);
  }

  lemma FullyGrown(before: Tally, after: Tally, added: set<Backend>)
    requires before.Valid() && Grown(before, after, added)
    ensures Room(before, added)
  {
    MembersCount(after.backends);
  }

  ghost function AtEndpoint(t: Target, e: Endpoint, port: int): set<Backend>
    requires PortNumber(port)
  {
    if Serves(t, e) then AtAddresses(e.addresses, port) else {}
  }

  lemma OneMoreEndpoint(t: Target, es: seq<Endpoint>, i: nat, port: int)
    requires i < |es| && PortNumber(port)
    ensures AtEndpoints(t, es[..i + 1], port) == AtEndpoints(t, es[..i], port) + AtEndpoint(t, es[i], port)
    ensures AtEndpoints(t, es[..i + 1], port) <= AtEndpoints(t, es, port)
  {
    assert es[..i + 1] == es[..i] + [es[i]];
    assert forall e :: e in es[..i + 1] ==> e in es;
    assert forall e :: e in es[..i] ==> e in es[..i + 1];
    assert es[i] in es[..i + 1];
  }

  method AddEndpoint(ghost before: Tally, now: Tally, t: Target, es: seq<Endpoint>, i: nat, port: int) returns (r: Option<Tally>)
    requires before.Valid() && PortNumber(port) && i < |es|
    requires EndpointsGood(t, es[..i]) && Grown(before, now, AtEndpoints(t, es[..i], port))
    ensures r.Some? ==> EndpointsGood(t, es[..i + 1]) && Grown(before, r.value, AtEndpoints(t, es[..i + 1], port))
    ensures r.None? ==> !EndpointsGood(t, es) || !Room(before, AtEndpoints(t, es, port))
  {
    OneMoreEndpoint(t, es, i, port);
    assert es[..i + 1] == es[..i] + [es[i]] && es[i] in es;
    if !Serves(t, es[i]) { return Some(now); }
    ghost var added, more := AtEndpoints(t, es[..i], port), AtAddresses(es[i].addresses, port);
    var next := AddAddresses(now, es[i].addresses, port);
    if next.None? {
      if AddressesGood(es[i].addresses) { StepFull(before, now, added, more, AtEndpoints(t, es, port)); }
      return None;
    }
    StepDone(before, now, next.value, added, more, AtEndpoints(t, es[..i + 1], port));
    return next;
  }

  method AddEndpoints(tally: Tally, t: Target, es: seq<Endpoint>, port: int) returns (r: Option<Tally>)
    requires tally.Valid() && PortNumber(port)
    ensures r.Some? <==> EndpointsGood(t, es) && Room(tally, AtEndpoints(t, es, port))
    ensures r.Some? ==> Grown(tally, r.value, AtEndpoints(t, es, port))
  {
    NothingAdded(tally);
    var now := tally;
    assert AtEndpoints(t, es[..0], port) == {};
    for i := 0 to |es|
      invariant EndpointsGood(t, es[..i]) && Grown(tally, now, AtEndpoints(t, es[..i], port))
    {
      var next := AddEndpoint(tally, now, t, es, i, port);
      if next.None? { return None; }
      now := next.value;
    }
    assert es[..|es|] == es;
    FullyGrown(tally, now, AtEndpoints(t, es, port));
    return Some(now);
  }

  ghost function AtPort(t: Target, s: Slice, p: SlicePort): set<Backend> {
    if Pairs(t, s, p) && PortNumber(p.port.value) then AtEndpoints(t, s.endpoints, p.port.value) else {}
  }

  lemma OneMorePort(t: Target, s: Slice, ps: seq<SlicePort>, i: nat)
    requires i < |ps|
    ensures AtPorts(t, s, ps[..i + 1]) == AtPorts(t, s, ps[..i]) + AtPort(t, s, ps[i])
    ensures AtPorts(t, s, ps[..i + 1]) <= AtPorts(t, s, ps)
  {
    assert ps[..i + 1] == ps[..i] + [ps[i]];
    assert forall p :: p in ps[..i + 1] ==> p in ps;
    assert forall p :: p in ps[..i] ==> p in ps[..i + 1];
    assert ps[i] in ps[..i + 1];
  }

  method AddPort(ghost before: Tally, now: Tally, t: Target, s: Slice, ps: seq<SlicePort>, i: nat) returns (r: Option<Tally>)
    requires before.Valid() && i < |ps| && PortsGood(t, s, ps[..i]) && Grown(before, now, AtPorts(t, s, ps[..i]))
    ensures r.Some? ==> PortsGood(t, s, ps[..i + 1]) && Grown(before, r.value, AtPorts(t, s, ps[..i + 1]))
    ensures r.None? ==> !PortsGood(t, s, ps) || !Room(before, AtPorts(t, s, ps))
  {
    OneMorePort(t, s, ps, i);
    assert ps[..i + 1] == ps[..i] + [ps[i]] && ps[i] in ps;
    if !Pairs(t, s, ps[i]) { return Some(now); }
    var port := ps[i].port.value;
    if !PortNumber(port) { return None; }
    ghost var added, more := AtPorts(t, s, ps[..i]), AtEndpoints(t, s.endpoints, port);
    var next := AddEndpoints(now, t, s.endpoints, port);
    if next.None? {
      if EndpointsGood(t, s.endpoints) { StepFull(before, now, added, more, AtPorts(t, s, ps)); }
      return None;
    }
    StepDone(before, now, next.value, added, more, AtPorts(t, s, ps[..i + 1]));
    return next;
  }

  method AddPorts(tally: Tally, t: Target, s: Slice) returns (r: Option<Tally>)
    requires tally.Valid()
    ensures r.Some? <==> PortsGood(t, s, s.ports) && Room(tally, AtPorts(t, s, s.ports))
    ensures r.Some? ==> Grown(tally, r.value, AtPorts(t, s, s.ports))
  {
    NothingAdded(tally);
    var now := tally;
    assert AtPorts(t, s, s.ports[..0]) == {};
    for i := 0 to |s.ports|
      invariant PortsGood(t, s, s.ports[..i]) && Grown(tally, now, AtPorts(t, s, s.ports[..i]))
    {
      var next := AddPort(tally, now, t, s, s.ports, i);
      if next.None? { return None; }
      now := next.value;
    }
    assert s.ports[..|s.ports|] == s.ports;
    FullyGrown(tally, now, AtPorts(t, s, s.ports));
    return Some(now);
  }

  ghost function AtSlice(t: Target, s: Slice): set<Backend> {
    if Matches(t, s) then AtPorts(t, s, s.ports) else {}
  }

  lemma OneMoreSlice(t: Target, ss: seq<Slice>, i: nat)
    requires i < |ss|
    ensures BackendsOf(t, ss[..i + 1]) == BackendsOf(t, ss[..i]) + AtSlice(t, ss[i])
    ensures BackendsOf(t, ss[..i + 1]) <= BackendsOf(t, ss)
  {
    assert ss[..i + 1] == ss[..i] + [ss[i]];
    assert forall s :: s in ss[..i + 1] ==> s in ss;
    assert forall s :: s in ss[..i] ==> s in ss[..i + 1];
    assert ss[i] in ss[..i + 1];
  }

  method AddSlice(ghost before: Tally, now: Tally, t: Target, ss: seq<Slice>, i: nat) returns (r: Option<Tally>)
    requires before.Valid() && i < |ss| && SlicesGood(t, ss[..i]) && Grown(before, now, BackendsOf(t, ss[..i]))
    ensures r.Some? ==> SlicesGood(t, ss[..i + 1]) && Grown(before, r.value, BackendsOf(t, ss[..i + 1]))
    ensures r.None? ==> !SlicesGood(t, ss) || !Room(before, BackendsOf(t, ss))
  {
    OneMoreSlice(t, ss, i);
    assert ss[..i + 1] == ss[..i] + [ss[i]] && ss[i] in ss;
    if !Matches(t, ss[i]) { return Some(now); }
    ghost var added, more := BackendsOf(t, ss[..i]), AtPorts(t, ss[i], ss[i].ports);
    var next := AddPorts(now, t, ss[i]);
    if next.None? {
      if PortsGood(t, ss[i], ss[i].ports) { StepFull(before, now, added, more, BackendsOf(t, ss)); }
      return None;
    }
    StepDone(before, now, next.value, added, more, BackendsOf(t, ss[..i + 1]));
    return next;
  }

  /** All backends of one Service port: exactly the set, unless something that counts is
      malformed or the plan has too many. */
  method Collect(total: nat, t: Target, ss: seq<Slice>) returns (r: Option<Tally>)
    requires total <= MAX_BACKENDS
    ensures r.Some? <==> SlicesGood(t, ss) && total + |BackendsOf(t, ss)| <= MAX_BACKENDS
    ensures r.Some? ==> r.value.Valid() && Members(r.value.backends) == BackendsOf(t, ss)
                        && r.value.total == total + |BackendsOf(t, ss)|
  {
    ghost var start := Tally([], total);
    NothingAdded(start);
    var now := Tally([], total);
    assert BackendsOf(t, ss[..0]) == {};
    assert Members([]) == {};
    for i := 0 to |ss|
      invariant SlicesGood(t, ss[..i]) && Grown(start, now, BackendsOf(t, ss[..i]))
    {
      var next := AddSlice(start, now, t, ss, i);
      if next.None? { return None; }
      now := next.value;
    }
    assert ss[..|ss|] == ss;
    FullyGrown(start, now, BackendsOf(t, ss));
    MembersCount(now.backends);
    return Some(now);
  }

  // ----- order and repetition do not matter -----

  /** The same slice with its endpoints in another order or repeated. */
  ghost predicate SameSlice(a: Slice, b: Slice) {
    b == a.(endpoints := b.endpoints) && forall e :: e in a.endpoints <==> e in b.endpoints
  }

  ghost predicate EachIn(a: seq<Slice>, b: seq<Slice>) {
    forall x :: x in a ==> exists y :: y in b && SameSlice(x, y)
  }

  /** The same slices in another order, or repeated. */
  ghost predicate SameSlices(a: seq<Slice>, b: seq<Slice>) { EachIn(a, b) && EachIn(b, a) }

  lemma SameSliceSame(t: Target, a: Slice, b: Slice)
    requires SameSlice(a, b)
    ensures Matches(t, a) <==> Matches(t, b)
    ensures AtPorts(t, a, a.ports) == AtPorts(t, b, b.ports)
    ensures PortsGood(t, a, a.ports) <==> PortsGood(t, b, b.ports)
  {
    forall p | Pairs(t, a, p) && PortNumber(p.port.value)
      ensures AtEndpoints(t, a.endpoints, p.port.value) == AtEndpoints(t, b.endpoints, p.port.value)
    {
    }
    assert forall p :: Pairs(t, a, p) <==> Pairs(t, b, p);
    assert EndpointsGood(t, a.endpoints) <==> EndpointsGood(t, b.endpoints);
  }

  lemma EachInOffers(t: Target, a: seq<Slice>, b: seq<Slice>)
    requires EachIn(a, b)
    ensures BackendsOf(t, a) <= BackendsOf(t, b)
    ensures SlicesGood(t, b) ==> SlicesGood(t, a)
  {
    forall s | s in a && Matches(t, s) ensures AtPorts(t, s, s.ports) <= BackendsOf(t, b) && (SlicesGood(t, b) ==> PortsGood(t, s, s.ports)) {
      var y :| y in b && SameSlice(s, y);
      SameSliceSame(t, s, y);
    }
  }

  lemma OrderDoesNotMatter(t: Target, a: seq<Slice>, b: seq<Slice>)
    requires SameSlices(a, b)
    ensures BackendsOf(t, a) == BackendsOf(t, b) && (SlicesGood(t, a) <==> SlicesGood(t, b))
  {
    EachInOffers(t, a, b);
    EachInOffers(t, b, a);
  }
}
