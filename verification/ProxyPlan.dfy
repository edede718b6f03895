/** The frontends of a Service proxy plan: every forwarded Service port with its backends. */
module ProxyPlan {
  import opened Wrappers
  import opened Ipv4
  import opened OrderedSets
  import opened ProxyNetworks
  import opened ProxyBackends
  import opened Names

  const MAX_OBJECTS := 8192
  const MAX_FRONTENDS := 4096

  // ----- Services -----

  datatype ServiceIp = NoIp | NoneIp | Ip(n: nat)

  /** A Service port with its protocol defaulted. */
  datatype ServicePort = ServicePort(name: string, port: int, protocol: string, nodePort: Option<int>)

  /** A Service with its type and internal traffic policy defaulted. The flags say that a field
      the proxy has no implementation for is set. */
  datatype Service = Service(deleting: bool, uid: string, name: string, namespace: string, kind: string, address: ServiceIp,
                             affinity: Option<string>, externalIps: bool, distribution: bool,
                             externalPolicy: Option<string>, healthCheck: bool,
                             internalPolicy: string, ports: seq<ServicePort>)

  datatype Forwarding = ToClusterIp | ToNodePort | ExternalName | Headless | ToLoadBalancer | UnsupportedType | UnsupportedPolicy

  function Classify(s: Service): Forwarding {
    if s.kind == "ExternalName" then ExternalName
    else if s.address == NoneIp then (if s.kind == "ClusterIP" then Headless else UnsupportedType)
    else if s.kind !in ["ClusterIP", "NodePort", "LoadBalancer"] then UnsupportedType
    else if (s.affinity.Some? && s.affinity.value != "None") || s.externalIps || s.distribution
            || (s.externalPolicy.Some? && s.externalPolicy.value != "Cluster") || s.healthCheck then UnsupportedPolicy
    else if s.kind == "NodePort" then ToNodePort
    else if s.kind == "LoadBalancer" then ToLoadBalancer
    else ToClusterIp
  }

  predicate Proxied(s: Service) { !s.deleting && Classify(s) in {ToClusterIp, ToNodePort, ToLoadBalancer} }

  predicate Identity(s: string) { 0 < |s| <= 256 }

  predicate ServiceGood(s: Service) {
    && Identity(s.uid) && Identity(s.name) && Identity(s.namespace)
    && s.address.Ip? && Unicast(s.address.n) && Contains(SERVICES, s.address.n)
    && s.internalPolicy in ["Cluster", "Local"]
  }

  function ParseProtocol(text: string): Option<Protocol> {
    if text == "TCP" then Some(Tcp) else if text == "UDP" then Some(Udp) else None
  }

  // ----- frontends -----

  /** What names a frontend's chain; `scope` is the namespace, name and UID of its Service. */
  datatype Id = Id(scope: string, ip: nat, port: int, protocol: Protocol, node: bool)

  datatype Frontend = Frontend(id: Id, ip: nat, port: int, protocol: Protocol, local: bool, backends: seq<Backend>)

  type Tuple = (nat, int, Protocol)

  function TupleOf(f: Frontend): Tuple { (f.ip, f.port, f.protocol) }

  /** One forwarded port of one Service. */
  datatype Wanted = Wanted(service: Service, port: ServicePort)

  /** What the frontends are computed from besides the Services. */
  datatype Context = Context(slices: seq<Slice>, node: string, ips: seq<nat>)

  function TargetOf(c: Context, d: Wanted): Target
    requires ParseProtocol(d.port.protocol).Some?
  {
    Target(d.service.namespace, d.service.name, d.service.uid, d.port.name, ParseProtocol(d.port.protocol).value,
           |d.service.ports| <= 1, d.service.internalPolicy == "Local", c.node)
  }

  predicate NodePortGood(c: Context, d: Wanted) {
    d.service.kind == "NodePort" ==> d.port.nodePort.Some? && 30000 <= d.port.nodePort.value <= 32767 && c.ips != []
  }

  ghost predicate WantedGood(c: Context, d: Wanted) {
    && ServiceGood(d.service) && PortNumber(d.port.port) && ParseProtocol(d.port.protocol).Some?
    && SlicesGood(TargetOf(c, d), c.slices) && NodePortGood(c, d)
  }

  /** The backends of one forwarded port, as the set comprehension over slices, ports, endpoints and addresses. */
  ghost function BackendSet(c: Context, d: Wanted): set<Backend> {
    if ParseProtocol(d.port.protocol).None? then {} else BackendsOf(TargetOf(c, d), c.slices)
  }

  ghost predicate Enumerates(bs: seq<Backend>, all: set<Backend>) {
    Increasing(bs, BackendKey) && (forall b :: b in bs ==> InKeyRange(b)) && Members(bs) == all
  }

  /** A set of backends in order. */
  ghost function InOrder(all: set<Backend>): seq<Backend> {
    if bs: seq<Backend> :| Enumerates(bs, all) then bs else []
  }

  lemma InOrderIs(bs: seq<Backend>, all: set<Backend>)
    requires Enumerates(bs, all)
    ensures InOrder(all) == bs
  {
    var other := InOrder(all);
    assert Enumerates(other, all);
    forall b ensures b in bs <==> b in other {
      assert b in Members(bs) <==> b in Members(other);
    }
    SameElements(bs, other, BackendKey);
  }

  function Scope(s: Service): string { s.namespace + "/" + s.name + "/" + s.uid }

  function ClusterFrontend(d: Wanted, protocol: Protocol, backends: seq<Backend>): Frontend
    requires d.service.address.Ip?
  {
    var ip := d.service.address.n;
    Frontend(Id(Scope(d.service), ip, d.port.port, protocol, false), ip, d.port.port, protocol,
             d.service.internalPolicy == "Local", backends)
  }

  function NodeFrontend(d: Wanted, protocol: Protocol, ip: nat, backends: seq<Backend>): Frontend
    requires d.port.nodePort.Some?
  {
    var port := d.port.nodePort.value;
    Frontend(Id(Scope(d.service), ip, port, protocol, true), ip, port, protocol, false, backends)
  }

  function NodeFrontends(d: Wanted, protocol: Protocol, ips: seq<nat>, backends: seq<Backend>): (fs: seq<Frontend>)
    requires d.port.nodePort.Some?
    ensures |fs| == |ips| && forall k :: 0 <= k < |ips| ==> fs[k] == NodeFrontend(d, protocol, ips[k], backends)
  {
    if ips == [] then []
    else NodeFrontends(d, protocol, ips[..|ips| - 1], backends) + [NodeFrontend(d, protocol, ips[|ips| - 1], backends)]
  }

  /** The frontends of one forwarded port: its cluster address and, for a NodePort Service,
      each address of this node. */
  function PortFrontends(c: Context, d: Wanted, backends: seq<Backend>): seq<Frontend> {
    var protocol := ParseProtocol(d.port.protocol);
    if protocol.None? || !d.service.address.Ip? || !NodePortGood(c, d) then []
    else
      [ClusterFrontend(d, protocol.value, backends)]
      + (if d.service.kind == "NodePort" then NodeFrontends(d, protocol.value, c.ips, backends) else [])
  }

  /** All frontends, in the order the Services list their ports. */
  ghost function Frontends(c: Context, ds: seq<Wanted>): seq<Frontend> {
    if ds == [] then []
    else
      var d := ds[|ds| - 1];
      Frontends(c, ds[..|ds| - 1]) + PortFrontends(c, d, InOrder(BackendSet(c, d)))
  }

  ghost function TotalBackends(c: Context, ds: seq<Wanted>): nat {
    if ds == [] then 0 else TotalBackends(c, ds[..|ds| - 1]) + |BackendSet(c, ds[|ds| - 1])|
  }

  ghost predicate DistinctTuples(fs: seq<Frontend>) {
    forall i, j :: 0 <= i < j < |fs| ==> TupleOf(fs[i]) != TupleOf(fs[j])
  }

  ghost predicate DistinctIds(fs: seq<Frontend>) {
    forall i, j :: 0 <= i < j < |fs| ==> fs[i].id != fs[j].id
  }

  ghost predicate Distinct(fs: seq<Frontend>) { DistinctTuples(fs) && DistinctIds(fs) }

  /** What a list of forwarded ports must meet. */
  ghost predicate Accepted(c: Context, ds: seq<Wanted>) {
    && (forall d :: d in ds ==> WantedGood(c, d))
    && Distinct(Frontends(c, ds)) && |Frontends(c, ds)| <= MAX_FRONTENDS
    && TotalBackends(c, ds) <= MAX_BACKENDS
  }

  lemma DistinctPrefix(fs: seq<Frontend>, more: seq<Frontend>)
    requires Distinct(fs + more)
    ensures Distinct(fs)
  {
    assert forall i :: 0 <= i < |fs| ==> (fs + more)[i] == fs[i];
  }

  lemma AcceptedLess(c: Context, ds: seq<Wanted>)
    requires ds != [] && Accepted(c, ds)
    ensures Accepted(c, ds[..|ds| - 1])
  {
    var d := ds[|ds| - 1];
    DistinctPrefix(Frontends(c, ds[..|ds| - 1]), PortFrontends(c, d, InOrder(BackendSet(c, d))));
  }

  lemma {:induction false} AcceptedPrefix(c: Context, ds: seq<Wanted>, k: nat)
    requires k <= |ds| && Accepted(c, ds)
    ensures Accepted(c, ds[..k])
    decreases |ds| - k
  {
    if k == |ds| {
      assert ds[..k] == ds;
    } else {
      AcceptedPrefix(c, ds, k + 1);
      AcceptedShorter(c, ds, k);
    }
  }

  lemma AcceptedShorter(c: Context, ds: seq<Wanted>, k: nat)
    requires k < |ds| && Accepted(c, ds[..k + 1])
    ensures Accepted(c, ds[..k])
  {
    AcceptedLess(c, ds[..k + 1]);
    assert ds[..k + 1][..k] == ds[..k];
  }

  // ----- building the list -----

  ghost predicate HasTuple(fs: seq<Frontend>, t: Tuple) {
    exists i :: 0 <= i < |fs| && TupleOf(fs[i]) == t
  }

  ghost predicate HasId(fs: seq<Frontend>, id: Id) {
    exists i :: 0 <= i < |fs| && fs[i].id == id
  }

  /** The plan so far. */
  datatype State = State(frontends: seq<Frontend>, tuples: set<Tuple>, ids: set<Id>, total: nat) {
    ghost predicate Valid() {
      && Distinct(frontends)
      && (forall t :: t in tuples <==> HasTuple(frontends, t))
      && (forall id :: id in ids <==> HasId(frontends, id))
    }
  }

  ghost predicate Built(c: Context, ds: seq<Wanted>, st: State) {
    Accepted(c, ds) && st.Valid() && st.frontends == Frontends(c, ds) && st.total == TotalBackends(c, ds)
  }

  /** Append a frontend whose tuple and identity are new. */
  method Push(st: State, f: Frontend) returns (r: Option<State>)
    requires st.Valid()
    ensures r.Some? <==> Distinct(st.frontends + [f])
    ensures r.Some? ==> r.value.Valid() && r.value.frontends == st.frontends + [f] && r.value.total == st.total
  {
    Appended(st, f);
    if TupleOf(f) in st.tuples || f.id in st.ids { return None; }
    return Some(State(st.frontends + [f], st.tuples + {TupleOf(f)}, st.ids + {f.id}, st.total));
  }

  lemma HasMore(fs: seq<Frontend>, f: Frontend)
    ensures forall t :: HasTuple(fs + [f], t) <==> HasTuple(fs, t) || t == TupleOf(f)
    ensures forall id :: HasId(fs + [f], id) <==> HasId(fs, id) || id == f.id
  {
    var more, n := fs + [f], |fs|;
    assert more[n] == f;
    forall t | HasTuple(fs, t) ensures HasTuple(more, t) {
      var i :| 0 <= i < n && TupleOf(fs[i]) == t;
      assert TupleOf(more[i]) == t;
    }
    forall id | HasId(fs, id) ensures HasId(more, id) {
      var i :| 0 <= i < n && fs[i].id == id;
      assert more[i].id == id;
    }
  }

  lemma DistinctMore(fs: seq<Frontend>, f: Frontend)
    requires Distinct(fs)
    ensures Distinct(fs + [f]) <==> !HasTuple(fs, TupleOf(f)) && !HasId(fs, f.id)
  {
    var more, n := fs + [f], |fs|;
    assert more[n] == f && forall i :: 0 <= i < n ==> more[i] == fs[i];
  }

  lemma Appended(st: State, f: Frontend)
    requires st.Valid()
    ensures Distinct(st.frontends + [f]) <==> TupleOf(f) !in st.tuples && f.id !in st.ids
    ensures forall t :: HasTuple(st.frontends + [f], t) <==> HasTuple(st.frontends, t) || t == TupleOf(f)
    ensures forall id :: HasId(st.frontends + [f], id) <==> HasId(st.frontends, id) || id == f.id
  {
    HasMore(st.frontends, f);
    DistinctMore(st.frontends, f);
  }

  /** Append one frontend per node address. */
  method PushNodes(st: State, d: Wanted, protocol: Protocol, ips: seq<nat>, backends: seq<Backend>) returns (r: Option<State>)
    requires st.Valid() && d.port.nodePort.Some?
    ensures r.Some? <==> Distinct(st.frontends + NodeFrontends(d, protocol, ips, backends))
    ensures r.Some? ==> r.value.Valid() && r.value.frontends == st.frontends + NodeFrontends(d, protocol, ips, backends)
                        && r.value.total == st.total
  {
    var now := st;
    ghost var all := NodeFrontends(d, protocol, ips, backends);
    for k := 0 to |ips|
      invariant now.Valid() && now.total == st.total && now.frontends == st.frontends + all[..k]
    {
      var next := Push(now, NodeFrontend(d, protocol, ips[k], backends));
      assert now.frontends + [all[k]] == st.frontends + all[..k + 1];
      if next.None? {
        assert st.frontends + all == (st.frontends + all[..k + 1]) + all[k + 1..];
        if Distinct(st.frontends + all) { DistinctPrefix(st.frontends + all[..k + 1], all[k + 1..]); }
        return None;
      }
      now := next.value;
    }
    assert all[..|ips|] == all;
    return Some(now);
  }

  /** One more forwarded port in the list. */
  lemma OneMore(c: Context, ds: seq<Wanted>, d: Wanted)
    ensures Frontends(c, ds + [d]) == Frontends(c, ds) + PortFrontends(c, d, InOrder(BackendSet(c, d)))
    ensures TotalBackends(c, ds + [d]) == TotalBackends(c, ds) + |BackendSet(c, d)|
  {
    assert (ds + [d])[..|ds|] == ds;
  }

  /** What the next port must meet for the list to stay accepted. */
  ghost predicate Fits(c: Context, ds: seq<Wanted>, d: Wanted) {
    var fs := Frontends(c, ds) + PortFrontends(c, d, InOrder(BackendSet(c, d)));
    && WantedGood(c, d) && Distinct(fs) && |fs| <= MAX_FRONTENDS
    && TotalBackends(c, ds) + |BackendSet(c, d)| <= MAX_BACKENDS
  }

  lemma AcceptedMore(c: Context, ds: seq<Wanted>, d: Wanted)
    requires Accepted(c, ds)
    ensures Accepted(c, ds + [d]) <==> Fits(c, ds, d)
  {
    OneMore(c, ds, d);
    assert d in ds + [d];
  }

  /** Frontends of one port appended to the plan so far. */
  method AddFrontends(c: Context, st: State, d: Wanted, backends: seq<Backend>) returns (r: Option<State>)
    requires st.Valid() && ServiceGood(d.service) && ParseProtocol(d.port.protocol).Some?
    ensures r.Some? <==>
            && NodePortGood(c, d) && Distinct(st.frontends + PortFrontends(c, d, backends))
            && |st.frontends + PortFrontends(c, d, backends)| <= MAX_FRONTENDS
    ensures r.Some? ==> r.value.Valid() && r.value.frontends == st.frontends + PortFrontends(c, d, backends)
                        && r.value.total == st.total
  {
    var protocol := ParseProtocol(d.port.protocol).value;
    var first := ClusterFrontend(d, protocol, backends);
    var pushed := Push(st, first);
    if NodePortGood(c, d) {
      FirstMustFit(st.frontends, first, PortFrontends(c, d, backends)[1..]);
      assert PortFrontends(c, d, backends) == [first] + PortFrontends(c, d, backends)[1..];
    }
    if pushed.None? || !NodePortGood(c, d) { return None; }
    var now := pushed.value;
    if d.service.kind == "NodePort" {
      var more := PushNodes(now, d, protocol, c.ips, backends);
      if more.None? { return None; }
      now := more.value;
    }
    if |now.frontends| > MAX_FRONTENDS { return None; }
    return Some(now);
  }

  lemma FirstMustFit(fs: seq<Frontend>, first: Frontend, rest: seq<Frontend>)
    ensures fs + ([first] + rest) == (fs + [first]) + rest
    ensures Distinct(fs + ([first] + rest)) ==> Distinct(fs + [first])
  {
    assert fs + ([first] + rest) == (fs + [first]) + rest;
    if Distinct(fs + ([first] + rest)) { DistinctPrefix(fs + [first], rest); }
  }

  /** Slices by the Service they belong to. */
  type Groups = map<(string, string), seq<Slice>>

  function Lookup(groups: Groups, t: Target): seq<Slice> {
    if (t.namespace, t.name) in groups then groups[(t.namespace, t.name)] else []
  }

  ghost predicate Grouped(groups: Groups, slices: seq<Slice>) {
    forall key, s :: (key in groups && s in groups[key]) <==> BelongsTo(key, s, slices)
  }

  ghost predicate BelongsTo(key: (string, string), s: Slice, slices: seq<Slice>) {
    s in slices && Listed(s) && key == (s.namespace, s.service.value)
  }

  ghost predicate SlicesNamed(slices: seq<Slice>) {
    forall s :: s in slices && Listed(s) ==> Identity(s.namespace)
  }

  function AddToGroup(groups: Groups, s: Slice): Groups
    requires Listed(s)
  {
    var key := (s.namespace, s.service.value);
    groups[key := (if key in groups then groups[key] else []) + [s]]
  }

  lemma OneMoreGrouped(groups: Groups, slices: seq<Slice>, s: Slice)
    requires Grouped(groups, slices)
    ensures Grouped(if Listed(s) then AddToGroup(groups, s) else groups, slices + [s])
  {
    var after := if Listed(s) then AddToGroup(groups, s) else groups;
    forall key, x ensures (key in after && x in after[key]) <==> BelongsTo(key, x, slices + [s]) {
      assert (key in groups && x in groups[key]) <==> BelongsTo(key, x, slices);
    }
  }

  method Group(slices: seq<Slice>) returns (r: Option<Groups>)
    ensures r.Some? <==> SlicesNamed(slices)
    ensures r.Some? ==> Grouped(r.value, slices)
  {
    var groups: Groups := map[];
    for i := 0 to |slices|
      invariant Grouped(groups, slices[..i]) && SlicesNamed(slices[..i])
    {
      assert slices[..i + 1] == slices[..i] + [slices[i]] && slices[i] in slices;
      OneMoreGrouped(groups, slices[..i], slices[i]);
      if Listed(slices[i]) {
        if !Identity(slices[i].namespace) { return None; }
        groups := AddToGroup(groups, slices[i]);
      }
    }
    assert slices[..|slices|] == slices;
    return Some(groups);
  }

  /** A group holds everything a target matches. */
  lemma GroupSuffices(groups: Groups, slices: seq<Slice>, t: Target)
    requires Grouped(groups, slices)
    ensures BackendsOf(t, Lookup(groups, t)) == BackendsOf(t, slices)
    ensures SlicesGood(t, Lookup(groups, t)) <==> SlicesGood(t, slices)
  {
    var key := (t.namespace, t.name);
    forall s | Matches(t, s) ensures s in Lookup(groups, t) <==> s in slices {
      assert (key in groups && s in groups[key]) <==> BelongsTo(key, s, slices);
    }
  }

  /** One forwarded port: its backends, then its frontends. */
  method AddWanted(c: Context, groups: Groups, ghost ds: seq<Wanted>, st: State, d: Wanted) returns (r: Option<State>)
    requires Built(c, ds, st) && Grouped(groups, c.slices) && ServiceGood(d.service)
    ensures r.Some? <==> Accepted(c, ds + [d])
    ensures r.Some? ==> Built(c, ds + [d], r.value)
  {
    AcceptedMore(c, ds, d);
    OneMore(c, ds, d);
    if !PortNumber(d.port.port) || ParseProtocol(d.port.protocol).None? { return None; }
    var target := TargetOf(c, d);
    GroupSuffices(groups, c.slices, target);
    var tally := Collect(st.total, target, Lookup(groups, target));
    if tally.None? { return None; }
    InOrderIs(tally.value.backends, BackendSet(c, d));
    var more := AddFrontends(c, st, d, tally.value.backends);
    if more.None? { return None; }
    return Some(more.value.(total := tally.value.total));
  }

  // ----- the whole plan -----

  function Wants(s: Service): (ds: seq<Wanted>)
    ensures |ds| == |s.ports| && forall j :: 0 <= j < |ds| ==> ds[j] == Wanted(s, s.ports[j])
  {
    seq(|s.ports|, j requires 0 <= j < |s.ports| => Wanted(s, s.ports[j]))
  }

  /** Every port of every forwarded Service. */
  ghost function AllWanted(ss: seq<Service>): seq<Wanted> {
    if ss == [] then []
    else
      var s := ss[|ss| - 1];
      AllWanted(ss[..|ss| - 1]) + (if Proxied(s) then Wants(s) else [])
  }

  ghost predicate ServicesGood(ss: seq<Service>) {
    forall s :: s in ss && Proxied(s) ==> ServiceGood(s)
  }

  lemma AcceptedTogether(c: Context, ds: seq<Wanted>, more: seq<Wanted>)
    requires Accepted(c, ds + more)
    ensures Accepted(c, ds)
  {
    AcceptedPrefix(c, ds + more, |ds|);
    assert (ds + more)[..|ds|] == ds;
  }

  /** The `j`-th port of a Service. */
  method AddServicePort(c: Context, groups: Groups, ghost ds: seq<Wanted>, now: State, s: Service, j: nat) returns (r: Option<State>)
    requires j < |s.ports| && Built(c, ds + Wants(s)[..j], now) && Grouped(groups, c.slices) && ServiceGood(s)
    ensures r.Some? ==> Built(c, ds + Wants(s)[..j + 1], r.value)
    ensures r.None? ==> !Accepted(c, ds + Wants(s))
  {
    WantsSteps(ds, Wants(s), j);
    StartAccepted(c, ds + Wants(s), ds + Wants(s)[..j + 1], Wants(s)[j + 1..]);
    r := AddWanted(c, groups, ds + Wants(s)[..j], now, Wanted(s, s.ports[j]));
  }

  lemma WantsSteps(ds: seq<Wanted>, all: seq<Wanted>, j: nat)
    requires j < |all|
    ensures ds + all[..j + 1] == (ds + all[..j]) + [all[j]]
    ensures ds + all == (ds + all[..j + 1]) + all[j + 1..]
  {
  }

  lemma StartAccepted(c: Context, all: seq<Wanted>, ds: seq<Wanted>, more: seq<Wanted>)
    requires all == ds + more
    ensures Accepted(c, all) ==> Accepted(c, ds)
  {
    if Accepted(c, all) { AcceptedTogether(c, ds, more); }
  }

  method AddService(c: Context, groups: Groups, ghost ds: seq<Wanted>, st: State, s: Service) returns (r: Option<State>)
    requires Built(c, ds, st) && Grouped(groups, c.slices) && ServiceGood(s)
    ensures r.Some? <==> Accepted(c, ds + Wants(s))
    ensures r.Some? ==> Built(c, ds + Wants(s), r.value)
  {
    var now := st;
    assert ds + Wants(s)[..0] == ds;
    for j := 0 to |s.ports|
      invariant Built(c, ds + Wants(s)[..j], now)
    {
      var next := AddServicePort(c, groups, ds, now, s, j);
      if next.None? { return None; }
      now := next.value;
    }
    assert Wants(s)[..|s.ports|] == Wants(s);
    BuiltIsAccepted(c, ds + Wants(s), now);
    return Some(now);
  }

  lemma BuiltIsAccepted(c: Context, ds: seq<Wanted>, st: State)
    requires Built(c, ds, st)
    ensures Accepted(c, ds) && st.frontends == Frontends(c, ds)
  {
  }

  lemma NothingBuilt(c: Context)
    ensures Built(c, [], State([], {}, {}, 0))
  {
  }

  lemma {:induction false} AllWantedPrefix(ss: seq<Service>, k: nat) returns (more: seq<Wanted>)
    requires k <= |ss|
    ensures AllWanted(ss) == AllWanted(ss[..k]) + more
    decreases |ss| - k
  {
    if k == |ss| {
      assert ss[..k] == ss;
      more := [];
    } else {
      more := AllWantedPrefix(ss, k + 1);
      assert ss[..k + 1][..k] == ss[..k];
      more := (if Proxied(ss[k]) then Wants(ss[k]) else []) + more;
    }
  }

  lemma AllWantedStep(ss: seq<Service>, i: nat)
    requires i < |ss|
    ensures AllWanted(ss[..i + 1]) == AllWanted(ss[..i]) + (if Proxied(ss[i]) then Wants(ss[i]) else [])
    ensures ServicesGood(ss[..i + 1]) <==> ServicesGood(ss[..i]) && (Proxied(ss[i]) ==> ServiceGood(ss[i]))
    ensures ServicesGood(ss) ==> ServicesGood(ss[..i + 1])
  {
    assert ss[..i + 1] == ss[..i] + [ss[i]] && ss[..i + 1][..i] == ss[..i];
    assert forall s :: s in ss[..i + 1] ==> s in ss;
  }

  /** The `i`-th Service, if it is forwarded. */
  method AddOne(c: Context, groups: Groups, ss: seq<Service>, i: nat, now: State) returns (r: Option<State>)
    requires i < |ss| && Grouped(groups, c.slices) && Built(c, AllWanted(ss[..i]), now) && ServicesGood(ss[..i])
    ensures r.Some? ==> Built(c, AllWanted(ss[..i + 1]), r.value) && ServicesGood(ss[..i + 1])
    ensures r.None? ==> !(ServicesGood(ss) && Accepted(c, AllWanted(ss)))
  {
    AllWantedStep(ss, i);
    if !Proxied(ss[i]) {
      assert AllWanted(ss[..i]) + [] == AllWanted(ss[..i]);
      return Some(now);
    }
    if !ServiceGood(ss[i]) { return None; }
    r := AddService(c, groups, AllWanted(ss[..i]), now, ss[i]);
    ghost var more := AllWantedPrefix(ss, i + 1);
    StartAccepted(c, AllWanted(ss), AllWanted(ss[..i + 1]), more);
  }

  method AddServices(c: Context, groups: Groups, ss: seq<Service>) returns (r: Option<seq<Frontend>>)
    requires Grouped(groups, c.slices)
    ensures r.Some? <==> ServicesGood(ss) && Accepted(c, AllWanted(ss))
    ensures r.Some? ==> r.value == Frontends(c, AllWanted(ss))
  {
    var now := State([], {}, {}, 0);
    NothingBuilt(c);
    for i := 0 to |ss|
      invariant Built(c, AllWanted(ss[..i]), now) && ServicesGood(ss[..i])
    {
      var next := AddOne(c, groups, ss, i, now);
      if next.None? { return None; }
      now := next.value;
    }
    assert ss[..|ss|] == ss;
    BuiltIsAccepted(c, AllWanted(ss), now);
    return Some(now.frontends);
  }

  /** The chain name of a frontend is a digest of its identity; digests order the plan. */
  type Digest = Id -> int

  ghost predicate Injective(digest: Digest) {
    forall a, b :: digest(a) == digest(b) ==> a == b
  }

  function ByDigest(digest: Digest): Frontend -> int {
    (f: Frontend) => digest(f.id)
  }

  function Sorted(fs: seq<Frontend>, digest: Digest): seq<Frontend> {
    if fs == [] then [] else Insert(Sorted(fs[..|fs| - 1], digest), fs[|fs| - 1], ByDigest(digest))
  }

  lemma KeysApart(fs: seq<Frontend>, f: Frontend, digest: Digest)
    requires Injective(digest) && DistinctIds(fs + [f])
    ensures DistinctIds(fs) && forall y :: y in fs ==> ByDigest(digest)(y) != ByDigest(digest)(f)
  {
    assert forall i :: 0 <= i < |fs| ==> (fs + [f])[i] == fs[i];
    forall y | y in fs ensures ByDigest(digest)(y) != ByDigest(digest)(f) {
      var i :| 0 <= i < |fs| && fs[i] == y;
      assert (fs + [f])[i].id != (fs + [f])[|fs|].id;
    }
  }

  lemma {:induction false} SortedSorts(fs: seq<Frontend>, digest: Digest)
    requires Injective(digest) && DistinctIds(fs)
    ensures Increasing(Sorted(fs, digest), ByDigest(digest))
    ensures forall f :: f in Sorted(fs, digest) <==> f in fs
  {
    if fs != [] {
      var init, last := fs[..|fs| - 1], fs[|fs| - 1];
      assert fs == init + [last];
      KeysApart(init, last, digest);
      SortedSorts(init, digest);
      InsertElements(Sorted(init, digest), last, ByDigest(digest));
      InsertIncreasing(Sorted(init, digest), last, ByDigest(digest));
    }
  }

  datatype Plan = Plan(podCidrs: seq<Net>, services: seq<Frontend>)

  ghost function ContextOf(slices: seq<Slice>, nodes: seq<Node>, name: string): Context {
    Context(slices, name, LocalIps(nodes, name))
  }

  ghost predicate SnapshotGood(services: seq<Service>, slices: seq<Slice>, nodes: seq<Node>, name: string) {
    && ValidName(name)
    && |services| <= MAX_OBJECTS && |slices| <= MAX_OBJECTS && |nodes| <= MAX_OBJECTS
    && NodesGood(nodes, name) && SlicesNamed(slices) && ServicesGood(services)
    && Accepted(ContextOf(slices, nodes, name), AllWanted(services))
  }

  /** What a plan of a snapshot is. */
  ghost predicate PlanOf(plan: Plan, services: seq<Service>, slices: seq<Slice>, nodes: seq<Node>, name: string, digest: Digest) {
    && Networks(plan.podCidrs) && (forall net :: net in plan.podCidrs <==> net in CidrsOf(nodes))
    && plan.services == Sorted(Frontends(ContextOf(slices, nodes, name), AllWanted(services)), digest)
  }

  /** Compute the plan of a snapshot. */
  method MakePlan(services: seq<Service>, slices: seq<Slice>, nodes: seq<Node>, name: string, digest: Digest)
      returns (r: Option<Plan>)
    ensures r.Some? <==> SnapshotGood(services, slices, nodes, name)
    ensures r.Some? ==> PlanOf(r.value, services, slices, nodes, name, digest) && PairwiseDisjoint(r.value.podCidrs)
  {
    if !ValidName(name) || |services| > MAX_OBJECTS || |slices| > MAX_OBJECTS || |nodes| > MAX_OBJECTS {
      return None;
    }
    var local := Networked(nodes, name);
    if local.None? { return None; }
    var groups := Group(slices);
    if groups.None? { return None; }
    var frontends := AddServices(Context(slices, name, local.value.ips), groups.value, services);
    if frontends.None? { return None; }
    return Some(Plan(local.value.podCidrs, Sorted(frontends.value, digest)));
  }

  // ----- what a plan means -----

  /** The frontends are exactly those of the forwarded ports, each with its own backend set. */
  lemma {:induction false} FrontendsAreExact(c: Context, ds: seq<Wanted>, f: Frontend)
    ensures f in Frontends(c, ds) <==> exists d :: d in ds && f in PortFrontends(c, d, InOrder(BackendSet(c, d)))
  {
    if ds != [] {
      var init, last := ds[..|ds| - 1], ds[|ds| - 1];
      FrontendsAreExact(c, init, f);
      assert ds == init + [last];
    }
  }

  /** An accepted plan has one frontend per address, port and protocol. */
  lemma OneFrontendPerTuple(services: seq<Service>, slices: seq<Slice>, nodes: seq<Node>, name: string, digest: Digest,
                            plan: Plan, f: Frontend, g: Frontend)
    requires Injective(digest) && SnapshotGood(services, slices, nodes, name)
    requires PlanOf(plan, services, slices, nodes, name, digest)
    requires f in plan.services && g in plan.services && (TupleOf(f) == TupleOf(g) || f.id == g.id)
    ensures f == g
  {
    var fs := Frontends(ContextOf(slices, nodes, name), AllWanted(services));
    SortedSorts(fs, digest);
    var i :| 0 <= i < |fs| && fs[i] == f;
    var j :| 0 <= j < |fs| && fs[j] == g;
  }

  /** The identity check never refuses what the tuple check accepts. */
  lemma TuplesTellApart(fs: seq<Frontend>)
    requires DistinctTuples(fs)
    requires forall f :: f in fs ==> (f.id.ip, f.id.port, f.id.protocol) == TupleOf(f)
    ensures DistinctIds(fs)
  {
    forall i, j | 0 <= i < j < |fs| ensures fs[i].id != fs[j].id {
      assert fs[i] in fs && fs[j] in fs;
    }
  }

  // ----- order and repetition of slices and endpoints do not matter -----

  lemma SameWanted(a: Context, b: Context, d: Wanted)
    requires b == a.(slices := b.slices) && SameSlices(a.slices, b.slices)
    ensures BackendSet(a, d) == BackendSet(b, d) && (WantedGood(a, d) <==> WantedGood(b, d))
    ensures forall bs :: PortFrontends(a, d, bs) == PortFrontends(b, d, bs)
  {
    if ParseProtocol(d.port.protocol).Some? { OrderDoesNotMatter(TargetOf(a, d), a.slices, b.slices); }
  }

  lemma {:induction false} SameList(a: Context, b: Context, ds: seq<Wanted>)
    requires b == a.(slices := b.slices) && SameSlices(a.slices, b.slices)
    ensures Frontends(a, ds) == Frontends(b, ds) && TotalBackends(a, ds) == TotalBackends(b, ds)
  {
    if ds != [] {
      SameList(a, b, ds[..|ds| - 1]);
      SameWanted(a, b, ds[|ds| - 1]);
    }
  }

  lemma SameAccepted(a: Context, b: Context, ds: seq<Wanted>)
    requires b == a.(slices := b.slices) && SameSlices(a.slices, b.slices)
    ensures Accepted(a, ds) <==> Accepted(b, ds)
  {
    SameList(a, b, ds);
    forall d ensures WantedGood(a, d) <==> WantedGood(b, d) { SameWanted(a, b, d); }
  }

  /** Reordering or repeating slices and endpoints does not change whether there is a plan. */
  lemma PlanningIgnoresOrder(services: seq<Service>, a: seq<Slice>, b: seq<Slice>, nodes: seq<Node>, name: string)
    requires SameSlices(a, b) && |a| <= MAX_OBJECTS && |b| <= MAX_OBJECTS
    ensures SnapshotGood(services, a, nodes, name) <==> SnapshotGood(services, b, nodes, name)
  {
    SameAccepted(ContextOf(a, nodes, name), ContextOf(b, nodes, name), AllWanted(services));
    if SlicesNamed(b) { SameNames(a, b); }
    if SlicesNamed(a) { SameNames(b, a); }
  }

  /** ... and does not change the plan. */
  lemma PlanIgnoresOrder(services: seq<Service>, a: seq<Slice>, b: seq<Slice>, nodes: seq<Node>, name: string, digest: Digest,
                         plan: Plan, other: Plan)
    requires SameSlices(a, b)
    requires PlanOf(plan, services, a, nodes, name, digest) && PlanOf(other, services, b, nodes, name, digest)
    ensures plan == other
  {
    SameList(ContextOf(a, nodes, name), ContextOf(b, nodes, name), AllWanted(services));
    SameElements(plan.podCidrs, other.podCidrs, NetKey);
  }

  lemma SameNames(a: seq<Slice>, b: seq<Slice>)
    requires EachIn(a, b) && SlicesNamed(b)
    ensures SlicesNamed(a)
  {
    forall s | s in a && Listed(s) ensures Identity(s.namespace) {
      var y :| y in b && SameSlice(s, y);
    }
  }

  // ----- backends of a planned frontend -----

  lemma {:induction false} EnumerationExists(all: set<Backend>) returns (bs: seq<Backend>)
    requires forall b :: b in all ==> InKeyRange(b)
    ensures Enumerates(bs, all)
    decreases |all|
  {
    if all == {} {
      bs := [];
    } else {
      var x :| x in all;
      var rest := EnumerationExists(all - {x});
      forall y | y in rest && BackendKey(y) == BackendKey(x) ensures y == x { BackendKeyInjective(y, x); }
      InsertElements(rest, x, BackendKey);
      InsertIncreasing(rest, x, BackendKey);
      bs := Insert(rest, x, BackendKey);
      forall b ensures b in Members(bs) <==> b in all {
        assert b in rest <==> b in Members(rest);
      }
    }
  }

  lemma BackendSetInRange(c: Context, d: Wanted)
    ensures forall b :: b in BackendSet(c, d) ==> InKeyRange(b)
  {
  }

  /** The backend list of a planned port is its backend set in order. */
  lemma BackendsAreTheSet(c: Context, d: Wanted)
    ensures Enumerates(InOrder(BackendSet(c, d)), BackendSet(c, d))
  {
    BackendSetInRange(c, d);
    var bs := EnumerationExists(BackendSet(c, d));
    InOrderIs(bs, BackendSet(c, d));
  }

  lemma PlannedFrontends(services: seq<Service>, slices: seq<Slice>, nodes: seq<Node>, name: string, digest: Digest, plan: Plan)
    requires Injective(digest) && SnapshotGood(services, slices, nodes, name)
    requires PlanOf(plan, services, slices, nodes, name, digest)
    ensures Distinct(plan.services)
    ensures forall f :: f in plan.services <==> f in Frontends(ContextOf(slices, nodes, name), AllWanted(services))
  {
    var fs := Frontends(ContextOf(slices, nodes, name), AllWanted(services));
    SortedSorts(fs, digest);
    forall i, j | 0 <= i < j < |plan.services|
      ensures TupleOf(plan.services[i]) != TupleOf(plan.services[j]) && plan.services[i].id != plan.services[j].id
    {
      var f, g := plan.services[i], plan.services[j];
      assert f in plan.services && g in plan.services;
      assert ByDigest(digest)(f) < ByDigest(digest)(g);
      if TupleOf(f) == TupleOf(g) || f.id == g.id { OneFrontendPerTuple(services, slices, nodes, name, digest, plan, f, g); }
    }
  }
}
