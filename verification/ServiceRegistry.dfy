/** The stored Services under any run of creates, updates and deletes. One lock is held from
    reading what is published until the write, so each write is one step. */
module ServiceRegistry {
  import opened Wrappers
  import Ipv4
  import opened Names
  import opened ServiceStrategy
  import opened ServiceAllocation
  import opened NodePortLists

  ghost predicate NoNodePorts(ports: seq<Port>) {
    forall i :: 0 <= i < |ports| ==> ports[i].nodePort.None?
  }

  /** What is true of one stored spec. */
  ghost predicate Settled(spec: Spec) {
    match spec.kind
    case Unsupported(_) => false
    case ExternalName => spec.clusterIp in {Absent, Empty}
    case NodePort =>
      && spec.clusterIp.Address? && FIRST_IP <= spec.clusterIp.n <= LAST_IP
      && InRange(spec.ports) && Distinct(spec.ports) && NamesUnique(spec.ports)
    case _ =>
      && (spec.clusterIp == Headless || (spec.clusterIp.Address? && FIRST_IP <= spec.clusterIp.n <= LAST_IP))
      && NoNodePorts(spec.ports) && NamesUnique(spec.ports)
  }

  ghost predicate IpsDiffer(stored: map<string, Service>) {
    forall a, b :: a in stored && b in stored && a != b ==>
      IpSet(stored[a].spec.clusterIp) !! IpSet(stored[b].spec.clusterIp)
  }

  /** No two Services that forward a node port share one. */
  ghost predicate PortsDiffer(stored: map<string, Service>) {
    forall a, b :: a in stored && b in stored && a != b && stored[a].spec.kind == NodePort && stored[b].spec.kind == NodePort ==>
      PortSet(stored[a].spec.ports) !! PortSet(stored[b].spec.ports)
  }

  ghost predicate UidsDiffer(stored: map<string, Service>, issued: nat) {
    && (forall a :: a in stored ==> stored[a].uid < issued)
    && (forall a, b :: a in stored && b in stored && a != b ==> stored[a].uid != stored[b].uid)
  }

  ghost predicate AllSettled(stored: map<string, Service>) {
    forall a :: a in stored ==> Settled(stored[a].spec)
  }

  ghost predicate Sound(stored: map<string, Service>, issued: nat) {
    UidsDiffer(stored, issued) && AllSettled(stored) && IpsDiffer(stored) && PortsDiffer(stored)
  }

  // ----- one write -----

  lemma NumberedSettle(spec: Spec, previous: seq<Port>, others: set<int>)
    requires SpecAllowed(spec) && spec.kind == NodePort && InRange(previous) && Numbered(Prepared(spec).ports, previous, others).Ok?
    ensures var r := Numbered(Prepared(spec).ports, previous, others).value;
            InRange(r) && Distinct(r) && NamesUnique(r) && PortSet(r) !! others
  {
    AllowedPorts(spec);
    NumberedKeeps(Prepared(spec).ports, previous, others);
    NumberedDiffer(Prepared(spec).ports, previous, others);
  }

  lemma ChosenSettles(requested: Ip, ips: set<int>)
    requires ChosenIp(requested, ips).Ok?
    ensures var r := ChosenIp(requested, ips).value;
            (r == Headless || (r.Address? && FIRST_IP <= r.n <= LAST_IP)) && IpSet(r) !! ips
  {
  }

  lemma CreatedSettles(spec: Spec, ips: set<int>, others: set<int>)
    requires SpecAllowed(spec) && Created(Prepared(spec), ips, others).Ok?
    ensures var r := Created(Prepared(spec), ips, others).value;
            Settled(r) && IpSet(r.clusterIp) !! ips && (r.kind == NodePort ==> PortSet(r.ports) !! others)
  {
    if spec.kind != ExternalName {
      ChosenSettles(Prepared(spec).clusterIp, ips);
      if spec.kind == NodePort { NumberedSettle(spec, [], others); } else { AllowedPorts(spec); }
    }
  }

  lemma UpdatedSettles(spec: Spec, was: Spec, others: set<int>)
    requires Settled(was) && SpecAllowed(spec) && Updated(Prepared(spec), was, others).Ok?
    ensures var r := Updated(Prepared(spec), was, others).value;
            && Settled(r) && r.clusterIp == was.clusterIp && r.kind == was.kind
            && (r.kind == NodePort ==> PortSet(r.ports) !! others)
  {
    if spec.kind == NodePort {
      NumberedSettle(spec, was.ports, others);
    } else if spec.kind != ExternalName {
      AllowedPorts(spec);
    }
  }

  lemma PutIps(stored: map<string, Service>, name: string, s: Service, issued: nat)
    requires UidsDiffer(stored, issued) && IpsDiffer(stored) && (name in stored ==> stored[name].uid == s.uid)
    requires name !in stored ==> s.uid >= issued
    requires IpSet(s.spec.clusterIp) !! OthersIps(stored, s.uid)
    ensures IpsDiffer(stored[name := s])
  {
    forall a | a in stored && a != name ensures IpSet(stored[a].spec.clusterIp) !! IpSet(s.spec.clusterIp) {
      assert IpSet(stored[a].spec.clusterIp) <= OthersIps(stored, s.uid);
    }
  }

  lemma PutPorts(stored: map<string, Service>, name: string, s: Service, issued: nat)
    requires UidsDiffer(stored, issued) && PortsDiffer(stored) && (name in stored ==> stored[name].uid == s.uid)
    requires name !in stored ==> s.uid >= issued
    requires s.spec.kind == NodePort ==> PortSet(s.spec.ports) !! OthersPorts(stored, s.uid)
    ensures PortsDiffer(stored[name := s])
  {
    if s.spec.kind == NodePort {
      forall a | a in stored && a != name ensures PortSet(stored[a].spec.ports) !! PortSet(s.spec.ports) {
        assert PortSet(stored[a].spec.ports) <= OthersPorts(stored, s.uid);
      }
    }
  }

  /** The address an update keeps is no other Service's. */
  lemma OwnIp(stored: map<string, Service>, name: string)
    requires IpsDiffer(stored) && name in stored
    ensures IpSet(stored[name].spec.clusterIp) !! OthersIps(stored, stored[name].uid)
  {
    forall ip | ip in OthersIps(stored, stored[name].uid) ensures ip !in IpSet(stored[name].spec.clusterIp) {
      var a :| a in stored && stored[a].uid != stored[name].uid && ip in IpSet(stored[a].spec.clusterIp);
      assert a != name;
    }
  }

  lemma {:induction false} BeforeFinds(previous: seq<Port>, p: Port, port: Port)
    requires NamesUnique(previous) && p in previous && SamePort(p, port)
    ensures Before(previous, port) == Allocated(p)
  {
    if p != previous[0] {
      var j :| 0 <= j < |previous| && previous[j] == p;
      assert previous[0].name != previous[j].name;
      BeforeFinds(previous[1..], p, port);
    }
  }

  /** A port kept across an update keeps its node port, whatever else the update changes. */
  lemma KeptPortKeepsItsNumber(spec: Spec, was: Spec, others: set<int>, p: Port, i: nat)
    requires Settled(was) && SpecAllowed(spec) && Updated(Prepared(spec), was, others).Ok?
    requires spec.kind == NodePort && p in was.ports && i < |spec.ports| && SamePort(p, Filled(spec.ports[i]))
    ensures var r := Updated(Prepared(spec), was, others).value;
            |r.ports| == |spec.ports| && r.ports[i].nodePort == p.nodePort
  {
    var ports := Prepared(spec).ports;
    AllowedPorts(spec);
    NumberedKeeps(ports, was.ports, others);
    assert SamePort(p, ports[i]) && NodePortInRange(p);
    BeforeFinds(was.ports, p, ports[i]);
    assert Keeps(ports[i], Numbered(ports, was.ports, others).value[i], was.ports);
  }

  // ----- ports an ExternalName states -----

  /** No two Service ports, of any type, state one node port. */
  ghost predicate NoSharedPorts(stored: map<string, Service>) {
    && (forall a :: a in stored ==> OwnPortsDiffer(stored[a].spec.ports))
    && (forall a, b :: a in stored && b in stored && a != b ==> PortSet(stored[a].spec.ports) !! PortSet(stored[b].spec.ports))
  }

  ghost predicate OwnPortsDiffer(ports: seq<Port>) {
    forall i, j :: 0 <= i < j < |ports| && Allocated(ports[i]).Some? ==> Allocated(ports[i]) != Allocated(ports[j])
  }

  /** What a caller can look up before an ExternalName is written. */
  ghost predicate FreePorts(ports: seq<Port>, stored: map<string, Service>, uid: nat) {
    OwnPortsDiffer(ports) && PortSet(ports) !! OthersPorts(stored, uid)
  }

  /** A write keeps all node ports unshared exactly when it is no ExternalName or an
      ExternalName whose stated node ports are free: its ports are not checked. */
  lemma SharedOnlyByExternalName(stored: map<string, Service>, name: string, s: Service, issued: nat)
    requires UidsDiffer(stored, issued) && NoSharedPorts(stored)
    requires if name in stored then stored[name].uid == s.uid else s.uid >= issued
    requires Settled(s.spec) && (s.spec.kind == NodePort ==> PortSet(s.spec.ports) !! OthersPorts(stored, s.uid))
    ensures NoSharedPorts(stored[name := s]) <==> s.spec.kind != ExternalName || FreePorts(s.spec.ports, stored, s.uid)
  {
    var after := stored[name := s];
    if s.spec.kind == NodePort {
      forall i | 0 <= i < |s.spec.ports| ensures Allocated(s.spec.ports[i]) == s.spec.ports[i].nodePort {
        assert NodePortInRange(s.spec.ports[i]);
      }
    } else if s.spec.kind != ExternalName {
      assert PortSet(s.spec.ports) == {};
    }
    assert after[name] == s;
    OthersUnchanged(stored, name, s, issued);
    if NoSharedPorts(after) {
      assert OwnPortsDiffer(after[name].spec.ports);
      OwnPorts(after, name);
    }
    if s.spec.kind != ExternalName || FreePorts(s.spec.ports, stored, s.uid) {
      assert OwnPortsDiffer(s.spec.ports);
      forall a | a in stored && a != name ensures PortSet(stored[a].spec.ports) !! PortSet(s.spec.ports) {
        assert PortSet(stored[a].spec.ports) <= OthersPorts(stored, s.uid);
      }
    }
  }

  /** Writing a Service leaves what the others hold. */
  lemma OthersUnchanged(stored: map<string, Service>, name: string, s: Service, issued: nat)
    requires UidsDiffer(stored, issued) && (if name in stored then stored[name].uid == s.uid else s.uid >= issued)
    ensures OthersPorts(stored[name := s], s.uid) == OthersPorts(stored, s.uid)
  {
    var after := stored[name := s];
    forall n | n in OthersPorts(stored, s.uid) ensures n in OthersPorts(after, s.uid) {
      var a :| a in stored && stored[a].uid != s.uid && n in PortSet(stored[a].spec.ports);
      assert after[a] == stored[a];
    }
    forall n | n in OthersPorts(after, s.uid) ensures n in OthersPorts(stored, s.uid) {
      var a :| a in after && after[a].uid != s.uid && n in PortSet(after[a].spec.ports);
      assert after[a] == stored[a];
    }
  }

  lemma OwnPorts(stored: map<string, Service>, name: string)
    requires NoSharedPorts(stored) && name in stored
    ensures PortSet(stored[name].spec.ports) !! OthersPorts(stored, stored[name].uid)
  {
    forall n | n in OthersPorts(stored, stored[name].uid) ensures n !in PortSet(stored[name].spec.ports) {
      var a :| a in stored && stored[a].uid != stored[name].uid && n in PortSet(stored[a].spec.ports);
      assert a != name;
    }
  }

  const PLAIN := Options("", "Cluster", 0, "None", false, false, "Cluster")
  const WEB := Port("web", 80, "TCP", Unset, Some(31000))

  /** An ExternalName may be stored with the node port of a running NodePort Service. */
  lemma ExternalNameSharesAPort() returns (stored: map<string, Service>, spec: Spec)
    ensures Sound(stored, 1) && NoSharedPorts(stored) && "b" !in stored
    ensures SpecAllowed(spec) && Created(Prepared(spec), OthersIps(stored, 1), OthersPorts(stored, 1)) == Ok(spec)
    ensures !NoSharedPorts(stored["b" := Service(1, spec)])
  {
    var forwarded := Spec(NodePort, PLAIN, Address(FIRST_IP), None, None, None, [WEB]);
    stored := map["a" := Service(0, forwarded)];
    spec := Spec(ExternalName, PLAIN.(externalName := "db"), Absent, None, None, None, [WEB]);
    OneServiceIsSound("a", forwarded);
    var after := stored["b" := Service(1, spec)];
    assert [WEB][0] == WEB && 31000 in PortSet([WEB]);
    assert after["a"].spec.ports == after["b"].spec.ports == [WEB];
  }

  lemma OneServiceIsSound(name: string, spec: Spec)
    requires Settled(spec) && OwnPortsDiffer(spec.ports)
    ensures Sound(map[name := Service(0, spec)], 1) && NoSharedPorts(map[name := Service(0, spec)])
  {
  }

  lemma Put(stored: map<string, Service>, name: string, s: Service, issued: nat)
    requires Sound(stored, issued) && Settled(s.spec)
    requires if name in stored then stored[name].uid == s.uid else s.uid == issued
    requires IpSet(s.spec.clusterIp) !! OthersIps(stored, s.uid)
    requires s.spec.kind == NodePort ==> PortSet(s.spec.ports) !! OthersPorts(stored, s.uid)
    ensures Sound(stored[name := s], if name in stored then issued else issued + 1)
  {
    PutIps(stored, name, s, issued);
    PutPorts(stored, name, s, issued);
  }

  // ----- runs -----

  datatype Event = Create(name: string, spec: Spec) | Update(name: string, spec: Spec) | Delete(name: string)

  class Services {
    var stored: map<string, Service>
    var issued: nat

    ghost predicate Valid()
      reads this
    {
      Sound(stored, issued)
    }

    constructor ()
      ensures Valid() && stored == map[]
    {
      stored, issued := map[], 0;
    }

    /** Collect what the other Services hold. */
    method Published(uid: nat) returns (ips: set<int>, ports: set<int>)
      ensures ips == OthersIps(stored, uid) && ports == OthersPorts(stored, uid)
    {
      ips, ports := {}, {};
      var rest := stored.Keys;
      while rest != {}
        invariant rest <= stored.Keys
        invariant ips == OthersIps(stored - rest, uid) && ports == OthersPorts(stored - rest, uid)
        decreases |rest|
      {
        var name :| name in rest;
        SeenGrows(stored, rest, name, uid);
        if stored[name].uid != uid {
          ips := ips + IpSet(stored[name].spec.clusterIp);
          ports := ports + PortSet(stored[name].spec.ports);
        }
        rest := rest - {name};
      }
      assert stored - {} == stored;
    }

    /** The write pipeline of a create, with a fresh UID. */
    method Create(name: string, spec: Spec) returns (r: Result<(), Problem>)
      modifies this
      ensures old(Valid()) ==> Valid()
      ensures r.Ok? <==> SpecAllowed(spec) && old(WouldCreate(spec)).Ok? && name !in old(stored)
      ensures r.Ok? ==> stored == old(stored)[name := Service(old(issued), old(WouldCreate(spec)).value)]
      ensures r.Err? ==> stored == old(stored)
    {
      var uid := issued;
      var prepared := Prepare(spec);
      if prepared.Err? { return Err(prepared.error); }
      issued := issued + 1;
      var ips, used := Published(uid);
      var value := AssignNew(prepared.value, ips, used);
      if value.Err? { return Err(value.error); }
      if name in stored { return Err(Exists); }
      if old(Valid()) {
        CreatedSettles(spec, ips, used);
        Put(stored, name, Service(uid, value.value), uid);
      }
      stored := stored[name := Service(uid, value.value)];
      return Ok(());
    }

    /** The write pipeline of an update; the UID is the stored one. */
    method Update(name: string, spec: Spec) returns (r: Result<(), Problem>)
      modifies this`stored
      ensures old(Valid()) ==> Valid()
      ensures r.Ok? <==> name in old(stored) && SpecAllowed(spec) && old(WouldUpdate(name, spec)).Ok?
      ensures name in old(stored) && SpecAllowed(spec) && old(WouldUpdate(name, spec)).Err? ==>
                r == Err(old(WouldUpdate(name, spec)).error)
      ensures r.Ok? ==> stored == old(stored)[name := Service(old(stored)[name].uid, old(WouldUpdate(name, spec)).value)]
      ensures r.Err? ==> stored == old(stored)
    {
      if name !in stored { return Err(Missing); }
      var was := stored[name];
      var prepared := Prepare(spec);
      if prepared.Err? { return Err(prepared.error); }
      var _, used := Published(was.uid);
      var value := AssignExisting(prepared.value, was.spec, used);
      if value.Err? { return Err(value.error); }
      if old(Valid()) {
        UpdatedSettles(spec, was.spec, used);
        OwnIp(stored, name);
        Put(stored, name, Service(was.uid, value.value), issued);
      }
      stored := stored[name := Service(was.uid, value.value)];
      return Ok(());
    }

    ghost function WouldCreate(spec: Spec): Result<Spec, Problem>
      reads this
    {
      Created(Prepared(spec), OthersIps(stored, issued), OthersPorts(stored, issued))
    }

    ghost function WouldUpdate(name: string, spec: Spec): Result<Spec, Problem>
      requires name in stored
      reads this
    {
      Updated(Prepared(spec), stored[name].spec, OthersPorts(stored, stored[name].uid))
    }

    method Delete(name: string)
      modifies this`stored
      ensures stored == old(stored) - {name} && (old(Valid()) ==> Valid())
    {
      stored := stored - {name};
    }

    /** In every state a run reaches, addresses and forwarded node ports are unshared and in range. */
    method Run(events: seq<Event>)
      requires Valid()
      modifies this
      ensures Valid()
    {
      for i := 0 to |events|
        invariant Valid()
      {
        match events[i]
        case Create(name, spec) => var _ := Create(name, spec);
        case Update(name, spec) => var _ := Update(name, spec);
        case Delete(name) => Delete(name);
      }
    }
  }

  // ----- the order of ports in an update -----

  function PortsOf(ports: seq<Port>): Spec { Spec(NodePort, PLAIN, Absent, None, None, None, ports) }

  /** A complete, named port that states no node port. */
  predicate Complete(port: Port) {
    PortAllowed(NodePort, port) && ValidLabelName(port.name) && port.nodePort.None?
  }

  predicate TwoPorts(kept: Port, added: Port) {
    Complete(kept) && Complete(added) && kept.name != added.name
  }

  /** Two updates that add one port to a Service and differ only in the order of the ports:
      with the new one first it is refused, with the kept one first it is stored. */
  method OrderOfPortsMatters(kept: Port, added: Port)
      returns (s: Services, first: Result<(), Problem>, second: Result<(), Problem>)
    requires TwoPorts(kept, added)
    ensures fresh(s) && s.Valid()
    ensures first == Err(PortTaken) && second.Ok?
  {
    ghost var uid;
    s, uid := CreateOne(kept);
    NewFirst(kept, added, uid);
    first := s.Update("a", PortsOf([added, kept]));
    NewLast(kept, added, uid);
    second := s.Update("a", PortsOf([kept, added]));
  }

  method CreateOne(kept: Port) returns (s: Services, ghost uid: nat)
    requires Complete(kept)
    ensures fresh(s) && s.Valid() && s.stored == map["a" := Service(uid, OnePort(kept))]
  {
    s := new Services();
    uid := s.issued;
    CreatesOne(kept, uid);
    var _ := s.Create("a", PortsOf([kept]));
  }

  function First(kept: Port): Port { kept.(nodePort := Some(FIRST_PORT)) }

  /** What is stored for a first Service with one port. */
  function OnePort(kept: Port): Spec {
    Spec(NodePort, PLAIN, Address(FIRST_IP), Some([Address(FIRST_IP)]), Some(["IPv4"]), Some("SingleStack"), [First(kept)])
  }

  lemma FirstNumbered(kept: Port, previous: seq<Port>)
    requires Complete(kept) && (previous == [] || previous == [First(kept)])
    ensures Numbered([kept], previous, {}) == Ok([First(kept)])
  {
    assert [kept][..0] == [] && {} + PortSet([]) == {} && [] + [First(kept)] == [First(kept)];
  }

  lemma CreatesOne(kept: Port, uid: nat)
    requires Complete(kept)
    ensures SpecAllowed(PortsOf([kept]))
    ensures Created(Prepared(PortsOf([kept])), OthersIps(map[], uid), OthersPorts(map[], uid)) == Ok(OnePort(kept))
  {
    assert Prepared(PortsOf([kept])).ports == [kept];
    assert OthersIps(map[], uid) == {} && OthersPorts(map[], uid) == {};
    FirstNumbered(kept, []);
  }

  lemma TwoAllowed(a: Port, b: Port)
    requires TwoPorts(a, b)
    ensures SpecAllowed(PortsOf([a, b])) && Prepared(PortsOf([a, b])) == PortsOf([a, b])
  {
    assert Prepared(PortsOf([a, b])).ports == [a, b];
  }

  lemma NewFirst(kept: Port, added: Port, uid: nat)
    requires TwoPorts(kept, added)
    ensures SpecAllowed(PortsOf([added, kept]))
    ensures Updated(Prepared(PortsOf([added, kept])), OnePort(kept), OthersPorts(map["a" := Service(uid, OnePort(kept))], uid))
         == Err(PortTaken)
  {
    TwoAllowed(added, kept);
    assert OthersPorts(map["a" := Service(uid, OnePort(kept))], uid) == {};
    NewPortFirst(added, kept, [First(kept)], {});
  }

  lemma NewLast(kept: Port, added: Port, uid: nat)
    requires TwoPorts(kept, added)
    ensures SpecAllowed(PortsOf([kept, added]))
    ensures Updated(Prepared(PortsOf([kept, added])), OnePort(kept), OthersPorts(map["a" := Service(uid, OnePort(kept))], uid)).Ok?
  {
    TwoAllowed(kept, added);
    assert OthersPorts(map["a" := Service(uid, OnePort(kept))], uid) == {};
    AddedNumbered(kept, added);
  }

  lemma AddedNumbered(kept: Port, added: Port)
    requires TwoPorts(kept, added)
    ensures Numbered([kept, added], [First(kept)], {}).Ok?
  {
    FirstNumbered(kept, [First(kept)]);
    assert [kept, added][..1] == [kept];
    PortSetGrows([], First(kept));
    assert [] + [First(kept)] == [First(kept)] && FIRST_PORT + 1 !in {} + PortSet([First(kept)]);
  }

  lemma SeenGrows(stored: map<string, Service>, rest: set<string>, name: string, uid: nat)
    requires rest <= stored.Keys && name in rest
    ensures var s := stored[name];
            && OthersIps(stored - (rest - {name}), uid)
               == OthersIps(stored - rest, uid) + (if s.uid != uid then IpSet(s.spec.clusterIp) else {})
            && OthersPorts(stored - (rest - {name}), uid)
               == OthersPorts(stored - rest, uid) + (if s.uid != uid then PortSet(s.spec.ports) else {})
  {
    var seen, more := stored - rest, stored - (rest - {name});
    assert forall a :: a in more <==> a in seen || a == name;
    assert forall a :: a in seen ==> more[a] == seen[a];
    assert more[name] == stored[name];
  }

  predicate SameNodePort(a: Spec, b: Spec, i: int, j: int) {
    && 0 <= i < |a.ports| && 0 <= j < |b.ports| && a.kind == NodePort && b.kind == NodePort
    && a.ports[i].nodePort == b.ports[j].nodePort
  }

  /** What soundness says in the terms of the network: addresses in the range and unshared,
      forwarded node ports in the range and unshared. */
  lemma SoundMeans(stored: map<string, Service>, issued: nat, a: string, b: string)
    requires Sound(stored, issued) && a in stored && b in stored
    ensures stored[a].spec.clusterIp.Address? ==>
              Ipv4.Address(10, 43, 0, 2) <= stored[a].spec.clusterIp.n <= Ipv4.Address(10, 43, 255, 254)
    ensures stored[a].spec.clusterIp.Address? && stored[a].spec.clusterIp == stored[b].spec.clusterIp ==> a == b
    ensures forall i, j :: SameNodePort(stored[a].spec, stored[b].spec, i, j) ==> a == b && i == j
  {
    forall i, j | SameNodePort(stored[a].spec, stored[b].spec, i, j) ensures a == b && i == j
    {
      var p, q := stored[a].spec.ports[i], stored[b].spec.ports[j];
      assert NodePortInRange(p) && NodePortInRange(q);
      assert p.nodePort.value in PortSet(stored[a].spec.ports);
      assert q.nodePort.value in PortSet(stored[b].spec.ports);
    }
    if stored[a].spec.clusterIp.Address? { assert stored[a].spec.clusterIp.n in IpSet(stored[a].spec.clusterIp); }
  }
}
