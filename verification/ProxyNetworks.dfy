/** The Pod networks and local addresses a Service proxy plan starts from. */
module ProxyNetworks {
  import opened Wrappers
  import opened Ipv4
  import opened OrderedSets

  /** CIDR text as it parses; `canonical` when printing the network gives the text back. */
  datatype CidrText = Unset | Unreadable | Text(net: Net, canonical: bool)

  datatype NodeAddress = NodeAddress(kind: string, ip: Option<nat>)

  datatype Node = Node(name: string, podCidr: CidrText, addresses: seq<NodeAddress>)

  /** An address a packet can be sent to: not 0/8, loopback, link-local, multicast or reserved. */
  predicate Unicast(ip: nat) {
    && Address(1, 0, 0, 0) <= ip < Address(224, 0, 0, 0)
    && !(Address(127, 0, 0, 0) <= ip < Address(128, 0, 0, 0))
    && !(Address(169, 254, 0, 0) <= ip < Address(169, 255, 0, 0))
  }

  predicate Usable(ip: Option<nat>) { ip.Some? && Unicast(ip.value) }

  predicate GoodCidr(c: CidrText) {
    && c.Text? && c.canonical && IsNet(c.net) && c.net.addr == Base(c.net)
    && IsPrivate(Base(c.net)) && IsPrivate(Last(c.net))
    && !Contains(c.net, Base(SERVICES)) && !Contains(SERVICES, Base(c.net))
  }

  /** Networks compare by address, then by prefix length. */
  function NetKey(net: Net): int { net.addr * 64 + net.prefix }

  ghost predicate Networks(nets: seq<Net>) {
    Increasing(nets, NetKey) && forall net :: net in nets ==> IsNet(net) && net.addr == Base(net)
  }

  ghost predicate PairwiseDisjoint(nets: seq<Net>)
    requires Networks(nets)
  {
    forall i, j :: 0 <= i < j < |nets| ==> Disjoint(nets[i], nets[j])
  }

  predicate Steps(a: Net, b: Net) { IsNet(a) && !Contains(a, b.addr) }

  ghost predicate Stepwise(nets: seq<Net>, k: nat)
    requires k <= |nets|
  {
    forall m :: 0 < m < k ==> Steps(nets[m - 1], nets[m])
  }

  /** Where no network holds the start of the next, each ends before every later one starts. */
  lemma {:induction false} StepsSeparate(nets: seq<Net>, i: nat, j: nat)
    requires Networks(nets) && Stepwise(nets, |nets|) && i < j < |nets|
    ensures IsNet(nets[i]) && Last(nets[i]) < nets[j].addr
    decreases j - i
  {
    assert nets[i] in nets && nets[j] in nets && nets[j - 1] in nets;
    assert NetKey(nets[j - 1]) < NetKey(nets[j]);
    assert Steps(nets[j - 1], nets[j]);
    if i < j - 1 { StepsSeparate(nets, i, j - 1); }
  }

  /** One look at each neighbouring pair decides whether all pairs are disjoint. */
  lemma SweepDecides(nets: seq<Net>)
    requires Networks(nets)
    ensures Stepwise(nets, |nets|) <==> PairwiseDisjoint(nets)
  {
    if Stepwise(nets, |nets|) {
      forall i, j | 0 <= i < j < |nets| ensures Disjoint(nets[i], nets[j]) {
        StepsSeparate(nets, i, j);
      }
    }
    forall k | 0 < k < |nets| && !Steps(nets[k - 1], nets[k]) ensures !Disjoint(nets[k - 1], nets[k]) {
      assert nets[k] in nets && nets[k - 1] in nets;
      assert Contains(nets[k], nets[k].addr);
    }
  }

  lemma StepwiseNext(nets: seq<Net>, k: nat)
    requires k < |nets|
    ensures Stepwise(nets, k + 1) <==> Stepwise(nets, k) && (k > 0 ==> Steps(nets[k - 1], nets[k]))
    ensures Stepwise(nets, |nets|) ==> Stepwise(nets, k + 1)
  {
  }

  method Sweep(nets: seq<Net>) returns (ok: bool)
    requires Networks(nets)
    ensures ok <==> PairwiseDisjoint(nets)
  {
    SweepDecides(nets);
    for k := 0 to |nets|
      invariant Stepwise(nets, k)
    {
      StepwiseNext(nets, k);
      if k > 0 && !Steps(nets[k - 1], nets[k]) { return false; }
    }
    return true;
  }

  // ----- what the nodes give -----

  ghost function CidrsOf(nodes: seq<Node>): set<Net> {
    set n | n in nodes && n.podCidr.Text? :: n.podCidr.net
  }

  /** No two Nodes carry one network, and different networks share no address. */
  ghost predicate CidrsApart(nodes: seq<Node>) {
    && Unrepeated(nodes)
    && (forall a, b :: a in CidrsOf(nodes) && b in CidrsOf(nodes) && a != b && IsNet(a) && IsNet(b) ==> Disjoint(a, b))
  }

  ghost predicate CidrsGood(nodes: seq<Node>) {
    forall n :: n in nodes && n.podCidr != Unset ==> GoodCidr(n.podCidr)
  }

  predicate Reported(a: NodeAddress) { a.kind in ["InternalIP", "ExternalIP"] }

  ghost predicate AddressesGood(nodes: seq<Node>, name: string) {
    forall n, a :: n in nodes && n.name == name && a in n.addresses && Reported(a) ==> Usable(a.ip)
  }

  /** A node's reported addresses after those already seen, each once. */
  function ReportedAfter(seen: seq<nat>, addresses: seq<NodeAddress>): seq<nat> {
    if addresses == [] then seen
    else
      var ips := ReportedAfter(seen, addresses[..|addresses| - 1]);
      var a := addresses[|addresses| - 1];
      if Reported(a) && a.ip.Some? && a.ip.value !in ips then ips + [a.ip.value] else ips
  }

  /** The local node's addresses, each once, in the order they are reported. */
  function LocalIps(nodes: seq<Node>, name: string): seq<nat> {
    if nodes == [] then []
    else
      var ips, n := LocalIps(nodes[..|nodes| - 1], name), nodes[|nodes| - 1];
      if n.name == name then ReportedAfter(ips, n.addresses) else ips
  }

  ghost predicate OwnCidr(nodes: seq<Node>, name: string) {
    exists n :: n in nodes && n.name == name && n.podCidr != Unset
  }

  /** Collect one node's reported addresses. */
  method LocalAddresses(node: Node, before: seq<nat>) returns (r: Option<seq<nat>>)
    ensures r.Some? <==> forall a :: a in node.addresses && Reported(a) ==> Usable(a.ip)
    ensures r.Some? ==> r.value == ReportedAfter(before, node.addresses)
  {
    var ips := before;
    for i := 0 to |node.addresses|
      invariant forall a :: a in node.addresses[..i] && Reported(a) ==> Usable(a.ip)
      invariant ips == ReportedAfter(before, node.addresses[..i])
    {
      var a := node.addresses[i];
      assert node.addresses[..i + 1] == node.addresses[..i] + [a];
      assert node.addresses[..i + 1][..i] == node.addresses[..i];
      if Reported(a) {
        if !Usable(a.ip) { return None; }
        if a.ip.value !in ips { ips := ips + [a.ip.value]; }
      }
    }
    assert node.addresses[..|node.addresses|] == node.addresses;
    return Some(ips);
  }

  datatype Local = Local(podCidrs: seq<Net>, ips: seq<nat>)

  /** What the first pass over the Nodes demands. */
  ghost predicate NodesGood(nodes: seq<Node>, name: string) {
    CidrsGood(nodes) && CidrsApart(nodes) && OwnCidr(nodes, name) && AddressesGood(nodes, name)
  }

  ghost predicate Unrepeated(nodes: seq<Node>) {
    forall i, j :: 0 <= i < j < |nodes| && nodes[i].podCidr != Unset ==> nodes[i].podCidr != nodes[j].podCidr
  }

  lemma NetKeyInjective(a: Net, b: Net)
    requires IsNet(a) && IsNet(b) && NetKey(a) == NetKey(b)
    ensures a == b
  {
  }

  /** Add one node's network to the ordered set. */
  method AddCidr(nets: seq<Net>, c: CidrText) returns (r: Option<seq<Net>>)
    requires Networks(nets)
    ensures r.Some? <==> GoodCidr(c) && c.net !in nets
    ensures r.Some? ==> Networks(r.value) && forall net :: net in r.value <==> net in nets || net == c.net
  {
    if !GoodCidr(c) || c.net in nets { return None; }
    forall y | y in nets && NetKey(y) == NetKey(c.net) ensures y == c.net { NetKeyInjective(y, c.net); }
    InsertElements(nets, c.net, NetKey);
    InsertIncreasing(nets, c.net, NetKey);
    return Some(Insert(nets, c.net, NetKey));
  }

  lemma OneMoreNode(nodes: seq<Node>, n: Node)
    ensures CidrsOf(nodes + [n]) == CidrsOf(nodes) + (if n.podCidr.Text? then {n.podCidr.net} else {})
  {
    assert n in nodes + [n];
    forall net | net in CidrsOf(nodes) ensures net in CidrsOf(nodes + [n]) {
      var m :| m in nodes && m.podCidr.Text? && m.podCidr.net == net;
      assert m in nodes + [n];
    }
  }

  ghost predicate Gathered(nodes: seq<Node>, nets: seq<Net>) {
    && CidrsGood(nodes) && Unrepeated(nodes) && Networks(nets)
    && forall net :: net in nets <==> net in CidrsOf(nodes)
  }

  lemma GatherOne(nodes: seq<Node>, i: nat, nets: seq<Net>)
    requires i < |nodes| && Gathered(nodes[..i], nets) && nodes[i].podCidr != Unset
    requires !GoodCidr(nodes[i].podCidr) || nodes[i].podCidr.net in nets
    ensures !(CidrsGood(nodes) && Unrepeated(nodes))
  {
    assert nodes[i] in nodes;
    if GoodCidr(nodes[i].podCidr) {
      var m :| m in nodes[..i] && m.podCidr.Text? && m.podCidr.net == nodes[i].podCidr.net;
      var k :| 0 <= k < i && nodes[..i][k] == m;
      assert nodes[k].podCidr == nodes[i].podCidr;
    }
  }

  lemma GatherNext(nodes: seq<Node>, i: nat, nets: seq<Net>, more: seq<Net>)
    requires i < |nodes| && Gathered(nodes[..i], nets) && Networks(more)
    requires if nodes[i].podCidr == Unset then more == nets
             else GoodCidr(nodes[i].podCidr) && nodes[i].podCidr.net !in nets
                  && forall net :: net in more <==> net in nets || net == nodes[i].podCidr.net
    ensures Gathered(nodes[..i + 1], more)
  {
    assert nodes[..i + 1] == nodes[..i] + [nodes[i]];
    OneMoreNode(nodes[..i], nodes[i]);
    if nodes[i].podCidr != Unset {
      forall k | 0 <= k < i ensures nodes[k].podCidr != nodes[i].podCidr {
        assert nodes[k] in nodes[..i];
        if nodes[k].podCidr.Text? { assert nodes[k].podCidr.net in CidrsOf(nodes[..i]); }
      }
    }
  }

  lemma OwnNext(nodes: seq<Node>, i: nat, name: string)
    requires i < |nodes|
    ensures OwnCidr(nodes[..i + 1], name) <==> OwnCidr(nodes[..i], name) || (nodes[i].podCidr != Unset && nodes[i].name == name)
  {
    assert nodes[..i + 1] == nodes[..i] + [nodes[i]] && nodes[i] in nodes[..i + 1];
    assert forall n :: n in nodes[..i] ==> n in nodes[..i + 1];
  }

  /** One Node's network, if it has one. */
  method GatherNode(nodes: seq<Node>, i: nat, nets: seq<Net>) returns (r: Option<seq<Net>>)
    requires i < |nodes| && Gathered(nodes[..i], nets)
    ensures r.Some? ==> Gathered(nodes[..i + 1], r.value)
    ensures r.None? ==> !(CidrsGood(nodes) && Unrepeated(nodes))
  {
    if nodes[i].podCidr == Unset {
      GatherNext(nodes, i, nets, nets);
      return Some(nets);
    }
    r := AddCidr(nets, nodes[i].podCidr);
    if r.None? { GatherOne(nodes, i, nets); } else { GatherNext(nodes, i, nets, r.value); }
  }

  /** The networks of all Nodes, in order, and whether one of them is `name`'s. */
  method PodCidrs(nodes: seq<Node>, name: string) returns (r: Option<(seq<Net>, bool)>)
    ensures r.Some? <==> CidrsGood(nodes) && Unrepeated(nodes)
    ensures r.Some? ==> Gathered(nodes, r.value.0) && (r.value.1 <==> OwnCidr(nodes, name))
  {
    var nets, own := [], false;
    for i := 0 to |nodes|
      invariant Gathered(nodes[..i], nets)
      invariant own <==> OwnCidr(nodes[..i], name)
    {
      var more := GatherNode(nodes, i, nets);
      if more.None? { return None; }
      nets := more.value;
      OwnNext(nodes, i, name);
      if nodes[i].podCidr != Unset && nodes[i].name == name { own := true; }
    }
    assert nodes[..|nodes|] == nodes;
    return Some((nets, own));
  }

  /** The local node's addresses. */
  method NodeIps(nodes: seq<Node>, name: string) returns (r: Option<seq<nat>>)
    ensures r.Some? <==> AddressesGood(nodes, name)
    ensures r.Some? ==> r.value == LocalIps(nodes, name)
  {
    var ips := [];
    for i := 0 to |nodes|
      invariant AddressesGood(nodes[..i], name) && ips == LocalIps(nodes[..i], name)
    {
      assert nodes[..i + 1] == nodes[..i] + [nodes[i]] && nodes[..i + 1][..i] == nodes[..i];
      assert nodes[i] in nodes;
      if nodes[i].name == name {
        var more := LocalAddresses(nodes[i], ips);
        if more.None? { return None; }
        ips := more.value;
      }
    }
    assert nodes[..|nodes|] == nodes;
    return Some(ips);
  }

  /** The networks as a set and as an ordered sequence are apart together. */
  lemma ApartEitherWay(nodes: seq<Node>, nets: seq<Net>)
    requires Gathered(nodes, nets)
    ensures CidrsApart(nodes) <==> PairwiseDisjoint(nets)
  {
    if PairwiseDisjoint(nets) {
      forall a, b | a in CidrsOf(nodes) && b in CidrsOf(nodes) && a != b && IsNet(a) && IsNet(b) ensures Disjoint(a, b) {
        var i :| 0 <= i < |nets| && nets[i] == a;
        var j :| 0 <= j < |nets| && nets[j] == b;
        assert Disjoint(nets[if i < j then i else j], nets[if i < j then j else i]);
      }
    }
    if CidrsApart(nodes) {
      forall i, j | 0 <= i < j < |nets| ensures Disjoint(nets[i], nets[j]) {
        assert nets[i] in nets && nets[j] in nets;
        assert NetKey(nets[i]) < NetKey(nets[j]);
      }
    }
  }

  /** The first pass of a plan. */
  method Networked(nodes: seq<Node>, name: string) returns (r: Option<Local>)
    ensures r.Some? <==> NodesGood(nodes, name)
    ensures r.Some? ==> && Networks(r.value.podCidrs) && PairwiseDisjoint(r.value.podCidrs)
                        && (forall net :: net in r.value.podCidrs <==> net in CidrsOf(nodes))
                        && r.value.ips == LocalIps(nodes, name)
  {
    var cidrs := PodCidrs(nodes, name);
    if cidrs.None? { return None; }
    var ips := NodeIps(nodes, name);
    if ips.None? { return None; }
    ApartEitherWay(nodes, cidrs.value.0);
    var apart := Sweep(cidrs.value.0);
    if !apart || !cidrs.value.1 { return None; }
    return Some(Local(cidrs.value.0, ips.value));
  }
}
