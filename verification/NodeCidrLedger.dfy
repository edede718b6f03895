/** Reservation and admission: every Node write first reserves its subnet durably, and only
    then writes the Node; the process may stop in between. */
module NodeCidrLedger {
  import opened Wrappers
  import opened Ipv4
  import opened Names
  import opened NodeCidrs

  /** A ledger being updated in memory. */
  class Ledger {
    var state: Allocations

    constructor (state: Allocations)
      ensures this.state == state
    {
      this.state := state;
    }

    /** Reserve a subnet for a name. True when the ledger changed. */
    method Reserve(name: string, cidr: Text) returns (r: Result<bool, Problem>)
      modifies this
      ensures r.Ok? <==> ValidName(name) && Claimable(name, cidr, old(state))
      ensures r.Ok? ==> r.value == (name !in old(state).reservations)
      ensures r.Ok? ==> state == old(state).(reservations := old(state).reservations[name := cidr])
      ensures r.Ok? && !r.value ==> state == old(state)
      ensures r.Err? ==> state == old(state)
      ensures old(state).Sound() ==> state.Sound()
    {
      if !ValidName(name) { return Err(BadName); }
      if !state.IsSubnet(cidr) { return Err(BadSubnet); }
      if name in state.reservations {
        if state.reservations[name] != cidr { return Err(ReservationImmutable); }
        assert state.reservations == state.reservations[name := cidr];
        return Ok(false);
      }
      if cidr in state.reservations.Values { return Err(ReservedByAnother); }
      ghost var before := state;
      state := state.(reservations := state.reservations[name := cidr]);
      if before.Sound() { Reserved(before, name, cidr); }
      return Ok(true);
    }
  }

  lemma Reserved(before: Allocations, name: string, cidr: Text)
    requires before.Sound() && ValidName(name) && before.IsSubnet(cidr)
    requires name !in before.reservations && cidr !in before.reservations.Values
    ensures before.(reservations := before.reservations[name := cidr]).Sound()
  {
    var after := before.(reservations := before.reservations[name := cidr]);
    assert after.Pool() == before.Pool();
    forall key | key in after.reservations ensures ValidName(key) && after.IsSubnet(after.reservations[key]) {
      assert key != name ==> before.IsSubnet(before.reservations[key]);
      assert before.IsSubnet(cidr);
    }
    forall key | key in before.reservations ensures before.reservations[key] != cidr {
      assert before.reservations[key] in before.reservations.Values;
    }
    forall a, b | a in after.reservations && b in after.reservations && after.reservations[a] == after.reservations[b]
      ensures a == b
    {
    }
  }

  /** The subnet fields of a Node's spec; an empty podCIDR counts as absent. */
  datatype NodeSpec = NodeSpec(podCidr: Option<Text>, podCidrs: Option<seq<Text>>)

  /** The one subnet a Node names. */
  function NodeCidr(spec: NodeSpec): Result<Option<Text>, Problem> {
    if spec.podCidrs.Some? &&
       (if spec.podCidr.Some? then spec.podCidrs.value != [spec.podCidr.value] else spec.podCidrs.value != [])
    then Err(BadSpec)
    else Ok(spec.podCidr)
  }

  /** The registry's ledger object and its Nodes. */
  class Cluster {
    const configured: Allocations
    var ledger: Option<Allocations>
    var nodes: map<string, NodeSpec>

    /** Every stored Node that names a subnet names the one reserved for it. */
    ghost predicate Valid()
      reads this
    {
      && ledger.Some? && ledger.value.Sound()
      && SamePool(ledger.value, configured)
      && AllBacked(nodes, nodes.Keys, ledger.value.reservations)
    }

    constructor (configured: Allocations, nodes: map<string, NodeSpec>)
      ensures this.configured == configured && ledger == None && this.nodes == nodes
    {
      this.configured, this.ledger, this.nodes := configured, None, nodes;
    }

    /** Read the ledger; a missing, unsound or differently configured one is an error. */
    method Load() returns (r: Result<Allocations, Problem>)
      ensures r.Ok? <==> ledger.Some? && ledger.value.Sound() && SamePool(ledger.value, configured)
      ensures r.Ok? ==> r.value == ledger.value
      ensures r.Err? ==> r.error == Corrupt
    {
      if ledger.None? { return Err(Corrupt); }
      if ledger.value.Sound() { ledger.value.SoundIsShort(); }
      var valid := ledger.value.Validate();
      if !valid { return Err(Corrupt); }
      if !SamePool(ledger.value, configured) { return Err(Corrupt); }
      return Ok(ledger.value);
    }

    /** Server start: adopt the ledger, or a new one, and import every stored Node before
        anything is written. On a cluster that was valid it changes nothing. */
    method Initialize() returns (r: Result<(), Problem>)
      modifies this`ledger
      ensures r.Ok? ==> Valid() && (old(ledger).Some? ==> Extends(old(ledger).value.reservations, ledger.value.reservations))
      ensures r.Err? ==> ledger == old(ledger)
      ensures old(Valid()) && configured.Sound() ==> r.Ok? && ledger == old(ledger)
    {
      if configured.Sound() { configured.SoundIsShort(); }
      var valid := configured.Validate();
      if !valid { return Err(Corrupt); }
      var start := configured;
      if ledger.Some? {
        var loaded := Load();
        if loaded.Err? { return Err(loaded.error); }
        start := loaded.value;
      }
      var imported := Import(start, nodes);
      if imported.Err? { return Err(imported.error); }
      ledger := Some(imported.value);
      return Ok(());
    }

    /** Admission of a Node write: check the subnet against the stored Node and reserve it. */
    method Admit(name: string, spec: NodeSpec, stored: Option<NodeSpec>) returns (r: Result<(), Problem>)
      requires ValidName(name)
      modifies this`ledger
      ensures old(Valid()) ==> Valid() && Extends(old(ledger).value.reservations, ledger.value.reservations)
      ensures old(Valid()) ==> (r.Ok? <==> Admissible(name, spec, stored, old(ledger).value))
      ensures r.Ok? && old(Valid()) ==> Backed(spec, name, ledger.value.reservations)
      ensures r.Err? ==> ledger == old(ledger)
    {
      var cidr := NodeCidr(spec);
      if cidr.Err? { return Err(cidr.error); }
      if stored.Some? {
        var previous := NodeCidr(stored.value);
        if previous.Err? { return Err(previous.error); }
        if previous.value.Some? && cidr.value != previous.value { return Err(NodeCidrImmutable); }
      }
      if cidr.value.None? { return Ok(()); }
      r := Claim(name, cidr.value.value);
    }

    /** Reserve a subnet in the stored ledger. */
    method Claim(name: string, cidr: Text) returns (r: Result<(), Problem>)
      requires ValidName(name)
      modifies this`ledger
      ensures old(Valid()) ==> Valid() && Extends(old(ledger).value.reservations, ledger.value.reservations)
      ensures old(Valid()) ==> (r.Ok? <==> Claimable(name, cidr, old(ledger).value))
      ensures r.Ok? && old(Valid()) ==> name in ledger.value.reservations && ledger.value.reservations[name] == cidr
      ensures r.Err? ==> ledger == old(ledger)
    {
      var loaded := Load();
      if loaded.Err? { return Err(loaded.error); }
      var state := new Ledger(loaded.value);
      var reserved := state.Reserve(name, cidr);
      if reserved.Err? { return Err(reserved.error); }
      if reserved.value { ledger := Some(state.state); }
      return Ok(());
    }

    /** Create or update a Node. The process may stop, or the final compare-and-set may
        fail, after the reservation. */
    method Write(name: string, spec: NodeSpec, create: bool, committed: bool) returns (r: Result<(), Problem>)
      requires ValidName(name)
      modifies this
      ensures old(Valid()) ==> Valid() && Extends(old(ledger).value.reservations, ledger.value.reservations)
      ensures old(Valid()) ==>
                (r.Ok? <==>
                  && committed && (create <==> name !in old(nodes))
                  && Admissible(name, spec, if create then None else Some(old(nodes)[name]), old(ledger).value))
      ensures r.Ok? ==> nodes == old(nodes)[name := spec]
      ensures r.Err? ==> nodes == old(nodes)
      ensures r.Err? && r.error != NotCommitted ==> ledger == old(ledger)
    {
      if create && name in nodes { return Err(NodeExists); }
      if !create && name !in nodes { return Err(NodeMissing); }
      var admitted := Admit(name, spec, if create then None else Some(nodes[name]));
      if admitted.Err? { return Err(admitted.error); }
      if !committed { return Err(NotCommitted); }
      nodes := nodes[name := spec];
      return Ok(());
    }

    /** Deleting a Node leaves its reservation. */
    method Delete(name: string)
      requires Valid()
      modifies this`nodes
      ensures Valid() && nodes == old(nodes) - {name}
    {
      nodes := nodes - {name};
    }

    /** Any sequence of Node writes, deletions, stops and restarts. */
    method Run(events: seq<Event>)
      requires Valid() && configured.Sound()
      modifies this
      ensures Valid() && Extends(old(ledger).value.reservations, ledger.value.reservations)
    {
      for i := 0 to |events|
        invariant Valid() && Extends(old(ledger).value.reservations, ledger.value.reservations)
      {
        match events[i]
        case WriteNode(name, spec, create, committed) =>
          if ValidName(name) { var _ := Write(name, spec, create, committed); }
        case DeleteNode(name) => Delete(name);
        case Restart => var _ := Initialize();
      }
    }
  }

  ghost predicate AllBacked(nodes: map<string, NodeSpec>, names: set<string>, reservations: Reservations) {
    forall name | name in names && name in nodes :: Backed(nodes[name], name, reservations)
  }

  lemma StillBacked(nodes: map<string, NodeSpec>, names: set<string>, before: Reservations, after: Reservations)
    requires AllBacked(nodes, names, before) && Extends(before, after)
    ensures AllBacked(nodes, names, after)
  {
    forall name | name in names && name in nodes ensures Backed(nodes[name], name, after) {
      assert Backed(nodes[name], name, before);
    }
  }

  /** Add the subnets of all stored Nodes to a ledger, or fail without a partial result. */
  method Import(start: Allocations, nodes: map<string, NodeSpec>) returns (r: Result<Allocations, Problem>)
    requires start.Sound()
    ensures r.Ok? ==>
              && r.value.Sound() && SamePool(r.value, start) && Extends(start.reservations, r.value.reservations)
              && AllBacked(nodes, nodes.Keys, r.value.reservations)
    ensures AllBacked(nodes, nodes.Keys, start.reservations) ==> r == Ok(start)
  {
    var state := new Ledger(start);
    var left := nodes.Keys;
    while left != {}
      invariant left <= nodes.Keys
      invariant state.state.Sound() && SamePool(state.state, start)
      invariant Extends(start.reservations, state.state.reservations)
      invariant AllBacked(nodes, nodes.Keys - left, state.state.reservations)
      invariant AllBacked(nodes, nodes.Keys, start.reservations) ==> state.state == start
      decreases left
    {
      var name :| name in left;
      ghost var before := state.state.reservations;
      var imported := ImportOne(state, name, nodes[name]);
      if imported.Err? { return Err(imported.error); }
      StillBacked(nodes, nodes.Keys - left, before, state.state.reservations);
      assert nodes.Keys - (left - {name}) == nodes.Keys - left + {name};
      left := left - {name};
    }
    assert nodes.Keys - left == nodes.Keys;
    return Ok(state.state);
  }

  method ImportOne(state: Ledger, name: string, spec: NodeSpec) returns (r: Result<(), Problem>)
    requires state.state.Sound()
    modifies state
    ensures state.state.Sound() && SamePool(state.state, old(state.state))
    ensures Extends(old(state.state.reservations), state.state.reservations)
    ensures r.Ok? ==> Backed(spec, name, state.state.reservations)
    ensures Backed(spec, name, old(state.state.reservations)) ==> r.Ok? && state.state == old(state.state)
  {
    var cidr := NodeCidr(spec);
    if cidr.Err? { return Err(cidr.error); }
    if cidr.value.Some? {
      var reserved := state.Reserve(name, cidr.value.value);
      if reserved.Err? { return Err(reserved.error); }
    }
    return Ok(());
  }

  datatype Event =
    | WriteNode(name: string, spec: NodeSpec, create: bool, committed: bool)
    | DeleteNode(name: string)
    | Restart

  /** What a Node write must meet: a well-formed subnet, the stored one if there was one,
      and a reservation that is its own or still free. */
  ghost predicate Admissible(name: string, spec: NodeSpec, stored: Option<NodeSpec>, ledger: Allocations) {
    && NodeCidr(spec).Ok?
    && (stored.Some? ==>
          && NodeCidr(stored.value).Ok?
          && (NodeCidr(stored.value).value.Some? ==> NodeCidr(spec) == NodeCidr(stored.value)))
    && (NodeCidr(spec).value.Some? ==> Claimable(name, NodeCidr(spec).value.value, ledger))
  }

  ghost predicate Claimable(name: string, cidr: Text, ledger: Allocations) {
    && ledger.IsSubnet(cidr)
    && (if name in ledger.reservations then ledger.reservations[name] == cidr else cidr !in ledger.reservations.Values)
  }

  predicate SamePool(a: Allocations, b: Allocations) {
    a.clusterCidr == b.clusterCidr && a.nodePrefix == b.nodePrefix
  }

  ghost predicate Extends(before: Reservations, after: Reservations) {
    forall name | name in before :: name in after && after[name] == before[name]
  }

  /** A Node's subnet, if it names one, is the reservation of its name. */
  ghost predicate Backed(spec: NodeSpec, name: string, reservations: Reservations) {
    NodeCidr(spec).Ok? && (NodeCidr(spec).value.Some? ==>
      name in reservations && reservations[name] == NodeCidr(spec).value.value)
  }

  /** In a valid cluster the subnets of two Nodes never share an address. */
  lemma NodesAreDisjoint(ledger: Allocations, nodes: map<string, NodeSpec>, a: string, b: string, x: Text, y: Text)
    requires ledger.Sound() && a in nodes && b in nodes && a != b
    requires AllBacked(nodes, nodes.Keys, ledger.reservations)
    requires NodeCidr(nodes[a]) == Ok(Some(x)) && NodeCidr(nodes[b]) == Ok(Some(y))
    ensures ledger.IsSubnet(x) && ledger.IsSubnet(y) && Disjoint(x.net, y.net)
  {
    assert Backed(nodes[a], a, ledger.reservations) && Backed(nodes[b], b, ledger.reservations);
    ledger.ReservationsAreDisjoint(a, b);
  }
}
