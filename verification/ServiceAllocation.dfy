/** ClusterIP and nodePort allocation: what one Service write is given, from what the other
    Services already hold. */
module ServiceAllocation {
  import opened Wrappers
  import opened ServiceStrategy
  import Ipv4

  /** .0 is the network, .1 the API Service, .255.255 the broadcast address. */
  const FIRST_IP: int := Ipv4.SERVICES.addr + 2
  const LAST_IP: int := Ipv4.SERVICES.addr + 65534

  /** A stored Service. UIDs are issued in order and never reused. */
  datatype Service = Service(uid: nat, spec: Spec)

  // ----- what the other Services hold -----

  /** A published node port; unset, zero and numbers that are no port are not allocations. */
  function Allocated(port: Port): Option<int> {
    if port.nodePort.Some? && 0 < port.nodePort.value <= 65535 then port.nodePort else None
  }

  function PortSet(ports: seq<Port>): set<int> {
    set i | 0 <= i < |ports| && Allocated(ports[i]).Some? :: Allocated(ports[i]).value
  }

  function IpSet(ip: Ip): set<int> { if ip.Address? then {ip.n} else {} }

  ghost function OthersIps(stored: map<string, Service>, uid: nat): set<int> {
    set name, ip | name in stored && stored[name].uid != uid && ip in IpSet(stored[name].spec.clusterIp) :: ip
  }

  ghost function OthersPorts(stored: map<string, Service>, uid: nat): set<int> {
    set name, port | name in stored && stored[name].uid != uid && port in PortSet(stored[name].spec.ports) :: port
  }

  // ----- node ports -----

  /** Whether a port is the same across an update: by name, or by number and protocol when
      neither is named. */
  predicate SamePort(before: Port, after: Port) {
    if before.name != "" || after.name != "" then before.name == after.name
    else before.port == after.port && before.protocol == after.protocol
  }

  /** The node port an update finds for `port` on the old Service. */
  function Before(previous: seq<Port>, port: Port): (r: Option<int>)
    ensures r.Some? ==> exists p :: p in previous && SamePort(p, port) && Allocated(p) == r
  {
    if previous == [] then None
    else if SamePort(previous[0], port) then Allocated(previous[0])
    else Before(previous[1..], port)
  }

  /** The first number of a range that is not used. */
  function LowestFree(used: set<int>, low: int, high: int): (r: Option<int>)
    ensures r.Some? ==> low <= r.value <= high && r.value !in used && forall n :: low <= n < r.value ==> n in used
    ensures r.None? ==> forall n :: low <= n <= high ==> n in used
    decreases high - low + 1
  {
    if low > high then None else if low !in used then Some(low) else LowestFree(used, low + 1, high)
  }

  /** The number a port asks for: the one it states, otherwise the one it had. */
  function Wanted(port: Port, previous: seq<Port>): Option<int> {
    if Allocated(port).Some? then Allocated(port) else Before(previous, port)
  }

  /** The port states another number than it had. */
  predicate Renumbered(port: Port, previous: seq<Port>) {
    Allocated(port).Some? && Before(previous, port).Some? && Before(previous, port) != Allocated(port)
  }

  /** The number one port gets, given those already used. */
  function Choose(port: Port, previous: seq<Port>, used: set<int>): Result<int, Problem> {
    if Renumbered(port, previous) then Err(PortChanged)
    else
      var wanted := Wanted(port, previous);
      if wanted.Some? then (if wanted.value in used then Err(PortTaken) else Ok(wanted.value))
      else
        var free := LowestFree(used, FIRST_PORT, LAST_PORT);
        if free.Some? then Ok(free.value) else Err(Exhausted)
  }

  /** Every port given its number, first to last, each number taken once. */
  function Numbered(ports: seq<Port>, previous: seq<Port>, used: set<int>): Result<seq<Port>, Problem> {
    if ports == [] then Ok([])
    else
      var init := Numbered(ports[..|ports| - 1], previous, used);
      if init.Err? then init
      else
        var last := ports[|ports| - 1];
        var n := Choose(last, previous, used + PortSet(init.value));
        if n.Err? then Err(n.error) else Ok(init.value + [last.(nodePort := Some(n.value))])
  }

  lemma PortSetGrows(ports: seq<Port>, port: Port)
    ensures PortSet(ports + [port]) == PortSet(ports) + (if Allocated(port).Some? then {Allocated(port).value} else {})
  {
    var more := ports + [port];
    forall n | n in PortSet(ports) ensures n in PortSet(more) {
      var i :| 0 <= i < |ports| && Allocated(ports[i]).Some? && n == Allocated(ports[i]).value;
      assert more[i] == ports[i];
    }
    if Allocated(port).Some? { assert more[|ports|] == port; }
  }

  predicate NodePortInRange(port: Port) {
    port.nodePort.Some? && FIRST_PORT <= port.nodePort.value <= LAST_PORT
  }

  ghost predicate InRange(ports: seq<Port>) {
    forall port :: port in ports ==> NodePortInRange(port)
  }

  ghost predicate Distinct(ports: seq<Port>) {
    forall i, j :: 0 <= i < j < |ports| ==> ports[i].nodePort != ports[j].nodePort
  }

  /** `after` is `port` with a number, the one it stated or had published if there was one. */
  ghost predicate Keeps(port: Port, after: Port, previous: seq<Port>) {
    && after == port.(nodePort := after.nodePort) && NodePortInRange(after)
    && (port.nodePort.Some? ==> after.nodePort == port.nodePort)
    && (Before(previous, port).Some? ==> after.nodePort == Before(previous, port))
  }

  lemma ChoiceKeeps(port: Port, previous: seq<Port>, used: set<int>)
    requires Choose(port, previous, used).Ok? && InRange(previous) && NodePortAllowed(NodePort, port)
    ensures var n := Choose(port, previous, used).value;
            n !in used && Keeps(port, port.(nodePort := Some(n)), previous)
  {
  }

  /** The allocation changes only node ports, and keeps what was stated or published before. */
  lemma {:induction false} NumberedKeeps(ports: seq<Port>, previous: seq<Port>, used: set<int>)
    requires Numbered(ports, previous, used).Ok? && InRange(previous)
    requires forall i :: 0 <= i < |ports| ==> NodePortAllowed(NodePort, ports[i])
    ensures var r := Numbered(ports, previous, used).value;
            |r| == |ports| && forall i :: 0 <= i < |r| ==> Keeps(ports[i], r[i], previous)
  {
    if ports != [] {
      var n := |ports| - 1;
      NumberedKeeps(ports[..n], previous, used);
      var init := Numbered(ports[..n], previous, used).value;
      ChoiceKeeps(ports[n], previous, used + PortSet(init));
      forall i | 0 <= i < n ensures Keeps(ports[i], init[i], previous) {
        assert ports[..n][i] == ports[i];
      }
    }
  }

  /** The allocation gives each port a number of its own that no other Service holds. */
  lemma {:induction false} NumberedDiffer(ports: seq<Port>, previous: seq<Port>, used: set<int>)
    requires Numbered(ports, previous, used).Ok? && InRange(previous)
    requires forall i :: 0 <= i < |ports| ==> NodePortAllowed(NodePort, ports[i])
    ensures var r := Numbered(ports, previous, used).value;
            InRange(r) && Distinct(r) && PortSet(r) !! used
  {
    if ports != [] {
      var n := |ports| - 1;
      NumberedDiffer(ports[..n], previous, used);
      var init := Numbered(ports[..n], previous, used).value;
      ChoiceKeeps(ports[n], previous, used + PortSet(init));
      var choice := Choose(ports[n], previous, used + PortSet(init)).value;
      NextDiffers(init, ports[n].(nodePort := Some(choice)), used);
    }
  }

  lemma NextDiffers(ports: seq<Port>, port: Port, used: set<int>)
    requires InRange(ports) && Distinct(ports) && PortSet(ports) !! used
    requires NodePortInRange(port) && port.nodePort.value !in used + PortSet(ports)
    ensures InRange(ports + [port]) && Distinct(ports + [port]) && PortSet(ports + [port]) !! used
  {
    PortSetGrows(ports, port);
    forall i | 0 <= i < |ports| ensures ports[i].nodePort != port.nodePort {
      assert NodePortInRange(ports[i]);
      assert ports[i].nodePort.value in PortSet(ports);
    }
  }

  /** Number the ports in place, first to last, marking each number used. */
  method NodePorts(ports: seq<Port>, previous: seq<Port>, others: set<int>) returns (r: Result<seq<Port>, Problem>)
    ensures r == Numbered(ports, previous, others)
  {
    var used := others;
    var done := [];
    for i := 0 to |ports|
      invariant Numbered(ports[..i], previous, others) == Ok(done)
      invariant used == others + PortSet(done)
    {
      assert ports[..i + 1][..i] == ports[..i];
      var before := Before(previous, ports[i]);
      var stated := Allocated(ports[i]);
      var selected;
      if stated.Some? {
        if before.Some? && before != stated {
          RefusedAt(ports, previous, others, i + 1);
          return Err(PortChanged);
        }
        selected := stated.value;
      } else if before.Some? {
        selected := before.value;
      } else {
        var free := LowestFree(used, FIRST_PORT, LAST_PORT);
        if free.None? {
          RefusedAt(ports, previous, others, i + 1);
          return Err(Exhausted);
        }
        selected := free.value;
      }
      if selected in used {
        RefusedAt(ports, previous, others, i + 1);
        return Err(PortTaken);
      }
      used := used + {selected};
      PortSetGrows(done, ports[i].(nodePort := Some(selected)));
      done := done + [ports[i].(nodePort := Some(selected))];
    }
    assert ports[..|ports|] == ports;
    return Ok(done);
  }

  /** A refusal at one port is the refusal of the whole list. */
  lemma {:induction false} RefusedAt(ports: seq<Port>, previous: seq<Port>, used: set<int>, k: nat)
    requires k <= |ports| && Numbered(ports[..k], previous, used).Err?
    ensures Numbered(ports, previous, used) == Numbered(ports[..k], previous, used)
    decreases |ports| - k
  {
    if k == |ports| {
      assert ports[..k] == ports;
    } else {
      assert ports[..k + 1][..k] == ports[..k];
      RefusedAt(ports, previous, used, k + 1);
    }
  }

  // ----- one write -----

  /** A field the request leaves out is copied from the stored Service. */
  function Inherit(spec: Spec, was: Spec): Spec {
    var ip := if spec.clusterIp == Absent then was.clusterIp else spec.clusterIp;
    var ips := if spec.clusterIps.None? then was.clusterIps else spec.clusterIps;
    var families := if spec.families.None? then was.families else spec.families;
    var policy := if spec.policy.None? then was.policy else spec.policy;
    spec.(clusterIp := ip, clusterIps := ips, families := families, policy := policy)
  }

  predicate SameIps(a: Spec, b: Spec) {
    a.clusterIp == b.clusterIp && a.clusterIps == b.clusterIps && a.families == b.families && a.policy == b.policy
  }

  /** What an update stores. */
  ghost function Updated(spec: Spec, was: Spec, others: set<int>): Result<Spec, Problem> {
    var next := Inherit(spec, was);
    if spec.kind != was.kind then Err(TypeChanged)
    else if !SameIps(next, was) then Err(IpChanged)
    else if spec.kind != NodePort then Ok(next)
    else
      var ports := Numbered(spec.ports, was.ports, others);
      if ports.Err? then Err(ports.error) else Ok(next.(ports := ports.value))
  }

  /** The address a new Service gets. */
  function ChosenIp(requested: Ip, used: set<int>): Result<Ip, Problem> {
    match requested
    case Headless => Ok(Headless)
    case Malformed(_) => Err(BadIp)
    case Address(n) =>
      if !(FIRST_IP <= n <= LAST_IP) then Err(IpOutside) else if n in used then Err(IpTaken) else Ok(requested)
    case _ =>
      var free := LowestFree(used, FIRST_IP, LAST_IP);
      if free.Some? then Ok(Address(free.value)) else Err(Exhausted)
  }

  /** What a create stores. */
  ghost function Created(spec: Spec, ips: set<int>, others: set<int>): Result<Spec, Problem> {
    if spec.kind == ExternalName then
      if spec.clusterIp !in {Absent, Empty} || (spec.clusterIps.Some? && spec.clusterIps.value != [])
      then Err(ExternalNameIp) else Ok(spec)
    else if (spec.policy.Some? && spec.policy.value != "SingleStack") ||
            (spec.families.Some? && spec.families.value != ["IPv4"]) then Err(NotSingleStack)
    else
      var ip := ChosenIp(spec.clusterIp, ips);
      if ip.Err? then Err(ip.error)
      else if spec.clusterIps.Some? && spec.clusterIps.value != [ip.value] then Err(IpsMismatch)
      else
        var next := spec.(clusterIp := ip.value, clusterIps := Some([ip.value]), families := Some(["IPv4"]),
                    policy := Some("SingleStack"));
        if spec.kind != NodePort then Ok(next)
        else
          var ports := Numbered(spec.ports, [], others);
          if ports.Err? then Err(ports.error) else Ok(next.(ports := ports.value))
  }

  /** Allocation on create. */
  method AssignNew(spec: Spec, ips: set<int>, others: set<int>) returns (r: Result<Spec, Problem>)
    ensures r == Created(spec, ips, others)
  {
    if spec.kind == ExternalName {
      if spec.clusterIp !in {Absent, Empty} || (spec.clusterIps.Some? && spec.clusterIps.value != []) {
        return Err(ExternalNameIp);
      }
      return Ok(spec);
    }
    if (spec.policy.Some? && spec.policy.value != "SingleStack") ||
       (spec.families.Some? && spec.families.value != ["IPv4"]) {
      return Err(NotSingleStack);
    }
    var ip := ChosenIp(spec.clusterIp, ips);
    if ip.Err? { return Err(ip.error); }
    if spec.clusterIps.Some? && spec.clusterIps.value != [ip.value] { return Err(IpsMismatch); }
    var value := spec.(clusterIp := ip.value, clusterIps := Some([ip.value]), families := Some(["IPv4"]),
                 policy := Some("SingleStack"));
    if value.kind == NodePort {
      var ports := NodePorts(value.ports, [], others);
      if ports.Err? { return Err(ports.error); }
      value := value.(ports := ports.value);
    }
    return Ok(value);
  }

  /** Allocation on update: addresses are immutable, node ports are kept. */
  method AssignExisting(spec: Spec, was: Spec, others: set<int>) returns (r: Result<Spec, Problem>)
    ensures r == Updated(spec, was, others)
  {
    if spec.kind != was.kind { return Err(TypeChanged); }
    var value := Inherit(spec, was);
    if !SameIps(value, was) { return Err(IpChanged); }
    if value.kind == NodePort {
      var ports := NodePorts(value.ports, was.ports, others);
      if ports.Err? { return Err(ports.error); }
      value := value.(ports := ports.value);
    }
    return Ok(value);
  }

  /** The address a create gives: the one asked for, none when headless, otherwise the lowest
      free one of the range; and the IP fields that go with it. */
  lemma NewAddress(spec: Spec, ips: set<int>, others: set<int>)
    requires spec.kind != ExternalName && Created(spec, ips, others).Ok?
    ensures var r := Created(spec, ips, others).value;
            && r.clusterIps == Some([r.clusterIp]) && r.families == Some(["IPv4"]) && r.policy == Some("SingleStack")
            && r.kind == spec.kind
            && match spec.clusterIp
               case Headless => r.clusterIp == Headless
               case Address(n) => r.clusterIp == Address(n) && n !in ips && FIRST_IP <= n <= LAST_IP
               case _ =>
                 && r.clusterIp.Address? && r.clusterIp.n !in ips && FIRST_IP <= r.clusterIp.n <= LAST_IP
                 && forall n :: FIRST_IP <= n < r.clusterIp.n ==> n in ips
  {
  }
}
