/** A Service spec, and the strategy that checks it and fills in its defaults before anything is
    allocated. */
module ServiceStrategy {
  import opened Names
  import opened Wrappers

  const FIRST_PORT := 30000
  const LAST_PORT := 32767

  datatype Kind = ClusterIP | NodePort | LoadBalancer | ExternalName | Unsupported(name: string)

  datatype Ip = Absent | Empty | Headless | Address(n: int) | Malformed(text: string)

  datatype Target = Unset | Number(n: int) | Named(name: string)

  /** A Service port; an absent name or protocol is the empty one. */
  datatype Port = Port(name: string, port: int, protocol: string, target: Target, nodePort: Option<int>)

  /** The fields that only the strategy looks at. */
  datatype Options = Options(externalName: string, externalTraffic: string, healthCheckPort: int, affinity: string,
                             externalIps: bool, distribution: bool, internalTraffic: string)

  datatype Spec = Spec(kind: Kind, options: Options, clusterIp: Ip, clusterIps: Option<seq<Ip>>,
                       families: Option<seq<string>>, policy: Option<string>, ports: seq<Port>)

  datatype Problem =
    | BadType | BadExternalName | BadOption | HeadlessNodePort | NoPorts | BadPort | BadNames
    | TypeChanged | IpChanged | ExternalNameIp | NotSingleStack | BadIp | IpOutside | IpTaken | IpsMismatch
    | PortChanged | PortTaken | Exhausted | Exists | Missing

  function Default(text: string, fallback: string): string { if text == "" then fallback else text }

  function FilledOptions(o: Options): Options {
    o.(externalTraffic := Default(o.externalTraffic, "Cluster"), affinity := Default(o.affinity, "None"),
       internalTraffic := Default(o.internalTraffic, "Cluster"))
  }

  predicate OptionsAllowed(o: Options) {
    && o.externalTraffic == "Cluster" && o.healthCheckPort == 0 && o.affinity == "None"
    && !o.externalIps && !o.distribution && o.internalTraffic in {"Cluster", "Local"}
  }

  /** Zero node and target ports are the wire form of unset ones; an unset target is the port. */
  function Filled(port: Port): Port {
    port.(nodePort := if port.nodePort == Some(0) then None else port.nodePort,
          target := if port.target == Unset || port.target == Number(0) then Number(port.port) else port.target,
          protocol := Default(port.protocol, "TCP"))
  }

  predicate NodePortAllowed(kind: Kind, port: Port) {
    port.nodePort.None? || (kind == NodePort && FIRST_PORT <= port.nodePort.value <= LAST_PORT)
  }

  predicate PortAllowed(kind: Kind, port: Port) {
    && 1 <= port.port <= 65535 && NodePortAllowed(kind, port) && port.protocol in {"TCP", "UDP"}
    && match port.target
       case Number(n) => 1 <= n <= 65535
       case Named(name) => ValidLabelName(name)
       case Unset => false
  }

  predicate NameAllowed(multiple: bool, name: string) {
    if name == "" then !multiple else ValidLabelName(name)
  }

  ghost predicate NamesUnique(ports: seq<Port>) {
    forall i, j :: 0 <= i < j < |ports| ==> ports[i].name != ports[j].name
  }

  ghost predicate PortsAllowed(kind: Kind, ports: seq<Port>) {
    && ports != []
    && (forall i :: 0 <= i < |ports| ==> OneAllowed(kind, ports, i))
    && NamesUnique(ports)
  }

  ghost predicate SpecAllowed(spec: Spec) {
    match spec.kind
    case Unsupported(_) => false
    case ExternalName => ValidName(spec.options.externalName)
    case _ =>
      && OptionsAllowed(FilledOptions(spec.options))
      && !(spec.kind == NodePort && spec.clusterIp == Headless) && PortsAllowed(spec.kind, spec.ports)
  }

  ghost function Prepared(spec: Spec): Spec {
    if spec.kind == ExternalName then spec
    else
      spec.(options := FilledOptions(spec.options),
            ports := seq(|spec.ports|, i requires 0 <= i < |spec.ports| => Filled(spec.ports[i])))
  }

  /** What the allocator relies on. */
  lemma AllowedPorts(spec: Spec)
    requires SpecAllowed(spec) && spec.kind != ExternalName
    ensures var ports := Prepared(spec).ports;
            NamesUnique(ports) && forall i :: 0 <= i < |ports| ==> NodePortAllowed(spec.kind, ports[i])
  {
    var ports := Prepared(spec).ports;
    forall i | 0 <= i < |ports| ensures NodePortAllowed(spec.kind, ports[i]) && ports[i].name == spec.ports[i].name {
      assert OneAllowed(spec.kind, spec.ports, i);
    }
  }

  /** Check a spec and fill in its defaults. An ExternalName's ports are not looked at. */
  method Prepare(spec: Spec) returns (r: Result<Spec, Problem>)
    ensures r.Ok? <==> SpecAllowed(spec)
    ensures r.Ok? ==> r.value == Prepared(spec)
  {
    if spec.kind.Unsupported? { return Err(BadType); }
    if spec.kind == ExternalName {
      if !ValidName(spec.options.externalName) { return Err(BadExternalName); }
      return Ok(spec);
    }
    var options := FilledOptions(spec.options);
    if !OptionsAllowed(options) { return Err(BadOption); }
    if spec.kind == NodePort && spec.clusterIp == Headless { return Err(HeadlessNodePort); }
    if spec.ports == [] { return Err(NoPorts); }
    var ports := PreparePorts(spec.kind, spec.ports);
    if ports.Err? { return Err(ports.error); }
    return Ok(spec.(options := options, ports := ports.value));
  }

  method PreparePorts(kind: Kind, raw: seq<Port>) returns (r: Result<seq<Port>, Problem>)
    requires raw != []
    ensures r.Ok? <==> PortsAllowed(kind, raw)
    ensures r.Ok? ==> r.value == seq(|raw|, i requires 0 <= i < |raw| => Filled(raw[i]))
  {
    var ports := [];
    var names := {};
    for i := 0 to |raw|
      invariant Ready(kind, raw, i, ports, names)
    {
      var port := Filled(raw[i]);
      var problem := PortProblem(kind, raw, i, port, ports, names);
      if problem.Some? { return Err(problem.value); }
      ports := ports + [port];
      names := names + {port.name};
    }
    AllReady(kind, raw, ports, names);
    return Ok(ports);
  }

  method PortProblem(kind: Kind, raw: seq<Port>, i: nat, port: Port, ghost ports: seq<Port>, names: set<string>)
      returns (problem: Option<Problem>)
    requires Ready(kind, raw, i, ports, names) && i < |raw| && port == Filled(raw[i])
    ensures problem.None? ==> Ready(kind, raw, i + 1, ports + [port], names + {port.name})
    ensures problem.Some? ==> !PortsAllowed(kind, raw)
  {
    NextReady(kind, raw, i, ports, names);
    if !PortAllowed(kind, port) { return Some(BadPort); }
    if !NameAllowed(|raw| > 1, port.name) || port.name in names { return Some(BadNames); }
    return None;
  }

  predicate OneAllowed(kind: Kind, raw: seq<Port>, i: nat)
    requires i < |raw|
  {
    PortAllowed(kind, Filled(raw[i])) && NameAllowed(|raw| > 1, raw[i].name)
  }

  /** The first ports are allowed, and these are they with their defaults, and their names. */
  ghost predicate Ready(kind: Kind, raw: seq<Port>, i: nat, ports: seq<Port>, names: set<string>) {
    && i <= |raw| && |ports| == i
    && (forall k :: 0 <= k < i ==> ports[k] == Filled(raw[k]) && raw[k].name in names && OneAllowed(kind, raw, k))
    && (forall name :: name in names ==> exists k :: 0 <= k < i && raw[k].name == name)
    && NamesUnique(raw[..i])
  }

  lemma NextReady(kind: Kind, raw: seq<Port>, i: nat, ports: seq<Port>, names: set<string>)
    requires Ready(kind, raw, i, ports, names) && i < |raw|
    ensures OneAllowed(kind, raw, i) && raw[i].name !in names ==>
              Ready(kind, raw, i + 1, ports + [Filled(raw[i])], names + {raw[i].name})
    ensures raw[i].name in names || !OneAllowed(kind, raw, i) ==> !PortsAllowed(kind, raw)
  {
    assert raw[..i + 1] == raw[..i] + [raw[i]];
  }

  lemma AllReady(kind: Kind, raw: seq<Port>, ports: seq<Port>, names: set<string>)
    requires raw != [] && Ready(kind, raw, |raw|, ports, names)
    ensures PortsAllowed(kind, raw) && ports == seq(|raw|, i requires 0 <= i < |raw| => Filled(raw[i]))
  {
    assert raw[..|raw|] == raw;
  }
}
