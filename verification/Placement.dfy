/** Where a Pod may run and which of the possible nodes it gets. */
module Placement {
  import opened Wrappers
  import Arithmetic
  import Quantity
  import KeyOrder

  const I64_MAX: int := Quantity.I64_MAX

  // ----- resources -----

  datatype Resources = Resources(cpu: int, memory: int, pods: int) {
    predicate Small() { cpu <= I64_MAX && memory <= I64_MAX && pods <= I64_MAX }
    predicate NonNegative() { cpu >= 0 && memory >= 0 && pods >= 0 }
    /** Exact sum. */
    function Plus(other: Resources): Resources {
      Resources(cpu + other.cpu, memory + other.memory, pods + other.pods)
    }
    /** Checked 64-bit sum; amounts are never negative. */
    function Add(other: Resources): Option<Resources> { if Plus(other).Small() then Some(Plus(other)) else None }
    predicate Fits(capacity: Resources) { cpu <= capacity.cpu && memory <= capacity.memory && pods <= capacity.pods }
  }

  const NOTHING := Resources(0, 0, 0)

  /** A 64-bit amount. */
  type Amount = n: int | 0 <= n <= I64_MAX

  /** One named amount of a container, an overhead or a node. */
  datatype Reading = Unnamed | Unreadable | Amount(n: Amount)

  /** How the text of a quantity is read; what it then means is Quantity.ScaledIsExact. */
  function Read(text: Option<string>, cpu: bool): Reading {
    if text.None? then Unnamed
    else if !Quantity.SyntaxValid(text.value) then Unreadable
    else
      AmountInRange(text.value, cpu);
      match Quantity.Scaled(text.value, cpu)
      case None => Unreadable
      case Some(n) => Amount(n)
  }

  lemma AmountInRange(text: string, cpu: bool)
    requires Quantity.SyntaxValid(text)
    ensures Quantity.Scaled(text, cpu).Some? ==> 0 <= Quantity.Scaled(text, cpu).value <= I64_MAX
  {
    Quantity.ScaledIsExact(text, cpu);
    var r, n, d := Quantity.Scaled(text, cpu).GetOr(0), Quantity.Numerator(text, cpu), Quantity.Denominator(text);
    var (mul, div) := Quantity.Factors(Quantity.Suffix(text)).value;
    NumeratorNonNegative(Quantity.Digits(Quantity.Whole(text)), Quantity.Pow10(|Quantity.Fraction(text)|),
                         Quantity.Digits(Quantity.Fraction(text)), mul, Quantity.Factor(cpu));
    if r < 0 { Arithmetic.MulOrder(r, -1, d); }
  }

  lemma NumeratorNonNegative(whole: nat, scale: nat, fraction: nat, mul: nat, factor: nat)
    ensures (whole * scale + fraction) * mul * factor >= 0
  {
  }

  /** The amounts of a request, a limit or an overhead; `other` when it names anything else. */
  datatype Amounts = Amounts(cpu: Reading, memory: Reading, other: bool)

  datatype Container = Container(requests: Amounts, limits: Amounts)

  /** What a Pod asks for: its containers and overhead, and whether it uses a resource feature
      the scheduler does not count. */
  datatype Demand = Demand(containers: seq<Container>, overhead: Amounts, uncounted: bool)

  /** The request, or the limit in its place, or nothing; never above the limit. */
  function Requested(request: Reading, limit: Reading): Option<Amount> {
    if request == Unreadable || limit == Unreadable then None
    else
      var n: Amount := if request.Amount? then request.n else if limit.Amount? then limit.n else 0;
      if limit.Amount? && n > limit.n then None else Some(n)
  }

  function ContainerDemand(c: Container): (r: Option<Resources>)
    ensures r.Some? ==> r.value.NonNegative() && r.value.pods == 0
  {
    var cpu := Requested(c.requests.cpu, c.limits.cpu);
    var memory := Requested(c.requests.memory, c.limits.memory);
    if c.requests.other || c.limits.other || cpu.None? || memory.None? then None
    else Some(Resources(cpu.value, memory.value, 0))
  }

  function Overhead(o: Amounts): (r: Option<Resources>)
    ensures r.Some? ==> r.value.NonNegative() && r.value.pods == 0
  {
    var cpu, memory := Requested(o.cpu, Unnamed), Requested(o.memory, Unnamed);
    if o.other || cpu.None? || memory.None? then None else Some(Resources(cpu.value, memory.value, 0))
  }

  /** The exact total of one Pod with these containers, when all of them are readable. */
  ghost function Total(cs: seq<Container>): (r: Option<Resources>)
    ensures r.Some? ==> r.value.NonNegative() && r.value.pods == 1
  {
    if cs == [] then Some(Resources(0, 0, 1))
    else
      var init := Total(cs[..|cs| - 1]);
      var last := ContainerDemand(cs[|cs| - 1]);
      if init.None? || last.None? then None else Some(init.value.Plus(last.value))
  }

  /** What a Pod asks for in all: known when everything it names is readable and the exact
      total fits 64 bits. */
  ghost function Demanded(d: Demand): (r: Option<Resources>)
    ensures r.Some? ==> r.value.NonNegative() && r.value.Small() && r.value.pods == 1
  {
    var total := Total(d.containers);
    var overhead := Overhead(d.overhead);
    if d.uncounted || d.containers == [] || total.None? || overhead.None? then None
    else total.value.Add(overhead.value)
  }

  /** More containers never make a total readable or smaller. */
  lemma {:induction false} TotalGrows(cs: seq<Container>, i: nat)
    requires i <= |cs| && Total(cs).Some?
    ensures Total(cs[..i]).Some? && Total(cs[..i]).value.Fits(Total(cs).value)
    decreases |cs| - i
  {
    if i == |cs| {
      assert cs[..i] == cs;
    } else {
      TotalGrows(cs, i + 1);
      assert cs[..i + 1][..i] == cs[..i];
    }
  }

  ghost predicate TotalFits(cs: seq<Container>) { Total(cs).Some? && Total(cs).value.Small() }

  lemma TooMuch(cs: seq<Container>, i: nat)
    requires i <= |cs| && TotalFits(cs)
    ensures TotalFits(cs[..i])
  {
    TotalGrows(cs, i);
  }

  /** Add up with checked arithmetic. Partial sums lose nothing: amounts are never negative. */
  method AddContainers(cs: seq<Container>) returns (r: Option<Resources>)
    ensures r.Some? <==> TotalFits(cs)
    ensures r.Some? ==> r == Total(cs)
  {
    var total := Resources(0, 0, 1);
    for i := 0 to |cs|
      invariant Total(cs[..i]) == Some(total) && total.Small()
    {
      assert cs[..i + 1][..i] == cs[..i];
      if TotalFits(cs) { TooMuch(cs, i + 1); }
      var one := ContainerDemand(cs[i]);
      if one.None? { return None; }
      var sum := total.Add(one.value);
      if sum.None? { return None; }
      total := sum.value;
    }
    assert cs[..|cs|] == cs;
    return Some(total);
  }

  method Requests(d: Demand) returns (r: Option<Resources>)
    ensures r == Demanded(d)
  {
    if d.uncounted || d.containers == [] { return None; }
    var total := AddContainers(d.containers);
    if total.None? { return None; }
    var overhead := Overhead(d.overhead);
    if overhead.None? { return None; }
    return total.value.Add(overhead.value);
  }

  // ----- Pods and nodes -----

  datatype Toleration = Toleration(key: string, operator: string, value: string, effect: string)
  datatype Taint = Taint(key: string, value: string, effect: string)
  datatype Requirement = Requirement(key: string, operator: string, values: seq<string>)
  datatype Term = Term(expressions: seq<Requirement>, fields: seq<Requirement>)
  datatype Preferred = Preferred(weight: int, term: Term)

  datatype Pod = Pod(uid: string, created: string, priority: int, nodeName: string, scheduler: string, deleting: bool,
                     phase: string, gated: bool, unsupported: bool, demand: Demand, tolerations: seq<Toleration>,
                     nodeSelector: map<string, string>, required: Option<seq<Term>>, preferred: seq<Preferred>)

  datatype Node = Node(name: string, uid: string, deleting: bool, unschedulable: bool, conditions: seq<(string, string)>,
                       labels: map<string, string>, taints: seq<Taint>, cpu: Reading, memory: Reading, pods: string)

  /** A heartbeat, times in milliseconds. */
  datatype Lease = Lease(name: string, holder: string, owner: string, renewed: Option<int>, seconds: int)

  predicate Terminal(p: Pod) { p.phase == "Succeeded" || p.phase == "Failed" }

  predicate Pending(p: Pod) {
    !p.deleting && p.nodeName == "" && p.scheduler in ["", "default-scheduler"] && !Terminal(p)
  }

  function Clamp(seconds: int): int { if seconds < 0 then 0 else if seconds > 40 then 40 else seconds }

  predicate Renewed(l: Lease, n: Node, now: int) {
    && l.name == n.name && l.holder == n.name && l.owner == n.uid && l.renewed.Some?
    && 0 <= now - l.renewed.value <= Clamp(l.seconds) * 1000 && Clamp(l.seconds) > 0
  }

  predicate Alive(n: Node, leases: seq<Lease>, now: int) {
    && !n.deleting && !n.unschedulable
    && ("Ready", "True") in n.conditions
    && (forall c :: c in n.conditions && c.0 in ["MemoryPressure", "DiskPressure", "PIDPressure", "NetworkUnavailable"]
          ==> c.1 == "False")
    && (exists l :: l in leases && Renewed(l, n, now))
  }

  predicate Tolerates(p: Pod, t: Taint) {
    exists v :: v in p.tolerations && TolerationMatches(v, t)
  }

  predicate TolerationMatches(v: Toleration, t: Taint) {
    && (v.effect == "" || v.effect == t.effect)
    && match v.operator
       case "Exists" => v.key == "" || v.key == t.key
       case "Equal" => v.key != "" && v.key == t.key && v.value == t.value
       case _ => false
  }

  /** Whole decimal text with an optional sign, within 64 bits. */
  function ParseI64(s: string): Option<int> {
    var negative := s != "" && s[0] == '-';
    var digits := if s != "" && s[0] in ['-', '+'] then s[1..] else s;
    var magnitude: int := Quantity.Digits(digits);
    var n := if negative then -magnitude else magnitude;
    if digits == "" || !Quantity.AllDigits(digits) || !(-I64_MAX - 1 <= n <= I64_MAX) then None else Some(n)
  }

  predicate Meets(r: Requirement, value: Option<string>) {
    match r.operator
    case "In" => r.values != [] && value.Some? && value.value in r.values
    case "NotIn" => r.values != [] && (value.None? || value.value !in r.values)
    case "Exists" => r.values == [] && value.Some?
    case "DoesNotExist" => r.values == [] && value.None?
    case "Gt" => Compares(r, value) && ParseI64(value.value).value > ParseI64(r.values[0]).value
    case "Lt" => Compares(r, value) && ParseI64(value.value).value < ParseI64(r.values[0]).value
    case _ => false
  }

  predicate Compares(r: Requirement, value: Option<string>) {
    |r.values| == 1 && value.Some? && ParseI64(value.value).Some? && ParseI64(r.values[0]).Some?
  }

  function Label(n: Node, key: string): Option<string> { if key in n.labels then Some(n.labels[key]) else None }

  predicate TermMatches(t: Term, n: Node) {
    && (t.expressions != [] || t.fields != [])
    && (forall r :: r in t.expressions ==> Meets(r, Label(n, r.key)))
    && (forall r :: r in t.fields ==> r.key == "metadata.name" && Meets(r, Some(n.name)))
  }

  /** The weight of the preferences a node satisfies; a weight out of range refuses the node. */
  ghost function Weight(preferred: seq<Preferred>, n: Node): (r: Option<int>)
    ensures r.Some? ==> 0 <= r.value <= 100 * |preferred|
  {
    if preferred == [] then Some(0)
    else
      var init := Weight(preferred[..|preferred| - 1], n);
      var last := preferred[|preferred| - 1];
      if init.None? || !(1 <= last.weight <= 100) then None
      else Some(init.value + (if TermMatches(last.term, n) then last.weight else 0))
  }

  lemma {:induction false} WeightGrows(preferred: seq<Preferred>, n: Node, i: nat)
    requires i <= |preferred| && Weight(preferred, n).Some?
    ensures Weight(preferred[..i], n).Some? && Weight(preferred[..i], n).value <= Weight(preferred, n).value
    decreases |preferred| - i
  {
    if i == |preferred| {
      assert preferred[..i] == preferred;
    } else {
      WeightGrows(preferred, n, i + 1);
      assert preferred[..i + 1][..i] == preferred[..i];
    }
  }

  predicate Selected(p: Pod, n: Node) {
    && (forall key :: key in p.nodeSelector ==> Label(n, key) == Some(p.nodeSelector[key]))
    && (p.required.Some? ==> exists t :: t in p.required.value && TermMatches(t, n))
  }

  ghost function Score(preferred: seq<Preferred>, n: Node): Option<int> {
    match Weight(preferred, n)
    case None => None
    case Some(w) => if w <= I64_MAX then Some(w) else None
  }

  ghost function PreferenceOf(p: Pod, n: Node): Option<int> {
    if Selected(p, n) then Score(p.preferred, n) else None
  }

  lemma ScoreGrows(preferred: seq<Preferred>, n: Node, i: nat)
    requires i <= |preferred| && Score(preferred, n).Some?
    ensures Score(preferred[..i], n).Some?
  {
    WeightGrows(preferred, n, i);
  }

  lemma OneMoreScore(preferred: seq<Preferred>, n: Node, i: nat, score: int)
    requires i < |preferred| && Score(preferred[..i], n) == Some(score)
    ensures Score(preferred[..i + 1], n) == AddScore(score, preferred[i], n)
  {
    assert preferred[..i + 1][..i] == preferred[..i];
  }

  /** One preference more: a weight out of range, or a sum beyond 64 bits, refuses the node. */
  function AddScore(score: int, preference: Preferred, n: Node): Option<int> {
    if !(1 <= preference.weight <= 100) then None
    else if !TermMatches(preference.term, n) then (if score <= I64_MAX then Some(score) else None)
    else if score + preference.weight > I64_MAX then None
    else Some(score + preference.weight)
  }

  method AddScores(preferred: seq<Preferred>, n: Node) returns (r: Option<int>)
    ensures r == Score(preferred, n)
  {
    var score := 0;
    for i := 0 to |preferred|
      invariant Score(preferred[..i], n) == Some(score)
    {
      OneMoreScore(preferred, n, i, score);
      var next := AddScore(score, preferred[i], n);
      if next.None? {
        if Score(preferred, n).Some? { ScoreGrows(preferred, n, i + 1); }
        return None;
      }
      score := next.value;
    }
    assert preferred[..|preferred|] == preferred;
    return Some(score);
  }

  method Affinity(p: Pod, n: Node) returns (r: Option<int>)
    ensures r == PreferenceOf(p, n)
  {
    var selected := Selected(p, n);
    if !selected { return None; }
    r := AddScores(p.preferred, n);
  }

  function Capacity(n: Node): (r: Option<Resources>)
    ensures r.Some? ==> r.value.NonNegative() && r.value.pods > 0
  {
    var pods := ParseI64(n.pods);
    if !n.cpu.Amount? || !n.memory.Amount? || pods.None? || pods.value <= 0 then None
    else Some(Resources(n.cpu.n, n.memory.n, pods.value))
  }

  // ----- what a node already holds -----

  predicate Resident(p: Pod, node: string) { p.nodeName == node && !Terminal(p) }

  /** The exact total of the Pods a node holds, when each one's demand is known. */
  ghost function Load(pods: seq<Pod>, node: string): (r: Option<Resources>)
    ensures r.Some? ==> r.value.NonNegative()
  {
    if pods == [] then Some(NOTHING)
    else
      var init := Load(pods[..|pods| - 1], node);
      var last := pods[|pods| - 1];
      if !Resident(last, node) then init
      else if init.None? || Demanded(last.demand).None? then None
      else Some(init.value.Plus(Demanded(last.demand).value))
  }

  ghost function Used(pods: seq<Pod>, node: string): (r: Option<Resources>)
    ensures r.Some? ==> r.value.NonNegative() && r.value.Small()
  {
    var load := Load(pods, node);
    if load.None? || !load.value.Small() then None else load
  }

  lemma {:induction false} LoadGrows(pods: seq<Pod>, node: string, i: nat)
    requires i <= |pods| && Load(pods, node).Some?
    ensures Load(pods[..i], node).Some? && Load(pods[..i], node).value.Fits(Load(pods, node).value)
    decreases |pods| - i
  {
    if i == |pods| {
      assert pods[..i] == pods;
    } else {
      LoadGrows(pods, node, i + 1);
      assert pods[..i + 1][..i] == pods[..i];
    }
  }

  method CountUsed(pods: seq<Pod>, node: string) returns (r: Option<Resources>)
    ensures r == Used(pods, node)
  {
    var sum := NOTHING;
    for i := 0 to |pods|
      invariant Load(pods[..i], node) == Some(sum) && sum.Small()
    {
      assert pods[..i + 1][..i] == pods[..i];
      if Resident(pods[i], node) {
        if Load(pods, node).Some? { LoadGrows(pods, node, i + 1); }
        var demand := Requests(pods[i].demand);
        if demand.None? { return None; }
        var next := sum.Add(demand.value);
        if next.None? { return None; }
        sum := next.value;
      }
    }
    assert pods[..|pods|] == pods;
    return Some(sum);
  }

  // ----- the choice -----

  /** What nodes are compared by: least unwanted, most preferred, emptiest, first by name. */
  datatype Rank = Rank(soft: nat, preference: int, pods: int, name: string)

  predicate Better(a: Rank, b: Rank) {
    || a.soft < b.soft
    || (a.soft == b.soft && a.preference > b.preference)
    || (a.soft == b.soft && a.preference == b.preference && a.pods < b.pods)
    || (a.soft == b.soft && a.preference == b.preference && a.pods == b.pods && KeyOrder.Less(a.name, b.name))
  }

  predicate Repels(p: Pod, n: Node) {
    exists t :: t in n.taints && t.effect in ["NoSchedule", "NoExecute"] && !Tolerates(p, t)
  }

  function SoftTaints(p: Pod, taints: seq<Taint>): nat {
    if taints == [] then 0
    else SoftTaints(p, taints[1..]) + (if taints[0].effect == "PreferNoSchedule" && !Tolerates(p, taints[0]) then 1 else 0)
  }

  /** Where a Pod could run at one moment. */
  datatype World = World(nodes: seq<Node>, leases: seq<Lease>, pods: seq<Pod>, now: int)

  /** A node can take the Pod: it is alive, wanted, not repelling, and what it holds plus what
      the Pod asks for is within what it offers. */
  ghost predicate Feasible(w: World, p: Pod, n: Node) {
    && Alive(n, w.leases, w.now) && n.name != "" && Capacity(n).Some? && PreferenceOf(p, n).Some? && !Repels(p, n)
    && Used(w.pods, n.name).Some? && Demanded(p.demand).Some?
    && Used(w.pods, n.name).value.Plus(Demanded(p.demand).value).Fits(Capacity(n).value)
  }

  ghost function RankOf(w: World, p: Pod, n: Node): Rank
    requires Feasible(w, p, n)
  {
    Rank(SoftTaints(p, n.taints), PreferenceOf(p, n).value, Used(w.pods, n.name).value.pods, n.name)
  }

  datatype Reason = SchedulingGated | UnsupportedScheduling | UnsupportedResources | Unschedulable

  ghost predicate BestAmong(w: World, p: Pod, nodes: seq<Node>, n: Node) {
    && n in nodes && Feasible(w, p, n)
    && forall m :: m in nodes && Feasible(w, p, m) ==> !Better(RankOf(w, p, m), RankOf(w, p, n))
  }

  ghost predicate NoneFeasible(w: World, p: Pod, nodes: seq<Node>) {
    forall m :: m in nodes ==> !Feasible(w, p, m)
  }

  /** The rank of one node, if it can take the Pod. */
  method Consider(w: World, p: Pod, requested: Resources, n: Node) returns (r: Option<Rank>)
    requires Demanded(p.demand) == Some(requested)
    ensures r.Some? <==> Feasible(w, p, n)
    ensures r.Some? ==> r.value == RankOf(w, p, n)
  {
    if !Alive(n, w.leases, w.now) || n.name == "" { return None; }
    var capacity := Capacity(n);
    if capacity.None? { return None; }
    var preference := Affinity(p, n);
    if preference.None? || Repels(p, n) { return None; }
    var used := CountUsed(w.pods, n.name);
    if used.None? { return None; }
    var after := used.value.Add(requested);
    CapacityIsSmall(n);
    if after.None? || !after.value.Fits(capacity.value) { return None; }
    return Some(Rank(SoftTaints(p, n.taints), preference.value, used.value.pods, n.name));
  }

  /** What fits a node fits 64 bits. */
  lemma CapacityIsSmall(n: Node)
    ensures Capacity(n).Some? ==> forall r: Resources :: r.Fits(Capacity(n).value) ==> r.Small()
  {
  }

  /** The ranks of the nodes that can take the Pod, in node order. */
  ghost function Ranks(w: World, p: Pod, nodes: seq<Node>): seq<Rank> {
    if nodes == [] then []
    else
      var init := Ranks(w, p, nodes[..|nodes| - 1]);
      var last := nodes[|nodes| - 1];
      if Feasible(w, p, last) then init + [RankOf(w, p, last)] else init
  }

  lemma {:induction false} RanksAreFeasible(w: World, p: Pod, nodes: seq<Node>)
    ensures forall m :: m in nodes && Feasible(w, p, m) ==> RankOf(w, p, m) in Ranks(w, p, nodes)
    ensures forall r :: r in Ranks(w, p, nodes) ==> exists m :: m in nodes && Feasible(w, p, m) && r == RankOf(w, p, m)
  {
    if nodes != [] {
      var init, last := nodes[..|nodes| - 1], nodes[|nodes| - 1];
      RanksAreFeasible(w, p, init);
      assert nodes == init + [last];
      forall r | r in Ranks(w, p, init) ensures exists m :: m in nodes && Feasible(w, p, m) && r == RankOf(w, p, m) {
        var m :| m in init && Feasible(w, p, m) && r == RankOf(w, p, m);
        assert m in nodes;
      }
    }
  }

  /** The first of the sorted choices. */
  function First(choices: seq<Rank>): (r: Rank)
    requires choices != []
    ensures r in choices
  {
    if |choices| == 1 then choices[0]
    else
      var rest := First(choices[1..]);
      if Better(rest, choices[0]) then rest else choices[0]
  }

  lemma {:induction false} FirstIsBest(choices: seq<Rank>)
    requires choices != []
    ensures forall r :: r in choices ==> !Better(r, First(choices))
  {
    KeyOrder.LessIrreflexive(choices[0].name);
    if |choices| > 1 {
      FirstIsBest(choices[1..]);
      var rest := First(choices[1..]);
      forall r | r in choices ensures !Better(r, First(choices)) {
        BestOfTwo(r, choices[0], rest);
        if r != choices[0] { assert r in choices[1..]; }
      }
    }
  }

  lemma BestOfTwo(r: Rank, head: Rank, rest: Rank)
    ensures Better(rest, head) ==> !Better(head, rest)
    ensures !Better(rest, head) && !Better(r, rest) ==> !Better(r, head)
  {
    if Better(rest, head) && Better(head, rest) {
      KeyOrder.LessTransitive(head.name, rest.name, head.name);
      KeyOrder.LessIrreflexive(head.name);
    }
    if !Better(rest, head) && !Better(r, rest) && Better(r, head) {
      KeyOrder.LessTotal(rest.name, r.name);
      if KeyOrder.Less(rest.name, r.name) && KeyOrder.Less(r.name, head.name) {
        KeyOrder.LessTransitive(rest.name, r.name, head.name);
      }
    }
  }

  /** The node a Pod gets is the best that can take it; otherwise the reason is exact. */
  ghost predicate Chosen(w: World, p: Pod, r: Result<string, Reason>) {
    match r
    case Ok(name) => exists n :: BestAmong(w, p, w.nodes, n) && name == n.name
    case Err(SchedulingGated) => p.gated
    case Err(UnsupportedScheduling) => !p.gated && p.unsupported
    case Err(UnsupportedResources) => !p.gated && !p.unsupported && Demanded(p.demand).None?
    case Err(Unschedulable) => !p.gated && !p.unsupported && Demanded(p.demand).Some? && NoneFeasible(w, p, w.nodes)
  }

  /** A supported, ungated Pod of known demand is unschedulable exactly when no node can take it. */
  lemma UnschedulableIff(w: World, p: Pod, r: Result<string, Reason>)
    requires Chosen(w, p, r) && !p.gated && !p.unsupported && Demanded(p.demand).Some?
    ensures r == Err(Unschedulable) <==> NoneFeasible(w, p, w.nodes)
  {
    if r.Ok? {
      var n :| BestAmong(w, p, w.nodes, n) && r.value == n.name;
    }
  }

  method Select(w: World, p: Pod) returns (r: Result<string, Reason>)
    ensures Chosen(w, p, r)
    ensures r.Ok? ==> !p.gated && !p.unsupported && Demanded(p.demand).Some?
  {
    if p.gated { return Err(SchedulingGated); }
    if p.unsupported { return Err(UnsupportedScheduling); }
    var requested := Requests(p.demand);
    if requested.None? { return Err(UnsupportedResources); }
    var choices := [];
    for i := 0 to |w.nodes|
      invariant choices == Ranks(w, p, w.nodes[..i])
    {
      assert w.nodes[..i + 1][..i] == w.nodes[..i];
      var rank := Consider(w, p, requested.value, w.nodes[i]);
      if rank.Some? { choices := choices + [rank.value]; }
    }
    assert w.nodes[..|w.nodes|] == w.nodes;
    RanksAreFeasible(w, p, w.nodes);
    if choices == [] { return Err(Unschedulable); }
    FirstChoice(w, p, choices);
    return Ok(First(choices).name);
  }

  lemma FirstChoice(w: World, p: Pod, choices: seq<Rank>)
    requires choices == Ranks(w, p, w.nodes) && choices != []
    ensures exists n :: BestAmong(w, p, w.nodes, n) && First(choices).name == n.name
    ensures !NoneFeasible(w, p, w.nodes)
  {
    RanksAreFeasible(w, p, w.nodes);
    FirstIsBest(choices);
    assert First(choices) in Ranks(w, p, w.nodes);
    var n :| n in w.nodes && Feasible(w, p, n) && First(choices) == RankOf(w, p, n);
    assert BestAmong(w, p, w.nodes, n);
  }
}
