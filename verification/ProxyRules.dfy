/** The packet filter rules a plan compiles to, and what they do to a packet. */
module ProxyRules {
  import opened Wrappers
  import opened Ipv4
  import opened OrderedSets
  import opened ProxyNetworks
  import opened ProxyBackends
  import opened ProxyPlan

  // ----- rules -----

  datatype Hook = Prerouting | Input | Forward | Output

  datatype Name =
    | NatHook(hook: Hook) | FilterHook(hook: Hook) | Postrouting
    | Services | ServiceChain(id: Id) | EndpointChain(id: Id, backend: Backend)

  datatype Match =
    | DestIp(ip: nat) | DestPort(protocol: Protocol, port: int) | L4(protocol: Protocol)
    | SourceIp(ip: nat) | SourceOutside(nets: seq<Net>)
    | OriginalIp(ip: nat) | OriginalPort(port: int)

  datatype Action =
    | Jump(name: Name)
    | Spread(modulus: nat, choices: map<nat, Name>)
    | Dnat(backend: Backend) | Reject | Drop | Masquerade

  datatype Rule = Rule(matches: seq<Match>, action: Action)

  type Ruleset = map<Name, seq<Rule>>

  // ----- evaluation -----

  /** A packet; `original` is where its connection was first sent when it was translated. */
  datatype Packet = Packet(source: nat, dest: nat, protocol: Protocol, port: int, original: Option<(nat, int)>)

  datatype Verdict = Pass | SentTo(backend: Backend) | Rejected | Dropped | Masqueraded

  predicate Inside(nets: seq<Net>, ip: nat) { exists net :: net in nets && IsNet(net) && Contains(net, ip) }

  predicate MatchOne(m: Match, p: Packet) {
    match m
    case DestIp(ip) => p.dest == ip
    case DestPort(protocol, port) => p.protocol == protocol && p.port == port
    case L4(protocol) => p.protocol == protocol
    case SourceIp(ip) => p.source == ip
    case SourceOutside(nets) => !Inside(nets, p.source)
    case OriginalIp(ip) => p.original.Some? && p.original.value.0 == ip
    case OriginalPort(port) => p.original.Some? && p.original.value.1 == port
  }

  predicate MatchAll(ms: seq<Match>, p: Packet) { forall i | 0 <= i < |ms| :: MatchOne(ms[i], p) }

  /** Run a list of rules: the first verdict counts, a chain that gives none returns to its
      caller. `draw` is the random number and `depth` how many more jumps may nest. */
  function RunRules(table: Ruleset, rules: seq<Rule>, p: Packet, draw: nat, depth: nat): Verdict
    decreases depth, |rules|, 1
  {
    if rules == [] then Pass
    else
      var v := if MatchAll(rules[0].matches, p) then Act(table, rules[0].action, p, draw, depth) else Pass;
      if v != Pass then v else RunRules(table, rules[1..], p, draw, depth)
  }

  function Act(table: Ruleset, action: Action, p: Packet, draw: nat, depth: nat): Verdict
    decreases depth, 0, 2
  {
    match action
    case Jump(name) => RunChain(table, name, p, draw, depth)
    case Spread(modulus, choices) =>
      if modulus > 0 && draw % modulus in choices then RunChain(table, choices[draw % modulus], p, draw, depth) else Pass
    case Dnat(b) => SentTo(b)
    case Reject => Rejected
    case Drop => Dropped
    case Masquerade => Masqueraded
  }

  function RunChain(table: Ruleset, name: Name, p: Packet, draw: nat, depth: nat): Verdict
    decreases depth, 0, 1
  {
    if depth == 0 || name !in table then Pass else RunRules(table, table[name], p, draw, depth - 1)
  }

  // ----- compiling a plan -----

  function Destined(f: Frontend): seq<Match> { [DestIp(f.ip), DestPort(f.protocol, f.port)] }

  /** Services with backends jump to their own chain. */
  function ServiceRule(f: Frontend): seq<Rule> {
    if f.backends == [] then [] else [Rule(Destined(f), Jump(ServiceChain(f.id)))]
  }

  /** Services without any are refused, or dropped when their traffic is local. */
  function RefuseRule(f: Frontend): seq<Rule> {
    if f.backends != [] then [] else [Rule(Destined(f), if f.local then Drop else Reject)]
  }

  function Originally(f: Frontend): seq<Match> { [OriginalIp(f.ip), L4(f.protocol), OriginalPort(f.port)] }

  function HairpinRule(f: Frontend, b: Backend): Rule {
    Rule(Originally(f) + [SourceIp(b.ip), DestIp(b.ip), DestPort(f.protocol, b.port)], Masquerade)
  }

  function HairpinRules(f: Frontend, bs: seq<Backend>): seq<Rule> {
    if bs == [] then [] else HairpinRules(f, bs[..|bs| - 1]) + [HairpinRule(f, bs[|bs| - 1])]
  }

  /** Translated connections from outside the Pod networks, or from a backend to itself, are masqueraded. */
  function MasqueradeRules(f: Frontend, nets: seq<Net>): seq<Rule> {
    if f.backends == [] then []
    else [Rule(Originally(f) + [SourceOutside(nets)], Masquerade)] + HairpinRules(f, f.backends)
  }

  function Masking(nets: seq<Net>): Frontend -> seq<Rule> {
    (f: Frontend) => MasqueradeRules(f, nets)
  }

  function Choices(f: Frontend, k: nat): map<nat, Name>
    requires k <= |f.backends|
  {
    map i | 0 <= i < k :: EndpointChain(f.id, f.backends[i])
  }

  function ChainRules(f: Frontend): seq<Rule>
    requires f.backends != []
  {
    [Rule([], if |f.backends| == 1 then Jump(EndpointChain(f.id, f.backends[0]))
              else Spread(|f.backends|, Choices(f, |f.backends|)))]
  }

  function EndpointRules(f: Frontend, b: Backend): seq<Rule> { [Rule([L4(f.protocol)], Dnat(b))] }

  /** The rules every frontend gives, one after another. */
  function Each(fs: seq<Frontend>, rules: Frontend -> seq<Rule>): seq<Rule> {
    if fs == [] then [] else Each(fs[..|fs| - 1], rules) + rules(fs[|fs| - 1])
  }

  ghost predicate HasChains(table: Ruleset, f: Frontend) {
    f.backends != [] ==>
      && ServiceChain(f.id) in table && table[ServiceChain(f.id)] == ChainRules(f)
      && forall b :: b in f.backends ==> EndpointChain(f.id, b) in table && table[EndpointChain(f.id, b)] == EndpointRules(f, b)
  }

  ghost predicate Base(table: Ruleset, plan: Plan) {
    && (forall hook :: hook in {Prerouting, Output} ==> NatHook(hook) in table && table[NatHook(hook)] == [Rule([], Jump(Services))])
    && (forall hook :: hook in {Input, Forward, Output} ==>
          FilterHook(hook) in table && table[FilterHook(hook)] == Each(plan.services, RefuseRule))
    && Services in table && table[Services] == Each(plan.services, ServiceRule)
    && Postrouting in table && table[Postrouting] == Each(plan.services, Masking(plan.podCidrs))
  }

  /** The rules of a plan. */
  ghost predicate Rendered(table: Ruleset, plan: Plan) {
    Base(table, plan) && forall f :: f in plan.services ==> HasChains(table, f)
  }

  /** Chains that belong to one frontend. */
  predicate Owns(f: Frontend, name: Name) {
    name == ServiceChain(f.id) || (name.EndpointChain? && name.id == f.id)
  }

  /** Two tables that differ at most in the chains of `f`. */
  ghost predicate SameBut(f: Frontend, a: Ruleset, b: Ruleset) {
    forall name :: !Owns(f, name) ==> (name in a <==> name in b) && (name in a ==> a[name] == b[name])
  }

  method AddChains(table: Ruleset, f: Frontend) returns (t: Ruleset)
    ensures SameBut(f, table, t) && HasChains(t, f)
  {
    t := table;
    if f.backends == [] { return; }
    t := t[ServiceChain(f.id) := ChainRules(f)];
    for i := 0 to |f.backends|
      invariant SameBut(f, table, t) && ServiceChain(f.id) in t && t[ServiceChain(f.id)] == ChainRules(f)
      invariant forall k :: 0 <= k < i ==>
                  EndpointChain(f.id, f.backends[k]) in t && t[EndpointChain(f.id, f.backends[k])] == EndpointRules(f, f.backends[k])
    {
      t := t[EndpointChain(f.id, f.backends[i]) := EndpointRules(f, f.backends[i])];
    }
  }

  lemma OthersKeepChains(a: Ruleset, b: Ruleset, f: Frontend, g: Frontend)
    requires SameBut(f, a, b) && f.id != g.id && HasChains(a, g)
    ensures HasChains(b, g)
  {
    assert !Owns(f, ServiceChain(g.id));
    forall x | x in g.backends ensures !Owns(f, EndpointChain(g.id, x)) {
    }
  }

  method EachRules(fs: seq<Frontend>, rules: Frontend -> seq<Rule>) returns (out: seq<Rule>)
    ensures out == Each(fs, rules)
  {
    out := [];
    for i := 0 to |fs|
      invariant out == Each(fs[..i], rules)
    {
      assert fs[..i + 1][..i] == fs[..i];
      out := out + rules(fs[i]);
    }
    assert fs[..|fs|] == fs;
  }

  /** Write the rules of a plan whose frontends have identities of their own. */
  method Render(plan: Plan) returns (table: Ruleset)
    requires DistinctIds(plan.services)
    ensures Rendered(table, plan)
  {
    var services := EachRules(plan.services, ServiceRule);
    var refuse := EachRules(plan.services, RefuseRule);
    var masquerade := EachRules(plan.services, Masking(plan.podCidrs));
    table := map[
      NatHook(Prerouting) := [Rule([], Jump(Services))], NatHook(Output) := [Rule([], Jump(Services))],
      Services := services,
      FilterHook(Input) := refuse, FilterHook(Forward) := refuse, FilterHook(Output) := refuse,
      Postrouting := masquerade];
    for i := 0 to |plan.services|
      invariant Base(table, plan) && forall k :: 0 <= k < i ==> HasChains(table, plan.services[k])
    {
      var more := AddChains(table, plan.services[i]);
      BaseKept(table, more, plan, plan.services[i]);
      forall k | 0 <= k < i ensures HasChains(more, plan.services[k]) {
        OthersKeepChains(table, more, plan.services[i], plan.services[k]);
      }
      table := more;
    }
  }

  lemma BaseKept(a: Ruleset, b: Ruleset, plan: Plan, f: Frontend)
    requires SameBut(f, a, b) && Base(a, plan)
    ensures Base(b, plan)
  {
    forall hook: Hook ensures !Owns(f, NatHook(hook)) && !Owns(f, FilterHook(hook)) {
    }
    assert !Owns(f, Services) && !Owns(f, Postrouting);
  }

  // ----- what the rules do -----

  lemma {:induction false} RunAppend(table: Ruleset, a: seq<Rule>, b: seq<Rule>, p: Packet, draw: nat, depth: nat)
    ensures RunRules(table, a + b, p, draw, depth)
            == if RunRules(table, a, p, draw, depth) != Pass then RunRules(table, a, p, draw, depth)
               else RunRules(table, b, p, draw, depth)
  {
    if a == [] {
      assert a + b == b;
    } else {
      assert (a + b)[1..] == a[1..] + b;
      RunAppend(table, a[1..], b, p, draw, depth);
    }
  }

  /** Where no frontend's rules have a verdict, all of them together have none. */
  lemma {:induction false} EachPasses(table: Ruleset, fs: seq<Frontend>, rules: Frontend -> seq<Rule>, p: Packet, draw: nat, depth: nat)
    requires forall f :: f in fs ==> RunRules(table, rules(f), p, draw, depth) == Pass
    ensures RunRules(table, Each(fs, rules), p, draw, depth) == Pass
  {
    if fs != [] {
      var init, last := fs[..|fs| - 1], fs[|fs| - 1];
      EachPasses(table, init, rules, p, draw, depth);
      RunAppend(table, Each(init, rules), rules(last), p, draw, depth);
    }
  }

  /** Where all but one give no verdict, that one decides. */
  lemma {:induction false} OneDecides(table: Ruleset, fs: seq<Frontend>, k: nat, rules: Frontend -> seq<Rule>, p: Packet, draw: nat, depth: nat)
    requires k < |fs| && forall i :: 0 <= i < |fs| && i != k ==> RunRules(table, rules(fs[i]), p, draw, depth) == Pass
    ensures RunRules(table, Each(fs, rules), p, draw, depth) == RunRules(table, rules(fs[k]), p, draw, depth)
  {
    var n := |fs| - 1;
    RunAppend(table, Each(fs[..n], rules), rules(fs[n]), p, draw, depth);
    if k == n {
      EachPasses(table, fs[..n], rules, p, draw, depth);
    } else {
      OneDecides(table, fs[..n], k, rules, p, draw, depth);
    }
  }

  predicate Aims(p: Packet, f: Frontend) { p.dest == f.ip && p.protocol == f.protocol && p.port == f.port }

  lemma Destination(f: Frontend, p: Packet)
    ensures MatchAll(Destined(f), p) <==> Aims(p, f)
  {
    assert Destined(f)[0] == DestIp(f.ip) && Destined(f)[1] == DestPort(f.protocol, f.port);
  }

  lemma OneRule(table: Ruleset, r: Rule, p: Packet, draw: nat, depth: nat)
    ensures RunRules(table, [r], p, draw, depth)
            == if MatchAll(r.matches, p) then Act(table, r.action, p, draw, depth) else Pass
  {
    assert [r][1..] == [];
  }

  /** The rule a frontend has in the dispatch chain. */
  lemma ServiceRuleRuns(table: Ruleset, f: Frontend, p: Packet, draw: nat, depth: nat)
    ensures RunRules(table, ServiceRule(f), p, draw, depth)
            == if f.backends != [] && Aims(p, f) then RunChain(table, ServiceChain(f.id), p, draw, depth) else Pass
  {
    Destination(f, p);
    if f.backends != [] { OneRule(table, ServiceRule(f)[0], p, draw, depth); }
  }

  lemma RefuseRuleRuns(table: Ruleset, f: Frontend, p: Packet, draw: nat, depth: nat)
    ensures RunRules(table, RefuseRule(f), p, draw, depth)
            == if f.backends == [] && Aims(p, f) then (if f.local then Dropped else Rejected) else Pass
  {
    Destination(f, p);
    if f.backends == [] { OneRule(table, RefuseRule(f)[0], p, draw, depth); }
  }

  lemma EndpointRuns(table: Ruleset, f: Frontend, b: Backend, p: Packet, draw: nat, depth: nat)
    requires HasChains(table, f) && b in f.backends && Aims(p, f) && depth >= 1
    ensures RunChain(table, EndpointChain(f.id, b), p, draw, depth) == SentTo(b)
  {
    OneRule(table, EndpointRules(f, b)[0], p, draw, depth - 1);
  }

  /** A frontend's chain sends a packet to the backend the random number picks. */
  lemma ServiceChainRuns(table: Ruleset, f: Frontend, p: Packet, draw: nat, depth: nat)
    requires HasChains(table, f) && f.backends != [] && Aims(p, f) && depth >= 2
    ensures RunChain(table, ServiceChain(f.id), p, draw, depth) == SentTo(f.backends[draw % |f.backends|])
  {
    var n := |f.backends|;
    var rules := ChainRules(f);
    EndpointRuns(table, f, f.backends[draw % n], p, draw, depth - 1);
    OneRule(table, rules[0], p, draw, depth - 1);
    if n > 1 {
      assert draw % n in Choices(f, n);
      assert Act(table, Spread(n, Choices(f, n)), p, draw, depth - 1) == SentTo(f.backends[draw % n]);
    }
  }

  /** The address, port and protocol of at most one frontend. */
  lemma OnlyOneAims(plan: Plan, k: nat, i: nat, p: Packet)
    requires DistinctTuples(plan.services) && k < |plan.services| && i < |plan.services| && i != k && Aims(p, plan.services[k])
    ensures !Aims(p, plan.services[i])
  {
    assert TupleOf(plan.services[if i < k then i else k]) != TupleOf(plan.services[if i < k then k else i]);
  }

  lemma HookRuns(table: Ruleset, plan: Plan, hook: Hook, p: Packet, draw: nat, depth: nat)
    requires Base(table, plan) && hook in {Prerouting, Output} && depth >= 2
    ensures RunChain(table, NatHook(hook), p, draw, depth)
            == RunRules(table, Each(plan.services, ServiceRule), p, draw, depth - 2)
  {
    OneRule(table, Rule([], Jump(Services)), p, draw, depth - 1);
  }

  /** A packet for a frontend goes to the backend its random number picks; without backends it
      is not translated. */
  lemma PacketIsForwarded(table: Ruleset, plan: Plan, k: nat, hook: Hook, p: Packet, draw: nat, depth: nat)
    requires Rendered(table, plan) && DistinctTuples(plan.services) && k < |plan.services| && Aims(p, plan.services[k])
    requires hook in {Prerouting, Output} && depth >= 4
    ensures var f := plan.services[k];
            RunChain(table, NatHook(hook), p, draw, depth)
            == if f.backends == [] then Pass else SentTo(f.backends[draw % |f.backends|])
  {
    var f := plan.services[k];
    forall i | 0 <= i < |plan.services| && i != k
      ensures RunRules(table, ServiceRule(plan.services[i]), p, draw, depth - 2) == Pass
    {
      OnlyOneAims(plan, k, i, p);
      ServiceRuleRuns(table, plan.services[i], p, draw, depth - 2);
    }
    OneDecides(table, plan.services, k, ServiceRule, p, draw, depth - 2);
    ServiceRuleRuns(table, f, p, draw, depth - 2);
    if f.backends != [] { ServiceChainRuns(table, f, p, draw, depth - 2); }
    HookRuns(table, plan, hook, p, draw, depth);
  }

  /** The random numbers below the number of backends pick every backend exactly once. */
  lemma EveryBackendIsPickedOnce(f: Frontend, b: Backend) returns (k: nat)
    requires Increasing(f.backends, BackendKey) && b in f.backends
    ensures k < |f.backends| && f.backends[k % |f.backends|] == b
    ensures forall j: nat :: j < |f.backends| && f.backends[j % |f.backends|] == b ==> j == k
  {
    k :| k < |f.backends| && f.backends[k] == b;
    forall j: nat | j < |f.backends| && f.backends[j % |f.backends|] == b ensures j == k {
      SmallMod(j, |f.backends|);
    }
    SmallMod(k, |f.backends|);
  }

  lemma SmallMod(j: nat, n: nat)
    requires j < n
    ensures j % n == j
  {
  }

  /** A packet for a frontend without backends is refused in all three filter hooks, or
      dropped when its traffic is local; one with backends passes them. */
  lemma PacketIsRefused(table: Ruleset, plan: Plan, k: nat, hook: Hook, p: Packet, draw: nat, depth: nat)
    requires Rendered(table, plan) && DistinctTuples(plan.services) && k < |plan.services| && Aims(p, plan.services[k])
    requires hook in {Input, Forward, Output} && depth >= 1
    ensures var f := plan.services[k];
            RunChain(table, FilterHook(hook), p, draw, depth)
            == if f.backends != [] then Pass else if f.local then Dropped else Rejected
  {
    forall i | 0 <= i < |plan.services| && i != k
      ensures RunRules(table, RefuseRule(plan.services[i]), p, draw, depth - 1) == Pass
    {
      OnlyOneAims(plan, k, i, p);
      RefuseRuleRuns(table, plan.services[i], p, draw, depth - 1);
    }
    OneDecides(table, plan.services, k, RefuseRule, p, draw, depth - 1);
    RefuseRuleRuns(table, plan.services[k], p, draw, depth - 1);
  }

  /** A packet for no frontend passes untouched everywhere. */
  lemma OtherPacketsPass(table: Ruleset, plan: Plan, p: Packet, draw: nat, depth: nat)
    requires Rendered(table, plan) && depth >= 2 && forall f :: f in plan.services ==> !Aims(p, f)
    ensures forall hook :: hook in {Prerouting, Output} ==> RunChain(table, NatHook(hook), p, draw, depth) == Pass
    ensures forall hook :: hook in {Input, Forward, Output} ==> RunChain(table, FilterHook(hook), p, draw, depth) == Pass
  {
    forall f | f in plan.services
      ensures RunRules(table, ServiceRule(f), p, draw, depth - 2) == Pass && RunRules(table, RefuseRule(f), p, draw, depth - 1) == Pass
    {
      ServiceRuleRuns(table, f, p, draw, depth - 2);
      RefuseRuleRuns(table, f, p, draw, depth - 1);
    }
    EachPasses(table, plan.services, ServiceRule, p, draw, depth - 2);
    EachPasses(table, plan.services, RefuseRule, p, draw, depth - 1);
    forall hook | hook in {Prerouting, Output} ensures RunChain(table, NatHook(hook), p, draw, depth) == Pass {
      HookRuns(table, plan, hook, p, draw, depth);
    }
  }

  // ----- masquerading -----

  /** A connection first sent to this frontend. */
  predicate CameFor(p: Packet, f: Frontend) { p.original == Some((f.ip, f.port)) && p.protocol == f.protocol }

  /** A packet a backend sends to itself. */
  predicate Hairpin(p: Packet, bs: seq<Backend>) { p.source == p.dest && exists b :: b in bs && b.ip == p.dest && b.port == p.port }

  lemma OriginallyMatches(f: Frontend, more: seq<Match>, p: Packet)
    ensures MatchAll(Originally(f) + more, p) <==> CameFor(p, f) && MatchAll(more, p)
  {
    var ms := Originally(f) + more;
    assert ms[0] == OriginalIp(f.ip) && ms[1] == L4(f.protocol) && ms[2] == OriginalPort(f.port);
    forall i | 0 <= i < |more| ensures ms[i + 3] == more[i] {
    }
    if MatchAll(ms, p) {
      assert MatchOne(ms[0], p) && MatchOne(ms[1], p) && MatchOne(ms[2], p);
      forall i | 0 <= i < |more| ensures MatchOne(more[i], p) { assert MatchOne(ms[i + 3], p); }
    }
    if CameFor(p, f) && MatchAll(more, p) {
      forall i | 0 <= i < |ms| ensures MatchOne(ms[i], p) {
        if i >= 3 { assert MatchOne(more[i - 3], p); }
      }
    }
  }

  lemma {:induction false} HairpinRulesRun(table: Ruleset, f: Frontend, bs: seq<Backend>, p: Packet, draw: nat, depth: nat)
    ensures RunRules(table, HairpinRules(f, bs), p, draw, depth) == if CameFor(p, f) && Hairpin(p, bs) then Masqueraded else Pass
  {
    if bs != [] {
      var init, b := bs[..|bs| - 1], bs[|bs| - 1];
      HairpinRulesRun(table, f, init, p, draw, depth);
      RunAppend(table, HairpinRules(f, init), [HairpinRule(f, b)], p, draw, depth);
      var more := [SourceIp(b.ip), DestIp(b.ip), DestPort(f.protocol, b.port)];
      OriginallyMatches(f, more, p);
      assert more[0] == SourceIp(b.ip) && more[1] == DestIp(b.ip) && more[2] == DestPort(f.protocol, b.port);
      assert [HairpinRule(f, b)][1..] == [];
      assert bs == init + [b];
    }
  }

  lemma MasqueradeRulesRun(table: Ruleset, f: Frontend, nets: seq<Net>, p: Packet, draw: nat, depth: nat)
    ensures RunRules(table, MasqueradeRules(f, nets), p, draw, depth)
            == if Hidden(p, f, nets) then Masqueraded else Pass
  {
    if f.backends != [] {
      var first := Rule(Originally(f) + [SourceOutside(nets)], Masquerade);
      OriginallyMatches(f, [SourceOutside(nets)], p);
      assert [SourceOutside(nets)][0] == SourceOutside(nets);
      HairpinRulesRun(table, f, f.backends, p, draw, depth);
      RunAppend(table, [first], HairpinRules(f, f.backends), p, draw, depth);
      assert [first][1..] == [];
    }
  }

  /** Whether a packet's source is hidden: a connection this frontend translated, from outside
      every Pod network or from the backend itself. */
  predicate Hidden(p: Packet, f: Frontend, nets: seq<Net>) {
    f.backends != [] && CameFor(p, f) && (!Inside(nets, p.source) || Hairpin(p, f.backends))
  }

  /** The packet is translated for one of the frontends and its origin must be hidden. */
  ghost predicate AnyHidden(fs: seq<Frontend>, nets: seq<Net>, p: Packet) {
    exists f :: f in fs && Hidden(p, f, nets)
  }

  lemma {:induction false} EachMasquerades(table: Ruleset, fs: seq<Frontend>, nets: seq<Net>, p: Packet, draw: nat, depth: nat)
    ensures RunRules(table, Each(fs, Masking(nets)), p, draw, depth)
            == if AnyHidden(fs, nets, p) then Masqueraded else Pass
  {
    if fs != [] {
      var init, last := fs[..|fs| - 1], fs[|fs| - 1];
      EachMasquerades(table, init, nets, p, draw, depth);
      MasqueradeRulesRun(table, last, nets, p, draw, depth);
      RunAppend(table, Each(init, Masking(nets)), Masking(nets)(last), p, draw, depth);
      OneMoreHidden(init, last, nets, p);
      assert fs == init + [last];
    }
  }

  lemma OneMoreHidden(fs: seq<Frontend>, last: Frontend, nets: seq<Net>, p: Packet)
    ensures AnyHidden(fs + [last], nets, p) <==> AnyHidden(fs, nets, p) || Hidden(p, last, nets)
  {
    assert last in fs + [last];
    assert forall f :: f in fs ==> f in fs + [last];
  }

  /** Exactly the connections this table translated are masqueraded, and only when they come
      from outside every Pod network or from the backend itself. */
  lemma MasqueradesExactly(table: Ruleset, plan: Plan, p: Packet, draw: nat, depth: nat)
    requires Rendered(table, plan) && depth >= 1
    ensures RunChain(table, Postrouting, p, draw, depth)
            == if AnyHidden(plan.services, plan.podCidrs, p) then Masqueraded else Pass
  {
    EachMasquerades(table, plan.services, plan.podCidrs, p, draw, depth - 1);
  }

  // ----- from a snapshot to a packet -----

  /** The frontend of a forwarded port is in the plan with the port's backends, in order. */
  lemma PlannedFrontend(services: seq<Service>, slices: seq<Slice>, nodes: seq<Node>, name: string, digest: Digest, plan: Plan,
                        d: Wanted, f: Frontend)
      returns (k: nat)
    requires Injective(digest) && SnapshotGood(services, slices, nodes, name)
    requires PlanOf(plan, services, slices, nodes, name, digest)
    requires d in AllWanted(services)
    requires var c := ContextOf(slices, nodes, name); f in PortFrontends(c, d, InOrder(BackendSet(c, d)))
    ensures k < |plan.services| && plan.services[k] == f && Distinct(plan.services)
  {
    var c := ContextOf(slices, nodes, name);
    FrontendsAreExact(c, AllWanted(services), f);
    PlannedFrontends(services, slices, nodes, name, digest, plan);
    k :| k < |plan.services| && plan.services[k] == f;
  }

  /** A packet for a forwarded port: its Service's address and port, or, for a NodePort
      Service, an address of this node and the node port. */
  predicate ToCluster(d: Wanted, p: Packet) {
    d.service.address == Ip(p.dest) && p.port == d.port.port && Some(p.protocol) == ParseProtocol(d.port.protocol)
  }

  predicate ToNode(c: Context, d: Wanted, p: Packet) {
    && d.service.kind == "NodePort" && p.dest in c.ips && d.port.nodePort == Some(p.port)
    && Some(p.protocol) == ParseProtocol(d.port.protocol)
  }

  lemma FrontendFor(c: Context, d: Wanted, backends: seq<Backend>, p: Packet) returns (f: Frontend)
    requires WantedGood(c, d) && (ToCluster(d, p) || ToNode(c, d, p))
    ensures f in PortFrontends(c, d, backends) && Aims(p, f) && f.backends == backends
    ensures f.local <==> ToCluster(d, p) && d.service.internalPolicy == "Local"
  {
    var protocol := ParseProtocol(d.port.protocol).value;
    if ToCluster(d, p) {
      f := ClusterFrontend(d, protocol, backends);
      assert PortFrontends(c, d, backends)[0] == f;
    } else {
      f := NodeFrontend(d, protocol, p.dest, backends);
      var k :| 0 <= k < |c.ips| && c.ips[k] == p.dest;
      assert NodeFrontends(d, protocol, c.ips, backends)[k] == f;
      assert PortFrontends(c, d, backends)[k + 1] == f;
    }
  }

  /** Every frontend stands for the packets of its port and no others. */
  lemma FrontendIsFor(c: Context, d: Wanted, backends: seq<Backend>, f: Frontend, p: Packet)
    requires f in PortFrontends(c, d, backends) && Aims(p, f)
    ensures ToCluster(d, p) || ToNode(c, d, p)
  {
    var protocol := ParseProtocol(d.port.protocol).value;
    if f != ClusterFrontend(d, protocol, backends) {
      var k :| 0 <= k < |c.ips| && NodeFrontends(d, protocol, c.ips, backends)[k] == f;
    }
  }

  /** A packet for a forwarded Service port, at its cluster address or a node address, is sent
      to one of the ready endpoints the slices list for that port; when they list none it is
      not translated and is refused, or dropped when it is local cluster traffic. */
  lemma ServiceTrafficReachesItsEndpoints(services: seq<Service>, slices: seq<Slice>, nodes: seq<Node>, name: string,
                                          digest: Digest, plan: Plan, table: Ruleset, d: Wanted,
                                          p: Packet, draw: nat, depth: nat)
    requires Injective(digest) && SnapshotGood(services, slices, nodes, name)
    requires PlanOf(plan, services, slices, nodes, name, digest) && Rendered(table, plan)
    requires d in AllWanted(services) && depth >= 4
    requires ToCluster(d, p) || ToNode(ContextOf(slices, nodes, name), d, p)
    ensures var backends := BackendSet(ContextOf(slices, nodes, name), d);
            && (forall hook :: hook in {Prerouting, Output} ==>
                  match RunChain(table, NatHook(hook), p, draw, depth)
                  case SentTo(b) => b in backends
                  case v => v == Pass && backends == {})
            && (forall hook :: hook in {Input, Forward, Output} ==>
                  RunChain(table, FilterHook(hook), p, draw, depth)
                  == if backends != {} then Pass
                     else if ToCluster(d, p) && d.service.internalPolicy == "Local" then Dropped else Rejected)
  {
    var c := ContextOf(slices, nodes, name);
    var bs := InOrder(BackendSet(c, d));
    var f := FrontendFor(c, d, bs, p);
    var k := PlannedFrontend(services, slices, nodes, name, digest, plan, d, f);
    BackendsAreTheSet(c, d);
    assert Members(bs) == BackendSet(c, d);
    if bs != [] { assert bs[draw % |bs|] in Members(bs); }
    forall hook | hook in {Prerouting, Output}
      ensures RunChain(table, NatHook(hook), p, draw, depth) == if bs == [] then Pass else SentTo(bs[draw % |bs|])
    {
      PacketIsForwarded(table, plan, k, hook, p, draw, depth);
    }
    forall hook | hook in {Input, Forward, Output}
      ensures RunChain(table, FilterHook(hook), p, draw, depth) == if bs != [] then Pass else if f.local then Dropped else Rejected
    {
      PacketIsRefused(table, plan, k, hook, p, draw, depth);
    }
  }

  /** Traffic for no forwarded port passes every hook untouched. */
  lemma OtherTrafficPasses(services: seq<Service>, slices: seq<Slice>, nodes: seq<Node>, name: string, digest: Digest,
                           plan: Plan, table: Ruleset, p: Packet, draw: nat, depth: nat)
    requires Injective(digest) && SnapshotGood(services, slices, nodes, name)
    requires PlanOf(plan, services, slices, nodes, name, digest) && Rendered(table, plan) && depth >= 2
    requires forall d :: d in AllWanted(services) ==> !ToCluster(d, p) && !ToNode(ContextOf(slices, nodes, name), d, p)
    ensures forall hook :: hook in {Prerouting, Output} ==> RunChain(table, NatHook(hook), p, draw, depth) == Pass
    ensures forall hook :: hook in {Input, Forward, Output} ==> RunChain(table, FilterHook(hook), p, draw, depth) == Pass
  {
    var c := ContextOf(slices, nodes, name);
    PlannedFrontends(services, slices, nodes, name, digest, plan);
    forall f | f in plan.services ensures !Aims(p, f) {
      FrontendsAreExact(c, AllWanted(services), f);
      var d :| d in AllWanted(services) && f in PortFrontends(c, d, InOrder(BackendSet(c, d)));
      if Aims(p, f) { FrontendIsFor(c, d, InOrder(BackendSet(c, d)), f, p); }
    }
    OtherPacketsPass(table, plan, p, draw, depth);
  }
}
