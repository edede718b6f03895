/** One scheduling cycle over complete lists: each pending Pod in turn is placed against what
    the cycle has already placed. */
module Scheduler {
  import opened Wrappers
  import opened Placement
  import KeyOrder

  // ----- the order Pods are tried in -----

  /** Higher priority first, then older, then by UID. */
  predicate Earlier(a: Pod, b: Pod) {
    || a.priority > b.priority
    || (a.priority == b.priority && KeyOrder.Less(a.created, b.created))
    || (a.priority == b.priority && a.created == b.created && KeyOrder.Less(a.uid, b.uid))
  }

  ghost predicate Indices(s: seq<nat>, pods: seq<Pod>) {
    && (forall k :: 0 <= k < |s| ==> s[k] < |pods|)
    && (forall j, k :: 0 <= j < k < |s| ==> s[j] != s[k])
  }

  /** No Pod is tried before one that comes earlier. */
  ghost predicate InOrder(s: seq<nat>, pods: seq<Pod>)
    requires Indices(s, pods)
  {
    forall j, k :: 0 <= j < k < |s| ==> !Earlier(pods[s[k]], pods[s[j]])
  }

  lemma EarlierTransitive(a: Pod, b: Pod, c: Pod)
    requires !Earlier(b, a) && !Earlier(c, b)
    ensures !Earlier(c, a)
  {
    if Earlier(c, a) {
      KeyOrder.LessTotal(a.created, b.created);
      KeyOrder.LessTotal(b.created, c.created);
      KeyOrder.LessTotal(a.uid, b.uid);
      KeyOrder.LessTotal(b.uid, c.uid);
      KeyOrder.LessIrreflexive(a.created);
      KeyOrder.LessIrreflexive(a.uid);
      if KeyOrder.Less(c.created, a.created) && KeyOrder.Less(a.created, b.created) {
        KeyOrder.LessTransitive(c.created, a.created, b.created);
      }
      if KeyOrder.Less(b.created, c.created) && KeyOrder.Less(c.created, a.created) {
        KeyOrder.LessTransitive(b.created, c.created, a.created);
      }
      if KeyOrder.Less(c.uid, a.uid) && KeyOrder.Less(a.uid, b.uid) {
        KeyOrder.LessTransitive(c.uid, a.uid, b.uid);
      }
      if KeyOrder.Less(b.uid, c.uid) && KeyOrder.Less(c.uid, a.uid) {
        KeyOrder.LessTransitive(b.uid, c.uid, a.uid);
      }
    }
  }

  /** Stable insertion of the next index. */
  function Insert(s: seq<nat>, i: nat, pods: seq<Pod>): seq<nat>
    requires i < |pods| && forall k :: 0 <= k < |s| ==> s[k] < |pods|
  {
    if s == [] then [i]
    else
      var last := s[|s| - 1];
      if Earlier(pods[i], pods[last]) then Insert(s[..|s| - 1], i, pods) + [last] else s + [i]
  }

  lemma AppendKeepsOrder(s: seq<nat>, i: nat, pods: seq<Pod>)
    requires Indices(s, pods) && InOrder(s, pods) && i < |pods|
    requires forall k :: 0 <= k < |s| ==> s[k] != i && !Earlier(pods[i], pods[s[k]])
    ensures Indices(s + [i], pods) && InOrder(s + [i], pods)
  {
  }

  lemma {:induction false} InsertKeepsElements(s: seq<nat>, i: nat, pods: seq<Pod>)
    requires i < |pods| && forall k :: 0 <= k < |s| ==> s[k] < |pods|
    ensures forall x :: x in Insert(s, i, pods) <==> x in s || x == i
  {
    if s != [] && Earlier(pods[i], pods[s[|s| - 1]]) {
      InsertKeepsElements(s[..|s| - 1], i, pods);
      assert s == s[..|s| - 1] + [s[|s| - 1]];
    }
  }

  lemma {:induction false} InsertKeepsOrder(s: seq<nat>, i: nat, pods: seq<Pod>)
    requires Indices(s, pods) && InOrder(s, pods) && i < |pods| && i !in s
    ensures Indices(Insert(s, i, pods), pods) && InOrder(Insert(s, i, pods), pods)
  {
    if s == [] { return; }
    var n := |s| - 1;
    if Earlier(pods[i], pods[s[n]]) {
      InsertKeepsOrder(s[..n], i, pods);
      BeforeTheLast(s, Insert(s[..n], i, pods), i, pods);
      AppendKeepsOrder(Insert(s[..n], i, pods), s[n], pods);
    } else {
      AfterTheLast(s, i, pods);
      AppendKeepsOrder(s, i, pods);
    }
  }

  lemma BeforeTheLast(s: seq<nat>, r: seq<nat>, i: nat, pods: seq<Pod>)
    requires Indices(s, pods) && InOrder(s, pods) && s != [] && i < |pods| && i !in s && Indices(r, pods)
    requires r == Insert(s[..|s| - 1], i, pods) && Earlier(pods[i], pods[s[|s| - 1]])
    ensures forall k :: 0 <= k < |r| ==> r[k] != s[|s| - 1] && !Earlier(pods[s[|s| - 1]], pods[r[k]])
  {
    var n := |s| - 1;
    InsertKeepsElements(s[..n], i, pods);
    EarlierAsymmetric(pods[i], pods[s[n]]);
    forall k | 0 <= k < |r| ensures r[k] != s[n] && !Earlier(pods[s[n]], pods[r[k]]) {
      assert r[k] in r;
      if r[k] != i {
        var m :| 0 <= m < n && s[m] == r[k];
      }
    }
  }

  lemma AfterTheLast(s: seq<nat>, i: nat, pods: seq<Pod>)
    requires Indices(s, pods) && InOrder(s, pods) && s != [] && i < |pods| && i !in s
    requires !Earlier(pods[i], pods[s[|s| - 1]])
    ensures forall k :: 0 <= k < |s| ==> s[k] != i && !Earlier(pods[i], pods[s[k]])
  {
    var n := |s| - 1;
    forall k | 0 <= k < |s| ensures s[k] != i && !Earlier(pods[i], pods[s[k]]) {
      if k < n { EarlierTransitive(pods[s[k]], pods[s[n]], pods[i]); }
    }
  }

  lemma EarlierAsymmetric(a: Pod, b: Pod)
    requires Earlier(a, b)
    ensures !Earlier(b, a)
  {
    if Earlier(b, a) {
      if KeyOrder.Less(a.created, b.created) && KeyOrder.Less(b.created, a.created) {
        KeyOrder.LessTransitive(a.created, b.created, a.created);
      }
      if KeyOrder.Less(a.uid, b.uid) && KeyOrder.Less(b.uid, a.uid) { KeyOrder.LessTransitive(a.uid, b.uid, a.uid); }
      KeyOrder.LessIrreflexive(a.created);
      KeyOrder.LessIrreflexive(a.uid);
    }
  }

  /** The pending Pods in the order they are tried. */
  method Candidates(pods: seq<Pod>) returns (order: seq<nat>)
    ensures Indices(order, pods) && InOrder(order, pods)
    ensures forall i: nat :: i in order <==> i < |pods| && Pending(pods[i])
  {
    order := [];
    for i := 0 to |pods|
      invariant Indices(order, pods) && InOrder(order, pods)
      invariant forall x: nat :: x in order <==> x < i && Pending(pods[x])
    {
      if Pending(pods[i]) {
        InsertKeepsOrder(order, i, pods);
        InsertKeepsElements(order, i, pods);
        order := Insert(order, i, pods);
      }
    }
  }

  // ----- what binding changes -----

  /** Pods given a node by a cycle, and nothing else changed. */
  ghost predicate Placed(before: seq<Pod>, after: seq<Pod>) {
    && |after| == |before|
    && forall i :: 0 <= i < |before| ==> after[i] == before[i] || GivenNode(before[i], after[i])
  }

  ghost predicate GivenNode(before: Pod, after: Pod) {
    Pending(before) && after.nodeName != "" && after == before.(nodeName := after.nodeName)
  }

  ghost function Changed(before: seq<Pod>, after: seq<Pod>): set<nat>
    requires |before| == |after|
  {
    set i: nat | i < |before| && before[i] != after[i]
  }

  /** What a node holds is within what it offers. */
  ghost predicate Within(nodes: seq<Node>, pods: seq<Pod>, name: string) {
    exists n :: n in nodes && n.name == name && HoldsWithin(pods, n)
  }

  ghost predicate HoldsWithin(pods: seq<Pod>, n: Node) {
    Capacity(n).Some? && Used(pods, n.name).Some? && Used(pods, n.name).value.Fits(Capacity(n).value)
  }

  /** Every node that received a Pod ends within what it offers. */
  ghost predicate ReceiversWithin(nodes: seq<Node>, before: seq<Pod>, after: seq<Pod>)
    requires |before| == |after|
  {
    forall i :: 0 <= i < |before| && before[i] != after[i] ==> Within(nodes, after, after[i].nodeName)
  }

  function Bind(pods: seq<Pod>, i: nat, node: string): seq<Pod>
    requires i < |pods|
  {
    pods[i := pods[i].(nodeName := node)]
  }

  ghost function Added(load: Option<Resources>, demand: Option<Resources>): Option<Resources> {
    if load.None? || demand.None? then None else Some(load.value.Plus(demand.value))
  }

  /** A load with one Pod more counted, when the node holds it. */
  ghost function Counted(load: Option<Resources>, p: Pod, node: string): Option<Resources> {
    if Resident(p, node) then Added(load, Demanded(p.demand)) else load
  }

  lemma LoadLast(pods: seq<Pod>, node: string)
    requires pods != []
    ensures Load(pods, node) == Counted(Load(pods[..|pods| - 1], node), pods[|pods| - 1], node)
  {
  }

  lemma AddsCommute(load: Option<Resources>, demand: Option<Resources>, p: Pod, node: string)
    ensures Counted(Added(load, demand), p, node) == Added(Counted(load, p, node), demand)
  {
  }

  lemma BindAllButLast(pods: seq<Pod>, i: nat, node: string)
    requires i < |pods|
    ensures Bind(pods, i, node)[..|pods| - 1] == if i == |pods| - 1 then pods[..i] else Bind(pods[..|pods| - 1], i, node)
  {
  }

  lemma {:induction false} BindAddsNoOther(pods: seq<Pod>, i: nat, node: string, other: string)
    requires i < |pods| && Pending(pods[i]) && other != node && other != ""
    ensures Load(Bind(pods, i, node), other) == Load(pods, other)
    decreases |pods|
  {
    var n := |pods| - 1;
    BindAllButLast(pods, i, node);
    if i < n { BindAddsNoOther(pods[..n], i, node, other); }
  }

  /** Binding adds exactly the Pod's demand to its node and nothing to any other. */
  lemma {:induction false} BindAddsItsDemand(pods: seq<Pod>, i: nat, node: string)
    requires i < |pods| && Pending(pods[i]) && node != ""
    ensures Load(Bind(pods, i, node), node) == Added(Load(pods, node), Demanded(pods[i].demand))
    ensures forall other :: other != node && other != "" ==> Load(Bind(pods, i, node), other) == Load(pods, other)
    decreases |pods|
  {
    forall other | other != node && other != "" ensures Load(Bind(pods, i, node), other) == Load(pods, other) {
      BindAddsNoOther(pods, i, node, other);
    }
    var n := |pods| - 1;
    BindAllButLast(pods, i, node);
    if i < n {
      BindAddsItsDemand(pods[..n], i, node);
      LoadLast(pods, node);
      LoadLast(Bind(pods, i, node), node);
      AddsCommute(Load(pods[..n], node), Demanded(pods[i].demand), pods[n], node);
    }
  }

  lemma FeasibleFits(w: World, i: nat, n: Node)
    requires i < |w.pods| && Pending(w.pods[i]) && Feasible(w, w.pods[i], n)
    ensures HoldsWithin(Bind(w.pods, i, n.name), n)
  {
    BindAddsItsDemand(w.pods, i, n.name);
    CapacityIsSmall(n);
  }

  /** A cycle frees nothing: a node that can take a Pod after a binding could take it before. */
  lemma FeasibleShrinks(w: World, i: nat, node: string, p: Pod, n: Node)
    requires i < |w.pods| && Pending(w.pods[i]) && node != ""
    requires Feasible(w.(pods := Bind(w.pods, i, node)), p, n)
    ensures Feasible(w, p, n)
  {
    BindAddsItsDemand(w.pods, i, node);
    CapacityIsSmall(n);
  }

  lemma OthersStayWithin(nodes: seq<Node>, pods: seq<Pod>, i: nat, node: string, other: string)
    requires i < |pods| && Pending(pods[i]) && node != "" && other != "" && other != node && Within(nodes, pods, other)
    ensures Within(nodes, Bind(pods, i, node), other)
  {
    BindAddsItsDemand(pods, i, node);
    var n :| n in nodes && n.name == other && HoldsWithin(pods, n);
    assert HoldsWithin(Bind(pods, i, node), n);
  }

  /** One more Pod placed keeps the promise of the whole cycle. */
  lemma BindKeepsWithin(w: World, before: seq<Pod>, i: nat, n: Node)
    requires Placed(before, w.pods) && ReceiversWithin(w.nodes, before, w.pods)
    requires i < |before| && w.pods[i] == before[i] && Pending(before[i])
    requires n in w.nodes && Feasible(w, before[i], n)
    ensures Placed(before, Bind(w.pods, i, n.name)) && ReceiversWithin(w.nodes, before, Bind(w.pods, i, n.name))
  {
    var after := Bind(w.pods, i, n.name);
    FeasibleFits(w, i, n);
    assert GivenNode(before[i], after[i]);
    forall k | 0 <= k < |before| && before[k] != after[k] ensures Within(w.nodes, after, after[k].nodeName) {
      ReceiverWithin(w, before, i, n, k);
    }
  }

  lemma ReceiverWithin(w: World, before: seq<Pod>, i: nat, n: Node, k: nat)
    requires Placed(before, w.pods) && ReceiversWithin(w.nodes, before, w.pods)
    requires i < |before| && Pending(w.pods[i]) && n in w.nodes && n.name != ""
    requires HoldsWithin(Bind(w.pods, i, n.name), n) && k < |before| && before[k] != Bind(w.pods, i, n.name)[k]
    ensures Within(w.nodes, Bind(w.pods, i, n.name), Bind(w.pods, i, n.name)[k].nodeName)
  {
    var after := Bind(w.pods, i, n.name);
    if k != i && after[k].nodeName != n.name {
      assert GivenNode(before[k], w.pods[k]);
      OthersStayWithin(w.nodes, w.pods, i, n.name, after[k].nodeName);
    }
  }

  /** A binding changes one Pod more. */
  lemma BindChangesOne(before: seq<Pod>, pods: seq<Pod>, i: nat, name: string)
    requires |pods| == |before| && i < |before| && pods[i] == before[i] && before[i].nodeName != name
    ensures |Changed(before, Bind(pods, i, name))| == |Changed(before, pods)| + 1
  {
    assert Changed(before, Bind(pods, i, name)) == Changed(before, pods) + {i} && i !in Changed(before, pods);
  }

  lemma ChoiceKeepsWithin(w: World, before: seq<Pod>, i: nat, name: string)
    requires Placed(before, w.pods) && ReceiversWithin(w.nodes, before, w.pods)
    requires i < |before| && w.pods[i] == before[i] && Pending(before[i]) && Chosen(w, before[i], Ok(name))
    ensures Placed(before, Bind(w.pods, i, name)) && ReceiversWithin(w.nodes, before, Bind(w.pods, i, name))
    ensures |Changed(before, Bind(w.pods, i, name))| == |Changed(before, w.pods)| + 1
  {
    var n :| BestAmong(w, before[i], w.nodes, n) && name == n.name;
    BindKeepsWithin(w, before, i, n);
    BindChangesOne(before, w.pods, i, name);
  }

  // ----- the cycle -----

  /** How the API answered a binding: done, gone or changed meanwhile, or any other error. */
  datatype Answer = Bound | Refused | Failed

  /** What one turn meets: the clock, the answer, and whether the status could be written. */
  datatype Turn = Turn(now: int, answer: Answer, recorded: bool)

  /** Whether the cycle goes on after a turn: not after an error that is none of the API's
      refusals, nor when a status cannot be written. */
  predicate GoesOn(turn: Turn, choice: Result<string, Reason>) {
    if choice.Ok? && turn.answer != Bound then turn.answer == Refused else turn.recorded
  }

  /** The Pods after one turn. */
  function AfterTurn(pods: seq<Pod>, i: nat, turn: Turn, choice: Result<string, Reason>): (r: seq<Pod>)
    requires i < |pods|
    ensures |r| == |pods|
  {
    if choice.Ok? && turn.answer == Bound then Bind(pods, i, choice.value) else pods
  }

  /** One turn of a cycle: the Pod, what was chosen, and the Pods after it. */
  datatype Choice = Choice(pod: nat, made: Result<string, Reason>, after: seq<Pod>)

  /** The Pods after some turns. */
  ghost function PodsAfter(start: seq<Pod>, trace: seq<Choice>): seq<Pod> {
    if trace == [] then start else trace[|trace| - 1].after
  }

  /** What may be chosen for a Pod, with the Pods and the clock as they are. */
  type Rule = (seq<Pod>, int, Pod, Result<string, Reason>) -> bool

  /** The best node that can take the Pod, or the exact reason why there is none. */
  ghost function BestOrReason(nodes: seq<Node>, leases: seq<Lease>): Rule {
    (pods: seq<Pod>, now: int, p: Pod, made: Result<string, Reason>) => Chosen(World(nodes, leases, pods, now), p, made)
  }

  /** The turns of a cycle: candidate after candidate, each choice by the rule in the world as
      the turns before left it, and each after a turn that let the cycle go on. */
  ghost predicate Follows(rule: Rule, start: seq<Pod>, order: seq<nat>, turns: seq<Turn>, trace: seq<Choice>) {
    trace == [] ||
    var n := |trace| - 1;
    && Follows(rule, start, order, turns, trace[..n])
    && n < |order| && n < |turns| && (n > 0 ==> GoesOn(turns[n - 1], trace[n - 1].made))
    && var held := PodsAfter(start, trace[..n]);
    && trace[n].pod == order[n] < |held| == |start| && rule(held, turns[n].now, start[order[n]], trace[n].made)
    && trace[n].after == AfterTurn(held, order[n], turns[n], trace[n].made)
  }

  /** It ends with its candidates, where it is cut off, or after a turn that ends it. */
  ghost predicate Ends(order: seq<nat>, turns: seq<Turn>, trace: seq<Choice>) {
    var n := |trace|;
    n == |order| || n == |turns| || (0 < n <= |turns| && !GoesOn(turns[n - 1], trace[n - 1].made))
  }

  /** One more turn. */
  lemma OneMoreTurn(rule: Rule, start: seq<Pod>, order: seq<nat>, turns: seq<Turn>, trace: seq<Choice>, c: Choice)
    requires Follows(rule, start, order, turns, trace) && |trace| < |order| && |trace| < |turns|
    requires trace != [] ==> GoesOn(turns[|trace| - 1], trace[|trace| - 1].made)
    requires var held := PodsAfter(start, trace);
             && c.pod == order[|trace|] < |held| == |start| && rule(held, turns[|trace|].now, start[c.pod], c.made)
             && c.after == AfterTurn(held, c.pod, turns[|trace|], c.made)
    ensures Follows(rule, start, order, turns, trace + [c])
  {
    assert (trace + [c])[..|trace|] == trace && (trace + [c])[|trace|] == c;
  }

  /** These candidates have not been touched yet. */
  ghost predicate Untried(order: seq<nat>, k: nat, start: seq<Pod>, now: seq<Pod>) {
    && |now| == |start|
    && forall j | k <= j < |order| && order[j] < |start| :: now[order[j]] == start[order[j]] && Pending(start[order[j]])
  }

  lemma StillUntried(order: seq<nat>, k: nat, start: seq<Pod>, now: seq<Pod>, turn: Turn, choice: Result<string, Reason>)
    requires Untried(order, k, start, now) && Indices(order, start) && k < |order|
    ensures Untried(order, k + 1, start, AfterTurn(now, order[k], turn, choice))
  {
  }

  class Cycle {
    const nodes: seq<Node>
    const leases: seq<Lease>
    var pods: seq<Pod>
    var bound: nat

    constructor (nodes: seq<Node>, leases: seq<Lease>, pods: seq<Pod>)
      ensures this.nodes == nodes && this.leases == leases && this.pods == pods && bound == 0
    {
      this.nodes, this.leases, this.pods, bound := nodes, leases, pods, 0;
    }

    ghost predicate Kept(before: seq<Pod>)
      reads this
    {
      Placed(before, pods) && ReceiversWithin(nodes, before, pods) && bound == |Changed(before, pods)|
    }

    /** One candidate: bound to the best node that can take it, or left as it is. False stops the cycle. */
    method Try(i: nat, turn: Turn, ghost before: seq<Pod>) returns (go: bool, choice: Result<string, Reason>)
      requires i < |pods| && |before| == |pods| && pods[i] == before[i] && Pending(pods[i]) && Kept(before)
      modifies this
      ensures Kept(before)
      ensures Chosen(World(nodes, leases, old(pods), turn.now), before[i], choice)
      ensures pods == AfterTurn(old(pods), i, turn, choice) && (go <==> GoesOn(turn, choice))
    {
      var w := World(nodes, leases, pods, turn.now);
      choice := Select(w, pods[i]);
      if choice.Err? { return turn.recorded, choice; }
      match turn.answer
      case Bound =>
        ChoiceKeepsWithin(w, before, i, choice.value);
        pods := Bind(pods, i, choice.value);
        bound := bound + 1;
        return turn.recorded, choice;
      case Refused => return true, choice;
      case Failed => return false, choice;
    }

    /** One turn of the cycle, with what it did on record. */
    method Next(turns: seq<Turn>, k: nat, i: nat, ghost before: seq<Pod>, ghost order: seq<nat>, ghost trace: seq<Choice>)
        returns (go: bool, ghost more: seq<Choice>)
      requires k < |turns| && k < |order| && i == order[k] && |trace| == k
      requires i < |before| == |pods| && pods[i] == before[i] && Pending(pods[i]) && Kept(before)
      requires Follows(BestOrReason(nodes, leases), before, order, turns, trace) && pods == PodsAfter(before, trace)
      requires k > 0 ==> GoesOn(turns[k - 1], trace[k - 1].made)
      modifies this
      ensures Kept(before)
      ensures |more| == k + 1 && Follows(BestOrReason(nodes, leases), before, order, turns, more)
      ensures more[k].after == pods == AfterTurn(old(pods), i, turns[k], more[k].made)
      ensures go <==> GoesOn(turns[k], more[k].made)
    {
      var choice;
      go, choice := Try(i, turns[k], before);
      OneMoreTurn(BestOrReason(nodes, leases), before, order, turns, trace, Choice(i, choice, pods));
      more := trace + [Choice(i, choice, pods)];
    }

    /** The whole cycle, whatever the API answers and wherever it is cut off. */
    method Run(turns: seq<Turn>) returns (ghost order: seq<nat>, ghost trace: seq<Choice>)
      requires bound == 0
      modifies this
      ensures Placed(old(pods), pods)
      ensures ReceiversWithin(nodes, old(pods), pods)
      ensures bound == |Changed(old(pods), pods)|
      ensures Indices(order, old(pods)) && InOrder(order, old(pods))
      ensures forall i: nat :: i in order <==> i < |old(pods)| && Pending(old(pods)[i])
      ensures Follows(BestOrReason(nodes, leases), old(pods), order, turns, trace) && Ends(order, turns, trace)
      ensures pods == PodsAfter(old(pods), trace)
    {
      var candidates := Candidates(pods);
      order, trace := candidates, [];
      assert Changed(pods, pods) == {};
      forall j | 0 <= j < |order| ensures Pending(pods[order[j]]) { assert order[j] in order; }
      for k := 0 to |candidates|
        invariant |pods| == |old(pods)| && Kept(old(pods)) && Untried(order, k, old(pods), pods)
        invariant |trace| == k && Follows(BestOrReason(nodes, leases), old(pods), order, turns, trace)
        invariant pods == PodsAfter(old(pods), trace)
        invariant k > 0 ==> k <= |turns| && GoesOn(turns[k - 1], trace[k - 1].made)
      {
        if k >= |turns| { return; }
        var go;
        ghost var held := pods;
        go, trace := Next(turns, k, candidates[k], old(pods), order, trace);
        StillUntried(order, k, old(pods), held, turns[k], trace[k].made);
        if !go { return; }
      }
    }
  }
}
