/** Escalation prevention: who may write which role or binding, and what follows for every
    sequence of such writes. */
module Escalation {
  import opened Wrappers
  import opened Rbac

  /** One literal permission of a rule set. `*` stands for itself. */
  datatype Permission = Permission(verb: string, group: string, resource: string, name: Option<string>)

  function Groups(rule: PolicyRule): seq<string> { rule.apiGroups.GetOr([""]) }
  function Resources(rule: PolicyRule): seq<string> { rule.resources.GetOr([]) }
  function Names(rule: PolicyRule): seq<string> { rule.resourceNames.GetOr([]) }

  predicate NameListed(rule: PolicyRule, name: Option<string>) {
    if Names(rule) == [] then name.None? else name.Some? && name.value in Names(rule)
  }

  predicate RuleGrants(rule: PolicyRule, p: Permission) {
    p.verb in rule.verbs && p.group in Groups(rule) && p.resource in Resources(rule) && NameListed(rule, p.name)
  }

  predicate Grants(rules: seq<PolicyRule>, p: Permission) {
    exists i | 0 <= i < |rules| :: RuleGrants(rules[i], p)
  }

  function NameOptions(rule: PolicyRule): (names: seq<Option<string>>)
    ensures forall name :: name in names <==> NameListed(rule, name)
  {
    if Names(rule) == [] then [None] else Somes(Names(rule))
  }

  function Somes(names: seq<string>): (options: seq<Option<string>>)
    ensures forall name :: name in options <==> name.Some? && name.value in names
  {
    if names == [] then [] else [Some(names[0])] + Somes(names[1..])
  }

  /** Expand a rule set, one entry for every combination. */
  method Granted(rules: seq<PolicyRule>) returns (out: seq<Permission>)
    ensures forall p :: p in out <==> Grants(rules, p)
  {
    out := [];
    for i := 0 to |rules|
      invariant forall p :: p in out <==> exists k | 0 <= k < i :: RuleGrants(rules[k], p)
    {
      var entries := GrantedByRule(rules[i]);
      out := out + entries;
    }
  }

  method GrantedByRule(rule: PolicyRule) returns (out: seq<Permission>)
    ensures forall p :: p in out <==> RuleGrants(rule, p)
  {
    out := [];
    var verbs, groups, resources, names := rule.verbs, Groups(rule), Resources(rule), NameOptions(rule);
    for a := 0 to |verbs|
      invariant forall p :: p in out <==> p.verb in verbs[..a] && p.group in groups && p.resource in resources && p.name in names
    {
      ghost var before := out;
      for b := 0 to |groups|
        invariant forall p :: p in out <==> (p in before
          || (p.verb == verbs[a] && p.group in groups[..b] && p.resource in resources && p.name in names))
      {
        ghost var inner := out;
        for c := 0 to |resources|
          invariant forall p :: p in out <==> (p in inner
            || (p.verb == verbs[a] && p.group == groups[b] && p.resource in resources[..c] && p.name in names))
        {
          ghost var innermost := out;
          for d := 0 to |names|
            invariant forall p :: p in out <==> (p in innermost
              || (p.verb == verbs[a] && p.group == groups[b] && p.resource == resources[c] && p.name in names[..d]))
          {
            out := out + [Permission(verbs[a], groups[b], resources[c], names[d])];
            assert names[..d + 1] == names[..d] + [names[d]];
          }
          assert names[..|names|] == names && resources[..c + 1] == resources[..c] + [resources[c]];
        }
        assert resources[..|resources|] == resources && groups[..b + 1] == groups[..b] + [groups[b]];
      }
      assert groups[..|groups|] == groups && verbs[..a + 1] == verbs[..a] + [verbs[a]];
    }
    assert verbs[..|verbs|] == verbs;
  }

  // ----- resource/subresource -----

  function SplitResource(text: string): (string, Option<string>) {
    if text == "" then ("", None)
    else if text[0] == '/' then ("", Some(text[1..]))
    else
      var (resource, sub) := SplitResource(text[1..]);
      ([text[0]] + resource, sub)
  }

  lemma {:induction false} SplitJoins(text: string)
    ensures var (resource, sub) := SplitResource(text);
            '/' !in resource && text == if sub.Some? then resource + "/" + sub.value else resource
  {
    if text != "" && text[0] != '/' { SplitJoins(text[1..]); }
  }

  lemma {:induction false} JoinSplits(resource: string, sub: string)
    requires '/' !in resource
    ensures SplitResource(resource) == (resource, None)
    ensures SplitResource(resource + "/" + sub) == (resource, Some(sub))
  {
    if resource == "" {
      assert "" + "/" + sub == "/" + sub && ("/" + sub)[1..] == sub;
    } else {
      JoinSplits(resource[1..], sub);
      assert (resource + "/" + sub)[1..] == resource[1..] + "/" + sub;
      assert resource == [resource[0]] + resource[1..];
    }
  }

  /** The request a permission stands for in a scope. */
  function Literal(p: Permission, scope: Option<string>): Request {
    var (resource, sub) := SplitResource(p.resource);
    Request(p.verb, p.group, resource, sub, scope, p.name)
  }

  predicate Within(s: Snapshot, user: User, p: Permission, scope: Option<string>) {
    Allows(s, user, Literal(p, scope))
  }

  /** The requests an API endpoint can form: its resource names contain no slash. */
  predicate FromEndpoint(r: Request) { '/' !in r.resource }

  predicate InScope(r: Request, scope: Option<string>) { scope.None? || r.namespace == scope }

  // ----- the check -----

  datatype Write =
    | PutRole(at: Scoped, rules: seq<PolicyRule>)
    | PutClusterRole(name: string, rules: seq<PolicyRule>)
    | PutRoleBinding(at: Scoped, binding: Binding)
    | PutClusterRoleBinding(name: string, binding: Binding)
    | DeleteRole(at: Scoped)
    | DeleteClusterRole(name: string)
    | DeleteRoleBinding(at: Scoped)
    | DeleteClusterRoleBinding(name: string)

  ghost predicate HoldsAll(s: Snapshot, user: User, rules: seq<PolicyRule>, scope: Option<string>) {
    forall p | Grants(rules, p) :: Within(s, user, p, scope)
  }

  /** The role a binding in `namespace` refers to, if there is one to refer to. */
  function Referenced(s: Snapshot, ref: RoleRef, namespace: Option<string>): Option<seq<PolicyRule>> {
    if ref.kind == "ClusterRole" && ref.name in s.clusterRoles then Some(s.clusterRoles[ref.name])
    else if ref.kind == "Role" && namespace.Some? && Scoped(namespace.value, ref.name) in s.roles
    then Some(s.roles[Scoped(namespace.value, ref.name)])
    else None
  }

  function Plural(kind: string): string { if kind == "Role" then "roles" else "clusterroles" }

  ghost predicate MayWriteRole(s: Snapshot, user: User, plural: string, scope: Option<string>, rules: seq<PolicyRule>) {
    || Within(s, user, Permission("escalate", RBAC_GROUP, plural, None), scope)
    || HoldsAll(s, user, rules, scope)
  }

  ghost predicate MayBind(s: Snapshot, user: User, ref: RoleRef, namespace: Option<string>) {
    && (ref.kind == "Role" || ref.kind == "ClusterRole")
    && ref.name != ""
    && (|| Within(s, user, Permission("bind", RBAC_GROUP, Plural(ref.kind), Some(ref.name)), namespace)
        || (Referenced(s, ref, namespace).Some?
            && HoldsAll(s, user, Referenced(s, ref, namespace).value, if ref.kind == "Role" then namespace else None)))
  }

  /** The writes the check lets through. Deletions are not checked. */
  ghost predicate Permitted(s: Snapshot, user: User, write: Write) {
    user.Superuser() ||
    match write
    case PutRole(at, rules) => MayWriteRole(s, user, "roles", NonEmpty(Some(at.namespace)), rules)
    case PutClusterRole(_, rules) => MayWriteRole(s, user, "clusterroles", None, rules)
    case PutRoleBinding(at, binding) => MayBind(s, user, binding.roleRef, NonEmpty(Some(at.namespace)))
    case PutClusterRoleBinding(_, binding) => MayBind(s, user, binding.roleRef, None)
    case _ => true
  }

  method HoldsEvery(s: Snapshot, user: User, rules: seq<PolicyRule>, scope: Option<string>) returns (ok: bool)
    ensures ok <==> HoldsAll(s, user, rules, scope)
  {
    var permissions := Granted(rules);
    for i := 0 to |permissions|
      invariant forall k | 0 <= k < i :: Within(s, user, permissions[k], scope)
    {
      if !Within(s, user, permissions[i], scope) {
        assert permissions[i] in permissions;
        return false;
      }
    }
    forall p | Grants(rules, p) ensures Within(s, user, p, scope) {
      assert p in permissions;
      var k :| 0 <= k < |permissions| && permissions[k] == p;
    }
    return true;
  }

  method CheckBinding(s: Snapshot, user: User, ref: RoleRef, namespace: Option<string>) returns (ok: bool)
    ensures ok <==> MayBind(s, user, ref, namespace)
  {
    if ref.kind != "ClusterRole" && ref.kind != "Role" { return false; }
    if ref.name == "" { return false; }
    if Within(s, user, Permission("bind", RBAC_GROUP, Plural(ref.kind), Some(ref.name)), namespace) { return true; }
    var role := Referenced(s, ref, namespace);
    if role.None? { return false; }
    ok := HoldsEvery(s, user, role.value, if ref.kind == "Role" then namespace else None);
  }

  /** The admission check of one write against the snapshot it is serialized with. */
  method Check(s: Snapshot, user: User, write: Write) returns (ok: bool)
    ensures ok <==> Permitted(s, user, write)
  {
    if user.Superuser() { return true; }
    match write
    case PutRole(at, rules) =>
      var scope := NonEmpty(Some(at.namespace));
      if Within(s, user, Permission("escalate", RBAC_GROUP, "roles", None), scope) { return true; }
      ok := HoldsEvery(s, user, rules, scope);
    case PutClusterRole(_, rules) =>
      if Within(s, user, Permission("escalate", RBAC_GROUP, "clusterroles", None), None) { return true; }
      ok := HoldsEvery(s, user, rules, None);
    case PutRoleBinding(at, binding) => ok := CheckBinding(s, user, binding.roleRef, NonEmpty(Some(at.namespace)));
    case PutClusterRoleBinding(_, binding) => ok := CheckBinding(s, user, binding.roleRef, None);
    case _ => ok := true;
  }

  function Commit(s: Snapshot, write: Write): Snapshot {
    match write
    case PutRole(at, rules) => s.(roles := s.roles[at := rules])
    case PutClusterRole(name, rules) => s.(clusterRoles := s.clusterRoles[name := rules])
    case PutRoleBinding(at, binding) => s.(roleBindings := s.roleBindings[at := binding])
    case PutClusterRoleBinding(name, binding) => s.(clusterRoleBindings := s.clusterRoleBindings[name := binding])
    case DeleteRole(at) => s.(roles := s.roles - {at})
    case DeleteClusterRole(name) => s.(clusterRoles := s.clusterRoles - {name})
    case DeleteRoleBinding(at) => s.(roleBindings := s.roleBindings - {at})
    case DeleteClusterRoleBinding(name) => s.(clusterRoleBindings := s.clusterRoleBindings - {name})
  }

  // ----- a rule set held literally is held request by request -----

  /** A rule that matches a literal permission matches every request the permission covers. */
  lemma LiteralCovers(rule: PolicyRule, r: Request, scope: Option<string>) returns (p: Permission)
    requires RuleAllows(rule, r) && FromEndpoint(r)
    ensures RuleGrants(rule, p)
    ensures forall held: PolicyRule | RuleAllows(held, Literal(p, scope)) :: RuleAllows(held, r)
  {
    var verb := if "*" in rule.verbs then "*" else r.verb;
    var groups := rule.apiGroups.GetOr([]);
    var group := if "*" in groups then "*" else r.group;
    var i :| 0 <= i < |Resources(rule)| && ResourceMatches(Resources(rule)[i], r);
    var resource := Resources(rule)[i];
    p := Permission(verb, group, resource, if Names(rule) == [] then None else r.name);
    forall held: PolicyRule | RuleAllows(held, Literal(p, scope)) ensures RuleAllows(held, r) {
      var j :| 0 <= j < |held.resources.GetOr([])| && ResourceMatches(held.resources.GetOr([])[j], Literal(p, scope));
      ResourceCovers(held.resources.GetOr([])[j], resource, r, Literal(p, scope));
    }
  }

  lemma ResourceCovers(held: string, resource: string, r: Request, literal: Request)
    requires FromEndpoint(r) && ResourceMatches(resource, r) && ResourceMatches(held, literal)
    requires literal.resource == SplitResource(resource).0 && literal.subresource == SplitResource(resource).1
    ensures ResourceMatches(held, r)
  {
    var sub := NonEmpty(r.subresource);
    if resource == "*" {
      JoinSplits("*", "");
    } else if resource == ResourceText(r) {
      JoinSplits(r.resource, sub.GetOr(""));
    } else {
      JoinSplits("*", sub.value);
      assert "*/" + sub.value == "*" + "/" + sub.value;
    }
  }

  /** Holding every literal permission of a rule set in a scope is holding every request
      of the scope that the rules allow. */
  lemma HoldingCovers(s: Snapshot, user: User, rules: seq<PolicyRule>, scope: Option<string>, r: Request)
    requires HoldsAll(s, user, rules, scope) && RulesAllow(rules, r) && FromEndpoint(r) && InScope(r, scope)
    ensures Allows(s, user, r)
  {
    var i :| 0 <= i < |rules| && RuleAllows(rules[i], r);
    var p := LiteralCovers(rules[i], r, scope);
    assert Grants(rules, p);
    Transfer(s, user, Literal(p, scope), r);
  }

  /** What one request allows, any request that every matching rule also matches is allowed,
      in the same namespace or in any namespace if the first had none. */
  lemma Transfer(s: Snapshot, user: User, given: Request, r: Request)
    requires Allows(s, user, given) && InScope(r, given.namespace)
    requires forall held: PolicyRule | RuleAllows(held, given) :: RuleAllows(held, r)
    ensures Allows(s, user, r)
  {
    if user.Superuser() {
    } else if ClusterAllows(s, user, given) {
      var name :| name in s.clusterRoleBindings
        && RulesAllow(ClusterGrant(s, s.clusterRoleBindings[name], user), given);
      RulesTransfer(ClusterGrant(s, s.clusterRoleBindings[name], user), given, r);
    } else {
      var namespace := given.namespace.value;
      var key :| key in s.roleBindings && key.namespace == namespace
        && RulesAllow(RoleGrant(s, namespace, s.roleBindings[key], user), given);
      RulesTransfer(RoleGrant(s, namespace, s.roleBindings[key], user), given, r);
    }
  }

  lemma RulesTransfer(rules: seq<PolicyRule>, given: Request, r: Request)
    requires RulesAllow(rules, given)
    requires forall held: PolicyRule | RuleAllows(held, given) :: RuleAllows(held, r)
    ensures RulesAllow(rules, r)
  {
    var i :| 0 <= i < |rules| && RuleAllows(rules[i], given);
    assert RuleAllows(rules[i], r);
  }

  // ----- when the check is exact -----

  const SOMEONE := User("u", [])

  /** One user, bound cluster-wide to one role. */
  function Single(rules: seq<PolicyRule>): Snapshot {
    var binding := Binding(RoleRef(RBAC_GROUP, "ClusterRole", "role"), [Subject("User", Some(RBAC_GROUP), "u", None)]);
    Snapshot(map[], map["role" := rules], map[], map["binding" := binding])
  }

  lemma SingleAllows(rules: seq<PolicyRule>, r: Request)
    ensures Allows(Single(rules), SOMEONE, r) <==> RulesAllow(rules, r)
  {
    var s := Single(rules);
    var binding := s.clusterRoleBindings["binding"];
    assert SubjectMatches(binding.subjects[0], SOMEONE, None);
    assert ClusterGrant(s, binding, SOMEONE) == rules;
  }

  /** The user may already make every request of the scope that the rules allow. */
  ghost predicate Covers(s: Snapshot, user: User, rules: seq<PolicyRule>, scope: Option<string>) {
    forall r: Request | FromEndpoint(r) && InScope(r, scope) && RulesAllow(rules, r) :: Allows(s, user, r)
  }

  /** On these rules the literal check asks for what they allow and nothing more, whoever asks. */
  ghost predicate Exact(rules: seq<PolicyRule>, scope: Option<string>) {
    forall s: Snapshot, user: User :: HoldsAll(s, user, rules, scope) <==> Covers(s, user, rules, scope)
  }

  /** The rules allow every literal permission they are expanded to. */
  ghost predicate AllowTheirLiterals(rules: seq<PolicyRule>, scope: Option<string>) {
    forall p | Grants(rules, p) :: RulesAllow(rules, Literal(p, scope))
  }

  /** The literal check is exact for a rule set if and only if the rules allow every literal
      permission they are expanded to. */
  lemma CheckIsExactIff(rules: seq<PolicyRule>, scope: Option<string>)
    ensures Exact(rules, scope) <==> AllowTheirLiterals(rules, scope)
  {
    if Exact(rules, scope) {
      ExactAllows(rules, scope);
    }
    if AllowTheirLiterals(rules, scope) {
      forall s: Snapshot, user: User ensures HoldsAll(s, user, rules, scope) <==> Covers(s, user, rules, scope) {
        AllowingIsExact(s, user, rules, scope);
      }
    }
  }

  /** Someone who was given exactly these rules already covers them, so an exact check passes. */
  lemma ExactAllows(rules: seq<PolicyRule>, scope: Option<string>)
    requires Exact(rules, scope)
    ensures AllowTheirLiterals(rules, scope)
  {
    var s := Single(rules);
    forall r: Request ensures Allows(s, SOMEONE, r) <==> RulesAllow(rules, r) { SingleAllows(rules, r); }
    assert Covers(s, SOMEONE, rules, scope);
    forall p | Grants(rules, p) ensures RulesAllow(rules, Literal(p, scope)) {
      assert HoldsAll(s, SOMEONE, rules, scope) && Within(s, SOMEONE, p, scope);
    }
  }

  lemma AllowingIsExact(s: Snapshot, user: User, rules: seq<PolicyRule>, scope: Option<string>)
    requires AllowTheirLiterals(rules, scope)
    ensures HoldsAll(s, user, rules, scope) <==> Covers(s, user, rules, scope)
  {
    if HoldsAll(s, user, rules, scope) {
      forall r: Request | FromEndpoint(r) && InScope(r, scope) && RulesAllow(rules, r) ensures Allows(s, user, r) {
        HoldingCovers(s, user, rules, scope, r);
      }
    }
    if Covers(s, user, rules, scope) {
      forall p | Grants(rules, p) ensures Within(s, user, p, scope) { SplitJoins(p.resource); }
    }
  }

  /** The two families of literals a rule does not allow by itself: those of a rule that leaves
      its API groups out, and those of a resource whose first slash is its last character, unless
      the rule also lists the resource without that slash, or `*`. */
  lemma LiteralIsAllowedIff(rule: PolicyRule, p: Permission, scope: Option<string>)
    requires RuleGrants(rule, p)
    ensures RuleAllows(rule, Literal(p, scope))
            <==> (rule.apiGroups.Some?
                  && (SplitResource(p.resource).1 == Some("")
                      ==> "*" in Resources(rule) || SplitResource(p.resource).0 in Resources(rule)))
  {
    var r := Literal(p, scope);
    var (resource, sub) := SplitResource(p.resource);
    SplitJoins(p.resource);
    if sub == Some("") {
      forall v | ResourceMatches(v, r) ensures v == "*" || v == resource { }
      if "*" in Resources(rule) { FoundMatches(rule, r, "*"); }
      if resource in Resources(rule) { FoundMatches(rule, r, resource); }
    } else {
      FoundMatches(rule, r, p.resource);
    }
  }

  lemma FoundMatches(rule: PolicyRule, r: Request, v: string)
    requires v in Resources(rule) && ResourceMatches(v, r)
    ensures exists i | 0 <= i < |Resources(rule)| :: ResourceMatches(Resources(rule)[i], r)
  {
    var i :| 0 <= i < |Resources(rule)| && Resources(rule)[i] == v;
    assert ResourceMatches(Resources(rule)[i], r);
  }

  /** Rules that say their API groups and name no resource whose first slash is its last character. */
  predicate Tidy(rules: seq<PolicyRule>) {
    forall i | 0 <= i < |rules| ::
      && rules[i].apiGroups.Some?
      && forall k | 0 <= k < |Resources(rules[i])| :: SplitResource(Resources(rules[i])[k]).1 != Some("")
  }

  /** So for tidy rules the check passes exactly when the user already holds every request
      of the scope that the rules allow. */
  lemma TidyIsExact(rules: seq<PolicyRule>, scope: Option<string>)
    requires Tidy(rules)
    ensures Exact(rules, scope)
  {
    forall p | Grants(rules, p) ensures RulesAllow(rules, Literal(p, scope)) {
      var i :| 0 <= i < |rules| && RuleGrants(rules[i], p);
      LiteralIsAllowedIff(rules[i], p, scope);
    }
    CheckIsExactIff(rules, scope);
  }

  /** Such a slash is checked too strictly: `pods/` allows no request at all, and yet
      writing it is denied to a user who may not get pods. */
  lemma TrailingSlashIsOverchecked()
    ensures var rules := [PolicyRule(["get"], Some([""]), Some(["pods/"]), None)];
            && (forall r: Request | FromEndpoint(r) :: !RulesAllow(rules, r))
            && !HoldsAll(EMPTY, SOMEONE, rules, None)
  {
    var rules := [PolicyRule(["get"], Some([""]), Some(["pods/"]), None)];
    var p := Permission("get", "", "pods/", None);
    assert RuleGrants(rules[0], p) && Grants(rules, p);
    assert !Within(EMPTY, SOMEONE, p, None);
    forall r: Request | FromEndpoint(r) ensures !ResourceMatches("pods/", r) { NoEndpointEndsInSlash("pods", r); }
  }

  /** So is a rule without API groups: it allows no request at all, and yet writing it is
      denied to a user who may not get pods of the core group. */
  lemma MissingGroupsAreOverchecked()
    ensures var rules := [PolicyRule(["get"], None, Some(["pods"]), None)];
            (forall r: Request :: !RulesAllow(rules, r)) && !HoldsAll(EMPTY, SOMEONE, rules, None)
  {
    var rules := [PolicyRule(["get"], None, Some(["pods"]), None)];
    var p := Permission("get", "", "pods", None);
    assert RuleGrants(rules[0], p) && Grants(rules, p);
    assert !Within(EMPTY, SOMEONE, p, None);
  }

  const EMPTY := Snapshot(map[], map[], map[], map[])

  lemma NoEndpointEndsInSlash(resource: string, r: Request)
    requires FromEndpoint(r) && '/' !in resource && resource != "*"
    ensures !ResourceMatches(resource + "/", r)
  {
    var sub := NonEmpty(r.subresource).GetOr("");
    assert resource + "/" == resource + "/" + "" && "*/" + sub == "*" + "/" + sub;
    JoinSplits(resource, "");
    JoinSplits(r.resource, sub);
    JoinSplits("*", sub);
  }

  // ----- runs -----

  datatype Step = Step(user: User, write: Write)

  ghost function After(s: Snapshot, run: seq<Step>): Snapshot {
    if run == [] then s else Commit(After(s, run[..|run| - 1]), run[|run| - 1].write)
  }

  /** A run of writes by the given users, each of which passed the check when it was made. */
  ghost predicate Passed(s: Snapshot, run: seq<Step>, users: iset<User>) {
    forall i | 0 <= i < |run| :: run[i].user in users && Permitted(After(s, run[..i]), run[i].user, run[i].write)
  }

  ghost predicate Ordinary(users: iset<User>) {
    forall u | u in users :: !u.Superuser()
  }

  ghost predicate SomeoneMay(s: Snapshot, users: iset<User>, r: Request) {
    exists u | u in users :: Allows(s, u, r)
  }

  /** The two verbs that let a principal hand out more than it holds. */
  predicate Escalating(r: Request) {
    && (r.verb == "escalate" || r.verb == "bind")
    && r.group == RBAC_GROUP
    && (r.resource == "roles" || r.resource == "clusterroles") && r.subresource.None?
  }

  ghost predicate NobodyEscalates(s: Snapshot, users: iset<User>) {
    forall r: Request | Escalating(r) :: !SomeoneMay(s, users, r)
  }

  ghost predicate NothingNew(before: Snapshot, after: Snapshot, users: iset<User>) {
    forall r: Request | FromEndpoint(r) && SomeoneMay(after, users, r) :: SomeoneMay(before, users, r)
  }

  lemma PlainNames()
    ensures SplitResource("roles") == ("roles", None) && SplitResource("clusterroles") == ("clusterroles", None)
    ensures '/' !in "roles" && '/' !in "clusterroles"
  {
    JoinSplits("roles", "");
    JoinSplits("clusterroles", "");
  }

  lemma NoShortcut(s: Snapshot, users: iset<User>, user: User, verb: string, plural: string, scope: Option<string>,
                   name: Option<string>)
    requires NobodyEscalates(s, users) && user in users
    requires (verb == "escalate" || verb == "bind") && (plural == "roles" || plural == "clusterroles")
    ensures !Within(s, user, Permission(verb, RBAC_GROUP, plural, name), scope)
  {
    var r := Request(verb, RBAC_GROUP, plural, None, scope, name);
    PlainNames();
    assert Literal(Permission(verb, RBAC_GROUP, plural, name), scope) == r;
    assert Escalating(r) && !SomeoneMay(s, users, r);
  }

  /** Without the two verbs, a role passes only if its writer holds all of it. */
  lemma RoleWasHeld(s: Snapshot, users: iset<User>, user: User, plural: string, scope: Option<string>, rules: seq<PolicyRule>)
    requires NobodyEscalates(s, users) && user in users && (plural == "roles" || plural == "clusterroles")
    requires MayWriteRole(s, user, plural, scope, rules)
    ensures HoldsAll(s, user, rules, scope)
  {
    NoShortcut(s, users, user, "escalate", plural, scope, None);
  }

  lemma BindingWasHeld(s: Snapshot, users: iset<User>, user: User, ref: RoleRef, namespace: Option<string>)
    requires NobodyEscalates(s, users) && user in users && MayBind(s, user, ref, namespace)
    ensures Referenced(s, ref, namespace).Some?
    ensures HoldsAll(s, user, Referenced(s, ref, namespace).value, if ref.kind == "Role" then namespace else None)
  {
    NoShortcut(s, users, user, "bind", Plural(ref.kind), namespace, Some(ref.name));
  }

  /** One permitted write: whatever anyone may do after it, someone could do before it. */
  lemma StepAddsNothing(s: Snapshot, users: iset<User>, step: Step, u: User, r: Request)
    requires Ordinary(users) && NobodyEscalates(s, users) && step.user in users && u in users
    requires Permitted(s, step.user, step.write) && FromEndpoint(r) && Allows(Commit(s, step.write), u, r)
    ensures Allows(s, u, r) || Allows(s, step.user, r)
  {
    var after := Commit(s, step.write);
    if ClusterAllows(after, u, r) {
      var name :| name in after.clusterRoleBindings
        && RulesAllow(ClusterGrant(after, after.clusterRoleBindings[name], u), r);
      ClusterStep(s, users, step, u, r, name);
    } else {
      var namespace := r.namespace.value;
      var key :| key in after.roleBindings && key.namespace == namespace
        && RulesAllow(RoleGrant(after, namespace, after.roleBindings[key], u), r);
      RoleStep(s, users, step, u, r, key);
    }
  }

  lemma ClusterStep(s: Snapshot, users: iset<User>, step: Step, u: User, r: Request, name: string)
    requires Ordinary(users) && NobodyEscalates(s, users) && step.user in users
    requires Permitted(s, step.user, step.write) && FromEndpoint(r)
    requires var after := Commit(s, step.write);
             name in after.clusterRoleBindings && RulesAllow(ClusterGrant(after, after.clusterRoleBindings[name], u), r)
    ensures Allows(s, u, r) || Allows(s, step.user, r)
  {
    var after := Commit(s, step.write);
    var binding := after.clusterRoleBindings[name];
    var ref, rules := binding.roleRef, ClusterGrant(after, binding, u);
    if step.write.PutClusterRole? && step.write.name == ref.name {
      RoleWasHeld(s, users, step.user, "clusterroles", None, rules);
      HoldingCovers(s, step.user, rules, None, r);
    } else if step.write.PutClusterRoleBinding? && step.write.name == name {
      BindingWasHeld(s, users, step.user, ref, None);
      HoldingCovers(s, step.user, rules, None, r);
    } else {
      UntouchedClusterGrant(s, step.write, u, name, r);
      assert ClusterAllows(s, u, r);
    }
  }

  lemma UntouchedClusterGrant(s: Snapshot, write: Write, u: User, name: string, r: Request)
    requires var after := Commit(s, write);
             name in after.clusterRoleBindings && RulesAllow(ClusterGrant(after, after.clusterRoleBindings[name], u), r)
    requires !(write.PutClusterRole? && write.name == Commit(s, write).clusterRoleBindings[name].roleRef.name)
    requires !(write.PutClusterRoleBinding? && write.name == name)
    ensures name in s.clusterRoleBindings && RulesAllow(ClusterGrant(s, s.clusterRoleBindings[name], u), r)
  {
  }

  lemma RoleStep(s: Snapshot, users: iset<User>, step: Step, u: User, r: Request, key: Scoped)
    requires Ordinary(users) && NobodyEscalates(s, users) && step.user in users
    requires Permitted(s, step.user, step.write) && FromEndpoint(r) && NonEmpty(r.namespace).Some?
    requires var after := Commit(s, step.write);
             && key in after.roleBindings && key.namespace == r.namespace.value
             && RulesAllow(RoleGrant(after, key.namespace, after.roleBindings[key], u), r)
    ensures Allows(s, u, r) || Allows(s, step.user, r)
  {
    var after := Commit(s, step.write);
    var binding, namespace := after.roleBindings[key], key.namespace;
    var ref, rules := binding.roleRef, RoleGrant(after, namespace, binding, u);
    if step.write.PutRole? && ref.kind == "Role" && step.write.at == Scoped(namespace, ref.name) {
      RoleWasHeld(s, users, step.user, "roles", Some(namespace), rules);
      HoldingCovers(s, step.user, rules, Some(namespace), r);
    } else if step.write.PutClusterRole? && ref.kind == "ClusterRole" && step.write.name == ref.name {
      RoleWasHeld(s, users, step.user, "clusterroles", None, rules);
      HoldingCovers(s, step.user, rules, None, r);
    } else if step.write.PutRoleBinding? && step.write.at == key {
      BindingWasHeld(s, users, step.user, ref, Some(namespace));
      HoldingCovers(s, step.user, rules, if ref.kind == "Role" then Some(namespace) else None, r);
    } else {
      UntouchedGrant(s, step.write, u, key, r);
      assert NamespaceAllows(s, namespace, u, r);
    }
  }

  /** A binding that a write touches neither directly nor through its role granted this before. */
  lemma UntouchedGrant(s: Snapshot, write: Write, u: User, key: Scoped, r: Request)
    requires var after := Commit(s, write);
             key in after.roleBindings && RulesAllow(RoleGrant(after, key.namespace, after.roleBindings[key], u), r)
    requires var ref := Commit(s, write).roleBindings[key].roleRef;
             && !(write.PutRole? && ref.kind == "Role" && write.at == Scoped(key.namespace, ref.name))
             && !(write.PutClusterRole? && ref.kind == "ClusterRole" && write.name == ref.name)
             && !(write.PutRoleBinding? && write.at == key)
    ensures key in s.roleBindings && RulesAllow(RoleGrant(s, key.namespace, s.roleBindings[key], u), r)
  {
  }

  lemma StepIsSafe(s: Snapshot, users: iset<User>, step: Step)
    requires Ordinary(users) && NobodyEscalates(s, users) && step.user in users && Permitted(s, step.user, step.write)
    ensures NothingNew(s, Commit(s, step.write), users)
  {
    var after := Commit(s, step.write);
    forall r: Request | FromEndpoint(r) && SomeoneMay(after, users, r) ensures SomeoneMay(s, users, r) {
      var u :| u in users && Allows(after, u, r);
      StepAddsNothing(s, users, step, u, r);
    }
  }

  lemma StillNobody(before: Snapshot, after: Snapshot, users: iset<User>)
    requires NothingNew(before, after, users) && NobodyEscalates(before, users)
    ensures NobodyEscalates(after, users)
  {
    PlainNames();
  }

  lemma PassedBefore(s: Snapshot, run: seq<Step>, users: iset<User>)
    requires Passed(s, run, users) && run != []
    ensures Passed(s, run[..|run| - 1], users)
    ensures var last := run[|run| - 1]; last.user in users && Permitted(After(s, run[..|run| - 1]), last.user, last.write)
  {
    var earlier := run[..|run| - 1];
    forall i | 0 <= i < |earlier|
      ensures earlier[i].user in users && Permitted(After(s, earlier[..i]), earlier[i].user, earlier[i].write)
    {
      assert earlier[..i] == run[..i];
    }
  }

  /** No permission from nothing. Over any run of permitted writes by ordinary users none
      of whom may `escalate` or `bind` at the start: every request some user may make at
      the end, some user could make at the start; and still nobody may `escalate` or `bind`. */
  lemma {:induction false} NoPermissionFromNothing(s: Snapshot, run: seq<Step>, users: iset<User>)
    requires Ordinary(users) && NobodyEscalates(s, users) && Passed(s, run, users)
    ensures NothingNew(s, After(s, run), users) && NobodyEscalates(After(s, run), users)
    decreases |run|
  {
    if run != [] {
      PassedBefore(s, run, users);
      NoPermissionFromNothing(s, run[..|run| - 1], users);
      StepIsSafe(After(s, run[..|run| - 1]), users, run[|run| - 1]);
      StillNobody(s, After(s, run), users);
    }
  }

  lemma OneRule(rule: PolicyRule, r: Request)
    ensures RulesAllow([rule], r) <==> RuleAllows(rule, r)
  {
    assert [rule][0] == rule;
  }

  /** The premise is needed: a user who may `escalate` the role it is bound to can give
      itself any request, although nobody had it. */
  lemma EscalateGainsAnything(r: Request)
    requires FromEndpoint(r) && r.verb != "escalate"
    ensures exists s: Snapshot, step: Step, users: iset<User> ::
      && Ordinary(users) && Passed(s, [step], users) && !SomeoneMay(s, users, r) && SomeoneMay(After(s, [step]), users, r)
  {
    var held := PolicyRule(["escalate"], Some([RBAC_GROUP]), Some(["clusterroles"]), None);
    var wanted := PolicyRule([r.verb], Some([r.group]), Some(["*"]), None);
    var s, users, step := Single([held]), iset{SOMEONE}, Step(SOMEONE, PutClusterRole("role", [wanted]));
    EscalatePasses(held, wanted);
    LoneUser([held], r);
    LoneUser([wanted], r);
    OneRule(held, r);
    OneRule(wanted, r);
    FoundMatches(wanted, r, "*");
    assert !SomeoneMay(s, users, r) && SomeoneMay(After(s, [step]), users, r);
  }

  lemma LoneUser(rules: seq<PolicyRule>, r: Request)
    ensures SomeoneMay(Single(rules), iset{SOMEONE}, r) <==> RulesAllow(rules, r)
  {
    SingleAllows(rules, r);
    if RulesAllow(rules, r) {
      assert SOMEONE in iset{SOMEONE} && Allows(Single(rules), SOMEONE, r);
    }
  }

  lemma EscalatePasses(held: PolicyRule, wanted: PolicyRule)
    requires held == PolicyRule(["escalate"], Some([RBAC_GROUP]), Some(["clusterroles"]), None)
    ensures var step := Step(SOMEONE, PutClusterRole("role", [wanted]));
            && Passed(Single([held]), [step], iset{SOMEONE}) && Ordinary(iset{SOMEONE})
            && After(Single([held]), [step]) == Single([wanted])
  {
    var s, run := Single([held]), [Step(SOMEONE, PutClusterRole("role", [wanted]))];
    MayEscalate(held, [wanted]);
    assert run[..0] == [] && After(s, []) == s;
    assert Passed(s, run, iset{SOMEONE});
    assert s.clusterRoles["role" := [wanted]] == map["role" := [wanted]];
  }

  lemma MayEscalate(held: PolicyRule, rules: seq<PolicyRule>)
    requires held == PolicyRule(["escalate"], Some([RBAC_GROUP]), Some(["clusterroles"]), None)
    ensures Permitted(Single([held]), SOMEONE, PutClusterRole("role", rules))
  {
    PlainNames();
    var ask := Request("escalate", RBAC_GROUP, "clusterroles", None, None, None);
    assert Literal(Permission("escalate", RBAC_GROUP, "clusterroles", None), None) == ask;
    SingleAllows([held], ask);
    OneRule(held, ask);
    assert ResourceMatches(Resources(held)[0], ask);
  }
}
