/** RBAC evaluation over an authorization snapshot. */
module Rbac {
  import opened Wrappers

  const RBAC_GROUP := "rbac.authorization.k8s.io"
  const MASTERS := "system:masters"

  datatype User = User(name: string, groups: seq<string>) {
    predicate Superuser() { MASTERS in groups }
  }

  datatype Subject = Subject(kind: string, apiGroup: Option<string>, name: string, namespace: Option<string>)
  datatype PolicyRule = PolicyRule(verbs: seq<string>, apiGroups: Option<seq<string>>, resources: Option<seq<string>>,
                                   resourceNames: Option<seq<string>>)
  datatype RoleRef = RoleRef(apiGroup: string, kind: string, name: string)
  datatype Binding = Binding(roleRef: RoleRef, subjects: seq<Subject>)

  /** A namespace and a name. */
  datatype Scoped = Scoped(namespace: string, name: string)

  /** The stored roles and bindings; the registry holds at most one object per name. */
  datatype Snapshot = Snapshot(
    roles: map<Scoped, seq<PolicyRule>>,
    clusterRoles: map<string, seq<PolicyRule>>,
    roleBindings: map<Scoped, Binding>,
    clusterRoleBindings: map<string, Binding>)

  datatype Request = Request(verb: string, group: string, resource: string, subresource: Option<string>,
                             namespace: Option<string>, name: Option<string>)

  function NonEmpty(s: Option<string>): Option<string> {
    if s.Some? && s.value != "" then s else None
  }

  predicate Contains(values: seq<string>, value: string) { "*" in values || value in values }

  predicate SubjectMatches(s: Subject, user: User, bindingNamespace: Option<string>) {
    if s.kind == "User" then s.apiGroup == Some(RBAC_GROUP) && s.name == user.name
    else if s.kind == "Group" then s.apiGroup == Some(RBAC_GROUP) && s.name in user.groups
    else if s.kind == "ServiceAccount" then
      var namespace := NonEmpty(if s.namespace.Some? then s.namespace else bindingNamespace);
      && s.apiGroup.GetOr("") == ""
      && namespace.Some? && user.name == "system:serviceaccount:" + namespace.value + ":" + s.name
    else false
  }

  predicate SubjectsMatch(subjects: seq<Subject>, user: User, bindingNamespace: Option<string>) {
    exists i | 0 <= i < |subjects| :: SubjectMatches(subjects[i], user, bindingNamespace)
  }

  /** The string a rule's resources are compared with: `resource` or `resource/subresource`. */
  function ResourceText(r: Request): string {
    match NonEmpty(r.subresource)
    case Some(sub) => r.resource + "/" + sub
    case None => r.resource
  }

  predicate ResourceMatches(v: string, r: Request) {
    || v == "*"
    || v == ResourceText(r)
    || (NonEmpty(r.subresource).Some? && v == "*/" + r.subresource.value)
  }

  predicate RuleAllows(rule: PolicyRule, r: Request) {
    && Contains(rule.verbs, r.verb)
    && Contains(rule.apiGroups.GetOr([]), r.group)
    && (exists i | 0 <= i < |rule.resources.GetOr([])| :: ResourceMatches(rule.resources.GetOr([])[i], r))
    && (rule.resourceNames.GetOr([]) == [] || (r.name.Some? && r.name.value in rule.resourceNames.GetOr([])))
  }

  predicate RulesAllow(rules: seq<PolicyRule>, r: Request) {
    exists i | 0 <= i < |rules| :: RuleAllows(rules[i], r)
  }

  /** The rules a cluster role binding grants to a user; nothing if it does not apply. */
  function ClusterGrant(s: Snapshot, binding: Binding, user: User): seq<PolicyRule> {
    if binding.roleRef.apiGroup == RBAC_GROUP && binding.roleRef.kind == "ClusterRole"
       && SubjectsMatch(binding.subjects, user, None) && binding.roleRef.name in s.clusterRoles
    then s.clusterRoles[binding.roleRef.name]
    else []
  }

  function RoleGrant(s: Snapshot, namespace: string, binding: Binding, user: User): seq<PolicyRule> {
    var ref := binding.roleRef;
    if ref.apiGroup != RBAC_GROUP || !SubjectsMatch(binding.subjects, user, Some(namespace)) then []
    else if ref.kind == "Role" && Scoped(namespace, ref.name) in s.roles then s.roles[Scoped(namespace, ref.name)]
    else if ref.kind == "ClusterRole" && ref.name in s.clusterRoles then s.clusterRoles[ref.name]
    else []
  }

  predicate ClusterAllows(s: Snapshot, user: User, r: Request) {
    exists name | name in s.clusterRoleBindings :: RulesAllow(ClusterGrant(s, s.clusterRoleBindings[name], user), r)
  }

  predicate NamespaceAllows(s: Snapshot, namespace: string, user: User, r: Request) {
    exists key | key in s.roleBindings ::
      key.namespace == namespace && RulesAllow(RoleGrant(s, namespace, s.roleBindings[key], user), r)
  }

  predicate Allows(s: Snapshot, user: User, r: Request) {
    || user.Superuser()
    || ClusterAllows(s, user, r)
    || (NonEmpty(r.namespace).Some? && NamespaceAllows(s, r.namespace.value, user, r))
  }
}
