/** The generated tables and the decision functions over them. */
module RolePermissions {
  import opened Basics
  import opened CacheSpec

  const SCOPE_SELF := "self"
  const SCOPE_PLATFORM := "platform"
  const SCOPE_PROJECT := "project"
  const SCOPE_PLATFORM_PROJECT := "platform/project"

  datatype Tables = Tables(
    selfPermissions: seq<Permission>,
    platformPermissions: seq<Permission>,
    projectPermissions: seq<Permission>,
    dualPermissions: seq<Permission>,
    permScope: map<Permission, string>,
    roles: seq<string>,
    rolePermissions: map<string, seq<Permission>>)

  /** A map index expression: the zero value for a missing key. */
  function ScopeOf(t: Tables, p: Permission): string {
    if p in t.permScope then t.permScope[p] else ""
  }

  predicate IsValidPermission(t: Tables, p: Permission) {
    p in t.permScope
  }

  predicate IsValidRole(t: Tables, r: string) {
    r in t.roles
  }

  predicate IsSelfScope(t: Tables, p: Permission) {
    ScopeOf(t, p) == SCOPE_SELF
  }

  predicate IsPlatformGrantable(t: Tables, p: Permission) {
    ScopeOf(t, p) == SCOPE_PLATFORM || ScopeOf(t, p) == SCOPE_PLATFORM_PROJECT
  }

  predicate IsTenantGrantable(t: Tables, p: Permission) {
    p in t.permScope ==> ScopeOf(t, p) == SCOPE_PROJECT || ScopeOf(t, p) == SCOPE_PLATFORM_PROJECT
  }

  function ResolvePermissions(t: Tables, r: string): seq<Permission> {
    if r in t.rolePermissions then t.rolePermissions[r] else []
  }

  predicate RoleHasPermission(t: Tables, r: string, p: Permission) {
    p in ResolvePermissions(t, r)
  }

  /** The scan over the remaining roles, leaving at the first that lacks the permission. */
  predicate EveryRoleHas(t: Tables, roles: seq<string>, p: Permission) {
    roles == [] || (RoleHasPermission(t, roles[0], p) && EveryRoleHas(t, roles[1..], p))
  }

  predicate IsUniversalPerm(t: Tables, p: Permission) {
    IsSelfScope(t, p) || EveryRoleHas(t, t.roles, p)
  }

  lemma {:induction false} EveryRoleHasIff(t: Tables, roles: seq<string>, p: Permission)
    ensures EveryRoleHas(t, roles, p) <==> forall r :: r in roles ==> RoleHasPermission(t, r, p)
  {
    if roles != [] {
      assert roles == [roles[0]] + roles[1..];
      EveryRoleHasIff(t, roles[1..], p);
    }
  }

  /** What the decision layer needs of its tables. */
  ghost predicate ValidTables(t: Tables) {
    && NoDup(t.selfPermissions)
    && (forall p :: p in t.selfPermissions <==> IsSelfScope(t, p))
    && t.roles != []
  }
}
