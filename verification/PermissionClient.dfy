/** The client facade: cache-first resolution and the three questions asked of it. */
module PermissionClient {
  import opened Basics
  import opened Keys
  import opened CacheSpec
  import opened InMemoryCache
  import opened Protocol
  import opened RolePermissions
  import opened Fold
  import opened InFlight

  /** What a Helios request comes back with. */
  datatype Reply = Answered(resolution: Resolution) | Unreachable(code: int)

  /** The outcome of a resolution on values: the cached array, or what Helios says. */
  function Resolve(contents: Store, p: Pair, reply: Reply): Answer {
    if KeyOf(p) in contents then Granted(contents[KeyOf(p)])
    else match reply
      case Answered(r) => Granted(Normalise(r))
      case Unreachable(code) => Failed(code)
  }

  /** The cache afterwards: only an answered miss leaves an entry. */
  function StoreAfter(contents: Store, p: Pair, reply: Reply): Store {
    if KeyOf(p) in contents || reply.Unreachable? then contents
    else contents[KeyOf(p) := Normalise(reply.resolution)]
  }

  /** The member is active and Helios sent a list, be it empty. */
  predicate HasList(r: Resolution) {
    r.Active? && r.perms.Some?
  }

  /** Who is inactive, no member, or active without a list, is granted nothing but what is universal, and cached so. */
  lemma WithoutListNothingIsGranted(t: Tables, contents: Store, p: Pair, r: Resolution, perm: Permission)
    requires KeyOf(p) !in contents && !HasList(r) && !IsUniversalPerm(t, perm)
    ensures var a := Resolve(contents, p, Answered(r));
            && a == Granted([]) && HasPermission(t, a, perm) == Ok(false)
            && StoreAfter(contents, p, Answered(r)) == contents[KeyOf(p) := []]
  {
  }

  /** An active member is granted what the list says. */
  lemma ListIsGranted(t: Tables, contents: Store, p: Pair, v: seq<Permission>, perm: Permission)
    requires KeyOf(p) !in contents && !IsUniversalPerm(t, perm)
    ensures var r := Answered(Active(Some(v)));
            && HasPermission(t, Resolve(contents, p, r), perm) == Ok(perm in v)
            && StoreAfter(contents, p, r) == contents[KeyOf(p) := v]
  {
  }

  datatype Verdict = Verdict(allowed: bool, reason: string, permissions: seq<Permission>)

  const GRANTED := "granted_by_role"
  const NOT_GRANTED := "not_in_role_perm_set"

  /** The three answers as functions of a resolution. */
  function HasPermission(t: Tables, a: Answer, perm: Permission): Result<bool, int> {
    if IsUniversalPerm(t, perm) then Ok(true)
    else if a.Failed? then Err(a.code)
    else Ok(perm in a.perms)
  }

  function UserPermissions(t: Tables, a: Answer): Result<seq<Permission>, int> {
    if a.Failed? then Err(a.code) else Ok(Folded(t.selfPermissions, a.perms))
  }

  function Explanation(t: Tables, a: Answer, perm: Permission): Result<Verdict, int> {
    if IsUniversalPerm(t, perm) then Ok(Verdict(true, GRANTED, Folded(t.selfPermissions, [])))
    else if a.Failed? then Err(a.code)
    else
      var allowed := perm in a.perms;
      Ok(Verdict(allowed, if allowed then GRANTED else NOT_GRANTED, Folded(t.selfPermissions, a.perms)))
  }

  /**
   * Over valid tables and one resolution the three questions agree: on what is granted when it succeeded, and on the
   * error, for every permission that is not universal, when it failed.
   */
  lemma FacadeAgrees(t: Tables, a: Answer, perm: Permission)
    requires ValidTables(t)
    ensures var has, all, why := HasPermission(t, a, perm), UserPermissions(t, a), Explanation(t, a, perm);
            && (a.Granted? ==>
                  && has.Ok? && all.Ok? && why.Ok?
                  && why.value.allowed == has.value
                  && (has.value <==> perm in all.value || forall r :: r in t.roles ==> RoleHasPermission(t, r, perm))
                  && (!IsUniversalPerm(t, perm) ==> (why.value.allowed <==> perm in why.value.permissions))
                  && (!IsUniversalPerm(t, perm) ==> why.value.permissions == all.value)
                  && t.selfPermissions <= all.value
                  && (forall x :: x in all.value <==> x in t.selfPermissions || x in a.perms))
            && (IsUniversalPerm(t, perm) ==>
                  has == Ok(true) && why.Ok? && why.value.allowed && why.value.permissions == t.selfPermissions)
            && (why.Ok? ==>
                  why.value.reason == if why.value.allowed then "granted_by_role" else "not_in_role_perm_set")
            && (a.Failed? ==>
                  && all == Err(a.code)
                  && (IsUniversalPerm(t, perm) <==> has == Ok(true))
                  && (IsUniversalPerm(t, perm) <==> why.Ok?)
                  && (!IsUniversalPerm(t, perm) ==> has == Err(a.code) && why == Err(a.code)))
  {
    EveryRoleHasIff(t, t.roles, perm);
    if a.Granted? {
      FirstOccurrencesIsDedup(t.selfPermissions + a.perms);
      SelfComesFirst(t.selfPermissions, a.perms);
    }
    assert t.selfPermissions + [] == t.selfPermissions;
    DistinctStays(t.selfPermissions);
  }

  ghost predicate IsAnswer(perms: array?<Permission>, err: Option<int>, a: Answer)
    reads perms
  {
    match a
    case Granted(v) => perms != null && perms[..] == v && err.None?
    case Failed(code) => perms == null && err == Some(code)
  }

  datatype ExplanationOut = ExplanationOut(allowed: bool, reason: string, permissions: array<Permission>)

  class Client {
    const cache: InMemoryPermissionCache
    const inFlight: InFlightTable
    const tables: Tables
    const selfPermissions: array<Permission>

    constructor (cache: InMemoryPermissionCache, tables: Tables)
      ensures this.cache == cache && this.tables == tables && fresh(inFlight) && fresh(selfPermissions)
      ensures Ready()
    {
      this.cache := cache;
      this.tables := tables;
      inFlight := new InFlightTable();
      var n := |tables.selfPermissions|;
      selfPermissions := new Permission[n](i requires 0 <= i < n => tables.selfPermissions[i]);
      new;
      assert selfPermissions[..] == tables.selfPermissions;
    }

    /** No call is under way, and the self list is the generated one. */
    ghost predicate Ready()
      reads inFlight, selfPermissions
    {
      inFlight.waiter == map[] && selfPermissions[..] == tables.selfPermissions
    }

    /** The Helios fetch and the NX write. The array handed on is not the one the cache keeps. */
    method FetchAndPopulate(user: string, tenant: string, reply: Reply)
      returns (perms: array?<Permission>, err: Option<int>)
      modifies cache
      ensures perms != null ==> fresh(perms) && perms !in cache.Owned()
      ensures fresh(cache.Owned() - old(cache.Owned()))
      ensures reply.Unreachable? ==>
                IsAnswer(perms, err, Failed(reply.code)) && cache.Contents() == old(cache.Contents())
      ensures reply.Answered? ==>
                && IsAnswer(perms, err, Granted(Normalise(reply.resolution)))
                && cache.Contents() == StoreStep(old(cache.Contents()),
                     CacheSpec.Set(Pair(user, tenant), Some(Normalise(reply.resolution))))
      ensures reply.Answered? && HasList(reply.resolution) ==>
                perms != null && perms[..] == reply.resolution.perms.value
      ensures reply.Answered? && !HasList(reply.resolution) ==> perms != null && perms.Length == 0
      ensures var key, before, after := MemKey(user, tenant), old(cache.Contents()), cache.Contents();
              && (key in before || reply.Unreachable? ==> after == before)
              && (key !in before && reply.Answered? ==> perms != null && after == before[key := perms[..]])
    {
      if reply.Unreachable? {
        return null, Some(reply.code);
      }
      var v := Normalise(reply.resolution);
      perms := new Permission[|v|](i requires 0 <= i < |v| => v[i]);
      err := None;
      assert perms[..] == v;
      cache.Set(user, tenant, perms);
    }

    /** The in-flight section with no other call under way: register, fetch, publish, leave, return the result. */
    method GetOrStart(user: string, tenant: string, reply: Reply)
      returns (perms: array?<Permission>, err: Option<int>)
      requires Ready()
      modifies cache, inFlight
      ensures Ready()
      ensures perms != null ==> fresh(perms) && perms !in cache.Owned()
      ensures fresh(cache.Owned() - old(cache.Owned()))
      ensures reply.Unreachable? ==>
                IsAnswer(perms, err, Failed(reply.code)) && cache.Contents() == old(cache.Contents())
      ensures reply.Answered? ==>
                && IsAnswer(perms, err, Granted(Normalise(reply.resolution)))
                && cache.Contents() == StoreStep(old(cache.Contents()),
                     CacheSpec.Set(Pair(user, tenant), Some(Normalise(reply.resolution))))
    {
      var key := MemKey(user, tenant);
      var e, started := inFlight.Enter(key);
      perms, err := FetchAndPopulate(user, tenant, reply);
      ghost var filled := cache.Contents();
      inFlight.Settle(key, e, perms, err);
      assert cache.Contents() == filled;
      return e.res, e.err;
    }

    /** Cache first, then the in-flight table. */
    method FetchAndCache(user: string, tenant: string, reply: Reply)
      returns (perms: array?<Permission>, err: Option<int>)
      requires Ready()
      modifies cache, inFlight
      ensures Ready()
      ensures perms != null ==> fresh(perms) && perms !in cache.Owned()
      ensures fresh(cache.Owned() - old(cache.Owned()))
      ensures IsAnswer(perms, err, Resolve(old(cache.Contents()), Pair(user, tenant), reply))
      ensures cache.Contents() == StoreAfter(old(cache.Contents()), Pair(user, tenant), reply)
    {
      perms := cache.Get(user, tenant);
      if perms != null {
        return perms, None;
      }
      perms, err := GetOrStart(user, tenant, reply);
    }

    method Contains(perms: array<Permission>, perm: Permission) returns (found: bool)
      ensures found <==> perm in perms[..]
    {
      for i := 0 to perms.Length
        invariant perm !in perms[..i]
      {
        if perms[i] == perm {
          return true;
        }
      }
      assert perms[..perms.Length] == perms[..];
      found := false;
    }

    method CallerHasPermission(user: string, tenant: string, perm: Permission, reply: Reply)
      returns (allowed: bool, err: Option<int>)
      requires Ready()
      modifies cache, inFlight
      ensures Ready()
      ensures var a := Resolve(old(cache.Contents()), Pair(user, tenant), reply);
              HasPermission(tables, a, perm) == if err.Some? then Err(err.value) else Ok(allowed)
      ensures err.Some? ==> !allowed
      ensures fresh(cache.Owned() - old(cache.Owned()))
      ensures IsUniversalPerm(tables, perm) ==> unchanged(cache) && unchanged(inFlight)
      ensures !IsUniversalPerm(tables, perm) ==>
                cache.Contents() == StoreAfter(old(cache.Contents()), Pair(user, tenant), reply)
    {
      if IsUniversalPerm(tables, perm) {
        return true, None;
      }
      var perms, failure := FetchAndCache(user, tenant, reply);
      if failure.Some? {
        return false, failure;
      }
      allowed := Contains(perms, perm);
      err := None;
    }

    method GetUserPermissions(user: string, tenant: string, reply: Reply)
      returns (out: array?<Permission>, err: Option<int>)
      requires Ready()
      modifies cache, inFlight
      ensures Ready()
      ensures out != null ==> fresh(out) && out !in cache.Owned() && out != selfPermissions
      ensures fresh(cache.Owned() - old(cache.Owned()))
      ensures match UserPermissions(tables, Resolve(old(cache.Contents()), Pair(user, tenant), reply))
              case Ok(v) => out != null && out[..] == v && err.None?
              case Err(code) => out == null && err == Some(code)
      ensures cache.Contents() == StoreAfter(old(cache.Contents()), Pair(user, tenant), reply)
    {
      var perms, failure := FetchAndCache(user, tenant, reply);
      if failure.Some? {
        return null, failure;
      }
      out := FoldSelfPermissions(selfPermissions, perms);
      err := None;
    }

    method Explain(user: string, tenant: string, perm: Permission, reply: Reply)
      returns (out: Option<ExplanationOut>, err: Option<int>)
      requires Ready()
      modifies cache, inFlight
      ensures Ready()
      ensures out.Some? ==> fresh(out.value.permissions) && out.value.permissions !in cache.Owned()
      ensures fresh(cache.Owned() - old(cache.Owned()))
      ensures match Explanation(tables, Resolve(old(cache.Contents()), Pair(user, tenant), reply), perm)
              case Ok(v) => && out.Some? && err.None?
                            && v == Verdict(out.value.allowed, out.value.reason, out.value.permissions[..])
              case Err(code) => out.None? && err == Some(code)
      ensures IsUniversalPerm(tables, perm) ==> unchanged(cache) && unchanged(inFlight)
      ensures !IsUniversalPerm(tables, perm) ==>
                cache.Contents() == StoreAfter(old(cache.Contents()), Pair(user, tenant), reply)
    {
      err := None;
      if IsUniversalPerm(tables, perm) {
        var none := new Permission[0];
        var universal := FoldSelfPermissions(selfPermissions, none);
        assert none[..] == [];
        return Some(ExplanationOut(true, GRANTED, universal)), None;
      }
      var perms, failure := FetchAndCache(user, tenant, reply);
      if failure.Some? {
        return None, failure;
      }
      var full := FoldSelfPermissions(selfPermissions, perms);
      var found := Contains(perms, perm);
      out := Some(ExplanationOut(found, if found then GRANTED else NOT_GRANTED, full));
    }
  }
}
