/** Cache keys: how (user, tenant) pairs become strings, and what the tenant suffix test selects. */
module Keys {

  datatype Pair = Pair(user: string, tenant: string)

  predicate ColonFree(s: string) {
    ':' !in s
  }

  /** The in-memory store key, also the in-flight key. */
  function MemKey(user: string, tenant: string): string {
    user + ":" + tenant
  }

  function KeyOf(p: Pair): string {
    MemKey(p.user, p.tenant)
  }

  function RedisKey(prefix: string, user: string, tenant: string): string {
    prefix + user + ":" + tenant
  }

  function TenantPattern(prefix: string, tenant: string): string {
    prefix + "*:" + tenant
  }

  predicate EndsWith(s: string, suffix: string) {
    if |suffix| > |s| then false else s[|s| - |suffix|..] == suffix
  }

  ghost predicate InjectiveOn(pairs: set<Pair>) {
    forall p, q :: p in pairs && q in pairs && KeyOf(p) == KeyOf(q) ==> p == q
  }

  /** Two readings of one key: the reading with the longer user swallows the other's separator. */
  lemma LongerUserSwallowsSeparator(p: Pair, q: Pair)
    requires KeyOf(p) == KeyOf(q) && |p.user| < |q.user|
    ensures !ColonFree(p.tenant) && !ColonFree(q.user)
  {
    var k, i := KeyOf(p), |q.user| - |p.user| - 1;
    assert p.tenant[i] == k[|q.user|] == ':';
    assert q.user[|p.user|] == k[|p.user|] == ':';
  }

  lemma EqualLengthReadings(p: Pair, q: Pair)
    requires KeyOf(p) == KeyOf(q) && |p.user| == |q.user|
    ensures p == q
  {
    assert p.user == KeyOf(p)[..|p.user|] == q.user;
    assert p.tenant == KeyOf(p)[|p.user| + 1..] == q.tenant;
  }

  /** Colon-free tenants give every pair its own key. */
  lemma KeysInjective(p: Pair, q: Pair)
    requires ColonFree(p.tenant) && ColonFree(q.tenant)
    ensures KeyOf(p) == KeyOf(q) <==> p == q
  {
    if KeyOf(p) == KeyOf(q) {
      if |p.user| < |q.user| {
        LongerUserSwallowsSeparator(p, q);
      } else if |q.user| < |p.user| {
        LongerUserSwallowsSeparator(q, p);
      } else {
        EqualLengthReadings(p, q);
      }
    }
  }

  lemma ColonFreeTenantsDoNotCollide(pairs: set<Pair>)
    requires forall p :: p in pairs ==> ColonFree(p.tenant)
    ensures InjectiveOn(pairs)
  {
    forall p, q | p in pairs && q in pairs && KeyOf(p) == KeyOf(q) ensures p == q {
      KeysInjective(p, q);
    }
  }

  /** A pair is the only one with its key exactly when neither half contains the separator. */
  lemma SolePreimage(p: Pair)
    ensures (forall q: Pair :: KeyOf(q) == KeyOf(p) ==> q == p) <==> ColonFree(p.user) && ColonFree(p.tenant)
  {
    if !ColonFree(p.user) {
      var i :| 0 <= i < |p.user| && p.user[i] == ':';
      var q := Pair(p.user[..i], p.user[i + 1..] + ":" + p.tenant);
      assert KeyOf(q) == KeyOf(p) && q != p;
    } else if !ColonFree(p.tenant) {
      var i :| 0 <= i < |p.tenant| && p.tenant[i] == ':';
      var q := Pair(p.user + ":" + p.tenant[..i], p.tenant[i + 1..]);
      assert KeyOf(q) == KeyOf(p) && q != p;
    } else {
      forall q: Pair | KeyOf(q) == KeyOf(p) ensures q == p {
        if |p.user| < |q.user| {
          LongerUserSwallowsSeparator(p, q);
        } else if |q.user| < |p.user| {
          LongerUserSwallowsSeparator(q, p);
        } else {
          EqualLengthReadings(p, q);
        }
      }
    }
  }

  /** No tenant ends with the separator followed by another one. */
  predicate Apart(tenants: set<string>) {
    forall t, u :: t in tenants && u in tenants ==> !EndsWith(t, ":" + u)
  }

  lemma ColonFreeTenantsAreApart(tenants: set<string>)
    requires forall t :: t in tenants ==> ColonFree(t)
    ensures Apart(tenants)
  {
    forall t, u | t in tenants && u in tenants ensures !EndsWith(t, ":" + u) {
      assert (":" + u)[0] == ':';
      assert |t| > |u| ==> t[|t| - |u| - 1..][0] != ':';
    }
  }

  /** The reading with the longer tenant ends with the separator and the shorter tenant. */
  lemma LongerTenantEndsWithShorter(p: Pair, q: Pair)
    requires KeyOf(p) == KeyOf(q) && |p.tenant| > |q.tenant|
    ensures EndsWith(p.tenant, ":" + q.tenant)
  {
    var k, x := KeyOf(p), ":" + q.tenant;
    assert k == q.user + x;
    assert k[|p.user| + 1..] == p.tenant;
    assert p.tenant[|p.tenant| - |x|..] == k[|k| - |x|..] == x;
  }

  /** Tenants that are apart give every pair its own key. */
  lemma KeysApart(tenants: set<string>, p: Pair, q: Pair)
    requires Apart(tenants) && p.tenant in tenants && q.tenant in tenants
    ensures KeyOf(p) == KeyOf(q) <==> p == q
  {
    if KeyOf(p) == KeyOf(q) {
      if |p.tenant| > |q.tenant| {
        LongerTenantEndsWithShorter(p, q);
      } else if |q.tenant| > |p.tenant| {
        LongerTenantEndsWithShorter(q, p);
      } else {
        EqualLengthReadings(p, q);
      }
    }
  }

  /** And among them the suffix test picks out the tenant's own entries. */
  lemma SuffixApart(tenants: set<string>, user: string, owner: string, tenant: string)
    requires Apart(tenants) && owner in tenants && tenant in tenants
    ensures EndsWith(MemKey(user, owner), ":" + tenant) <==> owner == tenant
  {
    var k, x := MemKey(user, owner), ":" + tenant;
    if owner == tenant {
      assert k == user + x;
      assert k[|k| - |x|..] == x;
    }
    if EndsWith(k, x) {
      var rest := k[..|k| - |x|];
      assert k == rest + x == rest + ":" + tenant == MemKey(rest, tenant);
      KeysApart(tenants, Pair(user, owner), Pair(rest, tenant));
    }
  }

  /** In particular colon-free tenants are told apart. */
  lemma SuffixSelectsTenant(user: string, owner: string, tenant: string)
    requires ColonFree(owner) && ColonFree(tenant)
    ensures EndsWith(MemKey(user, owner), ":" + tenant) <==> owner == tenant
  {
    ColonFreeTenantsAreApart({owner, tenant});
    SuffixApart({owner, tenant}, user, owner, tenant);
  }

  function LastColon(s: string): (i: nat)
    requires !ColonFree(s)
    ensures i < |s| && s[i] == ':' && ColonFree(s[i + 1..])
  {
    if s[|s| - 1] == ':' then |s| - 1
    else
      assert s == s[..|s| - 1] + [s[|s| - 1]];
      var i := LastColon(s[..|s| - 1]);
      assert s[i + 1..] == s[..|s| - 1][i + 1..] + [s[|s| - 1]];
      i
  }

  /** Among colon-free owners the suffix test is exact for a tenant if and only if the tenant has no colon. */
  lemma SuffixExactIff(tenant: string)
    ensures (forall user: string, owner: string :: ColonFree(owner) ==>
               (EndsWith(MemKey(user, owner), ":" + tenant) <==> owner == tenant))
       <==> ColonFree(tenant)
  {
    if ColonFree(tenant) {
      forall user: string, owner: string | ColonFree(owner)
        ensures EndsWith(MemKey(user, owner), ":" + tenant) <==> owner == tenant
      {
        SuffixSelectsTenant(user, owner, tenant);
      }
    } else {
      var i := LastColon(tenant);
      var user, owner := ":" + tenant[..i], tenant[i + 1..];
      assert tenant == tenant[..i] + ":" + tenant[i + 1..];
      assert MemKey(user, owner) == ":" + tenant;
      assert EndsWith(MemKey(user, owner), ":" + tenant) && owner != tenant;
    }
  }
}
