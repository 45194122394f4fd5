/** Redis glob patterns, and which keys the tenant pattern of the Redis cache selects. */
module Glob {
  import opened Keys

  const META := {'*', '?', '[', '\\'}

  predicate MetaFree(s: string) {
    forall i :: 0 <= i < |s| ==> s[i] !in META
  }

  /** No metacharacter but perhaps a final backslash, which has nothing to escape. */
  predicate Literal(s: string) {
    forall i :: 0 <= i < |s| && s[i] in META ==> s[i] == '\\' && i == |s| - 1
  }

  /** Scans a bracket class body from i: where the class ends, and whether c belongs to the listed characters. */
  function ClassScan(p: string, i: nat, c: char, hit: bool): (r: (nat, bool))
    requires i <= |p|
    ensures i <= r.0 <= |p|
    decreases |p| - i
  {
    if i == |p| then (i, hit)
    else if p[i] == '\\' && i + 1 < |p| then ClassScan(p, i + 2, c, hit || p[i + 1] == c)
    else if p[i] == ']' then (i + 1, hit)
    else if i + 2 < |p| && p[i + 1] == '-' then
      ClassScan(p, i + 3, c, hit || p[i] <= c <= p[i + 2] || p[i + 2] <= c <= p[i])
    else ClassScan(p, i + 1, c, hit || p[i] == c)
  }

  /** The pattern language of the SCAN command: '*', '?', bracket classes and backslash escapes. */
  predicate GlobMatch(p: string, s: string)
    decreases |p| + |s|, |p|
  {
    if p == "" then s == ""
    else if p[0] == '*' then GlobMatch(p[1..], s) || (s != "" && GlobMatch(p, s[1..]))
    else if s == "" then false
    else if p[0] == '?' then GlobMatch(p[1..], s[1..])
    else if p[0] == '[' then
      var negated := |p| > 1 && p[1] == '^';
      var (end, hit) := ClassScan(p, if negated then 2 else 1, s[0], false);
      hit != negated && GlobMatch(p[end..], s[1..])
    else if p[0] == '\\' && |p| > 1 then p[1] == s[0] && GlobMatch(p[2..], s[1..])
    else p[0] == s[0] && GlobMatch(p[1..], s[1..])
  }

  lemma {:induction false} LiteralMatch(p: string, s: string)
    requires Literal(p)
    ensures GlobMatch(p, s) <==> p == s
  {
    if p != "" && s != "" {
      forall i | 0 <= i < |p[1..]| && p[1..][i] in META ensures p[1..][i] == '\\' && i == |p[1..]| - 1 {
        assert p[1..][i] == p[i + 1];
      }
      LiteralMatch(p[1..], s[1..]);
      assert p == [p[0]] + p[1..] && s == [s[0]] + s[1..];
    }
  }

  lemma {:induction false} LiteralPrefix(prefix: string, p: string, s: string)
    requires MetaFree(prefix)
    ensures GlobMatch(prefix + p, s) <==> prefix <= s && GlobMatch(p, s[|prefix|..])
  {
    if prefix == "" {
      assert prefix + p == p && s[0..] == s;
    } else if s != "" {
      var q := prefix[1..];
      assert (prefix + p)[1..] == q + p;
      LiteralPrefix(q, p, s[1..]);
      assert prefix == [prefix[0]] + q && s == [s[0]] + s[1..];
      if prefix <= s {
        assert s[1..][|q|..] == s[|prefix|..];
      }
    }
  }

  lemma {:induction false} StarSkips(p: string, s: string)
    ensures GlobMatch("*" + p, s) <==> exists i :: 0 <= i <= |s| && GlobMatch(p, s[i..])
  {
    assert ("*" + p)[1..] == p;
    assert s[0..] == s;
    if s != "" {
      StarSkips(p, s[1..]);
      if GlobMatch("*" + p, s[1..]) {
        var i :| 0 <= i <= |s| - 1 && GlobMatch(p, s[1..][i..]);
        assert s[1..][i..] == s[i + 1..];
      }
      if i :| 0 < i <= |s| && GlobMatch(p, s[i..]) {
        assert s[1..][i - 1..] == s[i..];
      }
    }
  }

  /** A pattern behind a star, on keys: some separator is followed by a match. */
  lemma PatternOnKey(prefix: string, tenant: string, user: string, owner: string)
    requires MetaFree(prefix)
    ensures GlobMatch(TenantPattern(prefix, tenant), RedisKey(prefix, user, owner))
       <==> exists i :: 0 <= i <= |MemKey(user, owner)| && GlobMatch(":" + tenant, MemKey(user, owner)[i..])
  {
    var k, x := MemKey(user, owner), ":" + tenant;
    assert TenantPattern(prefix, tenant) == prefix + ("*" + x);
    assert RedisKey(prefix, user, owner) == prefix + k;
    LiteralPrefix(prefix, "*" + x, prefix + k);
    assert (prefix + k)[|prefix|..] == k;
    StarSkips(x, k);
  }

  /** Over the keys the cache produces, the tenant pattern and the in-memory suffix test agree. */
  lemma PatternAgreesWithSuffix(prefix: string, tenant: string, user: string, owner: string)
    requires MetaFree(prefix) && Literal(tenant)
    ensures GlobMatch(TenantPattern(prefix, tenant), RedisKey(prefix, user, owner))
       <==> EndsWith(MemKey(user, owner), ":" + tenant)
  {
    var k, x := MemKey(user, owner), ":" + tenant;
    PatternOnKey(prefix, tenant, user, owner);
    forall i | 0 <= i < |x| && x[i] in META ensures x[i] == '\\' && i == |x| - 1 {
      assert x[i] == tenant[i - 1];
    }
    forall i | 0 <= i <= |k| ensures GlobMatch(x, k[i..]) <==> k[i..] == x {
      LiteralMatch(x, k[i..]);
    }
    if |x| <= |k| && k[|k| - |x|..] == x {
      assert GlobMatch(x, k[|k| - |x|..]);
    }
  }

  lemma {:induction false} ClassEndIsFixed(p: string, i: nat, c: char, d: char, h: bool, g: bool)
    requires i <= |p|
    ensures ClassScan(p, i, c, h).0 == ClassScan(p, i, d, g).0
    decreases |p| - i
  {
    if i < |p| {
      if p[i] == '\\' && i + 1 < |p| {
        ClassEndIsFixed(p, i + 2, c, d, h || p[i + 1] == c, g || p[i + 1] == d);
      } else if p[i] != ']' {
        if i + 2 < |p| && p[i + 1] == '-' {
          ClassEndIsFixed(p, i + 3, c, d, h || p[i] <= c <= p[i + 2] || p[i + 2] <= c <= p[i],
                          g || p[i] <= d <= p[i + 2] || p[i + 2] <= d <= p[i]);
        } else {
          ClassEndIsFixed(p, i + 1, c, d, h || p[i] == c, g || p[i] == d);
        }
      }
    }
  }

  predicate Negated(p: string) {
    |p| > 1 && p[1] == '^'
  }

  /** Where the first atom of a pattern ends: a class, an escaped character, or one character. */
  function AtomEnd(p: string): (end: nat)
    requires p != ""
    ensures 1 <= end <= |p|
    ensures end == 1 <==> |p| == 1 || (p[0] != '[' && p[0] != '\\')
  {
    if p[0] == '[' then
      if |p| == 1 then 1
      else
        var end := ClassScan(p, if Negated(p) then 2 else 1, 'x', false).0;
        ClassIsLonger(p);
        end
    else if p[0] == '\\' && |p| > 1 then 2
    else 1
  }

  lemma ClassIsLonger(p: string)
    requires |p| > 1
    ensures ClassScan(p, if Negated(p) then 2 else 1, 'x', false).0 >= 2
  {
    assert !Negated(p) ==> ClassScan(p, 1, 'x', false).0 >= 2;
  }

  /** An atom other than a star takes exactly one character, whose choice does not affect the rest. */
  lemma AtomStep(p: string, s: string)
    requires p != "" && p[0] != '*' && GlobMatch(p, s)
    ensures s != "" && GlobMatch(p[AtomEnd(p)..], s[1..])
    ensures forall t :: t != "" && t[0] == s[0] && GlobMatch(p[AtomEnd(p)..], t[1..]) ==> GlobMatch(p, t)
  {
    if p[0] == '[' {
      var i := if Negated(p) then 2 else 1;
      ClassEndIsFixed(p, i, s[0], 'x', false, false);
    }
  }

  predicate HasStar(p: string)
    decreases |p|
  {
    p != "" && (p[0] == '*' || HasStar(p[AtomEnd(p)..]))
  }

  /** With a star, every match can be made longer by one letter. */
  lemma {:induction false} StarGrows(p: string, s: string) returns (t: string)
    requires HasStar(p) && GlobMatch(p, s)
    ensures GlobMatch(p, t) && |t| == |s| + 1 && (ColonFree(s) ==> ColonFree(t))
    decreases |p|
  {
    if p[0] == '*' {
      t := "x" + s;
      assert t[1..] == s;
    } else {
      AtomStep(p, s);
      var rest := StarGrows(p[AtomEnd(p)..], s[1..]);
      t := [s[0]] + rest;
      assert t[1..] == rest;
    }
  }

  /** Without one, a match is no longer than the pattern; one as long as it means no class and no escape. */
  lemma {:induction false} StarlessMatch(p: string, s: string)
    requires !HasStar(p) && GlobMatch(p, s)
    ensures |s| <= |p|
    ensures |s| == |p| ==> Simple(p)
    decreases |p|
  {
    if p != "" {
      AtomStep(p, s);
      StarlessMatch(p[AtomEnd(p)..], s[1..]);
      assert p == [p[0]] + p[1..];
      assert p[0] == '[' ==> |p| > 1 || !GlobMatch(p, s);
    }
  }

  /** Every character is an atom of its own, and none is a star. */
  predicate Simple(p: string) {
    '*' !in p && '[' !in p && forall i :: 0 <= i < |p| && p[i] == '\\' ==> i == |p| - 1
  }

  /** Another tenant id, obtained by filling every '?' of this one with a letter. */
  function Instance(tenant: string): (r: string)
    ensures |r| == |tenant|
    ensures '?' !in r
    ensures ColonFree(tenant) ==> ColonFree(r)
  {
    if tenant == "" then ""
    else
      assert tenant == [tenant[0]] + tenant[1..];
      [if tenant[0] == '?' then 'x' else tenant[0]] + Instance(tenant[1..])
  }

  lemma {:induction false} InstanceMatches(p: string)
    requires Simple(p)
    ensures GlobMatch(p, Instance(p))
  {
    if p != "" {
      assert p == [p[0]] + p[1..];
      assert forall i :: 0 <= i < |p[1..]| ==> p[1..][i] == p[i + 1];
      InstanceMatches(p[1..]);
      assert Instance(p)[1..] == Instance(p[1..]);
    }
  }

  /** A pattern matches itself and nothing else (among colon-free strings) if and only if it is literal. */
  lemma SoleMatchIff(p: string)
    requires ColonFree(p)
    ensures (forall s :: ColonFree(s) ==> (GlobMatch(p, s) <==> s == p)) <==> Literal(p)
  {
    if Literal(p) {
      forall s ensures GlobMatch(p, s) <==> s == p {
        LiteralMatch(p, s);
      }
    } else if GlobMatch(p, p) {
      if HasStar(p) {
        var t := StarGrows(p, p);
      } else {
        StarlessMatch(p, p);
        InstanceMatches(p);
        assert '?' in p && Instance(p) != p;
      }
    }
  }

  /** With no user in front, the key of a colon-free owner is matched at its one separator only. */
  lemma PatternOnBareKey(prefix: string, tenant: string, owner: string)
    requires MetaFree(prefix) && ColonFree(owner)
    ensures GlobMatch(TenantPattern(prefix, tenant), RedisKey(prefix, "", owner)) <==> GlobMatch(tenant, owner)
  {
    var k, x := MemKey("", owner), ":" + tenant;
    PatternOnKey(prefix, tenant, "", owner);
    assert x[1..] == tenant && k == ":" + owner && k[0..] == k && k[1..] == owner;
    assert GlobMatch(x, k[0..]) <==> GlobMatch(tenant, owner);
    forall i | 0 < i <= |k| ensures !GlobMatch(x, k[i..]) {
      assert i < |k| ==> k[i..][0] == owner[i - 1];
    }
  }

  /**
   * Exactly when the tenant pattern selects the tenant's own keys and no others: when the tenant id is literal. A
   * wildcard drags in other tenants; a class or an escape loses keys of its own.
   */
  lemma TenantPatternExactIff(prefix: string, tenant: string)
    requires MetaFree(prefix) && ColonFree(tenant)
    ensures (forall user: string, owner: string :: ColonFree(owner) ==>
               (GlobMatch(TenantPattern(prefix, tenant), RedisKey(prefix, user, owner)) <==> owner == tenant))
       <==> Literal(tenant)
  {
    if Literal(tenant) {
      forall user: string, owner: string | ColonFree(owner)
        ensures GlobMatch(TenantPattern(prefix, tenant), RedisKey(prefix, user, owner)) <==> owner == tenant
      {
        PatternAgreesWithSuffix(prefix, tenant, user, owner);
        SuffixSelectsTenant(user, owner, tenant);
      }
    } else {
      SoleMatchIff(tenant);
      var owner :| ColonFree(owner) && (GlobMatch(tenant, owner) <==> owner != tenant);
      PatternOnBareKey(prefix, tenant, owner);
    }
  }
}
