/** The compiler keeps the meaning: when an emitted file compiles, and what its decision functions then answer. */
module CodegenMeaning {
  import opened Basics
  import opened Names
  import opened Sorting
  import opened RolePermissions
  import opened Codegen
  import opened GoLoader

  function VocabularyNames(c: Contract): seq<string> {
    NamesOf(Vocabulary(c))
  }

  /** The generated constants have distinct identifiers. */
  predicate DistinctConsts(c: Contract) {
    NoDup(Map(RoleConst, c.roles)) && NoDup(Idents(VocabularyNames(c)))
  }

  /** Names that print as identifiers: letters, digits and underscores, with colons in permissions only. */
  predicate LexicalNames(c: Contract) {
    (forall r :: r in c.roles ==> IsIdent(r)) && (forall n :: n in VocabularyNames(c) ==> IsNameText(n))
  }

  predicate IsNameText(n: string) {
    forall i :: 0 <= i < |n| ==> IdentChar(n[i]) || n[i] == ':'
  }

  /** The version and the services stay on their comment lines. */
  predicate PlainHeader(c: Contract) {
    OneLine(c.version) && forall s :: s in c.services ==> OneLine(s)
  }

  predicate OneLine(s: string) {
    '\n' !in s && '\0' !in s && '\U{FEFF}' !in s
  }

  /** None of them is taken: the bare type names, and the cache interface. */
  predicate ReservedFree(c: Contract) {
    "" !in c.roles && forall n :: n in VocabularyNames(c) ==> ConstName(n) !in {PERMISSION, PERMISSION + "Cache"}
  }

  /** Every identifier in a role's block is that of a declared constant. */
  predicate RolePermsDeclared(c: Contract) {
    forall r :: r in c.roles ==> IdentsAmong(RolePermsOf(c, r), VocabularyNames(c))
  }

  predicate IdentsAmong(ms: seq<string>, names: seq<string>) {
    forall m :: m in ms ==> ConstName(m) in Idents(names)
  }

  lemma NoDupConcat<A>(a: seq<A>, b: seq<A>)
    ensures NoDup(a + b) <==> NoDup(a) && NoDup(b) && forall x :: x in a ==> x !in b
  {
    var s := a + b;
    if NoDup(s) {
      assert a == s[..|a|] && b == s[|a|..];
      forall x | x in a ensures x !in b {
        var i :| 0 <= i < |a| && a[i] == x;
        forall j | 0 <= j < |b| ensures b[j] != x {
          assert s[i] != s[|a| + j];
        }
      }
    } else {
      var i, j :| 0 <= i < j < |s| && s[i] == s[j];
      if j < |a| {
        assert a[i] == a[j];
      } else if i >= |a| {
        assert b[i - |a|] == b[j - |a|];
      } else {
        assert s[i] in a && s[j] in b;
      }
    }
  }

  /** Constants under distinct identifiers evaluate to their values. */
  lemma ConstsEnv(cs: seq<Const>, idents: seq<string>, values: seq<string>)
    requires |cs| == |idents| == |values| && forall i :: 0 <= i < |cs| ==> cs[i] == (idents[i], values[i])
    requires NoDup(idents)
    ensures KeysOf(cs) == idents
    ensures forall k :: k in Assoc(cs) <==> k in idents
    ensures forall i :: 0 <= i < |cs| ==> idents[i] in Assoc(cs) && Assoc(cs)[idents[i]] == values[i]
  {
    assert KeysOf(cs) == idents;
    AssocLookup(cs);
    forall i | 0 <= i < |cs| ensures idents[i] in Assoc(cs) && Assoc(cs)[idents[i]] == values[i] {
      assert (idents[i], values[i]) == cs[i];
      assert (idents[i], values[i]) in cs;
    }
  }

  lemma {:induction false} BucketMembers(ps: seq<Perm>, scope: string)
    ensures forall n :: n in Bucket(ps, scope) <==> Perm(n, scope) in ps
  {
    if ps != [] {
      var init, last := ps[..|ps| - 1], ps[|ps| - 1];
      assert ps == init + [last];
      BucketMembers(init, scope);
    }
  }

  lemma NameOfMember(ps: seq<Perm>, p: Perm)
    requires p in ps
    ensures p.name in NamesOf(ps)
  {
    var i :| 0 <= i < |ps| && ps[i] == p;
    assert NamesOf(ps)[i] == p.name;
  }

  lemma MemberOfName(ps: seq<Perm>, n: string) returns (p: Perm)
    requires n in NamesOf(ps)
    ensures p in ps && p.name == n
  {
    var i :| 0 <= i < |ps| && NamesOf(ps)[i] == n;
    p := ps[i];
  }

  /** With distinct names, a name has one scope. */
  lemma OneScope(ps: seq<Perm>, p: Perm, q: Perm)
    requires NoDup(NamesOf(ps)) && p in ps && q in ps && p.name == q.name
    ensures p == q
  {
    var i :| 0 <= i < |ps| && ps[i] == p;
    var j :| 0 <= j < |ps| && ps[j] == q;
    assert NamesOf(ps)[i] == NamesOf(ps)[j];
  }

  lemma {:induction false} BucketDistinct(ps: seq<Perm>, scope: string)
    requires NoDup(NamesOf(ps))
    ensures NoDup(Bucket(ps, scope))
  {
    if ps != [] {
      var init, last := ps[..|ps| - 1], ps[|ps| - 1];
      assert ps == init + [last];
      NamesOfSnoc(init, last);
      NoDupConcat(NamesOf(init), [last.name]);
      BucketDistinct(init, scope);
      BucketMembers(init, scope);
      if last.name in Bucket(init, scope) {
        NameOfMember(init, Perm(last.name, scope));
      }
      assert last.name !in Bucket(init, scope);
      NoDupConcat(Bucket(init, scope), [last.name]);
    }
  }

  /** The scope table's names: the four buckets one after the other. */
  function ScopedNames(ps: seq<Perm>): seq<string> {
    Bucket(ps, SCOPE_SELF) + Bucket(ps, SCOPE_PLATFORM) + Bucket(ps, SCOPE_PROJECT) + Bucket(ps, SCOPE_PLATFORM_PROJECT)
  }

  lemma BucketsDisjoint(ps: seq<Perm>, s: string, t: string)
    requires NoDup(NamesOf(ps)) && s != t
    ensures forall n :: n in Bucket(ps, s) ==> n !in Bucket(ps, t)
  {
    BucketMembers(ps, s);
    BucketMembers(ps, t);
    forall n | n in Bucket(ps, s) ensures n !in Bucket(ps, t) {
      if Perm(n, t) in ps {
        OneScope(ps, Perm(n, s), Perm(n, t));
      }
    }
  }

  lemma ScopedNamesDistinct(ps: seq<Perm>)
    requires NoDup(NamesOf(ps))
    ensures NoDup(ScopedNames(ps))
  {
    var a, b := Bucket(ps, SCOPE_SELF), Bucket(ps, SCOPE_PLATFORM);
    var c, d := Bucket(ps, SCOPE_PROJECT), Bucket(ps, SCOPE_PLATFORM_PROJECT);
    BucketDistinct(ps, SCOPE_SELF);
    BucketDistinct(ps, SCOPE_PLATFORM);
    BucketDistinct(ps, SCOPE_PROJECT);
    BucketDistinct(ps, SCOPE_PLATFORM_PROJECT);
    BucketsDisjoint(ps, SCOPE_SELF, SCOPE_PLATFORM);
    BucketsDisjoint(ps, SCOPE_SELF, SCOPE_PROJECT);
    BucketsDisjoint(ps, SCOPE_SELF, SCOPE_PLATFORM_PROJECT);
    BucketsDisjoint(ps, SCOPE_PLATFORM, SCOPE_PROJECT);
    BucketsDisjoint(ps, SCOPE_PLATFORM, SCOPE_PLATFORM_PROJECT);
    BucketsDisjoint(ps, SCOPE_PROJECT, SCOPE_PLATFORM_PROJECT);
    NoDupConcat(a, b);
    NoDupConcat(a + b, c);
    NoDupConcat(a + b + c, d);
  }

  /** The sorted const block declares the vocabulary, once each exactly when its identifiers are distinct. */
  lemma SortedConsts(names: seq<string>)
    ensures NoDup(Idents(SortStrings(names))) <==> NoDup(Idents(names))
    ensures forall n :: n in SortStrings(names) <==> n in names
  {
    SortSorts(names);
    NoDupOfPermutation(SortStrings(names), names);
    NoDupMap(ConstName, SortStrings(names));
    NoDupMap(ConstName, names);
  }

  lemma PermIdentNotReserved(n: string)
    ensures ConstName(n) in RESERVED <==> ConstName(n) in {PERMISSION, PERMISSION + "Cache"}
    ensures ConstName(n)[0] == 'P'
  {
    assert ConstName(n)[0] == PERMISSION[0] == 'P';
    assert PERMISSION + "Cache" == "PermissionCache";
    assert "Role"[0] == "Roles"[0] == "RoleHasPermission"[0] == 'R';
  }

  lemma RoleIdentNotReserved(r: string)
    ensures RoleConst(r) in RESERVED <==> r == ""
    ensures RoleConst(r)[0] == 'R'
  {
    var x := PascalizeRole(r);
    assert RoleConst(r)[0] == "Role"[0] == 'R';
    assert RoleConst(r)[4..] == x;
    assert "Roles"[4..] == "s" && "RoleHasPermission"[4..] == "HasPermission" && "Role"[4..] == "";
    assert "Permission"[0] == "PermissionCache"[0] == 'P';
    assert |x| == |r|;
    assert r == "" ==> RoleConst(r) == "Role";
    assert RoleConst(r) == "Role" ==> r == "";
    assert x != "HasPermission" by {
      if |x| > 3 {
        assert x[3] == ToLower(r[3]);
        assert "HasPermission"[3] == 'P';
      }
    }
    assert x != "s" by {
      if |x| == 1 {
        assert x[0] == ToUpper(r[0]);
      }
    }
  }

  lemma NoneReservedConcat(a: seq<string>, b: seq<string>)
    ensures NoneReserved(a + b) <==> NoneReserved(a) && NoneReserved(b)
  {
    var s := a + b;
    assert forall i :: 0 <= i < |a| ==> s[i] == a[i];
    assert forall i :: 0 <= i < |b| ==> s[|a| + i] == b[i];
  }

  lemma RolesNotReserved(roles: seq<string>)
    ensures NoneReserved(Map(RoleConst, roles)) <==> "" !in roles
    ensures forall x :: x in Map(RoleConst, roles) ==> x[..1] == "R"
  {
    var a := Map(RoleConst, roles);
    forall i | 0 <= i < |a| ensures a[i][..1] == "R" && (a[i] in RESERVED <==> roles[i] == "") {
      RoleIdentNotReserved(roles[i]);
    }
    if "" in roles {
      var i :| 0 <= i < |roles| && roles[i] == "";
      assert a[i] in RESERVED;
    }
  }

  lemma PermsNotReserved(names: seq<string>)
    ensures NoneReserved(Idents(names)) <==>
            forall n :: n in names ==> ConstName(n) !in {PERMISSION, PERMISSION + "Cache"}
    ensures forall x :: x in Idents(names) ==> x[..1] == "P"
  {
    var b := Idents(names);
    forall i | 0 <= i < |b|
      ensures b[i][..1] == "P" && (b[i] in RESERVED <==> ConstName(names[i]) in {PERMISSION, PERMISSION + "Cache"})
    {
      PermIdentNotReserved(names[i]);
    }
    if NoneReserved(b) {
      forall n | n in names ensures ConstName(n) !in {PERMISSION, PERMISSION + "Cache"} {
        var i :| 0 <= i < |names| && names[i] == n;
        assert b[i] == ConstName(n);
      }
    }
  }

  lemma RoleConstIsIdent(r: string)
    ensures IsIdent(RoleConst(r)) <==> IsIdent(r)
  {
    var x := PascalizeRole(r);
    assert RoleConst(r) == "Role" + x && |x| == |r|;
    forall i | 0 <= i < |r| ensures IdentChar(x[i]) <==> IdentChar(r[i]) {
      assert x[i] == if i == 0 then ToUpper(r[i]) else ToLower(r[i]);
    }
    forall i | 0 <= i < |r| ensures RoleConst(r)[4 + i] == x[i] {
    }
  }

  lemma {:induction false} CamelIsIdent(p: string, atStart: bool)
    ensures IsIdent(Camel(p, atStart)) <==> IsNameText(p)
  {
    if p != "" {
      CamelIsIdent(p[1..], p[0] == ':');
      assert p == [p[0]] + p[1..];
      var rest := Camel(p[1..], p[0] == ':');
      if p[0] != ':' {
        var c := if atStart then ToUpper(p[0]) else p[0];
        IsIdentCons(c, rest);
      }
      IsNameTextCons(p[0], p[1..]);
    }
  }

  lemma IsIdentCons(c: char, s: string)
    ensures IsIdent([c] + s) <==> IdentChar(c) && IsIdent(s)
  {
    assert forall i :: 0 <= i < |s| ==> ([c] + s)[i + 1] == s[i];
    assert ([c] + s)[0] == c;
  }

  lemma IsNameTextCons(c: char, s: string)
    ensures IsNameText([c] + s) <==> (IdentChar(c) || c == ':') && IsNameText(s)
  {
    assert forall i :: 0 <= i < |s| ==> ([c] + s)[i + 1] == s[i];
    assert ([c] + s)[0] == c;
  }

  /** A permission's identifier is lexically one if and only if its name is plain text. */
  lemma ConstNameIsIdent(n: string)
    ensures IsIdent(ConstName(n)) <==> IsNameText(n)
  {
    CamelIsConcat(n);
    CamelIsIdent(n, true);
    var tail := Camel(n, true);
    assert ConstName(n) == PERMISSION + tail;
    assert forall i :: 0 <= i < |tail| ==> ConstName(n)[|PERMISSION| + i] == tail[i];
  }

  lemma RoleIdents(roles: seq<string>)
    ensures AllIdents(Map(RoleConst, roles)) <==> forall r :: r in roles ==> IsIdent(r)
  {
    hide IsIdent, RoleConst;
    var a := Map(RoleConst, roles);
    forall i | 0 <= i < |a| ensures IsIdent(a[i]) <==> IsIdent(roles[i]) {
      RoleConstIsIdent(roles[i]);
    }
  }

  lemma PermIdents(names: seq<string>)
    ensures AllIdents(Idents(names)) <==> forall n :: n in names ==> IsNameText(n)
  {
    hide IsIdent, IsNameText, ConstName;
    var a := Idents(names);
    forall i | 0 <= i < |a| ensures IsIdent(a[i]) <==> IsNameText(names[i]) {
      ConstNameIsIdent(names[i]);
    }
  }

  lemma AllIdentsConcat(a: seq<string>, b: seq<string>)
    ensures AllIdents(a + b) <==> AllIdents(a) && AllIdents(b)
  {
    hide IsIdent;
    var s := a + b;
    assert forall i :: 0 <= i < |a| ==> s[i] == a[i];
    assert forall i :: 0 <= i < |b| ==> s[|a| + i] == b[i];
  }

  lemma AllIdentsIff(c: Contract)
    ensures AllIdents(Declared(EmitOf(c))) <==> LexicalNames(c)
  {
    hide IsIdent, IsNameText, AllIdents;
    var names := VocabularyNames(c);
    var sorted := SortStrings(names);
    assert KeysOf(RoleConsts(c.roles)) == Map(RoleConst, c.roles);
    assert KeysOf(PermConsts(sorted)) == Idents(sorted);
    SortedConsts(names);
    RoleIdents(c.roles);
    PermIdents(sorted);
    AllIdentsConcat(Map(RoleConst, c.roles), Idents(sorted));
  }

  lemma ConstsOkIff(c: Contract)
    ensures ConstsOk(EmitOf(c)) <==> DistinctConsts(c) && ReservedFree(c)
  {
    var names := VocabularyNames(c);
    var sorted := SortStrings(names);
    var a, b := Map(RoleConst, c.roles), Idents(sorted);
    assert KeysOf(RoleConsts(c.roles)) == a;
    assert KeysOf(PermConsts(sorted)) == b;
    SortedConsts(names);
    RolesNotReserved(c.roles);
    PermsNotReserved(sorted);
    NoneReservedConcat(a, b);
    NoDupConcat(a, b);
    forall x | x in a ensures x !in b {
      assert x[..1] != "P";
    }
  }

  /** The environment of permission constants reads every vocabulary name back from its identifier. */
  ghost predicate ReadsBack(env: Env, names: seq<string>) {
    && (forall n :: n in names ==> ConstName(n) in env && env[ConstName(n)] == n)
    && (forall k :: k in env <==> k in Idents(names))
  }

  function PermEnv(c: Contract): Env {
    Assoc(PermConsts(SortStrings(VocabularyNames(c))))
  }

  function RoleEnv(c: Contract): Env {
    Assoc(RoleConsts(c.roles))
  }

  lemma IdentsOfSame(s: seq<string>, t: seq<string>)
    requires forall n :: n in s ==> n in t
    ensures forall k :: k in Idents(s) ==> k in Idents(t)
  {
    forall k | k in Idents(s) ensures k in Idents(t) {
      var i :| 0 <= i < |s| && Idents(s)[i] == k;
      assert s[i] in t;
      var j :| 0 <= j < |t| && t[j] == s[i];
      assert Idents(t)[j] == k;
    }
  }

  lemma ConstReadsBack(names: seq<string>, n: string)
    requires NoDup(Idents(names)) && n in names
    ensures ConstName(n) in Assoc(PermConsts(names)) && Assoc(PermConsts(names))[ConstName(n)] == n
  {
    hide ConstName, NoDup, Assoc;
    ConstsEnv(PermConsts(names), Idents(names), names);
    var i :| 0 <= i < |names| && names[i] == n;
    assert Idents(names)[i] == ConstName(n);
  }

  lemma ConstsReadBack(sorted: seq<string>, names: seq<string>)
    requires NoDup(Idents(sorted)) && forall n :: n in sorted <==> n in names
    ensures ReadsBack(Assoc(PermConsts(sorted)), names)
  {
    hide ConstName, NoDup, Assoc;
    var env := Assoc(PermConsts(sorted));
    forall n | n in names ensures ConstName(n) in env && env[ConstName(n)] == n {
      ConstReadsBack(sorted, n);
    }
    ConstsEnv(PermConsts(sorted), Idents(sorted), sorted);
    IdentsOfSame(names, sorted);
    IdentsOfSame(sorted, names);
  }

  lemma PermEnvReadsBack(c: Contract)
    requires DistinctConsts(c)
    ensures ReadsBack(PermEnv(c), VocabularyNames(c))
  {
    hide NoDup, ReadsBack;
    SortedConsts(VocabularyNames(c));
    ConstsReadBack(SortStrings(VocabularyNames(c)), VocabularyNames(c));
  }

  lemma RoleEnvReadsBack(c: Contract)
    requires DistinctConsts(c)
    ensures Defined(Map(RoleConst, c.roles), RoleEnv(c)) && ValuesOf(Map(RoleConst, c.roles), RoleEnv(c)) == c.roles
    ensures NoDup(c.roles)
  {
    ConstsEnv(RoleConsts(c.roles), Map(RoleConst, c.roles), c.roles);
    NoDupMap(RoleConst, c.roles);
  }

  lemma IdentsDefined(env: Env, names: seq<string>, ms: seq<string>)
    requires ReadsBack(env, names) && forall m :: m in ms ==> m in names
    ensures Defined(Idents(ms), env) && ValuesOf(Idents(ms), env) == ms
  {
    forall i | 0 <= i < |ms| ensures Idents(ms)[i] in env && env[Idents(ms)[i]] == ms[i] {
      assert ms[i] in names;
    }
  }

  lemma BucketInVocabulary(ps: seq<Perm>, scope: string)
    ensures forall n :: n in Bucket(ps, scope) ==> n in NamesOf(ps)
  {
    BucketMembers(ps, scope);
    forall n | n in Bucket(ps, scope) ensures n in NamesOf(ps) {
      NameOfMember(ps, Perm(n, scope));
    }
  }

  /** A printed tuple evaluates to its bucket. */
  lemma BucketReadsBack(c: Contract, scope: string)
    requires DistinctConsts(c)
    ensures var b := Bucket(Vocabulary(c), scope);
            Defined(Idents(b), PermEnv(c)) && ValuesOf(Idents(b), PermEnv(c)) == b
  {
    PermEnvReadsBack(c);
    BucketInVocabulary(Vocabulary(c), scope);
    IdentsDefined(PermEnv(c), VocabularyNames(c), Bucket(Vocabulary(c), scope));
  }

  function Tag(names: seq<string>, scope: string): (r: seq<Const>)
    ensures |r| == |names| && forall i :: 0 <= i < |r| ==> r[i] == (names[i], scope)
  {
    seq(|names|, i requires 0 <= i < |names| => (names[i], scope))
  }

  /** The scope table as name and scope pairs. */
  function ScopePairs(ps: seq<Perm>): seq<Const> {
    Tag(Bucket(ps, SCOPE_SELF), SCOPE_SELF) + Tag(Bucket(ps, SCOPE_PLATFORM), SCOPE_PLATFORM)
    + Tag(Bucket(ps, SCOPE_PROJECT), SCOPE_PROJECT) + Tag(Bucket(ps, SCOPE_PLATFORM_PROJECT), SCOPE_PLATFORM_PROJECT)
  }

  /** The printed lines name each pair by its identifier. */
  predicate Prints(lines: seq<Const>, pairs: seq<Const>) {
    |lines| == |pairs| && forall i :: 0 <= i < |lines| ==> lines[i] == (ConstName(pairs[i].0), pairs[i].1)
  }

  lemma PrintsConcat(l: seq<Const>, p: seq<Const>, m: seq<Const>, q: seq<Const>)
    requires Prints(l, p) && Prints(m, q)
    ensures Prints(l + m, p + q)
  {
  }

  lemma ScopeLinesPrint(ps: seq<Perm>)
    ensures Prints(ScopeLines(Bucket(ps, SCOPE_SELF), SCOPE_SELF)
                   + ScopeLines(Bucket(ps, SCOPE_PLATFORM), SCOPE_PLATFORM)
                   + ScopeLines(Bucket(ps, SCOPE_PROJECT), SCOPE_PROJECT)
                   + ScopeLines(Bucket(ps, SCOPE_PLATFORM_PROJECT), SCOPE_PLATFORM_PROJECT), ScopePairs(ps))
    ensures KeysOf(ScopePairs(ps)) == ScopedNames(ps)
  {
    var a, b := Bucket(ps, SCOPE_SELF), Bucket(ps, SCOPE_PLATFORM);
    var c, d := Bucket(ps, SCOPE_PROJECT), Bucket(ps, SCOPE_PLATFORM_PROJECT);
    var ta, tb := Tag(a, SCOPE_SELF), Tag(b, SCOPE_PLATFORM);
    var tc, td := Tag(c, SCOPE_PROJECT), Tag(d, SCOPE_PLATFORM_PROJECT);
    PrintsConcat(ScopeLines(a, SCOPE_SELF), ta, ScopeLines(b, SCOPE_PLATFORM), tb);
    PrintsConcat(ScopeLines(a, SCOPE_SELF) + ScopeLines(b, SCOPE_PLATFORM), ta + tb, ScopeLines(c, SCOPE_PROJECT), tc);
    PrintsConcat(ScopeLines(a, SCOPE_SELF) + ScopeLines(b, SCOPE_PLATFORM) + ScopeLines(c, SCOPE_PROJECT), ta + tb + tc,
                 ScopeLines(d, SCOPE_PLATFORM_PROJECT), td);
    KeysOfConcat(ta, tb);
    KeysOfConcat(ta + tb, tc);
    KeysOfConcat(ta + tb + tc, td);
    KeysOfTag(a, SCOPE_SELF);
    KeysOfTag(b, SCOPE_PLATFORM);
    KeysOfTag(c, SCOPE_PROJECT);
    KeysOfTag(d, SCOPE_PLATFORM_PROJECT);
  }

  lemma KeysOfConcat(a: seq<Const>, b: seq<Const>)
    ensures KeysOf(a + b) == KeysOf(a) + KeysOf(b)
  {
  }

  lemma KeysOfTag(names: seq<string>, scope: string)
    ensures KeysOf(Tag(names, scope)) == names
  {
  }

  /** Resolving the printed lines gives the pairs back. */
  lemma LinesResolve(env: Env, names: seq<string>, lines: seq<Const>, pairs: seq<Const>)
    requires ReadsBack(env, names) && Prints(lines, pairs)
    requires forall n :: n in KeysOf(pairs) ==> n in names
    ensures Defined(KeysOf(lines), env) && ResolveLines(lines, env) == pairs
  {
    forall i | 0 <= i < |lines|
      ensures KeysOf(lines)[i] in env && (env[KeysOf(lines)[i]], lines[i].1) == pairs[i]
    {
      assert KeysOf(pairs)[i] in names;
    }
  }

  predicate KnownScope(scope: string) {
    scope == SCOPE_SELF || scope == SCOPE_PLATFORM || scope == SCOPE_PROJECT || scope == SCOPE_PLATFORM_PROJECT
  }

  lemma TagMembers(names: seq<string>, scope: string, n: string, s: string)
    ensures (n, s) in Tag(names, scope) <==> n in names && s == scope
  {
    if n in names && s == scope {
      var i :| 0 <= i < |names| && names[i] == n;
      assert Tag(names, scope)[i] == (n, s);
    }
  }

  lemma ScopePairMembers(ps: seq<Perm>, n: string, s: string)
    ensures (n, s) in ScopePairs(ps) <==> KnownScope(s) && Perm(n, s) in ps
  {
    TagMembers(Bucket(ps, SCOPE_SELF), SCOPE_SELF, n, s);
    TagMembers(Bucket(ps, SCOPE_PLATFORM), SCOPE_PLATFORM, n, s);
    TagMembers(Bucket(ps, SCOPE_PROJECT), SCOPE_PROJECT, n, s);
    TagMembers(Bucket(ps, SCOPE_PLATFORM_PROJECT), SCOPE_PLATFORM_PROJECT, n, s);
    BucketMembers(ps, SCOPE_SELF);
    BucketMembers(ps, SCOPE_PLATFORM);
    BucketMembers(ps, SCOPE_PROJECT);
    BucketMembers(ps, SCOPE_PLATFORM_PROJECT);
  }

  lemma ScopeTableResolves(c: Contract)
    requires DistinctConsts(c)
    ensures var g := EmitOf(c);
            && Defined(KeysOf(g.permScope), PermEnv(c))
            && ResolveLines(g.permScope, PermEnv(c)) == ScopePairs(Vocabulary(c))
            && NoDup(KeysOf(ScopePairs(Vocabulary(c))))
  {
    var ps := Vocabulary(c);
    var names := NamesOf(ps);
    PermEnvReadsBack(c);
    ScopeLinesPrint(ps);
    BucketInVocabulary(ps, SCOPE_SELF);
    BucketInVocabulary(ps, SCOPE_PLATFORM);
    BucketInVocabulary(ps, SCOPE_PROJECT);
    BucketInVocabulary(ps, SCOPE_PLATFORM_PROJECT);
    LinesResolve(PermEnv(c), names, EmitOf(c).permScope, ScopePairs(ps));
    NoDupMap(ConstName, names);
    ScopedNamesDistinct(ps);
  }

  function BlocksOf(c: Contract): seq<Block> {
    EmitOf(c).rolePermissions
  }

  lemma BlockCount(c: Contract)
    ensures |BlocksOf(c)| == |c.roles|
  {
  }

  lemma BlockAt(c: Contract, i: nat)
    requires i < |c.roles|
    ensures |BlocksOf(c)| == |c.roles|
    ensures BlocksOf(c)[i].0 == RoleConst(c.roles[i])
    ensures BlocksOf(c)[i].1 == Idents(SortStrings(RolePermsOf(c, c.roles[i])))
  {
    assert BlocksOf(c)[i] == RoleBlock(c, c.roles[i]);
  }

  lemma IdentsDefinedIff(env: Env, names: seq<string>, ms: seq<string>)
    requires ReadsBack(env, names)
    ensures Defined(Idents(ms), env) <==> IdentsAmong(ms, names)
  {
    if Defined(Idents(ms), env) {
      forall m | m in ms ensures ConstName(m) in Idents(names) {
        var i :| 0 <= i < |ms| && ms[i] == m;
        assert Idents(ms)[i] == ConstName(m);
      }
    }
  }

  lemma RoleBlockDefinedIff(c: Contract, r: string)
    requires ReadsBack(PermEnv(c), VocabularyNames(c))
    ensures Defined(Idents(SortStrings(RolePermsOf(c, r))), PermEnv(c)) <==>
            IdentsAmong(RolePermsOf(c, r), VocabularyNames(c))
  {
    var perms := RolePermsOf(c, r);
    SortSorts(perms);
    NoDupOfPermutation(SortStrings(perms), perms);
    IdentsDefinedIff(PermEnv(c), VocabularyNames(c), SortStrings(perms));
  }

  lemma BlockDefinedIff(c: Contract, i: nat)
    requires DistinctConsts(c) && i < |c.roles|
    ensures |BlocksOf(c)| == |c.roles| && BlocksOf(c)[i].0 in RoleEnv(c)
    ensures Defined(BlocksOf(c)[i].1, PermEnv(c)) <==> IdentsAmong(RolePermsOf(c, c.roles[i]), VocabularyNames(c))
  {
    RoleEnvReadsBack(c);
    PermEnvReadsBack(c);
    BlockAt(c, i);
    RoleBlockDefinedIff(c, c.roles[i]);
    assert Map(RoleConst, c.roles)[i] in RoleEnv(c);
  }

  lemma BlocksDefinedIff(c: Contract)
    requires DistinctConsts(c)
    ensures BlocksDefined(BlocksOf(c), RoleEnv(c), PermEnv(c)) <==> RolePermsDeclared(c)
  {
    hide BlocksOf, RoleEnv, PermEnv, Defined, IdentsAmong, DistinctConsts, RolePermsOf, VocabularyNames;
    BlockCount(c);
    forall i | 0 <= i < |c.roles|
      ensures BlocksOf(c)[i].0 in RoleEnv(c)
      ensures Defined(BlocksOf(c)[i].1, PermEnv(c)) <==> IdentsAmong(RolePermsOf(c, c.roles[i]), VocabularyNames(c))
    {
      BlockDefinedIff(c, i);
    }
    if BlocksDefined(BlocksOf(c), RoleEnv(c), PermEnv(c)) {
      forall r | r in c.roles ensures IdentsAmong(RolePermsOf(c, r), VocabularyNames(c)) {
        var i :| 0 <= i < |c.roles| && c.roles[i] == r;
        assert Defined(BlocksOf(c)[i].1, PermEnv(c));
      }
    }
  }

  lemma AllDefinedIff(c: Contract)
    requires DistinctConsts(c)
    ensures AllDefined(EmitOf(c)) <==> RolePermsDeclared(c)
  {
    RoleEnvReadsBack(c);
    ScopeTableResolves(c);
    BlocksDefinedIff(c);
    BucketReadsBack(c, SCOPE_SELF);
    BucketReadsBack(c, SCOPE_PLATFORM);
    BucketReadsBack(c, SCOPE_PROJECT);
    BucketReadsBack(c, SCOPE_PLATFORM_PROJECT);
  }

  /** The resolved role blocks are keyed by the roles themselves. */
  lemma BlockKeysAreRoles(c: Contract)
    requires DistinctConsts(c) && BlocksDefined(BlocksOf(c), RoleEnv(c), PermEnv(c))
    ensures KeysOf(ResolveBlocks(BlocksOf(c), RoleEnv(c), PermEnv(c))) == c.roles
  {
    RoleEnvReadsBack(c);
    BlockListKeys(c);
    ResolvedKeys(BlocksOf(c), RoleEnv(c), PermEnv(c), Map(RoleConst, c.roles));
  }

  lemma BlockListKeys(c: Contract)
    ensures KeysOf(BlocksOf(c)) == Map(RoleConst, c.roles)
  {
    hide RoleConst;
    assert |BlocksOf(c)| == |c.roles|;
    forall i | 0 <= i < |c.roles| ensures KeysOf(BlocksOf(c))[i] == RoleConst(c.roles[i]) {
      BlockAt(c, i);
    }
  }

  lemma ResolvedKeys(bs: seq<Block>, roleEnv: Env, permEnv: Env, idents: seq<string>)
    requires BlocksDefined(bs, roleEnv, permEnv) && KeysOf(bs) == idents && Defined(idents, roleEnv)
    ensures KeysOf(ResolveBlocks(bs, roleEnv, permEnv)) == ValuesOf(idents, roleEnv)
  {
    var keys := KeysOf(ResolveBlocks(bs, roleEnv, permEnv));
    forall i | 0 <= i < |bs| ensures keys[i] == ValuesOf(idents, roleEnv)[i] {
      assert bs[i].0 == idents[i];
    }
  }

  /** Names that print as identifiers, distinct and not taken, and every identifier in a role block declared. */
  predicate Compiles(c: Contract) {
    PlainHeader(c) && LexicalNames(c) && DistinctConsts(c) && ReservedFree(c) && RolePermsDeclared(c)
  }

  /** The contracts the model of the Go compiler speaks about: names in ASCII, header text on one line. */
  predicate PlainText(c: Contract) {
    && PlainHeader(c)
    && (forall r :: r in c.roles ==> IsAscii(r))
    && (forall n :: n in VocabularyNames(c) ==> IsAscii(n))
  }

  predicate IsAscii(s: string) {
    forall i :: 0 <= i < |s| ==> s[i] < '\U{80}'
  }

  /** Exactly then does the emitted file of a plain-text contract compile. */
  lemma CompilesIff(c: Contract)
    requires PlainText(c)
    ensures Load(EmitOf(c)).Ok? <==> Compiles(c)
  {
    LoadsIff(c);
  }

  lemma LoadsIff(c: Contract)
    ensures Load(EmitOf(c)).Ok? <==> LexicalNames(c) && DistinctConsts(c) && ReservedFree(c) && RolePermsDeclared(c)
  {
    AllIdentsIff(c);
    ConstsOkIff(c);
    if LexicalNames(c) && DistinctConsts(c) && ReservedFree(c) {
      AllDefinedIff(c);
      if RolePermsDeclared(c) {
        RoleEnvReadsBack(c);
        ScopeTableResolves(c);
        BlockKeysAreRoles(c);
      }
    }
  }
}
