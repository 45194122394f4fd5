/** For every valid contract the generated decision functions answer as the contract itself defines. */
module CodegenAnswers {
  import opened Basics
  import opened Names
  import opened Sorting
  import opened RolePermissions
  import opened Codegen
  import opened GoLoader
  import opened CodegenMeaning
  import opened ContractAnswers

  predicate RolePermsInVocabulary(c: Contract) {
    forall r :: r in c.roles ==> AmongNames(RolePermsOf(c, r), VocabularyNames(c))
  }

  predicate AmongNames(ms: seq<string>, names: seq<string>) {
    forall m :: m in ms ==> m in names
  }

  ghost predicate ValidContract(c: Contract) {
    && c.version != "" && c.roles != []
    && PlainHeader(c) && LexicalNames(c)
    && NoDup(Map(RoleConst, c.roles)) && "" !in c.roles
    && NoDup(VocabularyNames(c)) && (forall n :: n in VocabularyNames(c) ==> GoodName(n) && n != "cache")
    && KnownScopes(c)
    && RolePermsKnown(c)
  }

  lemma RolePermsKnownIff(c: Contract)
    ensures RolePermsKnown(c) <==> RolePermsInVocabulary(c)
  {
    forall n ensures DeclaresName(c, n) <==> n in VocabularyNames(c) {
      NamesAreDeclared(c, n);
    }
    if RolePermsInVocabulary(c) {
      forall r, n | Lists(c, r, n) ensures DeclaresName(c, n) {
        assert AmongNames(RolePermsOf(c, r), VocabularyNames(c));
      }
    } else {
      var r :| r in c.roles && !AmongNames(RolePermsOf(c, r), VocabularyNames(c));
      var n :| n in RolePermsOf(c, r) && n !in VocabularyNames(c);
      assert Lists(c, r, n);
    }
  }

  /** The only good name whose identifier the package already uses. */
  lemma CacheIsTaken(n: string)
    requires GoodName(n)
    ensures ConstName(n) in {PERMISSION, PERMISSION + "Cache"} <==> n == "cache"
  {
    SingleSegment("cache");
    assert PascalizeSegment("cache") == "Cache";
    RoundTripIff(n);
    ConstNameInjective(n, "cache");
  }

  lemma GoodNamesDistinct(names: seq<string>)
    requires NoDup(names) && forall n :: n in names ==> GoodName(n) && n != "cache"
    ensures NoDup(Idents(names)) && forall n :: n in names ==> ConstName(n) !in {PERMISSION, PERMISSION + "Cache"}
  {
    forall p, q | p in names && q in names && ConstName(p) == ConstName(q) ensures p == q {
      ConstNameInjective(p, q);
    }
    NoDupMap(ConstName, names);
    forall n | n in names ensures ConstName(n) !in {PERMISSION, PERMISSION + "Cache"} {
      CacheIsTaken(n);
    }
  }

  lemma InVocabularyMeansDeclared(ms: seq<string>, names: seq<string>)
    requires AmongNames(ms, names)
    ensures IdentsAmong(ms, names)
  {
    forall m | m in ms ensures ConstName(m) in Idents(names) {
      var i :| 0 <= i < |names| && names[i] == m;
      assert Idents(names)[i] == ConstName(m);
    }
  }

  /** A valid contract is emitted, compiles, and is one that the results below speak about. */
  lemma ValidContractCompiles(c: Contract)
    requires ValidContract(c)
    ensures Compiles(c) && Load(EmitOf(c)).Ok?
    ensures KnownScopes(c) && RolePermsKnown(c)
  {
    RolePermsKnownIff(c);
    GoodNamesDistinct(VocabularyNames(c));
    forall r | r in c.roles ensures IdentsAmong(RolePermsOf(c, r), VocabularyNames(c)) {
      InVocabularyMeansDeclared(RolePermsOf(c, r), VocabularyNames(c));
    }
    LoadsIff(c);
  }

  /** A block list keyed by distinct roles, read as a map. */
  lemma BlockLookup(blocks: seq<Block>, roles: seq<string>, i: nat)
    requires KeysOf(blocks) == roles && NoDup(roles) && i < |roles|
    ensures roles[i] in Assoc(blocks) && Assoc(blocks)[roles[i]] == blocks[i].1
  {
    AssocLookup(blocks);
    assert blocks[i] == (KeysOf(blocks)[i], blocks[i].1);
    assert blocks[i] in blocks;
  }

  lemma SortedPermsResolve(c: Contract, r: string)
    requires DistinctConsts(c) && RolePermsInVocabulary(c) && r in c.roles
    ensures var sorted := SortStrings(RolePermsOf(c, r));
            Defined(Idents(sorted), PermEnv(c)) && ValuesOf(Idents(sorted), PermEnv(c)) == sorted
  {
    var perms := RolePermsOf(c, r);
    PermEnvReadsBack(c);
    SortSorts(perms);
    NoDupOfPermutation(SortStrings(perms), perms);
    assert AmongNames(perms, VocabularyNames(c));
    IdentsDefined(PermEnv(c), VocabularyNames(c), SortStrings(perms));
  }

  function ResolvedBlocks(c: Contract): seq<Block>
    requires DistinctConsts(c) && RolePermsDeclared(c)
  {
    BlocksDefinedIff(c);
    ResolveBlocks(BlocksOf(c), RoleEnv(c), PermEnv(c))
  }

  /** The role table maps each role to its own permissions, sorted. */
  lemma RoleTable(c: Contract, r: string)
    requires DistinctConsts(c) && RolePermsDeclared(c) && RolePermsInVocabulary(c)
    ensures var t := Assoc(ResolvedBlocks(c));
            && (r in t <==> r in c.roles)
            && (r in c.roles ==> t[r] == SortStrings(RolePermsOf(c, r)))
  {
    BlocksDefinedIff(c);
    BlockKeysAreRoles(c);
    RoleEnvReadsBack(c);
    AssocLookup(ResolvedBlocks(c));
    if r in c.roles {
      var i :| 0 <= i < |c.roles| && c.roles[i] == r;
      BlockLookup(ResolvedBlocks(c), c.roles, i);
      BlockAt(c, i);
      SortedPermsResolve(c, r);
    }
  }

  /** What the file loads to. */
  function TablesOf(c: Contract): Tables
    requires Compiles(c)
  {
    LoadsIff(c);
    Load(EmitOf(c)).value
  }

  lemma LoadedLists(c: Contract)
    requires Compiles(c)
    ensures var t, ps := TablesOf(c), Vocabulary(c);
            && t.selfPermissions == Bucket(ps, SCOPE_SELF)
            && t.platformPermissions == Bucket(ps, SCOPE_PLATFORM)
            && t.projectPermissions == Bucket(ps, SCOPE_PROJECT)
            && t.dualPermissions == Bucket(ps, SCOPE_PLATFORM_PROJECT)
            && t.roles == c.roles
            && t.permScope == Assoc(ScopePairs(ps))
  {
    hide AllIdents, LexicalNames, ConstsOk, KeysOk, NoDup, Defined, BlocksDefined, Assoc, SortStrings, Vocabulary;
    LoadsIff(c);
    RoleEnvReadsBack(c);
    ScopeTableResolves(c);
    BucketReadsBack(c, SCOPE_SELF);
    BucketReadsBack(c, SCOPE_PLATFORM);
    BucketReadsBack(c, SCOPE_PROJECT);
    BucketReadsBack(c, SCOPE_PLATFORM_PROJECT);
  }

  /** The loaded scope table is the contract's scope assignment. */
  lemma ScopeLookup(c: Contract, n: string, scope: string)
    requires Compiles(c)
    ensures n in TablesOf(c).permScope && TablesOf(c).permScope[n] == scope <==>
            KnownScope(scope) && Perm(n, scope) in Vocabulary(c)
  {
    LoadsIff(c);
    LoadedLists(c);
    ScopeTableResolves(c);
    AssocLookup(ScopePairs(Vocabulary(c)));
    ScopePairMembers(Vocabulary(c), n, scope);
  }

  lemma LoadedRoles(c: Contract)
    requires Compiles(c)
    ensures TablesOf(c).rolePermissions == Assoc(ResolvedBlocks(c))
  {
    hide Load, AllDefined, BlocksDefined, Assoc, ResolveBlocks, SortStrings, Vocabulary;
    LoadsIff(c);
    LoadedRoleTable(EmitOf(c), RoleEnv(c), PermEnv(c));
  }

  lemma SortKeepsMembers(s: seq<string>)
    ensures forall x :: x in SortStrings(s) <==> x in s
  {
    SortSorts(s);
    NoDupOfPermutation(SortStrings(s), s);
  }

  lemma ReadValueInVocabulary(env: Env, names: seq<string>, k: string)
    requires ReadsBack(env, names) && k in env
    ensures env[k] in names
  {
    var i :| 0 <= i < |names| && Idents(names)[i] == k;
    assert names[i] in names;
  }

  lemma ResolvedValuesInVocabulary(bs: seq<Block>, roleEnv: Env, permEnv: Env, names: seq<string>, r: string, n: string)
    requires BlocksDefined(bs, roleEnv, permEnv) && ReadsBack(permEnv, names)
    requires NoDup(KeysOf(ResolveBlocks(bs, roleEnv, permEnv)))
    requires var t := Assoc(ResolveBlocks(bs, roleEnv, permEnv)); r in t && n in t[r]
    ensures n in names
  {
    hide ReadsBack, NoDup;
    var resolved := ResolveBlocks(bs, roleEnv, permEnv);
    AssocLookup(resolved);
    var perms := Assoc(resolved)[r];
    assert (r, perms) in resolved;
    var i :| 0 <= i < |resolved| && resolved[i] == (r, perms);
    var j :| 0 <= j < |perms| && perms[j] == n;
    ReadValueInVocabulary(permEnv, names, bs[i].1[j]);
  }

  /** Whatever a role table resolves to is in the vocabulary. */
  lemma RoleTableInVocabulary(c: Contract, r: string, n: string)
    requires Compiles(c)
    ensures RoleHasPermission(TablesOf(c), r, n) ==> n in VocabularyNames(c)
  {
    LoadedRoles(c);
    BlocksDefinedIff(c);
    BlockKeysAreRoles(c);
    RoleEnvReadsBack(c);
    PermEnvReadsBack(c);
    if RoleHasPermission(TablesOf(c), r, n) {
      ResolvedValuesInVocabulary(BlocksOf(c), RoleEnv(c), PermEnv(c), VocabularyNames(c), r, n);
    }
  }

  lemma LoadedRolesRight(c: Contract, r: string, n: string)
    requires Compiles(c)
    ensures RoleRight(TablesOf(c), c, r, n)
  {
    RoleTableInVocabulary(c, r, n);
    NamesAreDeclared(c, n);
    RolePermsKnownIff(c);
    if RolePermsInVocabulary(c) {
      LoadedRoles(c);
      RoleTable(c, r);
      SortKeepsMembers(RolePermsOf(c, r));
    }
  }

  lemma DistinctNamesHaveOneScope(c: Contract)
    requires NoDup(VocabularyNames(c))
    ensures OneScopeEach(c)
  {
    forall p, q | Declares(c, p) && Declares(c, q) && p.name == q.name ensures p == q {
      VocabularyMembers(c, p);
      VocabularyMembers(c, q);
      OneScope(Vocabulary(c), p, q);
    }
  }

  lemma LoadedSelfRight(c: Contract)
    requires Compiles(c)
    ensures var self := TablesOf(c).selfPermissions;
            NoDup(self) && forall n :: n in self <==> Declares(c, Perm(n, "self"))
    ensures TablesOf(c).roles == c.roles && OneScopeEach(c)
  {
    LoadedLists(c);
    NoDupMap(ConstName, VocabularyNames(c));
    DistinctNamesHaveOneScope(c);
    BucketDistinct(Vocabulary(c), SCOPE_SELF);
    BucketMembers(Vocabulary(c), SCOPE_SELF);
    forall n ensures Perm(n, "self") in Vocabulary(c) <==> Declares(c, Perm(n, "self")) {
      VocabularyMembers(c, Perm(n, "self"));
    }
  }

  /** The tables that a compiling contract's file loads to implement the contract. */
  lemma LoadedTablesImplement(c: Contract)
    requires Compiles(c)
    ensures Implements(TablesOf(c), c)
  {
    hide Compiles, ScopeRight, RoleRight, OneScopeEach, Declares;
    var t := TablesOf(c);
    LoadedSelfRight(c);
    forall n, scope ensures ScopeRight(t, c, n, scope) {
      LoadedScopeRight(c, n, scope);
    }
    forall r, n ensures RoleRight(t, c, r, n) {
      LoadedRolesRight(c, r, n);
    }
  }

  lemma LoadedScopeRight(c: Contract, n: string, scope: string)
    requires Compiles(c)
    ensures ScopeRight(TablesOf(c), c, n, scope)
  {
    ScopeLookup(c, n, scope);
    VocabularyMembers(c, Perm(n, scope));
  }

  /** Code generation preserves meaning, for every contract that compiles, in its own vocabulary, and every question. */
  lemma AnswersMatchContract(c: Contract, n: string, r: string)
    requires Compiles(c) && KnownScopes(c) && RolePermsKnown(c)
    ensures var t := TablesOf(c);
            && (IsValidPermission(t, n) <==> DeclaresName(c, n))
            && (IsValidRole(t, r) <==> r in c.roles)
            && (IsSelfScope(t, n) <==> Declares(c, Perm(n, "self")))
            && (IsPlatformGrantable(t, n) <==>
                  Declares(c, Perm(n, "platform")) || Declares(c, Perm(n, "platform/project")))
            && (IsTenantGrantable(t, n) <==>
                  !DeclaresName(c, n) || Declares(c, Perm(n, "project")) || Declares(c, Perm(n, "platform/project")))
            && (RoleHasPermission(t, r, n) <==> Lists(c, r, n))
            && (IsUniversalPerm(t, n) <==> UniversalByContract(c, n))
  {
    hide Compiles, Declares, DeclaresName, Implements, KnownScopes, RolePermsKnown, UniversalByContract;
    LoadedTablesImplement(c);
    AnswersFollow(TablesOf(c), c, n, r);
  }

  /** The role table lists each role's permissions in ascending order, each as often as the contract does. */
  lemma RoleTableIsSorted(c: Contract, r: string)
    requires Compiles(c) && RolePermsKnown(c)
    ensures var perms := ResolvePermissions(TablesOf(c), r);
            r in c.roles ==>
              && Sorted(perms)
              && multiset(perms) == multiset(if r in c.rolePerms then c.rolePerms[r] else [])
  {
    RolePermsKnownIff(c);
    LoadedRoles(c);
    RoleTable(c, r);
    SortSorts(RolePermsOf(c, r));
  }

  /** A small contract in the shape of the published one. */
  function SampleContract(): Contract {
    Contract("1.6.0", ["muse"], ["OWNER", "VIEWER"],
             map["muse" := [Perm("muse:read", SCOPE_PLATFORM), Perm("muse:me", SCOPE_SELF)]],
             map["OWNER" := ["muse:read"], "VIEWER" := []])
  }

  lemma SampleVocabulary()
    ensures var c := SampleContract();
            && Vocabulary(c) == [Perm("muse:read", SCOPE_PLATFORM), Perm("muse:me", SCOPE_SELF)]
            && VocabularyNames(c) == ["muse:read", "muse:me"]
  {
    var c := SampleContract();
    assert ["muse"][..0] == [] && Flatten(c, []) == [];
    assert NamesOf(Vocabulary(c))[0] == "muse:read" && NamesOf(Vocabulary(c))[1] == "muse:me";
  }

  lemma SampleRoles()
    ensures var c := SampleContract();
            NoDup(Map(RoleConst, c.roles)) && "" !in c.roles && RolePermsKnown(c)
  {
    var c := SampleContract();
    hide EmitOf, Load, GoodName, Vocabulary;
    SampleVocabulary();
    var consts := Map(RoleConst, c.roles);
    assert consts[0][4] == 'O' && consts[1][4] == 'V';
    forall r | r in c.roles ensures AmongNames(RolePermsOf(c, r), VocabularyNames(c)) {
      assert VocabularyNames(c)[0] == "muse:read";
    }
    RolePermsKnownIff(c);
  }

  lemma SampleNames()
    ensures GoodName("muse:read") && GoodName("muse:me")
  {
    hide GoodName, ConstName;
    SingleSegment("muse");
    SingleSegment("read");
    SingleSegment("me");
    GoodPair("muse", "read");
    GoodPair("muse", "me");
    assert "muse:read" == "muse" + ":" + "read" && "muse:me" == "muse" + ":" + "me";
  }

  lemma SampleIsLexical()
    ensures PlainHeader(SampleContract()) && LexicalNames(SampleContract())
  {
    hide EmitOf, Load, Vocabulary;
    SampleVocabulary();
    var c := SampleContract();
    assert forall r :: r in c.roles ==> r == "OWNER" || r == "VIEWER";
    assert IsIdent("OWNER") && IsIdent("VIEWER") && IsNameText("muse:read") && IsNameText("muse:me");
    assert OneLine("1.6.0") && OneLine("muse");
  }

  /** Valid contracts exist. */
  lemma SampleIsValid()
    ensures ValidContract(SampleContract())
  {
    hide GoodName, RolePermsKnown, KnownScopes, Vocabulary, VocabularyNames;
    hide NamesOf, RoleConst, PlainHeader, LexicalNames;
    SampleVocabulary();
    SampleRoles();
    SampleNames();
    SampleIsLexical();
    SampleScopes();
    assert "muse:read"[5] != "muse:me"[5];
  }

  lemma SampleScopes()
    ensures KnownScopes(SampleContract())
  {
    hide Vocabulary;
    var c := SampleContract();
    SampleVocabulary();
    forall p | Declares(c, p) ensures KnownScope(p.scope) {
      VocabularyMembers(c, p);
    }
  }

  lemma SampleDeclares()
    ensures var c := SampleContract();
            && Declares(c, Perm("muse:me", "self")) && !Declares(c, Perm("muse:read", "self"))
            && !Lists(c, "VIEWER", "muse:read")
  {
    hide Vocabulary, Declares;
    var c := SampleContract();
    SampleVocabulary();
    VocabularyMembers(c, Perm("muse:me", "self"));
    VocabularyMembers(c, Perm("muse:read", "self"));
    assert Vocabulary(c)[1] == Perm("muse:me", "self");
    assert Vocabulary(c)[0].scope[0] == 'p' && Vocabulary(c)[1].name[5] == 'm';
  }

  /** And one of them separates a universal permission from one that is not. */
  lemma SampleAnswers()
    ensures Compiles(SampleContract())
    ensures var t := TablesOf(SampleContract()); IsUniversalPerm(t, "muse:me") && !IsUniversalPerm(t, "muse:read")
  {
    hide ValidContract, Compiles, Declares, Implements, KnownScopes, RolePermsKnown, IsUniversalPerm;
    var c := SampleContract();
    SampleIsValid();
    ValidContractCompiles(c);
    LoadedTablesImplement(c);
    SampleDeclares();
    UniversalAnswers(TablesOf(c), c, "muse:me");
    UniversalAnswers(TablesOf(c), c, "muse:read");
    assert c.roles[1] == "VIEWER" && "VIEWER" in c.roles;
  }
}
