/** What a contract says in its own fields, and what tables that implement it therefore answer. */
module ContractAnswers {
  import opened Basics
  import opened RolePermissions
  import opened Codegen
  import opened CodegenMeaning

  ghost predicate DeclaresName(c: Contract, n: string) {
    exists svc, p :: svc in c.services && svc in c.permissions && p in c.permissions[svc] && p.name == n
  }

  predicate Lists(c: Contract, r: string, n: string) {
    r in c.roles && r in c.rolePerms && n in c.rolePerms[r]
  }

  ghost predicate UniversalByContract(c: Contract, n: string) {
    Declares(c, Perm(n, "self")) || forall r :: r in c.roles ==> Lists(c, r, n)
  }

  /** Every declared permission has one of the four scopes. */
  ghost predicate KnownScopes(c: Contract) {
    forall p :: Declares(c, p) ==> KnownScope(p.scope)
  }

  /** No declared name has two scopes. */
  ghost predicate OneScopeEach(c: Contract) {
    forall p, q :: Declares(c, p) && Declares(c, q) && p.name == q.name ==> p == q
  }

  /** No role lists a name outside the vocabulary. */
  ghost predicate RolePermsKnown(c: Contract) {
    forall r, n :: Lists(c, r, n) ==> DeclaresName(c, n)
  }

  lemma NamesAreDeclared(c: Contract, n: string)
    ensures n in VocabularyNames(c) <==> DeclaresName(c, n)
  {
    if n in VocabularyNames(c) {
      var p := MemberOfName(Vocabulary(c), n);
      VocabularyMembers(c, p);
      var svc :| svc in c.services && svc in c.permissions && p in c.permissions[svc];
    }
    if DeclaresName(c, n) {
      var svc, p :| svc in c.services && svc in c.permissions && p in c.permissions[svc] && p.name == n;
      VocabularyMembers(c, p);
      NameOfMember(Vocabulary(c), p);
    }
  }

  predicate InScope(t: Tables, n: string, scope: string) {
    n in t.permScope && t.permScope[n] == scope
  }

  ghost predicate ScopeRight(t: Tables, c: Contract, n: string, scope: string) {
    InScope(t, n, scope) <==> KnownScope(scope) && Declares(c, Perm(n, scope))
  }

  ghost predicate RoleRight(t: Tables, c: Contract, r: string, n: string) {
    && (RoleHasPermission(t, r, n) ==> DeclaresName(c, n))
    && (RolePermsKnown(c) ==> (RoleHasPermission(t, r, n) <==> Lists(c, r, n)))
  }

  /** The tables are the contract's, as far as the decision functions look. */
  ghost predicate Implements(t: Tables, c: Contract) {
    && t.roles == c.roles && OneScopeEach(c)
    && NoDup(t.selfPermissions) && (forall n :: n in t.selfPermissions <==> Declares(c, Perm(n, "self")))
    && (forall n, scope :: ScopeRight(t, c, n, scope))
    && (forall r, n :: RoleRight(t, c, r, n))
  }

  lemma ScopeAnswers(t: Tables, c: Contract, n: string, scope: string)
    requires Implements(t, c) && KnownScope(scope)
    ensures ScopeOf(t, n) == scope <==> Declares(c, Perm(n, scope))
  {
    assert ScopeRight(t, c, n, scope);
  }

  /** A name is valid exactly when it is declared with a known scope. */
  lemma ValidAnswers(t: Tables, c: Contract, n: string)
    requires Implements(t, c)
    ensures IsValidPermission(t, n) <==> exists scope :: KnownScope(scope) && Declares(c, Perm(n, scope))
  {
    if IsValidPermission(t, n) {
      assert ScopeRight(t, c, n, t.permScope[n]) && InScope(t, n, t.permScope[n]);
    }
    if scope :| KnownScope(scope) && Declares(c, Perm(n, scope)) {
      assert ScopeRight(t, c, n, scope);
    }
  }

  lemma DeclaredHasScope(c: Contract, n: string) returns (scope: string)
    requires DeclaresName(c, n)
    ensures Declares(c, Perm(n, scope))
  {
    var svc, p :| svc in c.services && svc in c.permissions && p in c.permissions[svc] && p.name == n;
    scope := p.scope;
    assert p == Perm(n, scope);
  }

  lemma DeclaredIsNamed(c: Contract, p: Perm)
    requires Declares(c, p)
    ensures DeclaresName(c, p.name)
  {
  }

  /** IsValidPermission is being declared, for all names, if and only if every scope is a known one. */
  lemma ValidPermissionIff(t: Tables, c: Contract)
    requires Implements(t, c)
    ensures (forall n :: IsValidPermission(t, n) <==> DeclaresName(c, n)) <==> KnownScopes(c)
  {
    if KnownScopes(c) {
      forall n ensures IsValidPermission(t, n) <==> DeclaresName(c, n) {
        ValidAnswers(t, c, n);
        if DeclaresName(c, n) {
          var scope := DeclaredHasScope(c, n);
        }
      }
    } else {
      var p :| Declares(c, p) && !KnownScope(p.scope);
      DeclaredIsNamed(c, p);
      ValidAnswers(t, c, p.name);
    }
  }

  /** RoleHasPermission answers as the contract lists, for all, if and only if roles list known names. */
  lemma RolesAnswerIff(t: Tables, c: Contract)
    requires Implements(t, c)
    ensures (forall r, n :: RoleHasPermission(t, r, n) <==> Lists(c, r, n)) <==> RolePermsKnown(c)
  {
    if RolePermsKnown(c) {
      forall r, n ensures RoleHasPermission(t, r, n) <==> Lists(c, r, n) {
        assert RoleRight(t, c, r, n);
      }
    } else {
      var r, n :| Lists(c, r, n) && !DeclaresName(c, n);
      assert RoleRight(t, c, r, n);
    }
  }

  lemma UniversalAnswers(t: Tables, c: Contract, n: string)
    requires Implements(t, c) && RolePermsKnown(c)
    ensures IsUniversalPerm(t, n) <==> UniversalByContract(c, n)
  {
    ScopeAnswers(t, c, n, SCOPE_SELF);
    EveryRoleHasIff(t, t.roles, n);
    forall r | r in c.roles ensures RoleHasPermission(t, r, n) <==> Lists(c, r, n) {
      assert RoleRight(t, c, r, n);
    }
  }

  /** All seven questions are answered as the contract itself defines. */
  lemma AnswersFollow(t: Tables, c: Contract, n: string, r: string)
    requires Implements(t, c) && KnownScopes(c) && RolePermsKnown(c)
    ensures IsValidPermission(t, n) <==> DeclaresName(c, n)
    ensures IsValidRole(t, r) <==> r in c.roles
    ensures IsSelfScope(t, n) <==> Declares(c, Perm(n, "self"))
    ensures IsPlatformGrantable(t, n) <==> Declares(c, Perm(n, "platform")) || Declares(c, Perm(n, "platform/project"))
    ensures IsTenantGrantable(t, n) <==>
            !DeclaresName(c, n) || Declares(c, Perm(n, "project")) || Declares(c, Perm(n, "platform/project"))
    ensures RoleHasPermission(t, r, n) <==> Lists(c, r, n)
    ensures IsUniversalPerm(t, n) <==> UniversalByContract(c, n)
  {
    ValidPermissionIff(t, c);
    ScopeAnswers(t, c, n, SCOPE_SELF);
    ScopeAnswers(t, c, n, SCOPE_PLATFORM);
    ScopeAnswers(t, c, n, SCOPE_PROJECT);
    ScopeAnswers(t, c, n, SCOPE_PLATFORM_PROJECT);
    assert RoleRight(t, c, r, n);
    UniversalAnswers(t, c, n);
  }

  /** A name longer than all the given ones. */
  function LongerThanAll(names: seq<string>): (r: string)
    ensures forall n :: n in names ==> |n| < |r|
  {
    if names == [] then "x"
    else
      assert forall n :: n in names ==> n == names[0] || n in names[1..];
      LongerThanAll(names[1..]) + names[0] + "x"
  }

  /**
   * No permission outside the vocabulary is universal if and only if there is a role: it rests on rejecting an empty
   * role list, without which every permission would be.
   */
  lemma UnknownIsNeverUniversalIff(t: Tables, c: Contract)
    requires Implements(t, c)
    ensures (forall n :: !DeclaresName(c, n) ==> !IsUniversalPerm(t, n)) <==> c.roles != []
  {
    if c.roles != [] {
      forall n | !DeclaresName(c, n) ensures !IsUniversalPerm(t, n) {
        ScopeAnswers(t, c, n, SCOPE_SELF);
        assert RoleRight(t, c, c.roles[0], n);
      }
    } else {
      var n := LongerThanAll(VocabularyNames(c));
      NamesAreDeclared(c, n);
      assert n !in VocabularyNames(c) && IsUniversalPerm(t, n);
    }
  }

  /** Such tables, with a role, are what the facade's agreement needs. */
  lemma ImplementingTablesAreValid(t: Tables, c: Contract)
    requires Implements(t, c) && c.roles != []
    ensures ValidTables(t)
  {
    forall n ensures n in t.selfPermissions <==> IsSelfScope(t, n) {
      ScopeAnswers(t, c, n, SCOPE_SELF);
    }
  }
}
