/** The contract compiler: what it emits, what the Go compiler makes of that, and that the meaning is kept. */
module Codegen {
  import opened Basics
  import opened Names
  import opened Sorting
  import opened RolePermissions

  datatype Perm = Perm(name: string, scope: string)

  datatype Contract = Contract(
    version: string,
    services: seq<string>,
    roles: seq<string>,
    permissions: map<string, seq<Perm>>,
    rolePerms: map<string, seq<string>>)

  datatype EmitError = MissingVersion | NoRoles

  type Const = (string, string)

  /** The emitted Go file: constants by identifier and value, everything else in terms of identifiers. */
  datatype GoFile = GoFile(
    roleConsts: seq<Const>,
    permConsts: seq<Const>,
    selfTuple: seq<string>,
    platformTuple: seq<string>,
    projectTuple: seq<string>,
    dualTuple: seq<string>,
    permScope: seq<Const>,
    roles: seq<string>,
    rolePermissions: seq<(string, seq<string>)>)

  function PermsOf(c: Contract, svc: string): seq<Perm> {
    if svc in c.permissions then c.permissions[svc] else []
  }

  function Flatten(c: Contract, services: seq<string>): seq<Perm> {
    if services == [] then [] else Flatten(c, services[..|services| - 1]) + PermsOf(c, services[|services| - 1])
  }

  /** The vocabulary: the permissions of the declared services, in declared order. */
  function Vocabulary(c: Contract): seq<Perm> {
    Flatten(c, c.services)
  }

  function NamesOf(ps: seq<Perm>): (r: seq<string>)
    ensures |r| == |ps| && forall i :: 0 <= i < |r| ==> r[i] == ps[i].name
  {
    Map((p: Perm) => p.name, ps)
  }

  /** The names with a given scope, in order. */
  function Bucket(ps: seq<Perm>, scope: string): seq<string> {
    if ps == [] then []
    else
      var rest, last := Bucket(ps[..|ps| - 1], scope), ps[|ps| - 1];
      if last.scope == scope then rest + [last.name] else rest
  }

  function RolePermsOf(c: Contract, r: string): seq<string> {
    if r in c.rolePerms then c.rolePerms[r] else []
  }

  function Idents(names: seq<string>): (r: seq<string>)
    ensures |r| == |names| && forall i :: 0 <= i < |r| ==> r[i] == ConstName(names[i])
  {
    Map(ConstName, names)
  }

  function PermConsts(names: seq<string>): (r: seq<Const>)
    ensures |r| == |names| && forall i :: 0 <= i < |r| ==> r[i] == (ConstName(names[i]), names[i])
  {
    Map((n: string) => (ConstName(n), n), names)
  }

  function RoleConsts(roles: seq<string>): (r: seq<Const>)
    ensures |r| == |roles| && forall i :: 0 <= i < |r| ==> r[i] == (RoleConst(roles[i]), roles[i])
  {
    Map((r: string) => (RoleConst(r), r), roles)
  }

  function ScopeLines(names: seq<string>, scope: string): (r: seq<Const>)
    ensures |r| == |names| && forall i :: 0 <= i < |r| ==> r[i] == (ConstName(names[i]), scope)
  {
    Map((n: string) => (ConstName(n), scope), names)
  }

  function RoleBlock(c: Contract, r: string): (string, seq<string>) {
    (RoleConst(r), Idents(SortStrings(RolePermsOf(c, r))))
  }

  function RoleBlockList(c: Contract, roles: seq<string>): (r: seq<(string, seq<string>)>)
    ensures |r| == |roles| && forall i :: 0 <= i < |r| ==> r[i] == RoleBlock(c, roles[i])
  {
    Map((r: string) => RoleBlock(c, r), roles)
  }

  function EmitOf(c: Contract): GoFile {
    var ps := Vocabulary(c);
    GoFile(RoleConsts(c.roles),
           PermConsts(SortStrings(NamesOf(ps))),
           Idents(Bucket(ps, SCOPE_SELF)),
           Idents(Bucket(ps, SCOPE_PLATFORM)),
           Idents(Bucket(ps, SCOPE_PROJECT)),
           Idents(Bucket(ps, SCOPE_PLATFORM_PROJECT)),
           ScopeLines(Bucket(ps, SCOPE_SELF), SCOPE_SELF) + ScopeLines(Bucket(ps, SCOPE_PLATFORM), SCOPE_PLATFORM)
           + ScopeLines(Bucket(ps, SCOPE_PROJECT), SCOPE_PROJECT)
           + ScopeLines(Bucket(ps, SCOPE_PLATFORM_PROJECT), SCOPE_PLATFORM_PROJECT),
           Map(RoleConst, c.roles),
           RoleBlockList(c, c.roles))
  }

  /** The part of the vocabulary that one service brings. */
  lemma {:induction false} FlattenConcat(c: Contract, a: seq<string>, b: seq<string>)
    ensures Flatten(c, a + b) == Flatten(c, a) + Flatten(c, b)
    decreases |b|
  {
    if b == [] {
      assert a + b == a;
    } else {
      var init, last := b[..|b| - 1], b[|b| - 1];
      FlattenConcat(c, a, init);
      assert a + b == (a + init) + [last];
      assert (a + b)[..|a + b| - 1] == a + init;
    }
  }

  lemma {:induction false} FlattenIgnoresServices(c: Contract, d: Contract, services: seq<string>)
    requires d.permissions == c.permissions
    ensures Flatten(d, services) == Flatten(c, services)
  {
    if services != [] {
      FlattenIgnoresServices(c, d, services[..|services| - 1]);
    }
  }

  /** In declared order: what the services before one declare, then what it declares itself, then the rest. */
  lemma VocabularyOrder(c: Contract, i: nat)
    requires i < |c.services|
    ensures var svc := c.services[i];
            Vocabulary(c) == Vocabulary(c.(services := c.services[..i]))
                             + (if svc in c.permissions then c.permissions[svc] else [])
                             + Vocabulary(c.(services := c.services[i + 1..]))
  {
    var a, b, svc := c.services[..i], c.services[i + 1..], c.services[i];
    assert c.services == a + [svc] + b;
    FlattenConcat(c, a + [svc], b);
    FlattenConcat(c, a, [svc]);
    FlattenIgnoresServices(c, c.(services := a), a);
    FlattenIgnoresServices(c, c.(services := b), b);
    assert [svc][..0] == [] && Flatten(c, [svc]) == Flatten(c, []) + PermsOf(c, svc);
  }

  /** Some declared service lists the permission. */
  ghost predicate Declares(c: Contract, p: Perm) {
    exists svc :: svc in c.services && svc in c.permissions && p in c.permissions[svc]
  }

  lemma {:induction false} FlattenMembers(c: Contract, services: seq<string>, p: Perm)
    ensures p in Flatten(c, services) <==>
            exists svc :: svc in services && svc in c.permissions && p in c.permissions[svc]
  {
    if services != [] {
      var init, last := services[..|services| - 1], services[|services| - 1];
      assert services == init + [last];
      FlattenMembers(c, init, p);
      if svc :| svc in services && svc in c.permissions && p in c.permissions[svc] {
        assert svc == last || svc in init;
      }
    }
  }

  /** The vocabulary has exactly the permissions that the declared services list. */
  lemma VocabularyMembers(c: Contract, p: Perm)
    ensures p in Vocabulary(c) <==> Declares(c, p)
  {
    FlattenMembers(c, c.services, p);
  }

  lemma {:induction false} BucketConcat(a: seq<Perm>, b: seq<Perm>, scope: string)
    ensures Bucket(a + b, scope) == Bucket(a, scope) + Bucket(b, scope)
    decreases |b|
  {
    if b == [] {
      assert a + b == a;
    } else {
      var init, last := b[..|b| - 1], b[|b| - 1];
      BucketConcat(a, init, scope);
      assert (a + b)[..|a + b| - 1] == a + init;
    }
  }

  /** A tuple keeps declared order: a permission comes after those before it and before those after it. */
  lemma BucketOrder(ps: seq<Perm>, i: nat, scope: string)
    requires i < |ps|
    ensures Bucket(ps, scope) == Bucket(ps[..i], scope) + (if ps[i].scope == scope then [ps[i].name] else [])
                                 + Bucket(ps[i + 1..], scope)
  {
    assert ps == ps[..i] + [ps[i]] + ps[i + 1..];
    BucketConcat(ps[..i] + [ps[i]], ps[i + 1..], scope);
    BucketConcat(ps[..i], [ps[i]], scope);
    assert [ps[i]][..0] == [];
  }

  function ValuesIn(cs: seq<Const>): (vs: seq<string>)
    ensures |vs| == |cs| && forall i :: 0 <= i < |cs| ==> vs[i] == cs[i].1
  {
    seq(|cs|, i requires 0 <= i < |cs| => cs[i].1)
  }

  /** The const block lists the vocabulary's names in ascending order, each as often as it is declared. */
  lemma ConstBlockIsSorted(c: Contract)
    ensures var values := ValuesIn(EmitOf(c).permConsts);
            Sorted(values) && multiset(values) == multiset(NamesOf(Vocabulary(c)))
  {
    var names := NamesOf(Vocabulary(c));
    SortSorts(names);
    assert ValuesIn(PermConsts(SortStrings(names))) == SortStrings(names);
  }

  lemma NamesOfSnoc(ps: seq<Perm>, p: Perm)
    ensures NamesOf(ps + [p]) == NamesOf(ps) + [p.name]
  {
    var a, b := NamesOf(ps + [p]), NamesOf(ps) + [p.name];
    assert |a| == |b|;
    assert forall i :: 0 <= i < |a| ==> a[i] == b[i];
  }

  lemma BucketSnoc(ps: seq<Perm>, p: Perm, scope: string)
    ensures Bucket(ps + [p], scope) == if p.scope == scope then Bucket(ps, scope) + [p.name] else Bucket(ps, scope)
  {
    assert (ps + [p])[..|ps|] == ps;
  }

  /** The buckets as the flattening loop has filled them. */
  class Buckets {
    var all: seq<string>
    var self: seq<string>
    var platform: seq<string>
    var project: seq<string>
    var dual: seq<string>

    constructor ()
      ensures Holds([])
    {
      all, self, platform, project, dual := [], [], [], [], [];
    }

    ghost predicate Holds(ps: seq<Perm>)
      reads this
    {
      && all == NamesOf(ps)
      && self == Bucket(ps, SCOPE_SELF)
      && platform == Bucket(ps, SCOPE_PLATFORM)
      && project == Bucket(ps, SCOPE_PROJECT)
      && dual == Bucket(ps, SCOPE_PLATFORM_PROJECT)
    }

    method Append(p: Perm, ghost ps: seq<Perm>)
      requires Holds(ps)
      modifies this
      ensures Holds(ps + [p])
    {
      NamesOfSnoc(ps, p);
      BucketSnoc(ps, p, SCOPE_SELF);
      BucketSnoc(ps, p, SCOPE_PLATFORM);
      BucketSnoc(ps, p, SCOPE_PROJECT);
      BucketSnoc(ps, p, SCOPE_PLATFORM_PROJECT);
      all := all + [p.name];
      match p.scope {
        case "self" => self := self + [p.name];
        case "platform" => platform := platform + [p.name];
        case "project" => project := project + [p.name];
        case "platform/project" => dual := dual + [p.name];
        case _ =>
      }
    }
  }

  /** The inner loop, over one service's permissions. */
  method AppendService(b: Buckets, ps: seq<Perm>, ghost before: seq<Perm>)
    requires b.Holds(before)
    modifies b
    ensures b.Holds(before + ps)
  {
    assert before + ps[..0] == before;
    for i := 0 to |ps|
      invariant b.Holds(before + ps[..i])
    {
      assert before + ps[..i + 1] == (before + ps[..i]) + [ps[i]];
      b.Append(ps[i], before + ps[..i]);
    }
    assert ps[..|ps|] == ps;
  }

  /** The outer loop, over the services in declared order. */
  method FillBuckets(c: Contract) returns (b: Buckets)
    ensures fresh(b) && b.Holds(Vocabulary(c))
  {
    b := new Buckets();
    for s := 0 to |c.services|
      invariant b.Holds(Flatten(c, c.services[..s]))
    {
      assert c.services[..s + 1][..s] == c.services[..s];
      AppendService(b, PermsOf(c, c.services[s]), Flatten(c, c.services[..s]));
    }
    assert c.services[..|c.services|] == c.services;
  }

  /** One role's block: its permissions copied, sorted and named. */
  method PrintRoleBlock(c: Contract, r: string) returns (block: (string, seq<string>))
    ensures block == RoleBlock(c, r)
  {
    var perms := SortStrings(RolePermsOf(c, r));
    block := (RoleConst(r), Idents(perms));
  }

  method RoleBlocks(c: Contract) returns (blocks: seq<(string, seq<string>)>)
    ensures blocks == RoleBlockList(c, c.roles)
  {
    hide RoleBlock;
    blocks := [];
    for i := 0 to |c.roles|
      invariant |blocks| == i
      invariant forall j :: 0 <= j < i ==> blocks[j] == RoleBlock(c, c.roles[j])
    {
      var block := PrintRoleBlock(c, c.roles[i]);
      blocks := blocks + [block];
    }
  }

  /** The printed file: const blocks, tuples, scope table, role list and role table. */
  method Print(c: Contract, b: Buckets) returns (out: GoFile)
    requires b.Holds(Vocabulary(c))
    ensures out == EmitOf(c)
  {
    var scopes := ScopeLines(b.self, SCOPE_SELF) + ScopeLines(b.platform, SCOPE_PLATFORM)
                  + ScopeLines(b.project, SCOPE_PROJECT) + ScopeLines(b.dual, SCOPE_PLATFORM_PROJECT);
    var blocks := RoleBlocks(c);
    out := GoFile(RoleConsts(c.roles), PermConsts(SortStrings(b.all)), Idents(b.self), Idents(b.platform),
                  Idents(b.project), Idents(b.dual), scopes, Map(RoleConst, c.roles), blocks);
  }

  /** emit: it rejects a contract without a version or without roles, and prints every other one. */
  method Emit(c: Contract) returns (out: Result<GoFile, EmitError>)
    ensures out.Ok? <==> c.version != "" && c.roles != []
    ensures out.Err? ==> out.error == if c.version == "" then MissingVersion else NoRoles
    ensures out.Ok? ==> out.value == EmitOf(c)
  {
    if c.version == "" {
      return Err(MissingVersion);
    }
    if |c.roles| == 0 {
      return Err(NoRoles);
    }
    var b := FillBuckets(c);
    var file := Print(c, b);
    out := Ok(file);
  }
}
