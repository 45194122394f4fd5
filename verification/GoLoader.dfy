/** What the Go compiler and program start-up make of an emitted file: a compile error, or the tables. */
module GoLoader {
  import opened Basics
  import opened RolePermissions
  import opened Codegen

  datatype CompileError = Malformed | Redeclared | Undefined | DuplicateKey

  /** The other top-level names of the package that begin like the generated constants. */
  const RESERVED := {"Role", "Roles", "RoleHasPermission", "Permission", "PermissionCache"}

  type Env = map<string, string>

  predicate Defined(idents: seq<string>, env: Env) {
    forall i :: 0 <= i < |idents| ==> idents[i] in env
  }

  function ValuesOf(idents: seq<string>, env: Env): (vs: seq<string>)
    requires Defined(idents, env)
    ensures |vs| == |idents| && forall i :: 0 <= i < |vs| ==> vs[i] == env[idents[i]]
  {
    seq(|idents|, i requires 0 <= i < |idents| => env[idents[i]])
  }

  function ResolveLines(lines: seq<Const>, env: Env): (r: seq<Const>)
    requires Defined(KeysOf(lines), env)
    ensures |r| == |lines|
    ensures forall i :: 0 <= i < |r| ==> KeysOf(lines)[i] in env && r[i] == (env[lines[i].0], lines[i].1)
  {
    assert forall i :: 0 <= i < |lines| ==> KeysOf(lines)[i] in env;
    seq(|lines|, i requires 0 <= i < |lines| => (env[KeysOf(lines)[i]], lines[i].1))
  }

  type Block = (string, seq<string>)

  predicate BlocksDefined(bs: seq<Block>, roleEnv: Env, permEnv: Env) {
    forall i :: 0 <= i < |bs| ==> bs[i].0 in roleEnv && Defined(bs[i].1, permEnv)
  }

  function ResolveBlocks(bs: seq<Block>, roleEnv: Env, permEnv: Env): (r: seq<Block>)
    requires BlocksDefined(bs, roleEnv, permEnv)
    ensures |r| == |bs|
    ensures forall i :: 0 <= i < |r| ==> bs[i].0 in roleEnv && r[i].0 == roleEnv[bs[i].0]
    ensures forall i :: 0 <= i < |r| ==> Defined(bs[i].1, permEnv) && r[i].1 == ValuesOf(bs[i].1, permEnv)
  {
    seq(|bs|, i requires 0 <= i < |bs| => (roleEnv[bs[i].0], ValuesOf(bs[i].1, permEnv)))
  }

  predicate AllDefined(g: GoFile) {
    var roleEnv, permEnv := Assoc(g.roleConsts), Assoc(g.permConsts);
    && Defined(g.selfTuple, permEnv) && Defined(g.platformTuple, permEnv)
    && Defined(g.projectTuple, permEnv) && Defined(g.dualTuple, permEnv)
    && Defined(KeysOf(g.permScope), permEnv)
    && Defined(g.roles, roleEnv)
    && BlocksDefined(g.rolePermissions, roleEnv, permEnv)
  }

  predicate NoneReserved(idents: seq<string>) {
    forall i :: 0 <= i < |idents| ==> idents[i] !in RESERVED
  }

  /** The characters of a Go identifier, in ASCII. All emitted ones begin with a letter, and none is a keyword. */
  predicate IdentChar(c: char) {
    'a' <= c <= 'z' || 'A' <= c <= 'Z' || '0' <= c <= '9' || c == '_'
  }

  predicate IsIdent(s: string) {
    forall i :: 0 <= i < |s| ==> IdentChar(s[i])
  }

  predicate AllIdents(idents: seq<string>) {
    forall i :: 0 <= i < |idents| ==> IsIdent(idents[i])
  }

  function Declared(g: GoFile): seq<string> {
    KeysOf(g.roleConsts) + KeysOf(g.permConsts)
  }

  predicate ConstsOk(g: GoFile) {
    NoDup(Declared(g)) && NoneReserved(Declared(g))
  }

  /** No repeated constant keys in the two map literals, no repeated cases in the role switch. */
  predicate KeysOk(g: GoFile)
    requires AllDefined(g)
  {
    var roleEnv, permEnv := Assoc(g.roleConsts), Assoc(g.permConsts);
    && NoDup(KeysOf(ResolveLines(g.permScope, permEnv)))
    && NoDup(KeysOf(ResolveBlocks(g.rolePermissions, roleEnv, permEnv)))
    && NoDup(ValuesOf(g.roles, roleEnv))
  }

  function Load(g: GoFile): Result<Tables, CompileError> {
    if !AllIdents(Declared(g)) then Err(Malformed)
    else if !ConstsOk(g) then Err(Redeclared)
    else if !AllDefined(g) then Err(Undefined)
    else if !KeysOk(g) then Err(DuplicateKey)
    else
      var roleEnv, permEnv := Assoc(g.roleConsts), Assoc(g.permConsts);
      Ok(Tables(ValuesOf(g.selfTuple, permEnv), ValuesOf(g.platformTuple, permEnv),
                ValuesOf(g.projectTuple, permEnv), ValuesOf(g.dualTuple, permEnv),
                Assoc(ResolveLines(g.permScope, permEnv)),
                ValuesOf(g.roles, roleEnv),
                Assoc(ResolveBlocks(g.rolePermissions, roleEnv, permEnv))))
  }

  lemma LoadedRoleTable(g: GoFile, roleEnv: Env, permEnv: Env)
    requires Load(g).Ok? && roleEnv == Assoc(g.roleConsts) && permEnv == Assoc(g.permConsts)
    ensures BlocksDefined(g.rolePermissions, roleEnv, permEnv)
    ensures Load(g).value.rolePermissions == Assoc(ResolveBlocks(g.rolePermissions, roleEnv, permEnv))
  {
  }
}
