/**
 * What a permission cache does, on values: first with the concatenated string keys of the in-memory store,
 * then with (user, tenant) pairs as keys. The first simulates the second when tenants are colon-free.
 */
module CacheSpec {
  import opened Basics
  import opened Keys

  type Permission = string

  /** A Go slice of permissions: None is the nil slice, which differs from the empty one. */
  type Slice = Option<seq<Permission>>

  function Elements(v: Slice): seq<Permission> {
    if v.Some? then v.value else []
  }

  datatype Op =
    | Get(p: Pair)
    | Set(p: Pair, v: Slice)
    | WriteThrough(p: Pair, v: Slice)
    | Invalidate(p: Pair)
    | InvalidateTenant(tenant: string)

  function TenantOf(op: Op): string {
    if op.InvalidateTenant? then op.tenant else op.p.tenant
  }

  type Store = map<string, seq<Permission>>

  function Lookup<K(==), V>(m: map<K, V>, k: K): Option<V> {
    if k in m then Some(m[k]) else None
  }

  function WithoutTenant(m: Store, tenant: string): Store {
    map k | k in m && !EndsWith(k, ":" + tenant) :: m[k]
  }

  /** One operation of the string-keyed store. */
  function StoreStep(m: Store, op: Op): Store {
    match op
    case Get(_) => m
    case Set(p, v) => if KeyOf(p) in m then m else m[KeyOf(p) := Elements(v)]
    case WriteThrough(p, v) => m[KeyOf(p) := Elements(v)]
    case Invalidate(p) => m - {KeyOf(p)}
    case InvalidateTenant(t) => WithoutTenant(m, t)
  }

  function StoreAnswer(m: Store, op: Op): Slice {
    if op.Get? then Lookup(m, KeyOf(op.p)) else None
  }

  function StoreAnswers(m: Store, ops: seq<Op>): seq<Slice>
    decreases |ops|
  {
    if ops == [] then [] else [StoreAnswer(m, ops[0])] + StoreAnswers(StoreStep(m, ops[0]), ops[1..])
  }

  function StoreRun(m: Store, ops: seq<Op>): Store
    decreases |ops|
  {
    if ops == [] then m else StoreRun(StoreStep(m, ops[0]), ops[1..])
  }

  type Table = map<Pair, seq<Permission>>

  /** The same operations on an ideal table keyed by pairs. */
  function TableStep(a: Table, op: Op): Table {
    match op
    case Get(_) => a
    case Set(p, v) => if p in a then a else a[p := Elements(v)]
    case WriteThrough(p, v) => a[p := Elements(v)]
    case Invalidate(p) => a - {p}
    case InvalidateTenant(t) => map p | p in a && p.tenant != t :: a[p]
  }

  function TableAnswer(a: Table, op: Op): Slice {
    if op.Get? then Lookup(a, op.p) else None
  }

  function TableAnswers(a: Table, ops: seq<Op>): seq<Slice>
    decreases |ops|
  {
    if ops == [] then [] else [TableAnswer(a, ops[0])] + TableAnswers(TableStep(a, ops[0]), ops[1..])
  }

  function TableRun(a: Table, ops: seq<Op>): Table
    decreases |ops|
  {
    if ops == [] then a else TableRun(TableStep(a, ops[0]), ops[1..])
  }

  /** The store holds exactly the table's entries, each under its pair's key, and all of the given tenants. */
  ghost predicate Represents(m: Store, a: Table, tenants: set<string>) {
    && (forall p :: p in a ==> p.tenant in tenants && KeyOf(p) in m && m[KeyOf(p)] == a[p])
    && (forall k :: k in m ==> exists p :: p in a && KeyOf(p) == k)
  }

  lemma RepresentsLookup(m: Store, a: Table, tenants: set<string>, p: Pair)
    requires Represents(m, a, tenants) && Apart(tenants) && p.tenant in tenants
    ensures Lookup(m, KeyOf(p)) == Lookup(a, p)
  {
    if KeyOf(p) in m {
      var q :| q in a && KeyOf(q) == KeyOf(p);
      KeysApart(tenants, p, q);
    }
  }

  lemma PutRepresents(m: Store, a: Table, tenants: set<string>, q: Pair, v: seq<Permission>)
    requires Represents(m, a, tenants) && Apart(tenants) && q.tenant in tenants
    ensures Represents(m[KeyOf(q) := v], a[q := v], tenants)
  {
    var m', a' := m[KeyOf(q) := v], a[q := v];
    forall p | p in a' ensures p.tenant in tenants && KeyOf(p) in m' && m'[KeyOf(p)] == a'[p] {
      KeysApart(tenants, p, q);
    }
    forall k | k in m' ensures exists p :: p in a' && KeyOf(p) == k {
      assert q in a';
      if k != KeyOf(q) {
        var p :| p in a && KeyOf(p) == k;
        assert p in a';
      }
    }
  }

  lemma DropRepresents(m: Store, a: Table, tenants: set<string>, q: Pair)
    requires Represents(m, a, tenants) && Apart(tenants) && q.tenant in tenants
    ensures Represents(m - {KeyOf(q)}, a - {q}, tenants)
  {
    var m', a' := m - {KeyOf(q)}, a - {q};
    forall p | p in a' ensures p.tenant in tenants && KeyOf(p) in m' && m'[KeyOf(p)] == a'[p] {
      KeysApart(tenants, p, q);
    }
    forall k | k in m' ensures exists p :: p in a' && KeyOf(p) == k {
      var p :| p in a && KeyOf(p) == k;
      assert p in a';
    }
  }

  lemma TenantRepresents(m: Store, a: Table, tenants: set<string>, t: string)
    requires Represents(m, a, tenants) && Apart(tenants) && t in tenants
    ensures Represents(StoreStep(m, InvalidateTenant(t)), TableStep(a, InvalidateTenant(t)), tenants)
  {
    var m', a' := WithoutTenant(m, t), TableStep(a, InvalidateTenant(t));
    forall p | p in a' ensures p.tenant in tenants && KeyOf(p) in m' && m'[KeyOf(p)] == a'[p] {
      SuffixApart(tenants, p.user, p.tenant, t);
    }
    forall k | k in m' ensures exists p :: p in a' && KeyOf(p) == k {
      var p :| p in a && KeyOf(p) == k;
      SuffixApart(tenants, p.user, p.tenant, t);
      assert p in a';
    }
  }

  lemma StepPreserved(m: Store, a: Table, tenants: set<string>, op: Op)
    requires Represents(m, a, tenants) && Apart(tenants) && TenantOf(op) in tenants
    ensures Represents(StoreStep(m, op), TableStep(a, op), tenants)
    ensures StoreAnswer(m, op) == TableAnswer(a, op)
  {
    if op.InvalidateTenant? {
      TenantRepresents(m, a, tenants, op.tenant);
    } else {
      RepresentsLookup(m, a, tenants, op.p);
      match op {
        case Set(p, v) => PutRepresents(m, a, tenants, p, Elements(v));
        case WriteThrough(p, v) => PutRepresents(m, a, tenants, p, Elements(v));
        case Invalidate(p) => DropRepresents(m, a, tenants, p);
        case _ =>
      }
    }
  }

  /** Every sequence of operations over tenants that are apart gives the ideal table's answers and contents. */
  lemma {:induction false} StoreSimulatesTable(m: Store, a: Table, tenants: set<string>, ops: seq<Op>)
    requires Represents(m, a, tenants) && Apart(tenants) && Over(ops, tenants)
    ensures StoreAnswers(m, ops) == TableAnswers(a, ops)
    ensures Represents(StoreRun(m, ops), TableRun(a, ops), tenants)
    decreases |ops|
  {
    if ops != [] {
      assert ops[0] in ops;
      StepPreserved(m, a, tenants, ops[0]);
      StoreSimulatesTable(StoreStep(m, ops[0]), TableStep(a, ops[0]), tenants, ops[1..]);
    }
  }

  predicate Over(ops: seq<Op>, tenants: set<string>) {
    forall op :: op in ops ==> TenantOf(op) in tenants
  }

  lemma EmptyStoreRepresents(tenants: set<string>)
    ensures Represents(map[], map[], tenants)
  {
  }

  /** A tenant that ends with another one: a write for the first answers a Get for the second. */
  lemma NestedTenantLeaks(t: string, u: string) returns (ops: seq<Op>)
    requires EndsWith(t, ":" + u)
    ensures Over(ops, {t, u}) && StoreAnswers(map[], ops) != TableAnswers(map[], ops)
    ensures forall op :: op in ops ==> op.Get? || (op.WriteThrough? && op.v.Some?)
  {
    var x := t[..|t| - |u| - 1];
    var w, g := WriteThrough(Pair("a", t), Some(["p"])), Get(Pair("a:" + x, u));
    ops := [w, g];
    assert t == x + (":" + u);
    assert KeyOf(w.p) == "a:" + x + ":" + u == KeyOf(g.p);
    assert ops[1..] == [g] && [g][1..] == [];
    assert StoreAnswers(StoreStep(map[], w), [g])[0] == Some(["p"]);
    assert |w.p.user| != |g.p.user|;
    assert TableAnswers(TableStep(map[], w), [g])[0] == None;
    assert StoreAnswers(map[], ops)[1] != TableAnswers(map[], ops)[1];
  }

  /** The string-keyed store is a table keyed by pairs, over a set of tenants, if and only if they are apart. */
  lemma SimulationIff(tenants: set<string>)
    ensures (forall ops :: Over(ops, tenants) ==> StoreAnswers(map[], ops) == TableAnswers(map[], ops))
       <==> Apart(tenants)
  {
    if Apart(tenants) {
      EmptyStoreRepresents(tenants);
      forall ops | Over(ops, tenants) ensures StoreAnswers(map[], ops) == TableAnswers(map[], ops) {
        StoreSimulatesTable(map[], map[], tenants, ops);
      }
    } else {
      var t, u :| t in tenants && u in tenants && EndsWith(t, ":" + u);
      var ops := NestedTenantLeaks(t, u);
    }
  }

  /** In particular it is one under every sequence of operations with colon-free tenants. */
  lemma ColonFreeSimulation(ops: seq<Op>)
    requires forall op :: op in ops ==> ColonFree(TenantOf(op))
    ensures StoreAnswers(map[], ops) == TableAnswers(map[], ops)
  {
    var tenants := set op | op in ops :: TenantOf(op);
    ColonFreeTenantsAreApart(tenants);
    SimulationIff(tenants);
  }
}
