/**
 * The two cache implementations side by side: exactly when they give the same answers over timed runs, without a TTL,
 * Redis errors and tenant ids that are not literal.
 */
module Agreement {
  import opened Basics
  import opened Keys
  import opened Glob
  import opened CacheSpec
  import opened Redis
  import opened Timed

  /** What the Redis cache answers to the operations of a timed run. */
  function DbAnswers(c: Config, s: State, steps: seq<Step>): seq<Slice>
    decreases |steps|
  {
    if steps == [] then []
    else
      var rest := DbAnswers(c, Next(c, s, steps[0]), steps[1..]);
      if steps[0].Do? then [DbAnswer(c, s.db, steps[0].op)] + rest else rest
  }

  function After(c: Config, s: State, steps: seq<Step>): State
    decreases |steps|
  {
    if steps == [] then s else After(c, Next(c, s, steps[0]), steps[1..])
  }

  /** The operations of a timed run: the in-memory cache does not look at the clock. */
  function OpsOf(steps: seq<Step>): seq<Op> {
    if steps == [] then [] else (if steps[0].Do? then [steps[0].op] else []) + OpsOf(steps[1..])
  }

  /** What was stored under each key: the in-memory cache forgets whether it was nil, Redis does not. */
  type Slices = map<string, Slice>

  function SlicesStep(x: Slices, op: Op): Slices {
    match op
    case Get(_) => x
    case Set(p, v) => if KeyOf(p) in x then x else x[KeyOf(p) := v]
    case WriteThrough(p, v) => x[KeyOf(p) := v]
    case Invalidate(p) => x - {KeyOf(p)}
    case InvalidateTenant(t) => map k | k in x && !EndsWith(k, ":" + t) :: x[k]
  }

  function SlicesRun(x: Slices, ops: seq<Op>): Slices
    decreases |ops|
  {
    if ops == [] then x else SlicesRun(SlicesStep(x, ops[0]), ops[1..])
  }

  /** No Get of the run finds that a nil slice was what its key was stored with. */
  predicate NoNilRead(x: Slices, ops: seq<Op>)
    decreases |ops|
  {
    ops == [] ||
    (&& (ops[0].Get? && KeyOf(ops[0].p) in x ==> x[KeyOf(ops[0].p)].Some?)
     && NoNilRead(SlicesStep(x, ops[0]), ops[1..]))
  }

  ghost predicate InMemory(m: Store, x: Slices) {
    m.Keys == x.Keys && forall k :: k in x ==> m[k] == Elements(x[k])
  }

  /** Under this pair Redis holds what was stored. */
  predicate SameAt(c: Config, db: Db, x: Slices, p: Pair) {
    if KeyOf(p) in x then KeyIn(c, p) in db && db[KeyIn(c, p)].payload == Encode(x[KeyOf(p)])
    else KeyIn(c, p) !in db
  }

  ghost predicate InRedis(c: Config, db: Db, x: Slices) {
    forall p :: SameAt(c, db, x, p)
  }

  /** Nothing in the database ever runs out. */
  predicate Persistent(db: Db) {
    forall k :: k in db ==> db[k].deadline.None?
  }

  lemma SameKeys(c: Config, p: Pair, q: Pair)
    ensures KeyIn(c, p) == KeyIn(c, q) <==> KeyOf(p) == KeyOf(q)
  {
    assert KeyIn(c, p) == c.prefix + KeyOf(p) && KeyIn(c, q) == c.prefix + KeyOf(q);
    if KeyIn(c, p) == KeyIn(c, q) {
      assert KeyIn(c, p)[|c.prefix|..] == KeyOf(p) && KeyIn(c, q)[|c.prefix|..] == KeyOf(q);
    }
  }

  lemma RedisStepAt(c: Config, db: Db, x: Slices, now: int, op: Op, p: Pair)
    requires InRedis(c, db, x) && MetaFree(c.prefix) && LiteralTenant(op)
    ensures SameAt(c, DbStep(c, db, now, op), SlicesStep(x, op), p)
  {
    assert SameAt(c, db, x, p);
    if op.InvalidateTenant? {
      PatternAgreesWithSuffix(c.prefix, op.tenant, p.user, p.tenant);
    } else {
      SameKeys(c, p, op.p);
      assert SameAt(c, db, x, op.p);
    }
  }

  predicate LiteralTenant(op: Op) {
    op.InvalidateTenant? ==> Literal(op.tenant)
  }

  lemma RedisStep(c: Config, db: Db, x: Slices, now: int, op: Op)
    requires InRedis(c, db, x) && MetaFree(c.prefix) && LiteralTenant(op)
    ensures InRedis(c, DbStep(c, db, now, op), SlicesStep(x, op))
  {
    forall p ensures SameAt(c, DbStep(c, db, now, op), SlicesStep(x, op), p) {
      RedisStepAt(c, db, x, now, op, p);
    }
  }

  lemma InMemoryStep(m: Store, x: Slices, op: Op)
    requires InMemory(m, x)
    ensures InMemory(StoreStep(m, op), SlicesStep(x, op))
  {
  }

  /** One operation: the answers are the same exactly when it does not read back a nil slice. */
  lemma AnswersAgreeIff(c: Config, db: Db, m: Store, x: Slices, op: Op)
    requires InRedis(c, db, x) && InMemory(m, x)
    ensures DbAnswer(c, db, op) == StoreAnswer(m, op) <==> NoNilRead(x, [op])
  {
    if op.Get? {
      assert SameAt(c, db, x, op.p);
    }
  }

  /** Without a TTL no operation brings in a deadline, and the passing of time changes nothing. */
  lemma PersistenceStays(c: Config, s: State, step: Step)
    requires Persistent(s.db) && c.ttl <= 0
    ensures Persistent(Next(c, s, step).db)
    ensures step.Pass? ==> Next(c, s, step).db == s.db
  {
  }

  predicate AllLiteral(steps: seq<Step>) {
    forall i :: 0 <= i < |steps| && steps[i].Do? ==> LiteralTenant(steps[i].op)
  }

  /**
   * Over every timed run both caches hold what was stored, and they have given the same answers if and only if no Get
   * reads back a slice stored as nil.
   */
  lemma {:induction false} CachesAgreeIff(c: Config, s: State, m: Store, x: Slices, steps: seq<Step>)
    requires InRedis(c, s.db, x) && InMemory(m, x)
    requires MetaFree(c.prefix) && c.ttl <= 0 && Persistent(s.db) && AllLiteral(steps)
    ensures DbAnswers(c, s, steps) == StoreAnswers(m, OpsOf(steps)) <==> NoNilRead(x, OpsOf(steps))
    ensures InRedis(c, After(c, s, steps).db, SlicesRun(x, OpsOf(steps)))
    ensures InMemory(StoreRun(m, OpsOf(steps)), SlicesRun(x, OpsOf(steps)))
    decreases |steps|
  {
    if steps != [] {
      var s', rest := Next(c, s, steps[0]), steps[1..];
      PersistenceStays(c, s, steps[0]);
      if steps[0].Do? {
        var op := steps[0].op;
        AnswersAgreeIff(c, s.db, m, x, op);
        RedisStep(c, s.db, x, s.now, op);
        InMemoryStep(m, x, op);
        CachesAgreeIff(c, s', StoreStep(m, op), SlicesStep(x, op), rest);
        assert OpsOf(steps)[0] == op && OpsOf(steps)[1..] == OpsOf(rest);
        SameFirstAndRest(DbAnswer(c, s.db, op), StoreAnswer(m, op), DbAnswers(c, s', rest),
                         StoreAnswers(StoreStep(m, op), OpsOf(rest)));
      } else {
        CachesAgreeIff(c, s', m, x, rest);
        assert OpsOf(steps) == OpsOf(rest);
      }
    }
  }

  lemma SameFirstAndRest(a: Slice, b: Slice, r: seq<Slice>, t: seq<Slice>)
    ensures [a] + r == [b] + t <==> a == b && r == t
  {
    assert ([a] + r)[0] == a && ([a] + r)[1..] == r && ([b] + t)[0] == b && ([b] + t)[1..] == t;
  }

  predicate Plain(op: Op) {
    LiteralTenant(op) && ((op.Set? || op.WriteThrough?) ==> op.v.Some?)
  }

  predicate AllPlain(steps: seq<Step>) {
    forall i :: 0 <= i < |steps| && steps[i].Do? ==> Plain(steps[i].op)
  }

  lemma {:induction false} PlainNeverReadsNil(x: Slices, steps: seq<Step>)
    requires AllPlain(steps) && forall k :: k in x ==> x[k].Some?
    ensures NoNilRead(x, OpsOf(steps))
    decreases |steps|
  {
    if steps != [] {
      var rest := OpsOf(steps[1..]);
      if steps[0].Do? {
        PlainNeverReadsNil(SlicesStep(x, steps[0].op), steps[1..]);
        assert OpsOf(steps)[0] == steps[0].op && OpsOf(steps)[1..] == rest;
      } else {
        PlainNeverReadsNil(x, steps[1..]);
        assert OpsOf(steps) == rest;
      }
    }
  }

  lemma DefaultPrefixIsMetaFree()
    ensures MetaFree(KEY_PREFIX)
  {
  }

  /** In particular with the default prefix and TTL, from empty, when no nil slice is stored. */
  lemma DefaultCachesAgree(steps: seq<Step>)
    requires AllPlain(steps)
    ensures DbAnswers(Config(KEY_PREFIX, 0), EMPTY, steps) == StoreAnswers(map[], OpsOf(steps))
  {
    DefaultPrefixIsMetaFree();
    PlainNeverReadsNil(map[], steps);
    CachesAgreeIff(Config(KEY_PREFIX, 0), EMPTY, map[], map[], steps);
  }

  function DoAll(ops: seq<Op>): (steps: seq<Step>)
    ensures |steps| == |ops| && forall i :: 0 <= i < |ops| ==> steps[i] == Do(ops[i])
  {
    Map((op: Op) => Do(op), ops)
  }

  lemma {:induction false} OpsOfDoAll(steps: seq<Step>, ops: seq<Op>)
    requires |steps| == |ops| && forall i :: 0 <= i < |ops| ==> steps[i] == Do(ops[i])
    ensures OpsOf(steps) == ops
  {
    if ops != [] {
      OpsOfDoAll(steps[1..], ops[1..]);
      assert ops == [ops[0]] + ops[1..];
    }
  }

  /** So the Redis cache is a table keyed by pairs, over a set of tenants, if and only if they are apart. */
  lemma RedisSimulationIff(tenants: set<string>)
    ensures (forall steps :: AllPlain(steps) && Over(OpsOf(steps), tenants) ==>
               DbAnswers(Config(KEY_PREFIX, 0), EMPTY, steps) == TableAnswers(map[], OpsOf(steps)))
       <==> Apart(tenants)
  {
    SimulationIff(tenants);
    if Apart(tenants) {
      forall steps | AllPlain(steps) && Over(OpsOf(steps), tenants)
        ensures DbAnswers(Config(KEY_PREFIX, 0), EMPTY, steps) == TableAnswers(map[], OpsOf(steps))
      {
        DefaultCachesAgree(steps);
      }
    } else {
      var t, u :| t in tenants && u in tenants && EndsWith(t, ":" + u);
      var ops := NestedTenantLeaks(t, u);
      var steps := DoAll(ops);
      OpsOfDoAll(steps, ops);
      forall i | 0 <= i < |steps| ensures Plain(steps[i].op) {
        assert ops[i] in ops;
      }
      DefaultCachesAgree(steps);
    }
  }
}
