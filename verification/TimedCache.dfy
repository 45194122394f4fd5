/** The Redis cache class, called while the server's clock runs, does what the timed runs say. */
module TimedCache {
  import opened Basics
  import opened Keys
  import opened Glob
  import opened CacheSpec
  import opened Redis
  import opened TenantScan
  import opened Timed

  /** The matching keys, in any order the server lists them. */
  method MatchingKeys(db: Db, pattern: string) returns (keys: seq<string>)
    ensures ToSet(keys) == Matching(db, pattern)
  {
    keys := [];
    var pending := db.Keys;
    while pending != {}
      invariant pending <= db.Keys
      invariant forall k :: k in keys <==> k in db.Keys - pending && GlobMatch(pattern, k)
      decreases |pending|
    {
      var k :| k in pending;
      pending := pending - {k};
      if GlobMatch(pattern, k) {
        keys := keys + [k];
      }
    }
  }

  /** One complete batch with nobody else at work is a full iteration. */
  lemma OneBatchIsComplete(db: Db, keys: seq<string>, pattern: string)
    requires ToSet(keys) == Matching(db, pattern)
    ensures var rounds := [Round([], Batch(keys, 0), [], Deleted)];
            && Ends(rounds) && Quiet(rounds) && !ScanRun(db, rounds).failed
            && RepliesMatch(rounds, pattern) && FullIteration(db, rounds, pattern)
  {
    var rounds := [Round([], Batch(keys, 0), [], Deleted)];
    assert Stops(rounds[0]);
    forall k | k in keys ensures GlobMatch(pattern, k) {
      assert k in ToSet(keys);
    }
    forall k | GlobMatch(pattern, k) && Throughout(k, db, rounds) ensures InSomeBatch(k, rounds) {
      assert k in db && k in Matching(db, pattern) && k in ToSet(keys);
    }
  }

  /** One call on the cache, or the passing of time on its server. */
  method Perform(cache: RedisPermissionCache, step: Step) returns (answer: Slice)
    modifies cache.rdb
    ensures State(cache.rdb.db, cache.rdb.now) == Next(cache.config, old(State(cache.rdb.db, cache.rdb.now)), step)
    ensures answer == if step.Do? then DbAnswer(cache.config, old(cache.rdb.db), step.op) else None
  {
    answer := None;
    match step {
      case Pass(nanos) => cache.rdb.Advance(nanos);
      case Do(Get(p)) => answer := cache.Get(p.user, p.tenant, true);
      case Do(Set(p, v)) =>
        var failed := cache.Set(p.user, p.tenant, v, true);
      case Do(WriteThrough(p, v)) =>
        var failed := cache.WriteThrough(p.user, p.tenant, v, true);
      case Do(Invalidate(p)) =>
        var failed := cache.Invalidate(p.user, p.tenant, true);
      case Do(InvalidateTenant(t)) =>
        var pattern := TenantPattern(cache.config.prefix, t);
        var keys := MatchingKeys(cache.rdb.db, pattern);
        OneBatchIsComplete(cache.rdb.db, keys, pattern);
        FailedIff(cache.rdb.db, [Round([], Batch(keys, 0), [], Deleted)]);
        var failed, deleted := InvalidateTenantChecked(cache, t, [Round([], Batch(keys, 0), [], Deleted)]);
    }
  }

  /** Over every timed run the server of a new cache is in the state the run leads to. */
  method DriveTimed(rdb: RedisServer, ttlSeconds: int, keyPrefix: string, steps: seq<Step>)
    returns (cache: RedisPermissionCache)
    modifies rdb
    ensures cache.rdb == rdb && cache.config == Config(CoercePrefix(keyPrefix), CoerceTtl(ttlSeconds))
    ensures State(rdb.db, rdb.now) == At(cache.config, old(State(rdb.db, rdb.now)), steps, |steps|)
  {
    cache := new RedisPermissionCache(rdb, ttlSeconds, keyPrefix);
    for n := 0 to |steps|
      invariant State(rdb.db, rdb.now) == At(cache.config, old(State(rdb.db, rdb.now)), steps, n)
    {
      var answer := Perform(cache, steps[n]);
    }
  }
}
