/**
 * The cache commands of the transition system are the cache's own. Its cache is the part of a Redis database under the
 * prefix, and each of its steps does there, and reads from there, what the cache operation does.
 */
module ProtocolCache {
  import opened Basics
  import opened Keys
  import opened CacheSpec
  import opened Redis
  import opened Protocol

  /** Under this key the system's cache holds the payload stored under the prefixed one, or neither holds any. */
  predicate HoldsAt(c: Config, cache: map<string, Payload>, db: Db, k: string) {
    Lookup(cache, k) == if c.prefix + k in db then Some(db[c.prefix + k].payload) else None
  }

  ghost predicate Holds(c: Config, cache: map<string, Payload>, db: Db) {
    forall k: string :: HoldsAt(c, cache, db, k)
  }

  lemma PrefixedKey(c: Config, p: Pair)
    ensures KeyIn(c, p) == c.prefix + KeyOf(p)
  {
  }

  lemma PrefixInjective(prefix: string, k: string, q: string)
    ensures prefix + k == prefix + q <==> k == q
  {
    assert (prefix + k)[|prefix|..] == k && (prefix + q)[|prefix|..] == q;
  }

  lemma PutHolds(c: Config, cache: map<string, Payload>, db: Db, k: string, e: Entry)
    requires Holds(c, cache, db)
    ensures Holds(c, cache[k := e.payload], db[c.prefix + k := e])
  {
    var cache', db' := cache[k := e.payload], db[c.prefix + k := e];
    forall q: string ensures HoldsAt(c, cache', db', q) {
      PrefixInjective(c.prefix, k, q);
      assert HoldsAt(c, cache, db, q);
    }
  }

  lemma DropHolds(c: Config, cache: map<string, Payload>, db: Db, k: string)
    requires Holds(c, cache, db)
    ensures Holds(c, cache - {k}, db - {c.prefix + k})
  {
    var cache', db' := cache - {k}, db - {c.prefix + k};
    forall q: string ensures HoldsAt(c, cache', db', q) {
      PrefixInjective(c.prefix, k, q);
      assert HoldsAt(c, cache, db, q);
    }
  }

  /** cache.Get: the answer decides between a hit with it and a miss; a failed command is a miss. */
  lemma LookIsGet(c: Config, s: State, db: Db, call: nat, up: bool)
    requires Holds(c, s.cache, db) && Enabled(s, Look(call, up))
    requires s.callers[call].key == KeyOf(s.callers[call].pair)
    ensures var answer := if up then DbAnswer(c, db, Get(s.callers[call].pair)) else None;
            DoLook(s, call, up).callers[call].phase == if answer.Some? then Hit(answer.value) else Missed
  {
    PrefixedKey(c, s.callers[call].pair);
    assert HoldsAt(c, s.cache, db, s.callers[call].key);
  }

  /** cache.Set of the fetch: NX on the database, a present but unreadable key included; its failure is swallowed. */
  lemma FillIsSet(c: Config, s: State, db: Db, now: int, e: nat, up: bool)
    requires Holds(c, s.cache, db) && Enabled(s, Fill(e, up)) && s.entries[e].key == KeyOf(s.entries[e].pair)
    ensures var f, s' := s.entries[e], DoFill(s, e, up);
            && Holds(c, s'.cache, if up then DbStep(c, db, now, Set(f.pair, Some(f.phase.value))) else db)
            && s'.entries[e].phase == Returned(Granted(f.phase.value))
  {
    var p, v := s.entries[e].pair, s.entries[e].phase.value;
    PrefixedKey(c, p);
    assert HoldsAt(c, s.cache, db, KeyOf(p));
    PutHolds(c, s.cache, db, KeyOf(p), Entry(Encode(Some(v)), Deadline(now, c.ttl)));
  }

  lemma WriteIsWriteThrough(c: Config, s: State, db: Db, now: int, p: Pair, v: Slice)
    requires Holds(c, s.cache, db)
    ensures Holds(c, Next(s, Write(p, v)).cache, DbStep(c, db, now, WriteThrough(p, v)))
  {
    PrefixedKey(c, p);
    PutHolds(c, s.cache, db, KeyOf(p), Entry(Encode(v), Deadline(now, c.ttl)));
  }

  lemma RemoveIsInvalidate(c: Config, s: State, db: Db, now: int, p: Pair)
    requires Holds(c, s.cache, db)
    ensures Holds(c, Next(s, Remove(KeyOf(p))).cache, DbStep(c, db, now, Invalidate(p)))
  {
    PrefixedKey(c, p);
    DropHolds(c, s.cache, db, KeyOf(p));
  }

  /** Another client's SET of something that is no array. */
  lemma CorruptIsForeignSet(c: Config, s: State, db: Db, k: string, e: Entry)
    requires Holds(c, s.cache, db) && !e.payload.Array?
    ensures Enabled(s, Corrupt(k, e.payload))
    ensures Holds(c, Next(s, Corrupt(k, e.payload)).cache, db[c.prefix + k := e])
  {
    PutHolds(c, s.cache, db, k, e);
  }

  /** Whether a command or a request succeeds is not up to the client, and neither is what others do, or when. */
  lemma OutcomesAreFree(s: State, i: nat, code: int, p: Pair, r: Resolution, v: Slice, k: string)
    ensures Enabled(s, Look(i, true)) <==> Enabled(s, Look(i, false))
    ensures Enabled(s, Ask(i, None)) <==> Enabled(s, Ask(i, Some(code)))
    ensures Enabled(s, Fill(i, true)) <==> Enabled(s, Fill(i, false))
    ensures Enabled(s, Arrive(i, p)) && Enabled(s, RoleChange(p, r)) && Enabled(s, Write(p, v)) && Enabled(s, Remove(k))
  {
  }

  /** No other step changes the cache. */
  lemma OtherStepsLeaveCache(s: State, step: Step)
    requires Enabled(s, step) && !step.Fill? && !step.Write? && !step.Remove? && !step.Corrupt?
    ensures Next(s, step).cache == s.cache
  {
  }

  /** Keys that go by themselves, when their time is up, go as if removed one by one. */
  function RemoveAll(keys: seq<string>): (steps: seq<Step>)
    ensures |steps| == |keys| && forall i :: 0 <= i < |keys| ==> steps[i] == Remove(keys[i])
  {
    Map((k: string) => Remove(k), keys)
  }

  lemma {:induction false} RemoveAllRun(s: State, keys: seq<string>)
    ensures ValidRun(s, RemoveAll(keys)) && Final(s, RemoveAll(keys)) == s.(cache := s.cache - ToSet(keys))
    decreases |keys|
  {
    if keys == [] {
      assert s.cache - ToSet(keys) == s.cache;
    } else {
      RemoveAllRun(Next(s, Remove(keys[0])), keys[1..]);
      assert RemoveAll(keys)[1..] == RemoveAll(keys[1..]);
      assert forall k :: k in keys <==> k == keys[0] || k in keys[1..];
      assert s.cache - {keys[0]} - ToSet(keys[1..]) == s.cache - ToSet(keys);
    }
  }

  /** A database that has only lost keys, to a tenant's invalidation or to time, is reached by removals. */
  lemma LossesAreRemovals(c: Config, s: State, db: Db, db': Db, keys: seq<string>)
    requires Holds(c, s.cache, db)
    requires forall k :: k in db' ==> k in db && db'[k] == db[k]
    requires forall k :: k in keys <==> c.prefix + k in db && c.prefix + k !in db'
    ensures ValidRun(s, RemoveAll(keys)) && Holds(c, Final(s, RemoveAll(keys)).cache, db')
  {
    RemoveAllRun(s, keys);
    forall k: string ensures HoldsAt(c, s.cache - ToSet(keys), db', k) {
      assert HoldsAt(c, s.cache, db, k);
    }
  }

  /** No write, removal or corruption of the key. */
  predicate SparesKey(step: Step, k: string) {
    match step
    case Write(q, _) => KeyOf(q) != k
    case Remove(key) => key != k
    case Corrupt(key, _) => key != k
    case _ => true
  }

  /** Under a value that is no array, every run that spares the key leaves it, and no call that looks there hits. */
  lemma {:induction false} UnreadableStays(s: State, steps: seq<Step>, k: string, c: nat)
    requires ValidRun(s, steps) && forall i :: 0 <= i < |steps| ==> SparesKey(steps[i], k)
    requires k in s.cache && !s.cache[k].Array?
    ensures var s' := Final(s, steps);
            && k in s'.cache && s'.cache[k] == s.cache[k]
            && (c < |s'.callers| && s'.callers[c].key == k && s'.callers[c].phase.Hit? ==>
                  c < |s.callers| && s.callers[c].key == k && s.callers[c].phase.Hit?)
    decreases |steps|
  {
    if steps != [] {
      assert SparesKey(steps[0], k);
      UnreadableStep(s, steps[0], k, c);
      var rest := steps[1..];
      forall i | 0 <= i < |rest| ensures SparesKey(rest[i], k) {
        assert rest[i] == steps[i + 1];
      }
      UnreadableStays(Next(s, steps[0]), rest, k, c);
    }
  }

  lemma UnreadableStep(s: State, step: Step, k: string, c: nat)
    requires Enabled(s, step) && SparesKey(step, k) && k in s.cache && !s.cache[k].Array?
    ensures var s' := Next(s, step);
            && k in s'.cache && s'.cache[k] == s.cache[k]
            && (c < |s'.callers| && s'.callers[c].key == k && s'.callers[c].phase.Hit? ==>
                  c < |s.callers| && s.callers[c].key == k && s.callers[c].phase.Hit?)
  {
  }
}
