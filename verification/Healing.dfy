/** An unreadable value, null or corrupt, counts as a miss but holds its key: when reads and Sets recover from it. */
module Healing {
  import opened Basics
  import opened Keys
  import opened CacheSpec
  import opened Redis
  import opened Timed

  /** Clients that only read and populate, as the read path does, while time passes. */
  predicate ReadsAndSets(steps: seq<Step>) {
    forall i :: 0 <= i < |steps| && steps[i].Do? ==> steps[i].op.Get? || steps[i].op.Set?
  }

  /** An entry that has not run out by the end has been there all along. */
  lemma {:induction false} EntryStays(c: Config, s: State, steps: seq<Step>, i: nat, n: nat, k: string)
    requires i <= n <= |steps| && ReadsAndSets(steps)
    ensures k in At(c, s, steps, i).db && Unexpired(At(c, s, steps, i).db[k], At(c, s, steps, n).now) ==>
              k in At(c, s, steps, n).db && At(c, s, steps, n).db[k] == At(c, s, steps, i).db[k]
    decreases n
  {
    if i < n {
      TimeAdvances(c, s, steps, n - 1, n);
      EntryStays(c, s, steps, i, n - 1, k);
      assert At(c, s, steps, n) == Next(c, At(c, s, steps, n - 1), steps[n - 1]);
    }
  }

  /** Step i is a Set of a real array that finds the key free, and what it stores has not run out after n steps. */
  predicate Heals(c: Config, s: State, steps: seq<Step>, i: nat, n: nat, k: string)
    requires n <= |steps|
  {
    && i < n
    && steps[i].Do? && steps[i].op.Set? && steps[i].op.v.Some? && KeyIn(c, steps[i].op.p) == k
    && k !in At(c, s, steps, i).db
    && Unexpired(EntryOf(c, s, steps, i), At(c, s, steps, n).now)
  }

  predicate Unreadable(s: State, k: string) {
    k in s.db && Decode(s.db[k].payload) == None
  }

  /** A Set that heals comes at or after the unreadable value's deadline, so there must be one. */
  lemma HealsAfterDeadline(c: Config, s: State, steps: seq<Step>, i: nat, n: nat, k: string)
    requires n <= |steps| && ReadsAndSets(steps) && k in s.db
    ensures Heals(c, s, steps, i, n, k) ==>
              s.db[k].deadline.Some? && s.db[k].deadline.value <= At(c, s, steps, i).now
  {
    if Heals(c, s, steps, i, n, k) && Unexpired(s.db[k], At(c, s, steps, i).now) {
      EntryStays(c, s, steps, 0, i, k);
    }
  }

  lemma HealedIsServed(c: Config, s: State, steps: seq<Step>, i: nat, n: nat, k: string)
    requires n <= |steps| && ReadsAndSets(steps)
    ensures Heals(c, s, steps, i, n, k) ==>
              k in At(c, s, steps, n).db && Decode(At(c, s, steps, n).db[k].payload) == steps[i].op.v
  {
    if Heals(c, s, steps, i, n, k) {
      assert At(c, s, steps, i + 1) == Next(c, At(c, s, steps, i), steps[i]);
      EntryStays(c, s, steps, i + 1, n, k);
    }
  }

  /**
   * From an unreadable value, reads and Sets make Get answer exactly when a Set of a real array has found the key free
   * and has not run out; that happens at or after the value's deadline, and never if it has none.
   */
  lemma HealsIff(c: Config, s: State, steps: seq<Step>, n: nat, p: Pair)
    requires n <= |steps| && Fresh(s) && ReadsAndSets(steps) && Unreadable(s, KeyIn(c, p))
    ensures DbAnswer(c, At(c, s, steps, n).db, Get(p)).Some? <==> exists i :: Heals(c, s, steps, i, n, KeyIn(c, p))
    ensures var deadline := s.db[KeyIn(c, p)].deadline;
            && (deadline.None? ==> DbAnswer(c, At(c, s, steps, n).db, Get(p)) == None)
            && forall i :: Heals(c, s, steps, i, n, KeyIn(c, p)) ==>
                 deadline.Some? && deadline.value <= At(c, s, steps, i).now
  {
    var k := KeyIn(c, p);
    if DbAnswer(c, At(c, s, steps, n).db, Get(p)).Some? {
      var i := ServedEntryHasSource(c, s, steps, n, k);
      assert Heals(c, s, steps, i, n, k);
    }
    if i :| Heals(c, s, steps, i, n, k) {
      HealedIsServed(c, s, steps, i, n, k);
    }
    forall i | Heals(c, s, steps, i, n, k)
      ensures s.db[k].deadline.Some? && s.db[k].deadline.value <= At(c, s, steps, i).now
    {
      HealsAfterDeadline(c, s, steps, i, n, k);
    }
  }

  /** With the default TTL, nothing but a write or a removal ever makes a null that was written readable again. */
  lemma NullStaysWithoutTtl(c: Config, s: State, steps: seq<Step>, p: Pair)
    requires c.ttl <= 0 && Fresh(s) && ReadsAndSets(steps)
    ensures var s' := Next(c, s, Do(WriteThrough(p, None)));
            DbAnswer(c, At(c, s', steps, |steps|).db, Get(p)) == None
  {
    var s' := Next(c, s, Do(WriteThrough(p, None)));
    HealsIff(c, s', steps, |steps|, p);
  }

  /** With a TTL, one that has run out gives way to the next Set. */
  lemma SetHealsAfterTtl(c: Config, s: State, p: Pair, v: seq<Permission>)
    requires 0 < c.ttl <= 9223372036
    ensures var s' := Next(c, s, Do(WriteThrough(p, None)));
            var steps := [Pass(c.ttl * NANOS_PER_SECOND), Do(Set(p, Some(v)))];
            ReadsAndSets(steps) && DbAnswer(c, At(c, s', steps, 2).db, Get(p)) == Some(v)
  {
    DurationExactIff(c.ttl);
    var s' := Next(c, s, Do(WriteThrough(p, None)));
    var steps := [Pass(c.ttl * NANOS_PER_SECOND), Do(Set(p, Some(v)))];
    assert At(c, s', steps, 1) == Next(c, s', steps[0]);
    assert At(c, s', steps, 2) == Next(c, At(c, s', steps, 1), steps[1]);
  }
}
