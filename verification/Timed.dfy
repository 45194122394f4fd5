/** How long an entry of the Redis cache lives: timed runs of cache operations and clock advances. */
module Timed {
  import opened Basics
  import opened Keys
  import opened Glob
  import opened CacheSpec
  import opened Redis

  datatype Step = Do(op: Op) | Pass(nanos: nat)

  datatype State = State(db: Db, now: int)

  const EMPTY := State(map[], 0)

  function Next(c: Config, s: State, step: Step): State {
    match step
    case Do(op) => s.(db := DbStep(c, s.db, s.now, op))
    case Pass(nanos) => State(Expire(s.db, s.now + nanos), s.now + nanos)
  }

  /** The state after the first n steps of a run. */
  function At(c: Config, s: State, steps: seq<Step>, n: nat): State
    requires n <= |steps|
  {
    if n == 0 then s else Next(c, At(c, s, steps, n - 1), steps[n - 1])
  }

  /** Step i really stores an entry under k: a WriteThrough, or a Set that finds no live entry. */
  predicate StoresAt(c: Config, s: State, steps: seq<Step>, i: nat, k: string)
    requires i < |steps|
  {
    && steps[i].Do?
    && match steps[i].op
       case WriteThrough(p, _) => KeyIn(c, p) == k
       case Set(p, _) => KeyIn(c, p) == k && k !in At(c, s, steps, i).db
       case _ => false
  }

  predicate RemovesAt(c: Config, steps: seq<Step>, i: nat, k: string)
    requires i < |steps|
  {
    && steps[i].Do?
    && match steps[i].op
       case Invalidate(p) => KeyIn(c, p) == k
       case InvalidateTenant(t) => GlobMatch(TenantPattern(c.prefix, t), k)
       case _ => false
  }

  /** The entry stored by step i is the one served after n steps. */
  ghost predicate LiveSince(c: Config, s: State, steps: seq<Step>, i: nat, n: nat, k: string)
    requires n <= |steps|
  {
    && i < n
    && StoresAt(c, s, steps, i, k)
    && (forall j :: i < j < n ==> !StoresAt(c, s, steps, j, k) && !RemovesAt(c, steps, j, k))
    && Unexpired(EntryOf(c, s, steps, i), At(c, s, steps, n).now)
  }

  predicate Unexpired(e: Entry, now: int) {
    e.deadline.Some? ==> now < e.deadline.value
  }

  /** The entry that the run started with is still the one served after n steps. */
  ghost predicate LiveFromStart(c: Config, s: State, steps: seq<Step>, n: nat, k: string)
    requires n <= |steps|
  {
    && k in s.db
    && (forall j :: 0 <= j < n ==> !StoresAt(c, s, steps, j, k) && !RemovesAt(c, steps, j, k))
    && Unexpired(s.db[k], At(c, s, steps, n).now)
  }

  /** Nothing in the database has run out. */
  predicate Fresh(s: State) {
    forall k :: k in s.db ==> Unexpired(s.db[k], s.now)
  }

  function EntryOf(c: Config, s: State, steps: seq<Step>, i: nat): Entry
    requires i < |steps| && steps[i].Do? && (steps[i].op.Set? || steps[i].op.WriteThrough?)
  {
    Entry(Encode(steps[i].op.v), Deadline(At(c, s, steps, i).now, c.ttl))
  }

  lemma {:induction false} TimeAdvances(c: Config, s: State, steps: seq<Step>, i: nat, n: nat)
    requires i <= n <= |steps|
    ensures At(c, s, steps, i).now <= At(c, s, steps, n).now
    decreases n - i
  {
    if i < n {
      TimeAdvances(c, s, steps, i, n - 1);
    }
  }

  /**
   * Every served entry goes back to one store, or to the start, that nothing has touched since and that has not run
   * out. The result is n when it goes back to the start.
   */
  lemma {:induction false} ServedEntryHasSource(c: Config, s: State, steps: seq<Step>, n: nat, k: string)
    returns (i: nat)
    requires n <= |steps| && Fresh(s) && k in At(c, s, steps, n).db
    ensures if i < n then LiveSince(c, s, steps, i, n, k) && At(c, s, steps, n).db[k] == EntryOf(c, s, steps, i)
            else LiveFromStart(c, s, steps, n, k) && At(c, s, steps, n).db[k] == s.db[k]
  {
    if n == 0 {
      i := 0;
    } else if StoresAt(c, s, steps, n - 1, k) {
      i := n - 1;
    } else {
      i := ServedEntryHasSource(c, s, steps, n - 1, k);
      if i == n - 1 {
        i := n;
      }
    }
  }

  lemma {:induction false} SourceIsServed(c: Config, s: State, steps: seq<Step>, i: nat, n: nat, k: string)
    requires n <= |steps|
    ensures LiveSince(c, s, steps, i, n, k) ==>
              k in At(c, s, steps, n).db && At(c, s, steps, n).db[k] == EntryOf(c, s, steps, i)
    decreases n
  {
    if LiveSince(c, s, steps, i, n, k) {
      var before := At(c, s, steps, n - 1);
      assert At(c, s, steps, n) == Next(c, before, steps[n - 1]);
      if i + 1 < n {
        TimeAdvances(c, s, steps, n - 1, n);
        SourceIsServed(c, s, steps, i, n - 1, k);
        assert !StoresAt(c, s, steps, n - 1, k) && !RemovesAt(c, steps, n - 1, k);
      }
    }
  }

  lemma {:induction false} StartIsServed(c: Config, s: State, steps: seq<Step>, n: nat, k: string)
    requires n <= |steps|
    ensures LiveFromStart(c, s, steps, n, k) ==>
              k in At(c, s, steps, n).db && At(c, s, steps, n).db[k] == s.db[k]
    decreases n
  {
    if n > 0 && LiveFromStart(c, s, steps, n, k) {
      TimeAdvances(c, s, steps, n - 1, n);
      StartIsServed(c, s, steps, n - 1, k);
      assert !StoresAt(c, s, steps, n - 1, k) && !RemovesAt(c, steps, n - 1, k);
    }
  }

  /**
   * An entry is served if and only if some store of it, or the one at the start, was never overwritten or removed and
   * is within its TTL.
   */
  lemma ServedIff(c: Config, s: State, steps: seq<Step>, n: nat, k: string)
    requires n <= |steps| && Fresh(s)
    ensures k in At(c, s, steps, n).db <==>
            LiveFromStart(c, s, steps, n, k) || exists i :: LiveSince(c, s, steps, i, n, k)
  {
    if k in At(c, s, steps, n).db {
      var i := ServedEntryHasSource(c, s, steps, n, k);
    }
    if i :| LiveSince(c, s, steps, i, n, k) {
      SourceIsServed(c, s, steps, i, n, k);
    }
    if LiveFromStart(c, s, steps, n, k) {
      StartIsServed(c, s, steps, n, k);
    }
  }

  /** Bounded staleness: with a TTL in range, whatever is served was stored less than the TTL ago. */
  lemma StalenessBound(c: Config, steps: seq<Step>, n: nat, p: Pair) returns (i: nat)
    requires n <= |steps| && 0 < c.ttl <= 9223372036
    requires DbAnswer(c, At(c, EMPTY, steps, n).db, Get(p)).Some?
    ensures i < n && StoresAt(c, EMPTY, steps, i, KeyIn(c, p))
    ensures steps[i].op.v == DbAnswer(c, At(c, EMPTY, steps, n).db, Get(p))
    ensures var stored, now := At(c, EMPTY, steps, i).now, At(c, EMPTY, steps, n).now;
            now - c.ttl * NANOS_PER_SECOND < stored <= now
  {
    i := ServedEntryHasSource(c, EMPTY, steps, n, KeyIn(c, p));
    DurationExactIff(c.ttl);
    TimeAdvances(c, EMPTY, steps, i, n);
  }

  /** Nothing stores or removes the key between step i and the end. */
  ghost predicate LeftAlone(c: Config, s: State, steps: seq<Step>, i: nat, n: nat, k: string)
    requires n <= |steps|
  {
    forall j :: i < j < n ==> !StoresAt(c, s, steps, j, k) && !RemovesAt(c, steps, j, k)
  }

  /** What is there after a store that was left alone is what it stored, and has not run out. */
  lemma {:induction false} LeftAloneUntilExpiry(c: Config, s: State, steps: seq<Step>, i: nat, n: nat, k: string)
    requires i < n <= |steps| && StoresAt(c, s, steps, i, k) && LeftAlone(c, s, steps, i, n, k)
    requires 0 < c.ttl <= 9223372036
    ensures k in At(c, s, steps, n).db ==> At(c, s, steps, n).db[k] == EntryOf(c, s, steps, i)
    ensures k in At(c, s, steps, n).db ==> Unexpired(EntryOf(c, s, steps, i), At(c, s, steps, n).now)
    decreases n
  {
    DurationExactIff(c.ttl);
    var before := At(c, s, steps, n - 1);
    assert At(c, s, steps, n) == Next(c, before, steps[n - 1]);
    if i + 1 < n {
      LeftAloneUntilExpiry(c, s, steps, i, n - 1, k);
      assert !StoresAt(c, s, steps, n - 1, k) && !RemovesAt(c, steps, n - 1, k);
    }
  }

  /** With a TTL in range, an entry left alone is served for exactly that many seconds after it was stored. */
  lemma LivesForItsTtl(c: Config, s: State, steps: seq<Step>, i: nat, n: nat, k: string)
    requires i < n <= |steps| && StoresAt(c, s, steps, i, k) && LeftAlone(c, s, steps, i, n, k)
    requires 0 < c.ttl <= 9223372036
    ensures k in At(c, s, steps, n).db <==>
            At(c, s, steps, n).now < At(c, s, steps, i).now + c.ttl * 1_000_000_000
  {
    DurationExactIff(c.ttl);
    LeftAloneUntilExpiry(c, s, steps, i, n, k);
    if At(c, s, steps, n).now < At(c, s, steps, i).now + c.ttl * 1_000_000_000 {
      SourceIsServed(c, s, steps, i, n, k);
    }
  }

  /** Without a TTL an entry goes only by an explicit removal, however long the clock runs. */
  lemma NoTtlNoExpiry(c: Config, s: State, steps: seq<Step>, i: nat, n: nat, k: string)
    requires i < n <= |steps| && c.ttl <= 0 && StoresAt(c, s, steps, i, k)
    requires forall j :: i < j < n ==> !RemovesAt(c, steps, j, k)
    ensures k in At(c, s, steps, n).db
    ensures At(c, s, steps, n).db[k].deadline.None?
    decreases n
  {
    var before := At(c, s, steps, n - 1);
    assert At(c, s, steps, n) == Next(c, before, steps[n - 1]);
    if i + 1 < n {
      NoTtlNoExpiry(c, s, steps, i, n - 1, k);
      assert !RemovesAt(c, steps, n - 1, k);
    }
  }
}
