/** What the SCAN and DEL loop of InvalidateTenant guarantees, whatever the server and other clients do. */
module TenantScan {
  import opened Basics
  import opened Keys
  import opened Glob
  import opened CacheSpec
  import opened Redis

  /** The loop gets as far as round i: it has had no reply before it without a cursor to go on from. */
  predicate Reached(rounds: seq<Round>, i: nat)
    requires i < |rounds|
  {
    forall j :: 0 <= j < i ==> rounds[j].reply.Batch? && rounds[j].reply.next != 0
  }

  /** There the SCAN fails, or it returns keys and their DEL does. An empty batch is no error. */
  predicate BrokenOffAt(rounds: seq<Round>, i: nat)
    requires i < |rounds|
  {
    var r := rounds[i];
    r.reply == ScanFailed || (r.reply.Batch? && r.reply.keys != [] && (r.del == ReplyLost || r.del == Refused))
  }

  /** The loop ends in an error if and only if some command of a round that it reaches fails. */
  lemma {:induction false} FailedIff(db: Db, rounds: seq<Round>)
    requires Ends(rounds)
    ensures ScanRun(db, rounds).failed <==>
            exists i :: 0 <= i < |rounds| && Reached(rounds, i) && BrokenOffAt(rounds, i)
    decreases |rounds|
  {
    var r, rest := rounds[0], rounds[1..];
    if BrokenOffAt(rounds, 0) {
      assert Reached(rounds, 0);
    } else if r.reply.next != 0 {
      FailedIff(After(db, r), rest);
      if i :| 0 <= i < |rest| && Reached(rest, i) && BrokenOffAt(rest, i) {
        assert Reached(rounds, i + 1) && BrokenOffAt(rounds, i + 1);
      }
      if i :| 0 <= i < |rounds| && Reached(rounds, i) && BrokenOffAt(rounds, i) {
        assert forall j :: 0 <= j < i - 1 ==> rest[j] == rounds[j + 1];
        assert Reached(rest, i - 1) && BrokenOffAt(rest, i - 1);
      }
    }
  }

  /** Every SCAN asks for the one pattern, the first from cursor 0 and each other from the cursor last returned. */
  lemma {:induction false} CallsFollowCursors(cursor: nat, pattern: string, rounds: seq<Round>, i: nat)
    requires Ends(rounds) && i < |Calls(cursor, pattern, rounds)|
    ensures i < |rounds| && Reached(rounds, i)
    ensures Calls(cursor, pattern, rounds)[i] ==
            ScanCall(if i == 0 then cursor else rounds[i - 1].reply.next, pattern, 100)
    decreases |rounds|
  {
    if i > 0 {
      CallsFollowCursors(rounds[0].reply.next, pattern, rounds[1..], i - 1);
      assert Reached(rounds[1..], i - 1);
      assert forall j :: 0 < j < i ==> rounds[j] == rounds[1..][j - 1];
    }
  }

  /** Every returned key matches the pattern that was asked for. Duplicates and empty batches are allowed. */
  ghost predicate RepliesMatch(rounds: seq<Round>, pattern: string)
    requires Ends(rounds)
    decreases |rounds|
  {
    && (rounds[0].reply.Batch? ==> forall k :: k in rounds[0].reply.keys ==> GlobMatch(pattern, k))
    && (Stops(rounds[0]) || RepliesMatch(rounds[1..], pattern))
  }

  predicate InSomeBatch(k: string, rounds: seq<Round>)
    requires Ends(rounds)
    decreases |rounds|
  {
    || (rounds[0].reply.Batch? && k in rounds[0].reply.keys)
    || (!Stops(rounds[0]) && InSomeBatch(k, rounds[1..]))
  }

  /** The key is there before, between and after all of the events. */
  predicate KeptBy(k: string, db: Db, events: seq<Event>)
    decreases |events|
  {
    k in db && (events == [] || KeptBy(k, ApplyOne(db, events[0]), events[1..]))
  }

  /** The key is there from the start of the iteration to its end, at every moment. */
  predicate Throughout(k: string, db: Db, rounds: seq<Round>)
    requires Ends(rounds)
    decreases |rounds|
  {
    var r := rounds[0];
    && KeptBy(k, db, r.before)
    && (r.reply.Batch? && r.reply.keys != [] ==> KeptBy(k, Apply(db, r.before), r.between))
    && k in After(db, r)
    && (Stops(r) || Throughout(k, After(db, r), rounds[1..]))
  }

  /** Redis's promise for a full iteration: a matching key that is there throughout is returned at least once. */
  ghost predicate FullIteration(db: Db, rounds: seq<Round>, pattern: string)
    requires Ends(rounds)
  {
    !ScanRun(db, rounds).failed ==>
      forall k :: GlobMatch(pattern, k) && Throughout(k, db, rounds) ==> InSomeBatch(k, rounds)
  }

  predicate Puts(k: string, events: seq<Event>)
    decreases |events|
  {
    events != [] && ((events[0].Put? && events[0].key == k) || Puts(k, events[1..]))
  }

  /** Another client writes the key during the scan. */
  predicate Rewritten(k: string, rounds: seq<Round>)
    requires Ends(rounds)
    decreases |rounds|
  {
    || Puts(k, rounds[0].before) || Puts(k, rounds[0].between)
    || (!Stops(rounds[0]) && Rewritten(k, rounds[1..]))
  }

  lemma {:induction false} NotPutMeansKept(k: string, db: Db, events: seq<Event>)
    requires !Puts(k, events) && k in Apply(db, events)
    ensures KeptBy(k, db, events)
    decreases |events|
  {
    if events != [] {
      NotPutMeansKept(k, ApplyOne(db, events[0]), events[1..]);
      assert k in db;
    }
  }

  lemma SurvivesRound(k: string, db: Db, r: Round)
    requires !Puts(k, r.before) && !Puts(k, r.between) && k in After(db, r) && !Fails(r)
    ensures KeptBy(k, db, r.before) && k in db
    ensures r.reply.Batch? && r.reply.keys != [] ==> KeptBy(k, Apply(db, r.before), r.between)
    ensures r.reply.Batch? ==> k !in r.reply.keys
  {
    if r.reply.Batch? && r.reply.keys != [] {
      NotPutMeansKept(k, Apply(db, r.before), r.between);
    }
    NotPutMeansKept(k, db, r.before);
  }

  /** A key left at the end that nobody rewrote was there all along and was never returned. */
  lemma {:induction false} LeftoverWasMissed(k: string, db: Db, rounds: seq<Round>)
    requires Ends(rounds) && !ScanRun(db, rounds).failed
    requires !Rewritten(k, rounds) && k in ScanRun(db, rounds).db
    ensures k in db && Throughout(k, db, rounds) && !InSomeBatch(k, rounds)
    decreases |rounds|
  {
    var r := rounds[0];
    if !Stops(r) {
      LeftoverWasMissed(k, After(db, r), rounds[1..]);
    }
    SurvivesRound(k, db, r);
  }

  /** An error-free run leaves no matching key that was not rewritten while the scan ran. */
  lemma TenantGone(db: Db, rounds: seq<Round>, pattern: string, k: string)
    requires Ends(rounds) && FullIteration(db, rounds, pattern)
    requires !ScanRun(db, rounds).failed
    requires GlobMatch(pattern, k) && !Rewritten(k, rounds)
    ensures k !in ScanRun(db, rounds).db
  {
    if k in ScanRun(db, rounds).db {
      LeftoverWasMissed(k, db, rounds);
    }
  }

  /** The database had this client not deleted anything. */
  function OthersOnly(db: Db, rounds: seq<Round>): Db
    requires Ends(rounds)
    decreases |rounds|
  {
    var r := rounds[0];
    var d := Apply(db, r.before);
    var d' := if r.reply.ScanFailed? || r.reply.keys == [] then d else Apply(d, r.between);
    if Stops(r) then d' else OthersOnly(d', rounds[1..])
  }

  lemma {:induction false} ApplyLocal(k: string, a: Db, b: Db, events: seq<Event>)
    requires Lookup(a, k) == Lookup(b, k)
    ensures Lookup(Apply(a, events), k) == Lookup(Apply(b, events), k)
    decreases |events|
  {
    if events != [] {
      ApplyLocal(k, ApplyOne(a, events[0]), ApplyOne(b, events[0]), events[1..]);
    }
  }

  /** Whatever happens, error or not, a key outside the tenant is exactly as the other clients leave it. */
  lemma {:induction false} OthersUntouched(k: string, a: Db, b: Db, rounds: seq<Round>, pattern: string)
    requires Ends(rounds) && RepliesMatch(rounds, pattern) && !GlobMatch(pattern, k)
    requires Lookup(a, k) == Lookup(b, k)
    ensures Lookup(ScanRun(a, rounds).db, k) == Lookup(OthersOnly(b, rounds), k)
    decreases |rounds|
  {
    var r := rounds[0];
    ApplyLocal(k, a, b, r.before);
    if r.reply.Batch? && r.reply.keys != [] {
      ApplyLocal(k, Apply(a, r.before), Apply(b, r.before), r.between);
    }
    if !Stops(r) {
      var d := Apply(b, r.before);
      OthersUntouched(k, After(a, r), if r.reply.keys == [] then d else Apply(d, r.between), rounds[1..], pattern);
    }
  }

  /** No other client acts during the scan. */
  predicate Quiet(rounds: seq<Round>)
    requires Ends(rounds)
    decreases |rounds|
  {
    rounds[0].before == [] && rounds[0].between == [] && (Stops(rounds[0]) || Quiet(rounds[1..]))
  }

  function Matching(db: Db, pattern: string): set<string> {
    set k | k in db && GlobMatch(pattern, k)
  }

  predicate AllElsewhere(events: seq<Event>, pattern: string) {
    forall i :: 0 <= i < |events| ==> !GlobMatch(pattern, events[i].key)
  }

  /** The other clients, if they act at all, leave the matching keys alone. */
  predicate Elsewhere(rounds: seq<Round>, pattern: string)
    requires Ends(rounds)
    decreases |rounds|
  {
    && AllElsewhere(rounds[0].before, pattern) && AllElsewhere(rounds[0].between, pattern)
    && (Stops(rounds[0]) || Elsewhere(rounds[1..], pattern))
  }

  lemma {:induction false} ElsewhereKeepsMatching(db: Db, events: seq<Event>, pattern: string)
    requires AllElsewhere(events, pattern)
    ensures Matching(Apply(db, events), pattern) == Matching(db, pattern)
    decreases |events|
  {
    if events != [] {
      var db', rest := ApplyOne(db, events[0]), events[1..];
      assert forall i :: 0 <= i < |rest| ==> rest[i] == events[i + 1];
      ElsewhereKeepsMatching(db', rest, pattern);
      forall k ensures k in Matching(db', pattern) <==> k in Matching(db, pattern) {
      }
    }
  }

  lemma RoundConserves(db: Db, r: Round, pattern: string)
    requires AllElsewhere(r.before, pattern) && AllElsewhere(r.between, pattern) && !Fails(r)
    requires forall k :: k in r.reply.keys ==> GlobMatch(pattern, k)
    ensures Counted(db, r) + |Matching(After(db, r), pattern)| == |Matching(db, pattern)|
  {
    var d := Apply(db, r.before);
    ElsewhereKeepsMatching(db, r.before, pattern);
    if r.reply.keys != [] {
      var d' := Apply(d, r.between);
      ElsewhereKeepsMatching(d, r.between, pattern);
      var gone := d'.Keys * ToSet(r.reply.keys);
      var kept := Matching(After(db, r), pattern);
      assert After(db, r) == d' - ToSet(r.reply.keys);
      assert Matching(d', pattern) == kept + gone;
      assert kept !! gone;
    }
  }

  /** Counted deletions and surviving matches add up to the matches at the start. */
  lemma {:induction false} DeletionsConserve(db: Db, rounds: seq<Round>, pattern: string)
    requires Ends(rounds) && Elsewhere(rounds, pattern) && RepliesMatch(rounds, pattern)
    requires !ScanRun(db, rounds).failed
    ensures var out := ScanRun(db, rounds);
            out.deleted + |Matching(out.db, pattern)| == |Matching(db, pattern)|
    decreases |rounds|
  {
    var r := rounds[0];
    RoundConserves(db, r, pattern);
    if !Stops(r) {
      DeletionsConserve(After(db, r), rounds[1..], pattern);
    }
  }

  lemma {:induction false} ElsewhereNeverRewrites(k: string, rounds: seq<Round>, pattern: string)
    requires Ends(rounds) && Elsewhere(rounds, pattern) && GlobMatch(pattern, k)
    ensures !Rewritten(k, rounds)
    decreases |rounds|
  {
    NotPutElsewhere(k, rounds[0].before, pattern);
    NotPutElsewhere(k, rounds[0].between, pattern);
    if !Stops(rounds[0]) {
      ElsewhereNeverRewrites(k, rounds[1..], pattern);
    }
  }

  lemma {:induction false} NotPutElsewhere(k: string, events: seq<Event>, pattern: string)
    requires AllElsewhere(events, pattern) && GlobMatch(pattern, k)
    ensures !Puts(k, events)
    decreases |events|
  {
    if events != [] {
      assert forall i :: 0 <= i < |events[1..]| ==> events[1..][i] == events[i + 1];
      NotPutElsewhere(k, events[1..], pattern);
    }
  }

  /** When nobody else touches matching keys, the total reported is the number of matching keys at the start. */
  lemma TotalIsExact(db: Db, rounds: seq<Round>, pattern: string)
    requires Ends(rounds) && Elsewhere(rounds, pattern) && RepliesMatch(rounds, pattern)
    requires FullIteration(db, rounds, pattern) && !ScanRun(db, rounds).failed
    ensures ScanRun(db, rounds).deleted == |Matching(db, pattern)|
  {
    var out := ScanRun(db, rounds);
    forall k | GlobMatch(pattern, k) ensures k !in out.db {
      ElsewhereNeverRewrites(k, rounds, pattern);
      TenantGone(db, rounds, pattern, k);
    }
    DeletionsConserve(db, rounds, pattern);
    assert Matching(out.db, pattern) == {};
  }

  lemma {:induction false} QuietIsElsewhere(rounds: seq<Round>, pattern: string)
    requires Ends(rounds) && Quiet(rounds)
    ensures Elsewhere(rounds, pattern)
    decreases |rounds|
  {
    if !Stops(rounds[0]) {
      QuietIsElsewhere(rounds[1..], pattern);
    }
  }

  lemma {:induction false} QuietOthersDoNothing(db: Db, rounds: seq<Round>)
    requires Ends(rounds) && Quiet(rounds)
    ensures OthersOnly(db, rounds) == db
    decreases |rounds|
  {
    if !Stops(rounds[0]) {
      QuietOthersDoNothing(db, rounds[1..]);
    }
  }

  /** Undisturbed, the loop removes exactly the matching keys and reports exactly how many there were. */
  lemma QuietScanIsExact(db: Db, rounds: seq<Round>, pattern: string)
    requires Ends(rounds) && Quiet(rounds) && RepliesMatch(rounds, pattern) && FullIteration(db, rounds, pattern)
    requires !ScanRun(db, rounds).failed
    ensures ScanRun(db, rounds).db == map k | k in db && !GlobMatch(pattern, k) :: db[k]
    ensures ScanRun(db, rounds).deleted == |Matching(db, pattern)|
  {
    var out := ScanRun(db, rounds);
    QuietOthersDoNothing(db, rounds);
    QuietIsElsewhere(rounds, pattern);
    forall k ensures GlobMatch(pattern, k) ==> k !in out.db
      ensures !GlobMatch(pattern, k) ==> Lookup(out.db, k) == Lookup(db, k)
    {
      if GlobMatch(pattern, k) {
        ElsewhereNeverRewrites(k, rounds, pattern);
        TenantGone(db, rounds, pattern, k);
      } else {
        OthersUntouched(k, db, db, rounds, pattern);
      }
    }
    var kept := map k | k in db && !GlobMatch(pattern, k) :: db[k];
    forall k ensures Lookup(out.db, k) == Lookup(kept, k) {
    }
    assert out.db.Keys == kept.Keys by {
      forall k ensures k in out.db <==> k in kept {
        assert Lookup(out.db, k) == Lookup(kept, k);
      }
    }
    forall k | k in kept ensures out.db[k] == kept[k] {
      assert Lookup(out.db, k) == Lookup(kept, k);
    }
    TotalIsExact(db, rounds, pattern);
  }

  /** The loop as a whole: the class method with the guarantees spelled out for a tenant. */
  method InvalidateTenantChecked(cache: RedisPermissionCache, tenant: string, rounds: seq<Round>)
    returns (failed: bool, totalDeleted: nat)
    requires Ends(rounds)
    requires RepliesMatch(rounds, TenantPattern(cache.config.prefix, tenant))
    requires FullIteration(cache.rdb.db, rounds, TenantPattern(cache.config.prefix, tenant))
    modifies cache.rdb`db, cache.rdb`scans
    ensures failed <==> exists i :: 0 <= i < |rounds| && Reached(rounds, i) && BrokenOffAt(rounds, i)
    ensures var pattern := TenantPattern(cache.config.prefix, tenant);
            && (forall k :: !failed && GlobMatch(pattern, k) && !Rewritten(k, rounds) ==> k !in cache.rdb.db)
            && (forall k :: !GlobMatch(pattern, k) ==>
                  Lookup(cache.rdb.db, k) == Lookup(OthersOnly(old(cache.rdb.db), rounds), k))
            && (!failed && Elsewhere(rounds, pattern) ==> totalDeleted == |Matching(old(cache.rdb.db), pattern)|)
            && (!failed && Quiet(rounds) ==>
                  cache.rdb.db == DbStep(cache.config, old(cache.rdb.db), cache.rdb.now,
                                         CacheSpec.InvalidateTenant(tenant)))
  {
    ghost var start := cache.rdb.db;
    ghost var pattern := TenantPattern(cache.config.prefix, tenant);
    failed, totalDeleted := cache.InvalidateTenant(tenant, rounds);
    forall k | !failed && GlobMatch(pattern, k) && !Rewritten(k, rounds) ensures k !in cache.rdb.db {
      TenantGone(start, rounds, pattern, k);
    }
    forall k | !GlobMatch(pattern, k) ensures Lookup(cache.rdb.db, k) == Lookup(OthersOnly(start, rounds), k) {
      OthersUntouched(k, start, start, rounds, pattern);
    }
    FailedIff(start, rounds);
    if !failed && Elsewhere(rounds, pattern) {
      TotalIsExact(start, rounds, pattern);
    }
    if !failed && Quiet(rounds) {
      QuietScanIsExact(start, rounds, pattern);
    }
  }
}
