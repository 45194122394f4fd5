/**
 * When the cache tells the truth. With writers that follow the protocol the cache is never wrong while no write is
 * pending, however slow the fetches are; with a removal, NX alone does not keep it so, and this says exactly when.
 */
module Coherence {
  import opened Basics
  import opened Keys
  import opened CacheSpec
  import opened Redis
  import opened Protocol

  /** The cache entry of the pair is absent, or is Helios's current answer. */
  predicate Coherent(s: State, p: Pair) {
    KeyOf(p) in s.cache ==> s.cache[KeyOf(p)] == Array(Current(s, p))
  }

  /** The steps concern only the given pairs. */
  ghost predicate Within(step: Step, pairs: set<Pair>) {
    match step
    case Arrive(_, p) => p in pairs
    case RoleChange(p, _) => p in pairs
    case Write(p, _) => p in pairs
    case _ => true
  }

  ghost predicate AllWithin(steps: seq<Step>, pairs: set<Pair>) {
    forall i :: 0 <= i < |steps| ==> Within(steps[i], pairs)
  }

  lemma AllWithinTail(steps: seq<Step>, pairs: set<Pair>)
    requires AllWithin(steps, pairs) && steps != []
    ensures AllWithin(steps[1..], pairs)
  {
    forall i | 0 <= i < |steps[1..]| ensures Within(steps[1..][i], pairs) {
      assert steps[1..][i] == steps[i + 1];
    }
  }

  predicate FlightPairOk(s: State, e: nat, pairs: set<Pair>)
    requires e < |s.entries|
  {
    s.entries[e].pair in pairs && s.entries[e].key == KeyOf(s.entries[e].pair)
  }

  predicate CallPairOk(s: State, c: nat, pairs: set<Pair>)
    requires c < |s.callers|
  {
    s.callers[c].pair in pairs && s.callers[c].key == KeyOf(s.callers[c].pair)
  }

  /** Everything in the state concerns the given pairs, under their own keys. */
  ghost predicate PairsOk(s: State, pairs: set<Pair>) {
    && (forall e {:trigger FlightPairOk(s, e, pairs)} :: 0 <= e < |s.entries| ==> FlightPairOk(s, e, pairs))
    && (forall c {:trigger CallPairOk(s, c, pairs)} :: 0 <= c < |s.callers| ==> CallPairOk(s, c, pairs))
  }

  lemma FlightStepKeepsPair(s: State, step: Step, e: nat)
    requires Enabled(s, step) && (step.Ask? || step.Fill? || step.Close? || step.Delete?) && e < |s.entries|
    ensures |Next(s, step).entries| == |s.entries|
    ensures var f, f' := s.entries[e], Next(s, step).entries[e]; f'.pair == f.pair && f'.key == f.key
  {
    match step
    case Ask(d, failure) => assert DoAsk(s, d, failure).entries[e].pair == s.entries[e].pair;
    case Fill(d, up) => assert DoFill(s, d, up).entries[e].pair == s.entries[e].pair;
    case Close(d) => assert DoClose(s, d).entries[e].pair == s.entries[e].pair;
    case Delete(d) => assert DoDelete(s, d).entries[e].pair == s.entries[e].pair;
  }

  lemma JoinFlightPair(s: State, c: nat, pairs: set<Pair>, e: nat)
    requires PairsOk(s, pairs) && Enabled(s, Join(c)) && e < |DoJoin(s, c).entries|
    ensures FlightPairOk(DoJoin(s, c), e, pairs)
  {
    assert CallPairOk(s, c, pairs);
    if e < |s.entries| {
      assert FlightPairOk(s, e, pairs);
    }
  }

  lemma StepFlightPair(s: State, step: Step, pairs: set<Pair>, e: nat)
    requires PairsOk(s, pairs) && Enabled(s, step) && e < |Next(s, step).entries|
    ensures FlightPairOk(Next(s, step), e, pairs)
  {
    if step.Join? {
      JoinFlightPair(s, step.c, pairs, e);
    } else if step.Ask? || step.Fill? || step.Close? || step.Delete? {
      FlightStepKeepsPair(s, step, e);
      assert FlightPairOk(s, e, pairs);
    } else {
      assert FlightPairOk(s, e, pairs);
    }
  }

  lemma StepPairs(s: State, step: Step, pairs: set<Pair>)
    requires PairsOk(s, pairs) && Enabled(s, step) && Within(step, pairs)
    ensures PairsOk(Next(s, step), pairs)
  {
    var s' := Next(s, step);
    forall e | 0 <= e < |s'.entries| ensures FlightPairOk(s', e, pairs) {
      StepFlightPair(s, step, pairs, e);
    }
    forall c | 0 <= c < |s'.callers| ensures CallPairOk(s', c, pairs) {
      assert c < |s.callers| ==> CallPairOk(s, c, pairs);
    }
  }

  /** A fetch for the pair that has read Helios and has not yet offered its value to the cache. */
  predicate HoldsFor(s: State, e: nat, p: Pair) {
    e < |s.entries| && s.entries[e].pair == p && s.entries[e].phase.Holding?
  }

  /** The held value is harmless: it is current, or the NX Set will find the key taken. */
  predicate HeldOk(s: State, e: nat, p: Pair) {
    HoldsFor(s, e, p) ==> s.entries[e].phase.value == Current(s, p) || KeyOf(p) in s.cache
  }

  ghost predicate Settled(s: State, p: Pair) {
    Coherent(s, p) && forall e: nat {:trigger HeldOk(s, e, p)} :: HeldOk(s, e, p)
  }

  /** A pending write carries Helios's current answer, and without one the pair is settled. */
  ghost predicate PairInv(s: State, p: Pair) {
    if p in s.pending then s.pending[p] == Current(s, p) else Settled(s, p)
  }

  ghost predicate CoherenceInv(s: State, pairs: set<Pair>) {
    forall p :: p in pairs ==> PairInv(s, p)
  }

  /** Helios writes each change of a pair through before the next one; nothing else writes or removes. */
  predicate Disciplined(s: State, step: Step) {
    match step
    case RoleChange(p, _) => p !in s.pending
    case Write(p, perms) => p in s.pending && perms == Some(s.pending[p])
    case Remove(_) => false
    case Corrupt(_, _) => false
    case _ => true
  }

  predicate DisciplinedRun(s: State, steps: seq<Step>)
    requires ValidRun(s, steps)
    decreases |steps|
  {
    steps == [] || (Disciplined(s, steps[0]) && DisciplinedRun(Next(s, steps[0]), steps[1..]))
  }

  lemma SettledTransfer(s: State, s': State, p: Pair)
    requires Settled(s, p) && s'.cache == s.cache && s'.truth == s.truth
    requires forall e: nat :: HoldsFor(s', e, p) ==>
               s'.entries[e].phase.value == Current(s, p) ||
               (HoldsFor(s, e, p) && s'.entries[e].phase == s.entries[e].phase)
    ensures Settled(s', p)
  {
    forall e: nat ensures HeldOk(s', e, p) {
      assert HeldOk(s, e, p);
    }
  }

  lemma CallStepSettled(s: State, step: Step, p: Pair)
    requires Enabled(s, step) && Settled(s, p)
    requires step.Arrive? || step.Look? || step.Join? || step.Wake?
    ensures Settled(Next(s, step), p)
  {
    var s' := Next(s, step);
    assert s.entries <= s'.entries;
    SettledTransfer(s, s', p);
  }

  lemma FlightSettled(s: State, s': State, e: nat, f: FlightEntry, p: Pair)
    requires Settled(s, p) && e < |s.entries| && s'.cache == s.cache && s'.truth == s.truth
    requires s'.entries == s.entries[e := f]
    requires f.phase.Holding? ==> f.phase.value == Current(s, f.pair)
    ensures Settled(s', p)
  {
    SettledTransfer(s, s', p);
  }

  lemma FlightStepSettled(s: State, step: Step, p: Pair)
    requires Enabled(s, step) && Settled(s, p)
    requires step.Ask? || step.Close? || step.Delete?
    ensures Settled(Next(s, step), p)
  {
    match step
    case Ask(e, failure) => FlightSettled(s, DoAsk(s, e, failure), e, DoAsk(s, e, failure).entries[e], p);
    case Close(e) => FlightSettled(s, DoClose(s, e), e, DoClose(s, e).entries[e], p);
    case Delete(e) => FlightSettled(s, DoDelete(s, e), e, DoDelete(s, e).entries[e], p);
  }

  /** Steps of calls and fetches other than Fill change neither the cache, nor the truth, nor what is pending. */
  lemma ReaderSettled(s: State, step: Step, p: Pair)
    requires Enabled(s, step) && Settled(s, p)
    requires !step.Fill? && !step.RoleChange? && !step.Write? && !step.Remove? && !step.Corrupt?
    ensures Settled(Next(s, step), p) && Next(s, step).pending == s.pending
  {
    if step.Ask? || step.Close? || step.Delete? {
      FlightStepSettled(s, step, p);
    } else {
      CallStepSettled(s, step, p);
    }
  }

  lemma FillSettled(s: State, e: nat, up: bool, pairs: set<Pair>, p: Pair)
    requires Enabled(s, Fill(e, up)) && Settled(s, p) && PairsOk(s, pairs) && InjectiveOn(pairs) && p in pairs
    ensures Settled(Next(s, Fill(e, up)), p)
  {
    var s' := Next(s, Fill(e, up));
    assert FlightPairOk(s, e, pairs);
    assert HeldOk(s, e, p);
    assert s'.truth == s.truth && s.cache.Keys <= s'.cache.Keys;
    forall d: nat ensures HeldOk(s', d, p) {
      assert HeldOk(s, d, p);
    }
  }

  lemma WriteSettled(s: State, q: Pair, v: Slice, p: Pair, pairs: set<Pair>)
    requires p in pairs && q in pairs && InjectiveOn(pairs)
    requires if p == q then v == Some(Current(s, p)) else Settled(s, p)
    ensures Settled(Next(s, Write(q, v)), p)
  {
    var s' := Next(s, Write(q, v));
    forall e: nat ensures HeldOk(s', e, p) {
      if p != q {
        assert HeldOk(s, e, p);
      }
    }
  }

  lemma RoleChangeSettled(s: State, q: Pair, now: Resolution, p: Pair)
    requires p != q && Settled(s, p)
    ensures Settled(Next(s, RoleChange(q, now)), p)
  {
    var s' := Next(s, RoleChange(q, now));
    forall e: nat ensures HeldOk(s', e, p) {
      assert HeldOk(s, e, p);
    }
  }

  lemma OtherKeySettled(s: State, step: Step, p: Pair)
    requires Settled(s, p) && Enabled(s, step)
    requires match step case Remove(k) => k != KeyOf(p) case Corrupt(k, _) => k != KeyOf(p) case _ => false
    ensures Settled(Next(s, step), p)
  {
    forall e: nat ensures HeldOk(Next(s, step), e, p) {
      assert HeldOk(s, e, p);
    }
  }

  /** The pair's own changes are serialised and written through, and nothing else touches its key. */
  predicate Allowed(s: State, step: Step, p: Pair) {
    match step
    case RoleChange(q, _) => q == p ==> p !in s.pending
    case Write(q, perms) => q == p ==> p in s.pending && perms == Some(s.pending[p])
    case Remove(k) => k != KeyOf(p)
    case Corrupt(k, _) => k != KeyOf(p)
    case _ => true
  }

  lemma StepKeepsPair(s: State, step: Step, p: Pair, pairs: set<Pair>)
    requires PairInv(s, p) && PairsOk(s, pairs) && InjectiveOn(pairs) && p in pairs
    requires Enabled(s, step) && Within(step, pairs) && Allowed(s, step, p)
    ensures PairInv(Next(s, step), p)
  {
    match step
    case Write(q, perms) =>
      if q == p || p !in s.pending {
        WriteSettled(s, q, perms, p, pairs);
      }
    case RoleChange(q, now) =>
      if q != p && p !in s.pending {
        RoleChangeSettled(s, q, now, p);
      }
    case _ =>
      if p !in s.pending {
        UnwrittenStepSettled(s, step, p, pairs);
      }
  }

  lemma UnwrittenStepSettled(s: State, step: Step, p: Pair, pairs: set<Pair>)
    requires Settled(s, p) && PairsOk(s, pairs) && InjectiveOn(pairs) && p in pairs
    requires Enabled(s, step) && Within(step, pairs) && Allowed(s, step, p) && !step.Write? && !step.RoleChange?
    ensures Settled(Next(s, step), p) && Next(s, step).pending == s.pending
  {
    match step
    case Fill(e, up) => FillSettled(s, e, up, pairs, p);
    case Remove(_) => OtherKeySettled(s, step, p);
    case Corrupt(_, _) => OtherKeySettled(s, step, p);
    case _ => ReaderSettled(s, step, p);
  }

  lemma StepCoherence(s: State, step: Step, pairs: set<Pair>)
    requires CoherenceInv(s, pairs) && PairsOk(s, pairs) && InjectiveOn(pairs)
    requires Enabled(s, step) && Within(step, pairs) && Disciplined(s, step)
    ensures CoherenceInv(Next(s, step), pairs)
  {
    forall p | p in pairs ensures PairInv(Next(s, step), p) {
      StepKeepsPair(s, step, p, pairs);
    }
  }

  lemma {:induction false} RunCoherence(s: State, steps: seq<Step>, pairs: set<Pair>)
    requires CoherenceInv(s, pairs) && PairsOk(s, pairs) && InjectiveOn(pairs)
    requires ValidRun(s, steps) && AllWithin(steps, pairs) && DisciplinedRun(s, steps)
    ensures CoherenceInv(Final(s, steps), pairs) && PairsOk(Final(s, steps), pairs)
    decreases |steps|
  {
    if steps != [] {
      assert Within(steps[0], pairs);
      StepCoherence(s, steps[0], pairs);
      StepPairs(s, steps[0], pairs);
      AllWithinTail(steps, pairs);
      RunCoherence(Next(s, steps[0]), steps[1..], pairs);
    }
  }

  /**
   * Coherence over whole runs: with serialised, written-through changes and no removals, a pair without a pending
   * write is never cached wrongly, and every hit on it is Helios's current answer.
   */
  lemma CacheIsCoherent(steps: seq<Step>, pairs: set<Pair>, p: Pair)
    requires InjectiveOn(pairs) && p in pairs
    requires ValidRun(INIT, steps) && AllWithin(steps, pairs) && DisciplinedRun(INIT, steps)
    requires p !in Final(INIT, steps).pending
    ensures var s := Final(INIT, steps);
            && Coherent(s, p)
            && forall c: nat :: Enabled(s, Look(c, true)) && s.callers[c].pair == p && KeyOf(p) in s.cache ==>
                 Next(s, Look(c, true)).callers[c].phase == Hit(Current(s, p))
  {
    RunCoherence(INIT, steps, pairs);
    var s := Final(INIT, steps);
    assert PairInv(s, p);
    forall c: nat | Enabled(s, Look(c, true)) && s.callers[c].pair == p && KeyOf(p) in s.cache
      ensures Next(s, Look(c, true)).callers[c].phase == Hit(Current(s, p))
    {
      assert CallPairOk(s, c, pairs);
    }
  }

  /** No role change, write, removal or corruption that touches the pair or its key. */
  predicate HandsOff(step: Step, p: Pair) {
    match step
    case RoleChange(q, _) => q != p
    case Write(q, _) => KeyOf(q) != KeyOf(p)
    case Remove(k) => k != KeyOf(p)
    case Corrupt(k, _) => k != KeyOf(p)
    case _ => true
  }

  ghost predicate Continuation(s: State, steps: seq<Step>, p: Pair, pairs: set<Pair>) {
    && ValidRun(s, steps)
    && AllWithin(steps, pairs)
    && forall i :: 0 <= i < |steps| ==> HandsOff(steps[i], p)
  }

  lemma HandsOffSettled(s: State, step: Step, p: Pair, pairs: set<Pair>)
    requires Settled(s, p) && PairsOk(s, pairs) && InjectiveOn(pairs) && p in pairs
    requires Enabled(s, step) && Within(step, pairs) && HandsOff(step, p)
    ensures Settled(Next(s, step), p)
  {
    match step
    case Write(q, perms) => WriteSettled(s, q, perms, p, pairs);
    case RoleChange(q, now) => RoleChangeSettled(s, q, now, p);
    case _ => UnwrittenStepSettled(s, step, p, pairs);
  }

  lemma ContinuationTail(s: State, steps: seq<Step>, p: Pair, pairs: set<Pair>)
    requires Continuation(s, steps, p, pairs) && steps != []
    ensures Enabled(s, steps[0]) && Continuation(Next(s, steps[0]), steps[1..], p, pairs)
  {
    var rest := steps[1..];
    forall i | 0 <= i < |rest| ensures Within(rest[i], pairs) && HandsOff(rest[i], p) {
      assert rest[i] == steps[i + 1];
    }
  }

  lemma {:induction false} ContinuationStaysCoherent(s: State, steps: seq<Step>, p: Pair, pairs: set<Pair>)
    requires Settled(s, p) && PairsOk(s, pairs) && InjectiveOn(pairs) && p in pairs
    requires Continuation(s, steps, p, pairs)
    ensures Coherent(Final(s, steps), p)
    decreases |steps|
  {
    if steps != [] {
      assert Within(steps[0], pairs) && HandsOff(steps[0], p);
      HandsOffSettled(s, steps[0], p, pairs);
      StepPairs(s, steps[0], pairs);
      ContinuationTail(s, steps, p, pairs);
      ContinuationStaysCoherent(Next(s, steps[0]), steps[1..], p, pairs);
    }
  }

  /** Every fetch for the pair that has read Helios and not yet offered its answer holds the current one. */
  ghost predicate HeldAreCurrent(s: State, p: Pair) {
    forall e: nat :: HoldsFor(s, e, p) ==> s.entries[e].phase.value == Current(s, p)
  }

  lemma RemoveKeepsPairs(s: State, k: string, pairs: set<Pair>)
    requires PairsOk(s, pairs)
    ensures PairsOk(Next(s, Remove(k)), pairs)
  {
    StepPairs(s, Remove(k), pairs);
  }

  lemma RemovedIsSettled(s: State, p: Pair)
    requires HeldAreCurrent(s, p)
    ensures Settled(Next(s, Remove(KeyOf(p))), p)
  {
    var s' := Next(s, Remove(KeyOf(p)));
    forall e: nat ensures HeldOk(s', e, p) {
      assert HoldsFor(s', e, p) ==> HoldsFor(s, e, p);
    }
  }

  /** An outdated held answer finds the invalidated key free. */
  lemma OutdatedFill(s: State, p: Pair, pairs: set<Pair>) returns (e: nat)
    requires PairsOk(s, pairs) && !HeldAreCurrent(s, p)
    ensures var s' := Next(s, Remove(KeyOf(p)));
            && Enabled(s', Fill(e, true)) && !Coherent(Next(s', Fill(e, true)), p)
            && Next(s', Fill(e, true)).pending == s.pending
  {
    e :| HoldsFor(s, e, p) && s.entries[e].phase.value != Current(s, p);
    assert FlightPairOk(s, e, pairs);
    var s' := Next(s, Remove(KeyOf(p)));
    assert Next(s', Fill(e, true)) == DoFill(s', e, true);
  }

  /**
   * The exact limit of NX, for the cache entry. After Invalidate, every continuation that leaves the pair alone keeps
   * it coherent if and only if no fetch is between its Helios read and its Set with an outdated answer; otherwise
   * that Set resurrects it.
   */
  lemma InvalidateSafeIff(s: State, p: Pair, pairs: set<Pair>)
    requires PairsOk(s, pairs) && InjectiveOn(pairs) && p in pairs
    ensures var s' := Next(s, Remove(KeyOf(p)));
            ((forall steps :: Continuation(s', steps, p, pairs) ==> Coherent(Final(s', steps), p))
             <==> HeldAreCurrent(s, p))
  {
    var s' := Next(s, Remove(KeyOf(p)));
    RemoveKeepsPairs(s, KeyOf(p), pairs);
    if HeldAreCurrent(s, p) {
      RemovedIsSettled(s, p);
      forall steps | Continuation(s', steps, p, pairs) ensures Coherent(Final(s', steps), p) {
        ContinuationStaysCoherent(s', steps, p, pairs);
      }
    } else {
      var e := OutdatedFill(s, p, pairs);
      var steps := [Fill(e, true)];
      assert steps[1..] == [];
      assert HandsOff(Fill(e, true), p) && Within(Fill(e, true), pairs);
      assert Continuation(s', steps, p, pairs);
    }
  }

  predicate AllowedRun(s: State, steps: seq<Step>, p: Pair)
    requires ValidRun(s, steps)
    decreases |steps|
  {
    steps == [] || (Allowed(s, steps[0], p) && AllowedRun(Next(s, steps[0]), steps[1..], p))
  }

  ghost predicate WritersContinue(s: State, steps: seq<Step>, p: Pair, pairs: set<Pair>) {
    ValidRun(s, steps) && AllWithin(steps, pairs) && AllowedRun(s, steps, p)
  }

  lemma {:induction false} WritersKeepPair(s: State, steps: seq<Step>, p: Pair, pairs: set<Pair>)
    requires PairInv(s, p) && PairsOk(s, pairs) && InjectiveOn(pairs) && p in pairs
    requires WritersContinue(s, steps, p, pairs)
    ensures PairInv(Final(s, steps), p)
    decreases |steps|
  {
    if steps != [] {
      assert Within(steps[0], pairs);
      StepKeepsPair(s, steps[0], p, pairs);
      StepPairs(s, steps[0], pairs);
      AllWithinTail(steps, pairs);
      WritersKeepPair(Next(s, steps[0]), steps[1..], p, pairs);
    }
  }

  /**
   * The same limit with later changes of the pair allowed: from a state with no write pending for it, every
   * continuation whose changes are serialised and written through is coherent between them, under the same condition.
   */
  lemma InvalidateSafeWithWritersIff(s: State, p: Pair, pairs: set<Pair>)
    requires PairsOk(s, pairs) && InjectiveOn(pairs) && p in pairs && p !in s.pending
    ensures var s' := Next(s, Remove(KeyOf(p)));
            ((forall steps :: WritersContinue(s', steps, p, pairs) && p !in Final(s', steps).pending ==>
                Coherent(Final(s', steps), p))
             <==> HeldAreCurrent(s, p))
  {
    var s' := Next(s, Remove(KeyOf(p)));
    RemoveKeepsPairs(s, KeyOf(p), pairs);
    if HeldAreCurrent(s, p) {
      RemovedIsSettled(s, p);
      forall steps | WritersContinue(s', steps, p, pairs) && p !in Final(s', steps).pending
        ensures Coherent(Final(s', steps), p)
      {
        WritersKeepPair(s', steps, p, pairs);
      }
    } else {
      var e := OutdatedFill(s, p, pairs);
      var steps := [Fill(e, true)];
      assert steps[1..] == [] && Within(steps[0], pairs);
      assert Final(s', steps) == Next(s', Fill(e, true));
      assert WritersContinue(s', steps, p, pairs);
    }
  }

  /** A reachable case: everyone follows the protocol, and one Invalidate lets a slow fetch bring back the past. */
  lemma NxResurrects(p: Pair) returns (written: seq<Step>, steps: seq<Step>)
    ensures ValidRun(INIT, written) && DisciplinedRun(INIT, written) && Final(INIT, written).pending == map[]
    ensures steps == written + [Remove(KeyOf(p))] + [Fill(0, true)] && ValidRun(INIT, steps)
    ensures !Coherent(Final(INIT, steps), p)
  {
    var now := Active(Some(["granted"]));
    var before := SlowFetch(p);
    var s1 := Final(INIT, before);
    var s2 := Next(s1, RoleChange(p, now));
    var s3 := Next(s2, Write(p, Some(["granted"])));
    var s4 := Next(s3, Remove(KeyOf(p)));
    var s5 := Next(s4, Fill(0, true));
    assert s5.cache[KeyOf(p)] == Array([]);
    RunSnoc(INIT, before, RoleChange(p, now));
    DisciplinedSnoc(INIT, before, RoleChange(p, now));
    written := before + [RoleChange(p, now)] + [Write(p, Some(["granted"]))];
    RunSnoc(INIT, before + [RoleChange(p, now)], Write(p, Some(["granted"])));
    DisciplinedSnoc(INIT, before + [RoleChange(p, now)], Write(p, Some(["granted"])));
    RunSnoc(INIT, written, Remove(KeyOf(p)));
    RunSnoc(INIT, written + [Remove(KeyOf(p))], Fill(0, true));
    steps := written + [Remove(KeyOf(p))] + [Fill(0, true)];
    assert s3.pending == map[];
  }

  lemma {:induction false} DisciplinedSnoc(s: State, steps: seq<Step>, step: Step)
    requires ValidRun(s, steps + [step]) && ValidRun(s, steps) && DisciplinedRun(s, steps)
    requires Disciplined(Final(s, steps), step)
    ensures DisciplinedRun(s, steps + [step])
    decreases |steps|
  {
    if steps != [] {
      assert (steps + [step])[1..] == steps[1..] + [step];
      DisciplinedSnoc(Next(s, steps[0]), steps[1..], step);
    }
  }

  /** One call misses and its fetch has read Helios, which does not know the pair yet. */
  lemma SlowFetch(p: Pair) returns (steps: seq<Step>)
    ensures |steps| == 4 && ValidRun(INIT, steps) && DisciplinedRun(INIT, steps)
    ensures var s := Final(INIT, steps);
            && s.truth == map[] && s.pending == map[] && s.cache == map[]
            && s.entries == [FlightEntry(0, p, KeyOf(p), 0, Holding([]), None)]
            && s.callers == [Caller(0, p, KeyOf(p), Waiting(0))]
  {
    var a, b, c, d := Arrive(0, p), Look(0, true), Join(0), Ask(0, None);
    RunSnoc(INIT, [], a);
    DisciplinedSnoc(INIT, [], a);
    RunSnoc(INIT, [] + [a], b);
    DisciplinedSnoc(INIT, [] + [a], b);
    RunSnoc(INIT, [] + [a] + [b], c);
    DisciplinedSnoc(INIT, [] + [a] + [b], c);
    RunSnoc(INIT, [] + [a] + [b] + [c], d);
    DisciplinedSnoc(INIT, [] + [a] + [b] + [c], d);
    steps := [] + [a] + [b] + [c] + [d];
  }
}
