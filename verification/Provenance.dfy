/**
 * Where answers come from: over every run, with removals, expiry, failures and corrupt values, each array the read
 * path returns for a pair was written through for that pair or told by Helios about it, provided keys do not collide.
 */
module Provenance {
  import opened Basics
  import opened Keys
  import opened CacheSpec
  import opened Redis
  import opened Protocol
  import opened Coalescer
  import opened Coherence

  type Fact = (Pair, seq<Permission>)

  /** What a step establishes: a Helios answer to a fetch, or a written-through array. */
  function Told(s: State, step: Step): set<Fact>
    requires Enabled(s, step)
  {
    match step
    case Ask(e, None) => {(s.entries[e].pair, Current(s, s.entries[e].pair))}
    case Write(p, Some(v)) => {(p, v)}
    case _ => {}
  }

  function AllTold(s: State, steps: seq<Step>): set<Fact>
    requires ValidRun(s, steps)
    decreases |steps|
  {
    if steps == [] then {} else Told(s, steps[0]) + AllTold(Next(s, steps[0]), steps[1..])
  }

  predicate AnswerFrom(p: Pair, a: Answer, facts: set<Fact>) {
    a.Granted? ==> (p, a.perms) in facts
  }

  predicate FlightFrom(f: FlightEntry, facts: set<Fact>) {
    && (f.phase.Holding? ==> (f.pair, f.phase.value) in facts)
    && (f.phase.Returned? ==> AnswerFrom(f.pair, f.phase.answer, facts))
    && (f.result.Some? ==> AnswerFrom(f.pair, f.result.value, facts))
  }

  predicate CallFrom(c: Caller, facts: set<Fact>) {
    && (c.phase.Hit? ==> (c.pair, c.phase.perms) in facts)
    && (c.phase.Served? ==> AnswerFrom(c.pair, c.phase.answer, facts))
  }

  predicate CacheFrom(cache: map<string, Payload>, p: Pair, facts: set<Fact>) {
    KeyOf(p) in cache && cache[KeyOf(p)].Array? ==> (p, cache[KeyOf(p)].perms) in facts
  }

  ghost predicate FlightsFrom(es: seq<FlightEntry>, facts: set<Fact>) {
    forall e {:trigger FlightFrom(es[e], facts)} :: 0 <= e < |es| ==> FlightFrom(es[e], facts)
  }

  ghost predicate CallsFrom(cs: seq<Caller>, facts: set<Fact>) {
    forall c {:trigger CallFrom(cs[c], facts)} :: 0 <= c < |cs| ==> CallFrom(cs[c], facts)
  }

  ghost predicate CachesFrom(cache: map<string, Payload>, pairs: set<Pair>, facts: set<Fact>) {
    forall p {:trigger CacheFrom(cache, p, facts)} :: p in pairs ==> CacheFrom(cache, p, facts)
  }

  ghost predicate Genuine(s: State, pairs: set<Pair>, facts: set<Fact>) {
    && FlightsFrom(s.entries, facts)
    && CallsFrom(s.callers, facts)
    && CachesFrom(s.cache, pairs, facts)
  }

  lemma UpdatedFlights(es: seq<FlightEntry>, e: nat, f: FlightEntry, facts: set<Fact>)
    requires FlightsFrom(es, facts) && e < |es| && FlightFrom(f, facts)
    ensures FlightsFrom(es[e := f], facts)
  {
    var es' := es[e := f];
    forall d | 0 <= d < |es'| ensures FlightFrom(es'[d], facts) {
      assert FlightFrom(es[d], facts);
    }
  }

  lemma AppendedFlights(es: seq<FlightEntry>, f: FlightEntry, facts: set<Fact>)
    requires FlightsFrom(es, facts) && FlightFrom(f, facts)
    ensures FlightsFrom(es + [f], facts)
  {
    forall d | 0 <= d < |es| + 1 ensures FlightFrom((es + [f])[d], facts) {
      assert d < |es| ==> FlightFrom(es[d], facts);
    }
  }

  lemma UpdatedCalls(cs: seq<Caller>, c: nat, call: Caller, facts: set<Fact>)
    requires CallsFrom(cs, facts) && c < |cs| && CallFrom(call, facts)
    ensures CallsFrom(cs[c := call], facts)
  {
    var cs' := cs[c := call];
    forall d | 0 <= d < |cs'| ensures CallFrom(cs'[d], facts) {
      assert CallFrom(cs[d], facts);
    }
  }

  lemma AppendedCalls(cs: seq<Caller>, call: Caller, facts: set<Fact>)
    requires CallsFrom(cs, facts) && CallFrom(call, facts)
    ensures CallsFrom(cs + [call], facts)
  {
    forall d | 0 <= d < |cs| + 1 ensures CallFrom((cs + [call])[d], facts) {
      assert d < |cs| ==> CallFrom(cs[d], facts);
    }
  }

  lemma StoredArray(cache: map<string, Payload>, q: Pair, v: seq<Permission>, pairs: set<Pair>, facts: set<Fact>)
    requires CachesFrom(cache, pairs, facts) && InjectiveOn(pairs) && q in pairs && (q, v) in facts
    ensures CachesFrom(cache[KeyOf(q) := Array(v)], pairs, facts)
  {
    forall p | p in pairs ensures CacheFrom(cache[KeyOf(q) := Array(v)], p, facts) {
      assert CacheFrom(cache, p, facts);
    }
  }

  lemma StoredJunk(cache: map<string, Payload>, k: string, junk: Payload, pairs: set<Pair>, facts: set<Fact>)
    requires CachesFrom(cache, pairs, facts) && !junk.Array?
    ensures CachesFrom(cache[k := junk], pairs, facts) && CachesFrom(cache - {k}, pairs, facts)
  {
    forall p | p in pairs ensures CacheFrom(cache[k := junk], p, facts) && CacheFrom(cache - {k}, p, facts) {
      assert CacheFrom(cache, p, facts);
    }
  }

  lemma FlightStepGenuine(s: State, step: Step, pairs: set<Pair>, facts: set<Fact>)
    requires Genuine(s, pairs, facts) && PairsOk(s, pairs) && InjectiveOn(pairs)
    requires Enabled(s, step) && Told(s, step) <= facts
    requires step.Ask? || step.Fill? || step.Close? || step.Delete?
    ensures Genuine(Next(s, step), pairs, facts)
  {
    assert FlightFrom(s.entries[step.e], facts) && FlightPairOk(s, step.e, pairs);
    match step
    case Ask(e, failure) => UpdatedFlights(s.entries, e, DoAsk(s, e, failure).entries[e], facts);
    case Fill(e, up) =>
      StoredArray(s.cache, s.entries[e].pair, s.entries[e].phase.value, pairs, facts);
      UpdatedFlights(s.entries, e, DoFill(s, e, up).entries[e], facts);
    case Close(e) => UpdatedFlights(s.entries, e, DoClose(s, e).entries[e], facts);
    case Delete(e) => UpdatedFlights(s.entries, e, DoDelete(s, e).entries[e], facts);
  }

  lemma WakeGenuine(s: State, c: nat, pairs: set<Pair>, facts: set<Fact>)
    requires Genuine(s, pairs, facts) && PairsOk(s, pairs) && InjectiveOn(pairs) && Inv(s)
    requires Enabled(s, Wake(c))
    ensures Genuine(DoWake(s, c), pairs, facts)
  {
    var e := s.callers[c].phase.entry;
    assert CallerOk(s, c) && CallPairOk(s, c, pairs) && FlightPairOk(s, e, pairs);
    assert FlightFrom(s.entries[e], facts);
    UpdatedCalls(s.callers, c, DoWake(s, c).callers[c], facts);
  }

  lemma LookGenuine(s: State, c: nat, up: bool, pairs: set<Pair>, facts: set<Fact>)
    requires Genuine(s, pairs, facts) && PairsOk(s, pairs) && Enabled(s, Look(c, up))
    ensures Genuine(DoLook(s, c, up), pairs, facts)
  {
    assert CallPairOk(s, c, pairs) && CacheFrom(s.cache, s.callers[c].pair, facts);
    UpdatedCalls(s.callers, c, DoLook(s, c, up).callers[c], facts);
  }

  lemma JoinGenuine(s: State, c: nat, pairs: set<Pair>, facts: set<Fact>)
    requires Genuine(s, pairs, facts) && Enabled(s, Join(c))
    ensures Genuine(DoJoin(s, c), pairs, facts)
  {
    var s' := DoJoin(s, c);
    UpdatedCalls(s.callers, c, s'.callers[c], facts);
    if CallSlot(s.callers[c]) !in s.waiter {
      AppendedFlights(s.entries, s'.entries[|s.entries|], facts);
    }
  }

  lemma StepGenuine(s: State, step: Step, pairs: set<Pair>, facts: set<Fact>)
    requires Genuine(s, pairs, facts) && PairsOk(s, pairs) && InjectiveOn(pairs) && Inv(s)
    requires Enabled(s, step) && Within(step, pairs) && Told(s, step) <= facts
    ensures Genuine(Next(s, step), pairs, facts)
  {
    match step
    case Arrive(client, p) => AppendedCalls(s.callers, Caller(client, p, KeyOf(p), Started), facts);
    case Look(c, up) => LookGenuine(s, c, up, pairs, facts);
    case Join(c) => JoinGenuine(s, c, pairs, facts);
    case Wake(c) => WakeGenuine(s, c, pairs, facts);
    case Write(p, None) => StoredJunk(s.cache, KeyOf(p), Null, pairs, facts);
    case Write(p, Some(v)) => StoredArray(s.cache, p, v, pairs, facts);
    case RoleChange(_, _) =>
    case Remove(k) => StoredJunk(s.cache, k, Null, pairs, facts);
    case Corrupt(k, junk) => StoredJunk(s.cache, k, junk, pairs, facts);
    case _ => FlightStepGenuine(s, step, pairs, facts);
  }

  lemma {:induction false} RunGenuine(s: State, steps: seq<Step>, pairs: set<Pair>, facts: set<Fact>)
    requires Genuine(s, pairs, facts) && PairsOk(s, pairs) && InjectiveOn(pairs) && Inv(s)
    requires ValidRun(s, steps) && AllWithin(steps, pairs) && AllTold(s, steps) <= facts
    ensures Genuine(Final(s, steps), pairs, facts)
    decreases |steps|
  {
    if steps != [] {
      assert Within(steps[0], pairs);
      StepGenuine(s, steps[0], pairs, facts);
      StepPairs(s, steps[0], pairs);
      StepInv(s, steps[0]);
      AllWithinTail(steps, pairs);
      RunGenuine(Next(s, steps[0]), steps[1..], pairs, facts);
    }
  }

  /** Whatever a finished call got, it got from what was told about its own pair. */
  ghost predicate AllAnswersGenuine(steps: seq<Step>)
    requires ValidRun(INIT, steps)
  {
    CallsFrom(Final(INIT, steps).callers, AllTold(INIT, steps))
  }

  lemma AnswersAreGenuine(steps: seq<Step>, pairs: set<Pair>)
    requires InjectiveOn(pairs) && ValidRun(INIT, steps) && AllWithin(steps, pairs)
    ensures AllAnswersGenuine(steps)
  {
    InitInv();
    RunGenuine(INIT, steps, pairs, AllTold(INIT, steps));
  }

  /** Two pairs with one key: what was written for the first is served for the second. */
  lemma CollisionServesAnotherPair(p: Pair, q: Pair) returns (steps: seq<Step>)
    requires p != q && KeyOf(p) == KeyOf(q)
    ensures ValidRun(INIT, steps) && AllWithin(steps, {p, q}) && !AllAnswersGenuine(steps)
  {
    var v := ["granted"];
    var w, a, l := Write(p, Some(v)), Arrive(0, q), Look(0, true);
    var s1 := Next(INIT, w);
    var s2 := Next(s1, a);
    var s3 := Next(s2, l);
    RunCons(s2, l, []);
    RunCons(s1, a, [l] + []);
    RunCons(INIT, w, [a] + ([l] + []));
    steps := [w] + ([a] + ([l] + []));
    assert steps[1..] == [a, l] && [a, l][1..] == [l] && [l][1..] == [];
    assert steps == [w, a, l] && [l] + [] == [l] && [a] + [l] == [a, l];
    assert AllTold(s2, [l]) == {} && AllTold(s1, [a, l]) == {};
    assert AllTold(INIT, steps) == {(p, v)};
    assert s3.callers[0] == Caller(0, q, KeyOf(q), Hit(v));
    assert !CallFrom(s3.callers[0], {(p, v)});
  }

  /** Provenance holds over all runs on a set of pairs if and only if the pairs have distinct keys. */
  lemma ProvenanceIff(pairs: set<Pair>)
    ensures (forall steps :: ValidRun(INIT, steps) && AllWithin(steps, pairs) ==> AllAnswersGenuine(steps))
       <==> InjectiveOn(pairs)
  {
    if InjectiveOn(pairs) {
      forall steps | ValidRun(INIT, steps) && AllWithin(steps, pairs) ensures AllAnswersGenuine(steps) {
        AnswersAreGenuine(steps, pairs);
      }
    } else {
      var p, q :| p in pairs && q in pairs && KeyOf(p) == KeyOf(q) && p != q;
      var steps := CollisionServesAnotherPair(p, q);
      forall i | 0 <= i < |steps| ensures Within(steps[i], pairs) {
        assert Within(steps[i], {p, q});
      }
    }
  }

  /** In particular over all runs whose tenants are colon-free. */
  lemma ColonFreeTenantsAreSafe(steps: seq<Step>, pairs: set<Pair>)
    requires forall p :: p in pairs ==> ColonFree(p.tenant)
    requires ValidRun(INIT, steps) && AllWithin(steps, pairs)
    ensures AllAnswersGenuine(steps)
  {
    ColonFreeTenantsDoNotCollide(pairs);
    AnswersAreGenuine(steps, pairs);
  }

  /** The step is a write-through of this array for the pair, or an answered request of a fetch for it that tells it. */
  predicate Tells(s: State, step: Step, p: Pair, v: seq<Permission>)
    requires Enabled(s, step)
  {
    match step
    case Write(q, perms) => q == p && perms == Some(v)
    case Ask(e, failure) =>
      && failure.None? && s.entries[e].pair == p
      && v == if p in s.truth && s.truth[p].Active? && s.truth[p].perms.Some? then s.truth[p].perms.value else []
    case _ => false
  }

  /** What counts as told was told, by some step of the run in the state it then found. */
  lemma {:induction false} ToldBySomeStep(s: State, steps: seq<Step>, p: Pair, v: seq<Permission>) returns (i: nat)
    requires ValidRun(s, steps) && (p, v) in AllTold(s, steps)
    ensures i < |steps| && ValidRun(s, steps[..i]) && Enabled(Final(s, steps[..i]), steps[i])
    ensures Tells(Final(s, steps[..i]), steps[i], p, v)
    decreases |steps|
  {
    if (p, v) in Told(s, steps[0]) {
      i := 0;
      assert steps[..0] == [];
    } else {
      var s', rest := Next(s, steps[0]), steps[1..];
      var j := ToldBySomeStep(s', rest, p, v);
      i := j + 1;
      assert steps[..i] == [steps[0]] + rest[..j];
      RunCons(s, steps[0], rest[..j]);
    }
  }

  /** Every array that a call was answered with goes back to a step of the run that told it about the call's pair. */
  lemma AnswerHasSource(steps: seq<Step>, pairs: set<Pair>, c: nat, v: seq<Permission>) returns (i: nat)
    requires InjectiveOn(pairs) && ValidRun(INIT, steps) && AllWithin(steps, pairs)
    requires c < |Final(INIT, steps).callers|
    requires var phase := Final(INIT, steps).callers[c].phase;
             phase == Hit(v) || (phase.Served? && phase.answer == Granted(v))
    ensures i < |steps| && ValidRun(INIT, steps[..i]) && Enabled(Final(INIT, steps[..i]), steps[i])
    ensures Tells(Final(INIT, steps[..i]), steps[i], Final(INIT, steps).callers[c].pair, v)
  {
    AnswersAreGenuine(steps, pairs);
    var call := Final(INIT, steps).callers[c];
    assert CallFrom(call, AllTold(INIT, steps));
    i := ToldBySomeStep(INIT, steps, call.pair, v);
  }

  /** What a fetch comes to hold is Helios's list for an active member, and nothing otherwise. */
  lemma AskReadsTruth(s: State, e: nat)
    requires Enabled(s, Ask(e, None))
    ensures var p, phase := s.entries[e].pair, DoAsk(s, e, None).entries[e].phase;
            if p in s.truth && s.truth[p].Active? && s.truth[p].perms.Some?
            then phase == Holding(s.truth[p].perms.value)
            else phase == Holding([])
  {
  }

  /** Not an active member with permissions: inactive, no member, or active with an empty or no list. */
  predicate WithoutPermissions(r: Resolution) {
    r.Active? && r.perms.Some? ==> r.perms.value == []
  }

  predicate NothingFor(step: Step, p: Pair) {
    match step
    case RoleChange(q, now) => q == p ==> WithoutPermissions(now)
    case Write(q, perms) => q == p && perms.Some? ==> perms.value == []
    case _ => true
  }

  lemma {:induction false} NothingIsTold(s: State, steps: seq<Step>, p: Pair, v: seq<Permission>)
    requires ValidRun(s, steps) && forall i :: 0 <= i < |steps| ==> NothingFor(steps[i], p)
    requires p in s.truth ==> WithoutPermissions(s.truth[p])
    ensures (p, v) in AllTold(s, steps) ==> v == []
    decreases |steps|
  {
    if steps != [] {
      assert NothingFor(steps[0], p);
      var s', rest := Next(s, steps[0]), steps[1..];
      forall i | 0 <= i < |rest| ensures NothingFor(rest[i], p) {
        assert rest[i] == steps[i + 1];
      }
      NothingIsTold(s', rest, p, v);
    }
  }

  /**
   * Whoever never is an active member with permissions, and is written none, is never answered with any, in any run and
   * however the answer comes about.
   */
  lemma NonMemberGetsNothing(steps: seq<Step>, pairs: set<Pair>, p: Pair, c: nat)
    requires InjectiveOn(pairs) && ValidRun(INIT, steps) && AllWithin(steps, pairs)
    requires forall i :: 0 <= i < |steps| ==> NothingFor(steps[i], p)
    requires c < |Final(INIT, steps).callers| && Final(INIT, steps).callers[c].pair == p
    ensures var call := Final(INIT, steps).callers[c];
            && (call.phase.Hit? ==> call.phase.perms == [])
            && (call.phase.Served? && call.phase.answer.Granted? ==> call.phase.answer.perms == [])
  {
    AnswersAreGenuine(steps, pairs);
    var call := Final(INIT, steps).callers[c];
    assert CallFrom(call, AllTold(INIT, steps));
    if call.phase.Hit? {
      NothingIsTold(INIT, steps, p, call.phase.perms);
    } else if call.phase.Served? && call.phase.answer.Granted? {
      NothingIsTold(INIT, steps, p, call.phase.answer.perms);
    }
  }
}
