/** What a failing Helios can and cannot affect. */
module Outage {
  import opened Basics
  import opened Keys
  import opened CacheSpec
  import opened Redis
  import opened Protocol
  import opened Coalescer

  /** The fetch has failed with this error, and its entry may or may not be closed and deleted yet. */
  predicate FailedWith(f: FlightEntry, code: int) {
    || (f.phase == Returned(Failed(code)) && f.result.None?)
    || ((f.phase.Closed? || f.phase.Gone?) && f.result == Some(Failed(code)))
  }

  lemma FailureStays(s: State, step: Step, e: nat, code: int)
    requires Enabled(s, step) && e < |s.entries| && FailedWith(s.entries[e], code)
    ensures e < |Next(s, step).entries| && FailedWith(Next(s, step).entries[e], code)
  {
    match step
    case Join(c) => assert s.entries <= DoJoin(s, c).entries;
    case Ask(d, failure) => assert DoAsk(s, d, failure).entries[e] == s.entries[e];
    case Fill(d, up) => assert DoFill(s, d, up).entries[e] == s.entries[e];
    case Close(d) => assert FailedWith(DoClose(s, d).entries[e], code);
    case Delete(d) => assert FailedWith(DoDelete(s, d).entries[e], code);
    case _ =>
  }

  lemma {:induction false} FailureStaysOverRun(s: State, steps: seq<Step>, e: nat, code: int)
    requires ValidRun(s, steps) && e < |s.entries| && FailedWith(s.entries[e], code)
    ensures e < |Final(s, steps).entries| && FailedWith(Final(s, steps).entries[e], code)
    decreases |steps|
  {
    if steps != [] {
      FailureStays(s, steps[0], e, code);
      FailureStaysOverRun(Next(s, steps[0]), steps[1..], e, code);
    }
  }

  /** Steps that the goroutine of entry e takes. */
  predicate StepOf(step: Step, e: nat) {
    (step.Ask? || step.Fill? || step.Close? || step.Delete?) && step.e == e
  }

  /**
   * A failed fetch: over every continuation its error is what every sharer is served, its own steps leave the cache
   * as it is, and once it is deleted nothing of it is left, so that the next miss starts a fetch of its own.
   */
  lemma FailedFetchIsIsolated(s: State, steps: seq<Step>, e: nat, code: int)
    requires Inv(s) && ValidRun(s, steps) && e < |s.entries| && FailedWith(s.entries[e], code)
    ensures var s' := Final(s, steps);
            && e < |s'.entries|
            && (forall c: nat :: c < |s'.callers| && s'.callers[c].phase.Served? && s'.callers[c].phase.entry == e ==>
                  s'.callers[c].phase.answer == Failed(code))
            && (forall step :: StepOf(step, e) && Enabled(s', step) ==> Next(s', step).cache == s'.cache)
            && (forall slot :: slot in s'.waiter && s'.waiter[slot] == e ==> !s'.entries[e].phase.Gone?)
            && (forall c: nat :: Enabled(s', Join(c)) && s'.entries[e].phase.Gone? ==>
                  DoJoin(s', c).callers[c].phase != Waiting(e))
  {
    FailureStaysOverRun(s, steps, e, code);
    RunInv(s, steps);
    var s' := Final(s, steps);
    forall c: nat | c < |s'.callers| && s'.callers[c].phase.Served? && s'.callers[c].phase.entry == e
      ensures s'.callers[c].phase.answer == Failed(code)
    {
      assert CallerOk(s', c) && EntryOk(s', e);
    }
    forall slot | slot in s'.waiter && s'.waiter[slot] == e ensures !s'.entries[e].phase.Gone? {
      assert SlotOk(s', slot);
    }
    forall c: nat | Enabled(s', Join(c)) && s'.entries[e].phase.Gone?
      ensures DoJoin(s', c).callers[c].phase != Waiting(e)
    {
      assert CallSlot(s'.callers[c]) in s'.waiter ==> SlotOk(s', CallSlot(s'.callers[c]));
    }
  }

  /** Clients only, with Helios failing every request and the cache readable. */
  predicate OutageStep(step: Step) {
    match step
    case Arrive(_, _) => true
    case Look(_, up) => up
    case Join(_) => true
    case Ask(_, failure) => failure.Some?
    case Close(_) => true
    case Delete(_) => true
    case Wake(_) => true
    case _ => false
  }

  predicate OutageRun(steps: seq<Step>) {
    forall i :: 0 <= i < |steps| ==> OutageStep(steps[i])
  }

  /** A call that has not read the cache when the outage begins. */
  predicate NotYetRead(start: State, c: nat) {
    c < |start.callers| ==> start.callers[c].phase.Started?
  }

  /** Such a call is answered from the cache as it was found, or by a fetch of the outage. */
  ghost predicate OutageCall(start: State, s: State, c: nat)
    requires c < |s.callers|
  {
    var call := s.callers[c];
    var cached := call.key in start.cache && start.cache[call.key].Array?;
    match call.phase
    case Started => true
    case Missed => !cached
    case Waiting(e) => !cached && |start.entries| <= e
    case Hit(v) => cached && v == start.cache[call.key].perms
    case Served(_, a) => !cached && a.Failed?
  }

  predicate OutageFlight(f: FlightEntry) {
    !f.phase.Holding? && (f.phase.Returned? ==> f.phase.answer.Failed?) && (f.result.Some? ==> f.result.value.Failed?)
  }

  /** A fetch from before is gone; a fetch of the outage only ever fails. */
  predicate OutageEntry(start: State, s: State, e: nat)
    requires e < |s.entries|
  {
    if e < |start.entries| then s.entries[e].phase.Gone? else OutageFlight(s.entries[e])
  }

  ghost predicate OutageInv(start: State, s: State) {
    && s.cache == start.cache && |start.entries| <= |s.entries|
    && (forall c {:trigger OutageCall(start, s, c)} ::
          0 <= c < |s.callers| && NotYetRead(start, c) ==> OutageCall(start, s, c))
    && (forall e {:trigger OutageEntry(start, s, e)} :: 0 <= e < |s.entries| ==> OutageEntry(start, s, e))
  }

  lemma OutageStepCall(start: State, s: State, step: Step, c: nat)
    requires OutageInv(start, s) && Inv(s) && Enabled(s, step) && OutageStep(step)
    requires c < |Next(s, step).callers| && NotYetRead(start, c)
    ensures OutageCall(start, Next(s, step), c)
  {
    if c < |s.callers| {
      assert OutageCall(start, s, c) && CallerOk(s, c);
    }
    match step
    case Join(d) =>
      var slot := CallSlot(s.callers[d]);
      if slot in s.waiter {
        assert SlotOk(s, slot) && OutageEntry(start, s, s.waiter[slot]);
      }
    case Wake(d) =>
      assert OutageEntry(start, s, s.callers[d].phase.entry);
    case _ =>
  }

  lemma OutageStepEntry(start: State, s: State, step: Step, e: nat)
    requires OutageInv(start, s) && Enabled(s, step) && OutageStep(step) && e < |Next(s, step).entries|
    ensures OutageEntry(start, Next(s, step), e)
    ensures Next(s, step).cache == start.cache && |s.entries| <= |Next(s, step).entries|
  {
    if e < |s.entries| {
      assert OutageEntry(start, s, e);
    }
  }

  lemma OutageStepInv(start: State, s: State, step: Step)
    requires OutageInv(start, s) && Inv(s) && Enabled(s, step) && OutageStep(step)
    ensures OutageInv(start, Next(s, step))
  {
    var s' := Next(s, step);
    forall c | 0 <= c < |s'.callers| && NotYetRead(start, c) ensures OutageCall(start, s', c) {
      OutageStepCall(start, s, step, c);
    }
    assert s'.cache == start.cache && |s.entries| <= |s'.entries|;
    forall e | 0 <= e < |s'.entries| ensures OutageEntry(start, s', e) {
      OutageStepEntry(start, s, step, e);
    }
  }

  lemma {:induction false} OutageRunInv(start: State, s: State, steps: seq<Step>)
    requires OutageInv(start, s) && Inv(s) && ValidRun(s, steps) && OutageRun(steps)
    ensures OutageInv(start, Final(s, steps))
    decreases |steps|
  {
    if steps != [] {
      assert OutageStep(steps[0]);
      OutageStepInv(start, s, steps[0]);
      StepInv(s, steps[0]);
      OutageRunInv(start, Next(s, steps[0]), steps[1..]);
    }
  }

  /**
   * From any state with no fetch under way, throughout a Helios outage the cache does not change, a call that reads it
   * during the outage gets the cached array if its key has one, and an error otherwise.
   */
  lemma OutageIsContained(s: State, steps: seq<Step>, c: nat)
    requires Inv(s) && ValidRun(s, steps) && OutageRun(steps)
    requires forall e :: 0 <= e < |s.entries| ==> s.entries[e].phase.Gone?
    requires c < |Final(s, steps).callers| && NotYetRead(s, c)
    ensures var s' := Final(s, steps);
            var call := s'.callers[c];
            && s'.cache == s.cache
            && (call.phase.Hit? ==> call.key in s.cache && s.cache[call.key] == Array(call.phase.perms))
            && (call.phase.Served? ==> call.phase.answer.Failed? && !(call.key in s.cache && s.cache[call.key].Array?))
  {
    OutageRunInv(s, s, steps);
    assert OutageCall(s, Final(s, steps), c);
  }
}
