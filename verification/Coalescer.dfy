/** Safety of the in-flight table: one live fetch per slot, owned entries, no lost callers, results written once. */
module Coalescer {
  import opened Basics
  import opened Keys
  import opened CacheSpec
  import opened Redis
  import opened Protocol

  predicate Live(s: State, e: nat) {
    e < |s.entries| && !s.entries[e].phase.Gone?
  }

  /** An entry that is not gone is the one registered under its slot; its result is set exactly from its close on. */
  predicate EntryOk(s: State, e: nat)
    requires e < |s.entries|
  {
    var f := s.entries[e];
    && (!f.phase.Gone? ==> SlotOf(f) in s.waiter && s.waiter[SlotOf(f)] == e)
    && (f.result.Some? <==> f.phase.Closed? || f.phase.Gone?)
    && f.starter < |s.callers|
    && CallSlot(s.callers[f.starter]) == SlotOf(f)
    && JoinedTo(s.callers[f.starter], e)
  }

  predicate JoinedTo(c: Caller, e: nat) {
    (c.phase.Waiting? || c.phase.Served?) && c.phase.entry == e
  }

  predicate SlotOk(s: State, slot: Slot)
    requires slot in s.waiter
  {
    Live(s, s.waiter[slot]) && SlotOf(s.entries[s.waiter[slot]]) == slot
  }

  /** A caller that has joined an entry shares its slot, and was served the entry's own result. */
  predicate CallerOk(s: State, c: nat)
    requires c < |s.callers|
  {
    var call := s.callers[c];
    call.phase.Waiting? || call.phase.Served? ==>
      && call.phase.entry < |s.entries|
      && SlotOf(s.entries[call.phase.entry]) == CallSlot(call)
      && (call.phase.Served? ==> s.entries[call.phase.entry].result == Some(call.phase.answer))
  }

  ghost predicate Inv(s: State) {
    && (forall e {:trigger EntryOk(s, e)} :: 0 <= e < |s.entries| ==> EntryOk(s, e))
    && (forall slot {:trigger SlotOk(s, slot)} :: slot in s.waiter ==> SlotOk(s, slot))
    && (forall c {:trigger CallerOk(s, c)} :: 0 <= c < |s.callers| ==> CallerOk(s, c))
  }

  lemma InitInv()
    ensures Inv(INIT)
  {
  }

  /** One call moves on; nothing else does. */
  predicate CallMoved(s: State, s': State, c: nat, phase: CallPhase) {
    && c < |s.callers|
    && s'.callers == s.callers[c := s.callers[c].(phase := phase)]
    && s'.entries == s.entries && s'.waiter == s.waiter
  }

  /** One fetch moves on under its own slot; nothing else does. */
  predicate FlightMoved(s: State, s': State, e: nat, f: FlightEntry) {
    && e < |s.entries|
    && f == s.entries[e].(phase := f.phase, result := f.result)
    && s'.entries == s.entries[e := f]
    && s'.callers == s.callers && s'.waiter == s.waiter
  }

  predicate SameTable(s: State, s': State) {
    s'.entries == s.entries && s'.callers == s.callers && s'.waiter == s.waiter
  }

  lemma SameTableInv(s: State, s': State)
    requires Inv(s) && SameTable(s, s')
    ensures Inv(s')
  {
    forall e | 0 <= e < |s'.entries| ensures EntryOk(s', e) {
      assert EntryOk(s, e);
    }
    forall slot | slot in s'.waiter ensures SlotOk(s', slot) {
      assert SlotOk(s, slot);
    }
    forall c | 0 <= c < |s'.callers| ensures CallerOk(s', c) {
      assert CallerOk(s, c);
    }
  }

  lemma ArriveInv(s: State, s': State, call: Caller)
    requires Inv(s) && s' == s.(callers := s.callers + [call]) && call.phase.Started?
    ensures Inv(s')
  {
    forall e | 0 <= e < |s'.entries| ensures EntryOk(s', e) {
      assert EntryOk(s, e);
    }
    forall slot | slot in s'.waiter ensures SlotOk(s', slot) {
      assert SlotOk(s, slot);
    }
    forall c | 0 <= c < |s'.callers| ensures CallerOk(s', c) {
      assert c < |s.callers| ==> CallerOk(s, c);
    }
  }

  /** A call that has not joined may finish, miss or join an entry of its slot; one that waits may take the result. */
  lemma CallMovedInv(s: State, s': State, c: nat, phase: CallPhase)
    requires Inv(s) && CallMoved(s, s', c, phase)
    requires phase.Waiting? || phase.Served? ==> CallerOk(s', c)
    requires forall e :: 0 <= e < |s.entries| && JoinedTo(s.callers[c], e) ==> JoinedTo(s'.callers[c], e)
    ensures Inv(s')
  {
    forall e | 0 <= e < |s'.entries| ensures EntryOk(s', e) {
      assert EntryOk(s, e);
    }
    forall slot | slot in s'.waiter ensures SlotOk(s', slot) {
      assert SlotOk(s, slot);
    }
    forall d | 0 <= d < |s'.callers| ensures CallerOk(s', d) {
      assert CallerOk(s, d);
    }
  }

  lemma FlightMovedInv(s: State, s': State, e: nat, f: FlightEntry)
    requires Inv(s) && FlightMoved(s, s', e, f)
    requires !s.entries[e].phase.Gone? && !f.phase.Gone?
    requires f.result.Some? <==> f.phase.Closed?
    requires s.entries[e].result.Some? ==> f.result == s.entries[e].result
    ensures Inv(s')
  {
    assert EntryOk(s, e);
    forall d | 0 <= d < |s'.entries| ensures EntryOk(s', d) {
      assert EntryOk(s, d);
    }
    forall slot | slot in s'.waiter ensures SlotOk(s', slot) {
      assert SlotOk(s, slot);
    }
    forall c | 0 <= c < |s'.callers| ensures CallerOk(s', c) {
      assert CallerOk(s, c);
    }
  }

  /** A new entry goes under a slot that no live entry has. */
  lemma RegisterInv(s: State, s': State, c: nat, f: FlightEntry)
    requires Inv(s) && c < |s.callers| && s.callers[c].phase.Missed?
    requires SlotOf(f) == CallSlot(s.callers[c]) && SlotOf(f) !in s.waiter
    requires f.starter == c && f.phase.Spawned? && f.result.None?
    requires s'.entries == s.entries + [f]
    requires s'.waiter == s.waiter[SlotOf(f) := |s.entries|]
    requires s'.callers == s.callers[c := s.callers[c].(phase := Waiting(|s.entries|))]
    ensures Inv(s')
  {
    forall e | 0 <= e < |s'.entries| ensures EntryOk(s', e) {
      assert e < |s.entries| ==> EntryOk(s, e);
    }
    forall slot | slot in s'.waiter ensures SlotOk(s', slot) {
      assert slot in s.waiter ==> SlotOk(s, slot);
    }
    forall d | 0 <= d < |s'.callers| ensures CallerOk(s', d) {
      assert CallerOk(s, d);
    }
  }

  /** Removing the slot of a closed entry removes exactly that entry's registration. */
  lemma DeleteInv(s: State, s': State, e: nat)
    requires Inv(s) && e < |s.entries| && s.entries[e].phase.Closed?
    requires s'.entries == s.entries[e := s.entries[e].(phase := Gone)]
    requires s'.waiter == s.waiter - {SlotOf(s.entries[e])} && s'.callers == s.callers
    ensures Inv(s')
    ensures SlotOf(s.entries[e]) in s.waiter && s.waiter[SlotOf(s.entries[e])] == e
  {
    assert EntryOk(s, e);
    forall d | 0 <= d < |s'.entries| ensures EntryOk(s', d) {
      assert EntryOk(s, d);
    }
    forall slot | slot in s'.waiter ensures SlotOk(s', slot) {
      assert SlotOk(s, slot);
    }
    forall c | 0 <= c < |s'.callers| ensures CallerOk(s', c) {
      assert CallerOk(s, c);
    }
  }

  lemma JoinInv(s: State, c: nat)
    requires Inv(s) && Enabled(s, Join(c))
    ensures Inv(DoJoin(s, c))
  {
    var call := s.callers[c];
    var slot := CallSlot(call);
    if slot in s.waiter {
      assert SlotOk(s, slot);
      CallMovedInv(s, DoJoin(s, c), c, Waiting(s.waiter[slot]));
    } else {
      RegisterInv(s, DoJoin(s, c), c, FlightEntry(call.client, call.pair, call.key, c, Spawned, None));
    }
  }

  lemma CallStepInv(s: State, step: Step)
    requires Inv(s) && Enabled(s, step)
    requires step.Look? || step.Wake?
    ensures Inv(Next(s, step))
  {
    var s' := Next(s, step);
    assert CallerOk(s, step.c);
    CallMovedInv(s, s', step.c, s'.callers[step.c].phase);
  }

  lemma FlightStepInv(s: State, step: Step)
    requires Inv(s) && Enabled(s, step)
    requires step.Ask? || step.Fill? || step.Close?
    ensures Inv(Next(s, step))
  {
    var f := s.entries[step.e];
    assert EntryOk(s, step.e);
    match step
    case Ask(e, failure) =>
      var phase := if failure.Some? then Returned(Failed(failure.value)) else Holding(Current(s, f.pair));
      FlightMovedInv(s, DoAsk(s, e, failure), e, f.(phase := phase));
    case Fill(e, up) =>
      FlightMovedInv(s, DoFill(s, e, up), e, f.(phase := Returned(Granted(f.phase.value))));
    case Close(e) =>
      FlightMovedInv(s, DoClose(s, e), e, f.(phase := Closed, result := Some(f.phase.answer)));
  }

  lemma StepInv(s: State, step: Step)
    requires Inv(s) && Enabled(s, step)
    ensures Inv(Next(s, step))
  {
    match step
    case Arrive(client, pair) => ArriveInv(s, Next(s, step), Caller(client, pair, KeyOf(pair), Started));
    case Look(_, _) => CallStepInv(s, step);
    case Wake(_) => CallStepInv(s, step);
    case Join(c) => JoinInv(s, c);
    case Ask(_, _) => FlightStepInv(s, step);
    case Fill(_, _) => FlightStepInv(s, step);
    case Close(_) => FlightStepInv(s, step);
    case Delete(e) => DeleteInv(s, Next(s, step), e);
    case _ => SameTableInv(s, Next(s, step));
  }

  lemma {:induction false} RunInv(s: State, steps: seq<Step>)
    requires Inv(s) && ValidRun(s, steps)
    ensures Inv(Final(s, steps))
    decreases |steps|
  {
    if steps != [] {
      StepInv(s, steps[0]);
      RunInv(Next(s, steps[0]), steps[1..]);
    }
  }

  /** In every reachable state the table lists exactly the live fetches, at most one for each slot. */
  lemma TableIsExactlyTheLiveFetches(steps: seq<Step>)
    requires ValidRun(INIT, steps)
    ensures var s := Final(INIT, steps);
            && (forall e: nat :: Live(s, e) ==> SlotOf(s.entries[e]) in s.waiter && s.waiter[SlotOf(s.entries[e])] == e)
            && (forall slot :: slot in s.waiter ==>
                  Live(s, s.waiter[slot]) && SlotOf(s.entries[s.waiter[slot]]) == slot)
            && (forall d: nat, e: nat ::
                  Live(s, d) && Live(s, e) && SlotOf(s.entries[d]) == SlotOf(s.entries[e]) ==> d == e)
  {
    InitInv();
    RunInv(INIT, steps);
    var s := Final(INIT, steps);
    forall e: nat | Live(s, e) ensures SlotOf(s.entries[e]) in s.waiter && s.waiter[SlotOf(s.entries[e])] == e {
      assert EntryOk(s, e);
    }
    forall slot | slot in s.waiter ensures Live(s, s.waiter[slot]) && SlotOf(s.entries[s.waiter[slot]]) == slot {
      assert SlotOk(s, slot);
    }
  }

  /** The unconditional delete takes out the deleter's own registration and no other, whatever happened since close. */
  lemma DeleteIsOwn(steps: seq<Step>, e: nat)
    requires ValidRun(INIT, steps) && Enabled(Final(INIT, steps), Delete(e))
    ensures var s := Final(INIT, steps);
            var slot := SlotOf(s.entries[e]);
            && slot in s.waiter && s.waiter[slot] == e
            && Next(s, Delete(e)).waiter == s.waiter - {slot}
  {
    InitInv();
    RunInv(INIT, steps);
    assert EntryOk(Final(INIT, steps), e);
  }

  /** A blocked caller waits on an entry that is closed or whose fetch is still on its way to closing it. */
  lemma NoLostCallers(steps: seq<Step>, c: nat)
    requires ValidRun(INIT, steps)
    requires c < |Final(INIT, steps).callers| && Final(INIT, steps).callers[c].phase.Waiting?
    ensures var s := Final(INIT, steps);
            var e := s.callers[c].phase.entry;
            && e < |s.entries|
            && SlotOf(s.entries[e]) == CallSlot(s.callers[c])
            && (Enabled(s, Wake(c)) || (Live(s, e) && !s.entries[e].phase.Closed?
                                        && CallSlot(s.callers[c]) in s.waiter && s.waiter[CallSlot(s.callers[c])] == e))
  {
    InitInv();
    RunInv(INIT, steps);
    var s := Final(INIT, steps);
    assert CallerOk(s, c);
    assert EntryOk(s, s.callers[c].phase.entry);
  }

  /** What never changes between two states of a run: identities, results once written, calls once finished. */
  ghost predicate Later(s: State, s': State) {
    && |s.entries| <= |s'.entries| && |s.callers| <= |s'.callers|
    && (forall e {:trigger EntryLater(s, s', e)} :: 0 <= e < |s.entries| ==> EntryLater(s, s', e))
    && (forall c {:trigger CallerLater(s, s', c)} :: 0 <= c < |s.callers| ==> CallerLater(s, s', c))
  }

  predicate EntryLater(s: State, s': State, e: nat)
    requires e < |s.entries| && e < |s'.entries|
  {
    var f, f' := s.entries[e], s'.entries[e];
    && f' == f.(phase := f'.phase, result := f'.result)
    && (f.result.Some? ==> f'.result == f.result)
  }

  predicate CallerLater(s: State, s': State, c: nat)
    requires c < |s.callers| && c < |s'.callers|
  {
    var d, d' := s.callers[c], s'.callers[c];
    && d' == d.(phase := d'.phase)
    && (d.phase.Hit? || d.phase.Served? ==> d' == d)
    && (d.phase.Waiting? ==> JoinedTo(d', d.phase.entry))
    && (d.phase.Missed? ==> d'.phase.Missed? || d'.phase.Waiting? || d'.phase.Served?)
  }

  lemma FlightMovedLater(s: State, s': State, d: nat, e: nat)
    requires d < |s.entries| && e < |s.entries| && |s'.entries| == |s.entries|
    requires FlightMoved(s, s', d, s'.entries[d]) || s'.entries == s.entries[d := s.entries[d].(phase := Gone)]
    requires s.entries[d].result.Some? ==> s'.entries[d].result == s.entries[d].result
    ensures EntryLater(s, s', e)
  {
  }

  lemma EntryStepLater(s: State, step: Step, e: nat)
    requires Inv(s) && Enabled(s, step) && e < |s.entries|
    ensures |s.entries| <= |Next(s, step).entries| && EntryLater(s, Next(s, step), e)
  {
    if step.Close? {
      assert EntryOk(s, step.e);
    }
    hide Inv, EntryLater;
    match step
    case Ask(d, failure) => FlightMovedLater(s, DoAsk(s, d, failure), d, e);
    case Fill(d, up) => FlightMovedLater(s, DoFill(s, d, up), d, e);
    case Close(d) => FlightMovedLater(s, DoClose(s, d), d, e);
    case Delete(d) => FlightMovedLater(s, DoDelete(s, d), d, e);
    case _ => KeptEntryLater(s, step, e);
  }

  lemma KeptEntryLater(s: State, step: Step, e: nat)
    requires Enabled(s, step) && e < |s.entries|
    requires !step.Ask? && !step.Fill? && !step.Close? && !step.Delete?
    ensures s.entries <= Next(s, step).entries && EntryLater(s, Next(s, step), e)
  {
  }

  lemma CallerStepLater(s: State, step: Step, c: nat)
    requires Enabled(s, step) && c < |s.callers|
    ensures |s.callers| <= |Next(s, step).callers| && CallerLater(s, Next(s, step), c)
  {
    match step
    case Arrive(_, _) => assert Next(s, step).callers[c] == s.callers[c];
    case Look(d, up) => assert CallerLater(s, DoLook(s, d, up), c);
    case Join(d) => assert CallerLater(s, DoJoin(s, d), c);
    case Wake(d) => assert CallerLater(s, DoWake(s, d), c);
    case _ => assert Next(s, step).callers == s.callers;
  }

  lemma StepLater(s: State, step: Step)
    requires Inv(s) && Enabled(s, step)
    ensures Later(s, Next(s, step))
  {
    var s' := Next(s, step);
    assert |s.entries| <= |s'.entries| && |s.callers| <= |s'.callers|;
    forall e | 0 <= e < |s.entries| ensures EntryLater(s, s', e) {
      EntryStepLater(s, step, e);
    }
    forall c | 0 <= c < |s.callers| ensures CallerLater(s, s', c) {
      CallerStepLater(s, step, c);
    }
  }

  lemma {:induction false} RunLater(s: State, steps: seq<Step>)
    requires Inv(s) && ValidRun(s, steps)
    ensures Later(s, Final(s, steps))
    decreases |steps|
  {
    if steps != [] {
      var s1, s2 := Next(s, steps[0]), Final(s, steps);
      StepInv(s, steps[0]);
      StepLater(s, steps[0]);
      RunLater(s1, steps[1..]);
      forall e | 0 <= e < |s.entries| ensures EntryLater(s, s2, e) {
        assert EntryLater(s, s1, e) && EntryLater(s1, s2, e);
      }
      forall c | 0 <= c < |s.callers| ensures CallerLater(s, s2, c) {
        assert CallerLater(s, s1, c) && CallerLater(s1, s2, c);
      }
    }
  }

  /** All callers that share an entry get the identical result or error, at whatever times they wake up. */
  lemma SharersGetTheSame(steps: seq<Step>, c: nat, d: nat)
    requires ValidRun(INIT, steps)
    requires c < |Final(INIT, steps).callers| && d < |Final(INIT, steps).callers|
    requires var s := Final(INIT, steps);
             && s.callers[c].phase.Served? && s.callers[d].phase.Served?
             && s.callers[c].phase.entry == s.callers[d].phase.entry
    ensures Final(INIT, steps).callers[c].phase.answer == Final(INIT, steps).callers[d].phase.answer
  {
    InitInv();
    RunInv(INIT, steps);
    assert CallerOk(Final(INIT, steps), c) && CallerOk(Final(INIT, steps), d);
  }

  /** A waiting caller that is later served gets the result its entry was closed with, however long it sleeps. */
  lemma ResultWrittenOnce(s: State, steps: seq<Step>, c: nat)
    requires Inv(s) && ValidRun(s, steps) && c < |s.callers| && Enabled(s, Wake(c))
    ensures var s' := Final(s, steps);
            var e, r := s.callers[c].phase.entry, s.entries[s.callers[c].phase.entry].result;
            && c < |s'.callers| && e < |s'.entries| && s'.entries[e].result == r
            && s'.callers[c].phase in {Waiting(e), Served(e, r.value)}
  {
    RunLater(s, steps);
    RunInv(s, steps);
    var s' := Final(s, steps);
    assert CallerLater(s, s', c) && CallerOk(s', c);
    assert EntryLater(s, s', s.callers[c].phase.entry);
  }
}
