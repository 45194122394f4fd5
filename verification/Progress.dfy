/** If fetches return, calls return: a measure that every step of the client lowers, and no state without a way on. */
module Progress {
  import opened Basics
  import opened Keys
  import opened CacheSpec
  import opened Redis
  import opened Protocol
  import opened Coalescer

  function CallWeight(p: CallPhase): nat {
    match p
    case Started => 7
    case Missed => 6
    case Waiting(_) => 1
    case _ => 0
  }

  function FlightWeight(p: Phase): nat {
    match p
    case Spawned => 4
    case Holding(_) => 3
    case Returned(_) => 2
    case Closed => 1
    case Gone => 0
  }

  function CallsLeft(cs: seq<Caller>): nat {
    if cs == [] then 0 else CallsLeft(cs[..|cs| - 1]) + CallWeight(cs[|cs| - 1].phase)
  }

  function FlightsLeft(es: seq<FlightEntry>): nat {
    if es == [] then 0 else FlightsLeft(es[..|es| - 1]) + FlightWeight(es[|es| - 1].phase)
  }

  function Measure(s: State): nat {
    CallsLeft(s.callers) + FlightsLeft(s.entries)
  }

  lemma {:induction false} CallsLeftUpdate(cs: seq<Caller>, i: nat, c: Caller)
    requires i < |cs|
    ensures CallsLeft(cs[i := c]) == CallsLeft(cs) - CallWeight(cs[i].phase) + CallWeight(c.phase)
  {
    var n := |cs| - 1;
    if i < n {
      assert cs[i := c][..n] == cs[..n][i := c];
      CallsLeftUpdate(cs[..n], i, c);
    } else {
      assert cs[i := c][..n] == cs[..n];
    }
  }

  lemma {:induction false} FlightsLeftUpdate(es: seq<FlightEntry>, i: nat, f: FlightEntry)
    requires i < |es|
    ensures FlightsLeft(es[i := f]) == FlightsLeft(es) - FlightWeight(es[i].phase) + FlightWeight(f.phase)
  {
    var n := |es| - 1;
    if i < n {
      assert es[i := f][..n] == es[..n][i := f];
      FlightsLeftUpdate(es[..n], i, f);
    } else {
      assert es[i := f][..n] == es[..n];
    }
  }

  lemma FlightsLeftAppend(es: seq<FlightEntry>, f: FlightEntry)
    ensures FlightsLeft(es + [f]) == FlightsLeft(es) + FlightWeight(f.phase)
  {
    assert (es + [f])[..|es|] == es;
  }

  /** The steps the clients themselves take, as opposed to arrivals, Helios's writes and removals. */
  predicate Own(step: Step) {
    step.Look? || step.Join? || step.Ask? || step.Fill? || step.Close? || step.Delete? || step.Wake?
  }

  lemma CallStepLowers(s: State, step: Step)
    requires Enabled(s, step) && (step.Look? || step.Wake?)
    ensures Measure(Next(s, step)) < Measure(s)
  {
    var s' := Next(s, step);
    CallsLeftUpdate(s.callers, step.c, s'.callers[step.c]);
  }

  lemma FlightLowers(s: State, s': State, e: nat, f: FlightEntry)
    requires e < |s.entries| && s'.entries == s.entries[e := f] && s'.callers == s.callers
    requires FlightWeight(f.phase) < FlightWeight(s.entries[e].phase)
    ensures Measure(s') < Measure(s)
  {
    FlightsLeftUpdate(s.entries, e, f);
  }

  lemma FlightStepLowers(s: State, step: Step)
    requires Enabled(s, step) && (step.Ask? || step.Fill? || step.Close? || step.Delete?)
    ensures Measure(Next(s, step)) < Measure(s)
  {
    match step
    case Ask(e, failure) => FlightLowers(s, DoAsk(s, e, failure), e, DoAsk(s, e, failure).entries[e]);
    case Fill(e, up) => FlightLowers(s, DoFill(s, e, up), e, DoFill(s, e, up).entries[e]);
    case Close(e) => FlightLowers(s, DoClose(s, e), e, DoClose(s, e).entries[e]);
    case Delete(e) => FlightLowers(s, DoDelete(s, e), e, DoDelete(s, e).entries[e]);
  }

  /** The joining call is lighter by five, and the flight it may start weighs four. */
  lemma JoinLowers(s: State, c: nat)
    requires Enabled(s, Join(c))
    ensures Measure(DoJoin(s, c)) < Measure(s)
  {
    hide CallsLeft, FlightsLeft;
    var s' := DoJoin(s, c);
    var call := s'.callers[c];
    assert call.phase.Waiting? && s'.callers == s.callers[c := call];
    CallsLeftUpdate(s.callers, c, call);
    if CallSlot(s.callers[c]) !in s.waiter {
      var f := s'.entries[|s.entries|];
      assert s'.entries == s.entries + [f] && f.phase.Spawned?;
      FlightsLeftAppend(s.entries, f);
    }
  }

  lemma StepLowers(s: State, step: Step)
    requires Enabled(s, step) && !step.Arrive?
    ensures Measure(Next(s, step)) <= Measure(s)
    ensures Own(step) ==> Measure(Next(s, step)) < Measure(s)
  {
    if step.Join? {
      JoinLowers(s, step.c);
    } else if step.Look? || step.Wake? {
      CallStepLowers(s, step);
    } else if Own(step) {
      FlightStepLowers(s, step);
    }
  }

  function OwnSteps(steps: seq<Step>): nat {
    if steps == [] then 0 else (if Own(steps[0]) then 1 else 0) + OwnSteps(steps[1..])
  }

  predicate NoArrivals(steps: seq<Step>) {
    forall i :: 0 <= i < |steps| ==> !steps[i].Arrive?
  }

  /** However writers and removals interleave, the clients take at most Measure(s) steps. */
  lemma {:induction false} RunIsBounded(s: State, steps: seq<Step>)
    requires ValidRun(s, steps) && NoArrivals(steps)
    ensures OwnSteps(steps) + Measure(Final(s, steps)) <= Measure(s)
    decreases |steps|
  {
    if steps != [] {
      assert !steps[0].Arrive?;
      StepLowers(s, steps[0]);
      RunIsBounded(Next(s, steps[0]), steps[1..]);
    }
  }

  predicate Finished(c: Caller) {
    c.phase.Hit? || c.phase.Served?
  }

  predicate AllDone(s: State) {
    && (forall c :: 0 <= c < |s.callers| ==> Finished(s.callers[c]))
    && (forall e :: 0 <= e < |s.entries| ==> s.entries[e].phase.Gone?)
    && s.waiter == map[]
  }

  /** A step for the goroutine of an entry that is not gone. */
  function FlightMove(f: FlightEntry, e: nat): Step {
    match f.phase
    case Spawned => Ask(e, None)
    case Holding(_) => Fill(e, true)
    case Returned(_) => Close(e)
    case _ => Delete(e)
  }

  lemma NoFlightsNoTable(s: State)
    requires Inv(s) && forall e :: 0 <= e < |s.entries| ==> s.entries[e].phase.Gone?
    ensures s.waiter == map[]
  {
    forall slot ensures slot !in s.waiter {
      if slot in s.waiter && SlotOk(s, slot) {
        assert false;
      }
    }
  }

  /** Deadlock freedom: unless everything is done, some client step is enabled. */
  lemma SomeMove(s: State) returns (step: Step)
    requires Inv(s) && !AllDone(s)
    ensures Own(step) && Enabled(s, step)
  {
    if e: nat :| e < |s.entries| && !s.entries[e].phase.Gone? {
      step := FlightMove(s.entries[e], e);
    } else {
      NoFlightsNoTable(s);
      var c: nat :| c < |s.callers| && !Finished(s.callers[c]);
      assert CallerOk(s, c);
      if s.callers[c].phase.Started? {
        step := Look(c, true);
      } else if s.callers[c].phase.Missed? {
        step := Join(c);
      } else {
        assert EntryOk(s, s.callers[c].phase.entry);
        step := Wake(c);
      }
    }
  }

  /** Nothing is left to do exactly when no client step is enabled. */
  lemma StuckIffDone(s: State)
    requires Inv(s)
    ensures AllDone(s) <==> forall step :: Own(step) ==> !Enabled(s, step)
  {
    if !AllDone(s) {
      var step := SomeMove(s);
    }
  }

  /** From every reachable state the clients can bring every call to its return, leaving no entry behind. */
  lemma {:induction false} CanFinish(s: State) returns (steps: seq<Step>)
    requires Inv(s)
    ensures ValidRun(s, steps) && AllDone(Final(s, steps))
    ensures |steps| <= Measure(s) && forall i :: 0 <= i < |steps| ==> Own(steps[i])
    decreases Measure(s)
  {
    if AllDone(s) {
      steps := [];
    } else {
      var step := SomeMove(s);
      StepInv(s, step);
      StepLowers(s, step);
      var rest := CanFinish(Next(s, step));
      steps := [step] + rest;
      assert steps[1..] == rest;
    }
  }

  /** A run that the clients cannot extend has returned every call; one they have extended enough is such a run. */
  lemma EveryCallReturns(s: State, steps: seq<Step>)
    requires Inv(s) && ValidRun(s, steps) && NoArrivals(steps)
    requires OwnSteps(steps) >= Measure(s) || forall step :: Own(step) ==> !Enabled(Final(s, steps), step)
    ensures AllDone(Final(s, steps))
  {
    RunInv(s, steps);
    RunIsBounded(s, steps);
    var s' := Final(s, steps);
    if !AllDone(s') {
      var step := SomeMove(s');
      StepLowers(s', step);
    }
  }

  /** How often the call returns along a run. */
  function Returns(s: State, steps: seq<Step>, c: nat): nat
    requires ValidRun(s, steps)
    decreases |steps|
  {
    if steps == [] then 0
    else
      var s' := Next(s, steps[0]);
      var now := c < |s'.callers| && Finished(s'.callers[c]) && !(c < |s.callers| && Finished(s.callers[c]));
      (if now then 1 else 0) + Returns(s', steps[1..], c)
  }

  lemma {:induction false} ReturnsAtMostOnce(s: State, steps: seq<Step>, c: nat)
    requires Inv(s) && ValidRun(s, steps)
    ensures Returns(s, steps, c) ==
            (if c < |Final(s, steps).callers| && Finished(Final(s, steps).callers[c]) then 1 else 0)
            - (if c < |s.callers| && Finished(s.callers[c]) then 1 else 0)
    decreases |steps|
  {
    if steps != [] {
      var s' := Next(s, steps[0]);
      StepInv(s, steps[0]);
      StepLater(s, steps[0]);
      if c < |s.callers| {
        assert CallerLater(s, s', c);
      }
      ReturnsAtMostOnce(s', steps[1..], c);
    }
  }

  /** Every caller of a finite set returns exactly once in a run that leaves no client step enabled. */
  lemma EveryCallReturnsOnce(s: State, steps: seq<Step>, c: nat)
    requires Inv(s) && ValidRun(s, steps) && NoArrivals(steps)
    requires forall step :: Own(step) ==> !Enabled(Final(s, steps), step)
    requires c < |s.callers| && !Finished(s.callers[c])
    ensures Returns(s, steps, c) == 1
  {
    EveryCallReturns(s, steps);
    RunInv(s, steps);
    RunLater(s, steps);
    ReturnsAtMostOnce(s, steps, c);
  }
}
