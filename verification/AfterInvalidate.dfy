/**
 * What callers are answered after an Invalidate. A call that comes later can still be coalesced with a fetch that read
 * Helios before it, and get that fetch's answer; this says exactly when none can get an outdated one.
 */
module AfterInvalidate {
  import opened Basics
  import opened Keys
  import opened CacheSpec
  import opened Redis
  import opened Protocol
  import opened Coalescer
  import opened Coherence

  /** Whatever array the fetch holds, is about to hand over or has handed over is this one. */
  predicate CarriesOnly(f: FlightEntry, v: seq<Permission>) {
    && (f.phase.Holding? ==> f.phase.value == v)
    && (f.phase.Returned? && f.phase.answer.Granted? ==> f.phase.answer.perms == v)
    && (f.result.Some? && f.result.value.Granted? ==> f.result.value.perms == v)
  }

  /** Every live entry of the pair, held, returned or closed, carries nothing but Helios's current answer. */
  ghost predicate LiveAreCurrent(s: State, p: Pair) {
    forall e: nat {:trigger Live(s, e)} ::
      Live(s, e) && s.entries[e].pair == p ==> CarriesOnly(s.entries[e], Current(s, p))
  }

  /** The call had not joined an entry, or not even arrived, in the first state. */
  predicate NotYetJoined(start: State, c: nat) {
    c < |start.callers| ==> start.callers[c].phase.Started? || start.callers[c].phase.Missed?
  }

  predicate Joinable(start: State, e: nat) {
    e < |start.entries| ==> !start.entries[e].phase.Gone?
  }

  /** The call is of another pair, or has not been answered with any other array. */
  predicate AnsweredWith(call: Caller, p: Pair, v: seq<Permission>) {
    call.pair == p ==>
      && (call.phase.Hit? ==> call.phase.perms == v)
      && (call.phase.Served? && call.phase.answer.Granted? ==> call.phase.answer.perms == v)
  }

  /** An entry that calls can still join carries only v; the others are gone for good. */
  predicate EntryFresh(start: State, s: State, e: nat, p: Pair, v: seq<Permission>)
    requires e < |s.entries|
  {
    if Joinable(start, e) then s.entries[e].pair == p ==> CarriesOnly(s.entries[e], v)
    else s.entries[e].phase.Gone?
  }

  predicate CallFresh(start: State, s: State, c: nat, p: Pair, v: seq<Permission>)
    requires c < |s.callers|
  {
    NotYetJoined(start, c) ==>
      && AnsweredWith(s.callers[c], p, v)
      && (s.callers[c].phase.Waiting? ==> Joinable(start, s.callers[c].phase.entry))
  }

  ghost predicate FreshInv(start: State, s: State, p: Pair, v: seq<Permission>) {
    && |start.entries| <= |s.entries| && Current(s, p) == v
    && (forall e {:trigger EntryFresh(start, s, e, p, v)} :: 0 <= e < |s.entries| ==> EntryFresh(start, s, e, p, v))
    && (forall c {:trigger CallFresh(start, s, c, p, v)} :: 0 <= c < |s.callers| ==> CallFresh(start, s, c, p, v))
  }

  /** One fetch moves on to carry at most what it carried, or Helios's current answer. */
  lemma FlightEntryFresh(start: State, s: State, s': State, d: nat, e: nat, p: Pair, v: seq<Permission>)
    requires d < |s.entries| && e < |s.entries| && EntryFresh(start, s, e, p, v)
    requires |s'.entries| == |s.entries| && s'.entries == s.entries[d := s'.entries[d]]
    requires s'.entries[d].pair == s.entries[d].pair && !s.entries[d].phase.Gone?
    requires s.entries[d].pair == p && CarriesOnly(s.entries[d], v) ==> CarriesOnly(s'.entries[d], v)
    ensures EntryFresh(start, s', e, p, v)
  {
  }

  lemma FlightStepFresh(start: State, s: State, step: Step, e: nat, p: Pair, v: seq<Permission>)
    requires FreshInv(start, s, p, v) && Inv(s) && Enabled(s, step) && e < |s.entries|
    requires step.Ask? || step.Fill? || step.Close? || step.Delete?
    ensures |Next(s, step).entries| == |s.entries| && EntryFresh(start, Next(s, step), e, p, v)
  {
    assert EntryFresh(start, s, e, p, v) && EntryOk(s, step.e);
    hide EntryFresh, FreshInv, Inv;
    match step
    case Ask(d, failure) => FlightEntryFresh(start, s, DoAsk(s, d, failure), d, e, p, v);
    case Fill(d, up) => FlightEntryFresh(start, s, DoFill(s, d, up), d, e, p, v);
    case Close(d) => FlightEntryFresh(start, s, DoClose(s, d), d, e, p, v);
    case Delete(d) => FlightEntryFresh(start, s, DoDelete(s, d), d, e, p, v);
  }

  lemma JoinEntryFresh(start: State, s: State, c: nat, e: nat, p: Pair, v: seq<Permission>)
    requires FreshInv(start, s, p, v) && Enabled(s, Join(c)) && e < |DoJoin(s, c).entries|
    ensures |s.entries| <= |DoJoin(s, c).entries| && EntryFresh(start, DoJoin(s, c), e, p, v)
  {
    assert s.entries <= DoJoin(s, c).entries;
    if e < |s.entries| {
      assert EntryFresh(start, s, e, p, v);
    }
  }

  lemma StepEntryFresh(start: State, s: State, step: Step, e: nat, p: Pair, v: seq<Permission>)
    requires FreshInv(start, s, p, v) && Inv(s) && Enabled(s, step) && e < |Next(s, step).entries|
    ensures |s.entries| <= |Next(s, step).entries| && EntryFresh(start, Next(s, step), e, p, v)
  {
    if step.Join? {
      JoinEntryFresh(start, s, step.c, e, p, v);
    } else if step.Ask? || step.Fill? || step.Close? || step.Delete? {
      assert |Next(s, step).entries| == |s.entries|;
      FlightStepFresh(start, s, step, e, p, v);
    } else {
      assert Next(s, step).entries == s.entries;
      assert EntryFresh(start, s, e, p, v);
    }
  }

  /** A caller reads the cache: what it hits for the pair is current. */
  lemma LookFresh(start: State, s: State, c: nat, up: bool, p: Pair, v: seq<Permission>, pairs: set<Pair>)
    requires FreshInv(start, s, p, v) && PairsOk(s, pairs) && Coherent(s, p) && Enabled(s, Look(c, up))
    ensures CallFresh(start, DoLook(s, c, up), c, p, v)
  {
    assert CallFresh(start, s, c, p, v) && CallPairOk(s, c, pairs);
  }

  /** A caller joins: what is registered is live, and so was not gone at the start. */
  lemma JoinFresh(start: State, s: State, c: nat, p: Pair, v: seq<Permission>)
    requires FreshInv(start, s, p, v) && Inv(s) && Enabled(s, Join(c))
    ensures CallFresh(start, DoJoin(s, c), c, p, v)
  {
    var slot := CallSlot(s.callers[c]);
    if slot in s.waiter {
      assert SlotOk(s, slot) && EntryFresh(start, s, s.waiter[slot], p, v);
    }
  }

  /** A caller wakes: its entry is of its own pair, and carries only v. */
  lemma WakeFresh(start: State, s: State, c: nat, p: Pair, v: seq<Permission>, pairs: set<Pair>)
    requires FreshInv(start, s, p, v) && Inv(s) && PairsOk(s, pairs) && InjectiveOn(pairs) && Enabled(s, Wake(c))
    ensures CallFresh(start, DoWake(s, c), c, p, v)
  {
    var e := s.callers[c].phase.entry;
    assert CallFresh(start, s, c, p, v) && CallerOk(s, c) && EntryFresh(start, s, e, p, v);
    assert CallPairOk(s, c, pairs) && FlightPairOk(s, e, pairs);
  }

  lemma StepCallFresh(start: State, s: State, step: Step, c: nat, p: Pair, v: seq<Permission>, pairs: set<Pair>)
    requires FreshInv(start, s, p, v) && Inv(s) && PairsOk(s, pairs) && InjectiveOn(pairs) && Coherent(s, p)
    requires Enabled(s, step) && c < |Next(s, step).callers|
    ensures CallFresh(start, Next(s, step), c, p, v)
  {
    if c < |s.callers| {
      assert CallFresh(start, s, c, p, v);
    }
    match step
    case Look(d, up) => LookFresh(start, s, d, up, p, v, pairs);
    case Join(d) => JoinFresh(start, s, d, p, v);
    case Wake(d) => WakeFresh(start, s, d, p, v, pairs);
    case _ =>
  }

  lemma StepFresh(start: State, s: State, step: Step, p: Pair, v: seq<Permission>, pairs: set<Pair>)
    requires FreshInv(start, s, p, v) && Inv(s) && PairsOk(s, pairs) && InjectiveOn(pairs) && Coherent(s, p)
    requires Enabled(s, step) && HandsOff(step, p)
    ensures FreshInv(start, Next(s, step), p, v)
  {
    var s' := Next(s, step);
    assert |s.entries| <= |s'.entries| && Current(s', p) == v;
    forall e | 0 <= e < |s'.entries| ensures EntryFresh(start, s', e, p, v) {
      StepEntryFresh(start, s, step, e, p, v);
    }
    forall c | 0 <= c < |s'.callers| ensures CallFresh(start, s', c, p, v) {
      StepCallFresh(start, s, step, c, p, v, pairs);
    }
  }

  lemma {:induction false} RunFresh(start: State, s: State, steps: seq<Step>, p: Pair, v: seq<Permission>,
                                    pairs: set<Pair>)
    requires FreshInv(start, s, p, v) && Inv(s) && PairsOk(s, pairs) && InjectiveOn(pairs) && p in pairs
    requires Settled(s, p) && Continuation(s, steps, p, pairs)
    ensures FreshInv(start, Final(s, steps), p, v)
    decreases |steps|
  {
    if steps != [] {
      var s', rest := Next(s, steps[0]), steps[1..];
      assert Within(steps[0], pairs) && HandsOff(steps[0], p);
      StepFresh(start, s, steps[0], p, v, pairs);
      StepInv(s, steps[0]);
      HandsOffSettled(s, steps[0], p, pairs);
      StepPairs(s, steps[0], pairs);
      ContinuationTail(s, steps, p, pairs);
      RunFresh(start, s', rest, p, v, pairs);
    }
  }

  /** Calls of the pair that join or arrive after this state are answered with its current array, if with any. */
  ghost predicate LaterAnswersCurrent(s: State, end: State, p: Pair) {
    forall c: nat {:trigger end.callers[c]} ::
      c < |end.callers| && NotYetJoined(s, c) ==> AnsweredWith(end.callers[c], p, Current(s, p))
  }

  lemma LaterAnswersStayCurrent(s: State, steps: seq<Step>, p: Pair, pairs: set<Pair>)
    requires Inv(s) && PairsOk(s, pairs) && InjectiveOn(pairs) && p in pairs && LiveAreCurrent(s, p)
    requires Continuation(Next(s, Remove(KeyOf(p))), steps, p, pairs)
    ensures LaterAnswersCurrent(s, Final(Next(s, Remove(KeyOf(p))), steps), p)
  {
    var s', v := Next(s, Remove(KeyOf(p))), Current(s, p);
    StepInv(s, Remove(KeyOf(p)));
    RemoveKeepsPairs(s, KeyOf(p), pairs);
    assert HeldAreCurrent(s, p) by {
      forall e: nat | HoldsFor(s, e, p) ensures s.entries[e].phase.value == v {
        assert Live(s, e);
      }
    }
    RemovedIsSettled(s, p);
    forall e | 0 <= e < |s'.entries| ensures EntryFresh(s, s', e, p, v) {
      assert Live(s, e) <==> Joinable(s, e);
    }
    forall c | 0 <= c < |s'.callers| ensures CallFresh(s, s', c, p, v) {
    }
    RunFresh(s, s', steps, p, v, pairs);
    var end := Final(s', steps);
    forall c: nat | c < |end.callers| && NotYetJoined(s, c) ensures AnsweredWith(end.callers[c], p, v) {
      assert CallFresh(s, end, c, p, v);
    }
  }

  /** The steps that bring an entry with this array from where it stands to handing it to a waiting call. */
  function HandOver(f: FlightEntry, e: nat, c: nat): seq<Step> {
    match f.phase
    case Holding(_) => [Fill(e, true), Close(e), Wake(c)]
    case Returned(_) => [Close(e), Wake(c)]
    case _ => [Wake(c)]
  }

  /** The array a live entry carries, if any. */
  function Carried(f: FlightEntry): Option<seq<Permission>> {
    match f.phase
    case Holding(x) => Some(x)
    case Returned(Granted(x)) => Some(x)
    case Closed => if f.result.Some? && f.result.value.Granted? then Some(f.result.value.perms) else None
    case _ => None
  }

  lemma ClosedHandsOver(s: State, e: nat, c: nat)
    requires c < |s.callers| && e < |s.entries| && s.callers[c].phase == Waiting(e)
    requires s.entries[e].phase.Closed? && Carried(s.entries[e]).Some?
    ensures ValidRun(s, [Wake(c)]) && |Final(s, [Wake(c)]).callers| == |s.callers|
    ensures Final(s, [Wake(c)]).callers[c] ==
            s.callers[c].(phase := Served(e, Granted(Carried(s.entries[e]).value)))
  {
    assert [Wake(c)] == [Wake(c)] + [];
    RunCons(s, Wake(c), []);
  }

  lemma ReturnedHandsOver(s: State, e: nat, c: nat)
    requires c < |s.callers| && e < |s.entries| && s.callers[c].phase == Waiting(e)
    requires s.entries[e].phase.Returned? && Carried(s.entries[e]).Some?
    ensures var steps := [Close(e), Wake(c)];
            && ValidRun(s, steps) && |Final(s, steps).callers| == |s.callers|
            && Final(s, steps).callers[c] == s.callers[c].(phase := Served(e, Granted(Carried(s.entries[e]).value)))
  {
    ClosedHandsOver(DoClose(s, e), e, c);
    RunCons(s, Close(e), [Wake(c)]);
    assert [Close(e), Wake(c)] == [Close(e)] + [Wake(c)];
  }

  lemma HoldingHandsOver(s: State, e: nat, c: nat)
    requires c < |s.callers| && e < |s.entries| && s.callers[c].phase == Waiting(e)
    requires s.entries[e].phase.Holding?
    ensures var steps := [Fill(e, true), Close(e), Wake(c)];
            && ValidRun(s, steps) && |Final(s, steps).callers| == |s.callers|
            && Final(s, steps).callers[c] == s.callers[c].(phase := Served(e, Granted(s.entries[e].phase.value)))
  {
    ReturnedHandsOver(DoFill(s, e, true), e, c);
    RunCons(s, Fill(e, true), [Close(e), Wake(c)]);
    assert [Fill(e, true), Close(e), Wake(c)] == [Fill(e, true)] + [Close(e), Wake(c)];
  }

  lemma HandsOver(s: State, e: nat, c: nat)
    requires c < |s.callers| && e < |s.entries| && s.callers[c].phase == Waiting(e) && Carried(s.entries[e]).Some?
    ensures var steps := HandOver(s.entries[e], e, c);
            && ValidRun(s, steps) && |Final(s, steps).callers| == |s.callers|
            && Final(s, steps).callers[c] == s.callers[c].(phase := Served(e, Granted(Carried(s.entries[e]).value)))
  {
    match s.entries[e].phase
    case Holding(_) => HoldingHandsOver(s, e, c);
    case Returned(_) => ReturnedHandsOver(s, e, c);
    case _ => ClosedHandsOver(s, e, c);
  }

  /** A new call on a free key joins the live entry of its slot. */
  lemma ArriveAndJoin(s: State, p: Pair, e: nat)
    requires Inv(s) && Live(s, e) && s.entries[e].pair == p && s.entries[e].key == KeyOf(p) && KeyOf(p) !in s.cache
    ensures var steps := [Arrive(s.entries[e].client, p), Look(|s.callers|, true), Join(|s.callers|)];
            && ValidRun(s, steps)
            && Final(s, steps) ==
               s.(callers := s.callers + [Caller(s.entries[e].client, p, KeyOf(p), Waiting(e))])
  {
    var n, client := |s.callers|, s.entries[e].client;
    assert EntryOk(s, e);
    var s1 := Next(s, Arrive(client, p));
    var s2 := DoLook(s1, n, true);
    var s3 := DoJoin(s2, n);
    RunCons(s2, Join(n), []);
    RunCons(s1, Look(n, true), [Join(n)] + []);
    RunCons(s, Arrive(client, p), [Look(n, true)] + ([Join(n)] + []));
    assert [Arrive(client, p), Look(n, true), Join(n)] ==
           [Arrive(client, p)] + ([Look(n, true)] + ([Join(n)] + []));
    assert s3.callers == s.callers + [Caller(client, p, KeyOf(p), Waiting(e))];
  }

  /** The new call's steps and the entry's remaining ones touch neither the pair's cache entry nor Helios. */
  lemma HandOverIsContinuation(s: State, f: FlightEntry, e: nat, p: Pair, pairs: set<Pair>)
    requires p in pairs
    requires var steps := [Arrive(f.client, p), Look(|s.callers|, true), Join(|s.callers|)];
             ValidRun(s, steps + HandOver(f, e, |s.callers|))
    ensures var steps := [Arrive(f.client, p), Look(|s.callers|, true), Join(|s.callers|)];
            Continuation(s, steps + HandOver(f, e, |s.callers|), p, pairs)
  {
    hide ValidRun;
    var rest := HandOver(f, e, |s.callers|);
    var steps := [Arrive(f.client, p), Look(|s.callers|, true), Join(|s.callers|)] + rest;
    forall i | 0 <= i < |steps| ensures Within(steps[i], pairs) && HandsOff(steps[i], p) {
      assert i < 3 || steps[i] == rest[i - 3];
    }
  }

  /** An outdated live entry serves a call that arrives after the Invalidate. */
  lemma OutdatedIsServed(s: State, p: Pair, pairs: set<Pair>) returns (steps: seq<Step>)
    requires Inv(s) && PairsOk(s, pairs) && p in pairs && !LiveAreCurrent(s, p)
    ensures var s' := Next(s, Remove(KeyOf(p)));
            Continuation(s', steps, p, pairs) && !LaterAnswersCurrent(s, Final(s', steps), p)
  {
    var s' := Next(s, Remove(KeyOf(p)));
    var e: nat :| Live(s, e) && s.entries[e].pair == p && !CarriesOnly(s.entries[e], Current(s, p));
    assert EntryOk(s, e) && FlightPairOk(s, e, pairs);
    StepInv(s, Remove(KeyOf(p)));
    var n, f := |s.callers|, s.entries[e];
    ArriveAndJoin(s', p, e);
    var join := [Arrive(f.client, p), Look(n, true), Join(n)];
    steps := LateCallIsServed(s', p, e, n, join, HandOver(f, e, n));
    HandOverIsContinuation(s', f, e, p, pairs);
    var end := Final(s', steps);
    assert NotYetJoined(s, n) && !AnsweredWith(end.callers[n], p, Current(s, p));
  }

  lemma LateCallIsServed(s: State, p: Pair, e: nat, n: nat, join: seq<Step>, rest: seq<Step>)
    returns (steps: seq<Step>)
    requires e < |s.entries| && n == |s.callers| && Carried(s.entries[e]).Some?
    requires ValidRun(s, join) && rest == HandOver(s.entries[e], e, n)
    requires Final(s, join) == s.(callers := s.callers + [Caller(s.entries[e].client, p, KeyOf(p), Waiting(e))])
    ensures steps == join + rest && ValidRun(s, steps)
    ensures var end := Final(s, steps);
            && n < |end.callers| && end.callers[n].pair == p
            && end.callers[n].phase == Served(e, Granted(Carried(s.entries[e]).value))
  {
    HandsOver(Final(s, join), e, n);
    RunConcat(s, join, rest);
    steps := join + rest;
  }

  /**
   * After Invalidate, every continuation that leaves the pair alone answers its later calls with the current array, if
   * and only if every live entry of the pair carries nothing else.
   */
  lemma InvalidateAnswersIff(s: State, p: Pair, pairs: set<Pair>)
    requires Inv(s) && PairsOk(s, pairs) && InjectiveOn(pairs) && p in pairs
    ensures var s' := Next(s, Remove(KeyOf(p)));
            ((forall steps :: Continuation(s', steps, p, pairs) ==> LaterAnswersCurrent(s, Final(s', steps), p))
             <==> LiveAreCurrent(s, p))
  {
    var s' := Next(s, Remove(KeyOf(p)));
    if LiveAreCurrent(s, p) {
      forall steps | Continuation(s', steps, p, pairs) ensures LaterAnswersCurrent(s, Final(s', steps), p) {
        LaterAnswersStayCurrent(s, steps, p, pairs);
      }
    } else {
      var steps := OutdatedIsServed(s, p, pairs);
    }
  }

  /**
   * The two conditions differ, reachably: everyone follows the protocol, no fetch holds an outdated answer any more,
   * and still a call that arrives after the Invalidate is answered with one.
   */
  lemma LateCallGetsThePast(p: Pair) returns (written: seq<Step>, steps: seq<Step>)
    ensures ValidRun(INIT, written) && DisciplinedRun(INIT, written) && Final(INIT, written).pending == map[]
    ensures var s := Final(INIT, written);
            && HeldAreCurrent(s, p)
            && Continuation(Next(s, Remove(KeyOf(p))), steps, p, {p})
            && !LaterAnswersCurrent(s, Final(Next(s, Remove(KeyOf(p))), steps), p)
  {
    var now := Active(Some(["granted"]));
    var before := SlowFetch(p);
    var fill, change, write := Fill(0, true), RoleChange(p, now), Write(p, Some(["granted"]));
    RunSnoc(INIT, before, fill);
    DisciplinedSnoc(INIT, before, fill);
    RunSnoc(INIT, before + [fill], change);
    DisciplinedSnoc(INIT, before + [fill], change);
    RunSnoc(INIT, before + [fill] + [change], write);
    DisciplinedSnoc(INIT, before + [fill] + [change], write);
    written := before + [fill] + [change] + [write];
    var s := Final(INIT, written);
    assert s.entries == [FlightEntry(0, p, KeyOf(p), 0, Returned(Granted([])), None)];
    assert s.pending == map[];
    InitInv();
    RunInv(INIT, written);
    assert s.callers == [Caller(0, p, KeyOf(p), Waiting(0))];
    assert PairsOk(s, {p});
    assert Live(s, 0) && !CarriesOnly(s.entries[0], Current(s, p));
    steps := OutdatedIsServed(s, p, {p});
  }
}
