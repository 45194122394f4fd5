/**
 * The cache-first read path as a transition system: any number of callers, clients and keys, interleaved with
 * writers, removals and expiry. Each step is one atomic action of the code: a cache command, a locked section
 * over the in-flight table, the Helios request, the publication of a result, or a wake-up.
 */
module Protocol {
  import opened Basics
  import opened Keys
  import opened CacheSpec
  import opened Redis

  /** What Helios says about a pair. */
  datatype Resolution = Active(perms: Slice) | Inactive | NotAMember

  /** The array a resolution stands for: anything but an active one, and a nil list, count as no permissions. */
  function Normalise(r: Resolution): seq<Permission> {
    if r.Active? then Elements(r.perms) else []
  }

  /** The pair of results that a fetch hands to its callers. */
  datatype Answer = Granted(perms: seq<Permission>) | Failed(code: int)

  /** Where the fetch goroutine of an entry stands. */
  datatype Phase =
    | Spawned
    | Holding(value: seq<Permission>)
    | Returned(answer: Answer)
    | Closed
    | Gone

  /** One entry of the in-flight table, with the pair its fetch asks about and the caller that started it. */
  datatype FlightEntry = FlightEntry(
    client: nat, pair: Pair, key: string, starter: nat, phase: Phase, result: Option<Answer>)

  /** Where a call of fetchAndCache stands. */
  datatype CallPhase =
    | Started
    | Missed
    | Waiting(entry: nat)
    | Hit(perms: seq<Permission>)
    | Served(entry: nat, answer: Answer)

  /** One call: the client it runs on, its pair and the key string computed from it. */
  datatype Caller = Caller(client: nat, pair: Pair, key: string, phase: CallPhase)

  type Slot = (nat, string)

  datatype State = State(
    cache: map<string, Payload>,
    truth: map<Pair, Resolution>,
    pending: map<Pair, seq<Permission>>,
    waiter: map<Slot, nat>,
    entries: seq<FlightEntry>,
    callers: seq<Caller>)

  /** Helios's current answer; an unknown pair is not a member. */
  function Current(s: State, p: Pair): seq<Permission> {
    if p in s.truth then Normalise(s.truth[p]) else []
  }

  function SlotOf(e: FlightEntry): Slot {
    (e.client, e.key)
  }

  function CallSlot(c: Caller): Slot {
    (c.client, c.key)
  }

  datatype Step =
    | Arrive(client: nat, pair: Pair)
    | Look(c: nat, up: bool)
    | Join(c: nat)
    | Ask(e: nat, failure: Option<int>)
    | Fill(e: nat, up: bool)
    | Close(e: nat)
    | Delete(e: nat)
    | Wake(c: nat)
    | RoleChange(pair: Pair, now: Resolution)
    | Write(pair: Pair, perms: Slice)
    | Remove(key: string)
    | Corrupt(key: string, junk: Payload)

  predicate Enabled(s: State, step: Step) {
    match step
    case Arrive(_, _) => true
    case Look(c, _) => c < |s.callers| && s.callers[c].phase.Started?
    case Join(c) => c < |s.callers| && s.callers[c].phase.Missed?
    case Ask(e, _) => e < |s.entries| && s.entries[e].phase.Spawned?
    case Fill(e, _) => e < |s.entries| && s.entries[e].phase.Holding?
    case Close(e) => e < |s.entries| && s.entries[e].phase.Returned?
    case Delete(e) => e < |s.entries| && s.entries[e].phase.Closed?
    case Wake(c) =>
      && c < |s.callers| && s.callers[c].phase.Waiting? && s.callers[c].phase.entry < |s.entries|
      && s.entries[s.callers[c].phase.entry].result.Some?
    case RoleChange(_, _) => true
    case Write(_, _) => true
    case Remove(_) => true
    case Corrupt(_, junk) => !junk.Array?
  }

  function SetCall(s: State, c: nat, phase: CallPhase): State
    requires c < |s.callers|
  {
    s.(callers := s.callers[c := s.callers[c].(phase := phase)])
  }

  function SetFlight(s: State, e: nat, phase: Phase): State
    requires e < |s.entries|
  {
    s.(entries := s.entries[e := s.entries[e].(phase := phase)])
  }

  /** cache.Get: a hit finishes the call; a miss, an unreadable value or an error falls through. */
  function DoLook(s: State, c: nat, up: bool): State
    requires Enabled(s, Look(c, up))
  {
    var k := s.callers[c].key;
    var got := if up && k in s.cache then Decode(s.cache[k]) else None;
    SetCall(s, c, if got.Some? then Hit(got.value) else Missed)
  }

  /** The locked section of getOrStart: share the entry under the slot, or register a new one and spawn its fetch. */
  function DoJoin(s: State, c: nat): State
    requires Enabled(s, Join(c))
  {
    var call := s.callers[c];
    var slot := CallSlot(call);
    if slot in s.waiter then SetCall(s, c, Waiting(s.waiter[slot]))
    else
      var id := |s.entries|;
      var s' := s.(entries := s.entries + [FlightEntry(call.client, call.pair, call.key, c, Spawned, None)],
                   waiter := s.waiter[slot := id]);
      SetCall(s', c, Waiting(id))
  }

  /** The Helios request returns: an error goes straight to the callers, an answer is held until it is cached. */
  function DoAsk(s: State, e: nat, failure: Option<int>): State
    requires Enabled(s, Ask(e, failure))
  {
    if failure.Some? then SetFlight(s, e, Returned(Failed(failure.value)))
    else SetFlight(s, e, Holding(Current(s, s.entries[e].pair)))
  }

  /** cache.Set with NX; its failure is swallowed. */
  function DoFill(s: State, e: nat, up: bool): State
    requires Enabled(s, Fill(e, up))
  {
    var k, v := s.entries[e].key, s.entries[e].phase.value;
    var s' := if up && k !in s.cache then s.(cache := s.cache[k := Array(v)]) else s;
    SetFlight(s', e, Returned(Granted(v)))
  }

  /** e.res, e.err = fetch(); close(e.done). */
  function DoClose(s: State, e: nat): State
    requires Enabled(s, Close(e))
  {
    var f := s.entries[e];
    s.(entries := s.entries[e := f.(phase := Closed, result := Some(f.phase.answer))])
  }

  /** The unconditional delete(i.waiter, key). */
  function DoDelete(s: State, e: nat): State
    requires Enabled(s, Delete(e))
  {
    SetFlight(s.(waiter := s.waiter - {SlotOf(s.entries[e])}), e, Gone)
  }

  function DoWake(s: State, c: nat): State
    requires Enabled(s, Wake(c))
  {
    var e := s.callers[c].phase.entry;
    SetCall(s, c, Served(e, s.entries[e].result.value))
  }

  /** WriteThrough: an explicit overwrite; it settles the pending change it carries. */
  function DoWrite(s: State, p: Pair, perms: Slice): State {
    s.(cache := s.cache[KeyOf(p) := Encode(perms)],
       pending := if p in s.pending && perms == Some(s.pending[p]) then s.pending - {p} else s.pending)
  }

  function Next(s: State, step: Step): State
    requires Enabled(s, step)
  {
    match step
    case Arrive(client, pair) => s.(callers := s.callers + [Caller(client, pair, KeyOf(pair), Started)])
    case Look(c, up) => DoLook(s, c, up)
    case Join(c) => DoJoin(s, c)
    case Ask(e, failure) => DoAsk(s, e, failure)
    case Fill(e, up) => DoFill(s, e, up)
    case Close(e) => DoClose(s, e)
    case Delete(e) => DoDelete(s, e)
    case Wake(c) => DoWake(s, c)
    case RoleChange(p, now) => s.(truth := s.truth[p := now], pending := s.pending[p := Normalise(now)])
    case Write(p, perms) => DoWrite(s, p, perms)
    case Remove(k) => s.(cache := s.cache - {k})
    case Corrupt(k, junk) => s.(cache := s.cache[k := junk])
  }

  const INIT := State(map[], map[], map[], map[], [], [])

  predicate ValidRun(s: State, steps: seq<Step>)
    decreases |steps|
  {
    steps == [] || (Enabled(s, steps[0]) && ValidRun(Next(s, steps[0]), steps[1..]))
  }

  function Final(s: State, steps: seq<Step>): State
    requires ValidRun(s, steps)
    decreases |steps|
  {
    if steps == [] then s else Final(Next(s, steps[0]), steps[1..])
  }

  lemma {:induction false} RunConcat(s: State, a: seq<Step>, b: seq<Step>)
    requires ValidRun(s, a) && ValidRun(Final(s, a), b)
    ensures ValidRun(s, a + b) && Final(s, a + b) == Final(Final(s, a), b)
    decreases |a|
  {
    if a == [] {
      assert a + b == b;
    } else {
      RunConcat(Next(s, a[0]), a[1..], b);
      assert (a + b)[1..] == a[1..] + b;
    }
  }

  lemma RunCons(s: State, step: Step, rest: seq<Step>)
    requires Enabled(s, step) && ValidRun(Next(s, step), rest)
    ensures ValidRun(s, [step] + rest) && Final(s, [step] + rest) == Final(Next(s, step), rest)
  {
    assert ([step] + rest)[1..] == rest;
  }

  lemma RunSnoc(s: State, steps: seq<Step>, step: Step)
    requires ValidRun(s, steps) && Enabled(Final(s, steps), step)
    ensures ValidRun(s, steps + [step]) && Final(s, steps + [step]) == Next(Final(s, steps), step)
  {
    RunCons(Final(s, steps), step, []);
    assert [step] + [] == [step];
    RunConcat(s, steps, [step]);
  }
}
