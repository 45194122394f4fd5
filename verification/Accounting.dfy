/** How many Helios fetches a key costs, and that schedules decide it: one, or as many as there were early misses. */
module Accounting {
  import opened Basics
  import opened Keys
  import opened CacheSpec
  import opened Redis
  import opened Protocol
  import opened Coalescer

  /** The fetches ever started for a key. */
  function Fetches(s: State, k: string): set<nat> {
    set e: nat | e < |s.entries| && s.entries[e].key == k
  }

  /** The calls for a key whose Get missed. */
  function Missers(s: State, k: string): set<nat> {
    set c: nat | c < |s.callers| && s.callers[c].key == k && MissedOnce(s.callers[c])
  }

  predicate MissedOnce(c: Caller) {
    c.phase.Missed? || c.phase.Waiting? || c.phase.Served?
  }

  function Starters(s: State): map<nat, nat> {
    map e: nat | e < |s.entries| :: s.entries[e].starter
  }

  /** Each fetch was started by its own missing caller. */
  lemma FetchesBoundedByMissers(s: State, k: string)
    requires Inv(s)
    ensures |Fetches(s, k)| <= |Missers(s, k)|
  {
    var f := Starters(s);
    forall e | e in Fetches(s, k) ensures e in f && f[e] in Missers(s, k) {
      assert EntryOk(s, e);
    }
    forall d, e | d in Fetches(s, k) && e in Fetches(s, k) && f[d] == f[e] ensures d == e {
      assert EntryOk(s, d) && EntryOk(s, e);
    }
    InjectionBounds(Fetches(s, k), Missers(s, k), f);
  }

  /** The key holds a readable array. */
  predicate Present(s: State, k: string) {
    k in s.cache && s.cache[k].Array?
  }

  /** No removal or corruption of the key, no nil written under it, and no cache read failure. */
  predicate CleanFor(step: Step, k: string) {
    match step
    case Look(_, up) => up
    case Write(p, perms) => KeyOf(p) == k ==> perms.Some?
    case Remove(key) => key != k
    case Corrupt(key, _) => key != k
    case _ => true
  }

  predicate CleanRun(steps: seq<Step>, k: string) {
    forall i :: 0 <= i < |steps| ==> CleanFor(steps[i], k)
  }

  lemma StaysPresent(s: State, step: Step, k: string)
    requires Present(s, k) && Enabled(s, step) && CleanFor(step, k)
    ensures Present(Next(s, step), k)
  {
  }

  /** The call can no longer fetch: it has not looked yet, or it hit. */
  predicate Unmissed(s: State, c: nat, k: string) {
    c < |s.callers| && s.callers[c].key == k ==> s.callers[c].phase.Started? || s.callers[c].phase.Hit?
  }

  lemma NoNewMisser(s: State, step: Step, k: string, c: nat)
    requires Present(s, k) && Enabled(s, step) && CleanFor(step, k) && Unmissed(s, c, k)
    ensures Unmissed(Next(s, step), c, k)
  {
  }

  lemma {:induction false} NoLateMissers(s: State, steps: seq<Step>, k: string, c: nat)
    requires Present(s, k) && ValidRun(s, steps) && CleanRun(steps, k) && Unmissed(s, c, k)
    ensures Unmissed(Final(s, steps), c, k)
    decreases |steps|
  {
    if steps != [] {
      assert CleanFor(steps[0], k);
      StaysPresent(s, steps[0], k);
      NoNewMisser(s, steps[0], k, c);
      NoLateMissers(Next(s, steps[0]), steps[1..], k, c);
    }
  }

  /**
   * Over a whole run, the fetches for a key number at most the calls that had missed when the key became present,
   * and no call that looks later ever fetches.
   */
  lemma FetchAccounting(early: seq<Step>, late: seq<Step>, k: string)
    requires ValidRun(INIT, early) && Present(Final(INIT, early), k)
    requires ValidRun(Final(INIT, early), late) && CleanRun(late, k)
    ensures var mid := Final(INIT, early);
            var end := Final(mid, late);
            && |Fetches(end, k)| <= |Missers(mid, k)|
            && Missers(end, k) == Missers(mid, k)
  {
    var mid := Final(INIT, early);
    var end := Final(mid, late);
    InitInv();
    RunInv(INIT, early);
    RunInv(mid, late);
    RunLater(mid, late);
    forall c: nat ensures c in Missers(end, k) <==> c in Missers(mid, k) {
      if c in Missers(mid, k) {
        assert CallerLater(mid, end, c);
      } else {
        NoLateMissers(mid, late, k, c);
      }
    }
    assert Missers(end, k) == Missers(mid, k);
    FetchesBoundedByMissers(end, k);
  }

  predicate JoinOf(s: State, step: Step, slot: Slot)
    requires Enabled(s, step)
  {
    step.Join? && CallSlot(s.callers[step.c]) == slot
  }

  predicate DeleteOf(s: State, step: Step, slot: Slot)
    requires Enabled(s, step)
  {
    step.Delete? && SlotOf(s.entries[step.e]) == slot
  }

  /** No call joins the slot after an entry of the slot has been deleted. */
  predicate JoinsComeFirst(s: State, steps: seq<Step>, slot: Slot, deleted: bool)
    requires ValidRun(s, steps)
    decreases |steps|
  {
    steps == [] ||
    (&& (JoinOf(s, steps[0], slot) ==> !deleted)
     && JoinsComeFirst(Next(s, steps[0]), steps[1..], slot, deleted || DeleteOf(s, steps[0], slot)))
  }

  /** The fetches ever started under a slot. */
  function SlotFetches(s: State, slot: Slot): set<nat> {
    set e: nat | e < |s.entries| && SlotOf(s.entries[e]) == slot
  }

  /**
   * What the order of joins and deletions alone says about a slot: how many joins come first, or first after a
   * deletion. The flag says whether a join has come since the last deletion.
   */
  function Epochs(s: State, steps: seq<Step>, slot: Slot, open: bool): nat
    requires ValidRun(s, steps)
    decreases |steps|
  {
    if steps == [] then 0
    else
      var s' := Next(s, steps[0]);
      if JoinOf(s, steps[0], slot) then (if open then 0 else 1) + Epochs(s', steps[1..], slot, true)
      else if DeleteOf(s, steps[0], slot) then Epochs(s', steps[1..], slot, false)
      else Epochs(s', steps[1..], slot, open)
  }

  /** The step changes neither the slot's fetches nor whether it is taken. */
  predicate SlotKept(s: State, s': State, slot: Slot) {
    SlotFetches(s', slot) == SlotFetches(s, slot) && (slot in s'.waiter <==> slot in s.waiter)
  }

  lemma SameSlots(s: State, s': State, slot: Slot)
    requires |s'.entries| == |s.entries|
    requires forall e :: 0 <= e < |s.entries| ==> SlotOf(s'.entries[e]) == SlotOf(s.entries[e])
    ensures SlotFetches(s', slot) == SlotFetches(s, slot)
  {
  }

  lemma JoinFetches(s: State, c: nat, slot: Slot)
    requires Enabled(s, Join(c))
    ensures var s' := DoJoin(s, c);
            if JoinOf(s, Join(c), slot) then
              && slot in s'.waiter
              && SlotFetches(s', slot) == SlotFetches(s, slot) + (if slot in s.waiter then {} else {|s.entries|})
            else SlotKept(s, s', slot)
  {
    assert s.entries <= DoJoin(s, c).entries;
  }

  lemma DeleteFetches(s: State, e: nat, slot: Slot)
    requires Enabled(s, Delete(e))
    ensures var s' := DoDelete(s, e);
            if DeleteOf(s, Delete(e), slot) then slot !in s'.waiter && SlotFetches(s', slot) == SlotFetches(s, slot)
            else SlotKept(s, s', slot)
  {
    SameSlots(s, DoDelete(s, e), slot);
  }

  lemma OtherFetches(s: State, step: Step, slot: Slot)
    requires Enabled(s, step) && !step.Join? && !step.Delete?
    ensures SlotKept(s, Next(s, step), slot)
  {
    match step
    case Ask(e, failure) => SameSlots(s, DoAsk(s, e, failure), slot);
    case Fill(e, up) => SameSlots(s, DoFill(s, e, up), slot);
    case Close(e) => SameSlots(s, DoClose(s, e), slot);
    case _ =>
  }

  /** Only a join with the slot free adds a fetch, and only joins and deletions of the slot take or free it. */
  lemma StepFetches(s: State, step: Step, slot: Slot)
    requires Enabled(s, step)
    ensures var s' := Next(s, step);
            if JoinOf(s, step, slot) then
              && slot in s'.waiter
              && SlotFetches(s', slot) == SlotFetches(s, slot) + (if slot in s.waiter then {} else {|s.entries|})
            else if DeleteOf(s, step, slot) then slot !in s'.waiter && SlotFetches(s', slot) == SlotFetches(s, slot)
            else SlotKept(s, s', slot)
  {
    match step
    case Join(c) => JoinFetches(s, c, slot);
    case Delete(e) => DeleteFetches(s, e, slot);
    case _ => OtherFetches(s, step, slot);
  }

  /** In every run the number of fetches a slot costs is exactly what the order of joins and deletions says. */
  lemma {:induction false} FetchesAreEpochs(s: State, steps: seq<Step>, slot: Slot)
    requires ValidRun(s, steps)
    ensures |SlotFetches(Final(s, steps), slot)| == |SlotFetches(s, slot)| + Epochs(s, steps, slot, slot in s.waiter)
    decreases |steps|
  {
    if steps != [] {
      StepFetches(s, steps[0], slot);
      FetchesAreEpochs(Next(s, steps[0]), steps[1..], slot);
    }
  }

  /** Joins come first exactly when no epoch follows the open one, or the first one. */
  lemma {:induction false} JoinsComeFirstIff(s: State, steps: seq<Step>, slot: Slot, deleted: bool)
    requires Inv(s) && ValidRun(s, steps) && (slot in s.waiter ==> !deleted)
    ensures JoinsComeFirst(s, steps, slot, deleted) <==>
            Epochs(s, steps, slot, slot in s.waiter) <= (if slot in s.waiter || deleted then 0 else 1)
    decreases |steps|
  {
    if steps != [] {
      var s' := Next(s, steps[0]);
      StepInv(s, steps[0]);
      StepFetches(s, steps[0], slot);
      if DeleteOf(s, steps[0], slot) {
        assert EntryOk(s, steps[0].e);
      }
      if !(JoinOf(s, steps[0], slot) && deleted) {
        JoinsComeFirstIff(s', steps[1..], slot, deleted || DeleteOf(s, steps[0], slot));
      }
    }
  }

  /** A run costs a slot at most one fetch if and only if no call joins it after an entry of it was deleted. */
  lemma AtMostOneFetchIff(steps: seq<Step>, slot: Slot)
    requires ValidRun(INIT, steps)
    ensures |SlotFetches(Final(INIT, steps), slot)| <= 1 <==> JoinsComeFirst(INIT, steps, slot, false)
  {
    InitInv();
    JoinsComeFirstIff(INIT, steps, slot, false);
    FetchesAreEpochs(INIT, steps, slot);
    assert SlotFetches(INIT, slot) == {};
  }

  /** One fetch serves all calls that join a slot if and only if they join before an entry of it is deleted. */
  lemma OneFetchServesAllIff(steps: seq<Step>, slot: Slot, c: nat)
    requires ValidRun(INIT, steps)
    requires var s := Final(INIT, steps);
             && c < |s.callers| && CallSlot(s.callers[c]) == slot
             && (s.callers[c].phase.Waiting? || s.callers[c].phase.Served?)
    ensures SlotFetches(Final(INIT, steps), slot) == {Final(INIT, steps).callers[c].phase.entry} <==>
            JoinsComeFirst(INIT, steps, slot, false)
  {
    InitInv();
    RunInv(INIT, steps);
    AtMostOneFetchIff(steps, slot);
    var s := Final(INIT, steps);
    assert CallerOk(s, c);
    var e := s.callers[c].phase.entry;
    assert e in SlotFetches(s, slot);
    assert SlotFetches(s, slot) == {e} + (SlotFetches(s, slot) - {e});
  }

  /** n calls of one client for one pair have missed; i of them have each run a complete fetch of their own. */
  ghost predicate Staggered(s: State, p: Pair, n: nat, i: nat) {
    && |s.callers| == n && |s.entries| == i <= n && s.waiter == map[]
    && (forall c :: i <= c < n ==> s.callers[c] == Caller(0, p, KeyOf(p), Missed))
    && (forall e :: 0 <= e < i ==> s.entries[e].key == KeyOf(p) && s.entries[e].result == Some(Granted(Current(s, p))))
  }

  /** Readers only, with every cache command and every request succeeding. */
  predicate Smooth(step: Step) {
    match step
    case Arrive(_, _) => true
    case Look(_, up) => up
    case Join(_) => true
    case Ask(_, failure) => failure.None?
    case Fill(_, up) => up
    case Close(_) => true
    case Delete(_) => true
    case Wake(_) => true
    case _ => false
  }

  predicate SmoothRun(steps: seq<Step>) {
    forall i :: 0 <= i < |steps| ==> Smooth(steps[i])
  }

  lemma {:induction false} AllMiss(p: Pair, n: nat) returns (steps: seq<Step>)
    ensures ValidRun(INIT, steps) && Staggered(Final(INIT, steps), p, n, 0)
    ensures Final(INIT, steps).cache == map[] && SmoothRun(steps)
  {
    if n == 0 {
      steps := [];
    } else {
      var first := AllMiss(p, n - 1);
      var arrive, look := Arrive(0, p), Look(n - 1, true);
      RunSnoc(INIT, first, arrive);
      RunSnoc(INIT, first + [arrive], look);
      steps := first + [arrive] + [look];
    }
  }

  /** In between: call i waits on its own new entry, whose fetch is at the given phase. */
  ghost predicate Fetching(s: State, p: Pair, n: nat, i: nat, phase: Phase, result: Option<Answer>) {
    && |s.callers| == n && |s.entries| == i + 1 <= n && s.waiter == map[(0, KeyOf(p)) := i]
    && (forall c :: i < c < n ==> s.callers[c] == Caller(0, p, KeyOf(p), Missed))
    && (forall e :: 0 <= e < i ==> s.entries[e].key == KeyOf(p) && s.entries[e].result == Some(Granted(Current(s, p))))
    && s.entries[i] == FlightEntry(0, p, KeyOf(p), i, phase, result)
  }

  lemma StartFetch(s: State, p: Pair, n: nat, i: nat) returns (s': State)
    requires Staggered(s, p, n, i) && i < n
    ensures ValidRun(s, [Join(i), Ask(i, None)]) && s' == Final(s, [Join(i), Ask(i, None)])
    ensures Fetching(s', p, n, i, Holding(Current(s', p)), None)
  {
    RunSnoc(s, [], Join(i));
    var s1 := Next(s, Join(i));
    assert s1.entries[i] == FlightEntry(0, p, KeyOf(p), i, Spawned, None);
    RunSnoc(s, [] + [Join(i)], Ask(i, None));
    assert [] + [Join(i)] + [Ask(i, None)] == [Join(i), Ask(i, None)];
    s' := DoAsk(s1, i, None);
  }

  lemma FillFetch(s: State, p: Pair, n: nat, i: nat) returns (s': State)
    requires Fetching(s, p, n, i, Holding(Current(s, p)), None)
    ensures s' == DoFill(s, i, true)
    ensures Fetching(s', p, n, i, Returned(Granted(Current(s', p))), None)
  {
    s' := DoFill(s, i, true);
  }

  lemma CloseFetch(s: State, p: Pair, n: nat, i: nat) returns (s': State)
    requires Fetching(s, p, n, i, Returned(Granted(Current(s, p))), None)
    ensures s' == DoClose(s, i)
    ensures Fetching(s', p, n, i, Closed, Some(Granted(Current(s', p))))
  {
    s' := DoClose(s, i);
  }

  lemma DeleteFetch(s: State, p: Pair, n: nat, i: nat) returns (s': State)
    requires Fetching(s, p, n, i, Closed, Some(Granted(Current(s, p))))
    ensures s' == DoDelete(s, i) && Staggered(s', p, n, i + 1)
  {
    s' := DoDelete(s, i);
    assert s'.waiter == map[];
  }

  lemma FinishFetch(s: State, p: Pair, n: nat, i: nat) returns (steps: seq<Step>)
    requires Fetching(s, p, n, i, Holding(Current(s, p)), None)
    ensures ValidRun(s, steps) && Staggered(Final(s, steps), p, n, i + 1) && SmoothRun(steps)
  {
    var s1 := FillFetch(s, p, n, i);
    var s2 := CloseFetch(s1, p, n, i);
    var s3 := DeleteFetch(s2, p, n, i);
    RunCons(s2, Delete(i), []);
    RunCons(s1, Close(i), [Delete(i)] + []);
    RunCons(s, Fill(i, true), [Close(i)] + ([Delete(i)] + []));
    steps := [Fill(i, true)] + ([Close(i)] + ([Delete(i)] + []));
  }

  lemma OneMoreFetch(s: State, p: Pair, n: nat, i: nat) returns (steps: seq<Step>)
    requires Staggered(s, p, n, i) && i < n
    ensures ValidRun(s, steps) && Staggered(Final(s, steps), p, n, i + 1) && SmoothRun(steps)
  {
    var s' := StartFetch(s, p, n, i);
    var finish := FinishFetch(s', p, n, i);
    RunConcat(s, [Join(i), Ask(i, None)], finish);
    steps := [Join(i), Ask(i, None)] + finish;
  }

  lemma {:induction false} StaggeredRun(p: Pair, n: nat, i: nat) returns (steps: seq<Step>)
    requires i <= n
    ensures ValidRun(INIT, steps) && Staggered(Final(INIT, steps), p, n, i) && SmoothRun(steps)
  {
    if i == 0 {
      steps := AllMiss(p, n);
    } else {
      var before := StaggeredRun(p, n, i - 1);
      var round := OneMoreFetch(Final(INIT, before), p, n, i - 1);
      RunConcat(INIT, before, round);
      steps := before + round;
    }
  }

  /**
   * No bound holds for every schedule: any number of overlapping calls can cost that many fetches, with every request
   * and every cache command succeeding.
   */
  lemma CoalescingHasNoFixedBound(p: Pair, n: nat) returns (steps: seq<Step>)
    ensures ValidRun(INIT, steps) && SmoothRun(steps)
    ensures var s := Final(INIT, steps);
            && |s.callers| == n && |Fetches(s, KeyOf(p))| == n
            && forall e :: e in Fetches(s, KeyOf(p)) ==> s.entries[e].result == Some(Granted(Current(s, p)))
  {
    steps := StaggeredRun(p, n, n);
    var s := Final(INIT, steps);
    assert Fetches(s, KeyOf(p)) == Below(n);
  }

  function Below(n: nat): (r: set<nat>)
    ensures |r| == n && forall e: nat :: e in r <==> e < n
  {
    if n == 0 then {} else Below(n - 1) + {n - 1}
  }
}
