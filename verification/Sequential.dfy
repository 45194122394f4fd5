/** A call with no other one under way: the transition system and the sequential facade agree on it. */
module Sequential {
  import opened Basics
  import opened Keys
  import opened CacheSpec
  import opened Redis
  import opened Protocol
  import opened PermissionClient

  /** What a finished call hands back. */
  function AnswerOf(c: Caller): Option<Answer> {
    match c.phase
    case Hit(v) => Some(Granted(v))
    case Served(_, a) => Some(a)
    case _ => None
  }

  /** Under the pair's key the state's cache and the store hold the same array, or no array. */
  predicate SameEntry(s: State, contents: Store, p: Pair) {
    if KeyOf(p) in contents then KeyOf(p) in s.cache && s.cache[KeyOf(p)] == Array(contents[KeyOf(p)])
    else !HoldsArray(s, p)
  }

  predicate HoldsArray(s: State, p: Pair) {
    KeyOf(p) in s.cache && s.cache[KeyOf(p)].Array?
  }

  /** The request's outcome in this state: a failure, or Helios's current answer. */
  predicate Possible(s: State, p: Pair, reply: Reply) {
    reply.Answered? ==> Normalise(reply.resolution) == Current(s, p)
  }

  function Failure(reply: Reply): Option<int> {
    if reply.Unreachable? then Some(reply.code) else None
  }

  /** The call c is the last one, waits on the last entry, and that entry is the one under its slot. */
  predicate Alone(s: State, client: nat, p: Pair, c: nat, e: nat, phase: Phase, result: Option<Answer>) {
    && |s.callers| == c + 1 && |s.entries| == e + 1
    && s.callers[c] == Caller(client, p, KeyOf(p), Waiting(e))
    && s.entries[e] == FlightEntry(client, p, KeyOf(p), c, phase, result)
  }

  /** A miss with the slot free gets as far as a spawned fetch. */
  lemma MissAndJoin(s: State, client: nat, p: Pair) returns (steps: seq<Step>)
    requires !HoldsArray(s, p) && (client, KeyOf(p)) !in s.waiter
    ensures ValidRun(s, steps)
    ensures var s' := Final(s, steps);
            && Alone(s', client, p, |s.callers|, |s.entries|, Spawned, None)
            && s'.cache == s.cache && s'.truth == s.truth
            && s'.waiter == s.waiter[(client, KeyOf(p)) := |s.entries|]
  {
    var c := |s.callers|;
    var s1 := Next(s, Arrive(client, p));
    var s2 := DoLook(s1, c, true);
    var s3 := DoJoin(s2, c);
    RunCons(s2, Join(c), []);
    RunCons(s1, Look(c, true), [Join(c)] + []);
    RunCons(s, Arrive(client, p), [Look(c, true)] + ([Join(c)] + []));
    steps := [Arrive(client, p)] + ([Look(c, true)] + ([Join(c)] + []));
  }

  /** From the fetch's result to the caller's return, the entry taken out again. */
  lemma CloseAndWake(s: State, client: nat, p: Pair, c: nat, e: nat, a: Answer) returns (steps: seq<Step>)
    requires Alone(s, client, p, c, e, Returned(a), None)
    ensures ValidRun(s, steps)
    ensures var s' := Final(s, steps);
            && |s'.callers| == c + 1 && AnswerOf(s'.callers[c]) == Some(a)
            && s'.cache == s.cache && s'.waiter == s.waiter - {(client, KeyOf(p))}
  {
    var s1 := DoClose(s, e);
    var s2 := DoDelete(s1, e);
    var s3 := DoWake(s2, c);
    RunCons(s2, Wake(c), []);
    RunCons(s1, Delete(e), [Wake(c)] + []);
    RunCons(s, Close(e), [Delete(e)] + ([Wake(c)] + []));
    steps := [Close(e)] + ([Delete(e)] + ([Wake(c)] + []));
  }

  /** The fetch itself: an error leaves the cache alone, an answer fills a free key and leaves a taken one. */
  lemma FetchAndFill(s: State, client: nat, p: Pair, c: nat, e: nat, reply: Reply) returns (steps: seq<Step>)
    requires Alone(s, client, p, c, e, Spawned, None) && Possible(s, p, reply)
    ensures ValidRun(s, steps)
    ensures var s' := Final(s, steps);
            var a := if reply.Unreachable? then Failed(reply.code) else Granted(Normalise(reply.resolution));
            && Alone(s', client, p, c, e, Returned(a), None) && s'.waiter == s.waiter
            && s'.cache == if a.Granted? && KeyOf(p) !in s.cache then s.cache[KeyOf(p) := Array(a.perms)] else s.cache
  {
    var s1 := DoAsk(s, e, Failure(reply));
    if reply.Unreachable? {
      RunCons(s, Ask(e, Failure(reply)), []);
      steps := [Ask(e, Failure(reply))] + [];
    } else {
      var s2 := DoFill(s1, e, true);
      RunCons(s1, Fill(e, true), []);
      RunCons(s, Ask(e, Failure(reply)), [Fill(e, true)] + []);
      steps := [Ask(e, Failure(reply))] + ([Fill(e, true)] + []);
    }
  }

  lemma LoneHit(s: State, client: nat, p: Pair, v: seq<Permission>) returns (steps: seq<Step>)
    requires KeyOf(p) in s.cache && s.cache[KeyOf(p)] == Array(v)
    ensures ValidRun(s, steps)
    ensures var s' := Final(s, steps);
            && |s'.callers| == |s.callers| + 1 && AnswerOf(s'.callers[|s.callers|]) == Some(Granted(v))
            && s'.cache == s.cache && s'.waiter == s.waiter
  {
    var c := |s.callers|;
    var s1 := Next(s, Arrive(client, p));
    RunCons(s1, Look(c, true), []);
    RunCons(s, Arrive(client, p), [Look(c, true)] + []);
    steps := [Arrive(client, p)] + ([Look(c, true)] + []);
  }

  /**
   * A lone call has a run in which it returns what the sequential facade resolves, leaves the cache entry the facade
   * leaves, and leaves the in-flight table as it found it. Only an unreadable value stays where the facade, whose cache
   * never has one, would have stored the answer.
   */
  lemma LoneCallResolves(s: State, client: nat, p: Pair, contents: Store, reply: Reply) returns (steps: seq<Step>)
    requires SameEntry(s, contents, p) && Possible(s, p, reply) && (client, KeyOf(p)) !in s.waiter
    ensures ValidRun(s, steps)
    ensures var s' := Final(s, steps);
            && |s'.callers| == |s.callers| + 1
            && AnswerOf(s'.callers[|s.callers|]) == Some(Resolve(contents, p, reply))
            && (KeyOf(p) in s.cache ==> s'.cache == s.cache)
            && (KeyOf(p) !in s.cache || HoldsArray(s, p) ==> SameEntry(s', StoreAfter(contents, p, reply), p))
            && s'.waiter == s.waiter
  {
    if KeyOf(p) in contents {
      steps := LoneHit(s, client, p, contents[KeyOf(p)]);
    } else {
      var join := MissAndJoin(s, client, p);
      var s1 := Final(s, join);
      var fetch := FetchAndFill(s1, client, p, |s.callers|, |s.entries|, reply);
      var s2 := Final(s1, fetch);
      var close := CloseAndWake(s2, client, p, |s.callers|, |s.entries|, Resolve(contents, p, reply));
      RunConcat(s1, fetch, close);
      RunConcat(s, join, fetch + close);
      steps := join + (fetch + close);
    }
  }
}
