/** The in-flight table on the heap: entries are objects, and the locked sections follow the transition system. */
module InFlight {
  import opened Basics
  import opened Keys
  import opened CacheSpec
  import opened Protocol
  import opened Coalescer

  class InFlightEntry {
    var done: bool
    var res: array?<Permission>
    var err: Option<int>

    constructor ()
      ensures !done && res == null
    {
      done, res, err := false, null, None;
    }

    /** The entry's two result fields are this answer. */
    ghost predicate Carries(a: Answer)
      reads this, res
    {
      match a
      case Granted(v) => res != null && res[..] == v && err.None?
      case Failed(code) => res == null && err == Some(code)
    }
  }

  class InFlightTable {
    var waiter: map<string, InFlightEntry>

    constructor ()
      ensures waiter == map[]
    {
      waiter := map[];
    }

    /** The first locked section of getOrStart. */
    method Enter(key: string) returns (e: InFlightEntry, started: bool)
      modifies this
      ensures started == (key !in old(waiter))
      ensures started ==> fresh(e) && !e.done && e.res == null && waiter == old(waiter)[key := e]
      ensures !started ==> e == old(waiter)[key] && waiter == old(waiter)
    {
      if key in waiter {
        return waiter[key], false;
      }
      e := new InFlightEntry();
      waiter := waiter[key := e];
      started := true;
    }

    /** e.res, e.err = fetch(); close(e.done). */
    method Publish(e: InFlightEntry, res: array?<Permission>, err: Option<int>)
      requires !e.done
      modifies e
      ensures e.done && e.res == res && e.err == err
    {
      e.res, e.err := res, err;
      e.done := true;
    }

    /** The second locked section: delete, whoever is registered. */
    method Leave(key: string)
      modifies this
      ensures waiter == old(waiter) - {key}
    {
      waiter := waiter - {key};
    }

    /** The end of the goroutine, when nothing runs in between. */
    method Settle(key: string, e: InFlightEntry, res: array?<Permission>, err: Option<int>)
      requires !e.done
      modifies this, e
      ensures e.res == res && e.err == err && waiter == old(waiter) - {key}
    {
      Publish(e, res, err);
      Leave(key);
    }
  }

  /** The entries of one client, numbered as in the transition system. */
  type Issued = map<nat, InFlightEntry>

  predicate OfClient(s: State, e: nat, client: nat) {
    e < |s.entries| && s.entries[e].client == client
  }

  /** The heap table and entries of this client are the state's. */
  ghost predicate Mirrors(table: InFlightTable, issued: Issued, s: State, client: nat)
    reads table, issued.Values, set e | e in issued.Values && e.res != null :: e.res
  {
    MirrorsMap(table.waiter, issued, s, client)
  }

  ghost predicate MirrorsMap(waiter: map<string, InFlightEntry>, issued: Issued, s: State, client: nat)
    reads issued.Values, set e | e in issued.Values && e.res != null :: e.res
  {
    && (forall e: nat {:trigger e in issued} :: e in issued <==> OfClient(s, e, client))
    && (forall d, e :: d in issued && e in issued && issued[d] == issued[e] ==> d == e)
    && (forall key :: key in waiter <==> (client, key) in s.waiter)
    && (forall key :: key in waiter ==>
          s.waiter[(client, key)] in issued && waiter[key] == issued[s.waiter[(client, key)]])
    && (forall e :: e in issued ==> EntryMirrors(issued[e], s.entries[e]))
  }

  ghost predicate EntryMirrors(e: InFlightEntry, f: FlightEntry)
    reads e, e.res
  {
    && (e.done <==> f.result.Some?)
    && (e.done ==> e.Carries(f.result.value))
  }

  lemma RegisterMirrors(waiter: map<string, InFlightEntry>, issued: Issued, s: State, s': State, client: nat,
                        key: string, e: InFlightEntry, f: FlightEntry)
    requires MirrorsMap(waiter, issued, s, client)
    requires e !in issued.Values && !e.done && f.client == client && f.result.None?
    requires s'.entries == s.entries + [f] && s'.waiter == s.waiter[(client, key) := |s.entries|]
    ensures MirrorsMap(waiter[key := e], issued[|s.entries| := e], s', client)
  {
    var issued' := issued[|s.entries| := e];
    forall d: nat ensures d in issued' <==> OfClient(s', d, client) {
      assert d in issued <==> OfClient(s, d, client);
    }
    forall d | d in issued' ensures EntryMirrors(issued'[d], s'.entries[d]) {
      assert d in issued ==> EntryMirrors(issued[d], s.entries[d]);
    }
  }

  lemma SameMirrors(waiter: map<string, InFlightEntry>, issued: Issued, s: State, s': State, client: nat)
    requires MirrorsMap(waiter, issued, s, client) && s'.entries == s.entries && s'.waiter == s.waiter
    ensures MirrorsMap(waiter, issued, s', client)
  {
    forall d: nat ensures d in issued <==> OfClient(s', d, client) {
      assert d in issued <==> OfClient(s, d, client);
    }
  }

  /** The heap follows Join: the object handed out is the entry the caller waits on. */
  method JoinOnHeap(table: InFlightTable, key: string, ghost issued: Issued, ghost s: State, ghost c: nat)
    returns (e: InFlightEntry, started: bool, ghost issued': Issued)
    requires Inv(s) && Enabled(s, Join(c)) && s.callers[c].key == key
    requires Mirrors(table, issued, s, s.callers[c].client)
    modifies table
    ensures Mirrors(table, issued', DoJoin(s, c), s.callers[c].client)
    ensures var id := DoJoin(s, c).callers[c].phase.entry; id in issued' && e == issued'[id]
    ensures started <==> CallSlot(s.callers[c]) !in s.waiter
    ensures started ==> fresh(e) && e.res == null
    ensures issued' == if started then issued[|s.entries| := e] else issued
  {
    ghost var client := s.callers[c].client;
    e, started := table.Enter(key);
    assert MirrorsMap(old(table.waiter), issued, s, client);
    if started {
      issued' := issued[|s.entries| := e];
      RegisterMirrors(old(table.waiter), issued, s, DoJoin(s, c), client, key, e,
                      FlightEntry(client, s.callers[c].pair, key, c, Spawned, None));
    } else {
      issued' := issued;
      SameMirrors(table.waiter, issued, s, DoJoin(s, c), client);
    }
  }

  /** The heap follows Close: sleepers on the object now find the answer. */
  method CloseOnHeap(table: InFlightTable, e: InFlightEntry, res: array?<Permission>, err: Option<int>,
                     ghost issued: Issued, ghost s: State, ghost id: nat)
    requires Inv(s) && Enabled(s, Close(id)) && id in issued && issued[id] == e
    requires Mirrors(table, issued, s, s.entries[id].client)
    requires match s.entries[id].phase.answer
             case Granted(v) => res != null && res[..] == v && err.None?
             case Failed(code) => res == null && err == Some(code)
    modifies e
    ensures Mirrors(table, issued, DoClose(s, id), s.entries[id].client)
    ensures e.done && e.Carries(s.entries[id].phase.answer) && e.res == res
  {
    assert EntryOk(s, id);
    table.Publish(e, res, err);
  }

  lemma UnregisterMirrors(waiter: map<string, InFlightEntry>, issued: Issued, s: State, s': State, client: nat,
                          id: nat, key: string)
    requires MirrorsMap(waiter, issued, s, client) && id < |s.entries|
    requires s'.entries == s.entries[id := s.entries[id].(phase := Gone)]
    requires s'.waiter == s.waiter - {(client, key)}
    ensures MirrorsMap(waiter - {key}, issued, s', client)
  {
    forall d: nat ensures d in issued <==> OfClient(s', d, client) {
      assert d in issued <==> OfClient(s, d, client);
    }
    forall d | d in issued ensures EntryMirrors(issued[d], s'.entries[d]) {
      assert EntryMirrors(issued[d], s.entries[d]);
    }
  }

  /** The heap follows Delete. */
  method DeleteOnHeap(table: InFlightTable, key: string, ghost issued: Issued, ghost s: State, ghost id: nat)
    requires Inv(s) && Enabled(s, Delete(id)) && s.entries[id].key == key
    requires Mirrors(table, issued, s, s.entries[id].client)
    modifies table
    ensures Mirrors(table, issued, DoDelete(s, id), s.entries[id].client)
  {
    ghost var client := s.entries[id].client;
    table.Leave(key);
    assert MirrorsMap(old(table.waiter), issued, s, client);
    UnregisterMirrors(old(table.waiter), issued, s, DoDelete(s, id), client, id, key);
  }

  /** The heap follows Wake: the sleeper reads the entry's own two fields, and they are the answer it is served. */
  method WakeOnHeap(table: InFlightTable, e: InFlightEntry, ghost issued: Issued, ghost s: State, ghost c: nat)
    returns (res: array?<Permission>, err: Option<int>)
    requires Inv(s) && Enabled(s, Wake(c)) && Mirrors(table, issued, s, s.callers[c].client)
    requires s.callers[c].phase.entry in issued && issued[s.callers[c].phase.entry] == e
    ensures Mirrors(table, issued, DoWake(s, c), s.callers[c].client)
    ensures res == e.res && err == e.err
    ensures DoWake(s, c).callers[c].phase.Served? && e.Carries(DoWake(s, c).callers[c].phase.answer)
  {
    assert EntryMirrors(e, s.entries[s.callers[c].phase.entry]);
    SameMirrors(table.waiter, issued, s, DoWake(s, c), s.callers[c].client);
    return e.res, e.err;
  }

  /** Between the two states nothing happened that this client's heap could see. */
  ghost predicate Unseen(s: State, s': State, client: nat) {
    && |s.entries| <= |s'.entries|
    && (forall e :: 0 <= e < |s.entries| ==> SameToClient(s.entries[e], s'.entries[e], client))
    && (forall e :: |s.entries| <= e < |s'.entries| ==> s'.entries[e].client != client)
    && (forall key :: (client, key) in s'.waiter <==> (client, key) in s.waiter)
    && (forall key :: (client, key) in s.waiter ==> s'.waiter[(client, key)] == s.waiter[(client, key)])
  }

  predicate SameToClient(f: FlightEntry, f': FlightEntry, client: nat) {
    f'.client == f.client && (f.client == client ==> f'.result == f.result)
  }

  lemma UnseenMirrors(waiter: map<string, InFlightEntry>, issued: Issued, s: State, s': State, client: nat)
    requires MirrorsMap(waiter, issued, s, client) && Unseen(s, s', client)
    ensures MirrorsMap(waiter, issued, s', client)
  {
    forall d: nat ensures d in issued <==> OfClient(s', d, client) {
      assert d in issued <==> OfClient(s, d, client);
    }
    forall d | d in issued ensures EntryMirrors(issued[d], s'.entries[d]) {
      assert EntryMirrors(issued[d], s.entries[d]) && OfClient(s, d, client);
    }
  }
}
