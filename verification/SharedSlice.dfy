/**
 * The slice that coalesced callers share. Any number of calls of one client run through the in-flight table on the
 * heap, each folds what it got, and callers write into every slice they were handed: no entry's result, no other
 * caller's slice and no self permission ever changes.
 */
module SharedSlice {
  import opened Basics
  import opened CacheSpec
  import opened Protocol
  import opened Coalescer
  import opened Fold
  import opened InFlight
  import opened Sequential
  import HeapIsolation

  datatype Event =
    | Move(step: Step)
    | Collect(c: nat)
    | CollectUniversal
    | Scribble(target: nat, at: nat, value: Permission)

  /** The value reading: the transition system, and the slices handed out, sharing nothing. */
  datatype World = World(s: State, slices: seq<seq<Permission>>)

  /** What GetUserPermissions or Explain has to fold for this call, if it has returned without an error. */
  function Collected(s: State, client: nat, c: nat): Option<seq<Permission>> {
    if c < |s.callers| && s.callers[c].client == client then
      match AnswerOf(s.callers[c])
      case Some(Granted(v)) => Some(v)
      case _ => None
    else None
  }

  function WorldStep(self: seq<Permission>, client: nat, w: World, ev: Event): World {
    match ev
    case Move(step) => if Enabled(w.s, step) then w.(s := Next(w.s, step)) else w
    case Collect(c) =>
      var v := Collected(w.s, client, c);
      if v.Some? then w.(slices := w.slices + [Folded(self, v.value)]) else w
    case CollectUniversal => w.(slices := w.slices + [Folded(self, [])])
    case Scribble(h, at, value) =>
      if h < |w.slices| && at < |w.slices[h]| then w.(slices := w.slices[h := w.slices[h][at := value]]) else w
  }

  function WorldRun(self: seq<Permission>, client: nat, events: seq<Event>): World {
    if events == [] then World(INIT, [])
    else WorldStep(self, client, WorldRun(self, client, events[..|events| - 1]), events[|events| - 1])
  }

  /** The client's in-flight table, its entries by number, the self list, and the slices handed out. */
  datatype Heap = Heap(table: InFlightTable, issued: Issued, self: array<Permission>, held: seq<array<Permission>>)

  function Results(issued: Issued): set<array<Permission>>
    reads issued.Values
  {
    set e | e in issued.Values && e.res != null :: e.res
  }

  /** No slice handed out is an entry's result or the self list. */
  ghost predicate Private(h: Heap)
    reads h.issued.Values
  {
    && HeapIsolation.NoAliases(h.held)
    && h.self !in h.held && h.self !in Results(h.issued)
    && forall i :: 0 <= i < |h.held| ==> h.held[i] !in Results(h.issued)
  }

  ghost predicate Follows(h: Heap, w: World, self: seq<Permission>, client: nat)
    reads h.table, h.issued.Values, Results(h.issued), h.self, h.held
  {
    && Inv(w.s) && Mirrors(h.table, h.issued, w.s, client)
    && h.self[..] == self
    && |h.held| == |w.slices| && (forall i :: 0 <= i < |h.held| ==> h.held[i][..] == w.slices[i])
    && Private(h)
  }

  /** The four kinds of step that touch the client's table. */
  predicate Seen(s: State, step: Step, client: nat)
    requires Enabled(s, step)
  {
    match step
    case Join(c) => s.callers[c].client == client
    case Wake(c) => s.callers[c].client == client
    case Close(e) => s.entries[e].client == client
    case Delete(e) => s.entries[e].client == client
    case _ => false
  }

  lemma UnseenJoin(s: State, c: nat, client: nat)
    requires Enabled(s, Join(c)) && !Seen(s, Join(c), client)
    ensures Unseen(s, DoJoin(s, c), client)
  {
    assert s.entries <= DoJoin(s, c).entries;
  }

  lemma UnseenFlight(s: State, s': State, e: nat, client: nat)
    requires e < |s.entries| && |s'.entries| == |s.entries| && s'.entries == s.entries[e := s'.entries[e]]
    requires SameToClient(s.entries[e], s'.entries[e], client)
    requires s'.waiter == s.waiter || (s.entries[e].client != client && s'.waiter == s.waiter - {SlotOf(s.entries[e])})
    ensures Unseen(s, s', client)
  {
  }

  /** Other clients' steps, and steps of this one's calls and fetches elsewhere, do not show on its heap. */
  lemma UnseenStep(s: State, step: Step, client: nat)
    requires Enabled(s, step) && !Seen(s, step, client)
    ensures Unseen(s, Next(s, step), client)
  {
    hide Unseen;
    match step
    case Join(c) => UnseenJoin(s, c, client);
    case Ask(e, failure) => UnseenFlight(s, DoAsk(s, e, failure), e, client);
    case Fill(e, up) => UnseenFlight(s, DoFill(s, e, up), e, client);
    case Close(e) => UnseenFlight(s, DoClose(s, e), e, client);
    case Delete(e) => UnseenFlight(s, DoDelete(s, e), e, client);
    case _ => UnseenSame(s, Next(s, step), client);
  }

  lemma UnseenSame(s: State, s': State, client: nat)
    requires s'.entries == s.entries && s'.waiter == s.waiter
    ensures Unseen(s, s', client)
  {
  }

  method JoinShared(h: Heap, w: World, c: nat, self: seq<Permission>, client: nat) returns (h': Heap)
    requires Follows(h, w, self, client) && Enabled(w.s, Join(c)) && w.s.callers[c].client == client
    modifies h.table
    ensures Follows(h', w.(s := DoJoin(w.s, c)), self, client)
    ensures h' == h.(issued := h'.issued) && fresh(h'.issued.Values - h.issued.Values)
  {
    StepInv(w.s, Join(c));
    var e, started, _ := JoinOnHeap(h.table, w.s.callers[c].key, h.issued, w.s, c);
    h' := if started then h.(issued := h.issued[|w.s.entries| := e]) else h;
    assert Results(h'.issued) <= Results(h.issued);
  }

  /** The fetch's array is new, and the entry is the only one to keep it. */
  method CloseShared(h: Heap, w: World, id: nat, self: seq<Permission>, client: nat)
    requires Follows(h, w, self, client) && Enabled(w.s, Close(id)) && w.s.entries[id].client == client
    modifies h.issued.Values
    ensures Follows(h, w.(s := DoClose(w.s, id)), self, client)
  {
    StepInv(w.s, Close(id));
    assert OfClient(w.s, id, client) && id in h.issued;
    var res: array?<Permission>, err := null, None;
    match w.s.entries[id].phase.answer {
      case Granted(v) =>
        res := new Permission[|v|](i requires 0 <= i < |v| => v[i]);
        assert res[..] == v;
      case Failed(code) =>
        err := Some(code);
    }
    ghost var before := Results(h.issued);
    CloseOnHeap(h.table, h.issued[id], res, err, h.issued, w.s, id);
    assert Results(h.issued) <= before + (if res == null then {} else {res});
  }

  method DeleteShared(h: Heap, w: World, id: nat, self: seq<Permission>, client: nat)
    requires Follows(h, w, self, client) && Enabled(w.s, Delete(id)) && w.s.entries[id].client == client
    modifies h.table
    ensures Follows(h, w.(s := DoDelete(w.s, id)), self, client)
  {
    StepInv(w.s, Delete(id));
    DeleteOnHeap(h.table, w.s.entries[id].key, h.issued, w.s, id);
  }

  method WakeShared(h: Heap, w: World, c: nat, self: seq<Permission>, client: nat)
    requires Follows(h, w, self, client) && Enabled(w.s, Wake(c)) && w.s.callers[c].client == client
    ensures Follows(h, w.(s := DoWake(w.s, c)), self, client)
  {
    StepInv(w.s, Wake(c));
    assert CallerOk(w.s, c);
    var id := w.s.callers[c].phase.entry;
    assert OfClient(w.s, id, client) && id in h.issued;
    var res, err := WakeOnHeap(h.table, h.issued[id], h.issued, w.s, c);
  }

  method MoveShared(h: Heap, w: World, step: Step, self: seq<Permission>, client: nat) returns (h': Heap)
    requires Follows(h, w, self, client) && Enabled(w.s, step)
    modifies h.table, h.issued.Values
    ensures Follows(h', w.(s := Next(w.s, step)), self, client)
    ensures h' == h.(issued := h'.issued) && fresh(h'.issued.Values - h.issued.Values)
  {
    h' := h;
    if !Seen(w.s, step, client) {
      StepInv(w.s, step);
      UnseenStep(w.s, step, client);
      UnseenMirrors(h.table.waiter, h.issued, w.s, Next(w.s, step), client);
    } else {
      match step {
        case Join(c) => h' := JoinShared(h, w, c, self, client);
        case Close(id) => CloseShared(h, w, id, self, client);
        case Delete(id) => DeleteShared(h, w, id, self, client);
        case Wake(c) => WakeShared(h, w, c, self, client);
        case _ =>
      }
    }
  }

  /** The array a returned call folds: the entry's own result when it was coalesced, the cache's copy when it hit. */
  method Gotten(h: Heap, w: World, c: nat, self: seq<Permission>, client: nat) returns (perms: array<Permission>)
    requires Follows(h, w, self, client) && Collected(w.s, client, c).Some?
    ensures perms[..] == Collected(w.s, client, c).value
    ensures w.s.callers[c].phase.Served? ==>
              w.s.callers[c].phase.entry in h.issued && h.issued[w.s.callers[c].phase.entry].res == perms
  {
    match w.s.callers[c].phase {
      case Served(id, answer) =>
        assert CallerOk(w.s, c) && EntryOk(w.s, id);
        assert OfClient(w.s, id, client) && id in h.issued && EntryMirrors(h.issued[id], w.s.entries[id]);
        perms := h.issued[id].res;
      case Hit(v) =>
        perms := new Permission[|v|](i requires 0 <= i < |v| => v[i]);
        assert perms[..] == v;
      case _ =>
    }
  }

  lemma HandedOut(h: Heap, w: World, out: array<Permission>, self: seq<Permission>, client: nat)
    requires Follows(h, w, self, client)
    requires out !in h.held && out != h.self && out !in Results(h.issued)
    ensures Follows(h.(held := h.held + [out]), w.(slices := w.slices + [out[..]]), self, client)
  {
    hide Inv, Mirrors;
  }

  method CollectShared(h: Heap, w: World, c: nat, self: seq<Permission>, client: nat) returns (h': Heap)
    requires Follows(h, w, self, client) && Collected(w.s, client, c).Some?
    ensures Follows(h', WorldStep(self, client, w, Collect(c)), self, client)
    ensures h' == h.(held := h'.held) && h.held <= h'.held && fresh(set a | a in h'.held[|h.held|..])
  {
    var perms := Gotten(h, w, c, self, client);
    var out := FoldSelfPermissions(h.self, perms);
    HandedOut(h, w, out, self, client);
    h' := h.(held := h.held + [out]);
  }

  method CollectUniversalShared(h: Heap, w: World, self: seq<Permission>, client: nat) returns (h': Heap)
    requires Follows(h, w, self, client)
    ensures Follows(h', WorldStep(self, client, w, CollectUniversal), self, client)
    ensures h' == h.(held := h'.held) && h.held <= h'.held && fresh(set a | a in h'.held[|h.held|..])
  {
    var none := new Permission[0];
    assert none[..] == [];
    var out := FoldSelfPermissions(h.self, none);
    HandedOut(h, w, out, self, client);
    h' := h.(held := h.held + [out]);
  }

  /** A caller writes into a slice it was handed. */
  method ScribbleShared(h: Heap, w: World, target: nat, at: nat, value: Permission, self: seq<Permission>, client: nat)
    requires Follows(h, w, self, client)
    modifies h.held
    ensures Follows(h, WorldStep(self, client, w, Scribble(target, at, value)), self, client)
    ensures forall a :: a in Results(h.issued) ==> a[..] == old(a[..])
  {
    if target < |h.held| && at < h.held[target].Length {
      h.held[target][at] := value;
    }
  }

  method ActShared(h: Heap, w: World, ev: Event, self: seq<Permission>, client: nat) returns (h': Heap)
    requires Follows(h, w, self, client)
    modifies h.table, h.issued.Values, h.held
    ensures Follows(h', WorldStep(self, client, w, ev), self, client)
    ensures h'.table == h.table && h'.self == h.self
    ensures fresh(h'.issued.Values - h.issued.Values)
    ensures h.held <= h'.held && fresh(set a | a in h'.held[|h.held|..])
  {
    h' := h;
    match ev {
      case Move(step) =>
        if Enabled(w.s, step) {
          h' := MoveShared(h, w, step, self, client);
        }
      case Collect(c) =>
        if Collected(w.s, client, c).Some? {
          h' := CollectShared(h, w, c, self, client);
        }
      case CollectUniversal =>
        h' := CollectUniversalShared(h, w, self, client);
      case Scribble(target, at, value) =>
        ScribbleShared(h, w, target, at, value, self, client);
    }
  }

  method StartShared(self: seq<Permission>, client: nat) returns (h: Heap)
    ensures Follows(h, World(INIT, []), self, client)
    ensures fresh(h.table) && fresh(h.self) && h.issued == map[] && h.held == []
  {
    var table := new InFlightTable();
    var list := new Permission[|self|](i requires 0 <= i < |self| => self[i]);
    assert list[..] == self;
    h := Heap(table, map[], list, []);
    InitInv();
  }

  /** Over every sequence of steps, folds and writes the heap is the value world. */
  method DriveShared(self: seq<Permission>, client: nat, events: seq<Event>) returns (h: Heap)
    ensures Follows(h, WorldRun(self, client, events), self, client)
  {
    hide Follows, WorldStep;
    h := StartShared(self, client);
    var w := World(INIT, []);
    assert events[..0] == [];
    for n := 0 to |events|
      invariant w == WorldRun(self, client, events[..n])
      invariant Follows(h, w, self, client)
      invariant fresh(h.table) && fresh(h.issued.Values) && fresh(set a | a in h.held)
    {
      assert events[..n + 1][..n] == events[..n];
      h := ActShared(h, w, events[n], self, client);
      w := WorldStep(self, client, w, events[n]);
    }
    assert events[..|events|] == events;
  }

  /** So every closed entry still carries the answer that each caller sharing it is or was served. */
  lemma SharersKeepTheirAnswer(h: Heap, w: World, self: seq<Permission>, client: nat, c: nat)
    requires Follows(h, w, self, client)
    requires c < |w.s.callers| && w.s.callers[c].client == client && w.s.callers[c].phase.Served?
    ensures var id := w.s.callers[c].phase.entry;
            id in h.issued && h.issued[id].done && h.issued[id].Carries(w.s.callers[c].phase.answer)
  {
    var id := w.s.callers[c].phase.entry;
    assert CallerOk(w.s, c) && EntryOk(w.s, id);
    assert OfClient(w.s, id, client) && id in h.issued && EntryMirrors(h.issued[id], w.s.entries[id]);
  }
}
