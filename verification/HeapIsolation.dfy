/**
 * Defensive copies: a caller that keeps every slice it passed in or got back, and writes into them at any
 * time, sees the cache behave as if slices were plain values.
 */
module HeapIsolation {
  import opened Basics
  import opened Keys
  import opened CacheSpec
  import opened InMemoryCache

  /** What a caller can do. A slice is named by the position at which the caller obtained it. */
  datatype Event =
    | Make(v: seq<Permission>)
    | Scribble(target: nat, at: nat, value: Permission)
    | Read(p: Pair)
    | Store(p: Pair, h: Option<nat>)
    | Overwrite(p: Pair, h: Option<nat>)
    | Remove(p: Pair)
    | RemoveTenant(tenant: string)

  /** The value reading of the same world: the cache contents and the caller's slices, sharing nothing. */
  datatype World = World(contents: CacheSpec.Store, slices: seq<seq<Permission>>)

  function Argument(w: World, h: Option<nat>): Slice {
    if h.Some? && h.value < |w.slices| then Some(w.slices[h.value]) else None
  }

  function WorldStep(w: World, ev: Event): World {
    match ev
    case Make(v) => w.(slices := w.slices + [v])
    case Scribble(h, at, value) =>
      if h < |w.slices| && at < |w.slices[h]| then w.(slices := w.slices[h := w.slices[h][at := value]]) else w
    case Read(p) =>
      var answer := StoreAnswer(w.contents, Get(p));
      if answer.Some? then w.(slices := w.slices + [answer.value]) else w
    case Store(p, h) => w.(contents := StoreStep(w.contents, Set(p, Argument(w, h))))
    case Overwrite(p, h) => w.(contents := StoreStep(w.contents, WriteThrough(p, Argument(w, h))))
    case Remove(p) => w.(contents := StoreStep(w.contents, Invalidate(p)))
    case RemoveTenant(t) => w.(contents := StoreStep(w.contents, InvalidateTenant(t)))
  }

  function WorldRun(w: World, events: seq<Event>): World {
    if events == [] then w else WorldStep(WorldRun(w, events[..|events| - 1]), events[|events| - 1])
  }

  /** The heap agrees with a value world, and nothing the caller holds is owned by the cache. */
  ghost predicate Mirrors(w: World, cache: InMemoryPermissionCache, held: seq<array<Permission>>)
    reads cache, cache.Owned(), held
  {
    && cache.Contents() == w.contents
    && |held| == |w.slices|
    && (forall i :: 0 <= i < |held| ==> held[i][..] == w.slices[i] && held[i] !in cache.Owned())
    && NoAliases(held)
  }

  ghost predicate NoAliases(held: seq<array<Permission>>) {
    forall i, j :: 0 <= i < j < |held| ==> held[i] != held[j]
  }

  predicate OnSlices(ev: Event) {
    ev.Make? || ev.Scribble? || ev.Read?
  }

  /** Making, overwriting and fetching slices leaves the cache as it is. */
  method ActOnSlices(cache: InMemoryPermissionCache, held: seq<array<Permission>>, ev: Event, ghost w: World)
    returns (held': seq<array<Permission>>)
    requires Mirrors(w, cache, held) && OnSlices(ev)
    modifies held
    ensures Mirrors(WorldStep(w, ev), cache, held')
    ensures held <= held' && fresh(set a | a in held'[|held|..])
  {
    held' := held;
    match ev {
      case Make(v) =>
        var a := new Permission[|v|](i requires 0 <= i < |v| => v[i]);
        assert a[..] == v;
        held' := held + [a];
      case Scribble(h, at, value) =>
        if h < |held| && at < held[h].Length {
          held[h][at] := value;
        }
      case Read(p) =>
        var a := cache.Get(p.user, p.tenant);
        if a != null {
          held' := held + [a];
        }
      case _ =>
    }
  }

  /** Writing to the cache leaves the caller's slices as they are. */
  method ActOnCache(cache: InMemoryPermissionCache, held: seq<array<Permission>>, ev: Event, ghost w: World)
    requires Mirrors(w, cache, held) && !OnSlices(ev)
    modifies cache
    ensures Mirrors(WorldStep(w, ev), cache, held)
    ensures fresh(cache.Owned() - old(cache.Owned()))
  {
    match ev {
      case Store(p, h) =>
        var a: array?<Permission> := if h.Some? && h.value < |held| then held[h.value] else null;
        cache.Set(p.user, p.tenant, a);
      case Overwrite(p, h) =>
        var a: array?<Permission> := if h.Some? && h.value < |held| then held[h.value] else null;
        cache.WriteThrough(p.user, p.tenant, a);
      case Remove(p) =>
        cache.Invalidate(p.user, p.tenant);
      case RemoveTenant(t) =>
        cache.InvalidateTenant(t);
      case _ =>
    }
  }

  /** One step on the heap follows one step on values. */
  method Act(cache: InMemoryPermissionCache, held: seq<array<Permission>>, ev: Event, ghost w: World)
    returns (held': seq<array<Permission>>)
    requires Mirrors(w, cache, held)
    modifies cache, held
    ensures Mirrors(WorldStep(w, ev), cache, held')
    ensures held <= held' && fresh(set a | a in held'[|held|..]) && fresh(cache.Owned() - old(cache.Owned()))
  {
    if OnSlices(ev) {
      held' := ActOnSlices(cache, held, ev, w);
    } else {
      ActOnCache(cache, held, ev, w);
      held' := held;
    }
  }

  /** Over every sequence of calls and writes, the heap world is the value world. */
  method Drive(events: seq<Event>) returns (cache: InMemoryPermissionCache, held: seq<array<Permission>>)
    ensures Mirrors(WorldRun(World(map[], []), events), cache, held)
  {
    cache := new InMemoryPermissionCache();
    held := [];
    ghost var start := World(map[], []);
    assert events[..0] == [];
    for n := 0 to |events|
      invariant Mirrors(WorldRun(start, events[..n]), cache, held)
      invariant fresh(cache) && fresh(set a | a in held) && fresh(cache.Owned())
    {
      assert events[..n + 1][..n] == events[..n];
      held := Act(cache, held, events[n], WorldRun(start, events[..n]));
    }
    assert events[..|events|] == events;
  }
}
