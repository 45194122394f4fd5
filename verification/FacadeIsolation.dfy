/**
 * The same for the facade: a caller that writes into every slice it got from GetUserPermissions, Explain or the
 * cache changes neither the cache contents nor the self permissions, over any sequence of calls.
 */
module FacadeIsolation {
  import opened Basics
  import opened Keys
  import opened CacheSpec
  import opened InMemoryCache
  import opened HeapIsolation
  import opened RolePermissions
  import opened PermissionClient

  datatype Act =
    | OnCache(ev: Event)
    | AskAll(p: Pair, reply: Reply)
    | AskWhy(p: Pair, perm: Permission, reply: Reply)

  /** The value reading: an answer is a new slice of its own. */
  function FacadeStep(t: Tables, w: World, act: Act): World {
    match act
    case OnCache(ev) => WorldStep(w, ev)
    case AskAll(p, reply) =>
      var all := UserPermissions(t, Resolve(w.contents, p, reply));
      World(StoreAfter(w.contents, p, reply), if all.Ok? then w.slices + [all.value] else w.slices)
    case AskWhy(p, perm, reply) =>
      var why := Explanation(t, Resolve(w.contents, p, reply), perm);
      World(if IsUniversalPerm(t, perm) then w.contents else StoreAfter(w.contents, p, reply),
            if why.Ok? then w.slices + [why.value.permissions] else w.slices)
  }

  function FacadeRun(t: Tables, w: World, acts: seq<Act>): World {
    if acts == [] then w else FacadeStep(t, FacadeRun(t, w, acts[..|acts| - 1]), acts[|acts| - 1])
  }

  ghost predicate Apart(client: Client, held: seq<array<Permission>>)
    reads client.inFlight, client.selfPermissions
  {
    client.Ready() && client.selfPermissions !in held
  }

  method AskAllOnHeap(client: Client, held: seq<array<Permission>>, p: Pair, reply: Reply, ghost w: World)
    returns (held': seq<array<Permission>>)
    requires Mirrors(w, client.cache, held) && Apart(client, held)
    modifies client.cache, client.inFlight
    ensures Mirrors(FacadeStep(client.tables, w, AskAll(p, reply)), client.cache, held')
    ensures Apart(client, held') && held <= held' && fresh(set a | a in held'[|held|..])
  {
    var out, err := client.GetUserPermissions(p.user, p.tenant, reply);
    held' := if out != null then held + [out] else held;
  }

  method AskWhyOnHeap(client: Client, held: seq<array<Permission>>, p: Pair, perm: Permission, reply: Reply,
                      ghost w: World)
    returns (held': seq<array<Permission>>)
    requires Mirrors(w, client.cache, held) && Apart(client, held)
    modifies client.cache, client.inFlight
    ensures Mirrors(FacadeStep(client.tables, w, AskWhy(p, perm, reply)), client.cache, held')
    ensures Apart(client, held') && held <= held' && fresh(set a | a in held'[|held|..])
  {
    var out, err := client.Explain(p.user, p.tenant, perm, reply);
    held' := if out.Some? then held + [out.value.permissions] else held;
  }

  method ActOnHeap(client: Client, held: seq<array<Permission>>, act: Act, ghost w: World)
    returns (held': seq<array<Permission>>)
    requires Mirrors(w, client.cache, held) && Apart(client, held)
    modifies client.cache, client.inFlight, held
    ensures Mirrors(FacadeStep(client.tables, w, act), client.cache, held')
    ensures Apart(client, held') && held <= held' && fresh(set a | a in held'[|held|..])
  {
    match act {
      case OnCache(ev) =>
        held' := HeapIsolation.Act(client.cache, held, ev, w);
      case AskAll(p, reply) =>
        held' := AskAllOnHeap(client, held, p, reply, w);
      case AskWhy(p, perm, reply) =>
        held' := AskWhyOnHeap(client, held, p, perm, reply, w);
    }
  }

  /** Over every sequence of calls and writes: the value world, and the self permissions as generated. */
  method DriveFacade(tables: Tables, acts: seq<Act>) returns (client: Client, held: seq<array<Permission>>)
    ensures Mirrors(FacadeRun(tables, World(map[], []), acts), client.cache, held)
    ensures client.selfPermissions[..] == tables.selfPermissions
  {
    var cache := new InMemoryPermissionCache();
    client := new Client(cache, tables);
    held := [];
    ghost var start := World(map[], []);
    assert acts[..0] == [];
    for n := 0 to |acts|
      invariant client.tables == tables && client.cache == cache
      invariant Mirrors(FacadeRun(tables, start, acts[..n]), cache, held) && Apart(client, held)
      invariant fresh(cache) && fresh(client.inFlight) && fresh(set a | a in held)
    {
      assert acts[..n + 1][..n] == acts[..n];
      held := ActOnHeap(client, held, acts[n], FacadeRun(tables, start, acts[..n]));
    }
    assert acts[..|acts|] == acts;
  }
}
