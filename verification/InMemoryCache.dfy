/** The process-local cache: a mutable map from concatenated keys to slices held on the heap. */
module InMemoryCache {
  import opened Basics
  import opened Keys
  import opened CacheSpec

  /** The value of a slice that a caller holds; null is the nil slice. */
  function ValueOf(a: array?<Permission>): Slice
    reads a
  {
    if a == null then None else Some(a[..])
  }

  method CopySlice(src: array?<Permission>) returns (out: array<Permission>)
    ensures fresh(out)
    ensures out[..] == Elements(ValueOf(src))
    ensures if src == null then out.Length == 0 else out[..] == src[..]
  {
    var n := if src == null then 0 else src.Length;
    out := new Permission[n](_ => "");
    for i := 0 to n
      invariant out[..i] == Elements(ValueOf(src))[..i]
    {
      out[i] := src[i];
      assert out[..i + 1] == out[..i] + [src[i]];
    }
  }

  class InMemoryPermissionCache {
    var store: map<string, array<Permission>>

    constructor ()
      ensures store == map[] && Contents() == map[]
    {
      store := map[];
    }

    /** The heap arrays the cache owns. */
    ghost function Owned(): set<array<Permission>>
      reads this
    {
      set k | k in store :: store[k]
    }

    ghost function Contents(): Store
      reads this, Owned()
    {
      map k | k in store :: store[k][..]
    }

    method Get(user: string, tenant: string) returns (out: array?<Permission>)
      ensures out != null ==> fresh(out)
      ensures ValueOf(out) == StoreAnswer(Contents(), CacheSpec.Get(Pair(user, tenant)))
      ensures var k := user + ":" + tenant;
              (out == null <==> k !in store) && (out != null ==> out[..] == store[k][..])
    {
      var k := MemKey(user, tenant);
      if k !in store {
        return null;
      }
      out := CopySlice(store[k]);
    }

    method Set(user: string, tenant: string, perms: array?<Permission>)
      modifies this
      ensures Contents() == StoreStep(old(Contents()), CacheSpec.Set(Pair(user, tenant), old(ValueOf(perms))))
      ensures var k := user + ":" + tenant;
              && (k in old(store) ==> store == old(store))
              && (k !in old(store) ==>
                    Contents() == old(Contents())[k := if perms == null then [] else old(perms[..])])
      ensures fresh(Owned() - old(Owned()))
    {
      var k := MemKey(user, tenant);
      if k in store {
        return;
      }
      var copy := CopySlice(perms);
      store := store[k := copy];
    }

    method WriteThrough(user: string, tenant: string, perms: array?<Permission>)
      modifies this
      ensures Contents() == StoreStep(old(Contents()), CacheSpec.WriteThrough(Pair(user, tenant), old(ValueOf(perms))))
      ensures Contents() == old(Contents())[user + ":" + tenant := if perms == null then [] else old(perms[..])]
      ensures fresh(Owned() - old(Owned()))
    {
      var copy := CopySlice(perms);
      store := store[MemKey(user, tenant) := copy];
    }

    method Invalidate(user: string, tenant: string)
      modifies this
      ensures Contents() == StoreStep(old(Contents()), CacheSpec.Invalidate(Pair(user, tenant)))
      ensures Contents() == old(Contents()) - {user + ":" + tenant}
      ensures Owned() <= old(Owned())
    {
      store := store - {MemKey(user, tenant)};
    }

    /** Deletes while ranging, in any order the map iteration takes. */
    method InvalidateTenant(tenant: string)
      modifies this
      ensures Contents() == StoreStep(old(Contents()), CacheSpec.InvalidateTenant(tenant))
      ensures forall k :: k in store <==> k in old(store) && !EndsWith(k, ":" + tenant)
      ensures forall k :: k in store ==> store[k] == old(store[k])
      ensures Owned() <= old(Owned())
    {
      var pending := store.Keys;
      while pending != {}
        invariant pending <= store.Keys <= old(store).Keys
        invariant forall k :: k in store ==> store[k] == old(store[k])
        invariant forall k :: k in old(store) && k !in pending ==> (k in store <==> !EndsWith(k, ":" + tenant))
        decreases |pending|
      {
        var k :| k in pending;
        pending := pending - {k};
        if EndsWith(k, ":" + tenant) {
          store := store - {k};
        }
      }
    }
  }
}
