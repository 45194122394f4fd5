/** Small generic vocabulary shared by the other modules. */
module Basics {

  datatype Option<+T> = None | Some(value: T)

  datatype Result<+T, +E> = Ok(value: T) | Err(error: E)

  predicate NoDup<T(==)>(s: seq<T>) {
    forall i, j :: 0 <= i < j < |s| ==> s[i] != s[j]
  }

  function ToSet<T(==)>(s: seq<T>): set<T> {
    set x | x in s
  }

  function Map<A, B>(f: A -> B, s: seq<A>): (r: seq<B>)
    ensures |r| == |s|
    ensures forall i :: 0 <= i < |s| ==> r[i] == f(s[i])
  {
    if s == [] then [] else [f(s[0])] + Map(f, s[1..])
  }

  /** A set that maps injectively into another is no larger. */
  lemma {:induction false} InjectionBounds(a: set<nat>, b: set<nat>, f: map<nat, nat>)
    requires forall x :: x in a ==> x in f && f[x] in b
    requires forall x, y :: x in a && y in a && f[x] == f[y] ==> x == y
    ensures |a| <= |b|
    decreases |a|
  {
    if a == {} {
    } else {
      var x :| x in a;
      InjectionBounds(a - {x}, b - {f[x]}, f);
    }
  }

  ghost predicate InjectiveFor<A, B>(f: A -> B, s: seq<A>) {
    forall x, y :: x in s && y in s && f(x) == f(y) ==> x == y
  }

  lemma NoDupMap<A, B>(f: A -> B, s: seq<A>)
    ensures NoDup(Map(f, s)) <==> NoDup(s) && InjectiveFor(f, s)
  {
    var m := Map(f, s);
    if NoDup(s) && InjectiveFor(f, s) {
      forall i, j | 0 <= i < j < |m| ensures m[i] != m[j] {
        assert s[i] in s && s[j] in s;
      }
    }
    if NoDup(m) {
      forall i, j | 0 <= i < j < |s| ensures s[i] != s[j] {
        assert m[i] != m[j];
      }
      forall x, y | x in s && y in s && f(x) == f(y) ensures x == y {
        var i :| 0 <= i < |s| && s[i] == x;
        var j :| 0 <= j < |s| && s[j] == y;
        assert m[i] == m[j];
      }
    }
  }

  lemma NoDupByCount<A>(s: seq<A>)
    ensures NoDup(s) <==> forall x :: x in s ==> multiset(s)[x] == 1
  {
    if s != [] {
      var init, last := s[..|s| - 1], s[|s| - 1];
      assert s == init + [last];
      NoDupByCount(init);
      if NoDup(s) {
        assert NoDup(init);
        forall x | x in s ensures multiset(s)[x] == 1 {
          assert last !in init;
          assert x != last ==> x in init;
        }
      }
      if forall x :: x in s ==> multiset(s)[x] == 1 {
        assert multiset(s)[last] == 1;
        assert last !in multiset(init);
        forall x | x in init ensures multiset(init)[x] == 1 {
          assert x in s && x in multiset(init);
        }
        assert NoDup(init);
      }
    }
  }

  lemma NoDupOfPermutation<A>(s: seq<A>, t: seq<A>)
    requires multiset(s) == multiset(t)
    ensures NoDup(s) <==> NoDup(t)
    ensures forall x :: x in s <==> x in t
  {
    NoDupByCount(s);
    NoDupByCount(t);
    forall x ensures x in s <==> x in t {
      assert x in multiset(s) <==> x in multiset(t);
    }
  }

  /** The map that a list of key-value pairs describes; a later pair wins. */
  function Assoc<K(==), V>(kvs: seq<(K, V)>): map<K, V> {
    if kvs == [] then map[] else Assoc(kvs[..|kvs| - 1])[kvs[|kvs| - 1].0 := kvs[|kvs| - 1].1]
  }

  function KeysOf<K, V>(kvs: seq<(K, V)>): (ks: seq<K>)
    ensures |ks| == |kvs| && forall i :: 0 <= i < |kvs| ==> ks[i] == kvs[i].0
  {
    seq(|kvs|, i requires 0 <= i < |kvs| => kvs[i].0)
  }

  /** With distinct keys, the map has exactly the listed pairs. */
  lemma {:induction false} AssocLookup<K, V>(kvs: seq<(K, V)>)
    requires NoDup(KeysOf(kvs))
    ensures forall k, v :: k in Assoc(kvs) && Assoc(kvs)[k] == v <==> (k, v) in kvs
    ensures forall k :: k in Assoc(kvs) <==> k in KeysOf(kvs)
  {
    if kvs != [] {
      var init, last := kvs[..|kvs| - 1], kvs[|kvs| - 1];
      assert kvs == init + [last];
      assert KeysOf(kvs) == KeysOf(init) + [last.0];
      AssocLookup(init);
      assert last.0 !in KeysOf(init);
      forall k, v ensures k in Assoc(kvs) && Assoc(kvs)[k] == v <==> (k, v) in kvs {
        assert (k, v) in init ==> k in Assoc(init) && k != last.0;
      }
    }
  }
}
