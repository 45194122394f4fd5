/** foldSelfPermissions: the loops, and first-occurrence deduplication as what they compute. */
module Fold {
  import opened Basics
  import opened CacheSpec
  import opened InMemoryCache

  /** s without its repetitions: each element stays where it first occurs. */
  function FirstOccurrences(s: seq<Permission>): seq<Permission> {
    if s == [] then []
    else
      var init, last := s[..|s| - 1], s[|s| - 1];
      if last in init then FirstOccurrences(init) else FirstOccurrences(init) + [last]
  }

  lemma FirstOccurrencesSnoc(s: seq<Permission>, x: Permission)
    ensures FirstOccurrences(s + [x]) == if x in s then FirstOccurrences(s) else FirstOccurrences(s) + [x]
  {
    assert (s + [x])[..|s|] == s;
  }

  function FirstIndex(s: seq<Permission>, x: Permission): (i: nat)
    requires x in s
    ensures i < |s| && s[i] == x && x !in s[..i]
  {
    if s[0] == x then 0
    else
      assert x in s[1..];
      var i := FirstIndex(s[1..], x);
      assert s[..i + 1] == [s[0]] + s[1..][..i];
      i + 1
  }

  lemma {:induction false} FirstIndexUnique(s: seq<Permission>, x: Permission, i: nat)
    requires i < |s| && s[i] == x && x !in s[..i]
    ensures FirstIndex(s, x) == i
  {
    if i > 0 {
      assert s[..i] == [s[0]] + s[1..][..i - 1];
      FirstIndexUnique(s[1..], x, i - 1);
    }
  }

  lemma FirstIndexAppend(s: seq<Permission>, t: seq<Permission>, x: Permission)
    requires x in s
    ensures FirstIndex(s + t, x) == FirstIndex(s, x)
  {
    var i := FirstIndex(s, x);
    assert (s + t)[..i] == s[..i];
    FirstIndexUnique(s + t, x, i);
  }

  /** t lists the elements of s once each, in the order in which they first occur. */
  ghost predicate IsDedup(s: seq<Permission>, t: seq<Permission>) {
    && NoDup(t)
    && (forall x :: x in t <==> x in s)
    && (forall i, j :: 0 <= i < j < |t| ==> Before(s, t[i], t[j]))
  }

  predicate Before(s: seq<Permission>, x: Permission, y: Permission) {
    x in s && y in s && FirstIndex(s, x) < FirstIndex(s, y)
  }

  lemma {:induction false} FirstOccurrencesIsDedup(s: seq<Permission>)
    ensures IsDedup(s, FirstOccurrences(s))
  {
    if s != [] {
      var init, last := s[..|s| - 1], s[|s| - 1];
      FirstOccurrencesIsDedup(init);
      assert s == init + [last];
      var t := FirstOccurrences(init);
      forall i, j | 0 <= i < j < |t| ensures Before(s, t[i], t[j]) {
        assert Before(init, t[i], t[j]);
        FirstIndexAppend(init, [last], t[i]);
        FirstIndexAppend(init, [last], t[j]);
      }
      if last !in init {
        FirstIndexUnique(s, last, |init|);
        forall i | 0 <= i < |t| ensures Before(s, t[i], last) {
          assert t[i] in init;
          FirstIndexAppend(init, [last], t[i]);
        }
      }
    }
  }

  lemma BeforeInInit(s: seq<Permission>, x: Permission, a: Permission, b: Permission)
    requires Before(s + [x], a, b) && a in s && b in s
    ensures Before(s, a, b)
  {
    FirstIndexAppend(s, [x], a);
    FirstIndexAppend(s, [x], b);
  }

  /** A repeated last element leaves no trace in the deduplication. */
  lemma DedupOfRepeat(s: seq<Permission>, x: Permission, t: seq<Permission>)
    requires IsDedup(s + [x], t) && x in s
    ensures IsDedup(s, t)
  {
    forall y ensures y in s + [x] <==> y in s {
    }
    forall i, j | 0 <= i < j < |t| ensures Before(s, t[i], t[j]) {
      assert t[i] in t && t[j] in t;
      BeforeInInit(s, x, t[i], t[j]);
    }
  }

  /** A new last element comes last in it. */
  lemma NewElementIsLast(s: seq<Permission>, x: Permission, t: seq<Permission>)
    requires IsDedup(s + [x], t) && x !in s
    ensures t != [] && t[|t| - 1] == x
  {
    assert (s + [x])[|s|] == x;
    assert x in t;
    var k :| 0 <= k < |t| && t[k] == x;
    FirstIndexUnique(s + [x], x, |s|);
    assert k == |t| - 1 || Before(s + [x], t[k], t[|t| - 1]);
  }

  lemma DedupOfNew(s: seq<Permission>, x: Permission, t: seq<Permission>)
    requires IsDedup(s + [x], t + [x]) && x !in s
    ensures IsDedup(s, t)
  {
    var u := t + [x];
    forall i | 0 <= i < |t| ensures t[i] in s {
      assert u[i] == t[i] && u[|t|] == x;
      assert u[i] in u;
    }
    forall y | y in s ensures y in t {
      assert y in s + [x];
      assert y in u;
    }
    forall i, j | 0 <= i < j < |t| ensures t[i] != t[j] && Before(s, t[i], t[j]) {
      assert u[i] == t[i] && u[j] == t[j];
      BeforeInInit(s, x, t[i], t[j]);
    }
  }

  /** The description leaves no choice: a list is the deduplication if and only if it is FirstOccurrences. */
  lemma {:induction false} DedupUnique(s: seq<Permission>, t: seq<Permission>)
    ensures IsDedup(s, t) <==> t == FirstOccurrences(s)
  {
    FirstOccurrencesIsDedup(s);
    assert t != [] ==> t[0] in t;
    if IsDedup(s, t) {
      if s != [] {
        var init, last := s[..|s| - 1], s[|s| - 1];
        assert s == init + [last];
        if last in init {
          DedupOfRepeat(init, last, t);
          DedupUnique(init, t);
        } else {
          NewElementIsLast(init, last, t);
          var rest := t[..|t| - 1];
          assert t == rest + [last];
          DedupOfNew(init, last, rest);
          DedupUnique(init, rest);
        }
      }
    }
  }

  /** The contents of the folded list: self permissions first, then the role's. */
  function Folded(self: seq<Permission>, role: seq<Permission>): seq<Permission> {
    FirstOccurrences(self + role)
  }

  lemma DistinctStays(a: seq<Permission>)
    requires NoDup(a)
    ensures FirstOccurrences(a) == a
  {
    forall i, j | 0 <= i < j < |a| ensures Before(a, a[i], a[j]) {
      FirstIndexUnique(a, a[i], i);
      FirstIndexUnique(a, a[j], j);
    }
    DedupUnique(a, a);
  }

  lemma {:induction false} DistinctPrefixStays(a: seq<Permission>, b: seq<Permission>)
    requires NoDup(a)
    ensures a <= FirstOccurrences(a + b)
    decreases |b|
  {
    if b == [] {
      assert a + b == a;
      DistinctStays(a);
    } else {
      DistinctPrefixStays(a, b[..|b| - 1]);
      assert a + b == (a + b[..|b| - 1]) + [b[|b| - 1]];
      FirstOccurrencesSnoc(a + b[..|b| - 1], b[|b| - 1]);
    }
  }

  /** A duplicate-free self list comes first, unchanged. */
  lemma SelfComesFirst(self: seq<Permission>, role: seq<Permission>)
    requires NoDup(self)
    ensures self <= Folded(self, role)
  {
    DistinctPrefixStays(self, role);
  }

  lemma {:induction false} DedupFirst(a: seq<Permission>, b: seq<Permission>)
    ensures FirstOccurrences(FirstOccurrences(a) + b) == FirstOccurrences(a + b)
    decreases |b|
  {
    if b == [] {
      assert a + b == a && FirstOccurrences(a) + b == FirstOccurrences(a);
      FirstOccurrencesIsDedup(a);
      DistinctStays(FirstOccurrences(a));
    } else {
      DedupFirst(a, b[..|b| - 1]);
      DedupFirstSnoc(a, b[..|b| - 1], b[|b| - 1]);
      assert b == b[..|b| - 1] + [b[|b| - 1]];
    }
  }

  lemma DedupFirstSnoc(a: seq<Permission>, c: seq<Permission>, x: Permission)
    requires FirstOccurrences(FirstOccurrences(a) + c) == FirstOccurrences(a + c)
    ensures FirstOccurrences(FirstOccurrences(a) + (c + [x])) == FirstOccurrences(a + (c + [x]))
  {
    var f := FirstOccurrences(a);
    FirstOccurrencesIsDedup(a);
    assert a + (c + [x]) == (a + c) + [x] && f + (c + [x]) == (f + c) + [x];
    FirstOccurrencesSnoc(a + c, x);
    FirstOccurrencesSnoc(f + c, x);
    assert x in a + c <==> x in f + c;
  }

  lemma {:induction false} RepeatsVanish(a: seq<Permission>, b: seq<Permission>)
    requires forall x :: x in b ==> x in a
    ensures FirstOccurrences(a + b) == FirstOccurrences(a)
    decreases |b|
  {
    if b == [] {
      assert a + b == a;
    } else {
      RepeatsVanish(a, b[..|b| - 1]);
      assert a + b == (a + b[..|b| - 1]) + [b[|b| - 1]];
      FirstOccurrencesSnoc(a + b[..|b| - 1], b[|b| - 1]);
    }
  }

  lemma {:induction false} FoldTwice(self: seq<Permission>, a: seq<Permission>)
    ensures Folded(self, Folded(self, a)) == Folded(self, a)
    decreases |a|
  {
    if a == [] {
      assert self + a == self;
      FirstOccurrencesIsDedup(self);
      RepeatsVanish(self, FirstOccurrences(self));
    } else {
      var c, x := a[..|a| - 1], a[|a| - 1];
      FoldTwice(self, c);
      assert self + a == (self + c) + [x];
      FirstOccurrencesSnoc(self + c, x);
      FirstOccurrencesIsDedup(self + c);
      if x !in self + c {
        assert self + Folded(self, a) == (self + Folded(self, c)) + [x];
        FirstOccurrencesSnoc(self + Folded(self, c), x);
      }
    }
  }

  /** Folding is idempotent and absorbs an earlier fold of a prefix. */
  lemma FoldAbsorbs(self: seq<Permission>, a: seq<Permission>, b: seq<Permission>)
    ensures Folded(self, Folded(self, a)) == Folded(self, a)
    ensures Folded(self, Folded(self, a) + b) == Folded(self, a + b)
  {
    FoldTwice(self, a);
    AppendToFold(self, Folded(self, a), b);
    AppendToFold(self, a, b);
  }

  lemma AppendToFold(self: seq<Permission>, a: seq<Permission>, b: seq<Permission>)
    ensures Folded(self, a + b) == FirstOccurrences(Folded(self, a) + b)
  {
    DedupFirst(self + a, b);
    assert self + (a + b) == (self + a) + b;
  }

  /** One turn of either loop: append p unless it has been seen. */
  method AppendUnseen(seen: set<Permission>, merged: seq<Permission>, p: Permission, ghost done: seq<Permission>)
    returns (seen': set<Permission>, merged': seq<Permission>)
    requires seen == ToSet(done) && merged == FirstOccurrences(done)
    ensures seen' == ToSet(done + [p]) && merged' == FirstOccurrences(done + [p])
  {
    FirstOccurrencesSnoc(done, p);
    seen', merged' := seen, merged;
    if p !in seen {
      seen', merged' := seen + {p}, merged + [p];
    }
  }

  /** The two loops of the code, over a set of what has been seen. */
  method FoldSelfPermissions(self: array<Permission>, rolePerms: array<Permission>) returns (out: array<Permission>)
    ensures fresh(out)
    ensures out[..] == Folded(self[..], rolePerms[..])
  {
    var seen: set<Permission> := {};
    var merged: seq<Permission> := [];
    assert self[..0] == [];
    for i := 0 to self.Length
      invariant seen == ToSet(self[..i])
      invariant merged == FirstOccurrences(self[..i])
    {
      assert self[..i + 1] == self[..i] + [self[i]];
      seen, merged := AppendUnseen(seen, merged, self[i], self[..i]);
    }
    assert self[..self.Length] == self[..];
    assert self[..] + rolePerms[..0] == self[..];
    for i := 0 to rolePerms.Length
      invariant seen == ToSet(self[..] + rolePerms[..i])
      invariant merged == FirstOccurrences(self[..] + rolePerms[..i])
    {
      assert self[..] + rolePerms[..i + 1] == (self[..] + rolePerms[..i]) + [rolePerms[i]];
      seen, merged := AppendUnseen(seen, merged, rolePerms[i], self[..] + rolePerms[..i]);
    }
    assert rolePerms[..rolePerms.Length] == rolePerms[..];
    out := new Permission[|merged|](i requires 0 <= i < |merged| => merged[i]);
    assert out[..] == merged;
  }
}
