/** sort.Strings: bytewise order, and a sorted rearrangement. */
module Sorting {
  import opened Basics

  predicate StringLe(a: string, b: string) {
    a == "" || (b != "" && (a[0] < b[0] || (a[0] == b[0] && StringLe(a[1..], b[1..]))))
  }

  lemma {:induction false} StringLeTotal(a: string, b: string)
    ensures StringLe(a, b) || StringLe(b, a)
  {
    if a != "" && b != "" {
      StringLeTotal(a[1..], b[1..]);
    }
  }

  lemma {:induction false} StringLeTransitive(a: string, b: string, c: string)
    requires StringLe(a, b) && StringLe(b, c)
    ensures StringLe(a, c)
  {
    if a != "" {
      if a[0] == b[0] == c[0] {
        StringLeTransitive(a[1..], b[1..], c[1..]);
      }
    }
  }

  lemma {:induction false} StringLeAntisymmetric(a: string, b: string)
    requires StringLe(a, b) && StringLe(b, a)
    ensures a == b
  {
    if a != "" {
      StringLeAntisymmetric(a[1..], b[1..]);
      assert a == [a[0]] + a[1..] && b == [b[0]] + b[1..];
    }
  }

  predicate Sorted(s: seq<string>) {
    forall i, j :: 0 <= i < j < |s| ==> StringLe(s[i], s[j])
  }

  function Insert(x: string, s: seq<string>): seq<string> {
    if s == [] || StringLe(x, s[0]) then [x] + s else [s[0]] + Insert(x, s[1..])
  }

  function SortStrings(s: seq<string>): seq<string> {
    if s == [] then [] else Insert(s[0], SortStrings(s[1..]))
  }

  lemma {:induction false} InsertKeepsElements(x: string, s: seq<string>)
    ensures multiset(Insert(x, s)) == multiset{x} + multiset(s)
  {
    if s != [] {
      assert s == [s[0]] + s[1..];
      InsertKeepsElements(x, s[1..]);
    }
  }

  predicate Below(x: string, s: seq<string>) {
    forall i :: 0 <= i < |s| ==> StringLe(x, s[i])
  }

  lemma SortedCons(x: string, s: seq<string>)
    requires Sorted(s) && Below(x, s)
    ensures Sorted([x] + s)
  {
  }

  lemma BelowAll(x: string, s: seq<string>)
    requires Sorted(s) && (s == [] || StringLe(x, s[0]))
    ensures Below(x, s)
  {
    forall i | 0 <= i < |s| ensures StringLe(x, s[i]) {
      if i > 0 {
        StringLeTransitive(x, s[0], s[i]);
      }
    }
  }

  lemma {:induction false} BelowInsert(y: string, x: string, s: seq<string>)
    requires StringLe(y, x) && Below(y, s)
    ensures Below(y, Insert(x, s))
  {
    if s != [] && !StringLe(x, s[0]) {
      BelowInsert(y, x, s[1..]);
    }
  }

  lemma {:induction false} InsertKeepsOrder(x: string, s: seq<string>)
    requires Sorted(s)
    ensures Sorted(Insert(x, s))
  {
    if s == [] || StringLe(x, s[0]) {
      BelowAll(x, s);
      SortedCons(x, s);
    } else {
      StringLeTotal(x, s[0]);
      InsertKeepsOrder(x, s[1..]);
      BelowInsert(s[0], x, s[1..]);
      SortedCons(s[0], Insert(x, s[1..]));
    }
  }

  /** Sorting gives the elements back in ascending order. */
  lemma {:induction false} SortSorts(s: seq<string>)
    ensures Sorted(SortStrings(s)) && multiset(SortStrings(s)) == multiset(s)
  {
    if s != [] {
      SortSorts(s[1..]);
      InsertKeepsOrder(s[0], SortStrings(s[1..]));
      InsertKeepsElements(s[0], SortStrings(s[1..]));
      assert s == [s[0]] + s[1..];
    }
  }

  lemma HeadIsLeast(s: seq<string>, x: string)
    requires Sorted(s) && x in multiset(s)
    ensures s != [] && StringLe(s[0], x)
  {
    assert x in s;
    StringLeTotal(s[0], s[0]);
  }

  lemma SameHead(s: seq<string>, t: seq<string>)
    requires Sorted(s) && Sorted(t) && multiset(s) == multiset(t) && s != [] && t != []
    ensures s[0] == t[0]
  {
    assert s[0] in multiset(s) && t[0] in multiset(t);
    HeadIsLeast(s, t[0]);
    HeadIsLeast(t, s[0]);
    StringLeAntisymmetric(s[0], t[0]);
  }

  lemma TailElements(s: seq<string>)
    requires s != []
    ensures multiset(s[1..]) == multiset(s) - multiset{s[0]}
  {
    assert s == [s[0]] + s[1..];
  }

  /** The sorted rearrangement is unique, so output never depends on input order. */
  lemma {:induction false} SortIsCanonical(s: seq<string>, t: seq<string>)
    requires Sorted(s) && Sorted(t) && multiset(s) == multiset(t)
    ensures s == t
  {
    assert |s| == |multiset(s)| == |multiset(t)| == |t|;
    if s != [] {
      SameHead(s, t);
      TailElements(s);
      TailElements(t);
      SortIsCanonical(s[1..], t[1..]);
      assert s == [s[0]] + s[1..] && t == [t[0]] + t[1..];
    }
  }
}
