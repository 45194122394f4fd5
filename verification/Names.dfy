/** Go identifiers for permission and role names, and the parser that undoes the printing. */
module Names {
  import opened Basics

  predicate IsLower(c: char) {
    'a' <= c <= 'z'
  }

  predicate IsUpper(c: char) {
    'A' <= c <= 'Z'
  }

  function ToUpper(c: char): (r: char)
    ensures IsLower(c) ==> IsUpper(r) && ToLower(r) == c
    ensures !IsLower(c) ==> r == c
  {
    if IsLower(c) then (c as int - 'a' as int + 'A' as int) as char else c
  }

  function ToLower(c: char): (r: char)
    ensures IsUpper(c) ==> IsLower(r)
    ensures !IsUpper(c) ==> r == c
  {
    if IsUpper(c) then (c as int - 'A' as int + 'a' as int) as char else c
  }

  /** strings.Split(s, ":"): always at least one part. */
  function Split(s: string): (parts: seq<string>)
    ensures |parts| > 0
    ensures forall i :: 0 <= i < |parts| ==> ':' !in parts[i]
  {
    if s == "" then [""]
    else
      var rest := Split(s[1..]);
      if s[0] == ':' then [""] + rest else [[s[0]] + rest[0]] + rest[1..]
  }

  function Concat(parts: seq<string>): string {
    if parts == [] then "" else parts[0] + Concat(parts[1..])
  }

  function PascalizeSegment(s: string): string {
    if s == "" then s else [ToUpper(s[0])] + s[1..]
  }

  function Lowered(s: string): string {
    seq(|s|, i requires 0 <= i < |s| => ToLower(s[i]))
  }

  function PascalizeRole(s: string): string {
    if s == "" then s else [ToUpper(s[0])] + Lowered(s[1..])
  }

  /** The same letters, in whatever case, and the same other characters. */
  predicate SameButCase(s: string, t: string) {
    |s| == |t| && forall i :: 0 <= i < |s| ==> ToLower(s[i]) == ToLower(t[i])
  }

  /** A role name keeps its letters; its first one becomes a capital and no other one stays one. */
  lemma RoleNameShape(r: string)
    ensures var x := PascalizeRole(r);
            && SameButCase(x, r)
            && (x != "" ==> !IsLower(x[0]))
            && forall i :: 0 < i < |x| ==> !IsUpper(x[i])
  {
  }

  lemma SameCaseEqual(c: char, d: char)
    ensures ToUpper(c) == ToUpper(d) <==> ToLower(c) == ToLower(d)
  {
  }

  /** Two roles get the same constant if and only if they differ at most in case. */
  lemma RoleConstsCollideIff(r: string, q: string)
    ensures RoleConst(r) == RoleConst(q) <==> SameButCase(r, q)
  {
    var x, y := PascalizeRole(r), PascalizeRole(q);
    assert RoleConst(r)[4..] == x && RoleConst(q)[4..] == y;
    if SameButCase(r, q) {
      forall i | 0 <= i < |r| ensures x[i] == y[i] {
        SameCaseEqual(r[i], q[i]);
      }
      assert x == y;
    }
    if x == y {
      assert |x| == |r| && |y| == |q|;
      forall i | 0 <= i < |r| ensures ToLower(r[i]) == ToLower(q[i]) {
        assert x[i] == y[i];
        SameCaseEqual(r[i], q[i]);
      }
    }
  }

  const PERMISSION := "Permission"

  /** The identifier of a permission constant. */
  function ConstName(p: string): string {
    PERMISSION + Concat(Map(PascalizeSegment, Split(p)))
  }

  function RoleConst(r: string): string {
    "Role" + PascalizeRole(r)
  }

  /** The code overwrites the parts one by one and joins them. */
  method PermConstName(p: string) returns (name: string)
    ensures name == ConstName(p)
  {
    var split := Split(p);
    var parts := new string[|split|](i requires 0 <= i < |split| => split[i]);
    for i := 0 to parts.Length
      invariant forall j :: 0 <= j < i ==> parts[j] == PascalizeSegment(split[j])
      invariant forall j :: i <= j < parts.Length ==> parts[j] == split[j]
    {
      parts[i] := PascalizeSegment(parts[i]);
    }
    assert parts[..] == Map(PascalizeSegment, split);
    name := PERMISSION + Concat(parts[..]);
  }

  /** The identifier character by character: a colon vanishes and capitalises what follows. */
  function Camel(p: string, atStart: bool): string {
    if p == "" then ""
    else if p[0] == ':' then Camel(p[1..], true)
    else [if atStart then ToUpper(p[0]) else p[0]] + Camel(p[1..], false)
  }

  function PascalConcat(parts: seq<string>): string {
    if parts == [] then "" else PascalizeSegment(parts[0]) + PascalConcat(parts[1..])
  }

  lemma {:induction false} ConcatOfPascalized(parts: seq<string>)
    ensures Concat(Map(PascalizeSegment, parts)) == PascalConcat(parts)
  {
    if parts != [] {
      ConcatOfPascalized(parts[1..]);
      assert Map(PascalizeSegment, parts)[1..] == Map(PascalizeSegment, parts[1..]);
    }
  }

  lemma {:induction false} CamelIsPascalConcat(p: string)
    ensures PascalConcat(Split(p)) == Camel(p, true)
    ensures Split(p)[0] + PascalConcat(Split(p)[1..]) == Camel(p, false)
  {
    if p != "" {
      var rest := Split(p[1..]);
      CamelIsPascalConcat(p[1..]);
      if p[0] == ':' {
        assert Split(p)[1..] == rest;
      } else {
        assert Split(p)[1..] == rest[1..];
        assert Split(p)[0][1..] == rest[0];
      }
    }
  }

  lemma CamelIsConcat(p: string)
    ensures Concat(Map(PascalizeSegment, Split(p))) == Camel(p, true)
  {
    ConcatOfPascalized(Split(p));
    CamelIsPascalConcat(p);
  }

  /** Reading an identifier tail back: every capital opens a new segment. */
  function ParseTail(s: string): string {
    if s == "" then ""
    else (if IsUpper(s[0]) then [':', ToLower(s[0])] else [s[0]]) + ParseTail(s[1..])
  }

  function ParseConst(ident: string): Option<string> {
    if PERMISSION <= ident then
      var tail := ident[|PERMISSION|..];
      if tail != "" && IsUpper(tail[0]) then Some(ParseTail(tail)[1..]) else None
    else None
  }

  /** Colon-separated segments that are non-empty, start with a lower-case letter and have no capitals. */
  predicate GoodSegment(seg: string) {
    seg != "" && IsLower(seg[0]) && forall i :: 0 <= i < |seg| ==> !IsUpper(seg[i])
  }

  predicate AllGood(parts: seq<string>) {
    parts == [] || (GoodSegment(parts[0]) && AllGood(parts[1..]))
  }

  predicate GoodName(p: string) {
    AllGood(Split(p))
  }

  /** The same, in one pass. */
  predicate Good(p: string, atStart: bool) {
    if p == "" then !atStart
    else if p[0] == ':' then !atStart && Good(p[1..], true)
    else (atStart ==> IsLower(p[0])) && !IsUpper(p[0]) && Good(p[1..], false)
  }

  predicate CapitalFree(s: string) {
    forall i :: 0 <= i < |s| ==> !IsUpper(s[i])
  }

  lemma {:induction false} GoodInOnePass(p: string)
    ensures Good(p, true) <==> GoodName(p)
    ensures Good(p, false) <==> CapitalFree(Split(p)[0]) && AllGood(Split(p)[1..])
  {
    if p != "" {
      GoodInOnePass(p[1..]);
      var parts, rest := Split(p), Split(p[1..]);
      if p[0] == ':' {
        assert parts[1..] == rest;
      } else {
        assert parts[1..] == rest[1..];
        CapitalFreeCons(p[0], rest[0]);
      }
    }
  }

  lemma CapitalFreeCons(c: char, s: string)
    ensures CapitalFree([c] + s) <==> !IsUpper(c) && CapitalFree(s)
    ensures GoodSegment([c] + s) <==> IsLower(c) && CapitalFree([c] + s)
  {
    var t := [c] + s;
    assert t[0] == c && forall i :: 0 <= i < |s| ==> t[i + 1] == s[i];
    if !IsUpper(c) && CapitalFree(s) {
      forall i | 0 <= i < |t| ensures !IsUpper(t[i]) {
        assert i > 0 ==> t[i] == s[i - 1];
      }
    }
  }

  lemma {:induction false} ParseUndoesCamel(p: string, atStart: bool)
    requires Good(p, atStart)
    ensures ParseTail(Camel(p, atStart)) == (if atStart then ":" else "") + p
  {
    if p != "" {
      if p[0] == ':' {
        ParseUndoesCamel(p[1..], true);
        assert p == ":" + p[1..];
      } else {
        ParseUndoesCamel(p[1..], false);
        var c := if atStart then ToUpper(p[0]) else p[0];
        assert Camel(p, atStart)[1..] == Camel(p[1..], false);
        assert p == [p[0]] + p[1..];
      }
    }
  }

  lemma {:induction false} CamelHasNoColon(p: string, atStart: bool)
    ensures ':' !in Camel(p, atStart)
  {
    if p != "" {
      CamelHasNoColon(p[1..], p[0] == ':');
      CamelHasNoColon(p[1..], true);
      CamelHasNoColon(p[1..], false);
    }
  }

  /** Whatever the parser accepts, it returns a good name. */
  lemma {:induction false} ParsedIsGood(s: string)
    requires ':' !in s
    ensures Good(ParseTail(s), false)
  {
    if s != "" {
      ParsedIsGood(s[1..]);
      var rest := ParseTail(s[1..]);
      if IsUpper(s[0]) {
        var low := [ToLower(s[0])] + rest;
        assert low[1..] == rest;
        assert ParseTail(s) == ":" + low && (":" + low)[1..] == low;
      } else {
        assert ParseTail(s) == [s[0]] + rest && ([s[0]] + rest)[1..] == rest;
      }
    }
  }

  lemma {:induction false} SplitOfSegment(s: string)
    requires ':' !in s
    ensures Split(s) == [s]
  {
    if s != "" {
      SplitOfSegment(s[1..]);
      assert [s[0]] + s[1..] == s;
    }
  }

  lemma SingleSegment(s: string)
    requires GoodSegment(s) && ':' !in s
    ensures GoodName(s) && ConstName(s) == PERMISSION + PascalizeSegment(s)
  {
    SplitOfSegment(s);
    ConcatOfPascalized([s]);
    assert [s][1..] == [] && PascalConcat([]) == "";
  }

  lemma {:induction false} SplitFirst(seg: string, rest: string)
    requires ':' !in seg
    ensures Split(seg + ":" + rest) == [seg] + Split(rest)
  {
    var s := seg + ":" + rest;
    if seg == "" {
      assert s[1..] == rest;
    } else {
      assert s[1..] == seg[1..] + ":" + rest;
      SplitFirst(seg[1..], rest);
      assert [seg[0]] + seg[1..] == seg;
    }
  }

  /** Well-formed segments joined by a colon make a well-formed name. */
  lemma GoodPair(seg: string, rest: string)
    requires GoodSegment(seg) && ':' !in seg && GoodName(rest)
    ensures GoodName(seg + ":" + rest)
  {
    SplitFirst(seg, rest);
    assert ([seg] + Split(rest))[1..] == Split(rest);
  }

  /** The identifier of a permission can be read back if and only if its name is well formed. */
  lemma RoundTripIff(p: string)
    ensures ParseConst(ConstName(p)) == Some(p) <==> GoodName(p)
  {
    CamelIsConcat(p);
    GoodInOnePass(p);
    var tail := Camel(p, true);
    assert ConstName(p)[|PERMISSION|..] == tail;
    if GoodName(p) {
      ParseUndoesCamel(p, true);
      assert (":" + p)[1..] == p;
      assert p != "" && tail[0] == ToUpper(p[0]);
    } else {
      CamelHasNoColon(p, true);
      ParsedIsGood(tail);
      assert tail != "" && IsUpper(tail[0]) ==> ParseTail(tail)[0] == ':' && Good(ParseTail(tail)[1..], true);
    }
  }

  lemma ThreeParts(a: string, b: string, c: string)
    requires ':' !in a && ':' !in b && ':' !in c
    ensures Split(a + ":" + b + ":" + c) == [a, b, c]
  {
    hide Split;
    assert a + ":" + b + ":" + c == a + ":" + (b + ":" + c);
    SplitFirst(a, b + ":" + c);
    SplitFirst(b, c);
    SplitOfSegment(c);
  }

  lemma PascalOfThree(a: string, b: string, c: string)
    ensures PascalConcat([a, b, c]) == PascalizeSegment(a) + PascalizeSegment(b) + PascalizeSegment(c)
  {
    hide PascalizeSegment;
    assert [a, b, c][1..] == [b, c] && [b, c][1..] == [c] && [c][1..] == [];
    assert PascalConcat([c]) == PascalizeSegment(c) + PascalConcat([]) && PascalConcat([]) == "";
    assert PascalConcat([b, c]) == PascalizeSegment(b) + PascalConcat([c]);
  }

  /** The identifier of a three-part name, in the shape that the naming convention gives it. */
  lemma ThreePartConst(a: string, b: string, c: string)
    requires GoodSegment(a) && GoodSegment(b) && GoodSegment(c) && ':' !in a && ':' !in b && ':' !in c
    ensures ConstName(a + ":" + b + ":" + c) ==
            "Permission" + ([ToUpper(a[0])] + a[1..]) + ([ToUpper(b[0])] + b[1..]) + ([ToUpper(c[0])] + c[1..])
  {
    hide Split, Concat, PascalConcat, Map;
    ThreeParts(a, b, c);
    ConcatOfPascalized([a, b, c]);
    PascalOfThree(a, b, c);
  }

  /** So emitted constants never collide on well-formed names. */
  lemma ConstNameInjective(p: string, q: string)
    requires GoodName(p) && GoodName(q)
    ensures ConstName(p) == ConstName(q) <==> p == q
  {
    RoundTripIff(p);
    RoundTripIff(q);
  }

  /** On other names they can. */
  lemma ConstNameCollides()
    ensures ConstName("a:b") == ConstName("aB") && GoodName("a:b") && !GoodName("aB")
  {
    CamelIsConcat("a:b");
    CamelIsConcat("aB");
    GoodInOnePass("a:b");
    GoodInOnePass("aB");
    assert "a:b"[1..] == ":b" && ":b"[1..] == "b" && "b"[1..] == "" && "aB"[1..] == "B" && "B"[1..] == "";
    assert Camel("b", true) == "B" && Camel("B", false) == "B";
    assert Camel(":b", false) == "B";
    assert Good("b", true) && Good(":b", false) && Good("a:b", true);
    assert !Good("B", false) && !Good("aB", true);
  }
}
