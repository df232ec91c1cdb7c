/**
 The order of paths in a listing: in every directory files come first, then subdirectories, then what is inside the
 subdirectories (src/duplicacy_entry.go).
 */
module Paths {

  const NUL := '\0'

  // ---------- the comparison as it is computed ----------

  /** The length of the longest common prefix. */
  function FirstDifference(a: string, b: string): (p: nat)
    ensures p <= |a| && p <= |b|
  {
    if a == [] || b == [] || a[0] != b[0] then 0 else 1 + FirstDifference(a[1..], b[1..])
  }

  /** The character at a position, or NUL past the end. */
  function CharAt(s: string, p: nat): (c: char) {
    if p < |s| then s[p] else NUL
  }

  /** The first slash at or after a position, or the length. */
  function NextSlash(s: string, p: nat): (i: nat)
    requires p <= |s|
    ensures p <= i <= |s| && (i < |s| ==> s[i] == '/')
    decreases |s| - p
  {
    if p == |s| || s[p] == '/' then p else NextSlash(s, p + 1)
  }

  /** The component at a position is followed by no other one. */
  predicate IsLast(s: string, p: nat)
    requires p <= |s|
  {
    NextSlash(s, p) + 1 >= |s|
  }

  predicate IsDirectory(s: string, p: nat)
    requires p <= |s|
  {
    NextSlash(s, p) < |s|
  }

  function Decide(left: string, right: string, p: nat): (r: int)
    requires p <= |left| && p <= |right|
  {
    var c1, c2 := CharAt(left, p), CharAt(right, p);
    if IsLast(left, p) != IsLast(right, p) then if IsLast(left, p) then -1 else 1
    else if IsDirectory(left, p) != IsDirectory(right, p) then if IsDirectory(right, p) then -1 else 1
    else if IsDirectory(left, p) && c1 == '/' then -1
    else if IsDirectory(left, p) && c2 == '/' then 1
    else c1 as int - c2 as int
  }

  function Compare(left: string, right: string): (r: int) {
    Decide(left, right, FirstDifference(left, right))
  }

  lemma {:induction false} DifferenceIs(a: string, b: string, p: nat)
    requires p <= |a| && p <= |b| && a[..p] == b[..p] && (p == |a| || p == |b| || a[p] != b[p])
    ensures FirstDifference(a, b) == p
  {
    if p > 0 {
      assert a[0] == a[..p][0] == b[..p][0] == b[0];
      assert a[1..][..p - 1] == a[..p][1..] == b[..p][1..] == b[1..][..p - 1];
      DifferenceIs(a[1..], b[1..], p - 1);
    }
  }

  lemma {:induction false} SlashIs(s: string, p: nat, i: nat)
    requires p <= i <= |s| && (forall k :: p <= k < i ==> s[k] != '/') && (i < |s| ==> s[i] == '/')
    ensures NextSlash(s, p) == i
    decreases i - p
  {
    if p < i {
      SlashIs(s, p + 1, i);
    }
  }

  /** How the component at a position ends: its last character, and whether it is the last component. */
  method ComponentEnd(s: string, p: nat) returns (c: char, last: bool)
    requires p <= |s|
    ensures (c == '/' <==> IsDirectory(s, p)) && (last <==> IsLast(s, p))
  {
    c, last := CharAt(s, p), true;
    var i := p;
    while i < |s|
      invariant p <= i <= |s| && last && (if i > p then c != '/' else c == CharAt(s, p))
      invariant forall k :: p <= k < i ==> s[k] != '/'
    {
      c := s[i];
      if c == '/' {
        last := i == |s| - 1;
        SlashIs(s, p, i);
        return;
      }
      i := i + 1;
    }
    SlashIs(s, p, |s|);
  }

  method ComparePaths(left: string, right: string) returns (r: int)
    ensures r == Compare(left, right)
  {
    var p := 0;
    while p < |left| && p < |right| && left[p] == right[p]
      invariant p <= |left| && p <= |right| && left[..p] == right[..p]
    {
      p := p + 1;
    }
    DifferenceIs(left, right, p);
    var c1, c2 := CharAt(left, p), CharAt(right, p);
    var c3, last1 := ComponentEnd(left, p);
    var c4, last2 := ComponentEnd(right, p);
    if last1 != last2 {
      return if last1 then -1 else 1;
    }
    if c3 == '/' {
      if c4 != '/' {
        return 1;
      }
      return if c1 == '/' then -1 else if c2 == '/' then 1 else c1 as int - c2 as int;
    }
    return if c4 == '/' then -1 else c1 as int - c2 as int;
  }

  // ---------- what the comparison means ----------

  datatype Kind = FileLeaf | DirectoryLeaf | Inside

  function Class(k: Kind): (n: nat) {
    match k case FileLeaf => 0 case DirectoryLeaf => 1 case Inside => 2
  }

  datatype Component = Component(kind: Kind, name: string)

  type Key = seq<Component>

  /** A path taken apart. */
  function KeyOf(path: string): (k: Key)
    ensures |k| > 0
    decreases |path|
  {
    var i := NextSlash(path, 0);
    if i == |path| then [Component(FileLeaf, path)]
    else if i == |path| - 1 then [Component(DirectoryLeaf, path[..i])]
    else [Component(Inside, path[..i])] + KeyOf(path[i + 1..])
  }

  predicate IsName(name: string) {
    name != [] && forall i :: 0 <= i < |name| ==> name[i] != '/' && name[i] != NUL
  }

  predicate IsPath(path: string) {
    IsKey(KeyOf(path))
  }

  predicate IsKey(k: Key) {
    && k != [] && (forall i :: 0 <= i < |k| ==> IsName(k[i].name))
    && (forall i :: 0 <= i < |k| ==> (k[i].kind == Inside <==> i < |k| - 1))
  }

  function Ending(kind: Kind): (s: string) {
    if kind == FileLeaf then "" else "/"
  }

  function PathOf(k: Key): (path: string) {
    if k == [] then "" else k[0].name + Ending(k[0].kind) + PathOf(k[1..])
  }

  predicate NameLess(a: string, b: string) {
    b != [] && (a == [] || a[0] < b[0] || (a[0] == b[0] && NameLess(a[1..], b[1..])))
  }

  predicate ComponentLess(a: Component, b: Component) {
    Class(a.kind) < Class(b.kind) || (a.kind == b.kind && NameLess(a.name, b.name))
  }

  predicate KeyLess(a: Key, b: Key) {
    b != [] && (a == [] || ComponentLess(a[0], b[0]) || (a[0] == b[0] && KeyLess(a[1..], b[1..])))
  }

  // ---------- the order is a strict total order ----------

  lemma {:induction false} NameOrder(a: string, b: string, c: string)
    ensures !NameLess(a, a)
    ensures a == b || NameLess(a, b) || NameLess(b, a)
    ensures !(NameLess(a, b) && NameLess(b, a))
    ensures NameLess(a, b) && NameLess(b, c) ==> NameLess(a, c)
    decreases |a| + |b| + |c|
  {
    if a != [] {
      NameOrder(a[1..], if b != [] then b[1..] else [], if c != [] then c[1..] else []);
      if b != [] && a[0] == b[0] && a[1..] == b[1..] {
        assert a == [a[0]] + a[1..] && b == [b[0]] + b[1..];
      }
    }
  }

  lemma ComponentOrder(a: Component, b: Component, c: Component)
    ensures !ComponentLess(a, a)
    ensures a == b || ComponentLess(a, b) || ComponentLess(b, a)
    ensures !(ComponentLess(a, b) && ComponentLess(b, a))
    ensures ComponentLess(a, b) && ComponentLess(b, c) ==> ComponentLess(a, c)
  {
    NameOrder(a.name, b.name, c.name);
  }

  lemma {:induction false} KeyOrder(a: Key, b: Key, c: Key)
    ensures !KeyLess(a, a)
    ensures a == b || KeyLess(a, b) || KeyLess(b, a)
    ensures !(KeyLess(a, b) && KeyLess(b, a))
    ensures KeyLess(a, b) && KeyLess(b, c) ==> KeyLess(a, c)
    decreases |a| + |b| + |c|
  {
    if a != [] {
      KeyOrder(a[1..], if b != [] then b[1..] else [], if c != [] then c[1..] else []);
      ComponentOrder(a[0], if b != [] then b[0] else a[0], if c != [] then c[0] else a[0]);
      if b != [] && a[0] == b[0] && a[1..] == b[1..] {
        assert a == [a[0]] + a[1..] && b == [b[0]] + b[1..];
      }
    }
  }

  // ---------- taking apart and putting together ----------

  lemma {:induction false} PathOfKeyOf(path: string)
    ensures PathOf(KeyOf(path)) == path
    decreases |path|
  {
    var i := NextSlash(path, 0);
    if i < |path| - 1 {
      PathOfKeyOf(path[i + 1..]);
      assert KeyOf(path)[1..] == KeyOf(path[i + 1..]);
      assert path == path[..i] + "/" + path[i + 1..];
    } else if i == |path| - 1 {
      assert path == path[..i] + "/";
    }
  }

  lemma {:induction false} KeyOfPathOf(k: Key)
    requires IsKey(k)
    ensures KeyOf(PathOf(k)) == k
    decreases |k|
  {
    var c, path := k[0], PathOf(k);
    var n := |c.name|;
    assert IsName(c.name) && path[..n] == c.name;
    if |k| > 1 {
      KeyOfPathOf(k[1..]);
      PathNonEmpty(k[1..]);
      SlashIs(path, 0, n);
      assert path[n + 1..] == PathOf(k[1..]);
    } else {
      assert k[1..] == [] && path == c.name + Ending(c.kind);
      SlashIs(path, 0, n);
    }
  }

  lemma PathNonEmpty(k: Key)
    requires IsKey(k)
    ensures PathOf(k) != ""
  {
    assert IsName(k[0].name);
  }

  // ---------- the comparison is the order of keys ----------

  lemma {:induction false} DifferenceShifts(pre: string, a: string, b: string)
    ensures FirstDifference(pre + a, pre + b) == |pre| + FirstDifference(a, b)
  {
    if pre == [] {
      assert pre + a == a && pre + b == b;
    } else {
      assert (pre + a)[1..] == pre[1..] + a && (pre + b)[1..] == pre[1..] + b;
      DifferenceShifts(pre[1..], a, b);
    }
  }

  lemma {:induction false} SlashShifts(pre: string, s: string, p: nat)
    requires p <= |s|
    ensures NextSlash(pre + s, |pre| + p) == |pre| + NextSlash(s, p)
    decreases |s| - p
  {
    if p < |s| && s[p] != '/' {
      SlashShifts(pre, s, p + 1);
    }
  }

  /** A common prefix does not matter. */
  lemma CompareShifts(pre: string, a: string, b: string)
    ensures Compare(pre + a, pre + b) == Compare(a, b)
  {
    var p := FirstDifference(a, b);
    DifferenceShifts(pre, a, b);
    SlashShifts(pre, a, p);
    SlashShifts(pre, b, p);
  }

  /** How names are ordered, from their first difference. */
  lemma {:induction false} NameLessAt(a: string, b: string)
    ensures
      var d := FirstDifference(a, b);
      && (d == |a| && d == |b| <==> a == b)
      && (NameLess(a, b) <==> d < |b| && (d == |a| || a[d] < b[d]))
  {
    if a != [] && b != [] && a[0] == b[0] {
      NameLessAt(a[1..], b[1..]);
      if a[1..] == b[1..] {
        assert a == [a[0]] + a[1..] && b == [b[0]] + b[1..];
      }
    }
  }

  /** The first component of a path. */
  ghost predicate StartsWith(path: string, c: Component, rest: string) {
    && IsName(c.name) && path == c.name + Ending(c.kind) + rest
    && (c.kind == Inside <==> rest != "")
    && (rest != "" ==> rest[0] != NUL)
  }

  lemma SlashInFirst(path: string, c: Component, rest: string, p: nat)
    requires StartsWith(path, c, rest) && p <= |c.name|
    ensures NextSlash(path, p) == |c.name|
    ensures IsLast(path, p) <==> c.kind != Inside
    ensures IsDirectory(path, p) <==> c.kind != FileLeaf
  {
    SlashIs(path, p, |c.name|);
  }

  lemma CharInFirst(path: string, c: Component, rest: string, p: nat)
    requires StartsWith(path, c, rest) && p <= |c.name|
    ensures CharAt(path, p) == if p < |c.name| then c.name[p] else CharAt(Ending(c.kind), 0)
    ensures p < |c.name| ==> c.name[p] != '/' && c.name[p] != NUL
    ensures p <= |path| && path[..p] == c.name[..p]
  {
  }

  lemma DifferenceInFirst(l: string, c: Component, x: string, r: string, d: Component, y: string)
    requires StartsWith(l, c, x) && StartsWith(r, d, y) && c.name != d.name
    ensures FirstDifference(l, r) == FirstDifference(c.name, d.name)
  {
    var p := FirstDifference(c.name, d.name);
    NameLessAt(c.name, d.name);
    CommonPrefix(c.name, d.name);
    CharInFirst(l, c, x, p);
    CharInFirst(r, d, y, p);
    DifferenceIs(l, r, p);
  }

  lemma {:induction false} CommonPrefix(a: string, b: string)
    ensures var p := FirstDifference(a, b); a[..p] == b[..p] && (p == |a| || p == |b| || a[p] != b[p])
  {
    var p := FirstDifference(a, b);
    if p > 0 {
      CommonPrefix(a[1..], b[1..]);
      assert a[..p] == [a[0]] + a[1..][..p - 1] && b[..p] == [b[0]] + b[1..][..p - 1];
    }
  }

  /** Different names decide, after kinds. */
  lemma CompareNames(l: string, c: Component, x: string, r: string, d: Component, y: string)
    requires StartsWith(l, c, x) && StartsWith(r, d, y) && c.name != d.name
    ensures Compare(l, r) != 0 && (Compare(l, r) < 0 <==> ComponentLess(c, d))
  {
    var p := FirstDifference(c.name, d.name);
    DifferenceInFirst(l, c, x, r, d, y);
    NameLessAt(c.name, d.name);
    CommonPrefix(c.name, d.name);
    CharInFirst(l, c, x, p);
    CharInFirst(r, d, y, p);
    SlashInFirst(l, c, x, p);
    SlashInFirst(r, d, y, p);
  }

  /** Equal names of different kinds. */
  lemma CompareKinds(l: string, c: Component, x: string, r: string, d: Component, y: string)
    requires StartsWith(l, c, x) && StartsWith(r, d, y) && c.name == d.name && Class(c.kind) < Class(d.kind)
    ensures Compare(l, r) < 0 && Compare(r, l) > 0
  {
    var n := |c.name|;
    if c.kind == FileLeaf {
      SlashInFirst(l, c, x, n);
      SlashInFirst(r, d, y, n);
      assert l[..n] == r[..n];
      DifferenceIs(l, r, n);
      DifferenceIs(r, l, n);
    } else {
      assert l[..n + 1] == r[..n + 1] && |l| == n + 1;
      DifferenceIs(l, r, n + 1);
      DifferenceIs(r, l, n + 1);
    }
  }

  /** What follows the first component. */
  function Rest(path: string): (rest: string) {
    var i := NextSlash(path, 0);
    if i < |path| then path[i + 1..] else ""
  }

  lemma FirstOfPath(path: string)
    requires IsPath(path)
    ensures StartsWith(path, KeyOf(path)[0], Rest(path))
    ensures KeyOf(path)[0].kind == Inside ==> IsPath(Rest(path)) && KeyOf(Rest(path)) == KeyOf(path)[1..]
    ensures KeyOf(path)[0].kind != Inside ==> KeyOf(path)[1..] == []
  {
    var i, k := NextSlash(path, 0), KeyOf(path);
    assert IsName(k[0].name);
    if 0 <= i < |path| - 1 {
      var rest := path[i + 1..];
      assert k[1..] == KeyOf(rest) && path == path[..i] + "/" + rest;
      forall j | 0 <= j < |k[1..]| ensures IsName(k[1..][j].name) && (k[1..][j].kind == Inside <==> j < |k[1..]| - 1) {
        assert k[1..][j] == k[j + 1];
      }
      FirstCharacter(rest);
    } else if i == |path| - 1 {
      assert path == path[..i] + "/" + "";
    } else {
      assert path == path + "" + "";
    }
  }

  lemma FirstCharacter(path: string)
    requires IsPath(path)
    ensures path != "" && path[0] != NUL
  {
    var i, k := NextSlash(path, 0), KeyOf(path);
    assert IsName(k[0].name) && k[0].name == path[..i];
    assert path[..i][0] == path[0];
  }

  /** The comparison of two paths is the order of their keys, and only a path itself compares as equal. */
  lemma {:induction false} CompareIsKeyOrder(l: string, r: string)
    requires IsPath(l) && IsPath(r)
    ensures Compare(l, r) < 0 <==> KeyLess(KeyOf(l), KeyOf(r))
    ensures Compare(l, r) == 0 <==> l == r
    decreases |l|
  {
    var a, b := KeyOf(l), KeyOf(r);
    var c, d, x, y := a[0], b[0], Rest(l), Rest(r);
    FirstOfPath(l);
    FirstOfPath(r);
    ComponentOrder(c, d, c);
    if c.name != d.name {
      CompareNames(l, c, x, r, d, y);
    } else if Class(c.kind) < Class(d.kind) {
      CompareKinds(l, c, x, r, d, y);
    } else if Class(d.kind) < Class(c.kind) {
      CompareKinds(r, d, y, l, c, x);
    } else {
      var pre := c.name + Ending(c.kind);
      CompareShifts(pre, x, y);
      if c.kind == Inside {
        CompareIsKeyOrder(x, y);
      } else {
        assert Compare("", "") == 0;
      }
    }
  }

  /** Comparing paths is a strict total order. */
  lemma CompareOrder(a: string, b: string, c: string)
    requires IsPath(a) && IsPath(b) && IsPath(c)
    ensures Compare(a, b) == 0 <==> a == b
    ensures Compare(a, b) < 0 <==> Compare(b, a) > 0
    ensures Compare(a, b) < 0 && Compare(b, c) < 0 ==> Compare(a, c) < 0
  {
    CompareIsKeyOrder(a, b);
    CompareIsKeyOrder(b, a);
    CompareIsKeyOrder(b, c);
    CompareIsKeyOrder(a, c);
    KeyOrder(KeyOf(a), KeyOf(b), KeyOf(c));
    if KeyOf(a) == KeyOf(b) {
      PathOfKeyOf(a);
      PathOfKeyOf(b);
    }
  }

  /** With a NUL in a name the comparison cannot tell two paths apart. */
  lemma NulIsConfused()
    ensures Compare("a", "a" + [NUL]) == 0
  {
    var b := "a" + [NUL];
    DifferenceIs("a", b, 1);
    SlashIs("a", 1, 1);
    SlashIs(b, 1, 2);
  }
}
