/**
 Listing a directory tree with an explicit stack (src/duplicacy_snapshot.go, src/duplicacy_entry.go).
 */
module DirectoryWalk {
  import opened Paths

  /** What a directory read returns. */
  datatype Node = Leaf(name: string) | Folder(name: string, readable: bool, children: seq<Node>)

  /** The order in which a directory is sorted: files first, then by name. */
  predicate NodeLess(a: Node, b: Node) {
    if a.Folder? then b.Folder? && NameLess(a.name, b.name)
    else b.Folder? || NameLess(a.name, b.name)
  }

  predicate SortedNodes(nodes: seq<Node>) {
    forall i, j :: 0 <= i < j < |nodes| ==> NodeLess(nodes[i], nodes[j])
  }

  /** The order in which a directory is read. */
  predicate InNameOrder(nodes: seq<Node>) {
    forall i, j :: 0 <= i < j < |nodes| ==> NameLess(nodes[i].name, nodes[j].name)
  }

  /** A tree as directory reads show it, level by level. */
  predicate IsTree(nodes: seq<Node>)
    decreases nodes, 1
  {
    InNameOrder(nodes) && HasTrees(nodes)
  }

  /** A directory sorted for the listing. */
  predicate IsSorted(nodes: seq<Node>) {
    SortedNodes(nodes) && HasTrees(nodes)
  }

  predicate HasTrees(nodes: seq<Node>)
    decreases nodes, 0
  {
    forall i :: 0 <= i < |nodes| ==> IsName(nodes[i].name) && (nodes[i].Folder? ==> IsTree(nodes[i].children))
  }

  // ---------- sorting a directory ----------

  /** How many nodes are left to visit. */
  function Weight(nodes: seq<Node>): (n: nat) {
    if nodes == [] then 0 else NodeWeight(nodes[0]) + Weight(nodes[1..])
  }

  function NodeWeight(n: Node): (w: nat)
    ensures w > 0 && (n.Folder? ==> Weight(n.children) < w)
  {
    1 + if n.Folder? then Weight(n.children) else 0
  }

  /** The library's sort, of which only its result matters: it is the one sorted order. */
  function Sorted(nodes: seq<Node>): (r: seq<Node>)
    ensures Weight(r) == Weight(nodes) && |r| == |nodes|
  {
    if nodes == [] then [] else Insert(nodes[0], Sorted(nodes[1..]))
  }

  function Insert(n: Node, nodes: seq<Node>): (r: seq<Node>)
    ensures Weight(r) == NodeWeight(n) + Weight(nodes) && |r| == |nodes| + 1
  {
    if nodes == [] || NodeLess(n, nodes[0]) then
      assert ([n] + nodes)[1..] == nodes;
      [n] + nodes
    else
      var rest := Insert(n, nodes[1..]);
      assert ([nodes[0]] + rest)[1..] == rest;
      [nodes[0]] + rest
  }

  lemma {:induction false} InsertHas(n: Node, nodes: seq<Node>, x: Node)
    ensures x in Insert(n, nodes) <==> x == n || x in nodes
  {
    if nodes != [] && !NodeLess(n, nodes[0]) {
      InsertHas(n, nodes[1..], x);
    }
  }

  /** Sorting changes the order only. */
  lemma {:induction false} SortedHas(nodes: seq<Node>, x: Node)
    ensures x in Sorted(nodes) <==> x in nodes
  {
    if nodes != [] {
      SortedHas(nodes[1..], x);
      InsertHas(nodes[0], Sorted(nodes[1..]), x);
    }
  }

  lemma NodeOrder(a: Node, b: Node, c: Node)
    ensures a.name != b.name ==> NodeLess(a, b) || NodeLess(b, a)
    ensures NodeLess(a, b) && NodeLess(b, c) ==> NodeLess(a, c)
  {
    NameOrder(a.name, b.name, c.name);
  }

  lemma {:induction false} InsertSorts(n: Node, nodes: seq<Node>)
    requires SortedNodes(nodes) && forall x :: x in nodes ==> x.name != n.name
    ensures SortedNodes(Insert(n, nodes))
  {
    if nodes != [] {
      var first, rest := nodes[0], Insert(n, nodes[1..]);
      NodeOrder(n, first, first);
      if NodeLess(n, first) {
        forall x | x in nodes ensures NodeLess(n, x) {
          NodeOrder(n, first, x);
        }
      } else {
        InsertSorts(n, nodes[1..]);
        forall x | x in rest ensures NodeLess(first, x) {
          InsertHas(n, nodes[1..], x);
        }
      }
    }
  }

  /** A directory as it is read can be sorted. */
  lemma {:induction false} SortedSorts(nodes: seq<Node>)
    requires InNameOrder(nodes)
    ensures SortedNodes(Sorted(nodes))
  {
    if nodes != [] {
      SortedSorts(nodes[1..]);
      forall x | x in Sorted(nodes[1..]) ensures x.name != nodes[0].name {
        SortedHas(nodes[1..], x);
        NameOrder(nodes[0].name, x.name, x.name);
      }
      InsertSorts(nodes[0], Sorted(nodes[1..]));
    }
  }

  lemma SortedTree(nodes: seq<Node>)
    requires IsTree(nodes)
    ensures IsSorted(Sorted(nodes))
  {
    SortedSorts(nodes);
    forall i | 0 <= i < |nodes| ensures IsName(Sorted(nodes)[i].name) && (Sorted(nodes)[i].Folder? ==> IsTree(Sorted(nodes)[i].children)) {
      SortedHas(nodes, Sorted(nodes)[i]);
    }
  }

  /** There is one sorted order: any list of the same nodes that is sorted is the one above. */
  lemma {:induction false} SortIsUnique(a: seq<Node>, b: seq<Node>)
    requires SortedNodes(a) && SortedNodes(b) && |a| == |b| && forall x :: x in a <==> x in b
    ensures a == b
  {
    if a != [] {
      assert a[0] in b && b[0] in a;
      Irreflexive(a[0]);
      Irreflexive(b[0]);
      NodeOrder(a[0], b[0], a[0]);
      forall x ensures x in a[1..] <==> x in b[1..] {
        OnlyFirst(a, x);
        OnlyFirst(b, x);
      }
      SortIsUnique(a[1..], b[1..]);
    }
  }

  lemma Irreflexive(n: Node)
    ensures !NodeLess(n, n)
  {
    NameOrder(n.name, n.name, n.name);
  }

  lemma OnlyFirst(nodes: seq<Node>, x: Node)
    requires nodes != [] && SortedNodes(nodes)
    ensures x in nodes[1..] <==> x in nodes && x != nodes[0]
  {
    Irreflexive(nodes[0]);
  }

  /** `keep` stands for include and exclude patterns; a directory holding a file named `noBackup` is listed as empty. */
  datatype Options = Options(keep: string -> bool, noBackup: string)

  const PREFERENCE_DIRECTORY := ".duplicacy"

  predicate IsKept(o: Options, prefix: string, n: Node) {
    n.name != PREFERENCE_DIRECTORY && o.keep(prefix + n.name)
  }

  predicate HasNoBackup(o: Options, nodes: seq<Node>) {
    o.noBackup != "" && exists i :: 0 <= i < |nodes| && nodes[i].name == o.noBackup
  }

  // ---------- the listing, by recursion over the tree ----------

  function LeafComponent(n: Node): (c: Component) {
    Component(if n.Leaf? then FileLeaf else DirectoryLeaf, n.name)
  }

  /** The entries of one directory. */
  function Own(o: Options, prefix: string, nodes: seq<Node>): (keys: seq<Key>) {
    if nodes == [] then []
    else (if IsKept(o, prefix, nodes[0]) then [[LeafComponent(nodes[0])]] else []) + Own(o, prefix, nodes[1..])
  }

  function Within(name: string, keys: seq<Key>): (r: seq<Key>)
    ensures |r| == |keys| && forall i :: 0 <= i < |keys| ==> r[i] == [Component(Inside, name)] + keys[i]
  {
    seq(|keys|, i requires 0 <= i < |keys| => [Component(Inside, name)] + keys[i])
  }

  predicate IsEntered(o: Options, prefix: string, n: Node) {
    n.Folder? && IsKept(o, prefix, n) && n.readable
  }

  /** What is inside the subdirectories, one after another. */
  function Deep(o: Options, prefix: string, nodes: seq<Node>): (keys: seq<Key>)
    decreases Weight(nodes), 0
  {
    if nodes == [] then []
    else
      (if IsEntered(o, prefix, nodes[0])
       then Within(nodes[0].name, Listing(o, prefix + nodes[0].name + "/", nodes[0].children)) else [])
      + Deep(o, prefix, nodes[1..])
  }

  function Listing(o: Options, prefix: string, nodes: seq<Node>): (keys: seq<Key>)
    decreases Weight(nodes), 1
  {
    if HasNoBackup(o, nodes) then [] else Own(o, prefix, Sorted(nodes)) + Deep(o, prefix, Sorted(nodes))
  }

  // ---------- it is in order ----------

  predicate Increasing(keys: seq<Key>) {
    forall i, j :: 0 <= i < j < |keys| ==> KeyLess(keys[i], keys[j])
  }

  predicate AllBelow(a: seq<Key>, b: seq<Key>) {
    forall i, j :: 0 <= i < |a| && 0 <= j < |b| ==> KeyLess(a[i], b[j])
  }

  lemma IncreasingJoin(a: seq<Key>, b: seq<Key>)
    requires Increasing(a) && Increasing(b) && AllBelow(a, b)
    ensures Increasing(a + b)
  {
  }

  lemma IncreasingWithin(name: string, keys: seq<Key>)
    requires Increasing(keys)
    ensures Increasing(Within(name, keys))
  {
    var r := Within(name, keys);
    forall i, j | 0 <= i < j < |r| ensures KeyLess(r[i], r[j]) {
      assert r[i][1..] == keys[i] && r[j][1..] == keys[j];
    }
  }

  ghost predicate StartsOwn(nodes: seq<Node>, k: Key) {
    |k| == 1 && exists n :: n in nodes && k[0] == LeafComponent(n)
  }

  ghost predicate StartsDeep(nodes: seq<Node>, k: Key) {
    |k| > 0 && exists n :: n in nodes && n.Folder? && k[0] == Component(Inside, n.name)
  }

  lemma {:induction false} OwnStart(o: Options, prefix: string, nodes: seq<Node>, i: nat)
    requires i < |Own(o, prefix, nodes)|
    ensures StartsOwn(nodes, Own(o, prefix, nodes)[i])
  {
    var here := if IsKept(o, prefix, nodes[0]) then 1 else 0;
    if i >= here {
      OwnStart(o, prefix, nodes[1..], i - here);
      var n :| n in nodes[1..] && Own(o, prefix, nodes)[i][0] == LeafComponent(n);
      assert n in nodes;
    } else {
      assert nodes[0] in nodes;
    }
  }

  function Inner(o: Options, prefix: string, n: Node): (keys: seq<Key>) {
    if IsEntered(o, prefix, n) then Within(n.name, Listing(o, prefix + n.name + "/", n.children)) else []
  }

  lemma {:induction false} DeepStart(o: Options, prefix: string, nodes: seq<Node>, i: nat)
    requires i < |Deep(o, prefix, nodes)|
    ensures StartsDeep(nodes, Deep(o, prefix, nodes)[i])
  {
    var here := |Inner(o, prefix, nodes[0])|;
    if i >= here {
      DeepStart(o, prefix, nodes[1..], i - here);
      var n :| n in nodes[1..] && n.Folder? && Deep(o, prefix, nodes)[i][0] == Component(Inside, n.name);
      assert n in nodes;
    } else {
      assert nodes[0] in nodes;
    }
  }

  lemma TreeRest(nodes: seq<Node>)
    requires IsSorted(nodes) && nodes != []
    ensures IsSorted(nodes[1..])
    ensures forall n :: n in nodes[1..] ==> NodeLess(nodes[0], n)
    ensures nodes[0].Folder? ==> IsTree(nodes[0].children)
  {
  }

  lemma {:induction false} OwnIncreasing(o: Options, prefix: string, nodes: seq<Node>)
    requires IsSorted(nodes)
    ensures Increasing(Own(o, prefix, nodes))
  {
    if nodes != [] {
      TreeRest(nodes);
      OwnIncreasing(o, prefix, nodes[1..]);
      var first, rest := if IsKept(o, prefix, nodes[0]) then [[LeafComponent(nodes[0])]] else [], Own(o, prefix, nodes[1..]);
      forall i, j | 0 <= i < |first| && 0 <= j < |rest| ensures KeyLess(first[i], rest[j]) {
        OwnStart(o, prefix, nodes[1..], j);
      }
      IncreasingJoin(first, rest);
    }
  }

  lemma {:induction false} DeepIncreasing(o: Options, prefix: string, nodes: seq<Node>)
    requires IsSorted(nodes)
    ensures Increasing(Deep(o, prefix, nodes))
    decreases Weight(nodes), 0
  {
    if nodes != [] {
      TreeRest(nodes);
      DeepIncreasing(o, prefix, nodes[1..]);
      var first, rest := Inner(o, prefix, nodes[0]), Deep(o, prefix, nodes[1..]);
      if IsEntered(o, prefix, nodes[0]) {
        ListingIncreasing(o, prefix + nodes[0].name + "/", nodes[0].children);
        IncreasingWithin(nodes[0].name, Listing(o, prefix + nodes[0].name + "/", nodes[0].children));
      }
      forall i, j | 0 <= i < |first| && 0 <= j < |rest| ensures KeyLess(first[i], rest[j]) {
        DeepStart(o, prefix, nodes[1..], j);
      }
      IncreasingJoin(first, rest);
    }
  }

  /** The listing of a tree is strictly increasing. */
  lemma {:induction false} ListingIncreasing(o: Options, prefix: string, nodes: seq<Node>)
    requires IsTree(nodes)
    ensures Increasing(Listing(o, prefix, nodes))
    decreases Weight(nodes), 1
  {
    var sorted := Sorted(nodes);
    SortedTree(nodes);
    OwnIncreasing(o, prefix, sorted);
    DeepIncreasing(o, prefix, sorted);
    var own, deep := Own(o, prefix, sorted), Deep(o, prefix, sorted);
    forall i, j | 0 <= i < |own| && 0 <= j < |deep| ensures KeyLess(own[i], deep[j]) {
      OwnStart(o, prefix, sorted, i);
      DeepStart(o, prefix, sorted, j);
    }
    IncreasingJoin(own, deep);
  }

  // ---------- it is complete ----------

  /** A path leads to a node through directories that are all kept and read: none is called `.duplicacy`, every path on the
      way is among those to keep, and no directory on the way has a marker file. */
  ghost predicate Reached(o: Options, prefix: string, nodes: seq<Node>, k: Key)
    decreases |k|
  {
    && k != [] && (o.noBackup != "" ==> forall n :: n in nodes ==> n.name != o.noBackup)
    && exists n :: n in nodes && LeadsTo(o, prefix, n, k)
  }

  ghost predicate LeadsTo(o: Options, prefix: string, n: Node, k: Key)
    requires k != []
    decreases |k|, 0
  {
    && n.name != ".duplicacy" && o.keep(prefix + n.name)
    && if |k| == 1 then k[0] == Component(if n.Leaf? then FileLeaf else DirectoryLeaf, n.name)
       else n.Folder? && n.readable && k[0] == Component(Inside, n.name) && Reached(o, prefix + n.name + "/", n.children, k[1..])
  }

  lemma {:induction false} OwnComplete(o: Options, prefix: string, nodes: seq<Node>, k: Key)
    ensures k in Own(o, prefix, nodes) <==> |k| == 1 && exists n :: n in nodes && IsKept(o, prefix, n) && k[0] == LeafComponent(n)
  {
    if nodes != [] {
      OwnComplete(o, prefix, nodes[1..], k);
      assert k == [LeafComponent(nodes[0])] <==> |k| == 1 && k[0] == LeafComponent(nodes[0]);
      assert forall n :: n in nodes <==> n == nodes[0] || n in nodes[1..];
    }
  }

  lemma WithinHas(name: string, keys: seq<Key>, k: Key)
    ensures k in Within(name, keys) <==> k != [] && k[0] == Component(Inside, name) && k[1..] in keys
  {
    var r := Within(name, keys);
    if k in r {
      var i :| 0 <= i < |r| && r[i] == k;
      assert k[1..] == keys[i];
    }
    if k != [] && k[0] == Component(Inside, name) && k[1..] in keys {
      var i :| 0 <= i < |keys| && keys[i] == k[1..];
      assert k == [k[0]] + k[1..] == r[i];
    }
  }

  lemma {:induction false} DeepComplete(o: Options, prefix: string, nodes: seq<Node>, k: Key)
    ensures k in Deep(o, prefix, nodes) <==> |k| > 1 && exists n :: n in nodes && LeadsTo(o, prefix, n, k)
    decreases Weight(nodes), 1
  {
    if nodes != [] {
      DeepComplete(o, prefix, nodes[1..], k);
      assert forall n :: n in nodes <==> n == nodes[0] || n in nodes[1..];
      InnerComplete(o, prefix, nodes, k);
      assert Deep(o, prefix, nodes) == Inner(o, prefix, nodes[0]) + Deep(o, prefix, nodes[1..]);
    }
  }

  lemma {:induction false} InnerComplete(o: Options, prefix: string, nodes: seq<Node>, k: Key)
    requires nodes != []
    ensures k in Inner(o, prefix, nodes[0]) <==> |k| > 1 && LeadsTo(o, prefix, nodes[0], k)
    decreases Weight(nodes), 0
  {
    var n := nodes[0];
    if IsEntered(o, prefix, n) {
      WithinHas(n.name, Listing(o, prefix + n.name + "/", n.children), k);
      if k != [] {
        ListingComplete(o, prefix + n.name + "/", n.children, k[1..]);
      }
    }
  }

  /** Exactly the nodes reached through kept and readable directories are listed. */
  lemma {:induction false} ListingComplete(o: Options, prefix: string, nodes: seq<Node>, k: Key)
    ensures k in Listing(o, prefix, nodes) <==> Reached(o, prefix, nodes, k)
    decreases Weight(nodes), 2
  {
    OwnComplete(o, prefix, Sorted(nodes), k);
    DeepComplete(o, prefix, Sorted(nodes), k);
    forall n ensures n in Sorted(nodes) <==> n in nodes {
      SortedHas(nodes, n);
    }
    if |k| == 1 {
      assert forall n :: n in nodes ==> (LeadsTo(o, prefix, n, k) <==> IsKept(o, prefix, n) && k[0] == LeafComponent(n));
    }
  }

  /** Everything listed is a well-formed path. */
  lemma {:induction false} ReachedIsKey(o: Options, prefix: string, nodes: seq<Node>, k: Key)
    requires IsTree(nodes) && Reached(o, prefix, nodes, k)
    ensures IsKey(k)
    decreases |k|
  {
    var n :| n in nodes && LeadsTo(o, prefix, n, k);
    assert IsName(n.name);
    if |k| > 1 {
      ReachedIsKey(o, prefix + n.name + "/", n.children, k[1..]);
      forall i | 0 <= i < |k| ensures IsName(k[i].name) && (k[i].kind == Inside <==> i < |k| - 1) {
        if i > 0 {
          assert k[i] == k[1..][i - 1];
        }
      }
    }
  }

  // ---------- the listing, with a stack ----------

  /** A directory on the stack. */
  datatype Pending = Pending(path: string, readable: bool, children: seq<Node>)

  function PathsFrom(prefix: string, keys: seq<Key>): (paths: seq<string>)
    ensures |paths| == |keys|
  {
    seq(|keys|, i requires 0 <= i < |keys| => prefix + PathOf(keys[i]))
  }

  lemma PathsJoin(prefix: string, a: seq<Key>, b: seq<Key>)
    ensures PathsFrom(prefix, a + b) == PathsFrom(prefix, a) + PathsFrom(prefix, b)
  {
  }

  function PendingOf(prefix: string, n: Node): (p: Pending)
    requires n.Folder?
  {
    Pending(prefix + n.name + "/", n.readable, n.children)
  }

  /** The subdirectories of a directory. */
  function Subs(o: Options, prefix: string, nodes: seq<Node>): (subs: seq<Pending>) {
    if nodes == [] then []
    else (if nodes[0].Folder? && IsKept(o, prefix, nodes[0]) then [PendingOf(prefix, nodes[0])] else []) + Subs(o, prefix, nodes[1..])
  }

  function DirectoryPaths(dirs: seq<Pending>): (paths: seq<string>)
    ensures |paths| == |dirs|
  {
    seq(|dirs|, i requires 0 <= i < |dirs| => dirs[i].path)
  }

  lemma {:induction false} OwnAppend(o: Options, prefix: string, nodes: seq<Node>, n: Node)
    ensures Own(o, prefix, nodes + [n]) == Own(o, prefix, nodes) + if IsKept(o, prefix, n) then [[LeafComponent(n)]] else []
  {
    if nodes != [] {
      assert (nodes + [n])[1..] == nodes[1..] + [n];
      OwnAppend(o, prefix, nodes[1..], n);
    }
  }

  lemma {:induction false} SubsAppend(o: Options, prefix: string, nodes: seq<Node>, n: Node)
    ensures Subs(o, prefix, nodes + [n]) ==
            Subs(o, prefix, nodes) + if n.Folder? && IsKept(o, prefix, n) then [PendingOf(prefix, n)] else []
  {
    if nodes != [] {
      assert (nodes + [n])[1..] == nodes[1..] + [n];
      SubsAppend(o, prefix, nodes[1..], n);
    }
  }

  /** One more node of a directory, while its files are sent and its subdirectories are kept for later. */
  lemma OwnStep(o: Options, prefix: string, nodes: seq<Node>, i: nat, sent: seq<string>, dirs: seq<Pending>)
    requires i < |nodes| && (nodes[i].Leaf? ==> dirs == [])
    requires dirs == Subs(o, prefix, nodes[..i]) && sent + DirectoryPaths(dirs) == PathsFrom(prefix, Own(o, prefix, nodes[..i]))
    ensures
      var n := nodes[i];
      var sent' := if IsKept(o, prefix, n) && n.Leaf? then sent + [prefix + n.name] else sent;
      var dirs' := if IsKept(o, prefix, n) && n.Folder? then dirs + [PendingOf(prefix, n)] else dirs;
      && dirs' == Subs(o, prefix, nodes[..i + 1])
      && sent' + DirectoryPaths(dirs') == PathsFrom(prefix, Own(o, prefix, nodes[..i + 1]))
  {
    var n := nodes[i];
    assert nodes[..i + 1] == nodes[..i] + [n];
    OwnAppend(o, prefix, nodes[..i], n);
    SubsAppend(o, prefix, nodes[..i], n);
    if IsKept(o, prefix, n) {
      PathsJoin(prefix, Own(o, prefix, nodes[..i]), [[LeafComponent(n)]]);
      LeafPath(prefix, n);
      if n.Folder? {
        assert DirectoryPaths(dirs + [PendingOf(prefix, n)]) == DirectoryPaths(dirs) + [prefix + n.name + "/"];
        Associative(sent, DirectoryPaths(dirs), [prefix + n.name + "/"]);
      } else {
        assert prefix + n.name + "" == prefix + n.name;
        assert DirectoryPaths(dirs) == [];
      }
    }
  }

  lemma LeafPath(prefix: string, n: Node)
    ensures PathsFrom(prefix, [[LeafComponent(n)]]) == [prefix + n.name + if n.Leaf? then "" else "/"]
  {
    var k := [LeafComponent(n)];
    assert k[1..] == [] && PathOf([]) == "";
    assert PathOf(k) == n.name + Ending(k[0].kind);
    assert prefix + PathOf(k) == prefix + n.name + Ending(k[0].kind);
  }

  function Reversed(s: seq<Pending>): (r: seq<Pending>)
    ensures |r| == |s|
  {
    if s == [] then [] else Reversed(s[1..]) + [s[0]]
  }

  lemma {:induction false} ReversedAt(s: seq<Pending>, k: nat)
    requires k < |s|
    ensures Reversed(s)[k] == s[|s| - 1 - k]
  {
    if k < |s| - 1 {
      ReversedAt(s[1..], k);
    }
  }

  method Reverse(s: seq<Pending>) returns (r: seq<Pending>)
    ensures r == Reversed(s)
  {
    r := s;
    var i, j := 0, |s| - 1;
    while i < j
      invariant 0 <= i <= j + 1 && i + j == |s| - 1 && |r| == |s|
      invariant forall k :: 0 <= k < i ==> r[k] == s[|s| - 1 - k]
      invariant forall k :: j < k < |s| ==> r[k] == s[|s| - 1 - k]
      invariant forall k :: i <= k <= j ==> r[k] == s[k]
    {
      r := r[i := r[j]][j := r[i]];
      i, j := i + 1, j - 1;
    }
    forall k | 0 <= k < |s| ensures r[k] == Reversed(s)[k] {
      ReversedAt(s, k);
    }
  }

  /** Before a file there are only files. */
  lemma {:induction false} NoSubsBefore(o: Options, prefix: string, nodes: seq<Node>, i: nat)
    requires i <= |nodes| && forall j :: 0 <= j < i ==> nodes[j].Leaf?
    ensures Subs(o, prefix, nodes[..i]) == []
  {
    if i > 0 {
      NoSubsBefore(o, prefix, nodes, i - 1);
      SubsAppend(o, prefix, nodes[..i - 1], nodes[i - 1]);
      assert nodes[..i] == nodes[..i - 1] + [nodes[i - 1]];
    }
  }

  /** The first `i` nodes of a directory were looked at: files are sent, subdirectories are kept for later. */
  ghost predicate SentUpTo(o: Options, prefix: string, nodes: seq<Node>, i: nat, sent: seq<string>, dirs: seq<Pending>)
    requires i <= |nodes|
  {
    dirs == Subs(o, prefix, nodes[..i]) && sent + DirectoryPaths(dirs) == PathsFrom(prefix, Own(o, prefix, nodes[..i]))
  }

  /** Looks at one node. */
  method SendOne(o: Options, prefix: string, nodes: seq<Node>, i: nat, sent: seq<string>, dirs: seq<Pending>)
    returns (sent': seq<string>, dirs': seq<Pending>)
    requires SortedNodes(nodes) && i < |nodes| && SentUpTo(o, prefix, nodes, i, sent, dirs)
    ensures SentUpTo(o, prefix, nodes, i + 1, sent', dirs')
  {
    var n := nodes[i];
    if n.Leaf? {
      NoSubsBefore(o, prefix, nodes, i);
    }
    OwnStep(o, prefix, nodes, i, sent, dirs);
    sent', dirs' := sent, dirs;
    if IsKept(o, prefix, n) {
      if n.Folder? {
        dirs' := dirs + [PendingOf(prefix, n)];
      } else {
        sent' := sent + [prefix + n.name];
      }
    }
  }

  /** Sends the files of a directory, collects its subdirectories and sends them last. */
  method SendEntries(o: Options, prefix: string, nodes: seq<Node>) returns (sent: seq<string>, dirs: seq<Pending>)
    requires SortedNodes(nodes)
    ensures sent == PathsFrom(prefix, Own(o, prefix, nodes)) && dirs == Subs(o, prefix, nodes)
  {
    sent, dirs := [], [];
    var i := 0;
    while i < |nodes|
      invariant i <= |nodes| && SentUpTo(o, prefix, nodes, i, sent, dirs)
    {
      sent, dirs := SendOne(o, prefix, nodes, i, sent, dirs);
      i := i + 1;
    }
    assert nodes[..i] == nodes;
    sent := sent + DirectoryPaths(dirs);
  }

  /** Searches a directory, which is read in the order of names, for a name. */
  method FindName(nodes: seq<Node>, name: string) returns (found: bool)
    requires InNameOrder(nodes)
    ensures found <==> exists i :: 0 <= i < |nodes| && nodes[i].name == name
  {
    var i, j := 0, |nodes|;
    while i < j
      invariant 0 <= i <= j <= |nodes|
      invariant forall k :: 0 <= k < i ==> NameLess(nodes[k].name, name)
      invariant forall k :: j <= k < |nodes| ==> !NameLess(nodes[k].name, name)
    {
      var h := (i + j) / 2;
      if NameLess(nodes[h].name, name) {
        forall k | 0 <= k < h ensures NameLess(nodes[k].name, name) {
          NameOrder(nodes[k].name, nodes[h].name, name);
        }
        i := h + 1;
      } else {
        forall k | h < k < |nodes| ensures !NameLess(nodes[k].name, name) {
          NameOrder(nodes[h].name, nodes[k].name, name);
        }
        j := h;
      }
    }
    found := i < |nodes| && nodes[i].name == name;
    NotBefore(nodes, name, i);
  }

  lemma NotBefore(nodes: seq<Node>, name: string, i: nat)
    requires InNameOrder(nodes) && i <= |nodes|
    requires forall k :: 0 <= k < i ==> NameLess(nodes[k].name, name)
    requires i < |nodes| ==> !NameLess(nodes[i].name, name)
    ensures (exists k :: 0 <= k < |nodes| && nodes[k].name == name) <==> i < |nodes| && nodes[i].name == name
  {
    NameOrder(name, name, name);
    forall k | i < k < |nodes| ensures nodes[k].name != name {
      NameOrder(nodes[i].name, nodes[k].name, name);
    }
  }

  /** Lists one directory: sends its entries, and returns its subdirectories, last one first. */
  method ListDir(o: Options, d: Pending) returns (ok: bool, sent: seq<string>, dirs: seq<Pending>)
    requires IsTree(d.children)
    ensures ok == d.readable && (!ok ==> sent == [] && dirs == [])
    ensures ok && HasNoBackup(o, d.children) ==> sent == [] && dirs == []
    ensures ok && !HasNoBackup(o, d.children) ==>
      sent == PathsFrom(d.path, Own(o, d.path, Sorted(d.children))) && dirs == Reversed(Subs(o, d.path, Sorted(d.children)))
  {
    if !d.readable {
      return false, [], [];
    }
    if o.noBackup != "" {
      var found := FindName(d.children, o.noBackup);
      if found {
        return true, [], [];
      }
    }
    SortedTree(d.children);
    sent, dirs := SendEntries(o, d.path, Sorted(d.children));
    dirs := Reverse(dirs);
    ok := true;
  }

  // ---------- directories that cannot be read ----------

  /** The paths of the directories in a tree that are reached but not read, in order. */
  function Unread(o: Options, prefix: string, nodes: seq<Node>): (paths: seq<string>)
    decreases Weight(nodes), 1
  {
    if HasNoBackup(o, nodes) then [] else UnreadIn(o, prefix, Sorted(nodes))
  }

  function UnreadIn(o: Options, prefix: string, nodes: seq<Node>): (paths: seq<string>)
    decreases Weight(nodes), 0
  {
    if nodes == [] then []
    else
      (if !nodes[0].Folder? || !IsKept(o, prefix, nodes[0]) then []
       else if nodes[0].readable then Unread(o, prefix + nodes[0].name + "/", nodes[0].children)
       else [prefix + nodes[0].name + "/"])
      + UnreadIn(o, prefix, nodes[1..])
  }

  /** A directory is kept and cannot be read, and so is everything on the way to it kept and read. */
  ghost predicate IsCutOff(o: Options, prefix: string, nodes: seq<Node>, path: string)
    decreases Weight(nodes), 1
  {
    && (o.noBackup != "" ==> forall n :: n in nodes ==> n.name != o.noBackup)
    && exists n :: n in nodes && CutsOff(o, prefix, nodes, n, path)
  }

  ghost predicate CutsOff(o: Options, prefix: string, nodes: seq<Node>, n: Node, path: string)
    requires n in nodes
    decreases Weight(nodes), 0
  {
    WeightOf(nodes, n);
    && n.Folder? && n.name != ".duplicacy" && o.keep(prefix + n.name)
    && if n.readable then IsCutOff(o, prefix + n.name + "/", n.children, path) else path == prefix + n.name + "/"
  }

  lemma {:induction false} WeightOf(nodes: seq<Node>, n: Node)
    requires n in nodes
    ensures NodeWeight(n) <= Weight(nodes)
  {
    if n != nodes[0] {
      WeightOf(nodes[1..], n);
    }
  }

  lemma {:induction false} UnreadInExact(o: Options, prefix: string, nodes: seq<Node>, path: string)
    ensures path in UnreadIn(o, prefix, nodes) <==> exists n :: n in nodes && CutsOff(o, prefix, nodes, n, path)
    decreases Weight(nodes), 0
  {
    if nodes != [] {
      UnreadInExact(o, prefix, nodes[1..], path);
      assert forall n :: n in nodes <==> n == nodes[0] || n in nodes[1..];
      assert forall n :: n in nodes[1..] ==> (CutsOff(o, prefix, nodes, n, path) <==> CutsOff(o, prefix, nodes[1..], n, path));
      if nodes[0].Folder? && nodes[0].readable {
        UnreadExact(o, prefix + nodes[0].name + "/", nodes[0].children, path);
      }
      assert path in UnreadIn(o, prefix, nodes) <==> CutsOff(o, prefix, nodes, nodes[0], path) || path in UnreadIn(o, prefix, nodes[1..]);
    }
  }

  /** Exactly the directories that are reached but cannot be read are reported. */
  lemma {:induction false} UnreadExact(o: Options, prefix: string, nodes: seq<Node>, path: string)
    ensures path in Unread(o, prefix, nodes) <==> IsCutOff(o, prefix, nodes, path)
    decreases Weight(nodes), 1
  {
    UnreadInExact(o, prefix, Sorted(nodes), path);
    forall n ensures n in Sorted(nodes) <==> n in nodes {
      SortedHas(nodes, n);
    }
    assert forall n :: n in nodes ==> (CutsOff(o, prefix, nodes, n, path) <==> CutsOff(o, prefix, Sorted(nodes), n, path));
  }

  // ---------- the stack lists what the recursion lists ----------

  function Emits(o: Options, d: Pending): (paths: seq<string>) {
    if d.readable then PathsFrom(d.path, Listing(o, d.path, d.children)) else []
  }

  /** What a stack still lists; its last directory comes first. */
  function Remaining(emits: Pending -> seq<string>, stack: seq<Pending>): (paths: seq<string>) {
    if stack == [] then [] else emits(stack[|stack| - 1]) + Remaining(emits, stack[..|stack| - 1])
  }

  function EmitsAll(emits: Pending -> seq<string>, dirs: seq<Pending>): (paths: seq<string>) {
    if dirs == [] then [] else emits(dirs[0]) + EmitsAll(emits, dirs[1..])
  }

  function Emitter(o: Options): (emits: Pending -> seq<string>) {
    (d: Pending) => Emits(o, d)
  }

  /** The directories a stack still reports. */
  function Reporter(o: Options): (reports: Pending -> seq<string>) {
    (d: Pending) => if d.readable then Unread(o, d.path, d.children) else [d.path]
  }

  lemma {:induction false} UnreadReports(o: Options, prefix: string, nodes: seq<Node>)
    ensures EmitsAll(Reporter(o), Subs(o, prefix, nodes)) == UnreadIn(o, prefix, nodes)
  {
    if nodes != [] {
      var rest := Subs(o, prefix, nodes[1..]);
      UnreadReports(o, prefix, nodes[1..]);
      if nodes[0].Folder? && IsKept(o, prefix, nodes[0]) {
        var sub := PendingOf(prefix, nodes[0]);
        assert ([sub] + rest)[1..] == rest && ([sub] + rest)[0] == sub;
      } else {
        assert [] + rest == rest;
      }
    }
  }

  lemma PathsWithin(prefix: string, name: string, keys: seq<Key>)
    ensures PathsFrom(prefix, Within(name, keys)) == PathsFrom(prefix + name + "/", keys)
  {
    var r := Within(name, keys);
    forall i | 0 <= i < |keys| ensures prefix + PathOf(r[i]) == prefix + name + "/" + PathOf(keys[i]) {
      assert r[i][1..] == keys[i];
      assert PathOf(r[i]) == name + "/" + PathOf(keys[i]);
    }
  }

  lemma {:induction false} DeepEmits(o: Options, prefix: string, nodes: seq<Node>)
    ensures EmitsAll(Emitter(o), Subs(o, prefix, nodes)) == PathsFrom(prefix, Deep(o, prefix, nodes))
  {
    if nodes != [] {
      var n, rest := nodes[0], Subs(o, prefix, nodes[1..]);
      DeepEmits(o, prefix, nodes[1..]);
      PathsJoin(prefix, Inner(o, prefix, n), Deep(o, prefix, nodes[1..]));
      if n.Folder? && IsKept(o, prefix, n) {
        var sub := PendingOf(prefix, n);
        assert ([sub] + rest)[1..] == rest;
        if n.readable {
          PathsWithin(prefix, n.name, Listing(o, sub.path, n.children));
        }
      } else {
        assert [] + rest == rest;
      }
    }
  }

  /** Pushing subdirectories last one first lists them in order. */
  lemma {:induction false} PushReversed(emits: Pending -> seq<string>, stack: seq<Pending>, subs: seq<Pending>)
    ensures Remaining(emits, stack + Reversed(subs)) == EmitsAll(emits, subs) + Remaining(emits, stack)
  {
    if subs == [] {
      assert stack + [] == stack;
    } else {
      var first, rest := subs[0], subs[1..];
      PushReversed(emits, stack, rest);
      RemainingTop(emits, stack + Reversed(rest), first);
      Associative(stack, Reversed(rest), [first]);
      Associative(emits(first), EmitsAll(emits, rest), Remaining(emits, stack));
    }
  }

  lemma Associative<T>(a: seq<T>, b: seq<T>, c: seq<T>)
    ensures a + (b + c) == a + b + c
  {
  }

  lemma RemainingTop(emits: Pending -> seq<string>, stack: seq<Pending>, d: Pending)
    ensures Remaining(emits, stack + [d]) == emits(d) + Remaining(emits, stack)
  {
    assert (stack + [d])[..|stack|] == stack;
  }

  function StackWeight(stack: seq<Pending>): (n: nat) {
    if stack == [] then 0 else 1 + Weight(stack[|stack| - 1].children) + StackWeight(stack[..|stack| - 1])
  }

  lemma WeightTop(stack: seq<Pending>, d: Pending)
    ensures StackWeight(stack + [d]) == StackWeight(stack) + 1 + Weight(d.children)
  {
    assert (stack + [d])[..|stack|] == stack;
  }

  lemma {:induction false} PushedWeight(o: Options, prefix: string, nodes: seq<Node>, stack: seq<Pending>)
    ensures StackWeight(stack + Reversed(Subs(o, prefix, nodes))) <= StackWeight(stack) + Weight(nodes)
  {
    if nodes == [] {
      assert stack + [] == stack;
    } else {
      var rest := Subs(o, prefix, nodes[1..]);
      PushedWeight(o, prefix, nodes[1..], stack);
      if nodes[0].Folder? && IsKept(o, prefix, nodes[0]) {
        var d := PendingOf(prefix, nodes[0]);
        assert ([d] + rest)[1..] == rest && ([d] + rest)[0] == d;
        WeightTop(stack + Reversed(rest), d);
        assert stack + (Reversed(rest) + [d]) == stack + Reversed(rest) + [d];
      } else {
        assert [] + rest == rest;
      }
    }
  }

  predicate StackOfTrees(stack: seq<Pending>) {
    forall d :: d in stack ==> IsTree(d.children)
  }

  lemma {:induction false} PushedTrees(o: Options, prefix: string, nodes: seq<Node>)
    requires IsSorted(nodes)
    ensures StackOfTrees(Reversed(Subs(o, prefix, nodes)))
  {
    if nodes != [] {
      TreeRest(nodes);
      var rest := Subs(o, prefix, nodes[1..]);
      PushedTrees(o, prefix, nodes[1..]);
      if nodes[0].Folder? && IsKept(o, prefix, nodes[0]) {
        var d := PendingOf(prefix, nodes[0]);
        assert ([d] + rest)[1..] == rest && ([d] + rest)[0] == d;
      } else {
        assert [] + rest == rest;
      }
    }
  }

  /** One directory listed: its own entries, then its subdirectories on top of the stack. */
  lemma VisitStep(o: Options, d: Pending, rest: seq<Pending>)
    requires d.readable && !HasNoBackup(o, d.children)
    ensures PathsFrom(d.path, Own(o, d.path, Sorted(d.children)))
            + Remaining(Emitter(o), rest + Reversed(Subs(o, d.path, Sorted(d.children))))
         == Emits(o, d) + Remaining(Emitter(o), rest)
  {
    var sorted := Sorted(d.children);
    var own, subs := PathsFrom(d.path, Own(o, d.path, sorted)), Subs(o, d.path, sorted);
    PushReversed(Emitter(o), rest, subs);
    DeepEmits(o, d.path, sorted);
    PathsJoin(d.path, Own(o, d.path, sorted), Deep(o, d.path, sorted));
    Associative(own, EmitsAll(Emitter(o), subs), Remaining(Emitter(o), rest));
  }

  lemma ReportStep(o: Options, d: Pending, rest: seq<Pending>)
    requires d.readable && !HasNoBackup(o, d.children)
    ensures Remaining(Reporter(o), rest + Reversed(Subs(o, d.path, Sorted(d.children))))
         == Reporter(o)(d) + Remaining(Reporter(o), rest)
  {
    PushReversed(Reporter(o), rest, Subs(o, d.path, Sorted(d.children)));
    UnreadReports(o, d.path, Sorted(d.children));
  }

  /** One turn of the walk. */
  method Visit(o: Options, d: Pending, rest: seq<Pending>) returns (sent: seq<string>, stack: seq<Pending>, ok: bool)
    requires IsTree(d.children) && StackOfTrees(rest)
    ensures StackOfTrees(stack) && StackWeight(stack) <= StackWeight(rest) + Weight(d.children)
    ensures sent + Remaining(Emitter(o), stack) == Emits(o, d) + Remaining(Emitter(o), rest)
    ensures (if ok then [] else [d.path]) + Remaining(Reporter(o), stack) == Reporter(o)(d) + Remaining(Reporter(o), rest)
    ensures ok == d.readable
  {
    var dirs;
    ok, sent, dirs := ListDir(o, d);
    stack := rest + dirs;
    if ok && !HasNoBackup(o, d.children) {
      VisitStep(o, d, rest);
      ReportStep(o, d, rest);
      SortedTree(d.children);
      PushedWeight(o, d.path, Sorted(d.children), rest);
      PushedTrees(o, d.path, Sorted(d.children));
    } else {
      assert rest + dirs == rest && Emits(o, d) == [];
    }
  }

  /** What was sent and reported so far, and what the stack still lists and reports. */
  ghost predicate WalkedSoFar(o: Options, stack: seq<Pending>, sent: seq<string>, skipped: seq<string>, all: seq<string>, unread: seq<string>) {
    && StackOfTrees(stack) && sent + Remaining(Emitter(o), stack) == all && skipped + Remaining(Reporter(o), stack) == unread
  }

  lemma WalkStep(o: Options, d: Pending, rest: seq<Pending>, next: seq<Pending>, sent: seq<string>, skipped: seq<string>,
                 out: seq<string>, report: seq<string>, all: seq<string>, unread: seq<string>)
    requires WalkedSoFar(o, rest + [d], sent, skipped, all, unread) && StackOfTrees(next)
    requires out + Remaining(Emitter(o), next) == Emits(o, d) + Remaining(Emitter(o), rest)
    requires report + Remaining(Reporter(o), next) == Reporter(o)(d) + Remaining(Reporter(o), rest)
    ensures WalkedSoFar(o, next, sent + out, skipped + report, all, unread)
  {
    RemainingTop(Emitter(o), rest, d);
    RemainingTop(Reporter(o), rest, d);
    Associative(sent, out, Remaining(Emitter(o), next));
    Associative(skipped, report, Remaining(Reporter(o), next));
  }

  /** Takes the last directory off the stack and lists it. */
  method WalkNext(o: Options, stack: seq<Pending>, sent: seq<string>, skipped: seq<string>, ghost all: seq<string>, ghost unread: seq<string>)
    returns (stack': seq<Pending>, sent': seq<string>, skipped': seq<string>)
    requires |stack| > 0 && WalkedSoFar(o, stack, sent, skipped, all, unread)
    ensures WalkedSoFar(o, stack', sent', skipped', all, unread) && StackWeight(stack') < StackWeight(stack)
  {
    var d, rest := stack[|stack| - 1], stack[..|stack| - 1];
    assert stack == rest + [d];
    var out, good;
    out, stack', good := Visit(o, d, rest);
    skipped' := if good then skipped else skipped + [d.path];
    sent' := sent + out;
    WalkStep(o, d, rest, stack', sent, skipped, out, if good then [] else [d.path], all, unread);
    assert skipped + [] == skipped;
  }

  /** Lists a whole tree. Directories that cannot be read are reported and passed over; only the root may not fail. */
  method ListLocalFiles(o: Options, readable: bool, nodes: seq<Node>) returns (ok: bool, sent: seq<string>, skipped: seq<string>)
    requires IsTree(nodes)
    ensures ok == readable
    ensures ok ==> sent == PathsFrom("", Listing(o, "", nodes))
    ensures ok ==> skipped == Unread(o, "", nodes)
  {
    var root := Pending("", readable, nodes);
    ghost var all, unread := Emits(o, root), Reporter(o)(root);
    var stack, good;
    sent, stack, good := Visit(o, root, []);
    skipped := [];
    if !good {
      return false, sent, skipped;
    }
    assert all + [] == all && unread + [] == unread;
    assert [] + Remaining(Reporter(o), stack) == Remaining(Reporter(o), stack);
    while |stack| > 0
      invariant WalkedSoFar(o, stack, sent, skipped, all, unread)
      decreases StackWeight(stack)
    {
      stack, sent, skipped := WalkNext(o, stack, sent, skipped, all, unread);
    }
    assert sent + [] == sent && skipped + [] == skipped;
    ok := true;
  }

  // ---------- what a walk gives ----------

  /** The paths of a walk strictly increase in the order of the comparison, and they are well-formed. */
  lemma WalkIncreasing(o: Options, nodes: seq<Node>, i: nat, j: nat)
    requires IsTree(nodes) && i < j < |Listing(o, "", nodes)|
    ensures
      var paths := PathsFrom("", Listing(o, "", nodes));
      IsPath(paths[i]) && IsPath(paths[j]) && Compare(paths[i], paths[j]) < 0
  {
    var keys := Listing(o, "", nodes);
    ListingIncreasing(o, "", nodes);
    KeysArePaths(o, nodes, i);
    KeysArePaths(o, nodes, j);
    CompareIsKeyOrder(PathOf(keys[i]), PathOf(keys[j]));
    assert "" + PathOf(keys[i]) == PathOf(keys[i]) && "" + PathOf(keys[j]) == PathOf(keys[j]);
  }

  lemma KeysArePaths(o: Options, nodes: seq<Node>, i: nat)
    requires IsTree(nodes) && i < |Listing(o, "", nodes)|
    ensures var k := Listing(o, "", nodes)[i]; IsKey(k) && KeyOf(PathOf(k)) == k && IsPath(PathOf(k))
  {
    var k := Listing(o, "", nodes)[i];
    ListingComplete(o, "", nodes, k);
    ReachedIsKey(o, "", nodes, k);
    KeyOfPathOf(k);
  }

  /** A well-formed path is listed exactly when it leads to a node through kept and readable directories. */
  lemma WalkComplete(o: Options, nodes: seq<Node>, path: string)
    requires IsTree(nodes) && IsPath(path)
    ensures path in PathsFrom("", Listing(o, "", nodes)) <==> Reached(o, "", nodes, KeyOf(path))
  {
    var keys := Listing(o, "", nodes);
    ListingComplete(o, "", nodes, KeyOf(path));
    if path in PathsFrom("", keys) {
      var i :| 0 <= i < |keys| && PathsFrom("", keys)[i] == path;
      KeysArePaths(o, nodes, i);
      assert "" + PathOf(keys[i]) == PathOf(keys[i]);
    }
    if KeyOf(path) in keys {
      var i :| 0 <= i < |keys| && keys[i] == KeyOf(path);
      PathOfKeyOf(path);
      assert PathsFrom("", keys)[i] == path;
    }
  }
}
