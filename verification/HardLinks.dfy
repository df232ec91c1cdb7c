/**
 Hard links: how the lister numbers them (src/duplicacy_entry.go) and how a restore brings them back
 (src/duplicacy_backupmanager.go).
 */
module HardLinks {
  import opened Wrappers

  /** A file as the lister visits it: its inode if it has several links, and whether it turns out to be unreadable or
      excluded by an attribute. */
  datatype Visited = Visited(path: string, inode: Option<nat>, isLost: bool)

  datatype Link = Single | First | Further(id: nat)

  datatype Item = Item(path: string, link: Link)

  // ---------- what the ids mean ----------

  /** The first links among the first `k` items. */
  function Firsts(items: seq<Item>, k: nat): (r: seq<nat>)
    requires k <= |items|
    ensures forall i :: 0 <= i < |r| ==> r[i] < k
    ensures |r| <= k
  {
    if k == 0 then []
    else if items[k - 1].link.First? then Firsts(items, k - 1) + [k - 1]
    else Firsts(items, k - 1)
  }

  lemma {:induction false} FirstsOfPrefix(items: seq<Item>, more: seq<Item>, k: nat)
    requires k <= |items|
    ensures Firsts(items + more, k) == Firsts(items, k)
  {
    if k > 0 {
      FirstsOfPrefix(items, more, k - 1);
    }
  }

  lemma {:induction false} FirstsGrow(items: seq<Item>, k: nat, l: nat)
    requires k <= l <= |items|
    ensures Firsts(items, k) <= Firsts(items, l)
  {
    if k < l {
      FirstsGrow(items, k, l - 1);
    }
  }

  /** The id of the group an item belongs to. */
  function Group(items: seq<Item>, k: nat): (g: Option<nat>)
    requires k < |items|
  {
    match items[k].link
    case Single => None
    case First => Some(|Firsts(items, k)|)
    case Further(id) => Some(id)
  }

  /** An item is numbered right: first links have new inodes, further links name an earlier first link of their inode. */
  ghost predicate NumberedAt(items: seq<Item>, inodes: seq<Option<nat>>, k: nat)
    requires k < |items| == |inodes|
  {
    var firsts := Firsts(items, k);
    match items[k].link
    case Single => inodes[k].None?
    case First => inodes[k].Some? && forall i :: 0 <= i < |firsts| ==> inodes[firsts[i]] != inodes[k]
    case Further(id) => inodes[k].Some? && id < |firsts| && inodes[firsts[id]] == inodes[k]
  }

  ghost predicate Numbered(items: seq<Item>, inodes: seq<Option<nat>>) {
    |items| == |inodes| && forall k :: 0 <= k < |items| ==> NumberedAt(items, inodes, k)
  }

  lemma {:induction false} FirstsAreFirst(items: seq<Item>, k: nat, i: nat)
    requires k <= |items| && i < |Firsts(items, k)|
    ensures items[Firsts(items, k)[i]].link.First? && Firsts(items, Firsts(items, k)[i]) == Firsts(items, k)[..i]
  {
    if !(items[k - 1].link.First? && i == |Firsts(items, k)| - 1) {
      FirstsAreFirst(items, k - 1, i);
    }
  }

  /** First links have different inodes. */
  lemma FirstsDiffer(items: seq<Item>, inodes: seq<Option<nat>>, k: nat, i: nat, j: nat)
    requires Numbered(items, inodes) && k <= |items| && i < j < |Firsts(items, k)|
    ensures inodes[Firsts(items, k)[i]] != inodes[Firsts(items, k)[j]]
  {
    var m := Firsts(items, k)[j];
    FirstsAreFirst(items, k, j);
    assert NumberedAt(items, inodes, m);
    assert Firsts(items, m)[i] == Firsts(items, k)[i];
  }

  /** An item has the inode of the first link its group is numbered after. */
  lemma GroupInode(items: seq<Item>, inodes: seq<Option<nat>>, k: nat)
    requires Numbered(items, inodes) && k < |items| && Group(items, k).Some?
    ensures
      var g, all := Group(items, k).value, Firsts(items, |items|);
      g < |all| && inodes[all[g]] == inodes[k] && inodes[k].Some?
  {
    assert NumberedAt(items, inodes, k);
    FirstsGrow(items, k, |items|);
    if items[k].link.First? {
      FirstsGrow(items, k + 1, |items|);
      assert Firsts(items, k + 1)[|Firsts(items, k)|] == k;
    }
  }

  /** Two items are in one group exactly when they have one inode. */
  lemma GroupsAreInodes(items: seq<Item>, inodes: seq<Option<nat>>, k: nat, l: nat)
    requires Numbered(items, inodes) && k < |items| && l < |items|
    ensures Group(items, k).Some? <==> inodes[k].Some?
    ensures Group(items, k).Some? && Group(items, l).Some? ==> (Group(items, k) == Group(items, l) <==> inodes[k] == inodes[l])
  {
    assert NumberedAt(items, inodes, k) && NumberedAt(items, inodes, l);
    if Group(items, k).Some? && Group(items, l).Some? {
      GroupInode(items, inodes, k);
      GroupInode(items, inodes, l);
      var g, h := Group(items, k).value, Group(items, l).value;
      if g < h {
        FirstsDiffer(items, inodes, |items|, g, h);
      } else if h < g {
        FirstsDiffer(items, inodes, |items|, h, g);
      }
    }
  }

  // ---------- the lister ----------

  class LinkLister {
    var linkTable: map<nat, int>
    var linkIndex: nat

    /** What was listed so far. */
    ghost var items: seq<Item>
    ghost var inodes: seq<Option<nat>>

    ghost predicate Valid()
      reads this
    {
      && Numbered(items, inodes) && linkIndex == |Firsts(items, |items|)|
      && (forall n :: n in linkTable ==> TableAt(n))
      && (forall i :: 0 <= i < linkIndex ==> inodes[Firsts(items, |items|)[i]].Some? && inodes[Firsts(items, |items|)[i]].value in linkTable)
    }

    /** A known inode is lost, or its entry is the number of its first link. */
    ghost predicate TableAt(n: nat)
      reads this
      requires n in linkTable && |items| == |inodes|
    {
      linkTable[n] == -1 || (0 <= linkTable[n] < |Firsts(items, |items|)| && inodes[Firsts(items, |items|)[linkTable[n]]] == Some(n))
    }

    constructor ()
      ensures Valid() && items == [] && linkTable == map[]
    {
      linkTable, linkIndex, items, inodes := map[], 0, [], [];
    }

    /** Adds an item to what was listed. */
    ghost method Append(item: Item, inode: Option<nat>)
      requires Numbered(items, inodes) && FitsNext(items, inodes, item.link, inode)
      modifies this`items, this`inodes
      ensures items == old(items) + [item] && inodes == old(inodes) + [inode] && Numbered(items, inodes)
    {
      NumberedAppend(items, inodes, item, inode);
      items, inodes := items + [item], inodes + [inode];
    }

    /** Visits a file that has no other links. */
    method VisitSingle(f: Visited) returns (r: Option<Item>)
      requires Valid() && f.inode.None?
      modifies this`items, this`inodes
      ensures Valid()
      ensures r == if f.isLost then None else Some(Item(f.path, Single))
      ensures items == old(items) + (if r.Some? then [r.value] else []) && inodes == old(inodes) + (if r.Some? then [f.inode] else [])
    {
      if f.isLost {
        return None;
      }
      r := Some(Item(f.path, Single));
      FirstsAppend(items, r.value);
      Append(r.value, None);
      assert forall n :: n in linkTable ==> old(TableAt(n));
    }

    /** Visits a link to an inode seen before. */
    method VisitKnown(f: Visited, n: nat) returns (r: Option<Item>)
      requires Valid() && f.inode == Some(n) && n in linkTable
      modifies this`items, this`inodes
      ensures Valid()
      ensures r == if linkTable[n] == -1 then None else Some(Item(f.path, Further(linkTable[n])))
      ensures items == old(items) + (if r.Some? then [r.value] else []) && inodes == old(inodes) + (if r.Some? then [f.inode] else [])
    {
      assert TableAt(n);
      if linkTable[n] == -1 {
        return None;
      }
      r := Some(Item(f.path, Further(linkTable[n])));
      FirstsAppend(items, r.value);
      Append(r.value, f.inode);
      assert forall n :: n in linkTable ==> old(TableAt(n));
    }

    /** Lists the first link to an inode. */
    method ListFirst(f: Visited, n: nat) returns (r: Option<Item>)
      requires Valid() && f.inode == Some(n) && n !in linkTable
      modifies this
      ensures Valid() && r == Some(Item(f.path, First)) && linkTable == old(linkTable)[n := old(linkIndex)]
      ensures items == old(items) + [r.value] && inodes == old(inodes) + [f.inode]
    {
      r := Some(Item(f.path, First));
      FirstsAppend(items, r.value);
      Append(r.value, f.inode);
      linkTable := linkTable[n := linkIndex];
      linkIndex := linkIndex + 1;
      assert forall m :: m in linkTable && m != n ==> old(TableAt(m));
    }

    /** Visits the first link to an inode. If the file is lost, its other links will be left out. */
    method VisitFirst(f: Visited, n: nat) returns (r: Option<Item>)
      requires Valid() && f.inode == Some(n) && n !in linkTable
      modifies this
      ensures Valid()
      ensures r == if f.isLost then None else Some(Item(f.path, First))
      ensures linkTable == old(linkTable)[n := if f.isLost then -1 else old(linkIndex)]
      ensures items == old(items) + (if r.Some? then [r.value] else []) && inodes == old(inodes) + (if r.Some? then [f.inode] else [])
    {
      if f.isLost {
        linkTable := linkTable[n := -1];
        assert forall m :: m in linkTable && m != n ==> old(TableAt(m));
        return None;
      }
      r := ListFirst(f, n);
    }

    method Visit(f: Visited) returns (r: Option<Item>)
      requires Valid()
      modifies this
      ensures Valid()
      ensures items == old(items) + (if r.Some? then [r.value] else []) && inodes == old(inodes) + (if r.Some? then [f.inode] else [])
      ensures r.Some? ==> r.value.path == f.path
      ensures r.None? <==> if f.inode.Some? && f.inode.value in old(linkTable) then old(linkTable)[f.inode.value] == -1 else f.isLost
      ensures linkTable == if f.inode.Some? && f.inode.value !in old(linkTable)
                           then old(linkTable)[f.inode.value := if f.isLost then -1 else old(linkIndex)] else old(linkTable)
    {
      if f.inode.None? {
        r := VisitSingle(f);
      } else if f.inode.value in linkTable {
        r := VisitKnown(f, f.inode.value);
      } else {
        r := VisitFirst(f, f.inode.value);
      }
    }
  }

  /** What the next item must be to be numbered right. */
  ghost predicate FitsNext(items: seq<Item>, inodes: seq<Option<nat>>, link: Link, inode: Option<nat>)
    requires |items| == |inodes|
  {
    var firsts := Firsts(items, |items|);
    match link
    case Single => inode.None?
    case First => inode.Some? && forall i :: 0 <= i < |firsts| ==> inodes[firsts[i]] != inode
    case Further(id) => inode.Some? && id < |firsts| && inodes[firsts[id]] == inode
  }

  lemma FirstsAppend(items: seq<Item>, item: Item)
    ensures Firsts(items + [item], |items| + 1) == Firsts(items, |items|) + if item.link.First? then [|items|] else []
  {
    FirstsOfPrefix(items, [item], |items|);
  }

  lemma NumberedAppend(items: seq<Item>, inodes: seq<Option<nat>>, item: Item, inode: Option<nat>)
    requires Numbered(items, inodes) && FitsNext(items, inodes, item.link, inode)
    ensures Numbered(items + [item], inodes + [inode])
  {
    forall k | 0 <= k <= |items| ensures NumberedAt(items + [item], inodes + [inode], k) {
      FirstsOfPrefix(items, [item], k);
      if k < |items| {
        assert NumberedAt(items, inodes, k);
      }
    }
  }

  // ---------- a whole listing ----------

  /** The first visit to an inode. */
  predicate IsFirstVisit(files: seq<Visited>, inode: nat, m: nat) {
    m < |files| && files[m].inode == Some(inode) && forall k :: 0 <= k < m ==> files[k].inode != Some(inode)
  }

  /** A file is left out if it is lost, or if the first link to its inode is. */
  ghost predicate IsLeftOut(files: seq<Visited>, n: nat)
    requires n < |files|
  {
    match files[n].inode
    case None => files[n].isLost
    case Some(inode) => exists m: nat :: IsFirstVisit(files, inode, m) && files[m].isLost
  }

  /** The files that were listed, in order. */
  ghost predicate ListedFrom(files: seq<Visited>, n: nat, items: seq<Item>, inodes: seq<Option<nat>>, origin: seq<nat>)
    requires n <= |files|
  {
    && |items| == |inodes| == |origin|
    && (forall k :: 0 <= k < |origin| ==> origin[k] < n && items[k].path == files[origin[k]].path && inodes[k] == files[origin[k]].inode)
    && (forall k, l :: 0 <= k < l < |origin| ==> origin[k] < origin[l])
    && (forall m :: 0 <= m < n ==> (m in origin <==> !IsLeftOut(files, m)))
  }

  /** The table knows exactly the inodes visited, and which of them are lost. */
  ghost predicate TableFor(files: seq<Visited>, n: nat, table: map<nat, int>)
    requires n <= |files|
  {
    && (forall m :: 0 <= m < n && files[m].inode.Some? ==> files[m].inode.value in table)
    && (forall x :: x in table ==> exists m: nat :: m < n && IsFirstVisit(files, x, m) && (files[m].isLost <==> table[x] == -1))
  }

  lemma SameFirstVisit(files: seq<Visited>, inode: nat, m: nat, l: nat)
    requires IsFirstVisit(files, inode, m) && IsFirstVisit(files, inode, l)
    ensures m == l
  {
  }

  /** Whether the table says that a file is left out. */
  lemma LeftOutByTable(files: seq<Visited>, n: nat, table: map<nat, int>)
    requires n < |files| && TableFor(files, n, table)
    ensures
      var f := files[n];
      IsLeftOut(files, n) <==> if f.inode.Some? && f.inode.value in table then table[f.inode.value] == -1 else f.isLost
  {
    var f := files[n];
    if f.inode.Some? {
      var x := f.inode.value;
      if x in table {
        var m: nat :| m < n && IsFirstVisit(files, x, m) && (files[m].isLost <==> table[x] == -1);
        if IsLeftOut(files, n) {
          var l: nat :| IsFirstVisit(files, x, l) && files[l].isLost;
          SameFirstVisit(files, x, m, l);
        }
      } else {
        assert IsFirstVisit(files, x, n);
        if IsLeftOut(files, n) {
          var l: nat :| IsFirstVisit(files, x, l) && files[l].isLost;
          SameFirstVisit(files, x, n, l);
        }
      }
    }
  }

  lemma TableNext(files: seq<Visited>, n: nat, table: map<nat, int>, id: nat)
    requires n < |files| && TableFor(files, n, table)
    ensures
      var f := files[n];
      TableFor(files, n + 1, if f.inode.Some? && f.inode.value !in table then table[f.inode.value := if f.isLost then -1 else id] else table)
  {
    var f := files[n];
    if f.inode.Some? && f.inode.value !in table {
      assert IsFirstVisit(files, f.inode.value, n);
    }
  }

  lemma ListedNext(files: seq<Visited>, n: nat, items: seq<Item>, inodes: seq<Option<nat>>, origin: seq<nat>, r: Option<Item>)
    requires n < |files| && ListedFrom(files, n, items, inodes, origin)
    requires r.None? <==> IsLeftOut(files, n)
    requires r.Some? ==> r.value.path == files[n].path
    ensures if r.Some? then ListedFrom(files, n + 1, items + [r.value], inodes + [files[n].inode], origin + [n])
            else ListedFrom(files, n + 1, items, inodes, origin)
  {
  }

  /** Lists all files. */
  method ListAll(files: seq<Visited>) returns (items: seq<Item>, inodes: seq<Option<nat>>, origin: seq<nat>)
    ensures Numbered(items, inodes) && ListedFrom(files, |files|, items, inodes, origin)
  {
    var lister := new LinkLister();
    items, inodes, origin := [], [], [];
    for n := 0 to |files|
      invariant lister.Valid() && fresh(lister) && lister.items == items && lister.inodes == inodes
      invariant ListedFrom(files, n, items, inodes, origin) && TableFor(files, n, lister.linkTable)
    {
      LeftOutByTable(files, n, lister.linkTable);
      TableNext(files, n, lister.linkTable, lister.linkIndex);
      var r := lister.Visit(files[n]);
      ListedNext(files, n, items, inodes, origin, r);
      if r.Some? {
        items, inodes, origin := items + [r.value], inodes + [files[n].inode], origin + [n];
      }
    }
  }

  // ---------- restoring under a filter ----------

  /** The first selected item of a group. */
  ghost predicate IsSource(items: seq<Item>, keep: string -> bool, g: nat, m: nat) {
    && m < |items| && keep(items[m].path) && Group(items, m) == Some(g)
    && forall k :: 0 <= k < m && keep(items[k].path) ==> Group(items, k) != Some(g)
  }

  /** The item whose file a selected item shares; one that shares none has its own. */
  ghost predicate SharesWith(items: seq<Item>, keep: string -> bool, k: nat, m: nat)
    requires k < |items|
  {
    match Group(items, k)
    case None => m == k
    case Some(g) => IsSource(items, keep, g, m)
  }

  datatype Row = Row(item: nat, willExist: bool)

  /** A group's row says whether one of its items will exist, and which one came first. */
  ghost predicate RowFor(items: seq<Item>, keep: string -> bool, n: nat, g: nat, row: Row)
    requires n <= |items|
  {
    if row.willExist then row.item < n && IsSource(items, keep, g, row.item)
    else forall k :: 0 <= k < n && keep(items[k].path) ==> Group(items, k) != Some(g)
  }

  ghost predicate RowsFor(items: seq<Item>, keep: string -> bool, n: nat, table: seq<Row>)
    requires n <= |items|
  {
    |table| == |Firsts(items, n)| && forall g :: 0 <= g < |table| ==> RowFor(items, keep, n, g, table[g])
  }

  /** Every further link names a first link before it. */
  predicate NamesEarlier(items: seq<Item>) {
    forall k :: 0 <= k < |items| && items[k].link.Further? ==> items[k].link.id < |Firsts(items, k)|
  }

  lemma NumberedNamesEarlier(items: seq<Item>, inodes: seq<Option<nat>>)
    requires Numbered(items, inodes)
    ensures NamesEarlier(items)
  {
    forall k | 0 <= k < |items| && items[k].link.Further? ensures items[k].link.id < |Firsts(items, k)| {
      assert NumberedAt(items, inodes, k);
    }
  }

  /** No item so far belongs to a group that starts later. */
  lemma GroupsStarted(items: seq<Item>, n: nat, k: nat)
    requires NamesEarlier(items) && k < n <= |items| && Group(items, k).Some?
    ensures Group(items, k).value < |Firsts(items, n)|
  {
    FirstsGrow(items, k, n);
    FirstsGrow(items, k + 1, n);
  }

  /** The rows before an item is looked at: a first link opens a new one. */
  lemma RowsOpen(items: seq<Item>, keep: string -> bool, n: nat, table: seq<Row>)
    requires NamesEarlier(items) && n < |items| && items[n].link.First? && RowsFor(items, keep, n, table)
    ensures RowFor(items, keep, n, |table|, Row(n, false))
  {
    forall k | 0 <= k < n && keep(items[k].path) ensures Group(items, k) != Some(|table|) {
      if Group(items, k).Some? {
        GroupsStarted(items, n, k);
      }
    }
  }

  /** A row stays right when an item that is not selected, or of another group, goes by. */
  lemma RowStays(items: seq<Item>, keep: string -> bool, n: nat, g: nat, row: Row)
    requires n < |items| && RowFor(items, keep, n, g, row)
    requires row.willExist || !keep(items[n].path) || Group(items, n) != Some(g)
    ensures RowFor(items, keep, n + 1, g, row)
  {
  }

  /** Looks at one item: which item its file is shared with, and the rows after it. */
  method RestoreOne(items: seq<Item>, keep: string -> bool, n: nat, table: seq<Row>) returns (source: Option<nat>, table': seq<Row>)
    requires NamesEarlier(items) && n < |items| && RowsFor(items, keep, n, table)
    ensures RowsFor(items, keep, n + 1, table')
    ensures source.Some? <==> keep(items[n].path)
    ensures source.Some? ==> SharesWith(items, keep, n, source.value)
  {
    table' := table;
    if items[n].link.First? {
      RowsOpen(items, keep, n, table);
      table' := table + [Row(n, false)];
    }
    assert forall g :: 0 <= g < |table'| ==> RowFor(items, keep, n, g, table'[g]);
    source := if keep(items[n].path) then Some(n) else None;
    if keep(items[n].path) && !items[n].link.Single? {
      var i := if items[n].link.First? then |table'| - 1 else items[n].link.id;
      assert Group(items, n) == Some(i);
      if !table'[i].willExist {
        table' := table'[i := Row(n, true)];
      } else {
        source := Some(table'[i].item);
      }
      assert RowFor(items, keep, n + 1, i, table'[i]);
    }
    forall g | 0 <= g < |table'| ensures RowFor(items, keep, n + 1, g, table'[g]) {
      if !keep(items[n].path) || Group(items, n) != Some(g) {
        RowStays(items, keep, n, g, table'[g]);
      }
    }
  }

  /** Goes through a snapshot: `sources[k]` is the item whose file the `k`th one is made a link to, itself if it is
      restored on its own. */
  method RestoreLinks(items: seq<Item>, keep: string -> bool) returns (sources: seq<Option<nat>>)
    requires NamesEarlier(items)
    ensures |sources| == |items| && IsRestored(items, keep, sources)
  {
    sources := [];
    var table := [];
    for n := 0 to |items|
      invariant |sources| == n && RowsFor(items, keep, n, table)
      invariant forall k :: 0 <= k < n ==> (sources[k].Some? <==> keep(items[k].path))
      invariant forall k :: 0 <= k < n && sources[k].Some? ==> SharesWith(items, keep, k, sources[k].value)
    {
      var source;
      source, table := RestoreOne(items, keep, n, table);
      sources := sources + [source];
    }
  }

  ghost predicate IsRestored(items: seq<Item>, keep: string -> bool, sources: seq<Option<nat>>)
    requires |sources| == |items|
  {
    && (forall k :: 0 <= k < |items| ==> (sources[k].Some? <==> keep(items[k].path)))
    && (forall k :: 0 <= k < |items| && sources[k].Some? ==> SharesWith(items, keep, k, sources[k].value))
  }

  /**
   Under any filter, two selected files of a listing are restored as links to one file exactly when the lister found them
   to be one inode; a file that is linked to is selected and listed no later.
   */
  lemma LinksComeBack(items: seq<Item>, inodes: seq<Option<nat>>, keep: string -> bool, sources: seq<Option<nat>>, k: nat, l: nat)
    requires Numbered(items, inodes) && |sources| == |items| && IsRestored(items, keep, sources)
    requires k < |items| && l < |items| && k != l && keep(items[k].path) && keep(items[l].path)
    ensures sources[k].Some? && sources[l].Some?
    ensures sources[k] == sources[l] <==> inodes[k].Some? && inodes[k] == inodes[l]
    ensures sources[k].value <= k && keep(items[sources[k].value].path)
  {
    GroupsAreInodes(items, inodes, k, l);
    GroupsAreInodes(items, inodes, l, k);
    var m, o := sources[k].value, sources[l].value;
    assert SharesWith(items, keep, k, m) && SharesWith(items, keep, l, o);
  }

  /** Two listed and selected files end up as one file exactly when they have one inode. */
  ghost predicate SharedAsListed(items: seq<Item>, inodes: seq<Option<nat>>, keep: string -> bool, sources: seq<Option<nat>>)
    requires |items| == |inodes| == |sources|
  {
    forall k, l :: 0 <= k < |items| && 0 <= l < |items| && k != l && keep(items[k].path) && keep(items[l].path) ==>
                     (sources[k] == sources[l] <==> inodes[k].Some? && inodes[k] == inodes[l])
  }

  /** Lists files and restores their links under a filter: selected files are linked exactly when they have one inode. */
  method ListAndRestore(files: seq<Visited>, keep: string -> bool)
    returns (items: seq<Item>, inodes: seq<Option<nat>>, origin: seq<nat>, sources: seq<Option<nat>>)
    ensures ListedFrom(files, |files|, items, inodes, origin) && |sources| == |items| && SharedAsListed(items, inodes, keep, sources)
  {
    items, inodes, origin := ListAll(files);
    NumberedNamesEarlier(items, inodes);
    sources := RestoreLinks(items, keep);
    LinksAllComeBack(items, inodes, keep, sources);
  }

  lemma LinksAllComeBack(items: seq<Item>, inodes: seq<Option<nat>>, keep: string -> bool, sources: seq<Option<nat>>)
    requires Numbered(items, inodes) && |sources| == |items| && IsRestored(items, keep, sources)
    ensures SharedAsListed(items, inodes, keep, sources)
  {
    forall k, l | 0 <= k < |items| && 0 <= l < |items| && k != l && keep(items[k].path) && keep(items[l].path)
      ensures sources[k] == sources[l] <==> inodes[k].Some? && inodes[k] == inodes[l]
    {
      LinksComeBack(items, inodes, keep, sources, k, l);
    }
  }
}
