/**
 Comparing the local listing with a snapshot before a restore, and deleting what the snapshot does not have
 (src/duplicacy_backupmanager.go).
 */
module RestoreMerge {
  import opened Paths
  import opened Entries
  import opened BackupPlan

  /** `keep` stands for the include and exclude patterns. */
  predicate IsSelected(keep: string -> bool, r: Entry) {
    keep(r.path)
  }

  /** No selected entry of the snapshot has this path. */
  predicate IsExtra(remote: seq<Entry>, keep: string -> bool, e: Entry) {
    forall k :: 0 <= k < |remote| && IsSelected(keep, remote[k]) ==> remote[k].path != e.path
  }

  /** The extra entries among the first `n` local ones, in order. */
  function Extras(local: seq<Entry>, remote: seq<Entry>, keep: string -> bool, n: nat): (extra: seq<Entry>)
    requires n <= |local|
  {
    if n == 0 then []
    else Extras(local, remote, keep, n - 1) + if IsExtra(remote, keep, local[n - 1]) then [local[n - 1]] else []
  }

  /** The selected entries among the first `j` remote ones come before `e`. */
  ghost predicate Behind(remote: seq<Entry>, keep: string -> bool, j: nat, e: Entry)
    requires j <= |remote|
  {
    forall k :: 0 <= k < j && IsSelected(keep, remote[k]) ==> Before(remote[k], e)
  }

  /** Every remaining local entry comes after the snapshot entries looked at. */
  ghost predicate Aligned(local: seq<Entry>, remote: seq<Entry>, keep: string -> bool, i: nat, j: nat)
    requires i <= |local| && j <= |remote|
  {
    i < |local| ==> Behind(remote, keep, j, local[i])
  }

  lemma BehindNext(local: seq<Entry>, remote: seq<Entry>, keep: string -> bool, i: nat, j: nat)
    requires SortedEntries(local) && SortedEntries(remote) && i < |local| && j <= |remote| && Aligned(local, remote, keep, i, j)
    ensures Aligned(local, remote, keep, i + 1, j)
  {
    if i + 1 < |local| {
      forall k | 0 <= k < j && IsSelected(keep, remote[k]) ensures Before(remote[k], local[i + 1]) {
        assert Before(local[i], local[i + 1]);
        BeforeTransitive(remote[k], local[i], local[i + 1]);
      }
    }
  }

  /** A local entry before the next snapshot entry has no counterpart. */
  lemma ExtraBefore(local: seq<Entry>, remote: seq<Entry>, keep: string -> bool, i: nat, j: nat)
    requires SortedEntries(local) && SortedEntries(remote) && i < |local| && j <= |remote| && Aligned(local, remote, keep, i, j)
    requires j < |remote| ==> Before(local[i], remote[j])
    ensures IsExtra(remote, keep, local[i])
  {
    var e := local[i];
    forall k | 0 <= k < |remote| && IsSelected(keep, remote[k]) ensures remote[k].path != e.path {
      if k > j {
        assert Before(remote[j], remote[k]);
        BeforeTransitive(e, remote[j], remote[k]);
      }
      CompareFacts(e, remote[k]);
      CompareFacts(remote[k], e);
    }
  }

  /** Collects local entries before a snapshot entry. */
  method SkipExtras(local: seq<Entry>, remote: seq<Entry>, keep: string -> bool, i: nat, j: nat, extra: seq<Entry>)
    returns (i': nat, extra': seq<Entry>)
    requires SortedEntries(local) && SortedEntries(remote) && i <= |local| && j < |remote|
    requires Aligned(local, remote, keep, i, j) && extra == Extras(local, remote, keep, i)
    ensures i <= i' <= |local| && Aligned(local, remote, keep, i', j) && extra' == Extras(local, remote, keep, i')
    ensures i' < |local| ==> Compare(local[i'].path, remote[j].path) >= 0
  {
    i', extra' := i, extra;
    while i' < |local|
      invariant i <= i' <= |local| && Aligned(local, remote, keep, i', j) && extra' == Extras(local, remote, keep, i')
    {
      var c := ComparePaths(local[i'].path, remote[j].path);
      if c >= 0 {
        break;
      }
      ExtraBefore(local, remote, keep, i', j);
      BehindNext(local, remote, keep, i', j);
      extra' := extra' + [local[i']];
      i' := i' + 1;
    }
  }

  /** One snapshot entry that was looked at, and the local entry of its path. */
  lemma LookedAt(local: seq<Entry>, remote: seq<Entry>, keep: string -> bool, i: nat, j: nat, found: bool)
    requires SortedEntries(local) && SortedEntries(remote) && i <= |local| && j < |remote| && Aligned(local, remote, keep, i, j)
    requires IsSelected(keep, remote[j]) && (i < |local| ==> Compare(local[i].path, remote[j].path) >= 0)
    requires found <==> i < |local| && Compare(local[i].path, remote[j].path) == 0
    ensures
      var next := if found then i + 1 else i;
      Aligned(local, remote, keep, next, j + 1) && Extras(local, remote, keep, next) == Extras(local, remote, keep, i)
  {
    if i < |local| {
      CompareFacts(local[i], remote[j]);
      if found {
        BehindNext(local, remote, keep, i, j);
        assert i + 1 < |local| ==> Before(local[i], local[i + 1]);
        assert !IsExtra(remote, keep, local[i]);
      }
    }
  }

  lemma NotSelected(local: seq<Entry>, remote: seq<Entry>, keep: string -> bool, i: nat, j: nat)
    requires i <= |local| && j < |remote| && Aligned(local, remote, keep, i, j) && !IsSelected(keep, remote[j])
    ensures Aligned(local, remote, keep, i, j + 1)
  {
  }

  /** Looks at one snapshot entry. */
  method MatchOne(local: seq<Entry>, remote: seq<Entry>, keep: string -> bool, i: nat, j: nat, extra: seq<Entry>)
    returns (i': nat, extra': seq<Entry>)
    requires SortedEntries(local) && SortedEntries(remote) && i <= |local| && j < |remote|
    requires Aligned(local, remote, keep, i, j) && extra == Extras(local, remote, keep, i)
    ensures i' <= |local| && Aligned(local, remote, keep, i', j + 1) && extra' == Extras(local, remote, keep, i')
  {
    if !keep(remote[j].path) {
      NotSelected(local, remote, keep, i, j);
      return i, extra;
    }
    i', extra' := SkipExtras(local, remote, keep, i, j, extra);
    var found := false;
    if i' < |local| {
      var c := ComparePaths(local[i'].path, remote[j].path);
      found := c == 0;
    }
    LookedAt(local, remote, keep, i', j, found);
    i' := if found then i' + 1 else i';
  }

  /** Collects what is left when the snapshot is exhausted. */
  method CollectRest(local: seq<Entry>, remote: seq<Entry>, keep: string -> bool, i: nat, extra: seq<Entry>) returns (extra': seq<Entry>)
    requires SortedEntries(local) && SortedEntries(remote) && i <= |local|
    requires Aligned(local, remote, keep, i, |remote|) && extra == Extras(local, remote, keep, i)
    ensures extra' == Extras(local, remote, keep, |local|)
  {
    extra' := extra;
    var k := i;
    while k < |local|
      invariant k <= |local| && Aligned(local, remote, keep, k, |remote|) && extra' == Extras(local, remote, keep, k)
    {
      ExtraBefore(local, remote, keep, k, |remote|);
      BehindNext(local, remote, keep, k, |remote|);
      extra' := extra' + [local[k]];
      k := k + 1;
    }
  }

  /** The local entries that no selected snapshot entry has, in order. */
  method CollectExtras(local: seq<Entry>, remote: seq<Entry>, keep: string -> bool) returns (extra: seq<Entry>)
    requires SortedEntries(local) && SortedEntries(remote)
    ensures extra == Extras(local, remote, keep, |local|)
  {
    var i, j := 0, 0;
    extra := [];
    while j < |remote|
      invariant 0 <= i <= |local| && j <= |remote| && Aligned(local, remote, keep, i, j) && extra == Extras(local, remote, keep, i)
    {
      i, extra := MatchOne(local, remote, keep, i, j, extra);
      j := j + 1;
    }
    extra := CollectRest(local, remote, keep, i, extra);
  }

  /** The collected entries are exactly the extra ones, and they stay in order. */
  lemma {:induction false} ExtrasExact(local: seq<Entry>, remote: seq<Entry>, keep: string -> bool, n: nat, e: Entry)
    requires n <= |local|
    ensures e in Extras(local, remote, keep, n) <==> e in local[..n] && IsExtra(remote, keep, e)
  {
    if n > 0 {
      ExtrasExact(local, remote, keep, n - 1, e);
      assert local[..n] == local[..n - 1] + [local[n - 1]];
    }
  }

  lemma {:induction false} ExtrasSorted(local: seq<Entry>, remote: seq<Entry>, keep: string -> bool, n: nat)
    requires SortedEntries(local) && n <= |local|
    ensures SortedEntries(Extras(local, remote, keep, n))
  {
    if n > 0 {
      ExtrasSorted(local, remote, keep, n - 1);
      var before, e := Extras(local, remote, keep, n - 1), local[n - 1];
      forall i | 0 <= i < |before| ensures Before(before[i], e) {
        ExtrasExact(local, remote, keep, n - 1, before[i]);
      }
    }
  }

  // ---------- deleting them ----------

  predicate IsDirectoryPath(path: string) {
    path != "" && path[|path| - 1] == '/'
  }

  predicate IsUnder(path: string, dir: string) {
    IsDirectoryPath(dir) && dir < path
  }

  /** A directory comes before everything inside it. */
  lemma DirectoryFirst(dir: string, path: string)
    requires IsPath(dir) && IsPath(path) && IsUnder(path, dir)
    ensures Compare(dir, path) < 0
  {
    var rest := path[|dir|..];
    assert dir + rest == path && dir + "" == dir && rest != "";
    CompareShifts(dir, "", rest);
    assert rest[0] == path[|dir|];
    NoNul(path, |dir|);
  }

  lemma {:induction false} NoNul(path: string, i: nat)
    requires IsPath(path) && i < |path|
    ensures path[i] != NUL
    decreases |path|
  {
    FirstOfPath(path);
    var c, rest := KeyOf(path)[0], Rest(path);
    var n := |c.name + Ending(c.kind)|;
    if i >= n {
      assert path[i] == rest[i - n];
      NoNul(rest, i - n);
    } else if i >= |c.name| {
      assert path[i] == Ending(c.kind)[i - |c.name|];
    }
  }

  /** Removing a path; a directory goes only when nothing is left inside. */
  function Remove(files: set<string>, path: string): (r: set<string>) {
    if exists p :: p in files && IsUnder(p, path) then files else files - {path}
  }

  function PathsOf(entries: seq<Entry>): (paths: set<string>) {
    set i | 0 <= i < |entries| :: entries[i].path
  }

  /** An extra path goes when nothing inside it has to stay. */
  predicate IsRemovable(files: set<string>, extra: seq<Entry>, path: string) {
    forall q :: q in files && IsUnder(q, path) ==> q in PathsOf(extra)
  }

  /** What is gone after the entries from the `k`th on were deleted. */
  function Removed(files: set<string>, extra: seq<Entry>, k: nat): (paths: set<string>)
    requires k <= |extra|
  {
    set i | k <= i < |extra| && IsRemovable(files, extra, extra[i].path) :: extra[i].path
  }

  /** A directory, whose path ends in a slash, holds something that is not extra. */
  ghost predicate IsHeldBy(files: set<string>, extra: seq<Entry>, p: string) {
    && |p| > 0 && p[|p| - 1] == '/'
    && exists q :: q in files && |q| > |p| && q[..|p|] == p && forall i :: 0 <= i < |extra| ==> extra[i].path != q
  }

  lemma RemovedByFields(files: set<string>, extra: seq<Entry>, p: string)
    ensures p in Removed(files, extra, 0) <==> (exists i :: 0 <= i < |extra| && extra[i].path == p) && !IsHeldBy(files, extra, p)
  {
    if i :| 0 <= i < |extra| && extra[i].path == p {
      HeldByFields(files, extra, p);
      assert p in Removed(files, extra, 0) <==> IsRemovable(files, extra, p);
    }
  }

  lemma HeldByFields(files: set<string>, extra: seq<Entry>, p: string)
    ensures IsRemovable(files, extra, p) <==> !IsHeldBy(files, extra, p)
  {
    forall q ensures q !in PathsOf(extra) <==> forall i :: 0 <= i < |extra| ==> extra[i].path != q {
    }
    if !IsRemovable(files, extra, p) {
      var q :| q in files && IsUnder(q, p) && q !in PathsOf(extra);
      assert q[..|p|] == p;
    }
    if IsHeldBy(files, extra, p) {
      var q :| q in files && |q| > |p| && q[..|p|] == p && forall i :: 0 <= i < |extra| ==> extra[i].path != q;
      assert IsUnder(q, p);
    }
  }

  /** Deletes extra entries, last one first: exactly those go under which nothing has to stay, and every such directory is
      empty when its turn comes. */
  method DeleteExtras(files: set<string>, extra: seq<Entry>) returns (left: set<string>)
    requires SortedEntries(extra)
    ensures left == files - Removed(files, extra, 0)
    ensures forall p :: p in left <==> p in files && ((forall i :: 0 <= i < |extra| ==> extra[i].path != p) || IsHeldBy(files, extra, p))
  {
    forall p ensures p in Removed(files, extra, 0) <==> (exists i :: 0 <= i < |extra| && extra[i].path == p) && !IsHeldBy(files, extra, p) {
      RemovedByFields(files, extra, p);
    }
    left := files;
    var n := 0;
    while n < |extra|
      invariant n <= |extra| && left == files - Removed(files, extra, |extra| - n)
    {
      var k := |extra| - 1 - n;
      RemoveNext(files, extra, k);
      left := Remove(left, extra[k].path);
      n := n + 1;
    }
  }

  lemma UnderIsTransitive(q: string, p: string, dir: string)
    requires IsUnder(q, p) && IsUnder(p, dir)
    ensures IsUnder(q, dir)
  {
    assert q[..|dir|] == p[..|dir|] == dir;
  }

  lemma IndexOf(extra: seq<Entry>, p: string) returns (i: nat)
    requires p in PathsOf(extra)
    ensures i < |extra| && extra[i].path == p
  {
    i :| 0 <= i < |extra| && extra[i].path == p;
  }

  /** Whatever lies in an extra directory and is extra itself comes later in the list. */
  lemma InsideComesLater(extra: seq<Entry>, k: nat, i: nat)
    requires SortedEntries(extra) && k < |extra| && i < |extra| && IsUnder(extra[i].path, extra[k].path)
    ensures i > k
  {
    assert IsPath(extra[k].path) && IsPath(extra[i].path);
    DirectoryFirst(extra[k].path, extra[i].path);
    if i < k {
      assert Before(extra[i], extra[k]);
      CompareFacts(extra[i], extra[k]);
      CompareFacts(extra[k], extra[i]);
    }
  }

  /** What lies inside a removable directory is removable and has been deleted before. */
  lemma EmptyWhenRemoved(files: set<string>, extra: seq<Entry>, k: nat, p: string)
    requires SortedEntries(extra) && k < |extra| && IsRemovable(files, extra, extra[k].path)
    requires p in files && IsUnder(p, extra[k].path)
    ensures p in Removed(files, extra, k + 1)
  {
    var i := IndexOf(extra, p);
    InsideComesLater(extra, k, i);
    forall q | q in files && IsUnder(q, p) ensures q in PathsOf(extra) {
      UnderIsTransitive(q, p, extra[k].path);
    }
    assert IsRemovable(files, extra, extra[i].path);
  }

  /** What has to stay is never deleted. */
  lemma StaysOut(files: set<string>, extra: seq<Entry>, k: nat, q: string)
    requires k <= |extra| && q !in PathsOf(extra)
    ensures q !in Removed(files, extra, k)
  {
  }

  lemma RemovedNext(files: set<string>, extra: seq<Entry>, k: nat)
    requires k < |extra|
    ensures Removed(files, extra, k) ==
            Removed(files, extra, k + 1) + if IsRemovable(files, extra, extra[k].path) then {extra[k].path} else {}
  {
    var path, more := extra[k].path, Removed(files, extra, k + 1);
    forall p ensures p in Removed(files, extra, k) <==> p in more || (IsRemovable(files, extra, path) && p == path) {
      if p in Removed(files, extra, k) {
        var i :| k <= i < |extra| && IsRemovable(files, extra, extra[i].path) && extra[i].path == p;
      }
    }
  }

  lemma RemoveNext(files: set<string>, extra: seq<Entry>, k: nat)
    requires SortedEntries(extra) && k < |extra|
    ensures Remove(files - Removed(files, extra, k + 1), extra[k].path) == files - Removed(files, extra, k)
  {
    var path, left := extra[k].path, files - Removed(files, extra, k + 1);
    RemovedNext(files, extra, k);
    if IsRemovable(files, extra, path) {
      forall p | p in left ensures !IsUnder(p, path) {
        if IsUnder(p, path) {
          EmptyWhenRemoved(files, extra, k, p);
        }
      }
    } else {
      var q :| q in files && IsUnder(q, path) && q !in PathsOf(extra);
      StaysOut(files, extra, k + 1, q);
      assert q in left;
    }
  }

  // ---------- when everything extra goes ----------

  /** With every selected entry a snapshot has the directories it lies in. */
  ghost predicate HasParents(remote: seq<Entry>, keep: string -> bool) {
    forall r, d: string :: 0 <= r < |remote| && IsSelected(keep, remote[r]) && IsUnder(remote[r].path, d) ==> HasPath(remote, keep, d)
  }

  ghost predicate HasPath(remote: seq<Entry>, keep: string -> bool, d: string) {
    exists i :: 0 <= i < |remote| && IsSelected(keep, remote[i]) && remote[i].path == d
  }

  /** If the listing left nothing out, and the snapshot has the directories of its entries, every extra path goes. */
  lemma EverythingExtraGoes(local: seq<Entry>, remote: seq<Entry>, keep: string -> bool)
    requires HasParents(remote, keep)
    ensures
      var extra := Extras(local, remote, keep, |local|);
      Removed(PathsOf(local), extra, 0) == PathsOf(extra)
  {
    var extra := Extras(local, remote, keep, |local|);
    forall i | 0 <= i < |extra| ensures IsRemovable(PathsOf(local), extra, extra[i].path) {
      ExtrasExact(local, remote, keep, |local|, extra[i]);
      forall q | q in PathsOf(local) && IsUnder(q, extra[i].path) ensures q in PathsOf(extra) {
        InsideIsExtra(local, remote, keep, extra[i], q);
      }
    }
  }

  lemma ParentIsNotExtra(remote: seq<Entry>, keep: string -> bool, r: nat, e: Entry)
    requires HasParents(remote, keep) && r < |remote| && IsSelected(keep, remote[r]) && IsUnder(remote[r].path, e.path)
    ensures !IsExtra(remote, keep, e)
  {
    assert HasPath(remote, keep, e.path);
  }

  lemma InsideIsExtra(local: seq<Entry>, remote: seq<Entry>, keep: string -> bool, e: Entry, q: string)
    requires HasParents(remote, keep) && IsExtra(remote, keep, e) && q in PathsOf(local) && IsUnder(q, e.path)
    ensures q in PathsOf(Extras(local, remote, keep, |local|))
  {
    var j := IndexOf(local, q);
    forall r | 0 <= r < |remote| && IsSelected(keep, remote[r]) ensures remote[r].path != q {
      if IsUnder(remote[r].path, e.path) {
        ParentIsNotExtra(remote, keep, r, e);
      }
    }
    assert local[..|local|] == local && local[j] in local;
    ExtrasExact(local, remote, keep, |local|, local[j]);
    var extra := Extras(local, remote, keep, |local|);
    var i :| 0 <= i < |extra| && extra[i] == local[j];
    assert extra[i].path == q;
  }
}
