/**
 Comparing the local listing with the previous snapshot: unchanged files keep their chunks, all others are packed again
 (src/duplicacy_backupmanager.go).
 */
module BackupPlan {
  import opened Wrappers
  import opened Paths
  import opened Entries
  import opened EntryLists
  import opened SnapshotCodec

  // ---------- pairing two sorted listings ----------

  predicate SortedEntries(entries: seq<Entry>) {
    && (forall i {:trigger IsPath(entries[i].path)} :: 0 <= i < |entries| ==> IsPath(entries[i].path))
    && (forall i, j {:trigger Before(entries[i], entries[j])} :: 0 <= i < j < |entries| ==> Before(entries[i], entries[j]))
  }

  predicate Before(a: Entry, b: Entry) {
    Compare(a.path, b.path) < 0
  }

  /** The remote entry of the same path. */
  ghost predicate IsPartner(remote: seq<Entry>, e: Entry, r: Option<Entry>) {
    match r
    case Some(x) => x in remote && x.path == e.path
    case None => forall i :: 0 <= i < |remote| ==> remote[i].path != e.path
  }

  /** Everything taken from the remote listing before the entry at hand comes before `e`. */
  ghost predicate Passed(remote: seq<Entry>, n: nat, e: Entry)
    requires n <= |remote|
  {
    forall i :: 0 <= i < n ==> Before(remote[i], e)
  }

  lemma BeforeTransitive(a: Entry, b: Entry, c: Entry)
    requires IsPath(a.path) && IsPath(b.path) && IsPath(c.path) && Before(a, b) && Before(b, c)
    ensures Before(a, c)
  {
    CompareOrder(a.path, b.path, c.path);
  }

  /** Nothing taken from the remote listing comes after `e`. */
  ghost predicate NotAfter(remote: seq<Entry>, n: nat, e: Entry)
    requires n <= |remote|
  {
    forall i :: 0 <= i < n ==> Compare(remote[i].path, e.path) <= 0
  }

  lemma PassedOn(remote: seq<Entry>, n: nat, e: Entry, f: Entry)
    requires SortedEntries(remote) && n <= |remote| && IsPath(e.path) && IsPath(f.path) && NotAfter(remote, n, e) && Before(e, f)
    ensures Passed(remote, n, f)
  {
    forall i | 0 <= i < n ensures Before(remote[i], f) {
      CompareOrder(remote[i].path, e.path, f.path);
    }
  }

  lemma PassedOneMore(remote: seq<Entry>, n: nat, e: Entry)
    requires n < |remote| && IsPath(remote[n].path) && IsPath(e.path) && Passed(remote, n, e) && Compare(e.path, remote[n].path) > 0
    ensures Passed(remote, n + 1, e)
  {
    CompareFacts(e, remote[n]);
  }

  lemma CompareFacts(a: Entry, b: Entry)
    requires IsPath(a.path) && IsPath(b.path)
    ensures Compare(a.path, b.path) == 0 <==> a.path == b.path
    ensures Compare(a.path, b.path) > 0 <==> Before(b, a)
    ensures Compare(b.path, a.path) == 0 <==> a.path == b.path
  {
    CompareOrder(a.path, b.path, a.path);
    CompareOrder(b.path, a.path, a.path);
  }

  /** No partner: everything passed comes before, everything else after. */
  lemma NoPartner(remote: seq<Entry>, n: nat, e: Entry)
    requires SortedEntries(remote) && n <= |remote| && IsPath(e.path) && Passed(remote, n, e)
    requires n < |remote| ==> Before(e, remote[n])
    ensures IsPartner(remote, e, None)
  {
    forall i | 0 <= i < |remote| ensures remote[i].path != e.path {
      if i < n {
        CompareOrder(remote[i].path, e.path, e.path);
      } else {
        if n < i {
          BeforeTransitive(e, remote[n], remote[i]);
        }
        CompareOrder(e.path, remote[i].path, e.path);
      }
    }
  }

  /** The remote listing as a stream with one entry held back. */
  class Cursor {
    const remote: seq<Entry>
    var next: nat
    var held: bool

    ghost function Head(): (n: nat)
      reads this
      requires held ==> next > 0
    {
      if held then next - 1 else next
    }

    ghost predicate Valid()
      reads this
    {
      next <= |remote| && (held ==> next > 0)
    }

    constructor (remote: seq<Entry>)
      ensures Valid() && this.remote == remote && !held && next == 0
    {
      this.remote, next, held := remote, 0, false;
    }

    /** Finds the remote entry with the path of `e`, passing over those before it. */
    method Find(e: Entry) returns (partner: Option<Entry>)
      requires Valid() && SortedEntries(remote) && IsPath(e.path) && Passed(remote, Head(), e)
      modifies this
      ensures Valid() && Head() >= old(Head()) && IsPartner(remote, e, partner) && NotAfter(remote, Head(), e)
    {
      var c := Skip(e);
      if c == 0 {
        partner := Some(remote[next - 1]);
        CompareFacts(e, remote[next - 1]);
        held := false;
      } else {
        partner := None;
        NoPartner(remote, Head(), e);
      }
    }

    /** Takes the next remote entry if none is held, and compares. */
    method Look(e: Entry) returns (c: int)
      requires Valid()
      modifies this
      ensures Valid() && Head() == old(Head())
      ensures if held then c == Compare(e.path, remote[next - 1].path) else c == -1 && next == |remote|
    {
      if !held {
        if next >= |remote| {
          return -1;
        }
        next, held := next + 1, true;
      }
      c := ComparePaths(e.path, remote[next - 1].path);
    }

    /** Passes over remote entries before `e`, up to one that is not. */
    method Skip(e: Entry) returns (c: int)
      requires Valid() && SortedEntries(remote) && IsPath(e.path) && Passed(remote, Head(), e)
      modifies this
      ensures Valid() && Head() >= old(Head()) && Passed(remote, Head(), e)
      ensures if held then c == Compare(e.path, remote[next - 1].path) <= 0 else c == -1 && next == |remote|
    {
      c := Look(e);
      while c > 0
        invariant Valid() && Head() >= old(Head()) && Passed(remote, Head(), e)
        invariant if held then c == Compare(e.path, remote[next - 1].path) else c == -1 && next == |remote|
        decreases |remote| - Head()
      {
        PassedOneMore(remote, Head(), e);
        held := false;
        c := Look(e);
      }
    }
  }

  // ---------- keeping the chunks of unchanged files ----------

  /** Same size, and times at most a second apart. */
  predicate IsSameAs(e: Entry, r: Entry) {
    e.size == r.size && r.time - 1 <= e.time <= r.time + 1
  }

  predicate IsUnchanged(e: Entry, partner: Option<Entry>) {
    partner.Some? && IsSameAs(e, partner.value) && e.kind.File?
  }

  /** The entry of a file that keeps its chunks, which now start at `at`. */
  function KeptEntry(e: Entry, r: Entry, at: int): (p: Entry) {
    e.(hash := r.hash, startOffset := r.startOffset, endOffset := r.endOffset,
       startChunk := at, endChunk := at + r.endChunk - r.startChunk)
  }

  /** What becomes of a local entry: an unchanged file gets the chunks of its partner, any other file with content waits to
      be packed. */
  ghost predicate Planned(refs: seq<ChunkRef>, preserved: seq<ChunkRef>, e: Entry, partner: Option<Entry>, p: Entry) {
    if IsUnchanged(e, partner) && e.size > 0 then
      p == KeptEntry(e, partner.value, p.startChunk) && SameChunks(refs, preserved, partner.value, p.startChunk)
    else if IsUnchanged(e, partner) || e.size <= 0 then p == e
    else p == e.(size := if e.kind.File? then -1 else 0)
  }

  lemma PlannedGrows(refs: seq<ChunkRef>, preserved: seq<ChunkRef>, more: seq<ChunkRef>, e: Entry, partner: Option<Entry>, p: Entry)
    requires Planned(refs, preserved, e, partner, p)
    ensures Planned(refs, preserved + more, e, partner, p)
  {
    if IsUnchanged(e, partner) && e.size > 0 {
      SameChunksGrow(refs, preserved, more, partner.value, p.startChunk);
    }
  }

  /** The preserved chunks so far, seen as a compacted list. */
  ghost function AsCompacted(preserved: seq<ChunkRef>, last: int): (s: Encoder) {
    Encoder(preserved, last, 0, [])
  }

  /** Adds the chunks of an unchanged file, unless the first one was added last. */
  method Preserve(list: EntryList, refs: seq<ChunkRef>, last: int, r: Entry) returns (last': int, at: int)
    requires 0 <= r.startChunk <= r.endChunk < |refs|
    modifies list`preserved
    ensures list.preserved == old(list.preserved) + NewChunks(refs, AsCompacted(old(list.preserved), last), r)
    ensures last' == r.endChunk && at == NewStart(AsCompacted(old(list.preserved), last), r)
  {
    ghost var first := if r.startChunk == last then r.startChunk + 1 else r.startChunk;
    last' := last;
    var delta := r.startChunk - |list.preserved|;
    if last != r.startChunk {
      last' := r.startChunk;
      list.AddPreservedChunk(refs[last']);
    } else {
      delta := delta + 1;
    }
    var i := r.startChunk + 1;
    while i <= r.endChunk
      invariant r.startChunk + 1 <= i <= r.endChunk + 1 && last' == i - 1
      invariant list.preserved == old(list.preserved) + refs[first..i]
    {
      list.AddPreservedChunk(refs[i]);
      last' := i;
      i := i + 1;
    }
    at := r.startChunk - delta;
  }

  predicate AllUnread(modified: seq<Modified>) {
    forall j :: 0 <= j < |modified| ==> modified[j].size == -1
  }

  predicate AllFrom(refs: seq<ChunkRef>, some: seq<ChunkRef>) {
    forall i :: 0 <= i < |some| ==> some[i] in refs
  }

  /** What the previous snapshot decodes to. */
  predicate IsSnapshot(refs: seq<ChunkRef>, remote: seq<Entry>) {
    forall i :: 0 <= i < |remote| ==> Fits(Lengths(refs), remote[i]) && (!remote[i].kind.File? ==> remote[i].size == 0)
  }

  /** One local entry. */
  method PlanOne(list: EntryList, refs: seq<ChunkRef>, last: int, e: Entry, partner: Option<Entry>) returns (last': int, ghost more: seq<ChunkRef>)
    requires list.Valid() && LastFor(refs, AsCompacted(list.preserved, last)) && e.size >= 0
    requires CanKeep(refs, partner)
    modifies list
    ensures list.Valid() && LastFor(refs, AsCompacted(list.preserved, last'))
    ensures list.preserved == old(list.preserved) + more && AllFrom(refs, more)
    ensures |list.entries| == |old(list.entries)| + 1 && list.entries[..|old(list.entries)|] == old(list.entries)
    ensures Planned(refs, list.preserved, e, partner, list.entries[|old(list.entries)|])
    ensures list.uploaded == old(list.uploaded) && (AllUnread(old(list.modified)) ==> AllUnread(list.modified))
  {
    last', more := last, [];
    var x := e;
    if partner.Some? && IsSameAs(e, partner.value) && e.kind.File? {
      if e.size > 0 {
        var r, at := partner.value, 0;
        CompactedAgain(refs, AsCompacted(list.preserved, last), r);
        more := NewChunks(refs, AsCompacted(list.preserved, last), r);
        last', at := Preserve(list, refs, last, r);
        x := KeptEntry(e, r, at);
      }
    } else if e.size > 0 {
      x := e.(size := -1);
    }
    list.AddEntry(x);
  }

  /** Every local entry is planned with the remote entry of its own path, and no other. */
  ghost predicate AllPlanned(refs: seq<ChunkRef>, preserved: seq<ChunkRef>, remote: seq<Entry>, local: seq<Entry>,
                             partners: seq<Option<Entry>>, planned: seq<Entry>)
  {
    && |planned| == |partners| <= |local|
    && forall k :: 0 <= k < |planned| ==> PlannedAt(refs, preserved, remote, local, partners, planned, k)
  }

  ghost predicate PlannedAt(refs: seq<ChunkRef>, preserved: seq<ChunkRef>, remote: seq<Entry>, local: seq<Entry>,
                            partners: seq<Option<Entry>>, planned: seq<Entry>, k: nat)
    requires k < |planned| && k < |partners| && k < |local|
  {
    IsPartner(remote, local[k], partners[k]) && Planned(refs, preserved, local[k], partners[k], planned[k])
  }

  lemma AllPlannedNext(refs: seq<ChunkRef>, preserved: seq<ChunkRef>, more: seq<ChunkRef>, remote: seq<Entry>, local: seq<Entry>,
                       partners: seq<Option<Entry>>, planned: seq<Entry>, partner: Option<Entry>, planned': seq<Entry>)
    requires AllPlanned(refs, preserved, remote, local, partners, planned) && |planned| < |local|
    requires |planned'| == |planned| + 1 && planned'[..|planned|] == planned
    requires IsPartner(remote, local[|planned|], partner)
    requires Planned(refs, preserved + more, local[|planned|], partner, planned'[|planned|])
    ensures AllPlanned(refs, preserved + more, remote, local, partners + [partner], planned')
  {
    var n := |planned|;
    forall k | 0 <= k <= n ensures PlannedAt(refs, preserved + more, remote, local, partners + [partner], planned', k) {
      if k < n {
        assert PlannedAt(refs, preserved, remote, local, partners, planned, k);
        assert planned'[k] == planned'[..n][k];
        PlannedGrows(refs, preserved, more, local[k], partners[k], planned[k]);
      }
    }
  }

  ghost predicate ReadyFor(remote: seq<Entry>, head: nat, local: seq<Entry>, i: nat) {
    head <= |remote| && (i < |local| ==> Passed(remote, head, local[i]))
  }

  lemma ReadyNext(remote: seq<Entry>, head: nat, local: seq<Entry>, i: nat)
    requires SortedEntries(local) && SortedEntries(remote) && i < |local| && head <= |remote| && NotAfter(remote, head, local[i])
    ensures ReadyFor(remote, head, local, i + 1)
  {
    if i + 1 < |local| {
      PassedOn(remote, head, local[i], local[i + 1]);
    }
  }

  predicate CanKeep(refs: seq<ChunkRef>, partner: Option<Entry>) {
    partner.Some? ==> Fits(Lengths(refs), partner.value) && (!partner.value.kind.File? ==> partner.value.size == 0)
  }

  /** The partner of the next local entry. */
  method FindNext(cursor: Cursor, refs: seq<ChunkRef>, local: seq<Entry>, i: nat) returns (partner: Option<Entry>)
    requires SortedEntries(local) && SortedEntries(cursor.remote) && IsSnapshot(refs, cursor.remote) && i < |local|
    requires cursor.Valid() && ReadyFor(cursor.remote, cursor.Head(), local, i)
    modifies cursor
    ensures cursor.Valid() && ReadyFor(cursor.remote, cursor.Head(), local, i + 1)
    ensures IsPartner(cursor.remote, local[i], partner) && CanKeep(refs, partner)
  {
    partner := cursor.Find(local[i]);
    ReadyNext(cursor.remote, cursor.Head(), local, i);
  }

  /** What holds after the first entries of a listing. */
  ghost predicate PlannedSoFar(list: EntryList, cursor: Cursor, refs: seq<ChunkRef>, local: seq<Entry>, last: int, partners: seq<Option<Entry>>)
    reads list, cursor
  {
    && list.Valid() && cursor.Valid() && list.uploaded == [] && AllUnread(list.modified) && AllFrom(refs, list.preserved)
    && LastFor(refs, AsCompacted(list.preserved, last))
    && ReadyFor(cursor.remote, cursor.Head(), local, |list.entries|)
    && AllPlanned(refs, list.preserved, cursor.remote, local, partners, list.entries)
  }

  ghost predicate Comparable(refs: seq<ChunkRef>, local: seq<Entry>, remote: seq<Entry>) {
    && SortedEntries(local) && SortedEntries(remote) && IsSnapshot(refs, remote)
    && forall i :: 0 <= i < |local| ==> local[i].size >= 0
  }

  /** One more entry. */
  method PlanNext(list: EntryList, cursor: Cursor, refs: seq<ChunkRef>, local: seq<Entry>, last: int, partners: seq<Option<Entry>>)
    returns (last': int, partners': seq<Option<Entry>>)
    requires Comparable(refs, local, cursor.remote) && |list.entries| < |local|
    requires PlannedSoFar(list, cursor, refs, local, last, partners)
    modifies list, cursor
    ensures PlannedSoFar(list, cursor, refs, local, last', partners') && |list.entries| == |old(list.entries)| + 1
  {
    var e := local[|list.entries|];
    var partner := FindNext(cursor, refs, local, |list.entries|);
    ghost var preserved, entries, more := list.preserved, list.entries, [];
    last', more := PlanOne(list, refs, last, e, partner);
    AllPlannedNext(refs, preserved, more, cursor.remote, local, partners, entries, partner, list.entries);
    partners' := partners + [partner];
  }

  // ---------- which files are packed again ----------

  /** The previous snapshot has an entry of the same path and size whose time differs by at most a second. */
  ghost predicate HasTwin(remote: seq<Entry>, e: Entry) {
    exists i :: 0 <= i < |remote| && IsTwin(remote[i], e)
  }

  predicate IsTwin(r: Entry, e: Entry) {
    r.path == e.path && r.size == e.size && -1 <= r.time - e.time <= 1
  }

  lemma SamePathIsOne(entries: seq<Entry>, i: nat, j: nat)
    requires SortedEntries(entries) && i < |entries| && j < |entries| && entries[i].path == entries[j].path
    ensures i == j
  {
    assert IsPath(entries[i].path) && IsPath(entries[j].path);
    CompareFacts(entries[i], entries[j]);
    CompareOrder(entries[i].path, entries[j].path, entries[i].path);
    var low, high := if i < j then i else j, if i < j then j else i;
    assert low < high ==> Before(entries[low], entries[high]);
  }

  /** A file keeps its chunks exactly when the snapshot has a twin of it, which then is its partner. */
  lemma UnchangedIsTwin(remote: seq<Entry>, e: Entry, partner: Option<Entry>)
    requires SortedEntries(remote) && IsPartner(remote, e, partner) && e.kind.File?
    ensures IsUnchanged(e, partner) <==> HasTwin(remote, e)
    ensures HasTwin(remote, e) ==> partner.Some? && IsTwin(partner.value, e)
  {
    if i :| 0 <= i < |remote| && IsTwin(remote[i], e) {
      var j :| 0 <= j < |remote| && remote[j] == partner.value;
      SamePathIsOne(remote, i, j);
    }
    if IsUnchanged(e, partner) {
      var j :| 0 <= j < |remote| && remote[j] == partner.value;
      assert IsTwin(remote[j], e);
    }
  }

  /** The entry that waits for the `j`th modified file. */
  lemma {:induction false} WaitingEntry(entries: seq<Entry>, upTo: nat, j: nat) returns (k: nat)
    requires upTo <= |entries| && j < Rank(entries, upTo)
    ensures k < upTo && entries[k].size < 0 && Rank(entries, k) == j
  {
    if entries[upTo - 1].size < 0 && Rank(entries, upTo - 1) == j {
      k := upTo - 1;
    } else {
      k := WaitingEntry(entries, upTo - 1, j);
    }
  }

  /** A file is packed again exactly when it has content and the previous snapshot has no twin of it. */
  ghost predicate PackedAgain(remote: seq<Entry>, modified: seq<Modified>, e: Entry) {
    (exists j :: 0 <= j < |modified| && modified[j].path == e.path) <==> e.kind.File? && e.size > 0 && !HasTwin(remote, e)
  }

  lemma PlannedSize(refs: seq<ChunkRef>, preserved: seq<ChunkRef>, remote: seq<Entry>, local: seq<Entry>,
                    partners: seq<Option<Entry>>, planned: seq<Entry>, k: nat)
    requires AllPlanned(refs, preserved, remote, local, partners, planned) && k < |planned| == |local|
    requires SortedEntries(remote) && local[k].size >= 0
    ensures planned[k].path == local[k].path
    ensures planned[k].size < 0 <==> local[k].kind.File? && local[k].size > 0 && !HasTwin(remote, local[k])
  {
    assert PlannedAt(refs, preserved, remote, local, partners, planned, k);
    if local[k].kind.File? {
      UnchangedIsTwin(remote, local[k], partners[k]);
    }
  }

  lemma PlannedIsPackedAgain(refs: seq<ChunkRef>, preserved: seq<ChunkRef>, remote: seq<Entry>, local: seq<Entry>,
                             partners: seq<Option<Entry>>, planned: seq<Entry>, modified: seq<Modified>, k: nat)
    requires AllPlanned(refs, preserved, remote, local, partners, planned) && k < |planned| == |local|
    requires Comparable(refs, local, remote) && Aligned(planned, modified)
    ensures PackedAgain(remote, modified, local[k])
  {
    PlannedSize(refs, preserved, remote, local, partners, planned, k);
    assert Matches(planned, modified, k);
    if j :| 0 <= j < |modified| && modified[j].path == local[k].path {
      var w := WaitingEntry(planned, |planned|, j);
      assert Matches(planned, modified, w);
      PlannedSize(refs, preserved, remote, local, partners, planned, w);
      SamePathIsOne(local, k, w);
    }
  }

  /** Compares a whole local listing with the previous snapshot. */
  method PlanBackup(local: seq<Entry>, remote: seq<Entry>, refs: seq<ChunkRef>) returns (list: EntryList, partners: seq<Option<Entry>>)
    requires Comparable(refs, local, remote)
    ensures fresh(list) && list.Valid() && |list.entries| == |local| && list.uploaded == []
    ensures AllUnread(list.modified) && AllFrom(refs, list.preserved)
    ensures AllPlanned(refs, list.preserved, remote, local, partners, list.entries)
    ensures forall k :: 0 <= k < |local| ==> PackedAgain(remote, list.modified, local[k])
  {
    list := new EntryList();
    partners := [];
    var cursor := new Cursor(remote);
    var last := -1;
    while |list.entries| < |local|
      invariant |list.entries| <= |local| && cursor.remote == remote && fresh(list) && fresh(cursor)
      invariant PlannedSoFar(list, cursor, refs, local, last, partners)
    {
      last, partners := PlanNext(list, cursor, refs, local, last, partners);
    }
    forall k | 0 <= k < |local| ensures PackedAgain(remote, list.modified, local[k]) {
      PlannedIsPackedAgain(refs, list.preserved, remote, local, partners, list.entries, list.modified, k);
    }
  }
}
