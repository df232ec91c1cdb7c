/**
 The entries the lister makes of numbered hard links are what the index pipeline expects (src/duplicacy_entry.go).
 */
module ListedEntries {
  import opened Wrappers
  import opened ByteStreams
  import opened Entries
  import opened EntryLists
  import opened SnapshotCodec
  import opened Splitting
  import opened RoundTrip
  import opened BackupRoundTrip
  import opened BackupPlan
  import opened WholeBackup
  import HardLinks

  /** An entry as it is made from the properties of a file, before links are looked at. */
  predicate IsPlainEntry(e: Entry) {
    e.size >= 0 && e.startChunk == e.startOffset == e.endChunk == e.endOffset == 0 && (e.kind.File? ==> e.link == "")
  }

  /** How the lister marks an entry: files by their link, anything else by its last chunk. */
  function Marked(e: Entry, link: HardLinks.Link): (r: Entry) {
    match link
    case Single => e
    case First => if e.kind.File? then e.(link := "/") else e.(endChunk := ROOT_MARKER)
    case Further(id) =>
      if e.kind.File? then e.(size := 0, link := FormatHex(id))
      else e.(size := 0, endChunk := TARGET_MARKER, endOffset := id)
  }

  /** Directories have no links, ids are machine numbers, and links to one inode are of one kind. */
  ghost predicate CanMark(plain: seq<Entry>, items: seq<HardLinks.Item>, inodes: seq<Option<nat>>) {
    && |plain| == |items| == |inodes| && HardLinks.Numbered(items, inodes)
    && (forall k :: 0 <= k < |plain| ==> MarkableAt(plain, items, k))
    && (forall k, l :: 0 <= k < |plain| && 0 <= l < |plain| && inodes[k].Some? && inodes[k] == inodes[l] ==> plain[k].kind == plain[l].kind)
  }

  predicate MarkableAt(plain: seq<Entry>, items: seq<HardLinks.Item>, k: nat)
    requires k < |plain| == |items|
  {
    && IsPlainEntry(plain[k]) && (plain[k].kind.Dir? ==> items[k].link.Single?)
    && (items[k].link.Further? ==> items[k].link.id < ID_LIMIT)
  }

  function MarkAll(plain: seq<Entry>, items: seq<HardLinks.Item>): (entries: seq<Entry>)
    requires |plain| == |items|
    ensures |entries| == |plain|
  {
    seq(|plain|, k requires 0 <= k < |plain| => Marked(plain[k], items[k].link))
  }

  /** What an entry is, is what it was marked as. */
  lemma MarkedIs(e: Entry, link: HardLinks.Link)
    requires IsPlainEntry(e) && (e.kind.Dir? ==> link.Single?) && (link.Further? ==> link.id < ID_LIMIT)
    ensures
      var r := Marked(e, link);
      && (IsFirstLink(r) <==> link.First?) && (IsLinked(r) <==> link.Further?)
      && (IsHardLinkChild(r) ==> r.size == 0) && r.kind == e.kind
      && (link.Further? ==> HardLinkId(r) == Some(link.id))
      && (link.First? ==> if e.kind.File? then r.link == "/" else r.endChunk == -9)
      && (link.Further? && !e.kind.File? ==> r.endChunk == -10 && r.endOffset == link.id)
  {
    if link.Further? {
      LinkIdRoundTrip(link.id);
    }
  }

  lemma {:induction false} MarkedRoots(plain: seq<Entry>, items: seq<HardLinks.Item>, inodes: seq<Option<nat>>, k: nat)
    requires CanMark(plain, items, inodes) && k <= |plain|
    ensures Roots(MarkAll(plain, items), k) == HardLinks.Firsts(items, k)
  {
    if k > 0 {
      MarkedRoots(plain, items, inodes, k - 1);
      assert MarkableAt(plain, items, k - 1);
      MarkedIs(plain[k - 1], items[k - 1].link);
    }
  }

  /** A listing with numbered links meets what the index pipeline asks of it. */
  lemma MarkedIsListing(plain: seq<Entry>, items: seq<HardLinks.Item>, inodes: seq<Option<nat>>)
    requires CanMark(plain, items, inodes)
    ensures LocalListing(MarkAll(plain, items))
  {
    var entries := MarkAll(plain, items);
    forall k | 0 <= k < |entries| ensures ListedAt(entries, k) {
      assert MarkableAt(plain, items, k) && HardLinks.NumberedAt(items, inodes, k);
      MarkedIs(plain[k], items[k].link);
      MarkedRoots(plain, items, inodes, k);
      if items[k].link.Further? {
        var root := HardLinks.Firsts(items, k)[items[k].link.id];
        assert MarkableAt(plain, items, root);
        MarkedIs(plain[root], items[root].link);
      }
    }
  }

  // ---------- and back from a snapshot ----------

  /** What a restore reads off an entry. */
  function LinkOf(d: Entry): (link: HardLinks.Link) {
    if IsHardLinkRoot(d) then HardLinks.First
    else if IsHardLinkChild(d) && HardLinkId(d).Some? then HardLinks.Further(HardLinkId(d).value)
    else HardLinks.Single
  }

  /** A decoded entry is read as it was marked. */
  lemma MarksComeBack(d: Entry, planned: Entry, plain: Entry, link: HardLinks.Link)
    requires IsPlainEntry(plain) && (plain.kind.Dir? ==> link.Single?) && (link.Further? ==> link.id < ID_LIMIT)
    requires planned.kind == plain.kind && planned.link == Marked(plain, link).link
    requires !plain.kind.File? ==> planned.endChunk == Marked(plain, link).endChunk && planned.endOffset == Marked(plain, link).endOffset
    requires ComesMarked(d, planned)
    ensures LinkOf(d) == link
  {
    if link.Further? {
      LinkIdRoundTrip(link.id);
    }
  }

  /** Planning keeps the marks of an entry. */
  lemma PlanKeepsMarks(refs: seq<ChunkRef>, preserved: seq<ChunkRef>, e: Entry, partner: Option<Entry>, p: Entry)
    requires Planned(refs, preserved, e, partner, p)
    ensures p.kind == e.kind && p.link == e.link && (!e.kind.File? ==> p.endChunk == e.endChunk && p.endOffset == e.endOffset)
  {
  }

  /** A finished backup of a listing with numbered links, none of which is cut off. */
  ghost predicate IsBackupOf(store: Store, refs: seq<ChunkRef>, remote: seq<Entry>, partners: seq<Option<Entry>>, b: Backup, p: Params,
                             hash: Bytes -> Hash, plain: seq<Entry>, items: seq<HardLinks.Item>, inodes: seq<Option<nat>>)
  {
    && CanMark(plain, items, inodes) && (forall k :: 0 <= k < |plain| ==> plain[k].path == items[k].path)
    && Compared(store, refs, remote, MarkAll(plain, items), partners, b) && Packed(b, p, store, hash) && AllLinksKept(b)
  }

  /** The items a restore reads off a decoded stream. */
  function ItemsOf(encoded: seq<Entry>): (items: seq<HardLinks.Item>)
    ensures |items| == |encoded|
  {
    seq(|encoded|, n requires 0 <= n < |encoded| => HardLinks.Item(DecodeAt(encoded, n).path, LinkOf(DecodeAt(encoded, n))))
  }

  /** The inodes the lister saw behind the entries that were sent. */
  function SentInodes(b: Backup, inodes: seq<Option<nat>>): (r: seq<Option<nat>>)
    requires Aligned(b.entries, b.modified) && |inodes| == |b.entries|
    ensures |r| == Slot(b.entries, b.modified, |b.entries|)
  {
    seq(Slot(b.entries, b.modified, |b.entries|),
        n requires 0 <= n < Slot(b.entries, b.modified, |b.entries|) => inodes[Origin(b.entries, b.modified, n, |b.entries|)])
  }

  /** The encoding a finished backup wrote. */
  ghost function Written(b: Backup, hash: Bytes -> Hash): (encoded: seq<Entry>)
    requires CanEncode(b, hash)
  {
    Encode(FullList(b, hash), SentList(b, hash).sent, |SentList(b, hash).sent|).entries
  }

  lemma WrittenLength(store: Store, refs: seq<ChunkRef>, remote: seq<Entry>, local: seq<Entry>, partners: seq<Option<Entry>>, b: Backup,
                      p: Params, hash: Bytes -> Hash)
    requires Compared(store, refs, remote, local, partners, b) && Packed(b, p, store, hash) && AllLinksKept(b)
    ensures Listed(b, store) && CanEncode(b, hash) && |Written(b, hash)| == Slot(b.entries, b.modified, |b.entries|)
    ensures b.entries != [] ==> AllSentAs(b.entries, b.modified, SentList(b, hash).sent)
  {
    ComparedIsListed(store, refs, remote, local, partners, b);
    KeptLinksEncode(b, p, store, hash);
    if b.entries != [] {
      ListingSucceeds(b, p, store, hash);
      AllSent(b, p, store, hash);
      SentWellFormed(b, p, store, hash);
      EncodeKeeps(FullList(b, hash), SentList(b, hash).sent, |SentList(b, hash).sent|);
    }
  }

  /** A sent entry is read as the item it was listed as. */
  lemma ItemComesBack(store: Store, refs: seq<ChunkRef>, remote: seq<Entry>, partners: seq<Option<Entry>>, b: Backup, p: Params,
                      hash: Bytes -> Hash, plain: seq<Entry>, items: seq<HardLinks.Item>, inodes: seq<Option<nat>>, k: nat)
    requires IsBackupOf(store, refs, remote, partners, b, p, hash, plain, items, inodes)
    requires k < |plain| && IsSent(b.entries, b.modified, k) && CanEncode(b, hash)
    ensures
      var n := Slot(b.entries, b.modified, k);
      n < |Written(b, hash)| && ItemsOf(Written(b, hash))[n] == items[k]
  {
    var local := MarkAll(plain, items);
    WholeRoundTrip(store, refs, remote, local, partners, b, p, hash, hash, k);
    assert PlannedAt(refs, b.preserved, remote, local, partners, b.entries, k) && MarkableAt(plain, items, k);
    PlanKeepsMarks(refs, b.preserved, local[k], partners[k], b.entries[k]);
    var d := DecodeAt(Written(b, hash), Slot(b.entries, b.modified, k));
    MarksComeBack(d, b.entries[k], plain[k], items[k].link);
    assert d.path == items[k].path;
  }

  lemma SlotsIncrease(entries: seq<Entry>, modified: seq<Modified>, k: nat, l: nat)
    requires Aligned(entries, modified) && k < l <= |entries| && IsSent(entries, modified, k)
    ensures Slot(entries, modified, k) < Slot(entries, modified, l)
  {
    SlotMonotone(entries, modified, k + 1, l);
  }

  lemma OriginOfSlot(entries: seq<Entry>, modified: seq<Modified>, k: nat)
    requires Aligned(entries, modified) && k < |entries| && IsSent(entries, modified, k)
    ensures Slot(entries, modified, k) < Slot(entries, modified, |entries|)
    ensures Origin(entries, modified, Slot(entries, modified, k), |entries|) == k
  {
    SlotsIncrease(entries, modified, k, |entries|);
    var o := Origin(entries, modified, Slot(entries, modified, k), |entries|);
    if k < o {
      SlotsIncrease(entries, modified, k, o);
    } else if o < k {
      SlotsIncrease(entries, modified, o, k);
    }
  }

  lemma {:induction false} FirstIsListed(items: seq<HardLinks.Item>, k: nat, o: nat) returns (i: nat)
    requires o < k <= |items| && items[o].link.First?
    ensures i < |HardLinks.Firsts(items, k)| && HardLinks.Firsts(items, k)[i] == o
  {
    if o == k - 1 {
      i := |HardLinks.Firsts(items, k)| - 1;
    } else {
      i := FirstIsListed(items, k - 1, o);
    }
  }

  /** Planning and sending keep what kind of link an entry is. */
  lemma SentIsMarked(store: Store, refs: seq<ChunkRef>, remote: seq<Entry>, partners: seq<Option<Entry>>, b: Backup, p: Params,
                     hash: Bytes -> Hash, plain: seq<Entry>, items: seq<HardLinks.Item>, inodes: seq<Option<nat>>, k: nat)
    requires IsBackupOf(store, refs, remote, partners, b, p, hash, plain, items, inodes) && k < |plain|
    ensures IsFirstLink(b.entries[k]) <==> items[k].link.First?
    ensures items[k].link.Further? ==> IsLinked(b.entries[k]) && HardLinkId(b.entries[k]) == Some(items[k].link.id)
  {
    var local := MarkAll(plain, items);
    assert PlannedAt(refs, b.preserved, remote, local, partners, b.entries, k) && MarkableAt(plain, items, k) && ListedAt(local, k);
    MarkedIs(plain[k], items[k].link);
    PlannedLinks(refs, b.preserved, local[k], partners[k], b.entries[k]);
  }

  predicate SameFirst(items: seq<HardLinks.Item>, entries: seq<Entry>, n: nat)
    requires n < |items| == |entries|
  {
    items[n].link.First? <==> IsFirstLink(entries[n])
  }

  lemma {:induction false} SameFirsts(items: seq<HardLinks.Item>, entries: seq<Entry>, n: nat)
    requires n <= |items| == |entries| && forall m :: 0 <= m < n ==> SameFirst(items, entries, m)
    ensures HardLinks.Firsts(items, n) == Roots(entries, n)
  {
    if n > 0 {
      SameFirsts(items, entries, n - 1);
      assert SameFirst(items, entries, n - 1);
    }
  }

  lemma FirstComesBackAt(store: Store, refs: seq<ChunkRef>, remote: seq<Entry>, partners: seq<Option<Entry>>, b: Backup, p: Params,
                         hash: Bytes -> Hash, plain: seq<Entry>, items: seq<HardLinks.Item>, inodes: seq<Option<nat>>, n: nat)
    requires IsBackupOf(store, refs, remote, partners, b, p, hash, plain, items, inodes)
    requires CanEncode(b, hash) && |Written(b, hash)| == Slot(b.entries, b.modified, |b.entries|)
    requires AllSentAs(b.entries, b.modified, SentList(b, hash).sent) && n < |Written(b, hash)|
    ensures SameFirst(ItemsOf(Written(b, hash)), SentList(b, hash).sent, n)
  {
    var k := Origin(b.entries, b.modified, n, |b.entries|);
    assert SentAs(b.entries, b.modified, SentList(b, hash).sent, k);
    ItemComesBack(store, refs, remote, partners, b, p, hash, plain, items, inodes, k);
    SentIsMarked(store, refs, remote, partners, b, p, hash, plain, items, inodes, k);
  }

  /** A restore counts the same first links as the entries that were sent. */
  lemma FirstsComeBack(store: Store, refs: seq<ChunkRef>, remote: seq<Entry>, partners: seq<Option<Entry>>, b: Backup,
                       p: Params, hash: Bytes -> Hash, plain: seq<Entry>, items: seq<HardLinks.Item>,
                       inodes: seq<Option<nat>>, n: nat)
    requires IsBackupOf(store, refs, remote, partners, b, p, hash, plain, items, inodes)
    requires CanEncode(b, hash) && |Written(b, hash)| == Slot(b.entries, b.modified, |b.entries|)
    requires AllSentAs(b.entries, b.modified, SentList(b, hash).sent) && n <= |Written(b, hash)|
    ensures HardLinks.Firsts(ItemsOf(Written(b, hash)), n) == Roots(SentList(b, hash).sent, n)
  {
    var items', sent := ItemsOf(Written(b, hash)), SentList(b, hash).sent;
    forall m | 0 <= m < n ensures SameFirst(items', sent, m) {
      FirstComesBackAt(store, refs, remote, partners, b, p, hash, plain, items, inodes, m);
    }
    SameFirsts(items', sent, n);
  }

  /** A first link comes back with an inode that no earlier first link has. */
  lemma FirstComesBack(entries: seq<Entry>, modified: seq<Modified>, items: seq<HardLinks.Item>, inodes: seq<Option<nat>>,
                       items': seq<HardLinks.Item>, n: nat, i: nat)
    requires Aligned(entries, modified) && |entries| == |items| && HardLinks.Numbered(items, inodes)
    requires |items'| == Slot(entries, modified, |entries|) && ComeBack(entries, modified, items, items')
    requires n < |items'| && items'[n].link.First? && i < |HardLinks.Firsts(items', n)|
    ensures
      var m := HardLinks.Firsts(items', n)[i];
      inodes[Origin(entries, modified, m, |entries|)] != inodes[Origin(entries, modified, n, |entries|)]
  {
    HardLinks.FirstsAreFirst(items', n, i);
    var m := HardLinks.Firsts(items', n)[i];
    var o, k := Origin(entries, modified, m, |entries|), Origin(entries, modified, n, |entries|);
    if k < o {
      SlotsIncrease(entries, modified, k, o);
    }
    assert ComesBackAt(entries, modified, items, items', m) && ComesBackAt(entries, modified, items, items', n);
    var j := FirstIsListed(items, k, o);
    assert HardLinks.NumberedAt(items, inodes, k);
  }

  /** Every item that comes back is the item that was listed. */
  ghost predicate ComeBack(entries: seq<Entry>, modified: seq<Modified>, items: seq<HardLinks.Item>, items': seq<HardLinks.Item>)
    requires Aligned(entries, modified) && |entries| == |items| && |items'| == Slot(entries, modified, |entries|)
  {
    forall n :: 0 <= n < |items'| ==> ComesBackAt(entries, modified, items, items', n)
  }

  ghost predicate ComesBackAt(entries: seq<Entry>, modified: seq<Modified>, items: seq<HardLinks.Item>, items': seq<HardLinks.Item>, n: nat)
    requires Aligned(entries, modified) && |entries| == |items| && n < |items'| == Slot(entries, modified, |entries|)
  {
    items'[n] == items[Origin(entries, modified, n, |entries|)]
  }

  lemma ItemsComeBack(store: Store, refs: seq<ChunkRef>, remote: seq<Entry>, partners: seq<Option<Entry>>, b: Backup, p: Params,
                      hash: Bytes -> Hash, plain: seq<Entry>, items: seq<HardLinks.Item>, inodes: seq<Option<nat>>)
    requires IsBackupOf(store, refs, remote, partners, b, p, hash, plain, items, inodes)
    requires CanEncode(b, hash) && |Written(b, hash)| == Slot(b.entries, b.modified, |b.entries|)
    ensures ComeBack(b.entries, b.modified, items, ItemsOf(Written(b, hash)))
  {
    var items' := ItemsOf(Written(b, hash));
    forall n | 0 <= n < |items'| ensures ComesBackAt(b.entries, b.modified, items, items', n) {
      var k := Origin(b.entries, b.modified, n, |b.entries|);
      ItemComesBack(store, refs, remote, partners, b, p, hash, plain, items, inodes, k);
    }
  }

  /** A further link comes back with the id of its own inode. */
  lemma FurtherComesBack(store: Store, refs: seq<ChunkRef>, remote: seq<Entry>, partners: seq<Option<Entry>>, b: Backup, p: Params,
                         hash: Bytes -> Hash, plain: seq<Entry>, items: seq<HardLinks.Item>, inodes: seq<Option<nat>>, k: nat)
    requires IsBackupOf(store, refs, remote, partners, b, p, hash, plain, items, inodes)
    requires k < |plain| && items[k].link.Further? && IsSent(b.entries, b.modified, k)
    requires AllSentAs(b.entries, b.modified, SentList(b, hash).sent)
    ensures
      var t, n, id := SentList(b, hash).sent, Slot(b.entries, b.modified, k), items[k].link.id;
      && n < |t| && id < |Roots(t, n)| && Roots(t, n)[id] < Slot(b.entries, b.modified, |b.entries|)
      && inodes[Origin(b.entries, b.modified, Roots(t, n)[id], |b.entries|)] == inodes[k]
  {
    var id := items[k].link.id;
    MarkedIsListing(plain, items, inodes);
    MarkedRoots(plain, items, inodes, k);
    PlannedRoots(refs, b.preserved, remote, MarkAll(plain, items), partners, b.entries, k);
    SentIsMarked(store, refs, remote, partners, b, p, hash, plain, items, inodes, k);
    assert HardLinks.NumberedAt(items, inodes, k) && LinksKept(b.entries, b.modified, k);
    assert SentAs(b.entries, b.modified, SentList(b, hash).sent, k);
    LinkSurvives(b.entries, b.modified, SentList(b, hash).sent, k, id);
    OriginOfSlot(b.entries, b.modified, Roots(b.entries, k)[id]);
  }

  /** One item that comes back is numbered right. */
  lemma NumberComesBack(store: Store, refs: seq<ChunkRef>, remote: seq<Entry>, partners: seq<Option<Entry>>, b: Backup, p: Params,
                        hash: Bytes -> Hash, plain: seq<Entry>, items: seq<HardLinks.Item>, inodes: seq<Option<nat>>, n: nat)
    requires IsBackupOf(store, refs, remote, partners, b, p, hash, plain, items, inodes)
    requires CanEncode(b, hash) && n < |Written(b, hash)| == Slot(b.entries, b.modified, |b.entries|)
    requires AllSentAs(b.entries, b.modified, SentList(b, hash).sent)
    requires ComeBack(b.entries, b.modified, items, ItemsOf(Written(b, hash)))
    ensures HardLinks.NumberedAt(ItemsOf(Written(b, hash)), SentInodes(b, inodes), n)
  {
    var items', inodes' := ItemsOf(Written(b, hash)), SentInodes(b, inodes);
    var k := Origin(b.entries, b.modified, n, |b.entries|);
    assert ComesBackAt(b.entries, b.modified, items, items', n) && HardLinks.NumberedAt(items, inodes, k);
    match items[k].link {
      case Single =>
      case First =>
        forall i | 0 <= i < |HardLinks.Firsts(items', n)| ensures inodes'[HardLinks.Firsts(items', n)[i]] != inodes'[n] {
          FirstComesBack(b.entries, b.modified, items, inodes, items', n, i);
        }
      case Further(id) =>
        FirstsComeBack(store, refs, remote, partners, b, p, hash, plain, items, inodes, n);
        FurtherComesBack(store, refs, remote, partners, b, p, hash, plain, items, inodes, k);
    }
  }

  /** What a restore reads off the decoded entries is numbered right for the inodes the lister saw. */
  lemma NumbersComeBack(store: Store, refs: seq<ChunkRef>, remote: seq<Entry>, partners: seq<Option<Entry>>, b: Backup, p: Params,
                        hash: Bytes -> Hash, plain: seq<Entry>, items: seq<HardLinks.Item>, inodes: seq<Option<nat>>)
    requires IsBackupOf(store, refs, remote, partners, b, p, hash, plain, items, inodes)
    ensures CanEncode(b, hash) && HardLinks.Numbered(ItemsOf(Written(b, hash)), SentInodes(b, inodes))
  {
    WrittenLength(store, refs, remote, MarkAll(plain, items), partners, b, p, hash);
    ItemsComeBack(store, refs, remote, partners, b, p, hash, plain, items, inodes);
    var items', inodes' := ItemsOf(Written(b, hash)), SentInodes(b, inodes);
    forall n | 0 <= n < |items'| ensures HardLinks.NumberedAt(items', inodes', n) {
      NumberComesBack(store, refs, remote, partners, b, p, hash, plain, items, inodes, n);
    }
  }

  /**
   Listing, backup, encoding, decoding and restoring together: under any filter, two selected entries of a decoded snapshot
   are restored as links to one file exactly when the lister found them to be one inode.
   */
  method RestoreDecoded(ghost store: Store, ghost refs: seq<ChunkRef>, ghost remote: seq<Entry>, ghost partners: seq<Option<Entry>>,
                        ghost b: Backup, ghost p: Params, ghost hash: Bytes -> Hash, ghost plain: seq<Entry>,
                        ghost items: seq<HardLinks.Item>, ghost inodes: seq<Option<nat>>, encoded: seq<Entry>, keep: string -> bool)
    returns (sources: seq<Option<nat>>)
    requires IsBackupOf(store, refs, remote, partners, b, p, hash, plain, items, inodes)
    requires CanEncode(b, hash) ==> encoded == Written(b, hash)
    ensures |sources| == |encoded| == |SentInodes(b, inodes)|
    ensures HardLinks.SharedAsListed(ItemsOf(encoded), SentInodes(b, inodes), keep, sources)
  {
    NumbersComeBack(store, refs, remote, partners, b, p, hash, plain, items, inodes);
    HardLinks.NumberedNamesEarlier(ItemsOf(encoded), SentInodes(b, inodes));
    sources := HardLinks.RestoreLinks(ItemsOf(encoded), keep);
    HardLinks.LinksAllComeBack(ItemsOf(encoded), SentInodes(b, inodes), keep, sources);
  }
}
