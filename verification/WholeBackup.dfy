/**
 A whole backup, from two listings to the stored entry stream, and the way back.
 */
module WholeBackup {
  import opened Wrappers
  import opened ByteStreams
  import opened Entries
  import opened EntryLists
  import opened SnapshotCodec
  import opened Splitting
  import opened RoundTrip
  import opened BackupRoundTrip
  import opened BackupPlan

  /** A directory listing as the lister makes it: no ranges yet, further links are empty and name an earlier first link. */
  ghost predicate LocalListing(local: seq<Entry>) {
    forall k :: 0 <= k < |local| ==> ListedAt(local, k)
  }

  ghost predicate ListedAt(local: seq<Entry>, k: nat)
    requires k < |local|
  {
    var e := local[k];
    && WellFormedAt(local, k)
    && (e.kind.File? ==> e.startChunk == e.endChunk == e.startOffset == e.endOffset == 0)
    && (IsHardLinkChild(e) ==> e.size == 0)
  }

  lemma PlannedLinks(refs: seq<ChunkRef>, preserved: seq<ChunkRef>, e: Entry, partner: Option<Entry>, p: Entry)
    requires Planned(refs, preserved, e, partner, p) && e.size >= 0
    requires e.kind.File? ==> e.endChunk == 0
    requires IsHardLinkChild(e) ==> e.size == 0
    ensures p.kind == e.kind && p.path == e.path && p.link == e.link && SameAttributes(p, e)
    ensures IsFirstLink(p) == IsFirstLink(e) && IsLinked(p) == IsLinked(e) && (IsLinked(p) ==> p == e)
    ensures p.size < 0 ==> p.kind.File? && !IsHardLinkChild(p)
  {
  }

  /** Planning keeps first links where they were. */
  lemma {:induction false} PlannedRoots(refs: seq<ChunkRef>, preserved: seq<ChunkRef>, remote: seq<Entry>, local: seq<Entry>,
                                        partners: seq<Option<Entry>>, planned: seq<Entry>, k: nat)
    requires AllPlanned(refs, preserved, remote, local, partners, planned) && LocalListing(local) && k <= |planned| == |local|
    requires forall i :: 0 <= i < |local| ==> local[i].size >= 0
    ensures Roots(planned, k) == Roots(local, k)
  {
    if k > 0 {
      PlannedRoots(refs, preserved, remote, local, partners, planned, k - 1);
      assert PlannedAt(refs, preserved, remote, local, partners, planned, k - 1) && ListedAt(local, k - 1);
      PlannedLinks(refs, preserved, local[k - 1], partners[k - 1], planned[k - 1]);
    }
  }

  lemma {:induction false} PlannedWellFormed(refs: seq<ChunkRef>, preserved: seq<ChunkRef>, remote: seq<Entry>, local: seq<Entry>,
                                             partners: seq<Option<Entry>>, planned: seq<Entry>, k: nat)
    requires AllPlanned(refs, preserved, remote, local, partners, planned) && LocalListing(local) && k < |planned| == |local|
    requires forall i :: 0 <= i < |local| ==> local[i].size >= 0
    ensures WellFormedAt(planned, k) && (planned[k].size < 0 ==> planned[k].kind.File? && !IsHardLinkChild(planned[k]))
  {
    PlannedRoots(refs, preserved, remote, local, partners, planned, k);
    assert PlannedAt(refs, preserved, remote, local, partners, planned, k) && ListedAt(local, k);
    PlannedLinks(refs, preserved, local[k], partners[k], planned[k]);
    if IsLinked(planned[k]) {
      var r := Roots(local, k)[HardLinkId(local[k]).value];
      assert PlannedAt(refs, preserved, remote, local, partners, planned, r) && ListedAt(local, r);
      PlannedLinks(refs, preserved, local[r], partners[r], planned[r]);
    }
  }

  /** A file that keeps its chunks keeps its content. */
  lemma KeptContent(store: Store, refs: seq<ChunkRef>, preserved: seq<ChunkRef>, e: Entry, r: Entry, at: int)
    requires Stored(store, refs) && Stored(store, preserved) && Readable(store, refs, r) && HasContent(r)
    requires e.kind.File? && e.size == r.size && SameChunks(refs, preserved, r, at)
    ensures Readable(store, preserved, KeptEntry(e, r, at)) && ContentOf(store, preserved, KeptEntry(e, r, at)) == ContentOf(store, refs, r)
  {
    var d, p := r.(startChunk := at, endChunk := at + r.endChunk - r.startChunk), KeptEntry(e, r, at);
    RecoveredFits(refs, preserved, r, d);
    RecoveredContent(store, refs, preserved, r, d);
    RangeFits(store, preserved, d);
    RangeFits(store, preserved, p);
    assert RangeOf(p) == RangeOf(d);
  }

  /** What an entry's partner makes of it. */
  lemma PlannedReadable(store: Store, refs: seq<ChunkRef>, preserved: seq<ChunkRef>, e: Entry, partner: Option<Entry>, p: Entry)
    requires Stored(store, refs) && Stored(store, preserved) && Planned(refs, preserved, e, partner, p) && e.size >= 0
    requires CanKeep(refs, partner) && (partner.Some? ==> OffsetsInRange(partner.value))
    requires e.kind.File? ==> e.startOffset == e.endOffset == 0
    ensures OffsetsInRange(p) && (p.size >= 0 ==> Fits(Lengths(preserved), p))
    ensures IsUnchanged(e, partner) && e.size > 0 ==>
      ContentOf(store, preserved, p) == ContentOf(store, refs, partner.value) && p.hash == partner.value.hash
  {
    if IsUnchanged(e, partner) && e.size > 0 {
      KeptContent(store, refs, preserved, e, partner.value, p.startChunk);
    }
  }

  /** The previous snapshot, as it is found in the storage. */
  ghost predicate GoodSnapshot(store: Store, refs: seq<ChunkRef>, remote: seq<Entry>) {
    Stored(store, refs) && IsSnapshot(refs, remote) && forall i :: 0 <= i < |remote| ==> OffsetsInRange(remote[i])
  }

  /** A finished comparison of a listing with the previous snapshot. */
  ghost predicate Compared(store: Store, refs: seq<ChunkRef>, remote: seq<Entry>, local: seq<Entry>, partners: seq<Option<Entry>>, b: Backup) {
    && GoodSnapshot(store, refs, remote) && LocalListing(local) && (forall i :: 0 <= i < |local| ==> local[i].size >= 0)
    && |b.entries| == |local| && AllPlanned(refs, b.preserved, remote, local, partners, b.entries)
    && Aligned(b.entries, b.modified) && AllFrom(refs, b.preserved)
  }

  lemma PartnerIsGood(store: Store, refs: seq<ChunkRef>, remote: seq<Entry>, e: Entry, partner: Option<Entry>)
    requires GoodSnapshot(store, refs, remote) && IsPartner(remote, e, partner)
    ensures CanKeep(refs, partner) && (partner.Some? ==> OffsetsInRange(partner.value))
  {
  }

  lemma PreservedStored(store: Store, refs: seq<ChunkRef>, preserved: seq<ChunkRef>)
    requires Stored(store, refs) && AllFrom(refs, preserved)
    ensures Stored(store, preserved)
  {
  }

  lemma ComparedEntry(store: Store, refs: seq<ChunkRef>, remote: seq<Entry>, local: seq<Entry>, partners: seq<Option<Entry>>, b: Backup, k: nat)
    requires Compared(store, refs, remote, local, partners, b) && k < |local|
    ensures Stored(store, b.preserved) && WellFormedAt(b.entries, k) && OffsetsInRange(b.entries[k])
    ensures b.entries[k].size >= 0 ==> Fits(Lengths(b.preserved), b.entries[k])
    ensures b.entries[k].size < 0 ==> b.entries[k].kind.File? && !IsHardLinkChild(b.entries[k])
    ensures Stored(store, refs) && CanKeep(refs, partners[k])
    ensures IsUnchanged(local[k], partners[k]) && local[k].size > 0 ==>
      && Readable(store, refs, partners[k].value) && Readable(store, b.preserved, b.entries[k])
      && ContentOf(store, b.preserved, b.entries[k]) == ContentOf(store, refs, partners[k].value)
  {
    PreservedStored(store, refs, b.preserved);
    PlannedWellFormed(refs, b.preserved, remote, local, partners, b.entries, k);
    assert PlannedAt(refs, b.preserved, remote, local, partners, b.entries, k) && ListedAt(local, k);
    PartnerIsGood(store, refs, remote, local[k], partners[k]);
    PlannedReadable(store, refs, b.preserved, local[k], partners[k], b.entries[k]);
  }

  lemma ComparedIsListed(store: Store, refs: seq<ChunkRef>, remote: seq<Entry>, local: seq<Entry>, partners: seq<Option<Entry>>, b: Backup)
    requires Compared(store, refs, remote, local, partners, b)
    ensures Listed(b, store)
  {
    PreservedStored(store, refs, b.preserved);
    forall k | 0 <= k < |b.entries|
      ensures WellFormedAt(b.entries, k) && OffsetsInRange(b.entries[k])
      ensures b.entries[k].size >= 0 ==> Fits(Lengths(b.preserved), b.entries[k])
      ensures b.entries[k].size < 0 ==> b.entries[k].kind.File? && !IsHardLinkChild(b.entries[k])
    {
      ComparedEntry(store, refs, remote, local, partners, b, k);
    }
  }

  /** What a local entry stood for: the content of the previous snapshot if it is unchanged, what was read from it if it
      was packed, and for a further link whatever its first link stood for. */
  ghost predicate StandsFor(store: Store, refs: seq<ChunkRef>, local: seq<Entry>, partners: seq<Option<Entry>>, b: Backup, k: nat, content: Bytes)
    requires |partners| == |local| == |b.entries| && Aligned(b.entries, b.modified) && SizesRead(b.modified, b.files)
    requires k < |local| && LocalListing(local)
  {
    assert ListedAt(local, k) && Matches(b.entries, b.modified, k);
    if IsLinked(local[k]) then StandsFor(store, refs, local, partners, b, Roots(local, k)[HardLinkId(local[k]).value], content)
    else if IsUnchanged(local[k], partners[k]) && local[k].size > 0 then
      Readable(store, refs, partners[k].value) && content == ContentOf(store, refs, partners[k].value)
    else if local[k].kind.File? && local[k].size > 0 then
      b.entries[k].size < 0 && content == b.files[Rank(b.entries, k)]
    else content == []
  }

  lemma {:induction false} OriginalStandsFor(store: Store, refs: seq<ChunkRef>, remote: seq<Entry>, local: seq<Entry>,
                                             partners: seq<Option<Entry>>, b: Backup, k: nat)
    requires Compared(store, refs, remote, local, partners, b) && Listed(b, store) && SizesRead(b.modified, b.files) && k < |local|
    ensures StandsFor(store, refs, local, partners, b, k, Original(b, store, k))
  {
    ComparedEntry(store, refs, remote, local, partners, b, k);
    assert ListedAt(local, k) && Matches(b.entries, b.modified, k);
    assert PlannedAt(refs, b.preserved, remote, local, partners, b.entries, k);
    PlannedLinks(refs, b.preserved, local[k], partners[k], b.entries[k]);
    if IsLinked(local[k]) {
      PlannedRoots(refs, b.preserved, remote, local, partners, b.entries, k);
      OriginalStandsFor(store, refs, remote, local, partners, b, Roots(local, k)[HardLinkId(local[k]).value]);
    }
  }

  // ---------- hashes ----------

  /** The recorded hash of every file that was read is the hash of what was read. */
  predicate HashesRead(modified: seq<Modified>, files: seq<Bytes>, fileHash: Bytes -> Hash) {
    |modified| == |files| && forall j :: 0 <= j < |files| && files[j] != [] ==> modified[j].hash == fileHash(files[j])
  }

  /** The previous snapshot has the right hash for every file. */
  ghost predicate SnapshotHashed(store: Store, refs: seq<ChunkRef>, remote: seq<Entry>, fileHash: Bytes -> Hash)
    requires GoodSnapshot(store, refs, remote)
  {
    forall i :: 0 <= i < |remote| && HasContent(remote[i]) ==> remote[i].hash == fileHash(ContentOf(store, refs, remote[i]))
  }

  lemma {:induction false} OriginalHashIsRight(store: Store, refs: seq<ChunkRef>, remote: seq<Entry>, local: seq<Entry>,
                                               partners: seq<Option<Entry>>, b: Backup, fileHash: Bytes -> Hash, k: nat)
    requires Compared(store, refs, remote, local, partners, b) && Listed(b, store) && SizesRead(b.modified, b.files) && k < |local|
    requires HashesRead(b.modified, b.files, fileHash) && SnapshotHashed(store, refs, remote, fileHash)
    ensures Original(b, store, k) != [] ==> OriginalHash(b, k) == fileHash(Original(b, store, k))
  {
    ComparedEntry(store, refs, remote, local, partners, b, k);
    assert ListedAt(local, k) && Matches(b.entries, b.modified, k);
    assert PlannedAt(refs, b.preserved, remote, local, partners, b.entries, k);
    PlannedLinks(refs, b.preserved, local[k], partners[k], b.entries[k]);
    if IsLinked(local[k]) {
      PlannedRoots(refs, b.preserved, remote, local, partners, b.entries, k);
      OriginalHashIsRight(store, refs, remote, local, partners, b, fileHash, Roots(local, k)[HardLinkId(local[k]).value]);
    } else if b.entries[k].size > 0 && IsUnchanged(local[k], partners[k]) {
      assert partners[k].value in remote && HasContent(partners[k].value);
    }
  }

  /**
   A backup against the previous snapshot, then retrieval: every local entry that is sent comes back under its own path
   with its link marks and the content it stood for, and with the hash of that content.
   */
  lemma WholeRoundTrip(store: Store, refs: seq<ChunkRef>, remote: seq<Entry>, local: seq<Entry>, partners: seq<Option<Entry>>,
                       b: Backup, p: Params, hash: Bytes -> Hash, fileHash: Bytes -> Hash, k: nat)
    requires Compared(store, refs, remote, local, partners, b) && Packed(b, p, store, hash) && AllLinksKept(b)
    requires k < |local| && IsSent(b.entries, b.modified, k)
    ensures SentList(b, hash).ok && InRange(FullList(b, hash), SentList(b, hash).sent)
    ensures
      var sent, n := SentList(b, hash).sent, Slot(b.entries, b.modified, k);
      var r := Encode(FullList(b, hash), sent, |sent|);
      && r.Encoded? && n < |r.entries|
      && var d := DecodeAt(r.entries, n);
      && d.path == local[k].path && d.kind == local[k].kind && ComesMarked(d, b.entries[k]) && Readable(store, r.state.chunks, d)
      && WellFormedAt(local, k) && SameAttributes(d, local[SourceOf(local, k)])
      && var content := ContentOf(store, r.state.chunks, d);
      && StandsFor(store, refs, local, partners, b, k, content)
      && (HashesRead(b.modified, b.files, fileHash) && SnapshotHashed(store, refs, remote, fileHash) && content != [] ==>
            d.hash == fileHash(content))
  {
    ComparedIsListed(store, refs, remote, local, partners, b);
    BackupThenRetrieve(b, p, store, hash, k);
    OriginalStandsFor(store, refs, remote, local, partners, b, k);
    if HashesRead(b.modified, b.files, fileHash) && SnapshotHashed(store, refs, remote, fileHash) {
      OriginalHashIsRight(store, refs, remote, local, partners, b, fileHash, k);
    }
    assert PlannedAt(refs, b.preserved, remote, local, partners, b.entries, k) && ListedAt(local, k);
    PlannedLinks(refs, b.preserved, local[k], partners[k], b.entries[k]);
    PlannedSource(refs, b.preserved, remote, local, partners, b.entries, k);
  }

  lemma PlannedSource(refs: seq<ChunkRef>, preserved: seq<ChunkRef>, remote: seq<Entry>, local: seq<Entry>,
                      partners: seq<Option<Entry>>, planned: seq<Entry>, k: nat)
    requires AllPlanned(refs, preserved, remote, local, partners, planned) && LocalListing(local) && k < |planned| == |local|
    requires (forall i :: 0 <= i < |local| ==> local[i].size >= 0) && WellFormedAt(planned, k)
    ensures WellFormedAt(local, k) && SourceOf(local, k) == SourceOf(planned, k)
    ensures SameAttributes(planned[SourceOf(planned, k)], local[SourceOf(local, k)])
  {
    assert ListedAt(local, k) && PlannedAt(refs, preserved, remote, local, partners, planned, k);
    PlannedLinks(refs, preserved, local[k], partners[k], planned[k]);
    PlannedRoots(refs, preserved, remote, local, partners, planned, k);
    var r := SourceOf(local, k);
    assert ListedAt(local, r) && PlannedAt(refs, preserved, remote, local, partners, planned, r);
    PlannedLinks(refs, preserved, local[r], partners[r], planned[r]);
  }

  // ---------- the assumptions can be met ----------

  /** The first backup of one small file meets every assumption of the round trip. */
  lemma SmallBackup(p: Params, hash: Bytes -> Hash)
    requires ValidParams(p)
    ensures
      var local, file := [Plain("a", 1, "")], [7 as byte];
      var b := Backup([Plain("a", -1, "")], [Modified("a", 1, "")], [file], [], [file]);
      && Compared(map[hash(file) := file], [], [], local, [None], b) && Packed(b, p, map[hash(file) := file], hash)
      && AllLinksKept(b) && IsSent(b.entries, b.modified, 0)
  {
    var e, d, file := Plain("a", 1, ""), Plain("a", -1, ""), [7 as byte];
    var b := Backup([d], [Modified("a", 1, "")], [file], [], [file]);
    assert Rank([d], 0) == 0 && Rank([d], 1) == 1;
    assert forall k :: 0 <= k <= 1 ==> Matches([d], b.modified, k);
    assert Roots([e], 0) == [] && ListedAt([e], 0);
    assert PlannedAt([], [], [], [e], [None], [d], 0);
    ConcatOne(file);
    assert file[..1] == file && file[1..] == [];
    assert Split(p, file) == [file] + Split(p, []);
    assert LinksKept(b.entries, b.modified, 0);
  }
}
