/**
 A backup as it runs, from two listings to the stored entry stream, and the retrieval of every file from it.
 */
module BackupRun {
  import opened Wrappers
  import opened ByteStreams
  import opened Positions
  import opened Entries
  import opened EntryLists
  import opened SnapshotCodec
  import opened Splitting
  import opened ChunkMaker
  import opened RoundTrip
  import opened BackupRoundTrip
  import opened BackupPlan
  import opened WholeBackup
  import RestoreInPlace

  // ---------- packing ----------

  /** What opening a file gives; reading a faulty one fails at some point. */
  datatype Contents = Unreadable | Contents(bytes: Bytes, faulty: bool)

  function BytesOf(c: Contents): (s: Bytes) {
    if c.Unreadable? then [] else c.bytes
  }

  predicate IsFaulty(c: Contents) {
    c.Contents? && c.faulty
  }

  /** Opens every modified file. */
  method ReadFiles(modified: seq<Modified>, open: string -> Contents) returns (files: seq<Bytes>, faulty: set<nat>)
    ensures |files| == |modified| && forall j :: 0 <= j < |files| ==> files[j] == BytesOf(open(modified[j].path))
    ensures forall j :: 0 <= j < |files| ==> (j in faulty <==> IsFaulty(open(modified[j].path)))
  {
    files, faulty := [], {};
    while |files| < |modified|
      invariant |files| <= |modified| && forall j :: 0 <= j < |files| ==> files[j] == BytesOf(open(modified[j].path))
      invariant forall j :: 0 <= j < |files| ==> (j in faulty <==> IsFaulty(open(modified[j].path)))
      invariant forall j :: j in faulty ==> j < |files|
    {
      var c := open(modified[|files|].path);
      faulty := if IsFaulty(c) then faulty + {|files|} else faulty;
      files := files + [BytesOf(c)];
    }
  }

  /** Records the sizes and hashes of the files that could be read. */
  method RecordSizes(list: EntryList, files: seq<Bytes>, open: string -> Contents, fileHash: Bytes -> Hash)
    requires list.Valid() && |files| == |list.modified|
    requires forall j :: 0 <= j < |files| ==> files[j] == BytesOf(open(list.modified[j].path)) && list.modified[j].size == -1
    modifies list`modified
    ensures list.Valid() && SizesRead(list.modified, files) && HashesRead(list.modified, files, fileHash)
    ensures forall j :: 0 <= j < |files| ==> list.modified[j].path == old(list.modified)[j].path
  {
    var j := 0;
    while j < |files|
      invariant j <= |files| == |list.modified| && list.Valid()
      invariant forall k :: 0 <= k < |files| ==> list.modified[k].path == old(list.modified)[k].path
      invariant forall k :: 0 <= k < j ==> |files[k]| == if list.modified[k].size > 0 then list.modified[k].size else 0
      invariant forall k :: 0 <= k < j && files[k] != [] ==> list.modified[k].hash == fileHash(files[k])
      invariant forall k :: j <= k < |files| ==> list.modified[k] == old(list.modified)[k]
    {
      if open(list.modified[j].path).Contents? {
        list.SetPacked(j, |files[j]|, fileHash(files[j]));
      }
      j := j + 1;
    }
  }

  /** Records uploaded chunks; here they complete in order. */
  method RecordChunks(list: EntryList, hash: Bytes -> Hash, chunks: seq<Bytes>)
    requires list.uploaded == []
    modifies list`uploaded
    ensures list.uploaded == RefsOf(hash, chunks)
  {
    var i := 0;
    while i < |chunks|
      invariant i == |list.uploaded| <= |chunks|
      invariant forall k :: 0 <= k < i ==> list.uploaded[k] == ChunkRef(hash(chunks[k]), |chunks[k]|)
    {
      list.AddUploadedChunk(i, ChunkRef(hash(chunks[i]), |chunks[i]|));
      i := i + 1;
    }
  }

  /** Everything is stored under its own hash. */
  ghost predicate IsAddressed(store: Store, hash: Bytes -> Hash) {
    forall h :: h in store ==> hash(store[h]) == h
  }

  /** Uploads the chunks that are not in the storage. */
  method UploadChunks(store: Store, hash: Bytes -> Hash, chunks: seq<Bytes>) returns (store': Store)
    requires IsAddressed(store, hash) && RestoreInPlace.Injective(hash)
    ensures IsAddressed(store', hash) && Uploaded(store', hash, chunks)
    ensures forall h :: h in store ==> h in store' && store'[h] == store[h]
  {
    store' := store;
    for i := 0 to |chunks|
      invariant IsAddressed(store', hash) && forall h :: h in store ==> h in store' && store'[h] == store[h]
      invariant forall k :: 0 <= k < i ==> hash(chunks[k]) in store' && store'[hash(chunks[k])] == chunks[k]
    {
      var h := hash(chunks[i]);
      if h !in store' {
        store' := store'[h := chunks[i]];
      }
    }
  }

  lemma GoodSnapshotGrows(store: Store, store': Store, refs: seq<ChunkRef>, remote: seq<Entry>)
    requires GoodSnapshot(store, refs, remote) && forall h :: h in store ==> h in store' && store'[h] == store[h]
    ensures GoodSnapshot(store', refs, remote)
  {
  }

  /** The listings can be compared and the previous snapshot can be read. */
  ghost predicate CanBackup(store: Store, refs: seq<ChunkRef>, remote: seq<Entry>, local: seq<Entry>) {
    Comparable(refs, local, remote) && GoodSnapshot(store, refs, remote) && LocalListing(local)
  }

  /** A finished packing of what `open` gave. */
  ghost predicate PacksFiles(b: Backup, p: Params, open: string -> Contents, fileHash: Bytes -> Hash)
    requires ValidParams(p)
  {
    && SizesRead(b.modified, b.files) && HashesRead(b.modified, b.files, fileHash) && b.chunks == Split(p, Concat(b.files))
    && forall j :: 0 <= j < |b.files| ==> b.files[j] == BytesOf(open(b.modified[j].path))
  }

  ghost predicate NoneFaulty(modified: seq<Modified>, open: string -> Contents) {
    forall j :: 0 <= j < |modified| ==> !IsFaulty(open(modified[j].path))
  }

  /** The list holds what the backup is about to write. */
  ghost predicate Holds(list: EntryList, b: Backup, hash: Bytes -> Hash)
    reads list
  {
    && list.entries == b.entries && list.modified == b.modified && list.preserved == b.preserved
    && list.uploaded == RefsOf(hash, b.chunks)
  }

  /** Compares, packs and records; only a faulty file makes it fail. */
  method PackBackup(local: seq<Entry>, remote: seq<Entry>, refs: seq<ChunkRef>, open: string -> Contents, p: Params,
                    hash: Bytes -> Hash, fileHash: Bytes -> Hash, stalls: nat, ghost store: Store)
    returns (ok: bool, list: EntryList, partners: seq<Option<Entry>>, b: Backup)
    requires CanBackup(store, refs, remote, local) && ValidParams(p)
    ensures fresh(list) && Holds(list, b, hash) && Compared(store, refs, remote, local, partners, b)
    ensures ok ==> PacksFiles(b, p, open, fileHash)
    ensures NoneFaulty(b.modified, open) ==> ok
  {
    list, partners := PlanBackup(local, remote, refs);
    var files, faulty := ReadFiles(list.modified, open);
    var chunks, sizes;
    ok, chunks, sizes := PackFiles(p, files, stalls, faulty);
    RecordSizes(list, files, open, fileHash);
    RecordChunks(list, hash, chunks);
    b := Backup(list.entries, list.modified, files, list.preserved, chunks);
  }

  // ---------- writing the entries ----------

  lemma {:induction false} AnnotateFits(preserved: seq<nat>, uploaded: seq<nat>, entries: seq<Entry>, modified: seq<Modified>,
                                        i: nat, j: nat, from: nat, n: nat)
    requires n < |Annotate(preserved, uploaded, entries, modified, i, j, from).sent|
    ensures Fits(preserved + uploaded, Annotate(preserved, uploaded, entries, modified, i, j, from).sent[n])
    decreases |entries| - i
  {
    var j', next := NextIndex(entries[i], j), After(entries[i], modified, j, from);
    match AnnotateOne(preserved, uploaded, entries[i], modified, j, from)
    case Sent(e) =>
      if n > 0 {
        AnnotateFits(preserved, uploaded, entries, modified, i + 1, j', next, n - 1);
      } else if entries[i].size < 0 {
        PlacedFits(preserved, uploaded, entries[i], modified[j], from);
      }
    case Skipped => AnnotateFits(preserved, uploaded, entries, modified, i + 1, j', next, n);
    case Refused =>
  }

  lemma SentFits(b: Backup, hash: Bytes -> Hash)
    ensures InRange(FullList(b, hash), SentList(b, hash).sent)
  {
    var u, sent := RefsOf(hash, b.chunks), SentList(b, hash).sent;
    assert Lengths(b.preserved + u) == Lengths(b.preserved) + Lengths(u);
    forall n | 0 <= n < |sent| ensures Fits(Lengths(b.preserved + u), sent[n]) {
      AnnotateFits(Lengths(b.preserved), Lengths(u), b.entries, b.modified, 0, 0, 0, n);
    }
  }

  lemma SplitPositive(p: Params, b: Backup, hash: Bytes -> Hash)
    requires ValidParams(p) && b.chunks == Split(p, Concat(b.files))
    ensures Positive(Lengths(RefsOf(hash, b.chunks)))
  {
    forall i | 0 <= i < |b.chunks| ensures Lengths(RefsOf(hash, b.chunks))[i] > 0 {
      SplitLengths(p, Concat(b.files), i);
    }
  }

  /** What was written is the encoding of the sent list. */
  ghost predicate IsEncodingOf(b: Backup, hash: Bytes -> Hash, encoded: seq<Entry>, chunks: seq<ChunkRef>) {
    var sent := SentList(b, hash).sent;
    CanEncode(b, hash) && var r := Encode(FullList(b, hash), sent, |sent|); r.entries == encoded && r.state.chunks == chunks
  }

  /** Writes the entry stream of a finished packing, exactly when it can be encoded. */
  method EncodeBackup(list: EntryList, hash: Bytes -> Hash, ghost b: Backup) returns (ok: bool, encoded: seq<Entry>, chunks: seq<ChunkRef>)
    requires Holds(list, b, hash) && Positive(Lengths(list.uploaded))
    modifies list
    ensures ok <==> CanEncode(b, hash)
    ensures ok ==> IsEncodingOf(b, hash, encoded, chunks)
  {
    encoded, chunks := [], [];
    var full := list.preserved + list.uploaded;
    var l := list.ReadEntries();
    if !l.ok {
      return false, encoded, chunks;
    }
    SentFits(b, hash);
    var encoder := new SnapshotEncoder();
    ok := encoder.AddAll(full, l.sent);
    encoded, chunks := encoder.out, encoder.chunks;
  }

  /** A whole backup. Without faulty files it succeeds exactly when the listing can be encoded, hence when no link is cut off. */
  method RunBackup(local: seq<Entry>, remote: seq<Entry>, refs: seq<ChunkRef>, open: string -> Contents, p: Params,
                   hash: Bytes -> Hash, fileHash: Bytes -> Hash, stalls: nat, store: Store)
    returns (ok: bool, encoded: seq<Entry>, chunks: seq<ChunkRef>, store': Store, partners: seq<Option<Entry>>, b: Backup)
    requires CanBackup(store, refs, remote, local) && ValidParams(p)
    requires IsAddressed(store, hash) && RestoreInPlace.Injective(hash)
    ensures Compared(store', refs, remote, local, partners, b)
    ensures forall h :: h in store ==> h in store' && store'[h] == store[h]
    ensures ok ==> PacksFiles(b, p, open, fileHash) && Packed(b, p, store', hash) && IsEncodingOf(b, hash, encoded, chunks)
    ensures NoneFaulty(b.modified, open) ==> (ok <==> CanEncode(b, hash))
    ensures NoneFaulty(b.modified, open) && AllLinksKept(b) ==> ok
  {
    var list;
    encoded, chunks, store' := [], [], store;
    ok, list, partners, b := PackBackup(local, remote, refs, open, p, hash, fileHash, stalls, store);
    if !ok {
      return;
    }
    store' := UploadChunks(store, hash, b.chunks);
    GoodSnapshotGrows(store, store', refs, remote);
    SplitPositive(p, b, hash);
    ComparedIsListed(store', refs, remote, local, partners, b);
    if AllLinksKept(b) {
      KeptLinksEncode(b, p, store', hash);
    }
    ok, encoded, chunks := EncodeBackup(list, hash, b);
  }

  // ---------- reading everything back ----------

  lemma ContentHasSize(store: Store, refs: seq<ChunkRef>, e: Entry)
    requires Readable(store, refs, e) && HasContent(e)
    ensures |ContentOf(store, refs, e)| == e.size
  {
    var chunks := Data(store, refs);
    RangeFits(store, refs, e);
    ContentIsSlice(chunks, RangeOf(e));
    OffsetIsPos(chunks, Lengths(refs), e.startChunk);
    OffsetIsPos(chunks, Lengths(refs), e.endChunk);
  }

  /** One file retrieved: what came out, and whether its hash was right. */
  datatype Retrieved = Retrieved(bytes: Bytes, ok: bool)

  ghost predicate IsRetrieved(store: Store, refs: seq<ChunkRef>, e: Entry, fileHash: Bytes -> Hash, r: Retrieved)
    requires Readable(store, refs, e)
  {
    e.kind.File? ==> r.bytes == ContentOf(store, refs, e) && (r.ok <==> e.size == 0 || fileHash(r.bytes) == e.hash)
  }

  /** Retrieves every file of a snapshot. */
  method RetrieveAll(store: Store, refs: seq<ChunkRef>, entries: seq<Entry>, fileHash: Bytes -> Hash) returns (results: seq<Retrieved>)
    requires Stored(store, refs) && forall n :: 0 <= n < |entries| ==> Readable(store, refs, entries[n])
    ensures |results| == |entries|
    ensures forall n :: 0 <= n < |entries| ==> IsRetrieved(store, refs, entries[n], fileHash, results[n])
  {
    results := [];
    var cache := NoChunk;
    while |results| < |entries|
      invariant |results| <= |entries| && CacheAgrees(store, cache)
      invariant forall n :: 0 <= n < |results| ==> IsRetrieved(store, refs, entries[n], fileHash, results[n])
    {
      var e, bytes, ok := entries[|results|], [], true;
      if e.kind.File? {
        bytes, ok, cache := Retrieve(store, refs, e, cache, fileHash);
      }
      results := results + [Retrieved(bytes, ok)];
    }
  }

  /** What is known of a finished backup. */
  ghost predicate IsFinished(store: Store, refs: seq<ChunkRef>, remote: seq<Entry>, local: seq<Entry>, partners: seq<Option<Entry>>,
                             b: Backup, p: Params, hash: Bytes -> Hash, fileHash: Bytes -> Hash)
  {
    && Compared(store, refs, remote, local, partners, b) && Packed(b, p, store, hash) && AllLinksKept(b)
    && HashesRead(b.modified, b.files, fileHash) && SnapshotHashed(store, refs, remote, fileHash)
  }

  /** A file whose content was packed, not kept from the previous snapshot and not taken from another link. */
  predicate IsPackedFile(e: Entry, partner: Option<Entry>) {
    e.kind.File? && e.size > 0 && !IsLinked(e) && !IsUnchanged(e, partner)
  }

  /** A sent entry comes back under its own path, and if it is a file, with the right hash and the content it stood for. */
  ghost predicate ComesBack(store: Store, refs: seq<ChunkRef>, local: seq<Entry>, partners: seq<Option<Entry>>, b: Backup, k: nat,
                            decoded: seq<Entry>, results: seq<Retrieved>)
    requires |partners| == |local| == |b.entries| && Aligned(b.entries, b.modified) && SizesRead(b.modified, b.files)
    requires k < |local| && LocalListing(local)
  {
    IsSent(b.entries, b.modified, k) ==>
      var n := Slot(b.entries, b.modified, k);
      && n < |decoded| == |results| && decoded[n].path == local[k].path && decoded[n].kind == local[k].kind
      && WellFormedAt(local, k) && SameAttributes(decoded[n], local[SourceOf(local, k)])
      && (local[k].kind.File? ==> results[n].ok && StandsFor(store, refs, local, partners, b, k, results[n].bytes))
  }

  /** Everything that was encoded decodes to something readable. */
  lemma DecodesReadable(store: Store, refs: seq<ChunkRef>, remote: seq<Entry>, local: seq<Entry>, partners: seq<Option<Entry>>,
                        b: Backup, p: Params, hash: Bytes -> Hash, fileHash: Bytes -> Hash, encoded: seq<Entry>, chunks: seq<ChunkRef>, n: nat)
    requires IsFinished(store, refs, remote, local, partners, b, p, hash, fileHash) && IsEncodingOf(b, hash, encoded, chunks) && n < |encoded|
    ensures Readable(store, chunks, DecodeAt(encoded, n))
  {
    ComparedIsListed(store, refs, remote, local, partners, b);
    if b.entries != [] {
      ListingSucceeds(b, p, store, hash);
      AllSent(b, p, store, hash);
      SentWellFormed(b, p, store, hash);
      EncodeKeeps(FullList(b, hash), SentList(b, hash).sent, |SentList(b, hash).sent|);
      WholeRoundTrip(store, refs, remote, local, partners, b, p, hash, fileHash, Origin(b.entries, b.modified, n, |b.entries|));
    }
  }

  lemma EntryComesBack(store: Store, refs: seq<ChunkRef>, remote: seq<Entry>, local: seq<Entry>, partners: seq<Option<Entry>>,
                       b: Backup, p: Params, hash: Bytes -> Hash, fileHash: Bytes -> Hash, encoded: seq<Entry>, chunks: seq<ChunkRef>,
                       decoded: seq<Entry>, results: seq<Retrieved>, k: nat)
    requires IsFinished(store, refs, remote, local, partners, b, p, hash, fileHash) && IsEncodingOf(b, hash, encoded, chunks)
    requires k < |local| && |encoded| == |decoded| == |results|
    requires forall n :: 0 <= n < |decoded| ==> decoded[n] == DecodeAt(encoded, n) && Readable(store, chunks, decoded[n])
    requires forall n :: 0 <= n < |decoded| ==> IsRetrieved(store, chunks, decoded[n], fileHash, results[n])
    ensures ComesBack(store, refs, local, partners, b, k, decoded, results)
  {
    if IsSent(b.entries, b.modified, k) {
      WholeRoundTrip(store, refs, remote, local, partners, b, p, hash, fileHash, k);
      var n := Slot(b.entries, b.modified, k);
      var d := decoded[n];
      assert IsRetrieved(store, chunks, d, fileHash, results[n]);
      if HasContent(d) {
        ContentHasSize(store, chunks, d);
      }
    }
  }

  /** Reads a finished backup back: the stream is accepted and every sent entry comes back. */
  method ReadBack(encoded: seq<Entry>, chunks: seq<ChunkRef>, store: Store, fileHash: Bytes -> Hash, ghost refs: seq<ChunkRef>,
                  ghost remote: seq<Entry>, ghost local: seq<Entry>, ghost partners: seq<Option<Entry>>, ghost b: Backup, ghost p: Params,
                  ghost hash: Bytes -> Hash)
    returns (decoded: seq<Entry>, results: seq<Retrieved>)
    requires IsFinished(store, refs, remote, local, partners, b, p, hash, fileHash) && IsEncodingOf(b, hash, encoded, chunks)
    ensures |decoded| == |results| == Slot(b.entries, b.modified, |b.entries|)
    ensures forall k :: 0 <= k < |local| ==> ComesBack(store, refs, local, partners, b, k, decoded, results)
  {
    StreamLength(store, refs, remote, local, partners, b, p, hash, encoded, chunks);
    forall n | 0 <= n < |encoded| ensures Readable(store, chunks, DecodeAt(encoded, n)) {
      DecodesReadable(store, refs, remote, local, partners, b, p, hash, fileHash, encoded, chunks, n);
    }
    StreamStored(store, refs, remote, local, partners, b, p, hash, fileHash, encoded, chunks);
    var ok;
    decoded, ok := Decode(encoded, Lengths(chunks));
    results := RetrieveAll(store, chunks, decoded, fileHash);
    forall k | 0 <= k < |local| ensures ComesBack(store, refs, local, partners, b, k, decoded, results) {
      EntryComesBack(store, refs, remote, local, partners, b, p, hash, fileHash, encoded, chunks, decoded, results, k);
    }
  }

  lemma StreamLength(store: Store, refs: seq<ChunkRef>, remote: seq<Entry>, local: seq<Entry>, partners: seq<Option<Entry>>,
                     b: Backup, p: Params, hash: Bytes -> Hash, encoded: seq<Entry>, chunks: seq<ChunkRef>)
    requires Compared(store, refs, remote, local, partners, b) && Packed(b, p, store, hash) && AllLinksKept(b)
    requires IsEncodingOf(b, hash, encoded, chunks)
    ensures |encoded| == Slot(b.entries, b.modified, |b.entries|)
  {
    ComparedIsListed(store, refs, remote, local, partners, b);
    if b.entries != [] {
      ListingSucceeds(b, p, store, hash);
      AllSent(b, p, store, hash);
      SentWellFormed(b, p, store, hash);
      EncodeKeeps(FullList(b, hash), SentList(b, hash).sent, |SentList(b, hash).sent|);
    }
  }

  lemma StreamStored(store: Store, refs: seq<ChunkRef>, remote: seq<Entry>, local: seq<Entry>, partners: seq<Option<Entry>>,
                     b: Backup, p: Params, hash: Bytes -> Hash, fileHash: Bytes -> Hash, encoded: seq<Entry>, chunks: seq<ChunkRef>)
    requires IsFinished(store, refs, remote, local, partners, b, p, hash, fileHash) && IsEncodingOf(b, hash, encoded, chunks)
    ensures Stored(store, chunks)
  {
    PreservedStored(store, refs, b.preserved);
    UploadedData(store, hash, b.chunks);
    DataSplits(store, b.preserved, RefsOf(hash, b.chunks));
    CompactedStored(store, FullList(b, hash), SentList(b, hash).sent, |SentList(b, hash).sent|);
  }

  lemma SnapshotHashedGrows(store: Store, store': Store, refs: seq<ChunkRef>, remote: seq<Entry>, fileHash: Bytes -> Hash)
    requires GoodSnapshot(store, refs, remote) && SnapshotHashed(store, refs, remote, fileHash)
    requires forall h :: h in store ==> h in store' && store'[h] == store[h]
    ensures GoodSnapshot(store', refs, remote) && SnapshotHashed(store', refs, remote, fileHash)
  {
    GoodSnapshotGrows(store, store', refs, remote);
    assert Data(store', refs) == Data(store, refs);
  }

  /** A packed file that was sent stood for what opening its path gave. */
  lemma PackedStandsFor(store: Store, refs: seq<ChunkRef>, local: seq<Entry>, remote: seq<Entry>, partners: seq<Option<Entry>>, b: Backup,
                        p: Params, open: string -> Contents, fileHash: Bytes -> Hash, k: nat, content: Bytes)
    requires Compared(store, refs, remote, local, partners, b) && ValidParams(p) && PacksFiles(b, p, open, fileHash) && k < |local|
    requires IsPackedFile(local[k], partners[k]) && StandsFor(store, refs, local, partners, b, k, content)
    ensures content == BytesOf(open(local[k].path))
  {
    assert Matches(b.entries, b.modified, k) && PlannedAt(refs, b.preserved, remote, local, partners, b.entries, k);
  }

  /** A packed file that was sent comes back with exactly the bytes that opening its path gave, and with the right hash. */
  ghost predicate ComesBackAsOpened(local: seq<Entry>, partners: seq<Option<Entry>>, b: Backup, open: string -> Contents, k: nat,
                                    results: seq<Retrieved>)
    requires |partners| == |local| == |b.entries| && Aligned(b.entries, b.modified) && k < |local|
  {
    IsSent(b.entries, b.modified, k) && IsPackedFile(local[k], partners[k]) ==>
      && Slot(b.entries, b.modified, k) < |results|
      && results[Slot(b.entries, b.modified, k)] == Retrieved(BytesOf(open(local[k].path)), true)
  }

  lemma BackAsOpened(store: Store, refs: seq<ChunkRef>, remote: seq<Entry>, local: seq<Entry>, partners: seq<Option<Entry>>, b: Backup,
                     p: Params, open: string -> Contents, fileHash: Bytes -> Hash, k: nat, decoded: seq<Entry>, results: seq<Retrieved>)
    requires Compared(store, refs, remote, local, partners, b) && ValidParams(p) && PacksFiles(b, p, open, fileHash) && k < |local|
    requires ComesBack(store, refs, local, partners, b, k, decoded, results)
    ensures ComesBackAsOpened(local, partners, b, open, k, results)
  {
    if IsSent(b.entries, b.modified, k) && IsPackedFile(local[k], partners[k]) {
      PackedStandsFor(store, refs, local, remote, partners, b, p, open, fileHash, k, results[Slot(b.entries, b.modified, k)].bytes);
    }
  }

  // ---------- what comes back, by the fields of the listings ----------

  /** A file that has to be packed again and turns out to be empty or unreadable. */
  ghost predicate IsLost(remote: seq<Entry>, e: Entry, open: string -> Contents) {
    e.kind.File? && e.size > 0 && !HasTwin(remote, e) && BytesOf(open(e.path)) == []
  }

  /** The content a file should come back with: that of its twin in the previous snapshot, or what opening it gave. */
  ghost predicate IsExpected(store: Store, refs: seq<ChunkRef>, remote: seq<Entry>, e: Entry, open: string -> Contents, content: Bytes) {
    if !e.kind.File? || e.size == 0 then content == []
    else if HasTwin(remote, e) then
      exists r :: r in remote && IsTwin(r, e) && Readable(store, refs, r) && content == ContentOf(store, refs, r)
    else content == BytesOf(open(e.path))
  }

  /** An entry is left out if it is lost; otherwise some decoded entry has its path and kind, the attributes of its source
      and, if it is a file, the content expected of its source, with a right hash. */
  ghost predicate ReturnsAt(store: Store, refs: seq<ChunkRef>, remote: seq<Entry>, local: seq<Entry>, open: string -> Contents, k: nat,
                            decoded: seq<Entry>, results: seq<Retrieved>)
    requires k < |local|
  {
    && WellFormedAt(local, k) && |decoded| == |results|
    && if IsLost(remote, local[k], open) then forall n :: 0 <= n < |decoded| ==> decoded[n].path != local[k].path
       else exists n :: 0 <= n < |decoded| && IsReturned(store, refs, remote, local, open, k, decoded[n], results[n])
  }

  ghost predicate IsReturned(store: Store, refs: seq<ChunkRef>, remote: seq<Entry>, local: seq<Entry>, open: string -> Contents, k: nat,
                             d: Entry, r: Retrieved)
    requires k < |local| && WellFormedAt(local, k)
  {
    var source := local[SourceOf(local, k)];
    && d.path == local[k].path && d.kind == local[k].kind && SameAttributes(d, source)
    && (d.kind.File? ==> r.ok && IsExpected(store, refs, remote, source, open, r.bytes))
  }

  lemma SentUnlessLost(store: Store, refs: seq<ChunkRef>, remote: seq<Entry>, local: seq<Entry>, partners: seq<Option<Entry>>, b: Backup,
                       p: Params, open: string -> Contents, fileHash: Bytes -> Hash, k: nat)
    requires Compared(store, refs, remote, local, partners, b) && ValidParams(p) && PacksFiles(b, p, open, fileHash) && k < |local|
    requires SortedEntries(remote)
    ensures IsSent(b.entries, b.modified, k) <==> !IsLost(remote, local[k], open)
  {
    PlannedSize(refs, b.preserved, remote, local, partners, b.entries, k);
    assert Matches(b.entries, b.modified, k);
  }

  /** What an entry stood for is what is expected of its source. */
  lemma StandsForExpected(store: Store, refs: seq<ChunkRef>, remote: seq<Entry>, local: seq<Entry>, partners: seq<Option<Entry>>, b: Backup,
                          p: Params, open: string -> Contents, fileHash: Bytes -> Hash, k: nat, content: Bytes)
    requires Compared(store, refs, remote, local, partners, b) && ValidParams(p) && PacksFiles(b, p, open, fileHash) && k < |local|
    requires SortedEntries(remote) && WellFormedAt(local, k) && StandsFor(store, refs, local, partners, b, k, content)
    ensures IsExpected(store, refs, remote, local[SourceOf(local, k)], open, content)
  {
    if IsLinked(local[k]) {
      RootsAreFirst(local, k, HardLinkId(local[k]).value);
    }
    var r := SourceOf(local, k);
    SourceExpected(store, refs, remote, local, partners, b, p, open, fileHash, r, content);
  }

  lemma SourceExpected(store: Store, refs: seq<ChunkRef>, remote: seq<Entry>, local: seq<Entry>, partners: seq<Option<Entry>>, b: Backup,
                       p: Params, open: string -> Contents, fileHash: Bytes -> Hash, r: nat, content: Bytes)
    requires Compared(store, refs, remote, local, partners, b) && ValidParams(p) && PacksFiles(b, p, open, fileHash) && r < |local|
    requires SortedEntries(remote) && !IsLinked(local[r]) && StandsFor(store, refs, local, partners, b, r, content)
    ensures IsExpected(store, refs, remote, local[r], open, content)
  {
    assert PlannedAt(refs, b.preserved, remote, local, partners, b.entries, r);
    if local[r].kind.File? && local[r].size > 0 {
      UnchangedIsTwin(remote, local[r], partners[r]);
      if !IsUnchanged(local[r], partners[r]) {
        PackedStandsFor(store, refs, local, remote, partners, b, p, open, fileHash, r, content);
      }
    }
  }

  /** Every decoded entry comes from one of the listing. */
  lemma DecodedOrigin(store: Store, refs: seq<ChunkRef>, local: seq<Entry>, partners: seq<Option<Entry>>, b: Backup,
                      decoded: seq<Entry>, results: seq<Retrieved>, n: nat) returns (k: nat)
    requires |partners| == |local| == |b.entries| && Aligned(b.entries, b.modified) && SizesRead(b.modified, b.files) && LocalListing(local)
    requires |decoded| == |results| == Slot(b.entries, b.modified, |b.entries|) && n < |decoded|
    requires forall k :: 0 <= k < |local| ==> ComesBack(store, refs, local, partners, b, k, decoded, results)
    ensures k < |local| && IsSent(b.entries, b.modified, k) && decoded[n].path == local[k].path
  {
    k := Origin(b.entries, b.modified, n, |b.entries|);
    assert ComesBack(store, refs, local, partners, b, k, decoded, results);
  }

  lemma EntryReturns(store: Store, refs: seq<ChunkRef>, remote: seq<Entry>, local: seq<Entry>, partners: seq<Option<Entry>>, b: Backup,
                     p: Params, open: string -> Contents, fileHash: Bytes -> Hash, k: nat, decoded: seq<Entry>, results: seq<Retrieved>)
    requires Compared(store, refs, remote, local, partners, b) && ValidParams(p) && PacksFiles(b, p, open, fileHash) && k < |local|
    requires SortedEntries(remote) && SortedEntries(local)
    requires |decoded| == |results| == Slot(b.entries, b.modified, |b.entries|)
    requires forall k :: 0 <= k < |local| ==> ComesBack(store, refs, local, partners, b, k, decoded, results)
    ensures ReturnsAt(store, refs, remote, local, open, k, decoded, results)
  {
    assert ListedAt(local, k) && ComesBack(store, refs, local, partners, b, k, decoded, results);
    SentUnlessLost(store, refs, remote, local, partners, b, p, open, fileHash, k);
    if IsLost(remote, local[k], open) {
      forall n | 0 <= n < |decoded| ensures decoded[n].path != local[k].path {
        var o := DecodedOrigin(store, refs, local, partners, b, decoded, results, n);
        if decoded[n].path == local[k].path {
          SamePathIsOne(local, o, k);
        }
      }
    } else {
      var n := Slot(b.entries, b.modified, k);
      if local[k].kind.File? {
        StandsForExpected(store, refs, remote, local, partners, b, p, open, fileHash, k, results[n].bytes);
      }
      assert IsReturned(store, refs, remote, local, open, k, decoded[n], results[n]);
    }
  }

  /**
   A backup and the retrieval of all its files. Without faulty files and with all links kept it succeeds; then every entry
   that was sent comes back, every packed file with exactly the bytes that opening its path gave, and every hash is right.
   A file is packed unless the previous snapshot has an entry of its path and size with a time at most a second away.
   */
  method BackupAndRetrieve(local: seq<Entry>, remote: seq<Entry>, refs: seq<ChunkRef>, open: string -> Contents, p: Params,
                           hash: Bytes -> Hash, fileHash: Bytes -> Hash, stalls: nat, store: Store)
    returns (ok: bool, decoded: seq<Entry>, results: seq<Retrieved>, store': Store, partners: seq<Option<Entry>>, b: Backup)
    requires CanBackup(store, refs, remote, local) && ValidParams(p) && SnapshotHashed(store, refs, remote, fileHash)
    requires IsAddressed(store, hash) && RestoreInPlace.Injective(hash)
    ensures Compared(store', refs, remote, local, partners, b)
    ensures NoneFaulty(b.modified, open) && AllLinksKept(b) ==> ok
    ensures ok ==> SizesRead(b.modified, b.files)
    ensures ok ==> forall k :: 0 <= k < |local| ==> ComesBack(store', refs, local, partners, b, k, decoded, results)
    ensures ok ==> forall k :: 0 <= k < |local| ==> ComesBackAsOpened(local, partners, b, open, k, results)
    ensures ok ==> forall k :: 0 <= k < |local| ==> ReturnsAt(store', refs, remote, local, open, k, decoded, results)
  {
    var encoded, chunks;
    decoded, results := [], [];
    ok, encoded, chunks, store', partners, b := RunBackup(local, remote, refs, open, p, hash, fileHash, stalls, store);
    if !ok || !AllLinksKept(b) {
      return false, decoded, results, store', partners, b;
    }
    SnapshotHashedGrows(store, store', refs, remote, fileHash);
    decoded, results := ReadBack(encoded, chunks, store', fileHash, refs, remote, local, partners, b, p, hash);
    forall k | 0 <= k < |local| ensures ComesBackAsOpened(local, partners, b, open, k, results) {
      BackAsOpened(store', refs, remote, local, partners, b, p, open, fileHash, k, decoded, results);
    }
    forall k | 0 <= k < |local| ensures ReturnsAt(store', refs, remote, local, open, k, decoded, results) {
      EntryReturns(store', refs, remote, local, partners, b, p, open, fileHash, k, decoded, results);
    }
  }
}
