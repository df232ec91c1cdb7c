/**
 Backup followed by retrieval gives every file back byte for byte.
 */
module BackupRoundTrip {
  import opened Wrappers
  import opened ByteStreams
  import opened Positions
  import opened Entries
  import opened EntryLists
  import opened SnapshotCodec
  import opened Splitting
  import opened RoundTrip

  /** A finished packing: the listed entries, the modified files with what was read from each, the chunks kept from the
      previous snapshot and the chunks cut from the packed stream. */
  datatype Backup = Backup(
    entries: seq<Entry>,
    modified: seq<Modified>,
    files: seq<Bytes>,
    preserved: seq<ChunkRef>,
    chunks: seq<Bytes>)

  function RefsOf(hash: Bytes -> Hash, chunks: seq<Bytes>): (refs: seq<ChunkRef>)
    ensures |refs| == |chunks|
    ensures forall i :: 0 <= i < |chunks| ==> refs[i] == ChunkRef(hash(chunks[i]), |chunks[i]|)
  {
    seq(|chunks|, i requires 0 <= i < |chunks| => ChunkRef(hash(chunks[i]), |chunks[i]|))
  }

  /** A file that could not be opened contributes nothing; every other size is what was read. */
  predicate SizesRead(modified: seq<Modified>, files: seq<Bytes>) {
    |modified| == |files| && forall j :: 0 <= j < |files| ==> |files[j]| == if modified[j].size > 0 then modified[j].size else 0
  }

  /** The storage holds every uploaded chunk under its hash. */
  predicate Uploaded(store: Store, hash: Bytes -> Hash, chunks: seq<Bytes>) {
    forall i :: 0 <= i < |chunks| ==> hash(chunks[i]) in store && store[hash(chunks[i])] == chunks[i]
  }

  /** Entries as listed and compared with the previous snapshot. */
  ghost predicate Listed(b: Backup, store: Store) {
    && Aligned(b.entries, b.modified)
    && Stored(store, b.preserved) && CompleteFit(Lengths(b.preserved), b.entries)
    && (forall k :: 0 <= k < |b.entries| ==> WellFormedAt(b.entries, k) && OffsetsInRange(b.entries[k]))
    && (forall k :: 0 <= k < |b.entries| && b.entries[k].size < 0 ==> b.entries[k].kind.File? && !IsHardLinkChild(b.entries[k]))
  }

  ghost predicate Packed(b: Backup, p: Params, store: Store, hash: Bytes -> Hash) {
    && ValidParams(p) && SizesRead(b.modified, b.files)
    && b.chunks == Split(p, Concat(b.files)) && Uploaded(store, hash, b.chunks)
  }

  // ---------- contents of the modified files ----------

  lemma {:induction false} StartIsOffset(modified: seq<Modified>, files: seq<Bytes>, j: nat)
    requires SizesRead(modified, files) && j <= |files|
    ensures Start(modified, j) == Offset(files, j)
  {
    if j > 0 {
      StartIsOffset(modified, files, j - 1);
      OffsetNext(files, j - 1);
    }
  }

  lemma DataSplits(store: Store, left: seq<ChunkRef>, right: seq<ChunkRef>)
    requires Stored(store, left) && Stored(store, right)
    ensures Stored(store, left + right)
    ensures Data(store, left + right) == Data(store, left) + Data(store, right)
    ensures Lengths(left + right) == Lengths(left) + Lengths(right)
  {
  }

  lemma UploadedData(store: Store, hash: Bytes -> Hash, chunks: seq<Bytes>)
    requires Uploaded(store, hash, chunks)
    ensures Stored(store, RefsOf(hash, chunks)) && Data(store, RefsOf(hash, chunks)) == chunks
  {
  }

  predicate HaveLengths(chunks: seq<Bytes>, lengths: seq<nat>) {
    |chunks| == |lengths| && forall i :: 0 <= i < |chunks| ==> |chunks[i]| == lengths[i]
  }

  lemma OffsetPast(left: seq<Bytes>, chunks: seq<Bytes>, lengths: seq<nat>, c: nat)
    requires HaveLengths(chunks, lengths) && c <= |chunks|
    ensures Offset(left + chunks, |left| + c) == |Concat(left)| + Pos(lengths, c)
  {
    assert (left + chunks)[..|left| + c] == left + chunks[..c];
    ConcatSplit(left, chunks[..c]);
    OffsetIsPos(chunks, lengths, c);
  }

  /** The content of a range in the uploaded part is a slice of the packed stream. */
  lemma UploadedContent(left: seq<Bytes>, chunks: seq<Bytes>, all: seq<Bytes>, r: Range, lengths: seq<nat>, i: nat, j: nat)
    requires HaveLengths(chunks, lengths) && all == left + chunks && InChunks(all, r)
    requires r.startChunk == |left| + i && r.endChunk == |left| + j && i <= |chunks| && j <= |chunks|
    ensures
      var from, to := Pos(lengths, i) + r.startOffset, Pos(lengths, j) + r.endOffset;
      && from <= to <= |Concat(chunks)| && Content(all, r) == Concat(chunks)[from..to]
  {
    var from, to := Pos(lengths, i) + r.startOffset, Pos(lengths, j) + r.endOffset;
    OffsetPast(left, chunks, lengths, i);
    OffsetPast(left, chunks, lengths, j);
    RightBetween(left, chunks, all, r, from, to);
  }

  lemma RightBetween(left: seq<Bytes>, chunks: seq<Bytes>, all: seq<Bytes>, r: Range, from: nat, to: nat)
    requires all == left + chunks && InChunks(all, r)
    requires First(all, r) == |Concat(left)| + from && Entries.Last(all, r) == |Concat(left)| + to
    ensures from <= to <= |Concat(chunks)| && Content(all, r) == Concat(chunks)[from..to]
  {
    ConcatSplit(left, chunks);
    ContentBetween(all, r, |Concat(left)| + from, |Concat(left)| + to);
    SliceOfRight(Concat(left), Concat(chunks), from, to);
  }

  lemma ContentBetween(chunks: seq<Bytes>, r: Range, from: nat, to: nat)
    requires InChunks(chunks, r) && First(chunks, r) == from && Entries.Last(chunks, r) == to
    ensures from <= to <= |Concat(chunks)| && Content(chunks, r) == Concat(chunks)[from..to]
  {
    ContentIsSlice(chunks, r);
  }

  lemma SliceOfRight(left: Bytes, right: Bytes, a: nat, b: nat)
    requires a <= b <= |right|
    ensures (left + right)[|left| + a..|left| + b] == right[a..b]
  {
  }

  /** A modified file lies in the packed stream, at the place computed from the sizes. */
  lemma FileInStream(b: Backup, p: Params, store: Store, hash: Bytes -> Hash, j: nat)
    requires Packed(b, p, store, hash) && j < |b.modified| && b.modified[j].size > 0
    ensures
      var from, to := Start(b.modified, j), Start(b.modified, j) + b.modified[j].size;
      var u := RefsOf(hash, b.chunks);
      && Stored(store, u) && to <= Total(Lengths(u)) && to <= |Concat(Data(store, u))|
      && Concat(Data(store, u))[from..to] == b.files[j]
  {
    UploadedData(store, hash, b.chunks);
    SplitConcat(p, Concat(b.files));
    StartIsOffset(b.modified, b.files, j);
    OffsetNext(b.files, j);
    OffsetIsPos(b.chunks, Lengths(RefsOf(hash, b.chunks)), |b.chunks|);
    assert b.chunks[..|b.chunks|] == b.chunks;
  }

  lemma PlacedContent(b: Backup, p: Params, store: Store, hash: Bytes -> Hash, e: Entry, j: nat)
    requires Packed(b, p, store, hash) && Stored(store, b.preserved) && j < |b.modified| && b.modified[j].size > 0 && e.kind.File?
    ensures
      var u := RefsOf(hash, b.chunks);
      && Start(b.modified, j) + b.modified[j].size <= Total(Lengths(u))
      && var d := Placed(|b.preserved|, Lengths(u), e, b.modified[j], Start(b.modified, j));
      && Readable(store, b.preserved + u, d)
      && ContentOf(store, b.preserved + u, d) == b.files[j]
  {
    FileInStream(b, p, store, hash, j);
    PlacedContentIn(store, b.preserved, RefsOf(hash, b.chunks), e, b.modified[j], Start(b.modified, j));
  }

  lemma PlacedContentIn(store: Store, preserved: seq<ChunkRef>, u: seq<ChunkRef>, e: Entry, m: Modified, from: nat)
    requires Stored(store, preserved) && Stored(store, u)
    requires m.size > 0 && e.kind.File? && from + m.size <= Total(Lengths(u))
    ensures
      var d := Placed(|preserved|, Lengths(u), e, m, from);
      && Readable(store, preserved + u, d) && from + m.size <= |Concat(Data(store, u))|
      && ContentOf(store, preserved + u, d) == Concat(Data(store, u))[from..from + m.size]
  {
    PlacedReadable(store, preserved, u, e, m, from);
    ContentFromTo(store, preserved, u, Placed(|preserved|, Lengths(u), e, m, from), ChunkAt(Lengths(u), from),
                  ChunkAt(Lengths(u), from + m.size - 1), from, from + m.size);
  }

  /** An entry that runs from one position of the uploaded stream to another. */
  ghost predicate RunsFromTo(d: Entry, base: nat, lengths: seq<nat>, i: nat, j: nat, from: nat, to: nat) {
    && i < |lengths| && j < |lengths| && d.startChunk == base + i && d.endChunk == base + j
    && Pos(lengths, i) + d.startOffset == from && Pos(lengths, j) + d.endOffset == to
  }

  lemma PlacedReadable(store: Store, preserved: seq<ChunkRef>, u: seq<ChunkRef>, e: Entry, m: Modified, from: nat)
    requires Stored(store, preserved) && Stored(store, u)
    requires m.size > 0 && e.kind.File? && from + m.size <= Total(Lengths(u))
    ensures
      var d := Placed(|preserved|, Lengths(u), e, m, from);
      && Readable(store, preserved + u, d) && HasContent(d)
      && RunsFromTo(d, |preserved|, Lengths(u), ChunkAt(Lengths(u), from), ChunkAt(Lengths(u), from + m.size - 1), from, from + m.size)
  {
    DataSplits(store, preserved, u);
    PlacedFits(Lengths(preserved), Lengths(u), e, m, from);
  }

  lemma ContentFromTo(store: Store, preserved: seq<ChunkRef>, u: seq<ChunkRef>, d: Entry, i: nat, j: nat, from: nat, to: nat)
    requires Stored(store, preserved) && Stored(store, u) && Readable(store, preserved + u, d) && HasContent(d)
    requires RunsFromTo(d, |preserved|, Lengths(u), i, j, from, to)
    ensures from <= to <= |Concat(Data(store, u))| && ContentOf(store, preserved + u, d) == Concat(Data(store, u))[from..to]
  {
    DataSplits(store, preserved, u);
    RangeFits(store, preserved + u, d);
    UploadedContent(Data(store, preserved), Data(store, u), Data(store, preserved + u), RangeOf(d), Lengths(u), i, j);
  }

  /** The content of a range within the preserved chunks does not depend on the uploaded ones. */
  lemma PreservedContent(store: Store, preserved: seq<ChunkRef>, more: seq<ChunkRef>, e: Entry)
    requires Readable(store, preserved, e) && Stored(store, more)
    ensures Readable(store, preserved + more, e) && ContentOf(store, preserved + more, e) == ContentOf(store, preserved, e)
  {
    DataSplits(store, preserved, more);
    if HasContent(e) {
      PosOfPrefix(Lengths(preserved), Lengths(more), e.startChunk);
      PosOfPrefix(Lengths(preserved), Lengths(more), e.endChunk);
      RangeFits(store, preserved, e);
      RangeFits(store, preserved + more, e);
      var a, b := Data(store, preserved), Data(store, preserved + more);
      assert b[e.startChunk..e.endChunk + 1] == a[e.startChunk..e.endChunk + 1];
      SameContent(a, b, RangeOf(e), RangeOf(e));
    }
  }

  // ---------- from the listing to what is sent ----------

  /** The entry that went out in the `n`th place. */
  function Origin(entries: seq<Entry>, modified: seq<Modified>, n: nat, upTo: nat): (k: nat)
    requires Aligned(entries, modified) && upTo <= |entries| && n < Slot(entries, modified, upTo)
    ensures k < upTo && IsSent(entries, modified, k) && Slot(entries, modified, k) == n
  {
    if IsSent(entries, modified, upTo - 1) && Slot(entries, modified, upTo - 1) == n then upTo - 1
    else Origin(entries, modified, n, upTo - 1)
  }

  /** Which entries are sent. */
  function Flags(entries: seq<Entry>, modified: seq<Modified>): (flags: seq<bool>)
    requires Aligned(entries, modified)
    ensures |flags| == |entries| && forall k :: 0 <= k < |entries| ==> flags[k] == IsSent(entries, modified, k)
  {
    seq(|entries|, k requires 0 <= k < |entries| => IsSent(entries, modified, k))
  }

  predicate Indexes(flags: seq<bool>, roots: seq<nat>) {
    forall i :: 0 <= i < |roots| ==> roots[i] < |flags|
  }

  /** How many of the first `i` first links are sent. */
  function Kept(flags: seq<bool>, roots: seq<nat>, i: nat): (n: nat)
    requires Indexes(flags, roots) && i <= |roots|
    ensures n <= i
  {
    if i == 0 then 0 else Kept(flags, roots, i - 1) + if flags[roots[i - 1]] then 1 else 0
  }

  lemma {:induction false} KeptOfPrefix(flags: seq<bool>, roots: seq<nat>, more: seq<nat>, i: nat)
    requires Indexes(flags, roots) && Indexes(flags, roots + more) && i <= |roots|
    ensures Kept(flags, roots + more, i) == Kept(flags, roots, i)
  {
    if i > 0 {
      KeptOfPrefix(flags, roots, more, i - 1);
    }
  }

  lemma {:induction false} KeptAll(flags: seq<bool>, roots: seq<nat>, i: nat)
    requires Indexes(flags, roots) && i <= |roots|
    ensures Kept(flags, roots, i) == i <==> forall r :: 0 <= r < i ==> flags[roots[r]]
  {
    if i > 0 {
      KeptAll(flags, roots, i - 1);
    }
  }

  /** What is sent keeps every entry's kind, links and place. */
  ghost predicate SentAs(entries: seq<Entry>, modified: seq<Modified>, sent: seq<Entry>, k: nat)
    requires Aligned(entries, modified) && k < |entries|
  {
    IsSent(entries, modified, k) ==>
      var n := Slot(entries, modified, k);
      && n < |sent| && sent[n].kind == entries[k].kind && sent[n].link == entries[k].link && IsFirstLink(sent[n]) == IsFirstLink(entries[k])
      && (entries[k].size >= 0 ==> sent[n] == entries[k])
      && (entries[k].size < 0 ==> HasContent(sent[n]))
  }

  ghost predicate AllSentAs(entries: seq<Entry>, modified: seq<Modified>, sent: seq<Entry>)
    requires Aligned(entries, modified)
  {
    && |sent| == Slot(entries, modified, |entries|)
    && forall k :: 0 <= k < |entries| ==> SentAs(entries, modified, sent, k)
  }

  /** First links `r` of the listing are, without the dropped ones, the first links `t` of what is sent. */
  ghost predicate RootsMap(flags: seq<bool>, slot: nat -> nat, r: seq<nat>, t: seq<nat>) {
    && Indexes(flags, r) && |t| == Kept(flags, r, |r|)
    && forall i :: 0 <= i < |r| ==> RootAt(flags, slot, r, t, i)
  }

  ghost predicate RootAt(flags: seq<bool>, slot: nat -> nat, r: seq<nat>, t: seq<nat>, i: nat)
    requires Indexes(flags, r) && i < |r|
  {
    flags[r[i]] ==> Kept(flags, r, i) < |t| && t[Kept(flags, r, i)] == slot(r[i])
  }

  lemma RootsMapNext(flags: seq<bool>, slot: nat -> nat, r: seq<nat>, t: seq<nat>, k: nat)
    requires RootsMap(flags, slot, r, t) && k < |flags|
    ensures RootsMap(flags, slot, r + [k], if flags[k] then t + [slot(k)] else t)
  {
    var r', t' := r + [k], if flags[k] then t + [slot(k)] else t;
    KeptOfPrefix(flags, r, [k], |r|);
    forall i | 0 <= i < |r'| ensures RootAt(flags, slot, r', t', i) {
      if i < |r| {
        KeptOfPrefix(flags, r, [k], i);
        assert RootAt(flags, slot, r, t, i);
      }
    }
  }

  /** The place of every entry among those sent. */
  ghost function Slots(entries: seq<Entry>, modified: seq<Modified>): (slot: nat -> nat)
    requires Aligned(entries, modified)
  {
    (k: nat) => if k <= |entries| then Slot(entries, modified, k) else 0
  }

  lemma {:induction false} RootsOfSent(entries: seq<Entry>, modified: seq<Modified>, sent: seq<Entry>, k: nat)
    requires Aligned(entries, modified) && k <= |entries| && AllSentAs(entries, modified, sent)
    ensures Slot(entries, modified, k) <= |sent|
    ensures RootsMap(Flags(entries, modified), Slots(entries, modified), Roots(entries, k), Roots(sent, Slot(entries, modified, k)))
  {
    SlotMonotone(entries, modified, k, |entries|);
    if k > 0 {
      RootsOfSent(entries, modified, sent, k - 1);
      SentRootsStep(entries, modified, sent, k - 1);
      RootsOfNext(entries, modified, k - 1, Roots(sent, Slot(entries, modified, k - 1)), Roots(sent, Slot(entries, modified, k)));
    }
  }

  lemma RootsOfNext(entries: seq<Entry>, modified: seq<Modified>, k: nat, t: seq<nat>, t': seq<nat>)
    requires Aligned(entries, modified) && k < |entries|
    requires RootsMap(Flags(entries, modified), Slots(entries, modified), Roots(entries, k), t)
    requires t' == t + if IsFirstLink(entries[k]) && IsSent(entries, modified, k) then [Slot(entries, modified, k)] else []
    ensures RootsMap(Flags(entries, modified), Slots(entries, modified), Roots(entries, k + 1), t')
  {
    assert t + [] == t;
    if IsFirstLink(entries[k]) {
      RootsMapNext(Flags(entries, modified), Slots(entries, modified), Roots(entries, k), t, k);
    }
  }

  lemma SentRootsStep(entries: seq<Entry>, modified: seq<Modified>, sent: seq<Entry>, k: nat)
    requires Aligned(entries, modified) && k < |entries| && AllSentAs(entries, modified, sent)
    ensures Slot(entries, modified, k) <= Slot(entries, modified, k + 1) <= |sent|
    ensures Roots(sent, Slot(entries, modified, k + 1)) ==
            Roots(sent, Slot(entries, modified, k)) +
            if IsFirstLink(entries[k]) && IsSent(entries, modified, k) then [Slot(entries, modified, k)] else []
  {
    SlotMonotone(entries, modified, k + 1, |entries|);
    assert SentAs(entries, modified, sent, k);
  }

  lemma {:induction false} RootsIncrease(entries: seq<Entry>, k: nat, i: nat, j: nat)
    requires k <= |entries| && i < j < |Roots(entries, k)|
    ensures Roots(entries, k)[i] < Roots(entries, k)[j]
  {
    if !(IsFirstLink(entries[k - 1]) && j == |Roots(entries, k)| - 1) {
      RootsIncrease(entries, k - 1, i, j);
    }
  }

  /** Every first link up to the one a further link names is sent. */
  predicate LinksKept(entries: seq<Entry>, modified: seq<Modified>, k: nat)
    requires Aligned(entries, modified) && k < |entries|
  {
    IsLinked(entries[k]) && HardLinkId(entries[k]).Some? ==>
      forall i :: 0 <= i <= HardLinkId(entries[k]).value && i < |Roots(entries, k)| ==> IsSent(entries, modified, Roots(entries, k)[i])
  }

  /** A further link still names its own first link after empty and unreadable files are left out exactly when none of
      the first links up to it is left out: ids count first links, and are not renumbered. */
  lemma LinkSurvives(entries: seq<Entry>, modified: seq<Modified>, sent: seq<Entry>, k: nat, id: nat)
    requires Aligned(entries, modified) && k < |entries| && AllSentAs(entries, modified, sent)
    requires IsLinked(entries[k]) && HardLinkId(entries[k]) == Some(id) && id < |Roots(entries, k)|
    ensures
      var root := Roots(entries, k)[id];
      var n := Slot(entries, modified, k);
      && n <= |sent|
      && (LinksKept(entries, modified, k) <==>
            IsSent(entries, modified, root) && id < |Roots(sent, n)| && Roots(sent, n)[id] == Slot(entries, modified, root))
  {
    RootsOfSent(entries, modified, sent, k);
    var r, n := Roots(entries, k), Slot(entries, modified, k);
    var t := Roots(sent, n);
    var flags := Flags(entries, modified);
    KeptAll(flags, r, id);
    assert RootAt(flags, Slots(entries, modified), r, t, id);
    var kept := Kept(flags, r, id);
    if IsSent(entries, modified, r[id]) && id < |t| && t[id] == Slot(entries, modified, r[id]) && kept < id {
      RootsIncrease(sent, n, kept, id);
    }
  }

  // ---------- the whole way ----------

  function FullList(b: Backup, hash: Bytes -> Hash): (full: seq<ChunkRef>) {
    b.preserved + RefsOf(hash, b.chunks)
  }

  function SentList(b: Backup, hash: Bytes -> Hash): (l: Listing) {
    Annotate(Lengths(b.preserved), Lengths(RefsOf(hash, b.chunks)), b.entries, b.modified, 0, 0, 0)
  }

  /** The content an entry stood for when it was backed up. */
  ghost function Original(b: Backup, store: Store, k: nat): (s: Bytes)
    requires Listed(b, store) && SizesRead(b.modified, b.files) && k < |b.entries|
  {
    assert Matches(b.entries, b.modified, k) && WellFormedAt(b.entries, k);
    if b.entries[k].size < 0 then b.files[Rank(b.entries, k)]
    else if IsLinked(b.entries[k]) then Original(b, store, Roots(b.entries, k)[HardLinkId(b.entries[k]).value])
    else ContentOf(store, b.preserved, b.entries[k])
  }

  /** The file hash recorded for an entry. */
  ghost function OriginalHash(b: Backup, k: nat): (h: Hash)
    requires Aligned(b.entries, b.modified) && k < |b.entries| && forall k :: 0 <= k < |b.entries| ==> WellFormedAt(b.entries, k)
  {
    assert Matches(b.entries, b.modified, k) && WellFormedAt(b.entries, k);
    if b.entries[k].size < 0 then b.modified[Rank(b.entries, k)].hash
    else if IsLinked(b.entries[k]) then OriginalHash(b, Roots(b.entries, k)[HardLinkId(b.entries[k]).value])
    else b.entries[k].hash
  }

  /** Packed chunks are never empty, so what the entry list reads out is the sent list. */
  lemma PackedPositive(b: Backup, p: Params, store: Store, hash: Bytes -> Hash)
    requires Packed(b, p, store, hash)
    ensures Positive(Lengths(RefsOf(hash, b.chunks)))
  {
    forall i | 0 <= i < |b.chunks| ensures Lengths(RefsOf(hash, b.chunks))[i] > 0 {
      SplitLengths(p, Concat(b.files), i);
    }
  }

  lemma PackedFits(b: Backup, p: Params, store: Store, hash: Bytes -> Hash)
    requires Packed(b, p, store, hash)
    ensures Start(b.modified, |b.modified|) == Total(Lengths(RefsOf(hash, b.chunks)))
  {
    SplitConcat(p, Concat(b.files));
    StartIsOffset(b.modified, b.files, |b.files|);
    OffsetIsPos(b.chunks, Lengths(RefsOf(hash, b.chunks)), |b.chunks|);
    assert b.chunks[..|b.chunks|] == b.chunks && b.files[..|b.files|] == b.files;
  }

  lemma CompleteFitMore(store: Store, preserved: seq<ChunkRef>, more: seq<ChunkRef>, entries: seq<Entry>)
    requires Stored(store, preserved) && Stored(store, more) && CompleteFit(Lengths(preserved), entries)
    requires forall k :: 0 <= k < |entries| ==> OffsetsInRange(entries[k])
    ensures CompleteFit(Lengths(preserved + more), entries)
  {
    forall k | 0 <= k < |entries| && entries[k].size >= 0 ensures Fits(Lengths(preserved + more), entries[k]) {
      PreservedContent(store, preserved, more, entries[k]);
    }
  }

  /** Packing covers all files, so the listing succeeds. */
  lemma ListingSucceeds(b: Backup, p: Params, store: Store, hash: Bytes -> Hash)
    requires Listed(b, store) && Packed(b, p, store, hash) && b.entries != []
    ensures CompleteFit(Lengths(b.preserved) + Lengths(RefsOf(hash, b.chunks)), b.entries)
    ensures SentList(b, hash).ok && |SentList(b, hash).sent| == Slot(b.entries, b.modified, |b.entries|)
  {
    var u := RefsOf(hash, b.chunks);
    UploadedData(store, hash, b.chunks);
    DataSplits(store, b.preserved, u);
    CompleteFitMore(store, b.preserved, u, b.entries);
    PackedFits(b, p, store, hash);
    BackAnnotation(Lengths(b.preserved), Lengths(u), b.entries, b.modified, 0);
  }

  /** Time, mode, owner and attributes. */
  predicate SameAttributes(d: Entry, e: Entry) {
    d.time == e.time && d.meta == e.meta
  }

  /** The entry whose content and attributes an entry comes back with: its first link, if it is a further one. */
  function SourceOf(entries: seq<Entry>, k: nat): (r: nat)
    requires k < |entries| && WellFormedAt(entries, k)
    ensures r < |entries|
  {
    if IsLinked(entries[k]) then Roots(entries, k)[HardLinkId(entries[k]).value] else k
  }

  /** What goes out for one entry. */
  lemma SentEntry(b: Backup, p: Params, store: Store, hash: Bytes -> Hash, k: nat)
    requires Listed(b, store) && Packed(b, p, store, hash) && k < |b.entries| && IsSent(b.entries, b.modified, k)
    ensures
      var sent, n := SentList(b, hash).sent, Slot(b.entries, b.modified, k);
      && n < |sent| && SentAs(b.entries, b.modified, sent, k) && sent[n].path == b.entries[k].path && SameAttributes(sent[n], b.entries[k])
      && Readable(store, FullList(b, hash), sent[n])
      && (!IsLinked(b.entries[k]) ==> ContentOf(store, FullList(b, hash), sent[n]) == Original(b, store, k))
      && (!IsLinked(b.entries[k]) ==> sent[n].hash == OriginalHash(b, k))
  {
    ListingSucceeds(b, p, store, hash);
    var u := RefsOf(hash, b.chunks);
    UploadedData(store, hash, b.chunks);
    PackedFits(b, p, store, hash);
    StartOfMonotone(b.entries, b.modified, k + 1, |b.entries|);
    BackAnnotation(Lengths(b.preserved), Lengths(u), b.entries, b.modified, k);
    assert Matches(b.entries, b.modified, k) && WellFormedAt(b.entries, k) && OffsetsInRange(b.entries[k]);
    if b.entries[k].size < 0 {
      PlacedContent(b, p, store, hash, b.entries[k], Rank(b.entries, k));
    } else {
      PreservedContent(store, b.preserved, u, b.entries[k]);
    }
  }

  /** Every further link names a first link that is sent in the place the link expects. */
  predicate AllLinksKept(b: Backup)
    requires Aligned(b.entries, b.modified)
  {
    forall k :: 0 <= k < |b.entries| ==> LinksKept(b.entries, b.modified, k)
  }

  lemma AllSent(b: Backup, p: Params, store: Store, hash: Bytes -> Hash)
    requires Listed(b, store) && Packed(b, p, store, hash) && b.entries != []
    ensures AllSentAs(b.entries, b.modified, SentList(b, hash).sent)
    ensures Stored(store, FullList(b, hash)) && InRange(FullList(b, hash), SentList(b, hash).sent)
  {
    ListingSucceeds(b, p, store, hash);
    UploadedData(store, hash, b.chunks);
    DataSplits(store, b.preserved, RefsOf(hash, b.chunks));
    var sent := SentList(b, hash).sent;
    forall k | 0 <= k < |b.entries| ensures SentAs(b.entries, b.modified, sent, k) {
      if IsSent(b.entries, b.modified, k) {
        SentEntry(b, p, store, hash, k);
      }
    }
    forall n | 0 <= n < |sent| ensures Fits(Lengths(FullList(b, hash)), sent[n]) {
      SentEntry(b, p, store, hash, Origin(b.entries, b.modified, n, |b.entries|));
    }
  }

  /** An entry keeps its kind and the marks of its links: files their link, anything else its markers. */
  predicate SameMarks(d: Entry, e: Entry) {
    d.kind == e.kind && if e.kind.File? then d.link == e.link else d.endChunk == e.endChunk && d.endOffset == e.endOffset
  }

  /** A decoded entry has the marks of the entry it came from, and a file no other ones. */
  predicate ComesMarked(d: Entry, e: Entry) {
    SameMarks(d, e) && (d.kind.File? ==> d.endChunk >= 0)
  }

  /** What goes out resolves to what was listed. */
  lemma SentResolves(b: Backup, p: Params, store: Store, hash: Bytes -> Hash, k: nat)
    requires Listed(b, store) && Packed(b, p, store, hash) && k < |b.entries| && IsSent(b.entries, b.modified, k)
    requires AllSentAs(b.entries, b.modified, SentList(b, hash).sent) && LinksKept(b.entries, b.modified, k)
    ensures
      var sent, n := SentList(b, hash).sent, Slot(b.entries, b.modified, k);
      && n < |sent| && WellFormedAt(sent, n)
      && var r := Resolve(sent, n);
      && r.path == b.entries[k].path && Readable(store, FullList(b, hash), r)
      && ContentOf(store, FullList(b, hash), r) == Original(b, store, k)
      && r.hash == OriginalHash(b, k) && SameMarks(r, b.entries[k])
      && WellFormedAt(b.entries, k) && SameAttributes(r, b.entries[SourceOf(b.entries, k)])
  {
    SentEntry(b, p, store, hash, k);
    assert WellFormedAt(b.entries, k);
    if IsLinked(b.entries[k]) {
      var id := HardLinkId(b.entries[k]).value;
      var root := Roots(b.entries, k)[id];
      LinkSurvives(b.entries, b.modified, SentList(b, hash).sent, k, id);
      SentEntry(b, p, store, hash, root);
      RootsAreFirst(b.entries, k, id);
      LinkedContent(store, FullList(b, hash), b.entries[k], SentList(b, hash).sent[Slot(b.entries, b.modified, root)]);
    }
  }

  lemma {:induction false} RootsAreFirst(entries: seq<Entry>, k: nat, i: nat)
    requires k <= |entries| && i < |Roots(entries, k)|
    ensures IsFirstLink(entries[Roots(entries, k)[i]])
  {
    if !IsFirstLink(entries[k - 1]) || i < |Roots(entries, k - 1)| {
      RootsAreFirst(entries, k - 1, i);
    }
  }

  lemma LinkedContent(store: Store, refs: seq<ChunkRef>, e: Entry, root: Entry)
    requires Readable(store, refs, root)
    ensures
      var r := HardLinkTo(e, root, root.startChunk, root.endChunk);
      Readable(store, refs, r) && ContentOf(store, refs, r) == ContentOf(store, refs, root)
  {
  }

  /**
   Packing, back-annotation, compaction, encoding and decoding together: every file that was sent comes back under its
   own path, and retrieving it gives the bytes that were read when it was packed, the bytes the previous snapshot held
   if it was unchanged, or the bytes of the file it is a hard link to.
   */
  lemma BackupThenRetrieve(b: Backup, p: Params, store: Store, hash: Bytes -> Hash, k: nat)
    requires Listed(b, store) && Packed(b, p, store, hash) && AllLinksKept(b)
    requires k < |b.entries| && IsSent(b.entries, b.modified, k)
    ensures Positive(Lengths(RefsOf(hash, b.chunks)))
    ensures SentList(b, hash).ok && InRange(FullList(b, hash), SentList(b, hash).sent)
    ensures
      var sent, n := SentList(b, hash).sent, Slot(b.entries, b.modified, k);
      var r := Encode(FullList(b, hash), sent, |sent|);
      && r.Encoded? && n < |r.entries|
      && var d := DecodeAt(r.entries, n);
      && d.path == b.entries[k].path && d.hash == OriginalHash(b, k) && ComesMarked(d, b.entries[k])
      && SameAttributes(d, b.entries[SourceOf(b.entries, k)])
      && Readable(store, r.state.chunks, d)
      && ContentOf(store, r.state.chunks, d) == Original(b, store, k)
  {
    PackedPositive(b, p, store, hash);
    ListingSucceeds(b, p, store, hash);
    AllSent(b, p, store, hash);
    SentWellFormed(b, p, store, hash);
    assert LinksKept(b.entries, b.modified, k);
    SentResolves(b, p, store, hash, k);
    EncodedContent(store, FullList(b, hash), SentList(b, hash).sent, Slot(b.entries, b.modified, k));
  }

  lemma SentWellFormed(b: Backup, p: Params, store: Store, hash: Bytes -> Hash)
    requires Listed(b, store) && Packed(b, p, store, hash) && AllLinksKept(b) && b.entries != []
    ensures WellFormed(SentList(b, hash).sent)
  {
    ListingSucceeds(b, p, store, hash);
    AllSent(b, p, store, hash);
    var sent := SentList(b, hash).sent;
    forall n | 0 <= n < |sent| ensures WellFormedAt(sent, n) {
      var o := Origin(b.entries, b.modified, n, |b.entries|);
      assert LinksKept(b.entries, b.modified, o);
      SentResolves(b, p, store, hash, o);
    }
  }

  /** Nothing is sent that cannot be encoded. */
  ghost predicate CanEncode(b: Backup, hash: Bytes -> Hash) {
    var sent := SentList(b, hash).sent;
    SentList(b, hash).ok && InRange(FullList(b, hash), sent) && Encode(FullList(b, hash), sent, |sent|).Encoded?
  }

  /** When all links are kept, the whole listing can be encoded. */
  lemma KeptLinksEncode(b: Backup, p: Params, store: Store, hash: Bytes -> Hash)
    requires Listed(b, store) && Packed(b, p, store, hash) && AllLinksKept(b)
    ensures CanEncode(b, hash)
  {
    if b.entries != [] {
      ListingSucceeds(b, p, store, hash);
      AllSent(b, p, store, hash);
      SentWellFormed(b, p, store, hash);
      EncodeKeeps(FullList(b, hash), SentList(b, hash).sent, |SentList(b, hash).sent|);
    }
  }

  // ---------- a first link that is left out ----------

  function Plain(path: string, size: int, link: string): (e: Entry) {
    Entry(path, size, 0, File, link, "", 0, 0, 0, 0, 0)
  }

  /** The first of two first links turns out empty: a further link to it then comes back as a link to the second. */
  lemma LeftOutFirstLinkMisdirects()
    ensures
      var a, b, c := Plain("a", -1, "/"), Plain("b", -1, "/"), Plain("c", 0, "0");
      var modified := [Modified("a", 0, ""), Modified("b", 5, "h")];
      var l := Annotate([], [5], [a, b, c], modified, 0, 0, 0);
      && Aligned([a, b, c], modified) && l.ok && |l.sent| == 2
      && WellFormedAt([a, b, c], 2) && Roots([a, b, c], 2)[HardLinkId(c).value] == 0
      && WellFormedAt(l.sent, 1) && Resolve(l.sent, 1).path == "c" && Resolve(l.sent, 1).size == 5
      && Resolve(l.sent, 1).hash == "h"
  {
    var a, b, c := Plain("a", -1, "/"), Plain("b", -1, "/"), Plain("c", 0, "0");
    var modified := [Modified("a", 0, ""), Modified("b", 5, "h")];
    var entries := [a, b, c];
    assert Rank(entries, 0) == 0 && Rank(entries, 1) == 1 && Rank(entries, 2) == 2 && Rank(entries, 3) == 2;
    assert forall k :: 0 <= k <= 3 ==> Matches(entries, modified, k);
    assert Pos([5], 0) == 0 && Pos([5], 1) == 5;
    var b' := Placed(0, [5], b, modified[1], 0);
    assert Annotate([], [5], entries, modified, 3, 2, 5) == Listing([], true);
    assert Annotate([], [5], entries, modified, 2, 2, 5) == Listing([c], true);
    assert Annotate([], [5], entries, modified, 1, 1, 0) == Listing([b', c], true);
    assert HexValue('0') == Some(0) && HardLinkId(c) == Some(0);
    assert Roots(entries, 1) == [0] && Roots(entries, 2) == [0, 1];
    var sent := [b', c];
    assert Roots(sent, 1) == [0];
  }
}
