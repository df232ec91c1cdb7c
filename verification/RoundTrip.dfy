/**
 From a listed directory to chunks and an entry stream, and back to file contents.
 */
module RoundTrip {
  import opened ByteStreams
  import opened Positions
  import opened Entries
  import opened EntryLists
  import opened SnapshotCodec

  // ---------- chunks in the storage ----------

  type Store = map<Hash, Bytes>

  predicate Stored(store: Store, refs: seq<ChunkRef>) {
    forall i :: 0 <= i < |refs| ==> refs[i].hash in store && |store[refs[i].hash]| == refs[i].length
  }

  function Data(store: Store, refs: seq<ChunkRef>): (chunks: seq<Bytes>)
    requires Stored(store, refs)
    ensures |chunks| == |refs|
    ensures forall i :: 0 <= i < |refs| ==> |chunks[i]| == refs[i].length
  {
    seq(|refs|, i requires 0 <= i < |refs| => store[refs[i].hash])
  }

  lemma {:induction false} OffsetIsPos(chunks: seq<Bytes>, lengths: seq<nat>, c: nat)
    requires |chunks| == |lengths| && (forall i :: 0 <= i < |chunks| ==> |chunks[i]| == lengths[i]) && c <= |chunks|
    ensures Offset(chunks, c) == Pos(lengths, c)
  {
    if c > 0 {
      OffsetIsPos(chunks, lengths, c - 1);
      OffsetNext(chunks, c - 1);
    }
  }

  // ---------- retrieving a file ----------

  predicate OffsetsInRange(e: Entry) {
    HasContent(e) ==> 0 <= e.startOffset && 0 <= e.endOffset
  }

  predicate Readable(store: Store, refs: seq<ChunkRef>, e: Entry) {
    Stored(store, refs) && Fits(Lengths(refs), e) && OffsetsInRange(e)
  }

  function RangeOf(e: Entry): (r: Range)
    requires 0 <= e.startChunk && 0 <= e.startOffset && 0 <= e.endChunk && 0 <= e.endOffset
  {
    Range(e.startChunk, e.startOffset, e.endChunk, e.endOffset)
  }

  /** The bytes of a file. */
  function ContentOf(store: Store, refs: seq<ChunkRef>, e: Entry): (s: Bytes)
    requires Readable(store, refs, e)
  {
    if !HasContent(e) then [] else
      RangeFits(store, refs, e);
      Content(Data(store, refs), RangeOf(e))
  }

  lemma RangeFits(store: Store, refs: seq<ChunkRef>, e: Entry)
    requires Readable(store, refs, e) && HasContent(e)
    ensures InChunks(Data(store, refs), RangeOf(e))
  {
  }

  /** The last chunk downloaded is kept for the next file. */
  datatype Cache = NoChunk | Cached(hash: Hash, data: Bytes)

  ghost predicate CacheAgrees(store: Store, cache: Cache) {
    cache.Cached? ==> cache.hash in store && store[cache.hash] == cache.data
  }

  /** Whatever is stored under a chunk's hash has the chunk's length. */
  ghost predicate LengthsAgree(store: Store, refs: seq<ChunkRef>) {
    forall i :: 0 <= i < |refs| && refs[i].hash in store ==> |store[refs[i].hash]| == refs[i].length
  }

  /** Gets a chunk, from the cache if it was downloaded last. */
  method Download(store: Store, hash: Hash, cache: Cache) returns (found: bool, cache': Cache)
    requires CacheAgrees(store, cache)
    ensures CacheAgrees(store, cache') && (found <==> hash in store)
    ensures found ==> cache'.Cached? && cache'.hash == hash
  {
    if cache.Cached? && cache.hash == hash {
      return true, cache;
    }
    if hash !in store {
      return false, cache;
    }
    return true, Cached(hash, store[hash]);
  }

  /** The chunks of a file, and its range within them. */
  function OwnChunks(refs: seq<ChunkRef>, e: Entry): (own: seq<ChunkRef>)
    requires 0 <= e.startChunk <= e.endChunk < |refs|
  {
    refs[e.startChunk..e.endChunk + 1]
  }

  function OwnRange(e: Entry): (r: Range)
    requires e.startChunk <= e.endChunk && e.startOffset >= 0 && e.endOffset >= 0
  {
    Range(0, e.startOffset, e.endChunk - e.startChunk, e.endOffset)
  }

  lemma OwnRangeFits(store: Store, refs: seq<ChunkRef>, e: Entry)
    requires Fits(Lengths(refs), e) && HasContent(e) && OffsetsInRange(e) && Stored(store, OwnChunks(refs, e))
    ensures InChunks(Data(store, OwnChunks(refs, e)), OwnRange(e))
  {
  }

  /** With every chunk stored, the content in the file's own chunks is its content. */
  lemma OwnContent(store: Store, refs: seq<ChunkRef>, e: Entry)
    requires Readable(store, refs, e) && HasContent(e)
    ensures Stored(store, OwnChunks(refs, e)) && InChunks(Data(store, OwnChunks(refs, e)), OwnRange(e))
    ensures Content(Data(store, OwnChunks(refs, e)), OwnRange(e)) == ContentOf(store, refs, e)
  {
    RangeFits(store, refs, e);
    var own, all := Data(store, OwnChunks(refs, e)), Data(store, refs);
    OwnRangeFits(store, refs, e);
    assert own[0..e.endChunk - e.startChunk + 1] == all[e.startChunk..e.endChunk + 1];
    SameContent(all, own, RangeOf(e), OwnRange(e));
  }

  /** What retrieving a file with content gives: with all its own chunks stored, whatever else is missing, its content, and
      success exactly when the hash agrees; otherwise failure. */
  ghost predicate IsRetrieval(store: Store, refs: seq<ChunkRef>, e: Entry, fileHash: Bytes -> Hash, out: Bytes, ok: bool)
    requires Fits(Lengths(refs), e) && HasContent(e) && OffsetsInRange(e)
  {
    if Stored(store, OwnChunks(refs, e)) then
      OwnRangeFits(store, refs, e);
      out == Content(Data(store, OwnChunks(refs, e)), OwnRange(e)) && (ok <==> fileHash(out) == e.hash)
    else !ok
  }

  /** Retrieves a file; it fails when one of its chunks is missing or its hash does not agree. */
  method Retrieve(store: Store, refs: seq<ChunkRef>, e: Entry, cache: Cache, fileHash: Bytes -> Hash)
    returns (out: Bytes, ok: bool, cache': Cache)
    requires Fits(Lengths(refs), e) && OffsetsInRange(e) && e.kind.File? && LengthsAgree(store, refs) && CacheAgrees(store, cache)
    ensures CacheAgrees(store, cache')
    ensures e.size == 0 ==> out == [] && ok
    ensures e.size > 0 ==> IsRetrieval(store, refs, e, fileHash, out, ok)
    ensures Stored(store, refs) ==> out == ContentOf(store, refs, e) && (ok <==> e.size == 0 || fileHash(out) == e.hash)
  {
    if e.size == 0 {
      return [], true, cache;
    }
    if Stored(store, refs) {
      OwnContent(store, refs, e);
    }
    out, ok, cache' := RetrieveContent(store, refs, e, cache, fileHash);
  }

  /** Puts together the parts of a file's chunks. */
  method RetrieveContent(store: Store, refs: seq<ChunkRef>, e: Entry, cache: Cache, fileHash: Bytes -> Hash)
    returns (out: Bytes, ok: bool, cache': Cache)
    requires Fits(Lengths(refs), e) && OffsetsInRange(e) && HasContent(e) && LengthsAgree(store, refs) && CacheAgrees(store, cache)
    ensures CacheAgrees(store, cache') && IsRetrieval(store, refs, e, fileHash, out, ok)
  {
    cache', out := cache, [];
    RetrievedNone(store, refs, e);
    var i: nat := e.startChunk;
    while i <= e.endChunk
      invariant e.startChunk <= i <= e.endChunk + 1 && CacheAgrees(store, cache')
      invariant forall k :: e.startChunk <= k < i ==> refs[k].hash in store
      invariant Retrieved(store, refs, e, i, out)
    {
      var start := if i == e.startChunk then e.startOffset else 0;
      var end := if i == e.endChunk then e.endOffset else refs[i].length;
      var found;
      found, cache' := Download(store, refs[i].hash, cache');
      if !found {
        MissingIsOwn(store, refs, e, i);
        return out, false, NoChunk;
      }
      SliceFits(e, Lengths(refs), i, start, end);
      RetrievedNext(store, refs, e, i, out, start, end);
      out := out + cache'.data[start..end];
      i := i + 1;
    }
    RetrievedAll(store, refs, e, out);
    ok := fileHash(out) == e.hash;
  }

  lemma MissingIsOwn(store: Store, refs: seq<ChunkRef>, e: Entry, i: nat)
    requires 0 <= e.startChunk <= i <= e.endChunk < |refs| && refs[i].hash !in store
    ensures !Stored(store, OwnChunks(refs, e))
  {
    assert OwnChunks(refs, e)[i - e.startChunk] == refs[i];
  }

  /** The output up to a chunk, if all chunks of the file are stored. */
  ghost predicate Retrieved(store: Store, refs: seq<ChunkRef>, e: Entry, i: nat, out: Bytes)
    requires Fits(Lengths(refs), e) && HasContent(e) && OffsetsInRange(e) && e.startChunk <= i <= e.endChunk + 1
  {
    Stored(store, OwnChunks(refs, e)) ==>
      (OwnRangeFits(store, refs, e);
       Content(Data(store, OwnChunks(refs, e)), OwnRange(e))
       == out + ContentFrom(Data(store, OwnChunks(refs, e)), OwnRange(e), i - e.startChunk))
  }

  lemma RetrievedNone(store: Store, refs: seq<ChunkRef>, e: Entry)
    requires Fits(Lengths(refs), e) && HasContent(e) && OffsetsInRange(e)
    ensures Retrieved(store, refs, e, e.startChunk, [])
  {
    if Stored(store, OwnChunks(refs, e)) {
      OwnRangeFits(store, refs, e);
      var content := Content(Data(store, OwnChunks(refs, e)), OwnRange(e));
      assert [] + content == content;
    }
  }

  lemma RetrievedNext(store: Store, refs: seq<ChunkRef>, e: Entry, i: nat, out: Bytes, start: nat, end: nat)
    requires Fits(Lengths(refs), e) && HasContent(e) && OffsetsInRange(e) && e.startChunk <= i <= e.endChunk
    requires Retrieved(store, refs, e, i, out) && refs[i].hash in store && start <= end <= |store[refs[i].hash]|
    requires start == if i == e.startChunk then e.startOffset else 0
    requires end == if i == e.endChunk then e.endOffset else refs[i].length
    ensures Retrieved(store, refs, e, i + 1, out + store[refs[i].hash][start..end])
  {
    if Stored(store, OwnChunks(refs, e)) {
      OwnRangeFits(store, refs, e);
      var own, slice := Data(store, OwnChunks(refs, e)), store[refs[i].hash][start..end];
      assert slice == Slice(own, OwnRange(e), i - e.startChunk);
      AddSlice(own, OwnRange(e), i - e.startChunk, out, slice);
    }
  }

  lemma RetrievedAll(store: Store, refs: seq<ChunkRef>, e: Entry, out: Bytes)
    requires Fits(Lengths(refs), e) && HasContent(e) && OffsetsInRange(e) && Retrieved(store, refs, e, e.endChunk + 1, out)
    requires LengthsAgree(store, refs) && forall k :: e.startChunk <= k <= e.endChunk ==> refs[k].hash in store
    ensures Stored(store, OwnChunks(refs, e)) && InChunks(Data(store, OwnChunks(refs, e)), OwnRange(e))
    ensures out == Content(Data(store, OwnChunks(refs, e)), OwnRange(e))
  {
    OwnRangeFits(store, refs, e);
    assert out + [] == out;
  }

  lemma SliceFits(e: Entry, lengths: seq<nat>, i: nat, start: nat, end: nat)
    requires Fits(lengths, e) && HasContent(e) && OffsetsInRange(e) && e.startChunk <= i <= e.endChunk
    requires start == if i == e.startChunk then e.startOffset else 0
    requires end == if i == e.endChunk then e.endOffset else lengths[i]
    ensures start <= end <= lengths[i]
  {
  }

  lemma AddSlice(chunks: seq<Bytes>, r: Range, i: nat, out: Bytes, slice: Bytes)
    requires InChunks(chunks, r) && r.startChunk <= i <= r.endChunk && slice == Slice(chunks, r, i)
    requires Content(chunks, r) == out + ContentFrom(chunks, r, i)
    ensures Content(chunks, r) == out + slice + ContentFrom(chunks, r, i + 1)
  {
    assert out + (slice + ContentFrom(chunks, r, i + 1)) == out + slice + ContentFrom(chunks, r, i + 1);
  }

  // ---------- contents survive the compacted list ----------

  /** The data of the same chunks is the same. */
  lemma RecoveredData(store: Store, full: seq<ChunkRef>, chunks: seq<ChunkRef>, r: Entry, at: nat)
    requires Stored(store, full) && Stored(store, chunks) && SameChunks(full, chunks, r, at)
    ensures Data(store, chunks)[at..at + (r.endChunk - r.startChunk) + 1] == Data(store, full)[r.startChunk..r.endChunk + 1]
  {
    var xs, ys := Data(store, full)[r.startChunk..r.endChunk + 1], Data(store, chunks)[at..at + (r.endChunk - r.startChunk) + 1];
    forall i | 0 <= i < r.endChunk - r.startChunk + 1 ensures ys[i] == xs[i] {
      SameChunkAt(full, chunks, r, at, i);
    }
  }

  lemma RecoveredContent(store: Store, full: seq<ChunkRef>, chunks: seq<ChunkRef>, r: Entry, d: Entry)
    requires Readable(store, full, r) && Recovers(full, chunks, r, d) && Readable(store, chunks, d)
    ensures ContentOf(store, chunks, d) == ContentOf(store, full, r)
  {
    if HasContent(r) {
      RangeFits(store, full, r);
      RangeFits(store, chunks, d);
      RecoveredData(store, full, chunks, r, d.startChunk);
      SameContent(Data(store, full), Data(store, chunks), RangeOf(r), RangeOf(d));
    }
  }

  lemma {:induction false} CompactedStored(store: Store, full: seq<ChunkRef>, entries: seq<Entry>, k: nat)
    requires Stored(store, full) && k <= |entries| && InRange(full, entries) && Encode(full, entries, k).Encoded?
    ensures Stored(store, Encode(full, entries, k).state.chunks)
  {
    if k > 0 {
      CompactedStored(store, full, entries, k - 1);
      assert Fits(Lengths(full), entries[k - 1]);
      var s, e := Encode(full, entries, k - 1).state, entries[k - 1];
      if HasContent(e) {
        assert Stored(store, NewChunks(full, s, e));
      }
    }
  }

  /** Every entry that is encoded can be retrieved, with the content it had in the full list. */
  lemma EncodedContent(store: Store, full: seq<ChunkRef>, entries: seq<Entry>, k: nat)
    requires Stored(store, full) && InRange(full, entries) && WellFormed(entries) && k < |entries|
    requires OffsetsInRange(Resolve(entries, k))
    ensures Readable(store, full, Resolve(entries, k))
    ensures
      var r := Encode(full, entries, |entries|);
      && r.Encoded? && |r.entries| == |entries|
      && Recovers(full, r.state.chunks, Resolve(entries, k), DecodeAt(r.entries, k))
      && Readable(store, r.state.chunks, DecodeAt(r.entries, k))
      && ContentOf(store, r.state.chunks, DecodeAt(r.entries, k)) == ContentOf(store, full, Resolve(entries, k))
  {
    DecodeInvertsEncode(full, entries, k);
    ResolvedFits(full, entries, k);
    CompactedStored(store, full, entries, |entries|);
    var r := Encode(full, entries, |entries|);
    RecoveredContent(store, full, r.state.chunks, Resolve(entries, k), DecodeAt(r.entries, k));
  }
}
