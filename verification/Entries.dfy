/**
 File entries and the ranges of the chunk list that hold their contents.
 */
module Entries {
  import opened ByteStreams

  type Hash = string

  /** A chunk as an index list names it: its hash and its length. */
  datatype ChunkRef = ChunkRef(hash: Hash, length: nat)

  datatype Kind = File | Dir | Other

  /** `meta` stands for mode bits, owner and attributes. */
  datatype Entry = Entry(
    path: string,
    size: int,
    time: int,
    kind: Kind,
    link: string,
    hash: Hash,
    meta: nat,
    startChunk: int,
    startOffset: int,
    endChunk: int,
    endOffset: int)

  // ---------- positions in the concatenated chunks ----------

  /** Where the `c`th chunk begins in the concatenation. */
  function Offset(chunks: seq<Bytes>, c: nat): (n: nat)
    requires c <= |chunks|
  {
    |Concat(chunks[..c])|
  }

  lemma OffsetNext(chunks: seq<Bytes>, c: nat)
    requires c < |chunks|
    ensures Offset(chunks, c + 1) == Offset(chunks, c) + |chunks[c]|
    ensures Offset(chunks, c + 1) <= |Concat(chunks)|
    ensures Concat(chunks)[Offset(chunks, c)..Offset(chunks, c + 1)] == chunks[c]
  {
    var upTo := chunks[..c + 1];
    assert upTo[..c] == chunks[..c];
    ConcatSplit(upTo, chunks[c + 1..]);
    assert upTo + chunks[c + 1..] == chunks;
  }

  lemma {:induction false} OffsetMonotone(chunks: seq<Bytes>, c: nat, d: nat)
    requires c <= d <= |chunks|
    ensures Offset(chunks, c) <= Offset(chunks, d) <= |Concat(chunks)|
    decreases |chunks| - c
  {
    if c < d {
      OffsetNext(chunks, c);
      OffsetMonotone(chunks, c + 1, d);
    } else if d < |chunks| {
      OffsetNext(chunks, d);
    } else {
      assert chunks[..d] == chunks;
    }
  }

  // ---------- ranges ----------

  /** A range of the chunk list, from an offset in one chunk up to an offset in another. */
  datatype Range = Range(startChunk: nat, startOffset: nat, endChunk: nat, endOffset: nat)

  predicate InChunks(chunks: seq<Bytes>, r: Range) {
    && r.startChunk <= r.endChunk < |chunks|
    && r.startOffset <= |chunks[r.startChunk]| && r.endOffset <= |chunks[r.endChunk]|
    && (r.startChunk == r.endChunk ==> r.startOffset <= r.endOffset)
  }

  /** The part of the `i`th chunk that belongs to a range. */
  function Slice(chunks: seq<Bytes>, r: Range, i: nat): (s: Bytes)
    requires InChunks(chunks, r) && r.startChunk <= i <= r.endChunk
  {
    var start := if i == r.startChunk then r.startOffset else 0;
    var end := if i == r.endChunk then r.endOffset else |chunks[i]|;
    chunks[i][start..end]
  }

  /** The bytes of a range from its `i`th chunk on. */
  function ContentFrom(chunks: seq<Bytes>, r: Range, i: nat): (s: Bytes)
    requires InChunks(chunks, r) && r.startChunk <= i <= r.endChunk + 1
    decreases r.endChunk + 1 - i
  {
    if i > r.endChunk then [] else Slice(chunks, r, i) + ContentFrom(chunks, r, i + 1)
  }

  function Content(chunks: seq<Bytes>, r: Range): (s: Bytes)
    requires InChunks(chunks, r)
  {
    ContentFrom(chunks, r, r.startChunk)
  }

  /** The first and the last position of a range in the concatenation of all chunks. */
  function First(chunks: seq<Bytes>, r: Range): (n: nat)
    requires InChunks(chunks, r)
  {
    Offset(chunks, r.startChunk) + r.startOffset
  }

  function Last(chunks: seq<Bytes>, r: Range): (n: nat)
    requires InChunks(chunks, r)
  {
    Offset(chunks, r.endChunk) + r.endOffset
  }

  lemma SliceInConcat(chunks: seq<Bytes>, r: Range, i: nat)
    requires InChunks(chunks, r) && r.startChunk <= i <= r.endChunk
    ensures
      var start, end := if i == r.startChunk then r.startOffset else 0, if i == r.endChunk then r.endOffset else |chunks[i]|;
      && Offset(chunks, i) + start <= Offset(chunks, i) + end <= |Concat(chunks)|
      && Slice(chunks, r, i) == Concat(chunks)[Offset(chunks, i) + start..Offset(chunks, i) + end]
  {
    OffsetNext(chunks, i);
    SliceOfSlice(Concat(chunks), Offset(chunks, i), chunks[i], if i == r.startChunk then r.startOffset else 0,
                 if i == r.endChunk then r.endOffset else |chunks[i]|);
  }

  lemma SliceOfSlice(all: Bytes, o: nat, part: Bytes, a: nat, b: nat)
    requires o + |part| <= |all| && all[o..o + |part|] == part && a <= b <= |part|
    ensures part[a..b] == all[o + a..o + b]
  {
    forall k | 0 <= k < b - a ensures part[a..b][k] == all[o + a..o + b][k] {
      assert part[a + k] == all[o..o + |part|][a + k];
    }
  }

  /** A range holds exactly the bytes between its two positions. */
  lemma {:induction false} ContentFromIsSlice(chunks: seq<Bytes>, r: Range, i: nat)
    requires InChunks(chunks, r) && r.startChunk <= i <= r.endChunk
    ensures
      var from := Offset(chunks, i) + (if i == r.startChunk then r.startOffset else 0);
      && from <= Last(chunks, r) <= |Concat(chunks)|
      && ContentFrom(chunks, r, i) == Concat(chunks)[from..Last(chunks, r)]
    decreases r.endChunk - i
  {
    SliceInConcat(chunks, r, i);
    OffsetNext(chunks, i);
    var all, from, mid, last := Concat(chunks), Offset(chunks, i) + (if i == r.startChunk then r.startOffset else 0),
                                Offset(chunks, i + 1), Last(chunks, r);
    if i < r.endChunk {
      ContentFromIsSlice(chunks, r, i + 1);
      SlicesJoin(all, from, mid, last);
    } else {
      assert ContentFrom(chunks, r, i) == Slice(chunks, r, i) + [];
    }
  }

  lemma SlicesJoin(all: Bytes, from: nat, mid: nat, last: nat)
    requires from <= mid <= last <= |all|
    ensures all[from..mid] + all[mid..last] == all[from..last]
  {
  }

  lemma ContentIsSlice(chunks: seq<Bytes>, r: Range)
    requires InChunks(chunks, r)
    ensures First(chunks, r) <= Last(chunks, r) <= |Concat(chunks)|
    ensures Content(chunks, r) == Concat(chunks)[First(chunks, r)..Last(chunks, r)]
  {
    ContentFromIsSlice(chunks, r, r.startChunk);
  }

  /** Ranges of the same shape over lists that agree chunk by chunk hold the same bytes. */
  lemma {:induction false} SameContentFrom(chunks: seq<Bytes>, chunks': seq<Bytes>, r: Range, r': Range, i: nat)
    requires InChunks(chunks, r) && InChunks(chunks', r') && SameShape(chunks, chunks', r, r')
    requires r.startChunk <= i <= r.endChunk + 1
    ensures ContentFrom(chunks', r', i - r.startChunk + r'.startChunk) == ContentFrom(chunks, r, i)
    decreases r.endChunk + 1 - i
  {
    if i <= r.endChunk {
      var i' := i - r.startChunk + r'.startChunk;
      var k := i - r.startChunk;
      assert chunks'[i'] == chunks'[r'.startChunk..r'.endChunk + 1][k] == chunks[r.startChunk..r.endChunk + 1][k] == chunks[i];
      SameContentFrom(chunks, chunks', r, r', i + 1);
    }
  }

  ghost predicate SameShape(chunks: seq<Bytes>, chunks': seq<Bytes>, r: Range, r': Range)
    requires InChunks(chunks, r) && InChunks(chunks', r')
  {
    && r'.endChunk - r'.startChunk == r.endChunk - r.startChunk
    && r'.startOffset == r.startOffset && r'.endOffset == r.endOffset
    && chunks'[r'.startChunk..r'.endChunk + 1] == chunks[r.startChunk..r.endChunk + 1]
  }

  lemma SameContent(chunks: seq<Bytes>, chunks': seq<Bytes>, r: Range, r': Range)
    requires InChunks(chunks, r) && InChunks(chunks', r') && SameShape(chunks, chunks', r, r')
    ensures Content(chunks', r') == Content(chunks, r)
  {
    SameContentFrom(chunks, chunks', r, r', r.startChunk);
  }
}
