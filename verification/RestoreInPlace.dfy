/**
 Restoring a file in place: chunks that the existing file already holds at the right offset are kept, all others are
 written over it (src/duplicacy_backupmanager.go).
 */
module RestoreInPlace {
  import opened ByteStreams
  import opened Entries

  ghost predicate Injective(hash: Bytes -> Hash) {
    forall a: Bytes, b: Bytes :: hash(a) == hash(b) ==> a == b
  }

  function Zeros(n: nat): (z: Bytes)
    ensures |z| == n
  {
    if n == 0 then [] else Zeros(n - 1) + [0]
  }

  predicate AllZero(s: Bytes) {
    s == Zeros(|s|)
  }

  lemma {:induction false} ZeroAt(n: nat, i: nat)
    requires i < n
    ensures Zeros(n)[i] == 0
  {
    if i < n - 1 {
      ZeroAt(n - 1, i);
    }
  }

  lemma ZeroIf(s: Bytes)
    requires forall i :: 0 <= i < |s| ==> s[i] == 0
    ensures AllZero(s)
  {
    forall i | 0 <= i < |s| ensures s[i] == Zeros(|s|)[i] {
      ZeroAt(|s|, i);
    }
  }

  lemma ZeroSlice(s: Bytes, a: nat, b: nat)
    requires AllZero(s) && a <= b <= |s|
    ensures AllZero(s[a..b])
  {
    forall i | 0 <= i < b - a ensures s[a..b][i] == 0 {
      ZeroAt(|s|, a + i);
    }
    ZeroIf(s[a..b]);
  }

  lemma ZeroJoin(s: Bytes, t: Bytes)
    requires AllZero(s) && AllZero(t)
    ensures AllZero(s + t)
  {
    forall i | 0 <= i < |s + t| ensures (s + t)[i] == 0 {
      if i < |s| {
        ZeroAt(|s|, i);
      } else {
        ZeroAt(|t|, i - |s|);
      }
    }
    ZeroIf(s + t);
  }

  /** A file on disk. */
  class LocalFile {
    var data: Bytes

    constructor (contents: Bytes)
      ensures data == contents
    {
      data := contents;
    }

    method WriteAt(offset: nat, bytes: Bytes)
      modifies this
      ensures data == Written(old(data), offset, bytes)
    {
      data := Written(data, offset, bytes);
    }

    method Truncate(size: nat)
      modifies this
      ensures data == Resized(old(data), size)
    {
      data := Resized(data, size);
    }
  }

  /** Writing beyond the end leaves a hole of zeros. */
  function Written(data: Bytes, offset: nat, bytes: Bytes): (r: Bytes) {
    if offset > |data| then data + Zeros(offset - |data|) + bytes
    else data[..offset] + bytes + if offset + |bytes| <= |data| then data[offset + |bytes|..] else []
  }

  function Resized(data: Bytes, size: nat): (r: Bytes) {
    if size <= |data| then data[..size] else data + Zeros(size - |data|)
  }

  // ---------- cutting the existing file at the offsets of the snapshot ----------

  /** One piece of the existing file; the recorded length is the length asked for, even at the end of the file. */
  datatype Piece = Piece(hash: Hash, length: nat)

  /** Where the `j`th piece was recorded. */
  function PieceStart(pieces: seq<Piece>, j: nat): (n: nat)
    requires j <= |pieces|
  {
    if j == 0 then 0 else PieceStart(pieces, j - 1) + pieces[j - 1].length
  }

  lemma {:induction false} PieceStartOfPrefix(pieces: seq<Piece>, more: seq<Piece>, j: nat)
    requires j <= |pieces|
    ensures PieceStart(pieces + more, j) == PieceStart(pieces, j)
  {
    if j > 0 {
      PieceStartOfPrefix(pieces, more, j - 1);
    }
  }

  /** How far a range is followed: through every chunk, then one byte more, so that a longer file is noticed. */
  function PieceSize(chunks: seq<Bytes>, r: Range, i: nat): (n: nat)
    requires InChunks(chunks, r) && r.startChunk <= i <= r.endChunk + 1
  {
    if i == r.startChunk then |chunks[i]| - r.startOffset
    else if i == r.endChunk then r.endOffset
    else if i < r.endChunk then |chunks[i]|
    else 1
  }

  function SizesUpTo(chunks: seq<Bytes>, r: Range, i: nat): (n: nat)
    requires InChunks(chunks, r) && r.startChunk <= i <= r.endChunk + 2
  {
    if i == r.startChunk then 0 else SizesUpTo(chunks, r, i - 1) + PieceSize(chunks, r, i - 1)
  }

  /** What the cut pieces say about the file: a full piece has the hash of the bytes at its place; one that runs over the
      end of an old file has the hash of fewer bytes. */
  ghost predicate Trusted(hash: Bytes -> Hash, file: Bytes, isNew: bool, start: nat, p: Piece) {
    if start + p.length <= |file| then p.hash == hash(file[start..start + p.length])
    else isNew || exists short: Bytes :: |short| < p.length && p.hash == hash(short)
  }

  ghost predicate AllTrusted(hash: Bytes -> Hash, file: Bytes, isNew: bool, pieces: seq<Piece>) {
    forall j :: 0 <= j < |pieces| ==> TrustedAt(hash, file, isNew, pieces, j)
  }

  ghost predicate TrustedAt(hash: Bytes -> Hash, file: Bytes, isNew: bool, pieces: seq<Piece>, j: nat)
    requires j < |pieces|
  {
    Trusted(hash, file, isNew, PieceStart(pieces, j), pieces[j])
  }

  lemma TrustOneMore(hash: Bytes -> Hash, file: Bytes, isNew: bool, pieces: seq<Piece>, p: Piece)
    requires AllTrusted(hash, file, isNew, pieces) && Trusted(hash, file, isNew, PieceStart(pieces, |pieces|), p)
    ensures AllTrusted(hash, file, isNew, pieces + [p])
    ensures PieceStart(pieces + [p], |pieces| + 1) == PieceStart(pieces, |pieces|) + p.length
  {
    forall j | 0 <= j < |pieces + [p]| ensures TrustedAt(hash, file, isNew, pieces + [p], j) {
      PieceStartOfPrefix(pieces, [p], j);
      if j < |pieces| {
        assert TrustedAt(hash, file, isNew, pieces, j);
      }
    }
    PieceStartOfPrefix(pieces, [p], |pieces|);
  }

  // ---------- which pieces there are ----------

  ghost predicate AllLong(pieces: seq<Piece>) {
    forall j :: 0 <= j < |pieces| ==> pieces[j].length > 0
  }

  /** Some piece was recorded at a place with a length. */
  ghost predicate HasPiece(pieces: seq<Piece>, start: nat, length: nat) {
    exists j :: 0 <= j < |pieces| && PieceStart(pieces, j) == start && pieces[j].length == length
  }

  /** The piece of the `i`th chunk is there if the file reaches to its end. */
  ghost predicate HasPieceOf(file: Bytes, chunks: seq<Bytes>, r: Range, pieces: seq<Piece>, i: nat)
    requires InChunks(chunks, r) && r.startChunk <= i <= r.endChunk + 1
  {
    PieceSize(chunks, r, i) > 0 && SizesUpTo(chunks, r, i) + PieceSize(chunks, r, i) <= |file| ==>
      HasPiece(pieces, SizesUpTo(chunks, r, i), PieceSize(chunks, r, i))
  }

  ghost predicate HasPieces(file: Bytes, chunks: seq<Bytes>, r: Range, pieces: seq<Piece>, n: nat)
    requires InChunks(chunks, r) && r.startChunk <= n <= r.endChunk + 2
  {
    AllLong(pieces) && forall i :: r.startChunk <= i < n ==> HasPieceOf(file, chunks, r, pieces, i)
  }

  lemma HasPieceStays(pieces: seq<Piece>, more: seq<Piece>, start: nat, length: nat)
    requires HasPiece(pieces, start, length)
    ensures HasPiece(pieces + more, start, length)
  {
    var j :| 0 <= j < |pieces| && PieceStart(pieces, j) == start && pieces[j].length == length;
    PieceStartOfPrefix(pieces, more, j);
    assert (pieces + more)[j] == pieces[j];
  }

  /** What the next piece does to the list: a piece within the file is recorded, and an empty one is not. */
  ghost predicate Advances(file: Bytes, pieces: seq<Piece>, offset: nat, size: nat, pieces': seq<Piece>, offset': nat) {
    && (pieces' == pieces || (|pieces'| == |pieces| + 1 && pieces'[..|pieces|] == pieces && pieces'[|pieces|].length == size > 0))
    && (offset + size <= |file| ==> offset' == offset + size)
    && (offset + size <= |file| && size > 0 ==> pieces' != pieces)
    && offset' >= offset && (offset + size > |file| ==> offset' == offset || offset' == offset + size)
  }

  lemma HasPiecesNext(file: Bytes, chunks: seq<Bytes>, r: Range, pieces: seq<Piece>, n: nat, offset: nat, pieces': seq<Piece>, offset': nat)
    requires InChunks(chunks, r) && r.startChunk <= n <= r.endChunk + 1 && HasPieces(file, chunks, r, pieces, n)
    requires offset == PieceStart(pieces, |pieces|) && (SizesUpTo(chunks, r, n) <= |file| ==> offset == SizesUpTo(chunks, r, n))
    requires Advances(file, pieces, offset, PieceSize(chunks, r, n), pieces', offset')
    ensures HasPieces(file, chunks, r, pieces', n + 1)
    ensures SizesUpTo(chunks, r, n + 1) <= |file| ==> offset' == SizesUpTo(chunks, r, n + 1)
  {
    var more := pieces'[|pieces|..];
    assert pieces' == pieces + more;
    forall i | r.startChunk <= i < n + 1 ensures HasPieceOf(file, chunks, r, pieces', i) {
      if PieceSize(chunks, r, i) > 0 && SizesUpTo(chunks, r, i) + PieceSize(chunks, r, i) <= |file| {
        if i < n {
          assert HasPieceOf(file, chunks, r, pieces, i);
          HasPieceStays(pieces, more, SizesUpTo(chunks, r, i), PieceSize(chunks, r, i));
        } else {
          PieceStartOfPrefix(pieces, more, |pieces|);
        }
      }
    }
  }

  const BUFFER_SIZE := 64 * 1024

  function Available(file: Bytes, from: nat, size: nat): (bytes: Bytes) {
    if from >= |file| then [] else if from + size <= |file| then file[from..from + size] else file[from..]
  }

  /** Reads up to `size` bytes from a position, in short reads, stopping at the end of the file. */
  method ReadPiece(file: Bytes, from: nat, size: nat) returns (bytes: Bytes)
    ensures bytes == Available(file, from, size)
  {
    bytes := [];
    while |bytes| < size
      invariant |bytes| <= size && (from >= |file| ==> bytes == [])
      invariant from < |file| ==> from + |bytes| <= |file| && bytes == file[from..from + |bytes|]
      decreases size - |bytes|
    {
      var n := if size - |bytes| > BUFFER_SIZE then BUFFER_SIZE else size - |bytes|;
      if from + |bytes| >= |file| {
        break;
      }
      var got: nat :| 1 <= got <= n && from + |bytes| + got <= |file|;
      bytes := bytes + file[from + |bytes|..from + |bytes| + got];
    }
  }

  /** The cutting as it goes. `pos` is where the file is read next, unless that was skipped. */
  datatype Cutter = Cutter(pieces: seq<Piece>, read: Bytes, offset: nat, pos: nat, isSkipped: bool, known: map<nat, Hash>)

  function AtMost(n: nat, limit: nat): (m: nat) {
    if n <= limit then n else limit
  }

  ghost predicate CutterOf(hash: Bytes -> Hash, file: Bytes, isNew: bool, c: Cutter) {
    && c.offset == PieceStart(c.pieces, |c.pieces|) && AllTrusted(hash, file, isNew, c.pieces)
    && (c.isSkipped ==> isNew)
    && (!c.isSkipped ==> AtMost(c.pos, |file|) == AtMost(c.offset, |file|))
    && (isNew ==> AllZero(c.read) && KnownRuns(hash, c.known, c.offset >= |file|))
    && (!isNew ==> c.pos <= |file| && c.read == file[..c.pos])
  }

  ghost predicate KnownRuns(hash: Bytes -> Hash, known: map<nat, Hash>, atEnd: bool) {
    forall n :: n in known ==> n > 0 && (known[n] == hash(Zeros(n)) || atEnd)
  }

  /** Takes the next piece from a file just created, whose runs of zeros may be known. */
  method SkipKnown(file: Bytes, hash: Bytes -> Hash, c: Cutter, size: nat) returns (c': Cutter)
    requires AllZero(file) && CutterOf(hash, file, true, c) && size in c.known
    ensures CutterOf(hash, file, true, c') && Advances(file, c.pieces, c.offset, size, c'.pieces, c'.offset)
  {
    var p := Piece(c.known[size], size);
    TrustKnown(hash, file, c.offset, p);
    TrustOneMore(hash, file, true, c.pieces, p);
    c' := c.(pieces := c.pieces + [p], offset := c.offset + size, isSkipped := true);
  }

  lemma TrustKnown(hash: Bytes -> Hash, file: Bytes, offset: nat, p: Piece)
    requires AllZero(file) && (p.hash == hash(Zeros(p.length)) || offset >= |file|) && p.length > 0
    ensures Trusted(hash, file, true, offset, p)
  {
    if offset + p.length <= |file| {
      ZeroSlice(file, offset, offset + p.length);
    }
  }

  lemma TrustRead(hash: Bytes -> Hash, file: Bytes, isNew: bool, offset: nat, pos: nat, size: nat)
    requires AtMost(pos, |file|) == AtMost(offset, |file|)
    requires Available(file, pos, size) != []
    ensures pos == offset && Trusted(hash, file, isNew, offset, Piece(hash(Available(file, pos, size)), size))
  {
  }

  lemma ZeroAvailable(file: Bytes, pos: nat, size: nat)
    requires AllZero(file)
    ensures AllZero(Available(file, pos, size))
  {
    if pos < |file| {
      ZeroSlice(file, pos, AtMost(pos + size, |file|));
      assert Available(file, pos, size) == file[pos..AtMost(pos + size, |file|)];
    } else {
      ZeroIf([]);
    }
  }

  lemma LearnRun(hash: Bytes -> Hash, file: Bytes, known: map<nat, Hash>, offset: nat, size: nat)
    requires AllZero(file) && KnownRuns(hash, known, offset >= |file|)
    requires Available(file, offset, size) != []
    ensures KnownRuns(hash, known[size := hash(Available(file, offset, size))], offset + size >= |file|)
  {
    ZeroAvailable(file, offset, size);
  }

  lemma ReadOn(file: Bytes, pos: nat, size: nat)
    requires pos <= |file|
    ensures file[..pos] + Available(file, pos, size) == file[..AtMost(pos + size, |file|)]
    ensures pos + |Available(file, pos, size)| == AtMost(pos + size, |file|)
  {
  }

  /** The cutter after some bytes were read at `pos`. */
  function Take(c: Cutter, isNew: bool, p: Piece, pos: nat, bytes: Bytes): (c': Cutter) {
    Cutter(c.pieces + [p], c.read + bytes, c.offset + p.length, pos + |bytes|, false,
           if isNew then c.known[p.length := p.hash] else c.known)
  }

  lemma TakeFromNew(hash: Bytes -> Hash, file: Bytes, c: Cutter, pos: nat, size: nat)
    requires CutterOf(hash, file, true, c) && AllZero(file) && pos == (if c.isSkipped then c.offset else c.pos)
    requires Available(file, pos, size) != []
    ensures var bytes := Available(file, pos, size); CutterOf(hash, file, true, Take(c, true, Piece(hash(bytes), size), pos, bytes))
  {
    TrustRead(hash, file, true, c.offset, pos, size);
    TrustOneMore(hash, file, true, c.pieces, Piece(hash(Available(file, pos, size)), size));
    LearnRun(hash, file, c.known, c.offset, size);
    ZeroAvailable(file, pos, size);
    ZeroJoin(c.read, Available(file, pos, size));
  }

  lemma TakeFromOld(hash: Bytes -> Hash, file: Bytes, c: Cutter, size: nat)
    requires CutterOf(hash, file, false, c) && Available(file, c.pos, size) != []
    ensures var bytes := Available(file, c.pos, size); CutterOf(hash, file, false, Take(c, false, Piece(hash(bytes), size), c.pos, bytes))
  {
    TrustRead(hash, file, false, c.offset, c.pos, size);
    TrustOneMore(hash, file, false, c.pieces, Piece(hash(Available(file, c.pos, size)), size));
    ReadOn(file, c.pos, size);
  }

  /** Reads the next piece. */
  method ReadNext(file: Bytes, isNew: bool, hash: Bytes -> Hash, c: Cutter, size: nat) returns (c': Cutter)
    requires CutterOf(hash, file, isNew, c) && (isNew ==> AllZero(file))
    ensures CutterOf(hash, file, isNew, c') && !c'.isSkipped && Advances(file, c.pieces, c.offset, size, c'.pieces, c'.offset)
    ensures !isNew ==> c'.pos == AtMost(c.pos + size, |file|)
  {
    var pos := if c.isSkipped then c.offset else c.pos;
    var bytes := ReadPiece(file, pos, size);
    if !isNew {
      ReadOn(file, pos, size);
    }
    if |bytes| == 0 {
      return c.(pos := pos, isSkipped := false);
    }
    if isNew {
      TakeFromNew(hash, file, c, pos, size);
    } else {
      TakeFromOld(hash, file, c, size);
    }
    c' := Take(c, isNew, Piece(hash(bytes), size), pos, bytes);
  }

  /** Cuts the existing file. In a file just created, hashes of runs of zeros are looked up instead of computed. */
  method CutExisting(file: Bytes, isNew: bool, chunks: seq<Bytes>, r: Range, hash: Bytes -> Hash)
    returns (pieces: seq<Piece>, read: Bytes)
    requires InChunks(chunks, r) && (isNew ==> AllZero(file))
    ensures AllTrusted(hash, file, isNew, pieces) && HasPieces(file, chunks, r, pieces, r.endChunk + 2)
    ensures isNew ==> AllZero(read)
    ensures !isNew ==> read == file[..AtMost(SizesUpTo(chunks, r, r.endChunk + 2), |file|)]
  {
    var c, i := Cutter([], [], 0, 0, false, map[]), r.startChunk;
    ZeroIf([]);
    while i <= r.endChunk + 1
      invariant r.startChunk <= i <= r.endChunk + 2 && CutterOf(hash, file, isNew, c) && HasPieces(file, chunks, r, c.pieces, i)
      invariant SizesUpTo(chunks, r, i) <= |file| ==> c.offset == SizesUpTo(chunks, r, i)
      invariant !isNew ==> c.pos == AtMost(SizesUpTo(chunks, r, i), |file|)
    {
      ghost var was := c;
      c := CutNext(file, isNew, hash, c, PieceSize(chunks, r, i));
      HasPiecesNext(file, chunks, r, was.pieces, i, was.offset, c.pieces, c.offset);
      i := i + 1;
    }
    return c.pieces, c.read;
  }

  method CutNext(file: Bytes, isNew: bool, hash: Bytes -> Hash, c: Cutter, size: nat) returns (c': Cutter)
    requires CutterOf(hash, file, isNew, c) && (isNew ==> AllZero(file))
    ensures CutterOf(hash, file, isNew, c') && Advances(file, c.pieces, c.offset, size, c'.pieces, c'.offset)
    ensures !isNew ==> c'.pos == AtMost(c.pos + size, |file|)
  {
    if isNew && size in c.known {
      c' := SkipKnown(file, hash, c, size);
    } else {
      c' := ReadNext(file, isNew, hash, c, size);
    }
  }

  // ---------- writing what differs ----------

  /** The file with its first `offset` bytes restored. */
  ghost predicate RestoredUpTo(was: Bytes, content: Bytes, offset: nat, data: Bytes) {
    offset <= |content| && data == content[..offset] + if offset <= |was| then was[offset..] else []
  }

  predicate HasPart(s: Bytes, offset: nat, part: Bytes) {
    offset + |part| <= |s| && s[offset..offset + |part|] == part
  }

  lemma KeepStep(was: Bytes, content: Bytes, offset: nat, data: Bytes, part: Bytes)
    requires RestoredUpTo(was, content, offset, data) && HasPart(content, offset, part) && HasPart(was, offset, part)
    ensures RestoredUpTo(was, content, offset + |part|, data)
  {
    var next := offset + |part|;
    assert content[..next] == content[..offset] + part && was[offset..] == part + was[next..];
  }

  lemma WriteStep(was: Bytes, content: Bytes, offset: nat, data: Bytes, part: Bytes)
    requires RestoredUpTo(was, content, offset, data) && HasPart(content, offset, part)
    ensures RestoredUpTo(was, content, offset + |part|, Written(data, offset, part))
  {
    var next := offset + |part|;
    assert content[..next] == content[..offset] + part && data[..offset] == content[..offset];
    if next <= |was| {
      assert data[next..] == was[next..];
    }
  }

  /** A piece with a chunk's hash and length, recorded where the chunk belongs, holds that chunk. */
  lemma MatchHolds(hash: Bytes -> Hash, was: Bytes, isNew: bool, size: nat, offset: nat, p: Piece, chunk: Bytes, end: nat)
    requires Injective(hash) && Trusted(hash, was, isNew, offset, p)
    requires p.hash == hash(chunk) && p.length == end <= |chunk| && offset + end <= size && (isNew ==> |was| == size)
    ensures HasPart(was, offset, chunk[..end])
  {
    if offset + end <= |was| {
      assert was[offset..offset + end] == chunk;
    }
  }

  /** What is left to restore from a chunk on. */
  ghost predicate Remaining(chunks: seq<Bytes>, r: Range, content: Bytes, offset: nat, i: nat)
    requires InChunks(chunks, r) && r.startChunk <= i <= r.endChunk + 1
  {
    offset <= |content| && content[offset..] == ContentFrom(chunks, r, i)
  }

  lemma NextSlice(chunks: seq<Bytes>, r: Range, content: Bytes, offset: nat, i: nat)
    requires InChunks(chunks, r) && r.startChunk <= i <= r.endChunk && Remaining(chunks, r, content, offset, i)
    ensures
      var part := Slice(chunks, r, i);
      HasPart(content, offset, part) && Remaining(chunks, r, content, offset + |part|, i + 1)
  {
    var part, rest := Slice(chunks, r, i), ContentFrom(chunks, r, i + 1);
    assert content[offset..] == part + rest;
    assert content[offset..offset + |part|] == content[offset..][..|part|];
    assert content[offset + |part|..] == content[offset..][|part|..];
  }

  lemma AllRestored(chunks: seq<Bytes>, r: Range, was: Bytes, content: Bytes, offset: nat, data: Bytes)
    requires InChunks(chunks, r) && Remaining(chunks, r, content, offset, r.endChunk + 1) && RestoredUpTo(was, content, offset, data)
    ensures Resized(data, offset) == content
  {
    assert offset == |content|;
  }

  /** Whether the `j`th piece can stand for a chunk. */
  predicate PieceMatches(pieces: seq<Piece>, j: nat, existingOffset: nat, offset: nat, start: nat, end: nat, hash: Hash) {
    existingOffset == offset && start == 0 && j < |pieces| && end == pieces[j].length && pieces[j].hash == hash
  }

  /** The file holds a chunk, all of which belongs to the range, at the place it has in the content. */
  ghost predicate IsHeld(was: Bytes, chunks: seq<Bytes>, r: Range, i: nat)
    requires InChunks(chunks, r) && r.startChunk <= i <= r.endChunk
  {
    && chunks[i] != [] && (i == r.startChunk ==> r.startOffset == 0) && (i == r.endChunk ==> r.endOffset == |chunks[i]|)
    && var at := Offset(chunks, i) - Offset(chunks, r.startChunk) - r.startOffset;
       0 <= at && at + |chunks[i]| <= |was| && was[at..at + |chunks[i]|] == chunks[i]
  }

  /** Pieces are measured from the start of the content. */
  lemma {:induction false} SizesAreOffsets(chunks: seq<Bytes>, r: Range, i: nat)
    requires InChunks(chunks, r) && r.startChunk < i <= r.endChunk
    ensures SizesUpTo(chunks, r, i) == Offset(chunks, i) - Offset(chunks, r.startChunk) - r.startOffset
  {
    OffsetNext(chunks, i - 1);
    if i - 1 > r.startChunk {
      SizesAreOffsets(chunks, r, i - 1);
    } else {
      assert SizesUpTo(chunks, r, i - 1) == 0;
    }
  }

  /** Where the part of a chunk is put is where it lies in the content. */
  lemma PartLies(chunks: seq<Bytes>, r: Range, content: Bytes, offset: nat, i: nat)
    requires InChunks(chunks, r) && r.startChunk <= i <= r.endChunk && content == Content(chunks, r)
    requires Remaining(chunks, r, content, offset, i)
    ensures offset == SizesUpTo(chunks, r, i)
    ensures i == r.startChunk ==> offset == 0
    ensures i > r.startChunk || r.startOffset == 0 ==> offset == Offset(chunks, i) - Offset(chunks, r.startChunk) - r.startOffset
  {
    PiecesCoverContent(chunks, r, i);
    if i > r.startChunk {
      SizesAreOffsets(chunks, r, i);
    }
  }

  /** The piece looked at is the one recorded at an offset, if there is one. */
  ghost predicate IsLookedAt(pieces: seq<Piece>, j: nat, offset: nat)
    requires j <= |pieces|
  {
    (j > 0 ==> PieceStart(pieces, j - 1) < offset) && (j == |pieces| || PieceStart(pieces, j) >= offset)
  }

  lemma {:induction false} StartsIncrease(pieces: seq<Piece>, i: nat, j: nat)
    requires AllLong(pieces) && i < j <= |pieces|
    ensures PieceStart(pieces, i) < PieceStart(pieces, j)
  {
    if i < j - 1 {
      StartsIncrease(pieces, i, j - 1);
    }
  }

  lemma OnlyLookedAt(pieces: seq<Piece>, j: nat, offset: nat, t: nat)
    requires AllLong(pieces) && j <= |pieces| && IsLookedAt(pieces, j, offset) && t < |pieces| && PieceStart(pieces, t) == offset
    ensures j == t
  {
    if j < t {
      StartsIncrease(pieces, j, t);
    } else if t < j - 1 {
      StartsIncrease(pieces, t, j - 1);
    }
  }

  lemma FoundPiece(pieces: seq<Piece>, j: nat, offset: nat, length: nat)
    requires AllLong(pieces) && j <= |pieces| && IsLookedAt(pieces, j, offset) && HasPiece(pieces, offset, length)
    ensures j < |pieces| && PieceStart(pieces, j) == offset && pieces[j].length == length
  {
    var t :| 0 <= t < |pieces| && PieceStart(pieces, t) == offset && pieces[t].length == length;
    OnlyLookedAt(pieces, j, offset, t);
  }

  /** A held chunk is found among the pieces. */
  lemma HeldMatches(hash: Bytes -> Hash, was: Bytes, isNew: bool, chunks: seq<Bytes>, r: Range, content: Bytes, pieces: seq<Piece>,
                    j: nat, offset: nat, i: nat)
    requires InChunks(chunks, r) && r.startChunk <= i <= r.endChunk && content == Content(chunks, r)
    requires AllTrusted(hash, was, isNew, pieces) && HasPieces(was, chunks, r, pieces, r.endChunk + 2)
    requires j <= |pieces| && IsLookedAt(pieces, j, offset) && Remaining(chunks, r, content, offset, i)
    requires IsHeld(was, chunks, r, i)
    ensures PieceMatches(pieces, j, PieceStart(pieces, j), offset, 0, |chunks[i]|, hash(chunks[i]))
  {
    PartLies(chunks, r, content, offset, i);
    assert PieceSize(chunks, r, i) == |chunks[i]| && HasPieceOf(was, chunks, r, pieces, i);
    FoundPiece(pieces, j, offset, |chunks[i]|);
    assert TrustedAt(hash, was, isNew, pieces, j);
  }

  /** Only a held chunk is found among the pieces. */
  lemma MatchIsHeld(hash: Bytes -> Hash, was: Bytes, isNew: bool, chunks: seq<Bytes>, r: Range, content: Bytes, pieces: seq<Piece>,
                    j: nat, offset: nat, i: nat, start: nat, end: nat)
    requires InChunks(chunks, r) && r.startChunk <= i <= r.endChunk && content == Content(chunks, r) && Injective(hash)
    requires AllTrusted(hash, was, isNew, pieces) && AllLong(pieces) && (isNew ==> |was| == |content|) && j <= |pieces|
    requires Remaining(chunks, r, content, offset, i) && start <= end <= |chunks[i]| && HasPart(content, offset, chunks[i][start..end])
    requires start == if i == r.startChunk then r.startOffset else 0
    requires end == if i == r.endChunk then r.endOffset else |chunks[i]|
    requires PieceMatches(pieces, j, PieceStart(pieces, j), offset, start, end, hash(chunks[i]))
    ensures IsHeld(was, chunks, r, i)
  {
    PartLies(chunks, r, content, offset, i);
    assert TrustedAt(hash, was, isNew, pieces, j);
    assert offset + end <= |was| ==> was[offset..offset + end] == chunks[i];
  }

  /** A chunk is found among the pieces exactly when the file holds it. */
  lemma MatchesIfHeld(hash: Bytes -> Hash, was: Bytes, isNew: bool, chunks: seq<Bytes>, r: Range, content: Bytes, pieces: seq<Piece>,
                      j: nat, offset: nat, i: nat, start: nat, end: nat)
    requires InChunks(chunks, r) && r.startChunk <= i <= r.endChunk && content == Content(chunks, r) && Injective(hash)
    requires AllTrusted(hash, was, isNew, pieces) && HasPieces(was, chunks, r, pieces, r.endChunk + 2) && (isNew ==> |was| == |content|)
    requires j <= |pieces| && IsLookedAt(pieces, j, offset) && Remaining(chunks, r, content, offset, i)
    requires start == if i == r.startChunk then r.startOffset else 0
    requires end == if i == r.endChunk then r.endOffset else |chunks[i]|
    ensures PieceMatches(pieces, j, PieceStart(pieces, j), offset, start, end, hash(chunks[i])) <==> IsHeld(was, chunks, r, i)
  {
    NextSlice(chunks, r, content, offset, i);
    SliceBounds(chunks, r, i, start, end);
    if IsHeld(was, chunks, r, i) {
      HeldMatches(hash, was, isNew, chunks, r, content, pieces, j, offset, i);
    } else if PieceMatches(pieces, j, PieceStart(pieces, j), offset, start, end, hash(chunks[i])) {
      MatchIsHeld(hash, was, isNew, chunks, r, content, pieces, j, offset, i, start, end);
    }
  }

  /** Keeps or writes the part of one chunk. */
  method PutChunk(file: LocalFile, pieces: seq<Piece>, j: nat, existingOffset: nat, offset: nat, chunk: Bytes, start: nat, end: nat,
                  hash: Bytes -> Hash, isBroken: bool, ghost was: Bytes, ghost content: Bytes, ghost isNew: bool) returns (ok: bool)
    requires start <= end <= |chunk| && HasPart(content, offset, chunk[start..end]) && RestoredUpTo(was, content, offset, file.data)
    requires j <= |pieces| && existingOffset == PieceStart(pieces, j)
    requires Injective(hash) && AllTrusted(hash, was, isNew, pieces) && (isNew ==> |was| == |content|)
    modifies file
    ensures ok ==> RestoredUpTo(was, content, offset + |chunk[start..end]|, file.data)
    ensures ok <==> !isBroken || PieceMatches(pieces, j, existingOffset, offset, start, end, hash(chunk))
  {
    ghost var part := chunk[start..end];
    if PieceMatches(pieces, j, existingOffset, offset, start, end, hash(chunk)) {
      assert TrustedAt(hash, was, isNew, pieces, j);
      MatchHolds(hash, was, isNew, |content|, offset, pieces[j], chunk, end);
      assert part == chunk[..end];
      KeepStep(was, content, offset, file.data, part);
      return true;
    }
    if isBroken {
      return false;
    }
    WriteStep(was, content, offset, file.data, part);
    file.WriteAt(offset, chunk[start..end]);
    ok := true;
  }

  /** Passes over pieces that end before an offset. */
  method SkipPieces(pieces: seq<Piece>, j: nat, existingOffset: nat, offset: nat) returns (j': nat, existingOffset': nat)
    requires j <= |pieces| && existingOffset == PieceStart(pieces, j) && (j > 0 ==> PieceStart(pieces, j - 1) < offset)
    ensures j <= j' <= |pieces| && existingOffset' == PieceStart(pieces, j') && IsLookedAt(pieces, j', offset)
  {
    j', existingOffset' := j, existingOffset;
    while existingOffset' < offset && j' < |pieces|
      invariant j <= j' <= |pieces| && existingOffset' == PieceStart(pieces, j') && (j' > 0 ==> PieceStart(pieces, j' - 1) < offset)
    {
      existingOffset' := existingOffset' + pieces[j'].length;
      j' := j' + 1;
    }
  }

  lemma SliceBounds(chunks: seq<Bytes>, r: Range, i: nat, start: nat, end: nat)
    requires InChunks(chunks, r) && r.startChunk <= i <= r.endChunk
    requires start == if i == r.startChunk then r.startOffset else 0
    requires end == if i == r.endChunk then r.endOffset else |chunks[i]|
    ensures start <= end <= |chunks[i]| && Slice(chunks, r, i) == chunks[i][start..end]
    ensures |Slice(chunks, r, i)| == end - start
  {
  }

  /** Keeps or writes the part of the next chunk; this fails exactly when the chunk is broken and not held by the file. */
  method UpdateOne(file: LocalFile, pieces: seq<Piece>, chunks: seq<Bytes>, r: Range, hash: Bytes -> Hash, isBroken: bool, i: nat,
                   j: nat, existingOffset: nat, offset: nat, ghost was: Bytes, ghost content: Bytes, ghost isNew: bool)
    returns (ok: bool, j': nat, existingOffset': nat, offset': nat)
    requires InChunks(chunks, r) && Injective(hash) && r.startChunk <= i <= r.endChunk && content == Content(chunks, r)
    requires AllTrusted(hash, was, isNew, pieces) && HasPieces(was, chunks, r, pieces, r.endChunk + 2) && (isNew ==> |was| == |content|)
    requires j <= |pieces| && existingOffset == PieceStart(pieces, j) && (j > 0 ==> PieceStart(pieces, j - 1) < offset)
    requires RestoredUpTo(was, content, offset, file.data) && Remaining(chunks, r, content, offset, i)
    modifies file
    ensures j' <= |pieces| && existingOffset' == PieceStart(pieces, j') && offset <= offset'
    ensures j' > 0 ==> PieceStart(pieces, j' - 1) < offset
    ensures ok ==> RestoredUpTo(was, content, offset', file.data) && Remaining(chunks, r, content, offset', i + 1)
    ensures ok <==> !isBroken || IsHeld(was, chunks, r, i)
  {
    j', existingOffset' := SkipPieces(pieces, j, existingOffset, offset);
    var start := if i == r.startChunk then r.startOffset else 0;
    var end := if i == r.endChunk then r.endOffset else |chunks[i]|;
    NextSlice(chunks, r, content, offset, i);
    SliceBounds(chunks, r, i, start, end);
    MatchesIfHeld(hash, was, isNew, chunks, r, content, pieces, j', offset, i, start, end);
    ok := PutChunk(file, pieces, j', existingOffset', offset, chunks[i], start, end, hash, isBroken, was, content, isNew);
    offset' := offset + (end - start);
  }

  /** A chunk that has to be written is broken. */
  ghost predicate IsMissing(was: Bytes, chunks: seq<Bytes>, r: Range, broken: set<nat>, upTo: nat)
    requires InChunks(chunks, r) && upTo <= r.endChunk + 1
  {
    exists i :: r.startChunk <= i < upTo && i in broken && !IsHeld(was, chunks, r, i)
  }

  method Update(file: LocalFile, pieces: seq<Piece>, chunks: seq<Bytes>, r: Range, hash: Bytes -> Hash, broken: set<nat>,
                ghost was: Bytes, ghost content: Bytes, ghost isNew: bool) returns (ok: bool)
    requires InChunks(chunks, r) && Injective(hash) && file.data == was && content == Content(chunks, r)
    requires AllTrusted(hash, was, isNew, pieces) && HasPieces(was, chunks, r, pieces, r.endChunk + 2) && (isNew ==> |was| == |content|)
    modifies file
    ensures ok ==> file.data == content
    ensures !ok <==> IsMissing(was, chunks, r, broken, r.endChunk + 1)
  {
    NothingRestored(chunks, r, was);
    var j: nat, offset: nat, existingOffset: nat, i: nat := 0, 0, 0, r.startChunk;
    while i <= r.endChunk
      invariant r.startChunk <= i <= r.endChunk + 1 && !IsMissing(was, chunks, r, broken, i)
      invariant j <= |pieces| && existingOffset == PieceStart(pieces, j) && (j > 0 ==> PieceStart(pieces, j - 1) < offset)
      invariant RestoredUpTo(was, content, offset, file.data)
      invariant Remaining(chunks, r, content, offset, i)
    {
      ok, j, existingOffset, offset :=
        UpdateOne(file, pieces, chunks, r, hash, i in broken, i, j, existingOffset, offset, was, content, isNew);
      if !ok {
        return;
      }
      i := i + 1;
    }
    AllRestored(chunks, r, was, content, offset, file.data);
    file.Truncate(offset);
    ok := true;
  }

  lemma NothingRestored(chunks: seq<Bytes>, r: Range, was: Bytes)
    requires InChunks(chunks, r)
    ensures RestoredUpTo(was, Content(chunks, r), 0, was) && Remaining(chunks, r, Content(chunks, r), 0, r.startChunk)
  {
    assert was[0..] == was && Content(chunks, r)[0..] == Content(chunks, r);
  }

  // ---------- the whole restore ----------

  datatype Outcome = Restored | Unchanged | Exists | Corrupted

  const SPARSE_THRESHOLD := 100 * 1024 * 1024

  lemma {:induction false} PiecesCoverContent(chunks: seq<Bytes>, r: Range, i: nat)
    requires InChunks(chunks, r) && r.startChunk <= i <= r.endChunk
    ensures SizesUpTo(chunks, r, i) + |ContentFrom(chunks, r, i)| == |Content(chunks, r)|
  {
    if i > r.startChunk {
      PiecesCoverContent(chunks, r, i - 1);
    }
  }

  /** The pieces run at least one byte past the content. */
  lemma PiecesPassContent(chunks: seq<Bytes>, r: Range)
    requires InChunks(chunks, r)
    ensures SizesUpTo(chunks, r, r.endChunk + 2) > |Content(chunks, r)|
  {
    PiecesCoverContent(chunks, r, r.endChunk);
    assert SizesUpTo(chunks, r, r.endChunk + 2) == SizesUpTo(chunks, r, r.endChunk) + PieceSize(chunks, r, r.endChunk) + PieceSize(chunks, r, r.endChunk + 1);
    assert ContentFrom(chunks, r, r.endChunk + 1) == [];
  }

  /** Writing zeros at the end of an empty file makes a file of zeros. */
  lemma SparseFile(size: nat, n: nat)
    requires n <= size
    ensures Written([], size - n, Zeros(n)) == Zeros(size) && AllZero(Zeros(size))
  {
    ZeroJoin(Zeros(size - n), Zeros(n));
    assert [] + Zeros(size - n) == Zeros(size - n);
    assert size == n ==> [] + Zeros(n) + [] == Zeros(n);
  }

  /** A file shorter than what is looked at is read whole. */
  lemma ReadWhole(file: Bytes, n: nat)
    requires |file| <= n
    ensures file[..AtMost(n, |file|)] == file
  {
  }

  /** Restores a range of chunks into a file. `present` tells whether there was a file; `sparseFiles` whether the platform
      has files with holes. */
  method RestoreFile(file: LocalFile, present: bool, chunks: seq<Bytes>, r: Range, hash: Bytes -> Hash, fileHash: Bytes -> Hash,
                     entryHash: Hash, overwrite: bool, sparseFiles: bool, broken: set<nat>) returns (o: Outcome)
    requires InChunks(chunks, r) && Injective(hash) && Injective(fileHash) && (!present ==> file.data == [])
    requires entryHash == fileHash(Content(chunks, r)) && entryHash != ""
    modifies file
    ensures o.Restored? || o.Unchanged? ==> file.data == Content(chunks, r)
    ensures present ==> (o.Unchanged? <==> old(file.data) == Content(chunks, r))
    ensures o.Unchanged? && present ==> file.data == old(file.data)
    ensures o.Exists? <==> present && !overwrite && old(file.data) != Content(chunks, r)
    ensures o.Exists? ==> file.data == old(file.data)
    ensures
      var was := if !present && sparseFiles && |Content(chunks, r)| > 104857600 then Zeros(|Content(chunks, r)|) else old(file.data);
      o.Corrupted? <==> !o.Unchanged? && !o.Exists? && IsMissing(was, chunks, r, broken, r.endChunk + 1)
  {
    ghost var content := Content(chunks, r);
    var pieces: seq<Piece> := [];
    var size := ContentSize(chunks, r);
    var isNew := !present && size > SPARSE_THRESHOLD && sparseFiles;
    if isNew {
      var n := if size % 0x1_0000_0000 == 0 then 2 else 1;
      file.WriteAt(size - n, Zeros(n));
      SparseFile(size, n);
    }
    if present || isNew {
      var read;
      pieces, read := CutExisting(file.data, isNew, chunks, r, hash);
      PiecesPassContent(chunks, r);
      if file.data == content {
        ReadWhole(file.data, SizesUpTo(chunks, r, r.endChunk + 2));
      }
      if fileHash(read) == entryHash {
        assert read == content;
        return Unchanged;
      }
      if !overwrite && !isNew {
        return Exists;
      }
    }
    var ok := Update(file, pieces, chunks, r, hash, broken, file.data, content, isNew);
    o := if ok then Restored else Corrupted;
  }

  /** The size of a file as its entry states it. */
  function ContentSize(chunks: seq<Bytes>, r: Range): (n: nat)
    requires InChunks(chunks, r)
    ensures n == |Content(chunks, r)|
  {
    ContentIsSlice(chunks, r);
    Entries.Last(chunks, r) - First(chunks, r)
  }
}
