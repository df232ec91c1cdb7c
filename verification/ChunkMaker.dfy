/**
 The chunk maker: a ring buffer of twice the minimum chunk size, filled by reads of any length from one file
 after another, and a hash rolled over it.

 The class is proved to send exactly the pure split of everything it has read, however the data are divided
 into files and however the reader divides them into reads.
 */
module ChunkMaker {
  import opened ByteStreams
  import opened Buzhash
  import opened Splitting

  datatype Outcome = More | EndOfFile | Failed

  /** A file being read. Each read may return any number of the bytes asked for, use the rest of the space
      it was given as scratch, report the end together with the last bytes or later, stall a bounded number
      of times, or, if the file is faulty, fail. */
  class Reader {
    const faulty: bool
    var remaining: seq<byte>
    var stalls: nat

    constructor (data: seq<byte>, stalls: nat, faulty: bool)
      ensures remaining == data && this.stalls == stalls && this.faulty == faulty
    {
      remaining, this.stalls, this.faulty := data, stalls, faulty;
    }

    ghost function Budget(): (n: nat)
      reads this
    {
      |remaining| + stalls
    }

    method Read(buffer: array<byte>, start: nat, count: nat) returns (n: nat, outcome: Outcome)
      requires start + count <= buffer.Length
      modifies this, buffer
      ensures n <= count && n <= |old(remaining)|
      ensures buffer[start..start + n] == old(remaining)[..n]
      ensures remaining == old(remaining)[n..]
      ensures forall k :: 0 <= k < buffer.Length && !(start <= k < start + count) ==> buffer[k] == old(buffer[k])
      ensures outcome == More && count > 0 ==> Budget() < old(Budget())
      ensures Budget() <= old(Budget())
      ensures outcome == EndOfFile ==> remaining == []
      ensures outcome == Failed ==> faulty
    {
      var data := remaining;
      var m: nat :| m <= count && m <= |data|;
      if m == 0 && stalls == 0 && count > 0 && data != [] {
        m := 1;
      }
      var junk: byte :| true;
      forall k | 0 <= k < count {
        buffer[start + k] := if k < m then data[k] else junk;
      }
      assert buffer[start..start + m] == data[..m];
      n := m;
      remaining := data[m..];
      var failed: bool :| true;
      var announced: bool :| true;
      if failed && faulty {
        outcome := Failed;
      } else if remaining == [] && (announced || (m == 0 && stalls == 0)) {
        outcome := EndOfFile;
      } else {
        outcome := More;
        if m == 0 && stalls > 0 {
          stalls := stalls - 1;
        }
      }
    }
  }

  // ---------- rings ----------

  /** The `size` bytes of a ring that begin at `start`. */
  function Ring(a: seq<byte>, start: nat, size: nat): (s: seq<byte>)
    requires start < |a| && size <= |a|
    ensures |s| == size
  {
    seq(size, k requires 0 <= k < size => a[Wrap(|a|, start + k)])
  }

  function Wrap(capacity: nat, i: nat): (r: nat)
    requires i < 2 * capacity
    ensures r < capacity
  {
    if i >= capacity then i - capacity else i
  }

  lemma RingAt(a: seq<byte>, start: nat, size: nat, k: nat)
    requires start < |a| && k < size <= |a|
    ensures Ring(a, start, size)[k] == a[Wrap(|a|, start + k)]
  {
  }

  /** A ring is one slice, or two when it wraps around. */
  lemma RingSlices(a: seq<byte>, start: nat, size: nat)
    requires start < |a| && size <= |a|
    ensures Ring(a, start, size) ==
      if start + size < |a| then a[start..start + size] else a[start..] + a[..size - (|a| - start)]
  {
    var slices := if start + size < |a| then a[start..start + size] else a[start..] + a[..size - (|a| - start)];
    assert |slices| == size;
    forall k | 0 <= k < size ensures Ring(a, start, size)[k] == slices[k] {
      RingAt(a, start, size, k);
    }
  }

  lemma RingTakes(a: seq<byte>, start: nat, size: nat, count: nat)
    requires start < |a| && count <= size <= |a|
    ensures Ring(a, start, size) == Ring(a, start, count) + Ring(a, Wrap(|a|, start + count), size - count)
  {
    var mid := Wrap(|a|, start + count);
    var left, right := Ring(a, start, count), Ring(a, mid, size - count);
    forall k | 0 <= k < size ensures Ring(a, start, size)[k] == (left + right)[k] {
      RingAt(a, start, size, k);
      if k < count {
        RingAt(a, start, count, k);
      } else {
        RingAt(a, mid, size - count, k - count);
      }
    }
  }

  /** Moving the first bytes of a ring behind `chunk` keeps the bytes and their order. */
  lemma RingMoves(a: seq<byte>, start: nat, size: nat, count: nat, chunk: seq<byte>)
    requires start < |a| && count <= size <= |a|
    ensures var all, taken, left := Ring(a, start, size), Ring(a, start, count), Ring(a, Wrap(|a|, start + count), size - count);
      all[..count] == taken && all[count..] == left && (chunk + taken) + left == chunk + all
  {
    RingTakes(a, start, size, count);
    var all, taken, left := Ring(a, start, size), Ring(a, start, count), Ring(a, Wrap(|a|, start + count), size - count);
    assert (chunk + taken) + left == chunk + (taken + left);
  }

  /** Writing behind the last byte of a ring, without wrapping, appends to it. */
  lemma RingGrows(a: seq<byte>, a': seq<byte>, start: nat, size: nat, data: seq<byte>)
    requires start < |a| == |a'| && size + |data| <= |a|
    requires var w := Wrap(|a|, start + size); w + |data| <= |a| && a'[w..w + |data|] == data
    requires Ring(a', start, size) == Ring(a, start, size)
    ensures Ring(a', start, size + |data|) == Ring(a, start, size) + data
  {
    RingTakes(a', start, size + |data|, size);
    var w := Wrap(|a|, start + size);
    RingSlices(a', w, |data|);
    assert Ring(a', w, |data|) == data;
  }

  /** A ring only depends on the places it occupies. */
  lemma RingUnchanged(a: seq<byte>, a': seq<byte>, start: nat, size: nat, w: nat, count: nat)
    requires start < |a| == |a'| && size < |a| && w == Wrap(|a|, start + size)
    requires if start + size < |a| then w + count == |a| else w + count == start
    requires forall k :: 0 <= k < |a| && !(w <= k < w + count) ==> a'[k] == a[k]
    ensures Ring(a', start, size) == Ring(a, start, size)
  {
    forall k | 0 <= k < size ensures Ring(a', start, size)[k] == Ring(a, start, size)[k] {
      RingAt(a, start, size, k);
      RingAt(a', start, size, k);
    }
  }

  class Maker {
    const p: Params
    const buffer: array<byte>
    var bufferStart: nat
    var bufferSize: nat
    var minimumReached: bool
    var hashSum: Word
    var chunk: seq<byte>
    var sent: seq<seq<byte>>
    ghost var stream: seq<byte>

    ghost predicate InBounds()
      reads this
    {
      && ValidParams(p) && buffer.Length == 2 * p.min
      && bufferStart < buffer.Length && bufferSize <= buffer.Length
    }

    /** The bytes in the ring buffer, oldest first. */
    ghost function Buffered(): (s: seq<byte>)
      requires InBounds()
      reads this, buffer
      ensures |s| == bufferSize
    {
      Ring(buffer[..], bufferStart, bufferSize)
    }

    /** The bytes read but not yet sent. */
    ghost function Pending(): (s: seq<byte>)
      requires InBounds()
      reads this, buffer
    {
      chunk + Buffered()
    }

    /** Every position up to `|chunk| + n` of what is pending has been tested, and none was a place to cut. */
    ghost predicate Tested(n: nat)
      requires InBounds()
      reads this, buffer
    {
      NoCutUpTo(p, Pending(), |chunk| + n)
    }

    ghost predicate Valid()
      reads this, buffer
    {
      && InBounds()
      && Settled(p, stream, sent, Pending())
      && (!minimumReached ==> chunk == [])
      && (minimumReached ==>
            && bufferSize >= p.min && |chunk| + p.min < p.max
            && hashSum == Sum(p.table, Buffered()[..p.min])
            && Tested(p.min))
    }

    constructor (p: Params)
      requires ValidParams(p)
      ensures Valid() && this.p == p && stream == [] && sent == [] && chunk == [] && fresh(buffer)
    {
      this.p := p;
      buffer := new byte[2 * p.min](i => 0);
      bufferStart, bufferSize := 0, 0;
      minimumReached, hashSum, chunk := false, ZERO, [];
      sent, stream := [], [];
    }

    /** Moves `count` bytes from the buffer to the chunk. */
    method Fill(count: nat)
      requires InBounds() && count <= bufferSize
      modifies this`bufferStart, this`bufferSize, this`chunk
      ensures InBounds() && bufferSize == old(bufferSize) - count
      ensures chunk == old(chunk) + old(Buffered())[..count]
      ensures Buffered() == old(Buffered())[count..]
      ensures Pending() == old(Pending())
    {
      var ring, wasStart := buffer[..], bufferStart;
      if bufferStart + count < buffer.Length {
        chunk := chunk + ring[bufferStart..bufferStart + count];
        bufferStart := bufferStart + count;
      } else {
        chunk := chunk + (ring[bufferStart..] + ring[..count - (buffer.Length - bufferStart)]);
        bufferStart := count - (buffer.Length - bufferStart);
      }
      bufferSize := bufferSize - count;
      RingSlices(ring, wasStart, count);
      RingMoves(ring, wasStart, bufferSize + count, count, old(chunk));
      assert bufferStart == Wrap(|ring|, wasStart + count);
    }

    /** One read into the free part of the buffer that follows the last byte. */
    method ReadOnce(reader: Reader) returns (outcome: Outcome, data: seq<byte>)
      requires InBounds() && bufferSize < buffer.Length
      modifies this`bufferSize, buffer, reader
      ensures InBounds()
      ensures data <= old(reader.remaining) && reader.remaining == old(reader.remaining)[|data|..]
      ensures outcome != Failed ==> Buffered() == old(Buffered()) + data
      ensures outcome == Failed ==> Buffered() == old(Buffered())
      ensures outcome == More ==> reader.Budget() < old(reader.Budget())
      ensures reader.Budget() <= old(reader.Budget())
      ensures outcome == EndOfFile ==> reader.remaining == []
      ensures outcome == Failed ==> reader.faulty
    {
      var start := bufferStart + bufferSize;
      var count := buffer.Length - start;
      if start >= buffer.Length {
        start := start - buffer.Length;
        count := bufferStart - start;
      }
      ghost var before, size := buffer[..], bufferSize;
      var n;
      n, outcome := reader.Read(buffer, start, count);
      data := buffer[start..start + n];
      ghost var after := buffer[..];
      assert after[start..start + n] == data;
      RingUnchanged(before, after, bufferStart, size, start, count);
      if outcome != Failed {
        bufferSize := bufferSize + n;
        RingGrows(before, after, bufferStart, size, data);
      }
    }

    /** Reads until the buffer is full or the file ends. */
    method Refill(reader: Reader) returns (ok: bool, isEOF: bool, data: seq<byte>)
      requires InBounds()
      modifies this`bufferSize, buffer, reader
      ensures InBounds()
      ensures Buffered() == old(Buffered()) + data
      ensures data <= old(reader.remaining)
      ensures ok ==> old(reader.remaining) == data + reader.remaining
      ensures ok ==> isEOF || bufferSize == buffer.Length
      ensures isEOF ==> ok && reader.remaining == []
      ensures !ok ==> reader.faulty
      ensures reader.Budget() <= old(reader.Budget())
      ensures ok && !isEOF && old(bufferSize) < buffer.Length ==> reader.Budget() < old(reader.Budget())
    {
      ghost var buffered, file, budget, size := Buffered(), reader.remaining, reader.Budget(), bufferSize;
      ok, isEOF, data := true, false, [];
      while bufferSize < buffer.Length && !isEOF
        invariant InBounds()
        invariant Buffered() == buffered + data && file == data + reader.remaining
        invariant isEOF ==> reader.remaining == []
        invariant reader.Budget() <= budget
        invariant bufferSize == size || isEOF || reader.Budget() < budget
        decreases !isEOF, reader.Budget()
      {
        ghost var left := reader.remaining;
        var outcome, more := ReadOnce(reader);
        if outcome == Failed {
          ok := false;
          return;
        }
        assert left == more + reader.remaining;
        assert data + left == (data + more) + reader.remaining;
        assert buffered + (data + more) == (buffered + data) + more;
        data := data + more;
        if outcome == EndOfFile {
          isEOF := true;
        }
      }
    }

    /** Hashes the first `min` bytes of the buffer. */
    method HashWindow()
      requires InBounds() && bufferSize >= p.min
      modifies this`hashSum
      ensures hashSum == Sum(p.table, Buffered()[..p.min])
    {
      var bytes, ring := p.min, buffer[..];
      RingMoves(ring, bufferStart, bufferSize, bytes, []);
      RingSum(p.table, ring, bufferStart, bytes);
      if bufferStart + bytes < buffer.Length {
        hashSum := BuzhashSum(p.table, ZERO, ring[bufferStart..bufferStart + bytes]);
      } else {
        hashSum := BuzhashSum(p.table, ZERO, ring[bufferStart..]);
        hashSum := BuzhashSum(p.table, hashSum, ring[..bytes - (buffer.Length - bufferStart)]);
      }
    }

    /** Rolls the hash over the buffered bytes until it finds a place to cut or runs out of bytes. */
    method Roll() returns (bytes: nat, isEOC: bool, ghost cut: nat)
      requires InBounds() && bufferSize >= p.min && |chunk| + p.min < p.max
      requires hashSum == Sum(p.table, Buffered()[..p.min]) && Tested(p.min)
      modifies this`hashSum
      ensures isEOC ==> p.min < bytes <= bufferSize && cut == |chunk| + bytes && IsFirstCut(p, Pending(), cut)
      ensures !isEOC ==> |chunk| + bufferSize < p.max && HasNoCut(p, Pending())
      ensures !isEOC ==> hashSum == Sum(p.table, Buffered()[bufferSize - p.min..])
    {
      ghost var all, buffered, length := Pending(), Buffered(), |chunk|;
      bytes, isEOC, hashSum, cut := RollOver(p, buffer[..], bufferStart, bufferSize, chunk, hashSum, all);
      assert Pending() == all && Buffered() == buffered;
      if !isEOC {
        assert all[cut - p.min..cut] == buffered[|buffered| - p.min..];
      }
    }

    /** Hands the finished chunk on and starts a new one. */
    method SendChunk()
      modifies this`sent, this`hashSum, this`minimumReached, this`chunk
      ensures sent == old(sent) + [old(chunk)]
      ensures !minimumReached && chunk == []
    {
      sent := sent + [chunk];
      hashSum, minimumReached, chunk := ZERO, false, [];
    }

    /** Reads more of the file, if there is room and more to read. */
    method ReadMore(reader: Reader) returns (ok: bool, isEOF: bool, data: seq<byte>)
      requires Valid()
      modifies this`bufferSize, this`stream, buffer, reader
      ensures Valid() && stream == old(stream) + data && bufferSize >= old(bufferSize)
      ensures data <= old(reader.remaining)
      ensures ok ==> old(reader.remaining) == data + reader.remaining
      ensures ok ==> isEOF || bufferSize == buffer.Length
      ensures isEOF ==> ok && reader.remaining == []
      ensures !ok ==> reader.faulty
      ensures reader.Budget() <= old(reader.Budget())
      ensures ok && !isEOF && old(bufferSize) < buffer.Length ==> reader.Budget() < old(reader.Budget())
    {
      ghost var before := Buffered();
      ok, isEOF, data := Refill(reader);
      StreamGrows(p, stream, sent, chunk, before, data);
      stream := stream + data;
    }

    /** Completes the chunk with `bytes` more bytes and sends it. */
    method FinishChunk(bytes: nat, ghost cut: nat)
      requires InBounds() && bytes <= bufferSize && cut == |chunk| + bytes
      requires Settled(p, stream, sent, Pending()) && IsFirstCut(p, Pending(), cut)
      modifies this`sent, this`hashSum, this`minimumReached, this`chunk, this`bufferStart, this`bufferSize
      ensures Valid() && !minimumReached && bufferSize == old(bufferSize) - bytes
    {
      ghost var all := Pending();
      SettledCuts(p, stream, sent, all, cut);
      Fill(bytes);
      assert chunk == all[..cut] && Buffered() == all[cut..];
      SendChunk();
      assert Pending() == all[cut..];
    }

    /** Hashes the first `min` bytes and says whether they are a chunk. */
    method HashMinimum() returns (isEOC: bool)
      requires InBounds() && chunk == [] && bufferSize >= p.min
      modifies this`hashSum
      ensures hashSum == Sum(p.table, Buffered()[..p.min])
      ensures isEOC ==> IsFirstCut(p, Pending(), p.min)
      ensures !isEOC ==> Tested(p.min)
    {
      HashWindow();
      assert Pending() == Buffered();
      MinimumTested(p, Pending(), |chunk| + p.min);
      isEOC := IsZeroUnderMask(p, hashSum);
    }

    /** Decides whether the first `min` bytes are a chunk of their own. */
    method TestMinimum() returns (isEOC: bool)
      requires Valid() && !minimumReached && bufferSize >= p.min
      modifies this`sent, this`hashSum, this`minimumReached, this`chunk, this`bufferStart, this`bufferSize
      ensures Valid() && minimumReached == !isEOC
      ensures bufferSize == if isEOC then old(bufferSize) - p.min else old(bufferSize)
    {
      isEOC := HashMinimum();
      if isEOC {
        FinishChunk(p.min, p.min);
      } else {
        MarkMinimum();
      }
    }

    /** The first `min` bytes are not a chunk: from now on the hash is rolled. */
    method MarkMinimum()
      requires InBounds() && chunk == [] && bufferSize >= p.min && Settled(p, stream, sent, Pending())
      requires hashSum == Sum(p.table, Buffered()[..p.min]) && Tested(p.min)
      modifies this`minimumReached
      ensures Valid() && minimumReached
    {
      minimumReached := true;
    }

    /** Moves to the chunk what cannot be among its last `min` bytes, none of the buffered positions being a
        place to cut. */
    method KeepWindow()
      requires InBounds() && p.min <= bufferSize && |chunk| + bufferSize < p.max && minimumReached
      requires Settled(p, stream, sent, Pending()) && HasNoCut(p, Pending())
      requires hashSum == Sum(p.table, Buffered()[bufferSize - p.min..])
      modifies this`chunk, this`bufferStart, this`bufferSize
      ensures Valid() && minimumReached && bufferSize == p.min && HasNoCut(p, Pending())
    {
      ghost var all, before := Pending(), Buffered();
      var bytes := bufferSize - p.min;
      Fill(bytes);
      assert Buffered()[..p.min] == before[bytes..];
      assert |chunk| + p.min == |all|;
    }

    /** Looks for the end of the chunk in the buffer. */
    method Advance() returns (isEOC: bool)
      requires Valid() && minimumReached
      modifies this`sent, this`hashSum, this`minimumReached, this`chunk, this`bufferStart, this`bufferSize
      ensures Valid()
      ensures isEOC ==> bufferSize < old(bufferSize)
      ensures !isEOC ==> minimumReached && bufferSize == p.min && HasNoCut(p, Pending()) && old(bufferSize) >= p.min
    {
      var bytes;
      ghost var cut;
      bytes, isEOC, cut := Roll();
      if isEOC {
        FinishChunk(bytes, cut);
      } else {
        KeepWindow();
      }
    }

    /** Nothing of what has been read is left in the maker. */
    ghost predicate IsFresh()
      reads this
    {
      bufferSize == 0 && chunk == [] && !minimumReached
    }

    /** The data are at an end and the buffer holds less than a chunk: what is left is the last chunk. The
        chunk is not replaced by a new one. */
    method SendShortTail()
      requires Valid() && bufferSize < p.min
      modifies this`sent, this`chunk, this`bufferStart, this`bufferSize
      ensures sent == Split(p, stream)
      ensures IsFresh() <==> sent == [] || |sent[|sent| - 1]| >= p.min
    {
      ghost var left := Buffered();
      if sent != [] {
        SettledLengths(p, stream, sent, Pending(), |sent| - 1);
      }
      ghost var before := sent;
      assert Pending() == left && HasNoCut(p, left);
      Fill(bufferSize);
      assert chunk == left;
      if |chunk| > 0 {
        sent := sent + [chunk];
      }
      TailIsLastChunk(p, stream, before, left, sent);
    }

    /** The data are at an end and no cut is left: everything left is the last chunk. */
    method SendTail()
      requires Valid() && bufferSize == p.min && HasNoCut(p, Pending())
      modifies this`sent, this`hashSum, this`minimumReached, this`chunk, this`bufferStart, this`bufferSize
      ensures sent == Split(p, stream) && IsFresh()
      ensures sent != [] && |sent[|sent| - 1]| >= p.min
    {
      ghost var left, before := Pending(), sent;
      Fill(p.min);
      assert chunk == left;
      SendChunk();
      TailIsLastChunk(p, stream, before, left, sent);
    }

    /** Looks for the end of one chunk. `short` means that it was the shortest possible one. */
    method CutOnce() returns (short: bool, isEOC: bool)
      requires Valid() && bufferSize >= p.min
      modifies this`sent, this`hashSum, this`minimumReached, this`chunk, this`bufferStart, this`bufferSize
      ensures Valid()
      ensures short || isEOC ==> bufferSize < old(bufferSize)
      ensures !short && !isEOC ==> bufferSize == p.min && HasNoCut(p, Pending())
    {
      short, isEOC := false, false;
      if !minimumReached {
        short := TestMinimum();
      }
      if !short {
        isEOC := Advance();
      }
    }

    /** One round of adding a file: reads what fits, then looks for the end of one chunk. */
    method AddRound(reader: Reader, wasEOF: bool) returns (ok: bool, isEOF: bool, data: seq<byte>, done: bool)
      requires Valid() && (wasEOF ==> reader.remaining == [])
      modifies this, buffer, reader
      ensures Valid() && stream == old(stream) + data && data <= old(reader.remaining)
      ensures ok ==> old(reader.remaining) == data + reader.remaining
      ensures (isEOF ==> reader.remaining == []) && (done && ok ==> isEOF) && (!ok ==> done && reader.faulty)
      ensures reader.Budget() <= old(reader.Budget()) && (wasEOF ==> isEOF)
      ensures !done && isEOF == wasEOF && reader.Budget() == old(reader.Budget()) ==> bufferSize < old(bufferSize)
    {
      ok, isEOF, data, done := true, wasEOF, [], true;
      if !isEOF {
        ok, isEOF, data := ReadMore(reader);
        if !ok {
          return;
        }
      }
      if bufferSize >= p.min {
        var short, isEOC := CutOnce();
        done := !short && isEOF;
      }
    }

    /** Adds the content of a file. Returns what the file hash is computed from and the file size counts. */
    method AddFile(reader: Reader) returns (ok: bool, data: seq<byte>)
      requires Valid()
      modifies this, buffer, reader
      ensures Valid() && stream == old(stream) + data && data <= old(reader.remaining)
      ensures ok ==> data == old(reader.remaining)
      ensures !ok ==> reader.faulty
    {
      var isEOF, done := false, false;
      ok, data := true, [];
      ghost var file, before := reader.remaining, stream;
      while !done
        invariant Valid() && stream == before + data
        invariant data <= file && (ok ==> file == data + reader.remaining)
        invariant (isEOF ==> reader.remaining == []) && (done && ok ==> isEOF) && (!ok ==> done && reader.faulty)
        decreases !done, reader.Budget() + if isEOF then 0 else 1, bufferSize
      {
        ghost var left := reader.remaining;
        var more;
        ok, isEOF, more, done := AddRound(reader, isEOF);
        Consumed(before, data, left, more, reader.remaining);
        data := data + more;
      }
    }

    /** Sends everything read and not yet sent. */
    method Flush()
      requires Valid()
      modifies this`sent, this`hashSum, this`minimumReached, this`chunk, this`bufferStart, this`bufferSize
      ensures sent == Split(p, stream)
      ensures IsFresh() <==> sent == [] || |sent[|sent| - 1]| >= p.min
    {
      while bufferSize >= p.min
        invariant Valid()
        decreases bufferSize
      {
        var short, isEOC := CutOnce();
        if !short && !isEOC {
          SendTail();
          return;
        }
      }
      SendShortTail();
    }

    /** A call with a reader adds a file, a call without one flushes the maker. */
    method AddData(reader: Reader?) returns (ok: bool, data: seq<byte>)
      requires Valid()
      modifies this, buffer, reader
      ensures reader != null ==> Valid() && stream == old(stream) + data && data <= old(reader.remaining)
      ensures reader != null && ok ==> data == old(reader.remaining)
      ensures reader != null && !ok ==> reader.faulty
      ensures reader == null ==> ok && data == [] && stream == old(stream) && sent == Split(p, stream)
      ensures reader == null ==> (IsFresh() <==> sent == [] || |sent[|sent| - 1]| >= p.min)
    {
      if reader == null {
        Flush();
        ok, data := true, [];
      } else {
        ok, data := AddFile(reader);
      }
    }
  }

  /** Reading `more` of what is `left` of a file. */
  lemma Consumed(before: seq<byte>, data: seq<byte>, left: seq<byte>, more: seq<byte>, left': seq<byte>)
    requires more <= left
    ensures before + data + more == before + (data + more)
    ensures data + more <= data + left
    ensures left == more + left' ==> data + left == (data + more) + left'
  {
    assert data + left == (data + more) + left[|more|..];
  }

  lemma MinimumTested(p: Params, s: seq<byte>, n: nat)
    requires ValidParams(p) && n == p.min <= |s|
    ensures IsZeroUnderMask(p, Sum(p.table, s[..p.min])) ==> IsFirstCut(p, s, n)
    ensures !IsZeroUnderMask(p, Sum(p.table, s[..p.min])) ==> NoCutUpTo(p, s, n)
  {
    assert s[0..p.min] == s[..p.min];
    forall k: nat | k < p.min ensures !IsCut(p, s, k) {
    }
    forall k: nat | k <= p.min && !IsCut(p, s, p.min) ensures !IsCut(p, s, k) {
    }
  }

  /** More data behind what is pending change neither the chunks sent nor the positions tested. */
  lemma StreamGrows(p: Params, stream: seq<byte>, sent: seq<seq<byte>>, chunk: seq<byte>, buffered: seq<byte>, data: seq<byte>)
    requires Settled(p, stream, sent, chunk + buffered)
    ensures Settled(p, stream + data, sent, chunk + (buffered + data))
    ensures |buffered| >= p.min ==> (buffered + data)[..p.min] == buffered[..p.min]
    ensures |buffered| >= p.min && NoCutUpTo(p, chunk + buffered, |chunk| + p.min) ==>
      NoCutUpTo(p, chunk + (buffered + data), |chunk| + p.min)
  {
    SettledGrows(p, stream, sent, chunk + buffered, data);
    assert chunk + (buffered + data) == (chunk + buffered) + data;
    if |buffered| >= p.min && NoCutUpTo(p, chunk + buffered, |chunk| + p.min) {
      forall k: nat | k <= |chunk| + p.min ensures !IsCut(p, chunk + (buffered + data), k) {
        CutIsStable(p, chunk + buffered, data, k);
      }
    }
  }

  lemma RingSum(table: Table, a: seq<byte>, start: nat, count: nat)
    requires start < |a| && count <= |a|
    ensures Sum(table, Ring(a, start, count)) ==
      if start + count < |a| then SumFrom(table, ZERO, a[start..start + count])
      else SumFrom(table, SumFrom(table, ZERO, a[start..]), a[..count - (|a| - start)])
  {
    RingSlices(a, start, count);
    if start + count >= |a| {
      SumFromConcat(table, ZERO, a[start..], a[..count - (|a| - start)]);
    }
  }

  ghost predicate NoCutUpTo(p: Params, s: seq<byte>, n: nat) {
    forall k: nat :: k <= n ==> !IsCut(p, s, k)
  }

  /** The byte at position `i` of the ring, which is at position `pos` of the bytes not yet sent. */
  method RingByte(ring: seq<byte>, start: nat, size: nat, i: nat, ghost chunk: seq<byte>, ghost pos: nat) returns (b: byte)
    requires start < |ring| && i < size <= |ring| && pos == |chunk| + i
    ensures b == (chunk + Ring(ring, start, size))[pos]
  {
    var index := start + i;
    if index >= |ring| {
      index := index - |ring|;
    }
    RingAt(ring, start, size, i);
    b := ring[index];
  }

  /** The rolling loop over the ring, which begins with the window whose hash is `sum`. */
  method RollOver(p: Params, ring: seq<byte>, start: nat, size: nat, chunk: seq<byte>, sum: Word, ghost all: seq<byte>)
    returns (bytes: nat, isEOC: bool, sum': Word, ghost cut: nat)
    requires ValidParams(p) && start < |ring| && p.min <= size <= |ring| && |chunk| + p.min < p.max
    requires all == chunk + Ring(ring, start, size)
    requires sum == Sum(p.table, Ring(ring, start, size)[..p.min]) && NoCutUpTo(p, all, |chunk| + p.min)
    ensures isEOC ==> p.min < bytes <= size && cut == |chunk| + bytes && IsFirstCut(p, all, cut)
    ensures !isEOC ==> cut == |all| < p.max && HasNoCut(p, all) && sum' == Sum(p.table, all[cut - p.min..cut])
  {
    cut := |chunk| + p.min;
    assert all[cut - p.min..cut] == Ring(ring, start, size)[..p.min];
    bytes, isEOC, sum' := size - p.min, false, sum;
    var maxSize := p.max - |chunk|;
    var i := 0;
    while i < bytes
      invariant i <= bytes == size - p.min && cut == |chunk| + (i + p.min) < p.max
      invariant Rolled(p, all, cut, sum')
    {
      var outgoing := RingByte(ring, start, size, i, chunk, cut - p.min);
      var incoming := RingByte(ring, start, size, i + p.min, chunk, cut);
      isEOC, sum', cut := RollOnce(p, sum', outgoing, incoming, i == maxSize - p.min - 1, all, cut);
      if isEOC {
        bytes := i + 1 + p.min;
        return;
      }
      i := i + 1;
    }
  }

  /** No position up to `n` is a place to cut, and `sum` is the hash of the `min` bytes before it. */
  ghost predicate Rolled(p: Params, s: seq<byte>, n: nat, sum: Word) {
    p.min <= n <= |s| && sum == Sum(p.table, s[n - p.min..n]) && NoCutUpTo(p, s, n)
  }

  /** Moves the window by one byte, looking only at the byte that leaves and the byte that enters, and
      decides whether to cut behind the latter. */
  method RollOnce(p: Params, sum: Word, outgoing: byte, incoming: byte, atMaximum: bool, ghost s: seq<byte>, ghost n: nat)
    returns (isEOC: bool, sum': Word, ghost n': nat)
    requires 1 <= p.min && n < |s| && Rolled(p, s, n, sum)
    requires outgoing == s[n - p.min] && incoming == s[n] && (atMaximum <==> n + 1 == p.max)
    ensures n' == n + 1 && if isEOC then IsFirstCut(p, s, n') else !atMaximum && Rolled(p, s, n', sum')
  {
    ghost var window := s[n - p.min..n];
    n' := n + 1;
    sum' := BuzhashUpdate(p.table, sum, outgoing, incoming, p.min, window);
    NextPosition(p, s, n, window, window[1..] + [incoming]);
    isEOC := IsZeroUnderMask(p, sum') || atMaximum;
  }

  /** The hash of the window moved by one byte. */
  method BuzhashUpdate(table: Table, sum: Word, outgoing: byte, incoming: byte, length: nat, ghost window: seq<byte>)
    returns (sum': Word)
    requires length == |window| >= 1 && sum == Sum(table, window) && outgoing == window[0]
    ensures sum' == Sum(table, window[1..] + [incoming])
  {
    sum' := Update(table, sum, outgoing, incoming, length);
    Rolling(table, window, incoming);
  }

  /** Moving the window of the last `min` bytes on by one byte tests the next position. */
  lemma NextPosition(p: Params, s: seq<byte>, n: nat, window: seq<byte>, window': seq<byte>)
    requires 1 <= p.min <= n < |s| && window == s[n - p.min..n] && NoCutUpTo(p, s, n)
    requires window' == window[1..] + [s[n]]
    ensures window' == s[n + 1 - p.min..n + 1]
    ensures n + 1 == p.max || IsZeroUnderMask(p, Sum(p.table, window')) ==> IsFirstCut(p, s, n + 1)
    ensures n + 1 != p.max && !IsZeroUnderMask(p, Sum(p.table, window')) ==> NoCutUpTo(p, s, n + 1)
  {
    assert window' == s[n + 1 - p.min..n + 1];
    forall k: nat | k <= n + 1 && !IsCut(p, s, n + 1) ensures !IsCut(p, s, k) {
    }
  }

  /** Packing a list of files with a new maker and flushing it at the end: the chunks depend on nothing but
      the concatenation of the contents, and only a faulty file makes it fail. */
  method PackFiles(p: Params, files: seq<seq<byte>>, stalls: nat, faulty: set<nat>)
    returns (ok: bool, chunks: seq<seq<byte>>, sizes: seq<nat>)
    requires ValidParams(p)
    ensures ok ==> chunks == Split(p, Concat(files)) && Concat(chunks) == Concat(files)
    ensures ok ==> |sizes| == |files| && forall i :: 0 <= i < |files| ==> sizes[i] == |files[i]|
    ensures !ok ==> exists i :: 0 <= i < |files| && i in faulty
  {
    var maker := new Maker(p);
    chunks := [];
    ok, sizes := PackAll(maker, files, stalls, faulty);
    if ok {
      SplitConcat(p, Concat(files));
      ok, chunks := FlushMaker(maker);
    }
  }

  method PackAll(maker: Maker, files: seq<Bytes>, stalls: nat, faulty: set<nat>) returns (ok: bool, sizes: seq<nat>)
    requires maker.Valid() && maker.stream == []
    modifies maker, maker.buffer
    ensures maker.Valid() && (ok ==> maker.stream == Concat(files))
    ensures ok ==> |sizes| == |files| && forall i :: 0 <= i < |files| ==> sizes[i] == |files[i]|
    ensures !ok ==> exists i :: 0 <= i < |files| && i in faulty
  {
    sizes, ok := [], true;
    assert files[..0] == [];
    for i := 0 to |files|
      invariant maker.Valid() && maker.stream == Concat(files[..i]) && ok
      invariant |sizes| == i && forall j :: 0 <= j < i ==> sizes[j] == |files[j]|
    {
      var size;
      ok, size := PackOne(maker, files[i], stalls, i in faulty);
      if !ok {
        return;
      }
      assert files[..i + 1] == files[..i] + [files[i]];
      ConcatAppend(files[..i], files[i]);
      sizes := sizes + [size];
    }
    assert files[..|files|] == files;
  }

  method PackOne(maker: Maker, file: seq<byte>, stalls: nat, faulty: bool) returns (ok: bool, size: nat)
    requires maker.Valid()
    modifies maker, maker.buffer
    ensures maker.Valid() && (ok ==> maker.stream == old(maker.stream) + file && size == |file|)
    ensures !ok ==> faulty
  {
    var reader := new Reader(file, stalls, faulty);
    var data;
    ok, data := maker.AddData(reader);
    size := |data|;
  }

  method FlushMaker(maker: Maker) returns (ok: bool, chunks: seq<Bytes>)
    requires maker.Valid()
    modifies maker, maker.buffer
    ensures ok && chunks == Split(maker.p, old(maker.stream))
  {
    var data;
    ok, data := maker.AddData(null);
    chunks := maker.sent;
  }
}
