/**
 The layout of a chunk file: padding before encryption, and an erasure-coded frame around the result
 (src/duplicacy_chunk.go).
 */
module ChunkFrame {
  import opened Wrappers
  import opened ByteStreams

  // ---------- padding ----------

  /** The byte that stands for a padding length of 1 to 256. */
  function PaddingByte(n: nat): (b: byte)
    requires 1 <= n <= 256
  {
    (n % 256) as byte
  }

  function Repeat<T>(x: T, n: nat): (s: seq<T>)
    ensures |s| == n && forall i :: 0 <= i < n ==> s[i] == x
  {
    seq(n, _ => x)
  }

  function PaddingLength(dataLength: nat): (n: nat)
    ensures 1 <= n <= 256 && (dataLength + n) % 256 == 0
  {
    256 - dataLength % 256
  }

  /** Data that starts after `offset` bytes of banner and nonce, padded. */
  function Padded(buffer: Bytes, offset: nat): (s: Bytes)
    requires offset <= |buffer|
  {
    var n := PaddingLength(|buffer| - offset);
    buffer + Repeat(PaddingByte(n), n)
  }

  function StatedLength(b: byte): (n: nat)
    ensures 1 <= n <= 256 && PaddingByte(n) == b
  {
    if b == 0 then 256 else b as nat
  }

  /** A buffer ends in a padding of `n` bytes that each state its length. */
  predicate EndsInPadding(s: Bytes, n: nat) {
    1 <= n <= 256 && n < |s| && forall i :: |s| - n <= i < |s| ==> s[i] == PaddingByte(n)
  }

  /** Takes the padding off again; anything that does not end in a padding is refused. */
  method RemovePadding(s: Bytes) returns (r: Result<Bytes>)
    requires s != []
    ensures
      var n := StatedLength(s[|s| - 1]);
      r == if EndsInPadding(s, n) then Ok(s[..|s| - n]) else Err
  {
    var paddingLength := StatedLength(s[|s| - 1]);
    if |s| <= paddingLength {
      return Err;
    }
    for i := 0 to paddingLength
      invariant forall k :: |s| - i <= k < |s| ==> s[k] == PaddingByte(paddingLength)
    {
      if s[|s| - 1 - i] != PaddingByte(paddingLength) {
        return Err;
      }
    }
    return Ok(s[..|s| - paddingLength]);
  }

  /** What was padded is found again, for every length. */
  lemma PaddingRoundTrip(buffer: Bytes, offset: nat)
    requires 0 < offset <= |buffer|
    ensures
      var s := Padded(buffer, offset);
      var n := StatedLength(s[|s| - 1]);
      EndsInPadding(s, n) && s[..|s| - n] == buffer
  {
    var n := PaddingLength(|buffer| - offset);
    var s := Padded(buffer, offset);
    assert s[|s| - 1] == PaddingByte(n);
    assert StatedLength(PaddingByte(n)) == n;
  }

  // ---------- numbers in the header ----------

  function Power(k: nat): (n: nat)
    ensures n > 0
  {
    if k == 0 then 1 else 256 * Power(k - 1)
  }

  function LittleEndian(n: nat, k: nat): (s: Bytes)
    ensures |s| == k
  {
    if k == 0 then [] else [(n % 256) as byte] + LittleEndian(n / 256, k - 1)
  }

  function Value(s: Bytes): (n: nat) {
    if s == [] then 0 else s[0] as nat + 256 * Value(s[1..])
  }

  lemma {:induction false} LittleEndianRoundTrip(n: nat, k: nat)
    requires n < Power(k)
    ensures Value(LittleEndian(n, k)) == n
  {
    if k > 0 {
      LittleEndianRoundTrip(n / 256, k - 1);
      assert LittleEndian(n, k)[1..] == LittleEndian(n / 256, k - 1);
    }
  }

  function Xor(a: byte, b: byte): (c: byte) {
    ((a as bv8) ^ (b as bv8)) as byte
  }

  /** The two checksum bytes of a header. */
  function Checksum(h: Bytes): (s: Bytes)
    requires |h| >= 12
    ensures |s| == 2
  {
    [Xor(h[0], Xor(h[2], Xor(h[4], Xor(h[6], Xor(h[8], h[10]))))),
     Xor(h[1], Xor(h[3], Xor(h[5], Xor(h[7], Xor(h[9], h[11])))))]
  }

  function Header(size: nat, d: nat, p: nat): (h: Bytes)
    ensures |h| == 14
  {
    var h := LittleEndian(size, 8) + LittleEndian(d, 2) + LittleEndian(p, 2);
    h + Checksum(h)
  }

  datatype Parameters = Parameters(size: nat, d: nat, p: nat)

  function ReadHeader(h: Bytes): (r: Result<Parameters>)
    requires |h| == 14
  {
    if h[12..] != Checksum(h) then Err
    else Ok(Parameters(Value(h[..8]), Value(h[8..10]), Value(h[10..12])))
  }

  predicate FitsHeader(size: nat, d: nat, p: nat) {
    size < Power(8) && d < Power(2) && p < Power(2)
  }

  lemma HeaderRoundTrip(size: nat, d: nat, p: nat)
    requires FitsHeader(size, d, p)
    ensures ReadHeader(Header(size, d, p)) == Ok(Parameters(size, d, p))
  {
    var a, b, c := LittleEndian(size, 8), LittleEndian(d, 2), LittleEndian(p, 2);
    var h, h' := a + b + c, Header(size, d, p);
    LittleEndianRoundTrip(size, 8);
    LittleEndianRoundTrip(d, 2);
    LittleEndianRoundTrip(p, 2);
    assert h'[..8] == a && h'[8..10] == b && h'[10..12] == c;
    assert h'[..12] == h && h'[12..] == Checksum(h);
    SameChecksum(h, h');
  }

  lemma SameChecksum(h: Bytes, h': Bytes)
    requires |h| == 12 && |h'| == 14 && h'[..12] == h
    ensures Checksum(h') == Checksum(h)
  {
    assert forall i :: 0 <= i < 12 ==> h'[i] == h'[..12][i] == h[i];
  }

  // ---------- shards ----------

  /** Reed-Solomon coding and the shard hash, as far as the frame depends on them. */
  datatype Coder = Coder(
    parity: (seq<Bytes>, nat) -> seq<Bytes>,
    reconstruct: (seq<Option<Bytes>>, nat) -> seq<Bytes>,
    hash: Bytes -> Bytes)

  predicate AllOfSize(shards: seq<Bytes>, size: nat) {
    forall i :: 0 <= i < |shards| ==> |shards[i]| == size
  }

  /** Some shards are missing, the others are right. */
  predicate Agrees(partial: seq<Option<Bytes>>, all: seq<Bytes>) {
    |partial| == |all| && forall i :: 0 <= i < |all| ==> partial[i].Some? ==> partial[i].value == all[i]
  }

  /** How many of the first `n` shards are there. */
  function Count(partial: seq<Option<Bytes>>, n: nat): (c: nat)
    requires n <= |partial|
    ensures c <= n
  {
    if n == 0 then 0 else Count(partial, n - 1) + if partial[n - 1].Some? then 1 else 0
  }

  function Available(partial: seq<Option<Bytes>>): (n: nat) {
    Count(partial, |partial|)
  }

  lemma {:induction false} CountOfPrefix(partial: seq<Option<Bytes>>, more: seq<Option<Bytes>>, n: nat)
    requires n <= |partial|
    ensures Count(partial + more, n) == Count(partial, n)
  {
    if n > 0 {
      CountOfPrefix(partial, more, n - 1);
    }
  }

  /** Parity shards are as long as data shards. */
  ghost predicate AddsParity(c: Coder, data: seq<Bytes>, p: nat, size: nat) {
    AllOfSize(data, size) ==> |c.parity(data, p)| == p && AllOfSize(c.parity(data, p), size)
  }

  /** As many right shards as there are data shards give the data back. */
  ghost predicate Rebuilds(c: Coder, data: seq<Bytes>, p: nat, size: nat, partial: seq<Option<Bytes>>) {
    AllOfSize(data, size) && Agrees(partial, data + c.parity(data, p)) && Available(partial) >= |data| ==>
      |c.reconstruct(partial, |data|)| >= |data| && c.reconstruct(partial, |data|)[..|data|] == data
  }

  /** Coding works for `d` data and `p` parity shards of any size. */
  ghost predicate IsCoder(c: Coder, d: nat, p: nat) {
    && (forall data, size :: |data| == d ==> AddsParity(c, data, p, size))
    && (forall data, size, partial :: |data| == d ==> Rebuilds(c, data, p, size, partial))
  }

  /** The length of `n` shards. */
  function Times(n: nat, size: nat): (t: nat) {
    if n == 0 then 0 else Times(n - 1, size) + size
  }

  lemma {:induction false} TimesGrow(i: nat, n: nat, size: nat)
    requires i <= n
    ensures Times(i, size) <= Times(n, size)
    decreases n - i
  {
    if i < n {
      TimesGrow(i, n - 1, size);
    }
  }

  lemma {:induction false} TimesIs(n: nat, size: nat)
    ensures Times(n, size) == n * size
  {
    if n > 0 {
      TimesIs(n - 1, size);
    }
  }

  function ShardSize(size: nat, d: nat): (n: nat)
    requires d >= 1
    ensures Times(d, n) >= size
  {
    RoundUp(size, d);
    TimesIs(d, (size + d - 1) / d);
    (size + d - 1) / d
  }

  lemma RoundUp(size: nat, d: nat)
    requires d >= 1
    ensures d * ((size + d - 1) / d) >= size
  {
    var q, r := (size + d - 1) / d, (size + d - 1) % d;
    assert size + d - 1 == d * q + r;
  }

  /** A stream cut into `n` shards of one size. */
  function Cut(s: Bytes, size: nat, n: nat): (shards: seq<Bytes>)
    requires |s| == Times(n, size)
    ensures |shards| == n && AllOfSize(shards, size)
    decreases n
  {
    if n == 0 then [] else Cut(s[..|s| - size], size, n - 1) + [s[|s| - size..]]
  }

  lemma {:induction false} CutConcat(s: Bytes, size: nat, n: nat)
    requires |s| == Times(n, size)
    ensures Concat(Cut(s, size, n)) == s
    decreases n
  {
    if n > 0 {
      CutConcat(s[..|s| - size], size, n - 1);
      ConcatAppend(Cut(s[..|s| - size], size, n - 1), s[|s| - size..]);
      assert s == s[..|s| - size] + s[|s| - size..];
    } else {
      assert s == [];
    }
  }

  // ---------- the frame ----------

  const BANNER: Bytes := [100, 117, 112, 108, 105, 99, 97, 99, 121, 3]

  function DataShards(payload: Bytes, d: nat): (shards: seq<Bytes>)
    requires d >= 1
    ensures |shards| == d && AllOfSize(shards, ShardSize(|payload|, d))
  {
    var size := ShardSize(|payload|, d);
    Cut(payload + Repeat(0, Times(d, size) - |payload|), size, d)
  }

  function AllShards(c: Coder, payload: Bytes, d: nat, p: nat): (shards: seq<Bytes>)
    requires d >= 1
  {
    DataShards(payload, d) + c.parity(DataShards(payload, d), p)
  }

  function Hashes(c: Coder, shards: seq<Bytes>): (h: seq<Bytes>)
    ensures |h| == |shards|
  {
    seq(|shards|, i requires 0 <= i < |shards| => c.hash(shards[i]))
  }

  function Frame(c: Coder, payload: Bytes, d: nat, p: nat): (s: Bytes)
    requires d >= 1
  {
    var shards, header := AllShards(c, payload, d, p), Header(|payload|, d, p);
    Assemble(BANNER + header, Hashes(c, shards), shards, header)
  }

  function Assemble(head: Bytes, hashes: seq<Bytes>, shards: seq<Bytes>, tail: Bytes): (s: Bytes) {
    head + Concat(hashes) + Concat(shards) + tail
  }

  /** Cuts a buffer into data shards. */
  method CutShards(buffer: Bytes, size: nat, d: nat) returns (shards: seq<Bytes>)
    requires |buffer| == Times(d, size)
    ensures shards == Cut(buffer, size, d)
  {
    shards := [];
    var pos := 0;
    while |shards| < d
      invariant |shards| <= d && pos == Times(|shards|, size) <= |buffer| && shards == Cut(buffer[..pos], size, |shards|)
    {
      TimesGrow(|shards| + 1, d, size);
      var next := pos + size;
      assert buffer[..next][..pos] == buffer[..pos] && buffer[..next][pos..] == buffer[pos..next];
      shards := shards + [buffer[pos..next]];
      pos := next;
    }
    assert buffer[..pos] == buffer;
  }

  method WriteAll(out: Bytes, parts: seq<Bytes>) returns (out': Bytes)
    ensures out' == out + Concat(parts)
  {
    out' := out;
    for i := 0 to |parts|
      invariant out' == out + Concat(parts[..i])
    {
      ConcatAppend(parts[..i], parts[i]);
      assert parts[..i + 1] == parts[..i] + [parts[i]];
      out' := out' + parts[i];
    }
    assert parts[..|parts|] == parts;
  }

  /** Writes a frame: banner, header, the hash of every shard, the shards, and the header again. */
  method WriteFrame(c: Coder, payload: Bytes, d: nat, p: nat) returns (out: Bytes)
    requires d >= 1
    ensures out == Frame(c, payload, d, p)
  {
    var size := ShardSize(|payload|, d);
    var data := CutShards(payload + Repeat(0, Times(d, size) - |payload|), size, d);
    var all, header := data + c.parity(data, p), Header(|payload|, d, p);
    out := WriteAll(BANNER + header, Hashes(c, all));
    out := WriteAll(out, all);
    out := out + header;
  }

  const HASH_OFFSET: nat := 24

  function DataOffset(d: nat, p: nat): (n: nat) {
    HASH_OFFSET + (d + p) * 32
  }

  /** Where the `i`th shard starts. */
  function ShardStart(size: nat, d: nat, p: nat, i: nat): (n: nat) {
    DataOffset(d, p) + Times(i, size)
  }

  predicate IsComplete(buffer: Bytes, size: nat, d: nat, p: nat, i: nat) {
    ShardStart(size, d, p, i) + size <= |buffer|
  }

  function Shard(buffer: Bytes, size: nat, d: nat, p: nat, i: nat): (s: Bytes)
    requires IsComplete(buffer, size, d, p, i)
  {
    buffer[ShardStart(size, d, p, i)..ShardStart(size, d, p, i) + size]
  }

  /** The `i`th shard is complete, and it has the hash stored for it. */
  predicate Verifies(c: Coder, buffer: Bytes, size: nat, d: nat, p: nat, i: nat)
    requires i < d + p && DataOffset(d, p) <= |buffer|
  {
    && IsComplete(buffer, size, d, p, i)
    && c.hash(Shard(buffer, size, d, p, i)) == buffer[HASH_OFFSET + i * 32..HASH_OFFSET + (i + 1) * 32]
  }

  // ---------- reading a damaged frame ----------

  /** The length a frame was written with, and the length from which it may be recovered. */
  function Expected(d: nat, p: nat, size: nat): (n: nat) {
    10 + 2 * 14 + Times(d + p, size + 32)
  }

  function Minimum(d: nat, p: nat, size: nat): (n: nat) {
    DataOffset(d, p) + Times(d, size)
  }

  /** The first `n` shards as they can be used: those that verify. */
  function Good(c: Coder, buffer: Bytes, size: nat, d: nat, p: nat, n: nat): (partial: seq<Option<Bytes>>)
    requires n <= d + p && DataOffset(d, p) <= |buffer|
    ensures |partial| == n
  {
    if n == 0 then []
    else
      Good(c, buffer, size, d, p, n - 1) + [GoodOne(c, buffer, size, d, p, n - 1)]
  }

  function GoodOne(c: Coder, buffer: Bytes, size: nat, d: nat, p: nat, i: nat): (x: Option<Bytes>)
    requires i < d + p && DataOffset(d, p) <= |buffer|
  {
    if Verifies(c, buffer, size, d, p, i) then Some(Shard(buffer, size, d, p, i)) else None
  }

  /** How many of the first `n` shards verify. */
  function Verified(c: Coder, buffer: Bytes, size: nat, d: nat, p: nat, n: nat): (k: nat)
    requires n <= d + p && DataOffset(d, p) <= |buffer|
  {
    if n == 0 then 0 else Verified(c, buffer, size, d, p, n - 1) + if GoodOne(c, buffer, size, d, p, n - 1).Some? then 1 else 0
  }

  lemma {:induction false} AvailableIsVerified(c: Coder, buffer: Bytes, size: nat, d: nat, p: nat, n: nat)
    requires n <= d + p && DataOffset(d, p) <= |buffer|
    ensures Available(Good(c, buffer, size, d, p, n)) == Verified(c, buffer, size, d, p, n)
  {
    if n > 0 {
      AvailableIsVerified(c, buffer, size, d, p, n - 1);
      CountOfPrefix(Good(c, buffer, size, d, p, n - 1), [GoodOne(c, buffer, size, d, p, n - 1)], n - 1);
    }
  }

  /** The `i`th shard, if it verifies, is the one written. */
  ghost predicate IsIntact(c: Coder, buffer: Bytes, size: nat, d: nat, p: nat, all: seq<Bytes>, i: nat)
    requires DataOffset(d, p) <= |buffer| && i < d + p == |all|
  {
    GoodOne(c, buffer, size, d, p, i).Some? ==> GoodOne(c, buffer, size, d, p, i).value == all[i]
  }

  /** Enough bytes are left; every shard that verifies is the one written, and at most `p` shards do not verify. */
  ghost predicate ShardsReadable(c: Coder, buffer: Bytes, data: seq<Bytes>, size: nat, d: nat, p: nat) {
    && |data| == d && AllOfSize(data, size) && |data + c.parity(data, p)| == d + p
    && DataOffset(d, p) <= Minimum(d, p, size) < |buffer|
    && (forall i :: 0 <= i < d + p ==> IsIntact(c, buffer, size, d, p, data + c.parity(data, p), i))
    && Verified(c, buffer, size, d, p, d + p) >= d
  }

  /** A frame that can still be read: banner and header are intact, and so are enough shards. */
  ghost predicate IsReadable(c: Coder, buffer: Bytes, payload: Bytes, d: nat, p: nat)
    requires d >= 1
  {
    && 24 <= |buffer| && buffer[..24] == BANNER + Header(|payload|, d, p)
    && ShardsReadable(c, buffer, DataShards(payload, d), ShardSize(|payload|, d), d, p)
  }

  /** The payload is the beginning of the data. */
  ghost predicate IsPayload(data: seq<Bytes>, payload: Bytes) {
    |payload| <= |Concat(data)| && Concat(data)[..|payload|] == payload
  }

  lemma {:induction false} TimesAdd(n: nat, a: nat, b: nat)
    ensures Times(n, a + b) == Times(n, a) + Times(n, b)
  {
    if n > 0 {
      TimesAdd(n - 1, a, b);
    }
  }

  /** The shards looked at so far. */
  datatype Scan = Scan(data: seq<Option<Bytes>>, available: nat, recoveryNeeded: bool)

  ghost predicate ScanOf(c: Coder, buffer: Bytes, size: nat, d: nat, p: nat, s: Scan) {
    && |s.data| <= d + p && DataOffset(d, p) <= |buffer|
    && s.data == Good(c, buffer, size, d, p, |s.data|) && s.available == Available(s.data) <= |s.data|
    && (s.recoveryNeeded <==> IsMissing(s.data, d))
  }

  /** One of the first `d` shards cannot be used. */
  predicate IsMissing(data: seq<Option<Bytes>>, d: nat) {
    exists i :: 0 <= i < |data| && i < d && data[i].None?
  }

  lemma MissingNext(data: seq<Option<Bytes>>, x: Option<Bytes>, d: nat)
    ensures IsMissing(data + [x], d) <==> IsMissing(data, d) || (|data| < d && x.None?)
  {
    var all := data + [x];
    if IsMissing(data, d) {
      var i :| 0 <= i < |data| && i < d && data[i].None?;
      assert all[i].None?;
    }
    if |data| < d && x.None? {
      assert all[|data|].None?;
    }
  }

  lemma AvailableNext(partial: seq<Option<Bytes>>, x: Option<Bytes>)
    ensures Available(partial + [x]) == Available(partial) + if x.Some? then 1 else 0
  {
    CountOfPrefix(partial, [x], |partial|);
  }

  /** Looks at the next shard. */
  method LookAt(c: Coder, buffer: Bytes, size: nat, d: nat, p: nat, s: Scan) returns (s': Scan)
    requires ScanOf(c, buffer, size, d, p, s) && |s.data| < d + p
    ensures ScanOf(c, buffer, size, d, p, s') && |s'.data| == |s.data| + 1
  {
    var i := |s.data|;
    var x := GoodOne(c, buffer, size, d, p, i);
    AvailableNext(s.data, x);
    MissingNext(s.data, x, d);
    s' := Scan(s.data + [x], s.available + (if x.Some? then 1 else 0), s.recoveryNeeded || (x.None? && i < d));
  }

  /** Looks at shards until enough are good, or the buffer ends. */
  method ScanShards(c: Coder, buffer: Bytes, size: nat, d: nat, p: nat) returns (s: Scan)
    requires DataOffset(d, p) <= |buffer|
    ensures ScanOf(c, buffer, size, d, p, s)
    ensures IsFinished(buffer, size, d, p, s)
  {
    s := Scan([], 0, false);
    while |s.data| < d + p
      invariant ScanOf(c, buffer, size, d, p, s)
    {
      if !IsComplete(buffer, size, d, p, |s.data|) {
        return;
      }
      s := LookAt(c, buffer, size, d, p, s);
      if s.available >= d {
        return;
      }
    }
  }

  /** Beyond the end of the buffer nothing verifies. */
  lemma IncompleteIsBad(c: Coder, buffer: Bytes, size: nat, d: nat, p: nat, k: nat, i: nat)
    requires k <= i < d + p && DataOffset(d, p) <= |buffer| && !IsComplete(buffer, size, d, p, k)
    ensures GoodOne(c, buffer, size, d, p, i) == None
  {
    TimesGrow(k, i, size);
  }

  lemma {:induction false} NothingBeyond(c: Coder, buffer: Bytes, size: nat, d: nat, p: nat, k: nat, n: nat)
    requires k <= n <= d + p && DataOffset(d, p) <= |buffer| && !IsComplete(buffer, size, d, p, k)
    ensures Verified(c, buffer, size, d, p, n) == Verified(c, buffer, size, d, p, k)
  {
    if k < n {
      NothingBeyond(c, buffer, size, d, p, k, n - 1);
      IncompleteIsBad(c, buffer, size, d, p, k, n - 1);
    }
  }

  /** The scan finds enough shards if there are enough. */
  lemma ScanFindsEnough(c: Coder, buffer: Bytes, size: nat, d: nat, p: nat, s: Scan)
    requires ScanOf(c, buffer, size, d, p, s) && Verified(c, buffer, size, d, p, d + p) >= d
    requires IsFinished(buffer, size, d, p, s)
    ensures s.available >= d
  {
    AvailableIsVerified(c, buffer, size, d, p, |s.data|);
    if s.available < d && |s.data| < d + p {
      NothingBeyond(c, buffer, size, d, p, |s.data|, d + p);
    }
  }

  lemma {:induction false} GoodAt(c: Coder, buffer: Bytes, size: nat, d: nat, p: nat, n: nat, i: nat)
    requires i < n <= d + p && DataOffset(d, p) <= |buffer|
    ensures Good(c, buffer, size, d, p, n)[i] == GoodOne(c, buffer, size, d, p, i)
  {
    if i < n - 1 {
      GoodAt(c, buffer, size, d, p, n - 1, i);
    }
  }

  /** The data region, if all data shards are right. */
  lemma {:induction false} RegionIs(buffer: Bytes, size: nat, d: nat, p: nat, data: seq<Bytes>, n: nat)
    requires n <= |data| && AllOfSize(data, size) && ShardStart(size, d, p, n) <= |buffer|
    requires forall i :: 0 <= i < n ==> ShardIs(buffer, size, d, p, i, data[i])
    ensures buffer[DataOffset(d, p)..ShardStart(size, d, p, n)] == Concat(data[..n])
  {
    if n > 0 {
      RegionIs(buffer, size, d, p, data, n - 1);
      assert data[..n] == data[..n - 1] + [data[n - 1]];
      ConcatAppend(data[..n - 1], data[n - 1]);
      assert ShardIs(buffer, size, d, p, n - 1, data[n - 1]);
      JoinSlices(buffer, DataOffset(d, p), ShardStart(size, d, p, n - 1), ShardStart(size, d, p, n));
    }
  }

  predicate ShardIs(buffer: Bytes, size: nat, d: nat, p: nat, i: nat, s: Bytes) {
    IsComplete(buffer, size, d, p, i) && Shard(buffer, size, d, p, i) == s
  }

  lemma JoinSlices(s: Bytes, a: nat, b: nat, e: nat)
    requires a <= b <= e <= |s|
    ensures s[a..b] + s[b..e] == s[a..e]
  {
  }

  function Nones(n: nat): (s: seq<Option<Bytes>>)
    ensures |s| == n && forall i :: 0 <= i < n ==> s[i].None?
  {
    seq(n, _ => None)
  }

  lemma {:induction false} AvailablePadded(partial: seq<Option<Bytes>>, n: nat)
    ensures Available(partial + Nones(n)) == Available(partial)
  {
    if n == 0 {
      assert partial + Nones(0) == partial;
    } else {
      AvailablePadded(partial, n - 1);
      assert partial + Nones(n) == (partial + Nones(n - 1)) + [None];
      AvailableNext(partial + Nones(n - 1), None);
    }
  }

  /** The original data, cut to its size. */
  lemma PayloadOfShards(payload: Bytes, d: nat)
    requires d >= 1
    ensures IsPayload(DataShards(payload, d), payload)
  {
    var size := ShardSize(|payload|, d);
    CutConcat(payload + Repeat(0, Times(d, size) - |payload|), size, d);
  }

  /** Every shard found good is the one written. */
  lemma GoodIsRight(c: Coder, buffer: Bytes, data: seq<Bytes>, size: nat, d: nat, p: nat, s: Scan, i: nat)
    requires ShardsReadable(c, buffer, data, size, d, p) && ScanOf(c, buffer, size, d, p, s)
    requires i < |s.data| && s.data[i].Some?
    ensures s.data[i].value == (data + c.parity(data, p))[i]
    ensures ShardIs(buffer, size, d, p, i, s.data[i].value)
  {
    GoodAt(c, buffer, size, d, p, |s.data|, i);
    assert IsIntact(c, buffer, size, d, p, data + c.parity(data, p), i);
  }

  lemma PrefixOfSlice(s: Bytes, a: nat, b: nat, n: nat)
    requires a <= b <= |s| && n <= b - a
    ensures s[a..b][..n] == s[a..a + n]
  {
  }

  /** All data shards verified: the payload lies in the buffer as it is. */
  lemma ReadDirectly(c: Coder, buffer: Bytes, data: seq<Bytes>, size: nat, d: nat, p: nat, s: Scan, payload: Bytes)
    requires ShardsReadable(c, buffer, data, size, d, p) && ScanOf(c, buffer, size, d, p, s) && IsPayload(data, payload)
    requires !s.recoveryNeeded && |s.data| >= d
    ensures DataOffset(d, p) + |payload| <= |buffer|
    ensures buffer[DataOffset(d, p)..DataOffset(d, p) + |payload|] == payload
  {
    forall i | 0 <= i < d ensures ShardIs(buffer, size, d, p, i, data[i]) {
      assert s.data[i].Some?;
      GoodIsRight(c, buffer, data, size, d, p, s, i);
    }
    RegionIs(buffer, size, d, p, data, d);
    assert data[..d] == data;
    PrefixOfSlice(buffer, DataOffset(d, p), ShardStart(size, d, p, d), |payload|);
  }

  /** Enough shards verified: they give the data back. */
  lemma ReadRecovered(c: Coder, buffer: Bytes, data: seq<Bytes>, size: nat, d: nat, p: nat, s: Scan)
    requires ShardsReadable(c, buffer, data, size, d, p) && ScanOf(c, buffer, size, d, p, s) && s.available >= d
    requires forall partial :: Rebuilds(c, data, p, size, partial)
    ensures
      var rebuilt := c.reconstruct(s.data + Nones(d + p - |s.data|), d);
      |rebuilt| >= d && rebuilt[..d] == data
  {
    var partial, all := s.data + Nones(d + p - |s.data|), data + c.parity(data, p);
    AvailablePadded(s.data, d + p - |s.data|);
    forall i | 0 <= i < |partial| && partial[i].Some? ensures partial[i].value == all[i] {
      GoodIsRight(c, buffer, data, size, d, p, s, i);
    }
    assert Rebuilds(c, data, p, size, partial);
  }

  /** The scan ends only when it has seen enough. */
  ghost predicate IsFinished(buffer: Bytes, size: nat, d: nat, p: nat, s: Scan) {
    s.available >= d || |s.data| == d + p || !IsComplete(buffer, size, d, p, |s.data|)
  }

  /** Data shards lie before the minimum length, so the scan gets past them. */
  lemma ScanPassesData(c: Coder, buffer: Bytes, size: nat, d: nat, p: nat, s: Scan)
    requires Minimum(d, p, size) < |buffer| && ScanOf(c, buffer, size, d, p, s) && IsFinished(buffer, size, d, p, s)
    ensures |s.data| >= d
  {
    if |s.data| < d {
      TimesGrow(|s.data| + 1, d, size);
    }
  }

  /** The data of a frame whose data shards are all good. */
  method TakeData(buffer: Bytes, h: Parameters) returns (r: Result<Bytes>)
    ensures r == if DataOffset(h.d, h.p) + h.size > |buffer| then Err
                 else Ok(buffer[DataOffset(h.d, h.p)..DataOffset(h.d, h.p) + h.size])
  {
    if DataOffset(h.d, h.p) + h.size > |buffer| {
      return Err;
    }
    return Ok(buffer[DataOffset(h.d, h.p)..DataOffset(h.d, h.p) + h.size]);
  }

  /** The data of a frame, rebuilt from the shards that are good. */
  method Rebuild(c: Coder, h: Parameters, s: Scan) returns (r: Result<Bytes>)
    requires |s.data| <= h.d + h.p
    ensures
      var rebuilt := c.reconstruct(s.data + Nones(h.d + h.p - |s.data|), h.d);
      s.available >= h.d && |rebuilt| >= h.d && |Concat(rebuilt[..h.d])| >= h.size ==> r == Ok(Concat(rebuilt[..h.d])[..h.size])
    ensures s.available < h.d ==> r.Err?
  {
    if s.available < h.d {
      return Err;
    }
    var rebuilt := c.reconstruct(s.data + Nones(h.d + h.p - |s.data|), h.d);
    if |rebuilt| < h.d || |Concat(rebuilt[..h.d])| < h.size {
      return Err;
    }
    return Ok(Concat(rebuilt[..h.d])[..h.size]);
  }

  // ---------- what is refused, by positions ----------

  /** A shard is complete and has the hash stored for it. */
  ghost predicate HasOwnHash(c: Coder, buffer: Bytes, size: nat, d: nat, p: nat, i: nat) {
    var at := 24 + 32 * (d + p) + i * size;
    && at + size <= |buffer| && 32 * (i + 1) + 24 <= |buffer|
    && c.hash(buffer[at..at + size]) == buffer[24 + 32 * i..24 + 32 * (i + 1)]
  }

  ghost function Hashed(c: Coder, buffer: Bytes, size: nat, d: nat, p: nat, n: nat): (good: set<nat>) {
    set i: nat | i < n && HasOwnHash(c, buffer, size, d, p, i)
  }

  lemma GoodIfHashed(c: Coder, buffer: Bytes, size: nat, d: nat, p: nat, i: nat)
    requires i < d + p && DataOffset(d, p) <= |buffer|
    ensures GoodOne(c, buffer, size, d, p, i).Some? <==> HasOwnHash(c, buffer, size, d, p, i)
  {
    TimesIs(i, size);
  }

  lemma HashedNext(c: Coder, buffer: Bytes, size: nat, d: nat, p: nat, n: nat)
    ensures |Hashed(c, buffer, size, d, p, n + 1)| ==
            |Hashed(c, buffer, size, d, p, n)| + if HasOwnHash(c, buffer, size, d, p, n) then 1 else 0
  {
    var before, all := Hashed(c, buffer, size, d, p, n), Hashed(c, buffer, size, d, p, n + 1);
    assert all == before + if HasOwnHash(c, buffer, size, d, p, n) then {n} else {};
  }

  lemma {:induction false} VerifiedIsCount(c: Coder, buffer: Bytes, size: nat, d: nat, p: nat, n: nat)
    requires n <= d + p && DataOffset(d, p) <= |buffer|
    ensures Verified(c, buffer, size, d, p, n) == |Hashed(c, buffer, size, d, p, n)|
  {
    if n > 0 {
      VerifiedIsCount(c, buffer, size, d, p, n - 1);
      GoodIfHashed(c, buffer, size, d, p, n - 1);
      HashedNext(c, buffer, size, d, p, n - 1);
    }
  }

  lemma {:induction false} VerifiedGrows(c: Coder, buffer: Bytes, size: nat, d: nat, p: nat, n: nat)
    requires n <= d + p && DataOffset(d, p) <= |buffer|
    ensures Verified(c, buffer, size, d, p, n) <= Verified(c, buffer, size, d, p, d + p)
    decreases d + p - n
  {
    if n < d + p {
      VerifiedGrows(c, buffer, size, d, p, n + 1);
    }
  }

  /** No more than the minimum is left. */
  predicate IsTooShort(buffer: Bytes, size: nat, d: nat, p: nat) {
    |buffer| <= 24 + 32 * (d + p) + d * size
  }

  /** A data shard is bad, and fewer shards are good than there are data shards. */
  ghost predicate IsTooDamaged(c: Coder, buffer: Bytes, size: nat, d: nat, p: nat) {
    && (exists i :: 0 <= i < d && !HasOwnHash(c, buffer, size, d, p, i))
    && |Hashed(c, buffer, size, d, p, d + p)| < d
  }

  /** All data shards are good. */
  ghost predicate IsWhole(c: Coder, buffer: Bytes, size: nat, d: nat, p: nat) {
    forall i :: 0 <= i < d ==> HasOwnHash(c, buffer, size, d, p, i)
  }

  lemma ScanMissing(c: Coder, buffer: Bytes, size: nat, d: nat, p: nat, s: Scan)
    requires Minimum(d, p, size) < |buffer| && ScanOf(c, buffer, size, d, p, s) && IsFinished(buffer, size, d, p, s)
    ensures s.recoveryNeeded <==> !IsWhole(c, buffer, size, d, p)
    ensures s.available <= |Hashed(c, buffer, size, d, p, d + p)|
  {
    ScanPassesData(c, buffer, size, d, p, s);
    forall i | 0 <= i < |s.data| ensures s.data[i].Some? <==> HasOwnHash(c, buffer, size, d, p, i) {
      GoodAt(c, buffer, size, d, p, |s.data|, i);
      GoodIfHashed(c, buffer, size, d, p, i);
    }
    AvailableIsVerified(c, buffer, size, d, p, |s.data|);
    VerifiedGrows(c, buffer, size, d, p, |s.data|);
    VerifiedIsCount(c, buffer, size, d, p, d + p);
  }

  /** The shards that a header describes are not read: too few bytes are left, or too few shards. */
  ghost predicate AreRefused(c: Coder, buffer: Bytes, size: nat, d: nat, p: nat) {
    IsTooShort(buffer, size, d, p) || IsTooDamaged(c, buffer, size, d, p)
  }

  /** Whole data shards are taken as they lie in the buffer. */
  ghost predicate AreTaken(c: Coder, buffer: Bytes, size: nat, d: nat, p: nat, n: nat) {
    !IsTooShort(buffer, size, d, p) && IsWhole(c, buffer, size, d, p) && 24 + 32 * (d + p) + n <= |buffer|
  }

  /** Reads the shards that the header describes. */
  method ReadShards(c: Coder, buffer: Bytes, h: Parameters, size: nat, ghost data: seq<Bytes>, ghost payload: Bytes) returns (r: Result<Bytes>)
    ensures
      && ShardsReadable(c, buffer, data, size, h.d, h.p) && IsPayload(data, payload) && h.size == |payload|
      && (forall partial :: Rebuilds(c, data, h.p, size, partial))
      ==> r == Ok(payload)
    ensures AreRefused(c, buffer, size, h.d, h.p) ==> r.Err?
    ensures AreTaken(c, buffer, size, h.d, h.p, h.size) ==>
      r == Ok(buffer[24 + 32 * (h.d + h.p)..24 + 32 * (h.d + h.p) + h.size])
  {
    TimesIs(h.d, size);
    if |buffer| <= Minimum(h.d, h.p, size) {
      return Err;
    }
    var s := ScanShards(c, buffer, size, h.d, h.p);
    ScanMissing(c, buffer, size, h.d, h.p, s);
    if !s.recoveryNeeded {
      if ShardsReadable(c, buffer, data, size, h.d, h.p) && IsPayload(data, payload) && h.size == |payload| {
        ScanPassesData(c, buffer, size, h.d, h.p, s);
        ReadDirectly(c, buffer, data, size, h.d, h.p, s, payload);
      }
      r := TakeData(buffer, h);
    } else {
      if ShardsReadable(c, buffer, data, size, h.d, h.p) && forall partial :: Rebuilds(c, data, h.p, size, partial) {
        ScanFindsEnough(c, buffer, size, h.d, h.p, s);
        ReadRecovered(c, buffer, data, size, h.d, h.p, s);
      }
      r := Rebuild(c, h, s);
    }
  }

  /** The file starts with the text `duplicacy` and the byte 3. */
  predicate IsFramedFile(buffer: Bytes) {
    |buffer| > 10 && buffer[..10] == [100, 117, 112, 108, 105, 99, 97, 99, 121, 3]
  }

  /** The last two of 14 bytes are the exclusive or of the even and of the odd ones before. */
  predicate CarriesChecksum(h: Bytes)
    requires |h| == 14
  {
    && h[12] == Xor(h[0], Xor(h[2], Xor(h[4], Xor(h[6], Xor(h[8], h[10])))))
    && h[13] == Xor(h[1], Xor(h[3], Xor(h[5], Xor(h[7], Xor(h[9], h[11])))))
  }

  /** The exclusive or of two bytes is that of the machine. */
  lemma XorIs(a: byte, b: byte)
    ensures Xor(a, b) as bv8 == a as bv8 ^ b as bv8
  {
  }

  /** A framed file is refused when its header is cut off or does not carry its checksum, and when too few bytes or too few
      good shards are left of what the header describes; the number of data shards for the shard size is the configured one. */
  ghost predicate IsRefused(c: Coder, buffer: Bytes, configured: nat) {
    || |buffer| < 24 || configured == 0 || !CarriesChecksum(buffer[10..24])
    || AreRefused(c, buffer, (StatedSize(buffer) + configured - 1) / configured, StatedData(buffer), StatedParity(buffer))
  }

  /** The fields of the header, lowest byte first. */
  function StatedSize(buffer: Bytes): (n: nat)
    requires |buffer| >= 24
  {
    Value(buffer[10..18])
  }

  function StatedData(buffer: Bytes): (d: nat)
    requires |buffer| >= 24
  {
    buffer[18] as nat + 256 * buffer[19] as nat
  }

  function StatedParity(buffer: Bytes): (p: nat)
    requires |buffer| >= 24
  {
    buffer[20] as nat + 256 * buffer[21] as nat
  }

  lemma TwoBytes(s: Bytes)
    requires |s| == 2
    ensures Value(s) == s[0] as nat + 256 * s[1] as nat
  {
    assert s[1..][1..] == [];
    assert Value(s[1..]) == s[1] as nat;
  }

  /** What a header says, by positions in the file. */
  lemma HeaderFields(buffer: Bytes)
    requires |buffer| >= 24
    ensures
      var h := buffer[10..24];
      && (ReadHeader(h).Ok? <==> CarriesChecksum(h))
      && (ReadHeader(h).Ok? ==> ReadHeader(h).value == Parameters(StatedSize(buffer), StatedData(buffer), StatedParity(buffer)))
  {
    var h := buffer[10..24];
    assert h[12..] == [h[12], h[13]];
    SubSlice(buffer, 10, 24, 0, 8);
    SubSlice(buffer, 10, 24, 8, 10);
    SubSlice(buffer, 10, 24, 10, 12);
    TwoBytes(buffer[18..20]);
    TwoBytes(buffer[20..22]);
  }

  lemma SubSlice(s: Bytes, a: nat, b: nat, i: nat, j: nat)
    requires a <= b <= |s| && i <= j <= b - a
    ensures s[a..b][i..j] == s[a + i..a + j]
  {
    forall k | 0 <= k < j - i ensures s[a..b][i..j][k] == s[a + i..a + j][k] {
    }
  }

  /** What a readable frame's header says. */
  lemma ReadableHeader(c: Coder, buffer: Bytes, payload: Bytes, d: nat, p: nat)
    requires d >= 1 && IsReadable(c, buffer, payload, d, p)
    ensures buffer[..10] == BANNER
    ensures FitsHeader(|payload|, d, p) ==> ReadHeader(buffer[10..24]) == Ok(Parameters(|payload|, d, p))
  {
    HeaderIs(buffer, Header(|payload|, d, p));
    if FitsHeader(|payload|, d, p) {
      HeaderRoundTrip(|payload|, d, p);
    }
  }

  /** Reads a framed file. */
  method ReadFramed(c: Coder, buffer: Bytes, configured: nat, ghost payload: Bytes, ghost p: nat) returns (r: Result<Bytes>)
    requires |buffer| > 10
    ensures configured >= 1 && IsCoder(c, configured, p) && FitsHeader(|payload|, configured, p) && IsReadable(c, buffer, payload, configured, p) ==>
      r == Ok(payload)
    ensures IsRefused(c, buffer, configured) ==> r.Err?
  {
    if |buffer| < 24 || configured == 0 {
      return Err;
    }
    var h := ReadHeader(buffer[10..24]);
    HeaderFields(buffer);
    if h.Err? {
      if IsReadable(c, buffer, payload, configured, p) {
        ReadableHeader(c, buffer, payload, configured, p);
      }
      return Err;
    }
    if IsReadable(c, buffer, payload, configured, p) {
      ReadableHeader(c, buffer, payload, configured, p);
    }
    PayloadOfShards(payload, configured);
    r := ReadShards(c, buffer, h.value, ShardSize(h.value.size, configured), DataShards(payload, configured), payload);
  }

  /** Takes the frame off a chunk file; a file without the banner has none. */
  method Unframe(c: Coder, buffer: Bytes, configured: nat, ghost payload: Bytes, ghost p: nat) returns (r: Result<Bytes>)
    ensures configured >= 1 && IsCoder(c, configured, p) && FitsHeader(|payload|, configured, p) && IsReadable(c, buffer, payload, configured, p) ==>
      r == Ok(payload)
    ensures !IsFramedFile(buffer) ==> r == Ok(buffer)
    ensures IsFramedFile(buffer) && IsRefused(c, buffer, configured) ==> r.Err?
  {
    if configured >= 1 && IsReadable(c, buffer, payload, configured, p) {
      ReadableHeader(c, buffer, payload, configured, p);
    }
    if |buffer| <= 10 || buffer[..10] != BANNER {
      return Ok(buffer);
    }
    r := ReadFramed(c, buffer, configured, payload, p);
  }

  lemma HeaderIs(buffer: Bytes, h: Bytes)
    requires |h| == 14 && 24 <= |buffer| && buffer[..24] == BANNER + h
    ensures buffer[..10] == BANNER && buffer[10..24] == h
  {
    assert buffer[..10] == buffer[..24][..10] && buffer[10..24] == buffer[..24][10..];
  }

  // ---------- a written frame stays readable ----------

  ghost predicate HashesAre32(c: Coder) {
    forall s :: |c.hash(s)| == 32
  }

  lemma {:induction false} ConcatOfSize(shards: seq<Bytes>, size: nat)
    requires AllOfSize(shards, size)
    ensures |Concat(shards)| == Times(|shards|, size)
  {
    if shards != [] {
      ConcatOfSize(shards[..|shards| - 1], size);
    }
  }

  /** Where a shard lies in the concatenation. */
  lemma {:induction false} ShardAt(shards: seq<Bytes>, size: nat, i: nat)
    requires AllOfSize(shards, size) && i < |shards|
    ensures Times(i, size) + size <= |Concat(shards)| && Concat(shards)[Times(i, size)..Times(i, size) + size] == shards[i]
    decreases |shards|
  {
    var n := |shards| - 1;
    var rest, last := Concat(shards[..n]), shards[n];
    ConcatOfSize(shards[..n], size);
    if i < n {
      ShardAt(shards[..n], size, i);
      LeftSlice(rest, last, Times(i, size), Times(i, size) + size);
    }
  }

  lemma LeftSlice(a: Bytes, b: Bytes, i: nat, j: nat)
    requires i <= j <= |a|
    ensures (a + b)[i..j] == a[i..j]
  {
  }

  /** A slice of the second of four parts, and of the third. */
  lemma PartSlices(a: Bytes, b: Bytes, e: Bytes, f: Bytes, i: nat, j: nat)
    requires i <= j
    ensures j <= |b| ==> (a + b + e + f)[|a| + i..|a| + j] == b[i..j]
    ensures j <= |e| ==> (a + b + e + f)[|a| + |b| + i..|a| + |b| + j] == e[i..j]
    ensures (a + b + e + f)[..|a|] == a
  {
  }

  lemma HashesOf32(c: Coder, shards: seq<Bytes>)
    requires HashesAre32(c)
    ensures AllOfSize(Hashes(c, shards), 32)
  {
  }

  ghost predicate HasLayout(frame: Bytes, head: Bytes, hashes: seq<Bytes>, shards: seq<Bytes>, size: nat, d: nat, p: nat)
    requires |hashes| == |shards| == d + p
  {
    && DataOffset(d, p) <= |frame| == DataOffset(d, p) + Times(d + p, size) + 14 && frame[..HASH_OFFSET] == head
    && forall i :: 0 <= i < d + p ==> HasShard(frame, hashes, shards, size, d, p, i)
  }

  ghost predicate HasShard(frame: Bytes, hashes: seq<Bytes>, shards: seq<Bytes>, size: nat, d: nat, p: nat, i: nat)
    requires |hashes| == |shards| == d + p && i < d + p && DataOffset(d, p) <= |frame|
  {
    ShardIs(frame, size, d, p, i, shards[i]) && frame[HASH_OFFSET + i * 32..HASH_OFFSET + (i + 1) * 32] == hashes[i]
  }

  /** Where the shards and their hashes lie. */
  lemma AssembledShard(head: Bytes, hashes: seq<Bytes>, shards: seq<Bytes>, tail: Bytes, size: nat, d: nat, p: nat, i: nat)
    requires |head| == HASH_OFFSET && |hashes| == |shards| == d + p && AllOfSize(hashes, 32) && AllOfSize(shards, size) && i < d + p
    ensures DataOffset(d, p) <= |Assemble(head, hashes, shards, tail)|
    ensures HasShard(Assemble(head, hashes, shards, tail), hashes, shards, size, d, p, i)
  {
    var h, b := Concat(hashes), Concat(shards);
    ConcatOfSize(hashes, 32);
    TimesIs(d + p, 32);
    TimesIs(i, 32);
    ShardAt(shards, size, i);
    ShardAt(hashes, 32, i);
    PartSlices(head, h, b, tail, i * 32, (i + 1) * 32);
    PartSlices(head, h, b, tail, Times(i, size), Times(i, size) + size);
  }

  lemma AssembledLayout(head: Bytes, hashes: seq<Bytes>, shards: seq<Bytes>, tail: Bytes, size: nat, d: nat, p: nat)
    requires |head| == HASH_OFFSET && |tail| == 14 && |hashes| == |shards| == d + p && AllOfSize(hashes, 32) && AllOfSize(shards, size)
    ensures HasLayout(Assemble(head, hashes, shards, tail), head, hashes, shards, size, d, p)
  {
    var frame := Assemble(head, hashes, shards, tail);
    ConcatOfSize(hashes, 32);
    TimesIs(d + p, 32);
    ConcatOfSize(shards, size);
    PartSlices(head, Concat(hashes), Concat(shards), tail, 0, 0);
    forall i | 0 <= i < d + p ensures HasShard(frame, hashes, shards, size, d, p, i) {
      AssembledShard(head, hashes, shards, tail, size, d, p, i);
    }
  }

  lemma FrameLayout(c: Coder, payload: Bytes, d: nat, p: nat)
    requires d >= 1 && IsCoder(c, d, p) && HashesAre32(c)
    ensures
      var all := AllShards(c, payload, d, p);
      && |all| == d + p
      && HasLayout(Frame(c, payload, d, p), BANNER + Header(|payload|, d, p), Hashes(c, all), all, ShardSize(|payload|, d), d, p)
  {
    var size, data, all := ShardSize(|payload|, d), DataShards(payload, d), AllShards(c, payload, d, p);
    assert AddsParity(c, data, p, size);
    HashesOf32(c, all);
    AssembledLayout(BANNER + Header(|payload|, d, p), Hashes(c, all), all, Header(|payload|, d, p), size, d, p);
  }

  /** A frame has the length a reader expects. */
  lemma FrameLength(c: Coder, payload: Bytes, d: nat, p: nat)
    requires d >= 1 && IsCoder(c, d, p) && HashesAre32(c)
    ensures |Frame(c, payload, d, p)| == Expected(d, p, ShardSize(|payload|, d))
  {
    FrameLayout(c, payload, d, p);
    ExpectedIs(d, p, ShardSize(|payload|, d));
  }

  lemma ExpectedIs(d: nat, p: nat, size: nat)
    ensures Expected(d, p, size) == DataOffset(d, p) + Times(d + p, size) + 14
  {
    TimesAdd(d + p, size, 32);
    TimesIs(d + p, 32);
  }

  /** A frame after damage: it may have been cut short or grown, but more than the minimum is left. Only shards in `damaged`
      are incomplete or changed, in their data or in their stored hash; changes are noticed. */
  ghost predicate IsDamaged(c: Coder, frame: Bytes, buffer: Bytes, size: nat, d: nat, p: nat, damaged: set<nat>) {
    && Minimum(d, p, size) < |buffer| && DataOffset(d, p) <= |frame| && buffer[..HASH_OFFSET] == frame[..HASH_OFFSET]
    && forall i :: 0 <= i < d + p ==> DamagedAt(c, frame, buffer, size, d, p, damaged, i)
  }

  ghost predicate DamagedAt(c: Coder, frame: Bytes, buffer: Bytes, size: nat, d: nat, p: nat, damaged: set<nat>, i: nat)
    requires DataOffset(d, p) <= |buffer| && DataOffset(d, p) <= |frame| && i < d + p
  {
    if i in damaged then Verifies(c, buffer, size, d, p, i) ==> SameShard(frame, buffer, size, d, p, i)
    else
      && SameShard(frame, buffer, size, d, p, i)
      && buffer[HASH_OFFSET + i * 32..HASH_OFFSET + (i + 1) * 32] == frame[HASH_OFFSET + i * 32..HASH_OFFSET + (i + 1) * 32]
  }

  predicate SameShard(frame: Bytes, buffer: Bytes, size: nat, d: nat, p: nat, i: nat) {
    IsComplete(frame, size, d, p, i) ==> ShardIs(buffer, size, d, p, i, Shard(frame, size, d, p, i))
  }

  function CountIn(damaged: set<nat>, n: nat): (k: nat) {
    if n == 0 then 0 else CountIn(damaged, n - 1) + if n - 1 in damaged then 1 else 0
  }

  lemma {:induction false} CountInBound(damaged: set<nat>, n: nat)
    ensures CountIn(damaged, n) <= |damaged|
  {
    if n > 0 {
      if n - 1 in damaged {
        CountInBound(damaged - {n - 1}, n - 1);
        CountInWithout(damaged, n - 1, n - 1);
      } else {
        CountInBound(damaged, n - 1);
      }
    }
  }

  lemma {:induction false} CountInWithout(damaged: set<nat>, x: nat, n: nat)
    requires n <= x
    ensures CountIn(damaged - {x}, n) == CountIn(damaged, n)
  {
    if n > 0 {
      CountInWithout(damaged, x, n - 1);
    }
  }

  lemma {:induction false} UndamagedVerify(c: Coder, frame: Bytes, head: Bytes, all: seq<Bytes>, buffer: Bytes, size: nat, d: nat, p: nat,
                                           damaged: set<nat>, n: nat)
    requires n <= d + p == |all| && HasLayout(frame, head, Hashes(c, all), all, size, d, p)
    requires IsDamaged(c, frame, buffer, size, d, p, damaged)
    ensures Verified(c, buffer, size, d, p, n) + CountIn(damaged, n) >= n
  {
    if n > 0 {
      UndamagedVerify(c, frame, head, all, buffer, size, d, p, damaged, n - 1);
      if n - 1 !in damaged {
        UndamagedIsGood(c, frame, head, all, buffer, size, d, p, damaged, n - 1);
      }
    }
  }

  lemma UndamagedIsGood(c: Coder, frame: Bytes, head: Bytes, all: seq<Bytes>, buffer: Bytes, size: nat, d: nat, p: nat, damaged: set<nat>, i: nat)
    requires i < d + p == |all| && i !in damaged && HasLayout(frame, head, Hashes(c, all), all, size, d, p)
    requires IsDamaged(c, frame, buffer, size, d, p, damaged)
    ensures GoodOne(c, buffer, size, d, p, i).Some?
  {
    assert DamagedAt(c, frame, buffer, size, d, p, damaged, i);
    assert HasShard(frame, Hashes(c, all), all, size, d, p, i);
  }

  lemma DamagedIsIntact(c: Coder, frame: Bytes, head: Bytes, all: seq<Bytes>, buffer: Bytes, size: nat, d: nat, p: nat, damaged: set<nat>, i: nat)
    requires i < d + p == |all| && HasLayout(frame, head, Hashes(c, all), all, size, d, p)
    requires IsDamaged(c, frame, buffer, size, d, p, damaged)
    ensures IsIntact(c, buffer, size, d, p, all, i)
  {
    assert DamagedAt(c, frame, buffer, size, d, p, damaged, i);
    assert HasShard(frame, Hashes(c, all), all, size, d, p, i);
  }

  lemma DamagedShardsReadable(c: Coder, frame: Bytes, head: Bytes, data: seq<Bytes>, buffer: Bytes, size: nat, d: nat, p: nat, damaged: set<nat>)
    requires |data| == d && AllOfSize(data, size) && |data + c.parity(data, p)| == d + p && |damaged| <= p
    requires HasLayout(frame, head, Hashes(c, data + c.parity(data, p)), data + c.parity(data, p), size, d, p)
    requires IsDamaged(c, frame, buffer, size, d, p, damaged)
    ensures ShardsReadable(c, buffer, data, size, d, p) && buffer[..HASH_OFFSET] == head
  {
    var all := data + c.parity(data, p);
    TimesGrow(d, d + p, size);
    forall i | 0 <= i < d + p ensures IsIntact(c, buffer, size, d, p, all, i) {
      DamagedIsIntact(c, frame, head, all, buffer, size, d, p, damaged, i);
    }
    UndamagedVerify(c, frame, head, all, buffer, size, d, p, damaged, d + p);
    CountInBound(damaged, d + p);
  }

  /** A frame of which at most `p` shards are lost or changed can be read; together with `Unframe`, its payload comes back. */
  lemma DamagedIsReadable(c: Coder, payload: Bytes, buffer: Bytes, d: nat, p: nat, damaged: set<nat>)
    requires d >= 1 && IsCoder(c, d, p) && HashesAre32(c) && |damaged| <= p
    requires IsDamaged(c, Frame(c, payload, d, p), buffer, ShardSize(|payload|, d), d, p, damaged)
    ensures IsReadable(c, buffer, payload, d, p)
  {
    FrameLayout(c, payload, d, p);
    DamagedShardsReadable(c, Frame(c, payload, d, p), BANNER + Header(|payload|, d, p), DataShards(payload, d), buffer,
                          ShardSize(|payload|, d), d, p, damaged);
  }

  /** The parity shards from the `k`th on. */
  function Lost(k: nat, n: nat): (lost: set<nat>)
    requires k <= n
    ensures |lost| == n - k && forall i :: i in lost <==> k <= i < n
  {
    if k == n then {} else Lost(k, n - 1) + {n - 1}
  }

  /** The number of shards a buffer holds in full. */
  function Held(length: nat, size: nat, d: nat, p: nat, n: nat): (k: nat)
    ensures k <= n && (k < n ==> ShardStart(size, d, p, k) + size > length) && (k > 0 ==> ShardStart(size, d, p, k - 1) + size <= length)
  {
    if n == 0 || ShardStart(size, d, p, n - 1) + size <= length then n else Held(length, size, d, p, n - 1)
  }

  lemma CutIsDamaged(c: Coder, frame: Bytes, head: Bytes, all: seq<Bytes>, size: nat, d: nat, p: nat, n: nat, k: nat)
    requires |all| == d + p && HasLayout(frame, head, Hashes(c, all), all, size, d, p)
    requires Minimum(d, p, size) < n <= |frame| && k == Held(n, size, d, p, d + p)
    ensures IsDamaged(c, frame, frame[..n], size, d, p, Lost(k, d + p))
  {
    var buffer, lost := frame[..n], Lost(k, d + p);
    forall i | 0 <= i < d + p ensures DamagedAt(c, frame, buffer, size, d, p, lost, i) {
      if IsComplete(buffer, size, d, p, i) {
        assert Shard(buffer, size, d, p, i) == Shard(frame, size, d, p, i);
      }
      if i < k {
        TimesGrow(i + 1, k, size);
        assert IsComplete(buffer, size, d, p, i);
      }
    }
  }

  lemma MinimumBelowFrame(c: Coder, payload: Bytes, d: nat, p: nat)
    requires d >= 1 && IsCoder(c, d, p) && HashesAre32(c)
    ensures Minimum(d, p, ShardSize(|payload|, d)) < |Frame(c, payload, d, p)|
  {
    FrameLength(c, payload, d, p);
    MinimumBelowExpected(d, p, ShardSize(|payload|, d));
  }

  lemma MinimumBelowExpected(d: nat, p: nat, size: nat)
    ensures Minimum(d, p, size) < Expected(d, p, size)
  {
    ExpectedIs(d, p, size);
    TimesGrow(d, d + p, size);
  }

  lemma HoldsData(length: nat, size: nat, d: nat, p: nat)
    requires Minimum(d, p, size) < length
    ensures Held(length, size, d, p, d + p) >= d
  {
    var k := Held(length, size, d, p, d + p);
    if k < d {
      TimesGrow(k + 1, d, size);
    }
  }

  /** A frame that is cut short can be read as long as more than the minimum is left. */
  lemma TruncatedIsReadable(c: Coder, payload: Bytes, d: nat, p: nat, n: nat)
    requires d >= 1 && IsCoder(c, d, p) && HashesAre32(c)
    requires Minimum(d, p, ShardSize(|payload|, d)) < n <= |Frame(c, payload, d, p)|
    ensures IsReadable(c, Frame(c, payload, d, p)[..n], payload, d, p)
  {
    var size, all := ShardSize(|payload|, d), AllShards(c, payload, d, p);
    var k := Held(n, size, d, p, d + p);
    FrameLayout(c, payload, d, p);
    HoldsData(n, size, d, p);
    CutIsDamaged(c, Frame(c, payload, d, p), BANNER + Header(|payload|, d, p), all, size, d, p, n, k);
    DamagedIsReadable(c, payload, Frame(c, payload, d, p)[..n], d, p, Lost(k, d + p));
  }

  // ---------- a coder that meets the assumptions ----------

  function FirstOf(partial: seq<Option<Bytes>>): (s: Bytes) {
    if partial == [] then [] else if partial[0].Some? then partial[0].value else FirstOf(partial[1..])
  }

  /** One data shard, and parity shards that repeat it. */
  function Mirror(hash: Bytes -> Bytes): (c: Coder) {
    Coder((data: seq<Bytes>, p: nat) => if data == [] then [] else Repeat(data[0], p),
          (partial: seq<Option<Bytes>>, d: nat) => [FirstOf(partial)], hash)
  }

  lemma {:induction false} SomeIsCounted(partial: seq<Option<Bytes>>, n: nat) returns (i: nat)
    requires n <= |partial| && Count(partial, n) > 0
    ensures i < n && partial[i].Some?
  {
    if partial[n - 1].Some? {
      i := n - 1;
    } else {
      i := SomeIsCounted(partial, n - 1);
    }
  }

  lemma {:induction false} FirstIs(partial: seq<Option<Bytes>>, s: Bytes, i: nat)
    requires forall k :: 0 <= k < |partial| && partial[k].Some? ==> partial[k].value == s
    requires i < |partial| && partial[i].Some?
    ensures FirstOf(partial) == s
    decreases |partial|
  {
    if partial[0].None? {
      FirstIs(partial[1..], s, i - 1);
    }
  }

  lemma MirrorIsCoder(hash: Bytes -> Bytes, p: nat)
    ensures IsCoder(Mirror(hash), 1, p)
  {
    var c := Mirror(hash);
    forall data: seq<Bytes>, size: nat, partial | |data| == 1 ensures Rebuilds(c, data, p, size, partial) {
      var all := data + c.parity(data, p);
      assert forall i :: 0 <= i < |all| ==> all[i] == data[0];
      if Agrees(partial, all) && Available(partial) >= 1 {
        var i := SomeIsCounted(partial, |partial|);
        FirstIs(partial, data[0], i);
      }
    }
  }
}
