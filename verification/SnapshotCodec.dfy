/**
 The entry stream of a snapshot: the chunk list is compacted to the chunks files use, and chunk indices are stored as
 differences (src/duplicacy_backupmanager.go, src/duplicacy_snapshot.go).
 */
module SnapshotCodec {
  import opened Wrappers
  import opened Entries
  import opened EntryLists
  import opened Positions

  const ROOT_MARKER := -9
  const TARGET_MARKER := -10

  // ---------- hard links ----------

  predicate IsHardLinkRoot(e: Entry) {
    (e.kind.File? && e.link == "/") || (!e.kind.Dir? && e.endChunk == ROOT_MARKER)
  }

  predicate IsHardLinkChild(e: Entry) {
    (e.kind.File? && |e.link| > 0 && e.link != "/") || (!e.kind.Dir? && e.endChunk == TARGET_MARKER)
  }

  function HexDigit(n: nat): (c: char)
    requires n < 16
  {
    if n < 10 then '0' + n as char else 'a' + (n - 10) as char
  }

  /** Digits in either case, as the parser takes them. */
  function HexValue(c: char): (n: Option<nat>) {
    if '0' <= c <= '9' then Some((c - '0') as nat)
    else if 'a' <= c <= 'f' then Some((c - 'a') as nat + 10)
    else if 'A' <= c <= 'F' then Some((c - 'A') as nat + 10)
    else None
  }

  const ID_LIMIT: nat := 0x1_0000_0000_0000_0000

  function FormatHex(n: nat): (s: string) {
    if n < 16 then [HexDigit(n)] else FormatHex(n / 16) + [HexDigit(n % 16)]
  }

  /** Fails on the empty string, on any other character and on 64-bit overflow. */
  function ParseHex(s: string): (n: Option<nat>) {
    if s == [] then None
    else
      var low := HexValue(s[|s| - 1]);
      if low.None? then None
      else if |s| == 1 then low
      else
        var high := ParseHex(s[..|s| - 1]);
        if high.None? || high.value * 16 + low.value >= ID_LIMIT then None else Some(high.value * 16 + low.value)
  }

  /** A hexadecimal digit by its code, in either case. */
  predicate IsDigit(c: char, d: nat) {
    (d < 10 && c as int == 48 + d) || (10 <= d < 16 && (c as int == 87 + d || c as int == 55 + d))
  }

  /** The digits of a number, highest first. */
  ghost predicate Spells(s: string, n: nat) {
    if s == [] then n == 0 else IsDigit(s[|s| - 1], n % 16) && Spells(s[..|s| - 1], n / 16)
  }

  lemma DigitIs(c: char, d: nat)
    ensures HexValue(c) == Some(d) <==> IsDigit(c, d)
    ensures HexValue(c).Some? ==> HexValue(c).value < 16
  {
  }

  lemma JoinDigit(high: nat, low: nat, n: nat)
    requires low < 16
    ensures high * 16 + low == n <==> high == n / 16 && low == n % 16
  {
  }

  /** A text is parsed exactly when it spells a number of 64 bits, and then as that number. */
  lemma {:induction false} ParsesIfSpelt(s: string, n: nat)
    ensures ParseHex(s) == Some(n) <==> s != [] && Spells(s, n) && n < 0x1_0000_0000_0000_0000
  {
    if s != [] {
      var last, rest := HexValue(s[|s| - 1]), ParseHex(s[..|s| - 1]);
      DigitIs(s[|s| - 1], n % 16);
      ParsesIfSpelt(s[..|s| - 1], n / 16);
      if last.Some? && rest.Some? {
        JoinDigit(rest.value, last.value, n);
      }
    }
  }

  lemma {:induction false} LinkIdRoundTrip(n: nat)
    requires n < ID_LIMIT
    ensures ParseHex(FormatHex(n)) == Some(n)
    ensures FormatHex(n) != "/" && |FormatHex(n)| > 0
    ensures forall i :: 0 <= i < |FormatHex(n)| ==> '0' <= FormatHex(n)[i] <= '9' || 'a' <= FormatHex(n)[i] <= 'f'
  {
    var s := FormatHex(n);
    if n >= 16 {
      LinkIdRoundTrip(n / 16);
      assert s[..|s| - 1] == FormatHex(n / 16);
      assert HexValue(s[|s| - 1]) == Some(n % 16);
    }
  }

  function HardLinkId(e: Entry): (id: Option<nat>) {
    if e.kind.File? then ParseHex(e.link)
    else if e.endChunk != TARGET_MARKER || e.endOffset < 0 then None
    else Some(e.endOffset)
  }

  /** The entry of a further link: everything but the path comes from the first one. */
  function HardLinkTo(e: Entry, target: Entry, startChunk: int, endChunk: int): (r: Entry) {
    if target.kind.File? then
      target.(path := e.path, link := e.link, startChunk := startChunk, endChunk := endChunk)
    else
      target.(path := e.path, endChunk := e.endChunk, endOffset := e.endOffset)
  }

  // ---------- encoding ----------

  predicate HasContent(e: Entry) {
    e.kind.File? && e.size > 0
  }

  /** A first link as it was encoded, and where its content starts in the compacted list. */
  datatype Row = Row(entry: Entry, start: int)

  datatype Encoder = Encoder(chunks: seq<ChunkRef>, lastChunk: int, lastEnd: int, table: seq<Row>)

  const EMPTY_ENCODER := Encoder([], -1, 0, [])

  /** The chunk where an entry's content starts in the compacted list: the last one again, or a new one. */
  function NewStart(s: Encoder, e: Entry): (at: int) {
    if e.startChunk == s.lastChunk then |s.chunks| - 1 else |s.chunks|
  }

  function NewChunks(full: seq<ChunkRef>, s: Encoder, e: Entry): (added: seq<ChunkRef>)
    requires 0 <= e.startChunk <= e.endChunk < |full|
  {
    full[if e.startChunk == s.lastChunk then e.startChunk + 1 else e.startChunk..e.endChunk + 1]
  }

  datatype Coded = Coded(state: Encoder, entry: Entry) | CodeError

  function EncodeOne(full: seq<ChunkRef>, s: Encoder, e: Entry): (c: Coded)
    requires HasContent(e) ==> 0 <= e.startChunk <= e.endChunk < |full|
  {
    if HasContent(e) then
      var at, n := NewStart(s, e), e.endChunk - e.startChunk;
      var x := e.(startChunk := at - s.lastEnd, endChunk := n);
      Coded(Encoder(s.chunks + NewChunks(full, s, e), e.endChunk, at + n,
                    s.table + if IsHardLinkRoot(e) then [Row(x, at)] else []), x)
    else if IsHardLinkChild(e) then
      match HardLinkId(e)
      case None => CodeError
      case Some(id) =>
        if id >= |s.table| then CodeError
        else
          var row := s.table[id];
          if HasContent(row.entry) then
            Coded(s.(lastEnd := row.start + row.entry.endChunk),
                  HardLinkTo(e, row.entry, row.start - s.lastEnd, row.entry.endChunk))
          else Coded(s, HardLinkTo(e, row.entry, 0, 0))
    else Coded(s.(table := s.table + if IsHardLinkRoot(e) then [Row(e, 0)] else []), e)
  }

  datatype Encoded = Encoded(state: Encoder, entries: seq<Entry>) | EncodeError

  predicate InRange(full: seq<ChunkRef>, entries: seq<Entry>) {
    forall k :: 0 <= k < |entries| ==> Fits(Lengths(full), entries[k])
  }

  /** The stream after the first `k` entries. */
  function Encode(full: seq<ChunkRef>, entries: seq<Entry>, k: nat): (r: Encoded)
    requires k <= |entries| && InRange(full, entries)
  {
    if k == 0 then Encoded(EMPTY_ENCODER, [])
    else
      match Encode(full, entries, k - 1)
      case EncodeError => EncodeError
      case Encoded(s, out) =>
        assert Fits(Lengths(full), entries[k - 1]);
        match EncodeOne(full, s, entries[k - 1])
        case CodeError => EncodeError
        case Coded(s', x) => Encoded(s', out + [x])
  }

  /** The encoder as it runs: chunk indices are edited in place, chunk by chunk. */
  class SnapshotEncoder {
    var chunks: seq<ChunkRef>
    var lastChunk: int
    var lastEndChunk: int
    var table: seq<Row>
    var out: seq<Entry>

    ghost function State(): (s: Encoder)
      reads this
    {
      Encoder(chunks, lastChunk, lastEndChunk, table)
    }

    constructor ()
      ensures State() == EMPTY_ENCODER && out == []
    {
      chunks, lastChunk, lastEndChunk, table, out := [], -1, 0, [], [];
    }

    method Compact(full: seq<ChunkRef>, e: Entry) returns (x: Entry)
      requires 0 <= e.startChunk <= e.endChunk < |full|
      modifies this`chunks, this`lastChunk
      ensures chunks == old(chunks) + NewChunks(full, old(State()), e) && lastChunk == e.endChunk
      ensures x == e.(startChunk := NewStart(old(State()), e), endChunk := NewStart(old(State()), e) + e.endChunk - e.startChunk)
    {
      ghost var first := if e.startChunk == lastChunk then e.startChunk + 1 else e.startChunk;
      var delta := e.startChunk - |chunks| + 1;
      if e.startChunk != lastChunk {
        chunks := chunks + [full[e.startChunk]];
        delta := delta - 1;
      }
      var i := e.startChunk + 1;
      while i <= e.endChunk
        invariant e.startChunk + 1 <= i <= e.endChunk + 1
        invariant chunks == old(chunks) + full[first..i]
      {
        chunks := chunks + [full[i]];
        i := i + 1;
      }
      lastChunk := e.endChunk;
      x := e.(startChunk := e.startChunk - delta, endChunk := e.endChunk - delta);
    }

    method Add(full: seq<ChunkRef>, e: Entry) returns (ok: bool)
      requires Fits(Lengths(full), e)
      modifies this
      ensures match EncodeOne(full, old(State()), e)
              case CodeError => !ok && State() == old(State()) && out == old(out)
              case Coded(s, x) => ok && State() == s && out == old(out) + [x]
    {
      var x := e;
      if e.kind.File? && e.size > 0 {
        x := Compact(full, e);
        var start := x.startChunk;
        var delta := x.endChunk - x.startChunk;
        x := x.(startChunk := x.startChunk - lastEndChunk);
        lastEndChunk := x.endChunk;
        x := x.(endChunk := delta);
        if IsHardLinkRoot(e) {
          table := table + [Row(x, start)];
        }
      } else if IsHardLinkChild(e) {
        var id := HardLinkId(e);
        if id.None? || id.value >= |table| {
          return false;
        }
        var target := table[id.value].entry;
        var startChunk, endChunk := 0, 0;
        if target.kind.File? && target.size > 0 {
          startChunk := table[id.value].start - lastEndChunk;
          endChunk := target.endChunk;
          lastEndChunk := table[id.value].start + endChunk;
        }
        x := HardLinkTo(e, target, startChunk, endChunk);
      } else if IsHardLinkRoot(e) {
        table := table + [Row(e, 0)];
      }
      out := out + [x];
      ok := true;
    }

    method AddAll(full: seq<ChunkRef>, entries: seq<Entry>) returns (ok: bool)
      requires State() == EMPTY_ENCODER && out == [] && InRange(full, entries)
      modifies this
      ensures ok <==> Encode(full, entries, |entries|).Encoded?
      ensures ok ==> Encode(full, entries, |entries|) == Encoded(State(), out)
    {
      var k := 0;
      while k < |entries|
        invariant k <= |entries| && Encode(full, entries, k) == Encoded(State(), out)
      {
        assert Fits(Lengths(full), entries[k]);
        var good := Add(full, entries[k]);
        k := k + 1;
        if !good {
          EncodeErrorStays(full, entries, k, |entries|);
          return false;
        }
      }
      ok := true;
    }
  }

  lemma {:induction false} EncodeErrorStays(full: seq<ChunkRef>, entries: seq<Entry>, k: nat, n: nat)
    requires k <= n <= |entries| && InRange(full, entries) && Encode(full, entries, k).EncodeError?
    ensures Encode(full, entries, n).EncodeError?
  {
    if k < n {
      EncodeErrorStays(full, entries, k, n - 1);
    }
  }

  // ---------- decoding ----------

  /** The last chunk of the file before the `k`th entry. */
  function LastEnd(encoded: seq<Entry>, k: nat): (n: int)
    requires k <= |encoded|
  {
    if k == 0 then 0
    else if !encoded[k - 1].kind.File? then LastEnd(encoded, k - 1)
    else LastEnd(encoded, k - 1) + encoded[k - 1].startChunk + encoded[k - 1].endChunk
  }

  function Absolute(e: Entry, lastEnd: int): (d: Entry) {
    if e.kind.File? then e.(startChunk := e.startChunk + lastEnd, endChunk := e.endChunk + (e.startChunk + lastEnd)) else e
  }

  function DecodeAt(encoded: seq<Entry>, k: nat): (d: Entry)
    requires k < |encoded|
  {
    Absolute(encoded[k], LastEnd(encoded, k))
  }

  /** Reads the stream back; the first entry that does not fit the chunk list ends it. */
  method Decode(encoded: seq<Entry>, lengths: seq<nat>) returns (entries: seq<Entry>, ok: bool)
    ensures ok <==> forall k :: 0 <= k < |encoded| ==> Fits(lengths, DecodeAt(encoded, k))
    ensures |entries| <= |encoded| && forall k :: 0 <= k < |entries| ==> entries[k] == DecodeAt(encoded, k)
    ensures ok ==> |entries| == |encoded|
  {
    entries, ok := [], true;
    var lastEndChunk, k := 0, 0;
    while k < |encoded|
      invariant 0 <= k == |entries| <= |encoded| && lastEndChunk == LastEnd(encoded, k)
      invariant forall i :: 0 <= i < k ==> entries[i] == DecodeAt(encoded, i) && Fits(lengths, DecodeAt(encoded, i))
    {
      var e := encoded[k];
      if e.kind.File? {
        e := e.(startChunk := e.startChunk + lastEndChunk);
        e := e.(endChunk := e.endChunk + e.startChunk);
        lastEndChunk := e.endChunk;
      }
      assert e == DecodeAt(encoded, k);
      var good := CheckEntry(lengths, e);
      if !good {
        return entries, false;
      }
      entries := entries + [e];
      k := k + 1;
    }
  }

  // ---------- decoding undoes encoding ----------

  predicate IsLinked(e: Entry) {
    !HasContent(e) && IsHardLinkChild(e)
  }

  predicate IsFirstLink(e: Entry) {
    !IsLinked(e) && IsHardLinkRoot(e)
  }

  /** The first links among the first `k` entries. */
  function Roots(entries: seq<Entry>, k: nat): (r: seq<nat>)
    requires k <= |entries|
    ensures forall i :: 0 <= i < |r| ==> r[i] < k
  {
    if k == 0 then []
    else if IsFirstLink(entries[k - 1]) then Roots(entries, k - 1) + [k - 1]
    else Roots(entries, k - 1)
  }

  /** What the lister and back-annotation hand over: empty and pending files have no range, further links name an earlier first link
      of their own kind. */
  predicate WellFormedAt(entries: seq<Entry>, k: nat)
    requires k < |entries|
  {
    var e := entries[k];
    && (e.kind.File? && e.size <= 0 && !IsHardLinkChild(e) ==> e.startChunk == e.endChunk == 0)
    && (IsLinked(e) ==>
          && HardLinkId(e).Some? && HardLinkId(e).value < |Roots(entries, k)|
          && entries[Roots(entries, k)[HardLinkId(e).value]].kind == e.kind)
  }

  predicate WellFormed(entries: seq<Entry>) {
    forall k :: 0 <= k < |entries| ==> WellFormedAt(entries, k)
  }

  /** The entry a reader should get, with its content where the full chunk list has it. */
  function Resolve(entries: seq<Entry>, k: nat): (r: Entry)
    requires k < |entries| && WellFormedAt(entries, k)
  {
    var e := entries[k];
    if IsLinked(e) then
      var root := entries[Roots(entries, k)[HardLinkId(e).value]];
      HardLinkTo(e, root, root.startChunk, root.endChunk)
    else e
  }

  /** The chunks of `e` in the full list are those from `at` on in the compacted one. */
  ghost predicate SameChunks(full: seq<ChunkRef>, chunks: seq<ChunkRef>, e: Entry, at: int) {
    && 0 <= e.startChunk <= e.endChunk < |full|
    && 0 <= at && at + (e.endChunk - e.startChunk) < |chunks|
    && chunks[at..at + (e.endChunk - e.startChunk) + 1] == full[e.startChunk..e.endChunk + 1]
  }

  /** `d` is `r` with its chunks found again in the compacted list. */
  ghost predicate Recovers(full: seq<ChunkRef>, chunks: seq<ChunkRef>, r: Entry, d: Entry) {
    && (if r.kind.File? then d == r.(startChunk := d.startChunk, endChunk := d.endChunk) else d == r)
    && (r.kind.File? ==> d.endChunk >= 0)
    && (HasContent(r) ==> d.endChunk - d.startChunk == r.endChunk - r.startChunk && SameChunks(full, chunks, r, d.startChunk))
  }

  ghost predicate RowFor(full: seq<ChunkRef>, chunks: seq<ChunkRef>, e: Entry, row: Row) {
    if HasContent(e) then
      && row.entry == e.(startChunk := row.entry.startChunk, endChunk := e.endChunk - e.startChunk)
      && SameChunks(full, chunks, e, row.start)
    else row.entry == e && (e.kind.File? ==> e.startChunk == e.endChunk == 0)
  }

  ghost predicate TableFor(full: seq<ChunkRef>, entries: seq<Entry>, k: nat, s: Encoder)
    requires k <= |entries|
  {
    var roots := Roots(entries, k);
    |s.table| == |roots| && forall i :: 0 <= i < |roots| ==> RowFor(full, s.chunks, entries[roots[i]], s.table[i])
  }

  ghost predicate LastFor(full: seq<ChunkRef>, s: Encoder) {
    s.lastEnd >= 0 && if s.chunks == [] then s.lastChunk == -1
    else 0 <= s.lastChunk < |full| && s.chunks[|s.chunks| - 1] == full[s.lastChunk]
  }

  lemma SameChunksGrow(full: seq<ChunkRef>, chunks: seq<ChunkRef>, more: seq<ChunkRef>, e: Entry, at: int)
    requires SameChunks(full, chunks, e, at)
    ensures SameChunks(full, chunks + more, e, at)
  {
    var n := at + (e.endChunk - e.startChunk) + 1;
    assert (chunks + more)[at..n] == chunks[at..n];
  }

  lemma SameChunkAt(full: seq<ChunkRef>, chunks: seq<ChunkRef>, e: Entry, at: nat, n: nat)
    requires SameChunks(full, chunks, e, at) && n <= e.endChunk - e.startChunk
    ensures chunks[at + n] == full[e.startChunk + n]
  {
    assert chunks[at..at + (e.endChunk - e.startChunk) + 1][n] == full[e.startChunk..e.endChunk + 1][n];
  }

  lemma CompactedAgain(full: seq<ChunkRef>, s: Encoder, e: Entry)
    requires LastFor(full, s) && 0 <= e.startChunk <= e.endChunk < |full|
    ensures SameChunks(full, s.chunks + NewChunks(full, s, e), e, NewStart(s, e))
    ensures LastFor(full, s.(chunks := s.chunks + NewChunks(full, s, e), lastChunk := e.endChunk))
  {
    var slice, at := full[e.startChunk..e.endChunk + 1], NewStart(s, e);
    assert s.chunks + NewChunks(full, s, e) == s.chunks[..at] + slice;
    TailIs(s.chunks[..at], slice);
    assert slice[|slice| - 1] == full[e.endChunk];
  }

  lemma TailIs(head: seq<ChunkRef>, tail: seq<ChunkRef>)
    requires tail != []
    ensures (head + tail)[|head|..|head| + |tail|] == tail && (head + tail)[|head| + |tail| - 1] == tail[|tail| - 1]
  {
  }

  lemma {:induction false} LastEndOfPrefix(encoded: seq<Entry>, x: Entry, k: nat)
    requires k <= |encoded|
    ensures LastEnd(encoded + [x], k) == LastEnd(encoded, k)
  {
    if k > 0 {
      LastEndOfPrefix(encoded, x, k - 1);
    }
  }

  /** What holds after the first `k` entries. */
  ghost predicate Upto(full: seq<ChunkRef>, entries: seq<Entry>, k: nat)
    requires k <= |entries| && InRange(full, entries) && WellFormed(entries)
  {
    match Encode(full, entries, k)
    case EncodeError => false
    case Encoded(s, out) =>
      && |out| == k && s.lastEnd == LastEnd(out, k)
      && LastFor(full, s) && TableFor(full, entries, k, s)
      && forall i :: 0 <= i < k ==> Recovers(full, s.chunks, Resolve(entries, i), DecodeAt(out, i))
  }

  /** One entry, encoded and decoded again, comes back as `r`. */
  ghost predicate Stepped(full: seq<ChunkRef>, s: Encoder, c: Coded, r: Entry) {
    && c.Coded? && LastFor(full, c.state)
    && Recovers(full, c.state.chunks, r, Absolute(c.entry, s.lastEnd))
    && c.state.lastEnd == s.lastEnd + if c.entry.kind.File? then c.entry.startChunk + c.entry.endChunk else 0
  }

  lemma ContentRecovers(full: seq<ChunkRef>, s: Encoder, e: Entry)
    requires HasContent(e) && LastFor(full, s) && 0 <= e.startChunk <= e.endChunk < |full|
    ensures Stepped(full, s, EncodeOne(full, s, e), e)
  {
    CompactedAgain(full, s, e);
  }

  lemma LinkRecovers(full: seq<ChunkRef>, s: Encoder, e: Entry, root: Entry, id: nat)
    requires IsLinked(e) && LastFor(full, s) && HardLinkId(e) == Some(id) && id < |s.table| && RowFor(full, s.chunks, root, s.table[id])
    requires root.kind == e.kind
    ensures Stepped(full, s, EncodeOne(full, s, e), HardLinkTo(e, root, root.startChunk, root.endChunk))
  {
  }

  lemma StepRecovers(full: seq<ChunkRef>, entries: seq<Entry>, k: nat, s: Encoder)
    requires k < |entries| && Fits(Lengths(full), entries[k]) && WellFormedAt(entries, k)
    requires LastFor(full, s) && TableFor(full, entries, k, s)
    ensures Stepped(full, s, EncodeOne(full, s, entries[k]), Resolve(entries, k))
  {
    var e := entries[k];
    if HasContent(e) {
      ContentRecovers(full, s, e);
    } else if IsLinked(e) {
      var id := HardLinkId(e).value;
      LinkRecovers(full, s, e, entries[Roots(entries, k)[id]], id);
    }
  }

  /** The chunks an entry adds. */
  ghost function Added(full: seq<ChunkRef>, s: Encoder, e: Entry): (added: seq<ChunkRef>)
    requires Fits(Lengths(full), e)
  {
    if HasContent(e) then NewChunks(full, s, e) else []
  }

  lemma StepTable(full: seq<ChunkRef>, entries: seq<Entry>, k: nat, s: Encoder)
    requires k < |entries| && Fits(Lengths(full), entries[k]) && WellFormedAt(entries, k)
    requires LastFor(full, s) && TableFor(full, entries, k, s) && EncodeOne(full, s, entries[k]).Coded?
    ensures EncodeOne(full, s, entries[k]).state.chunks == s.chunks + Added(full, s, entries[k])
    ensures TableFor(full, entries, k + 1, EncodeOne(full, s, entries[k]).state)
  {
    var e, s', more := entries[k], EncodeOne(full, s, entries[k]).state, Added(full, s, entries[k]);
    if HasContent(e) {
      CompactedAgain(full, s, e);
    }
    var roots, roots' := Roots(entries, k), Roots(entries, k + 1);
    forall i | 0 <= i < |roots'| ensures |s'.table| == |roots'| && RowFor(full, s'.chunks, entries[roots'[i]], s'.table[i]) {
      if i < |roots| {
        assert RowFor(full, s.chunks, entries[roots[i]], s.table[i]);
        if HasContent(entries[roots[i]]) {
          SameChunksGrow(full, s.chunks, more, entries[roots[i]], s.table[i].start);
        }
      }
    }
  }

  lemma RecoveredStays(full: seq<ChunkRef>, chunks: seq<ChunkRef>, more: seq<ChunkRef>, r: Entry, d: Entry)
    requires Recovers(full, chunks, r, d)
    ensures Recovers(full, chunks + more, r, d)
  {
    if HasContent(r) {
      SameChunksGrow(full, chunks, more, r, d.startChunk);
    }
  }

  /** Entries that were recovered stay so. */
  lemma AllStayRecovered(full: seq<ChunkRef>, entries: seq<Entry>, k: nat, chunks: seq<ChunkRef>, more: seq<ChunkRef>, out: seq<Entry>, x: Entry)
    requires k < |entries| && WellFormed(entries) && |out| == k
    requires forall i :: 0 <= i < k ==> Recovers(full, chunks, Resolve(entries, i), DecodeAt(out, i))
    ensures forall i :: 0 <= i < k ==> Recovers(full, chunks + more, Resolve(entries, i), DecodeAt(out + [x], i))
  {
    forall i | 0 <= i < k ensures Recovers(full, chunks + more, Resolve(entries, i), DecodeAt(out + [x], i)) {
      LastEndOfPrefix(out, x, i);
      RecoveredStays(full, chunks, more, Resolve(entries, i), DecodeAt(out, i));
    }
  }

  lemma EncodeKeepsNext(full: seq<ChunkRef>, entries: seq<Entry>, k: nat)
    requires k < |entries| && InRange(full, entries) && WellFormed(entries) && Upto(full, entries, k)
    ensures Upto(full, entries, k + 1)
  {
    var s, out := Encode(full, entries, k).state, Encode(full, entries, k).entries;
    assert Fits(Lengths(full), entries[k]) && WellFormedAt(entries, k);
    StepRecovers(full, entries, k, s);
    StepTable(full, entries, k, s);
    var c := EncodeOne(full, s, entries[k]);
    LastEndOfPrefix(out, c.entry, k);
    AllStayRecovered(full, entries, k, s.chunks, Added(full, s, entries[k]), out, c.entry);
  }

  lemma {:induction false} EncodeKeeps(full: seq<ChunkRef>, entries: seq<Entry>, k: nat)
    requires k <= |entries| && InRange(full, entries) && WellFormed(entries)
    ensures Upto(full, entries, k)
  {
    if k > 0 {
      EncodeKeeps(full, entries, k - 1);
      EncodeKeepsNext(full, entries, k - 1);
    }
  }

  /** Distances within a range are the same in both lists. */
  lemma {:induction false} SameDistance(full: seq<ChunkRef>, chunks: seq<ChunkRef>, e: Entry, at: nat, n: nat)
    requires SameChunks(full, chunks, e, at) && n <= e.endChunk - e.startChunk
    ensures Pos(Lengths(chunks), at + n) - Pos(Lengths(chunks), at)
            == Pos(Lengths(full), e.startChunk + n) - Pos(Lengths(full), e.startChunk)
    ensures Lengths(chunks)[at + n] == Lengths(full)[e.startChunk + n]
  {
    SameChunkAt(full, chunks, e, at, n);
    if n > 0 {
      SameDistance(full, chunks, e, at, n - 1);
    }
  }

  lemma RecoveredFits(full: seq<ChunkRef>, chunks: seq<ChunkRef>, r: Entry, d: Entry)
    requires Recovers(full, chunks, r, d) && Fits(Lengths(full), r)
    ensures Fits(Lengths(chunks), d)
  {
    if HasContent(r) {
      SameDistance(full, chunks, r, d.startChunk, 0);
      SameDistance(full, chunks, r, d.startChunk, r.endChunk - r.startChunk);
    }
  }

  lemma ResolvedFits(full: seq<ChunkRef>, entries: seq<Entry>, k: nat)
    requires k < |entries| && InRange(full, entries) && WellFormedAt(entries, k)
    ensures Fits(Lengths(full), Resolve(entries, k))
  {
    assert Fits(Lengths(full), entries[k]);
    if IsLinked(entries[k]) {
      assert Fits(Lengths(full), entries[Roots(entries, k)[HardLinkId(entries[k]).value]]);
    }
  }

  /**
   Decoding undoes encoding: the stream is accepted, and every entry comes back with all its fields, in the compacted
   list over exactly the chunks it had in the full list; further links come back over the chunks of their first link.
   */
  lemma DecodeInvertsEncode(full: seq<ChunkRef>, entries: seq<Entry>, k: nat)
    requires k < |entries| && InRange(full, entries) && WellFormed(entries)
    ensures
      var r := Encode(full, entries, |entries|);
      && r.Encoded? && |r.entries| == |entries|
      && Fits(Lengths(r.state.chunks), DecodeAt(r.entries, k))
      && Recovers(full, r.state.chunks, Resolve(entries, k), DecodeAt(r.entries, k))
  {
    EncodeKeeps(full, entries, |entries|);
    var r := Encode(full, entries, |entries|);
    assert Recovers(full, r.state.chunks, Resolve(entries, k), DecodeAt(r.entries, k));
    ResolvedFits(full, entries, k);
    RecoveredFits(full, r.state.chunks, Resolve(entries, k), DecodeAt(r.entries, k));
  }

  /** Some file with content uses the `c`th chunk of the compacted list. */
  ghost predicate Used(encoded: seq<Entry>, c: nat) {
    exists k :: 0 <= k < |encoded| && HasContent(encoded[k]) && DecodeAt(encoded, k).startChunk <= c <= DecodeAt(encoded, k).endChunk
  }

  lemma UsedStays(encoded: seq<Entry>, x: Entry, c: nat)
    requires Used(encoded, c)
    ensures Used(encoded + [x], c)
  {
    var k :| 0 <= k < |encoded| && HasContent(encoded[k]) && DecodeAt(encoded, k).startChunk <= c <= DecodeAt(encoded, k).endChunk;
    LastEndOfPrefix(encoded, x, k);
    assert DecodeAt(encoded + [x], k) == DecodeAt(encoded, k);
  }

  /** The compacted list has no chunk that no file uses. */
  lemma {:induction false} NothingUnused(full: seq<ChunkRef>, entries: seq<Entry>, k: nat, c: nat)
    requires k <= |entries| && InRange(full, entries) && WellFormed(entries)
    requires Encode(full, entries, k).Encoded? && c < |Encode(full, entries, k).state.chunks|
    ensures Used(Encode(full, entries, k).entries, c)
  {
    var r := Encode(full, entries, k - 1);
    var s, out, e := r.state, r.entries, entries[k - 1];
    EncodeKeeps(full, entries, k - 1);
    assert Fits(Lengths(full), e);
    var x := EncodeOne(full, s, e).entry;
    LastEndOfPrefix(out, x, k - 1);
    if c < |s.chunks| {
      NothingUnused(full, entries, k - 1, c);
      UsedStays(out, x, c);
    } else {
      assert (out + [x])[k - 1] == x && DecodeAt(out + [x], k - 1) == Absolute(x, s.lastEnd);
    }
  }
}
