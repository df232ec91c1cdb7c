/**
 The list of entries a backup keeps: entries known from the previous snapshot carry their chunk ranges, modified files
 get theirs once all chunks are uploaded (src/duplicacy_entrylist.go).
 */
module EntryLists {
  import opened Positions
  import opened Entries

  datatype Modified = Modified(path: string, size: int, hash: Hash)

  function Lengths(refs: seq<ChunkRef>): (l: seq<nat>)
    ensures |l| == |refs|
  {
    seq(|refs|, i requires 0 <= i < |refs| => refs[i].length)
  }

  /** A file's range lies within the chunks and spans exactly its size. */
  predicate Fits(lengths: seq<nat>, e: Entry) {
    && e.size >= 0
    && (e.kind.File? && e.size > 0 ==>
          && 0 <= e.startChunk <= e.endChunk < |lengths|
          && e.startOffset < lengths[e.startChunk] && e.endOffset <= lengths[e.endChunk]
          && Pos(lengths, e.endChunk) + e.endOffset == Pos(lengths, e.startChunk) + e.startOffset + e.size)
  }

  method CheckEntry(lengths: seq<nat>, e: Entry) returns (ok: bool)
    ensures ok <==> Fits(lengths, e)
  {
    if e.size < 0 { return false; }
    if !e.kind.File? || e.size == 0 { return true; }
    if e.startChunk < 0 || e.endChunk >= |lengths| || e.endChunk < e.startChunk { return false; }
    if e.startOffset >= lengths[e.startChunk] || e.endOffset > lengths[e.endChunk] { return false; }
    var fileSize, i := 0, e.startChunk;
    while i <= e.endChunk
      invariant e.startChunk <= i <= e.endChunk + 1
      invariant i == e.startChunk ==> fileSize == 0
      invariant e.startChunk < i <= e.endChunk ==> fileSize == Pos(lengths, i) - Pos(lengths, e.startChunk) - e.startOffset
      invariant i > e.endChunk ==>
        fileSize == Pos(lengths, e.endChunk) + e.endOffset - Pos(lengths, e.startChunk) - e.startOffset
    {
      var start := if i == e.startChunk then e.startOffset else 0;
      var end := if i == e.endChunk then e.endOffset else lengths[i];
      fileSize := fileSize + (end - start);
      i := i + 1;
    }
    return e.size == fileSize;
  }

  // ---------- what back-annotation means ----------

  /** A modified file put at a position of the uploaded stream: it runs from the chunk that holds its first byte to
      the chunk that holds its last. */
  function Placed(preserved: nat, uploaded: seq<nat>, e: Entry, m: Modified, from: nat): (r: Entry)
    requires m.size > 0 && from + m.size <= Total(uploaded)
  {
    var first, last := ChunkAt(uploaded, from), ChunkAt(uploaded, from + m.size - 1);
    e.(size := m.size, hash := m.hash,
       startChunk := preserved + first, startOffset := from - Pos(uploaded, first),
       endChunk := preserved + last, endOffset := from + m.size - Pos(uploaded, last))
  }

  datatype Listing = Listing(sent: seq<Entry>, ok: bool)

  /** What becomes of one entry, given the next modified file and where its bytes would start. */
  datatype Outcome = Sent(entry: Entry) | Skipped | Refused

  /** Where the bytes of the next modified file start after an entry. */
  function After(e: Entry, modified: seq<Modified>, j: nat, from: nat): (n: nat) {
    if e.size < 0 && j < |modified| && modified[j].size > 0 then from + modified[j].size else from
  }

  function NextIndex(e: Entry, j: nat): (n: nat) {
    if e.size < 0 then j + 1 else j
  }


  function AnnotateOne(preserved: seq<nat>, uploaded: seq<nat>, e: Entry, modified: seq<Modified>, j: nat, from: nat): (o: Outcome) {
    if e.size >= 0 then
      if Fits(preserved + uploaded, e) then Sent(e) else Refused
    else if j >= |modified| || modified[j].path != e.path then Refused
    else if modified[j].size <= 0 then Skipped
    else if from + modified[j].size > Total(uploaded) then Refused
    else Sent(Placed(|preserved|, uploaded, e, modified[j], from))
  }

  /** The entries sent out from the `i`th entry and the `j`th modified file on: modified files lie one after another in
      the uploaded stream, empty or unread ones are skipped, and the first one that cannot be placed ends the listing. */
  function Annotate(preserved: seq<nat>, uploaded: seq<nat>, entries: seq<Entry>, modified: seq<Modified>,
                    i: nat, j: nat, from: nat): (l: Listing)
    decreases |entries| - i
  {
    if i >= |entries| then Listing([], true)
    else
      var rest := Annotate(preserved, uploaded, entries, modified, i + 1, NextIndex(entries[i], j), After(entries[i], modified, j, from));
      match AnnotateOne(preserved, uploaded, entries[i], modified, j, from)
      case Sent(e) => Joined([e], rest)
      case Skipped => rest
      case Refused => Listing([], false)
  }

  function Joined(sent: seq<Entry>, rest: Listing): (l: Listing) {
    Listing(sent + rest.sent, rest.ok)
  }

  lemma JoinOne(sent: seq<Entry>, preserved: seq<nat>, uploaded: seq<nat>, entries: seq<Entry>, modified: seq<Modified>,
                i: nat, j: nat, from: nat)
    requires i < |entries|
    ensures
      var rest := Annotate(preserved, uploaded, entries, modified, i + 1, NextIndex(entries[i], j), After(entries[i], modified, j, from));
      Joined(sent, Annotate(preserved, uploaded, entries, modified, i, j, from)) ==
      match AnnotateOne(preserved, uploaded, entries[i], modified, j, from)
      case Sent(e) => Joined(sent + [e], rest)
      case Skipped => Joined(sent, rest)
      case Refused => Listing(sent, false)
  {
    match AnnotateOne(preserved, uploaded, entries[i], modified, j, from)
    case Sent(e) =>
      var rest := Annotate(preserved, uploaded, entries, modified, i + 1, NextIndex(entries[i], j), After(entries[i], modified, j, from));
      assert sent + ([e] + rest.sent) == sent + [e] + rest.sent;
    case Skipped =>
    case Refused =>
  }

  lemma PlacedFits(preserved: seq<nat>, uploaded: seq<nat>, e: Entry, m: Modified, from: nat)
    requires m.size > 0 && from + m.size <= Total(uploaded)
    ensures Fits(preserved + uploaded, Placed(|preserved|, uploaded, e, m, from))
  {
    var first, last := ChunkAt(uploaded, from), ChunkAt(uploaded, from + m.size - 1);
    PosOfSuffix(preserved, uploaded, first);
    PosOfSuffix(preserved, uploaded, last);
    if last < first {
      PosMonotone(uploaded, last + 1, first);
    }
  }

  // ---------- the list itself ----------

  /** Where the next modified file starts in the uploaded stream. */
  ghost predicate CursorAt(uploaded: seq<nat>, index: nat, offset: nat, from: nat) {
    && index <= |uploaded| && Pos(uploaded, index) + offset == from
    && (if index < |uploaded| then offset == 0 || offset < uploaded[index] else offset == 0)
  }

  lemma CursorChunk(uploaded: seq<nat>, index: nat, offset: nat, from: nat)
    requires Positive(uploaded) && CursorAt(uploaded, index, offset, from) && from < Total(uploaded)
    ensures index < |uploaded| && ChunkAt(uploaded, from) == index
  {
    OneHolder(uploaded, index, ChunkAt(uploaded, from), from);
  }

  lemma EndsHere(uploaded: seq<nat>, index: nat, endOffset: nat, end: nat)
    requires index < |uploaded| && 0 < endOffset <= uploaded[index] && Pos(uploaded, index) + endOffset == end
    ensures end <= Total(uploaded) && ChunkAt(uploaded, end - 1) == index
    ensures if endOffset == uploaded[index] then CursorAt(uploaded, index + 1, 0, end) else CursorAt(uploaded, index, endOffset, end)
  {
    PosMonotone(uploaded, index + 1, |uploaded|);
    OneHolder(uploaded, index, ChunkAt(uploaded, end - 1), end - 1);
  }

  /** How many of the first `k` entries wait for their size and range. */
  function Rank(entries: seq<Entry>, k: nat): (n: nat)
    requires k <= |entries|
    ensures n <= k
  {
    if k == 0 then 0 else NextIndex(entries[k - 1], Rank(entries, k - 1))
  }

  /** The next modified file is the entry itself, if the entry waits. */
  predicate Matches(entries: seq<Entry>, modified: seq<Modified>, k: nat)
    requires k <= |entries|
  {
    var j := Rank(entries, k);
    j <= |modified| && (k < |entries| && entries[k].size < 0 ==> j < |modified| && modified[j].path == entries[k].path)
  }

  /** The entries that wait are, in order, the modified files. */
  predicate Aligned(entries: seq<Entry>, modified: seq<Modified>) {
    && Rank(entries, |entries|) == |modified|
    && forall k :: 0 <= k <= |entries| ==> Matches(entries, modified, k)
  }

  lemma {:induction false} RankOfPrefix(entries: seq<Entry>, e: Entry, k: nat)
    requires k <= |entries|
    ensures Rank(entries + [e], k) == Rank(entries, k)
  {
    if k > 0 {
      RankOfPrefix(entries, e, k - 1);
    }
  }

  lemma {:induction false} RankMonotone(entries: seq<Entry>, k: nat, l: nat)
    requires k <= l <= |entries|
    ensures Rank(entries, k) <= Rank(entries, l)
  {
    if k < l {
      RankMonotone(entries, k, l - 1);
    }
  }

  lemma AlignedAppend(entries: seq<Entry>, modified: seq<Modified>, e: Entry, more: seq<Modified>)
    requires Aligned(entries, modified)
    requires if e.size < 0 then |more| == 1 && more[0].path == e.path else more == []
    ensures Aligned(entries + [e], modified + more)
  {
    var all := entries + [e];
    RankOfPrefix(entries, e, |entries|);
    forall k | 0 <= k <= |all| ensures Matches(all, modified + more, k) {
      if k <= |entries| {
        assert Matches(entries, modified, k);
        RankOfPrefix(entries, e, k);
      }
    }
  }

  // ---------- the listing, entry by entry ----------

  /** Where the bytes of the `j`th modified file start. */
  function Start(modified: seq<Modified>, j: nat): (n: nat)
    requires j <= |modified|
  {
    if j == 0 then 0 else Start(modified, j - 1) + (if modified[j - 1].size > 0 then modified[j - 1].size else 0)
  }

  /** A pending entry whose file was empty or unreadable is left out. */
  predicate IsSent(entries: seq<Entry>, modified: seq<Modified>, k: nat)
    requires k < |entries| && Aligned(entries, modified)
  {
    assert Matches(entries, modified, k);
    entries[k].size >= 0 || modified[Rank(entries, k)].size > 0
  }

  /** How many of the first `k` entries are sent. */
  function Slot(entries: seq<Entry>, modified: seq<Modified>, k: nat): (n: nat)
    requires k <= |entries| && Aligned(entries, modified)
  {
    if k == 0 then 0 else Slot(entries, modified, k - 1) + (if IsSent(entries, modified, k - 1) then 1 else 0)
  }

  lemma {:induction false} StartMonotone(modified: seq<Modified>, i: nat, j: nat)
    requires i <= j <= |modified|
    ensures Start(modified, i) <= Start(modified, j)
  {
    if i < j {
      StartMonotone(modified, i, j - 1);
    }
  }

  lemma {:induction false} SlotMonotone(entries: seq<Entry>, modified: seq<Modified>, k: nat, l: nat)
    requires k <= l <= |entries| && Aligned(entries, modified)
    ensures Slot(entries, modified, k) <= Slot(entries, modified, l)
  {
    if k < l {
      SlotMonotone(entries, modified, k, l - 1);
    }
  }

  /** Where the next modified file starts after the first `k` entries. */
  function StartOf(entries: seq<Entry>, modified: seq<Modified>, k: nat): (n: nat)
    requires k <= |entries| && Aligned(entries, modified)
  {
    assert Matches(entries, modified, k);
    Start(modified, Rank(entries, k))
  }

  /** The first `k` entries are fully within the uploaded chunks. */
  predicate Covered(uploaded: seq<nat>, entries: seq<Entry>, modified: seq<Modified>, k: nat)
    requires k <= |entries| && Aligned(entries, modified)
  {
    StartOf(entries, modified, k) <= Total(uploaded)
  }

  lemma StartOfMonotone(entries: seq<Entry>, modified: seq<Modified>, k: nat, l: nat)
    requires k <= l <= |entries| && Aligned(entries, modified)
    ensures StartOf(entries, modified, k) <= StartOf(entries, modified, l)
  {
    assert Matches(entries, modified, k) && Matches(entries, modified, l);
    RankMonotone(entries, k, l);
    StartMonotone(modified, Rank(entries, k), Rank(entries, l));
  }

  /** An entry as it is sent: complete already, or put after all modified files before it. */
  function Final(preserved: nat, uploaded: seq<nat>, entries: seq<Entry>, modified: seq<Modified>, k: nat): (e: Entry)
    requires k < |entries| && Aligned(entries, modified) && IsSent(entries, modified, k) && Covered(uploaded, entries, modified, k + 1)
  {
    assert Matches(entries, modified, k);
    if entries[k].size >= 0 then entries[k]
    else Placed(preserved, uploaded, entries[k], modified[Rank(entries, k)], StartOf(entries, modified, k))
  }

  predicate CompleteFit(lengths: seq<nat>, entries: seq<Entry>) {
    forall k :: 0 <= k < |entries| && entries[k].size >= 0 ==> Fits(lengths, entries[k])
  }

  /** One step of the listing in closed form. */
  lemma AnnotateStep(preserved: seq<nat>, uploaded: seq<nat>, entries: seq<Entry>, modified: seq<Modified>, k: nat)
    requires k < |entries| && Aligned(entries, modified) && CompleteFit(preserved + uploaded, entries)
    requires Covered(uploaded, entries, modified, k)
    ensures
      var j := Rank(entries, k);
      && j <= |modified| && NextIndex(entries[k], j) == Rank(entries, k + 1) <= |modified|
      && After(entries[k], modified, j, StartOf(entries, modified, k)) == StartOf(entries, modified, k + 1)
      && AnnotateOne(preserved, uploaded, entries[k], modified, j, StartOf(entries, modified, k)) ==
         if !Covered(uploaded, entries, modified, k + 1) then Refused
         else if IsSent(entries, modified, k) then Sent(Final(|preserved|, uploaded, entries, modified, k))
         else Skipped
  {
    assert Matches(entries, modified, k) && Matches(entries, modified, k + 1);
  }

  function From(preserved: seq<nat>, uploaded: seq<nat>, entries: seq<Entry>, modified: seq<Modified>, i: nat): (l: Listing)
    requires i <= |entries| && Aligned(entries, modified)
  {
    Annotate(preserved, uploaded, entries, modified, i, Rank(entries, i), StartOf(entries, modified, i))
  }

  /** The listing from the `i`th entry on reaches the `k`th exactly when everything before it is covered. */
  ghost predicate Reaches(preserved: seq<nat>, uploaded: seq<nat>, entries: seq<Entry>, modified: seq<Modified>, i: nat, k: nat)
    requires i <= k < |entries| && Aligned(entries, modified)
  {
    var l := From(preserved, uploaded, entries, modified, i).sent;
    var at := Slot(entries, modified, k) - Slot(entries, modified, i);
    && (Covered(uploaded, entries, modified, k + 1) && IsSent(entries, modified, k) ==>
          0 <= at < |l| && l[at] == Final(|preserved|, uploaded, entries, modified, k))
    && (Covered(uploaded, entries, modified, k) && !Covered(uploaded, entries, modified, k + 1) ==> |l| == at)
  }

  lemma FromStep(preserved: seq<nat>, uploaded: seq<nat>, entries: seq<Entry>, modified: seq<Modified>, i: nat)
    requires i < |entries| && Aligned(entries, modified) && CompleteFit(preserved + uploaded, entries)
    requires Covered(uploaded, entries, modified, i)
    ensures From(preserved, uploaded, entries, modified, i) ==
            if !Covered(uploaded, entries, modified, i + 1) then Listing([], false)
            else if IsSent(entries, modified, i)
            then Joined([Final(|preserved|, uploaded, entries, modified, i)], From(preserved, uploaded, entries, modified, i + 1))
            else From(preserved, uploaded, entries, modified, i + 1)
  {
    AnnotateStep(preserved, uploaded, entries, modified, i);
  }

  lemma {:induction false} AnnotateReaches(preserved: seq<nat>, uploaded: seq<nat>, entries: seq<Entry>,
                                           modified: seq<Modified>, i: nat, k: nat)
    requires i <= k < |entries| && Aligned(entries, modified) && CompleteFit(preserved + uploaded, entries)
    requires Covered(uploaded, entries, modified, i)
    ensures Reaches(preserved, uploaded, entries, modified, i, k)
    decreases k - i
  {
    FromStep(preserved, uploaded, entries, modified, i);
    if i < k {
      SlotMonotone(entries, modified, i + 1, k);
      StartOfMonotone(entries, modified, i + 1, k);
      StartOfMonotone(entries, modified, i + 1, k + 1);
      if Covered(uploaded, entries, modified, i + 1) {
        AnnotateReaches(preserved, uploaded, entries, modified, i + 1, k);
      }
    }
  }

  lemma {:induction false} AnnotateEnds(preserved: seq<nat>, uploaded: seq<nat>, entries: seq<Entry>, modified: seq<Modified>, i: nat)
    requires i <= |entries| && Aligned(entries, modified) && CompleteFit(preserved + uploaded, entries)
    requires Covered(uploaded, entries, modified, i)
    ensures
      var l := From(preserved, uploaded, entries, modified, i);
      && (l.ok <==> Start(modified, |modified|) <= Total(uploaded))
      && (l.ok ==> |l.sent| == Slot(entries, modified, |entries|) - Slot(entries, modified, i))
    decreases |entries| - i
  {
    if i < |entries| {
      FromStep(preserved, uploaded, entries, modified, i);
      StartOfMonotone(entries, modified, i + 1, |entries|);
      if Covered(uploaded, entries, modified, i + 1) {
        AnnotateEnds(preserved, uploaded, entries, modified, i + 1);
      }
    }
  }

  /**
   Back-annotation partitions the uploaded stream: the listing succeeds exactly when the uploaded chunks hold all
   modified files; every sent file lies right after the modified files before it, and a listing that fails stops at
   the first file not fully covered.
   */
  lemma BackAnnotation(preserved: seq<nat>, uploaded: seq<nat>, entries: seq<Entry>, modified: seq<Modified>, k: nat)
    requires k < |entries| && Aligned(entries, modified) && CompleteFit(preserved + uploaded, entries)
    ensures
      var l := Annotate(preserved, uploaded, entries, modified, 0, 0, 0);
      var at := Slot(entries, modified, k);
      && (l.ok <==> Start(modified, |modified|) <= Total(uploaded))
      && (l.ok ==> |l.sent| == Slot(entries, modified, |entries|))
      && (Covered(uploaded, entries, modified, k + 1) && IsSent(entries, modified, k) ==>
            at < |l.sent| && l.sent[at] == Final(|preserved|, uploaded, entries, modified, k))
      && (Covered(uploaded, entries, modified, k) && !Covered(uploaded, entries, modified, k + 1) ==> |l.sent| == at)
  {
    AnnotateEnds(preserved, uploaded, entries, modified, 0);
    AnnotateReaches(preserved, uploaded, entries, modified, 0, k);
  }

  class EntryList {
    var entries: seq<Entry>
    var modified: seq<Modified>
    var preserved: seq<ChunkRef>
    var uploaded: seq<ChunkRef>
    var numberOfEntries: nat
    var modifiedIndex: nat
    var uploadedIndex: nat
    var uploadedOffset: nat

    predicate Valid()
      reads this
    {
      Aligned(entries, modified)
    }

    constructor ()
      ensures entries == [] && modified == [] && preserved == [] && uploaded == [] && Valid()
    {
      entries, modified, preserved, uploaded := [], [], [], [];
      numberOfEntries, modifiedIndex, uploadedIndex, uploadedOffset := 0, 0, 0, 0;
    }

    method AddEntry(e: Entry)
      requires Valid()
      modifies this`entries, this`modified, this`numberOfEntries
      ensures Valid()
      ensures entries == old(entries) + [if e.size < 0 && !e.kind.File? then e.(size := 0) else e]
      ensures modified == old(modified) + (if e.size < 0 && e.kind.File? then [Modified(e.path, -1, "")] else [])
      ensures numberOfEntries == old(numberOfEntries) + (if e.kind.File? then 1 else 0)
    {
      if e.kind.File? {
        numberOfEntries := numberOfEntries + 1;
      }
      var added := e;
      if e.size < 0 && !e.kind.File? {
        added := e.(size := 0);
      }
      var more := [];
      if e.size < 0 && e.kind.File? {
        more := [Modified(e.path, -1, "")];
      }
      AlignedAppend(entries, modified, added, more);
      modified := modified + more;
      entries := entries + [added];
    }

    method AddPreservedChunk(ref: ChunkRef)
      modifies this`preserved
      ensures preserved == old(preserved) + [ref]
    {
      preserved := preserved + [ref];
    }

    /** Records what was read from a modified file. */
    method SetPacked(j: nat, size: int, hash: Hash)
      requires Valid() && j < |modified|
      modifies this`modified
      ensures Valid() && modified == old(modified)[j := Modified(old(modified)[j].path, size, hash)]
    {
      ghost var was := modified;
      modified := modified[j := Modified(modified[j].path, size, hash)];
      forall k | 0 <= k <= |entries| ensures Matches(entries, modified, k) {
        assert Matches(entries, was, k);
      }
    }

    /** Completions arrive in any order: missing slots are padded. */
    method AddUploadedChunk(chunkIndex: nat, ref: ChunkRef)
      modifies this`uploaded
      ensures |uploaded| == if chunkIndex < |old(uploaded)| then |old(uploaded)| else chunkIndex + 1
      ensures uploaded[chunkIndex] == ref
      ensures forall i :: 0 <= i < |uploaded| && i != chunkIndex ==>
        uploaded[i] == if i < |old(uploaded)| then old(uploaded)[i] else ChunkRef("", 0)
    {
      while |uploaded| <= chunkIndex
        invariant |old(uploaded)| <= |uploaded|
        invariant |uploaded| <= |old(uploaded)| || |uploaded| <= chunkIndex + 1
        invariant forall i :: 0 <= i < |uploaded| ==> uploaded[i] == if i < |old(uploaded)| then old(uploaded)[i] else ChunkRef("", 0)
      {
        uploaded := uploaded + [ChunkRef("", 0)];
      }
      uploaded := uploaded[chunkIndex := ref];
    }

    /** Moves the cursor over one modified file. */
    method Place(e: Entry, m: Modified, ghost from: nat) returns (placed: Entry, covered: bool)
      requires m.size > 0 && CursorAt(Lengths(uploaded), uploadedIndex, uploadedOffset, from)
      modifies this`uploadedIndex, this`uploadedOffset
      ensures covered <==> from + m.size <= Total(Lengths(uploaded))
      ensures covered ==> CursorAt(Lengths(uploaded), uploadedIndex, uploadedOffset, from + m.size)
      ensures covered && Positive(Lengths(uploaded)) ==> placed == Placed(|preserved|, Lengths(uploaded), e, m, from)
    {
      ghost var lengths := Lengths(uploaded);
      ghost var first := uploadedIndex;
      var startChunk, startOffset := uploadedIndex + |preserved|, uploadedOffset;
      var endChunk, endOffset := startChunk, startOffset + m.size;
      while uploadedIndex < |uploaded| && endOffset > uploaded[uploadedIndex].length
        invariant first <= uploadedIndex <= |uploaded| && endChunk == uploadedIndex + |preserved|
        invariant Pos(lengths, uploadedIndex) + endOffset == from + m.size && endOffset > 0
      {
        endOffset := endOffset - uploaded[uploadedIndex].length;
        endChunk := endChunk + 1;
        uploadedIndex := uploadedIndex + 1;
      }
      if uploadedIndex >= |uploaded| {
        return e, false;
      }
      EndsHere(lengths, uploadedIndex, endOffset, from + m.size);
      placed := e.(size := m.size, hash := m.hash, startChunk := startChunk, startOffset := startOffset,
                   endChunk := endChunk, endOffset := endOffset);
      if Positive(lengths) {
        CursorChunk(lengths, first, startOffset, from);
        assert placed == Placed(|preserved|, lengths, e, m, from);
      }
      uploadedOffset := endOffset;
      if endOffset == uploaded[uploadedIndex].length {
        uploadedIndex, uploadedOffset := uploadedIndex + 1, 0;
      }
      covered := true;
    }

    /** One entry on its way out. */
    method FillAndSend(e: Entry, ghost from: nat) returns (o: Outcome)
      requires CursorAt(Lengths(uploaded), uploadedIndex, uploadedOffset, from)
      modifies this`modifiedIndex, this`uploadedIndex, this`uploadedOffset
      ensures Positive(Lengths(uploaded)) ==>
        o == AnnotateOne(Lengths(preserved), Lengths(uploaded), e, modified, old(modifiedIndex), from)
      ensures !o.Refused? ==>
        CursorAt(Lengths(uploaded), uploadedIndex, uploadedOffset, After(e, modified, old(modifiedIndex), from))
      ensures !o.Refused? ==> modifiedIndex == NextIndex(e, old(modifiedIndex))
    {
      var p, u := Lengths(preserved), Lengths(uploaded);
      if e.size >= 0 {
        var ok := CheckEntry(p + u, e);
        return if ok then Sent(e) else Refused;
      }
      if modifiedIndex >= |modified| {
        return Refused;
      }
      var m := modified[modifiedIndex];
      modifiedIndex := modifiedIndex + 1;
      if m.path != e.path {
        return Refused;
      }
      if m.size <= 0 {
        return Skipped;
      }
      var placed, covered := Place(e, m, from);
      if !covered {
        return Refused;
      }
      PlacedFits(p, u, e, m, from);
      var ok := CheckEntry(p + u, placed);
      o := if ok then Sent(placed) else Refused;
    }

    /** Sends every entry out, until one is refused. */
    method ReadEntries() returns (l: Listing)
      modifies this`modifiedIndex, this`uploadedIndex, this`uploadedOffset
      ensures Positive(Lengths(uploaded)) ==>
        l == Annotate(Lengths(preserved), Lengths(uploaded), entries, modified, 0, 0, 0)
    {
      modifiedIndex, uploadedIndex, uploadedOffset := 0, 0, 0;
      var sent: seq<Entry>, i := [], 0;
      ghost var from: nat := 0;
      ghost var p, u := Lengths(preserved), Lengths(uploaded);
      while i < |entries|
        invariant i <= |entries| && CursorAt(u, uploadedIndex, uploadedOffset, from)
        invariant Positive(u) ==>
          Annotate(p, u, entries, modified, 0, 0, 0) == Joined(sent, Annotate(p, u, entries, modified, i, modifiedIndex, from))
      {
        ghost var j := modifiedIndex;
        var o := FillAndSend(entries[i], from);
        if Positive(u) {
          JoinOne(sent, p, u, entries, modified, i, j, from);
        }
        match o {
          case Refused => return Listing(sent, false);
          case Skipped =>
          case Sent(e) => sent := sent + [e];
        }
        from := After(entries[i], modified, j, from);
        i := i + 1;
      }
      l := Listing(sent, true);
    }
  }
}
