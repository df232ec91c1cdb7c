/**
 The prefetching download scheduler of a restore (src/duplicacy_chunkdownloader.go) on top of the worker queue
 (src/duplicacy_chunkoperator.go).
 */
module ChunkDownloaders {
  import opened Entries

  // ---------- the list of downloads ----------

  /** The chunks of a file, as indices of its first and last chunk. */
  datatype Span = Span(start: nat, end: nat)

  datatype Task = Task(ref: ChunkRef, needed: bool, isDownloading: bool)

  predicate SpanIn(refs: seq<ChunkRef>, s: Span) {
    s.start <= s.end < |refs|
  }

  /** The downloads of a span are the chunks of the file. */
  ghost predicate SameRefs(refs: seq<ChunkRef>, tasks: seq<Task>, file: Span, span: Span)
    requires SpanIn(refs, file)
  {
    && span.start <= span.end < |tasks| && span.end - span.start == file.end - file.start
    && forall i :: span.start <= i <= span.end ==> tasks[i].ref == refs[i - span.start + file.start]
  }

  /** Spans follow each other: the next one starts at the last task of the one before, or later. */
  predicate InOrder(spans: seq<Span>) {
    forall i, j :: 0 <= i < j < |spans| ==> spans[i].end <= spans[j].start
  }

  predicate NothingStarted(tasks: seq<Task>) {
    forall i :: 0 <= i < |tasks| ==> !tasks[i].isDownloading
  }

  /** Adds the chunks of one file; a chunk just added is not added again. */
  method AddFile(refs: seq<ChunkRef>, tasks: seq<Task>, last: int, file: Span) returns (tasks': seq<Task>, span: Span)
    requires SpanIn(refs, file) && NothingStarted(tasks)
    requires last == file.start ==> tasks != [] && tasks[|tasks| - 1].ref == refs[last]
    ensures NothingStarted(tasks') && |tasks| <= |tasks'|
    ensures forall i :: 0 <= i < |tasks| ==> tasks'[i].ref == tasks[i].ref
    ensures SameRefs(refs, tasks', file, span) && span.end == |tasks'| - 1
    ensures span.start == if last == file.start then |tasks| - 1 else |tasks|
    ensures tasks'[|tasks'| - 1].ref == refs[file.end]
    ensures forall i :: 0 <= i < |tasks'| ==>
      (tasks'[i].needed <==> (i < |tasks| && tasks[i].needed) || (last == file.start && i == |tasks| - 1))
  {
    tasks' := tasks;
    var lastChunkIndex := last;
    ghost var first := if last == file.start then |tasks| - 1 else |tasks|;
    var i := file.start;
    while i <= file.end
      invariant file.start <= i <= file.end + 1 && NothingStarted(tasks')
      invariant lastChunkIndex == if i == file.start then last else i - 1
      invariant i == file.start ==> tasks' == tasks
      invariant |tasks'| == if i == file.start then |tasks| else first + (i - file.start)
      invariant forall k :: 0 <= k < |tasks| ==> tasks'[k].ref == tasks[k].ref
      invariant forall k :: 0 <= k < |tasks'| ==>
        (tasks'[k].needed <==> (k < |tasks| && tasks[k].needed) || (i > file.start && last == file.start && k == |tasks| - 1))
      invariant i > file.start ==> forall k :: first <= k < |tasks'| ==> tasks'[k].ref == refs[k - first + file.start]
    {
      if lastChunkIndex != i {
        tasks' := tasks' + [Task(refs[i], false, false)];
      } else {
        var n := |tasks'| - 1;
        tasks' := tasks'[n := tasks'[n].(needed := true)];
      }
      lastChunkIndex := i;
      i := i + 1;
    }
    span := Span(|tasks'| - (file.end - file.start) - 1, |tasks'| - 1);
  }

  /** A task that ends one file and starts the next. */
  predicate IsShared(spans: seq<Span>, i: nat) {
    exists n :: 0 < n < |spans| && spans[n - 1].end == i == spans[n].start
  }

  predicate SharedAreNeeded(tasks: seq<Task>, spans: seq<Span>) {
    forall i :: 0 <= i < |tasks| ==> (tasks[i].needed <==> IsShared(spans, i))
  }

  lemma SharedNext(tasks: seq<Task>, spans: seq<Span>, tasks': seq<Task>, span: Span)
    requires SharedAreNeeded(tasks, spans) && |tasks| <= |tasks'| && (spans == [] <==> tasks == [])
    requires spans != [] ==> spans[|spans| - 1].end == |tasks| - 1
    requires forall n :: 0 <= n < |spans| ==> spans[n].end < |tasks|
    requires span.start == |tasks| || (span.start == |tasks| - 1 && tasks != [])
    requires forall i :: 0 <= i < |tasks'| ==>
      (tasks'[i].needed <==> (i < |tasks| && tasks[i].needed) || (span.start == |tasks| - 1 && i == |tasks| - 1))
    ensures SharedAreNeeded(tasks', spans + [span])
  {
    var spans' := spans + [span];
    forall i | 0 <= i < |tasks'| ensures tasks'[i].needed <==> IsShared(spans', i) {
      if IsShared(spans, i) {
        var n :| 0 < n < |spans| && spans[n - 1].end == i == spans[n].start;
        assert spans'[n - 1].end == i == spans'[n].start;
      }
      if spans != [] && i == span.start == |tasks| - 1 {
        assert spans'[|spans| - 1].end == i == spans'[|spans|].start;
      }
      if IsShared(spans', i) {
        var n :| 0 < n < |spans'| && spans'[n - 1].end == i == spans'[n].start;
        assert n < |spans| ==> spans[n - 1].end == i == spans[n].start;
      }
    }
  }

  /** The list of downloads so far. */
  ghost predicate ListSoFar(refs: seq<ChunkRef>, files: seq<Span>, n: nat, tasks: seq<Task>, spans: seq<Span>)
    requires n <= |files| && forall i :: 0 <= i < |files| ==> SpanIn(refs, files[i])
  {
    && |spans| == n && NothingStarted(tasks) && InOrder(spans) && SharedAreNeeded(tasks, spans)
    && (if n == 0 then tasks == []
        else SpanIn(refs, files[n - 1]) && tasks != [] && spans[n - 1].end == |tasks| - 1 && tasks[|tasks| - 1].ref == refs[files[n - 1].end])
    && forall i :: 0 <= i < n ==> SameRefs(refs, tasks, files[i], spans[i])
  }

  function LastListed(files: seq<Span>, n: nat): (last: int)
    requires n <= |files|
  {
    if n == 0 then -1 else files[n - 1].end
  }

  lemma ListNext(refs: seq<ChunkRef>, files: seq<Span>, n: nat, tasks: seq<Task>, spans: seq<Span>, tasks': seq<Task>, span: Span)
    requires n < |files| && forall i :: 0 <= i < |files| ==> SpanIn(refs, files[i])
    requires ListSoFar(refs, files, n, tasks, spans)
    requires NothingStarted(tasks') && |tasks| <= |tasks'| && SameRefs(refs, tasks', files[n], span) && span.end == |tasks'| - 1
    requires forall i :: 0 <= i < |tasks| ==> tasks'[i].ref == tasks[i].ref
    requires span.start == if LastListed(files, n) == files[n].start then |tasks| - 1 else |tasks|
    requires forall i :: 0 <= i < |tasks'| ==>
      (tasks'[i].needed <==> (i < |tasks| && tasks[i].needed) || (LastListed(files, n) == files[n].start && i == |tasks| - 1))
    ensures ListSoFar(refs, files, n + 1, tasks', spans + [span])
  {
    SharedNext(tasks, spans, tasks', span);
    forall i | 0 <= i < n ensures SameRefs(refs, tasks', files[i], spans[i]) {
      assert SameRefs(refs, tasks, files[i], spans[i]);
    }
  }

  /** The list of downloads of a whole restore. */
  method AddFiles(refs: seq<ChunkRef>, files: seq<Span>) returns (tasks: seq<Task>, spans: seq<Span>)
    requires forall i :: 0 <= i < |files| ==> SpanIn(refs, files[i])
    ensures NothingStarted(tasks) && SharedAreNeeded(tasks, spans)
    ensures |spans| == |files| && InOrder(spans)
    ensures forall i :: 0 <= i < |files| ==> SameRefs(refs, tasks, files[i], spans[i])
  {
    tasks, spans := [], [];
    var lastChunkIndex: int, n: nat := -1, 0;
    while n < |files|
      invariant n <= |files| && ListSoFar(refs, files, n, tasks, spans) && lastChunkIndex == LastListed(files, n)
    {
      var was := tasks;
      var span;
      tasks, span := AddFile(refs, tasks, lastChunkIndex, files[n]);
      ListNext(refs, files, n, was, spans, tasks, span);
      lastChunkIndex := files[n].end;
      spans := spans + [span];
      n := n + 1;
    }
  }

  // ---------- the scheduler ----------

  /** No task was fetched twice. */
  predicate NoRepeats(log: seq<nat>) {
    forall i, j :: 0 <= i < j < |log| ==> log[i] != log[j]
  }

  lemma SetGrows(s: set<nat>, x: nat)
    requires x !in s
    ensures |s + {x}| == |s| + 1
  {
  }

  lemma {:induction false} SubsetIsSmaller(a: set<nat>, b: set<nat>)
    requires a < b
    ensures |a| < |b|
  {
    if a != {} {
      var x :| x in a;
      SubsetIsSmaller(a - {x}, b - {x});
    }
  }

  predicate SameNeeds(tasks: seq<Task>, tasks': seq<Task>) {
    |tasks'| == |tasks| && forall i :: 0 <= i < |tasks| ==> tasks'[i].needed == tasks[i].needed
  }

  /** The same tasks are needed as before, and each one fetched since is needed and lies in a range. */
  ghost predicate FetchesNeeded(tasks: seq<Task>, log: seq<nat>, tasks': seq<Task>, log': seq<nat>, from: nat, to: nat) {
    && SameNeeds(tasks, tasks')
    && log <= log' && forall i :: i in log' && i !in log ==> from <= i < to && i < |tasks| && tasks[i].needed
  }

  class ChunkDownloader {
    const threads: nat
    var tasks: seq<Task>
    var completed: set<nat>
    var lastChunkIndex: nat
    var numberOfDownloadingChunks: int
    var numberOfActiveChunks: int

    /** What the workers hold: downloads queued, being downloaded or waiting to be received. */
    var inFlight: set<nat>

    /** Every task ever fetched. */
    ghost var log: seq<nat>

    /** The download last waited for. */
    ghost var lastWaited: int

    ghost predicate Started(i: nat)
      reads this
    {
      i < |tasks| && tasks[i].isDownloading
    }

    ghost predicate Valid()
      reads this
    {
      && threads >= 1 && lastChunkIndex <= |tasks|
      && (forall i :: i in inFlight ==> Started(i)) && (forall i :: i in completed ==> Started(i))
      && inFlight !! completed
      && numberOfDownloadingChunks == |inFlight| && numberOfActiveChunks == |inFlight| + |completed|
      && (forall i :: lastChunkIndex <= i && Started(i) ==> i in inFlight || i in completed)
      && NoRepeats(log) && (forall i :: i in log <==> Started(i))
    }

    /** One chunk beyond the limit may be active: the one waited for last, if it was not prefetched. */
    ghost predicate Bounded()
      reads this
    {
      && |inFlight| <= threads
      && (numberOfActiveChunks <= threads
          || (numberOfActiveChunks == threads + 1 && lastWaited >= lastChunkIndex && lastWaited in completed))
    }

    constructor (tasks: seq<Task>, threads: nat)
      requires NothingStarted(tasks) && threads >= 1
      ensures Valid() && Bounded() && this.tasks == tasks && lastChunkIndex == 0 && lastWaited == -1 && log == []
    {
      this.threads, this.tasks, completed, lastChunkIndex := threads, tasks, {}, 0;
      numberOfDownloadingChunks, numberOfActiveChunks, inFlight, log, lastWaited := 0, 0, {}, [], -1;
    }

    /** Hands a task to the workers, who then hold no more than one task beyond the number of threads. */
    method Fetch(i: nat)
      requires Valid() && i < |tasks| && !tasks[i].isDownloading && |inFlight| <= threads
      modifies this`tasks, this`inFlight, this`numberOfDownloadingChunks, this`numberOfActiveChunks, this`log
      ensures Valid() && inFlight == old(inFlight) + {i} && i !in old(inFlight)
      ensures tasks == old(tasks)[i := old(tasks)[i].(isDownloading := true)]
      ensures numberOfActiveChunks == old(numberOfActiveChunks) + 1 && log == old(log) + [i]
    {
      assert !Started(i);
      SetGrows(inFlight, i);
      inFlight := inFlight + {i};
      tasks := tasks[i := tasks[i].(isDownloading := true)];
      numberOfDownloadingChunks := numberOfDownloadingChunks + 1;
      numberOfActiveChunks := numberOfActiveChunks + 1;
      log := log + [i];
      assert forall k :: Started(k) <==> old(Started(k)) || k == i;
    }

    /** Marks the downloads of a file that no local copy was found for. */
    method MarkNeeded(span: Span, missing: set<nat>)
      requires Valid() && span.start <= span.end < |tasks|
      modifies this`tasks
      ensures Valid() && (old(Bounded()) ==> Bounded())
      ensures |tasks| == |old(tasks)|
      ensures forall i :: 0 <= i < |tasks| ==>
        tasks[i] == if span.start <= i <= span.end && i in missing then old(tasks)[i].(needed := true) else old(tasks)[i]
    {
      var i := span.start;
      while i <= span.end
        invariant span.start <= i <= span.end + 1 && |tasks| == |old(tasks)|
        invariant forall k :: 0 <= k < |tasks| ==>
          tasks[k] == if span.start <= k < i && k in missing then old(tasks)[k].(needed := true) else old(tasks)[k]
      {
        if i in missing {
          tasks := tasks[i := tasks[i].(needed := true)];
        }
        i := i + 1;
      }
      assert forall k :: Started(k) <==> old(Started(k));
    }

    /** Gives back completed chunks before an index. */
    method Reclaim(chunkIndex: nat)
      requires Valid() && chunkIndex <= |tasks|
      modifies this`completed, this`lastChunkIndex, this`numberOfActiveChunks
      ensures Valid()
      ensures old(Bounded()) ==> Bounded()
      ensures numberOfActiveChunks <= old(numberOfActiveChunks)
      ensures if old(lastChunkIndex) >= chunkIndex
              then lastChunkIndex == old(lastChunkIndex) && completed == old(completed)
              else lastChunkIndex == chunkIndex && completed == set i | i in old(completed) && i >= chunkIndex
    {
      if lastChunkIndex >= chunkIndex {
        return;
      }
      var visit := completed;
      while visit != {}
        invariant visit <= completed <= old(completed) && numberOfActiveChunks == |inFlight| + |completed|
        invariant numberOfActiveChunks <= old(numberOfActiveChunks)
        invariant completed == (set i | i in old(completed) && (i >= chunkIndex || i in visit))
        decreases |visit|
      {
        var i :| i in visit;
        visit := visit - {i};
        if i < chunkIndex {
          completed := completed - {i};
          numberOfActiveChunks := numberOfActiveChunks - 1;
        }
      }
      lastChunkIndex := chunkIndex;
      if lastWaited in old(completed) && lastWaited < chunkIndex {
        SubsetIsSmaller(completed, old(completed));
      }
    }

    /** Receives one finished download; the workers finish in any order. */
    method Receive()
      requires Valid() && inFlight != {}
      modifies this`inFlight, this`completed, this`numberOfDownloadingChunks
      ensures Valid()
      ensures inFlight < old(inFlight)
    {
      var i :| i in inFlight;
      assert Started(i);
      SetGrows(inFlight - {i}, i);
      SetGrows(completed, i);
      assert inFlight - {i} + {i} == inFlight;
      inFlight := inFlight - {i};
      completed := completed + {i};
      numberOfDownloadingChunks := numberOfDownloadingChunks - 1;
    }

    /** Fetches the needed tasks of a file, as far as the number of threads allows. */
    method FetchRange(span: Span)
      requires Valid() && Bounded() && span.start <= span.end < |tasks|
      modifies this`tasks, this`inFlight, this`numberOfDownloadingChunks, this`numberOfActiveChunks, this`log
      ensures Valid() && Bounded()
      ensures FetchesNeeded(old(tasks), old(log), tasks, log, span.start, span.end + 1)
      ensures numberOfActiveChunks >= threads || forall i :: span.start <= i <= span.end && tasks[i].needed ==> tasks[i].isDownloading
    {
      var i := span.start;
      while i <= span.end
        invariant span.start <= i <= span.end + 1 && Valid() && Bounded()
        invariant FetchesNeeded(old(tasks), old(log), tasks, log, span.start, span.end + 1)
        invariant forall k :: span.start <= k < i && tasks[k].needed ==> tasks[k].isDownloading
      {
        if tasks[i].needed && !tasks[i].isDownloading {
          if numberOfActiveChunks >= threads {
            return;
          }
          Fetch(i);
        }
        i := i + 1;
      }
    }

    /** Starts downloads for a file. */
    method Prefetch(span: Span)
      requires Valid() && Bounded() && span.start <= span.end < |tasks|
      modifies this
      ensures Valid() && Bounded() && lastWaited == old(lastWaited)
      ensures lastChunkIndex == if old(lastChunkIndex) >= span.start then old(lastChunkIndex) else span.start
      ensures FetchesNeeded(old(tasks), old(log), tasks, log, span.start, span.end + 1)
      ensures numberOfActiveChunks >= threads || forall i :: span.start <= i <= span.end && tasks[i].needed ==> tasks[i].isDownloading
    {
      Reclaim(span.start);
      FetchRange(span);
    }

    /** The tasks behind an index are needed and on their way, up to one that is not needed or to the limit. */
    ghost predicate IsAhead(chunkIndex: nat, n: nat)
      reads this
    {
      && chunkIndex < n <= |tasks| && (n == |tasks| || !tasks[n].needed || numberOfActiveChunks >= threads)
      && forall i :: chunkIndex < i < n ==> tasks[i].needed && tasks[i].isDownloading
    }

    /** Starts the downloads that follow. */
    method LookAhead(chunkIndex: nat) returns (ghost n: nat)
      requires Valid() && chunkIndex < |tasks|
      modifies this`tasks, this`inFlight, this`numberOfDownloadingChunks, this`numberOfActiveChunks, this`log
      ensures Valid() && (old(Started(chunkIndex)) ==> Started(chunkIndex))
      ensures FetchesNeeded(old(tasks), old(log), tasks, log, chunkIndex + 1, |tasks|)
      ensures IsAhead(chunkIndex, n)
      ensures numberOfActiveChunks <= threads || numberOfActiveChunks == old(numberOfActiveChunks)
    {
      var i := chunkIndex + 1;
      while i < |tasks|
        invariant chunkIndex < i <= |tasks| && Valid()
        invariant |tasks| == |old(tasks)| && (old(Started(chunkIndex)) ==> Started(chunkIndex))
        invariant FetchesNeeded(old(tasks), old(log), tasks, log, chunkIndex + 1, |tasks|)
        invariant forall k :: chunkIndex < k < i ==> tasks[k].needed && tasks[k].isDownloading
        invariant numberOfActiveChunks <= threads || numberOfActiveChunks == old(numberOfActiveChunks)
      {
        if numberOfActiveChunks >= threads || !tasks[i].needed {
          break;
        }
        if !tasks[i].isDownloading {
          Fetch(i);
        }
        i := i + 1;
      }
      n := i;
    }

    /** Fetches a task if it was not fetched before; nothing before it is held any more. */
    method FetchNew(chunkIndex: nat)
      requires Valid() && Bounded() && lastChunkIndex == chunkIndex < |tasks| && lastWaited <= chunkIndex
      modifies this`tasks, this`inFlight, this`numberOfDownloadingChunks, this`numberOfActiveChunks, this`log
      ensures Valid() && SameNeeds(old(tasks), tasks) && Started(chunkIndex)
      ensures log == old(log) || log == old(log) + [chunkIndex]
      ensures numberOfActiveChunks <= threads + 1
    {
      if !tasks[chunkIndex].isDownloading {
        assert numberOfActiveChunks <= threads by { assert !Started(chunkIndex); }
        Fetch(chunkIndex);
      }
    }

    /** Makes sure a task is on its way. */
    method Start(chunkIndex: nat)
      requires Valid() && Bounded() && lastChunkIndex <= chunkIndex < |tasks| && lastWaited <= chunkIndex
      modifies this`tasks, this`inFlight, this`numberOfDownloadingChunks, this`numberOfActiveChunks, this`log,
               this`completed, this`lastChunkIndex
      ensures Valid() && SameNeeds(old(tasks), tasks) && Started(chunkIndex) && lastChunkIndex == chunkIndex
      ensures log == old(log) || log == old(log) + [chunkIndex]
      ensures numberOfActiveChunks <= threads + 1
    {
      Reclaim(chunkIndex);
      FetchNew(chunkIndex);
    }

    /** Receives finished downloads until a task is among them. */
    method Await(chunkIndex: nat)
      requires Valid() && lastChunkIndex <= chunkIndex && Started(chunkIndex)
      modifies this`inFlight, this`completed, this`numberOfDownloadingChunks
      ensures Valid() && chunkIndex in completed
    {
      while chunkIndex !in completed
        invariant Valid()
        decreases |inFlight|
      {
        ghost var before := inFlight;
        Receive();
        SubsetIsSmaller(inFlight, before);
      }
    }

    /** Waits for a task. It is never one whose chunk was given back, so the wait ends. The needed tasks behind it, up to the
        `n`th, are on their way. */
    method WaitForChunk(chunkIndex: nat) returns (ghost n: nat)
      requires Valid() && Bounded() && lastChunkIndex <= chunkIndex < |tasks| && lastWaited <= chunkIndex
      modifies this
      ensures Valid() && Bounded()
      ensures chunkIndex in completed && lastChunkIndex == chunkIndex && lastWaited == chunkIndex
      ensures FetchesFor(old(tasks), old(log), tasks, log, chunkIndex)
      ensures IsAhead(chunkIndex, n)
    {
      Start(chunkIndex);
      n := LookAhead(chunkIndex);
      Await(chunkIndex);
      assert completed != {} && |completed| >= 1;
      lastWaited := chunkIndex;
    }
  }

  // ---------- a whole restore ----------

  /** Tasks of a file that its restore waits for, in order. */
  predicate WaitsWithin(waits: seq<nat>, span: Span) {
    && (forall i :: 0 <= i < |waits| ==> span.start <= waits[i] <= span.end)
    && (forall i, j :: 0 <= i < j < |waits| ==> waits[i] < waits[j])
  }

  /** What is done for a file: nothing if it is found to be unchanged; otherwise it is restored, with the chunks that no local
      copy was found for and the ones that are waited for. */
  datatype Work = Skip | Restore(missing: set<nat>, waits: seq<nat>)

  predicate WorksWithin(w: Work, span: Span) {
    w.Restore? ==> WaitsWithin(w.waits, span)
  }

  /** Everything that was waited for was fetched. */
  predicate AllFetched(w: Work, log: seq<nat>) {
    w.Restore? ==> AllIn(w.waits, log)
  }

  /** Exactly the missing chunks of a file are needed in addition. */
  predicate NeedsMarked(tasks: seq<Task>, tasks': seq<Task>, span: Span, missing: set<nat>) {
    && |tasks'| == |tasks|
    && forall i :: 0 <= i < |tasks| ==> (tasks'[i].needed <==> tasks[i].needed || (span.start <= i <= span.end && i in missing))
  }

  /** The restore of the `n`th file waits for a task, or misses the chunk locally. */
  predicate Wants(w: Work, span: Span, i: nat) {
    w.Restore? && (i in w.waits || (span.start <= i <= span.end && i in w.missing))
  }

  /** Some file before the `n`th wants a task, or two files share it. */
  ghost predicate IsWanted(choose: (nat, Span) -> Work, spans: seq<Span>, n: nat, i: nat) {
    IsShared(spans, i) || exists k :: 0 <= k < n && k < |spans| && Wants(choose(k, spans[k]), spans[k], i)
  }

  /** What is known between two waits of a file. */
  ghost predicate BetweenWaits(d: ChunkDownloader, span: Span, waits: seq<nat>, i: nat)
    reads d
    requires i <= |waits|
  {
    && d.Valid() && d.Bounded() && span.end < |d.tasks|
    && if i == 0 then d.lastChunkIndex == span.start && d.lastWaited <= span.start else d.lastChunkIndex == d.lastWaited == waits[i - 1]
  }

  /** Every task fetched since is waited for or needed. */
  ghost predicate FetchesWaited(tasks: seq<Task>, log: seq<nat>, tasks': seq<Task>, log': seq<nat>, waits: seq<nat>) {
    SameNeeds(tasks, tasks') && log <= log' && forall i :: i in log' && i !in log ==> i < |tasks| && (i in waits || tasks[i].needed)
  }

  /** The task waited for, and needed ones, were fetched in addition. */
  ghost predicate FetchesFor(tasks: seq<Task>, log: seq<nat>, tasks': seq<Task>, log': seq<nat>, w: nat) {
    SameNeeds(tasks, tasks') && log <= log' && forall i :: i in log' && i !in log ==> i < |tasks| && (i == w || tasks[i].needed)
  }

  lemma FetchedSince(tasks: seq<Task>, log: seq<nat>, tasks': seq<Task>, log': seq<nat>, tasks'': seq<Task>, log'': seq<nat>,
                     waits: seq<nat>, w: nat)
    requires FetchesWaited(tasks, log, tasks', log', waits) && FetchesFor(tasks', log', tasks'', log'', w) && w in waits
    ensures FetchesWaited(tasks, log, tasks'', log'', waits)
  {
  }

  predicate AllIn(waits: seq<nat>, log: seq<nat>) {
    forall i :: 0 <= i < |waits| ==> waits[i] in log
  }

  lemma OneMoreIn(waits: seq<nat>, i: nat, log: seq<nat>, log': seq<nat>)
    requires i < |waits| && AllIn(waits[..i], log) && log <= log' && waits[i] in log'
    ensures AllIn(waits[..i + 1], log')
  {
    forall k | 0 <= k < i ensures waits[k] in log' {
      assert waits[..i][k] in log;
    }
  }

  method WaitForNext(d: ChunkDownloader, span: Span, waits: seq<nat>, i: nat)
    requires WaitsWithin(waits, span) && i < |waits| && BetweenWaits(d, span, waits, i)
    modifies d
    ensures BetweenWaits(d, span, waits, i + 1) && FetchesFor(old(d.tasks), old(d.log), d.tasks, d.log, waits[i]) && waits[i] in d.log
  {
    ghost var n := d.WaitForChunk(waits[i]);
    assert d.Started(waits[i]);
  }

  /** Waits for chunks one after another. */
  method WaitForAll(d: ChunkDownloader, span: Span, waits: seq<nat>)
    requires WaitsWithin(waits, span) && BetweenWaits(d, span, waits, 0)
    modifies d
    ensures BetweenWaits(d, span, waits, |waits|) && FetchesWaited(old(d.tasks), old(d.log), d.tasks, d.log, waits)
    ensures AllIn(waits, d.log)
  {
    var i := 0;
    while i < |waits|
      invariant i <= |waits| && BetweenWaits(d, span, waits, i) && AllIn(waits[..i], d.log)
      invariant FetchesWaited(old(d.tasks), old(d.log), d.tasks, d.log, waits)
    {
      ghost var tasks, log := d.tasks, d.log;
      WaitForNext(d, span, waits, i);
      FetchedSince(old(d.tasks), old(d.log), tasks, log, d.tasks, d.log, waits, waits[i]);
      OneMoreIn(waits, i, log, d.log);
      i := i + 1;
    }
    assert waits[..i] == waits;
  }

  /** Restores one file: starts downloads and waits for the chunks that cannot be found locally. */
  method RestoreOne(d: ChunkDownloader, span: Span, missing: set<nat>, waits: seq<nat>)
    requires d.Valid() && d.Bounded() && span.start <= span.end < |d.tasks| && WaitsWithin(waits, span)
    requires d.lastChunkIndex <= span.start && d.lastWaited <= span.start
    modifies d
    ensures d.Valid() && d.Bounded() && NeedsMarked(old(d.tasks), d.tasks, span, missing)
    ensures d.lastChunkIndex <= span.end && d.lastWaited <= span.end && old(d.log) <= d.log
    ensures AllIn(waits, d.log)
    ensures forall i :: i in d.log && i !in old(d.log) ==> i < |d.tasks| && (i in waits || d.tasks[i].needed)
  {
    d.MarkNeeded(span, missing);
    d.Prefetch(span);
    WaitForAll(d, span, waits);
  }

  /** Everything that is needed or was fetched is wanted by one of the first `n` files. */
  ghost predicate AllWanted(choose: (nat, Span) -> Work, spans: seq<Span>, n: nat, tasks: seq<Task>, log: seq<nat>) {
    && (forall i :: 0 <= i < |tasks| && tasks[i].needed ==> IsWanted(choose, spans, n, i))
    && (forall i :: i in log ==> IsWanted(choose, spans, n, i))
  }

  lemma WantedStays(choose: (nat, Span) -> Work, spans: seq<Span>, n: nat, i: nat)
    requires n < |spans| && (IsWanted(choose, spans, n, i) || Wants(choose(n, spans[n]), spans[n], i))
    ensures IsWanted(choose, spans, n + 1, i)
  {
  }

  /** What the work on one file does to the tasks and to the log. */
  ghost predicate Worked(w: Work, span: Span, tasks: seq<Task>, log: seq<nat>, tasks': seq<Task>, log': seq<nat>) {
    match w
    case Skip => tasks' == tasks && log' == log
    case Restore(missing, waits) =>
      && NeedsMarked(tasks, tasks', span, missing) && log <= log' && AllIn(waits, log')
      && forall i :: i in log' && i !in log ==> i < |tasks'| && (i in waits || tasks'[i].needed)
  }

  lemma AllWantedNext(choose: (nat, Span) -> Work, spans: seq<Span>, n: nat, tasks: seq<Task>, log: seq<nat>, tasks': seq<Task>, log': seq<nat>)
    requires n < |spans| && AllWanted(choose, spans, n, tasks, log) && Worked(choose(n, spans[n]), spans[n], tasks, log, tasks', log')
    ensures AllWanted(choose, spans, n + 1, tasks', log')
  {
    forall i: nat | i < |tasks'| && tasks'[i].needed ensures IsWanted(choose, spans, n + 1, i) {
      WantedStays(choose, spans, n, i);
    }
    forall i: nat | i in log' ensures IsWanted(choose, spans, n + 1, i) {
      WantedStays(choose, spans, n, i);
    }
  }

  ghost predicate AllDone(choose: (nat, Span) -> Work, spans: seq<Span>, n: nat, log: seq<nat>)
    requires n <= |spans|
  {
    forall k :: 0 <= k < n ==> AllFetched(choose(k, spans[k]), log)
  }

  /** What is known after the first `n` files. */
  ghost predicate Progress(choose: (nat, Span) -> Work, spans: seq<Span>, n: nat, tasks: seq<Task>, log: seq<nat>)
    requires n <= |spans|
  {
    AllDone(choose, spans, n, log) && AllWanted(choose, spans, n, tasks, log)
  }

  lemma ProgressNext(choose: (nat, Span) -> Work, spans: seq<Span>, n: nat, tasks: seq<Task>, log: seq<nat>, tasks': seq<Task>, log': seq<nat>)
    requires n < |spans| && Progress(choose, spans, n, tasks, log) && Worked(choose(n, spans[n]), spans[n], tasks, log, tasks', log')
    ensures Progress(choose, spans, n + 1, tasks', log')
  {
    AllWantedNext(choose, spans, n, tasks, log, tasks', log');
    forall k | 0 <= k <= n ensures AllFetched(choose(k, spans[k]), log') {
      assert k < n ==> AllFetched(choose(k, spans[k]), log);
    }
  }

  /** The end of the last file looked at. */
  function EndOf(spans: seq<Span>, n: nat): (end: nat)
    requires n <= |spans|
  {
    if n == 0 then 0 else spans[n - 1].end
  }

  /** The files lie in the list of downloads, in order, and waits are for chunks of their own. */
  ghost predicate CanRestore(choose: (nat, Span) -> Work, spans: seq<Span>, size: nat) {
    && (forall n :: 0 <= n < |spans| ==> EndOf(spans, n) <= spans[n].start)
    && (forall n :: 0 <= n < |spans| ==> spans[n].start <= spans[n].end < size && WorksWithin(choose(n, spans[n]), spans[n]))
  }

  /** Restores or passes over one file. */
  method WorkOn(d: ChunkDownloader, work: Work, span: Span)
    requires d.Valid() && d.Bounded() && span.start <= span.end < |d.tasks| && WorksWithin(work, span)
    requires d.lastChunkIndex <= span.start && d.lastWaited <= span.start
    modifies d
    ensures d.Valid() && d.Bounded() && d.lastChunkIndex <= span.end && d.lastWaited <= span.end
    ensures Worked(work, span, old(d.tasks), old(d.log), d.tasks, d.log) && |d.tasks| == |old(d.tasks)|
  {
    if work.Restore? {
      RestoreOne(d, span, work.missing, work.waits);
    }
  }

  /** Goes through all files in the order of their chunks, passing over any of them: every wait is for a chunk not given
      back, every chunk waited for is fetched, none twice, nothing is fetched that no file wants, and the number of downloads
      stays within its bound. */
  method RestoreAll(refs: seq<ChunkRef>, files: seq<Span>, choose: (nat, Span) -> Work, threads: nat)
    returns (d: ChunkDownloader, spans: seq<Span>)
    requires threads >= 1 && forall i :: 0 <= i < |files| ==> SpanIn(refs, files[i])
    requires forall n, s :: WorksWithin(choose(n, s), s)
    ensures d.Valid() && d.Bounded() && NoRepeats(d.log) && |spans| == |files|
    ensures forall n :: 0 <= n < |spans| ==> AllFetched(choose(n, spans[n]), d.log)
    ensures forall i :: i in d.log ==> IsWanted(choose, spans, |spans|, i)
  {
    var tasks;
    tasks, spans := AddFiles(refs, files);
    d := new ChunkDownloader(tasks, threads);
    forall n | 0 <= n < |spans| ensures spans[n].start <= spans[n].end < |tasks| && WorksWithin(choose(n, spans[n]), spans[n]) {
      assert SameRefs(refs, tasks, files[n], spans[n]);
    }
    assert AllWanted(choose, spans, 0, tasks, []);
    RestoreFiles(d, choose, spans);
  }

  /** Goes through all files with a new downloader. */
  method RestoreFiles(d: ChunkDownloader, choose: (nat, Span) -> Work, spans: seq<Span>)
    requires CanRestore(choose, spans, |d.tasks|) && d.Valid() && d.Bounded() && d.lastChunkIndex == 0 && d.lastWaited <= 0
    requires Progress(choose, spans, 0, d.tasks, d.log)
    modifies d
    ensures d.Valid() && d.Bounded() && Progress(choose, spans, |spans|, d.tasks, d.log)
  {
    var n := 0;
    while n < |spans|
      invariant n <= |spans| && |d.tasks| == |old(d.tasks)| && d.Valid() && d.Bounded()
      invariant d.lastChunkIndex <= EndOf(spans, n) && d.lastWaited <= EndOf(spans, n)
      invariant Progress(choose, spans, n, d.tasks, d.log)
    {
      ghost var tasks, log := d.tasks, d.log;
      WorkOn(d, choose(n, spans[n]), spans[n]);
      ProgressNext(choose, spans, n, tasks, log, d.tasks, d.log);
      n := n + 1;
    }
  }

  // ---------- the queue ----------

  /** What a worker does; one that delivers is held up until its chunk is received. */
  datatype Worker = Idle | Downloading(task: nat) | Delivering(task: nat)

  /** Downloads handed over and not yet received are queued or held by a worker. */
  ghost predicate Accounted(queue: seq<nat>, workers: seq<Worker>, inFlight: set<nat>) {
    && (forall i, j :: 0 <= i < j < |queue| ==> queue[i] != queue[j])
    && (forall i :: 0 <= i < |queue| ==> queue[i] in inFlight)
    && (forall w :: 0 <= w < |workers| && !workers[w].Idle? ==> workers[w].task in inFlight && workers[w].task !in queue)
  }

  function Elements(queue: seq<nat>): (s: set<nat>) {
    set x | x in queue
  }

  lemma {:induction false} DistinctCount(queue: seq<nat>)
    requires forall i, j :: 0 <= i < j < |queue| ==> queue[i] != queue[j]
    ensures |Elements(queue)| == |queue|
  {
    if queue != [] {
      var n := |queue| - 1;
      DistinctCount(queue[..n]);
      assert queue == queue[..n] + [queue[n]];
      assert Elements(queue) == Elements(queue[..n]) + {queue[n]};
    }
  }

  lemma {:induction false} SubsetCount(a: set<nat>, b: set<nat>)
    requires a <= b
    ensures |a| <= |b|
  {
    if a == b {
      assert |a| == |b|;
    } else {
      SubsetIsSmaller(a, b);
    }
  }

  /** Handing over one more task never blocks for good: with at most `threads` downloads in flight, a queue of that
      capacity that is full leaves every worker idle, ready to take a task. */
  lemma PushCannotBlock(queue: seq<nat>, workers: seq<Worker>, inFlight: set<nat>, threads: nat, w: nat)
    requires Accounted(queue, workers, inFlight) && |inFlight| <= threads == |workers| && |queue| == threads && w < |workers|
    ensures workers[w].Idle?
  {
    DistinctCount(queue);
    if !workers[w].Idle? {
      var t := workers[w].task;
      SubsetCount(Elements(queue) + {t}, inFlight);
    }
  }
}
