/**
 Two-step fossil collection as a state machine: one pruner, any number of hosts backing up concurrently,
 one storage. Every run interleaves the steps of both sides arbitrarily, and the pruner as well as every
 backup may stop at any point.

 The safety theorem says that no run ever loses a chunk that a stored snapshot refers to or that a running
 backup relies on: it stays in the storage, as a chunk or as a fossil.
 */
module PruneProtocol {
  import opened Wrappers
  import opened Snapshots

  /** A running backup. `epoch` is history: how many collections had been saved when it began. */
  datatype Backup = Backup(
    id: string,
    revision: nat,
    cache: set<ChunkId>,
    claimed: set<ChunkId>,
    endTime: Option<int>,
    epoch: nat)

  /** Work handed to the pruner's workers: fossils to resurrect and fossils to delete. `of` is history: the fossils of the
      collection this work comes from. */
  datatype Tasks = Tasks(keep: set<ChunkId>, drop: set<ChunkId>, of: set<ChunkId>)

  const NO_TASKS := Tasks({}, {}, {})

  /** Where the prune command is. The storage is listed id by id. `early` is history: the hosts that were running a backup
      begun before the pending collection was saved, when their id was listed or, if it is not, when the ids were. */
  datatype Pruner =
    | Idle
    | Listing(ids: set<string>, listing: set<Snapshot>, early: set<string>)
    | Listed(listing: set<Snapshot>, early: set<string>, processed: bool, tasks: Tasks)
    | Fossilizing(listing: set<Snapshot>, flagged: set<Snapshot>, todo: set<ChunkId>, done: set<ChunkId>, tasks: Tasks)
    | Deleting(doomed: set<Snapshot>)

  /** `stored` maps each snapshot in the storage to the epoch of the backup that made it; `threads` is the number of the
      pruner's workers. */
  datatype State = State(
    threads: nat,
    clock: int,
    epoch: nat,
    live: set<ChunkId>,
    fossils: set<ChunkId>,
    stored: map<Snapshot, nat>,
    running: map<string, Backup>,
    pruner: Pruner,
    pending: Option<Collection>)

  datatype Step =
    | Tick(now: int)
    | Begin(id: string, cache: set<ChunkId>)
    | Discover(host: string, chunk: ChunkId)
    | Claim(host: string, chunk: ChunkId)
    | Upload(host: string, chunk: ChunkId)
    | MarkEnd(host: string)
    | Finish(host: string)
    | AbortBackup(host: string)
    | StartListing
    | ListId(id: string)
    | EndListing
    | DropGhosts
    | StartProcessing(extra: nat)
    | Resurrect(chunk: ChunkId)
    | DeleteFossil(chunk: ChunkId)
    | ForgetCollection
    | StartCollecting(flagged: set<Snapshot>)
    | Fossilize(chunk: ChunkId)
    | SaveCollection
    | DeleteSnapshot(snapshot: Snapshot)
    | EndPrune
    | AbortPrune

  function Needs(b: Backup): (cs: set<ChunkId>) {
    b.cache + b.claimed
  }

  predicate Init(s: State) {
    && s.live == {} && s.fossils == {} && s.stored == map[] && s.running == map[]
    && s.pruner == Idle && s.pending == None && s.epoch == 0 && s.threads >= 1
  }

  // ---------- steps of a backup ----------

  /** A backup begins by fetching the latest revision of its id, whose chunks it will not check again. */
  predicate BeginStep(s: State, s': State, id: string, cache: set<ChunkId>) {
    var host := HostOf(id);
    && host !in s.running
    && (if exists x <- s.stored.Keys :: x.id == id then
          exists l <- s.stored.Keys ::
            && l.id == id && IsLatest(l, s.stored.Keys) && cache == l.chunks
            && s' == s.(running := s.running[host := Backup(id, l.revision + 1, cache, {}, None, s.epoch)])
        else
          && cache == {}
          && s' == s.(running := s.running[host := Backup(id, 1, cache, {}, None, s.epoch)]))
  }

  /** A first backup lists the chunks in the storage instead, coming upon them one after another. */
  predicate DiscoverStep(s: State, s': State, host: string, chunk: ChunkId) {
    && host in s.running && s.running[host].revision == 1 && chunk in s.live
    && var b := s.running[host];
       s' == s.(running := s.running[host := b.(cache := b.cache + {chunk})])
  }

  predicate ClaimStep(s: State, s': State, host: string, chunk: ChunkId) {
    && host in s.running
    && chunk in s.running[host].cache
    && var b := s.running[host];
       s' == s.(running := s.running[host := b.(claimed := b.claimed + {chunk})])
  }

  /** A chunk found in the storage is only claimed, a missing one is uploaded first. */
  predicate UploadStep(s: State, s': State, host: string, chunk: ChunkId) {
    && host in s.running
    && var b := s.running[host];
       s' == s.(live := s.live + {chunk}, running := s.running[host := b.(claimed := b.claimed + {chunk})])
  }

  predicate MarkEndStep(s: State, s': State, host: string) {
    && host in s.running
    && s.running[host].endTime == None
    && s' == s.(running := s.running[host := s.running[host].(endTime := Some(s.clock))])
  }

  function SnapshotOf(b: Backup): (x: Snapshot)
    requires b.endTime.Some?
  {
    Snapshot(b.id, b.revision, b.endTime.value, b.claimed)
  }

  predicate FinishStep(s: State, s': State, host: string) {
    && host in s.running
    && s.running[host].endTime.Some?
    && var b := s.running[host];
       s' == s.(stored := s.stored[SnapshotOf(b) := b.epoch], running := s.running - {host})
  }

  predicate AbortBackupStep(s: State, s': State, host: string) {
    host in s.running && s' == s.(running := s.running - {host})
  }

  // ---------- steps of the pruner ----------

  function EarlyHosts(s: State): (hosts: set<string>) {
    set h <- s.running.Keys | s.running[h].epoch < s.epoch
  }

  function Ids(xs: set<Snapshot>): (ids: set<string>) {
    set x <- xs :: x.id
  }

  predicate StartListingStep(s: State, s': State) {
    s.pruner.Idle? && s' == s.(pruner := Listing(Ids(s.stored.Keys), {}, EarlyHosts(s)))
  }

  /** The revisions of one id are read; those of the other ids are read earlier or later. */
  predicate ListIdStep(s: State, s': State, id: string) {
    && s.pruner.Listing? && id in s.pruner.ids
    && var host := HostOf(id);
       s' == s.(pruner := Listing(s.pruner.ids - {id}, s.pruner.listing + (set x <- s.stored.Keys | x.id == id),
                                  s.pruner.early - {host} + ({host} * EarlyHosts(s))))
  }

  predicate EndListingStep(s: State, s': State) {
    && s.pruner.Listing? && s.pruner.ids == {}
    && s' == s.(pruner := Listed(s.pruner.listing, s.pruner.early, false, NO_TASKS))
  }

  predicate HasGhost(c: Collection, listing: set<Snapshot>) {
    exists x <- listing :: (x.id, x.revision) in c.deleted
  }

  predicate DropGhostsStep(s: State, s': State) {
    && s.pruner.Listed? && !s.pruner.processed && s.pending.Some?
    && HasGhost(s.pending.value, s.pruner.listing)
    && s' == s.(pending := None)
  }

  /** Every fossil of a deletable collection is handed to the workers. */
  predicate StartProcessingStep(s: State, s': State, extra: nat) {
    && s.pruner.Listed? && !s.pruner.processed && s.pending.Some?
    && var c, listing := s.pending.value, s.pruner.listing;
       && !HasGhost(c, listing)
       && Deletable(c, extra, listing, s.clock)
       && var newChunks := ChunksOf(NewSnapshots(c, extra, listing));
          s' == s.(pruner := s.pruner.(processed := true,
                                       tasks := Tasks(c.fossils * newChunks, c.fossils - newChunks, c.fossils)))
  }

  function TasksOf(p: Pruner): (t: Tasks) {
    if p.Listed? || p.Fossilizing? then p.tasks else NO_TASKS
  }

  function WithTasks(p: Pruner, t: Tasks): (p': Pruner)
    requires p.Listed? || p.Fossilizing?
  {
    p.(tasks := t)
  }

  predicate ResurrectStep(s: State, s': State, chunk: ChunkId) {
    && chunk in TasksOf(s.pruner).keep
    && var t := TasksOf(s.pruner);
       var p := WithTasks(s.pruner, t.(keep := t.keep - {chunk}));
       if chunk in s.live then
         s' == s.(pruner := p, fossils := s.fossils - {chunk})
       else if chunk in s.fossils then
         s' == s.(pruner := p, fossils := s.fossils - {chunk}, live := s.live + {chunk})
       else
         s' == s.(pruner := p)
  }

  predicate DeleteFossilStep(s: State, s': State, chunk: ChunkId) {
    && chunk in TasksOf(s.pruner).drop
    && var t := TasksOf(s.pruner);
       s' == s.(pruner := WithTasks(s.pruner, t.(drop := t.drop - {chunk})), fossils := s.fossils - {chunk})
  }

  /** The collection's file is removed once all work is handed over, done or not. */
  predicate ForgetCollectionStep(s: State, s': State) {
    s.pruner.Listed? && s.pruner.processed && s' == s.(pending := None)
  }

  predicate StartCollectingStep(s: State, s': State, flagged: set<Snapshot>) {
    && s.pruner.Listed? && s.pending.None?
    && flagged <= s.pruner.listing
    && KeepsLatest(s.pruner.listing, flagged)
    && s' == s.(pruner := Fossilizing(s.pruner.listing, flagged, Targets(s.pruner.listing, flagged), {}, s.pruner.tasks))
  }

  /** A live chunk is renamed; one that already is a fossil is only recorded. A single worker does this after all earlier
      work, several workers at any time. */
  predicate FossilizeStep(s: State, s': State, chunk: ChunkId) {
    && s.pruner.Fossilizing? && chunk in s.pruner.todo
    && chunk in s.live + s.fossils
    && (s.threads == 1 ==> s.pruner.tasks.keep == {} && s.pruner.tasks.drop == {})
    && s' == s.(pruner := s.pruner.(todo := s.pruner.todo - {chunk}, done := s.pruner.done + {chunk}),
                live := s.live - {chunk}, fossils := s.fossils + {chunk})
  }

  function LastRevisions(listing: set<Snapshot>): (m: map<string, nat>)
    requires DistinctRevisions(listing)
  {
    map x <- listing | IsLatest(x, listing) :: x.id := x.revision
  }

  function Keys(xs: set<Snapshot>): (ks: set<(string, nat)>) {
    set x <- xs :: (x.id, x.revision)
  }

  predicate SaveCollectionStep(s: State, s': State) {
    && s.pruner.Fossilizing? && s.pruner.todo == {} && s.pruner.tasks.keep == {} && s.pruner.tasks.drop == {}
    && DistinctRevisions(s.pruner.listing)
    && var p := s.pruner;
       if p.done == {} then
         s' == s.(pruner := Deleting(p.flagged))
       else
         s' == s.(pruner := Deleting(p.flagged), epoch := s.epoch + 1,
                  pending := Some(Collection(s.clock, LastRevisions(p.listing), Keys(p.flagged), p.done)))
  }

  predicate DeleteSnapshotStep(s: State, s': State, x: Snapshot) {
    && s.pruner.Deleting? && x in s.pruner.doomed
    && s' == s.(pruner := Deleting(s.pruner.doomed - {x}), stored := s.stored - {x})
  }

  predicate EndPruneStep(s: State, s': State) {
    && s.pruner.Deleting? && s.pruner.doomed == {}
    && s' == s.(pruner := Idle)
  }

  predicate AbortPruneStep(s: State, s': State) {
    s' == s.(pruner := Idle)
  }

  predicate Next(s: State, s': State, step: Step) {
    match step
    case Tick(now) => now >= s.clock && s' == s.(clock := now)
    case Begin(id, cache) => BeginStep(s, s', id, cache)
    case Discover(host, chunk) => DiscoverStep(s, s', host, chunk)
    case Claim(host, chunk) => ClaimStep(s, s', host, chunk)
    case Upload(host, chunk) => UploadStep(s, s', host, chunk)
    case MarkEnd(host) => MarkEndStep(s, s', host)
    case Finish(host) => FinishStep(s, s', host)
    case AbortBackup(host) => AbortBackupStep(s, s', host)
    case StartListing => StartListingStep(s, s')
    case ListId(id) => ListIdStep(s, s', id)
    case EndListing => EndListingStep(s, s')
    case DropGhosts => DropGhostsStep(s, s')
    case StartProcessing(extra) => StartProcessingStep(s, s', extra)
    case Resurrect(chunk) => ResurrectStep(s, s', chunk)
    case DeleteFossil(chunk) => DeleteFossilStep(s, s', chunk)
    case ForgetCollection => ForgetCollectionStep(s, s')
    case StartCollecting(flagged) => StartCollectingStep(s, s', flagged)
    case Fossilize(chunk) => FossilizeStep(s, s', chunk)
    case SaveCollection => SaveCollectionStep(s, s')
    case DeleteSnapshot(x) => DeleteSnapshotStep(s, s', x)
    case EndPrune => EndPruneStep(s, s')
    case AbortPrune => AbortPruneStep(s, s')
  }

  // ---------- what is always possible ----------

  ghost predicate CanStep(s: State, step: Step) {
    exists s' :: Next(s, s', step)
  }

  /** A backup is held up by nothing: it uploads any chunk, claims any chunk of its cache without looking whether it is still
      there, ends, and may stop at any point; a first one comes upon any live chunk. */
  lemma BackupIsFree(s: State, host: string, chunk: ChunkId)
    requires host in s.running
    ensures CanStep(s, Upload(host, chunk)) && CanStep(s, AbortBackup(host))
    ensures chunk in s.running[host].cache ==> CanStep(s, Claim(host, chunk))
    ensures s.running[host].revision == 1 && chunk in s.live ==> CanStep(s, Discover(host, chunk))
    ensures if s.running[host].endTime.None? then CanStep(s, MarkEnd(host)) else CanStep(s, Finish(host))
  {
    var b := s.running[host];
    var claimed := s.running[host := b.(claimed := b.claimed + {chunk})];
    assert Next(s, s.(live := s.live + {chunk}, running := claimed), Upload(host, chunk));
    assert Next(s, s.(running := s.running - {host}), AbortBackup(host));
    if chunk in b.cache {
      assert Next(s, s.(running := claimed), Claim(host, chunk));
    }
    if b.revision == 1 && chunk in s.live {
      assert Next(s, s.(running := s.running[host := b.(cache := b.cache + {chunk})]), Discover(host, chunk));
    }
    if b.endTime.None? {
      assert Next(s, s.(running := s.running[host := b.(endTime := Some(s.clock))]), MarkEnd(host));
    } else {
      assert Next(s, s.(stored := s.stored[SnapshotOf(b) := b.epoch], running := s.running - {host}), Finish(host));
    }
  }

  /** Time passes, and a host that runs no backup may begin one, from the latest revision of its id or from nothing. */
  lemma BackupMayBegin(s: State, now: int, id: string, l: Snapshot)
    ensures now >= s.clock ==> CanStep(s, Tick(now))
    ensures HostOf(id) !in s.running && l in s.stored && l.id == id && IsLatest(l, s.stored.Keys) ==> CanStep(s, Begin(id, l.chunks))
    ensures HostOf(id) !in s.running && (forall x <- s.stored.Keys :: x.id != id) ==> CanStep(s, Begin(id, {}))
  {
    if now >= s.clock {
      assert Next(s, s.(clock := now), Tick(now));
    }
    var host := HostOf(id);
    if host !in s.running && l in s.stored && l.id == id && IsLatest(l, s.stored.Keys) {
      assert Next(s, s.(running := s.running[host := Backup(id, l.revision + 1, l.chunks, {}, None, s.epoch)]), Begin(id, l.chunks));
    }
    if host !in s.running && forall x <- s.stored.Keys :: x.id != id {
      assert Next(s, s.(running := s.running[host := Backup(id, 1, {}, {}, None, s.epoch)]), Begin(id, {}));
    }
  }

  /** The pruner may stop at any point, lists any id next, and works off its tasks in any order. */
  lemma PrunerIsFree(s: State, id: string, chunk: ChunkId)
    ensures CanStep(s, AbortPrune)
    ensures s.pruner.Idle? ==> CanStep(s, StartListing)
    ensures s.pruner.Listing? && id in s.pruner.ids ==> CanStep(s, ListId(id))
    ensures s.pruner.Listing? && s.pruner.ids == {} ==> CanStep(s, EndListing)
    ensures chunk in TasksOf(s.pruner).keep ==> CanStep(s, Resurrect(chunk))
    ensures chunk in TasksOf(s.pruner).drop ==> CanStep(s, DeleteFossil(chunk))
  {
    var t := TasksOf(s.pruner);
    assert Next(s, s.(pruner := Idle), AbortPrune);
    if s.pruner.Idle? {
      assert Next(s, s.(pruner := Listing(Ids(s.stored.Keys), {}, EarlyHosts(s))), StartListing);
    }
    if s.pruner.Listing? && id in s.pruner.ids {
      assert Next(s, s.(pruner := Listing(s.pruner.ids - {id}, s.pruner.listing + (set x <- s.stored.Keys | x.id == id),
                                          s.pruner.early - {HostOf(id)} + ({HostOf(id)} * EarlyHosts(s)))), ListId(id));
    }
    if s.pruner.Listing? && s.pruner.ids == {} {
      assert Next(s, s.(pruner := Listed(s.pruner.listing, s.pruner.early, false, NO_TASKS)), EndListing);
    }
    if chunk in t.keep {
      var p := WithTasks(s.pruner, t.(keep := t.keep - {chunk}));
      var live := if chunk in s.fossils then s.live + {chunk} else s.live;
      assert chunk in s.live ==> s.live + {chunk} == s.live;
      assert chunk !in s.fossils ==> s.fossils - {chunk} == s.fossils;
      assert Next(s, s.(pruner := p, fossils := s.fossils - {chunk}, live := live), Resurrect(chunk));
    }
    if chunk in t.drop {
      assert Next(s, s.(pruner := WithTasks(s.pruner, t.(drop := t.drop - {chunk})), fossils := s.fossils - {chunk}), DeleteFossil(chunk));
    }
  }

  /** After the listing the pruner drops a collection whose revisions are still there, processes a deletable one and forgets
      it, and collects for any flagged revisions among which no latest one is. */
  lemma PrunerMayGoOn(s: State, extra: nat, flagged: set<Snapshot>)
    requires s.pruner.Listed?
    ensures !s.pruner.processed && s.pending.Some? && HasGhost(s.pending.value, s.pruner.listing) ==> CanStep(s, DropGhosts)
    ensures
      && !s.pruner.processed && s.pending.Some? && !HasGhost(s.pending.value, s.pruner.listing)
      && Deletable(s.pending.value, extra, s.pruner.listing, s.clock)
      ==> CanStep(s, StartProcessing(extra))
    ensures s.pruner.processed ==> CanStep(s, ForgetCollection)
    ensures s.pending.None? && flagged <= s.pruner.listing && KeepsLatest(s.pruner.listing, flagged) ==> CanStep(s, StartCollecting(flagged))
  {
    var p := s.pruner;
    if !p.processed && s.pending.Some? {
      var c := s.pending.value;
      if HasGhost(c, p.listing) {
        assert Next(s, s.(pending := None), DropGhosts);
      } else if Deletable(c, extra, p.listing, s.clock) {
        var newChunks := ChunksOf(NewSnapshots(c, extra, p.listing));
        assert Next(s, s.(pruner := p.(processed := true, tasks := Tasks(c.fossils * newChunks, c.fossils - newChunks, c.fossils))),
                    StartProcessing(extra));
      }
    }
    if p.processed {
      assert Next(s, s.(pending := None), ForgetCollection);
    }
    if s.pending.None? && flagged <= p.listing && KeepsLatest(p.listing, flagged) {
      assert Next(s, s.(pruner := Fossilizing(p.listing, flagged, Targets(p.listing, flagged), {}, p.tasks)), StartCollecting(flagged));
    }
  }

  /** Chunks are made fossils in any order; when all are, the collection is saved, and its revisions are deleted one by one. */
  lemma CollectingMayGoOn(s: State, chunk: ChunkId, x: Snapshot)
    ensures
      && s.pruner.Fossilizing? && chunk in s.pruner.todo && chunk in s.live + s.fossils
      && (s.threads > 1 || s.pruner.tasks.keep + s.pruner.tasks.drop == {})
      ==> CanStep(s, Fossilize(chunk))
    ensures
      && s.pruner.Fossilizing? && s.pruner.todo == {} && s.pruner.tasks.keep + s.pruner.tasks.drop == {}
      && DistinctRevisions(s.pruner.listing)
      ==> CanStep(s, SaveCollection)
    ensures s.pruner.Deleting? && x in s.pruner.doomed ==> CanStep(s, DeleteSnapshot(x))
    ensures s.pruner.Deleting? && s.pruner.doomed == {} ==> CanStep(s, EndPrune)
  {
    var p := s.pruner;
    if p.Fossilizing? && chunk in p.todo && chunk in s.live + s.fossils && (s.threads > 1 || p.tasks.keep + p.tasks.drop == {}) {
      assert Next(s, s.(pruner := p.(todo := p.todo - {chunk}, done := p.done + {chunk}), live := s.live - {chunk},
                        fossils := s.fossils + {chunk}), Fossilize(chunk));
    }
    if p.Fossilizing? && p.todo == {} && p.tasks.keep + p.tasks.drop == {} && DistinctRevisions(p.listing) {
      if p.done == {} {
        assert Next(s, s.(pruner := Deleting(p.flagged)), SaveCollection);
      } else {
        assert Next(s, s.(pruner := Deleting(p.flagged), epoch := s.epoch + 1,
                          pending := Some(Collection(s.clock, LastRevisions(p.listing), Keys(p.flagged), p.done))), SaveCollection);
      }
    }
    if p.Deleting? && x in p.doomed {
      assert Next(s, s.(pruner := Deleting(p.doomed - {x}), stored := s.stored - {x}), DeleteSnapshot(x));
    }
    if p.Deleting? && p.doomed == {} {
      assert Next(s, s.(pruner := Idle), EndPrune);
    }
  }

  // ---------- what safety needs ----------

  /** When fossils are about to be deleted, a host whose backup begun before the collection ended was still running has a
      stored snapshot. */
  predicate HostsKnown(s: State, step: Step) {
    step.StartProcessing? && s.pruner.Listed? ==>
      forall h <- s.pruner.early :: exists x <- s.pruner.listing :: HostOf(x.id) == h
  }

  /** Such a host is not one of those written off as inactive. */
  predicate HostsAwake(s: State, step: Step) {
    step.StartProcessing? && s.pruner.Listed? ==> forall h <- s.pruner.early :: !HostInactive(s.pruner.listing, h, s.clock)
  }

  /** Backups use these ids only. */
  predicate UsesIds(ids: set<string>, step: Step) {
    step.Begin? ==> step.id in ids
  }

  predicate OneIdPerHost(ids: set<string>) {
    forall i <- ids, j <- ids :: HostOf(i) == HostOf(j) ==> i == j
  }

  /** Several workers are not given a chunk to fossilize whose old fossil they have yet to resurrect or delete. */
  predicate TasksApart(s: State, step: Step) {
    step.StartCollecting? && s.pruner.Listed? ==>
      s.threads == 1 || Targets(s.pruner.listing, step.flagged) !! s.pruner.tasks.keep + s.pruner.tasks.drop
  }

  predicate Allowed(ids: set<string>, s: State, step: Step) {
    HostsKnown(s, step) && HostsAwake(s, step) && UsesIds(ids, step) && TasksApart(s, step)
  }

  // ---------- the invariant ----------

  /** No chunk that a stored snapshot or a running backup depends on is missing from the storage. */
  predicate Safe(s: State) {
    && (forall x <- s.stored.Keys :: x.chunks <= s.live + s.fossils)
    && (forall h <- s.running.Keys :: Needs(s.running[h]) <= s.live + s.fossils)
  }

  predicate BackupOk(s: State, h: string)
    requires h in s.running
  {
    var b := s.running[h];
    && HostOf(b.id) == h && b.revision >= 1 && b.epoch <= s.epoch
    && (b.endTime.Some? ==> b.endTime.value <= s.clock)
    && forall x <- s.stored.Keys :: x.id == b.id ==> x.revision < b.revision
  }

  predicate StoreOk(s: State) {
    && DistinctRevisions(s.stored.Keys)
    && (forall x <- s.stored.Keys :: x.revision >= 1 && x.endTime <= s.clock && s.stored[x] <= s.epoch)
    && (forall h <- s.running.Keys :: BackupOk(s, h))
  }

  predicate IsEarlyNew(s: State, c: Collection, x: Snapshot) {
    x in s.stored && s.stored[x] < s.epoch && x.revision > Last(c, x.id)
  }

  predicate Witnessed(s: State, c: Collection, id: string, chunk: ChunkId) {
    exists y <- s.stored.Keys :: y.id == id && IsEarlyNew(s, c, y) && chunk in y.chunks
  }

  /** Chunks that something begun after the collection depends on, though only a fossil of them is left,
      also belong to a snapshot of the same id whose backup was running while the collection ended. */
  predicate LateCovered(s: State, c: Collection, id: string, chunks: set<ChunkId>) {
    forall ch <- chunks :: ch in c.fossils && ch !in s.live ==> Witnessed(s, c, id, ch)
  }

  predicate LastKept(s: State, c: Collection, id: string)
    requires id in c.lastRevisions
  {
    exists z <- s.stored.Keys :: z.id == id && z.revision == c.lastRevisions[id]
  }

  /** A revision the collection knows is about to be deleted, or has no chunk among the fossils. */
  predicate IsUntouched(c: Collection, x: Snapshot) {
    x.revision <= Last(c, x.id) ==> (x.id, x.revision) in c.deleted || x.chunks !! c.fossils
  }

  predicate OldUntouched(s: State, c: Collection) {
    forall x <- s.stored.Keys :: IsUntouched(c, x)
  }

  predicate LateOk(s: State, c: Collection) {
    && (forall x <- s.stored.Keys :: s.stored[x] == s.epoch ==> LateCovered(s, c, x.id, x.chunks))
    && (forall h <- s.running.Keys ::
          s.running[h].epoch == s.epoch ==> LateCovered(s, c, s.running[h].id, Needs(s.running[h])))
  }

  predicate EarlyOk(s: State, c: Collection) {
    && (forall y <- s.stored.Keys, q <- s.stored.Keys ::
          IsEarlyNew(s, c, y) && q.id == y.id && q.revision < y.revision ==> q.endTime <= c.endTime)
    && (forall h <- s.running.Keys, q <- s.stored.Keys ::
          s.running[h].epoch < s.epoch && HostOf(q.id) == h ==> q.endTime <= c.endTime)
  }

  predicate RevisionsOk(s: State, c: Collection) {
    && (forall id <- c.lastRevisions.Keys :: LastKept(s, c, id))
    && (forall d <- c.deleted :: d.0 in c.lastRevisions && d.1 < c.lastRevisions[d.0])
    && (forall h <- s.running.Keys :: s.running[h].revision > Last(c, s.running[h].id))
  }

  predicate PendingOk(s: State) {
    s.pending.Some? ==>
      var c := s.pending.value;
      && c.endTime <= s.clock
      && OldUntouched(s, c) && LateOk(s, c) && EarlyOk(s, c) && RevisionsOk(s, c)
  }

  predicate ListingOk(s: State, listing: set<Snapshot>) {
    && listing <= s.stored.Keys
    && (forall x <- s.stored.Keys, y <- listing :: x !in listing && x.id == y.id ==> y.revision < x.revision)
    && (forall h <- s.running.Keys, y <- listing :: s.running[h].id == y.id ==> y.revision < s.running[h].revision)
  }

  /** Backups begun before the pending collection ended are on hosts the pruner knows to be early, and
      nothing such a host had stored when its id was listed ended after the collection. `ids` are yet to be listed. */
  predicate EarlyListed(s: State, ids: set<string>, listing: set<Snapshot>, early: set<string>) {
    s.pending.Some? ==>
      var c := s.pending.value;
      && (forall x <- s.stored.Keys :: x !in listing && x.id !in ids && IsEarlyNew(s, c, x) ==> HostOf(x.id) in early)
      && (forall h <- s.running.Keys :: s.running[h].epoch < s.epoch ==> h in early)
      && (forall x <- listing :: HostOf(x.id) in early ==> x.endTime <= c.endTime)
      && (forall d <- c.deleted :: d.0 !in ids ==> exists z <- listing :: z.id == d.0 && z.revision > d.1)
  }

  /** A fossil about to be deleted is not needed, or has been uploaded again. */
  predicate DropOk(s: State, drop: set<ChunkId>) {
    && (forall x <- s.stored.Keys :: x.chunks * drop <= s.live)
    && (forall h <- s.running.Keys :: Needs(s.running[h]) * drop <= s.live)
  }

  predicate FlaggedOk(listing: set<Snapshot>, flagged: set<Snapshot>) {
    flagged <= listing && KeepsLatest(listing, flagged)
  }

  predicate DoomedOk(s: State, doomed: set<Snapshot>) {
    && (forall x <- doomed :: exists z <- s.stored.Keys :: z.id == x.id && z.revision > x.revision && z !in doomed)
    && (s.pending.Some? ==> Keys(doomed) <= s.pending.value.deleted)
  }

  predicate PrunerOk(s: State) {
    match s.pruner
    case Idle => true
    case Listing(ids, listing, early) => ListingOk(s, listing) && EarlyListed(s, ids, listing, early)
    case Listed(listing, early, processed, tasks) =>
      && ListingOk(s, listing) && EarlyListed(s, {}, listing, early) && DropOk(s, tasks.drop)
    case Fossilizing(listing, flagged, todo, done, tasks) =>
      && ListingOk(s, listing) && FlaggedOk(listing, flagged) && s.pending.None?
      && ChunksOf(listing - flagged) !! todo + done
      && DropOk(s, tasks.drop) && (s.threads == 1 || todo !! tasks.keep + tasks.drop)
    case Deleting(doomed) => DoomedOk(s, doomed)
  }

  predicate Inv(s: State) {
    Safe(s) && StoreOk(s) && PendingOk(s) && PrunerOk(s)
  }

  /** Only these ids are in use. */
  predicate IdsOk(s: State, ids: set<string>) {
    && (forall x <- s.stored.Keys :: x.id in ids) && (forall h <- s.running.Keys :: s.running[h].id in ids)
    && (s.pruner.Listing? ==> s.pruner.ids <= ids)
  }
}
