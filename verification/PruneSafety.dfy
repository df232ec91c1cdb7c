/** Every step of the prune protocol keeps the invariant, hence every run is safe. */
module PruneSafety {
  import opened Wrappers
  import opened Snapshots
  import opened PruneProtocol

  // ---------- what a step leaves alone ----------

  /** `s'` stores the same snapshots and runs no other backups than `s`. */
  predicate Frames(s: State, s': State) {
    && s'.stored == s.stored && s'.clock >= s.clock
    && s'.running.Keys <= s.running.Keys
    && forall h <- s'.running.Keys :: s'.running[h] == s.running[h]
  }

  lemma StoreFrame(s: State, s': State)
    requires StoreOk(s) && Frames(s, s') && s'.epoch >= s.epoch
    ensures StoreOk(s')
  {
    forall h <- s'.running.Keys ensures BackupOk(s', h) {
      assert BackupOk(s, h);
    }
  }

  lemma LiveGrowsCovered(s: State, s': State, c: Collection, id: string, chunks: set<ChunkId>, chunks': set<ChunkId>)
    requires s'.stored == s.stored && s'.epoch == s.epoch && s.live <= s'.live
    requires LateCovered(s, c, id, chunks) && chunks' <= chunks + s'.live
    ensures LateCovered(s', c, id, chunks')
  {
    forall ch <- chunks' | ch in c.fossils && ch !in s'.live ensures Witnessed(s', c, id, ch) {
      assert Witnessed(s, c, id, ch);
      var y :| y in s.stored.Keys && y.id == id && IsEarlyNew(s, c, y) && ch in y.chunks;
      assert IsEarlyNew(s', c, y);
    }
  }

  lemma LateFrame(s: State, s': State, c: Collection)
    requires LateOk(s, c) && Frames(s, s') && s'.epoch == s.epoch && s.live <= s'.live
    ensures LateOk(s', c)
  {
    forall x <- s'.stored.Keys | s'.stored[x] == s'.epoch ensures LateCovered(s', c, x.id, x.chunks) {
      LiveGrowsCovered(s, s', c, x.id, x.chunks, x.chunks);
    }
    forall h <- s'.running.Keys | s'.running[h].epoch == s'.epoch
      ensures LateCovered(s', c, s'.running[h].id, Needs(s'.running[h]))
    {
      LiveGrowsCovered(s, s', c, s.running[h].id, Needs(s.running[h]), Needs(s.running[h]));
    }
  }

  lemma PendingFrame(s: State, s': State)
    requires PendingOk(s) && Frames(s, s')
    requires s'.pending == s.pending && s'.epoch == s.epoch && s.live <= s'.live
    ensures PendingOk(s')
  {
    if s.pending.Some? {
      var c := s.pending.value;
      LateFrame(s, s', c);
      assert forall y <- s'.stored.Keys :: IsEarlyNew(s', c, y) ==> IsEarlyNew(s, c, y);
      forall id <- c.lastRevisions.Keys ensures LastKept(s', c, id) {
        assert LastKept(s, c, id);
      }
    }
  }

  lemma ListingFrame(s: State, s': State, ids: set<string>, listing: set<Snapshot>, early: set<string>)
    requires ListingOk(s, listing) && EarlyListed(s, ids, listing, early) && Frames(s, s')
    requires s'.pending == s.pending && s'.epoch == s.epoch
    ensures ListingOk(s', listing) && EarlyListed(s', ids, listing, early)
  {
    if s.pending.Some? {
      var c := s.pending.value;
      assert forall y <- s'.stored.Keys :: IsEarlyNew(s', c, y) ==> IsEarlyNew(s, c, y);
    }
  }

  lemma PrunerFrame(s: State, s': State)
    requires PrunerOk(s) && Frames(s, s')
    requires s'.pruner == s.pruner && s'.pending == s.pending && s'.epoch == s.epoch && s.live <= s'.live && s'.threads == s.threads
    ensures PrunerOk(s')
  {
    match s.pruner
    case Idle =>
    case Listing(ids, listing, early) => ListingFrame(s, s', ids, listing, early);
    case Listed(listing, early, processed, tasks) => ListingFrame(s, s', {}, listing, early);
    case Fossilizing(listing, flagged, todo, done, tasks) => ListingFrame(s, s', {}, listing, {});
    case Deleting(doomed) =>
  }

  // ---------- backups ----------

  lemma TickKeeps(s: State, s': State, now: int)
    requires Inv(s) && now >= s.clock && s' == s.(clock := now)
    ensures Inv(s')
  {
    StoreFrame(s, s');
    PendingFrame(s, s');
    PrunerFrame(s, s');
  }

  lemma AbortBackupKeeps(s: State, s': State, host: string)
    requires Inv(s) && AbortBackupStep(s, s', host)
    ensures Inv(s')
  {
    StoreFrame(s, s');
    PendingFrame(s, s');
    PrunerFrame(s, s');
  }

  /** `s'` is `s` with one more running backup, begun now. */
  predicate Begins(s: State, s': State, host: string) {
    && host !in s.running && host in s'.running
    && s' == s.(running := s.running[host := s'.running[host]])
    && s'.running[host].epoch == s.epoch
  }

  lemma BeginKeepsPending(s: State, s': State, host: string, c: Collection)
    requires Begins(s, s', host) && LateOk(s, c) && EarlyOk(s, c) && RevisionsOk(s, c)
    requires s'.running[host].revision > Last(c, s'.running[host].id)
    requires LateCovered(s, c, s'.running[host].id, Needs(s'.running[host]))
    ensures LateOk(s', c) && EarlyOk(s', c) && RevisionsOk(s', c)
  {
    forall x <- s'.stored.Keys | s'.stored[x] == s'.epoch ensures LateCovered(s', c, x.id, x.chunks) {
      LiveGrowsCovered(s, s', c, x.id, x.chunks, x.chunks);
    }
    forall h <- s'.running.Keys | s'.running[h].epoch == s'.epoch
      ensures LateCovered(s', c, s'.running[h].id, Needs(s'.running[h]))
    {
      LiveGrowsCovered(s, s', c, s'.running[h].id, Needs(s'.running[h]), Needs(s'.running[h]));
    }
    forall id <- c.lastRevisions.Keys ensures LastKept(s', c, id) {
      assert LastKept(s, c, id);
    }
  }

  /** The latest revision of an id never depends on a fossil that a pending collection may still delete,
      except through a snapshot that counts as new for that collection. */
  lemma LatestCovered(s: State, c: Collection, l: Snapshot)
    requires StoreOk(s) && IsLatest(l, s.stored.Keys)
    requires OldUntouched(s, c) && LateOk(s, c) && RevisionsOk(s, c)
    ensures LateCovered(s, c, l.id, l.chunks) && l.revision >= Last(c, l.id)
  {
    if l.id in c.lastRevisions {
      assert LastKept(s, c, l.id);
    }
    if l.revision <= Last(c, l.id) {
      assert (l.id, l.revision) !in c.deleted;
    } else if s.stored[l] < s.epoch {
      assert IsEarlyNew(s, c, l);
    }
  }

  lemma BeginKeepsRest(s: State, s': State, host: string)
    requires Safe(s) && StoreOk(s) && PrunerOk(s) && Begins(s, s', host)
    requires BackupOk(s', host) && Needs(s'.running[host]) <= s.live + s.fossils
    requires Needs(s'.running[host]) * TasksOf(s.pruner).drop <= s.live
    ensures Safe(s') && StoreOk(s') && PrunerOk(s')
  {
    forall h <- s'.running.Keys ensures BackupOk(s', h) {
      assert h != host ==> BackupOk(s, h);
    }
  }

  lemma BeginAgainKeeps(s: State, s': State, host: string, l: Snapshot)
    requires Inv(s) && Begins(s, s', host)
    requires IsLatest(l, s.stored.Keys) && host == HostOf(l.id)
    requires s'.running[host] == Backup(l.id, l.revision + 1, l.chunks, {}, None, s.epoch)
    ensures Inv(s')
  {
    assert Needs(s'.running[host]) == l.chunks;
    BeginKeepsRest(s, s', host);
    if s.pending.Some? {
      LatestCovered(s, s.pending.value, l);
      BeginKeepsPending(s, s', host, s.pending.value);
    }
  }

  lemma BeginFirstKeeps(s: State, s': State, host: string, id: string, cache: set<ChunkId>)
    requires Inv(s) && Begins(s, s', host) && host == HostOf(id)
    requires forall x <- s.stored.Keys :: x.id != id
    requires cache == {} && s'.running[host] == Backup(id, 1, cache, {}, None, s.epoch)
    ensures Inv(s')
  {
    assert Needs(s'.running[host]) == cache;
    BeginKeepsRest(s, s', host);
    if s.pending.Some? {
      assert id in s.pending.value.lastRevisions ==> LastKept(s, s.pending.value, id);
      BeginKeepsPending(s, s', host, s.pending.value);
    }
  }

  lemma BeginKeeps(s: State, s': State, id: string, cache: set<ChunkId>)
    requires Inv(s) && BeginStep(s, s', id, cache)
    ensures Inv(s')
  {
    var host := HostOf(id);
    if exists x <- s.stored.Keys :: x.id == id {
      var l :| l in s.stored.Keys && l.id == id && IsLatest(l, s.stored.Keys) && cache == l.chunks
               && s' == s.(running := s.running[host := Backup(id, l.revision + 1, cache, {}, None, s.epoch)]);
      BeginAgainKeeps(s, s', host, l);
    } else {
      BeginFirstKeeps(s, s', host, id, cache);
    }
  }

  /** What discovering, claiming, uploading and marking the end have in common: the backup keeps its identity and only
      comes to need chunks that it needed before or that are live now. */
  predicate Advances(s: State, s': State, host: string) {
    && host in s.running && host in s'.running
    && s.live <= s'.live
    && s' == s.(live := s'.live, running := s.running[host := s'.running[host]])
    && var b, b' := s.running[host], s'.running[host];
       && b'.id == b.id && b'.revision == b.revision && b'.epoch == b.epoch
       && Needs(b') <= Needs(b) + s'.live
       && (b'.endTime == b.endTime || b'.endTime == Some(s.clock))
  }

  lemma AdvanceKeepsStore(s: State, s': State, host: string)
    requires Safe(s) && StoreOk(s) && Advances(s, s', host)
    ensures Safe(s') && StoreOk(s')
  {
    forall h <- s'.running.Keys ensures BackupOk(s', h) && Needs(s'.running[h]) <= s'.live + s'.fossils {
      assert BackupOk(s, h);
    }
  }

  lemma AdvanceKeepsLate(s: State, s': State, host: string, c: Collection)
    requires LateOk(s, c) && Advances(s, s', host)
    ensures LateOk(s', c)
  {
    forall x <- s'.stored.Keys | s'.stored[x] == s'.epoch ensures LateCovered(s', c, x.id, x.chunks) {
      LiveGrowsCovered(s, s', c, x.id, x.chunks, x.chunks);
    }
    forall h <- s'.running.Keys | s'.running[h].epoch == s'.epoch
      ensures LateCovered(s', c, s'.running[h].id, Needs(s'.running[h]))
    {
      LiveGrowsCovered(s, s', c, s.running[h].id, Needs(s.running[h]), Needs(s'.running[h]));
    }
  }

  lemma AdvanceKeepsPending(s: State, s': State, host: string)
    requires PendingOk(s) && Advances(s, s', host)
    ensures PendingOk(s')
  {
    if s.pending.Some? {
      var c := s.pending.value;
      AdvanceKeepsLate(s, s', host, c);
      assert RevisionsOk(s', c) by {
        forall id <- c.lastRevisions.Keys ensures LastKept(s', c, id) {
          assert LastKept(s, c, id);
        }
      }
    }
  }

  lemma AdvanceKeepsPruner(s: State, s': State, host: string)
    requires PrunerOk(s) && Advances(s, s', host)
    ensures PrunerOk(s')
  {
  }

  lemma AdvanceKeeps(s: State, s': State, host: string)
    requires Inv(s) && Advances(s, s', host)
    ensures Inv(s')
  {
    AdvanceKeepsStore(s, s', host);
    AdvanceKeepsPending(s, s', host);
    AdvanceKeepsPruner(s, s', host);
  }

  lemma FinishKeepsStore(s: State, s': State, host: string)
    requires Safe(s) && StoreOk(s) && FinishStep(s, s', host)
    ensures Safe(s') && StoreOk(s')
  {
    var b := s.running[host];
    assert BackupOk(s, host);
    forall h <- s'.running.Keys ensures BackupOk(s', h) {
      assert BackupOk(s, h);
    }
  }

  lemma StoreGrowsCovered(s: State, s': State, c: Collection, id: string, chunks: set<ChunkId>, chunks': set<ChunkId>)
    requires s'.epoch == s.epoch && s'.live == s.live
    requires forall x <- s.stored.Keys :: x in s'.stored && s'.stored[x] == s.stored[x]
    requires LateCovered(s, c, id, chunks) && chunks' <= chunks
    ensures LateCovered(s', c, id, chunks')
  {
    forall ch <- chunks' | ch in c.fossils && ch !in s'.live ensures Witnessed(s', c, id, ch) {
      assert Witnessed(s, c, id, ch);
      var y :| y in s.stored.Keys && y.id == id && IsEarlyNew(s, c, y) && ch in y.chunks;
      assert IsEarlyNew(s', c, y);
    }
  }

  lemma FinishKeepsLate(s: State, s': State, host: string, c: Collection)
    requires StoreOk(s) && LateOk(s, c) && FinishStep(s, s', host)
    ensures LateOk(s', c)
  {
    var b := s.running[host];
    var n := SnapshotOf(b);
    assert BackupOk(s, host);
    forall x <- s'.stored.Keys | s'.stored[x] == s'.epoch ensures LateCovered(s', c, x.id, x.chunks) {
      if x == n {
        StoreGrowsCovered(s, s', c, x.id, Needs(b), x.chunks);
      } else {
        StoreGrowsCovered(s, s', c, x.id, x.chunks, x.chunks);
      }
    }
    forall h <- s'.running.Keys | s'.running[h].epoch == s'.epoch
      ensures LateCovered(s', c, s'.running[h].id, Needs(s'.running[h]))
    {
      StoreGrowsCovered(s, s', c, s.running[h].id, Needs(s.running[h]), Needs(s.running[h]));
    }
  }

  lemma FinishKeepsEarly(s: State, s': State, host: string, c: Collection)
    requires StoreOk(s) && EarlyOk(s, c) && FinishStep(s, s', host)
    ensures EarlyOk(s', c)
  {
    var b := s.running[host];
    var n := SnapshotOf(b);
    assert BackupOk(s, host);
    forall y <- s'.stored.Keys, q <- s'.stored.Keys
      | IsEarlyNew(s', c, y) && q.id == y.id && q.revision < y.revision
      ensures q.endTime <= c.endTime
    {
      if y != n {
        assert IsEarlyNew(s, c, y);
      }
    }
  }

  lemma FinishKeepsPending(s: State, s': State, host: string)
    requires StoreOk(s) && PendingOk(s) && FinishStep(s, s', host)
    ensures PendingOk(s')
  {
    if s.pending.Some? {
      var c := s.pending.value;
      FinishKeepsLate(s, s', host, c);
      FinishKeepsEarly(s, s', host, c);
      forall id <- c.lastRevisions.Keys ensures LastKept(s', c, id) {
        assert LastKept(s, c, id);
      }
    }
  }

  lemma FinishKeepsListing(s: State, s': State, host: string, ids: set<string>, listing: set<Snapshot>, early: set<string>)
    requires StoreOk(s) && FinishStep(s, s', host)
    requires ListingOk(s, listing) && EarlyListed(s, ids, listing, early)
    ensures ListingOk(s', listing) && EarlyListed(s', ids, listing, early)
  {
    assert BackupOk(s, host);
    if s.pending.Some? {
      var c := s.pending.value;
      forall x <- s'.stored.Keys | x !in listing && x.id !in ids && IsEarlyNew(s', c, x) ensures HostOf(x.id) in early {
        assert x != SnapshotOf(s.running[host]) ==> IsEarlyNew(s, c, x);
      }
    }
  }

  lemma FinishKeepsPruner(s: State, s': State, host: string)
    requires StoreOk(s) && PrunerOk(s) && FinishStep(s, s', host)
    ensures PrunerOk(s')
  {
    assert BackupOk(s, host);
    match s.pruner
    case Idle =>
    case Listing(ids, listing, early) => FinishKeepsListing(s, s', host, ids, listing, early);
    case Listed(listing, early, processed, tasks) => FinishKeepsListing(s, s', host, {}, listing, early);
    case Fossilizing(listing, flagged, todo, done, tasks) => FinishKeepsListing(s, s', host, {}, listing, {});
    case Deleting(doomed) =>
      forall x <- doomed ensures exists z <- s'.stored.Keys :: z.id == x.id && z.revision > x.revision && z !in doomed {
        var z :| z in s.stored.Keys && z.id == x.id && z.revision > x.revision && z !in doomed;
        assert z in s'.stored.Keys;
      }
  }

  lemma FinishKeeps(s: State, s': State, host: string)
    requires Inv(s) && FinishStep(s, s', host)
    ensures Inv(s')
  {
    FinishKeepsStore(s, s', host);
    FinishKeepsPending(s, s', host);
    FinishKeepsPruner(s, s', host);
  }

  // ---------- the pruner ----------

  lemma PrunerIdleKeeps(s: State, s': State)
    requires Inv(s) && s' == s.(pruner := Idle)
    ensures Inv(s')
  {
    StoreFrame(s, s');
    PendingFrame(s, s');
  }

  lemma StartListingKeeps(s: State, s': State)
    requires Inv(s) && StartListingStep(s, s')
    ensures Inv(s')
  {
    StoreFrame(s, s');
    PendingFrame(s, s');
    if s.pending.Some? {
      var c := s.pending.value;
      forall d <- c.deleted ensures d.0 in s'.pruner.ids {
        assert LastKept(s, c, d.0);
      }
    }
  }

  /** What was listed of the other ids, and what is listed of this one, is older than anything stored later. */
  lemma ListIdKeepsListing(s: State, s': State, id: string)
    requires StoreOk(s) && PrunerOk(s) && ListIdStep(s, s', id)
    ensures ListingOk(s', s'.pruner.listing)
  {
    forall h <- s.running.Keys, y <- s'.pruner.listing | s.running[h].id == y.id ensures y.revision < s.running[h].revision {
      assert BackupOk(s, h);
    }
  }

  /** With one id per host, listing an id settles whether its host is early. */
  lemma ListIdKeepsEarly(s: State, s': State, id: string, ids: set<string>)
    requires StoreOk(s) && PendingOk(s) && PrunerOk(s) && ListIdStep(s, s', id) && IdsOk(s, ids) && OneIdPerHost(ids)
    ensures EarlyListed(s', s'.pruner.ids, s'.pruner.listing, s'.pruner.early)
  {
    if s.pending.Some? {
      var c, p, p' := s.pending.value, s.pruner, s'.pruner;
      forall x <- s.stored.Keys | x !in p'.listing && x.id !in p'.ids && IsEarlyNew(s', c, x) ensures HostOf(x.id) in p'.early {
        assert x.id != id && IsEarlyNew(s, c, x);
        assert HostOf(x.id) != HostOf(id);
      }
      forall x <- p'.listing | HostOf(x.id) in p'.early ensures x.endTime <= c.endTime {
        assert x in s.stored.Keys;
      }
      ListIdKeepsDeleted(s, s', id, c);
    }
  }

  lemma ListIdKeepsDeleted(s: State, s': State, id: string, c: Collection)
    requires PrunerOk(s) && ListIdStep(s, s', id) && s.pending == Some(c) && RevisionsOk(s, c)
    ensures forall d <- c.deleted :: d.0 !in s'.pruner.ids ==> exists z <- s'.pruner.listing :: z.id == d.0 && z.revision > d.1
  {
    forall d <- c.deleted | d.0 !in s'.pruner.ids ensures exists z <- s'.pruner.listing :: z.id == d.0 && z.revision > d.1 {
      if d.0 == id {
        assert LastKept(s, c, id);
        var z :| z in s.stored.Keys && z.id == id && z.revision == c.lastRevisions[id];
        assert z in s'.pruner.listing;
      } else {
        var z :| z in s.pruner.listing && z.id == d.0 && z.revision > d.1;
        assert z in s'.pruner.listing;
      }
    }
  }

  lemma ListIdKeeps(s: State, s': State, id: string, ids: set<string>)
    requires Inv(s) && ListIdStep(s, s', id) && IdsOk(s, ids) && OneIdPerHost(ids)
    ensures Inv(s')
  {
    StoreFrame(s, s');
    PendingFrame(s, s');
    ListIdKeepsListing(s, s', id);
    ListIdKeepsEarly(s, s', id, ids);
  }

  lemma EndListingKeeps(s: State, s': State)
    requires Inv(s) && EndListingStep(s, s')
    ensures Inv(s')
  {
    StoreFrame(s, s');
    PendingFrame(s, s');
    ListingFrame(s, s', {}, s.pruner.listing, s.pruner.early);
  }

  /** The workers do one more piece of work. */
  lemma TaskFrame(s: State, s': State, t: Tasks)
    requires PrunerOk(s) && (s.pruner.Listed? || s.pruner.Fossilizing?) && s'.pruner == WithTasks(s.pruner, t) && Frames(s, s')
    requires t.keep <= TasksOf(s.pruner).keep && t.drop <= TasksOf(s.pruner).drop
    requires s'.pending == s.pending && s'.epoch == s.epoch && s.live <= s'.live && s'.threads == s.threads
    ensures PrunerOk(s')
  {
    if s.pruner.Listed? {
      ListingFrame(s, s', {}, s.pruner.listing, s.pruner.early);
    } else {
      ListingFrame(s, s', {}, s.pruner.listing, {});
    }
  }

  lemma StorageChangeIsSafe(s: State, s': State, chunk: ChunkId)
    requires Safe(s) && Frames(s, s')
    requires s.live <= s'.live && s.live + s.fossils - {chunk} <= s'.live + s'.fossils
    requires chunk in s.live + s.fossils ==> chunk in s'.live || DropOk(s, {chunk})
    ensures Safe(s')
  {
  }

  lemma ResurrectKeeps(s: State, s': State, chunk: ChunkId)
    requires Inv(s) && ResurrectStep(s, s', chunk)
    ensures Inv(s')
  {
    StorageChangeIsSafe(s, s', chunk);
    StoreFrame(s, s');
    PendingFrame(s, s');
    TaskFrame(s, s', TasksOf(s'.pruner));
  }

  lemma DeleteFossilKeeps(s: State, s': State, chunk: ChunkId)
    requires Inv(s) && DeleteFossilStep(s, s', chunk)
    ensures Inv(s')
  {
    assert DropOk(s, {chunk});
    StorageChangeIsSafe(s, s', chunk);
    StoreFrame(s, s');
    PendingFrame(s, s');
    TaskFrame(s, s', TasksOf(s'.pruner));
  }

  lemma DropGhostsKeeps(s: State, s': State)
    requires Inv(s) && DropGhostsStep(s, s')
    ensures Inv(s')
  {
    StoreFrame(s, s');
  }

  /** When a collection is deletable, every backup begun before it ended is over, and all of those that
      succeeded were already listed. */
  lemma DeletableMeansOver(s: State, c: Collection, extra: nat)
    requires s.pruner.Listed? && s.pending == Some(c)
    requires EarlyListed(s, {}, s.pruner.listing, s.pruner.early) && Deletable(c, extra, s.pruner.listing, s.clock)
    requires HostsKnown(s, StartProcessing(extra)) && HostsAwake(s, StartProcessing(extra))
    ensures s.pruner.early == {}
  {
    assert forall h <- s.pruner.early :: !HostActive(c, extra, s.pruner.listing, h);
  }

  /** The early-exit of the scan for new revisions skips nothing made by a backup begun before the collection ended. */
  lemma EarlyNewIsNew(s: State, c: Collection, extra: nat, listing: set<Snapshot>, y: Snapshot)
    requires EarlyOk(s, c) && listing <= s.stored.Keys
    requires y in listing && IsEarlyNew(s, c, y)
    ensures y in NewSnapshots(c, extra, listing)
  {
  }

  lemma NeededOfDropIsLive(s: State, c: Collection, extra: nat, id: string, chunks: set<ChunkId>)
    requires s.pruner.Listed? && ListingOk(s, s.pruner.listing) && EarlyOk(s, c)
    requires forall y <- s.stored.Keys :: IsEarlyNew(s, c, y) ==> y in s.pruner.listing
    requires LateCovered(s, c, id, chunks)
    ensures chunks * (c.fossils - ChunksOf(NewSnapshots(c, extra, s.pruner.listing))) <= s.live
  {
    forall ch <- chunks | ch in c.fossils && ch !in s.live
      ensures ch in ChunksOf(NewSnapshots(c, extra, s.pruner.listing))
    {
      assert Witnessed(s, c, id, ch);
      var y :| y in s.stored.Keys && y.id == id && IsEarlyNew(s, c, y) && ch in y.chunks;
      EarlyNewIsNew(s, c, extra, s.pruner.listing, y);
    }
  }

  lemma StoredOfDropIsLive(s: State, c: Collection, extra: nat, x: Snapshot)
    requires StoreOk(s) && s.pruner.Listed? && ListingOk(s, s.pruner.listing) && s.pending == Some(c)
    requires OldUntouched(s, c) && LateOk(s, c) && EarlyOk(s, c)
    requires EarlyListed(s, {}, s.pruner.listing, {}) && !HasGhost(c, s.pruner.listing)
    requires x in s.stored
    ensures x.chunks * (c.fossils - ChunksOf(NewSnapshots(c, extra, s.pruner.listing))) <= s.live
  {
    if x.revision <= Last(c, x.id) {
      assert (x.id, x.revision) !in c.deleted;
    } else if s.stored[x] < s.epoch {
      assert IsEarlyNew(s, c, x);
      EarlyNewIsNew(s, c, extra, s.pruner.listing, x);
    } else {
      NeededOfDropIsLive(s, c, extra, x.id, x.chunks);
    }
  }

  lemma StartProcessingKeeps(s: State, s': State, extra: nat)
    requires Inv(s) && StartProcessingStep(s, s', extra)
    requires HostsKnown(s, StartProcessing(extra)) && HostsAwake(s, StartProcessing(extra))
    ensures Inv(s')
  {
    var c, listing := s.pending.value, s.pruner.listing;
    var drop := c.fossils - ChunksOf(NewSnapshots(c, extra, listing));
    DeletableMeansOver(s, c, extra);
    forall x <- s.stored.Keys ensures x.chunks * drop <= s.live {
      StoredOfDropIsLive(s, c, extra, x);
    }
    forall h <- s.running.Keys ensures Needs(s.running[h]) * drop <= s.live {
      assert BackupOk(s, h);
      NeededOfDropIsLive(s, c, extra, s.running[h].id, Needs(s.running[h]));
    }
    StoreFrame(s, s');
    PendingFrame(s, s');
  }

  lemma ForgetCollectionKeeps(s: State, s': State)
    requires Inv(s) && ForgetCollectionStep(s, s')
    ensures Inv(s')
  {
    StoreFrame(s, s');
  }

  lemma StartCollectingKeeps(s: State, s': State, flagged: set<Snapshot>)
    requires Inv(s) && StartCollectingStep(s, s', flagged) && TasksApart(s, StartCollecting(flagged))
    ensures Inv(s')
  {
    StoreFrame(s, s');
  }

  /** What is about to be deleted stays live for everyone who needs it, because it is never fossilized meanwhile. */
  lemma FossilizeKeepsDrop(s: State, s': State, chunk: ChunkId)
    requires PrunerOk(s) && FossilizeStep(s, s', chunk)
    ensures DropOk(s', s'.pruner.tasks.drop)
  {
  }

  lemma FossilizeKeeps(s: State, s': State, chunk: ChunkId)
    requires Inv(s) && FossilizeStep(s, s', chunk)
    ensures Inv(s')
  {
    StoreFrame(s, s');
    ListingFrame(s, s', {}, s.pruner.listing, {});
    FossilizeKeepsDrop(s, s', chunk);
    assert s'.live + s'.fossils == s.live + s.fossils;
    assert s'.pruner.todo + s'.pruner.done == s.pruner.todo + s.pruner.done;
  }

  lemma LastIsLatest(listing: set<Snapshot>, x: Snapshot)
    requires x in listing
    ensures exists z <- listing :: IsLatest(z, listing) && z.id == x.id
    decreases set y <- listing | y.id == x.id && y.revision > x.revision
  {
    if !IsLatest(x, listing) {
      var y :| y in listing && y.id == x.id && y.revision > x.revision;
      var above := set w <- listing | w.id == x.id && w.revision > x.revision;
      var above' := set w <- listing | w.id == y.id && w.revision > y.revision;
      assert above' <= above && y in above && y !in above';
      LastIsLatest(listing, y);
    }
  }

  lemma LastRevisionsAreLatest(listing: set<Snapshot>, c: Collection, z: Snapshot)
    requires DistinctRevisions(listing) && c.lastRevisions == LastRevisions(listing) && IsLatest(z, listing)
    ensures Last(c, z.id) == z.revision
  {
  }

  lemma SavedOld(s: State, c: Collection, listing: set<Snapshot>, flagged: set<Snapshot>, x: Snapshot)
    requires DistinctRevisions(listing) && ListingOk(s, listing)
    requires c.lastRevisions == LastRevisions(listing) && c.deleted == Keys(flagged)
    requires ChunksOf(listing - flagged) !! c.fossils && x in s.stored && x.revision >= 1
    ensures IsUntouched(c, x)
  {
    if x.id in c.lastRevisions && x.revision <= Last(c, x.id) {
      var z :| z in listing && IsLatest(z, listing) && z.id == x.id;
      LastRevisionsAreLatest(listing, c, z);
      assert x in listing;
      if x !in flagged {
        assert x.chunks <= ChunksOf(listing - flagged);
      }
    }
  }

  lemma SavedLast(s: State, c: Collection, listing: set<Snapshot>, id: string)
    requires DistinctRevisions(listing) && ListingOk(s, listing)
    requires c.lastRevisions == LastRevisions(listing) && id in c.lastRevisions
    ensures exists z <- listing :: IsLatest(z, listing) && z.id == id && z.revision == Last(c, id)
    ensures LastKept(s, c, id)
  {
    var z :| z in listing && IsLatest(z, listing) && z.id == id;
    LastRevisionsAreLatest(listing, c, z);
  }

  lemma SavedDeleted(c: Collection, listing: set<Snapshot>, flagged: set<Snapshot>, x: Snapshot)
    requires DistinctRevisions(listing) && FlaggedOk(listing, flagged) && x in flagged
    requires c.lastRevisions == LastRevisions(listing)
    ensures x.id in c.lastRevisions && x.revision < c.lastRevisions[x.id]
  {
    LastIsLatest(listing, x);
    var z :| z in listing && IsLatest(z, listing) && z.id == x.id;
    LastRevisionsAreLatest(listing, c, z);
  }

  lemma SavedLasts(s: State, c: Collection, listing: set<Snapshot>)
    requires StoreOk(s) && DistinctRevisions(listing) && ListingOk(s, listing) && c.lastRevisions == LastRevisions(listing)
    ensures forall id <- c.lastRevisions.Keys :: LastKept(s, c, id)
    ensures forall h <- s.running.Keys :: s.running[h].revision > Last(c, s.running[h].id)
  {
    forall id <- c.lastRevisions.Keys ensures LastKept(s, c, id) {
      SavedLast(s, c, listing, id);
    }
    forall h <- s.running.Keys ensures s.running[h].revision > Last(c, s.running[h].id) {
      assert BackupOk(s, h);
      if s.running[h].id in c.lastRevisions {
        SavedLast(s, c, listing, s.running[h].id);
      }
    }
  }

  lemma SavedRevisions(s: State, c: Collection, listing: set<Snapshot>, flagged: set<Snapshot>)
    requires StoreOk(s) && DistinctRevisions(listing) && ListingOk(s, listing) && FlaggedOk(listing, flagged)
    requires c.lastRevisions == LastRevisions(listing) && c.deleted == Keys(flagged)
    ensures RevisionsOk(s, c)
  {
    SavedLasts(s, c, listing);
    forall d <- c.deleted ensures d.0 in c.lastRevisions && d.1 < c.lastRevisions[d.0] {
      var x :| x in flagged && d == (x.id, x.revision);
      SavedDeleted(c, listing, flagged, x);
    }
  }

  lemma FlaggedDoomed(s: State, listing: set<Snapshot>, flagged: set<Snapshot>)
    requires ListingOk(s, listing) && FlaggedOk(listing, flagged)
    ensures forall x <- flagged :: exists z <- s.stored.Keys :: z.id == x.id && z.revision > x.revision && z !in flagged
  {
    forall x <- flagged ensures exists z <- s.stored.Keys :: z.id == x.id && z.revision > x.revision && z !in flagged {
      LastIsLatest(listing, x);
      var z :| z in listing && IsLatest(z, listing) && z.id == x.id;
      assert z.revision > x.revision;
    }
  }

  lemma SavedUntouched(s: State, c: Collection, listing: set<Snapshot>, flagged: set<Snapshot>)
    requires DistinctRevisions(listing) && ListingOk(s, listing) && forall x <- s.stored.Keys :: x.revision >= 1
    requires c.lastRevisions == LastRevisions(listing) && c.deleted == Keys(flagged) && ChunksOf(listing - flagged) !! c.fossils
    ensures OldUntouched(s, c)
  {
    forall x <- s.stored.Keys ensures IsUntouched(c, x) {
      SavedOld(s, c, listing, flagged, x);
    }
  }

  /** Nothing has begun after the collection yet, and everything stored has ended. */
  lemma SavedTimes(s: State, s': State, c: Collection)
    requires StoreOk(s) && c.endTime == s.clock
    requires s'.stored == s.stored && s'.running == s.running && s'.epoch == s.epoch + 1
    ensures LateOk(s', c) && EarlyOk(s', c)
  {
    assert forall h <- s.running.Keys :: BackupOk(s, h);
  }

  lemma SavedRevisionsStay(s: State, s': State, c: Collection)
    requires RevisionsOk(s, c) && s'.stored == s.stored && s'.running == s.running
    ensures RevisionsOk(s', c)
  {
    forall id <- c.lastRevisions.Keys ensures LastKept(s', c, id) {
      assert LastKept(s, c, id);
    }
  }

  lemma SavedPending(s: State, s': State, c: Collection)
    requires StoreOk(s) && PrunerOk(s) && SaveCollectionStep(s, s') && s'.pending == Some(c) && s.pending == None
    ensures OldUntouched(s', c) && LateOk(s', c) && EarlyOk(s', c) && RevisionsOk(s', c) && c.endTime <= s'.clock
  {
    var listing, flagged := s.pruner.listing, s.pruner.flagged;
    assert s'.stored == s.stored && s'.running == s.running && s'.epoch == s.epoch + 1 && c.endTime == s.clock == s'.clock;
    SavedUntouched(s, c, listing, flagged);
    SavedTimes(s, s', c);
    SavedRevisions(s, c, listing, flagged);
    SavedRevisionsStay(s, s', c);
  }

  lemma SaveCollectionKeeps(s: State, s': State)
    requires Inv(s) && SaveCollectionStep(s, s')
    ensures Inv(s')
  {
    FlaggedDoomed(s, s.pruner.listing, s.pruner.flagged);
    StoreFrame(s, s');
    if s'.pending.Some? {
      SavedPending(s, s', s'.pending.value);
    }
  }

  lemma DeletionKeepsCovered(s: State, s': State, c: Collection, x: Snapshot, id: string, chunks: set<ChunkId>)
    requires s' == s.(stored := s.stored - {x}, pruner := s'.pruner)
    requires x.revision <= Last(c, x.id) && LateCovered(s, c, id, chunks)
    ensures LateCovered(s', c, id, chunks)
  {
    forall ch <- chunks | ch in c.fossils && ch !in s'.live ensures Witnessed(s', c, id, ch) {
      assert Witnessed(s, c, id, ch);
      var y :| y in s.stored.Keys && y.id == id && IsEarlyNew(s, c, y) && ch in y.chunks;
      assert IsEarlyNew(s', c, y);
    }
  }

  lemma DeletionKeepsLate(s: State, s': State, c: Collection, x: Snapshot)
    requires s' == s.(stored := s.stored - {x}, pruner := s'.pruner)
    requires x.revision <= Last(c, x.id) && LateOk(s, c)
    ensures LateOk(s', c)
  {
    forall y <- s'.stored.Keys | s'.stored[y] == s'.epoch ensures LateCovered(s', c, y.id, y.chunks) {
      DeletionKeepsCovered(s, s', c, x, y.id, y.chunks);
    }
    forall h <- s'.running.Keys | s'.running[h].epoch == s'.epoch
      ensures LateCovered(s', c, s'.running[h].id, Needs(s'.running[h]))
    {
      DeletionKeepsCovered(s, s', c, x, s.running[h].id, Needs(s.running[h]));
    }
  }

  lemma DeletionKeepsRevisions(s: State, s': State, c: Collection, x: Snapshot)
    requires s' == s.(stored := s.stored - {x}, pruner := s'.pruner)
    requires x.revision < Last(c, x.id) && RevisionsOk(s, c)
    ensures RevisionsOk(s', c)
  {
    forall id <- c.lastRevisions.Keys ensures LastKept(s', c, id) {
      assert LastKept(s, c, id);
      var z :| z in s.stored.Keys && z.id == id && z.revision == c.lastRevisions[id];
      assert z in s'.stored.Keys;
    }
  }

  lemma DeletionKeepsEarly(s: State, s': State, c: Collection, x: Snapshot)
    requires s' == s.(stored := s.stored - {x}, pruner := s'.pruner) && EarlyOk(s, c)
    ensures EarlyOk(s', c)
  {
    assert forall y <- s'.stored.Keys :: IsEarlyNew(s', c, y) ==> IsEarlyNew(s, c, y);
  }

  lemma DeleteSnapshotKeepsPending(s: State, s': State, x: Snapshot)
    requires PendingOk(s) && PrunerOk(s) && DeleteSnapshotStep(s, s', x)
    ensures PendingOk(s')
  {
    if s.pending.Some? {
      var c := s.pending.value;
      assert (x.id, x.revision) in Keys(s.pruner.doomed);
      DeletionKeepsLate(s, s', c, x);
      DeletionKeepsEarly(s, s', c, x);
      DeletionKeepsRevisions(s, s', c, x);
    }
  }

  lemma DeletionKeepsStore(s: State, s': State, x: Snapshot)
    requires Safe(s) && StoreOk(s) && s' == s.(stored := s.stored - {x}, pruner := s'.pruner)
    ensures Safe(s') && StoreOk(s')
  {
    assert forall h <- s.running.Keys :: BackupOk(s, h);
  }

  lemma DeletionKeepsDoomed(s: State, s': State, x: Snapshot, doomed: set<Snapshot>)
    requires DoomedOk(s, doomed) && x in doomed
    requires s'.stored.Keys == s.stored.Keys - {x} && s'.pending == s.pending
    ensures DoomedOk(s', doomed - {x})
  {
    forall y <- doomed - {x}
      ensures exists z <- s'.stored.Keys :: z.id == y.id && z.revision > y.revision && z !in doomed - {x}
    {
      var z :| z in s.stored.Keys && z.id == y.id && z.revision > y.revision && z !in doomed;
      assert z in s'.stored.Keys;
    }
  }

  lemma DeleteSnapshotKeeps(s: State, s': State, x: Snapshot)
    requires Inv(s) && DeleteSnapshotStep(s, s', x)
    ensures Inv(s')
  {
    DeleteSnapshotKeepsPending(s, s', x);
    DeletionKeepsStore(s, s', x);
    DeletionKeepsDoomed(s, s', x, s.pruner.doomed);
  }

  // ---------- runs ----------

  predicate IsBackupStep(step: Step) {
    step.Tick? || step.Begin? || step.Discover? || step.Claim? || step.Upload? || step.MarkEnd? || step.Finish? || step.AbortBackup?
  }

  predicate IsListingStep(step: Step) {
    step.StartListing? || step.ListId? || step.EndListing? || step.EndPrune? || step.AbortPrune?
  }

  predicate IsProcessingStep(step: Step) {
    step.DropGhosts? || step.StartProcessing? || step.Resurrect? || step.DeleteFossil? || step.ForgetCollection?
  }

  predicate IsAdvanceStep(step: Step) {
    step.Discover? || step.Claim? || step.Upload? || step.MarkEnd?
  }

  lemma AdvanceStepKeeps(s: State, s': State, step: Step)
    requires Inv(s) && Next(s, s', step) && IsAdvanceStep(step)
    ensures Inv(s')
  {
    AdvanceKeeps(s, s', step.host);
  }

  lemma BackupStepKeeps(s: State, s': State, step: Step)
    requires Inv(s) && Next(s, s', step) && IsBackupStep(step)
    ensures Inv(s')
  {
    if IsAdvanceStep(step) {
      AdvanceStepKeeps(s, s', step);
    } else {
      match step {
        case Tick(now) => TickKeeps(s, s', now);
        case Begin(id, cache) => BeginKeeps(s, s', id, cache);
        case Finish(host) => FinishKeeps(s, s', host);
        case AbortBackup(host) => AbortBackupKeeps(s, s', host);
      }
    }
  }

  lemma ListingStepKeeps(s: State, s': State, step: Step, ids: set<string>)
    requires Inv(s) && Next(s, s', step) && IsListingStep(step) && IdsOk(s, ids) && OneIdPerHost(ids)
    ensures Inv(s')
  {
    match step {
      case StartListing => StartListingKeeps(s, s');
      case ListId(id) => ListIdKeeps(s, s', id, ids);
      case EndListing => EndListingKeeps(s, s');
      case EndPrune => PrunerIdleKeeps(s, s');
      case AbortPrune => PrunerIdleKeeps(s, s');
    }
  }

  lemma ProcessingStepKeeps(s: State, s': State, step: Step)
    requires Inv(s) && Next(s, s', step) && IsProcessingStep(step) && HostsKnown(s, step) && HostsAwake(s, step)
    ensures Inv(s')
  {
    match step {
      case DropGhosts => DropGhostsKeeps(s, s');
      case StartProcessing(extra) => StartProcessingKeeps(s, s', extra);
      case Resurrect(chunk) => ResurrectKeeps(s, s', chunk);
      case DeleteFossil(chunk) => DeleteFossilKeeps(s, s', chunk);
      case ForgetCollection => ForgetCollectionKeeps(s, s');
    }
  }

  lemma CollectingStepKeeps(s: State, s': State, step: Step)
    requires Inv(s) && Next(s, s', step) && TasksApart(s, step)
    requires step.StartCollecting? || step.Fossilize? || step.SaveCollection? || step.DeleteSnapshot?
    ensures Inv(s')
  {
    match step {
      case StartCollecting(flagged) => StartCollectingKeeps(s, s', flagged);
      case Fossilize(chunk) => FossilizeKeeps(s, s', chunk);
      case SaveCollection => SaveCollectionKeeps(s, s');
      case DeleteSnapshot(x) => DeleteSnapshotKeeps(s, s', x);
    }
  }

  /** Every step of every backup and of the prune keeps the invariant. */
  lemma StepKeeps(s: State, s': State, step: Step, ids: set<string>)
    requires Inv(s) && IdsOk(s, ids) && OneIdPerHost(ids) && Next(s, s', step) && Allowed(ids, s, step)
    ensures Inv(s')
  {
    if IsBackupStep(step) {
      BackupStepKeeps(s, s', step);
    } else if IsListingStep(step) {
      ListingStepKeeps(s, s', step, ids);
    } else if IsProcessingStep(step) {
      ProcessingStepKeeps(s, s', step);
    } else {
      CollectingStepKeeps(s, s', step);
    }
  }

  lemma BackupStepKeepsIds(s: State, s': State, step: Step, ids: set<string>)
    requires IdsOk(s, ids) && Next(s, s', step) && UsesIds(ids, step) && IsBackupStep(step)
    ensures IdsOk(s', ids)
  {
  }

  lemma PruneStepKeepsIds(s: State, s': State, step: Step, ids: set<string>)
    requires IdsOk(s, ids) && Next(s, s', step) && !IsBackupStep(step)
    ensures IdsOk(s', ids)
  {
    assert s'.running == s.running && s'.stored.Keys <= s.stored.Keys;
    if step.StartListing? {
      assert forall i <- s'.pruner.ids :: exists x <- s.stored.Keys :: x.id == i;
    }
  }

  lemma StepKeepsIds(s: State, s': State, step: Step, ids: set<string>)
    requires IdsOk(s, ids) && Next(s, s', step) && UsesIds(ids, step)
    ensures IdsOk(s', ids)
  {
    if IsBackupStep(step) {
      BackupStepKeepsIds(s, s', step, ids);
    } else {
      PruneStepKeepsIds(s, s', step, ids);
    }
  }

  /** `states` are the successive states of a run that starts from an empty storage. */
  predicate IsRun(states: seq<State>, steps: seq<Step>) {
    && |states| == |steps| + 1
    && Init(states[0])
    && forall i :: 0 <= i < |steps| ==> Next(states[i], states[i + 1], steps[i])
  }

  /** Every step of a run keeps to the conditions that safety needs. */
  predicate RunAllowed(ids: set<string>, states: seq<State>, steps: seq<Step>)
    requires |states| == |steps| + 1
  {
    OneIdPerHost(ids) && forall k :: 0 <= k < |steps| ==> Allowed(ids, states[k], steps[k])
  }

  lemma {:induction false} RunKeeps(states: seq<State>, steps: seq<Step>, ids: set<string>, i: nat)
    requires IsRun(states, steps) && RunAllowed(ids, states, steps) && i < |states|
    ensures Inv(states[i]) && IdsOk(states[i], ids)
  {
    if i > 0 {
      RunKeeps(states, steps, ids, i - 1);
      StepKeeps(states[i - 1], states[i], steps[i - 1], ids);
      StepKeepsIds(states[i - 1], states[i], steps[i - 1], ids);
    }
  }

  /** The main theorem: however backups, the listing of ids, collections, deletions and crashes interleave, no stored
      snapshot and no running backup ever loses a chunk, provided that early hosts are known and awake, that no two ids
      share a host, and that work on the same chunk is not handed to several workers at once. */
  lemma NoChunkIsEverLost(states: seq<State>, steps: seq<Step>, ids: set<string>)
    requires IsRun(states, steps) && RunAllowed(ids, states, steps)
    ensures forall i :: 0 <= i < |states| ==> Safe(states[i])
  {
    forall i | 0 <= i < |states| ensures Safe(states[i]) {
      RunKeeps(states, steps, ids, i);
    }
  }
}
