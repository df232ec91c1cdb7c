/**
 What the safety theorem leans on, and what the pruner achieves: each of its four conditions has a run that keeps to the
 other three and loses a chunk, and a completed deletion leaves no fossil of its collection behind.
 */
module PruneLimits {
  import opened Wrappers
  import opened Snapshots
  import opened PruneProtocol
  import opened PruneSafety

  // ---------- runs that break one condition ----------

  /** The conditions of the safety theorem. */
  datatype Condition = KnownHosts | AwakeHosts | OneId | ApartTasks

  /** A step keeps to every condition but one. */
  predicate AllowedWithout(w: Condition, ids: set<string>, s: State, step: Step) {
    && (w.KnownHosts? || HostsKnown(s, step)) && (w.AwakeHosts? || HostsAwake(s, step))
    && UsesIds(ids, step) && (w.OneId? || OneIdPerHost(ids))
    && (w.ApartTasks? || TasksApart(s, step))
  }

  /** Some run that keeps to every condition but one ends in this state. */
  ghost predicate Reachable(w: Condition, ids: set<string>, s: State) {
    exists states: seq<State>, steps: seq<Step> :: IsRun(states, steps) && LeadsTo(w, ids, states, steps, s)
  }

  ghost predicate LeadsTo(w: Condition, ids: set<string>, states: seq<State>, steps: seq<Step>, s: State)
    requires |states| == |steps| + 1
  {
    states[|steps|] == s && forall k :: 0 <= k < |steps| ==> AllowedWithout(w, ids, states[k], steps[k])
  }

  lemma ReachStart(w: Condition, ids: set<string>, s: State)
    requires Init(s)
    ensures Reachable(w, ids, s)
  {
    assert IsRun([s], []) && LeadsTo(w, ids, [s], [], s);
  }

  lemma ReachStep(w: Condition, ids: set<string>, s: State, s': State, step: Step)
    requires Reachable(w, ids, s) && Next(s, s', step) && AllowedWithout(w, ids, s, step)
    ensures Reachable(w, ids, s')
  {
    var states: seq<State>, steps: seq<Step> :| IsRun(states, steps) && LeadsTo(w, ids, states, steps, s);
    var states', steps' := states + [s'], steps + [step];
    forall i | 0 <= i < |steps'| ensures Next(states'[i], states'[i + 1], steps'[i]) && AllowedWithout(w, ids, states'[i], steps'[i]) {
      assert i < |steps| ==> Next(states[i], states[i + 1], steps[i]) && AllowedWithout(w, ids, states[i], steps[i]);
    }
    assert IsRun(states', steps') && LeadsTo(w, ids, states', steps', s');
  }

  // ---------- building runs ----------

  /** An id may be used, and its host is not busy. */
  predicate CanBegin(w: Condition, ids: set<string>, s: State, id: string) {
    id in ids && (w.OneId? || OneIdPerHost(ids)) && HostOf(id) !in s.running
  }

  /** A backup that has uploaded one chunk. */
  function Claiming(s: State, id: string, revision: nat, cache: set<ChunkId>, chunk: ChunkId): (s': State) {
    s.(live := s.live + {chunk}, running := s.running[HostOf(id) := Backup(id, revision, cache, {chunk}, None, s.epoch)])
  }

  lemma ReachClaim(w: Condition, ids: set<string>, s: State, s1: State, id: string, revision: nat, cache: set<ChunkId>, chunk: ChunkId)
    requires Reachable(w, ids, s) && CanBegin(w, ids, s, id) && BeginStep(s, s1, id, cache)
    requires s1 == s.(running := s.running[HostOf(id) := Backup(id, revision, cache, {}, None, s.epoch)])
    ensures Reachable(w, ids, Claiming(s, id, revision, cache, chunk))
  {
    var host := HostOf(id);
    ReachStep(w, ids, s, s1, Begin(id, cache));
    var s2 := Claiming(s, id, revision, cache, chunk);
    assert {} + {chunk} == {chunk};
    assert s1.running[host := s2.running[host]] == s2.running;
    ReachStep(w, ids, s1, s2, Upload(host, chunk));
  }

  lemma FirstClaim(w: Condition, ids: set<string>, s: State, id: string, chunk: ChunkId)
    requires Reachable(w, ids, s) && CanBegin(w, ids, s, id) && forall x <- s.stored.Keys :: x.id != id
    ensures Reachable(w, ids, Claiming(s, id, 1, {}, chunk))
  {
    ReachClaim(w, ids, s, s.(running := s.running[HostOf(id) := Backup(id, 1, {}, {}, None, s.epoch)]), id, 1, {}, chunk);
  }

  lemma NextClaim(w: Condition, ids: set<string>, s: State, l: Snapshot, chunk: ChunkId)
    requires Reachable(w, ids, s) && CanBegin(w, ids, s, l.id) && IsLatest(l, s.stored.Keys)
    ensures Reachable(w, ids, Claiming(s, l.id, l.revision + 1, l.chunks, chunk))
  {
    var s1 := s.(running := s.running[HostOf(l.id) := Backup(l.id, l.revision + 1, l.chunks, {}, None, s.epoch)]);
    assert l in s.stored.Keys;
    ReachClaim(w, ids, s, s1, l.id, l.revision + 1, l.chunks, chunk);
  }

  /** A backup that was claiming one chunk is over. */
  function Stored(s: State, id: string, revision: nat, epoch: nat, chunk: ChunkId): (s': State) {
    s.(live := s.live + {chunk}, stored := s.stored[Snapshot(id, revision, s.clock, {chunk}) := epoch])
  }

  lemma ReachFinish(w: Condition, ids: set<string>, s: State, host: string)
    requires Reachable(w, ids, s) && host in s.running && s.running[host].endTime == None && (w.OneId? || OneIdPerHost(ids))
    ensures
      var b := s.running[host];
      Reachable(w, ids, s.(stored := s.stored[Snapshot(b.id, b.revision, s.clock, b.claimed) := b.epoch], running := s.running - {host}))
  {
    var b := s.running[host].(endTime := Some(s.clock));
    var s1 := s.(running := s.running[host := b]);
    ReachStep(w, ids, s, s1, MarkEnd(host));
    var s2 := s.(stored := s.stored[Snapshot(b.id, b.revision, s.clock, b.claimed) := b.epoch], running := s.running - {host});
    assert s1.running - {host} == s.running - {host};
    ReachStep(w, ids, s1, s2, Finish(host));
  }

  lemma ReachStored(w: Condition, ids: set<string>, s: State, id: string, revision: nat, cache: set<ChunkId>, chunk: ChunkId)
    requires Reachable(w, ids, Claiming(s, id, revision, cache, chunk)) && CanBegin(w, ids, s, id)
    ensures Reachable(w, ids, Stored(s, id, revision, s.epoch, chunk))
  {
    var s1 := Claiming(s, id, revision, cache, chunk);
    ReachFinish(w, ids, s1, HostOf(id));
    assert s1.running - {HostOf(id)} == s.running;
  }

  lemma FirstBackup(w: Condition, ids: set<string>, s: State, id: string, chunk: ChunkId)
    requires Reachable(w, ids, s) && CanBegin(w, ids, s, id) && forall x <- s.stored.Keys :: x.id != id
    ensures Reachable(w, ids, Stored(s, id, 1, s.epoch, chunk))
  {
    FirstClaim(w, ids, s, id, chunk);
    ReachStored(w, ids, s, id, 1, {}, chunk);
  }

  lemma NextBackup(w: Condition, ids: set<string>, s: State, l: Snapshot, chunk: ChunkId)
    requires Reachable(w, ids, s) && CanBegin(w, ids, s, l.id) && IsLatest(l, s.stored.Keys)
    ensures Reachable(w, ids, Stored(s, l.id, l.revision + 1, s.epoch, chunk))
  {
    NextClaim(w, ids, s, l, chunk);
    ReachStored(w, ids, s, l.id, l.revision + 1, l.chunks, chunk);
  }

  lemma ReachTick(w: Condition, ids: set<string>, s: State, now: int)
    requires Reachable(w, ids, s) && now >= s.clock && (w.OneId? || OneIdPerHost(ids))
    ensures Reachable(w, ids, s.(clock := now))
  {
    ReachStep(w, ids, s, s.(clock := now), Tick(now));
  }

  /** The ids are listed one after another with nothing in between. */
  lemma {:induction false} ReachListed(w: Condition, ids: set<string>, s: State)
    requires Reachable(w, ids, s) && (w.OneId? || OneIdPerHost(ids))
    requires s.pruner.Listing? && s.pruner.early == EarlyHosts(s)
    requires s.pruner.listing == set x <- s.stored.Keys | x.id !in s.pruner.ids
    ensures Reachable(w, ids, s.(pruner := Listed(s.stored.Keys, EarlyHosts(s), false, NO_TASKS)))
    decreases s.pruner.ids
  {
    var p := s.pruner;
    if p.ids == {} {
      assert p.listing == s.stored.Keys;
      ReachStep(w, ids, s, s.(pruner := Listed(s.stored.Keys, EarlyHosts(s), false, NO_TASKS)), EndListing);
    } else {
      var id :| id in p.ids;
      var host := HostOf(id);
      var p' := Listing(p.ids - {id}, p.listing + (set x <- s.stored.Keys | x.id == id), p.early - {host} + ({host} * EarlyHosts(s)));
      var s' := s.(pruner := p');
      ReachStep(w, ids, s, s', ListId(id));
      assert EarlyHosts(s') == EarlyHosts(s) && p'.early == p.early;
      assert p'.listing == set x <- s.stored.Keys | x.id !in p'.ids;
      ReachListed(w, ids, s');
    }
  }

  lemma ReachListing(w: Condition, ids: set<string>, s: State)
    requires Reachable(w, ids, s) && (w.OneId? || OneIdPerHost(ids)) && s.pruner.Idle?
    ensures Reachable(w, ids, s.(pruner := Listed(s.stored.Keys, EarlyHosts(s), false, NO_TASKS)))
  {
    var s1 := s.(pruner := Listing(Ids(s.stored.Keys), {}, EarlyHosts(s)));
    ReachStep(w, ids, s, s1, StartListing);
    assert EarlyHosts(s1) == EarlyHosts(s);
    assert s1.pruner.listing == set x <- s1.stored.Keys | x.id !in s1.pruner.ids;
    ReachListed(w, ids, s1);
  }

  /** The state after one snapshot with one chunk of its own was pruned. */
  function Collected(s: State, f: Snapshot, chunk: ChunkId): (s': State)
    requires DistinctRevisions(s.stored.Keys)
  {
    s.(live := s.live - {chunk}, fossils := s.fossils + {chunk}, stored := s.stored - {f}, epoch := s.epoch + 1, pruner := Idle,
       pending := Some(Collection(s.clock, LastRevisions(s.stored.Keys), {(f.id, f.revision)}, {chunk})))
  }

  predicate CanCollect(s: State, f: Snapshot, chunk: ChunkId) {
    && f in s.stored && KeepsLatest(s.stored.Keys, {f}) && Targets(s.stored.Keys, {f}) == {chunk}
    && chunk in s.live && DistinctRevisions(s.stored.Keys) && s.pending == None
  }

  /** A snapshot is pruned by a run of its own. */
  lemma ReachCollected(w: Condition, ids: set<string>, s: State, f: Snapshot, chunk: ChunkId)
    requires Reachable(w, ids, s) && (w.OneId? || OneIdPerHost(ids)) && s.pruner.Idle? && CanCollect(s, f, chunk)
    ensures Reachable(w, ids, Collected(s, f, chunk))
  {
    ReachListing(w, ids, s);
    var s1 := s.(pruner := Listed(s.stored.Keys, EarlyHosts(s), false, NO_TASKS));
    var s2 := s.(pruner := Fossilizing(s.stored.Keys, {f}, {chunk}, {}, NO_TASKS));
    ReachStep(w, ids, s1, s2, StartCollecting({f}));
    var s3 := s.(pruner := Fossilizing(s.stored.Keys, {f}, {}, {chunk}, NO_TASKS), live := s.live - {chunk}, fossils := s.fossils + {chunk});
    assert {chunk} - {chunk} == {} && {} + {chunk} == {chunk};
    ReachStep(w, ids, s2, s3, Fossilize(chunk));
    ReachSaved(w, ids, s, s3, f, chunk);
  }

  lemma ReachSaved(w: Condition, ids: set<string>, s: State, s3: State, f: Snapshot, chunk: ChunkId)
    requires Reachable(w, ids, s3) && (w.OneId? || OneIdPerHost(ids)) && CanCollect(s, f, chunk)
    requires s3 == s.(pruner := Fossilizing(s.stored.Keys, {f}, {}, {chunk}, NO_TASKS), live := s.live - {chunk}, fossils := s.fossils + {chunk})
    ensures Reachable(w, ids, Collected(s, f, chunk))
  {
    var s' := Collected(s, f, chunk);
    var s4 := s'.(pruner := Deleting({f}), stored := s.stored);
    SavesOne(s, s3, s4, f, chunk);
    ReachStep(w, ids, s3, s4, SaveCollection);
    ReachPruned(w, ids, s4, s', f);
  }

  lemma SavesOne(s: State, s3: State, s4: State, f: Snapshot, chunk: ChunkId)
    requires CanCollect(s, f, chunk)
    requires s3 == s.(pruner := Fossilizing(s.stored.Keys, {f}, {}, {chunk}, NO_TASKS), live := s.live - {chunk}, fossils := s.fossils + {chunk})
    requires s4 == Collected(s, f, chunk).(pruner := Deleting({f}), stored := s.stored)
    ensures SaveCollectionStep(s3, s4)
  {
    assert Keys({f}) == {(f.id, f.revision)};
  }

  lemma ReachPruned(w: Condition, ids: set<string>, s: State, s': State, f: Snapshot)
    requires Reachable(w, ids, s) && (w.OneId? || OneIdPerHost(ids)) && s.pruner == Deleting({f})
    requires s' == s.(pruner := Idle, stored := s.stored - {f})
    ensures Reachable(w, ids, s')
  {
    assert {f} - {f} == {};
    ReachStep(w, ids, s, s'.(pruner := Deleting({})), DeleteSnapshot(f));
    ReachStep(w, ids, s'.(pruner := Deleting({})), s', EndPrune);
  }

  /** A deletable collection of one fossil that no new snapshot refers to: the fossil goes. */
  lemma ReachDeleted(w: Condition, ids: set<string>, s: State, c: Collection, chunk: ChunkId)
    requires Reachable(w, ids, s) && s.pruner.Listed? && !s.pruner.processed && s.pending == Some(c) && c.fossils == {chunk}
    requires !HasGhost(c, s.pruner.listing) && Deletable(c, 0, s.pruner.listing, s.clock)
    requires chunk !in ChunksOf(NewSnapshots(c, 0, s.pruner.listing)) && AllowedWithout(w, ids, s, StartProcessing(0))
    ensures exists s' :: Reachable(w, ids, s') && s' == s.(pruner := s'.pruner, fossils := s.fossils - {chunk})
  {
    var newChunks := ChunksOf(NewSnapshots(c, 0, s.pruner.listing));
    var s1 := s.(pruner := s.pruner.(processed := true, tasks := Tasks({}, {chunk}, {chunk})));
    assert c.fossils * newChunks == {} && c.fossils - newChunks == {chunk};
    ReachStep(w, ids, s, s1, StartProcessing(0));
    var t := s1.pruner.tasks;
    var s2 := s1.(pruner := WithTasks(s1.pruner, t.(drop := t.drop - {chunk})), fossils := s.fossils - {chunk});
    ReachStep(w, ids, s1, s2, DeleteFossil(chunk));
  }

  // ---------- the common beginning ----------

  /** Revision `r` of an id, with one chunk. */
  function Rev(id: string, r: nat, time: int, chunk: ChunkId): (x: Snapshot) {
    Snapshot(id, r, time, {chunk})
  }

  /** The first revision of `id` has chunk `x`, the second `y`; the other snapshots and the backups are `stored` and `running`. */
  function TwoRevisions(threads: nat, id: string): (s: State) {
    State(threads, 0, 0, {"x", "y"}, {}, map[Rev(id, 1, 0, "x") := 0, Rev(id, 2, 0, "y") := 0], map[], Idle, None)
  }

  lemma ReachTwoRevisions(w: Condition, ids: set<string>, threads: nat, id: string)
    requires threads >= 1 && id in ids && (w.OneId? || OneIdPerHost(ids))
    ensures Reachable(w, ids, TwoRevisions(threads, id))
  {
    var s0 := State(threads, 0, 0, {}, {}, map[], map[], Idle, None);
    ReachStart(w, ids, s0);
    FirstBackup(w, ids, s0, id, "x");
    var s1 := Stored(s0, id, 1, 0, "x");
    assert s1.stored.Keys == {Rev(id, 1, 0, "x")};
    NextBackup(w, ids, s1, Rev(id, 1, 0, "x"), "y");
    assert Stored(s1, id, 2, 0, "y") == TwoRevisions(threads, id);
  }

  lemma PlainHosts()
    ensures HostOf("a") == "a" && HostOf("b") == "b" && OneIdPerHost({"a", "b"})
  {
    assert '@' !in "a" && '@' !in "b";
  }

  /** A listing of two revisions of an id, and at most one of another id that does not have chunk `x`. */
  predicate IsSetup(listing: set<Snapshot>, id: string, other: set<Snapshot>) {
    && listing == {Rev(id, 1, 0, "x"), Rev(id, 2, 0, "y")} + other
    && (forall x <- other :: x.id != id && x.revision == 1 && "x" !in x.chunks)
    && (forall x <- other, y <- other :: x == y)
  }

  lemma SetupLatest(listing: set<Snapshot>, id: string, other: set<Snapshot>)
    requires IsSetup(listing, id, other)
    ensures DistinctRevisions(listing) && IsLatest(Rev(id, 2, 0, "y"), listing) && !IsLatest(Rev(id, 1, 0, "x"), listing)
    ensures forall x <- other :: IsLatest(x, listing)
  {
    assert Rev(id, 1, 0, "x") in listing && Rev(id, 2, 0, "y") in listing;
  }

  lemma SetupTargets(listing: set<Snapshot>, id: string, other: set<Snapshot>)
    requires IsSetup(listing, id, other)
    ensures KeepsLatest(listing, {Rev(id, 1, 0, "x")}) && Targets(listing, {Rev(id, 1, 0, "x")}) == {"x"}
  {
    SetupLatest(listing, id, other);
    var a1 := Rev(id, 1, 0, "x");
    assert {a1} * listing == {a1} && ChunksOf({a1}) == {"x"};
    assert "x" !in ChunksOf(listing - {a1});
  }

  lemma SetupLast(c: Collection, listing: set<Snapshot>, id: string, other: set<Snapshot>)
    requires IsSetup(listing, id, other) && DistinctRevisions(listing) && c.lastRevisions == LastRevisions(listing)
    ensures Last(c, id) == 2 && forall x <- other :: Last(c, x.id) == 1
  {
    SetupLatest(listing, id, other);
    LastRevisionsAreLatest(listing, c, Rev(id, 2, 0, "y"));
    forall x <- other ensures Last(c, x.id) == 1 {
      LastRevisionsAreLatest(listing, c, x);
    }
  }

  /** The state in which the first revision is gone and `x` is a fossil. */
  function Fossiled(s: State, id: string, c: Collection): (s': State) {
    s.(live := s.live - {"x"}, fossils := s.fossils + {"x"}, stored := s.stored - {Rev(id, 1, 0, "x")}, epoch := s.epoch + 1,
       pending := Some(c))
  }

  /** A collection of the chunk of the first revision. */
  predicate IsCollectionOf(c: Collection, id: string, other: set<Snapshot>, time: int) {
    && c.endTime == time && c.deleted == {(id, 1)} && c.fossils == {"x"}
    && Last(c, id) == 2 && forall x <- other :: Last(c, x.id) == 1
  }

  lemma ReachFossil(w: Condition, ids: set<string>, s: State, id: string, other: set<Snapshot>) returns (c: Collection)
    requires Reachable(w, ids, s) && (w.OneId? || OneIdPerHost(ids)) && s.pruner.Idle? && s.pending == None && "x" in s.live
    requires IsSetup(s.stored.Keys, id, other)
    ensures Reachable(w, ids, Fossiled(s, id, c)) && IsCollectionOf(c, id, other, s.clock)
  {
    var a1 := Rev(id, 1, 0, "x");
    SetupLatest(s.stored.Keys, id, other);
    SetupTargets(s.stored.Keys, id, other);
    ReachCollected(w, ids, s, a1, "x");
    c := Collected(s, a1, "x").pending.value;
    SetupLast(c, s.stored.Keys, id, other);
    assert Collected(s, a1, "x") == Fossiled(s, id, c);
  }

  lemma OneLess(a: Snapshot, b: Snapshot, d: Snapshot)
    requires a != b && a != d
    ensures map[a := 0, b := 0, d := 0] - {a} == map[b := 0, d := 0]
    ensures map[a := 0, b := 0] - {a} == map[b := 0]
  {
  }

  /** A listing in which everything new has chunk `y` only. */
  lemma NothingNewHasX(c: Collection, listing: set<Snapshot>)
    requires forall x <- listing :: x.revision > Last(c, x.id) ==> "x" !in x.chunks
    ensures "x" !in ChunksOf(NewSnapshots(c, 0, listing))
  {
  }

  // ---------- an early host without a snapshot ----------

  /** The first backup of `b`, which has claimed the chunk `x`. */
  const NEWCOMER := Backup("b", 1, {}, {"x"}, None, 0)

  lemma ReachNewcomer()
    ensures Reachable(KnownHosts, {"a", "b"}, TwoRevisions(1, "a").(running := map["b" := NEWCOMER]))
  {
    PlainHosts();
    ReachTwoRevisions(KnownHosts, {"a", "b"}, 1, "a");
    var s0 := TwoRevisions(1, "a");
    FirstClaim(KnownHosts, {"a", "b"}, s0, "b", "x");
    var s1 := s0.(running := map["b" := NEWCOMER]);
    assert s0.live + {"x"} == s0.live;
    assert Claiming(s0, "b", 1, {}, "x") == s1;
  }

  /** `a` has pruned its first revision. */
  function NewcomerCollected(c: Collection): (s: State) {
    State(1, 0, 1, {"y"}, {"x"}, map[Rev("a", 2, 0, "y") := 0], map["b" := NEWCOMER], Idle, Some(c))
  }

  lemma ReachNewcomerCollected() returns (c: Collection)
    ensures Reachable(KnownHosts, {"a", "b"}, NewcomerCollected(c))
    ensures IsCollectionOf(c, "a", {}, 0)
  {
    PlainHosts();
    ReachNewcomer();
    var a1, a2, s1 := Rev("a", 1, 0, "x"), Rev("a", 2, 0, "y"), TwoRevisions(1, "a").(running := map["b" := NEWCOMER]);
    assert s1.stored.Keys == {a1, a2} + {};
    c := ReachFossil(KnownHosts, {"a", "b"}, s1, "a", {});
    OneLess(a1, a2, a2);
    assert s1.live - {"x"} == {"y"} && {} + {"x"} == {"x"};
    assert Fossiled(s1, "a", c) == NewcomerCollected(c);
  }

  /** `a` has backed up again. */
  function NewcomerRenewed(c: Collection): (s: State) {
    NewcomerCollected(c).(clock := 1, stored := map[Rev("a", 2, 0, "y") := 0, Rev("a", 3, 1, "y") := 1])
  }

  lemma ReachNewcomerRenewed() returns (c: Collection)
    ensures Reachable(KnownHosts, {"a", "b"}, NewcomerRenewed(c))
    ensures IsCollectionOf(c, "a", {}, 0)
  {
    PlainHosts();
    c := ReachNewcomerCollected();
    ReachTick(KnownHosts, {"a", "b"}, NewcomerCollected(c), 1);
    var s, a2 := NewcomerCollected(c).(clock := 1), Rev("a", 2, 0, "y");
    assert s.stored.Keys == {a2};
    NextBackup(KnownHosts, {"a", "b"}, s, a2, "y");
    assert s.live + {"y"} == s.live;
    assert Stored(s, "a", 3, 1, "y") == NewcomerRenewed(c);
  }

  /** A host that has never stored a snapshot can lose a chunk that its first backup has claimed. */
  lemma NewHostCanLoseAChunk()
    ensures exists s :: Reachable(KnownHosts, {"a", "b"}, s) && !Safe(s)
  {
    PlainHosts();
    var c := ReachNewcomerRenewed();
    var s, a2, a3 := NewcomerRenewed(c), Rev("a", 2, 0, "y"), Rev("a", 3, 1, "y");
    ReachListing(KnownHosts, {"a", "b"}, s);
    var listing := s.stored.Keys;
    assert listing == {a2, a3};
    var s1 := s.(pruner := Listed(listing, EarlyHosts(s), false, NO_TASKS));
    assert HostActive(c, 0, listing, "a") by { assert a3 in listing && Qualifies(c, 0, a3); }
    NothingNewHasX(c, listing);
    assert EarlyHosts(s) == {"b"};
    ReachDeleted(KnownHosts, {"a", "b"}, s1, c, "x");
    var s2 :| Reachable(KnownHosts, {"a", "b"}, s2) && s2 == s1.(pruner := s2.pruner, fossils := s1.fossils - {"x"});
    assert "x" in Needs(s2.running["b"]) && "x" !in s2.live + s2.fossils;
  }

  // ---------- an early host written off as inactive ----------

  const LATE := 2 + MAX_RUNNING_DAYS * SECONDS_IN_DAY

  /** The second backup of `b`, which has claimed the chunk `x`. */
  const SLEEPER := Backup("b", 2, {"z"}, {"x"}, None, 0)

  function SleeperBegun(): (s: State) {
    TwoRevisions(1, "a").(clock := 1, live := {"x", "y", "z"}, running := map["b" := SLEEPER],
                          stored := map[Rev("a", 1, 0, "x") := 0, Rev("a", 2, 0, "y") := 0, Rev("b", 1, 1, "z") := 0])
  }

  lemma ReachSleeper()
    ensures Reachable(AwakeHosts, {"a", "b"}, SleeperBegun())
  {
    PlainHosts();
    var w, ids, b1 := AwakeHosts, {"a", "b"}, Rev("b", 1, 1, "z");
    ReachTwoRevisions(w, ids, 1, "a");
    var s0 := TwoRevisions(1, "a").(clock := 1);
    ReachTick(w, ids, TwoRevisions(1, "a"), 1);
    FirstBackup(w, ids, s0, "b", "z");
    var s1 := Stored(s0, "b", 1, 0, "z");
    assert s1 == SleeperBegun().(running := map[]);
    NextClaim(w, ids, s1, b1, "x");
    assert s1.live + {"x"} == s1.live;
    assert Claiming(s1, "b", 2, {"z"}, "x") == SleeperBegun();
  }

  function SleeperCollected(c: Collection): (s: State) {
    State(1, 1, 1, {"y", "z"}, {"x"}, map[Rev("a", 2, 0, "y") := 0, Rev("b", 1, 1, "z") := 0], map["b" := SLEEPER], Idle, Some(c))
  }

  lemma ReachSleeperCollected() returns (c: Collection)
    ensures Reachable(AwakeHosts, {"a", "b"}, SleeperCollected(c))
    ensures IsCollectionOf(c, "a", {Rev("b", 1, 1, "z")}, 1)
  {
    PlainHosts();
    ReachSleeper();
    var a1, a2, b1, s2 := Rev("a", 1, 0, "x"), Rev("a", 2, 0, "y"), Rev("b", 1, 1, "z"), SleeperBegun();
    assert s2.stored.Keys == {a1, a2} + {b1};
    c := ReachFossil(AwakeHosts, {"a", "b"}, s2, "a", {b1});
    OneLess(a1, a2, b1);
    assert s2.live - {"x"} == {"y", "z"} && {} + {"x"} == {"x"};
    assert Fossiled(s2, "a", c) == SleeperCollected(c);
  }

  /** More than seven days later `a` has backed up again, and the backup of `b` is still running. */
  function SleeperRenewed(c: Collection): (s: State) {
    SleeperCollected(c).(clock := LATE, stored := map[Rev("a", 2, 0, "y") := 0, Rev("b", 1, 1, "z") := 0, Rev("a", 3, LATE, "y") := 1])
  }

  lemma ReachSleeperRenewed() returns (c: Collection)
    ensures Reachable(AwakeHosts, {"a", "b"}, SleeperRenewed(c))
    ensures IsCollectionOf(c, "a", {Rev("b", 1, 1, "z")}, 1)
  {
    PlainHosts();
    c := ReachSleeperCollected();
    ReachTick(AwakeHosts, {"a", "b"}, SleeperCollected(c), LATE);
    var s, a2 := SleeperCollected(c).(clock := LATE), Rev("a", 2, 0, "y");
    assert s.stored.Keys == {a2, Rev("b", 1, 1, "z")};
    NextBackup(AwakeHosts, {"a", "b"}, s, a2, "y");
    assert s.live + {"y"} == s.live;
    assert Stored(s, "a", 3, 1, "y") == SleeperRenewed(c);
  }

  /** By then the collection may be deleted: `a` is active, and `b` counts as inactive. */
  lemma SleeperIsDeletable(c: Collection, listing: set<Snapshot>)
    requires IsCollectionOf(c, "a", {Rev("b", 1, 1, "z")}, 1)
    requires listing == {Rev("a", 2, 0, "y"), Rev("a", 3, LATE, "y"), Rev("b", 1, 1, "z")}
    ensures !HasGhost(c, listing) && Deletable(c, 0, listing, LATE) && "x" !in ChunksOf(NewSnapshots(c, 0, listing))
  {
    PlainHosts();
    var a3, b1 := Rev("a", 3, LATE, "y"), Rev("b", 1, 1, "z");
    assert b1 in listing;
    assert HostActive(c, 0, listing, "a") by { assert a3 in listing && Qualifies(c, 0, a3); }
    assert HostInactive(listing, "b", LATE) by { assert IsLatest(b1, listing); }
    assert Last(c, b1.id) == 1;
    NothingNewHasX(c, listing);
  }

  /** A host whose last snapshot is more than seven days old can lose a chunk that a backup running since then has claimed. */
  lemma InactiveHostCanLoseAChunk()
    ensures exists s :: Reachable(AwakeHosts, {"a", "b"}, s) && !Safe(s)
  {
    PlainHosts();
    var c := ReachSleeperRenewed();
    var s := SleeperRenewed(c);
    ReachListing(AwakeHosts, {"a", "b"}, s);
    var listing := s.stored.Keys;
    assert listing == {Rev("a", 2, 0, "y"), Rev("a", 3, LATE, "y"), Rev("b", 1, 1, "z")};
    SleeperIsDeletable(c, listing);
    var s1 := s.(pruner := Listed(listing, EarlyHosts(s), false, NO_TASKS));
    assert EarlyHosts(s) == {"b"};
    ReachDeleted(AwakeHosts, {"a", "b"}, s1, c, "x");
    var s2 :| Reachable(AwakeHosts, {"a", "b"}, s2) && s2 == s1.(pruner := s2.pruner, fossils := s1.fossils - {"x"});
    assert "x" in Needs(s2.running["b"]) && "x" !in s2.live + s2.fossils;
  }

  // ---------- two ids of one host ----------

  lemma SharedHost()
    ensures HostOf("a@h") == "h" && HostOf("b@h") == "h"
  {
    assert "a@h"[1] == '@' && "b@h"[1] == '@' && "a@h"[1..][0] == '@' && "b@h"[1..][0] == '@';
    assert "a@h"[1..][1..] == "h" && "b@h"[1..][1..] == "h";
  }

  /** The third backup of `a@h`, which has claimed the chunk `x`. */
  const SHARER := Backup("a@h", 3, {"y"}, {"x"}, None, 0)

  function SharerBegun(): (s: State) {
    TwoRevisions(1, "a@h").(running := map["h" := SHARER],
                            stored := map[Rev("a@h", 1, 0, "x") := 0, Rev("a@h", 2, 0, "y") := 0, Rev("b@h", 1, 0, "y") := 0])
  }

  lemma ReachSharer()
    ensures Reachable(OneId, {"a@h", "b@h"}, SharerBegun())
  {
    SharedHost();
    var w, ids, s0, a2 := OneId, {"a@h", "b@h"}, TwoRevisions(1, "a@h"), Rev("a@h", 2, 0, "y");
    ReachTwoRevisions(w, ids, 1, "a@h");
    FirstBackup(w, ids, s0, "b@h", "y");
    var s1 := Stored(s0, "b@h", 1, 0, "y");
    assert s0.live + {"y"} == s0.live;
    assert s1 == SharerBegun().(running := map[]);
    assert IsLatest(a2, s1.stored.Keys);
    NextClaim(w, ids, s1, a2, "x");
    assert s1.live + {"x"} == s1.live;
    assert Claiming(s1, "a@h", 3, {"y"}, "x") == SharerBegun();
  }

  function SharerCollected(c: Collection, clock: int, more: map<Snapshot, nat>, running: map<string, Backup>, pruner: Pruner): (s: State) {
    State(1, clock, 1, {"y"}, {"x"}, map[Rev("a@h", 2, 0, "y") := 0, Rev("b@h", 1, 0, "y") := 0] + more, running, pruner, Some(c))
  }

  lemma ReachSharerCollected() returns (c: Collection)
    ensures Reachable(OneId, {"a@h", "b@h"}, SharerCollected(c, 0, map[], map["h" := SHARER], Idle))
    ensures IsCollectionOf(c, "a@h", {Rev("b@h", 1, 0, "y")}, 0)
  {
    SharedHost();
    ReachSharer();
    var a1, a2, b1, s2 := Rev("a@h", 1, 0, "x"), Rev("a@h", 2, 0, "y"), Rev("b@h", 1, 0, "y"), SharerBegun();
    assert s2.stored.Keys == {a1, a2} + {b1};
    c := ReachFossil(OneId, {"a@h", "b@h"}, s2, "a@h", {b1});
    OneLess(a1, a2, b1);
    assert s2.live - {"x"} == {"y"} && {} + {"x"} == {"x"};
    assert map[a2 := 0, b1 := 0] + map[] == map[a2 := 0, b1 := 0];
    assert Fossiled(s2, "a@h", c) == SharerCollected(c, 0, map[], map["h" := SHARER], Idle);
  }

  /** The pruner has begun to list the ids. */
  lemma ReachUnlistedIds() returns (c: Collection)
    ensures IsCollectionOf(c, "a@h", {Rev("b@h", 1, 0, "y")}, 0)
    ensures Reachable(OneId, {"a@h", "b@h"}, SharerCollected(c, 0, map[], map["h" := SHARER], Listing({"a@h", "b@h"}, {}, {"h"})))
  {
    c := ReachSharerCollected();
    var s, a2, b1 := SharerCollected(c, 0, map[], map["h" := SHARER], Idle), Rev("a@h", 2, 0, "y"), Rev("b@h", 1, 0, "y");
    assert s.stored.Keys == {a2, b1} && EarlyHosts(s) == {"h"};
    assert Ids(s.stored.Keys) == {"a@h", "b@h"} by { assert a2 in s.stored.Keys && b1 in s.stored.Keys; }
    ReachStep(OneId, {"a@h", "b@h"}, s, s.(pruner := Listing({"a@h", "b@h"}, {}, {"h"})), StartListing);
  }

  /** The pruner has listed `a@h`, whose backup is running. */
  lemma ReachHalfListed() returns (c: Collection)
    ensures IsCollectionOf(c, "a@h", {Rev("b@h", 1, 0, "y")}, 0)
    ensures Reachable(OneId, {"a@h", "b@h"},
                      SharerCollected(c, 0, map[], map["h" := SHARER], Listing({"b@h"}, {Rev("a@h", 2, 0, "y")}, {"h"})))
  {
    SharedHost();
    c := ReachUnlistedIds();
    var ids, a2 := {"a@h", "b@h"}, Rev("a@h", 2, 0, "y");
    var s := SharerCollected(c, 0, map[], map["h" := SHARER], Listing(ids, {}, {"h"}));
    assert EarlyHosts(s) == {"h"};
    var found := set x <- s.stored.Keys | x.id == "a@h";
    assert found == {a2} && {} + found == {a2} && ids - {"a@h"} == {"b@h"} && {"h"} - {"h"} + {"h"} * {"h"} == {"h"};
    ReachStep(OneId, ids, s, s.(pruner := Listing({"b@h"}, {a2}, {"h"})), ListId("a@h"));
  }

  /** The backup of `a@h` is over. */
  lemma ReachUnlisted() returns (c: Collection)
    ensures IsCollectionOf(c, "a@h", {Rev("b@h", 1, 0, "y")}, 0)
    ensures Reachable(OneId, {"a@h", "b@h"},
                      SharerCollected(c, 0, map[Rev("a@h", 3, 0, "x") := 0], map[], Listing({"b@h"}, {Rev("a@h", 2, 0, "y")}, {"h"})))
  {
    c := ReachHalfListed();
    var a3, p := Rev("a@h", 3, 0, "x"), Listing({"b@h"}, {Rev("a@h", 2, 0, "y")}, {"h"});
    var s := SharerCollected(c, 0, map[], map["h" := SHARER], p);
    ReachFinish(OneId, {"a@h", "b@h"}, s, "h");
    assert s.stored[a3 := 0] == SharerCollected(c, 0, map[a3 := 0], map[], p).stored && s.running - {"h"} == map[];
  }

  /** A backup of `b@h` has begun and ended before `b@h` is listed. */
  lemma ReachSplit() returns (c: Collection)
    ensures IsCollectionOf(c, "a@h", {Rev("b@h", 1, 0, "y")}, 0)
    ensures Reachable(OneId, {"a@h", "b@h"},
                      SharerCollected(c, 1, map[Rev("a@h", 3, 0, "x") := 0, Rev("b@h", 2, 1, "y") := 1], map[],
                                      Listing({"b@h"}, {Rev("a@h", 2, 0, "y")}, {"h"})))
  {
    SharedHost();
    c := ReachUnlisted();
    var w, ids, a2, a3, b1, b2 := OneId, {"a@h", "b@h"}, Rev("a@h", 2, 0, "y"), Rev("a@h", 3, 0, "x"), Rev("b@h", 1, 0, "y"), Rev("b@h", 2, 1, "y");
    var p := Listing({"b@h"}, {a2}, {"h"});
    var s1 := SharerCollected(c, 0, map[a3 := 0], map[], p);
    ReachTick(w, ids, s1, 1);
    var s2 := s1.(clock := 1);
    assert s2.stored.Keys == {a2, b1, a3} && IsLatest(b1, s2.stored.Keys);
    NextBackup(w, ids, s2, b1, "y");
    assert s2.live + {"y"} == s2.live;
    assert Stored(s2, "b@h", 2, 1, "y") == SharerCollected(c, 1, map[a3 := 0, b2 := 1], map[], p);
  }

  /** The second id is listed, and nothing early is left. */
  lemma ReachSplitListed() returns (c: Collection)
    ensures IsCollectionOf(c, "a@h", {Rev("b@h", 1, 0, "y")}, 0)
    ensures Reachable(OneId, {"a@h", "b@h"},
                      SharerCollected(c, 1, map[Rev("a@h", 3, 0, "x") := 0, Rev("b@h", 2, 1, "y") := 1], map[],
                                      Listing({}, {Rev("a@h", 2, 0, "y"), Rev("b@h", 1, 0, "y"), Rev("b@h", 2, 1, "y")}, {})))
  {
    SharedHost();
    c := ReachSplit();
    var a2, b1, b2 := Rev("a@h", 2, 0, "y"), Rev("b@h", 1, 0, "y"), Rev("b@h", 2, 1, "y");
    var s := SharerCollected(c, 1, map[Rev("a@h", 3, 0, "x") := 0, b2 := 1], map[], Listing({"b@h"}, {a2}, {"h"}));
    var found := set x <- s.stored.Keys | x.id == "b@h";
    assert found == {b1, b2} && {a2} + found == {a2, b1, b2};
    assert EarlyHosts(s) == {} && {"h"} - {"h"} + {"h"} * {} == {} && {"b@h"} - {"b@h"} == {};
    ReachStep(OneId, {"a@h", "b@h"}, s, s.(pruner := Listing({}, {a2, b1, b2}, {})), ListId("b@h"));
  }

  /** When two ids share a host and are listed at different times, a snapshot stored in between can lose a chunk. */
  lemma SharedHostCanLoseAChunk()
    ensures exists s :: Reachable(OneId, {"a@h", "b@h"}, s) && !Safe(s)
  {
    var c := ReachSplitListed();
    var listing := {Rev("a@h", 2, 0, "y"), Rev("b@h", 1, 0, "y"), Rev("b@h", 2, 1, "y")};
    var s := SharerCollected(c, 1, map[Rev("a@h", 3, 0, "x") := 0, Rev("b@h", 2, 1, "y") := 1], map[], Listing({}, listing, {}));
    var s' := s.(pruner := Listed(listing, {}, false, NO_TASKS));
    ReachStep(OneId, {"a@h", "b@h"}, s, s', EndListing);
    SplitListingLoses(c, s');
  }

  lemma SplitListingLoses(c: Collection, s: State)
    requires IsCollectionOf(c, "a@h", {Rev("b@h", 1, 0, "y")}, 0) && Reachable(OneId, {"a@h", "b@h"}, s)
    requires s == SharerCollected(c, 1, map[Rev("a@h", 3, 0, "x") := 0, Rev("b@h", 2, 1, "y") := 1], map[],
                                  Listed({Rev("a@h", 2, 0, "y"), Rev("b@h", 1, 0, "y"), Rev("b@h", 2, 1, "y")}, {}, false, NO_TASKS))
    ensures exists s :: Reachable(OneId, {"a@h", "b@h"}, s) && !Safe(s)
  {
    SharedHost();
    var a3, b1, b2, listing := Rev("a@h", 3, 0, "x"), Rev("b@h", 1, 0, "y"), Rev("b@h", 2, 1, "y"), s.pruner.listing;
    assert Last(c, b1.id) == 1;
    assert HostActive(c, 0, listing, "h") by { assert b2 in listing && Qualifies(c, 0, b2); }
    NothingNewHasX(c, listing);
    ReachDeleted(OneId, {"a@h", "b@h"}, s, c, "x");
    var s' :| Reachable(OneId, {"a@h", "b@h"}, s') && s' == s.(pruner := s'.pruner, fossils := s.fossils - {"x"});
    assert a3 in s'.stored.Keys && "x" in a3.chunks && "x" !in s'.live + s'.fossils;
  }

  // ---------- two workers on one chunk ----------

  /** After `x` became a fossil, `a` has stored three more revisions; the second of them has uploaded `x` again, and a first
      backup of `b` has found it there. */
  function Reuploaded(c: Collection, pending: Option<Collection>, pruner: Pruner, live: set<ChunkId>, fossils: set<ChunkId>): (s: State) {
    State(2, 1, 1, live, fossils,
          map[Rev("a", 2, 0, "y") := 0, Rev("a", 3, 1, "y") := 1, Rev("a", 4, 1, "x") := 1, Rev("a", 5, 1, "y") := 1],
          map["b" := Backup("b", 1, {}, {"x"}, None, 1)], pruner, pending)
  }

  lemma ReachAgain() returns (c: Collection)
    ensures IsCollectionOf(c, "a", {}, 0)
    ensures Reachable(ApartTasks, {"a", "b"},
                      State(2, 1, 1, {"y"}, {"x"}, map[Rev("a", 2, 0, "y") := 0, Rev("a", 3, 1, "y") := 1], map[], Idle, Some(c)))
  {
    PlainHosts();
    var w, ids, a1, a2 := ApartTasks, {"a", "b"}, Rev("a", 1, 0, "x"), Rev("a", 2, 0, "y");
    ReachTwoRevisions(w, ids, 2, "a");
    var s0 := TwoRevisions(2, "a");
    assert s0.stored.Keys == {a1, a2} + {};
    c := ReachFossil(w, ids, s0, "a", {});
    OneLess(a1, a2, a2);
    var s1 := State(2, 0, 1, {"y"}, {"x"}, map[a2 := 0], map[], Idle, Some(c));
    assert s0.live - {"x"} == {"y"} && {} + {"x"} == {"x"};
    assert Fossiled(s0, "a", c) == s1;
    ReachTick(w, ids, s1, 1);
    NextBackup(w, ids, s1.(clock := 1), a2, "y");
    assert {"y"} + {"y"} == {"y"};
    assert Stored(s1.(clock := 1), "a", 3, 1, "y") == s1.(clock := 1, stored := map[a2 := 0, Rev("a", 3, 1, "y") := 1]);
  }

  lemma ReachReuploaded() returns (c: Collection)
    ensures IsCollectionOf(c, "a", {}, 0) && Reachable(ApartTasks, {"a", "b"}, Reuploaded(c, Some(c), Idle, {"x", "y"}, {"x"}))
  {
    PlainHosts();
    c := ReachAgain();
    var w, ids, a2, a3, a4, a5 := ApartTasks, {"a", "b"}, Rev("a", 2, 0, "y"), Rev("a", 3, 1, "y"), Rev("a", 4, 1, "x"), Rev("a", 5, 1, "y");
    var s1 := State(2, 1, 1, {"y"}, {"x"}, map[a2 := 0, a3 := 1], map[], Idle, Some(c));
    assert s1.stored.Keys == {a2, a3};
    NextBackup(w, ids, s1, a3, "x");
    var s2 := s1.(live := {"x", "y"}, stored := map[a2 := 0, a3 := 1, a4 := 1]);
    assert Stored(s1, "a", 4, 1, "x") == s2;
    assert s2.stored.Keys == {a2, a3, a4};
    NextBackup(w, ids, s2, a4, "y");
    var s3 := s2.(stored := map[a2 := 0, a3 := 1, a4 := 1, a5 := 1]);
    assert s2.live + {"y"} == s2.live;
    assert Stored(s2, "a", 5, 1, "y") == s3;
    assert s3.stored.Keys == {a2, a3, a4, a5};
    FirstClaim(w, ids, s3, "b", "x");
    assert s3.live + {"x"} == s3.live;
    assert Claiming(s3, "b", 1, {}, "x") == Reuploaded(c, Some(c), Idle, {"x", "y"}, {"x"});
  }

  lemma ReachRelisted() returns (c: Collection, listing: set<Snapshot>)
    ensures IsCollectionOf(c, "a", {}, 0)
    ensures listing == {Rev("a", 2, 0, "y"), Rev("a", 3, 1, "y"), Rev("a", 4, 1, "x"), Rev("a", 5, 1, "y")}
    ensures Reachable(ApartTasks, {"a", "b"}, Reuploaded(c, Some(c), Listed(listing, {}, false, NO_TASKS), {"x", "y"}, {"x"}))
  {
    PlainHosts();
    c := ReachReuploaded();
    var s := Reuploaded(c, Some(c), Idle, {"x", "y"}, {"x"});
    ReachListing(ApartTasks, {"a", "b"}, s);
    listing := s.stored.Keys;
    assert EarlyHosts(s) == {};
  }

  /** Deleting the old fossil of `x` is handed over, and the collection forgotten. */
  lemma ReachHandedOver() returns (c: Collection, listing: set<Snapshot>)
    ensures listing == {Rev("a", 2, 0, "y"), Rev("a", 3, 1, "y"), Rev("a", 4, 1, "x"), Rev("a", 5, 1, "y")}
    ensures Reachable(ApartTasks, {"a", "b"},
                      Reuploaded(c, None, Listed(listing, {}, true, Tasks({}, {"x"}, {"x"})), {"x", "y"}, {"x"}))
  {
    PlainHosts();
    c, listing := ReachRelisted();
    var w, ids, a3, a4 := ApartTasks, {"a", "b"}, Rev("a", 3, 1, "y"), Rev("a", 4, 1, "x");
    var s1 := Reuploaded(c, Some(c), Listed(listing, {}, false, NO_TASKS), {"x", "y"}, {"x"});
    assert Qualifies(c, 0, a3) && a3 in listing;
    assert HostActive(c, 0, listing, "a");
    assert "x" !in ChunksOf(NewSnapshots(c, 0, listing)) by { assert !IsNew(c, 0, listing, a4); }
    var newChunks := ChunksOf(NewSnapshots(c, 0, listing));
    assert c.fossils * newChunks == {} && c.fossils - newChunks == {"x"};
    var s2 := Reuploaded(c, Some(c), Listed(listing, {}, true, Tasks({}, {"x"}, {"x"})), {"x", "y"}, {"x"});
    ReachStep(w, ids, s1, s2, StartProcessing(0));
    ReachStep(w, ids, s2, s2.(pending := None), ForgetCollection);
  }

  /** When several workers may fossilize a chunk whose old fossil is still to be deleted, the chunk can be lost. */
  lemma OverlappingTasksCanLoseAChunk()
    ensures exists s :: Reachable(ApartTasks, {"a", "b"}, s) && !Safe(s)
  {
    PlainHosts();
    var c, listing := ReachHandedOver();
    var w, ids, a4, a5, t := ApartTasks, {"a", "b"}, Rev("a", 4, 1, "x"), Rev("a", 5, 1, "y"), Tasks({}, {"x"}, {"x"});
    var s := Reuploaded(c, None, Listed(listing, {}, true, t), {"x", "y"}, {"x"});
    assert KeepsLatest(listing, {a4}) by { assert a5 in listing; }
    assert Targets(listing, {a4}) == {"x"} by {
      assert {a4} * listing == {a4} && ChunksOf({a4}) == {"x"} && "x" !in ChunksOf(listing - {a4});
    }
    var s1 := Reuploaded(c, None, Fossilizing(listing, {a4}, {"x"}, {}, t), {"x", "y"}, {"x"});
    ReachStep(w, ids, s, s1, StartCollecting({a4}));
    var s2 := Reuploaded(c, None, Fossilizing(listing, {a4}, {}, {"x"}, t), {"y"}, {"x"});
    assert {"x"} - {"x"} == {} && {} + {"x"} == {"x"} && {"x", "y"} - {"x"} == {"y"} && {"x"} + {"x"} == {"x"};
    ReachStep(w, ids, s1, s2, Fossilize("x"));
    var s3 := Reuploaded(c, None, Fossilizing(listing, {a4}, {}, {"x"}, t.(drop := {})), {"y"}, {});
    assert WithTasks(s2.pruner, t.(drop := t.drop - {"x"})) == s3.pruner;
    ReachStep(w, ids, s2, s3, DeleteFossil("x"));
    assert "x" in Needs(s3.running["b"]) && "x" !in s3.live + s3.fossils;
  }

  /** Each condition of the safety theorem is needed: some run keeps to the other three and loses a chunk. */
  lemma EveryConditionIsNeeded(w: Condition)
    ensures exists ids, s :: Reachable(w, ids, s) && !Safe(s)
  {
    match w
    case KnownHosts => NewHostCanLoseAChunk();
    case AwakeHosts => InactiveHostCanLoseAChunk();
    case OneId => SharedHostCanLoseAChunk();
    case ApartTasks => OverlappingTasksCanLoseAChunk();
  }

  /** With one worker the last condition always holds. */
  lemma OneWorkerIsApart(s: State, step: Step)
    requires s.threads == 1
    ensures TasksApart(s, step)
  {
  }

  // ---------- what a completed deletion achieves ----------

  /** The chunks that have been made fossils since. */
  function FossilizedNow(p: Pruner): (cs: set<ChunkId>) {
    if p.Fossilizing? then p.done else {}
  }

  /** The fossils of a processed collection that are still in the storage are those not yet dealt with, or made again. */
  predicate Reclaiming(s: State) {
    var t := TasksOf(s.pruner);
    forall ch <- s.fossils :: ch in t.of ==> ch in t.keep || ch in t.drop || ch in FossilizedNow(s.pruner)
  }

  lemma StepKeepsReclaiming(s: State, s': State, step: Step)
    requires Reclaiming(s) && Next(s, s', step)
    ensures Reclaiming(s')
  {
  }

  lemma {:induction false} RunKeepsReclaiming(states: seq<State>, steps: seq<Step>, i: nat)
    requires IsRun(states, steps) && i < |states|
    ensures Reclaiming(states[i])
  {
    if i > 0 {
      RunKeepsReclaiming(states, steps, i - 1);
      StepKeepsReclaiming(states[i - 1], states[i], steps[i - 1]);
    }
  }

  /** When the workers are done with a collection, none of its fossils is left that was not made again since, and whatever
      a snapshot or a backup still needs of them is a live chunk again. */
  lemma FinishedCollectionIsReclaimed(states: seq<State>, steps: seq<Step>, ids: set<string>, i: nat)
    requires IsRun(states, steps) && RunAllowed(ids, states, steps) && i < |states|
    requires TasksOf(states[i].pruner).keep == {} && TasksOf(states[i].pruner).drop == {}
    ensures
      var s := states[i];
      var gone := TasksOf(s.pruner).of - FossilizedNow(s.pruner);
      && gone !! s.fossils
      && (forall x <- s.stored.Keys :: x.chunks * gone <= s.live)
      && (forall h <- s.running.Keys :: Needs(s.running[h]) * gone <= s.live)
  {
    RunKeepsReclaiming(states, steps, i);
    RunKeeps(states, steps, ids, i);
  }
}
