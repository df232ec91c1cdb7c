/**
 Snapshots, fossil collections, and the declarative vocabulary in which the prune rules are stated.

 A chunk is identified by its id, a snapshot by its id and revision. All the predicates below range over
 the finite set of snapshots that one listing of the storage saw.
 */
module Snapshots {

  type ChunkId = string

  datatype Snapshot = Snapshot(id: string, revision: nat, endTime: int, chunks: set<ChunkId>)

  /** What one run of the prune command leaves behind for a later run. */
  datatype Collection = Collection(
    endTime: int,
    lastRevisions: map<string, nat>,
    deleted: set<(string, nat)>,
    fossils: set<ChunkId>)

  const SECONDS_IN_DAY := 86400

  const MAX_RUNNING_DAYS := 7

  /** The machine a snapshot id belongs to: `repo@host` belongs to `host`, any other id to itself. */
  function HostOf(id: string): (host: string) {
    if '@' in id then AfterAt(id) else id
  }

  /** What follows the first `@`. */
  function AfterAt(id: string): (rest: string)
    requires '@' in id
    ensures |rest| < |id| && id[|id| - |rest|..] == rest
    ensures id[|id| - |rest| - 1] == '@' && '@' !in id[..|id| - |rest| - 1]
  {
    if id[0] == '@' then
      id[1..]
    else
      var rest := AfterAt(id[1..]);
      assert id[..|id| - |rest| - 1] == [id[0]] + id[1..][..|id| - |rest| - 2];
      rest
  }

  /** An id on a host: `repo@host`, where only the first `@` counts, or an id without `@`, which is its own host. */
  ghost predicate IsOn(id: string, host: string) {
    (exists repo: string :: '@' !in repo && id == repo + "@" + host) || ('@' !in id && id == host)
  }

  /** Every id is on exactly one host. */
  lemma HostIs(id: string, host: string)
    ensures HostOf(id) == host <==> IsOn(id, host)
  {
    if '@' in id {
      var repo := id[..|id| - |AfterAt(id)| - 1];
      assert id == repo + "@" + AfterAt(id);
    }
    if repo: string :| '@' !in repo && id == repo + "@" + host {
      HostOfPair(repo, host);
    }
  }

  /** The host of `repo@host` is everything behind the first `@`. */
  lemma HostOfPair(repo: string, host: string)
    requires '@' !in repo
    ensures HostOf(repo + "@" + host) == host
  {
    var id := repo + "@" + host;
    assert id[|repo|] == '@' && id[..|repo|] == repo;
    OneFirstAt(id, |repo|, |id| - |AfterAt(id)| - 1);
  }

  lemma OneFirstAt(id: string, i: nat, j: nat)
    requires i < |id| && j < |id| && id[i] == id[j] == '@' && '@' !in id[..i] && '@' !in id[..j]
    ensures i == j
  {
    forall k | 0 <= k < i ensures id[k] != '@' {
      assert id[k] == id[..i][k];
    }
    forall k | 0 <= k < j ensures id[k] != '@' {
      assert id[k] == id[..j][k];
    }
  }

  /** The last revision a collection knows for an id; zero when it knows none. */
  function Last(c: Collection, id: string): (revision: nat) {
    if id in c.lastRevisions then c.lastRevisions[id] else 0
  }

  predicate IsLatest(x: Snapshot, listing: set<Snapshot>) {
    x in listing && forall y <- listing :: y.id == x.id ==> y.revision <= x.revision
  }

  predicate DistinctRevisions(listing: set<Snapshot>) {
    forall x <- listing, y <- listing :: x.id == y.id && x.revision == y.revision ==> x == y
  }

  /** A revision made after the collection that also ended after it (with the storage's grace period). */
  predicate Qualifies(c: Collection, extra: nat, x: Snapshot) {
    x.revision > Last(c, x.id) && x.endTime > c.endTime + extra
  }

  predicate HostActive(c: Collection, extra: nat, listing: set<Snapshot>, host: string) {
    exists x <- listing :: HostOf(x.id) == host && Qualifies(c, extra, x)
  }

  /** Every last revision of the host is more than seven days old. */
  predicate HostInactive(listing: set<Snapshot>, host: string, now: int) {
    && (exists x <- listing :: IsLatest(x, listing) && HostOf(x.id) == host && x.endTime > 0)
    && (forall x <- listing :: IsLatest(x, listing) && HostOf(x.id) == host ==>
          x.endTime < now - MAX_RUNNING_DAYS * SECONDS_IN_DAY)
  }

  predicate Deletable(c: Collection, extra: nat, listing: set<Snapshot>, now: int) {
    forall x <- listing :: HostActive(c, extra, listing, HostOf(x.id)) || HostInactive(listing, HostOf(x.id), now)
  }

  /** The revisions that count as new: those up to and including the first qualifying one of their id. */
  predicate IsNew(c: Collection, extra: nat, listing: set<Snapshot>, x: Snapshot) {
    && x in listing
    && x.revision > Last(c, x.id)
    && forall y <- listing :: y.id == x.id && y.revision < x.revision ==> !Qualifies(c, extra, y)
  }

  function ChunksOf(xs: set<Snapshot>): (cs: set<ChunkId>) {
    set x <- xs, c <- x.chunks :: c
  }

  function Hosts(xs: set<Snapshot>): (hosts: set<string>) {
    set x <- xs :: HostOf(x.id)
  }

  function NewSnapshots(c: Collection, extra: nat, listing: set<Snapshot>): (xs: set<Snapshot>) {
    set x <- listing | IsNew(c, extra, listing, x)
  }

  /** What a run turns into fossils: the chunks only the deleted snapshots refer to. */
  function Targets(listing: set<Snapshot>, flagged: set<Snapshot>): (cs: set<ChunkId>) {
    ChunksOf(flagged * listing) - ChunksOf(listing - flagged)
  }

  predicate KeepsLatest(listing: set<Snapshot>, flagged: set<Snapshot>) {
    forall x <- listing :: IsLatest(x, listing) ==> x !in flagged
  }
}
