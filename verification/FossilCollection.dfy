/**
 The decisions of the prune command: whether a saved collection may be deleted and which revisions are new
 to it, and which chunks a run turns into fossils. Both scan a listing, in whatever order its ids come, and
 both are proved to compute the sets the prune protocol is stated with.
 */
module FossilCollection {
  import opened Snapshots

  type Listing = map<string, seq<Snapshot>>

  /** Revisions are listed by id, in increasing order. */
  ghost predicate WellListed(all: Listing) {
    forall id <- all.Keys ::
      && (forall k :: 0 <= k < |all[id]| ==> all[id][k].id == id)
      && (forall j, k :: 0 <= j < k < |all[id]| ==> all[id][j].revision < all[id][k].revision)
  }

  /** The snapshots of the ids in `ids` that are not ignored. */
  ghost function Considered(all: Listing, ids: set<string>, ignored: seq<string>): (xs: set<Snapshot>)
    requires ids <= all.Keys
  {
    set id <- ids, x <- all[id] | id !in ignored :: x
  }

  /** The first `k` revisions of `list` that the scan reports as new. */
  ghost predicate ReportedNew(c: Collection, extra: nat, list: seq<Snapshot>, k: nat, x: Snapshot) {
    exists i :: 0 <= i < k && i < |list| && list[i] == x && x.revision > Last(c, x.id) &&
      forall j :: 0 <= j < i ==> !Qualifies(c, extra, list[j])
  }

  ghost predicate HasQualifying(c: Collection, extra: nat, list: seq<Snapshot>) {
    exists k :: 0 <= k < |list| && Qualifies(c, extra, list[k])
  }

  method ScanRevisions(c: Collection, extra: nat, id: string, list: seq<Snapshot>)
    returns (found: bool, new_: seq<Snapshot>)
    requires forall k :: 0 <= k < |list| ==> list[k].id == id
    ensures found == HasQualifying(c, extra, list)
    ensures forall x :: x in new_ <==> ReportedNew(c, extra, list, |list|, x)
  {
    found, new_ := false, [];
    var lastRevision := Last(c, id);
    for k := 0 to |list|
      invariant !found
      invariant forall j :: 0 <= j < k ==> !Qualifies(c, extra, list[j])
      invariant forall x :: x in new_ <==> ReportedNew(c, extra, list, k, x)
    {
      if list[k].revision <= lastRevision {
        continue;
      }
      ghost var before := new_;
      new_ := new_ + [list[k]];
      assert forall x :: x in new_ <==> x in before || x == list[k];
      if list[k].endTime > c.endTime + extra {
        found := true;
        assert Qualifies(c, extra, list[k]);
        forall x ensures x in new_ <==> ReportedNew(c, extra, list, |list|, x) {
        }
        return;
      }
    }
  }

  // ---------- the effect of one more id ----------

  function Elements(list: seq<Snapshot>): (xs: set<Snapshot>) {
    set x <- list
  }

  ghost predicate IsRevisionList(list: seq<Snapshot>, id: string) {
    && (forall k :: 0 <= k < |list| ==> list[k].id == id)
    && (forall j, k :: 0 <= j < k < |list| ==> list[j].revision < list[k].revision)
  }

  /** The listing `xs`, none of whose revisions are of `id`, extended with all those of `id`. */
  ghost function Extended(xs: set<Snapshot>, list: seq<Snapshot>, id: string): (xs': set<Snapshot>)
    requires IsRevisionList(list, id) && list != [] && forall x <- xs :: x.id != id
  {
    xs + Elements(list)
  }

  lemma LatestGrows(xs: set<Snapshot>, list: seq<Snapshot>, id: string, x: Snapshot)
    requires IsRevisionList(list, id) && list != [] && (forall x <- xs :: x.id != id)
    requires x in Extended(xs, list, id)
    ensures IsLatest(x, Extended(xs, list, id)) <==> if x.id == id then x == list[|list| - 1] else IsLatest(x, xs)
  {
    var xs' := Extended(xs, list, id);
    if x.id == id {
      var k :| 0 <= k < |list| && list[k] == x;
      assert list[|list| - 1] in xs';
      assert forall y <- xs' :: y.id == id ==> exists j :: 0 <= j < |list| && list[j] == y;
    } else {
      assert forall y: Snapshot :: y.id == x.id ==> (y in xs' <==> y in xs);
    }
  }

  lemma ActiveGrows(c: Collection, extra: nat, xs: set<Snapshot>, list: seq<Snapshot>, id: string, h: string)
    requires IsRevisionList(list, id) && list != [] && forall x <- xs :: x.id != id
    ensures HostActive(c, extra, Extended(xs, list, id), h) <==>
      || HostActive(c, extra, xs, h)
      || (h == HostOf(id) && HasQualifying(c, extra, list))
  {
    var xs' := Extended(xs, list, id);
    if k :| 0 <= k < |list| && Qualifies(c, extra, list[k]) {
      assert list[k] in xs';
    }
    if HostActive(c, extra, xs', h) && !HostActive(c, extra, xs, h) {
      var x :| x in xs' && HostOf(x.id) == h && Qualifies(c, extra, x);
      assert x in list;
      var k :| 0 <= k < |list| && list[k] == x;
    }
  }

  /** `t` is the latest end time among the last revisions of a host, or zero when none is positive. */
  ghost predicate IsLastTime(xs: set<Snapshot>, host: string, t: int) {
    && t >= 0
    && (forall x <- xs :: IsLatest(x, xs) && HostOf(x.id) == host ==> x.endTime <= t)
    && (t > 0 ==> exists x <- xs :: IsLatest(x, xs) && HostOf(x.id) == host && x.endTime == t)
  }

  lemma LastTimeGrows(xs: set<Snapshot>, list: seq<Snapshot>, id: string, h: string, t: int)
    requires IsRevisionList(list, id) && list != [] && (forall x <- xs :: x.id != id)
    requires IsLastTime(xs, h, t)
    ensures var l := list[|list| - 1];
      IsLastTime(Extended(xs, list, id), h, if h == HostOf(id) && l.endTime > t then l.endTime else t)
  {
    var xs', l := Extended(xs, list, id), list[|list| - 1];
    assert l in xs';
    forall x <- xs' ensures IsLatest(x, xs') <==> if x.id == id then x == l else IsLatest(x, xs) {
      LatestGrows(xs, list, id, x);
    }
    if t > 0 {
      var x :| x in xs && IsLatest(x, xs) && HostOf(x.id) == h && x.endTime == t;
      assert x in xs' && IsLatest(x, xs');
    }
  }

  lemma InactiveMeans(xs: set<Snapshot>, h: string, t: int, now: int)
    requires IsLastTime(xs, h, t)
    ensures t > 0 && t < now - MAX_RUNNING_DAYS * SECONDS_IN_DAY <==> HostInactive(xs, h, now)
  {
  }

  lemma NewGrows(c: Collection, extra: nat, xs: set<Snapshot>, list: seq<Snapshot>, id: string, news: seq<Snapshot>)
    requires IsRevisionList(list, id) && list != [] && (forall x <- xs :: x.id != id)
    requires forall x :: x in news <==> ReportedNew(c, extra, list, |list|, x)
    ensures NewSnapshots(c, extra, Extended(xs, list, id)) == NewSnapshots(c, extra, xs) + Elements(news)
  {
    var xs' := Extended(xs, list, id);
    forall x ensures x in NewSnapshots(c, extra, xs') <==> x in NewSnapshots(c, extra, xs) || x in news {
      if x.id == id {
        ReportedMeansNew(c, extra, xs, list, id, x);
      } else {
        assert forall y: Snapshot :: y.id == x.id ==> (y in xs' <==> y in xs);
      }
    }
  }

  lemma ReportedMeansNew(c: Collection, extra: nat, xs: set<Snapshot>, list: seq<Snapshot>, id: string, x: Snapshot)
    requires IsRevisionList(list, id) && list != [] && (forall x <- xs :: x.id != id) && x.id == id
    ensures IsNew(c, extra, Extended(xs, list, id), x) <==> ReportedNew(c, extra, list, |list|, x)
  {
    var xs' := Extended(xs, list, id);
    if ReportedNew(c, extra, list, |list|, x) {
      assert x in xs';
      forall y <- xs' | y.id == x.id && y.revision < x.revision ensures !Qualifies(c, extra, y) {
        var j :| 0 <= j < |list| && list[j] == y;
      }
    } else if x in list {
      var i :| 0 <= i < |list| && list[i] == x;
      if x.revision > Last(c, x.id) {
        var j :| 0 <= j < i && Qualifies(c, extra, list[j]);
        assert list[j] in xs';
      }
    }
  }

  // ---------- the decision ----------

  /** What the scan knows about one host after looking at the revisions in `xs`. */
  ghost predicate HostKnown(c: Collection, extra: nat, xs: set<Snapshot>, h: string, hasNew: bool, lastTime: int) {
    (hasNew <==> HostActive(c, extra, xs, h)) && IsLastTime(xs, h, lastTime)
  }

  ghost predicate HostState(c: Collection, extra: nat, xs: set<Snapshot>,
                            hasNew: map<string, bool>, lastTime: map<string, int>)
  {
    && hasNew.Keys == lastTime.Keys == Hosts(xs)
    && forall h <- hasNew.Keys :: HostKnown(c, extra, xs, h, hasNew[h], lastTime[h])
  }

  lemma UnseenHostKnown(c: Collection, extra: nat, xs: set<Snapshot>, h: string)
    requires h !in Hosts(xs)
    ensures HostKnown(c, extra, xs, h, false, 0)
  {
    assert forall x <- xs :: HostOf(x.id) in Hosts(xs);
  }

  lemma HostKnownGrows(c: Collection, extra: nat, xs: set<Snapshot>, list: seq<Snapshot>, id: string, h: string,
                       hasNew: bool, lastTime: int, found: bool)
    requires IsRevisionList(list, id) && list != [] && (forall x <- xs :: x.id != id)
    requires HostKnown(c, extra, xs, h, hasNew, lastTime)
    requires found == HasQualifying(c, extra, list)
    ensures var e, here := list[|list| - 1].endTime, h == HostOf(id);
      HostKnown(c, extra, Extended(xs, list, id), h, hasNew || (here && found), if here && e > lastTime then e else lastTime)
  {
    ActiveGrows(c, extra, xs, list, id, h);
    LastTimeGrows(xs, list, id, h, lastTime);
  }

  lemma HostsGrow(xs: set<Snapshot>, list: seq<Snapshot>, id: string)
    requires IsRevisionList(list, id) && list != [] && forall x <- xs :: x.id != id
    ensures Hosts(Extended(xs, list, id)) == Hosts(xs) + {HostOf(id)}
  {
    assert list[0] in Elements(list) && list[0].id == id;
  }

  /** The two maps after the values of `host` have been updated. */
  lemma HostStateGrows(c: Collection, extra: nat, xs: set<Snapshot>, xs': set<Snapshot>, host: string,
                       hasNew: map<string, bool>, lastTime: map<string, int>,
                       hasNew': map<string, bool>, lastTime': map<string, int>)
    requires HostState(c, extra, xs, hasNew, lastTime)
    requires Hosts(xs') == Hosts(xs) + {host}
    requires hasNew'.Keys == lastTime'.Keys == hasNew.Keys + {host}
    requires forall h <- hasNew.Keys :: h != host ==> hasNew'[h] == hasNew[h] && lastTime'[h] == lastTime[h]
    requires HostKnown(c, extra, xs', host, hasNew'[host], lastTime'[host])
    requires forall h <- hasNew.Keys :: h != host ==> HostKnown(c, extra, xs', h, hasNew[h], lastTime[h])
    ensures HostState(c, extra, xs', hasNew', lastTime')
  {
    forall h <- hasNew'.Keys ensures HostKnown(c, extra, xs', h, hasNew'[h], lastTime'[h]) {
    }
  }

  /** The old values of `host`, and the start values when it is new. */
  lemma OldValuesKnown(c: Collection, extra: nat, xs: set<Snapshot>, host: string,
                       hasNew: map<string, bool>, lastTime: map<string, int>)
    requires HostState(c, extra, xs, hasNew, lastTime)
    ensures host in hasNew <==> host in lastTime
    ensures HostKnown(c, extra, xs, host, if host in hasNew then hasNew[host] else false, if host in lastTime then lastTime[host] else 0)
  {
    if host !in hasNew {
      UnseenHostKnown(c, extra, xs, host);
    }
  }

  lemma OtherHostsKnown(c: Collection, extra: nat, xs: set<Snapshot>, list: seq<Snapshot>, id: string,
                        hasNew: map<string, bool>, lastTime: map<string, int>)
    requires IsRevisionList(list, id) && list != [] && (forall x <- xs :: x.id != id)
    requires HostState(c, extra, xs, hasNew, lastTime)
    ensures forall h <- hasNew.Keys :: h != HostOf(id) ==>
      HostKnown(c, extra, Extended(xs, list, id), h, hasNew[h], lastTime[h])
  {
    forall h <- hasNew.Keys | h != HostOf(id)
      ensures HostKnown(c, extra, Extended(xs, list, id), h, hasNew[h], lastTime[h])
    {
      HostKnownGrows(c, extra, xs, list, id, h, hasNew[h], lastTime[h], HasQualifying(c, extra, list));
    }
  }

  lemma HostStateStep(c: Collection, extra: nat, xs: set<Snapshot>, list: seq<Snapshot>, id: string,
                      hasNew: map<string, bool>, lastTime: map<string, int>,
                      hasNew': map<string, bool>, lastTime': map<string, int>)
    requires IsRevisionList(list, id) && list != [] && (forall x <- xs :: x.id != id)
    requires HostState(c, extra, xs, hasNew, lastTime)
    requires hasNew'.Keys == lastTime'.Keys == hasNew.Keys + {HostOf(id)}
    requires forall h <- hasNew.Keys :: h != HostOf(id) ==> hasNew'[h] == hasNew[h] && lastTime'[h] == lastTime[h]
    requires hasNew'[HostOf(id)] == (HasQualifying(c, extra, list) || (HostOf(id) in hasNew && hasNew[HostOf(id)]))
    requires var t, e := if HostOf(id) in lastTime then lastTime[HostOf(id)] else 0, list[|list| - 1].endTime;
      lastTime'[HostOf(id)] == if e > t then e else t
    ensures HostState(c, extra, Extended(xs, list, id), hasNew', lastTime')
  {
    var host := HostOf(id);
    OtherHostsKnown(c, extra, xs, list, id, hasNew, lastTime);
    HostsGrow(xs, list, id);
    assert HostKnown(c, extra, Extended(xs, list, id), host, hasNew'[host], lastTime'[host]) by {
      OldValuesKnown(c, extra, xs, host, hasNew, lastTime);
      HostKnownGrows(c, extra, xs, list, id, host, if host in hasNew then hasNew[host] else false,
                     if host in lastTime then lastTime[host] else 0, HasQualifying(c, extra, list));
    }
    HostStateGrows(c, extra, xs, Extended(xs, list, id), host, hasNew, lastTime, hasNew', lastTime');
  }

  lemma ConsideredGrows(all: Listing, seen: set<string>, ignored: seq<string>, id: string)
    requires WellListed(all) && seen <= all.Keys && id in all && id !in seen
    ensures IsRevisionList(all[id], id)
    ensures forall x <- Considered(all, seen, ignored) :: x.id != id
    ensures Considered(all, seen + {id}, ignored) ==
      if id in ignored || all[id] == [] then Considered(all, seen, ignored)
      else Extended(Considered(all, seen, ignored), all[id], id)
  {
  }

  /** Scans the ids in an arbitrary order, as iterating over a Go map does. */
  method ScanHosts(c: Collection, extra: nat, ignored: seq<string>, all: Listing)
    returns (hasNew: map<string, bool>, lastTime: map<string, int>, newSnapshots: seq<Snapshot>)
    requires WellListed(all)
    ensures HostState(c, extra, Considered(all, all.Keys, ignored), hasNew, lastTime)
    ensures Elements(newSnapshots) == NewSnapshots(c, extra, Considered(all, all.Keys, ignored))
  {
    hasNew, lastTime, newSnapshots := map[], map[], [];
    var ids := all.Keys;
    ghost var seen: set<string>, xs: set<Snapshot> := {}, {};
    while ids != {}
      invariant seen == all.Keys - ids && ids <= all.Keys
      invariant xs == Considered(all, seen, ignored)
      invariant HostState(c, extra, xs, hasNew, lastTime)
      invariant Elements(newSnapshots) == NewSnapshots(c, extra, xs)
    {
      var id :| id in ids;
      ConsideredGrows(all, seen, ignored, id);
      ids := ids - {id};
      seen := seen + {id};
      if all[id] == [] || id in ignored {
        continue;
      }
      ghost var list := all[id];
      hasNew, lastTime, newSnapshots := ScanId(c, extra, xs, id, all[id], hasNew, lastTime, newSnapshots);
      xs := Extended(xs, list, id);
    }
    assert seen == all.Keys;
  }

  /** Records for `host` whether it has a new revision and how late its last revision ended. */
  method UpdateHost(hasNew: map<string, bool>, lastTime: map<string, int>, host: string, found: bool, endTime: int)
    returns (hasNew': map<string, bool>, lastTime': map<string, int>)
    requires hasNew.Keys == lastTime.Keys
    ensures hasNew'.Keys == lastTime'.Keys == hasNew.Keys + {host}
    ensures forall h <- hasNew.Keys :: h != host ==> hasNew'[h] == hasNew[h] && lastTime'[h] == lastTime[h]
    ensures hasNew'[host] == (found || (host in hasNew && hasNew[host]))
    ensures var t := if host in lastTime then lastTime[host] else 0;
      lastTime'[host] == if endTime > t then endTime else t
  {
    hasNew', lastTime' := hasNew, lastTime;
    if host !in hasNew {
      hasNew', lastTime' := hasNew[host := false], lastTime[host := 0];
    }
    if found {
      hasNew' := hasNew'[host := true];
    }
    if endTime > lastTime'[host] {
      lastTime' := lastTime'[host := endTime];
    }
  }

  /** The body of the scan for one id. */
  method ScanId(c: Collection, extra: nat, ghost xs: set<Snapshot>, id: string, list: seq<Snapshot>,
                hasNew: map<string, bool>, lastTime: map<string, int>, newSnapshots: seq<Snapshot>)
    returns (hasNew': map<string, bool>, lastTime': map<string, int>, newSnapshots': seq<Snapshot>)
    requires IsRevisionList(list, id) && list != [] && (forall x <- xs :: x.id != id)
    requires HostState(c, extra, xs, hasNew, lastTime)
    requires Elements(newSnapshots) == NewSnapshots(c, extra, xs)
    ensures HostState(c, extra, Extended(xs, list, id), hasNew', lastTime')
    ensures Elements(newSnapshots') == NewSnapshots(c, extra, Extended(xs, list, id))
  {
    var host := HostOf(id);
    var found, news := ScanRevisions(c, extra, id, list);
    newSnapshots' := newSnapshots + news;
    NewGrows(c, extra, xs, list, id, news);
    hasNew', lastTime' := UpdateHost(hasNew, lastTime, host, found, list[|list| - 1].endTime);
    HostStateStep(c, extra, xs, list, id, hasNew, lastTime, hasNew', lastTime');
  }

  ghost predicate HostDone(c: Collection, extra: nat, listing: set<Snapshot>, h: string, now: int) {
    HostActive(c, extra, listing, h) || HostInactive(listing, h, now)
  }

  lemma DeletableByHost(c: Collection, extra: nat, listing: set<Snapshot>, now: int)
    ensures Deletable(c, extra, listing, now) <==> forall h <- Hosts(listing) :: HostDone(c, extra, listing, h, now)
  {
    forall h <- Hosts(listing) | Deletable(c, extra, listing, now) ensures HostDone(c, extra, listing, h, now) {
    }
    forall x <- listing ensures HostOf(x.id) in Hosts(listing) {
    }
  }

  lemma HostDoneMeans(c: Collection, extra: nat, listing: set<Snapshot>, h: string, now: int, hasNew: bool, lastTime: int)
    requires HostKnown(c, extra, listing, h, hasNew, lastTime)
    ensures HostDone(c, extra, listing, h, now) <==>
      hasNew || (lastTime > 0 && lastTime < now - MAX_RUNNING_DAYS * SECONDS_IN_DAY)
  {
    InactiveMeans(listing, h, lastTime, now);
  }

  method AllHostsDone(ghost c: Collection, ghost extra: nat, ghost listing: set<Snapshot>, now: int,
                      hasNew: map<string, bool>, lastTime: map<string, int>)
    returns (done: bool)
    requires HostState(c, extra, listing, hasNew, lastTime)
    ensures done <==> forall h <- Hosts(listing) :: HostDone(c, extra, listing, h, now)
  {
    var hosts := hasNew.Keys;
    while hosts != {}
      invariant hosts <= hasNew.Keys
      invariant forall h <- hasNew.Keys :: h !in hosts ==> HostDone(c, extra, listing, h, now)
    {
      var host :| host in hosts;
      hosts := hosts - {host};
      HostDoneMeans(c, extra, listing, host, now, hasNew[host], lastTime[host]);
      if !hasNew[host] {
        if lastTime[host] > 0 && lastTime[host] < now - MAX_RUNNING_DAYS * SECONDS_IN_DAY {
          continue;
        }
        return false;
      }
    }
    return true;
  }

  /** A host that may still be running a backup begun before the collection ended: some id of it has a last revision that
      ended within the last seven days, and no revision of it ended after `after`. */
  ghost predicate IsAwaited(all: Listing, ignored: seq<string>, after: int, now: int, host: string) {
    && (exists id <- all.Keys :: id !in ignored && IsOn(id, host) && all[id] != [] && all[id][|all[id]| - 1].endTime >= now - 604800)
    && (forall id <- all.Keys, x <- all[id] :: id !in ignored && IsOn(id, host) ==> x.endTime <= after)
  }

  lemma AwaitedIsQuiet(c: Collection, extra: nat, ignored: seq<string>, all: Listing, now: int, host: string)
    requires WellListed(all) && IsAwaited(all, ignored, c.endTime + extra, now, host)
    ensures !HostActive(c, extra, Considered(all, all.Keys, ignored), host)
  {
    forall x <- Considered(all, all.Keys, ignored) | HostOf(x.id) == host ensures !Qualifies(c, extra, x) {
      HostIs(x.id, host);
      assert x in all[x.id];
    }
  }

  lemma LastIsLatest(all: Listing, ignored: seq<string>, id: string)
    requires WellListed(all) && id in all && id !in ignored && all[id] != []
    ensures IsLatest(all[id][|all[id]| - 1], Considered(all, all.Keys, ignored))
  {
    var listing, last := Considered(all, all.Keys, ignored), all[id][|all[id]| - 1];
    assert last in all[id] && last in listing;
    forall x <- listing | x.id == id ensures x.revision <= last.revision {
      var k :| 0 <= k < |all[id]| && all[id][k] == x;
    }
  }

  /** One host that is awaited is enough to keep the fossils, whatever other hosts did. */
  lemma AwaitedBlocks(c: Collection, extra: nat, ignored: seq<string>, all: Listing, now: int, host: string)
    requires WellListed(all) && IsAwaited(all, ignored, c.endTime + extra, now, host)
    ensures !Deletable(c, extra, Considered(all, all.Keys, ignored), now)
  {
    var id :| id in all && id !in ignored && IsOn(id, host) && all[id] != [] && all[id][|all[id]| - 1].endTime >= now - 604800;
    HostIs(id, host);
    AwaitedIsQuiet(c, extra, ignored, all, now, host);
    LastIsLatest(all, ignored, id);
  }

  /** The `k`th revision of an id is reported as new: it is later than the last one the collection knows, and no such one
      before it ended after `after`. */
  ghost predicate IsReported(all: Listing, ignored: seq<string>, c: Collection, after: int, id: string, k: nat) {
    && id in all && id !in ignored && k < |all[id]|
    && var known := if id in c.lastRevisions then c.lastRevisions[id] else 0;
       && all[id][k].revision > known
       && forall j :: 0 <= j < k && all[id][j].revision > known ==> all[id][j].endTime <= after
  }

  /** The earlier revisions of an id are those before it in its list. */
  lemma EarlierRevision(all: Listing, ignored: seq<string>, id: string, k: nat, y: Snapshot) returns (j: nat)
    requires WellListed(all) && id in all && k < |all[id]|
    requires y in Considered(all, all.Keys, ignored) && y.id == id && y.revision < all[id][k].revision
    ensures j < k && all[id][j] == y
  {
    j :| 0 <= j < |all[id]| && all[id][j] == y;
  }

  lemma NewIsReported(c: Collection, extra: nat, ignored: seq<string>, all: Listing, id: string, k: nat)
    requires WellListed(all) && id in all && id !in ignored && k < |all[id]|
    ensures all[id][k] in NewSnapshots(c, extra, Considered(all, all.Keys, ignored)) <==>
            IsReported(all, ignored, c, c.endTime + extra, id, k)
  {
    var listing, x := Considered(all, all.Keys, ignored), all[id][k];
    assert x in all[id] && x in listing;
    if IsNew(c, extra, listing, x) {
      forall j | 0 <= j < k ensures !Qualifies(c, extra, all[id][j]) {
        assert all[id][j] in all[id] && all[id][j] in listing;
      }
    }
    if IsReported(all, ignored, c, c.endTime + extra, id, k) {
      forall y <- listing | y.id == id && y.revision < x.revision ensures !Qualifies(c, extra, y) {
        var j := EarlierRevision(all, ignored, id, k, y);
      }
    }
  }

  /** Exactly the revisions of considered ids that are reported as new are in `xs`. */
  ghost predicate HoldsReported(all: Listing, ignored: seq<string>, c: Collection, after: int, xs: set<Snapshot>) {
    forall id: string, k: nat :: HoldsIfReported(all, ignored, c, after, xs, id, k)
  }

  ghost predicate HoldsIfReported(all: Listing, ignored: seq<string>, c: Collection, after: int, xs: set<Snapshot>, id: string, k: nat) {
    id in all && id !in ignored && k < |all[id]| ==> (all[id][k] in xs <==> IsReported(all, ignored, c, after, id, k))
  }

  ghost predicate SomeAwaited(all: Listing, ignored: seq<string>, after: int, now: int) {
    exists host :: IsAwaited(all, ignored, after, now, host)
  }

  /** What the two answers mean, by the fields of the listing: no fossil goes while a host may still be running a backup
      begun before, and the new revisions are the reported ones. */
  ghost predicate MeansByFields(all: Listing, ignored: seq<string>, c: Collection, after: int, now: int, deletable: bool, xs: set<Snapshot>) {
    (SomeAwaited(all, ignored, after, now) ==> !deletable) && (deletable ==> HoldsReported(all, ignored, c, after, xs))
  }

  lemma DeletableByFields(c: Collection, extra: nat, ignored: seq<string>, all: Listing, now: int, deletable: bool, xs: set<Snapshot>)
    requires WellListed(all) && (deletable <==> Deletable(c, extra, Considered(all, all.Keys, ignored), now))
    requires deletable ==> xs == NewSnapshots(c, extra, Considered(all, all.Keys, ignored))
    ensures MeansByFields(all, ignored, c, c.endTime + extra, now, deletable, xs)
  {
    var after := c.endTime + extra;
    if host :| IsAwaited(all, ignored, after, now, host) {
      AwaitedBlocks(c, extra, ignored, all, now, host);
    }
    if deletable {
      forall id: string, k: nat ensures HoldsIfReported(all, ignored, c, after, xs, id, k) {
        if id in all && id !in ignored && k < |all[id]| {
          NewIsReported(c, extra, ignored, all, id, k);
        }
      }
    }
  }

  /** Decides by the two tables, and lists the new revisions. */
  method Decide(c: Collection, extra: nat, ignored: seq<string>, all: Listing, now: int)
    returns (deletable: bool, newSnapshots: seq<Snapshot>)
    requires WellListed(all)
    ensures
      var listing := Considered(all, all.Keys, ignored);
      && (deletable <==> Deletable(c, extra, listing, now))
      && (deletable ==> Elements(newSnapshots) == NewSnapshots(c, extra, listing))
      && (!deletable ==> newSnapshots == [])
  {
    ghost var listing := Considered(all, all.Keys, ignored);
    var hasNew, lastTime, news := ScanHosts(c, extra, ignored, all);
    DeletableByHost(c, extra, listing, now);
    deletable := AllHostsDone(c, extra, listing, now, hasNew, lastTime);
    newSnapshots := if deletable then news else [];
  }

  /** Decides whether the fossils of a collection may be deleted, and lists the revisions new to it. */
  method IsDeletable(c: Collection, strongConsistent: bool, ignored: seq<string>, all: Listing, now: int)
    returns (deletable: bool, newSnapshots: seq<Snapshot>)
    requires WellListed(all)
    ensures
      var extra := if strongConsistent then 0 else SECONDS_IN_DAY / 2;
      var listing := Considered(all, all.Keys, ignored);
      && (deletable <==> Deletable(c, extra, listing, now))
      && (deletable ==> Elements(newSnapshots) == NewSnapshots(c, extra, listing))
      && (!deletable ==> newSnapshots == [])
    ensures MeansByFields(all, ignored, c, c.endTime + if strongConsistent then 0 else 43200, now, deletable, Elements(newSnapshots))
  {
    var extra := if strongConsistent then 0 else SECONDS_IN_DAY / 2;
    deletable, newSnapshots := Decide(c, extra, ignored, all, now);
    DeletableByFields(c, extra, ignored, all, now, deletable, Elements(newSnapshots));
  }

  // ---------- what to fossilize ----------

  /** Adds the chunks of the snapshots to be deleted, none of them known to be referenced yet. */
  method AddDeleted(list: seq<Snapshot>, flagged: set<Snapshot>, chunks: map<ChunkId, bool>)
    returns (chunks': map<ChunkId, bool>)
    requires forall c <- chunks.Keys :: !chunks[c]
    ensures forall c <- chunks'.Keys :: !chunks'[c]
    ensures chunks'.Keys == chunks.Keys + ChunksOf(flagged * Elements(list))
  {
    chunks' := chunks;
    for k := 0 to |list|
      invariant forall c <- chunks'.Keys :: !chunks'[c]
      invariant chunks'.Keys == chunks.Keys + ChunksOf(flagged * Elements(list[..k]))
    {
      assert list[..k + 1] == list[..k] + [list[k]];
      if list[k] !in flagged {
        assert flagged * Elements(list[..k + 1]) == flagged * Elements(list[..k]);
        continue;
      }
      assert flagged * Elements(list[..k + 1]) == flagged * Elements(list[..k]) + {list[k]};
      chunks' := chunks' + map c <- list[k].chunks :: false;
    }
    assert list[..|list|] == list;
  }

  /** Marks the chunks that a snapshot to be kept refers to. */
  method MarkReferenced(list: seq<Snapshot>, flagged: set<Snapshot>, chunks: map<ChunkId, bool>)
    returns (chunks': map<ChunkId, bool>)
    ensures chunks'.Keys == chunks.Keys
    ensures forall c <- chunks.Keys :: chunks'[c] <==> chunks[c] || c in ChunksOf(Elements(list) - flagged)
  {
    chunks' := chunks;
    for k := 0 to |list|
      invariant chunks'.Keys == chunks.Keys
      invariant forall c <- chunks.Keys :: chunks'[c] <==> chunks[c] || c in ChunksOf(Elements(list[..k]) - flagged)
    {
      assert list[..k + 1] == list[..k] + [list[k]];
      if list[k] in flagged {
        assert Elements(list[..k + 1]) - flagged == Elements(list[..k]) - flagged;
        continue;
      }
      assert Elements(list[..k + 1]) - flagged == Elements(list[..k]) - flagged + {list[k]};
      chunks' := map c <- chunks'.Keys :: chunks'[c] || c in list[k].chunks;
    }
    assert list[..|list|] == list;
  }

  lemma ListedGrows(all: Listing, seen: set<string>, id: string)
    requires seen <= all.Keys && id in all
    ensures Considered(all, seen + {id}, []) == Considered(all, seen, []) + Elements(all[id])
  {
  }

  lemma ChunksOfUnion(xs: set<Snapshot>, ys: set<Snapshot>)
    ensures ChunksOf(xs + ys) == ChunksOf(xs) + ChunksOf(ys)
  {
  }

  lemma LastOfListIsLatest(all: Listing, id: string)
    requires WellListed(all) && id in all && all[id] != []
    ensures forall x <- all[id] :: IsLatest(x, Considered(all, all.Keys, [])) <==> x == all[id][|all[id]| - 1]
  {
    ConsideredGrows(all, all.Keys - {id}, [], id);
    var xs := Considered(all, all.Keys - {id}, []);
    assert all.Keys - {id} + {id} == all.Keys;
    forall x <- all[id] ensures IsLatest(x, Considered(all, all.Keys, [])) <==> x == all[id][|all[id]| - 1] {
      assert x.id == id;
      LatestGrows(xs, all[id], id, x);
    }
  }

  /** Non-exhaustive collection: the chunks of the snapshots to delete that no other snapshot refers to. In
      non-exclusive mode the last revision of an id cannot be deleted. */
  method CollectTargets(all: Listing, flagged: set<Snapshot>, exclusive: bool)
    returns (ok: bool, targets: set<ChunkId>)
    requires WellListed(all)
    ensures
      var listing := Considered(all, all.Keys, []);
      && (ok <==> exclusive || KeepsLatest(listing, flagged))
      && (ok ==> targets == Targets(listing, flagged))
  {
    ghost var listing := Considered(all, all.Keys, []);
    var chunks: map<ChunkId, bool>;
    targets := {};
    ok, chunks := CollectDeleted(all, flagged, exclusive);
    if !ok {
      return;
    }
    var ids := all.Keys;
    ghost var seen: set<string> := {};
    ghost var deleted := chunks.Keys;
    while ids != {}
      invariant seen == all.Keys - ids && ids <= all.Keys
      invariant chunks.Keys == deleted
      invariant forall c <- deleted :: chunks[c] <==> c in ChunksOf(Considered(all, seen, []) - flagged)
    {
      var id :| id in ids;
      ListedGrows(all, seen, id);
      ChunksOfUnion(Considered(all, seen, []) - flagged, Elements(all[id]) - flagged);
      assert Considered(all, seen + {id}, []) - flagged == (Considered(all, seen, []) - flagged) + (Elements(all[id]) - flagged);
      ids := ids - {id};
      seen := seen + {id};
      chunks := MarkReferenced(all[id], flagged, chunks);
    }
    assert seen == all.Keys;
    targets := set c <- chunks.Keys | !chunks[c];
  }

  method CollectDeleted(all: Listing, flagged: set<Snapshot>, exclusive: bool)
    returns (ok: bool, chunks: map<ChunkId, bool>)
    requires WellListed(all)
    ensures ok <==> exclusive || KeepsLatest(Considered(all, all.Keys, []), flagged)
    ensures ok ==> chunks.Keys == ChunksOf(flagged * Considered(all, all.Keys, [])) && forall c <- chunks.Keys :: !chunks[c]
  {
    ghost var listing := Considered(all, all.Keys, []);
    chunks := map[];
    var ids := all.Keys;
    ghost var seen: set<string> := {};
    while ids != {}
      invariant seen == all.Keys - ids && ids <= all.Keys
      invariant exclusive || forall x <- Considered(all, seen, []) :: IsLatest(x, listing) ==> x !in flagged
      invariant chunks.Keys == ChunksOf(flagged * Considered(all, seen, []))
      invariant forall c <- chunks.Keys :: !chunks[c]
    {
      var id :| id in ids;
      ListedGrows(all, seen, id);
      if all[id] != [] {
        LastOfListIsLatest(all, id);
        var latest := all[id][|all[id]| - 1];
        assert latest in all[id] && latest in Considered(all, seen + {id}, []);
        if latest in flagged && !exclusive {
          ok := false;
          return;
        }
      }
      ChunksOfUnion(flagged * Considered(all, seen, []), flagged * Elements(all[id]));
      assert flagged * Considered(all, seen + {id}, []) == flagged * Considered(all, seen, []) + flagged * Elements(all[id]);
      ids := ids - {id};
      seen := seen + {id};
      chunks := AddDeleted(all[id], flagged, chunks);
    }
    assert seen == all.Keys;
    ok := true;
  }
}
