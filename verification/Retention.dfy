/**
 Which snapshots a prune deletes by its retention policies (src/duplicacy_snapshotmanager.go).
 */
module Retention {

  datatype Policy = Policy(age: int, interval: int)

  /** The snapshots of one id in the order of their revisions. */
  datatype DatedSnapshot = DatedSnapshot(start: int, tag: string)

  /** `day` gives the date of a time, `tags` restricts the prune if there are any. */
  datatype Options = Options(policies: seq<Policy>, tags: set<string>, exclusive: bool, now: int, day: int -> int)

  ghost predicate IsCalendar(day: int -> int) {
    forall s, t :: s <= t ==> day(s) <= day(t)
  }

  predicate InTimeOrder(snapshots: seq<DatedSnapshot>) {
    && (forall j :: 0 <= j < |snapshots| ==> snapshots[j].start > 0)
    && (forall j, k :: 0 <= j < k < |snapshots| ==> snapshots[j].start <= snapshots[k].start)
  }

  function DaysBetween(o: Options, s: int, t: int): (n: int) {
    o.day(t) - o.day(s)
  }

  /** The snapshots the policies apply to: not the latest, unless the prune is exclusive, and only those with a given tag. */
  predicate IsConsidered(o: Options, snapshots: seq<DatedSnapshot>, j: nat)
    requires j < |snapshots|
  {
    && |snapshots| > 1 && (o.exclusive || j < |snapshots| - 1)
    && (o.tags != {} ==> snapshots[j].tag in o.tags)
  }

  /** The first policy from `i` on whose age a snapshot has reached. */
  function PolicyFrom(o: Options, days: int, i: nat): (p: nat)
    requires i <= |o.policies|
    ensures i <= p <= |o.policies| && (p < |o.policies| ==> days >= o.policies[p].age)
    ensures forall k :: i <= k < p ==> days < o.policies[k].age
    decreases |o.policies| - i
  {
    if i == |o.policies| || days >= o.policies[i].age then i else PolicyFrom(o, days, i + 1)
  }

  function PolicyOf(o: Options, s: DatedSnapshot): (p: nat)
    ensures p <= |o.policies|
  {
    PolicyFrom(o, DaysBetween(o, s.start, o.now), 0)
  }

  /** An earlier snapshot is kept under the same policy, less than its interval away. */
  ghost predicate IsCrowded(o: Options, snapshots: seq<DatedSnapshot>, flags: seq<bool>, j: nat)
    requires j < |snapshots| && j <= |flags| && PolicyOf(o, snapshots[j]) < |o.policies|
  {
    exists k :: 0 <= k < j && IsKept(o, snapshots, flags, k, PolicyOf(o, snapshots[j]))
                && DaysBetween(o, snapshots[k].start, snapshots[j].start) < o.policies[PolicyOf(o, snapshots[j])].interval
  }

  ghost predicate IsKept(o: Options, snapshots: seq<DatedSnapshot>, flags: seq<bool>, k: nat, p: nat)
    requires k < |snapshots| && k < |flags|
  {
    IsConsidered(o, snapshots, k) && PolicyOf(o, snapshots[k]) == p && !flags[k]
  }

  /** Exactly when a snapshot is deleted. */
  ghost predicate IsDeleted(o: Options, snapshots: seq<DatedSnapshot>, flags: seq<bool>, j: nat)
    requires j < |snapshots| && j <= |flags|
  {
    var p := PolicyOf(o, snapshots[j]);
    && IsConsidered(o, snapshots, j) && p < |o.policies|
    && (o.policies[p].interval == 0 || IsCrowded(o, snapshots, flags, j))
  }

  ghost predicate Flagged(o: Options, snapshots: seq<DatedSnapshot>, flags: seq<bool>, n: nat)
    requires n <= |flags| <= |snapshots|
  {
    forall j :: 0 <= j < n ==> (flags[j] <==> IsDeleted(o, snapshots, flags, j))
  }

  // ---------- the rule, by the fields of the snapshots ----------

  /** The first policy whose age a snapshot has reached, counted in calendar days. */
  ghost predicate FallsUnder(o: Options, s: DatedSnapshot, p: nat) {
    && p < |o.policies| && o.day(o.now) - o.day(s.start) >= o.policies[p].age
    && forall q :: 0 <= q < p ==> o.day(o.now) - o.day(s.start) < o.policies[q].age
  }

  /** Only the latest snapshot of a prune that is not exclusive is out of reach, and any without one of the given tags. */
  predicate MayGo(o: Options, snapshots: seq<DatedSnapshot>, j: nat)
    requires j < |snapshots|
  {
    (o.exclusive || j + 1 < |snapshots|) && (o.tags == {} || snapshots[j].tag in o.tags)
  }

  /** A snapshot goes if the policy it falls under keeps none, or keeps an earlier one that is less than its interval away. */
  ghost predicate Goes(o: Options, snapshots: seq<DatedSnapshot>, flags: seq<bool>, j: nat, p: nat)
    requires j < |snapshots| == |flags|
  {
    && |snapshots| > 1 && MayGo(o, snapshots, j) && FallsUnder(o, snapshots[j], p)
    && (o.policies[p].interval == 0 || exists k :: 0 <= k < j && HoldsOff(o, snapshots, flags, k, j, p))
  }

  ghost predicate HoldsOff(o: Options, snapshots: seq<DatedSnapshot>, flags: seq<bool>, k: nat, j: nat, p: nat)
    requires k < j < |snapshots| == |flags| && p < |o.policies|
  {
    && !flags[k] && MayGo(o, snapshots, k) && FallsUnder(o, snapshots[k], p)
    && o.day(snapshots[j].start) - o.day(snapshots[k].start) < o.policies[p].interval
  }

  ghost predicate FollowsRule(o: Options, snapshots: seq<DatedSnapshot>, flags: seq<bool>, j: nat)
    requires j < |snapshots| == |flags|
  {
    flags[j] <==> exists p: nat :: Goes(o, snapshots, flags, j, p)
  }

  lemma FallsUnderOne(o: Options, s: DatedSnapshot, p: nat)
    ensures FallsUnder(o, s, p) <==> p < |o.policies| && PolicyOf(o, s) == p
  {
  }

  lemma DeletedGoes(o: Options, snapshots: seq<DatedSnapshot>, flags: seq<bool>, j: nat)
    requires j < |snapshots| == |flags| && IsDeleted(o, snapshots, flags, j)
    ensures Goes(o, snapshots, flags, j, PolicyOf(o, snapshots[j]))
  {
    var p := PolicyOf(o, snapshots[j]);
    FallsUnderOne(o, snapshots[j], p);
    if o.policies[p].interval != 0 {
      var k :| 0 <= k < j && IsKept(o, snapshots, flags, k, p)
               && DaysBetween(o, snapshots[k].start, snapshots[j].start) < o.policies[p].interval;
      FallsUnderOne(o, snapshots[k], p);
      assert HoldsOff(o, snapshots, flags, k, j, p);
    }
  }

  lemma GoesIsDeleted(o: Options, snapshots: seq<DatedSnapshot>, flags: seq<bool>, j: nat, p: nat)
    requires j < |snapshots| == |flags| && Goes(o, snapshots, flags, j, p)
    ensures IsDeleted(o, snapshots, flags, j)
  {
    FallsUnderOne(o, snapshots[j], p);
    if o.policies[p].interval != 0 {
      var k :| 0 <= k < j && HoldsOff(o, snapshots, flags, k, j, p);
      FallsUnderOne(o, snapshots[k], p);
      assert IsKept(o, snapshots, flags, k, p);
    }
  }

  lemma RuleByFields(o: Options, snapshots: seq<DatedSnapshot>, flags: seq<bool>, j: nat)
    requires j < |snapshots| == |flags| && Flagged(o, snapshots, flags, |flags|)
    ensures FollowsRule(o, snapshots, flags, j)
  {
    assert flags[j] <==> IsDeleted(o, snapshots, flags, j);
    if flags[j] {
      DeletedGoes(o, snapshots, flags, j);
    }
    if p: nat :| Goes(o, snapshots, flags, j, p) {
      GoesIsDeleted(o, snapshots, flags, j, p);
    }
  }

  // ---------- the loop ----------

  /** The last one kept under the current policy among the first `n` snapshots. */
  ghost predicate LastKept(o: Options, snapshots: seq<DatedSnapshot>, flags: seq<bool>, n: nat, i: nat, last: int)
    requires n <= |flags| == |snapshots|
  {
    && (last != 0 ==> exists k :: 0 <= k < n && IsKept(o, snapshots, flags, k, i) && snapshots[k].start == last)
    && (forall k :: 0 <= k < n && IsKept(o, snapshots, flags, k, i) ==> snapshots[k].start <= last)
  }

  /** The policies before `i` are for snapshots older than the `n`th. */
  ghost predicate TooYoungFor(o: Options, snapshots: seq<DatedSnapshot>, n: nat, i: nat)
    requires i <= |o.policies|
  {
    forall j, p :: n <= j < |snapshots| && 0 <= p < i ==> DaysBetween(o, snapshots[j].start, o.now) < o.policies[p].age
  }

  lemma PolicyFromLater(o: Options, days: int, i: nat, j: nat)
    requires i <= j <= |o.policies| && forall k :: i <= k < j ==> days < o.policies[k].age
    ensures PolicyFrom(o, days, i) == PolicyFrom(o, days, j)
    decreases j - i
  {
    if i < j {
      PolicyFromLater(o, days, i + 1, j);
    }
  }

  /** Moves on to the policy for a snapshot; a new policy starts with nothing kept. */
  method FindPolicy(o: Options, snapshots: seq<DatedSnapshot>, j: nat, i: nat, last: int) returns (i': nat, last': int)
    requires IsCalendar(o.day) && InTimeOrder(snapshots) && j < |snapshots| && i <= |o.policies| && TooYoungFor(o, snapshots, j, i)
    ensures i' == PolicyOf(o, snapshots[j]) >= i && last' == (if i' == i then last else 0)
    ensures TooYoungFor(o, snapshots, j, i')
  {
    i', last' := i, last;
    var days := DaysBetween(o, snapshots[j].start, o.now);
    while i' < |o.policies| && days < o.policies[i'].age
      invariant i <= i' <= |o.policies| && last' == (if i' == i then last else 0)
      invariant forall p :: 0 <= p < i' ==> days < o.policies[p].age
    {
      i', last' := i' + 1, 0;
    }
    PolicyFromLater(o, days, 0, i');
    forall k, p | j <= k < |snapshots| && 0 <= p < i' ensures DaysBetween(o, snapshots[k].start, o.now) < o.policies[p].age {
      assert o.day(snapshots[j].start) <= o.day(snapshots[k].start);
    }
  }

  /** Whether the last kept snapshot is too close is whether any kept one is. */
  lemma CrowdedByLast(o: Options, snapshots: seq<DatedSnapshot>, flags: seq<bool>, j: nat, last: int)
    requires IsCalendar(o.day) && InTimeOrder(snapshots) && j < |flags| == |snapshots| && PolicyOf(o, snapshots[j]) < |o.policies|
    requires LastKept(o, snapshots, flags, j, PolicyOf(o, snapshots[j]), last)
    ensures IsCrowded(o, snapshots, flags, j) <==>
            last != 0 && DaysBetween(o, last, snapshots[j].start) < o.policies[PolicyOf(o, snapshots[j])].interval
  {
    var p := PolicyOf(o, snapshots[j]);
    if IsCrowded(o, snapshots, flags, j) {
      var k :| 0 <= k < j && IsKept(o, snapshots, flags, k, p) && DaysBetween(o, snapshots[k].start, snapshots[j].start) < o.policies[p].interval;
      assert snapshots[k].start <= last;
      assert o.day(snapshots[k].start) <= o.day(last);
    }
  }

  lemma DeletedDepends(o: Options, snapshots: seq<DatedSnapshot>, flags: seq<bool>, flags': seq<bool>, j: nat)
    requires j < |snapshots| == |flags| == |flags'| && flags[..j] == flags'[..j]
    ensures IsDeleted(o, snapshots, flags', j) <==> IsDeleted(o, snapshots, flags, j)
  {
    forall k | 0 <= k < j ensures flags[k] == flags'[k] {
      assert flags[k] == flags[..j][k] == flags'[..j][k];
    }
    var p := PolicyOf(o, snapshots[j]);
    assert forall k :: 0 <= k < j ==> (IsKept(o, snapshots, flags', k, p) <==> IsKept(o, snapshots, flags, k, p));
  }

  lemma FlagNext(o: Options, snapshots: seq<DatedSnapshot>, flags: seq<bool>, j: nat, flag: bool)
    requires j < |flags| == |snapshots| && Flagged(o, snapshots, flags, j) && flag == IsDeleted(o, snapshots, flags, j)
    ensures Flagged(o, snapshots, flags[j := flag], j + 1)
  {
    var flags' := flags[j := flag];
    forall k | 0 <= k <= j ensures flags'[k] <==> IsDeleted(o, snapshots, flags', k) {
      assert flags[..k] == flags'[..k];
      DeletedDepends(o, snapshots, flags, flags', k);
    }
  }

  /** A snapshot under the policy `p` was kept or deleted. */
  lemma LastKeptNext(o: Options, snapshots: seq<DatedSnapshot>, flags: seq<bool>, j: nat, flag: bool, i: nat, last: int)
    requires InTimeOrder(snapshots) && j < |flags| == |snapshots| && LastKept(o, snapshots, flags, j, i, last)
    ensures
      var kept := IsConsidered(o, snapshots, j) && PolicyOf(o, snapshots[j]) == i && !flag;
      LastKept(o, snapshots, flags[j := flag], j + 1, i, if kept then snapshots[j].start else last)
  {
    var flags' := flags[j := flag];
    assert forall k :: 0 <= k < j ==> (IsKept(o, snapshots, flags', k, i) <==> IsKept(o, snapshots, flags, k, i));
    var kept := IsConsidered(o, snapshots, j) && PolicyOf(o, snapshots[j]) == i && !flag;
    if kept {
      assert IsKept(o, snapshots, flags', j, i);
    } else if last != 0 {
      var k :| 0 <= k < j && IsKept(o, snapshots, flags, k, i) && snapshots[k].start == last;
      assert IsKept(o, snapshots, flags', k, i);
    }
  }

  /** No snapshot so far was kept under a later policy. */
  lemma NoneKeptLater(o: Options, snapshots: seq<DatedSnapshot>, flags: seq<bool>, n: nat, i: nat, i': nat)
    requires n <= |flags| == |snapshots| && i < i'
    requires forall k :: 0 <= k < n && IsConsidered(o, snapshots, k) ==> PolicyOf(o, snapshots[k]) <= i
    ensures LastKept(o, snapshots, flags, n, i', 0)
  {
  }

  ghost predicate PoliciesUpTo(o: Options, snapshots: seq<DatedSnapshot>, n: nat, i: nat)
    requires n <= |snapshots|
  {
    forall k :: 0 <= k < n && IsConsidered(o, snapshots, k) ==> PolicyOf(o, snapshots[k]) <= i
  }

  /** Decides one snapshot. */
  method DecideOne(o: Options, snapshots: seq<DatedSnapshot>, flags: seq<bool>, j: nat, i: nat, last: int)
    returns (flags': seq<bool>, i': nat, last': int)
    requires IsCalendar(o.day) && InTimeOrder(snapshots) && j < |flags| == |snapshots| && !flags[j]
    requires IsConsidered(o, snapshots, j) && i <= |o.policies| && TooYoungFor(o, snapshots, j, i) && PoliciesUpTo(o, snapshots, j, i)
    requires Flagged(o, snapshots, flags, j) && LastKept(o, snapshots, flags, j, i, last)
    ensures |flags'| == |flags| && flags'[j + 1..] == flags[j + 1..] && i <= i' <= |o.policies|
    ensures TooYoungFor(o, snapshots, j, i') && PoliciesUpTo(o, snapshots, j + 1, i')
    ensures Flagged(o, snapshots, flags', j + 1)
    ensures i' < |o.policies| ==> LastKept(o, snapshots, flags', j + 1, i', last')
  {
    i', last' := FindPolicy(o, snapshots, j, i, last);
    flags' := flags;
    if i' > i {
      NoneKeptLater(o, snapshots, flags, j, i, i');
    }
    if i' == |o.policies| {
      FlagNext(o, snapshots, flags, j, false);
      assert flags[j := false] == flags;
      return;
    }
    CrowdedByLast(o, snapshots, flags, j, last');
    var start := snapshots[j].start;
    var flag := o.policies[i'].interval == 0 || (last' != 0 && DaysBetween(o, last', start) < o.policies[i'].interval);
    FlagNext(o, snapshots, flags, j, flag);
    LastKeptNext(o, snapshots, flags, j, flag, i', last');
    flags' := flags[j := flag];
    if !flag {
      last' := start;
    }
  }

  lemma SkipNext(o: Options, snapshots: seq<DatedSnapshot>, flags: seq<bool>, j: nat, i: nat, last: int)
    requires InTimeOrder(snapshots) && j < |flags| == |snapshots| && !flags[j] && !IsConsidered(o, snapshots, j)
    requires Flagged(o, snapshots, flags, j) && LastKept(o, snapshots, flags, j, i, last)
    ensures Flagged(o, snapshots, flags, j + 1) && LastKept(o, snapshots, flags, j + 1, i, last)
  {
    FlagNext(o, snapshots, flags, j, false);
    LastKeptNext(o, snapshots, flags, j, false, i, last);
    assert flags[j := false] == flags;
  }

  /** When the policies are used up, nothing more is deleted. */
  lemma NoMoreFlags(o: Options, snapshots: seq<DatedSnapshot>, flags: seq<bool>, n: nat)
    requires n <= |flags| == |snapshots| && Flagged(o, snapshots, flags, n)
    requires forall k :: n <= k < |flags| ==> !flags[k]
    requires TooYoungFor(o, snapshots, n, |o.policies|)
    ensures Flagged(o, snapshots, flags, |flags|)
  {
    forall j | n <= j < |flags| ensures !IsDeleted(o, snapshots, flags, j) {
      PolicyFromLater(o, DaysBetween(o, snapshots[j].start, o.now), 0, |o.policies|);
    }
  }

  predicate NoneFrom(flags: seq<bool>, n: nat) {
    forall k :: n <= k < |flags| ==> !flags[k]
  }

  /** Marks the snapshots to be deleted. */
  method FlagSnapshots(o: Options, snapshots: seq<DatedSnapshot>) returns (flags: seq<bool>)
    requires IsCalendar(o.day) && InTimeOrder(snapshots)
    ensures |flags| == |snapshots| && Flagged(o, snapshots, flags, |flags|)
    ensures forall j :: 0 <= j < |flags| ==> FollowsRule(o, snapshots, flags, j)
  {
    flags := FlagByPolicies(o, snapshots);
    forall j | 0 <= j < |flags| ensures FollowsRule(o, snapshots, flags, j) {
      RuleByFields(o, snapshots, flags, j);
    }
  }

  /** Goes through the snapshots and the policies together. */
  method FlagByPolicies(o: Options, snapshots: seq<DatedSnapshot>) returns (flags: seq<bool>)
    requires IsCalendar(o.day) && InTimeOrder(snapshots)
    ensures |flags| == |snapshots| && Flagged(o, snapshots, flags, |flags|)
  {
    flags := seq(|snapshots|, _ => false);
    if |snapshots| <= 1 {
      return;
    }
    var last, i, j := 0, 0, 0;
    while j < |snapshots|
      invariant 0 <= i <= |o.policies| && j <= |flags| == |snapshots| && NoneFrom(flags, j)
      invariant TooYoungFor(o, snapshots, j, i) && PoliciesUpTo(o, snapshots, j, i)
      invariant Flagged(o, snapshots, flags, j) && LastKept(o, snapshots, flags, j, i, last)
    {
      if IsConsidered(o, snapshots, j) {
        ghost var was := flags;
        flags, i, last := DecideOne(o, snapshots, flags, j, i, last);
        forall k | j < k < |flags| ensures !flags[k] {
          assert flags[j + 1..][k - j - 1] == was[j + 1..][k - j - 1];
        }
        if i == |o.policies| {
          NoMoreFlags(o, snapshots, flags, j + 1);
          return;
        }
      } else {
        SkipNext(o, snapshots, flags, j, i, last);
      }
      j := j + 1;
    }
  }

  // ---------- what the policies promise ----------

  /** Snapshots kept under one policy are at least its interval apart. */
  lemma KeptApart(o: Options, snapshots: seq<DatedSnapshot>, flags: seq<bool>, j: nat, k: nat, p: nat)
    requires |flags| == |snapshots| && Flagged(o, snapshots, flags, |flags|) && j < k < |flags| && p < |o.policies|
    requires IsKept(o, snapshots, flags, j, p) && IsKept(o, snapshots, flags, k, p)
    ensures o.day(snapshots[k].start) - o.day(snapshots[j].start) >= o.policies[p].interval && o.policies[p].interval != 0
  {
    assert !IsDeleted(o, snapshots, flags, k);
  }

  /** A snapshot deleted under a policy with an interval is closer than that to an earlier one kept under the same policy. */
  lemma DeletedIsClose(o: Options, snapshots: seq<DatedSnapshot>, flags: seq<bool>, j: nat)
    requires |flags| == |snapshots| && Flagged(o, snapshots, flags, |flags|) && j < |flags| && flags[j]
    ensures
      var p := PolicyOf(o, snapshots[j]);
      && p < |o.policies| && IsConsidered(o, snapshots, j)
      && (o.policies[p].interval == 0 ||
          exists k :: 0 <= k < j && IsKept(o, snapshots, flags, k, p)
                      && DaysBetween(o, snapshots[k].start, snapshots[j].start) < o.policies[p].interval)
  {
    assert IsDeleted(o, snapshots, flags, j);
  }

  /** The latest snapshot survives a prune that is not exclusive, and so does one younger than every age, and when tags are
      given, one that has none of them. */
  lemma Survivors(o: Options, snapshots: seq<DatedSnapshot>, flags: seq<bool>, j: nat)
    requires |flags| == |snapshots| && Flagged(o, snapshots, flags, |flags|) && j < |flags|
    requires
      || (!o.exclusive && j == |snapshots| - 1)
      || (forall p :: 0 <= p < |o.policies| ==> o.day(o.now) - o.day(snapshots[j].start) < o.policies[p].age)
      || (o.tags != {} && snapshots[j].tag !in o.tags)
    ensures !flags[j]
  {
    assert flags[j] <==> IsDeleted(o, snapshots, flags, j);
    if forall p :: 0 <= p < |o.policies| ==> DaysBetween(o, snapshots[j].start, o.now) < o.policies[p].age {
      PolicyFromLater(o, DaysBetween(o, snapshots[j].start, o.now), 0, |o.policies|);
    }
  }

  /** The first considered snapshot of every policy with an interval is kept. */
  lemma FirstIsKept(o: Options, snapshots: seq<DatedSnapshot>, flags: seq<bool>, j: nat)
    requires |flags| == |snapshots| && Flagged(o, snapshots, flags, |flags|) && j < |flags| && IsConsidered(o, snapshots, j)
    requires
      var p := PolicyOf(o, snapshots[j]);
      && p < |o.policies| && o.policies[p].interval != 0
      && forall k :: 0 <= k < j && IsConsidered(o, snapshots, k) ==> PolicyOf(o, snapshots[k]) != p
    ensures !flags[j]
  {
    assert flags[j] <==> IsDeleted(o, snapshots, flags, j);
  }
}
