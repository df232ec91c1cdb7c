/**
 Uploading chunks with several workers, and what an interrupted backup may reuse
 (src/duplicacy_backupmanager.go, src/duplicacy_entrylist.go, src/duplicacy_chunkoperator.go).
 */
module UploadSession {
  import opened Entries

  /** `emitted` are the chunks from the chunk maker, `uploaded` the recorded completions with empty slots for missing ones. */
  datatype State = State(
    emitted: seq<Hash>,
    cache: set<Hash>,
    inFlight: set<nat>,
    storage: set<Hash>,
    uploaded: seq<Hash>)

  /** A completion is put in its slot; slots before it are padded. */
  function Recorded(uploaded: seq<Hash>, i: nat, h: Hash): (r: seq<Hash>)
    ensures |r| == (if i < |uploaded| then |uploaded| else i + 1) && r[i] == h
    ensures forall k :: 0 <= k < |r| && k != i ==> r[k] == if k < |uploaded| then uploaded[k] else ""
  {
    var n := if i < |uploaded| then |uploaded| else i + 1;
    seq(n, k requires 0 <= k < n => if k == i then h else if k < |uploaded| then uploaded[k] else "")
  }

  datatype Step =
    | Emit(h: Hash, keepAlive: bool)
    | Write(i: nat)
    | Complete(i: nat)
    | Elsewhere(more: set<Hash>)

  /** A new chunk: one that is cached counts as done at once, unless the connection needs to be kept alive. */
  predicate EmitStep(s: State, t: State, h: Hash, keepAlive: bool) {
    && h != "" && t.emitted == s.emitted + [h] && t.storage == s.storage
    && if h in s.cache && !keepAlive
       then t == s.(emitted := t.emitted, uploaded := Recorded(s.uploaded, |s.emitted|, h))
       else t == s.(emitted := t.emitted, cache := s.cache + {h}, inFlight := s.inFlight + {|s.emitted|})
  }

  /** A worker writes the chunk file. */
  predicate WriteStep(s: State, t: State, i: nat) {
    i in s.inFlight && i < |s.emitted| && t == s.(storage := s.storage + {s.emitted[i]})
  }

  /** A worker reports a chunk that is in the storage now, whoever put it there. */
  predicate CompleteStep(s: State, t: State, i: nat) {
    && i in s.inFlight && i < |s.emitted| && s.emitted[i] in s.storage
    && t == s.(inFlight := s.inFlight - {i}, uploaded := Recorded(s.uploaded, i, s.emitted[i]))
  }

  predicate Next(s: State, t: State, step: Step) {
    match step
    case Emit(h, keepAlive) => EmitStep(s, t, h, keepAlive)
    case Write(i) => WriteStep(s, t, i)
    case Complete(i) => CompleteStep(s, t, i)
    case Elsewhere(more) => t == s.(storage := s.storage + more)
  }

  /** The cache starts with the chunks of the last snapshot, which are in the storage. */
  predicate Init(s: State) {
    s.emitted == [] && s.inFlight == {} && s.uploaded == [] && s.cache <= s.storage
  }

  predicate Done(s: State, i: nat) {
    i < |s.uploaded| && s.uploaded[i] != ""
  }

  /** A chunk is in the storage, or an earlier copy of it is on its way. */
  ghost predicate Covered(s: State, h: Hash, before: nat) {
    h in s.storage || exists i :: i in s.inFlight && i < before && i < |s.emitted| && s.emitted[i] == h
  }

  /** Every chunk emitted so far is on its way or done, and never both. */
  ghost predicate SlotFor(s: State, i: nat)
    requires i < |s.emitted|
  {
    && (i in s.inFlight <==> !Done(s, i))
    && (Done(s, i) ==> s.uploaded[i] == s.emitted[i] && Covered(s, s.emitted[i], i))
    && s.emitted[i] != ""
  }

  ghost predicate Inv(s: State) {
    && |s.uploaded| <= |s.emitted| && (forall i :: i in s.inFlight ==> i < |s.emitted|)
    && (forall i :: 0 <= i < |s.emitted| ==> SlotFor(s, i))
    && (forall h :: h in s.cache ==> Covered(s, h, |s.emitted|))
  }

  lemma CoveredStays(s: State, t: State, h: Hash, before: nat)
    requires Covered(s, h, before) && s.storage <= t.storage && s.emitted <= t.emitted
    requires forall i :: i in s.inFlight && i !in t.inFlight && i < |s.emitted| ==> s.emitted[i] in t.storage
    ensures Covered(t, h, before)
  {
    if h !in t.storage {
      var i :| i in s.inFlight && i < before && i < |s.emitted| && s.emitted[i] == h;
      assert t.emitted[i] == h;
    }
  }

  lemma EmitKeeps(s: State, t: State, h: Hash, keepAlive: bool)
    requires Inv(s) && EmitStep(s, t, h, keepAlive)
    ensures Inv(t)
  {
    var n := |s.emitted|;
    forall i | 0 <= i < |t.emitted| ensures SlotFor(t, i) {
      if i < n {
        assert SlotFor(s, i);
        if Done(s, i) {
          CoveredStays(s, t, s.emitted[i], i);
        }
      } else if h in s.cache && !keepAlive {
        CoveredStays(s, t, h, n);
      }
    }
    forall g | g in t.cache ensures Covered(t, g, n + 1) {
      if g in s.cache {
        CoveredStays(s, t, g, n);
        assert Covered(t, g, n);
      } else {
        assert n in t.inFlight && t.emitted[n] == g;
      }
    }
  }

  lemma WriteKeeps(s: State, t: State)
    requires Inv(s) && t == s.(storage := t.storage) && s.storage <= t.storage
    ensures Inv(t)
  {
    forall i | 0 <= i < |t.emitted| ensures SlotFor(t, i) {
      assert SlotFor(s, i);
      if Done(s, i) {
        CoveredStays(s, t, s.emitted[i], i);
      }
    }
    forall h | h in t.cache ensures Covered(t, h, |t.emitted|) {
      CoveredStays(s, t, h, |s.emitted|);
    }
  }

  lemma CompleteKeeps(s: State, t: State, j: nat)
    requires Inv(s) && CompleteStep(s, t, j)
    ensures Inv(t)
  {
    forall i | 0 <= i < |t.emitted| ensures SlotFor(t, i) {
      assert SlotFor(s, i);
      if Done(s, i) {
        CoveredStays(s, t, s.emitted[i], i);
      }
    }
    forall h | h in t.cache ensures Covered(t, h, |t.emitted|) {
      CoveredStays(s, t, h, |s.emitted|);
    }
  }

  lemma StepKeeps(s: State, t: State, step: Step)
    requires Inv(s) && Next(s, t, step)
    ensures Inv(t)
  {
    match step
    case Emit(h, keepAlive) => EmitKeeps(s, t, h, keepAlive);
    case Write(i) => WriteKeeps(s, t);
    case Complete(i) => CompleteKeeps(s, t, i);
    case Elsewhere(more) => WriteKeeps(s, t);
  }

  ghost predicate IsRun(run: seq<State>, steps: seq<Step>) {
    && |run| == |steps| + 1 && Init(run[0])
    && forall i :: 0 <= i < |steps| ==> Next(run[i], run[i + 1], steps[i])
  }

  lemma {:induction false} RunKeeps(run: seq<State>, steps: seq<Step>, n: nat)
    requires IsRun(run, steps) && n < |run|
    ensures Inv(run[n])
  {
    if n > 0 {
      RunKeeps(run, steps, n - 1);
      StepKeeps(run[n - 1], run[n], steps[n - 1]);
    }
  }

  /** What is kept of an interrupted upload: everything up to the first empty slot. */
  method Truncate(uploaded: seq<Hash>) returns (kept: seq<Hash>)
    ensures kept <= uploaded && (forall i :: 0 <= i < |kept| ==> kept[i] != "")
    ensures |kept| < |uploaded| ==> uploaded[|kept|] == ""
  {
    for i := 0 to |uploaded|
      invariant forall k :: 0 <= k < i ==> uploaded[k] != ""
    {
      if |uploaded[i]| == 0 {
        return uploaded[..i];
      }
    }
    kept := uploaded;
  }

  /** The longest prefix of chunks that are all done. */
  ghost predicate IsDonePrefix(s: State, n: nat) {
    (forall i :: 0 <= i < n ==> Done(s, i)) && !Done(s, n)
  }

  /**
   However a backup stops, the kept prefix is the longest one whose chunks are all done; each of them is in the storage,
   and the next chunk, if any, is still on its way. This holds although a repeated chunk counts as done while its first
   copy is on its way.
   */
  lemma KeptPrefixIsStored(run: seq<State>, steps: seq<Step>, n: nat, kept: nat, k: nat)
    requires IsRun(run, steps) && n < |run| && IsDonePrefix(run[n], kept)
    ensures kept <= |run[n].emitted| && (kept < |run[n].emitted| ==> kept in run[n].inFlight)
    ensures k < kept ==> k < |run[n].uploaded| && run[n].uploaded[k] == run[n].emitted[k] && run[n].emitted[k] in run[n].storage
  {
    RunKeeps(run, steps, n);
    var s := run[n];
    if kept > 0 {
      assert Done(s, kept - 1);
    }
    if kept < |s.emitted| {
      assert SlotFor(s, kept);
    }
    if k < kept {
      assert SlotFor(s, k);
      forall i | 0 <= i < k ensures i !in s.inFlight {
        assert SlotFor(s, i);
      }
    }
  }

  predicate DoneButMissing(s: State, i: nat) {
    Done(s, i) && i < |s.emitted| && s.emitted[i] !in s.storage
  }

  /** A chunk beyond the prefix may be recorded as done and still be missing from the storage. */
  lemma DoneIsNotStored()
    ensures exists run: seq<State>, steps: seq<Step>, i: nat :: IsRun(run, steps) && DoneButMissing(run[|steps|], i)
  {
    var s0 := State([], {}, {}, {}, []);
    var s1 := State(["h"], {"h"}, {0}, {}, []);
    var s2 := State(["h", "h"], {"h"}, {0}, {}, ["", "h"]);
    assert s1.emitted + ["h"] == s2.emitted;
    assert Recorded(s1.uploaded, 1, "h") == s2.uploaded;
    var run, steps := [s0, s1, s2], [Emit("h", false), Emit("h", false)];
    assert Next(s0, s1, steps[0]) && Next(s1, s2, steps[1]);
    assert IsRun(run, steps);
    assert DoneButMissing(run[|steps|], 1);
  }
}
