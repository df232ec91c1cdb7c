/**
 The pure meaning of content-defined chunking: a stream is cut at the first length of at least the minimum
 whose last `min` bytes hash to zero under the mask, or else at the maximum.
 */
module Splitting {
  import opened ByteStreams
  import opened Buzhash

  datatype Params = Params(min: nat, max: nat, mask: Word, table: Table)

  predicate ValidParams(p: Params) {
    1 <= p.min < p.max
  }

  /** The hash of a window is zero under the mask. */
  predicate IsZeroUnderMask(p: Params, hash: Word) {
    hash * p.mask == {}
  }

  /** The stream may be cut after `n` bytes. */
  predicate IsCut(p: Params, s: seq<byte>, n: nat) {
    p.min <= n <= |s| && (n == p.max || IsZeroUnderMask(p, Sum(p.table, s[n - p.min..n])))
  }

  ghost predicate IsFirstCut(p: Params, s: seq<byte>, n: nat) {
    IsCut(p, s, n) && forall k: nat :: k < n ==> !IsCut(p, s, k)
  }

  ghost predicate HasNoCut(p: Params, s: seq<byte>) {
    forall k: nat :: !IsCut(p, s, k)
  }

  /** The first place to cut at or after `k`, or the whole length when there is none. */
  function CutFrom(p: Params, s: seq<byte>, k: nat): (n: nat)
    requires k <= |s|
    ensures k <= n <= |s| && (n < |s| ==> IsCut(p, s, n))
    ensures forall j: nat :: k <= j < n ==> !IsCut(p, s, j)
    decreases |s| - k
  {
    if k == |s| || IsCut(p, s, k) then k else CutFrom(p, s, k + 1)
  }

  function CutLength(p: Params, s: seq<byte>): (n: nat)
    requires ValidParams(p) && s != []
    ensures 1 <= n <= |s|
    ensures IsFirstCut(p, s, n) || (n == |s| && HasNoCut(p, s))
  {
    CutFrom(p, s, 1)
  }

  /** The chunks of a stream. */
  function Split(p: Params, s: seq<byte>): (chunks: seq<seq<byte>>)
    requires ValidParams(p)
  {
    if s == [] then []
    else
      var n := CutLength(p, s);
      [s[..n]] + Split(p, s[n..])
  }

  /** Nothing is lost and nothing is reordered. */
  lemma {:induction false} SplitConcat(p: Params, s: seq<byte>)
    requires ValidParams(p)
    ensures Concat(Split(p, s)) == s
    decreases |s|
  {
    if s != [] {
      var n := CutLength(p, s);
      SplitConcat(p, s[n..]);
      ConcatSplit([s[..n]], Split(p, s[n..]));
      ConcatOne(s[..n]);
    }
  }

  lemma CutLengthBounds(p: Params, s: seq<byte>)
    requires ValidParams(p) && s != []
    ensures CutLength(p, s) <= p.max && (CutLength(p, s) < |s| ==> p.min <= CutLength(p, s))
  {
    if |s| >= p.max {
      assert IsCut(p, s, p.max);
    }
  }

  /** No chunk is longer than the maximum, and only the last may be shorter than the minimum. */
  lemma {:induction false} SplitLengths(p: Params, s: seq<byte>, i: nat)
    requires ValidParams(p) && i < |Split(p, s)|
    ensures 1 <= |Split(p, s)[i]| <= p.max
    ensures i < |Split(p, s)| - 1 ==> p.min <= |Split(p, s)[i]|
    decreases |s|
  {
    var n := CutLength(p, s);
    CutLengthBounds(p, s);
    if i > 0 {
      SplitLengths(p, s[n..], i - 1);
    }
  }

  // ---------- where the cuts are, bit by bit ----------

  /** A bit of the mask is set in the hash of the `min` bytes before a position. */
  ghost predicate HasMaskedBit(p: Params, s: seq<byte>, n: nat)
    requires p.min <= n <= |s|
  {
    exists bit :: bit in p.mask && bit in Sum(p.table, s[n - p.min..n])
  }

  lemma CutByBits(p: Params, s: seq<byte>, n: nat)
    requires p.min <= n <= |s|
    ensures IsCut(p, s, n) <==> n == p.max || !HasMaskedBit(p, s, n)
  {
    var hash := Sum(p.table, s[n - p.min..n]);
    if HasMaskedBit(p, s, n) {
      var bit :| bit in p.mask && bit in hash;
      assert bit in hash * p.mask;
    } else {
      forall bit ensures bit !in hash * p.mask {
        assert !(bit in p.mask && bit in hash);
      }
    }
  }

  /** Every chunk ends at the maximum, at the end of the stream, or where its last `min` bytes hash to zero in every bit of
      the mask, and at the first such place. */
  lemma {:induction false} SplitByBits(p: Params, s: seq<byte>, i: nat)
    requires ValidParams(p) && i < |Split(p, s)|
    ensures
      var chunk := Split(p, s)[i];
      && (i < |Split(p, s)| - 1 && |chunk| < p.max ==> p.min <= |chunk| && !HasMaskedBit(p, chunk, |chunk|))
      && (forall n :: p.min <= n < |chunk| ==> HasMaskedBit(p, chunk, n))
    decreases |s|
  {
    var n := CutLength(p, s);
    CutLengthBounds(p, s);
    var chunk := s[..n];
    if i > 0 {
      SplitByBits(p, s[n..], i - 1);
    } else {
      forall k | p.min <= k <= n ensures HasMaskedBit(p, chunk, k) <==> HasMaskedBit(p, s, k) {
        assert chunk[k - p.min..k] == s[k - p.min..k];
      }
      forall k | p.min <= k < n ensures HasMaskedBit(p, chunk, k) {
        CutByBits(p, s, k);
      }
      if n < |s| {
        CutByBits(p, s, n);
      }
      assert |Split(p, s)| > 1 ==> s[n..] != [];
    }
  }

  /** Where a stream may be cut does not depend on what follows. */
  lemma CutIsStable(p: Params, s: seq<byte>, more: seq<byte>, n: nat)
    requires n <= |s|
    ensures IsCut(p, s + more, n) <==> IsCut(p, s, n)
  {
    if p.min <= n {
      assert (s + more)[n - p.min..n] == s[n - p.min..n];
    }
  }

  // ---------- streams cut so far ----------

  /** `sent` are the chunks cut off the front of `stream` so far and `pending` is what remains of it. */
  ghost predicate Settled(p: Params, stream: seq<byte>, sent: seq<seq<byte>>, pending: seq<byte>) {
    if sent == [] then stream == pending
    else
      && IsFirstCut(p, stream, |sent[0]|)
      && sent[0] == stream[..|sent[0]|]
      && Settled(p, stream[|sent[0]|..], sent[1..], pending)
  }

  lemma {:induction false} SettledGrows(p: Params, stream: seq<byte>, sent: seq<seq<byte>>, pending: seq<byte>, more: seq<byte>)
    requires Settled(p, stream, sent, pending)
    ensures Settled(p, stream + more, sent, pending + more)
    decreases |sent|
  {
    if sent != [] {
      var n := |sent[0]|;
      forall k: nat | k <= n ensures IsCut(p, stream + more, k) <==> IsCut(p, stream, k) {
        CutIsStable(p, stream, more, k);
      }
      SettledGrows(p, stream[n..], sent[1..], pending, more);
      assert (stream + more)[n..] == stream[n..] + more && (stream + more)[..n] == stream[..n];
    }
  }

  lemma {:induction false} SettledCuts(p: Params, stream: seq<byte>, sent: seq<seq<byte>>, pending: seq<byte>, n: nat)
    requires Settled(p, stream, sent, pending) && IsFirstCut(p, pending, n)
    ensures Settled(p, stream, sent + [pending[..n]], pending[n..])
    decreases |sent|
  {
    var sent' := sent + [pending[..n]];
    if sent == [] {
      assert sent'[1..] == [];
    } else {
      SettledCuts(p, stream[|sent[0]|..], sent[1..], pending, n);
      assert sent'[1..] == sent[1..] + [pending[..n]];
    }
  }

  lemma {:induction false} SettledLengths(p: Params, stream: seq<byte>, sent: seq<seq<byte>>, pending: seq<byte>, i: nat)
    requires Settled(p, stream, sent, pending) && i < |sent|
    ensures |sent[i]| >= p.min
    decreases |sent|
  {
    if i > 0 {
      SettledLengths(p, stream[|sent[0]|..], sent[1..], pending, i - 1);
    }
  }

  lemma FirstCutIsUnique(p: Params, s: seq<byte>, n: nat)
    requires ValidParams(p) && s != [] && IsFirstCut(p, s, n)
    ensures CutLength(p, s) == n
  {
  }

  /** Once no cut is left in what remains, the chunks sent are those of the pure split, up to the tail. */
  lemma {:induction false} SettledIsSplit(p: Params, stream: seq<byte>, sent: seq<seq<byte>>, pending: seq<byte>)
    requires ValidParams(p) && Settled(p, stream, sent, pending) && HasNoCut(p, pending)
    ensures Split(p, stream) == sent + if pending == [] then [] else [pending]
    decreases |sent|
  {
    if sent == [] {
      if pending != [] {
        assert CutLength(p, pending) == |pending|;
        assert pending[..|pending|] == pending && pending[|pending|..] == [];
        assert Split(p, []) == [];
      }
    } else {
      FirstCutIsUnique(p, stream, |sent[0]|);
      SettledIsSplit(p, stream[|sent[0]|..], sent[1..], pending);
      assert sent == [sent[0]] + sent[1..];
    }
  }

  /** What is left when the data end is the last chunk. */
  lemma TailIsLastChunk(p: Params, stream: seq<byte>, sent: seq<seq<byte>>, tail: seq<byte>, chunks: seq<seq<byte>>)
    requires ValidParams(p) && Settled(p, stream, sent, tail) && HasNoCut(p, tail)
    requires chunks == if tail == [] then sent else sent + [tail]
    ensures chunks == Split(p, stream)
  {
    SettledIsSplit(p, stream, sent, tail);
  }
}
