/**
 Positions in a byte stream that is cut into chunks of given lengths.
 */
module Positions {

  /** Where the `c`th chunk begins. */
  function Pos(lengths: seq<nat>, c: nat): (n: nat)
    requires c <= |lengths|
  {
    if c == 0 then 0 else Pos(lengths, c - 1) + lengths[c - 1]
  }

  function Total(lengths: seq<nat>): (n: nat) {
    Pos(lengths, |lengths|)
  }

  predicate Positive(lengths: seq<nat>) {
    forall i :: 0 <= i < |lengths| ==> lengths[i] > 0
  }

  lemma {:induction false} PosMonotone(lengths: seq<nat>, c: nat, d: nat)
    requires c <= d <= |lengths|
    ensures Pos(lengths, c) <= Pos(lengths, d)
    decreases d
  {
    if c < d {
      PosMonotone(lengths, c, d - 1);
    }
  }

  /** The chunk that holds the byte at a position. */
  predicate Holds(lengths: seq<nat>, c: nat, pos: nat) {
    c < |lengths| && Pos(lengths, c) <= pos < Pos(lengths, c + 1)
  }

  lemma OneHolder(lengths: seq<nat>, c: nat, d: nat, pos: nat)
    requires Holds(lengths, c, pos) && Holds(lengths, d, pos)
    ensures c == d
  {
    if c < d {
      PosMonotone(lengths, c + 1, d);
    } else if d < c {
      PosMonotone(lengths, d + 1, c);
    }
  }

  function Locate(lengths: seq<nat>, pos: nat, upTo: nat): (c: nat)
    requires upTo <= |lengths| && pos < Pos(lengths, upTo)
    ensures c < upTo && Holds(lengths, c, pos)
  {
    if Pos(lengths, upTo - 1) <= pos then upTo - 1 else Locate(lengths, pos, upTo - 1)
  }

  function ChunkAt(lengths: seq<nat>, pos: nat): (c: nat)
    requires pos < Total(lengths)
    ensures Holds(lengths, c, pos)
  {
    Locate(lengths, pos, |lengths|)
  }

  lemma {:induction false} PosOfPrefix(left: seq<nat>, right: seq<nat>, c: nat)
    requires c <= |left|
    ensures Pos(left + right, c) == Pos(left, c)
  {
    if c > 0 {
      PosOfPrefix(left, right, c - 1);
    }
  }

  lemma {:induction false} PosOfSuffix(left: seq<nat>, right: seq<nat>, c: nat)
    requires c <= |right|
    ensures Pos(left + right, |left| + c) == Total(left) + Pos(right, c)
  {
    if c == 0 {
      PosOfPrefix(left, right, |left|);
    } else {
      PosOfSuffix(left, right, c - 1);
    }
  }
}
