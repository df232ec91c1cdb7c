/** Bytes, and streams of bytes cut into pieces. */
module ByteStreams {

  newtype byte = x: int | 0 <= x < 256

  type Bytes = seq<byte>

  function Concat(pieces: seq<Bytes>): (s: Bytes) {
    if pieces == [] then [] else Concat(pieces[..|pieces| - 1]) + pieces[|pieces| - 1]
  }

  lemma ConcatAppend(pieces: seq<Bytes>, piece: Bytes)
    ensures Concat(pieces + [piece]) == Concat(pieces) + piece
  {
    var all := pieces + [piece];
    assert all[..|all| - 1] == pieces;
  }

  lemma ConcatOne(piece: Bytes)
    ensures Concat([piece]) == piece
  {
    ConcatAppend([], piece);
    assert [] + [piece] == [piece];
  }

  lemma {:induction false} ConcatSplit(left: seq<Bytes>, right: seq<Bytes>)
    ensures Concat(left + right) == Concat(left) + Concat(right)
  {
    if right == [] {
      assert left + right == left;
    } else {
      var all := left + right;
      ConcatSplit(left, right[..|right| - 1]);
      assert all[..|all| - 1] == left + right[..|right| - 1] && all[|all| - 1] == right[|right| - 1];
    }
  }
}
