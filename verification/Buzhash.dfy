/**
 The rolling hash of the chunk maker.

 A 64-bit word is the set of its one bits, bit 0 being the least significant, so the machine's shifts,
 or, exclusive or and and become plain set operations. `Sum` is the hash of a window computed from scratch;
 `Update` moves the window by one byte. Rolling is exact for every window length, in particular for
 multiples of 64, where the contribution of the outgoing byte has been rotated all the way round.
 */
module Buzhash {
  import opened ByteStreams

  type Word = bits: set<int> | forall i <- bits :: 0 <= i < 64

  const ZERO: Word := {}

  type Table = t: seq<Word> | |t| == 256 witness seq(256, i => ZERO)

  function ShiftLeft(value: Word, n: nat): (r: Word) {
    set i <- value | i + n < 64 :: i + n
  }

  function ShiftRight(value: Word, n: nat): (r: Word) {
    set i <- value | i >= n :: i - n
  }

  function Xor(a: Word, b: Word): (r: Word) {
    (a - b) + (b - a)
  }

  function RotateLeftByOne(value: Word): (r: Word) {
    ShiftLeft(value, 1) + ShiftRight(value, 63)
  }

  function RotateBy(value: Word, k: nat): (r: Word)
    requires k < 64
  {
    ShiftLeft(value, k) + ShiftRight(value, 64 - k)
  }

  function RotateLeft(value: Word, n: nat): (r: Word) {
    RotateBy(value, n % 64)
  }

  function SumFrom(table: Table, sum: Word, data: seq<byte>): (r: Word) {
    if data == [] then sum
    else Xor(RotateLeftByOne(SumFrom(table, sum, data[..|data| - 1])), table[data[|data| - 1]])
  }

  function Sum(table: Table, data: seq<byte>): (r: Word) {
    SumFrom(table, ZERO, data)
  }

  function Update(table: Table, sum: Word, outgoing: byte, incoming: byte, length: nat): (r: Word) {
    Xor(Xor(RotateLeftByOne(sum), RotateLeft(table[outgoing], length)), table[incoming])
  }

  // ---------- rotation ----------

  /** Rotating left by `k` moves bit `i` to bit `i + k` modulo 64. */
  lemma RotationBits(value: Word, k: nat, j: int)
    requires 0 <= j < 64 && k < 64
    ensures j in RotateBy(value, k) <==> (if j >= k then j - k else j - k + 64) in value
  {
    if j >= k {
      assert j - k in value ==> j in ShiftLeft(value, k);
    } else {
      assert j - k + 64 in value ==> j in ShiftRight(value, 64 - k);
    }
  }

  lemma XorBits(a: Word, b: Word, j: int)
    ensures j in Xor(a, b) <==> (j in a) != (j in b)
  {
  }

  lemma RotationByOneBits(value: Word, j: int)
    requires 0 <= j < 64
    ensures j in RotateLeftByOne(value) <==> (if j == 0 then 63 else j - 1) in value
  {
    if j == 0 {
      assert 63 in value ==> 0 in ShiftRight(value, 63);
    } else {
      assert j - 1 in value ==> j in ShiftLeft(value, 1);
    }
  }

  lemma RotationStepBit(value: Word, k: nat, j: int)
    requires 0 <= j < 64 && k < 64
    ensures j in RotateLeftByOne(RotateBy(value, k)) <==> j in RotateBy(value, if k == 63 then 0 else k + 1)
  {
    RotationByOneBits(RotateBy(value, k), j);
    RotationBits(value, k, if j == 0 then 63 else j - 1);
    RotationBits(value, if k == 63 then 0 else k + 1, j);
  }

  lemma RotationStep(value: Word, n: nat)
    ensures RotateLeftByOne(RotateLeft(value, n)) == RotateLeft(value, n + 1)
  {
    var k := n % 64;
    assert (n + 1) % 64 == if k == 63 then 0 else k + 1;
    forall j: int | 0 <= j < 64
      ensures j in RotateLeftByOne(RotateBy(value, k)) <==> j in RotateBy(value, if k == 63 then 0 else k + 1)
    {
      RotationStepBit(value, k, j);
    }
  }

  lemma RotationByNothing(value: Word)
    ensures RotateLeft(value, 0) == value
  {
    forall j: int | 0 <= j < 64 ensures j in RotateBy(value, 0) <==> j in value {
      RotationBits(value, 0, j);
    }
  }

  lemma RotationOfXor(a: Word, b: Word)
    ensures RotateLeftByOne(Xor(a, b)) == Xor(RotateLeftByOne(a), RotateLeftByOne(b))
  {
    forall j: int | 0 <= j < 64
      ensures j in RotateLeftByOne(Xor(a, b)) <==> j in Xor(RotateLeftByOne(a), RotateLeftByOne(b))
    {
      RotationByOneBits(Xor(a, b), j);
      RotationByOneBits(a, j);
      RotationByOneBits(b, j);
    }
  }

  // ---------- sums ----------

  /** The sum starts at zero, and one byte adds its table entry. */
  lemma SumOfOne(table: Table, b: byte)
    ensures Sum(table, []) == {} && Sum(table, [b]) == table[b]
  {
    assert [b][..0] == [];
    assert SumFrom(table, ZERO, []) == ZERO;
    assert RotateLeftByOne({}) == {};
  }

  lemma {:induction false} SumFromConcat(table: Table, sum: Word, left: seq<byte>, right: seq<byte>)
    ensures SumFrom(table, sum, left + right) == SumFrom(table, SumFrom(table, sum, left), right)
  {
    if right == [] {
      assert left + right == left;
    } else {
      SumFromConcat(table, sum, left, right[..|right| - 1]);
      var all := left + right;
      assert all[..|all| - 1] == left + right[..|right| - 1] && all[|all| - 1] == right[|right| - 1];
    }
  }

  /** The first byte of a window contributes its table entry, rotated once for every byte after it. */
  lemma {:induction false} FirstByte(table: Table, first: byte, rest: seq<byte>)
    ensures Sum(table, [first] + rest) == Xor(RotateLeft(table[first], |rest|), Sum(table, rest))
  {
    var all := [first] + rest;
    if rest == [] {
      assert all == [first] && all[..0] == [];
      assert Sum(table, []) == ZERO && RotateLeftByOne(ZERO) == ZERO;
      RotationByNothing(table[first]);
    } else {
      var front, last := rest[..|rest| - 1], rest[|rest| - 1];
      FirstByte(table, first, front);
      assert all[..|all| - 1] == [first] + front && all[|all| - 1] == last;
      RotationOfXor(RotateLeft(table[first], |front|), Sum(table, front));
      RotationStep(table[first], |front|);
      XorAssociates(RotateLeft(table[first], |rest|), RotateLeftByOne(Sum(table, front)), table[last]);
    }
  }

  lemma XorAssociates(a: Word, b: Word, c: Word)
    ensures Xor(Xor(a, b), c) == Xor(a, Xor(b, c))
  {
  }

  lemma XorCancels(a: Word, b: Word)
    ensures Xor(Xor(a, b), a) == b
  {
  }

  /** Rolling the window by one byte gives the sum of the new window. */
  lemma Rolling(table: Table, window: seq<byte>, incoming: byte)
    requires window != []
    ensures Update(table, Sum(table, window), window[0], incoming, |window|) == Sum(table, window[1..] + [incoming])
  {
    var rest := window[1..];
    var out := RotateLeft(table[window[0]], |rest|);
    assert window == [window[0]] + rest;
    FirstByte(table, window[0], rest);
    RotationOfXor(out, Sum(table, rest));
    RotationStep(table[window[0]], |rest|);
    XorCancels(RotateLeftByOne(out), RotateLeftByOne(Sum(table, rest)));
    var next := rest + [incoming];
    assert next[..|next| - 1] == rest && next[|next| - 1] == incoming;
  }

  /** The loop of the source: one rotation and one table entry per byte. */
  method BuzhashSum(table: Table, start: Word, data: seq<byte>) returns (sum: Word)
    ensures sum == SumFrom(table, start, data)
  {
    sum := start;
    for i := 0 to |data|
      invariant sum == SumFrom(table, start, data[..i])
    {
      assert data[..i + 1][..i] == data[..i];
      sum := Xor(RotateLeftByOne(sum), table[data[i]]);
    }
    assert data[..|data|] == data;
  }
}
