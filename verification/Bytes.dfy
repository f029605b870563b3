/** Byte strings and the concatenation of a sequence of chunks. */
module Bytes {

  type Byte = b: int | 0 <= b < 256

  type Chunk = seq<Byte>

  function Concat(parts: seq<Chunk>): Chunk {
    if parts == [] then [] else parts[0] + Concat(parts[1..])
  }

  /** The bytes held by a sequence of chunks. */
  function Size(parts: seq<Chunk>): nat {
    if parts == [] then 0 else |parts[0]| + Size(parts[1..])
  }

  lemma {:induction false} ConcatSplit(left: seq<Chunk>, right: seq<Chunk>)
    ensures Concat(left + right) == Concat(left) + Concat(right)
    ensures Size(left + right) == Size(left) + Size(right)
  {
    if left == [] {
      assert left + right == right;
    } else {
      assert (left + right)[1..] == left[1..] + right;
      ConcatSplit(left[1..], right);
    }
  }

  lemma {:induction false} ConcatAppend(parts: seq<Chunk>, last: Chunk)
    ensures Concat(parts + [last]) == Concat(parts) + last
    ensures Size(parts + [last]) == Size(parts) + |last|
  {
    ConcatSplit(parts, [last]);
    assert Concat([last]) == last + Concat([]);
    assert Size([last]) == |last|;
  }

  lemma {:induction false} ConcatLength(parts: seq<Chunk>)
    ensures |Concat(parts)| == Size(parts)
  {
    if parts != [] {
      ConcatLength(parts[1..]);
    }
  }

  lemma {:induction false} SizeAtLeastCount(parts: seq<Chunk>, least: nat)
    requires forall i :: 0 <= i < |parts| ==> |parts[i]| >= least
    ensures Size(parts) >= least * |parts|
  {
    if parts != [] {
      SizeAtLeastCount(parts[1..], least);
      assert least * |parts| == least + least * (|parts| - 1);
    }
  }
}
