/** Bytes, and the concatenation of byte blocks, shared by the framing, parsing and transport models. */
module Bytes {
  type byte = x: int | 0 <= x < 256

  datatype Option<+T> = None | Some(value: T)

  datatype Result<+T, +E> = Success(value: T) | Failure(error: E)

  /** The blocks joined end to end. */
  function Flatten(blocks: seq<seq<byte>>): (joined: seq<byte>) {
    if blocks == [] then [] else blocks[0] + Flatten(blocks[1..])
  }

  lemma {:induction false} FlattenAppend(a: seq<seq<byte>>, b: seq<seq<byte>>)
    ensures Flatten(a + b) == Flatten(a) + Flatten(b)
  {
    if a == [] {
      assert a + b == b;
    } else {
      assert (a + b)[0] == a[0];
      assert (a + b)[1..] == a[1..] + b;
      FlattenAppend(a[1..], b);
    }
  }

  lemma FlattenSnoc(blocks: seq<seq<byte>>, block: seq<byte>)
    ensures Flatten(blocks + [block]) == Flatten(blocks) + block
  {
    FlattenAppend(blocks, [block]);
    assert Flatten([block]) == block + Flatten([]);
  }

  /** How many whole blocks fit in the first n bytes of their concatenation. */
  function WholeBlocks(blocks: seq<seq<byte>>, n: nat): (count: nat)
    ensures count <= |blocks|
  {
    if blocks == [] || n < |blocks[0]| then 0 else 1 + WholeBlocks(blocks[1..], n - |blocks[0]|)
  }

  /** A prefix of the joined blocks is some whole blocks and a proper prefix of the next. */
  lemma {:induction false} PrefixSplits(blocks: seq<seq<byte>>, data: seq<byte>)
    returns (tail: seq<byte>)
    requires data <= Flatten(blocks)
    ensures var k := WholeBlocks(blocks, |data|);
      && data == Flatten(blocks[..k]) + tail
      && (if k == |blocks| then tail == [] else tail <= blocks[k] && |tail| < |blocks[k]|)
  {
    if blocks == [] || |data| < |blocks[0]| {
      tail := data;
      assert Flatten(blocks[..0]) + tail == data;
      if blocks != [] {
        PrefixOfFirst(blocks[0], Flatten(blocks[1..]), data);
      }
    } else {
      var rest := data[|blocks[0]|..];
      PrefixOfFirst(blocks[0], Flatten(blocks[1..]), data);
      tail := PrefixSplits(blocks[1..], rest);
      var k := WholeBlocks(blocks[1..], |rest|);
      assert blocks[..k + 1] == [blocks[0]] + blocks[1..][..k];
      FlattenAppend([blocks[0]], blocks[1..][..k]);
      assert Flatten([blocks[0]]) == blocks[0] + Flatten([]);
      assert data == blocks[0] + (Flatten(blocks[1..][..k]) + tail);
    }
  }

  lemma PrefixOfFirst(first: seq<byte>, others: seq<byte>, data: seq<byte>)
    requires data <= first + others
    ensures if |data| < |first| then data <= first else data == first + data[|first|..] && data[|first|..] <= others
  {
  }

  lemma {:induction false} WholeListFits(blocks: seq<seq<byte>>)
    ensures WholeBlocks(blocks, |Flatten(blocks)|) == |blocks|
  {
    if blocks != [] {
      WholeListFits(blocks[1..]);
    }
  }
}
