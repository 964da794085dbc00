/** How the quantisers fill their buffer, batch by batch (convert_escha_to_gguf.py:253-308, 311-369, 372-428). */
module BlockBatches {
  import opened BlockPacking

  function RowOf(a: array2<Byte>, r: nat): (row: seq<Byte>)
    requires r < a.Length0
    reads a
    ensures |row| == a.Length1
  {
    seq(a.Length1, k requires 0 <= k < a.Length1 reads a => a[r, k])
  }

  // The blocks that `pack` is meant for, all packed to `size` bytes.
  ghost predicate Packable<B(!new)>(blocks: seq<B>, size: nat, pack: B --> seq<Byte>) {
    forall r :: 0 <= r < |blocks| ==> pack.requires(blocks[r]) && |pack(blocks[r])| == size
  }

  // Row `r` of the buffer is the packed form of block `r`, whatever the batch size.
  method PackInBatches<B(!new)>(blocks: seq<B>, size: nat, pack: B --> seq<Byte>, batchBlocks: nat)
    returns (packed: array2<Byte>)
    requires batchBlocks > 0 && Packable(blocks, size, pack)
    ensures fresh(packed) && packed.Length0 == |blocks| && packed.Length1 == size
    ensures forall r :: 0 <= r < |blocks| ==> RowOf(packed, r) == pack(blocks[r])
  {
    packed := new Byte[|blocks|, size];
    var block0 := 0;
    while block0 < |blocks|
      invariant forall r, k :: 0 <= r < block0 && r < |blocks| && 0 <= k < size ==>
                  packed[r, k] == pack(blocks[r])[k]
      decreases |blocks| - block0
    {
      var end := if block0 + batchBlocks < |blocks| then block0 + batchBlocks else |blocks|;
      forall r, k | block0 <= r < end && 0 <= k < size {
        packed[r, k] := pack(blocks[r])[k];
      }
      block0 := block0 + batchBlocks;
    }
  }

  // The three layouts: every row is the packing of its block, and ggml's reader gets that block back from it.

  method PackQ2Blocks(blocks: seq<Q2Block>, batchBlocks: nat) returns (packed: array2<Byte>)
    requires batchBlocks > 0 && forall r :: 0 <= r < |blocks| ==> ValidQ2(blocks[r])
    ensures fresh(packed) && packed.Length0 == |blocks| && packed.Length1 == 84
    ensures forall r :: 0 <= r < |blocks| ==>
              RowOf(packed, r) == PackQ2(blocks[r]) && UnpackQ2(RowOf(packed, r)) == blocks[r]
  {
    hide ValidQ2;
    packed := PackInBatches(blocks, 84, PackQ2, batchBlocks);
    forall r | 0 <= r < |blocks|
      ensures UnpackQ2(PackQ2(blocks[r])) == blocks[r]
    {
      Q2RoundTrip(blocks[r]);
    }
  }

  method PackQ4Blocks(blocks: seq<Q4Block>, batchBlocks: nat) returns (packed: array2<Byte>)
    requires batchBlocks > 0 && forall r :: 0 <= r < |blocks| ==> ValidQ4(blocks[r])
    ensures fresh(packed) && packed.Length0 == |blocks| && packed.Length1 == 144
    ensures forall r :: 0 <= r < |blocks| ==>
              RowOf(packed, r) == PackQ4(blocks[r]) && UnpackQ4(RowOf(packed, r)) == blocks[r]
  {
    hide ValidQ4;
    packed := PackInBatches(blocks, 144, PackQ4, batchBlocks);
    forall r | 0 <= r < |blocks|
      ensures UnpackQ4(PackQ4(blocks[r])) == blocks[r]
    {
      Q4RoundTrip(blocks[r]);
    }
  }

  method PackQ6Blocks(blocks: seq<Q6Block>, batchBlocks: nat) returns (packed: array2<Byte>)
    requires batchBlocks > 0 && forall r :: 0 <= r < |blocks| ==> ValidQ6(blocks[r])
    ensures fresh(packed) && packed.Length0 == |blocks| && packed.Length1 == 210
    ensures forall r :: 0 <= r < |blocks| ==>
              RowOf(packed, r) == PackQ6(blocks[r]) && UnpackQ6(RowOf(packed, r)) == blocks[r]
  {
    hide ValidQ6;
    packed := PackInBatches(blocks, 210, PackQ6, batchBlocks);
    forall r | 0 <= r < |blocks|
      ensures UnpackQ6(PackQ6(blocks[r])) == blocks[r]
    {
      Q6RoundTrip(blocks[r]);
    }
  }
}
