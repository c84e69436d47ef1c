/** The swap module: a file of fixed-size blocks, read and overwritten a block at a time (swap/src/main.c). */
module SwapFiles {
  import opened Base
  import opened SwapBlocks

  lemma BlockFits(b: nat, blocks: nat, blockSize: nat)
    requires b < blocks
    ensures b * blockSize + blockSize <= blocks * blockSize
  {
    assert (b + 1) * blockSize <= blocks * blockSize;
  }

  lemma BlocksApart(b: nat, c: nat, blockSize: nat)
    requires b < c
    ensures b * blockSize + blockSize <= c * blockSize
  {
    BlockFits(b, c, blockSize);
  }

  lemma ReadBlocksStep(stored: seq<seq<byte>>, list: seq<nat>, size: nat, blockSize: nat, data: seq<byte>)
    requires IsFile(stored, blockSize) && list != []
    requires forall i | 0 <= i < |list| :: list[i] < |stored|
    ensures var n := ChunkSize(size, blockSize);
      data + ReadBlocks(stored, list, size, blockSize)
        == (data + stored[list[0]][..n]) + ReadBlocks(stored, list[1..], size - n, blockSize)
  {
  }

  class SwapFile {
    const blockSize: nat
    const blocks: nat
    const file: array<byte>

    ghost predicate Valid() {
      blockSize > 0 && blocks * blockSize <= file.Length
    }

    ghost function Block(b: nat): (r: seq<byte>)
      requires Valid() && b < blocks
      reads file
      ensures |r| == blockSize
    {
      BlockFits(b, blocks, blockSize);
      file[b * blockSize..b * blockSize + blockSize]
    }

    ghost function Blocks(): (r: seq<seq<byte>>)
      requires Valid()
      reads file
      ensures |r| == blocks && IsFile(r, blockSize)
      ensures forall b | 0 <= b < blocks :: r[b] == Block(b)
    {
      seq(blocks, b requires 0 <= b < blocks reads file => Block(b))
    }

    constructor (blockSize: nat, size: nat)
      requires blockSize > 0
      ensures Valid() && fresh(file) && this.blockSize == blockSize && blocks == size / blockSize
    {
      this.blockSize := blockSize;
      this.blocks := size / blockSize;
      file := new byte[size](_ => 0);
      new;
      assert size / blockSize * blockSize <= size;
    }

    /** `handle_block_read` */
    method ReadBlock(b: nat) returns (data: seq<byte>)
      requires Valid() && b < blocks
      ensures data == Blocks()[b]
    {
      BlockFits(b, blocks, blockSize);
      data := file[b * blockSize..b * blockSize + blockSize];
    }

    /** `handle_block_write` */
    method WriteBlock(b: nat, data: seq<byte>)
      requires Valid() && b < blocks && |data| == blockSize
      modifies file
      ensures Blocks() == old(Blocks())[b := data]
    {
      BlockFits(b, blocks, blockSize);
      var at := b * blockSize;
      forall i | 0 <= i < blockSize {
        file[at + i] := data[i];
      }
      assert Block(b) == data;
      forall c | 0 <= c < blocks && c != b ensures Block(c) == old(Block(c)) {
        BlockFits(c, blocks, blockSize);
        if c < b {
          BlocksApart(c, b, blockSize);
        } else {
          BlocksApart(b, c, blockSize);
        }
      }
    }

    /** `write_segment_to_swap` */
    method WriteSegment(list: seq<nat>, data: seq<byte>)
      requires Valid()
      requires forall i | 0 <= i < |list| :: list[i] < blocks
      modifies file
      ensures Blocks() == WriteBlocks(old(Blocks()), list, data, blockSize)
    {
      var done := 0;
      for i := 0 to |list|
        invariant done <= |data|
        invariant WriteBlocks(Blocks(), list[i..], data[done..], blockSize)
            == WriteBlocks(old(Blocks()), list, data, blockSize)
      {
        var chunk := blockSize;
        if done + chunk > |data| {
          chunk := |data| - done;
        }
        assert data[done..][..chunk] == data[done..done + chunk] && data[done..][chunk..] == data[done + chunk..];
        WriteBlock(list[i], data[done..done + chunk] + seq(blockSize - chunk, _ => 0));
        done := done + chunk;
      }
    }

    /** `read_segment_from_swap` */
    method ReadSegment(list: seq<nat>, size: nat) returns (data: seq<byte>)
      requires Valid()
      requires forall i | 0 <= i < |list| :: list[i] < blocks
      ensures data == ReadBlocks(Blocks(), list, size, blockSize)
    {
      var done := 0;
      data := [];
      ghost var stored := Blocks();
      for i := 0 to |list|
        invariant done <= size && Blocks() == stored
        invariant data + ReadBlocks(stored, list[i..], size - done, blockSize)
            == ReadBlocks(stored, list, size, blockSize)
      {
        var buffer := ReadBlock(list[i]);
        var chunk := blockSize;
        if done + chunk > size {
          chunk := size - done;
        }
        ReadBlocksStep(stored, list[i..], size - done, blockSize, data);
        data := data + buffer[..chunk];
        done := done + chunk;
      }
      assert data + [] == data;
    }
  }
}
