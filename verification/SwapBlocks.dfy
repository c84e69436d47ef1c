/**
 Swapped-out segments in the fixed-size blocks of the swap file
 (kernel_memory/src/memory_manage.c, swap/src/main.c).
*/
module SwapBlocks {
  import opened Base

  /** `t_suspended_segment` and `t_suspended_pcb`. */
  datatype Piece = Piece(id: u32, size: nat, blocks: seq<nat>)
  datatype Parked = Parked(pid: nat, pieces: seq<Piece>)

  /** The swap file as its blocks of `blockSize` bytes. */
  ghost predicate IsFile(file: seq<seq<byte>>, blockSize: nat) {
    blockSize > 0 && forall b | 0 <= b < |file| :: |file[b]| == blockSize
  }

  function BlocksNeeded(size: nat, blockSize: nat): nat
    requires blockSize > 0
  {
    (size + blockSize - 1) / blockSize
  }

  lemma DivUnique(x: nat, d: nat, q: nat)
    requires d > 0 && q * d <= x < q * d + d
    ensures x / d == q
  {
    var r := x / d;
    assert r * d <= x < r * d + d;
    assert r < q ==> (r + 1) * d <= q * d;
    assert q < r ==> (q + 1) * d <= r * d;
  }

  lemma BlocksNeededStep(size: nat, blockSize: nat)
    requires blockSize > 0
    ensures BlocksNeeded(size, blockSize) == 0 <==> size == 0
    ensures 0 < size <= blockSize ==> BlocksNeeded(size, blockSize) == 1
    ensures size > blockSize ==> BlocksNeeded(size, blockSize) == 1 + BlocksNeeded(size - blockSize, blockSize)
  {
    if size == 0 {
      DivUnique(blockSize - 1, blockSize, 0);
    } else if size <= blockSize {
      DivUnique(size + blockSize - 1, blockSize, 1);
    } else {
      var q := BlocksNeeded(size - blockSize, blockSize);
      assert q * blockSize <= size - 1 < q * blockSize + blockSize;
      assert (q + 1) * blockSize == q * blockSize + blockSize;
      DivUnique(size + blockSize - 1, blockSize, q + 1);
    }
  }

  function ChunkSize(left: nat, blockSize: nat): nat {
    if blockSize > left then left else blockSize
  }

  /** A block buffer: the chunk followed by zeros (`calloc`, then `memcpy`). */
  function Padded(chunk: seq<byte>, blockSize: nat): seq<byte>
    requires |chunk| <= blockSize
  {
    chunk + seq(blockSize - |chunk|, _ => 0)
  }

  /** `write_segment_to_swap`: the file after `data` went to `blocks`, one chunk a block. */
  function WriteBlocks(file: seq<seq<byte>>, blocks: seq<nat>, data: seq<byte>, blockSize: nat): (r: seq<seq<byte>>)
    requires forall i | 0 <= i < |blocks| :: blocks[i] < |file|
    ensures |r| == |file|
    decreases |blocks|
  {
    if blocks == [] then file
    else
      var n := ChunkSize(|data|, blockSize);
      WriteBlocks(file[blocks[0] := Padded(data[..n], blockSize)], blocks[1..], data[n..], blockSize)
  }

  /** `read_segment_from_swap`: `size` bytes out of `blocks`, one chunk a block. */
  function ReadBlocks(file: seq<seq<byte>>, blocks: seq<nat>, size: nat, blockSize: nat): seq<byte>
    requires IsFile(file, blockSize)
    requires forall i | 0 <= i < |blocks| :: blocks[i] < |file|
    decreases |blocks|
  {
    if blocks == [] then []
    else
      var n := ChunkSize(size, blockSize);
      file[blocks[0]][..n] + ReadBlocks(file, blocks[1..], size - n, blockSize)
  }

  lemma {:induction false} ReadBlocksFrame(
    file: seq<seq<byte>>, file': seq<seq<byte>>, blocks: seq<nat>, size: nat, blockSize: nat)
    requires IsFile(file, blockSize) && IsFile(file', blockSize) && |file| == |file'|
    requires forall i | 0 <= i < |blocks| :: blocks[i] < |file| && file'[blocks[i]] == file[blocks[i]]
    ensures ReadBlocks(file', blocks, size, blockSize) == ReadBlocks(file, blocks, size, blockSize)
    decreases |blocks|
  {
    if blocks != [] {
      ReadBlocksFrame(file, file', blocks[1..], size - ChunkSize(size, blockSize), blockSize);
    }
  }

  lemma {:induction false} ReadBlocksSize(file: seq<seq<byte>>, blocks: seq<nat>, size: nat, blockSize: nat)
    requires IsFile(file, blockSize) && |blocks| == BlocksNeeded(size, blockSize)
    requires forall i | 0 <= i < |blocks| :: blocks[i] < |file|
    ensures |ReadBlocks(file, blocks, size, blockSize)| == size
    decreases |blocks|
  {
    BlocksNeededStep(size, blockSize);
    if blocks != [] {
      BlocksNeededStep(0, blockSize);
      ReadBlocksSize(file, blocks[1..], size - ChunkSize(size, blockSize), blockSize);
    }
  }

  lemma {:induction false} WriteBlocksFrame(file: seq<seq<byte>>, blocks: seq<nat>, data: seq<byte>, blockSize: nat)
    requires IsFile(file, blockSize)
    requires forall i | 0 <= i < |blocks| :: blocks[i] < |file|
    ensures IsFile(WriteBlocks(file, blocks, data, blockSize), blockSize)
    ensures forall b | 0 <= b < |file| && b !in blocks :: WriteBlocks(file, blocks, data, blockSize)[b] == file[b]
    decreases |blocks|
  {
    if blocks != [] {
      var n := ChunkSize(|data|, blockSize);
      WriteBlocksFrame(file[blocks[0] := Padded(data[..n], blockSize)], blocks[1..], data[n..], blockSize);
      assert blocks == [blocks[0]] + blocks[1..];
    }
  }

  /** Reading the blocks back returns what was written, whatever the size of the last block's part. */
  lemma {:induction false} SwapRoundTrip(file: seq<seq<byte>>, blocks: seq<nat>, data: seq<byte>, blockSize: nat)
    requires IsFile(file, blockSize) && NoDuplicates(blocks) && |blocks| == BlocksNeeded(|data|, blockSize)
    requires forall i | 0 <= i < |blocks| :: blocks[i] < |file|
    ensures IsFile(WriteBlocks(file, blocks, data, blockSize), blockSize)
    ensures ReadBlocks(WriteBlocks(file, blocks, data, blockSize), blocks, |data|, blockSize) == data
    decreases |blocks|
  {
    WriteBlocksFrame(file, blocks, data, blockSize);
    BlocksNeededStep(|data|, blockSize);
    if blocks != [] {
      var n := ChunkSize(|data|, blockSize);
      var file1 := file[blocks[0] := Padded(data[..n], blockSize)];
      BlocksNeededStep(0, blockSize);
      SwapRoundTrip(file1, blocks[1..], data[n..], blockSize);
      WriteBlocksFrame(file1, blocks[1..], data[n..], blockSize);
      assert data[..n] + data[n..] == data;
      assert blocks[0] !in blocks[1..];
    }
  }

  // ---------- get_free_swap_blocks ----------

  function PieceBlocks(pieces: seq<Piece>): set<nat> {
    set i, j | 0 <= i < |pieces| && 0 <= j < |pieces[i].blocks| :: pieces[i].blocks[j]
  }

  function UsedBlocks(parked: seq<Parked>): set<nat> {
    if parked == [] then {} else UsedBlocks(parked[..|parked| - 1]) + PieceBlocks(parked[|parked| - 1].pieces)
  }

  lemma {:induction false} UsedBlocksMember(parked: seq<Parked>, b: nat)
    ensures b in UsedBlocks(parked) <==> exists i | 0 <= i < |parked| :: b in PieceBlocks(parked[i].pieces)
  {
    if parked != [] {
      var last := |parked| - 1;
      UsedBlocksMember(parked[..last], b);
      assert forall i | 0 <= i < last :: parked[..last][i] == parked[i];
      if b in PieceBlocks(parked[last].pieces) {
        assert b in UsedBlocks(parked);
      }
    }
  }

  /** The lowest `needed` blocks that are not in use, from block `from` on. */
  function FreeFrom(used: set<nat>, from: nat, total: nat, needed: nat): seq<nat>
    decreases total - from
  {
    if from >= total || needed == 0 then []
    else if from in used then FreeFrom(used, from + 1, total, needed)
    else [from] + FreeFrom(used, from + 1, total, needed - 1)
  }

  /** They are unused, ascending and as many as asked for, or else all there are; no lower one is skipped. */
  lemma {:induction false} FreeFromExact(used: set<nat>, from: nat, total: nat, needed: nat)
    ensures var r := FreeFrom(used, from, total, needed);
      && |r| <= needed
      && (forall i | 0 <= i < |r| :: from <= r[i] < total && r[i] !in used)
      && (forall i, j | 0 <= i < j < |r| :: r[i] < r[j])
      && (forall b | from <= b < total && b !in used && b !in r :: |r| == needed && forall i | 0 <= i < |r| :: r[i] < b)
    decreases total - from
  {
    if from < total && needed > 0 {
      if from in used {
        FreeFromExact(used, from + 1, total, needed);
      } else {
        FreeFromExact(used, from + 1, total, needed - 1);
        var rest := FreeFrom(used, from + 1, total, needed - 1);
        assert forall b :: b in [from] + rest <==> b == from || b in rest;
      }
    }
  }

  function UnusedFrom(used: set<nat>, from: nat, total: nat): set<nat> {
    set b | from <= b < total && b !in used
  }

  lemma {:induction false} FreeCount(used: set<nat>, from: nat, total: nat, needed: nat)
    ensures var unused := |UnusedFrom(used, from, total)|;
      |FreeFrom(used, from, total, needed)| == if needed <= unused then needed else unused
    decreases total - from
  {
    if from < total && needed > 0 {
      if from in used {
        FreeCount(used, from + 1, total, needed);
        assert UnusedFrom(used, from, total) == UnusedFrom(used, from + 1, total);
      } else {
        FreeCount(used, from + 1, total, needed - 1);
        assert UnusedFrom(used, from, total) == {from} + UnusedFrom(used, from + 1, total);
      }
    } else if from >= total {
      assert UnusedFrom(used, from, total) == {};
    }
  }

  /** Blocks are found exactly when as many are unused. */
  lemma FreeBlocksIff(parked: seq<Parked>, total: nat, needed: nat)
    ensures FreeBlocks(parked, total, needed).Some? <==> needed <= |UnusedFrom(UsedBlocks(parked), 0, total)|
  {
    FreeCount(UsedBlocks(parked), 0, total, needed);
  }

  function FreeBlocks(parked: seq<Parked>, total: nat, needed: nat): (r: Option<seq<nat>>)
    ensures r.Some? ==> |r.value| == needed && NoDuplicates(r.value)
    ensures r.Some? ==> forall i | 0 <= i < needed :: r.value[i] < total && r.value[i] !in UsedBlocks(parked)
  {
    FreeFromExact(UsedBlocks(parked), 0, total, needed);
    var r := FreeFrom(UsedBlocks(parked), 0, total, needed);
    if |r| < needed then None else Some(r)
  }
}
