/**
 Why a process may be suspended with one segment at most: `process_suspend` asks for free blocks once per
 segment, but the process joins the suspended list only after its last segment is written
 (kernel_memory/src/memory_manage.c:520-585), so all its segments get the same blocks.
*/
module SwapClash {
  import opened Base
  import opened Segments
  import opened SwapBlocks
  import opened SegmentStore
  import opened StoreViews
  import opened StoreSwap

  /** Reading the pieces back from swap yields the segments they were made from. */
  ghost predicate ReadsBack(
    swap: seq<seq<byte>>, pieces: seq<Piece>, mem: seq<byte>, table: seq<Segment>, blockSize: nat)
  {
    && IsFile(swap, blockSize) && |pieces| == |table|
    && forall k | 0 <= k < |table| ::
         && table[k].End() <= |mem|
         && (forall j | 0 <= j < |pieces[k].blocks| :: pieces[k].blocks[j] < |swap|)
         && ReadBlocks(swap, pieces[k].blocks, pieces[k].size, blockSize) == Bytes(mem, table[k])
  }

  /** A suspension in which every segment can be read back. */
  ghost predicate Faithful(cfg: Config, st: Store, pid: nat)
    requires Sound(cfg, st)
  {
    var r := SwapOut(cfg, st, Table(st.segs, pid), st.swap);
    r.1.Some? && ReadsBack(r.0, r.1.value, st.mem, Table(st.segs, pid), cfg.blockSize)
  }

  lemma FirstFreeSame(used: set<nat>, from: nat, total: nat, n: nat, m: nat)
    requires n > 0 && m > 0 && FreeFrom(used, from, total, n) != []
    ensures FreeFrom(used, from, total, m) != []
    ensures FreeFrom(used, from, total, m)[0] == FreeFrom(used, from, total, n)[0]
    decreases total - from
  {
  }

  lemma FirstBlockWritten(file: seq<seq<byte>>, blocks: seq<nat>, data: seq<byte>, blockSize: nat)
    requires IsFile(file, blockSize) && NoDuplicates(blocks) && blocks != [] && data != []
    requires forall i | 0 <= i < |blocks| :: blocks[i] < |file|
    ensures IsFile(WriteBlocks(file, blocks, data, blockSize), blockSize)
    ensures WriteBlocks(file, blocks, data, blockSize)[blocks[0]][0] == data[0]
  {
    var n := ChunkSize(|data|, blockSize);
    var file1 := file[blocks[0] := Padded(data[..n], blockSize)];
    WriteBlocksFrame(file, blocks, data, blockSize);
    WriteBlocksFrame(file1, blocks[1..], data[n..], blockSize);
    assert blocks[0] !in blocks[1..];
  }

  function Last(table: seq<Segment>): Segment
    requires table != []
  {
    table[|table| - 1]
  }

  /** The first block every segment asks for. */
  ghost function FirstBlock(st: Store): nat
    requires FreeFrom(UsedBlocks(st.parked), 0, |st.swap|, 1) != []
  {
    FreeFrom(UsedBlocks(st.parked), 0, |st.swap|, 1)[0]
  }

  /** All segments of the process share their first block, and the last one written owns it in the end. */
  lemma {:induction false} SharedFirstBlock(cfg: Config, st: Store, table: seq<Segment>, swap: seq<seq<byte>>)
    requires IsFile(swap, cfg.blockSize) && |swap| == |st.swap| && table != []
    requires forall k | 0 <= k < |table| :: table[k].base < table[k].End() <= |st.mem|
    requires SwapOut(cfg, st, table, swap).1.Some?
    ensures FreeFrom(UsedBlocks(st.parked), 0, |st.swap|, 1) != []
    ensures IsFile(SwapOut(cfg, st, table, swap).0, cfg.blockSize)
    ensures forall k | 0 <= k < |table| ::
      var piece := SwapOut(cfg, st, table, swap).1.value[k];
      piece.size == table[k].size && piece.blocks != [] && piece.blocks[0] == FirstBlock(st)
    ensures SwapOut(cfg, st, table, swap).0[FirstBlock(st)][0] == st.mem[Last(table).base]
    decreases |table|
  {
    var s := table[0];
    var needed := BlocksNeeded(s.size, cfg.blockSize);
    var blocks := FreeBlocks(st.parked, |st.swap|, needed).value;
    var swap1 := WriteBlocks(swap, blocks, Bytes(st.mem, s), cfg.blockSize);
    BlocksNeededStep(s.size, cfg.blockSize);
    FirstFreeSame(UsedBlocks(st.parked), 0, |st.swap|, needed, 1);
    FirstBlockWritten(swap, blocks, Bytes(st.mem, s), cfg.blockSize);
    if |table| > 1 {
      SharedFirstBlock(cfg, st, table[1..], swap1);
    } else {
      assert table[1..] == [];
      assert SwapOut(cfg, st, table[1..], swap1) == (swap1, Some([]));
    }
  }

  lemma {:induction false} SwapOutSameLayout(
    cfg: Config, st: Store, st': Store, table: seq<Segment>, swap: seq<seq<byte>>, swap': seq<seq<byte>>)
    requires cfg.blockSize > 0 && |swap| == |st.swap| == |swap'| && |st'.mem| == |st.mem|
    requires st'.swap == st.swap && st'.parked == st.parked
    ensures SwapOut(cfg, st', table, swap').1 == SwapOut(cfg, st, table, swap).1
    decreases |table|
  {
    if table != [] {
      var found := FreeBlocks(st.parked, |st.swap|, BlocksNeeded(table[0].size, cfg.blockSize));
      if found.Some? && table[0].End() <= |st.mem| {
        SwapOutSameLayout(cfg, st, st', table[1..],
          WriteBlocks(swap, found.value, Bytes(st.mem, table[0]), cfg.blockSize),
          WriteBlocks(swap', found.value, Bytes(st'.mem, table[0]), cfg.blockSize));
      }
    }
  }

  /** With two segments or more there are memory contents that do not survive: the first byte of the first
      segment is overwritten by the first byte of the last one. */
  lemma ClashLosesBytes(cfg: Config, st: Store, pid: nat) returns (mem: seq<byte>)
    requires Sound(cfg, st) && |Table(st.segs, pid)| >= 2
    requires SwapOut(cfg, st, Table(st.segs, pid), st.swap).1.Some?
    ensures |mem| == |st.mem| && Sound(cfg, st.(mem := mem)) && !Faithful(cfg, st.(mem := mem), pid)
  {
    var table := Table(st.segs, pid);
    var first, last := table[0], table[|table| - 1];
    TablesApart(st.segs, |st.mem|, pid, 0, pid, |table| - 1);
    forall k | 0 <= k < |table| ensures table[k].size > 0 && table[k].End() <= |st.mem| {
      TableInside(st.segs, pid, k, |st.mem|);
    }
    mem := st.mem[first.base := 0][last.base := 1];
    var st' := st.(mem := mem);
    SwapOutSameLayout(cfg, st, st', table, st.swap, st.swap);
    SharedFirstBlock(cfg, st', table, st'.swap);
    var r := SwapOut(cfg, st', table, st'.swap);
    var back := ReadBlocks(r.0, r.1.value[0].blocks, first.size, cfg.blockSize);
    FirstByteRead(r.0, r.1.value[0].blocks, first.size, cfg.blockSize);
    assert back[0] == 1 && Bytes(mem, first)[0] == 0;
  }

  lemma FirstByteRead(file: seq<seq<byte>>, blocks: seq<nat>, size: nat, blockSize: nat)
    requires IsFile(file, blockSize) && blocks != [] && size > 0
    requires forall i | 0 <= i < |blocks| :: blocks[i] < |file|
    ensures ReadBlocks(file, blocks, size, blockSize) != []
    ensures ReadBlocks(file, blocks, size, blockSize)[0] == file[blocks[0]][0]
  {
  }

  /** A suspension that finds the blocks it asks for preserves every possible memory content exactly when the
      process has at most one segment. */
  lemma SuspensionSafeIff(cfg: Config, st: Store, pid: nat)
    requires Sound(cfg, st) && SwapOut(cfg, st, Table(st.segs, pid), st.swap).1.Some?
    ensures (forall mem: seq<byte> | |mem| == |st.mem| ::
        Sound(cfg, st.(mem := mem)) && Faithful(cfg, st.(mem := mem), pid))
       <==> |Table(st.segs, pid)| <= 1
  {
    var table := Table(st.segs, pid);
    if |table| <= 1 {
      forall mem: seq<byte> | |mem| == |st.mem|
        ensures Sound(cfg, st.(mem := mem)) && Faithful(cfg, st.(mem := mem), pid)
      {
        OneSegmentFaithful(cfg, st, st.(mem := mem), pid);
      }
    } else {
      var mem := ClashLosesBytes(cfg, st, pid);
    }
  }

  lemma OneSegmentFaithful(cfg: Config, st: Store, st': Store, pid: nat)
    requires Sound(cfg, st) && SwapOut(cfg, st, Table(st.segs, pid), st.swap).1.Some? && |Table(st.segs, pid)| <= 1
    requires st' == st.(mem := st'.mem) && |st'.mem| == |st.mem|
    ensures Sound(cfg, st') && Faithful(cfg, st', pid)
  {
    var table := Table(st.segs, pid);
    SwapOutSameLayout(cfg, st, st', table, st.swap, st.swap);
    if table == [] {
      assert SwapOut(cfg, st', table, st.swap) == (st.swap, Some([]));
    } else {
      var s := table[0];
      assert table == [s];
      TableInside(st.segs, pid, 0, |st.mem|);
      SwapOutOne(cfg, st', s);
      OnePieceReadsBack(cfg, st', s, FreeBlocks(st.parked, |st.swap|, BlocksNeeded(s.size, cfg.blockSize)).value);
    }
  }

  lemma OnePieceReadsBack(cfg: Config, st: Store, s: Segment, blocks: seq<nat>)
    requires IsFile(st.swap, cfg.blockSize) && s.End() <= |st.mem|
    requires FreeBlocks(st.parked, |st.swap|, BlocksNeeded(s.size, cfg.blockSize)) == Some(blocks)
    ensures ReadsBack(WriteBlocks(st.swap, blocks, Bytes(st.mem, s), cfg.blockSize), [Piece(s.id, s.size, blocks)],
                      st.mem, [s], cfg.blockSize)
  {
    SwapRoundTrip(st.swap, blocks, Bytes(st.mem, s), cfg.blockSize);
  }

  // ---------- resuming several segments ----------

  /** Every piece picks its hole before any of them is in the table
      (kernel_memory/src/memory_manage.c:605-645). */
  lemma {:induction false} ResumedAt(cfg: Config, st: Store, pid: nat, pieces: seq<Piece>, mem: seq<byte>)
    requires IsFile(st.swap, cfg.blockSize) && ReadablePieces(st, pieces) && |mem| == |st.mem|
    requires SwapIn(cfg, st, pid, pieces, mem).1.Some?
    ensures var segs := SwapIn(cfg, st, pid, pieces, mem).1.value;
      && |segs| == |pieces|
      && forall k | 0 <= k < |pieces| ::
        var hole := ChooseHole(cfg, st, pieces[k].size);
        hole.Some? && segs[k] == Segment(pid, pieces[k].id, hole.value.base, pieces[k].size)
    decreases |pieces|
  {
    hide ChooseHole, Overwrite, ReadBlocks;
    if pieces != [] {
      var p := pieces[0];
      var data := ReadBlocks(st.swap, p.blocks, p.size, cfg.blockSize);
      assert ReadablePieces(st, pieces[1..]);
      ResumedAt(cfg, st, pid, pieces[1..], Overwrite(mem, ChooseHole(cfg, st, p.size).value.base, data));
    }
  }

  /** Resumed segments share bytes if and only if the same hole is chosen for both of their sizes. */
  lemma ResumeOverlaps(cfg: Config, st: Store, pid: nat, pieces: seq<Piece>, mem: seq<byte>, i: nat, j: nat)
    requires IsFile(st.swap, cfg.blockSize) && ReadablePieces(st, pieces) && |mem| == |st.mem|
    requires Disjoint(st.segs, |st.mem|) && SwapIn(cfg, st, pid, pieces, mem).1.Some?
    requires i < j < |pieces| && pieces[i].size > 0 && pieces[j].size > 0
    ensures var segs := SwapIn(cfg, st, pid, pieces, mem).1.value;
      && |segs| == |pieces|
      && (Apart(segs[i], segs[j]) <==> ChooseHole(cfg, st, pieces[i].size) != ChooseHole(cfg, st, pieces[j].size))
  {
    hide SwapIn, Holes, Disjoint, ReadablePieces, IsFile;
    ResumedAt(cfg, st, pid, pieces, mem);
    HolesExact(st.segs, |st.mem|);
    var holes := Holes(st.segs, |st.mem|);
    var x, y := Choose(cfg.strategy, holes, pieces[i].size).value, Choose(cfg.strategy, holes, pieces[j].size).value;
    assert x < y ==> holes[x].End() < holes[y].base;
    assert y < x ==> holes[y].End() < holes[x].base;
  }

  /** Worst fit chooses the same hole for every size it can place. */
  lemma WorstSame(holes: seq<Hole>, a: nat, b: nat)
    requires Choose(Worst, holes, a).Some? && Choose(Worst, holes, b).Some?
    ensures Choose(Worst, holes, a) == Choose(Worst, holes, b)
  {
    hide Choose;
    var x, y := Choose(Worst, holes, a).value, Choose(Worst, holes, b).value;
    assert IsChoice(Worst, holes, a, x) && IsChoice(Worst, holes, b, y);
    if a <= b {
      SameWorst(holes, a, b, x, y);
    } else {
      SameWorst(holes, b, a, y, x);
    }
  }

  lemma SameWorst(holes: seq<Hole>, a: nat, b: nat, x: nat, y: nat)
    requires a <= b && IsChoice(Worst, holes, a, x) && IsChoice(Worst, holes, b, y)
    ensures x == y
  {
    assert holes[x].size == holes[y].size;
  }

  /** Best fit chooses different holes for two sizes exactly when some hole fits one and not the other. */
  lemma BestDiffers(holes: seq<Hole>, a: nat, b: nat)
    requires a <= b && Choose(Best, holes, a).Some? && Choose(Best, holes, b).Some?
    ensures Choose(Best, holes, a) != Choose(Best, holes, b) <==> exists h | h in holes :: a <= h.size < b
    ensures Choose(Best, holes, a) != Choose(Best, holes, b) ==>
      holes[Choose(Best, holes, a).value].size < holes[Choose(Best, holes, b).value].size
  {
    hide Choose;
    var x, y := Choose(Best, holes, a).value, Choose(Best, holes, b).value;
    assert IsChoice(Best, holes, a, x) && IsChoice(Best, holes, b, y);
    assert holes[x] in holes;
    if x != y && holes[x].size >= b {
      SameBest(holes, a, b, x, y);
    }
  }

  lemma SameBest(holes: seq<Hole>, a: nat, b: nat, x: nat, y: nat)
    requires a <= b && IsChoice(Best, holes, a, x) && IsChoice(Best, holes, b, y) && holes[x].size >= b
    ensures x == y
  {
    assert holes[x].size == holes[y].size;
  }

  /** So under worst fit any two resumed segments start at the same address, whatever their sizes. */
  lemma ResumeWorst(cfg: Config, st: Store, pid: nat, pieces: seq<Piece>, mem: seq<byte>, i: nat, j: nat)
    requires IsFile(st.swap, cfg.blockSize) && ReadablePieces(st, pieces) && |mem| == |st.mem|
    requires SwapIn(cfg, st, pid, pieces, mem).1.Some? && cfg.strategy == Worst
    requires i < j < |pieces|
    ensures var segs := SwapIn(cfg, st, pid, pieces, mem).1.value;
      |segs| == |pieces| && segs[i].base == segs[j].base
  {
    hide SwapIn, Holes, Choose, ReadablePieces, IsFile;
    ResumedAt(cfg, st, pid, pieces, mem);
    WorstSame(Holes(st.segs, |st.mem|), pieces[i].size, pieces[j].size);
  }

  /** And under best fit two of them are apart exactly when some hole fits the smaller and not the larger. */
  lemma ResumeBest(cfg: Config, st: Store, pid: nat, pieces: seq<Piece>, mem: seq<byte>, i: nat, j: nat)
    requires IsFile(st.swap, cfg.blockSize) && ReadablePieces(st, pieces) && |mem| == |st.mem|
    requires Disjoint(st.segs, |st.mem|) && SwapIn(cfg, st, pid, pieces, mem).1.Some? && cfg.strategy == Best
    requires i < j < |pieces| && pieces[i].size > 0 && pieces[j].size > 0
    ensures var (segs, a, b) := (SwapIn(cfg, st, pid, pieces, mem).1.value, pieces[i].size, pieces[j].size);
      && |segs| == |pieces|
      && (Apart(segs[i], segs[j]) <==>
           exists h | h in Holes(st.segs, |st.mem|) :: (if a <= b then a else b) <= h.size < if a <= b then b else a)
  {
    hide SwapIn, Holes, Choose, ReadablePieces, IsFile, Disjoint;
    ResumedAt(cfg, st, pid, pieces, mem);
    ResumeOverlaps(cfg, st, pid, pieces, mem, i, j);
    var holes, a, b := Holes(st.segs, |st.mem|), pieces[i].size, pieces[j].size;
    if a <= b {
      BestDiffers(holes, a, b);
    } else {
      BestDiffers(holes, b, a);
    }
  }
}
