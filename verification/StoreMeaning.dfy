/**
 What every request does to Kernel Memory, told of the stores before and after it, of free addresses and of
 bytes, and without the functions that serve it.
*/
module StoreMeaning {
  import opened Base
  import opened Segments
  import opened SwapBlocks
  import opened SegmentStore
  import opened StoreViews
  import opened StoreRequests
  import opened StoreSwap
  import opened StoreRuns

  // ---------- where a segment is placed ----------

  /** The `size` bytes from `base` on are free, and no free byte is next to them. */
  ghost predicate Gap(st: Store, base: nat, size: nat) {
    && size > 0 && FreeRun(st, base, size)
    && (base > 0 ==> !Free(st.segs, base - 1))
    && (base + size < |st.mem| ==> !Free(st.segs, base + size))
  }

  /** Of two gaps the smaller, under best fit, or the larger, under worst fit; of two equal ones the lower. */
  ghost predicate Better(strategy: Strategy, base: nat, size: nat, base': nat, size': nat) {
    if size == size' then base < base'
    else match strategy case Best => size < size' case Worst => size > size'
  }

  /** At `base` begins the gap of at least `size` bytes that is better than all others. */
  ghost predicate Picks(cfg: Config, st: Store, size: nat, base: nat) {
    exists gap: nat :: Gap(st, base, gap) && size <= gap && Beats(cfg, st, size, base, gap)
  }

  ghost predicate Beats(cfg: Config, st: Store, size: nat, base: nat, gap: nat) {
    forall b: nat, g: nat | Gap(st, b, g) && size <= g && b != base :: Better(cfg.strategy, base, gap, b, g)
  }

  lemma GapIsHole(st: Store, base: nat, size: nat)
    requires Disjoint(st.segs, |st.mem|) && Gap(st, base, size)
    ensures Hole(base, size) in Holes(st.segs, |st.mem|)
  {
    hide Holes, Disjoint, Free;
    var holes := Holes(st.segs, |st.mem|);
    HolesExact(st.segs, |st.mem|);
    var i := RunInHole(holes, |st.mem|, base, size);
    forall a | holes[i].base <= a < holes[i].End() ensures Free(st.segs, a) {
      assert holes[i].Holds(a) && InHoles(holes, a);
    }
    assert holes[i] == Hole(base, size);
  }

  lemma HoleIsGap(st: Store, i: nat)
    requires Disjoint(st.segs, |st.mem|) && i < |Holes(st.segs, |st.mem|)|
    ensures var hole := Holes(st.segs, |st.mem|)[i]; Gap(st, hole.base, hole.size)
  {
    hide Holes, Disjoint, Free;
    var holes := Holes(st.segs, |st.mem|);
    HolesExact(st.segs, |st.mem|);
    forall a | holes[i].base <= a < holes[i].End() ensures Free(st.segs, a) {
      assert holes[i].Holds(a) && InHoles(holes, a);
    }
    forall j | 0 <= j < |holes| ensures !holes[j].Holds(holes[i].End()) {
      assert i < j ==> holes[i].End() < holes[j].base;
    }
    forall j | 0 <= j < |holes| ensures holes[i].base > 0 ==> !holes[j].Holds(holes[i].base - 1) {
      assert j < i ==> holes[j].End() < holes[i].base;
    }
  }

  /** The hole the allocator takes is the gap of the configured fit. */
  lemma ChosenIsPicked(cfg: Config, st: Store, size: nat)
    requires Disjoint(st.segs, |st.mem|) && ChooseHole(cfg, st, size).Some?
    ensures Picks(cfg, st, size, ChooseHole(cfg, st, size).value.base)
  {
    hide Holes, Choose, Disjoint, Gap;
    var holes := Holes(st.segs, |st.mem|);
    HolesExact(st.segs, |st.mem|);
    var i := Choose(cfg.strategy, holes, size).value;
    HoleIsGap(st, i);
    forall b: nat, g: nat | Gap(st, b, g) && size <= g && b != holes[i].base
      ensures Better(cfg.strategy, holes[i].base, holes[i].size, b, g)
    {
      GapIsHole(st, b, g);
      var j :| 0 <= j < |holes| && holes[j] == Hole(b, g);
      assert j < i ==> holes[j].End() < holes[i].base;
      assert i < j ==> holes[i].End() < holes[j].base;
    }
  }

  /** A segment of the process is added where the configured fit puts it; nothing else changes. */
  ghost predicate Adds(cfg: Config, st: Store, st': Store, pid: nat, id: u32, size: nat) {
    pid in st.pids && exists base: nat :: Picks(cfg, st, size, base) && AddedAt(st, st', Segment(pid, id, base, size))
  }

  predicate AddedAt(st: Store, st': Store, s: Segment) {
    st' == st.(segs := st.segs + [s])
  }

  ghost predicate Places(cfg: Config, st: Store, st': Store, r: Result, pid: nat, id: u32, size: nat) {
    if pid in st.pids && HasRoom(st, size) then r == Ok && Adds(cfg, st, st', pid, id, size)
    else r == Error && st' == st
  }

  lemma PlaceMeans(cfg: Config, st: Store, pid: nat, id: u32, size: nat)
    requires Sound(cfg, st) && size > 0
    ensures var (st', r) := Place(cfg, st, pid, id, size); Places(cfg, st, st', r, pid, id, size)
  {
    hide HasRoom, Picks, Holes, Choose, Disjoint;
    PlaceSucceedsIff(cfg, st, pid, id, size);
    if Place(cfg, st, pid, id, size).1 == Ok {
      ChosenIsPicked(cfg, st, size);
      var base := ChooseHole(cfg, st, size).value.base;
      assert AddedAt(st, Place(cfg, st, pid, id, size).0, Segment(pid, id, base, size));
    }
  }

  /** The request is refused for lack of space, waits for a compaction, or places the segment. */
  ghost predicate Begins(cfg: Config, st: Store, st': Store, r: Result, pid: nat, id: u32, size: nat) {
    if SumSizes(st.segs) + size > |st.mem| then r == NoSpace && st' == st
    else if !HasRoom(st, size) then r == Waits && st' == st
    else Places(cfg, st, st', r, pid, id, size)
  }

  lemma BeginMeans(cfg: Config, st: Store, pid: nat, id: u32, size: nat)
    requires Sound(cfg, st) && size > 0
    ensures var (st', r) := Begin(cfg, st, pid, id, size); Begins(cfg, st, st', r, pid, id, size)
  {
    hide HasRoom, Picks, Holes, Choose, Sound, Place, Adds;
    BeginExact(cfg, st, pid, id, size);
    PlaceMeans(cfg, st, pid, id, size);
    NoRoomFound(cfg, st, size);
  }

  lemma NoRoomFound(cfg: Config, st: Store, size: nat)
    requires Sound(cfg, st) && size > 0
    ensures ChooseHole(cfg, st, size).None? <==> !HasRoom(st, size)
  {
    RoomExact(cfg, st, size);
  }

  /** The segments are a gap-free prefix of memory, as a compaction leaves them; nothing else changes. */
  ghost predicate Compacts(st: Store, st': Store) {
    st' == st.(mem := st'.mem, segs := st'.segs) && IsCompaction(st.mem, st.segs, st'.mem, st'.segs)
  }

  /** An undisturbed creation: if it waits, the segment is placed in the compacted memory. */
  ghost predicate Creates(cfg: Config, st: Store, st': Store, r: Result, pid: nat, id: u32, size: nat) {
    if SumSizes(st.segs) + size > |st.mem| || HasRoom(st, size) then Begins(cfg, st, st', r, pid, id, size)
    else exists st1 :: Compacts(st, st1) && Places(cfg, st1, st', r, pid, id, size)
  }

  lemma CreateMeans(cfg: Config, st: Store, pid: nat, id: u32, size: nat)
    requires Sound(cfg, st) && size > 0
    ensures var (st', r) := Create(cfg, st, pid, id, size); Creates(cfg, st, st', r, pid, id, size)
  {
    hide HasRoom, Begin, Place, Compacted, IsCompaction, Sound, Places;
    BeginExact(cfg, st, pid, id, size);
    BeginMeans(cfg, st, pid, id, size);
    CompactKeepsViews(cfg, st, pid);
    PlaceMeans(cfg, Compact(st), pid, id, size);
    CompactMeans(cfg, st);
  }

  lemma CompactMeans(cfg: Config, st: Store)
    requires Sound(cfg, st)
    ensures Compacts(st, Compact(st))
  {
    CompactionExact(st.mem, st.segs);
  }

  /** After a compaction the new segment lies right behind all others. */
  lemma CompactedPick(cfg: Config, st: Store, st1: Store, size: nat, base: nat)
    requires Sound(cfg, st) && Compacts(st, st1) && Picks(cfg, st1, size, base)
    ensures base == SumSizes(st.segs)
  {
    var gap: nat :| Gap(st1, base, gap);
    assert Free(st1.segs, base);
    assert base > 0 ==> (Free(st1.segs, base - 1) <==> SumSizes(st.segs) <= base - 1);
  }

  // ---------- segments that go ----------

  /** `rest` is `segs` without the segments of `pid`, in the same order. */
  ghost predicate Leaves(segs: seq<Segment>, rest: seq<Segment>, pid: nat) {
    && (forall s :: s in rest <==> s in segs && s.owner != pid)
    && NoDuplicates(rest)
    && forall i, j | 0 <= i < j < |rest| :: Follows(segs, rest[i], rest[j])
  }

  ghost predicate Follows(segs: seq<Segment>, s: Segment, t: Segment) {
    exists a, b | 0 <= a < b < |segs| :: segs[a] == s && segs[b] == t
  }

  lemma {:induction false} OthersMeans(segs: seq<Segment>, pid: nat)
    requires NoDuplicates(segs)
    ensures Leaves(segs, Others(segs, pid), pid)
  {
    if segs != [] {
      var n := |segs| - 1;
      var (front, rest) := (Others(segs[..n], pid), Others(segs, pid));
      OthersMeans(segs[..n], pid);
      OthersWithin(segs, pid);
      forall i, j | 0 <= i < j < |rest| ensures Follows(segs, rest[i], rest[j]) && rest[i] != rest[j] {
        if j < |front| {
          assert Follows(segs[..n], front[i], front[j]);
          var a, b :| 0 <= a < b < |segs[..n]| && segs[..n][a] == front[i] && segs[..n][b] == front[j];
          assert segs[a] == rest[i] && segs[b] == rest[j];
        } else {
          assert front[i] in segs[..n];
          var a :| 0 <= a < n && segs[..n][a] == front[i];
          assert segs[a] == rest[i] && segs[n] == rest[j];
        }
      }
    }
  }

  lemma DisjointDistinct(segs: seq<Segment>, total: nat)
    requires Disjoint(segs, total)
    ensures NoDuplicates(segs)
  {
    forall i, j | 0 <= i < j < |segs| ensures segs[i] != segs[j] {
      assert Apart(segs[i], segs[j]);
    }
  }

  /** The first segment of the process with that id goes, and nothing else changes. */
  ghost predicate Deletes(st: Store, st': Store, r: Result, pid: nat, id: u32) {
    if pid in st.pids && exists k | 0 <= k < |st.segs| :: st.segs[k].owner == pid && st.segs[k].id == id then
      r == Ok && exists k: nat :: DeletedAt(st, st', pid, id, k)
    else r == Error && st' == st
  }

  predicate DeletedAt(st: Store, st': Store, pid: nat, id: u32, k: nat) {
    && k < |st.segs| && st.segs[k].owner == pid && st.segs[k].id == id
    && (forall j | 0 <= j < k :: st.segs[j].owner != pid || st.segs[j].id != id)
    && st' == st.(segs := st.segs[..k] + st.segs[k + 1..])
  }

  lemma DeleteMeans(st: Store, pid: nat, id: u32)
    ensures var (st', r) := Delete(st, pid, id); Deletes(st, st', r, pid, id)
  {
    var (found, st') := (FindSegment(st.segs, pid, id), Delete(st, pid, id).0);
    if found.Some? && pid in st.pids {
      assert DeletedAt(st, st', pid, id, found.value);
    }
  }

  // ---------- swapping ----------

  /** As many blocks as the bytes fill, the last of them in part at least. */
  lemma BlocksExact(size: nat, blockSize: nat)
    requires blockSize > 0
    ensures var n := BlocksNeeded(size, blockSize);
      size <= n * blockSize && (n > 0 ==> (n - 1) * blockSize < size) && (n == 0 <==> size == 0)
  {
    var x := size + blockSize - 1;
    var n := x / blockSize;
    assert x == n * blockSize + x % blockSize;
    assert (n - 1) * blockSize == n * blockSize - blockSize;
    BlocksNeededStep(size, blockSize);
  }

  /** The position in the data of byte `k` of the `i`-th block. */
  function Position(i: nat, k: nat, blockSize: nat): nat {
    i * blockSize + k
  }

  /** The bytes of `data` lie in the blocks, one block after the other, and zeros behind them. */
  ghost predicate Spread(file: seq<seq<byte>>, blocks: seq<nat>, data: seq<byte>, blockSize: nat) {
    forall i: nat, k: nat | i < |blocks| && k < blockSize :: SpreadAt(file, blocks, data, blockSize, i, k)
  }

  ghost predicate SpreadAt(file: seq<seq<byte>>, blocks: seq<nat>, data: seq<byte>, blockSize: nat, i: nat, k: nat)
    requires i < |blocks|
  {
    var at := Position(i, k, blockSize);
    && blocks[i] < |file| && k < |file[blocks[i]]|
    && file[blocks[i]][k] == if at < |data| then data[at] else 0
  }

  lemma {:induction false} WrittenSpread(file: seq<seq<byte>>, blocks: seq<nat>, data: seq<byte>, blockSize: nat)
    requires IsFile(file, blockSize) && NoDuplicates(blocks)
    requires forall i | 0 <= i < |blocks| :: blocks[i] < |file|
    ensures Spread(WriteBlocks(file, blocks, data, blockSize), blocks, data, blockSize)
    decreases |blocks|
  {
    hide Position;
    if blocks != [] {
      var n := ChunkSize(|data|, blockSize);
      var file1 := file[blocks[0] := Padded(data[..n], blockSize)];
      var file' := WriteBlocks(file1, blocks[1..], data[n..], blockSize);
      WrittenSpread(file1, blocks[1..], data[n..], blockSize);
      WriteBlocksFrame(file1, blocks[1..], data[n..], blockSize);
      assert blocks[0] !in blocks[1..];
      forall i: nat, k: nat | i < |blocks| && k < blockSize ensures SpreadAt(file', blocks, data, blockSize, i, k) {
        if i > 0 {
          assert SpreadAt(file', blocks[1..], data[n..], blockSize, i - 1, k);
          PositionNext(i, k, blockSize);
        } else {
          PositionFirst(k, blockSize);
        }
      }
    }
  }

  lemma PositionFirst(k: nat, blockSize: nat)
    ensures Position(0, k, blockSize) == k
  {
  }

  lemma PositionNext(i: nat, k: nat, blockSize: nat)
    requires i > 0
    ensures Position(i, k, blockSize) == Position(i - 1, k, blockSize) + blockSize
  {
  }

  /** Byte `k` of the `i`-th block is byte `i * blockSize + k` of what is read. */
  ghost predicate Gathered(file: seq<seq<byte>>, blocks: seq<nat>, data: seq<byte>, blockSize: nat) {
    forall i: nat, k: nat | i < |blocks| && k < blockSize && Position(i, k, blockSize) < |data| ::
      && blocks[i] < |file| && k < |file[blocks[i]]|
      && data[Position(i, k, blockSize)] == file[blocks[i]][k]
  }

  lemma {:induction false} ReadGathers(file: seq<seq<byte>>, blocks: seq<nat>, size: nat, blockSize: nat)
    requires IsFile(file, blockSize) && |blocks| == BlocksNeeded(size, blockSize)
    requires forall i | 0 <= i < |blocks| :: blocks[i] < |file|
    ensures |ReadBlocks(file, blocks, size, blockSize)| == size
    ensures Gathered(file, blocks, ReadBlocks(file, blocks, size, blockSize), blockSize)
    decreases |blocks|
  {
    hide Position, BlocksNeeded;
    ReadBlocksSize(file, blocks, size, blockSize);
    BlocksNeededStep(size, blockSize);
    if blocks != [] {
      BlocksNeededStep(0, blockSize);
      var n := ChunkSize(size, blockSize);
      var (data, rest) := (ReadBlocks(file, blocks, size, blockSize),
                           ReadBlocks(file, blocks[1..], size - n, blockSize));
      ReadGathers(file, blocks[1..], size - n, blockSize);
      forall i: nat, k: nat | i < |blocks| && k < blockSize && Position(i, k, blockSize) < |data|
        ensures data[Position(i, k, blockSize)] == file[blocks[i]][k]
      {
        if i > 0 {
          PositionNext(i, k, blockSize);
          assert rest[Position(i - 1, k, blockSize)] == file[blocks[1..][i - 1]][k];
        } else {
          PositionFirst(k, blockSize);
        }
      }
    }
  }

  /** The lowest blocks that no suspended process uses. */
  ghost predicate LowestUnused(parked: seq<Parked>, total: nat, blocks: seq<nat>) {
    && (forall i | 0 <= i < |blocks| :: blocks[i] < total && !InUse(parked, blocks[i]))
    && (forall i, j | 0 <= i < j < |blocks| :: blocks[i] < blocks[j])
    && forall b: nat | b < total && !InUse(parked, b) && b !in blocks :: forall i | 0 <= i < |blocks| :: blocks[i] < b
  }

  ghost predicate InUse(parked: seq<Parked>, b: nat) {
    exists i, j | 0 <= i < |parked| && 0 <= j < |parked[i].pieces| :: b in parked[i].pieces[j].blocks
  }

  lemma UsedExact(parked: seq<Parked>, b: nat)
    ensures b in UsedBlocks(parked) <==> InUse(parked, b)
  {
    UsedBlocksMember(parked, b);
    if InUse(parked, b) {
      var i, j :| 0 <= i < |parked| && 0 <= j < |parked[i].pieces| && b in parked[i].pieces[j].blocks;
      assert b in PieceBlocks(parked[i].pieces);
    }
  }

  lemma FoundLowest(parked: seq<Parked>, total: nat, needed: nat)
    ensures FreeBlocks(parked, total, needed).Some? ==>
      LowestUnused(parked, total, FreeBlocks(parked, total, needed).value)
  {
    hide InUse, UsedBlocks;
    FreeFromExact(UsedBlocks(parked), 0, total, needed);
    forall b: nat ensures b in UsedBlocks(parked) <==> InUse(parked, b) {
      UsedExact(parked, b);
    }
  }

  /** The segments of the process leave memory, and those it had - one at most - are in the lowest unused blocks
      of the swap file, byte by byte; all other blocks are as they were. */
  ghost predicate Suspends(cfg: Config, st: Store, st': Store, pid: nat) {
    && st' == st.(segs := st'.segs, swap := st'.swap, parked := st'.parked) && Leaves(st.segs, st'.segs, pid)
    && if Table(st.segs, pid) == [] then st'.parked == st.parked + [Parked(pid, [])] && st'.swap == st.swap
       else exists blocks :: Swaps(cfg, st, st', pid, Table(st.segs, pid)[0], blocks)
  }

  ghost predicate Swaps(cfg: Config, st: Store, st': Store, pid: nat, s: Segment, blocks: seq<nat>) {
    && st'.parked == st.parked + [Parked(pid, [Piece(s.id, s.size, blocks)])]
    && LowestUnused(st.parked, |st.swap|, blocks)
    && s.size <= |blocks| * cfg.blockSize && (|blocks| - 1) * cfg.blockSize < s.size
    && s.End() <= |st.mem| && Spread(st'.swap, blocks, st.mem[s.base..s.End()], cfg.blockSize)
    && IsFile(st'.swap, cfg.blockSize) && |st'.swap| == |st.swap|
    && forall b: nat | b < |st.swap| && b !in blocks :: st'.swap[b] == st.swap[b]
  }

  lemma SwapsOne(cfg: Config, st: Store, st': Store, pid: nat, s: Segment, blocks: seq<nat>)
    requires Sound(cfg, st) && s.size > 0 && s.End() <= |st.mem|
    requires FreeBlocks(st.parked, |st.swap|, BlocksNeeded(s.size, cfg.blockSize)) == Some(blocks)
    requires st'.swap == WriteBlocks(st.swap, blocks, Bytes(st.mem, s), cfg.blockSize)
    requires st'.parked == st.parked + [Parked(pid, [Piece(s.id, s.size, blocks)])]
    ensures Swaps(cfg, st, st', pid, s, blocks)
  {
    hide LowestUnused, Spread, UsedBlocks, FreeBlocks, WriteBlocks, BlocksNeeded;
    FoundBounds(st.parked, |st.swap|, BlocksNeeded(s.size, cfg.blockSize));
    FoundLowest(st.parked, |st.swap|, BlocksNeeded(s.size, cfg.blockSize));
    BlocksExact(s.size, cfg.blockSize);
    WrittenSpread(st.swap, blocks, Bytes(st.mem, s), cfg.blockSize);
    WriteBlocksFrame(st.swap, blocks, Bytes(st.mem, s), cfg.blockSize);
  }

  lemma FoundBounds(parked: seq<Parked>, total: nat, needed: nat)
    ensures var found := FreeBlocks(parked, total, needed);
      found.Some? ==> |found.value| == needed && NoDuplicates(found.value)
                      && forall i | 0 <= i < needed :: found.value[i] < total
  {
  }

  /** The same for a request that may fail: then nothing changes. */
  ghost predicate SuspendsIf(cfg: Config, st: Store, st': Store, r: Result, pid: nat)
    requires Sound(cfg, st)
  {
    if Succeeds(cfg, st, SuspendProcess(pid)) then r == Ok && Suspends(cfg, st, st', pid)
    else r == Error && st' == st
  }

  lemma SuspendMeans(cfg: Config, st: Store, pid: nat)
    requires Sound(cfg, st) && |Table(st.segs, pid)| <= 1
    ensures var (st', r) := Suspend(cfg, st, pid); SuspendsIf(cfg, st, st', r, pid)
  {
    hide Table, Others, FreeBlocks, UsedBlocks, UnusedFrom, SwapOut, WriteBlocks, Leaves, Swaps, Sound, BlocksNeeded;
    SuspendSucceedsIff(cfg, st, pid);
    SoundParts(cfg, st);
    DisjointDistinct(st.segs, |st.mem|);
    OthersMeans(st.segs, pid);
    var (table, st') := (Table(st.segs, pid), Suspend(cfg, st, pid).0);
    if pid in st.pids && table == [] {
      SuspendNone(cfg, st, pid);
    } else if pid in st.pids {
      var s := table[0];
      assert table == [s];
      TableInside(st.segs, pid, 0, |st.mem|);
      SuspendOne(cfg, st, pid, s);
      var found := FreeBlocks(st.parked, |st.swap|, BlocksNeeded(s.size, cfg.blockSize));
      if found.Some? {
        SwapsOne(cfg, st, st', pid, s, found.value);
      }
    }
  }

  lemma SoundParts(cfg: Config, st: Store)
    requires Sound(cfg, st)
    ensures Disjoint(st.segs, |st.mem|) && IsFile(st.swap, cfg.blockSize)
  {
  }

  // ---------- a process with any number of segments ----------

  /** The piece of a segment: its id, its size, and the lowest unused blocks, as many as it fills. */
  ghost predicate PieceOf(cfg: Config, st: Store, s: Segment, p: Piece) {
    && p.id == s.id && p.size == s.size && LowestUnused(st.parked, |st.swap|, p.blocks)
    && s.size <= |p.blocks| * cfg.blockSize && (|p.blocks| > 0 ==> (|p.blocks| - 1) * cfg.blockSize < s.size)
  }

  /** Every segment is written to its blocks, and a later one overwrites an earlier one where they share a block:
      a block has the bytes of the last piece that lists it, or, if none does, what it had. */
  ghost predicate LastWins(
    cfg: Config, mem: seq<byte>, table: seq<Segment>, swap: seq<seq<byte>>, pieces: seq<Piece>, swap': seq<seq<byte>>)
    requires |pieces| == |table| && forall k | 0 <= k < |table| :: table[k].End() <= |mem|
  {
    && |swap'| == |swap|
    && (forall b: nat | b < |swap| && (forall p | p in pieces :: b !in p.blocks) :: swap'[b] == swap[b])
    && forall i: nat, j: nat, k: nat | i < |pieces| && j < |pieces[i].blocks| && k < cfg.blockSize
         && Final(pieces, i, j) :: SpreadAt(swap', pieces[i].blocks, Bytes(mem, table[i]), cfg.blockSize, j, k)
  }

  ghost predicate Final(pieces: seq<Piece>, i: nat, j: nat)
    requires i < |pieces| && j < |pieces[i].blocks|
  {
    forall m | i < m < |pieces| :: pieces[i].blocks[j] !in pieces[m].blocks
  }

  lemma {:induction false} SwapOutMeans(cfg: Config, st: Store, table: seq<Segment>, swap: seq<seq<byte>>)
    requires IsFile(swap, cfg.blockSize) && |swap| == |st.swap|
    requires forall k | 0 <= k < |table| :: table[k].size > 0 && table[k].End() <= |st.mem|
    ensures var r := SwapOut(cfg, st, table, swap);
      && (r.1.Some? <==> forall k | 0 <= k < |table| ::
           FreeBlocks(st.parked, |st.swap|, BlocksNeeded(table[k].size, cfg.blockSize)).Some?)
      && (r.1.Some? ==>
           && |r.1.value| == |table|
           && (forall i | 0 <= i < |table| :: PieceOf(cfg, st, table[i], r.1.value[i]))
           && LastWins(cfg, st.mem, table, swap, r.1.value, r.0))
    decreases |table|
  {
    hide LowestUnused, SpreadAt, WriteBlocks, FreeBlocks, BlocksNeeded;
    if table != [] {
      var s := table[0];
      var found := FreeBlocks(st.parked, |st.swap|, BlocksNeeded(s.size, cfg.blockSize));
      if found.Some? {
        var swap1 := WriteBlocks(swap, found.value, Bytes(st.mem, s), cfg.blockSize);
        FoundBounds(st.parked, |st.swap|, BlocksNeeded(s.size, cfg.blockSize));
        WriteBlocksFrame(swap, found.value, Bytes(st.mem, s), cfg.blockSize);
        SwapOutMeans(cfg, st, table[1..], swap1);
        FirstPiece(cfg, st, table, swap, found.value);
      }
    }
  }

  lemma FirstPiece(cfg: Config, st: Store, table: seq<Segment>, swap: seq<seq<byte>>, blocks: seq<nat>)
    requires IsFile(swap, cfg.blockSize) && |swap| == |st.swap| && table != []
    requires forall k | 0 <= k < |table| :: table[k].size > 0 && table[k].End() <= |st.mem|
    requires FreeBlocks(st.parked, |st.swap|, BlocksNeeded(table[0].size, cfg.blockSize)) == Some(blocks)
    requires forall i | 0 <= i < |blocks| :: blocks[i] < |swap|
    requires var swap1 := WriteBlocks(swap, blocks, Bytes(st.mem, table[0]), cfg.blockSize);
      var later := SwapOut(cfg, st, table[1..], swap1);
      later.1.Some? ==>
        && (forall i | 0 <= i < |table| - 1 :: PieceOf(cfg, st, table[1..][i], later.1.value[i]))
        && LastWins(cfg, st.mem, table[1..], swap1, later.1.value, later.0)
    ensures var r := SwapOut(cfg, st, table, swap);
      r.1.Some? ==>
        && (forall i | 0 <= i < |table| :: PieceOf(cfg, st, table[i], r.1.value[i]))
        && LastWins(cfg, st.mem, table, swap, r.1.value, r.0)
  {
    hide LowestUnused, Spread, LastWins, PieceOf, WriteBlocks, FreeBlocks, BlocksNeeded, SwapOut;
    var (s, bs) := (table[0], cfg.blockSize);
    var swap1 := WriteBlocks(swap, blocks, Bytes(st.mem, s), bs);
    var (later, r) := (SwapOut(cfg, st, table[1..], swap1), SwapOut(cfg, st, table, swap));
    SwapOutFirst(cfg, st, table, swap, blocks);
    if r.1.Some? {
      var (rest, pieces) := (later.1.value, r.1.value);
      FirstPieceOf(cfg, st, s, blocks);
      WriteBlocksFrame(swap, blocks, Bytes(st.mem, s), bs);
      WrittenSpread(swap, blocks, Bytes(st.mem, s), bs);
      assert pieces == [Piece(s.id, s.size, blocks)] + rest;
      FirstWins(cfg, st.mem, table, swap, swap1, rest, r.0, pieces[0]);
    }
  }

  lemma FirstWins(
    cfg: Config, mem: seq<byte>, table: seq<Segment>, swap: seq<seq<byte>>, swap1: seq<seq<byte>>,
    rest: seq<Piece>, swap': seq<seq<byte>>, first: Piece)
    requires table != [] && |rest| == |table| - 1 && forall k | 0 <= k < |table| :: table[k].End() <= |mem|
    requires |swap1| == |swap| && forall b: nat | b < |swap| && b !in first.blocks :: swap1[b] == swap[b]
    requires Spread(swap1, first.blocks, Bytes(mem, table[0]), cfg.blockSize)
    requires LastWins(cfg, mem, table[1..], swap1, rest, swap')
    ensures LastWins(cfg, mem, table, swap, [first] + rest, swap')
  {
    hide SpreadAt, Spread, Bytes;
    var (pieces, bs) := ([first] + rest, cfg.blockSize);
    forall b: nat | b < |swap| && (forall p | p in pieces :: b !in p.blocks) ensures swap'[b] == swap[b] {
      assert pieces[0] in pieces;
      forall p | p in rest ensures b !in p.blocks {
        assert p in pieces;
      }
    }
    forall i: nat, j: nat, k: nat | i < |pieces| && j < |pieces[i].blocks| && k < bs && Final(pieces, i, j)
      ensures SpreadAt(swap', pieces[i].blocks, Bytes(mem, table[i]), bs, j, k)
    {
      forall m | i <= m < |rest| ensures pieces[i].blocks[j] !in rest[m].blocks {
        assert pieces[m + 1] == rest[m];
      }
      if i > 0 {
        assert pieces[i] == rest[i - 1] && Final(rest, i - 1, j);
        assert SpreadAt(swap', rest[i - 1].blocks, Bytes(mem, table[1..][i - 1]), bs, j, k);
      } else {
        SpreadSame(swap1, swap', first.blocks, Bytes(mem, table[0]), bs, j, k);
      }
    }
  }

  lemma SpreadSame(
    swap: seq<seq<byte>>, swap': seq<seq<byte>>, blocks: seq<nat>, data: seq<byte>, bs: nat, j: nat, k: nat)
    requires j < |blocks| && k < bs && Spread(swap, blocks, data, bs)
    requires |swap'| == |swap| && (blocks[j] < |swap| ==> swap'[blocks[j]] == swap[blocks[j]])
    ensures SpreadAt(swap', blocks, data, bs, j, k)
  {
    assert SpreadAt(swap, blocks, data, bs, j, k);
  }

  lemma FirstPieceOf(cfg: Config, st: Store, s: Segment, blocks: seq<nat>)
    requires cfg.blockSize > 0
    requires FreeBlocks(st.parked, |st.swap|, BlocksNeeded(s.size, cfg.blockSize)) == Some(blocks)
    ensures PieceOf(cfg, st, s, Piece(s.id, s.size, blocks)) && NoDuplicates(blocks)
  {
    hide LowestUnused, FreeBlocks, BlocksNeeded;
    FoundBounds(st.parked, |st.swap|, BlocksNeeded(s.size, cfg.blockSize));
    FoundLowest(st.parked, |st.swap|, BlocksNeeded(s.size, cfg.blockSize));
    BlocksExact(s.size, cfg.blockSize);
  }

  lemma SwapOutFirst(cfg: Config, st: Store, table: seq<Segment>, swap: seq<seq<byte>>, blocks: seq<nat>)
    requires cfg.blockSize > 0 && |swap| == |st.swap| && table != [] && table[0].End() <= |st.mem|
    requires FreeBlocks(st.parked, |st.swap|, BlocksNeeded(table[0].size, cfg.blockSize)) == Some(blocks)
    requires forall i | 0 <= i < |blocks| :: blocks[i] < |swap|
    ensures var swap1 := WriteBlocks(swap, blocks, Bytes(st.mem, table[0]), cfg.blockSize);
      var later := SwapOut(cfg, st, table[1..], swap1);
      SwapOut(cfg, st, table, swap)
        == (later.0, if later.1.None? then None
                     else Some([Piece(table[0].id, table[0].size, blocks)] + later.1.value))
  {
    hide WriteBlocks, FreeBlocks, BlocksNeeded;
  }

  /** A known process of any number of segments is suspended exactly if for each of them as many blocks are unused
      as it fills; its segments leave memory, its pieces are theirs in order, and of blocks that two of them were
      given the later has the bytes. */
  lemma SuspendAnyMeans(cfg: Config, st: Store, pid: nat)
    requires Sound(cfg, st)
    ensures var ((st', r), table) := (Suspend(cfg, st, pid), Table(st.segs, pid));
      && (r == Ok <==> pid in st.pids && forall k | 0 <= k < |table| ::
           BlocksNeeded(table[k].size, cfg.blockSize) <= |UnusedFrom(UsedBlocks(st.parked), 0, |st.swap|)|)
      && (r == Ok ==>
           && st' == st.(segs := st'.segs, swap := st'.swap, parked := st'.parked) && Leaves(st.segs, st'.segs, pid)
           && (forall k | 0 <= k < |table| :: table[k].End() <= |st.mem|)
           && exists pieces :: SuspendedAs(cfg, st, st', pid, table, pieces))
      && (r != Ok ==> r == Error && st' == st.(swap := st'.swap))
  {
    hide Table, Others, FreeBlocks, UsedBlocks, UnusedFrom, SwapOut, Leaves, Sound, BlocksNeeded, LastWins, PieceOf;
    SoundParts(cfg, st);
    DisjointDistinct(st.segs, |st.mem|);
    OthersMeans(st.segs, pid);
    var (table, st') := (Table(st.segs, pid), Suspend(cfg, st, pid).0);
    forall k | 0 <= k < |table|
      ensures table[k].size > 0 && table[k].End() <= |st.mem|
      ensures FreeBlocks(st.parked, |st.swap|, BlocksNeeded(table[k].size, cfg.blockSize)).Some?
          <==> BlocksNeeded(table[k].size, cfg.blockSize) <= |UnusedFrom(UsedBlocks(st.parked), 0, |st.swap|)|
    {
      TableInside(st.segs, pid, k, |st.mem|);
      FreeBlocksIff(st.parked, |st.swap|, BlocksNeeded(table[k].size, cfg.blockSize));
    }
    SwapOutMeans(cfg, st, table, st.swap);
    if Suspend(cfg, st, pid).1 == Ok {
      assert SuspendedAs(cfg, st, st', pid, table, SwapOut(cfg, st, table, st.swap).1.value);
    }
  }

  ghost predicate SuspendedAs(cfg: Config, st: Store, st': Store, pid: nat, table: seq<Segment>, pieces: seq<Piece>)
    requires forall k | 0 <= k < |table| :: table[k].End() <= |st.mem|
  {
    && st'.parked == st.parked + [Parked(pid, pieces)] && |pieces| == |table|
    && (forall i | 0 <= i < |table| :: PieceOf(cfg, st, table[i], pieces[i]))
    && LastWins(cfg, st.mem, table, st.swap, pieces, st'.swap)
  }

  // ---------- resumption ----------

  /** The piece of the process, if it has one, is in memory where the configured fit puts it, with the bytes of its
      blocks, and the process is no longer suspended; nothing else changes. An unknown process gets no segment. */
  ghost predicate Resumes(cfg: Config, st: Store, st': Store, r: Result, pid: nat, i: nat)
    requires i < |st.parked|
  {
    var rest := st.parked[..i] + st.parked[i + 1..];
    if st.parked[i].pieces == [] then
      if pid in st.pids then r == Ok && st' == st.(parked := rest) else r == Error && st' == st
    else
      var p := st.parked[i].pieces[0];
      if !HasRoom(st, p.size) then r == Error && st' == st
      else exists base: nat :: Picks(cfg, st, p.size, base) && ResumesAt(cfg, st, st', r, pid, p, base, rest)
  }

  ghost predicate ResumesAt(
    cfg: Config, st: Store, st': Store, r: Result, pid: nat, p: Piece, base: nat, rest: seq<Parked>)
  {
    && Fetches(cfg, st, st', p, base)
    && if pid in st.pids then r == Ok && st'.parked == rest && st'.segs == st.segs + [Segment(pid, p.id, base, p.size)]
       else r == Error && st'.parked == st.parked && st'.segs == st.segs
  }

  ghost predicate Fetches(cfg: Config, st: Store, st': Store, p: Piece, base: nat) {
    && st' == st.(mem := st'.mem, segs := st'.segs, parked := st'.parked)
    && |st'.mem| == |st.mem| && base + p.size <= |st.mem|
    && (forall a: nat | a < |st.mem| && (a < base || base + p.size <= a) :: st'.mem[a] == st.mem[a])
    && Gathered(st.swap, p.blocks, st'.mem[base..base + p.size], cfg.blockSize)
  }

  lemma FetchMeans(cfg: Config, st: Store, st': Store, p: Piece, base: nat)
    requires IsFile(st.swap, cfg.blockSize) && PieceSound(st.swap, p, cfg.blockSize) && base + p.size <= |st.mem|
    requires st' == st.(segs := st'.segs, parked := st'.parked,
                        mem := Overwrite(st.mem, base, ReadBlocks(st.swap, p.blocks, p.size, cfg.blockSize)))
    ensures Fetches(cfg, st, st', p, base)
  {
    hide ReadBlocks, BlocksNeeded, Gathered;
    ReadGathers(st.swap, p.blocks, p.size, cfg.blockSize);
    assert st'.mem[base..base + p.size] == ReadBlocks(st.swap, p.blocks, p.size, cfg.blockSize);
  }

  ghost predicate ResumesIf(cfg: Config, st: Store, st': Store, r: Result, pid: nat) {
    if exists i :: IsParked(st, pid, i) then exists i: nat :: IsParked(st, pid, i) && Resumes(cfg, st, st', r, pid, i)
    else r == Error && st' == st
  }

  predicate IsParked(st: Store, pid: nat, i: int) {
    0 <= i < |st.parked| && st.parked[i].pid == pid
  }

  lemma ResumeMeans(cfg: Config, st: Store, pid: nat)
    requires Sound(cfg, st)
    ensures forall k | 0 <= k < |st.parked| :: ReadablePieces(st, st.parked[k].pieces)
    ensures var (st', r) := Desuspend(cfg, st, pid); ResumesIf(cfg, st, st', r, pid)
  {
    hide Picks, Holes, Choose, HasRoom, ReadBlocks, Fetches, Sound, Gathered;
    SoundParts(cfg, st);
    PiecesReadable(cfg, st);
    if FindParked(st.parked, pid).Some? {
      var i := FindParked(st.parked, pid).value;
      assert IsParked(st, pid, i);
      OnePiece(cfg, st, i);
      if st.parked[i].pieces == [] {
        assert SwapIn(cfg, st, pid, [], st.mem) == (st.mem, Some([]));
        assert Resumes(cfg, st, Desuspend(cfg, st, pid).0, Desuspend(cfg, st, pid).1, pid, i);
      } else {
        ResumePieceMeans(cfg, st, pid, i);
      }
    } else {
      assert forall i :: !IsParked(st, pid, i);
    }
  }

  lemma OnePiece(cfg: Config, st: Store, i: nat)
    requires Sound(cfg, st) && i < |st.parked|
    ensures |st.parked[i].pieces| <= 1
    ensures st.parked[i].pieces != [] ==> PieceSound(st.swap, st.parked[i].pieces[0], cfg.blockSize)
  {
  }

  lemma ResumePieceMeans(cfg: Config, st: Store, pid: nat, i: nat)
    requires Sound(cfg, st) && FindParked(st.parked, pid) == Some(i) && |st.parked[i].pieces| == 1
    requires forall k | 0 <= k < |st.parked| :: ReadablePieces(st, st.parked[k].pieces)
    requires IsFile(st.swap, cfg.blockSize)
    ensures var (st', r) := Desuspend(cfg, st, pid); Resumes(cfg, st, st', r, pid, i)
  {
    hide Picks, Holes, Choose, HasRoom, ReadBlocks, Fetches, Sound, SwapIn, Gathered;
    var p := st.parked[i].pieces[0];
    assert st.parked[i].pieces == [p];
    SoundParts(cfg, st);
    OnePiece(cfg, st, i);
    DesuspendOne(cfg, st, pid, i, p);
    NoRoomFound(cfg, st, p.size);
    var (st', hole) := (Desuspend(cfg, st, pid).0, ChooseHole(cfg, st, p.size));
    if hole.Some? {
      ChosenIsPicked(cfg, st, p.size);
      ChosenHoleFree(cfg, st, pid, p.id, p.size);
      FetchMeans(cfg, st, st', p, hole.value.base);
    }
  }

  // ---------- every request ----------

  /** What every request does. */
  ghost predicate Serves(cfg: Config, st: Store, req: Request, st': Store, r: Result)
    requires Sound(cfg, st)
  {
    match req
    case AdmitProcess(pid) => r == Ok && st' == st.(pids := st.pids + [pid])
    case FinishProcess(pid) =>
      if pid !in st.pids then r == Error && st' == st
      else
        && r == Ok && st' == st.(pids := st'.pids, segs := st'.segs) && Leaves(st.segs, st'.segs, pid)
        && NoDuplicates(st'.pids) && forall q :: q in st'.pids <==> q in st.pids && q != pid
    case CreateSegment(pid, id, size) => Creates(cfg, st, st', r, pid, id, size)
    case BeginSegment(pid, id, size) => Begins(cfg, st, st', r, pid, id, size)
    case PlaceSegment(pid, id, size) => Places(cfg, st, st', r, pid, id, size)
    case DeleteSegment(pid, id) => Deletes(st, st', r, pid, id)
    case CompactMemory => r == Ok && Compacts(st, st')
    case ConnectStick(stick) => r == Ok && st' == st.(mem := st.mem + stick)
    case WriteSegment(pid, k, offset, data) =>
      if k < |Table(st.segs, pid)| && offset + |data| <= Table(st.segs, pid)[k].size then
        r == Ok && st' == st.(mem := st'.mem) && Pokes(st.mem, st'.mem, Table(st.segs, pid)[k].base + offset, data)
      else r == Error && st' == st
    case SuspendProcess(pid) => SuspendsIf(cfg, st, st', r, pid)
    case ResumeProcess(pid) => ResumesIf(cfg, st, st', r, pid)
  }

  ghost predicate Pokes(mem: seq<byte>, mem': seq<byte>, at: nat, data: seq<byte>) {
    && |mem'| == |mem|
    && forall a: nat | a < |mem| :: mem'[a] == if at <= a < at + |data| then data[a - at] else mem[a]
  }

  lemma FinishMeans(cfg: Config, st: Store, pid: nat)
    requires Sound(cfg, st)
    ensures Serves(cfg, st, FinishProcess(pid), Finish(st, pid).0, Finish(st, pid).1)
  {
    DisjointDistinct(st.segs, |st.mem|);
    OthersMeans(st.segs, pid);
    WithoutDistinct(st.pids, pid);
  }

  /** Every orderly request does just that. */
  lemma ServeMeans(cfg: Config, st: Store, req: Request)
    requires Sound(cfg, st) && Orderly(st, req)
    ensures Readable(cfg, st)
    ensures Serves(cfg, st, req, Serve(cfg, st, req).0, Serve(cfg, st, req).1)
  {
    hide Sound, Create, Begin, Place, Delete, Finish, Suspend, Desuspend, Compact, Overwrite;
    hide Creates, Begins, Places, Deletes, Compacts, SuspendsIf, ResumesIf;
    ServeSound(cfg, st, req);
    match req
    case FinishProcess(pid) => FinishMeans(cfg, st, pid);
    case CreateSegment(pid, id, size) => CreateMeans(cfg, st, pid, id, size);
    case BeginSegment(pid, id, size) => BeginMeans(cfg, st, pid, id, size);
    case PlaceSegment(pid, id, size) => PlaceMeans(cfg, st, pid, id, size);
    case DeleteSegment(pid, id) => DeleteMeans(st, pid, id);
    case CompactMemory => CompactMeans(cfg, st);
    case SuspendProcess(pid) => SuspendMeans(cfg, st, pid);
    case ResumeProcess(pid) => ResumeMeans(cfg, st, pid);
    case _ =>
  }
}
