/**
 Kernel Memory as the program it is: sticks and swap file are buffers changed in place, tables are lists
 changed in place. Every method is proved to serve its request as the functions of `SegmentStore` say
 (kernel_memory/src/memory_manage.c).
*/
module KernelMemories {
  import opened Base
  import opened MemorySticks
  import opened Segments
  import opened SwapBlocks
  import opened SwapFiles
  import opened SegmentStore
  import opened StoreViews
  import opened StoreSwap
  import opened StoreRuns
  import opened StoreMeaning

  class KernelMemory {
    const strategy: Strategy
    const bank: MemoryBank
    const swap: SwapFile
    var totalMemory: nat
    var pids: seq<nat>
    var segs: seq<Segment>
    var parked: seq<Parked>

    ghost predicate Valid()
      reads this, bank
      reads bank.sticks
    {
      && bank.Valid() && swap.Valid() && swap.file !in bank.sticks
      && totalMemory == |bank.Flat()|
    }

    ghost function Cfg(): Config {
      Config(strategy, swap.blockSize)
    }

    ghost function Now(): Store
      requires Valid()
      reads this, bank, swap.file
      reads bank.sticks
    {
      Store(bank.Flat(), pids, segs, swap.Blocks(), parked)
    }

    constructor (strategy: Strategy, bank: MemoryBank, swap: SwapFile)
      requires bank.Valid() && bank.sticks == [] && swap.Valid()
      ensures Valid() && Now() == Boot(swap.Blocks()) && Cfg() == Config(strategy, swap.blockSize)
      ensures this.bank == bank && this.swap == swap
    {
      this.strategy := strategy;
      this.bank := bank;
      this.swap := swap;
      totalMemory := 0;
      pids, segs, parked := [], [], [];
    }

    /** `get_free_holes` */
    method GetFreeHoles() returns (holes: seq<Hole>)
      ensures holes == Holes(segs, totalMemory)
    {
      hide Ascending;
      var order := ByBase(segs);
      var cursor: nat := 0;
      holes := [];
      ghost var all := Holes(segs, totalMemory);
      for i := 0 to |order|
        invariant holes + HolesAfter(segs, order[i..], cursor, totalMemory) == all
      {
        var occupied := segs[order[i]];
        assert order[i..][1..] == order[i + 1..];
        HolesAfterStep(segs, order[i..], cursor, totalMemory, holes);
        holes := AddGap(holes, occupied, cursor);
        cursor := occupied.End();
      }
      assert order[|order|..] == [];
      if cursor < totalMemory {
        holes := holes + [Hole(cursor, totalMemory - cursor)];
      } else {
        assert holes + [] == holes;
      }
    }

    /** `best_fit` */
    method BestFit(holes: seq<Hole>, size: nat) returns (best: Option<nat>)
      ensures best == Choose(Best, holes, size)
    {
      best := None;
      for i := 0 to |holes|
        invariant best == Choose(Best, holes[..i], size)
      {
        assert holes[..i + 1][..i] == holes[..i];
        if holes[i].size >= size {
          if best.None? || holes[i].size < holes[best.value].size {
            best := Some(i);
          }
        }
      }
      assert holes[..|holes|] == holes;
    }

    /** The hole in front of an occupied segment, if there is one. */
    method AddGap(holes: seq<Hole>, occupied: Segment, cursor: nat) returns (more: seq<Hole>)
      ensures more == holes + GapBefore(occupied, cursor)
    {
      more := holes;
      if occupied.base > cursor {
        more := more + [Hole(cursor, occupied.base - cursor)];
      }
    }

    /** `worst_fit` */
    method WorstFit(holes: seq<Hole>, size: nat) returns (worst: Option<nat>)
      ensures worst == Choose(Worst, holes, size)
    {
      worst := None;
      for i := 0 to |holes|
        invariant worst == Choose(Worst, holes[..i], size)
      {
        assert holes[..i + 1][..i] == holes[..i];
        if holes[i].size >= size {
          if worst.None? || holes[i].size > holes[worst.value].size {
            worst := Some(i);
          }
        }
      }
      assert holes[..|holes|] == holes;
    }

    /** `select_hole` */
    method SelectHole(holes: seq<Hole>, size: nat) returns (chosen: Option<nat>)
      ensures chosen == Choose(strategy, holes, size)
    {
      if strategy == Best {
        chosen := BestFit(holes, size);
      } else {
        chosen := WorstFit(holes, size);
      }
    }

    /** `compact_memory` */
    method CompactMemory()
      requires Valid() && forall k | 0 <= k < |segs| :: segs[k].size > 0
      modifies this`segs, bank.sticks
      ensures Valid() && Now() == Compact(old(Now()))
    {
      hide AllAccepted, MemoryBank.Sizes, Overwrite, Concat, Pack, Compacted, PacksTo;
      var order := ByBase(segs);
      var cursor: nat := 0;
      ghost var start, packed := Now(), Compacted(bank.Flat(), segs);
      PackBegins(bank.Flat(), segs);
      assert order[0..] == order;
      for i := 0 to |order|
        invariant Valid() && swap.Blocks() == start.swap && |segs| == |start.segs|
        invariant forall k | 0 <= k < |segs| :: segs[k].size > 0
        invariant PacksTo(bank.Flat(), segs, order[i..], cursor, packed)
      {
        assert order[i..][1..] == order[i + 1..];
        PackUnfold(bank.Flat(), segs, order[i..], cursor, packed);
        var size := segs[order[i]].size;
        PackSegment(order[i], cursor);
        cursor := cursor + size;
      }
      assert order[|order|..] == [];
      PackEnds(bank.Flat(), segs, cursor, packed);
    }

    /** One iteration of the loop of `compact_memory`. */
    method PackSegment(k: nat, cursor: nat)
      requires Valid() && k < |segs| && segs[k].size > 0
      modifies this`segs, bank.sticks
      ensures Valid() && swap.Blocks() == old(swap.Blocks())
      ensures segs == old(segs)[k := old(segs)[k].(base := cursor)]
      ensures var s := old(segs)[k];
        bank.Flat() == if s.base == cursor || s.End() > |old(bank.Flat())| then old(bank.Flat())
                       else Overwrite(old(bank.Flat()), cursor, Bytes(old(bank.Flat()), s))
    {
      var s := segs[k];
      if s.base != cursor {
        Move(s, cursor);
        segs := segs[k := s.(base := cursor)];
      }
    }

    /** One segment's bytes are read in full, then written at the cursor. */
    method Move(s: Segment, cursor: nat)
      requires Valid() && s.size > 0
      modifies bank.sticks
      ensures Valid() && swap.Blocks() == old(swap.Blocks())
      ensures bank.Flat() == if s.End() > |old(bank.Flat())| then old(bank.Flat())
                             else Overwrite(old(bank.Flat()), cursor, Bytes(old(bank.Flat()), s))
    {
      var data, _ := bank.Read(s.base, s.size);
      if data.Some? {
        var _, _ := bank.Write(cursor, data.value);
      }
    }

    /** `segment_create` up to its request for a compaction, if it needs one. */
    method SegmentBegin(pid: nat, id: u32, size: nat) returns (r: Result)
      requires Valid()
      modifies this`segs
      ensures Valid() && (Now(), r) == Begin(Cfg(), old(Now()), pid, id, size)
    {
      hide AllAccepted, MemoryBank.Sizes, Concat, Holes, Choose;
      var holes := GetFreeHoles();
      var free := TotalFree(holes);
      if free < size {
        return NoSpace;
      }
      var found := SelectHole(holes, size);
      if found.None? {
        return Waits;
      }
      r := AddSegment(pid, id, holes[found.value].base, size);
    }

    /** `segment_create` from the second choice of a hole on. */
    method SegmentPlace(pid: nat, id: u32, size: nat) returns (r: Result)
      requires Valid()
      modifies this`segs
      ensures Valid() && (Now(), r) == Place(Cfg(), old(Now()), pid, id, size)
    {
      hide AllAccepted, MemoryBank.Sizes, Concat, Holes, Choose;
      var holes := GetFreeHoles();
      var found := SelectHole(holes, size);
      if found.None? {
        return Error;
      }
      r := AddSegment(pid, id, holes[found.value].base, size);
    }

    method AddSegment(pid: nat, id: u32, base: nat, size: nat) returns (r: Result)
      requires Valid()
      modifies this`segs
      ensures Valid() && r == if pid in pids then Ok else Error
      ensures Now() == if pid in pids then old(Now()).(segs := old(segs) + [Segment(pid, id, base, size)])
                       else old(Now())
    {
      if pid !in pids {
        return Error;
      }
      segs := segs + [Segment(pid, id, base, size)];
      return Ok;
    }

    /** `segment_create` when nothing else is served while it waits. */
    method SegmentCreate(pid: nat, id: u32, size: nat) returns (r: Result)
      requires Valid() && (forall k | 0 <= k < |segs| :: segs[k].size > 0)
      modifies this`segs, bank.sticks
      ensures Valid() && (Now(), r) == Create(Cfg(), old(Now()), pid, id, size)
    {
      hide AllAccepted, MemoryBank.Sizes, Concat, Begin, Place, Compacted;
      ghost var st := Now();
      r := SegmentBegin(pid, id, size);
      if r == Waits {
        WaitsUnchanged(Cfg(), st, pid, id, size);
        CompactMemory();
        r := SegmentPlace(pid, id, size);
      }
    }

    method TotalFree(holes: seq<Hole>) returns (free: nat)
      ensures free == SumHoles(holes)
    {
      free := 0;
      for i := 0 to |holes|
        invariant free + SumHoles(holes[i..]) == SumHoles(holes)
      {
        assert holes[i..][1..] == holes[i + 1..];
        free := free + holes[i].size;
      }
    }

    /** `segment_delete` */
    method SegmentDelete(pid: nat, id: u32) returns (r: Result)
      requires Valid()
      modifies this`segs
      ensures Valid() && (Now(), r) == Delete(old(Now()), pid, id)
    {
      if pid !in pids {
        return Error;
      }
      var found := FindSegment(segs, pid, id);
      if found.None? {
        return Error;
      }
      segs := Remove(segs, found.value);
      return Ok;
    }

    /** `get_free_swap_blocks` */
    method GetFreeSwapBlocks(needed: nat) returns (r: Option<seq<nat>>)
      requires Valid()
      ensures r == FreeBlocks(parked, swap.blocks, needed)
    {
      var used := new bool[swap.blocks](_ => false);
      MarkUsed(used);
      var free := CollectFree(used, UsedBlocks(parked), needed);
      if |free| < needed {
        return None;
      }
      return Some(free);
    }

    method CollectFree(used: array<bool>, ghost taken: set<nat>, needed: nat) returns (free: seq<nat>)
      requires forall b | 0 <= b < used.Length :: used[b] <==> b in taken
      ensures free == FreeFrom(taken, 0, used.Length, needed)
    {
      free := [];
      var i := 0;
      ghost var all := FreeFrom(taken, 0, used.Length, needed);
      while i < used.Length && |free| < needed
        invariant i <= used.Length && |free| <= needed
        invariant free + FreeFrom(taken, i, used.Length, needed - |free|) == all
      {
        FreeFromStep(taken, i, used.Length, needed - |free|, free);
        if !used[i] {
          free := free + [i];
        }
        i := i + 1;
      }
      assert FreeFrom(taken, i, used.Length, needed - |free|) == [];
    }

    /** The blocks of suspended processes, as flags; block numbers beyond the file are skipped. */
    method MarkUsed(used: array<bool>)
      modifies used
      requires forall b | 0 <= b < used.Length :: !used[b]
      ensures forall b | 0 <= b < used.Length :: used[b] <==> b in UsedBlocks(parked)
    {
      for i := 0 to |parked|
        invariant forall b | 0 <= b < used.Length :: used[b] <==> b in UsedBlocks(parked[..i])
      {
        var pieces := parked[i].pieces;
        assert parked[..i + 1][..i] == parked[..i];
        for j := 0 to |pieces|
          invariant forall b | 0 <= b < used.Length ::
              used[b] <==> b in UsedBlocks(parked[..i]) + PieceBlocks(pieces[..j])
        {
          for k := 0 to |pieces[j].blocks|
            invariant forall b | 0 <= b < used.Length ::
              used[b] <==> b in UsedBlocks(parked[..i]) + PieceBlocks(pieces[..j]) || b in pieces[j].blocks[..k]
          {
            if pieces[j].blocks[k] < used.Length {
              used[pieces[j].blocks[k]] := true;
            }
            assert pieces[j].blocks[..k + 1] == pieces[j].blocks[..k] + [pieces[j].blocks[k]];
          }
          PieceBlocksStep(pieces, j);
        }
        assert pieces[..|pieces|] == pieces;
      }
      assert parked[..|parked|] == parked;
    }

    /** `process_suspend` */
    method ProcessSuspend(pid: nat) returns (r: Result)
      requires Valid() && forall k | 0 <= k < |segs| :: segs[k].size > 0
      modifies this`segs, this`parked, swap.file
      ensures Valid() && (Now(), r) == Suspend(Cfg(), old(Now()), pid)
    {
      if pid !in pids {
        return Error;
      }
      forall i | 0 <= i < |Table(segs, pid)| ensures Table(segs, pid)[i].size > 0 {
        TablePositive(segs, pid, i);
      }
      var pieces := SwapOutTable(Table(segs, pid));
      if pieces.None? {
        return Error;
      }
      segs := Others(segs, pid);
      parked := parked + [Parked(pid, pieces.value)];
      return Ok;
    }

    /** The loop of `process_suspend` over the segment table. */
    method SwapOutTable(table: seq<Segment>) returns (r: Option<seq<Piece>>)
      requires Valid() && forall k | 0 <= k < |table| :: table[k].size > 0
      modifies swap.file
      ensures Valid() && (swap.Blocks(), r) == SwapOut(Cfg(), old(Now()), table, old(swap.Blocks()))
    {
      var pieces := [];
      ghost var st, all := Now(), SwapOut(Cfg(), Now(), table, swap.Blocks());
      assert forall o: Option<seq<Piece>> | o.Some? :: [] + o.value == o.value;
      for i := 0 to |table|
        invariant Valid() && bank.Flat() == st.mem
        invariant SwapsOutTo(Cfg(), st, table[i..], swap.Blocks(), pieces, all)
      {
        var s := table[i];
        assert table[i..][1..] == table[i + 1..];
        SwapOutStep(Cfg(), st, table[i..], swap.Blocks(), pieces, all);
        var piece := SwapOutSegment(s);
        if piece.None? {
          return None;
        }
        pieces := pieces + [piece.value];
      }
      assert pieces + [] == pieces;
      return Some(pieces);
    }

    method SwapOutSegment(s: Segment) returns (r: Option<Piece>)
      requires Valid() && s.size > 0
      modifies swap.file
      ensures Valid() && bank.Flat() == old(bank.Flat())
      ensures var found := FreeBlocks(parked, swap.blocks, BlocksNeeded(s.size, swap.blockSize));
        if found.None? || s.End() > |old(bank.Flat())| then r == None && swap.Blocks() == old(swap.Blocks())
        else
          && r == Some(Piece(s.id, s.size, found.value))
          && swap.Blocks() == WriteBlocks(old(swap.Blocks()), found.value, Bytes(old(bank.Flat()), s), swap.blockSize)
    {
      var needed := (s.size + swap.blockSize - 1) / swap.blockSize;
      var found := GetFreeSwapBlocks(needed);
      if found.None? {
        return None;
      }
      var data, _ := bank.Read(s.base, s.size);
      if data.None? {
        return None;
      }
      swap.WriteSegment(found.value, data.value);
      return Some(Piece(s.id, s.size, found.value));
    }

    /** `process_desuspend` */
    method ProcessDesuspend(pid: nat) returns (r: Result)
      requires Valid() && Disjoint(segs, totalMemory) && Readable(Cfg(), Now())
      requires forall k, i | 0 <= k < |parked| && 0 <= i < |parked[k].pieces| ::
        PieceSound(swap.Blocks(), parked[k].pieces[i], swap.blockSize)
      modifies this`segs, this`parked, bank.sticks
      ensures Valid() && (Now(), r) == Desuspend(Cfg(), old(Now()), pid)
    {
      hide AllAccepted, MemoryBank.Sizes, Concat, SwapIn, ReadBlocks;
      var found := FindParked(parked, pid);
      if found.None? {
        return Error;
      }
      var ready := SwapInPieces(pid, parked[found.value].pieces);
      if ready.None? || pid !in pids {
        return Error;
      }
      segs := segs + ready.value;
      parked := Remove(parked, found.value);
      return Ok;
    }

    /** The first phase of `process_desuspend`: bytes go back to memory, the tables stay as they are. */
    method SwapInPieces(pid: nat, pieces: seq<Piece>) returns (r: Option<seq<Segment>>)
      requires Valid() && Disjoint(segs, totalMemory) && ReadablePieces(Now(), pieces)
      requires forall i | 0 <= i < |pieces| :: PieceSound(swap.Blocks(), pieces[i], swap.blockSize)
      modifies bank.sticks
      ensures Valid() && swap.Blocks() == old(swap.Blocks())
      ensures (bank.Flat(), r) == SwapIn(Cfg(), old(Now()), pid, pieces, old(bank.Flat()))
    {
      var ready := [];
      ghost var st, all := Now(), SwapIn(Cfg(), Now(), pid, pieces, bank.Flat());
      assert forall o: Option<seq<Segment>> | o.Some? :: [] + o.value == o.value;
      for i := 0 to |pieces|
        invariant Valid() && swap.Blocks() == st.swap
        invariant SwapsInTo(Cfg(), st, pid, pieces[i..], bank.Flat(), ready, all)
      {
        var p := pieces[i];
        assert pieces[i..][1..] == pieces[i + 1..];
        SwapInStep(Cfg(), st, pid, pieces[i..], bank.Flat(), ready, all);
        var segment := SwapInPiece(pid, p);
        if segment.None? {
          return None;
        }
        ready := ready + [segment.value];
      }
      assert ready + [] == ready;
      return Some(ready);
    }

    method SwapInPiece(pid: nat, p: Piece) returns (r: Option<Segment>)
      requires Valid() && Disjoint(segs, totalMemory) && PieceSound(swap.Blocks(), p, swap.blockSize)
      modifies bank.sticks
      ensures Valid() && swap.Blocks() == old(swap.Blocks())
      ensures var chosen := ChooseHole(Cfg(), old(Now()), p.size);
        if chosen.None? then r == None && bank.Flat() == old(bank.Flat())
        else
          && r == Some(Segment(pid, p.id, chosen.value.base, p.size))
          && bank.Flat() == Overwrite(old(bank.Flat()), chosen.value.base,
                                      ReadBlocks(old(swap.Blocks()), p.blocks, p.size, swap.blockSize))
    {
      hide AllAccepted, MemoryBank.Sizes, Concat, Overwrite, ReadBlocks, Holes, Choose;
      var holes := GetFreeHoles();
      var chosen := SelectHole(holes, p.size);
      if chosen.None? {
        return None;
      }
      var base := holes[chosen.value].base;
      var data := swap.ReadSegment(p.blocks, p.size);
      PieceFits(Cfg(), Now(), p, holes[chosen.value]);
      var written, _ := bank.Write(base, data);
      if !written {
        return None;
      }
      return Some(Segment(pid, p.id, base, p.size));
    }

    /** PROCESS_CREATE */
    method ProcessCreate(pid: nat) returns (r: Result)
      requires Valid()
      modifies this`pids
      ensures Valid() && (Now(), r) == Admit(old(Now()), pid)
    {
      pids := pids + [pid];
      return Ok;
    }

    /** PROCESS_END */
    method ProcessEnd(pid: nat) returns (r: Result)
      requires Valid()
      modifies this`pids, this`segs
      ensures Valid() && (Now(), r) == Finish(old(Now()), pid)
    {
      if pid !in pids {
        return Error;
      }
      pids := Without(pids, pid);
      segs := Others(segs, pid);
      return Ok;
    }

    /** `memory_stick_protocol` */
    method ConnectMemoryStick(stick: array<byte>) returns (r: Result)
      requires Valid() && stick !in bank.sticks && stick != swap.file
      modifies this`totalMemory, bank
      ensures Valid() && (Now(), r) == AddStick(old(Now()), old(stick[..]))
    {
      totalMemory := totalMemory + stick.Length;
      bank.Connect(stick);
      return Ok;
    }

    /** A CPU's write inside a segment, at the physical address the MMU computed. */
    method WriteInSegment(pid: nat, k: nat, offset: nat, data: seq<byte>) returns (r: Result)
      requires Valid() && Disjoint(segs, totalMemory)
      modifies bank.sticks
      ensures Valid() && (Now(), r) == Poke(old(Now()), pid, k, offset, data)
    {
      var table := Table(segs, pid);
      if k >= |table| || offset + |data| > table[k].size {
        return Error;
      }
      TableInside(segs, pid, k, totalMemory);
      var ok, _ := bank.Write(table[k].base + offset, data);
      return Ok;
    }

    /** The message loop of the scheduler's connection: any orderly request, served on the buffers and lists,
        is a step of the simple machine. */
    method Handle(req: Request) returns (r: Result)
      requires Valid() && Sound(Cfg(), Now()) && Orderly(Now(), req)
      modifies this`pids, this`segs, this`parked, this`totalMemory, bank, bank.sticks, swap.file
      ensures Valid() && Readable(Cfg(), old(Now())) && (Now(), r) == Serve(Cfg(), old(Now()), req)
      ensures Sound(Cfg(), Now()) && Next(Abstract(Cfg(), old(Now())), req, r, Abstract(Cfg(), Now()))
      ensures r == Ok <==> Succeeds(Cfg(), old(Now()), req)
      ensures Serves(Cfg(), old(Now()), req, Now(), r)
    {
      hide AllAccepted, MemoryBank.Sizes, Concat, Succeeds, View, Create, Begin, Place, Suspend, Desuspend, Poke;
      hide Delete, Finish, Serves;
      ServeRefines(Cfg(), Now(), req);
      ServeMeans(Cfg(), Now(), req);
      match req
      case AdmitProcess(pid) => r := ProcessCreate(pid);
      case FinishProcess(pid) => r := ProcessEnd(pid);
      case CreateSegment(pid, id, size) => r := SegmentCreate(pid, id, size);
      case BeginSegment(pid, id, size) => r := SegmentBegin(pid, id, size);
      case PlaceSegment(pid, id, size) => r := SegmentPlace(pid, id, size);
      case DeleteSegment(pid, id) => r := SegmentDelete(pid, id);
      case CompactMemory => CompactMemory(); r := Ok;
      case ConnectStick(stick) =>
        var buffer := new byte[|stick|](i requires 0 <= i < |stick| => stick[i]);
        assert buffer[..] == stick;
        r := ConnectMemoryStick(buffer);
      case WriteSegment(pid, k, offset, data) => r := WriteInSegment(pid, k, offset, data);
      case SuspendProcess(pid) => r := ProcessSuspend(pid);
      case ResumeProcess(pid) => r := ProcessDesuspend(pid);
    }
  }

  /** The rest of a compaction's loop still leads to the outcome `packed` of the whole loop. */
  ghost predicate PacksTo(
    mem: seq<byte>, segs: seq<Segment>, rest: seq<nat>, cursor: nat, packed: (seq<byte>, seq<Segment>))
  {
    (forall i | 0 <= i < |rest| :: rest[i] < |segs|) && Pack(mem, segs, rest, cursor) == packed
  }

  lemma PackBegins(mem: seq<byte>, segs: seq<Segment>)
    ensures PacksTo(mem, segs, ByBase(segs), 0, Compacted(mem, segs))
  {
  }

  lemma PackEnds(mem: seq<byte>, segs: seq<Segment>, cursor: nat, packed: (seq<byte>, seq<Segment>))
    requires PacksTo(mem, segs, [], cursor, packed)
    ensures packed == (mem, segs)
  {
  }

  lemma PackUnfold(
    mem: seq<byte>, segs: seq<Segment>, rest: seq<nat>, cursor: nat, packed: (seq<byte>, seq<Segment>))
    requires PacksTo(mem, segs, rest, cursor, packed) && rest != []
    ensures var s := segs[rest[0]];
      PacksTo(if s.base == cursor || s.End() > |mem| then mem else Overwrite(mem, cursor, Bytes(mem, s)),
              segs[rest[0] := s.(base := cursor)], rest[1..], cursor + s.size, packed)
  {
  }

  lemma WaitsUnchanged(cfg: Config, st: Store, pid: nat, id: u32, size: nat)
    ensures Begin(cfg, st, pid, id, size).1 == Waits ==> Begin(cfg, st, pid, id, size).0 == st
  {
  }

  lemma HolesAfterStep(segs: seq<Segment>, rest: seq<nat>, cursor: nat, total: nat, holes: seq<Hole>)
    requires rest != [] && forall i | 0 <= i < |rest| :: rest[i] < |segs|
    ensures holes + HolesAfter(segs, rest, cursor, total)
         == (holes + GapBefore(segs[rest[0]], cursor)) + HolesAfter(segs, rest[1..], segs[rest[0]].End(), total)
  {
  }

  lemma FreeFromStep(taken: set<nat>, i: nat, total: nat, needed: nat, free: seq<nat>)
    requires i < total && needed > 0
    ensures free + FreeFrom(taken, i, total, needed) ==
      if i in taken then free + FreeFrom(taken, i + 1, total, needed)
      else (free + [i]) + FreeFrom(taken, i + 1, total, needed - 1)
  {
  }

  lemma PieceBlocksStep(pieces: seq<Piece>, j: nat)
    requires j < |pieces|
    ensures forall b :: b in PieceBlocks(pieces[..j + 1]) <==> b in PieceBlocks(pieces[..j]) || b in pieces[j].blocks
  {
    forall b
      ensures b in PieceBlocks(pieces[..j + 1]) <==> b in PieceBlocks(pieces[..j]) || b in pieces[j].blocks
    {
      if b in PieceBlocks(pieces[..j]) {
        var i, k :| 0 <= i < j && 0 <= k < |pieces[i].blocks| && pieces[..j][i].blocks[k] == b;
        assert pieces[..j + 1][i].blocks[k] == b;
      }
      if b in pieces[j].blocks {
        var k :| 0 <= k < |pieces[j].blocks| && pieces[j].blocks[k] == b;
        assert pieces[..j + 1][j].blocks[k] == b;
      }
      if b in PieceBlocks(pieces[..j + 1]) {
        var i, k :| 0 <= i < j + 1 && 0 <= k < |pieces[..j + 1][i].blocks| && pieces[..j + 1][i].blocks[k] == b;
        assert i < j ==> pieces[..j][i].blocks[k] == b;
      }
    }
  }

  /** The rest of a suspension's loop still leads to the outcome `all` of the whole loop. */
  ghost predicate SwapsOutTo(
    cfg: Config, st: Store, rest: seq<Segment>, file: seq<seq<byte>>, pieces: seq<Piece>,
    all: (seq<seq<byte>>, Option<seq<Piece>>))
  {
    && cfg.blockSize > 0 && |file| == |st.swap|
    && var r := SwapOut(cfg, st, rest, file);
       all == (r.0, if r.1.None? then None else Some(pieces + r.1.value))
  }

  lemma SwapOutStep(
    cfg: Config, st: Store, rest: seq<Segment>, file: seq<seq<byte>>, pieces: seq<Piece>,
    all: (seq<seq<byte>>, Option<seq<Piece>>))
    requires SwapsOutTo(cfg, st, rest, file, pieces, all) && rest != []
    ensures var s := rest[0];
      var found := FreeBlocks(st.parked, |st.swap|, BlocksNeeded(s.size, cfg.blockSize));
      if found.None? || s.End() > |st.mem| then all == (file, None)
      else SwapsOutTo(cfg, st, rest[1..], WriteBlocks(file, found.value, Bytes(st.mem, s), cfg.blockSize),
                      pieces + [Piece(s.id, s.size, found.value)], all)
  {
    var s := rest[0];
    var found := FreeBlocks(st.parked, |st.swap|, BlocksNeeded(s.size, cfg.blockSize));
    if found.Some? && s.End() <= |st.mem| {
      var r := SwapOut(cfg, st, rest[1..], WriteBlocks(file, found.value, Bytes(st.mem, s), cfg.blockSize));
      if r.1.Some? {
        assert pieces + ([Piece(s.id, s.size, found.value)] + r.1.value)
            == (pieces + [Piece(s.id, s.size, found.value)]) + r.1.value;
      }
    }
  }

  ghost predicate SwapsInTo(
    cfg: Config, st: Store, pid: nat, rest: seq<Piece>, mem: seq<byte>, ready: seq<Segment>,
    all: (seq<byte>, Option<seq<Segment>>))
  {
    && IsFile(st.swap, cfg.blockSize) && ReadablePieces(st, rest) && |mem| == |st.mem|
    && var r := SwapIn(cfg, st, pid, rest, mem);
       all == (r.0, if r.1.None? then None else Some(ready + r.1.value))
  }

  lemma SwapInStep(
    cfg: Config, st: Store, pid: nat, rest: seq<Piece>, mem: seq<byte>, ready: seq<Segment>,
    all: (seq<byte>, Option<seq<Segment>>))
    requires SwapsInTo(cfg, st, pid, rest, mem, ready, all) && rest != []
    ensures var p := rest[0];
      var chosen := ChooseHole(cfg, st, p.size);
      if chosen.None? then all == (mem, None)
      else SwapsInTo(cfg, st, pid, rest[1..],
             Overwrite(mem, chosen.value.base, ReadBlocks(st.swap, p.blocks, p.size, cfg.blockSize)),
             ready + [Segment(pid, p.id, chosen.value.base, p.size)], all)
  {
    var p := rest[0];
    var chosen := ChooseHole(cfg, st, p.size);
    assert ReadablePieces(st, rest[1..]);
    if chosen.Some? {
      var mem1 := Overwrite(mem, chosen.value.base, ReadBlocks(st.swap, p.blocks, p.size, cfg.blockSize));
      var r := SwapIn(cfg, st, pid, rest[1..], mem1);
      var s := Segment(pid, p.id, chosen.value.base, p.size);
      if r.1.Some? {
        assert ready + ([s] + r.1.value) == (ready + [s]) + r.1.value;
      }
    }
  }

  lemma TablePositive(segs: seq<Segment>, pid: nat, i: nat)
    requires i < |Table(segs, pid)| && forall k | 0 <= k < |segs| :: segs[k].size > 0
    ensures Table(segs, pid)[i].size > 0
  {
    InTable(segs, pid, i);
  }

  /** What is read back for a piece fits into the hole chosen for it. */
  lemma PieceFits(cfg: Config, st: Store, p: Piece, hole: Hole)
    requires Disjoint(st.segs, |st.mem|) && PieceSound(st.swap, p, cfg.blockSize) && IsFile(st.swap, cfg.blockSize)
    requires ChooseHole(cfg, st, p.size) == Some(hole)
    ensures hole.base + |ReadBlocks(st.swap, p.blocks, p.size, cfg.blockSize)| <= |st.mem|
  {
    ReadBlocksSize(st.swap, p.blocks, p.size, cfg.blockSize);
    HolesExact(st.segs, |st.mem|);
  }
}
