/**
 Suspension and resumption: a swapped process sees its bytes unchanged, and exactly when that holds.
*/
module StoreSwap {
  import opened Base
  import opened Segments
  import opened SwapBlocks
  import opened SegmentStore
  import opened StoreViews
  import opened StoreRequests

  lemma SwappedAt(cfg: Config, st: Store, i: nat)
    requires Sound(cfg, st) && i < |st.parked|
    ensures Swapped(cfg, st, st.parked[i].pid) == PieceObjs(st.swap, st.parked[i].pieces, cfg.blockSize)
  {
    FindParkedUnique(st.parked, i);
  }

  lemma PieceObjsFrame(swap: seq<seq<byte>>, swap': seq<seq<byte>>, pieces: seq<Piece>, blockSize: nat)
    requires IsFile(swap, blockSize) && IsFile(swap', blockSize) && |swap'| == |swap| && |pieces| <= 1
    requires forall i | 0 <= i < |pieces| :: PieceSound(swap, pieces[i], blockSize)
    requires forall b | b in PieceBlocks(pieces) && b < |swap| :: swap'[b] == swap[b]
    ensures forall i | 0 <= i < |pieces| :: PieceSound(swap', pieces[i], blockSize)
    ensures PieceObjs(swap', pieces, blockSize) == PieceObjs(swap, pieces, blockSize)
  {
    if pieces != [] {
      var p := pieces[0];
      assert PieceSound(swap, p, blockSize);
      forall j | 0 <= j < |p.blocks| ensures p.blocks[j] < |swap| && swap'[p.blocks[j]] == swap[p.blocks[j]] {
        assert pieces[0].blocks[j] in PieceBlocks(pieces);
      }
      ReadBlocksFrame(swap, swap', p.blocks, p.size, blockSize);
      assert PieceObjs(swap', pieces[1..], blockSize) == [] == PieceObjs(swap, pieces[1..], blockSize);
    }
  }

  // ---------- suspension ----------

  /** Adding a suspended entry that uses only blocks nobody else uses disturbs nobody. */
  lemma ParkKeepsSwapped(cfg: Config, st: Store, swap': seq<seq<byte>>, entry: Parked, q: nat)
    requires Sound(cfg, st) && FindParked(st.parked, entry.pid).None?
    requires IsFile(swap', cfg.blockSize) && |swap'| == |st.swap|
    requires |entry.pieces| <= 1 && forall j | 0 <= j < |entry.pieces| ::
        PieceSound(swap', entry.pieces[j], cfg.blockSize)
    requires PieceBlocks(entry.pieces) !! UsedBlocks(st.parked)
    requires forall b | 0 <= b < |st.swap| && b in UsedBlocks(st.parked) :: swap'[b] == st.swap[b]
    ensures ParkedSound(swap', st.parked + [entry], cfg.blockSize)
    ensures var st' := st.(swap := swap', parked := st.parked + [entry]);
      Swapped(cfg, st', q)
        == if q == entry.pid then PieceObjs(swap', entry.pieces, cfg.blockSize) else Swapped(cfg, st, q)
  {
    var st' := st.(swap := swap', parked := st.parked + [entry]);
    forall i | 0 <= i < |st.parked|
      ensures PieceBlocks(st.parked[i].pieces) <= UsedBlocks(st.parked)
      ensures forall j | 0 <= j < |st.parked[i].pieces| :: PieceSound(swap', st.parked[i].pieces[j], cfg.blockSize)
      ensures PieceObjs(swap', st.parked[i].pieces, cfg.blockSize)
          == PieceObjs(st.swap, st.parked[i].pieces, cfg.blockSize)
    {
      forall b | b in PieceBlocks(st.parked[i].pieces) ensures b in UsedBlocks(st.parked) {
        UsedBlocksMember(st.parked, b);
      }
      PieceObjsFrame(st.swap, swap', st.parked[i].pieces, cfg.blockSize);
    }
    assert Sound(cfg, st');
    FindParkedAppend(st.parked, entry, q);
    if q == entry.pid {
      SwappedAt(cfg, st', |st.parked|);
    }
  }

  lemma FindParkedAppend(parked: seq<Parked>, entry: Parked, q: nat)
    ensures FindParked(parked + [entry], q)
         == if FindParked(parked, q).Some? then FindParked(parked, q)
            else if entry.pid == q then Some(|parked|)
            else None
  {
    assert (parked + [entry])[..|parked|] == parked;
  }

  lemma SuspendNone(cfg: Config, st: Store, pid: nat)
    requires cfg.blockSize > 0 && pid in st.pids && Table(st.segs, pid) == []
    ensures Suspend(cfg, st, pid)
         == (st.(segs := Others(st.segs, pid), parked := st.parked + [Parked(pid, [])]), Ok)
  {
    assert SwapOut(cfg, st, Table(st.segs, pid), st.swap) == (st.swap, Some([]));
  }

  lemma SwapOutOne(cfg: Config, st: Store, s: Segment)
    requires cfg.blockSize > 0 && s.End() <= |st.mem|
    ensures SwapOut(cfg, st, [s], st.swap) ==
      match FreeBlocks(st.parked, |st.swap|, BlocksNeeded(s.size, cfg.blockSize))
      case None => (st.swap, None)
      case Some(blocks) =>
        (WriteBlocks(st.swap, blocks, Bytes(st.mem, s), cfg.blockSize), Some([Piece(s.id, s.size, blocks)]))
  {
    var found := FreeBlocks(st.parked, |st.swap|, BlocksNeeded(s.size, cfg.blockSize));
    assert [s][1..] == [];
    if found.Some? {
      var swap := WriteBlocks(st.swap, found.value, Bytes(st.mem, s), cfg.blockSize);
      assert SwapOut(cfg, st, [], swap) == (swap, Some([]));
      assert [Piece(s.id, s.size, found.value)] + [] == [Piece(s.id, s.size, found.value)];
    }
  }

  /** `process_suspend` of a single segment either fails and changes nothing or writes one piece. */
  lemma SuspendOne(cfg: Config, st: Store, pid: nat, s: Segment)
    requires cfg.blockSize > 0 && pid in st.pids && Table(st.segs, pid) == [s] && s.End() <= |st.mem|
    ensures Suspend(cfg, st, pid) ==
      match FreeBlocks(st.parked, |st.swap|, BlocksNeeded(s.size, cfg.blockSize))
      case None => (st, Error)
      case Some(blocks) =>
        (st.(segs := Others(st.segs, pid),
             swap := WriteBlocks(st.swap, blocks, Bytes(st.mem, s), cfg.blockSize),
             parked := st.parked + [Parked(pid, [Piece(s.id, s.size, blocks)])]), Ok)
  {
    SwapOutOne(cfg, st, s);
  }

  lemma SuspendedPiece(cfg: Config, st: Store, pid: nat, s: Segment, blocks: seq<nat>)
    requires Sound(cfg, st) && s.size > 0 && s.End() <= |st.mem|
    requires FreeBlocks(st.parked, |st.swap|, BlocksNeeded(s.size, cfg.blockSize)) == Some(blocks)
    ensures var swap := WriteBlocks(st.swap, blocks, Bytes(st.mem, s), cfg.blockSize);
      var pieces := [Piece(s.id, s.size, blocks)];
      && IsFile(swap, cfg.blockSize) && PieceSound(swap, pieces[0], cfg.blockSize)
      && PieceBlocks(pieces) !! UsedBlocks(st.parked)
      && (forall b | 0 <= b < |st.swap| && b in UsedBlocks(st.parked) :: swap[b] == st.swap[b])
      && PieceObjs(swap, pieces, cfg.blockSize) == [Obj(s.id, Bytes(st.mem, s))]
  {
    var data := Bytes(st.mem, s);
    var pieces := [Piece(s.id, s.size, blocks)];
    SwapRoundTrip(st.swap, blocks, data, cfg.blockSize);
    WriteBlocksFrame(st.swap, blocks, data, cfg.blockSize);
    forall b | b in PieceBlocks(pieces) ensures b in blocks {
      var i, j :| 0 <= i < |pieces| && 0 <= j < |pieces[i].blocks| && pieces[i].blocks[j] == b;
    }
    assert pieces[1..] == [];
  }

  lemma DropSegments(cfg: Config, st: Store, pid: nat, q: nat)
    requires Sound(cfg, st)
    ensures Sound(cfg, st.(segs := Others(st.segs, pid)))
    ensures View(cfg, st.(segs := Others(st.segs, pid)), q)
         == (if q == pid then [] else Resident(st.segs, st.mem, q)) + Swapped(cfg, st, q)
  {
    OthersDisjoint(st.segs, pid, |st.mem|);
    ResidentOthers(st.segs, st.mem, pid, q);
  }

  /** Suspending a process with at most one segment is invisible to it and to everybody else. */
  lemma SuspendKeepsViews(cfg: Config, st: Store, pid: nat, q: nat)
    requires Sound(cfg, st) && |Table(st.segs, pid)| <= 1 && FindParked(st.parked, pid).None?
    ensures Sound(cfg, Suspend(cfg, st, pid).0)
    ensures View(cfg, Suspend(cfg, st, pid).0, q) == View(cfg, st, q)
  {
    var table := Table(st.segs, pid);
    ResidentTable(st.segs, st.mem, pid);
    if pid in st.pids && table == [] {
      SuspendNone(cfg, st, pid);
      SuspendAs(cfg, st, pid, st.swap, [], q);
    } else if pid in st.pids {
      var s := table[0];
      assert table == [s];
      TableInside(st.segs, pid, 0, |st.mem|);
      SuspendOne(cfg, st, pid, s);
      var found := FreeBlocks(st.parked, |st.swap|, BlocksNeeded(s.size, cfg.blockSize));
      if found.Some? {
        SuspendedPiece(cfg, st, pid, s, found.value);
        var swap := WriteBlocks(st.swap, found.value, Bytes(st.mem, s), cfg.blockSize);
        SuspendAs(cfg, st, pid, swap, [Piece(s.id, s.size, found.value)], q);
      }
    }
  }

  lemma SuspendAs(cfg: Config, st: Store, pid: nat, swap: seq<seq<byte>>, pieces: seq<Piece>, q: nat)
    requires Sound(cfg, st) && FindParked(st.parked, pid).None?
    requires IsFile(swap, cfg.blockSize) && |swap| == |st.swap|
    requires |pieces| <= 1 && forall j | 0 <= j < |pieces| :: PieceSound(swap, pieces[j], cfg.blockSize)
    requires PieceBlocks(pieces) !! UsedBlocks(st.parked)
    requires forall b | 0 <= b < |st.swap| && b in UsedBlocks(st.parked) :: swap[b] == st.swap[b]
    requires PieceObjs(swap, pieces, cfg.blockSize) == Resident(st.segs, st.mem, pid)
    ensures var st' := st.(segs := Others(st.segs, pid), swap := swap, parked := st.parked + [Parked(pid, pieces)]);
      Sound(cfg, st') && View(cfg, st', q) == View(cfg, st, q)
  {
    var entry := Parked(pid, pieces);
    var st2 := st.(swap := swap, parked := st.parked + [entry]);
    ParkKeepsSwapped(cfg, st, swap, entry, q);
    DropSegments(cfg, st2, pid, q);
  }

  lemma TableInside(segs: seq<Segment>, pid: nat, k: nat, total: nat)
    requires Disjoint(segs, total) && k < |Table(segs, pid)|
    ensures Table(segs, pid)[k].size > 0 && Table(segs, pid)[k].End() <= total
  {
    InTable(segs, pid, k);
  }

  // ---------- resumption ----------

  lemma FindParkedRemove(parked: seq<Parked>, i: nat, q: nat)
    requires i < |parked|
    requires forall j, k | 0 <= j < |parked| && 0 <= k < |parked| && j != k :: parked[j].pid != parked[k].pid
    ensures var rest := Remove(parked, i);
      && (q == parked[i].pid ==> FindParked(rest, q).None?)
      && (q != parked[i].pid ==>
           (FindParked(rest, q).Some? <==> FindParked(parked, q).Some?)
           && (FindParked(rest, q).Some? ==> rest[FindParked(rest, q).value] == parked[FindParked(parked, q).value]))
  {
    var rest := Remove(parked, i);
    assert forall k | 0 <= k < |rest| :: rest[k] == parked[if k < i then k else k + 1];
    if q != parked[i].pid && FindParked(parked, q).Some? {
      var j := FindParked(parked, q).value;
      assert rest[if j < i then j else j - 1] == parked[j];
    }
  }

  /** Dropping a suspended entry leaves every other suspended process as it was. */
  lemma UnparkKeepsSwapped(cfg: Config, st: Store, i: nat, q: nat)
    requires Sound(cfg, st) && i < |st.parked|
    ensures var st' := st.(parked := Remove(st.parked, i));
      && Sound(cfg, st')
      && Swapped(cfg, st', q) == if q == st.parked[i].pid then [] else Swapped(cfg, st, q)
  {
    var rest := Remove(st.parked, i);
    assert forall k | 0 <= k < |rest| :: rest[k] == st.parked[if k < i then k else k + 1];
    FindParkedRemove(st.parked, i, q);
  }

  /** `process_desuspend` of a single piece. */
  lemma DesuspendOne(cfg: Config, st: Store, pid: nat, i: nat, p: Piece)
    requires Sound(cfg, st) && FindParked(st.parked, pid) == Some(i) && st.parked[i].pieces == [p]
    ensures ReadablePieces(st, st.parked[i].pieces)
    ensures forall k | 0 <= k < |st.parked| :: ReadablePieces(st, st.parked[k].pieces)
    ensures PieceSound(st.swap, p, cfg.blockSize)
    ensures Desuspend(cfg, st, pid) ==
      match ChooseHole(cfg, st, p.size)
      case None => (st, Error)
      case Some(hole) =>
        var mem := Overwrite(st.mem, hole.base, ReadBlocks(st.swap, p.blocks, p.size, cfg.blockSize));
        if pid !in st.pids then (st.(mem := mem), Error)
        else
          var segs := st.segs + [Segment(pid, p.id, hole.base, p.size)];
          (st.(mem := mem, segs := segs, parked := Remove(st.parked, i)), Ok)
  {
    assert PieceSound(st.swap, st.parked[i].pieces[0], cfg.blockSize);
    match ChooseHole(cfg, st, p.size)
    case None =>
      assert SwapIn(cfg, st, pid, [p], st.mem) == (st.mem, None);
    case Some(hole) =>
      var mem := Overwrite(st.mem, hole.base, ReadBlocks(st.swap, p.blocks, p.size, cfg.blockSize));
      assert [p][1..] == [];
      assert SwapIn(cfg, st, pid, [], mem) == (mem, Some([]));
      assert [Segment(pid, p.id, hole.base, p.size)] + [] == [Segment(pid, p.id, hole.base, p.size)];
      assert SwapIn(cfg, st, pid, [p], st.mem) == (mem, Some([Segment(pid, p.id, hole.base, p.size)]));
  }

  /** Writing where no segment lies is invisible. */
  lemma WriteFree(cfg: Config, st: Store, s: Segment, data: seq<byte>, q: nat)
    requires Sound(cfg, st) && s.End() <= |st.mem| && |data| == s.size
    requires forall k | 0 <= k < |st.segs| :: Apart(st.segs[k], s)
    ensures var st' := st.(mem := Overwrite(st.mem, s.base, data));
      Sound(cfg, st') && View(cfg, st', q) == View(cfg, st, q) && Bytes(st'.mem, s) == data
  {
    var mem := Overwrite(st.mem, s.base, data);
    forall k | 0 <= k < |st.segs| ensures Bytes(mem, st.segs[k]) == Bytes(st.mem, st.segs[k]) {
      assert Apart(st.segs[k], s);
    }
    ResidentFrame(st.segs, st.mem, st.segs, mem, q);
  }

  /** Resuming a process is invisible to it and to everybody else, wherever the hole is and whether or not
      there is one. */
  lemma DesuspendKeepsViews(cfg: Config, st: Store, pid: nat, q: nat)
    requires Sound(cfg, st)
    ensures forall k | 0 <= k < |st.parked| :: ReadablePieces(st, st.parked[k].pieces)
    ensures Sound(cfg, Desuspend(cfg, st, pid).0)
    ensures View(cfg, Desuspend(cfg, st, pid).0, q) == View(cfg, st, q)
  {
    PiecesReadable(cfg, st);
    if FindParked(st.parked, pid).Some? {
      var i := FindParked(st.parked, pid).value;
      if st.parked[i].pieces == [] {
        assert SwapIn(cfg, st, pid, [], st.mem) == (st.mem, Some([]));
        assert st.segs + [] == st.segs;
        UnparkKeepsSwapped(cfg, st, i, q);
      } else {
        var p := st.parked[i].pieces[0];
        assert st.parked[i].pieces == [p];
        DesuspendOne(cfg, st, pid, i, p);
        if ChooseHole(cfg, st, p.size).Some? {
          ResumePiece(cfg, st, pid, i, p, ChooseHole(cfg, st, p.size).value, q);
        }
      }
    }
  }

  lemma PiecesReadable(cfg: Config, st: Store)
    requires Sound(cfg, st)
    ensures forall k | 0 <= k < |st.parked| :: ReadablePieces(st, st.parked[k].pieces)
  {
    forall k, i | 0 <= k < |st.parked| && 0 <= i < |st.parked[k].pieces|
      ensures PieceSound(st.swap, st.parked[k].pieces[i], cfg.blockSize)
    {
    }
  }

  lemma ResumePiece(cfg: Config, st: Store, pid: nat, i: nat, p: Piece, hole: Hole, q: nat)
    requires Sound(cfg, st) && FindParked(st.parked, pid) == Some(i) && st.parked[i].pieces == [p]
    requires PieceSound(st.swap, p, cfg.blockSize) && ChooseHole(cfg, st, p.size) == Some(hole)
    ensures var data := ReadBlocks(st.swap, p.blocks, p.size, cfg.blockSize);
      var st1 := st.(mem := Overwrite(st.mem, hole.base, data));
      var st2 := st1.(segs := st.segs + [Segment(pid, p.id, hole.base, p.size)], parked := Remove(st.parked, i));
      && Sound(cfg, st1) && View(cfg, st1, q) == View(cfg, st, q)
      && (pid in st.pids ==> Sound(cfg, st2) && View(cfg, st2, q) == View(cfg, st, q))
  {
    var s := Segment(pid, p.id, hole.base, p.size);
    var data := ReadBlocks(st.swap, p.blocks, p.size, cfg.blockSize);
    var st1 := st.(mem := Overwrite(st.mem, hole.base, data));
    var stu := st1.(parked := Remove(st.parked, i));
    ReadBlocksSize(st.swap, p.blocks, p.size, cfg.blockSize);
    ChosenHoleFree(cfg, st, pid, p.id, p.size);
    WriteFree(cfg, st, s, data, q);
    if pid in st.pids {
      UnparkKeepsSwapped(cfg, st1, i, q);
      FindParkedRemove(st.parked, i, q);
      AppendSegment(cfg, stu, s, q);
      assert PieceObjs(st.swap, [p], cfg.blockSize) == [Obj(p.id, data)] + PieceObjs(st.swap, [p][1..], cfg.blockSize);
    }
  }

  // ---------- when they succeed ----------

  /** A process with at most one segment is suspended exactly when it is known and as many swap blocks are
      unused as its segment fills. */
  lemma SuspendSucceedsIff(cfg: Config, st: Store, pid: nat)
    requires Sound(cfg, st) && |Table(st.segs, pid)| <= 1
    ensures Suspend(cfg, st, pid).1 == if
      && pid in st.pids
      && (Table(st.segs, pid) != [] ==>
           BlocksNeeded(Table(st.segs, pid)[0].size, cfg.blockSize)
             <= |UnusedFrom(UsedBlocks(st.parked), 0, |st.swap|)|) then Ok else Error
  {
    hide Table, Others, FreeBlocks, UsedBlocks, UnusedFrom, SwapOut, WriteBlocks;
    var table := Table(st.segs, pid);
    if pid in st.pids && table == [] {
      SuspendNone(cfg, st, pid);
    } else if pid in st.pids {
      assert table == [table[0]];
      TableInside(st.segs, pid, 0, |st.mem|);
      SuspendOne(cfg, st, pid, table[0]);
      FreeBlocksIff(st.parked, |st.swap|, BlocksNeeded(table[0].size, cfg.blockSize));
    }
  }

  /** A process is resumed exactly when it is known and suspended and for its piece, if it has one, enough
      bytes in a row are free: nothing is compacted for it. */
  lemma ResumeSucceedsIff(cfg: Config, st: Store, pid: nat)
    requires Sound(cfg, st)
    ensures forall k | 0 <= k < |st.parked| :: ReadablePieces(st, st.parked[k].pieces)
    ensures Desuspend(cfg, st, pid).1 == if
      && pid in st.pids && FindParked(st.parked, pid).Some?
      && var pieces := st.parked[FindParked(st.parked, pid).value].pieces;
         (pieces != [] ==> HasRoom(st, pieces[0].size)) then Ok else Error
  {
    hide HasRoom, FindParked, ReadBlocks;
    PiecesReadable(cfg, st);
    if FindParked(st.parked, pid).Some? {
      var i := FindParked(st.parked, pid).value;
      if st.parked[i].pieces == [] {
        assert SwapIn(cfg, st, pid, [], st.mem) == (st.mem, Some([]));
      } else {
        var p := st.parked[i].pieces[0];
        assert st.parked[i].pieces == [p];
        DesuspendOne(cfg, st, pid, i, p);
        RoomExact(cfg, st, p.size);
      }
    }
  }
}
