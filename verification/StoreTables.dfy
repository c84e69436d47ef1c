/**
 Requests about one process leave the segment tables of the others as they are, addresses included, as
 long as nothing is compacted: what the CPUs that run them need.
*/
module StoreTables {
  import opened Base
  import opened Segments
  import opened SwapBlocks
  import opened SegmentStore
  import opened StoreViews
  import opened StoreSwap
  import opened StoreRuns

  lemma {:induction false} TableConcat(a: seq<Segment>, b: seq<Segment>, q: nat)
    ensures Table(a + b, q) == Table(a, q) + Table(b, q)
  {
    if b == [] {
      assert a + b == a;
    } else {
      var n := |b| - 1;
      TableConcat(a, b[..n], q);
      assert (a + b)[..|a + b| - 1] == a + b[..n];
    }
  }

  lemma {:induction false} TableForeign(segs: seq<Segment>, q: nat)
    requires forall k | 0 <= k < |segs| :: segs[k].owner != q
    ensures Table(segs, q) == []
  {
    if segs != [] {
      TableForeign(segs[..|segs| - 1], q);
    }
  }

  lemma TableOne(s: Segment, q: nat)
    ensures Table([s], q) == if s.owner == q then [s] else []
  {
    assert [s][..0] == [];
    assert Table([s][..0], q) == [];
  }

  lemma {:induction false} TableOthers(segs: seq<Segment>, pid: nat, q: nat)
    requires pid != q
    ensures Table(Others(segs, pid), q) == Table(segs, q)
  {
    if segs != [] {
      var n := |segs| - 1;
      TableOthers(segs[..n], pid, q);
      var rest := Others(segs[..n], pid);
      assert Others(segs, pid) == if segs[n].owner == pid then rest else rest + [segs[n]];
      TableConcat(rest, [segs[n]], q);
      TableOne(segs[n], q);
    }
  }

  lemma TableRemove(segs: seq<Segment>, i: nat, q: nat)
    requires i < |segs| && segs[i].owner != q
    ensures Table(Remove(segs, i), q) == Table(segs, q)
  {
    TableConcat(segs[..i], segs[i + 1..], q);
    TableConcat(segs[..i], [segs[i]], q);
    TableConcat(segs[..i] + [segs[i]], segs[i + 1..], q);
    TableForeign([segs[i]], q);
    assert segs == segs[..i] + [segs[i]] + segs[i + 1..];
  }

  lemma TableAppend(segs: seq<Segment>, more: seq<Segment>, q: nat)
    requires forall k | 0 <= k < |more| :: more[k].owner != q
    ensures Table(segs + more, q) == Table(segs, q)
  {
    TableConcat(segs, more, q);
    TableForeign(more, q);
  }

  lemma {:induction false} SwapInOwner(cfg: Config, st: Store, pid: nat, pieces: seq<Piece>, mem: seq<byte>)
    requires IsFile(st.swap, cfg.blockSize) && ReadablePieces(st, pieces) && |mem| == |st.mem|
    ensures var r := SwapIn(cfg, st, pid, pieces, mem);
      r.1.Some? ==> forall k | 0 <= k < |r.1.value| :: r.1.value[k].owner == pid
    decreases |pieces|
  {
    hide ChooseHole, Overwrite, ReadBlocks;
    if pieces != [] && ChooseHole(cfg, st, pieces[0].size).Some? {
      var p := pieces[0];
      var data := ReadBlocks(st.swap, p.blocks, p.size, cfg.blockSize);
      SwapInOwner(cfg, st, pid, pieces[1..], Overwrite(mem, ChooseHole(cfg, st, p.size).value.base, data));
    }
  }

  /** Whether a request moves segments that are in memory. */
  ghost predicate Moves(cfg: Config, st: Store, req: Request) {
    match req
    case CreateSegment(pid, id, size) => Begin(cfg, st, pid, id, size).1 == Waits
    case CompactMemory => true
    case _ => false
  }

  /** The process a request is about, if it is about one. */
  ghost predicate About(req: Request, q: nat) {
    match req
    case CompactMemory => false
    case ConnectStick(_) => false
    case _ => req.pid == q
  }

  /** `q` is as much in memory as it was, at the same places. */
  ghost predicate Undisturbed(st: Store, st': Store, q: nat) {
    && Table(st'.segs, q) == Table(st.segs, q)
    && (FindParked(st.parked, q).None? ==> FindParked(st'.parked, q).None?)
  }

  lemma SuspendUndisturbed(cfg: Config, st: Store, pid: nat, q: nat)
    requires cfg.blockSize > 0 && pid != q
    ensures Undisturbed(st, Suspend(cfg, st, pid).0, q)
  {
    hide SwapOut;
    TableOthers(st.segs, pid, q);
    var pieces := SwapOut(cfg, st, Table(st.segs, pid), st.swap).1;
    if pieces.Some? {
      FindParkedAppend(st.parked, Parked(pid, pieces.value), q);
    }
  }

  lemma DesuspendUndisturbed(cfg: Config, st: Store, pid: nat, q: nat)
    requires Readable(cfg, st) && pid != q
    ensures Undisturbed(st, Desuspend(cfg, st, pid).0, q)
  {
    hide SwapIn;
    if FindParked(st.parked, pid).Some? {
      var i := FindParked(st.parked, pid).value;
      SwapInOwner(cfg, st, pid, st.parked[i].pieces, st.mem);
      var r := SwapIn(cfg, st, pid, st.parked[i].pieces, st.mem);
      if r.1.Some? {
        TableAppend(st.segs, r.1.value, q);
      }
    }
  }

  lemma PlaceUndisturbed(cfg: Config, st: Store, pid: nat, id: u32, size: nat, q: nat)
    requires pid != q
    ensures Undisturbed(st, Place(cfg, st, pid, id, size).0, q)
  {
    hide Holes, Choose, FindParked;
    if Place(cfg, st, pid, id, size).1 == Ok {
      TableAppend(st.segs, [Segment(pid, id, ChooseHole(cfg, st, size).value.base, size)], q);
    }
  }

  lemma ServeUndisturbed(cfg: Config, st: Store, req: Request, q: nat)
    requires Sound(cfg, st) && Orderly(st, req) && Readable(cfg, st)
    requires !Moves(cfg, st, req) && !About(req, q)
    ensures Undisturbed(st, Serve(cfg, st, req).0, q)
  {
    hide Place, Suspend, Desuspend, Sound, Others, Table, FindParked, Holes, SumHoles, Choose;
    match req
    case FinishProcess(pid) => TableOthers(st.segs, pid, q);
    case CreateSegment(pid, id, size) => PlaceUndisturbed(cfg, st, pid, id, size, q);
    case BeginSegment(pid, id, size) => PlaceUndisturbed(cfg, st, pid, id, size, q);
    case PlaceSegment(pid, id, size) => PlaceUndisturbed(cfg, st, pid, id, size, q);
    case DeleteSegment(pid, id) =>
      if FindSegment(st.segs, pid, id).Some? {
        TableRemove(st.segs, FindSegment(st.segs, pid, id).value, q);
      }
    case SuspendProcess(pid) => SuspendUndisturbed(cfg, st, pid, q);
    case ResumeProcess(pid) => DesuspendUndisturbed(cfg, st, pid, q);
    case _ =>
  }

  /** Only a new stick changes the size of memory; processes come and go only by their own requests. */
  lemma ServeSize(cfg: Config, st: Store, req: Request)
    requires Sound(cfg, st) && Orderly(st, req) && Readable(cfg, st)
    ensures var st' := Serve(cfg, st, req).0;
      && |st'.mem| == |st.mem| + (if req.ConnectStick? then |req.stick| else 0)
      && (forall q :: q in st'.pids <==>
           if req == AdmitProcess(q) then true else if req == FinishProcess(q) then false else q in st.pids)
  {
    hide SwapOut, SwapIn, Choose, Holes, FindParked, FindSegment, Table, Others;
    if req.FinishProcess? {
      WithoutDistinct(st.pids, req.pid);
    }
  }
}
