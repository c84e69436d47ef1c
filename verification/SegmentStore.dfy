/**
 Kernel Memory as a value: physical memory, the segment tables, the swap file and the suspended processes,
 with one function for every request it serves (kernel_memory/src/memory_manage.c).
*/
module SegmentStore {
  import opened Base
  import opened Segments
  import opened SwapBlocks

  datatype Config = Config(strategy: Strategy, blockSize: nat)

  /** `segs` holds all segment tables in one list; the table of a process is the part it owns, in order. */
  datatype Store = Store(mem: seq<byte>, pids: seq<nat>, segs: seq<Segment>, swap: seq<seq<byte>>, parked: seq<Parked>)

  /** `Waits`: the request goes on once the scheduler has cleared the CPUs for a compaction. */
  datatype Result = Ok | NoSpace | Error | Waits

  // ---------- segment tables ----------

  /** The segment table of process `pid`. */
  function Table(segs: seq<Segment>, pid: nat): (r: seq<Segment>)
    ensures forall k | 0 <= k < |r| :: r[k].owner == pid
  {
    if segs == [] then []
    else
      var last := segs[|segs| - 1];
      Table(segs[..|segs| - 1], pid) + if last.owner == pid then [last] else []
  }

  /** The segments that process `pid` does not own. */
  function Others(segs: seq<Segment>, pid: nat): seq<Segment> {
    if segs == [] then []
    else
      var last := segs[|segs| - 1];
      Others(segs[..|segs| - 1], pid) + if last.owner == pid then [] else [last]
  }

  /** Position of the first segment of `pid` with the given id: `list_find` on its table. */
  function FindSegment(segs: seq<Segment>, pid: nat, id: u32): (r: Option<nat>)
    ensures r.Some? ==> r.value < |segs| && segs[r.value].owner == pid && segs[r.value].id == id
    ensures forall k | 0 <= k < |segs| && segs[k].owner == pid && segs[k].id == id :: r.Some? && r.value <= k
  {
    if segs == [] then None
    else
      var last := |segs| - 1;
      var r := FindSegment(segs[..last], pid, id);
      if r.Some? then r
      else if segs[last].owner == pid && segs[last].id == id then Some(last)
      else None
  }

  /** Position of the first suspended entry of `pid`. */
  function FindParked(parked: seq<Parked>, pid: nat): (r: Option<nat>)
    ensures r.Some? ==> r.value < |parked| && parked[r.value].pid == pid
    ensures forall k | 0 <= k < |parked| && parked[k].pid == pid :: r.Some? && r.value <= k
  {
    if parked == [] then None
    else
      var last := |parked| - 1;
      var r := FindParked(parked[..last], pid);
      if r.Some? then r else if parked[last].pid == pid then Some(last) else None
  }

  function Remove<T>(s: seq<T>, i: nat): seq<T>
    requires i < |s|
  {
    s[..i] + s[i + 1..]
  }

  // ---------- requests ----------

  function Compact(st: Store): Store {
    var (mem, segs) := Compacted(st.mem, st.segs);
    st.(mem := mem, segs := segs)
  }

  function ChooseHole(cfg: Config, st: Store, size: nat): Option<Hole> {
    var holes := Holes(st.segs, |st.mem|);
    match Choose(cfg.strategy, holes, size)
    case None => None
    case Some(i) => Some(holes[i])
  }

  /** The end of `segment_create`: a hole is chosen and the segment added to the table. */
  function Place(cfg: Config, st: Store, pid: nat, id: u32, size: nat): (Store, Result) {
    match ChooseHole(cfg, st, size)
    case None => (st, Error)
    case Some(hole) =>
      if pid !in st.pids then (st, Error)
      else (st.(segs := st.segs + [Segment(pid, id, hole.base, size)]), Ok)
  }

  /** The beginning of `segment_create`: the free space is checked, and the segment placed if a hole is large
      enough; if not, a compaction is asked for and other requests are served until it may begin. */
  function Begin(cfg: Config, st: Store, pid: nat, id: u32, size: nat): (Store, Result) {
    if SumHoles(Holes(st.segs, |st.mem|)) < size then (st, NoSpace)
    else if ChooseHole(cfg, st, size).None? then (st, Waits)
    else Place(cfg, st, pid, id, size)
  }

  /** `segment_create` when no other request is served while it waits. */
  function Create(cfg: Config, st: Store, pid: nat, id: u32, size: nat): (Store, Result) {
    var begun := Begin(cfg, st, pid, id, size);
    if begun.1 == Waits then Place(cfg, Compact(st), pid, id, size) else begun
  }

  /** `segment_delete` */
  function Delete(st: Store, pid: nat, id: u32): (Store, Result) {
    match FindSegment(st.segs, pid, id)
    case None => (st, Error)
    case Some(i) => if pid !in st.pids then (st, Error) else (st.(segs := Remove(st.segs, i)), Ok)
  }

  /** The loop of `process_suspend`: every segment asks for free blocks against the same suspended list. */
  function SwapOut(
    cfg: Config, st: Store, table: seq<Segment>, swap: seq<seq<byte>>): (r: (seq<seq<byte>>, Option<seq<Piece>>))
    requires cfg.blockSize > 0 && |swap| == |st.swap|
    ensures |r.0| == |swap|
    ensures r.1.Some? ==> |r.1.value| == |table|
    decreases |table|
  {
    if table == [] then (swap, Some([]))
    else
      var s := table[0];
      match FreeBlocks(st.parked, |st.swap|, BlocksNeeded(s.size, cfg.blockSize))
      case None => (swap, None)
      case Some(blocks) =>
        if s.End() > |st.mem| then (swap, None)
        else
          var r := SwapOut(cfg, st, table[1..], WriteBlocks(swap, blocks, Bytes(st.mem, s), cfg.blockSize));
          (r.0, if r.1.None? then None else Some([Piece(s.id, s.size, blocks)] + r.1.value))
  }

  /** `process_suspend` */
  function Suspend(cfg: Config, st: Store, pid: nat): (Store, Result)
    requires cfg.blockSize > 0
  {
    if pid !in st.pids then (st, Error)
    else
      var (swap, pieces) := SwapOut(cfg, st, Table(st.segs, pid), st.swap);
      if pieces.None? then (st.(swap := swap), Error)
      else (st.(swap := swap, segs := Others(st.segs, pid), parked := st.parked + [Parked(pid, pieces.value)]), Ok)
  }

  ghost predicate ReadablePieces(st: Store, pieces: seq<Piece>) {
    forall i | 0 <= i < |pieces| :: forall j | 0 <= j < |pieces[i].blocks| :: pieces[i].blocks[j] < |st.swap|
  }

  /** The first phase of `process_desuspend`: every piece goes to a hole of the same, unchanged tables. */
  function SwapIn(
    cfg: Config, st: Store, pid: nat, pieces: seq<Piece>, mem: seq<byte>): (r: (seq<byte>, Option<seq<Segment>>))
    requires IsFile(st.swap, cfg.blockSize) && ReadablePieces(st, pieces) && |mem| == |st.mem|
    ensures |r.0| == |mem|
    decreases |pieces|
  {
    if pieces == [] then (mem, Some([]))
    else
      var p := pieces[0];
      match ChooseHole(cfg, st, p.size)
      case None => (mem, None)
      case Some(hole) =>
        var data := ReadBlocks(st.swap, p.blocks, p.size, cfg.blockSize);
        var r := SwapIn(cfg, st, pid, pieces[1..], Overwrite(mem, hole.base, data));
        (r.0, if r.1.None? then None else Some([Segment(pid, p.id, hole.base, p.size)] + r.1.value))
  }

  /** `process_desuspend` */
  function Desuspend(cfg: Config, st: Store, pid: nat): (Store, Result)
    requires IsFile(st.swap, cfg.blockSize)
    requires forall i | 0 <= i < |st.parked| :: ReadablePieces(st, st.parked[i].pieces)
  {
    match FindParked(st.parked, pid)
    case None => (st, Error)
    case Some(i) =>
      var (mem, segs) := SwapIn(cfg, st, pid, st.parked[i].pieces, st.mem);
      if segs.None? || pid !in st.pids then (st.(mem := mem), Error)
      else (st.(mem := mem, segs := st.segs + segs.value, parked := Remove(st.parked, i)), Ok)
  }

  /** PROCESS_CREATE and PROCESS_END of the scheduler's handler. */
  function Admit(st: Store, pid: nat): (Store, Result) {
    (st.(pids := st.pids + [pid]), Ok)
  }

  function Finish(st: Store, pid: nat): (Store, Result) {
    if pid !in st.pids then (st, Error)
    else (st.(pids := Without(st.pids, pid), segs := Others(st.segs, pid)), Ok)
  }

  /** A memory stick with the given contents is connected. */
  function AddStick(st: Store, stick: seq<byte>): (Store, Result) {
    (st.(mem := st.mem + stick), Ok)
  }

  /** A write of `data` at `offset` of the `k`-th segment of a process, as the MMU lets through. */
  function Poke(st: Store, pid: nat, k: nat, offset: nat, data: seq<byte>): (Store, Result) {
    var table := Table(st.segs, pid);
    if k < |table| && offset + |data| <= table[k].size
    then (st.(mem := Overwrite(st.mem, table[k].base + offset, data)), Ok)
    else (st, Error)
  }
}
