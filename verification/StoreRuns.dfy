/**
 Whole runs of Kernel Memory, and the simple machine they refine: a map from live processes to lists of
 byte strings in which a request can only touch the segment it names.
*/
module StoreRuns {
  import opened Base
  import opened Segments
  import opened SwapBlocks
  import opened SegmentStore
  import opened StoreViews
  import opened StoreRequests
  import opened StoreSwap

  /** `segment_create` is `CreateSegment` if no other request is served while it waits for a compaction; in
      general it is `BeginSegment` and, if that waits, `CompactMemory` and `PlaceSegment`, with any requests
      in between. */
  datatype Request =
    | AdmitProcess(pid: nat)
    | FinishProcess(pid: nat)
    | CreateSegment(pid: nat, id: u32, size: nat)
    | BeginSegment(pid: nat, id: u32, size: nat)
    | PlaceSegment(pid: nat, id: u32, size: nat)
    | DeleteSegment(pid: nat, id: u32)
    | CompactMemory
    | ConnectStick(stick: seq<byte>)
    | WriteSegment(pid: nat, k: nat, offset: nat, data: seq<byte>)
    | SuspendProcess(pid: nat)
    | ResumeProcess(pid: nat)

  /** The swap file has the announced block size and suspended entries point into it. */
  ghost predicate Readable(cfg: Config, st: Store) {
    IsFile(st.swap, cfg.blockSize) && forall k | 0 <= k < |st.parked| :: ReadablePieces(st, st.parked[k].pieces)
  }

  ghost function Serve(cfg: Config, st: Store, req: Request): (Store, Result)
    requires Readable(cfg, st)
  {
    match req
    case AdmitProcess(pid) => Admit(st, pid)
    case FinishProcess(pid) => Finish(st, pid)
    case CreateSegment(pid, id, size) => Create(cfg, st, pid, id, size)
    case BeginSegment(pid, id, size) => Begin(cfg, st, pid, id, size)
    case PlaceSegment(pid, id, size) => Place(cfg, st, pid, id, size)
    case DeleteSegment(pid, id) => Delete(st, pid, id)
    case CompactMemory => (Compact(st), Ok)
    case ConnectStick(stick) => AddStick(st, stick)
    case WriteSegment(pid, k, offset, data) => Poke(st, pid, k, offset, data)
    case SuspendProcess(pid) => Suspend(cfg, st, pid)
    case ResumeProcess(pid) => Desuspend(cfg, st, pid)
  }

  /** What the Kernel Scheduler keeps to: a pid is handed out once, segments are not empty, a swapped-out
      process makes no memory request and is not swapped out again; and, for the swap file to be safe, a
      process is swapped out with at most one segment. */
  ghost predicate Orderly(st: Store, req: Request) {
    match req
    case AdmitProcess(pid) => pid !in st.pids && FindParked(st.parked, pid).None?
    case CreateSegment(pid, _, size) => size > 0 && FindParked(st.parked, pid).None?
    case BeginSegment(pid, _, size) => size > 0 && FindParked(st.parked, pid).None?
    case PlaceSegment(pid, _, size) => size > 0 && FindParked(st.parked, pid).None?
    case DeleteSegment(pid, _) => FindParked(st.parked, pid).None?
    case WriteSegment(pid, _, _, _) => FindParked(st.parked, pid).None?
    case SuspendProcess(pid) => FindParked(st.parked, pid).None? && |Table(st.segs, pid)| <= 1
    case _ => true
  }

  // ---------- the simple machine ----------

  type Contents = map<nat, seq<Obj>>

  ghost function Abstract(cfg: Config, st: Store): Contents
    requires Sound(cfg, st)
  {
    map pid | pid in st.pids :: View(cfg, st, pid)
  }

  /** The process whose segments a request may change. */
  ghost predicate Names(req: Request, q: nat) {
    match req
    case AdmitProcess(pid) => q == pid
    case FinishProcess(pid) => q == pid
    case CreateSegment(pid, _, _) => q == pid
    case BeginSegment(pid, _, _) => q == pid
    case PlaceSegment(pid, _, _) => q == pid
    case DeleteSegment(pid, _) => q == pid
    case WriteSegment(pid, _, _, _) => q == pid
    case _ => false
  }

  /** A segment was appended to the process's, or, unless the result is `Ok`, nothing happened. */
  ghost predicate Appends(a: Contents, pid: nat, id: u32, size: nat, r: Result, a': Contents) {
    && (pid in a' <==> pid in a)
    && (r == Ok ==> pid in a && Grown(a[pid], a'[pid], id, size))
    && (r != Ok && pid in a ==> a'[pid] == a[pid])
  }

  /** What a request does to the process it names. */
  ghost predicate Acts(a: Contents, req: Request, r: Result, a': Contents) {
    match req
    case AdmitProcess(pid) => r == Ok && pid in a' && a'[pid] == []
    case FinishProcess(pid) => (r == Ok <==> pid in a) && pid !in a'
    case CreateSegment(pid, id, size) => Appends(a, pid, id, size, r, a')
    case BeginSegment(pid, id, size) => Appends(a, pid, id, size, r, a')
    case PlaceSegment(pid, id, size) => Appends(a, pid, id, size, r, a')
    case DeleteSegment(pid, id) =>
      && (pid in a' <==> pid in a)
      && (r == Ok <==> pid in a && exists k :: 0 <= k < |a[pid]| && a[pid][k].id == id)
      && (r == Ok ==> Shrunk(a[pid], a'[pid], id))
      && (r != Ok && pid in a ==> a'[pid] == a[pid])
    case WriteSegment(pid, k, offset, data) =>
      && (pid in a' <==> pid in a)
      && (r == Ok <==> pid in a && k < |a[pid]| && offset + |data| <= |a[pid][k].bytes|)
      && (pid in a ==> a'[pid] == if r != Ok then a[pid]
            else a[pid][k := Obj(a[pid][k].id, Splice(a[pid][k].bytes, offset, data))])
    case _ => true
  }

  /** One step of the simple machine: the named process is acted on, everybody else is left alone.
      Compaction, new sticks, suspension and resumption name nobody. */
  ghost predicate Next(a: Contents, req: Request, r: Result, a': Contents) {
    && Acts(a, req, r, a')
    && forall q | !Names(req, q) :: (q in a' <==> q in a) && (q in a ==> a'[q] == a[q])
  }

  /** Exactly when a request succeeds, in terms of what is free: bytes in total for a creation, bytes in a row
      where nothing is compacted, swap blocks for a suspension. */
  ghost predicate Succeeds(cfg: Config, st: Store, req: Request)
    requires Sound(cfg, st)
  {
    match req
    case AdmitProcess(_) => true
    case FinishProcess(pid) => pid in st.pids
    case CreateSegment(pid, _, size) => pid in st.pids && SumSizes(st.segs) + size <= |st.mem|
    case BeginSegment(pid, _, size) => pid in st.pids && HasRoom(st, size)
    case PlaceSegment(pid, _, size) => pid in st.pids && HasRoom(st, size)
    case DeleteSegment(pid, id) =>
      pid in st.pids && exists k :: 0 <= k < |View(cfg, st, pid)| && View(cfg, st, pid)[k].id == id
    case CompactMemory => true
    case ConnectStick(_) => true
    case WriteSegment(pid, k, offset, data) =>
      k < |View(cfg, st, pid)| && offset + |data| <= |View(cfg, st, pid)[k].bytes|
    case SuspendProcess(pid) =>
      && pid in st.pids
      && (Table(st.segs, pid) != [] ==>
           BlocksNeeded(Table(st.segs, pid)[0].size, cfg.blockSize)
             <= |UnusedFrom(UsedBlocks(st.parked), 0, |st.swap|)|)
    case ResumeProcess(pid) =>
      && pid in st.pids && FindParked(st.parked, pid).Some?
      && var pieces := st.parked[FindParked(st.parked, pid).value].pieces;
         (pieces != [] ==> HasRoom(st, pieces[0].size))
  }

  // ---------- one step ----------

  lemma ServeSound(cfg: Config, st: Store, req: Request)
    requires Sound(cfg, st) && Orderly(st, req)
    ensures Readable(cfg, st)
    ensures Sound(cfg, Serve(cfg, st, req).0)
  {
    PiecesReadable(cfg, st);
    match req
    case AdmitProcess(pid) => AdmitKeepsViews(cfg, st, pid, 0);
    case FinishProcess(pid) => FinishKeepsViews(cfg, st, pid, 0);
    case CreateSegment(pid, id, size) => CreateSound(cfg, st, pid, id, size);
    case BeginSegment(pid, id, size) => BeginKeepsViews(cfg, st, pid, id, size, 0);
    case PlaceSegment(pid, id, size) => PlaceKeepsViews(cfg, st, pid, id, size, 0);
    case DeleteSegment(pid, id) => DeleteSound(cfg, st, pid, id);
    case CompactMemory => CompactKeepsViews(cfg, st, 0);
    case ConnectStick(stick) => AddStickKeepsViews(cfg, st, stick, 0);
    case WriteSegment(pid, k, offset, data) => PokeKeepsViews(cfg, st, pid, k, offset, data, 0);
    case SuspendProcess(pid) => SuspendKeepsViews(cfg, st, pid, 0);
    case ResumeProcess(pid) => DesuspendKeepsViews(cfg, st, pid, 0);
  }

  lemma ServeKeepsOthers(cfg: Config, st: Store, req: Request, q: nat)
    requires Sound(cfg, st) && Orderly(st, req) && !Names(req, q)
    requires Readable(cfg, st) && Sound(cfg, Serve(cfg, st, req).0)
    ensures View(cfg, Serve(cfg, st, req).0, q) == View(cfg, st, q)
    ensures q in Serve(cfg, st, req).0.pids <==> q in st.pids
  {
    hide Resident, PieceObjs, ReadBlocks, Compacted, Overwrite, Create, Begin, Place;
    match req
    case AdmitProcess(pid) => AdmitKeepsViews(cfg, st, pid, q);
    case FinishProcess(pid) => FinishKeepsViews(cfg, st, pid, q); WithoutDistinct(st.pids, pid);
    case CreateSegment(pid, id, size) =>
      CreateKeepsViews(cfg, st, pid, id, size, q);
      CreateSound(cfg, st, pid, id, size);
    case BeginSegment(pid, id, size) => BeginKeepsViews(cfg, st, pid, id, size, q);
    case PlaceSegment(pid, id, size) => PlaceKeepsViews(cfg, st, pid, id, size, q);
    case DeleteSegment(pid, id) => DeleteKeepsViews(cfg, st, pid, id, q);
    case CompactMemory => CompactKeepsViews(cfg, st, q);
    case ConnectStick(stick) => AddStickKeepsViews(cfg, st, stick, q);
    case WriteSegment(pid, k, offset, data) => PokeKeepsViews(cfg, st, pid, k, offset, data, q);
    case SuspendProcess(pid) => SuspendKeepsViews(cfg, st, pid, q);
    case ResumeProcess(pid) => DesuspendKeepsViews(cfg, st, pid, q);
  }

  lemma DeleteOkIff(cfg: Config, st: Store, pid: nat, id: u32)
    requires Sound(cfg, st) && FindParked(st.parked, pid).None?
    ensures Delete(st, pid, id).1 == Ok <==>
      pid in st.pids && exists k :: 0 <= k < |View(cfg, st, pid)| && View(cfg, st, pid)[k].id == id
  {
    assert View(cfg, st, pid) == Resident(st.segs, st.mem, pid);
    if FindSegment(st.segs, pid, id).None? {
      ResidentIds(st.segs, st.mem, pid, id);
    } else {
      var i := FindSegment(st.segs, pid, id).value;
      ResidentRemove(st.segs, st.mem, i, pid);
      assert View(cfg, st, pid)[|Resident(st.segs[..i], st.mem, pid)|].id == id;
    }
  }

  /** Outside the process a request names, the two maps agree. */
  lemma AbstractAgrees(cfg: Config, st: Store, req: Request, q: nat)
    requires Sound(cfg, st) && Orderly(st, req) && !Names(req, q)
    ensures Readable(cfg, st) && Sound(cfg, Serve(cfg, st, req).0)
    ensures var (a, a') := (Abstract(cfg, st), Abstract(cfg, Serve(cfg, st, req).0));
      (q in a' <==> q in a) && (q in a ==> a'[q] == a[q])
  {
    ServeSound(cfg, st, req);
    ServeKeepsOthers(cfg, st, req, q);
  }

  lemma NamedFinish(cfg: Config, st: Store, pid: nat)
    requires Sound(cfg, st) && Sound(cfg, Finish(st, pid).0)
    ensures Acts(Abstract(cfg, st), FinishProcess(pid), Finish(st, pid).1, Abstract(cfg, Finish(st, pid).0))
  {
    hide View;
    WithoutDistinct(st.pids, pid);
  }

  lemma NamedCreate(cfg: Config, st: Store, pid: nat, id: u32, size: nat)
    requires Sound(cfg, st) && size > 0 && FindParked(st.parked, pid).None?
    requires Sound(cfg, Create(cfg, st, pid, id, size).0)
    ensures var r := Create(cfg, st, pid, id, size);
      Acts(Abstract(cfg, st), CreateSegment(pid, id, size), r.1, Abstract(cfg, r.0))
  {
    hide View, Create, Grown;
    CreateSound(cfg, st, pid, id, size);
    var r := Create(cfg, st, pid, id, size);
    if r.1 == Ok {
      CreateSucceedsIff(cfg, st, pid, id, size);
      CreateGrowsView(cfg, st, pid, id, size);
    } else {
      CreateKeepsViews(cfg, st, pid, id, size, pid);
    }
  }

  lemma NamedBegin(cfg: Config, st: Store, pid: nat, id: u32, size: nat)
    requires Sound(cfg, st) && size > 0 && FindParked(st.parked, pid).None?
    requires Sound(cfg, Begin(cfg, st, pid, id, size).0)
    ensures var r := Begin(cfg, st, pid, id, size);
      Acts(Abstract(cfg, st), BeginSegment(pid, id, size), r.1, Abstract(cfg, r.0))
  {
    hide View, Begin, Grown, HasRoom;
    BeginExact(cfg, st, pid, id, size);
    BeginKeepsViews(cfg, st, pid, id, size, pid);
  }

  lemma NamedPlace(cfg: Config, st: Store, pid: nat, id: u32, size: nat)
    requires Sound(cfg, st) && size > 0 && FindParked(st.parked, pid).None?
    requires Sound(cfg, Place(cfg, st, pid, id, size).0)
    ensures var r := Place(cfg, st, pid, id, size);
      Acts(Abstract(cfg, st), PlaceSegment(pid, id, size), r.1, Abstract(cfg, r.0))
  {
    hide View, Place, Grown, HasRoom;
    PlaceSucceedsIff(cfg, st, pid, id, size);
    PlaceKeepsViews(cfg, st, pid, id, size, pid);
  }

  lemma NamedDelete(cfg: Config, st: Store, pid: nat, id: u32)
    requires Sound(cfg, st) && FindParked(st.parked, pid).None?
    requires Sound(cfg, Delete(st, pid, id).0)
    ensures var r := Delete(st, pid, id);
      Acts(Abstract(cfg, st), DeleteSegment(pid, id), r.1, Abstract(cfg, r.0))
  {
    hide View;
    DeleteKeepsViews(cfg, st, pid, id, pid);
    DeleteOkIff(cfg, st, pid, id);
  }

  lemma NamedWrite(cfg: Config, st: Store, pid: nat, k: nat, offset: nat, data: seq<byte>)
    requires Sound(cfg, st) && FindParked(st.parked, pid).None?
    requires Sound(cfg, Poke(st, pid, k, offset, data).0)
    ensures var r := Poke(st, pid, k, offset, data);
      Acts(Abstract(cfg, st), WriteSegment(pid, k, offset, data), r.1, Abstract(cfg, r.0))
  {
    hide View, Overwrite;
    PokeKeepsViews(cfg, st, pid, k, offset, data, pid);
    if pid !in st.pids {
      NotListed(cfg, st, pid);
    }
  }

  /** The state of the named process, before and after. */
  lemma NamedStep(cfg: Config, st: Store, req: Request)
    requires Sound(cfg, st) && Orderly(st, req)
    ensures Readable(cfg, st) && Sound(cfg, Serve(cfg, st, req).0)
    ensures Acts(Abstract(cfg, st), req, Serve(cfg, st, req).1, Abstract(cfg, Serve(cfg, st, req).0))
  {
    hide View, Sound, Create, Begin, Place, Delete, Poke, Finish, Appends;
    ServeSound(cfg, st, req);
    match req
    case AdmitProcess(pid) => AdmitKeepsViews(cfg, st, pid, pid);
    case FinishProcess(pid) => NamedFinish(cfg, st, pid);
    case CreateSegment(pid, id, size) => NamedCreate(cfg, st, pid, id, size);
    case BeginSegment(pid, id, size) => NamedBegin(cfg, st, pid, id, size);
    case PlaceSegment(pid, id, size) => NamedPlace(cfg, st, pid, id, size);
    case DeleteSegment(pid, id) => NamedDelete(cfg, st, pid, id);
    case WriteSegment(pid, k, offset, data) => NamedWrite(cfg, st, pid, k, offset, data);
    case _ =>
  }

  lemma ServeSucceedsIff(cfg: Config, st: Store, req: Request)
    requires Sound(cfg, st) && Orderly(st, req) && Readable(cfg, st)
    ensures Serve(cfg, st, req).1 == Ok <==> Succeeds(cfg, st, req)
  {
    hide View, Sound, Create, Begin, Place, Delete, Poke, Suspend, Desuspend, HasRoom, UsedBlocks, UnusedFrom, Table;
    match req
    case FinishProcess(pid) =>
    case CreateSegment(pid, id, size) => CreateSucceedsIff(cfg, st, pid, id, size);
    case BeginSegment(pid, id, size) => BeginExact(cfg, st, pid, id, size); RoomFree(cfg, st, size);
    case PlaceSegment(pid, id, size) => PlaceSucceedsIff(cfg, st, pid, id, size);
    case DeleteSegment(pid, id) => DeleteOkIff(cfg, st, pid, id);
    case WriteSegment(pid, k, offset, data) => PokeKeepsViews(cfg, st, pid, k, offset, data, pid);
    case SuspendProcess(pid) => SuspendSucceedsIff(cfg, st, pid);
    case ResumeProcess(pid) => ResumeSucceedsIff(cfg, st, pid);
    case _ =>
  }

  /** Bytes free in a row are free in total. */
  lemma RoomFree(cfg: Config, st: Store, size: nat)
    requires Sound(cfg, st) && size > 0
    ensures HasRoom(st, size) ==> SumSizes(st.segs) + size <= |st.mem|
  {
    hide HasRoom;
    RoomExact(cfg, st, size);
    HolesExact(st.segs, |st.mem|);
    if ChooseHole(cfg, st, size).Some? {
      HoleWithin(Holes(st.segs, |st.mem|), ChooseHole(cfg, st, size).value);
    }
  }

  lemma {:induction false} HoleWithin(holes: seq<Hole>, hole: Hole)
    requires hole in holes
    ensures hole.size <= SumHoles(holes)
  {
    if holes[0] != hole {
      HoleWithin(holes[1..], hole);
    }
  }

  /** Every request is a step of the simple machine, and succeeds exactly when it should. */
  lemma ServeRefines(cfg: Config, st: Store, req: Request)
    requires Sound(cfg, st) && Orderly(st, req)
    ensures Readable(cfg, st) && Sound(cfg, Serve(cfg, st, req).0)
    ensures Serve(cfg, st, req).1 == Ok <==> Succeeds(cfg, st, req)
    ensures Next(Abstract(cfg, st), req, Serve(cfg, st, req).1, Abstract(cfg, Serve(cfg, st, req).0))
  {
    hide View, Serve, Sound, Succeeds, Acts, Orderly;
    NamedStep(cfg, st, req);
    ServeSucceedsIff(cfg, st, req);
    var a, a' := Abstract(cfg, st), Abstract(cfg, Serve(cfg, st, req).0);
    forall q | !Names(req, q) ensures (q in a' <==> q in a) && (q in a ==> a'[q] == a[q]) {
      AbstractAgrees(cfg, st, req, q);
    }
  }

  lemma NotListed(cfg: Config, st: Store, pid: nat)
    requires Sound(cfg, st) && pid !in st.pids && FindParked(st.parked, pid).None?
    ensures View(cfg, st, pid) == []
  {
    NoSegments(st.segs, st.mem, pid);
  }

  // ---------- whole runs ----------

  /** `states[i + 1]` and `results[i]` are what serving `reqs[i]` in `states[i]` yields. */
  ghost predicate ServedAt(cfg: Config, states: seq<Store>, reqs: seq<Request>, results: seq<Result>, i: nat)
    requires i < |reqs| && |states| == |reqs| + 1 && |results| == |reqs|
  {
    && Orderly(states[i], reqs[i])
    && (Readable(cfg, states[i]) ==> (states[i + 1], results[i]) == Serve(cfg, states[i], reqs[i]))
  }

  ghost predicate IsRun(cfg: Config, states: seq<Store>, reqs: seq<Request>, results: seq<Result>) {
    && |states| == |reqs| + 1 && |results| == |reqs|
    && forall i | 0 <= i < |reqs| :: ServedAt(cfg, states, reqs, results, i)
  }

  ghost predicate RefinesAt(cfg: Config, states: seq<Store>, reqs: seq<Request>, results: seq<Result>, i: nat)
    requires i < |reqs| && |states| == |reqs| + 1 && |results| == |reqs|
  {
    && Sound(cfg, states[i]) && Sound(cfg, states[i + 1])
    && Next(Abstract(cfg, states[i]), reqs[i], results[i], Abstract(cfg, states[i + 1]))
    && (results[i] == Ok <==> Succeeds(cfg, states[i], reqs[i]))
  }

  ghost function Boot(swap: seq<seq<byte>>): Store {
    Store([], [], [], swap, [])
  }

  lemma BootSound(cfg: Config, swap: seq<seq<byte>>)
    requires IsFile(swap, cfg.blockSize)
    ensures Sound(cfg, Boot(swap))
  {
  }

  lemma {:induction false} RunSound(cfg: Config, states: seq<Store>, reqs: seq<Request>, results: seq<Result>, n: nat)
    requires IsRun(cfg, states, reqs, results) && Sound(cfg, states[0]) && n <= |reqs|
    ensures Sound(cfg, states[n])
  {
    if n > 0 {
      RunSound(cfg, states, reqs, results, n - 1);
      assert ServedAt(cfg, states, reqs, results, n - 1);
      ServeSound(cfg, states[n - 1], reqs[n - 1]);
    }
  }

  /** Every run, of any length, keeps the invariant and refines the simple machine step by step. */
  lemma RunRefines(cfg: Config, states: seq<Store>, reqs: seq<Request>, results: seq<Result>)
    requires IsRun(cfg, states, reqs, results) && Sound(cfg, states[0])
    ensures forall i | 0 <= i < |reqs| :: RefinesAt(cfg, states, reqs, results, i)
  {
    forall i | 0 <= i < |reqs| ensures RefinesAt(cfg, states, reqs, results, i) {
      RunSound(cfg, states, reqs, results, i);
      assert ServedAt(cfg, states, reqs, results, i);
      ServeRefines(cfg, states[i], reqs[i]);
    }
  }

  /** Whatever everybody else does meanwhile, and however often a process is moved by compaction, swapped
      out and swapped in, its segments read the same until a request names it. */
  lemma {:induction false} RunKeepsUnnamed(
    cfg: Config, states: seq<Store>, reqs: seq<Request>, results: seq<Result>, q: nat, n: nat)
    requires IsRun(cfg, states, reqs, results) && Sound(cfg, states[0]) && n <= |reqs|
    requires forall i | 0 <= i < n :: !Names(reqs[i], q)
    ensures Sound(cfg, states[n]) && View(cfg, states[n], q) == View(cfg, states[0], q)
    ensures FindParked(states[0].parked, q).None? && FindParked(states[n].parked, q).None? ==>
      Resident(states[n].segs, states[n].mem, q) == Resident(states[0].segs, states[0].mem, q)
  {
    hide View, Serve, Resident, FindParked;
    if n > 0 {
      RunKeepsUnnamed(cfg, states, reqs, results, q, n - 1);
      assert ServedAt(cfg, states, reqs, results, n - 1);
      ServeSound(cfg, states[n - 1], reqs[n - 1]);
      ServeKeepsOthers(cfg, states[n - 1], reqs[n - 1], q);
    }
    ViewResident(cfg, states[n], q);
    ViewResident(cfg, states[0], q);
  }

  lemma ViewResident(cfg: Config, st: Store, q: nat)
    requires Sound(cfg, st)
    ensures FindParked(st.parked, q).None? ==> View(cfg, st, q) == Resident(st.segs, st.mem, q)
  {
  }
}
