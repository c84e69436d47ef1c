/**
 Kernel Memory and the CPUs together: programs of several processes run interleaved, are taken off their
 CPUs and put back at any instruction boundary, while memory is allocated, compacted and swapped; and no
 program notices.
*/
module Preemption {
  import opened Base
  import opened Segments
  import opened SwapBlocks
  import opened SegmentStore
  import opened StoreViews
  import opened StoreRequests
  import opened StoreRuns
  import opened StoreTables
  import opened Contexts
  import opened Cpu
  import opened Programs

  /** What a CPU holds of the process it runs. */
  datatype Loaded = Loaded(ctx: Context, table: seq<Entry>)

  /** `contexts` are those in Kernel Memory's process list; `loaded` are the processes that are on a CPU;
      `ended` those whose program is over. */
  datatype System = System(st: Store, contexts: map<nat, Context>, loaded: map<nat, Loaded>, ended: set<nat>)

  datatype Event =
    | TurnOf(pid: nat)
    | Evict(pid: nat)
    | Dispatch(pid: nat)
    | Memory(req: Request)

  datatype Setting = Setting(cfg: Config, segMax: u32, programs: nat -> Program)

  const ZERO: Context := Context(0, 0, 0, 0, 0, 0, 0, 0, 0, 0, 0)

  /** What the scheduler keeps to: it takes every process off its CPU before memory is compacted, asks
      nothing about a process that is on a CPU, and runs only what is in memory and has not ended. */
  ghost predicate Enabled(set': Setting, sys: System, ev: Event) {
    match ev
    case TurnOf(pid) => pid in sys.loaded
    case Evict(pid) => pid in sys.loaded
    case Dispatch(pid) =>
      && pid in sys.contexts && pid !in sys.loaded && pid !in sys.ended
      && FindParked(sys.st.parked, pid).None?
    case Memory(req) =>
      && Orderly(sys.st, req)
      && (Moves(set'.cfg, sys.st, req) ==> sys.loaded == map[])
      && (forall q | q in sys.loaded :: !About(req, q))
      && (req.ConnectStick? ==> set'.segMax + |sys.st.mem| + |req.stick| <= TWO_32)
      && (req.AdmitProcess? ==> req.pid < TWO_32 && req.pid !in sys.ended)
  }

  /** CONTEXT_TRANSFER: the context a CPU sends replaces the one in the process list. */
  ghost function Save(contexts: map<nat, Context>, payload: seq<byte>): map<nat, Context> {
    match ReadSave(payload)
    case None => contexts
    case Some((pid, c, _)) => if pid in contexts then contexts[pid := c] else contexts
  }

  ghost predicate Ready(set': Setting, sys: System) {
    && Sound(set'.cfg, sys.st) && Fits(set'.segMax, sys.st.mem)
    && (forall q | q in sys.contexts :: q < TWO_32)
    && (forall q :: q in sys.contexts <==> q in sys.st.pids)
    && (forall q | q in sys.loaded :: OnCpu(sys, q))
  }

  /** A process on a CPU is in memory, has not ended, and its CPU's copy of the segment table is current. */
  ghost predicate OnCpu(sys: System, q: nat) {
    && q in sys.loaded && q in sys.contexts && q !in sys.ended
    && FindParked(sys.st.parked, q).None?
    && Sendable32(Table(sys.st.segs, q))
    && sys.loaded[q].table == Entries(Table(sys.st.segs, q))
  }

  /** Before any stick or process there is a system to start from. */
  lemma BootReady(set': Setting, swap: seq<seq<byte>>)
    requires IsFile(swap, set'.cfg.blockSize) && 0 < set'.segMax
    ensures Ready(set', System(Boot(swap), map[], map[], {}))
  {
    BootSound(set'.cfg, swap);
  }

  // ---------- steps ----------

  ghost function TakeTurn(set': Setting, sys: System, pid: nat): System
    requires Ready(set', sys) && pid in sys.loaded
  {
    assert OnCpu(sys, pid);
    var on := sys.loaded[pid];
    var t := Turn(set'.programs(pid), on.ctx, on.table, set'.segMax, sys.st.mem);
    var st' := sys.st.(mem := t.1);
    match t.2
    case Running => sys.(st := st', loaded := sys.loaded[pid := on.(ctx := t.0)])
    case Stopping =>
      sys.(st := st', loaded := sys.loaded - {pid}, contexts := Save(sys.contexts, SavePayload(pid, t.0)))
    case Exiting => sys.(st := st', loaded := sys.loaded - {pid}, ended := sys.ended + {pid})
  }

  ghost function TakeOff(sys: System, pid: nat): System
    requires pid in sys.loaded && pid < TWO_32
  {
    sys.(loaded := sys.loaded - {pid}, contexts := Save(sys.contexts, SavePayload(pid, sys.loaded[pid].ctx)))
  }

  ghost function PutOn(sys: System, pid: nat): System
    requires pid in sys.contexts && Sendable32(Table(sys.st.segs, pid)) && |Table(sys.st.segs, pid)| < TWO_32
  {
    match ReadLoad(LoadPayload(sys.contexts[pid], Entries(Table(sys.st.segs, pid))))
    case None => sys
    case Some((c, table, _)) => sys.(loaded := sys.loaded[pid := Loaded(c, table)])
  }

  ghost function Ask(set': Setting, sys: System, req: Request): System
    requires Ready(set', sys) && Enabled(set', sys, Memory(req)) && Readable(set'.cfg, sys.st)
  {
    var sys' := sys.(st := Serve(set'.cfg, sys.st, req).0);
    match req
    case AdmitProcess(pid) => sys'.(contexts := sys.contexts[pid := ZERO])
    case FinishProcess(pid) => sys'.(contexts := sys.contexts - {pid})
    case _ => sys'
  }

  ghost function Fire(set': Setting, sys: System, ev: Event): System
    requires Ready(set', sys) && Enabled(set', sys, ev)
  {
    ReadyFacts(set', sys);
    match ev
    case TurnOf(pid) => TakeTurn(set', sys, pid)
    case Evict(pid) => assert OnCpu(sys, pid); TakeOff(sys, pid)
    case Dispatch(pid) => PutOn(sys, pid)
    case Memory(req) => Ask(set', sys, req)
  }

  /** Every table can be sent: it has less than 2^32 entries and addresses below 2^32. */
  lemma ReadyFacts(set': Setting, sys: System)
    requires Ready(set', sys)
    ensures Readable(set'.cfg, sys.st)
    ensures forall pid: nat :: Sendable32(Table(sys.st.segs, pid)) && |Table(sys.st.segs, pid)| < TWO_32
  {
    hide HolesAfter, SumHoles, Table;
    ServeSound(set'.cfg, sys.st, CompactMemory);
    HolesExact(sys.st.segs, |sys.st.mem|);
    forall pid: nat ensures Sendable32(Table(sys.st.segs, pid)) && |Table(sys.st.segs, pid)| < TWO_32 {
      TableDescribes(sys.st.segs, sys.st.mem, set'.segMax, pid);
      TableSize(sys.st.segs, pid);
    }
  }

  lemma {:induction false} TableSize(segs: seq<Segment>, pid: nat)
    requires forall k | 0 <= k < |segs| :: segs[k].size > 0
    ensures |Table(segs, pid)| <= SumSizes(segs)
  {
    if segs != [] {
      TableSize(segs[..|segs| - 1], pid);
    }
  }

  // ---------- what a program sees ----------

  /** A process as its program knows it. */
  datatype State = State(ctx: Context, objs: seq<Obj>, alive: bool)

  ghost function Observed(set': Setting, sys: System, p: nat): State
    requires Ready(set', sys) && p in sys.contexts
  {
    State(if p in sys.loaded then sys.loaded[p].ctx else sys.contexts[p], View(set'.cfg, sys.st, p), p !in sys.ended)
  }

  /** One instruction of a program that is never interrupted. */
  ghost function LogicalTurn(program: Program, segMax: u32, s: State): State
    requires segMax > 0
  {
    if !s.alive then s
    else
      var m := Perform(program(s.ctx.pc), s.ctx, s.objs, segMax);
      State(Advance(m.ctx, m.jumped), Stored(s.objs, m.write), m.signal != Exiting)
  }

  ghost function LogicalTurns(program: Program, segMax: u32, s: State, n: nat): State
    requires segMax > 0
    decreases n
  {
    if n == 0 then s else LogicalTurn(program, segMax, LogicalTurns(program, segMax, s, n - 1))
  }

  /** The registers of a process that has ended are gone. */
  ghost predicate Same(s: State, t: State) {
    s.alive == t.alive && s.objs == t.objs && (s.alive ==> s.ctx == t.ctx)
  }

  // ---------- one instruction of one process ----------

  ghost function MeaningOf(set': Setting, sys: System, pid: nat): (m: Meaning)
    requires Ready(set', sys) && pid in sys.loaded
    ensures var objs := View(set'.cfg, sys.st, pid);
      m.write.Some? ==>
        m.write.value.k < |objs| && m.write.value.offset + |m.write.value.data| <= |objs[m.write.value.k].bytes|
  {
    var c := sys.loaded[pid].ctx;
    Perform(set'.programs(pid)(c.pc), c, View(set'.cfg, sys.st, pid), set'.segMax)
  }

  /** A turn is the program's instruction, and on memory at most a write inside one of its own segments. */
  lemma TurnMeans(set': Setting, sys: System, pid: nat)
    requires Ready(set', sys) && pid in sys.loaded && OnCpu(sys, pid)
    ensures var on, m := sys.loaded[pid], MeaningOf(set', sys, pid);
      var t := Turn(set'.programs(pid), on.ctx, on.table, set'.segMax, sys.st.mem);
      && t.0 == Advance(m.ctx, m.jumped) && t.2 == m.signal
      && (m.write.Some? ==> m.write.value.k < |on.table|)
      && t.1 == Written(sys.st.mem, on.table, m.write)
  {
    hide Execute, Perform, Table, Resident, Written;
    var on := sys.loaded[pid];
    assert View(set'.cfg, sys.st, pid) == Resident(sys.st.segs, sys.st.mem, pid);
    TableDescribes(sys.st.segs, sys.st.mem, set'.segMax, pid);
    ExecuteSimulates(set'.programs(pid)(on.ctx.pc), on.ctx, on.table, set'.segMax, sys.st.mem,
      Resident(sys.st.segs, sys.st.mem, pid));
  }

  lemma WrittenIsPoke(cfg: Config, st: Store, pid: nat, table: seq<Entry>, w: Write)
    requires Sendable32(Table(st.segs, pid)) && table == Entries(Table(st.segs, pid)) && w.k < |table|
    requires w.offset + |w.data| <= table[w.k].size
    ensures Poke(st, pid, w.k, w.offset, w.data) == (st.(mem := Written(st.mem, table, Some(w))), Ok)
  {
    hide Overwrite;
  }

  /** After a turn the process's own segments are as its program says; everybody else's are untouched. */
  lemma TurnKeepsViews(set': Setting, sys: System, pid: nat, q: nat)
    requires Ready(set', sys) && pid in sys.loaded
    ensures var (m, st') := (MeaningOf(set', sys, pid), TakeTurn(set', sys, pid).st);
      && Sound(set'.cfg, st') && |st'.mem| == |sys.st.mem|
      && View(set'.cfg, st', q) == if q == pid then Stored(View(set'.cfg, sys.st, pid), m.write)
                                   else View(set'.cfg, sys.st, q)
  {
    hide Turn, Overwrite, Resident, Perform, ReadSave, SavePayload;
    assert OnCpu(sys, pid);
    TurnMeans(set', sys, pid);
    var on, m := sys.loaded[pid], MeaningOf(set', sys, pid);
    if m.write.Some? {
      var w := m.write.value;
      WriteFits(set'.cfg, sys.st, pid, w);
      WrittenIsPoke(set'.cfg, sys.st, pid, on.table, w);
      PokeKeepsViews(set'.cfg, sys.st, pid, w.k, w.offset, w.data, q);
    }
  }

  lemma WriteFits(cfg: Config, st: Store, pid: nat, w: Write)
    requires Sound(cfg, st) && FindParked(st.parked, pid).None?
    requires var objs := View(cfg, st, pid); w.k < |objs| && w.offset + |w.data| <= |objs[w.k].bytes|
    ensures w.k < |Table(st.segs, pid)| && w.offset + |w.data| <= Table(st.segs, pid)[w.k].size
  {
    ResidentTable(st.segs, st.mem, pid);
    assert View(cfg, st, pid) == Resident(st.segs, st.mem, pid);
  }

  // ---------- taking off and putting on ----------

  /** What is saved is what was on the CPU. */
  lemma SaveExact(contexts: map<nat, Context>, pid: nat, c: Context)
    requires pid in contexts && pid < TWO_32
    ensures Save(contexts, SavePayload(pid, c)) == contexts[pid := c]
  {
    hide ReadSave, SavePayload;
    SaveRoundTrip(pid, c);
  }

  /** What is loaded is what was saved, with the segments where they are now. */
  lemma PutOnExact(sys: System, pid: nat)
    requires pid in sys.contexts && Sendable32(Table(sys.st.segs, pid)) && |Table(sys.st.segs, pid)| < TWO_32
    ensures PutOn(sys, pid)
         == sys.(loaded := sys.loaded[pid := Loaded(sys.contexts[pid], Entries(Table(sys.st.segs, pid)))])
  {
    hide ReadLoad, LoadPayload, Entries;
    LoadRoundTrip(sys.contexts[pid], Entries(Table(sys.st.segs, pid)));
  }

  // ---------- every step keeps the system ready ----------

  lemma TurnReady(set': Setting, sys: System, pid: nat)
    requires Ready(set', sys) && pid in sys.loaded
    ensures Ready(set', TakeTurn(set', sys, pid))
  {
    hide Sound, Table, Entries, Turn, ReadSave, SavePayload, View, FindParked;
    assert OnCpu(sys, pid);
    var t := Turn(set'.programs(pid), sys.loaded[pid].ctx, sys.loaded[pid].table, set'.segMax, sys.st.mem);
    SaveExact(sys.contexts, pid, t.0);
    TurnKeepsViews(set', sys, pid, pid);
    var sys' := TakeTurn(set', sys, pid);
    forall q | q in sys'.loaded ensures OnCpu(sys', q) {
      assert OnCpu(sys, q);
    }
  }

  lemma MemoryReady(set': Setting, sys: System, req: Request)
    requires Ready(set', sys) && Enabled(set', sys, Memory(req)) && Readable(set'.cfg, sys.st)
    ensures Ready(set', Ask(set', sys, req))
  {
    hide Sound, Table, Entries, Serve, FindParked, Orderly, Moves, Readable;
    ServeSound(set'.cfg, sys.st, req);
    ServeSize(set'.cfg, sys.st, req);
    var sys' := Ask(set', sys, req);
    forall q | q in sys'.loaded ensures OnCpu(sys', q) {
      assert OnCpu(sys, q);
      ServeUndisturbed(set'.cfg, sys.st, req, q);
    }
  }

  lemma FireReady(set': Setting, sys: System, ev: Event)
    requires Ready(set', sys) && Enabled(set', sys, ev)
    ensures Ready(set', Fire(set', sys, ev))
  {
    hide Sound, Table, Entries, TakeTurn, Ask, PutOn, Save, FindParked, Orderly, Moves;
    ReadyFacts(set', sys);
    match ev
    case TurnOf(pid) => TurnReady(set', sys, pid);
    case Memory(req) => MemoryReady(set', sys, req);
    case Evict(pid) =>
      assert OnCpu(sys, pid);
      SaveExact(sys.contexts, pid, sys.loaded[pid].ctx);
      assert forall q | q in sys.loaded :: OnCpu(sys, q);
    case Dispatch(pid) =>
      PutOnExact(sys, pid);
      assert forall q | q in sys.loaded :: OnCpu(sys, q);
  }

  // ---------- what every step does to what a program sees ----------

  /** A turn of `p` is one instruction of its program. */
  lemma TurnRefines(set': Setting, sys: System, p: nat)
    requires Ready(set', sys) && p in sys.loaded && p in sys.contexts
    requires Ready(set', TakeTurn(set', sys, p)) && p in TakeTurn(set', sys, p).contexts
    ensures Same(LogicalTurn(set'.programs(p), set'.segMax, Observed(set', sys, p)),
                 Observed(set', TakeTurn(set', sys, p), p))
  {
    hide Sound, Table, Entries, Turn, Perform, ReadSave, SavePayload, View, FindParked;
    assert OnCpu(sys, p);
    TurnMeans(set', sys, p);
    TurnKeepsViews(set', sys, p, p);
    var t := Turn(set'.programs(p), sys.loaded[p].ctx, sys.loaded[p].table, set'.segMax, sys.st.mem);
    SaveExact(sys.contexts, p, t.0);
  }

  /** Nobody else's turn changes anything for `p`. */
  lemma TurnInvisible(set': Setting, sys: System, pid: nat, p: nat)
    requires Ready(set', sys) && pid in sys.loaded && p in sys.contexts && p != pid
    requires Ready(set', TakeTurn(set', sys, pid))
    ensures p in TakeTurn(set', sys, pid).contexts
    ensures Observed(set', TakeTurn(set', sys, pid), p) == Observed(set', sys, p)
  {
    hide Sound, Table, Entries, Turn, Perform, ReadSave, SavePayload, View, FindParked;
    assert OnCpu(sys, pid);
    TurnKeepsViews(set', sys, pid, p);
    var t := Turn(set'.programs(pid), sys.loaded[pid].ctx, sys.loaded[pid].table, set'.segMax, sys.st.mem);
    SaveExact(sys.contexts, pid, t.0);
  }

  /** Taking a process off its CPU, putting it back, and every request that does not name `p` - compaction,
      allocation by others, hot-plug, swapping `p` out and in - changes nothing for `p`. */
  lemma FireInvisible(set': Setting, sys: System, ev: Event, p: nat)
    requires Ready(set', sys) && Enabled(set', sys, ev) && p in sys.contexts
    requires ev != TurnOf(p) && (ev.Memory? ==> !Names(ev.req, p))
    requires Ready(set', Fire(set', sys, ev))
    ensures p in Fire(set', sys, ev).contexts
    ensures Observed(set', Fire(set', sys, ev), p) == Observed(set', sys, p)
  {
    hide Sound, Table, Entries, TakeTurn, PutOn, Save, FindParked, Orderly, Moves, Serve, View;
    ReadyFacts(set', sys);
    match ev
    case TurnOf(pid) => TurnInvisible(set', sys, pid, p);
    case Memory(req) =>
      ServeSound(set'.cfg, sys.st, req);
      ServeKeepsOthers(set'.cfg, sys.st, req, p);
    case Evict(pid) =>
      assert OnCpu(sys, pid);
      SaveExact(sys.contexts, pid, sys.loaded[pid].ctx);
    case Dispatch(pid) => PutOnExact(sys, pid);
  }

  /** A request that creates, deletes or overwrites a segment of `p` - made while `p` is off its CPU - does to
      the memory that `p` sees what the request says, and nothing to its registers. */
  lemma OwnRequest(set': Setting, sys: System, req: Request, p: nat)
    requires Ready(set', sys) && Enabled(set', sys, Memory(req)) && p in sys.contexts && Names(req, p)
    requires !req.AdmitProcess? && !req.FinishProcess?
    requires Ready(set', Fire(set', sys, Memory(req))) && Readable(set'.cfg, sys.st)
    ensures p in Fire(set', sys, Memory(req)).contexts
    ensures var (s, s') := (Observed(set', sys, p), Observed(set', Fire(set', sys, Memory(req)), p));
      && s'.ctx == s.ctx && s'.alive == s.alive
      && Acts(map[p := s.objs], req, Serve(set'.cfg, sys.st, req).1, map[p := s'.objs])
  {
    hide Sound, Table, Entries, FindParked, Orderly, Moves, Serve, View, Grown, Shrunk;
    ServeRefines(set'.cfg, sys.st, req);
    ServeSize(set'.cfg, sys.st, req);
  }

  // ---------- whole runs ----------

  ghost predicate FiredAt(set': Setting, states: seq<System>, events: seq<Event>, i: nat)
    requires i < |events| && |states| == |events| + 1
  {
    Ready(set', states[i]) ==>
      Enabled(set', states[i], events[i]) && states[i + 1] == Fire(set', states[i], events[i])
  }

  ghost predicate IsExecution(set': Setting, states: seq<System>, events: seq<Event>) {
    && |states| == |events| + 1
    && forall i | 0 <= i < |events| :: FiredAt(set', states, events, i)
  }

  /** How many of the events are turns of `p`. */
  function TurnsOf(events: seq<Event>, p: nat): nat {
    if events == [] then 0
    else TurnsOf(events[..|events| - 1], p) + if events[|events| - 1] == TurnOf(p) then 1 else 0
  }

  /** What one event is for the program of `p`: an instruction if it is a turn of `p`; what the request says, with
      all registers kept, if it is a request for one of its own segments; and otherwise nothing. */
  ghost predicate ProgramStep(set': Setting, sys: System, ev: Event, sys': System, p: nat)
    requires Ready(set', sys) && Ready(set', sys') && p in sys.contexts && p in sys'.contexts
  {
    var (s, s') := (Observed(set', sys, p), Observed(set', sys', p));
    match ev
    case TurnOf(q) => Same(if q == p then LogicalTurn(set'.programs(p), set'.segMax, s) else s, s')
    case Memory(req) =>
      if Names(req, p) then
        && s'.ctx == s.ctx && s'.alive == s.alive && Readable(set'.cfg, sys.st)
        && Acts(map[p := s.objs], req, Serve(set'.cfg, sys.st, req).1, map[p := s'.objs])
      else s' == s
    case _ => s' == s
  }

  /** The process is there from the beginning to the end. */
  ghost predicate Lives(events: seq<Event>, p: nat) {
    forall i | 0 <= i < |events| :: events[i] != Memory(AdmitProcess(p)) && events[i] != Memory(FinishProcess(p))
  }

  ghost predicate ProgramStepAt(set': Setting, states: seq<System>, events: seq<Event>, i: nat, p: nat)
    requires i < |events| && |states| == |events| + 1
  {
    && Ready(set', states[i]) && Ready(set', states[i + 1]) && p in states[i].contexts && p in states[i + 1].contexts
    && ProgramStep(set', states[i], events[i], states[i + 1], p)
  }

  lemma FireProgram(set': Setting, sys: System, ev: Event, p: nat)
    requires Ready(set', sys) && Enabled(set', sys, ev) && p in sys.contexts
    requires ev != Memory(AdmitProcess(p)) && ev != Memory(FinishProcess(p))
    ensures Ready(set', Fire(set', sys, ev)) && p in Fire(set', sys, ev).contexts
    ensures ProgramStep(set', sys, ev, Fire(set', sys, ev), p)
  {
    hide Ready, Enabled, LogicalTurn, Observed, Fire, Acts, Serve, Readable;
    FireReady(set', sys, ev);
    if ev.Memory? && Names(ev.req, p) {
      NamedReadable(set', sys);
      OwnRequest(set', sys, ev.req, p);
    } else if ev.TurnOf? && ev.pid == p {
      LastStep(set', sys, ev, p);
    } else {
      FireInvisible(set', sys, ev, p);
    }
  }

  lemma NamedReadable(set': Setting, sys: System)
    requires Ready(set', sys)
    ensures Readable(set'.cfg, sys.st)
  {
    hide Readable;
    ReadyFacts(set', sys);
  }

  /** Every run, whatever requests for its own segments the program makes in it, is for the program a run of the
      machine without addresses: instruction by instruction and request by request. */
  lemma RunIsProgram(set': Setting, states: seq<System>, events: seq<Event>, p: nat)
    requires IsExecution(set', states, events) && Ready(set', states[0])
    requires p in states[0].contexts && Lives(events, p)
    ensures forall i | 0 <= i < |events| :: ProgramStepAt(set', states, events, i, p)
  {
    hide Ready, Enabled, Fire, ProgramStep;
    forall i | 0 <= i < |events| ensures ProgramStepAt(set', states, events, i, p) {
      RunLives(set', states, events, p, i);
      assert FiredAt(set', states, events, i);
      FireProgram(set', states[i], events[i], p);
    }
  }

  lemma {:induction false} RunLives(set': Setting, states: seq<System>, events: seq<Event>, p: nat, n: nat)
    requires IsExecution(set', states, events) && Ready(set', states[0]) && n <= |events|
    requires p in states[0].contexts && Lives(events, p)
    ensures Ready(set', states[n]) && p in states[n].contexts
  {
    hide Ready, Enabled, Fire, ProgramStep;
    if n > 0 {
      RunLives(set', states, events, p, n - 1);
      assert FiredAt(set', states, events, n - 1);
      FireProgram(set', states[n - 1], events[n - 1], p);
    }
  }

  /** No request of the run creates, deletes or overwrites segments of `p`. */
  ghost predicate Leaves(events: seq<Event>, p: nat) {
    forall i | 0 <= i < |events| :: events[i].Memory? ==> !Names(events[i].req, p)
  }

  /** In every interleaving with other programs, evictions, dispatches, compactions, swapping and hot-plug,
      a program computes what it computes alone and undisturbed: its registers, its program counter and its
      memory are those after as many instructions as it had turns. */
  lemma {:induction false} RunTransparent(set': Setting, states: seq<System>, events: seq<Event>, p: nat)
    requires IsExecution(set', states, events) && Ready(set', states[0])
    requires p in states[0].contexts && Leaves(events, p)
    ensures Ready(set', states[|events|]) && p in states[|events|].contexts
    ensures Same(LogicalTurns(set'.programs(p), set'.segMax, Observed(set', states[0], p), TurnsOf(events, p)),
                 Observed(set', states[|events|], p))
    decreases |events|
  {
    hide Ready, Enabled, Fire, Names, LogicalTurn, Observed;
    ReadySegMax(set', states[0]);
    var n := |events| - 1;
    if n >= 0 {
      assert FiredAt(set', states, events, n);
      RunPrefix(set', states, events);
      RunTransparent(set', states[..n + 1], events[..n], p);
      FireReady(set', states[n], events[n]);
      LastStep(set', states[n], events[n], p);
      TurnAgain(set'.programs(p), set'.segMax,
        LogicalTurns(set'.programs(p), set'.segMax, Observed(set', states[0], p), TurnsOf(events[..n], p)),
        Observed(set', states[n], p));
    }
  }

  lemma RunPrefix(set': Setting, states: seq<System>, events: seq<Event>)
    requires IsExecution(set', states, events) && events != []
    ensures IsExecution(set', states[..|events|], events[..|events| - 1])
  {
    hide Ready, Enabled, Fire;
    var (front, first) := (states[..|events|], events[..|events| - 1]);
    forall i | 0 <= i < |first| ensures FiredAt(set', front, first, i) {
      assert FiredAt(set', states, events, i);
    }
  }

  lemma ReadySegMax(set': Setting, sys: System)
    requires Ready(set', sys)
    ensures set'.segMax > 0
  {
  }

  lemma LastStep(set': Setting, sys: System, ev: Event, p: nat)
    requires Ready(set', sys) && Enabled(set', sys, ev) && p in sys.contexts
    requires ev.Memory? ==> !Names(ev.req, p)
    requires Ready(set', Fire(set', sys, ev))
    ensures p in Fire(set', sys, ev).contexts
    ensures var before := Observed(set', sys, p);
      Same(if ev == TurnOf(p) then LogicalTurn(set'.programs(p), set'.segMax, before) else before,
           Observed(set', Fire(set', sys, ev), p))
  {
    hide Ready, LogicalTurn, Observed, TakeTurn;
    ReadySegMax(set', sys);
    if ev == TurnOf(p) {
      TurnKeepsContexts(set', sys, p);
      TurnRefines(set', sys, p);
    } else {
      FireInvisible(set', sys, ev, p);
    }
  }

  lemma TurnKeepsContexts(set': Setting, sys: System, p: nat)
    requires Ready(set', sys) && p in sys.loaded
    ensures p in TakeTurn(set', sys, p).contexts
  {
    hide Turn, ReadSave, SavePayload, Sound, Fits;
    assert OnCpu(sys, p);
  }

  /** Processes that look the same look the same one instruction later. */
  lemma TurnAgain(program: Program, segMax: u32, s: State, t: State)
    requires segMax > 0 && Same(s, t)
    ensures Same(LogicalTurn(program, segMax, s), LogicalTurn(program, segMax, t))
  {
  }
}
