/**
 The Kernel Scheduler as a state machine: which step may happen when, what it does, and what is kept by
 every step. The history records what the other modules owe an answer to, and who came when.
*/
module SchedulerRuns {
  import opened Base
  import opened SchedulerState
  import opened SchedulerSteps
  import opened SchedulerLists

  /** An eviction order under way: who held the CPU when it was sent, and which call of `evict_all_processes`
      sent it, if one did. */
  datatype Sent = Sent(target: nat, caller: Option<nat>)

  /** When a process began to wait for a mutex: its priority then, and whether the present owner had it already. */
  datatype Arrival = Arrival(prio: byte, tenure: bool)

  datatype History = History(
    orders: map<nat, Sent>,        // eviction orders without confirmation, by CPU
    io: set<nat>,                  // processes with an unfinished IO operation
    swapping: set<nat>,            // processes whose swapping out is not confirmed
    waitsOn: map<nat, nat>,        // the mutex a process waits for
    arrivals: seq<seq<Arrival>>,   // one for every waiting process, by mutex
    arrived: seq<seq<nat>>,        // everybody who ever waited for a mutex, in order
    granted: seq<seq<nat>>,        // everybody it was ever handed over to, in order
    calls: nat,                    // how often `evict_all_processes` was called
    compactions: set<nat>)         // those calls whose compaction has not ended

  datatype World = World(s: Sched, h: History)

  datatype Event =
    | NewProcess(base: byte)
    | ProcessCreated(pid: nat)
    | NewCpu
    | DispatchPass
    | QuantumExpired(cpu: nat)
    | CompactionBegin
    | Evicted(cpu: nat)
    | EvictedByAll(cpu: nat)
    | MemorySyscall(pid: nat)
    | SegmentDone(pid: nat, ok: bool)
    | ProcessEnd(pid: nat)
    | MutexCreate(name: string)
    | MutexLock(pid: nat, m: nat)
    | MutexUnlock(pid: nat, m: nat)
    | IoStart(pid: nat)
    | IoDone(pid: nat)
    | SuspensionSweep
    | SwapOutDone(pid: nat, ok: bool)
    | SwapInDone(pid: nat)
    | CompactionEnd(call: nat)
    | Tick(time: nat)

  // ---------- when a step may happen ----------

  /** Only a process on a CPU, and not while a memory request of its own is open, makes a syscall. */
  predicate Runs(s: Sched, p: nat) {
    p < |s.procs| && s.procs[p].state == Exec && s.procs[p].cpu.Some? && !s.procs[p].pending
  }

  /** A call of `evict_all_processes` has all the confirmations it waits for: the scheduler has sent
      COMPACTION_READY. */
  ghost predicate AllCame(h: History, call: nat) {
    forall c | c in h.orders :: h.orders[c].caller != Some(call)
  }

  ghost predicate Enabled(w: World, ev: Event) {
    match ev
    case ProcessCreated(p) => p < |w.s.procs| && w.s.procs[p].state == New
    case DispatchPass => w.s.canSchedule
    case QuantumExpired(c) => w.s.canSchedule && Holder(w.s.procs, c).Some?
    case CompactionEnd(call) => call in w.h.compactions && AllCame(w.h, call)
    case Evicted(c) => c in w.h.orders && w.h.orders[c].caller.None?
    case EvictedByAll(c) => c in w.h.orders && w.h.orders[c].caller.Some?
    case MemorySyscall(p) => Runs(w.s, p)
    case SegmentDone(p, _) => p < |w.s.procs| && w.s.procs[p].pending
    case ProcessEnd(p) => Runs(w.s, p)
    case MutexLock(p, m) => Runs(w.s, p) && m < |w.s.mutexes|
    case MutexUnlock(p, m) => Runs(w.s, p) && m < |w.s.mutexes|
    case IoStart(p) => Runs(w.s, p)
    case IoDone(p) => p in w.h.io
    case SuspensionSweep => w.s.canSchedule
    case SwapOutDone(p, _) => p in w.h.swapping
    case SwapInDone(p) => p in w.s.susp
    case _ => true
  }

  // ---------- what is kept ----------

  predicate Blocked(pr: Process) {
    pr.state == Block || pr.state == SuspBlock
  }

  predicate Asleep(pr: Process) {
    pr.state == SuspBlock || pr.state == SuspReady
  }

  /** A CPU that a process holds is not available, one that nobody holds and that is not being evicted is, and
      no two processes hold the same CPU; a process that runs without a CPU has a memory request open; while a
      CPU is being evicted nobody but the process that held it when the order was sent holds it. */
  ghost predicate CpusKept(w: World) {
    && (forall p | 0 <= p < |w.s.procs| :: CpuKept(w.s, p))
    && (forall p, q | 0 <= p < |w.s.procs| && 0 <= q < |w.s.procs| ::
         w.s.procs[p].cpu.Some? && w.s.procs[p].cpu == w.s.procs[q].cpu ==> p == q)
    && (forall c | c in w.h.orders :: OrderKept(w, c))
    && (forall call | call in w.h.compactions :: call < w.h.calls)
    && (forall c | 0 <= c < |w.s.cpus| :: IdleKept(w.s, c))
  }

  /** A CPU that nobody holds and that is not being evicted is available. */
  ghost predicate IdleKept(s: Sched, c: nat)
    requires c < |s.cpus|
  {
    s.cpus[c].available || s.cpus[c].evicting || Holder(s.procs, c).Some?
  }

  ghost predicate CpuKept(s: Sched, p: nat)
    requires p < |s.procs|
  {
    var pr := s.procs[p];
    && (pr.cpu.Some? ==> pr.state == Exec && pr.cpu.value < |s.cpus| && !s.cpus[pr.cpu.value].available)
    && (pr.state == Exec && pr.cpu.None? ==> pr.pending)
    && (pr.pending ==> pr.state == Exec)
  }

  ghost predicate OrderKept(w: World, c: nat)
    requires c in w.h.orders
  {
    && c < |w.s.cpus| && w.s.cpus[c].evicting && w.h.orders[c].target < |w.s.procs|
    && (w.h.orders[c].caller.Some? ==> w.h.orders[c].caller.value < w.h.calls)
    && forall p | 0 <= p < |w.s.procs| :: w.s.procs[p].cpu == Some(c) ==> p == w.h.orders[c].target
  }

  /** Exactly the suspended processes are in the suspended list or on their way there. */
  ghost predicate SuspKept(w: World) {
    && NoDuplicates(w.s.susp)
    && (forall p: nat :: p in w.s.susp || p in w.h.swapping <==> p < |w.s.procs| && Asleep(w.s.procs[p]))
    && (forall p | p in w.s.susp :: p !in w.h.swapping)
  }

  /** A blocked process waits for exactly one thing: one mutex or one IO operation. */
  ghost predicate WaitsKept(w: World) {
    && (forall m | 0 <= m < |w.s.mutexes| :: WaitersKept(w, m))
    && (forall p | p in w.h.waitsOn :: w.h.waitsOn[p] < |w.s.mutexes| && p !in w.h.io)
    && (forall p: nat :: p in w.h.waitsOn || p in w.h.io <==> p < |w.s.procs| && Blocked(w.s.procs[p]))
  }

  ghost predicate WaitersKept(w: World, m: nat)
    requires m < |w.s.mutexes|
  {
    && NoDuplicates(w.s.mutexes[m].waiting)
    && forall p :: p in w.s.mutexes[m].waiting <==> p in w.h.waitsOn && w.h.waitsOn[p] == m
  }

  /** Owners and owned mutexes agree both ways. */
  ghost predicate OwnersKept(s: Sched) {
    && (forall m | 0 <= m < |s.mutexes| :: MutexKept(s, m))
    && (forall p | 0 <= p < |s.procs| :: OwnedKept(s, p))
  }

  ghost predicate Owns(s: Sched, p: nat, m: nat) {
    m < |s.mutexes| && s.mutexes[m].owner == Some(p)
  }

  ghost predicate OwnedKept(s: Sched, p: nat)
    requires p < |s.procs|
  {
    && NoDuplicates(s.procs[p].owned)
    && forall m: nat :: m in s.procs[p].owned <==> Owns(s, p, m)
  }

  ghost predicate MutexKept(s: Sched, m: nat)
    requires m < |s.mutexes|
  {
    var mx := s.mutexes[m];
    && (mx.locked <==> mx.owner.Some?)
    && (mx.owner.Some? ==> mx.owner.value < |s.procs|)
    && (mx.waiting != [] ==> mx.locked)
    && (forall p | p in mx.waiting :: p < |s.procs| && mx.owner != Some(p))
  }

  /** Some process that waits for a mutex of `p` is at least as urgent as `prio`. */
  ghost predicate Pressed(s: Sched, p: nat, prio: byte) {
    exists m, q | 0 <= m < |s.mutexes| && 0 <= q < |s.procs| ::
      s.mutexes[m].owner == Some(p) && q in s.mutexes[m].waiting && s.procs[q].eff <= prio
  }

  /** Priorities never drop below what they inherit from: the two bounds on every effective priority. */
  ghost predicate UrgencyKept(rules: Rules, w: World) {
    && (forall p | 0 <= p < |w.s.procs| :: FloorKept(rules, w.s, p))
    && |w.h.arrivals| == |w.s.mutexes|
    && (forall m | 0 <= m < |w.s.mutexes| :: CeilingKept(rules, w, m))
  }

  ghost predicate FloorKept(rules: Rules, s: Sched, p: nat)
    requires p < |s.procs|
  {
    && s.procs[p].eff <= s.procs[p].base
    && (s.procs[p].eff < s.procs[p].base ==> rules.algorithm == CMN && Pressed(s, p, s.procs[p].eff))
  }

  ghost predicate CeilingKept(rules: Rules, w: World, m: nat)
    requires m < |w.s.mutexes| && |w.h.arrivals| == |w.s.mutexes|
  {
    var mx, arrivals := w.s.mutexes[m], w.h.arrivals[m];
    && |arrivals| == |mx.waiting|
    && forall i | 0 <= i < |arrivals| ::
      && mx.waiting[i] < |w.s.procs|
      && w.s.procs[mx.waiting[i]].eff <= arrivals[i].prio
      && (rules.algorithm == CMN && arrivals[i].tenure && mx.owner.Some? && mx.owner.value < |w.s.procs| ==>
           w.s.procs[mx.owner.value].eff <= arrivals[i].prio)
  }

  /** Mutexes are handed over in the order in which processes began to wait for them. */
  ghost predicate GrantsKept(w: World) {
    && |w.h.arrived| == |w.h.granted| == |w.s.mutexes|
    && forall m | 0 <= m < |w.s.mutexes| :: w.h.arrived[m] == w.h.granted[m] + w.s.mutexes[m].waiting
  }

  ghost predicate Good(rules: Rules, w: World) {
    && Listed(rules, w.s) && CpusKept(w) && SuspKept(w) && WaitsKept(w) && OwnersKept(w.s)
    && UrgencyKept(rules, w) && GrantsKept(w)
  }

  // ---------- steps ----------

  /** `send_process_evict` on a CPU: refused if an eviction is under way. */
  function OrderSent(w: World, c: nat, caller: Option<nat>): World {
    if c >= |w.s.cpus| || w.s.cpus[c].evicting then w
    else
      var holder := Holder(w.s.procs, c);
      World(Order(w.s, c), if holder.None? then w.h else w.h.(orders := w.h.orders[c := Sent(holder.value, caller)]))
  }

  /** The first loop of `evict_all_processes`, over the executing processes. */
  function OrderEach(w: World, list: seq<nat>, call: nat): World
    requires forall i | 0 <= i < |list| :: list[i] < |w.s.procs|
  {
    if list == [] then w
    else
      var before := OrderEach(w, list[..|list| - 1], call);
      var cpu := w.s.procs[list[|list| - 1]].cpu;
      if cpu.None? then before else OrderSent(before, cpu.value, Some(call))
  }

  /** `compaction_requested_thread` up to the orders: dispatching is switched off, then every executing process
      is to be evicted; the call has a number of its own. */
  function BeginCompaction(w: World): World
    requires forall i | 0 <= i < |w.s.lists.exec| :: w.s.lists.exec[i] < |w.s.procs|
  {
    var call := w.h.calls;
    var off := World(w.s.(canSchedule := false),
                     w.h.(calls := call + 1, compactions := w.h.compactions + {call}));
    OrderEach(off, w.s.lists.exec, call)
  }

  /** Its end, after COMPACTION_FINISHED: dispatching is switched on. */
  function EndCompaction(w: World, call: nat): World {
    World(w.s.(canSchedule := true), w.h.(compactions := w.h.compactions - {call}))
  }

  /** The history after a process begins to wait for a mutex. */
  function Arrives(h: History, p: nat, m: nat, prio: byte): History
    requires m < |h.arrivals| && m < |h.arrived|
  {
    h.(waitsOn := h.waitsOn[p := m],
       arrivals := h.arrivals[m := h.arrivals[m] + [Arrival(prio, true)]],
       arrived := h.arrived[m := h.arrived[m] + [p]])
  }

  /** A new owner: whoever still waits came before its tenure. */
  function NotInTenure(arrivals: seq<Arrival>): (r: seq<Arrival>)
    ensures |r| == |arrivals|
    ensures forall i | 0 <= i < |r| :: r[i] == arrivals[i].(tenure := false)
  {
    if arrivals == [] then [] else [arrivals[0].(tenure := false)] + NotInTenure(arrivals[1..])
  }

  /** The history after a mutex is handed over to the process that waited longest. */
  function Granted(h: History, next: nat, m: nat): History
    requires m < |h.arrivals| && m < |h.granted| && h.arrivals[m] != []
  {
    h.(waitsOn := h.waitsOn - {next},
       arrivals := h.arrivals[m := NotInTenure(h.arrivals[m][1..])],
       granted := h.granted[m := h.granted[m] + [next]])
  }

  function LockStep(rules: Rules, w: World, p: nat, m: nat): World
    requires p < |w.s.procs| && m < |w.s.mutexes| && m < |w.h.arrivals| && m < |w.h.arrived|
  {
    var mx := w.s.mutexes[m];
    World(Lock(rules, w.s, p, m),
          if mx.locked && mx.owner != Some(p) then Arrives(w.h, p, m, w.s.procs[p].eff) else w.h)
  }

  function UnlockStep(rules: Rules, w: World, p: nat, m: nat): World
    requires p < |w.s.procs| && m < |w.s.mutexes| && m < |w.h.arrivals| && m < |w.h.granted|
    requires w.s.mutexes[m].waiting != [] ==> w.s.mutexes[m].waiting[0] < |w.s.procs| && w.h.arrivals[m] != []
  {
    var mx := w.s.mutexes[m];
    World(Unlock(rules, w.s, p, m),
          if mx.owner == Some(p) && mx.waiting != [] then Granted(w.h, mx.waiting[0], m) else w.h)
  }

  function CreateMutexStep(w: World, name: string): World {
    if FindMutex(w.s.mutexes, name).Some? then w
    else World(CreateMutex(w.s, name),
               w.h.(arrivals := w.h.arrivals + [[]], arrived := w.h.arrived + [[]], granted := w.h.granted + [[]]))
  }

  function ToSet(list: seq<nat>): set<nat> {
    set p | p in list
  }
}
