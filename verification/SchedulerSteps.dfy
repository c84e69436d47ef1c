/**
 One function for every handler and critical section of the Kernel Scheduler, each taken as one step.
*/
module SchedulerSteps {
  import opened Base
  import opened SchedulerState

  function Update(s: Sched, p: nat, pr: Process): Sched
    requires p < |s.procs|
  {
    s.(procs := s.procs[p := pr])
  }

  function SetState(s: Sched, p: nat, state: PState): Sched
    requires p < |s.procs|
  {
    Update(s, p, s.procs[p].(state := state))
  }

  function SetCpu(s: Sched, p: nat, cpu: Option<nat>): Sched
    requires p < |s.procs|
  {
    Update(s, p, s.procs[p].(cpu := cpu))
  }

  function ReadyPlace(rules: Rules, pr: Process): Place {
    InReady(Level(rules, pr.eff))
  }

  /** `add_process_to_ready_queue` */
  function AddReady(rules: Rules, s: Sched, p: nat): Sched
    requires p < |s.procs|
  {
    s.(lists := Put(s.lists, ReadyPlace(rules, s.procs[p]), p))
  }

  /** `add_process_at_start_of_ready_queue`: only CMN puts a process in front. */
  function AddReadyFirst(rules: Rules, s: Sched, p: nat): Sched
    requires p < |s.procs|
  {
    if rules.algorithm == CMN then s.(lists := PutFirst(s.lists, ReadyPlace(rules, s.procs[p]), p))
    else AddReady(rules, s, p)
  }

  function RemoveReady(rules: Rules, s: Sched, p: nat): Sched
    requires p < |s.procs|
  {
    s.(lists := Take(s.lists, ReadyPlace(rules, s.procs[p]), p))
  }

  function Leave(s: Sched, at: Place, p: nat): Sched {
    s.(lists := Take(s.lists, at, p))
  }

  function Join(s: Sched, at: Place, p: nat): Sched {
    s.(lists := Put(s.lists, at, p))
  }

  function SetAvailable(s: Sched, c: nat, available: bool): Sched {
    if c < |s.cpus| then s.(cpus := s.cpus[c := s.cpus[c].(available := available)]) else s
  }

  // ---------- long term ----------

  /** `long_term_scheduler` with `pid_assigner`: the new process has the next pid. */
  function Create(s: Sched, base: byte): Sched {
    s.(procs := s.procs + [Process(New, base, base, None, [], false, 0, 0)])
  }

  /** `wait_process_create_confirmation` */
  function Created(rules: Rules, s: Sched, p: nat): Sched
    requires p < |s.procs|
  {
    AddReady(rules, SetState(s, p, Ready), p)
  }

  function ConnectCpu(s: Sched): Sched {
    s.(cpus := s.cpus + [CpuInfo(true, false)])
  }

  // ---------- short term ----------

  /** The first process of the first non-empty queue. */
  function FirstReady(queues: seq<seq<nat>>): Option<nat> {
    if queues == [] then None
    else if queues[0] != [] then Some(queues[0][0])
    else FirstReady(queues[1..])
  }

  /** `get_next_process_to_execute` */
  function NextToRun(rules: Rules, s: Sched): Option<nat> {
    var first := if rules.algorithm == CMN then FirstReady(s.lists.ready)
                 else if ListAt(s.lists, InReady(0)) == [] then None else Some(ListAt(s.lists, InReady(0))[0]);
    if first.Some? && first.value < |s.procs| && s.procs[first.value].state == Ready then first else None
  }

  predicate Free(c: CpuInfo) {
    c.available && !c.evicting
  }

  /** `get_available_cpu`: the first one in the list. */
  function FreeCpu(cpus: seq<CpuInfo>): (r: Option<nat>)
    ensures r.Some? ==> r.value < |cpus| && Free(cpus[r.value])
    ensures forall c | 0 <= c < |cpus| && Free(cpus[c]) :: r.Some? && r.value <= c
  {
    if cpus == [] then None
    else if Free(cpus[0]) then Some(0)
    else
      var r := FreeCpu(cpus[1..]);
      assert forall c | 0 < c < |cpus| :: cpus[c] == cpus[1..][c - 1];
      if r.None? then None else Some(r.value + 1)
  }

  /** One iteration of the dispatch loop. */
  function Dispatch(rules: Rules, s: Sched, p: nat, c: nat): Sched
    requires p < |s.procs|
  {
    var s1 := SetAvailable(RemoveReady(rules, s, p), c, false);
    var pr := s.procs[p].(state := Exec, cpu := Some(c));
    var s2 := Update(s1, p, if rules.algorithm == FIFO then pr else pr.(execSince := s.clock));
    Join(s2, InExec, p)
  }

  /** `get_lowest_priority_process`: the first of the least urgent. */
  function LeastUrgent(procs: seq<Process>, list: seq<nat>): (r: Option<nat>)
    requires forall i | 0 <= i < |list| :: list[i] < |procs|
    ensures r.None? <==> list == []
    ensures r.Some? ==> r.value in list
    ensures r.Some? ==> forall i | 0 <= i < |list| :: procs[list[i]].eff <= procs[r.value].eff
  {
    if list == [] then None
    else
      var front := LeastUrgent(procs, list[..|list| - 1]);
      var last := list[|list| - 1];
      if front.None? || procs[last].eff > procs[front.value].eff then Some(last) else front
  }

  /** The CPU to evict when a process is ready, none is free, and a less urgent process runs. */
  function Preempted(rules: Rules, s: Sched): Option<nat>
    requires forall i | 0 <= i < |s.lists.exec| :: s.lists.exec[i] < |s.procs|
  {
    var next := NextToRun(rules, s);
    if next.None? || FreeCpu(s.cpus).Some? || rules.algorithm != CMN || !rules.preemption then None
    else
      var least := LeastUrgent(s.procs, s.lists.exec);
      if least.Some? && s.procs[least.value].eff > s.procs[next.value].eff then s.procs[least.value].cpu else None
  }

  // ---------- eviction ----------

  /** `send_process_evict`: refused while an eviction of the CPU is under way. */
  function Order(s: Sched, c: nat): Sched {
    if c < |s.cpus| then s.(cpus := s.cpus[c := s.cpus[c].(evicting := true)]) else s
  }

  /** The CPUs of the listed processes to which `evict_all_processes` sends an order, in order: those that are
      not being evicted already. */
  function Newly(s: Sched, list: seq<nat>): seq<nat> {
    if list == [] then []
    else
      var front := Newly(s, list[..|list| - 1]);
      var p := list[|list| - 1];
      if p < |s.procs| && s.procs[p].cpu.Some? && s.procs[p].cpu.value < |s.cpus|
        && !s.cpus[s.procs[p].cpu.value].evicting && s.procs[p].cpu.value !in front
      then front + [s.procs[p].cpu.value]
      else front
  }

  function Settle(s: Sched, c: nat): Sched {
    if c < |s.cpus| then s.(cpus := s.cpus[c := CpuInfo(true, false)]) else s
  }

  /** `get_process_from_cpu` */
  function Holder(procs: seq<Process>, c: nat): (r: Option<nat>)
    ensures r.Some? ==> r.value < |procs| && procs[r.value].cpu == Some(c)
    ensures r.None? ==> forall p | 0 <= p < |procs| :: procs[p].cpu != Some(c)
  {
    if procs == [] then None
    else
      var r := Holder(procs[..|procs| - 1], c);
      if r.Some? then r else if procs[|procs| - 1].cpu == Some(c) then Some(|procs| - 1) else None
  }

  /** The CPU's process leaves it; it becomes ready unless a memory syscall of its own is pending. */
  function Demote(rules: Rules, s: Sched, p: nat, first: bool): Sched
    requires p < |s.procs|
  {
    var s1 := SetCpu(Leave(s, InExec, p), p, None);
    if s.procs[p].pending then s1
    else if first then AddReadyFirst(rules, SetState(s1, p, Ready), p)
    else AddReady(rules, SetState(s1, p, Ready), p)
  }

  /** `wait_confirmation_thread_and_handle_state` */
  function Confirm(rules: Rules, s: Sched, c: nat): Sched {
    match Holder(s.procs, c)
    case Some(p) => Demote(rules, Settle(s, c), p, false)
    case None => Settle(s, c)
  }

  /** A confirmation in `evict_all_processes`: the CPU is settled only if a process still held it. */
  function ConfirmAll(rules: Rules, s: Sched, c: nat): Sched {
    match Holder(s.procs, c)
    case Some(p) => Settle(Demote(rules, s, p, true), c)
    case None => s
  }

  // ---------- memory syscalls ----------

  /** `mem_alloc_syscall_manager`, `mem_free_syscall_manager` */
  function AskMemory(s: Sched, p: nat): Sched
    requires p < |s.procs|
  {
    Update(s, p, s.procs[p].(pending := true))
  }

  /** `handle_segment_result` */
  function SegmentResult(rules: Rules, s: Sched, p: nat, ok: bool): Sched
    requires p < |s.procs|
  {
    var s1 := Update(s, p, s.procs[p].(pending := false));
    match s.procs[p].cpu
    case None =>
      if ok then (if s.procs[p].state == Exec then AddReady(rules, SetState(s1, p, Ready), p) else s1)
      else Leave(SetState(s1, p, Exit), InExec, p)
    case Some(c) =>
      if ok then s1
      else
        var s2 := RemoveReady(rules, Leave(SetCpu(SetState(s1, p, Exit), p, None), InExec, p), p);
        if c < |s.cpus| && !s.cpus[c].evicting then SetAvailable(s2, c, true) else s2
  }

  /** PROCESS_END and SEGMENTATION_FAULT */
  function End(s: Sched, p: nat, c: nat): Sched
    requires p < |s.procs|
  {
    SetAvailable(Leave(SetCpu(SetState(s, p, Exit), p, None), InExec, p), c, true)
  }

  // ---------- blocking ----------

  /** The common part of SLEEP, STDIN, STDOUT and of waiting for a mutex. */
  function BlockProcess(s: Sched, p: nat): Sched
    requires p < |s.procs|
  {
    var pr := s.procs[p].(state := Block, cpu := None, blockedSince := s.clock);
    Join(Leave(Update(s, p, pr), InExec, p), InBlock, p)
  }

  function StartIo(s: Sched, p: nat, c: nat): Sched
    requires p < |s.procs|
  {
    SetAvailable(BlockProcess(s, p), c, true)
  }

  /** `process_set_ready`, then the lists: a suspended process only becomes ready to be resumed. */
  function Wake(rules: Rules, s: Sched, p: nat): Sched
    requires p < |s.procs|
  {
    if s.procs[p].state == SuspBlock then Leave(SetState(s, p, SuspReady), InBlock, p)
    else AddReady(rules, Leave(SetState(s, p, Ready), InBlock, p), p)
  }

  // ---------- mutexes ----------

  function FindMutex(mutexes: seq<Mutex>, name: string): (r: Option<nat>)
    ensures r.Some? ==> r.value < |mutexes| && mutexes[r.value].name == name
    ensures r.None? ==> forall m | 0 <= m < |mutexes| :: mutexes[m].name != name
  {
    if mutexes == [] then None
    else
      var r := FindMutex(mutexes[..|mutexes| - 1], name);
      if r.Some? then r else if mutexes[|mutexes| - 1].name == name then Some(|mutexes| - 1) else None
  }

  /** `mutex_create` */
  function CreateMutex(s: Sched, name: string): Sched {
    if FindMutex(s.mutexes, name).Some? then s else s.(mutexes := s.mutexes + [Mutex(name, false, None, [])])
  }

  /** A new effective priority, with the ready queue changed if the process stands in one. */
  function Reprioritize(rules: Rules, s: Sched, p: nat, prio: byte): Sched
    requires p < |s.procs|
  {
    var s1 := if s.procs[p].state == Ready then RemoveReady(rules, s, p) else s;
    var s2 := Update(s1, p, s.procs[p].(eff := prio));
    if s.procs[p].state == Ready then AddReady(rules, s2, p) else s2
  }

  function SetMutex(s: Sched, m: nat, mx: Mutex): Sched
    requires m < |s.mutexes|
  {
    s.(mutexes := s.mutexes[m := mx])
  }

  function Acquire(s: Sched, p: nat, m: nat): Sched
    requires p < |s.procs| && m < |s.mutexes|
  {
    var s1 := SetMutex(s, m, s.mutexes[m].(locked := true, owner := Some(p)));
    Update(s1, p, s.procs[p].(owned := s.procs[p].owned + [m]))
  }

  /** `mutex_lock` */
  function Lock(rules: Rules, s: Sched, p: nat, m: nat): Sched
    requires p < |s.procs| && m < |s.mutexes|
  {
    var mx := s.mutexes[m];
    if !mx.locked then Acquire(s, p, m)
    else if mx.owner == Some(p) then s
    else
      var s1 := BlockProcess(SetMutex(s, m, mx.(waiting := mx.waiting + [p])), p);
      var s2 := Inherit(rules, s1, p, mx.owner);
      if s.procs[p].cpu.Some? then SetAvailable(s2, s.procs[p].cpu.value, true) else s2
  }

  /** Priority inheritance: under CMN the owner of a mutex becomes as urgent as who starts to wait for it. */
  function Inherit(rules: Rules, s: Sched, p: nat, owner: Option<nat>): Sched
    requires p < |s.procs|
  {
    if owner.Some? && owner.value < |s.procs| && rules.algorithm == CMN && s.procs[p].eff < s.procs[owner.value].eff
    then Reprioritize(rules, s, owner.value, s.procs[p].eff)
    else s
  }

  /** The most urgent of `prio` and the listed processes. */
  function MostUrgent(procs: seq<Process>, list: seq<nat>, prio: byte): (r: byte) {
    if list == [] then prio
    else
      var front := MostUrgent(procs, list[..|list| - 1], prio);
      var w := list[|list| - 1];
      if w < |procs| && procs[w].eff < front then procs[w].eff else front
  }

  /** The priority left after a release: the base, or that of a process waiting for another owned mutex. */
  function Inherited(s: Sched, owned: seq<nat>, prio: byte): byte {
    if owned == [] then prio
    else
      var front := Inherited(s, owned[..|owned| - 1], prio);
      var m := owned[|owned| - 1];
      if m < |s.mutexes| then MostUrgent(s.procs, s.mutexes[m].waiting, front) else front
  }

  /** The first half of `mutex_unlock`: the owner gives the mutex up and its priority is computed anew. */
  function Release(rules: Rules, s: Sched, p: nat, m: nat): Sched
    requires p < |s.procs|
  {
    var s1 := Update(s, p, s.procs[p].(owned := Without(s.procs[p].owned, m)));
    var prio := Inherited(s1, s1.procs[p].owned, s.procs[p].base);
    if rules.algorithm == CMN && prio != s.procs[p].eff then Reprioritize(rules, s1, p, prio) else s1
  }

  /** The second half: the mutex goes to the process that has waited longest. */
  function HandOver(rules: Rules, s: Sched, m: nat): Sched
    requires m < |s.mutexes|
    requires s.mutexes[m].waiting != [] ==> s.mutexes[m].waiting[0] < |s.procs|
  {
    var mx := s.mutexes[m];
    if mx.waiting == [] then SetMutex(s, m, mx.(locked := false, owner := None))
    else
      var next := mx.waiting[0];
      var s1 := SetMutex(s, m, mx.(locked := true, owner := Some(next), waiting := mx.waiting[1..]));
      var pr := s.procs[next];
      Wake(rules, Update(s1, next, pr.(owned := pr.owned + [m])), next)
  }

  /** `mutex_unlock`: nothing happens unless the process owns the mutex. */
  function Unlock(rules: Rules, s: Sched, p: nat, m: nat): Sched
    requires p < |s.procs| && m < |s.mutexes|
    requires s.mutexes[m].waiting != [] ==> s.mutexes[m].waiting[0] < |s.procs|
  {
    if s.mutexes[m].owner != Some(p) then s else HandOver(rules, Release(rules, s, p, m), m)
  }

  // ---------- medium term ----------

  predicate Expired(rules: Rules, s: Sched, p: nat) {
    p < |s.procs| && s.procs[p].state == Block && s.clock >= s.procs[p].blockedSince + rules.suspensionTimeout
  }

  /** Those of the list that have (or have not) been blocked for too long, in order. */
  function Overdue(rules: Rules, s: Sched, list: seq<nat>, overdue: bool): (r: seq<nat>)
    ensures forall p :: p in r <==> p in list && Expired(rules, s, p) == overdue
  {
    if list == [] then []
    else
      var front := Overdue(rules, s, list[..|list| - 1], overdue);
      var last := list[|list| - 1];
      if Expired(rules, s, last) == overdue then front + [last] else front
  }

  function Mark(procs: seq<Process>, list: seq<nat>): (r: seq<Process>)
    ensures |r| == |procs|
    ensures forall p | 0 <= p < |procs| :: r[p] == if p in list then procs[p].(state := SuspBlock) else procs[p]
  {
    if list == [] then procs
    else
      var front := Mark(procs, list[..|list| - 1]);
      var last := list[|list| - 1];
      if last < |procs| then front[last := procs[last].(state := SuspBlock)] else front
  }

  /** The suspension sweep. */
  function Sweep(rules: Rules, s: Sched): Sched {
    var late := Overdue(rules, s, s.lists.block, true);
    s.(procs := Mark(s.procs, late), lists := s.lists.(block := Overdue(rules, s, s.lists.block, false)))
  }

  /** `wait_confirmation_swap_out` */
  function SwappedOut(rules: Rules, s: Sched, p: nat, ok: bool): Sched
    requires p < |s.procs|
  {
    var state := s.procs[p].state;
    if state != SuspBlock && state != SuspReady then s
    else if ok then s.(susp := s.susp + [p])
    else if state == SuspReady then AddReady(rules, SetState(s, p, Ready), p)
    else Join(Update(s, p, s.procs[p].(state := Block, blockedSince := s.clock)), InBlock, p)
  }

  /** `wait_confirmation_swap_in` for one process of the list. */
  function SwappedIn(rules: Rules, s: Sched, p: nat): Sched
    requires p < |s.procs|
  {
    var s1 := s.(susp := Without(s.susp, p));
    match s.procs[p].state
    case SuspReady => AddReady(rules, SetState(s1, p, Ready), p)
    case SuspBlock => Join(Update(s1, p, s.procs[p].(state := Block, blockedSince := s.clock)), InBlock, p)
    case _ => s1
  }
}
