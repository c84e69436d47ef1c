/**
 The Kernel Scheduler as it runs: lists, CPUs and processes changed in place, handler by handler
 (kernel_scheduler/src).
*/
module KernelSchedulers {
  import opened Base
  import opened SchedulerState
  import opened SchedulerSteps
  import opened SchedulerLists
  import opened SchedulerRuns
  import opened SchedulerDispatch
  import opened SchedulerSafety
  import opened SchedulerMeaning

  class KernelScheduler {
    const rules: Rules
    var procs: seq<Process>
    var ready: seq<seq<nat>>
    var exec: seq<nat>
    var block: seq<nat>
    var susp: seq<nat>
    var cpus: seq<CpuInfo>
    var mutexes: seq<Mutex>
    var canSchedule: bool
    var clock: nat

    constructor (rules: Rules)
      requires WellFormed(rules)
      ensures this.rules == rules && Valid()
      ensures Now() == Sched([], Lists(seq(rules.queues, _ => []), [], []), [], [], [], true, 0)
    {
      this.rules := rules;
      procs, ready, exec, block, susp := [], seq(rules.queues, _ => []), [], [], [];
      cpus, mutexes, canSchedule, clock := [], [], true, 0;
    }

    ghost predicate Valid()
      reads this
    {
      WellFormed(rules) && |ready| == rules.queues
    }

    /** The scheduler's state as a value. */
    ghost function Now(): Sched
      reads this
    {
      Sched(procs, Lists(ready, exec, block), susp, cpus, mutexes, canSchedule, clock)
    }

    // ---------- ready queues ----------

    method QueueIndex(p: nat) returns (queue: nat)
      requires Valid() && p < |procs|
      ensures queue == Level(rules, procs[p].eff) && queue < |ready|
    {
      if rules.algorithm == CMN {
        if procs[p].eff >= rules.queues {
          queue := rules.queues - 1;
        } else {
          queue := procs[p].eff;
        }
      } else {
        queue := 0;
      }
    }

    /** `add_process_to_ready_queue` */
    method AddToReadyQueue(p: nat)
      requires Valid() && p < |procs|
      modifies this`ready
      ensures Valid() && Now() == AddReady(rules, old(Now()), p)
    {
      var queue := QueueIndex(p);
      ready := ready[queue := ready[queue] + [p]];
    }

    /** `add_process_at_start_of_ready_queue` */
    method AddAtStartOfReadyQueue(p: nat)
      requires Valid() && p < |procs|
      modifies this`ready
      ensures Valid() && Now() == AddReadyFirst(rules, old(Now()), p)
    {
      var queue := QueueIndex(p);
      if rules.algorithm == CMN {
        ready := ready[queue := [p] + ready[queue]];
      } else {
        ready := ready[queue := ready[queue] + [p]];
      }
    }

    /** `remove_process_from_ready_queue` */
    method RemoveFromReadyQueue(p: nat)
      requires Valid() && p < |procs|
      modifies this`ready
      ensures Valid() && Now() == RemoveReady(rules, old(Now()), p)
    {
      var queue := QueueIndex(p);
      ready := ready[queue := Without(ready[queue], p)];
    }

    // ---------- creation ----------

    /** `long_term_scheduler` */
    method CreateProcess(base: byte) returns (pid: nat)
      requires Valid()
      modifies this`procs
      ensures Valid() && pid == |old(procs)| && Now() == Create(old(Now()), base)
    {
      pid := |procs|;
      procs := procs + [Process(New, base, base, None, [], false, 0, 0)];
    }

    /** `wait_process_create_confirmation` */
    method ProcessCreateConfirmed(p: nat)
      requires Valid() && p < |procs|
      modifies this`procs, this`ready
      ensures Valid() && Now() == Created(rules, old(Now()), p)
    {
      procs := procs[p := procs[p].(state := Ready)];
      AddToReadyQueue(p);
    }

    // ---------- dispatching ----------

    /** `get_next_process_to_execute` with `get_highest_priority_process_from_ready_queue` */
    method GetNextProcess() returns (next: Option<nat>)
      requires Valid()
      ensures next == NextToRun(rules, Now())
    {
      next := None;
      if rules.algorithm == CMN {
        var i := 0;
        assert ready[0..] == ready;
        while i < |ready| && ready[i] == []
          invariant i <= |ready| && FirstReady(ready) == FirstReady(ready[i..])
        {
          assert ready[i..][1..] == ready[i + 1..];
          i := i + 1;
        }
        if i < |ready| {
          next := Some(ready[i][0]);
        }
      } else if ready[0] != [] {
        next := Some(ready[0][0]);
      }
      if next.Some? && (next.value >= |procs| || procs[next.value].state != Ready) {
        next := None;
      }
    }

    /** `get_available_cpu` */
    method GetAvailableCpu() returns (cpu: Option<nat>)
      ensures cpu == FreeCpu(cpus)
    {
      var i := 0;
      while i < |cpus| && !(cpus[i].available && !cpus[i].evicting)
        invariant i <= |cpus| && forall c | 0 <= c < i :: !Free(cpus[c])
      {
        i := i + 1;
      }
      cpu := if i < |cpus| then Some(i) else None;
    }

    /** `get_lowest_priority_process` */
    method GetLowestPriority(list: seq<nat>) returns (lowest: Option<nat>)
      requires forall i | 0 <= i < |list| :: list[i] < |procs|
      ensures lowest == LeastUrgent(procs, list)
    {
      if list == [] {
        return None;
      }
      lowest := Some(list[0]);
      assert list[..1][..0] == [];
      for i := 1 to |list|
        invariant lowest == LeastUrgent(procs, list[..i]) && lowest.Some?
      {
        assert list[..i + 1][..i] == list[..i];
        if procs[list[i]].eff > procs[lowest.value].eff {
          lowest := Some(list[i]);
        }
      }
      assert list[..|list|] == list;
    }

    /** One iteration of the dispatch loop. */
    method DispatchTo(p: nat, c: nat)
      requires Valid() && p < |procs| && c < |cpus|
      modifies this`procs, this`ready, this`exec, this`cpus
      ensures Valid() && Now() == Dispatch(rules, old(Now()), p, c)
    {
      RemoveFromReadyQueue(p);
      cpus := cpus[c := cpus[c].(available := false)];
      procs := procs[p := procs[p].(state := Exec, cpu := Some(c))];
      if rules.algorithm != FIFO {
        procs := procs[p := procs[p].(execSince := clock)];
      }
      exec := exec + [p];
    }

    /** A pass of `short_term_scheduler_main`. At its end it may evict the least urgent running process. */
    method DispatchPass() returns (evicted: Option<nat>)
      requires Valid() && Listed(rules, Now())
      modifies this`procs, this`ready, this`exec, this`cpus
      ensures Valid() && Listed(rules, DispatchAll(rules, old(Now())))
      ensures evicted.None? ==> Now() == DispatchAll(rules, old(Now()))
      ensures evicted.Some? ==> Now() == Order(DispatchAll(rules, old(Now())), evicted.value)
      ensures Preemptable(DispatchAll(rules, old(Now()))) && evicted == Preempted(rules, DispatchAll(rules, old(Now())))
    {
      hide Agree, DispatchAll, Flat, FreeList, NextToRun, FreeCpu, Dispatch, LeastUrgent;
      ghost var before := Now();
      var done := false;
      evicted := None;
      while !done
        invariant Valid() && WellFormed(rules) && Listed(rules, Now()) && Listed(rules, before)
        invariant DispatchAll(rules, Now()) == DispatchAll(rules, before)
        invariant done ==> !CanDispatch(Now())
        decreases !done, |Flat(ready)|
      {
        PassStep(rules, Now());
        var process := GetNextProcess();
        var cpu := GetAvailableCpu();
        if process.None? || cpu.None? {
          done := true;
        } else {
          DispatchTo(process.value, cpu.value);
        }
      }
      PassStop(rules, Now());
      ExecKnown(rules, Now());
      evicted := PreemptFor();
      if evicted.Some? {
        var _ := SendProcessEvict(evicted.value);
      }
    }

    /** The CPU to preempt, if a process is ready, no CPU is free, and a less urgent process runs. */
    method PreemptFor() returns (cpu: Option<nat>)
      requires Valid() && Preemptable(Now())
      ensures cpu == Preempted(rules, Now())
    {
      var process := GetNextProcess();
      var free := GetAvailableCpu();
      cpu := None;
      if process.Some? && free.None? && rules.algorithm == CMN && rules.preemption {
        var lowest := GetLowestPriority(exec);
        if lowest.Some? && procs[lowest.value].eff > procs[process.value].eff {
          cpu := procs[lowest.value].cpu;
        }
      }
    }

    // ---------- eviction ----------

    /** `send_process_evict` */
    method SendProcessEvict(c: nat) returns (sent: bool)
      requires Valid()
      modifies this`cpus
      ensures Valid() && Now() == Order(old(Now()), c)
      ensures sent == (c < |old(cpus)| && !old(cpus)[c].evicting)
    {
      sent := false;
      if c < |cpus| && !cpus[c].evicting {
        cpus := cpus[c := cpus[c].(evicting := true)];
        sent := true;
      }
    }

    /** The first part of `evict_all_processes`: the orders, and exactly the CPUs it sent one to. */
    method EvictAll() returns (awaited: seq<nat>)
      requires Valid() && Preemptable(Now())
      modifies this`cpus
      ensures Valid() && forall h, call :: Now() == OrderEach(World(old(Now()), h), exec, call).s
      ensures awaited == Newly(old(Now()), exec)
    {
      awaited := [];
      ghost var before := Now();
      for i := 0 to |exec|
        invariant Valid() && Now() == OrderAll(before, exec[..i]) && |cpus| == |before.cpus|
        invariant awaited == Newly(before, exec[..i])
        invariant forall c | 0 <= c < |cpus| :: cpus[c].evicting == (before.cpus[c].evicting || c in awaited)
      {
        assert exec[..i + 1][..i] == exec[..i];
        var cpu := procs[exec[i]].cpu;
        if cpu.Some? {
          var sent := SendProcessEvict(cpu.value);
          if sent {
            awaited := awaited + [cpu.value];
          }
        }
      }
      assert exec[..|exec|] == exec;
      forall h, call ensures Now() == OrderEach(World(before, h), exec, call).s {
        OrderEachAll(World(before, h), exec, call);
      }
    }

    /** `compaction_requested_thread` up to its wait for the confirmations. */
    method BeginCompacting() returns (awaited: seq<nat>)
      requires Valid() && Preemptable(Now())
      modifies this`cpus, this`canSchedule
      ensures Valid() && forall h :: Now() == BeginCompaction(World(old(Now()), h)).s
      ensures awaited == Newly(old(Now()), exec)
    {
      hide OrderEach, Newly;
      ghost var before := Now();
      canSchedule := false;
      NewlySame(before, Now(), exec);
      awaited := EvictAll();
    }

    /** `get_process_from_cpu` */
    method GetProcessFromCpu(c: nat) returns (holder: Option<nat>)
      ensures holder == Holder(procs, c)
    {
      var i := 0;
      while i < |procs| && procs[i].cpu != Some(c)
        invariant i <= |procs| && Holder(procs[..i], c).None?
      {
        assert procs[..i + 1][..i] == procs[..i];
        i := i + 1;
      }
      if i < |procs| {
        assert procs[..i + 1][..i] == procs[..i];
        HolderPrefix(procs, i + 1, c);
        return Some(i);
      }
      assert procs[..i] == procs;
      return None;
    }

    method MakeCpuFree(c: nat)
      requires Valid()
      modifies this`cpus
      ensures Valid() && Now() == Settle(old(Now()), c)
    {
      if c < |cpus| {
        cpus := cpus[c := CpuInfo(true, false)];
      }
    }

    /** `wait_confirmation_thread_and_handle_state`, once the confirmation has come. */
    method EvictionConfirmed(c: nat)
      requires Valid()
      modifies this`procs, this`ready, this`exec, this`cpus
      ensures Valid() && Now() == Confirm(rules, old(Now()), c)
    {
      var process := GetProcessFromCpu(c);
      MakeCpuFree(c);
      if process.Some? {
        var p := process.value;
        exec := Without(exec, p);
        procs := procs[p := procs[p].(cpu := None)];
        if !procs[p].pending {
          procs := procs[p := procs[p].(state := Ready)];
          AddToReadyQueue(p);
        }
      }
    }

    /** One confirmation in `evict_all_processes`. */
    method EvictionByAllConfirmed(c: nat)
      requires Valid()
      modifies this`procs, this`ready, this`exec, this`cpus
      ensures Valid() && Now() == ConfirmAll(rules, old(Now()), c)
    {
      var process := GetProcessFromCpu(c);
      if process.Some? {
        var p := process.value;
        exec := Without(exec, p);
        procs := procs[p := procs[p].(cpu := None)];
        if !procs[p].pending {
          procs := procs[p := procs[p].(state := Ready)];
          AddAtStartOfReadyQueue(p);
        }
        MakeCpuFree(c);
      }
    }

    // ---------- memory syscalls ----------

    /** `mem_alloc_syscall_manager`, `mem_free_syscall_manager` */
    method MemorySyscall(p: nat)
      requires Valid() && p < |procs|
      modifies this`procs
      ensures Valid() && Now() == AskMemory(old(Now()), p)
    {
      procs := procs[p := procs[p].(pending := true)];
    }

    /** `handle_segment_result` */
    method HandleSegmentResult(p: nat, ok: bool)
      requires Valid() && p < |procs|
      modifies this`procs, this`ready, this`exec, this`cpus
      ensures Valid() && Now() == SegmentResult(rules, old(Now()), p, ok)
    {
      var cpu := procs[p].cpu;
      procs := procs[p := procs[p].(pending := false)];
      if cpu.None? {
        if ok {
          if procs[p].state == Exec {
            procs := procs[p := procs[p].(state := Ready)];
            AddToReadyQueue(p);
          }
        } else {
          procs := procs[p := procs[p].(state := Exit)];
          exec := Without(exec, p);
        }
      } else if !ok {
        procs := procs[p := procs[p].(state := Exit)];
        procs := procs[p := procs[p].(cpu := None)];
        exec := Without(exec, p);
        RemoveFromReadyQueue(p);
        if cpu.value < |cpus| && !cpus[cpu.value].evicting {
          MarkAvailable(cpu.value);
        }
      }
    }

    method MarkAvailable(c: nat)
      requires Valid()
      modifies this`cpus
      ensures Valid() && Now() == SetAvailable(old(Now()), c, true)
    {
      if c < |cpus| {
        cpus := cpus[c := cpus[c].(available := true)];
      }
    }

    /** PROCESS_END and SEGMENTATION_FAULT */
    method EndProcess(p: nat, c: nat)
      requires Valid() && p < |procs|
      modifies this`procs, this`exec, this`cpus
      ensures Valid() && Now() == End(old(Now()), p, c)
    {
      procs := procs[p := procs[p].(state := Exit)];
      procs := procs[p := procs[p].(cpu := None)];
      exec := Without(exec, p);
      MarkAvailable(c);
    }

    // ---------- IO ----------

    method BlockNow(p: nat)
      requires Valid() && p < |procs|
      modifies this`procs, this`exec, this`block
      ensures Valid() && Now() == BlockProcess(old(Now()), p)
    {
      procs := procs[p := procs[p].(state := Block)];
      procs := procs[p := procs[p].(cpu := None)];
      exec := Without(exec, p);
      procs := procs[p := procs[p].(blockedSince := clock)];
      block := block + [p];
    }

    /** The block transition of `sleep_syscall_manager`, `stdin_syscall_manager` and `stdout_syscall_manager`. */
    method StartIoSyscall(p: nat, c: nat)
      requires Valid() && p < |procs|
      modifies this`procs, this`exec, this`block, this`cpus
      ensures Valid() && Now() == StartIo(old(Now()), p, c)
    {
      BlockNow(p);
      MarkAvailable(c);
    }

    /** `io_finish_process`, `wait_memory_write_confirmation` */
    method IoFinished(p: nat)
      requires Valid() && p < |procs|
      modifies this`procs, this`ready, this`block
      ensures Valid() && Now() == Wake(rules, old(Now()), p)
    {
      if procs[p].state == SuspBlock {
        procs := procs[p := procs[p].(state := SuspReady)];
      } else {
        procs := procs[p := procs[p].(state := Ready)];
      }
      block := Without(block, p);
      if procs[p].state == Ready {
        AddToReadyQueue(p);
      }
    }

    // ---------- mutexes ----------

    /** `mutex_create` */
    method MutexCreate(name: string) returns (m: nat)
      requires Valid()
      modifies this`mutexes
      ensures Valid() && Now() == CreateMutex(old(Now()), name)
      ensures m < |mutexes| && mutexes[m].name == name
    {
      m := 0;
      while m < |mutexes| && mutexes[m].name != name
        invariant m <= |mutexes| && FindMutex(mutexes[..m], name).None?
      {
        assert mutexes[..m + 1][..m] == mutexes[..m];
        m := m + 1;
      }
      assert mutexes[..|mutexes|] == mutexes;
      if m == |mutexes| {
        mutexes := mutexes + [Mutex(name, false, None, [])];
      }
    }

    method SetPriority(p: nat, prio: byte)
      requires Valid() && p < |procs|
      modifies this`procs, this`ready
      ensures Valid() && Now() == Reprioritize(rules, old(Now()), p, prio)
    {
      var isReady := procs[p].state == Ready;
      if isReady {
        RemoveFromReadyQueue(p);
      }
      procs := procs[p := procs[p].(eff := prio)];
      if isReady {
        AddToReadyQueue(p);
      }
    }

    /** `mutex_lock` */
    method MutexLock(m: nat, p: nat)
      requires Valid() && p < |procs| && m < |mutexes|
      requires mutexes[m].locked ==> mutexes[m].owner.Some? && mutexes[m].owner.value < |procs|
      modifies this`procs, this`ready, this`exec, this`block, this`cpus, this`mutexes
      ensures Valid() && Now() == Lock(rules, old(Now()), p, m)
    {
      if !mutexes[m].locked {
        mutexes := mutexes[m := mutexes[m].(locked := true, owner := Some(p))];
        procs := procs[p := procs[p].(owned := procs[p].owned + [m])];
        return;
      }
      if mutexes[m].owner == Some(p) {
        return;
      }
      mutexes := mutexes[m := mutexes[m].(waiting := mutexes[m].waiting + [p])];
      var cpu := procs[p].cpu;
      BlockNow(p);
      var owner := mutexes[m].owner.value;
      if rules.algorithm == CMN && procs[p].eff < procs[owner].eff {
        SetPriority(owner, procs[p].eff);
      }
      if cpu.Some? {
        MarkAvailable(cpu.value);
      }
    }

    /** The nested loops of `mutex_unlock` over the waiters of the mutexes still owned. */
    method RemainingPriority(p: nat) returns (prio: byte)
      requires p < |procs|
      ensures prio == Inherited(Now(), procs[p].owned, procs[p].base)
    {
      prio := procs[p].base;
      var owned := procs[p].owned;
      for i := 0 to |owned|
        invariant prio == Inherited(Now(), owned[..i], procs[p].base)
      {
        assert owned[..i + 1][..i] == owned[..i];
        if owned[i] < |mutexes| {
          prio := MostUrgentWaiter(owned[i], prio);
        }
      }
      assert owned[..|owned|] == owned;
    }

    method MostUrgentWaiter(m: nat, start: byte) returns (prio: byte)
      requires m < |mutexes|
      ensures prio == MostUrgent(procs, mutexes[m].waiting, start)
    {
      prio := start;
      var waiting := mutexes[m].waiting;
      for j := 0 to |waiting|
        invariant prio == MostUrgent(procs, waiting[..j], start)
      {
        assert waiting[..j + 1][..j] == waiting[..j];
        if waiting[j] < |procs| && procs[waiting[j]].eff < prio {
          prio := procs[waiting[j]].eff;
        }
      }
      assert waiting[..|waiting|] == waiting;
    }

    /** `mutex_unlock` */
    method MutexUnlock(m: nat, p: nat)
      requires Valid() && p < |procs| && m < |mutexes|
      requires mutexes[m].waiting != [] ==> mutexes[m].waiting[0] < |procs|
      modifies this`procs, this`ready, this`block, this`mutexes
      ensures Valid() && Now() == Unlock(rules, old(Now()), p, m)
    {
      hide Release, HandOver;
      if mutexes[m].owner != Some(p) {
        return;
      }
      ReleaseMutex(m, p);
      HandOverMutex(m);
    }

    method ReleaseMutex(m: nat, p: nat)
      requires Valid() && p < |procs|
      modifies this`procs, this`ready
      ensures Valid() && Now() == Release(rules, old(Now()), p, m)
      ensures |procs| == |old(procs)|
    {
      procs := procs[p := procs[p].(owned := Without(procs[p].owned, m))];
      if rules.algorithm == CMN {
        var prio := RemainingPriority(p);
        if prio != procs[p].eff {
          SetPriority(p, prio);
        }
      }
    }

    method HandOverMutex(m: nat)
      requires Valid() && m < |mutexes| && (mutexes[m].waiting != [] ==> mutexes[m].waiting[0] < |procs|)
      modifies this`procs, this`ready, this`block, this`mutexes
      ensures Valid() && Now() == HandOver(rules, old(Now()), m)
    {
      if mutexes[m].waiting != [] {
        var next := mutexes[m].waiting[0];
        mutexes := mutexes[m := mutexes[m].(locked := true, owner := Some(next), waiting := mutexes[m].waiting[1..])];
        procs := procs[next := procs[next].(owned := procs[next].owned + [m])];
        IoFinished(next);
      } else {
        mutexes := mutexes[m := mutexes[m].(locked := false, owner := None)];
      }
    }

    // ---------- every message and timer ----------

    /** Whatever happens next, in any order the machine allows, is handled as its step, and the invariant of the
        scheduler is kept. */
    method Handle(ev: Event, ghost h: History)
      requires Valid() && Kept(rules, World(Now(), h)) && Enabled(World(Now(), h), ev)
      modifies this
      ensures Valid() && Kept(rules, Step(rules, World(old(Now()), h), ev))
      ensures Now() == Step(rules, World(old(Now()), h), ev).s
      ensures Means(rules, World(old(Now()), h), ev, World(Now(), Step(rules, World(old(Now()), h), ev).h))
    {
      hide Good, DispatchAll, Preempted, Dispatch, BeginCompaction, OrderEach, Sweep, Wake, Confirm, ConfirmAll;
      hide SegmentResult, Lock, Unlock, SwappedIn, SwappedOut, Create, Created, AskMemory, End, StartIo, Overdue;
      hide CreateMutex, Holder, Newly, FindMutex, Preemptable, Means;
      ghost var w := World(Now(), h);
      StepGood(rules, w, ev);
      StepMeans(rules, w, ev);
      GoodListed(rules, w);
      match ev
      case NewProcess(base) => var _ := CreateProcess(base);
      case ProcessCreated(p) => ProcessCreateConfirmed(p);
      case NewCpu => cpus := cpus + [CpuInfo(true, false)];
      case DispatchPass => var _ := DispatchPass(); PassState(rules, w);
      case QuantumExpired(c) => var _ := SendProcessEvict(c); OrderSentState(w, c, None);
      case CompactionBegin => ExecPreemptable(rules, w.s); var _ := BeginCompacting();
      case CompactionEnd(_) => canSchedule := true;
      case Evicted(c) => EvictionConfirmed(c);
      case EvictedByAll(c) => EvictionByAllConfirmed(c);
      case MemorySyscall(p) => MemorySyscall(p);
      case SegmentDone(p, ok) => HandleSegmentResult(p, ok);
      case ProcessEnd(p) => EndProcess(p, procs[p].cpu.value);
      case MutexCreate(name) => var _ := MutexCreate(name); CreateMutexState(w, name);
      case MutexLock(p, m) => MutexFacts(rules, w, m); MutexLock(m, p);
      case MutexUnlock(p, m) => MutexFacts(rules, w, m); MutexUnlock(m, p);
      case IoStart(p) => StartIoSyscall(p, procs[p].cpu.value);
      case IoDone(p) => IoStates(rules, w, p); IoFinished(p);
      case SuspensionSweep => BlockDistinct(rules, w.s); var _ := SuspensionSweep();
      case SwapOutDone(p, ok) => AsleepStates(rules, w, p); SwapOutConfirmed(p, ok);
      case SwapInDone(p) => AsleepStates(rules, w, p); SwapInConfirmed(p);
      case Tick(time) => clock := clock + time;
    }

    // ---------- suspension ----------

    /** The suspension sweep: it removes from the list it walks, and steps its index back each time. */
    method SuspensionSweep() returns (suspended: seq<nat>)
      requires Valid() && NoDuplicates(block)
      modifies this`procs, this`block
      ensures Valid() && Now() == Sweep(rules, old(Now()))
      ensures suspended == Overdue(rules, old(Now()), old(block), true)
    {
      hide Overdue, Mark, SweptTo;
      ghost var before, all := Now(), block;
      suspended := [];
      var i := 0;
      ghost var seen := 0;
      SweepBegins(rules, before, all);
      while i < |block|
        invariant Valid() && SweptTo(rules, before, all, seen, block, i, procs, suspended)
        invariant Now() == before.(procs := procs, lists := before.lists.(block := block))
        decreases |all| - seen
      {
        var p := block[i];
        SweepStep(rules, before, all, seen, block, i, procs, suspended);
        if p < |procs| && procs[p].state == Block && clock >= procs[p].blockedSince + rules.suspensionTimeout {
          block := Without<nat>(block, p);
          i := i - 1;
          procs := procs[p := procs[p].(state := SuspBlock)];
          suspended := suspended + [p];
        }
        i := i + 1;
        seen := seen + 1;
      }
      SweepEnds(rules, before, all, seen, block, i, procs, suspended);
    }

    /** `wait_confirmation_swap_out` */
    method SwapOutConfirmed(p: nat, ok: bool)
      requires Valid() && p < |procs|
      modifies this`procs, this`ready, this`block, this`susp
      ensures Valid() && Now() == SwappedOut(rules, old(Now()), p, ok)
    {
      var current := procs[p].state;
      if current != SuspBlock && current != SuspReady {
        return;
      }
      if !ok && current == SuspReady {
        procs := procs[p := procs[p].(state := Ready)];
        AddToReadyQueue(p);
      } else if !ok {
        procs := procs[p := procs[p].(state := Block)];
        procs := procs[p := procs[p].(blockedSince := clock)];
        block := block + [p];
      } else {
        susp := susp + [p];
      }
    }

    /** `request_swap_in`: those ready to be resumed, most urgent first. */
    method RequestSwapIn() returns (pids: seq<nat>)
      requires forall i | 0 <= i < |susp| :: susp[i] < |procs|
      ensures multiset(pids) == multiset(Resumable(procs, susp))
      ensures forall p :: p in pids <==> p in susp && procs[p].state == SuspReady
      ensures forall i, j | 0 <= i < j < |pids| ::
        pids[i] < |procs| && pids[j] < |procs| && procs[pids[i]].eff <= procs[pids[j]].eff
    {
      var chosen := [];
      for i := 0 to |susp|
        invariant chosen == Resumable(procs, susp[..i])
      {
        assert susp[..i + 1][..i] == susp[..i];
        if procs[susp[i]].state == SuspReady {
          chosen := chosen + [susp[i]];
        }
      }
      assert susp[..|susp|] == susp;
      ResumableKnown(procs, susp);
      SortExact(procs, chosen);
      pids := SortByUrgency(procs, chosen);
      assert forall p :: p in pids <==> p in multiset(pids);
      assert forall p :: p in chosen <==> p in multiset(chosen);
    }

    method SwapInConfirmed(p: nat)
      requires Valid() && p < |procs|
      modifies this`procs, this`ready, this`block, this`susp
      ensures Valid() && Now() == SwappedIn(rules, old(Now()), p)
    {
      susp := Without(susp, p);
      if procs[p].state == SuspReady {
        procs := procs[p := procs[p].(state := Ready)];
        AddToReadyQueue(p);
      } else if procs[p].state == SuspBlock {
        procs := procs[p := procs[p].(state := Block)];
        procs := procs[p := procs[p].(blockedSince := clock)];
        block := block + [p];
      }
    }

    /** `wait_confirmation_swap_in`: unknown pids are skipped. */
    method SwapInsConfirmed(pids: seq<nat>)
      requires Valid()
      modifies this`procs, this`ready, this`block, this`susp
      ensures Valid() && Now() == AllSwappedIn(rules, old(Now()), pids)
    {
      ghost var before := Now();
      for i := 0 to |pids|
        invariant Valid() && Now() == AllSwappedIn(rules, before, pids[..i])
      {
        assert pids[..i + 1][..i] == pids[..i];
        if pids[i] < |procs| {
          SwapInConfirmed(pids[i]);
        }
      }
      assert pids[..|pids|] == pids;
    }
  }

  // ---------- what the steps are ----------

  lemma ExecPreemptable(rules: Rules, s: Sched)
    requires Listed(rules, s)
    ensures Preemptable(s) && forall i | 0 <= i < |s.lists.exec| :: s.lists.exec[i] < |s.procs|
  {
    ExecKnown(rules, s);
  }

  lemma OrderSentState(w: World, c: nat, caller: Option<nat>)
    ensures OrderSent(w, c, caller).s == Order(w.s, c)
  {
    hide Holder;
  }

  lemma PassState(rules: Rules, w: World)
    requires Kept(rules, w)
    ensures var s' := DispatchAll(rules, w.s);
      && Preemptable(s')
      && Pass(rules, w).s == if Preempted(rules, s').None? then s' else Order(s', Preempted(rules, s').value)
  {
    hide Agree, DispatchAll, Preempted, OrderSent, Order;
    PassExact(rules, w.s);
    var s' := DispatchAll(rules, w.s);
    ExecKnown(rules, s');
    if Preempted(rules, s').Some? {
      OrderSentState(World(s', w.h), Preempted(rules, s').value, None);
    }
  }

  lemma CreateMutexState(w: World, name: string)
    ensures CreateMutexStep(w, name).s == CreateMutex(w.s, name)
  {
    hide FindMutex;
  }

  lemma BlockDistinct(rules: Rules, s: Sched)
    requires Listed(rules, s)
    ensures NoDuplicates(s.lists.block)
  {
    assert Real(s.lists, InBlock) && HoldsExactly(rules, s.procs, s.lists, InBlock, None);
  }

  lemma IoStates(rules: Rules, w: World, p: nat)
    requires Kept(rules, w) && p in w.h.io
    ensures p < |w.s.procs|
  {
  }

  lemma AsleepStates(rules: Rules, w: World, p: nat)
    requires Kept(rules, w) && (p in w.h.swapping || p in w.s.susp)
    ensures p < |w.s.procs|
  {
  }

  lemma {:induction false} NewlySame(s: Sched, s': Sched, list: seq<nat>)
    requires s' == s.(canSchedule := s'.canSchedule)
    ensures Newly(s', list) == Newly(s, list)
  {
    if list != [] {
      NewlySame(s, s', list[..|list| - 1]);
    }
  }

  // ---------- what the loops compute ----------

  ghost predicate Preemptable(s: Sched) {
    forall i | 0 <= i < |s.lists.exec| :: s.lists.exec[i] < |s.procs|
  }

  /** The dispatch loop does what a pass does, one process at a time. */
  lemma PassStep(rules: Rules, s: Sched)
    requires WellFormed(rules) && Listed(rules, s)
    ensures NextToRun(rules, s).Some? && FreeCpu(s.cpus).Some? <==> CanDispatch(s)
    ensures CanDispatch(s) ==>
      var (p, c) := (NextToRun(rules, s).value, FreeCpu(s.cpus).value);
      && p < |s.procs| && c < |s.cpus| && Listed(rules, Dispatch(rules, s, p, c))
      && |Flat(Dispatch(rules, s, p, c).lists.ready)| < |Flat(s.lists.ready)|
      && DispatchAll(rules, s) == DispatchAll(rules, Dispatch(rules, s, p, c))
  {
    hide Agree, Flat, FreeList, NextToRun, FreeCpu, Dispatch;
    NextExact(rules, s);
    FreeCpuFirst(s.cpus);
    if CanDispatch(s) {
      DispatchStep(rules, s);
    }
  }

  lemma PassStop(rules: Rules, s: Sched)
    requires WellFormed(rules) && Listed(rules, s) && !CanDispatch(s)
    ensures DispatchAll(rules, s) == s
  {
  }

  /** `OrderEach` without its history. */
  ghost function OrderAll(s: Sched, list: seq<nat>): Sched
    requires forall i | 0 <= i < |list| :: list[i] < |s.procs|
  {
    if list == [] then s
    else
      var before := OrderAll(s, list[..|list| - 1]);
      var cpu := s.procs[list[|list| - 1]].cpu;
      if cpu.None? then before else Order(before, cpu.value)
  }

  lemma {:induction false} OrderEachAll(w: World, list: seq<nat>, call: nat)
    requires forall i | 0 <= i < |list| :: list[i] < |w.s.procs|
    ensures OrderEach(w, list, call).s == OrderAll(w.s, list)
  {
    if list != [] {
      OrderEachAll(w, list[..|list| - 1], call);
    }
  }

  lemma {:induction false} HolderPrefix(procs: seq<Process>, n: nat, c: nat)
    requires n <= |procs| && Holder(procs[..n], c).Some?
    ensures Holder(procs, c) == Holder(procs[..n], c)
  {
    if n < |procs| {
      HolderPrefix(procs[..|procs| - 1], n, c);
      assert procs[..|procs| - 1][..n] == procs[..n];
    } else {
      assert procs[..n] == procs;
    }
  }

  function AllSwappedIn(rules: Rules, s: Sched, pids: seq<nat>): Sched {
    if pids == [] then s
    else
      var before := AllSwappedIn(rules, s, pids[..|pids| - 1]);
      var p := pids[|pids| - 1];
      if p < |before.procs| then SwappedIn(rules, before, p) else before
  }

  /** Where a sweep stands after `seen` of the original entries: the first `i` of the list are those kept. */
  ghost predicate SweptTo(
    rules: Rules, s: Sched, all: seq<nat>, seen: nat, block: seq<nat>, i: nat, procs: seq<Process>, suspended: seq<nat>)
  {
    && NoDuplicates(all) && seen <= |all|
    && block == Overdue(rules, s, all[..seen], false) + all[seen..]
    && i == |Overdue(rules, s, all[..seen], false)|
    && suspended == Overdue(rules, s, all[..seen], true)
    && procs == Mark(s.procs, suspended)
  }

  lemma SweepBegins(rules: Rules, s: Sched, all: seq<nat>)
    requires NoDuplicates(all)
    ensures SweptTo(rules, s, all, 0, all, 0, s.procs, [])
  {
  }

  lemma SweepEnds(
    rules: Rules, s: Sched, all: seq<nat>, seen: nat, block: seq<nat>, i: nat, procs: seq<Process>, suspended: seq<nat>)
    requires SweptTo(rules, s, all, seen, block, i, procs, suspended) && i >= |block|
    ensures block == Overdue(rules, s, all, false) && suspended == Overdue(rules, s, all, true)
    ensures procs == Mark(s.procs, suspended)
  {
    assert all[seen..] == [];
    assert all[..seen] == all;
  }

  /** The next entry of the sweep. */
  lemma SweepNext(
    rules: Rules, s: Sched, all: seq<nat>, seen: nat, block: seq<nat>, i: nat, procs: seq<Process>, suspended: seq<nat>)
    requires SweptTo(rules, s, all, seen, block, i, procs, suspended) && i < |block|
    ensures seen < |all| && block[i] == all[seen] && |procs| == |s.procs| && block[i] !in suspended
    ensures block[i] < |procs| ==> procs[block[i]] == s.procs[block[i]]
  {
    hide Overdue, Mark, Expired;
    assert all[seen] !in all[..seen];
  }

  /** Both ways it can go: removed, with the index stepped back, or kept. */
  lemma SweepStep(
    rules: Rules, s: Sched, all: seq<nat>, seen: nat, block: seq<nat>, i: nat, procs: seq<Process>, suspended: seq<nat>)
    requires SweptTo(rules, s, all, seen, block, i, procs, suspended) && i < |block|
    ensures seen < |all| && |procs| == |s.procs|
    ensures block[i] < |procs| ==> procs[block[i]] == s.procs[block[i]]
    ensures var p: nat := block[i];
      if Expired(rules, s, p)
      then p < |procs|
           && SweptTo(rules, s, all, seen + 1, Without<nat>(block, p), i,
               procs[p := procs[p].(state := SuspBlock)], suspended + [p])
      else SweptTo(rules, s, all, seen + 1, block, i + 1, procs, suspended)
  {
    hide *;
    SweepNext(rules, s, all, seen, block, i, procs, suspended);
    if Expired(rules, s, block[i]) {
      SweepRemoves(rules, s, all, seen, block, i, procs, suspended);
    } else {
      SweepKeeps(rules, s, all, seen, block, i, procs, suspended);
    }
  }

  lemma SweepRemoves(
    rules: Rules, s: Sched, all: seq<nat>, seen: nat, block: seq<nat>, i: nat, procs: seq<Process>, suspended: seq<nat>)
    requires SweptTo(rules, s, all, seen, block, i, procs, suspended) && i < |block| && Expired(rules, s, block[i])
    ensures block[i] < |procs| == |s.procs| && seen < |all|
    ensures SweptTo(rules, s, all, seen + 1, Without<nat>(block, block[i]), i,
              procs[block[i] := procs[block[i]].(state := SuspBlock)], suspended + [block[i]])
  {
    hide Overdue, Mark, Expired;
    var kept, p := Overdue(rules, s, all[..seen], false), block[i];
    SweepNext(rules, s, all, seen, block, i, procs, suspended);
    ExpiredKnown(rules, s, p);
    OverdueNext(rules, s, all, seen, false);
    OverdueNext(rules, s, all, seen, true);
    MarkNext(s.procs, suspended, p);
    WithoutMiddle(kept, all[seen..]);
    assert all[seen..][1..] == all[seen + 1..];
    assert kept + [] == kept;
  }

  lemma SweepKeeps(
    rules: Rules, s: Sched, all: seq<nat>, seen: nat, block: seq<nat>, i: nat, procs: seq<Process>, suspended: seq<nat>)
    requires SweptTo(rules, s, all, seen, block, i, procs, suspended) && i < |block| && !Expired(rules, s, block[i])
    ensures seen < |all| && SweptTo(rules, s, all, seen + 1, block, i + 1, procs, suspended)
  {
    hide Overdue, Mark, Expired;
    var kept := Overdue(rules, s, all[..seen], false);
    SweepNext(rules, s, all, seen, block, i, procs, suspended);
    OverdueNext(rules, s, all, seen, false);
    OverdueNext(rules, s, all, seen, true);
    assert all[seen..] == [all[seen]] + all[seen + 1..];
    assert (kept + [all[seen]]) + all[seen + 1..] == kept + all[seen..];
    assert suspended + [] == suspended;
  }

  lemma WithoutMiddle(front: seq<nat>, rest: seq<nat>)
    requires rest != [] && rest[0] !in front
    ensures Without<nat>(front + rest, rest[0]) == front + rest[1..]
  {
    WithoutAppend(front, rest, rest[0]);
  }

  lemma ExpiredKnown(rules: Rules, s: Sched, p: nat)
    requires Expired(rules, s, p)
    ensures p < |s.procs|
  {
  }

  lemma OverdueNext(rules: Rules, s: Sched, all: seq<nat>, seen: nat, overdue: bool)
    requires seen < |all|
    ensures Overdue(rules, s, all[..seen + 1], overdue)
         == Overdue(rules, s, all[..seen], overdue)
          + if Expired(rules, s, all[seen]) == overdue then [all[seen]] else []
  {
    assert all[..seen + 1][..seen] == all[..seen];
  }

  lemma MarkNext(procs: seq<Process>, list: seq<nat>, p: nat)
    requires p < |procs| && p !in list
    ensures Mark(procs, list + [p]) == Mark(procs, list)[p := Mark(procs, list)[p].(state := SuspBlock)]
  {
    assert (list + [p])[..|list|] == list;
  }

  // ---------- who is resumed first ----------

  /** The processes of the list that are suspended and ready, in order. */
  function Resumable(procs: seq<Process>, list: seq<nat>): (r: seq<nat>)
    ensures forall p :: p in r <==> p in list && p < |procs| && procs[p].state == SuspReady
  {
    if list == [] then []
    else
      var front := Resumable(procs, list[..|list| - 1]);
      var last := list[|list| - 1];
      if last < |procs| && procs[last].state == SuspReady then front + [last] else front
  }

  lemma ResumableKnown(procs: seq<Process>, list: seq<nat>)
    ensures forall i | 0 <= i < |Resumable(procs, list)| :: Resumable(procs, list)[i] < |procs|
  {
    assert forall i | 0 <= i < |Resumable(procs, list)| :: Resumable(procs, list)[i] in Resumable(procs, list);
  }

  ghost predicate ByUrgency(procs: seq<Process>, list: seq<nat>) {
    && (forall i | 0 <= i < |list| :: list[i] < |procs|)
    && (forall i, j | 0 <= i < j < |list| :: procs[list[i]].eff <= procs[list[j]].eff)
  }

  function InsertByUrgency(procs: seq<Process>, p: nat, list: seq<nat>): seq<nat>
    requires p < |procs| && forall i | 0 <= i < |list| :: list[i] < |procs|
  {
    if list == [] || procs[p].eff < procs[list[0]].eff then [p] + list
    else [list[0]] + InsertByUrgency(procs, p, list[1..])
  }

  /** `list_sort` by effective priority. */
  function SortByUrgency(procs: seq<Process>, list: seq<nat>): (r: seq<nat>)
    requires forall i | 0 <= i < |list| :: list[i] < |procs|
    ensures multiset(r) == multiset(list)
    ensures forall i | 0 <= i < |r| :: r[i] < |procs|
  {
    if list == [] then []
    else
      var front := SortByUrgency(procs, list[..|list| - 1]);
      InsertSame(procs, list[|list| - 1], front);
      assert list == list[..|list| - 1] + [list[|list| - 1]];
      InsertByUrgency(procs, list[|list| - 1], front)
  }

  lemma {:induction false} InsertSame(procs: seq<Process>, p: nat, list: seq<nat>)
    requires p < |procs| && forall i | 0 <= i < |list| :: list[i] < |procs|
    ensures var r := InsertByUrgency(procs, p, list);
      multiset(r) == multiset(list + [p]) && forall i | 0 <= i < |r| :: r[i] < |procs|
  {
    if list != [] && procs[p].eff >= procs[list[0]].eff {
      InsertSame(procs, p, list[1..]);
      assert list + [p] == [list[0]] + (list[1..] + [p]);
    } else {
      assert multiset([p] + list) == multiset(list + [p]);
    }
  }

  lemma {:induction false} InsertKeepsUrgency(procs: seq<Process>, p: nat, list: seq<nat>)
    requires p < |procs| && ByUrgency(procs, list)
    ensures ByUrgency(procs, InsertByUrgency(procs, p, list))
  {
    if list != [] && procs[p].eff >= procs[list[0]].eff {
      InsertKeepsUrgency(procs, p, list[1..]);
      InsertSame(procs, p, list[1..]);
      var rest := InsertByUrgency(procs, p, list[1..]);
      if rest != [] {
        assert rest[0] in multiset(rest);
        assert rest[0] in list[1..] + [p];
      }
      ConsUrgency(procs, list[0], rest);
    } else {
      ConsUrgency(procs, p, list);
    }
  }

  lemma ConsUrgency(procs: seq<Process>, p: nat, list: seq<nat>)
    requires p < |procs| && ByUrgency(procs, list)
    requires list != [] ==> procs[p].eff <= procs[list[0]].eff
    ensures ByUrgency(procs, [p] + list)
  {
    var all := [p] + list;
    forall i, j | 0 <= i < j < |all| ensures procs[all[i]].eff <= procs[all[j]].eff {
      assert all[j] == list[j - 1];
      assert procs[list[0]].eff <= procs[list[j - 1]].eff;
    }
  }

  lemma {:induction false} SortExact(procs: seq<Process>, list: seq<nat>)
    requires forall i | 0 <= i < |list| :: list[i] < |procs|
    ensures ByUrgency(procs, SortByUrgency(procs, list))
  {
    if list != [] {
      SortExact(procs, list[..|list| - 1]);
      InsertKeepsUrgency(procs, list[|list| - 1], SortByUrgency(procs, list[..|list| - 1]));
    }
  }
}
