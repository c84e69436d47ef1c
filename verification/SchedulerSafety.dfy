/**
 Every run of the Kernel Scheduler keeps its invariant.
*/
module SchedulerSafety {
  import opened Base
  import opened SchedulerState
  import opened SchedulerSteps
  import opened SchedulerLists
  import opened SchedulerRuns
  import opened SchedulerCpus
  import opened SchedulerMutexes
  import opened SchedulerDispatch

  ghost predicate Kept(rules: Rules, w: World) {
    WellFormed(rules) && Good(rules, w)
  }

  lemma ExecKnown(rules: Rules, s: Sched)
    requires Listed(rules, s)
    ensures forall i | 0 <= i < |s.lists.exec| :: s.lists.exec[i] < |s.procs|
    ensures forall p | p in s.lists.exec :: p < |s.procs| && s.procs[p].state == Exec && s.procs[p].cpu.Some?
    ensures forall p: nat | p < |s.procs| && s.procs[p].state == Exec && s.procs[p].cpu.Some? :: p in s.lists.exec
    ensures NoDuplicates(s.lists.exec)
  {
    assert Real(s.lists, InExec) && HoldsExactly(rules, s.procs, s.lists, InExec, None);
    forall p: nat ensures p in s.lists.exec <==> p < |s.procs| && s.procs[p].state == Exec && s.procs[p].cpu.Some? {
      assert p in ListAt(s.lists, InExec) <==> Belongs(rules, s.procs, InExec, p);
    }
    forall i | 0 <= i < |s.lists.exec| ensures s.lists.exec[i] < |s.procs| {
      assert s.lists.exec[i] in s.lists.exec;
    }
  }

  /** The owner of a mutex and who waits for it. */
  lemma MutexFacts(rules: Rules, w: World, m: nat)
    requires Good(rules, w) && m < |w.s.mutexes|
    ensures |w.h.arrivals| == |w.h.arrived| == |w.h.granted| == |w.s.mutexes|
    ensures |w.h.arrivals[m]| == |w.s.mutexes[m].waiting|
    ensures NoDuplicates(w.s.mutexes[m].waiting)
    ensures w.s.mutexes[m].locked <==> w.s.mutexes[m].owner.Some?
    ensures w.s.mutexes[m].owner.Some? ==> w.s.mutexes[m].owner.value < |w.s.procs|
    ensures forall p | p in w.s.mutexes[m].waiting ::
      p < |w.s.procs| && Blocked(w.s.procs[p]) && w.s.mutexes[m].owner != Some(p)
    ensures w.s.mutexes[m].waiting != [] ==>
      w.s.mutexes[m].waiting[0] in w.s.mutexes[m].waiting && w.s.mutexes[m].locked && w.h.arrivals[m] != []
  {
    hide Agree, CpusKept, SuspKept, Blocked;
    assert MutexKept(w.s, m) && WaitersKept(w, m) && CeilingKept(rules, w, m);
  }

  ghost function Pass(rules: Rules, w: World): World
    requires Kept(rules, w)
  {
    PassExact(rules, w.s);
    var s' := DispatchAll(rules, w.s);
    ExecKnown(rules, s');
    var preempted := Preempted(rules, s');
    if preempted.None? then World(s', w.h) else OrderSent(World(s', w.h), preempted.value, None)
  }

  ghost function Step(rules: Rules, w: World, ev: Event): World
    requires Kept(rules, w) && Enabled(w, ev)
  {
    var (s, h) := (w.s, w.h);
    match ev
    case NewProcess(base) => World(Create(s, base), h)
    case ProcessCreated(p) => World(Created(rules, s, p), h)
    case NewCpu => World(ConnectCpu(s), h)
    case DispatchPass => Pass(rules, w)
    case QuantumExpired(c) => OrderSent(w, c, None)
    case CompactionBegin => ExecKnown(rules, s); BeginCompaction(w)
    case Evicted(c) => World(Confirm(rules, s, c), h.(orders := h.orders - {c}))
    case EvictedByAll(c) => World(ConfirmAll(rules, s, c), h.(orders := h.orders - {c}))
    case MemorySyscall(p) => World(AskMemory(s, p), h)
    case SegmentDone(p, ok) => World(SegmentResult(rules, s, p, ok), h)
    case ProcessEnd(p) => World(End(s, p, s.procs[p].cpu.value), h)
    case MutexCreate(name) => CreateMutexStep(w, name)
    case MutexLock(p, m) => MutexFacts(rules, w, m); LockStep(rules, w, p, m)
    case MutexUnlock(p, m) => MutexFacts(rules, w, m); UnlockStep(rules, w, p, m)
    case IoStart(p) => World(StartIo(s, p, s.procs[p].cpu.value), h.(io := h.io + {p}))
    case IoDone(p) => World(Wake(rules, s, p), h.(io := h.io - {p}))
    case SuspensionSweep =>
      World(Sweep(rules, s), h.(swapping := h.swapping + ToSet(Overdue(rules, s, s.lists.block, true))))
    case SwapOutDone(p, ok) => World(SwappedOut(rules, s, p, ok), h.(swapping := h.swapping - {p}))
    case SwapInDone(p) => World(SwappedIn(rules, s, p), h)
    case CompactionEnd(call) => EndCompaction(w, call)
    case Tick(time) => World(s.(clock := s.clock + time), h)
  }

  // ---------- steps that change one process ----------

  /** The parts of the invariant that a step on one process leaves to be shown. */
  lemma OneProcess(rules: Rules, w: World, w': World, p: nat)
    requires Good(rules, w) && p < |w.s.procs|
    requires |w'.s.procs| == |w.s.procs| && w'.s.procs == w.s.procs[p := w'.s.procs[p]]
    requires w'.s.procs[p].owned == w.s.procs[p].owned
    requires w'.s.procs[p].eff == w.s.procs[p].eff && w'.s.procs[p].base == w.s.procs[p].base
    requires w'.s.mutexes == w.s.mutexes && w'.h.arrivals == w.h.arrivals
    requires w'.h.arrived == w.h.arrived && w'.h.granted == w.h.granted
    requires Listed(rules, w'.s) && CpusKept(w') && SuspKept(w') && WaitsKept(w')
    ensures Good(rules, w')
  {
    hide Agree, CpusKept, SuspKept, WaitsKept, OwnersKept, UrgencyKept, GrantsKept;
    MutexesFrame(rules, w, w', p);
  }

  lemma CreatedGood(rules: Rules, w: World, p: nat)
    requires Good(rules, w) && p < |w.s.procs| && w.s.procs[p].state == New
    ensures Good(rules, World(Created(rules, w.s, p), w.h))
  {
    hide Agree, Put, OwnersKept, UrgencyKept, GrantsKept;
    var w' := World(Created(rules, w.s, p), w.h);
    AddReadyListed(rules, w.s, p);
    assert CpuKept(w.s, p);
    CpusFrame(w, w');
    SuspFrame(w, w');
    WaitsFrame(w, w');
    OneProcess(rules, w, w', p);
  }

  lemma DispatchGood(rules: Rules, w: World)
    requires Kept(rules, w) && CanDispatch(w.s)
    ensures Flat(w.s.lists.ready)[0] < |w.s.procs|
    ensures Good(rules, World(DispatchNext(rules, w.s), w.h))
  {
    hide Agree, Flat, FreeList, Put, Take, OwnersKept, UrgencyKept, GrantsKept, NextToRun, FreeCpu, Dispatch;
    DispatchStep(rules, w.s);
    var p, c := Flat(w.s.lists.ready)[0], FreeList(w.s.cpus)[0];
    var w' := World(DispatchNext(rules, w.s), w.h);
    DispatchCpus(rules, w, p, c);
    SuspFrame(w, w');
    WaitsFrame(w, w');
    OneProcess(rules, w, w', p);
  }

  lemma {:induction false} PassGood(rules: Rules, w: World)
    requires Kept(rules, w)
    ensures Good(rules, World(DispatchAll(rules, w.s), w.h))
    decreases |Flat(w.s.lists.ready)|
  {
    hide Agree, Flat, FreeList, CpusKept, SuspKept, WaitsKept, OwnersKept, UrgencyKept, GrantsKept, NextToRun;
    hide FreeCpu, DispatchNext;
    if CanDispatch(w.s) {
      DispatchStep(rules, w.s);
      DispatchGood(rules, w);
      PassGood(rules, World(DispatchNext(rules, w.s), w.h));
    }
  }

  lemma OrderGood(rules: Rules, w: World, c: nat, caller: Option<nat>)
    requires Good(rules, w) && (caller.Some? ==> caller.value < w.h.calls)
    ensures Good(rules, OrderSent(w, c, caller))
    ensures OrderSent(w, c, caller).s.procs == w.s.procs && OrderSent(w, c, caller).s.lists == w.s.lists
    ensures OrderSent(w, c, caller).h.calls == w.h.calls
  {
    hide Agree, CpusKept, OwnersKept, Holder;
    var w' := OrderSent(w, c, caller);
    OrderCpus(w, c, caller);
    SuspFrame(w, w');
    WaitsFrame(w, w');
    OwnersFrame(w.s, w'.s);
    SameUrgency(rules, w, w');
  }

  lemma SameUrgency(rules: Rules, w: World, w': World)
    requires UrgencyKept(rules, w) && OwnersKept(w.s) && GrantsKept(w)
    requires w'.s.procs == w.s.procs && w'.s.mutexes == w.s.mutexes
    requires w'.h.arrivals == w.h.arrivals && w'.h.arrived == w.h.arrived && w'.h.granted == w.h.granted
    ensures UrgencyKept(rules, w') && GrantsKept(w')
  {
    hide FloorKept, CeilingKept;
    forall m | 0 <= m < |w.s.mutexes| ensures w.s.mutexes[m].owner.Some? ==> w.s.mutexes[m].owner.value < |w.s.procs| {
      assert MutexKept(w.s, m);
    }
    UrgencyFrame(rules, w, w');
  }

  lemma {:induction false} OrderEachGood(rules: Rules, w: World, list: seq<nat>, call: nat)
    requires Good(rules, w) && (forall i | 0 <= i < |list| :: list[i] < |w.s.procs|) && call < w.h.calls
    ensures Good(rules, OrderEach(w, list, call))
    ensures OrderEach(w, list, call).s.procs == w.s.procs && OrderEach(w, list, call).s.lists == w.s.lists
    ensures OrderEach(w, list, call).h.calls == w.h.calls
  {
    hide Good, OrderSent;
    if list != [] {
      OrderEachGood(rules, w, list[..|list| - 1], call);
      var cpu := w.s.procs[list[|list| - 1]].cpu;
      if cpu.Some? {
        OrderGood(rules, OrderEach(w, list[..|list| - 1], call), cpu.value, Some(call));
      }
    }
  }

  lemma BeginGood(rules: Rules, w: World)
    requires Good(rules, w) && forall i | 0 <= i < |w.s.lists.exec| :: w.s.lists.exec[i] < |w.s.procs|
    ensures Good(rules, BeginCompaction(w))
    ensures BeginCompaction(w).s.procs == w.s.procs && BeginCompaction(w).s.lists == w.s.lists
  {
    hide Agree, OwnersKept, UrgencyKept, GrantsKept, OrderEach;
    var call := w.h.calls;
    var off := World(w.s.(canSchedule := false),
                     w.h.(calls := call + 1, compactions := w.h.compactions + {call}));
    forall p | 0 <= p < |w.s.procs| ensures CpuKept(off.s, p) {
      assert CpuKept(w.s, p);
    }
    forall d | 0 <= d < |w.s.cpus| ensures IdleKept(off.s, d) {
      assert IdleKept(w.s, d);
    }
    forall c | c in off.h.orders ensures OrderKept(off, c) {
      assert OrderKept(w, c);
    }
    SuspFrame(w, off);
    WaitsFrame(w, off);
    SameMutexes(rules, w, off);
    OrderEachGood(rules, off, w.s.lists.exec, call);
  }

  lemma EvictedGood(rules: Rules, w: World, c: nat, all: bool)
    requires Good(rules, w) && c in w.h.orders
    ensures var s' := if all then ConfirmAll(rules, w.s, c) else Confirm(rules, w.s, c);
      Good(rules, World(s', w.h.(orders := w.h.orders - {c})))
  {
    hide Agree, Confirm, ConfirmAll, Holder, OwnersKept, UrgencyKept, GrantsKept;
    var s' := if all then ConfirmAll(rules, w.s, c) else Confirm(rules, w.s, c);
    var w' := World(s', w.h.(orders := w.h.orders - {c}));
    ConfirmEffect(rules, w.s, c, all);
    EvictedCpus(rules, w, c, all);
    EvictedListed(rules, w, c, all);
    if Holder(w.s.procs, c).Some? {
      var p := Holder(w.s.procs, c).value;
      assert CpuKept(w.s, p);
      SuspFrame(w, w');
      WaitsFrame(w, w');
      OneProcess(rules, w, w', p);
    } else {
      SuspFrame(w, w');
      WaitsFrame(w, w');
      OwnersFrame(w.s, w'.s);
      SameUrgency(rules, w, w');
    }
  }

  lemma EvictedListed(rules: Rules, w: World, c: nat, all: bool)
    requires Listed(rules, w.s) && CpusKept(w)
    ensures Listed(rules, if all then ConfirmAll(rules, w.s, c) else Confirm(rules, w.s, c))
  {
    hide Agree, Demote;
    if Holder(w.s.procs, c).Some? {
      var p := Holder(w.s.procs, c).value;
      assert CpuKept(w.s, p);
      DemoteListed(rules, if all then w.s else Settle(w.s, c), p, all);
    }
  }

  lemma AskGood(rules: Rules, w: World, p: nat)
    requires Good(rules, w) && Runs(w.s, p)
    ensures Good(rules, World(AskMemory(w.s, p), w.h))
  {
    hide Agree, OwnersKept, UrgencyKept, GrantsKept;
    var w' := World(AskMemory(w.s, p), w.h);
    Stay(rules, w.s, w'.s.procs);
    forall q | 0 <= q < |w'.s.procs| ensures CpuKept(w'.s, q) {
      assert CpuKept(w.s, q);
    }
    forall c | c in w'.h.orders ensures OrderKept(w', c) {
      assert OrderKept(w, c);
    }
    forall d | 0 <= d < |w'.s.cpus| ensures IdleKept(w'.s, d) {
      assert d < |w.s.cpus| ==> IdleKept(w.s, d);
    }
    SuspFrame(w, w');
    WaitsFrame(w, w');
    OneProcess(rules, w, w', p);
  }

  /** What an answer to a memory request does to the process and to CPUs. */
  lemma SegmentResultEffect(rules: Rules, s: Sched, p: nat, ok: bool)
    requires p < |s.procs| && s.procs[p].state == Exec
    ensures var (s', pr) := (SegmentResult(rules, s, p, ok), s.procs[p]);
      && s'.procs == s.procs[p := pr.(pending := false,
            state := if !ok then Exit else if pr.cpu.None? then Ready else Exec, cpu := if ok then pr.cpu else None)]
      && s'.susp == s.susp && s'.mutexes == s.mutexes
      && s'.cpus == (if ok || pr.cpu.None? || pr.cpu.value >= |s.cpus| || s.cpus[pr.cpu.value].evicting then s.cpus
                     else s.cpus[pr.cpu.value := s.cpus[pr.cpu.value].(available := true)])
  {
    hide Take, Put;
  }

  lemma SegmentGood(rules: Rules, w: World, p: nat, ok: bool)
    requires Good(rules, w) && p < |w.s.procs| && w.s.procs[p].pending
    ensures Good(rules, World(SegmentResult(rules, w.s, p, ok), w.h))
  {
    hide Agree, SegmentResult, OwnersKept, UrgencyKept, GrantsKept;
    var w' := World(SegmentResult(rules, w.s, p, ok), w.h);
    assert CpuKept(w.s, p);
    SegmentResultEffect(rules, w.s, p, ok);
    SegmentResultListed(rules, w.s, p, ok);
    if ok && w.s.procs[p].cpu.Some? {
      forall q | 0 <= q < |w'.s.procs| ensures CpuKept(w'.s, q) {
        assert CpuKept(w.s, q);
      }
      forall c | c in w'.h.orders ensures OrderKept(w', c) {
        assert OrderKept(w, c);
      }
      forall d | 0 <= d < |w'.s.cpus| ensures IdleKept(w'.s, d) {
        assert IdleKept(w.s, d);
        if Holder(w.s.procs, d).Some? {
          HeldBy(w'.s.procs, Holder(w.s.procs, d).value, d);
        }
      }
    } else {
      CpuGivenUp(w, w', p);
    }
    SuspFrame(w, w');
    WaitsFrame(w, w');
    OneProcess(rules, w, w', p);
  }

  lemma EndGood(rules: Rules, w: World, p: nat)
    requires Good(rules, w) && Runs(w.s, p)
    ensures Good(rules, World(End(w.s, p, w.s.procs[p].cpu.value), w.h))
  {
    hide Agree, Take, Put, OwnersKept, UrgencyKept, GrantsKept;
    var w' := World(End(w.s, p, w.s.procs[p].cpu.value), w.h);
    EndListed(rules, w.s, p, w.s.procs[p].cpu.value);
    CpuGivenUp(w, w', p);
    SuspFrame(w, w');
    WaitsFrame(w, w');
    OneProcess(rules, w, w', p);
  }

  lemma IoStartGood(rules: Rules, w: World, p: nat)
    requires Good(rules, w) && Runs(w.s, p)
    ensures Good(rules, World(StartIo(w.s, p, w.s.procs[p].cpu.value), w.h.(io := w.h.io + {p})))
  {
    hide Agree, Take, Put, WaitsKept, OwnersKept, UrgencyKept, GrantsKept;
    var c := w.s.procs[p].cpu.value;
    var w' := World(StartIo(w.s, p, c), w.h.(io := w.h.io + {p}));
    BlockListed(rules, w.s, p);
    CpuGivenUp(w, w', p);
    SuspFrame(w, w');
    IoStartWaits(w, p, c);
    OneProcess(rules, w, w', p);
  }

  lemma BlockedHasNoCpu(w: World, p: nat)
    requires CpusKept(w) && p < |w.s.procs| && w.s.procs[p].state != Exec
    ensures w.s.procs[p].cpu.None? && !w.s.procs[p].pending
  {
    assert CpuKept(w.s, p);
  }

  lemma IoDoneGood(rules: Rules, w: World, p: nat)
    requires Good(rules, w) && p in w.h.io
    ensures Good(rules, World(Wake(rules, w.s, p), w.h.(io := w.h.io - {p})))
  {
    hide Agree, Wake, OwnersKept, UrgencyKept, GrantsKept;
    var w' := World(Wake(rules, w.s, p), w.h.(io := w.h.io - {p}));
    WakeEffect(rules, w.s, p);
    WakeListed(rules, w.s, p);
    BlockedHasNoCpu(w, p);
    CpusFrame(w, w');
    SuspFrame(w, w');
    IoDoneWaits(rules, w, p);
    OneProcess(rules, w, w', p);
  }

  // ---------- suspension ----------

  lemma SweepGood(rules: Rules, w: World)
    requires Good(rules, w)
    ensures var late := Overdue(rules, w.s, w.s.lists.block, true);
      Good(rules, World(Sweep(rules, w.s), w.h.(swapping := w.h.swapping + ToSet(late))))
  {
    hide Agree, Overdue, Mark, OwnersKept, UrgencyKept, GrantsKept;
    var late := Overdue(rules, w.s, w.s.lists.block, true);
    var w' := World(Sweep(rules, w.s), w.h.(swapping := w.h.swapping + ToSet(late)));
    SweepListed(rules, w.s);
    forall p | p in late ensures p < |w.s.procs| && w.s.procs[p].state == Block {
      assert Expired(rules, w.s, p);
    }
    CpusFrame(w, w');
    SweepSusp(rules, w);
    WaitsFrame(w, w');
    SameMutexes(rules, w, w');
  }

  /** Nobody's priorities or mutexes change. */
  lemma SameMutexes(rules: Rules, w: World, w': World)
    requires OwnersKept(w.s) && UrgencyKept(rules, w) && GrantsKept(w)
    requires |w.s.procs| <= |w'.s.procs|
    requires forall p | 0 <= p < |w.s.procs| ::
      var (pr, pr') := (w.s.procs[p], w'.s.procs[p]);
      pr'.owned == pr.owned && pr'.eff == pr.eff && pr'.base == pr.base
    requires forall p | |w.s.procs| <= p < |w'.s.procs| ::
      w'.s.procs[p].owned == [] && w'.s.procs[p].eff == w'.s.procs[p].base
    requires w'.s.mutexes == w.s.mutexes && w'.h.arrivals == w.h.arrivals
    requires w'.h.arrived == w.h.arrived && w'.h.granted == w.h.granted
    ensures OwnersKept(w'.s) && UrgencyKept(rules, w') && GrantsKept(w')
  {
    hide FloorKept, CeilingKept;
    forall m | 0 <= m < |w.s.mutexes| ensures w.s.mutexes[m].owner.Some? ==> w.s.mutexes[m].owner.value < |w.s.procs| {
      assert MutexKept(w.s, m);
    }
    OwnersFrame(w.s, w'.s);
    UrgencyFrame(rules, w, w');
  }

  lemma SwapOutGood(rules: Rules, w: World, p: nat, ok: bool)
    requires Good(rules, w) && p in w.h.swapping
    ensures Good(rules, World(SwappedOut(rules, w.s, p, ok), w.h.(swapping := w.h.swapping - {p})))
  {
    hide Agree, Put, OwnersKept, UrgencyKept, GrantsKept;
    var w' := World(SwappedOut(rules, w.s, p, ok), w.h.(swapping := w.h.swapping - {p}));
    SwappedOutListed(rules, w.s, p, ok);
    SwapOutSusp(rules, w, p, ok);
    BlockedHasNoCpu(w, p);
    CpusFrame(w, w');
    WaitsFrame(w, w');
    OneProcess(rules, w, w', p);
  }

  lemma SwapInGood(rules: Rules, w: World, p: nat)
    requires Good(rules, w) && p in w.s.susp
    ensures Good(rules, World(SwappedIn(rules, w.s, p), w.h))
  {
    hide Agree, Put, OwnersKept, UrgencyKept, GrantsKept;
    var w' := World(SwappedIn(rules, w.s, p), w.h);
    SwappedInListed(rules, w.s, p);
    SwapInSusp(rules, w, p);
    BlockedHasNoCpu(w, p);
    CpusFrame(w, w');
    WaitsFrame(w, w');
    OneProcess(rules, w, w', p);
  }

  // ---------- mutexes ----------

  lemma LockGood(rules: Rules, w: World, p: nat, m: nat)
    requires Good(rules, w) && Runs(w.s, p) && m < |w.s.mutexes|
    requires m < |w.h.arrivals| && m < |w.h.arrived|
    ensures Good(rules, LockStep(rules, w, p, m))
  {
    hide Agree, CpusKept, SuspKept, WaitsKept, OwnersKept, UrgencyKept, GrantsKept, Lock;
    MutexFacts(rules, w, m);
    LockListed(rules, w.s, p, m);
    var mx := w.s.mutexes[m];
    if !mx.locked {
      LockFree(rules, w, p, m);
    } else if mx.owner == Some(p) {
      LockOwn(rules, w.s, p, m);
    } else {
      var o := mx.owner.value;
      LockCpus(rules, w, p, m, o);
      LockWaits(rules, w, p, m, o);
      LockOwners(rules, w.s, p, m, o);
      LockUrgency(rules, w, p, m, o);
      LockGrants(rules, w, p, m, o);
    }
  }

  lemma LockOwn(rules: Rules, s: Sched, p: nat, m: nat)
    requires p < |s.procs| && m < |s.mutexes| && s.mutexes[m].locked && s.mutexes[m].owner == Some(p)
    ensures Lock(rules, s, p, m) == s
  {
  }

  lemma LockFree(rules: Rules, w: World, p: nat, m: nat)
    requires Good(rules, w) && Runs(w.s, p) && m < |w.s.mutexes| && !w.s.mutexes[m].locked
    requires m < |w.h.arrivals| && m < |w.h.arrived| && Listed(rules, LockStep(rules, w, p, m).s)
    ensures Good(rules, LockStep(rules, w, p, m))
  {
    hide Agree, SuspKept, OwnersKept, UrgencyKept;
    var w' := LockStep(rules, w, p, m);
    assert w' == World(Acquire(w.s, p, m), w.h);
    CpusFrame(w, w');
    SameSusp(w, w');
    forall n | 0 <= n < |w'.s.mutexes| ensures WaitersKept(w', n) {
      assert WaitersKept(w, n);
    }
    AcquireOwners(w.s, p, m);
    AcquireUrgency(rules, w, p, m);
  }

  lemma SameSusp(w: World, w': World)
    requires SuspKept(w) && |w.s.procs| == |w'.s.procs|
    requires forall p | 0 <= p < |w.s.procs| :: Asleep(w'.s.procs[p]) <==> Asleep(w.s.procs[p])
    requires w'.s.susp == w.s.susp && w'.h.swapping == w.h.swapping
    ensures SuspKept(w')
  {
    SuspFrame(w, w');
  }

  lemma LockCpus(rules: Rules, w: World, p: nat, m: nat, o: nat)
    requires CpusKept(w) && SuspKept(w) && Runs(w.s, p) && m < |w.s.mutexes| && m < |w.h.arrivals| && m < |w.h.arrived|
    requires w.s.mutexes[m].locked && w.s.mutexes[m].owner == Some(o) && o < |w.s.procs| && o != p
    ensures CpusKept(LockStep(rules, w, p, m)) && SuspKept(LockStep(rules, w, p, m))
  {
    hide Lock;
    LockEffect(rules, w.s, p, m, o);
    var w' := LockStep(rules, w, p, m);
    var blocked := w.s.procs[p].(state := Block, cpu := None, blockedSince := w.s.clock);
    var w1 := World(w.s.(procs := w.s.procs[p := blocked], cpus := w'.s.cpus), w.h);
    CpuGivenUp(w, w1, p);
    CpusFrame(w1, w');
    SameSusp(w, w');
  }

  lemma UnlockGood(rules: Rules, w: World, p: nat, m: nat)
    requires Good(rules, w) && Runs(w.s, p) && m < |w.s.mutexes|
    requires m < |w.h.arrivals| && m < |w.h.granted|
    requires w.s.mutexes[m].waiting != [] ==> w.s.mutexes[m].waiting[0] < |w.s.procs| && w.h.arrivals[m] != []
    ensures Good(rules, UnlockStep(rules, w, p, m))
  {
    hide Agree, CpusKept, SuspKept, WaitsKept, OwnersKept, UrgencyKept, GrantsKept, Unlock;
    MutexFacts(rules, w, m);
    if w.s.mutexes[m].owner != Some(p) {
      UnlockForeign(rules, w.s, p, m);
    } else {
      UnlockListed(rules, w.s, p, m);
      NotWaiting(w, p);
      UnlockOwners(rules, w.s, p, m);
      UnlockUrgency(rules, w, p, m);
      UnlockGrants(rules, w, p, m);
      UnlockCpus(rules, w, p, m);
      UnlockWaits(rules, w, p, m);
    }
  }

  lemma UnlockForeign(rules: Rules, s: Sched, p: nat, m: nat)
    requires p < |s.procs| && m < |s.mutexes| && s.mutexes[m].owner != Some(p)
    requires s.mutexes[m].waiting != [] ==> s.mutexes[m].waiting[0] < |s.procs|
    ensures Unlock(rules, s, p, m) == s
  {
  }

  lemma NotWaiting(w: World, p: nat)
    requires WaitsKept(w) && Runs(w.s, p)
    ensures forall n | 0 <= n < |w.s.mutexes| :: p !in w.s.mutexes[n].waiting
  {
    forall n | 0 <= n < |w.s.mutexes| ensures p !in w.s.mutexes[n].waiting {
      assert WaitersKept(w, n);
    }
  }

  /** What an unlock changes for the processes, priorities and ownership aside. */
  lemma UnlockStates(rules: Rules, s: Sched, p: nat, m: nat)
    requires p < |s.procs| && m < |s.mutexes| && s.mutexes[m].owner == Some(p)
    requires s.mutexes[m].waiting != [] ==> s.mutexes[m].waiting[0] < |s.procs|
    ensures var (s', waiting) := (Unlock(rules, s, p, m), s.mutexes[m].waiting);
      && |s'.procs| == |s.procs| && s'.cpus == s.cpus && s'.susp == s.susp
      && (forall q | 0 <= q < |s.procs| ::
           && s'.procs[q].cpu == s.procs[q].cpu && s'.procs[q].pending == s.procs[q].pending
           && s'.procs[q].blockedSince == s.procs[q].blockedSince
           && s'.procs[q].state ==
                if waiting != [] && q == waiting[0] then Woken(s.procs[q]).state else s.procs[q].state)
  {
    hide Release, HandOver, Inherited;
    ReleaseEffect(rules, s, p, m);
    if s.mutexes[m].waiting != [] {
      HandOverEffect(rules, Release(rules, s, p, m), m);
    } else {
      HandOverNobody(rules, Release(rules, s, p, m), m);
    }
  }

  lemma UnlockCpus(rules: Rules, w: World, p: nat, m: nat)
    requires CpusKept(w) && SuspKept(w) && Runs(w.s, p) && m < |w.s.mutexes| && w.s.mutexes[m].owner == Some(p)
    requires m < |w.h.arrivals| && m < |w.h.granted|
    requires w.s.mutexes[m].waiting != [] ==>
      w.s.mutexes[m].waiting[0] < |w.s.procs| && w.h.arrivals[m] != [] && Blocked(w.s.procs[w.s.mutexes[m].waiting[0]])
    ensures CpusKept(UnlockStep(rules, w, p, m)) && SuspKept(UnlockStep(rules, w, p, m))
  {
    hide Unlock;
    UnlockStates(rules, w.s, p, m);
    var w' := UnlockStep(rules, w, p, m);
    CpusFrame(w, w');
    SameSusp(w, w');
  }

  lemma UnlockWaits(rules: Rules, w: World, p: nat, m: nat)
    requires WaitsKept(w) && Runs(w.s, p) && m < |w.s.mutexes| && w.s.mutexes[m].owner == Some(p)
    requires m < |w.h.arrivals| && m < |w.h.granted|
    requires w.s.mutexes[m].waiting != [] ==> w.s.mutexes[m].waiting[0] < |w.s.procs| && w.h.arrivals[m] != []
    ensures WaitsKept(UnlockStep(rules, w, p, m))
  {
    hide Release, HandOver, Inherited, Blocked;
    ReleaseEffect(rules, w.s, p, m);
    var w1 := World(Release(rules, w.s, p, m), w.h);
    ReleasedBlocked(w.s.procs[p], w1.s.procs[p]);
    WaitsFrame(w, w1);
    if w.s.mutexes[m].waiting != [] {
      HandOverWaits(rules, w1, m);
    } else {
      HandOverNobody(rules, w1.s, m);
      var w' := UnlockStep(rules, w, p, m);
      forall n | 0 <= n < |w'.s.mutexes| ensures WaitersKept(w', n) {
        assert WaitersKept(w1, n);
      }
    }
  }

  lemma ReleasedBlocked(pr: Process, pr': Process)
    requires pr'.state == pr.state
    ensures Blocked(pr') == Blocked(pr)
  {
  }

  // ---------- every step ----------

  lemma NewProcessGood(rules: Rules, w: World, base: byte)
    requires Good(rules, w)
    ensures Good(rules, World(Create(w.s, base), w.h))
  {
    hide Agree, OwnersKept, UrgencyKept, GrantsKept;
    var w' := World(Create(w.s, base), w.h);
    CreateListed(rules, w.s, base);
    CpusFrame(w, w');
    SuspFrame(w, w');
    WaitsFrame(w, w');
    SameMutexes(rules, w, w');
  }

  lemma NewCpuGood(rules: Rules, w: World)
    requires Good(rules, w)
    ensures Good(rules, World(ConnectCpu(w.s), w.h))
  {
    hide Agree, OwnersKept, UrgencyKept, GrantsKept;
    var w' := World(ConnectCpu(w.s), w.h);
    forall q | 0 <= q < |w'.s.procs| ensures CpuKept(w'.s, q) {
      assert CpuKept(w.s, q);
    }
    forall c | c in w'.h.orders ensures OrderKept(w', c) {
      assert OrderKept(w, c);
    }
    forall d | 0 <= d < |w'.s.cpus| ensures IdleKept(w'.s, d) {
      assert d < |w.s.cpus| ==> IdleKept(w.s, d);
    }
    SuspFrame(w, w');
    WaitsFrame(w, w');
    SameMutexes(rules, w, w');
  }

  lemma QuietGood(rules: Rules, w: World, w': World)
    requires Good(rules, w) && w'.h == w.h.(compactions := w'.h.compactions)
    requires w'.h.compactions <= w.h.compactions
    requires w'.s == w.s.(canSchedule := w'.s.canSchedule, clock := w'.s.clock)
    ensures Good(rules, w')
  {
    hide Agree, OwnersKept, UrgencyKept, GrantsKept;
    CpusFrame(w, w');
    SuspFrame(w, w');
    WaitsFrame(w, w');
    SameMutexes(rules, w, w');
  }

  lemma MutexCreateGood(rules: Rules, w: World, name: string)
    requires Good(rules, w)
    ensures Good(rules, CreateMutexStep(w, name))
  {
    hide Agree, OwnersKept, UrgencyKept, GrantsKept, WaitsKept, FindMutex;
    var w' := CreateMutexStep(w, name);
    CpusFrame(w, w');
    SuspFrame(w, w');
    NewMutexKept(rules, w, name);
  }

  lemma DispatchPassGood(rules: Rules, w: World)
    requires Kept(rules, w)
    ensures Good(rules, Pass(rules, w))
  {
    hide Good, Preempted, DispatchAll, OrderSent;
    PassGood(rules, w);
    GoodListed(rules, w);
    var s' := DispatchAll(rules, w.s);
    PassExact(rules, w.s);
    ExecKnown(rules, s');
    var preempted := Preempted(rules, s');
    if preempted.Some? {
      OrderGood(rules, World(s', w.h), preempted.value, None);
    }
  }

  /** Whatever happens next, in whatever order the other modules answer, the invariant is kept. */
  lemma StepGood(rules: Rules, w: World, ev: Event)
    requires Kept(rules, w) && Enabled(w, ev)
    ensures Kept(rules, Step(rules, w, ev))
  {
    hide Good, Pass, BeginCompaction, OrderSent, LockStep, UnlockStep, CreateMutexStep, Sweep, Wake, Confirm;
    hide ConfirmAll;
    hide SegmentResult, SwappedIn, SwappedOut, Create, Created, AskMemory, End, StartIo, Overdue, ConnectCpu;
    match ev
    case NewProcess(base) => NewProcessGood(rules, w, base);
    case ProcessCreated(p) => CreatedGood(rules, w, p);
    case NewCpu => NewCpuGood(rules, w);
    case DispatchPass => DispatchPassGood(rules, w);
    case QuantumExpired(c) => OrderGood(rules, w, c, None);
    case CompactionBegin => GoodListed(rules, w); ExecKnown(rules, w.s); BeginGood(rules, w);
    case Evicted(c) => EvictedGood(rules, w, c, false);
    case EvictedByAll(c) => EvictedGood(rules, w, c, true);
    case MemorySyscall(p) => AskGood(rules, w, p);
    case SegmentDone(p, ok) => SegmentGood(rules, w, p, ok);
    case ProcessEnd(p) => EndGood(rules, w, p);
    case MutexCreate(name) => MutexCreateGood(rules, w, name);
    case MutexLock(p, m) => MutexFacts(rules, w, m); LockGood(rules, w, p, m);
    case MutexUnlock(p, m) => MutexFacts(rules, w, m); UnlockGood(rules, w, p, m);
    case IoStart(p) => IoStartGood(rules, w, p);
    case IoDone(p) => IoDoneGood(rules, w, p);
    case SuspensionSweep => SweepGood(rules, w);
    case SwapOutDone(p, ok) => SwapOutGood(rules, w, p, ok);
    case SwapInDone(p) => SwapInGood(rules, w, p);
    case CompactionEnd(_) => QuietGood(rules, w, Step(rules, w, ev));
    case Tick(time) => QuietGood(rules, w, Step(rules, w, ev));
  }

  lemma GoodListed(rules: Rules, w: World)
    requires Good(rules, w)
    ensures Listed(rules, w.s)
  {
  }
}
