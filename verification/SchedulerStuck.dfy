/**
 A CPU whose process leaves it before it confirms an order of `evict_all_processes`: it stays marked as being
 evicted and is lost (kernel_scheduler/src/utils.c:340-358).
*/
module SchedulerStuck {
  import opened Base
  import opened SchedulerState
  import opened SchedulerSteps
  import opened SchedulerLists
  import opened SchedulerRuns
  import opened SchedulerCpus
  import opened SchedulerMutexes
  import opened SchedulerDispatch
  import opened SchedulerSafety
  import opened SchedulerTheorems
  import opened SchedulerRaces
  import opened SchedulerCompaction

  /** Marked as being evicted, with no order whose confirmation could clear the mark, and held by nobody. */
  ghost predicate Stuck(w: World, c: nat) {
    && c < |w.s.cpus| && w.s.cpus[c].evicting && c !in w.h.orders
    && forall p | 0 <= p < |w.s.procs| :: w.s.procs[p].cpu != Some(c)
  }

  /** A confirmation leaves a CPU stuck exactly when `evict_all_processes` had sent the order and the process
      that held the CPU then does not hold it any more. */
  lemma ConfirmationSticks(rules: Rules, w: World, c: nat)
    requires Kept(rules, w) && c in w.h.orders
    ensures w.h.orders[c].target < |w.s.procs|
    ensures var all := w.h.orders[c].caller.Some?;
      var w' := Step(rules, w, if all then EvictedByAll(c) else Evicted(c));
      Stuck(w', c) <==> all && w.s.procs[w.h.orders[c].target].cpu != Some(c)
  {
    hide Agree, SuspKept, WaitsKept, OwnersKept, UrgencyKept, GrantsKept, Confirm, ConfirmAll, Holder;
    assert OrderKept(w, c);
    var all := w.h.orders[c].caller.Some?;
    ConfirmationTarget(rules, w, c, all);
    ConfirmEffect(rules, w.s, c, all);
    if w.s.procs[w.h.orders[c].target].cpu == Some(c) {
      HolderUnique(w, c, w.h.orders[c].target);
    }
  }

  /** Everybody was to be evicted; the one process that ran has ended before its CPU confirmed. */
  function JustEnded(): World {
    var ended := Process(Exit, 0, 0, None, [], false, 0, 0);
    World(Sched([ended], Lists([[]], [], []), [], [CpuInfo(true, true)], [], false, 0),
          History(map[0 := Sent(0, Some(0))], {}, {}, map[], [], [], [], 1, {0}))
  }

  lemma CpuLost()
    ensures Kept(FIFO_RULES, JustEnded()) && Enabled(JustEnded(), EvictedByAll(0))
    ensures Stuck(Step(FIFO_RULES, JustEnded(), EvictedByAll(0)), 0)
  {
    JustEndedKept();
    ConfirmationSticks(FIFO_RULES, JustEnded(), 0);
  }

  lemma JustEndedKept()
    ensures Kept(FIFO_RULES, JustEnded())
  {
    var w := JustEnded();
    forall at | Real(w.s.lists, at) ensures HoldsExactly(FIFO_RULES, w.s.procs, w.s.lists, at, None) {
      if at.InReady? {
        assert w.s.lists.ready[at.level] == [];
      }
    }
    assert OwnedKept(w.s, 0) by {
      assert forall m: nat :: !Owns(w.s, 0, m);
    }
  }

  // ---------- marks ----------

  /** CPUs are not taken away, and a mark stays. */
  ghost predicate MarkStays(s: Sched, s': Sched, c: nat) {
    c < |s.cpus| && s.cpus[c].evicting ==> c < |s'.cpus| && s'.cpus[c].evicting
  }

  lemma {:induction false} AllMarks(rules: Rules, s: Sched, c: nat)
    requires WellFormed(rules) && Listed(rules, s)
    ensures MarkStays(s, DispatchAll(rules, s), c)
    decreases |Flat(s.lists.ready)|
  {
    hide Agree, Flat, FreeList, DispatchNext;
    if CanDispatch(s) {
      DispatchStep(rules, s);
      AllMarks(rules, DispatchNext(rules, s), c);
    }
  }

  lemma PassMarks(rules: Rules, w: World, c: nat)
    requires Kept(rules, w)
    ensures MarkStays(w.s, Pass(rules, w).s, c)
    ensures c < |w.s.cpus| && w.s.cpus[c].evicting && c in Pass(rules, w).h.orders ==> c in w.h.orders
  {
    hide Agree, DispatchAll, Preempted, Holder;
    AllMarks(rules, w.s, c);
  }

  lemma BeginMarks(rules: Rules, w: World, c: nat)
    requires Kept(rules, w) && c < |w.s.cpus| && w.s.cpus[c].evicting
    requires forall i | 0 <= i < |w.s.lists.exec| :: w.s.lists.exec[i] < |w.s.procs|
    ensures var w' := BeginCompaction(w);
      MarkStays(w.s, w'.s, c) && (c in w'.h.orders <==> c in w.h.orders)
  {
    hide Called, OrderEach, Agree, SuspKept, WaitsKept, OwnersKept, UrgencyKept, GrantsKept;
    var call := w.h.calls;
    var off := World(w.s.(canSchedule := false),
                     w.h.(calls := call + 1, compactions := w.h.compactions + {call}));
    forall d | d in off.h.orders ensures OrderKept(off, d) {
      assert OrderKept(w, d);
    }
    forall p | 0 <= p < |w.s.procs| ensures CpuKept(off.s, p) {
      assert CpuKept(w.s, p);
    }
    forall d | 0 <= d < |w.s.cpus| ensures IdleKept(off.s, d) {
      assert IdleKept(w.s, d);
    }
    OrderEachExact(off, w.s.lists.exec, call, c);
  }

  lemma LockMarks(rules: Rules, w: World, q: nat, m: nat, c: nat)
    requires Kept(rules, w) && Runs(w.s, q) && m < |w.s.mutexes|
    ensures MarkStays(w.s, Lock(rules, w.s, q, m), c)
  {
    hide Agree, CpusKept, SuspKept, WaitsKept, OwnersKept, UrgencyKept, GrantsKept, BlockProcess, Inherit;
    MutexFacts(rules, w, m);
    var mx := w.s.mutexes[m];
    if mx.locked && mx.owner != Some(q) {
      LockEffect(rules, w.s, q, m, mx.owner.value);
    }
  }

  lemma UnlockMarks(rules: Rules, w: World, q: nat, m: nat, c: nat)
    requires Kept(rules, w) && Runs(w.s, q) && m < |w.s.mutexes|
    requires w.s.mutexes[m].waiting != [] ==> w.s.mutexes[m].waiting[0] < |w.s.procs|
    ensures MarkStays(w.s, Unlock(rules, w.s, q, m), c)
  {
    hide Good, Unlock;
    if w.s.mutexes[m].owner == Some(q) {
      UnlockStates(rules, w.s, q, m);
    } else {
      UnlockForeign(rules, w.s, q, m);
    }
  }

  lemma CompositeMarks(rules: Rules, w: World, ev: Event, c: nat)
    requires Kept(rules, w) && Enabled(w, ev) && Composite(ev) && !ConfirmsCpu(ev, c)
    requires c < |w.s.cpus| && w.s.cpus[c].evicting
    ensures MarkStays(w.s, Step(rules, w, ev).s, c)
  {
    hide Good, Pass, BeginCompaction, Sweep, Confirm, ConfirmAll, SegmentResult, Lock, Unlock, Holder;
    match ev
    case DispatchPass => PassMarks(rules, w, c);
    case CompactionBegin => GoodListed(rules, w); ExecKnown(rules, w.s); BeginMarks(rules, w, c);
    case Evicted(d) => ConfirmEffect(rules, w.s, d, false);
    case EvictedByAll(d) => ConfirmEffect(rules, w.s, d, true);
    case SegmentDone(q, ok) => PendingRuns(rules, w, q); SegmentResultEffect(rules, w.s, q, ok);
    case MutexLock(q, m) => MutexFacts(rules, w, m); LockMarks(rules, w, q, m, c);
    case MutexUnlock(q, m) => MutexFacts(rules, w, m); UnlockMarks(rules, w, q, m, c);
    case SuspensionSweep => SweepMarks(rules, w.s, c);
    case _ =>
  }

  lemma SweepMarks(rules: Rules, s: Sched, c: nat)
    ensures MarkStays(s, Sweep(rules, s), c)
  {
    hide Overdue, Mark;
  }

  /** Only its own confirmation clears the mark of a CPU. */
  lemma StepMarks(rules: Rules, w: World, ev: Event, c: nat)
    requires Kept(rules, w) && Enabled(w, ev) && !ConfirmsCpu(ev, c) && c < |w.s.cpus| && w.s.cpus[c].evicting
    ensures MarkStays(w.s, Step(rules, w, ev).s, c)
  {
    hide Agree, CpusKept, SuspKept, WaitsKept, OwnersKept, UrgencyKept, GrantsKept;
    hide Pass, BeginCompaction, Sweep, Wake, Confirm, ConfirmAll, SegmentResult, LockStep, UnlockStep, FindMutex;
    hide Holder, Put, Take;
    if Composite(ev) {
      CompositeMarks(rules, w, ev, c);
    } else {
      match ev
      case IoDone(q) => IoStates(w, q); WakeEffect(rules, w.s, q);
      case SwapOutDone(q, ok) => AsleepStates(w, q);
      case SwapInDone(q) => AsleepStates(w, q);
      case _ =>
    }
  }

  // ---------- for good ----------

  /** No order is sent to a marked CPU. */
  lemma NoNewOrder(rules: Rules, w: World, ev: Event, c: nat)
    requires Kept(rules, w) && Enabled(w, ev) && c < |w.s.cpus| && w.s.cpus[c].evicting && c !in w.h.orders
    ensures c !in Step(rules, w, ev).h.orders
  {
    hide Good, Pass, BeginCompaction, Holder;
    if ev == DispatchPass {
      PassMarks(rules, w, c);
    } else if ev == CompactionBegin {
      GoodListed(rules, w);
      ExecKnown(rules, w.s);
      BeginMarks(rules, w, c);
    } else if !ev.QuantumExpired? {
      hide Step;
      StepOrders(rules, w, ev);
    }
  }

  /** Nobody is put on a marked CPU. */
  lemma NobodyPutOn(rules: Rules, w: World, ev: Event, c: nat)
    requires Kept(rules, w) && Enabled(w, ev) && Stuck(w, c)
    ensures forall p | 0 <= p < |Step(rules, w, ev).s.procs| :: Step(rules, w, ev).s.procs[p].cpu != Some(c)
  {
    hide Good, Pass, DispatchAll;
    if ev == DispatchPass {
      PassHolders(rules, w);
      PassStepIs(rules, w);
      hide Step;
    } else {
      hide Step;
      StepGains(rules, w, ev);
    }
  }

  /** After a pass every process holds the CPU it held or one that was free. */
  lemma PassHolders(rules: Rules, w: World)
    requires Kept(rules, w)
    ensures |Pass(rules, w).s.procs| == |w.s.procs|
    ensures forall p | 0 <= p < |w.s.procs| ::
      var cpu := Pass(rules, w).s.procs[p].cpu;
      cpu == w.s.procs[p].cpu || (cpu.Some? && cpu.value < |w.s.cpus| && Free(w.s.cpus[cpu.value]))
  {
    hide Agree, Flat, FreeList, DispatchAll, Preempted, Holder, Good;
    GoodListed(rules, w);
    PassExact(rules, w.s);
    var flat, free := Flat(w.s.lists.ready), FreeList(w.s.cpus);
    var k := if |flat| < |free| then |flat| else |free|;
    forall p | 0 <= p < |w.s.procs|
      ensures var cpu := Pass(rules, w).s.procs[p].cpu;
        cpu == w.s.procs[p].cpu || (cpu.Some? && cpu.value < |w.s.cpus| && Free(w.s.cpus[cpu.value]))
    {
      if p in flat[..k] {
        var i :| 0 <= i < k && flat[..k][i] == p;
        assert free[i] in free;
      }
    }
  }

  lemma StuckStep(rules: Rules, w: World, ev: Event, c: nat)
    requires Kept(rules, w) && Enabled(w, ev) && Stuck(w, c)
    ensures Stuck(Step(rules, w, ev), c)
  {
    hide Kept, Step;
    NoNewOrder(rules, w, ev, c);
    NobodyPutOn(rules, w, ev, c);
    StepMarks(rules, w, ev, c);
  }

  /** Once stuck, a CPU is stuck in every later state of every run: it is never free and never holds a process
      again. */
  lemma {:induction false} StuckForGood(rules: Rules, worlds: seq<World>, events: seq<Event>, c: nat, n: nat)
    requires IsHistory(rules, worlds, events) && Kept(rules, worlds[0]) && n <= |events| && Stuck(worlds[0], c)
    ensures Stuck(worlds[n], c) && !Free(worlds[n].s.cpus[c])
  {
    hide Kept, Enabled, Step;
    if n > 0 {
      StuckForGood(rules, worlds, events, c, n - 1);
      RunKept(rules, worlds, events, n - 1);
      assert SteppedAt(rules, worlds, events, n - 1);
      StuckStep(rules, worlds[n - 1], events[n - 1], c);
    }
  }
}
