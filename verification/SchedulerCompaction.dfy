/**
 Everybody off the CPUs before memory is compacted: exactly when `evict_all_processes` brings it about, and
 exactly when it lasts (kernel_scheduler/src/utils.c:318-361,
 kernel_scheduler/src/managers/memory_manager.c:152-177).
*/
module SchedulerCompaction {
  import opened Base
  import opened SchedulerState
  import opened SchedulerSteps
  import opened SchedulerLists
  import opened SchedulerRuns
  import opened SchedulerCpus
  import opened SchedulerMutexes
  import opened SchedulerDispatch
  import opened SchedulerSafety
  import opened SchedulerTheorems
  import opened SchedulerRaces

  /** A call of `evict_all_processes` waits for the confirmation of a CPU. */
  ghost predicate Awaited(w: World, call: nat, c: nat) {
    c in w.h.orders && w.h.orders[c].caller == Some(call)
  }

  /** It waits for every CPU that somebody holds. */
  ghost predicate Covered(w: World, call: nat) {
    forall p | 0 <= p < |w.s.procs| && w.s.procs[p].cpu.Some? :: Awaited(w, call, w.s.procs[p].cpu.value)
  }

  /** So once all its confirmations have come, nobody is on a CPU. */
  ghost predicate Clear(s: Sched) {
    forall p | 0 <= p < |s.procs| :: s.procs[p].cpu.None?
  }

  lemma CoveredClear(w: World, call: nat)
    requires Covered(w, call) && AllCame(w.h, call)
    ensures Clear(w.s)
  {
  }

  // ---------- whom a call waits for ----------

  predicate Called(s: Sched, list: seq<nat>, c: nat) {
    exists i | 0 <= i < |list| :: list[i] < |s.procs| && s.procs[list[i]].cpu == Some(c)
  }

  lemma CalledLast(s: Sched, list: seq<nat>, c: nat)
    requires list != [] && list[|list| - 1] < |s.procs|
    ensures Called(s, list, c) <==> Called(s, list[..|list| - 1], c) || s.procs[list[|list| - 1]].cpu == Some(c)
  {
    var n := |list| - 1;
    var front := list[..n];
    if Called(s, front, c) {
      var i :| 0 <= i < |front| && front[i] < |s.procs| && s.procs[front[i]].cpu == Some(c);
      assert list[i] == front[i];
    }
    if Called(s, list, c) {
      var i :| 0 <= i < |list| && list[i] < |s.procs| && s.procs[list[i]].cpu == Some(c);
      assert i < n ==> front[i] == list[i];
    }
  }

  lemma {:induction false} OrderEachExact(w: World, list: seq<nat>, call: nat, c: nat)
    requires CpusKept(w) && c < |w.s.cpus| && forall i | 0 <= i < |list| :: list[i] < |w.s.procs|
    ensures var w' := OrderEach(w, list, call);
      && w'.s.procs == w.s.procs && |w'.s.cpus| == |w.s.cpus|
      && w'.s.cpus[c].evicting == (w.s.cpus[c].evicting || Called(w.s, list, c))
      && (Called(w.s, list, c) && !w.s.cpus[c].evicting ==> Awaited(w', call, c))
      && (!Called(w.s, list, c) || w.s.cpus[c].evicting ==>
           (c in w'.h.orders <==> c in w.h.orders) && (c in w.h.orders ==> w'.h.orders[c] == w.h.orders[c]))
  {
    hide CpusKept, Holder, Called;
    if list == [] {
      CalledNobody(w.s, c);
    } else {
      var n := |list| - 1;
      OrderEachExact(w, list[..n], call, c);
      CalledLast(w.s, list, c);
      if w.s.procs[list[n]].cpu == Some(c) {
        HolderUnique(w, c, list[n]);
      }
    }
  }

  lemma CalledNobody(s: Sched, c: nat)
    ensures !Called(s, [], c)
  {
  }

  /** The processes on CPUs are those of the exec list. */
  lemma CalledExact(rules: Rules, w: World, p: nat)
    requires Kept(rules, w) && p < |w.s.procs| && w.s.procs[p].cpu.Some?
    ensures Called(w.s, w.s.lists.exec, w.s.procs[p].cpu.value) && w.s.procs[p].cpu.value < |w.s.cpus|
  {
    hide SuspKept, WaitsKept, OwnersKept, UrgencyKept, GrantsKept;
    assert CpuKept(w.s, p);
    StatesMatchLists(rules, w, p);
    var i :| 0 <= i < |w.s.lists.exec| && w.s.lists.exec[i] == p;
    assert w.s.lists.exec[i] < |w.s.procs|;
  }

  /** A new call waits for a CPU that somebody holds exactly when no eviction of it was under way. */
  lemma BeginAwaits(rules: Rules, w: World, c: nat)
    requires Kept(rules, w) && c < |w.s.cpus| && Called(w.s, w.s.lists.exec, c)
    requires forall i | 0 <= i < |w.s.lists.exec| :: w.s.lists.exec[i] < |w.s.procs|
    ensures Awaited(BeginCompaction(w), w.h.calls, c) <==> !w.s.cpus[c].evicting
  {
    hide Called, OrderEach, Agree, SuspKept, WaitsKept, OwnersKept, UrgencyKept, GrantsKept;
    var call := w.h.calls;
    var off := World(w.s.(canSchedule := false),
                     w.h.(calls := call + 1, compactions := w.h.compactions + {call}));
    forall d | d in off.h.orders ensures OrderKept(off, d) && off.h.orders[d].caller != Some(call) {
      assert OrderKept(w, d);
    }
    forall p | 0 <= p < |w.s.procs| ensures CpuKept(off.s, p) {
      assert CpuKept(w.s, p);
    }
    forall d | 0 <= d < |w.s.cpus| ensures IdleKept(off.s, d) {
      assert IdleKept(w.s, d);
    }
    CalledSame(w.s, off.s, w.s.lists.exec, c);
    OrderEachExact(off, w.s.lists.exec, call, c);
  }

  lemma CalledSame(s: Sched, s': Sched, list: seq<nat>, c: nat)
    requires s'.procs == s.procs
    ensures Called(s', list, c) == Called(s, list, c)
  {
  }

  lemma {:induction false} NewlyExact(s: Sched, list: seq<nat>, c: nat)
    requires forall i | 0 <= i < |list| :: list[i] < |s.procs|
    ensures c in Newly(s, list) <==> c < |s.cpus| && !s.cpus[c].evicting && Called(s, list, c)
  {
    hide Called;
    if list == [] {
      CalledNobody(s, c);
    } else {
      NewlyExact(s, list[..|list| - 1], c);
      CalledLast(s, list, c);
    }
  }

  /** The CPUs a call sends its orders to are exactly those whose confirmation it waits for. */
  lemma NewlyAwaited(rules: Rules, w: World, c: nat)
    requires Kept(rules, w) && c < |w.s.cpus| && Called(w.s, w.s.lists.exec, c)
    ensures c in Newly(w.s, w.s.lists.exec) <==> Awaited(Step(rules, w, CompactionBegin), w.h.calls, c)
  {
    hide Good, BeginCompaction, Called, Awaited, Newly;
    GoodListed(rules, w);
    ExecKnown(rules, w.s);
    NewlyExact(w.s, w.s.lists.exec, c);
    BeginAwaits(rules, w, c);
  }

  /** Exactly when the eviction before a compaction waits for everybody: when no executing process is on a CPU
      that is already being evicted, by the end of a quantum, by preemption, or for another compaction. */
  lemma EvictAllCovers(rules: Rules, w: World)
    requires Kept(rules, w)
    ensures Covered(Step(rules, w, CompactionBegin), w.h.calls) <==>
      forall p | 0 <= p < |w.s.procs| && w.s.procs[p].cpu.Some? && w.s.procs[p].cpu.value < |w.s.cpus| ::
        !w.s.cpus[w.s.procs[p].cpu.value].evicting
  {
    hide Good, BeginCompaction, Called, Awaited;
    GoodListed(rules, w);
    ExecKnown(rules, w.s);
    BeginGood(rules, w);
    var w' := Step(rules, w, CompactionBegin);
    forall p | 0 <= p < |w.s.procs| && w.s.procs[p].cpu.Some?
      ensures var c := w.s.procs[p].cpu.value;
        c < |w.s.cpus| && (Awaited(w', w.h.calls, c) <==> !w.s.cpus[c].evicting)
    {
      CalledExact(rules, w, p);
      BeginAwaits(rules, w, w.s.procs[p].cpu.value);
    }
  }

  // ---------- it does not always ----------

  const FIFO_RULES: Rules := Rules(FIFO, 1, false, 100)

  /** One process runs, and its CPU is already to evict it: for `caller`, or by a single order. */
  function OneEvicting(caller: Option<nat>): World {
    var running := Process(Exec, 0, 0, Some(0), [], false, 0, 0);
    World(Sched([running], Lists([[]], [0], []), [], [CpuInfo(false, true)], [], caller.None?, 0),
          History(map[0 := Sent(0, caller)], {}, {}, map[], [], [], [], 1, if caller.None? then {} else {0}))
  }

  /** Evicting everybody now sends no order and waits for nobody, so that COMPACTION_READY is due at once, with
      the process still on its CPU; both if its quantum has just ended and if another compaction, a call of its
      own, has just begun. */
  lemma NotAlwaysCovered(caller: Option<nat>)
    requires caller == None || caller == Some(0)
    ensures Kept(FIFO_RULES, OneEvicting(caller))
    ensures var w := Step(FIFO_RULES, OneEvicting(caller), CompactionBegin);
      && w.h.orders == OneEvicting(caller).h.orders && AllCame(w.h, 1) && 1 in w.h.compactions
      && |w.s.procs| == 1 && w.s.procs[0].cpu == Some(0)
      && !Covered(w, 1) && !Clear(w.s)
  {
    OneEvictingKept(caller);
    var w := OneEvicting(caller);
    var off := World(w.s.(canSchedule := false), w.h.(calls := 2, compactions := w.h.compactions + {1}));
    assert OrderEach(off, [0], 1) == off by {
      assert [0][..0] == [];
    }
    assert Step(FIFO_RULES, w, CompactionBegin) == off;
    assert !Awaited(off, 1, 0);
  }

  lemma OneEvictingKept(caller: Option<nat>)
    requires caller == None || caller == Some(0)
    ensures Kept(FIFO_RULES, OneEvicting(caller))
  {
    var w := OneEvicting(caller);
    forall at | Real(w.s.lists, at) ensures HoldsExactly(FIFO_RULES, w.s.procs, w.s.lists, at, None) {
      if at.InReady? {
        assert w.s.lists.ready[at.level] == [];
      }
    }
    assert OwnedKept(w.s, 0) by {
      assert forall m: nat :: !Owns(w.s, 0, m);
    }
  }

  // ---------- single steps ----------

  /** Nobody gets a CPU. */
  ghost predicate NoGain(s: Sched, s': Sched) {
    forall p | 0 <= p < |s'.procs| && s'.procs[p].cpu.Some? :: p < |s.procs| && s'.procs[p].cpu == s.procs[p].cpu
  }

  /** An order stands until its confirmation. */
  lemma StepOrders(rules: Rules, w: World, ev: Event)
    requires Kept(rules, w) && Enabled(w, ev) && ev != DispatchPass && !ev.CompactionBegin? && !ev.QuantumExpired?
    ensures Step(rules, w, ev).h.orders == match ev case Evicted(c) => w.h.orders - {c}
                                                    case EvictedByAll(c) => w.h.orders - {c}
                                                    case _ => w.h.orders
  {
    hide Good, Pass, BeginCompaction, Sweep, Wake, Confirm, ConfirmAll, SegmentResult, Lock, Unlock, FindMutex, Holder;
    hide SwappedIn, SwappedOut, Create, Created, AskMemory, End, StartIo, Overdue, ConnectCpu, CreateMutex;
    match ev
    case MutexLock(p, m) => MutexFacts(rules, w, m);
    case MutexUnlock(p, m) => MutexFacts(rules, w, m);
    case _ =>
  }

  lemma CompositeGains(rules: Rules, w: World, ev: Event)
    requires Kept(rules, w) && Enabled(w, ev) && ev != DispatchPass && Composite(ev)
    ensures NoGain(w.s, Step(rules, w, ev).s)
    ensures Step(rules, w, ev).s.canSchedule == (w.s.canSchedule && ev != CompactionBegin)
  {
    hide Good, Pass, BeginCompaction, Sweep, Confirm, ConfirmAll, SegmentResult, Lock, Unlock, Holder;
    match ev
    case CompactionBegin =>
      GoodListed(rules, w);
      ExecKnown(rules, w.s);
      BeginGood(rules, w);
      BeginQuiet(w);
    case Evicted(c) => ConfirmEffect(rules, w.s, c, false);
    case EvictedByAll(c) => ConfirmEffect(rules, w.s, c, true);
    case SegmentDone(q, ok) =>
      PendingRuns(rules, w, q);
      SegmentResultEffect(rules, w.s, q, ok);
      SegmentQuiet(rules, w.s, q, ok);
    case MutexLock(q, m) => MutexFacts(rules, w, m); LockGains(rules, w, q, m);
    case MutexUnlock(q, m) => MutexFacts(rules, w, m); UnlockGains(rules, w, q, m);
    case SuspensionSweep => SweepGains(rules, w.s);
    case _ =>
  }

  lemma WakingGains(rules: Rules, w: World, ev: Event)
    requires Kept(rules, w) && Enabled(w, ev) && (ev.IoDone? || ev.SwapOutDone? || ev.SwapInDone?)
    ensures NoGain(w.s, Step(rules, w, ev).s) && Step(rules, w, ev).s.canSchedule == w.s.canSchedule
  {
    hide Agree, CpusKept, SuspKept, WaitsKept, OwnersKept, UrgencyKept, GrantsKept, Put, Take, Wake;
    match ev
    case IoDone(q) => IoStates(w, q); WakeEffect(rules, w.s, q);
    case SwapOutDone(q, ok) => AsleepStates(w, q);
    case SwapInDone(q) => AsleepStates(w, q);
    case _ =>
  }

  /** Without dispatching nobody gets a CPU. */
  lemma StepGains(rules: Rules, w: World, ev: Event)
    requires Kept(rules, w) && Enabled(w, ev) && ev != DispatchPass
    ensures NoGain(w.s, Step(rules, w, ev).s)
    ensures Step(rules, w, ev).s.canSchedule ==
      if ev.CompactionEnd? then true else if ev.CompactionBegin? then false else w.s.canSchedule
  {
    hide Good, Pass, BeginCompaction, Sweep, Wake, Confirm, ConfirmAll, SegmentResult, LockStep, UnlockStep, FindMutex;
    hide Holder, Put, Take, SwappedIn, SwappedOut;
    if Composite(ev) {
      CompositeGains(rules, w, ev);
    } else if ev.IoDone? || ev.SwapOutDone? || ev.SwapInDone? {
      WakingGains(rules, w, ev);
    }
  }

  lemma {:induction false} OrderEachQuiet(w: World, list: seq<nat>, call: nat)
    requires forall i | 0 <= i < |list| :: list[i] < |w.s.procs|
    ensures OrderEach(w, list, call).s.canSchedule == w.s.canSchedule
    ensures OrderEach(w, list, call).h.compactions == w.h.compactions
  {
    hide Holder;
    if list != [] {
      OrderEachQuiet(w, list[..|list| - 1], call);
    }
  }

  lemma BeginQuiet(w: World)
    requires forall i | 0 <= i < |w.s.lists.exec| :: w.s.lists.exec[i] < |w.s.procs|
    ensures !BeginCompaction(w).s.canSchedule
    ensures BeginCompaction(w).h.compactions == w.h.compactions + {w.h.calls}
  {
    hide OrderEach;
    var off := World(w.s.(canSchedule := false),
                     w.h.(calls := w.h.calls + 1, compactions := w.h.compactions + {w.h.calls}));
    OrderEachQuiet(off, w.s.lists.exec, w.h.calls);
  }

  lemma SegmentQuiet(rules: Rules, s: Sched, p: nat, ok: bool)
    requires p < |s.procs|
    ensures SegmentResult(rules, s, p, ok).canSchedule == s.canSchedule
  {
    hide Put, Take;
  }

  lemma LockGains(rules: Rules, w: World, q: nat, m: nat)
    requires Kept(rules, w) && Runs(w.s, q) && m < |w.s.mutexes|
    ensures NoGain(w.s, Lock(rules, w.s, q, m)) && Lock(rules, w.s, q, m).canSchedule == w.s.canSchedule
  {
    hide Agree, CpusKept, SuspKept, WaitsKept, OwnersKept, UrgencyKept, GrantsKept, BlockProcess, Inherit;
    MutexFacts(rules, w, m);
    var mx := w.s.mutexes[m];
    if mx.locked && mx.owner != Some(q) {
      LockEffect(rules, w.s, q, m, mx.owner.value);
    }
  }

  lemma UnlockGains(rules: Rules, w: World, q: nat, m: nat)
    requires Kept(rules, w) && Runs(w.s, q) && m < |w.s.mutexes|
    requires w.s.mutexes[m].waiting != [] ==> w.s.mutexes[m].waiting[0] < |w.s.procs|
    ensures NoGain(w.s, Unlock(rules, w.s, q, m)) && Unlock(rules, w.s, q, m).canSchedule == w.s.canSchedule
  {
    hide Agree, CpusKept, SuspKept, WaitsKept, OwnersKept, UrgencyKept, GrantsKept, Unlock;
    if w.s.mutexes[m].owner == Some(q) {
      UnlockStates(rules, w.s, q, m);
      UnlockQuiet(rules, w.s, q, m);
    } else {
      UnlockForeign(rules, w.s, q, m);
    }
  }

  lemma UnlockQuiet(rules: Rules, s: Sched, p: nat, m: nat)
    requires p < |s.procs| && m < |s.mutexes|
    requires s.mutexes[m].waiting != [] ==> s.mutexes[m].waiting[0] < |s.procs|
    ensures Unlock(rules, s, p, m).canSchedule == s.canSchedule
  {
    hide Inherited, Put, Take;
  }

  lemma SweepGains(rules: Rules, s: Sched)
    ensures NoGain(s, Sweep(rules, s)) && Sweep(rules, s).canSchedule == s.canSchedule
  {
    hide Overdue, Mark;
  }

  // ---------- how long it lasts ----------

  /** A single order does not reach a CPU that is being evicted, and the standing orders stay. */
  lemma OrderKeepsOrders(w: World, d: nat, c: nat)
    requires c in w.h.orders && c < |w.s.cpus| && w.s.cpus[c].evicting
    ensures var w' := OrderSent(w, d, None);
      c in w'.h.orders && w'.h.orders[c] == w.h.orders[c]
  {
  }

  /** A process that keeps its awaited CPU through a step without dispatching is still awaited. */
  lemma StillAwaited(rules: Rules, w: World, ev: Event, call: nat, p: nat)
    requires Kept(rules, w) && Enabled(w, ev) && ev != DispatchPass
    requires p < |w.s.procs| && w.s.procs[p].cpu.Some? && Awaited(w, call, w.s.procs[p].cpu.value)
    requires p < |Step(rules, w, ev).s.procs| && Step(rules, w, ev).s.procs[p].cpu == w.s.procs[p].cpu
    ensures Awaited(Step(rules, w, ev), call, w.s.procs[p].cpu.value)
  {
    hide Agree, SuspKept, WaitsKept, OwnersKept, UrgencyKept, GrantsKept, Holder;
    var c := w.s.procs[p].cpu.value;
    assert OrderKept(w, c);
    if !ev.CompactionBegin? && !ev.QuantumExpired? {
      StepOrders(rules, w, ev);
    }
    match ev
    case CompactionBegin => ExecKnown(rules, w.s); BeginKeepsOrders(rules, w, c);
    case Evicted(d) => hide Step;
    case EvictedByAll(d) => ConfirmationTarget(rules, w, d, true);
    case QuantumExpired(d) => OrderKeepsOrders(w, d, c);
    case _ =>
  }

  lemma BeginKeepsOrders(rules: Rules, w: World, c: nat)
    requires Kept(rules, w) && c in w.h.orders
    requires forall i | 0 <= i < |w.s.lists.exec| :: w.s.lists.exec[i] < |w.s.procs|
    ensures var w' := BeginCompaction(w); c in w'.h.orders && w'.h.orders[c] == w.h.orders[c]
  {
    hide Called, OrderEach, Agree, SuspKept, WaitsKept, OwnersKept, UrgencyKept, GrantsKept;
    var call := w.h.calls;
    var off := World(w.s.(canSchedule := false),
                     w.h.(calls := call + 1, compactions := w.h.compactions + {call}));
    forall d | d in off.h.orders ensures OrderKept(off, d) {
      assert OrderKept(w, d);
    }
    forall p | 0 <= p < |w.s.procs| ensures CpuKept(off.s, p) {
      assert CpuKept(w.s, p);
    }
    forall d | 0 <= d < |w.s.cpus| ensures IdleKept(off.s, d) {
      assert IdleKept(w.s, d);
    }
    assert OrderKept(w, c);
    OrderEachExact(off, w.s.lists.exec, call, c);
  }

  /** A pass keeps everybody awaited exactly when there is nothing to dispatch. */
  lemma PassCovered(rules: Rules, w: World, call: nat)
    requires Kept(rules, w) && Covered(w, call)
    ensures Covered(Pass(rules, w), call) <==> !CanDispatch(w.s)
  {
    hide Agree, SuspKept, WaitsKept, OwnersKept, UrgencyKept, GrantsKept, Flat, FreeList, DispatchAll, Preempted;
    hide Holder;
    PassExact(rules, w.s);
    var s' := DispatchAll(rules, w.s);
    ExecKnown(rules, s');
    var flat, free := Flat(w.s.lists.ready), FreeList(w.s.cpus);
    if CanDispatch(w.s) {
      FlatReady(rules, w.s, 0);
      assert free[0] in free;
      assert s'.procs[flat[0]].cpu == Some(free[0]);
      assert free[0] in w.h.orders ==> OrderKept(w, free[0]);
      assert !Awaited(Pass(rules, w), call, free[0]);
    } else {
      PassIdle(rules, w.s);
      forall p | 0 <= p < |w.s.procs| && w.s.procs[p].cpu.Some?
        ensures Awaited(Pass(rules, w), call, w.s.procs[p].cpu.value)
      {
        assert OrderKept(w, w.s.procs[p].cpu.value);
      }
    }
  }

  lemma PassIdle(rules: Rules, s: Sched)
    requires WellFormed(rules) && Listed(rules, s) && !CanDispatch(s)
    ensures DispatchAll(rules, s) == s
  {
  }

  /** One step leaves everybody awaited by the call, except a pass that has somebody to dispatch. */
  lemma CoveredStep(rules: Rules, w: World, ev: Event, call: nat)
    requires Kept(rules, w) && Enabled(w, ev) && Covered(w, call)
    ensures Covered(Step(rules, w, ev), call) <==> !(ev == DispatchPass && CanDispatch(w.s))
  {
    hide Kept, Enabled, Awaited, Pass, CanDispatch, Flat, FreeList;
    if ev == DispatchPass {
      PassCovered(rules, w, call);
      PassStepIs(rules, w);
    } else {
      hide Step;
      StepGains(rules, w, ev);
      var w' := Step(rules, w, ev);
      forall p | 0 <= p < |w'.s.procs| && w'.s.procs[p].cpu.Some?
        ensures Awaited(w', call, w'.s.procs[p].cpu.value)
      {
        StillAwaited(rules, w, ev, call, p);
      }
    }
  }

  lemma PassStepIs(rules: Rules, w: World)
    requires Kept(rules, w) && Enabled(w, DispatchPass)
    ensures Step(rules, w, DispatchPass) == Pass(rules, w)
  {
  }

  /** Over a run from a call that waits for everybody: everybody on a CPU stays awaited by it, so that nobody
      is on one whenever all its confirmations have come, if and only if every dispatch pass of the run finds
      nobody ready or no CPU free. */
  lemma {:induction false} CompactionClear(
    rules: Rules, worlds: seq<World>, events: seq<Event>, call: nat, n: nat)
    requires IsHistory(rules, worlds, events) && Kept(rules, worlds[0]) && n <= |events|
    requires Covered(worlds[0], call)
    ensures (forall i | 0 <= i <= n :: Covered(worlds[i], call))
       <==> (forall i | 0 <= i < n :: events[i] == DispatchPass ==> !CanDispatch(worlds[i].s))
    ensures (forall i | 0 <= i <= n :: Covered(worlds[i], call)) && AllCame(worlds[n].h, call) ==> Clear(worlds[n].s)
  {
    hide Kept, Enabled, Step, Covered, CanDispatch, AllCame, Clear;
    if n > 0 {
      CompactionClear(rules, worlds, events, call, n - 1);
      RunKept(rules, worlds, events, n - 1);
      assert SteppedAt(rules, worlds, events, n - 1);
      if Covered(worlds[n - 1], call) {
        CoveredStep(rules, worlds[n - 1], events[n - 1], call);
      }
    }
    if Covered(worlds[n], call) && AllCame(worlds[n].h, call) {
      CoveredClear(worlds[n], call);
    }
  }

  /** Dispatching stays off, and a compaction in flight, until a compaction ends. */
  lemma {:induction false} StaysOff(rules: Rules, worlds: seq<World>, events: seq<Event>, n: nat)
    requires IsHistory(rules, worlds, events) && Kept(rules, worlds[0]) && n <= |events| && !worlds[0].s.canSchedule
    requires forall i | 0 <= i < n :: !events[i].CompactionEnd?
    ensures !worlds[n].s.canSchedule
  {
    hide Kept, Step;
    if n > 0 {
      StaysOff(rules, worlds, events, n - 1);
      RunKept(rules, worlds, events, n - 1);
      assert SteppedAt(rules, worlds, events, n - 1);
      StepGains(rules, worlds[n - 1], events[n - 1]);
    }
  }

  /** A compaction from its beginning: if no executing process is on a CPU that is already being evicted, then
      until a compaction ends - its own, or another one in flight, which switches dispatching on again - nobody
      is on a CPU whenever all its confirmations have come. */
  lemma CompactionSafe(rules: Rules, worlds: seq<World>, events: seq<Event>, n: nat)
    requires IsHistory(rules, worlds, events) && Kept(rules, worlds[0]) && 0 < n <= |events|
    requires events[0] == CompactionBegin
    requires forall p | 0 <= p < |worlds[0].s.procs| && worlds[0].s.procs[p].cpu.Some?
      && worlds[0].s.procs[p].cpu.value < |worlds[0].s.cpus| ::
        !worlds[0].s.cpus[worlds[0].s.procs[p].cpu.value].evicting
    requires forall i | 0 < i < n :: !events[i].CompactionEnd?
    requires AllCame(worlds[n].h, worlds[0].h.calls)
    ensures Clear(worlds[n].s)
  {
    hide Kept, Step, Covered, CanDispatch, AllCame, Clear;
    assert SteppedAt(rules, worlds, events, 0);
    EvictAllCovers(rules, worlds[0]);
    RunKept(rules, worlds, events, 1);
    StepGains(rules, worlds[0], events[0]);
    var later, rest := worlds[1..], events[1..];
    HistoryTail(rules, worlds, events);
    forall i | 0 <= i < n - 1 ensures rest[i] != DispatchPass {
      StaysOff(rules, later, rest, i);
      RunKept(rules, later, rest, i);
      assert SteppedAt(rules, later, rest, i);
    }
    CompactionClear(rules, later, rest, worlds[0].h.calls, n - 1);
  }

  /** The end of another compaction is what breaks it: with two in flight, as soon as one ends and somebody can
      be dispatched, the next pass puts a process on a CPU that the other compaction does not wait for. */
  lemma EndOfAnother(rules: Rules, w: World, call: nat, other: nat)
    requires Kept(rules, w) && call in w.h.compactions && other in w.h.compactions && call != other
    requires Covered(w, call) && AllCame(w.h, other) && CanDispatch(w.s)
    ensures Enabled(w, CompactionEnd(other)) && Kept(rules, EndCompaction(w, other))
    ensures Enabled(EndCompaction(w, other), DispatchPass)
    ensures var w' := Pass(rules, EndCompaction(w, other));
      call in w'.h.compactions && !Covered(w', call)
  {
    hide Good, CanDispatch, Flat, FreeList, DispatchAll, Preempted, Holder;
    var on := EndCompaction(w, other);
    QuietGood(rules, w, on);
    assert Covered(on, call);
    CanDispatchStill(w.s, on.s);
    PassCovered(rules, on, call);
  }

  lemma CanDispatchStill(s: Sched, s': Sched)
    requires s' == s.(canSchedule := s'.canSchedule)
    ensures CanDispatch(s') == CanDispatch(s)
  {
  }

  /** Two compactions are in flight, a process is ready and a CPU is free. */
  function TwoCompactions(): World {
    var ready := Process(Ready, 0, 0, None, [], false, 0, 0);
    World(Sched([ready], Lists([[0]], [], []), [], [CpuInfo(true, false)], [], false, 0),
          History(map[], {}, {}, map[], [], [], [], 2, {0, 1}))
  }

  lemma TwoCompactionsBreak()
    ensures Kept(FIFO_RULES, TwoCompactions()) && Covered(TwoCompactions(), 0)
    ensures AllCame(TwoCompactions().h, 1) && CanDispatch(TwoCompactions().s)
    ensures Kept(FIFO_RULES, EndCompaction(TwoCompactions(), 1))
    ensures var w' := Pass(FIFO_RULES, EndCompaction(TwoCompactions(), 1));
      0 in w'.h.compactions && !Covered(w', 0)
  {
    var w := TwoCompactions();
    TwoCompactionsKept();
    assert w.s.cpus[..0] == [] && [[0]][1..] == [];
    assert 0 in FreeList(w.s.cpus);
    EndOfAnother(FIFO_RULES, w, 0, 1);
  }

  lemma TwoCompactionsKept()
    ensures Kept(FIFO_RULES, TwoCompactions())
  {
    var w := TwoCompactions();
    forall at | Real(w.s.lists, at) ensures HoldsExactly(FIFO_RULES, w.s.procs, w.s.lists, at, None) {
      if at.InReady? {
        assert at.level == 0 && w.s.lists.ready[0] == [0];
      }
    }
    assert OwnedKept(w.s, 0) by {
      assert forall m: nat :: !Owns(w.s, 0, m);
    }
  }
}
