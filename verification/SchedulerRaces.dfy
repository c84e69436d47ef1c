/**
 A run the Kernel Scheduler must get right: the answer to a memory request racing with an eviction
 (kernel_scheduler/src/managers/memory_manager.c, kernel_scheduler/src/utils.c).
*/
module SchedulerRaces {
  import opened Base
  import opened SchedulerState
  import opened SchedulerSteps
  import opened SchedulerLists
  import opened SchedulerRuns
  import opened SchedulerCpus
  import opened SchedulerMutexes
  import opened SchedulerDispatch
  import opened SchedulerSafety
  import opened SchedulerTheorems

  // ---------- what can happen to an executing process ----------

  /** The steps that change the state, the CPU or the open request of an executing process. */
  predicate Acts(s: Sched, ev: Event, p: nat)
    requires p < |s.procs|
  {
    match ev
    case MemorySyscall(q) => q == p
    case SegmentDone(q, _) => q == p
    case ProcessEnd(q) => q == p
    case MutexLock(q, _) => q == p
    case IoStart(q) => q == p
    case Evicted(c) => s.procs[p].cpu == Some(c)
    case EvictedByAll(c) => s.procs[p].cpu == Some(c)
    case _ => false
  }

  ghost predicate SamePhase(s: Sched, s': Sched, p: nat) {
    && p < |s.procs| && p < |s'.procs|
    && s'.procs[p].state == s.procs[p].state && s'.procs[p].cpu == s.procs[p].cpu
    && s'.procs[p].pending == s.procs[p].pending
  }

  lemma PassLeaves(rules: Rules, w: World, p: nat)
    requires Kept(rules, w) && p < |w.s.procs| && w.s.procs[p].state == Exec
    ensures SamePhase(w.s, Pass(rules, w).s, p)
  {
    hide Agree, Flat, FreeList, DispatchAll, Preempted, Holder, Good;
    GoodListed(rules, w);
    PassExact(rules, w.s);
    var flat, free := Flat(w.s.lists.ready), FreeList(w.s.cpus);
    var k := if |flat| < |free| then |flat| else |free|;
    if p in flat[..k] {
      var i :| 0 <= i < k && flat[..k][i] == p;
      FlatReady(rules, w.s, i);
      assert false;
    }
  }

  lemma FlatReady(rules: Rules, s: Sched, i: nat)
    requires Listed(rules, s) && i < |Flat(s.lists.ready)|
    ensures var p := Flat(s.lists.ready)[i]; p < |s.procs| && s.procs[p].state == Ready
  {
    hide Flat;
    var l, j := FlatFrom(s.lists.ready, i);
    assert s.lists.ready[l][j] in ListAt(s.lists, InReady(l));
    ListExact(rules, s, InReady(l), s.lists.ready[l][j]);
  }

  lemma LockLeaves(rules: Rules, w: World, q: nat, m: nat, p: nat)
    requires Kept(rules, w) && Runs(w.s, q) && m < |w.s.mutexes| && p < |w.s.procs| && p != q
    ensures SamePhase(w.s, Lock(rules, w.s, q, m), p)
  {
    hide Agree, CpusKept, SuspKept, WaitsKept, OwnersKept, UrgencyKept, GrantsKept, BlockProcess, Inherit;
    MutexFacts(rules, w, m);
    var mx := w.s.mutexes[m];
    if mx.locked && mx.owner != Some(q) {
      LockEffect(rules, w.s, q, m, mx.owner.value);
    }
  }

  lemma SweepLeaves(rules: Rules, s: Sched, p: nat)
    requires p < |s.procs| && s.procs[p].state == Exec
    ensures SamePhase(s, Sweep(rules, s), p)
  {
    hide Overdue, Mark;
    var late := Overdue(rules, s, s.lists.block, true);
    assert !Expired(rules, s, p);
  }

  lemma AsleepStates(w: World, q: nat)
    requires SuspKept(w) && (q in w.h.swapping || q in w.s.susp)
    ensures q < |w.s.procs| && Asleep(w.s.procs[q])
  {
  }

  lemma IoStates(w: World, q: nat)
    requires WaitsKept(w) && q in w.h.io
    ensures q < |w.s.procs| && Blocked(w.s.procs[q])
  {
  }

  /** Steps made of several parts. */
  predicate Composite(ev: Event) {
    ev.DispatchPass? || ev.CompactionBegin? || ev.Evicted? || ev.EvictedByAll? || ev.SegmentDone? || ev.MutexLock?
    || ev.MutexUnlock? || ev.SuspensionSweep?
  }

  lemma CompositeLeaves(rules: Rules, w: World, ev: Event, p: nat)
    requires Kept(rules, w) && Enabled(w, ev) && p < |w.s.procs| && w.s.procs[p].state == Exec && !Acts(w.s, ev, p)
    requires Composite(ev)
    ensures SamePhase(w.s, Step(rules, w, ev).s, p)
  {
    hide Good, Pass, BeginCompaction, Sweep, Confirm, ConfirmAll, SegmentResult, Lock, Unlock, Holder;
    match ev
    case DispatchPass => PassLeaves(rules, w, p);
    case CompactionBegin => GoodListed(rules, w); ExecKnown(rules, w.s); BeginGood(rules, w);
    case Evicted(c) => ConfirmEffect(rules, w.s, c, false);
    case EvictedByAll(c) => ConfirmEffect(rules, w.s, c, true);
    case SegmentDone(q, ok) => PendingRuns(rules, w, q); SegmentResultEffect(rules, w.s, q, ok);
    case MutexLock(q, m) => MutexFacts(rules, w, m); LockLeaves(rules, w, q, m, p);
    case MutexUnlock(q, m) => MutexFacts(rules, w, m); UnlockLeaves(rules, w, q, m, p);
    case SuspensionSweep => SweepLeaves(rules, w.s, p);
    case _ =>
  }

  /** Nothing else touches an executing process. */
  lemma StepLeaves(rules: Rules, w: World, ev: Event, p: nat)
    requires Kept(rules, w) && Enabled(w, ev) && p < |w.s.procs| && w.s.procs[p].state == Exec && !Acts(w.s, ev, p)
    ensures SamePhase(w.s, Step(rules, w, ev).s, p)
  {
    hide Agree, CpusKept, SuspKept, WaitsKept, OwnersKept, UrgencyKept, GrantsKept;
    hide Pass, BeginCompaction, Sweep, Wake, Confirm, ConfirmAll, SegmentResult, LockStep, UnlockStep, FindMutex;
    hide Holder, Put, Take;
    if Composite(ev) {
      CompositeLeaves(rules, w, ev, p);
    } else {
      match ev
      case IoDone(q) => IoStates(w, q); WakeEffect(rules, w.s, q);
      case SwapOutDone(q, ok) => AsleepStates(w, q);
      case SwapInDone(q) => AsleepStates(w, q);
      case _ =>
    }
  }

  lemma PendingRuns(rules: Rules, w: World, q: nat)
    requires Kept(rules, w) && q < |w.s.procs| && w.s.procs[q].pending
    ensures w.s.procs[q].state == Exec
  {
    assert CpuKept(w.s, q);
  }

  lemma UnlockLeaves(rules: Rules, w: World, q: nat, m: nat, p: nat)
    requires Kept(rules, w) && Runs(w.s, q) && m < |w.s.mutexes| && p < |w.s.procs| && w.s.procs[p].state == Exec
    requires w.s.mutexes[m].waiting != [] ==> w.s.mutexes[m].waiting[0] < |w.s.procs|
    ensures SamePhase(w.s, Unlock(rules, w.s, q, m), p)
  {
    hide Agree, CpusKept, SuspKept, WaitsKept, OwnersKept, UrgencyKept, GrantsKept, Unlock;
    MutexFacts(rules, w, m);
    if w.s.mutexes[m].owner == Some(q) {
      UnlockStates(rules, w.s, q, m);
    } else {
      UnlockForeign(rules, w.s, q, m);
    }
  }

  // ---------- the answer to a memory request and an eviction ----------

  /** The three phases of a process whose successful memory request is under way. */
  datatype Phase = Waiting(cpu: nat) | Detached | Answered(cpu: nat)

  ghost predicate In(s: Sched, p: nat, phase: Phase) {
    && p < |s.procs| && s.procs[p].state == Exec
    && match phase
       case Waiting(c) => s.procs[p].cpu == Some(c) && s.procs[p].pending
       case Detached => s.procs[p].cpu == None && s.procs[p].pending
       case Answered(c) => s.procs[p].cpu == Some(c) && !s.procs[p].pending
  }

  /** What the answer and the confirmation do in each phase: the first of them changes the phase, the second
      makes the process ready. */
  lemma PhaseStep(rules: Rules, w: World, ev: Event, p: nat, c: nat)
    requires Kept(rules, w) && Enabled(w, ev)
    requires ev == SegmentDone(p, true) || ev == Evicted(c) || ev == EvictedByAll(c)
    ensures var s' := Step(rules, w, ev).s;
      && (In(w.s, p, Waiting(c)) ==> In(s', p, if ev.SegmentDone? then Answered(c) else Detached))
      && ((In(w.s, p, Detached) && ev.SegmentDone?) || (In(w.s, p, Answered(c)) && !ev.SegmentDone?) ==>
           p < |s'.procs| && s'.procs[p].state == Ready && s'.procs[p].cpu == None && !s'.procs[p].pending)
  {
    hide Agree, SuspKept, WaitsKept, OwnersKept, UrgencyKept, GrantsKept, Confirm, ConfirmAll, SegmentResult, Holder;
    if ev.SegmentDone? {
      PendingRuns(rules, w, p);
      SegmentResultEffect(rules, w.s, p, true);
    } else {
      ConfirmEffect(rules, w.s, c, ev.EvictedByAll?);
      if p < |w.s.procs| && w.s.procs[p].cpu == Some(c) {
        HolderUnique(w, c, p);
      }
    }
  }

  ghost predicate ConfirmsCpu(ev: Event, c: nat) {
    ev == Evicted(c) || ev == EvictedByAll(c)
  }

  /** A step that is about the process or the CPU of the race. */
  ghost predicate Involves(ev: Event, p: nat, c: nat) {
    match ev
    case MemorySyscall(q) => q == p
    case SegmentDone(q, _) => q == p
    case ProcessEnd(q) => q == p
    case MutexLock(q, _) => q == p
    case IoStart(q) => q == p
    case Evicted(d) => d == c
    case EvictedByAll(d) => d == c
    case _ => false
  }

  /** The phase before step `t` of a race whose answer comes at step `i` and whose confirmation at step `j`. */
  function PhaseAt(c: nat, i: nat, j: nat, t: nat): Phase {
    if t <= i && t <= j then Waiting(c) else if t > i then Answered(c) else Detached
  }

  lemma RaceFromWaiting(rules: Rules, worlds: seq<World>, events: seq<Event>, p: nat, c: nat, i: nat, j: nat)
    requires IsHistory(rules, worlds, events) && Kept(rules, worlds[0]) && In(worlds[0].s, p, Waiting(c))
    requires i < |events| && j < |events| && events[i] == SegmentDone(p, true) && ConfirmsCpu(events[j], c)
    requires |events| == (if i < j then j else i) + 1
    requires forall t | 0 <= t < |events| && t != i && t != j :: !Involves(events[t], p, c)
    ensures forall t | 0 <= t < |events| :: In(worlds[t].s, p, PhaseAt(c, i, j, t))
    ensures var s' := worlds[|events|].s;
      && p < |s'.procs| && s'.procs[p].state == Ready && s'.procs[p].cpu == None && !s'.procs[p].pending
      && Level(rules, s'.procs[p].eff) < |s'.lists.ready| && p in s'.lists.ready[Level(rules, s'.procs[p].eff)]
  {
    hide Kept, Enabled, Step, In, PhaseAt;
    forall t | 0 <= t < |events| ensures In(worlds[t].s, p, PhaseAt(c, i, j, t)) {
      RacePhase(rules, worlds, events, p, c, i, j, t);
    }
    var n := |events| - 1;
    RunKept(rules, worlds, events, n);
    RunKept(rules, worlds, events, n + 1);
    assert SteppedAt(rules, worlds, events, n);
    LastPhase(c, i, j);
    PhaseStep(rules, worlds[n], events[n], p, c);
    ReadyListed(rules, worlds[n + 1], p);
  }

  /** A process asks for memory, and its CPU is evicted - for whatever reason, even the compaction that the
      request itself causes. Whichever of the successful answer and the confirmation comes first, and whatever
      else happens in between, it executes from its request until the later of the two, and becomes ready at
      that very step. Being ready, it stands in exactly one queue, once. */
  lemma RaceReadyOnce(rules: Rules, worlds: seq<World>, events: seq<Event>, p: nat, c: nat, i: nat, j: nat)
    requires IsHistory(rules, worlds, events) && Kept(rules, worlds[0]) && events != []
    requires events[0] == MemorySyscall(p) && p < |worlds[0].s.procs| && worlds[0].s.procs[p].cpu == Some(c)
    requires i < |events| && j < |events| && events[i] == SegmentDone(p, true) && ConfirmsCpu(events[j], c)
    requires |events| == (if i < j then j else i) + 1
    requires forall t | 0 < t < |events| && t != i && t != j :: !Involves(events[t], p, c)
    ensures forall t | 0 < t < |events| :: In(worlds[t].s, p, PhaseAt(c, i, j, t))
    ensures var s' := worlds[|events|].s;
      && p < |s'.procs| && s'.procs[p].state == Ready && s'.procs[p].cpu == None && !s'.procs[p].pending
      && Level(rules, s'.procs[p].eff) < |s'.lists.ready| && p in s'.lists.ready[Level(rules, s'.procs[p].eff)]
  {
    hide Kept, Enabled, Step, In, PhaseAt;
    assert SteppedAt(rules, worlds, events, 0);
    RunKept(rules, worlds, events, 1);
    SyscallWaits(rules, worlds[0], p, c);
    var (later, rest) := (worlds[1..], events[1..]);
    HistoryTail(rules, worlds, events);
    RaceFromWaiting(rules, later, rest, p, c, i - 1, j - 1);
    forall t | 0 < t < |events| ensures In(worlds[t].s, p, PhaseAt(c, i, j, t)) {
      assert In(later[t - 1].s, p, PhaseAt(c, i - 1, j - 1, t - 1));
      PhaseLater(c, i, j, t);
    }
  }

  lemma PhaseLater(c: nat, i: nat, j: nat, t: nat)
    requires 0 < i && 0 < j && 0 < t
    ensures PhaseAt(c, i, j, t) == PhaseAt(c, i - 1, j - 1, t - 1)
  {
  }

  /** A process that asks for memory waits for the answer from then on, on the CPU it has; nothing else changes. */
  lemma SyscallWaits(rules: Rules, w: World, p: nat, c: nat)
    requires Kept(rules, w) && Enabled(w, MemorySyscall(p)) && w.s.procs[p].cpu == Some(c)
    ensures var w' := Step(rules, w, MemorySyscall(p));
      && In(w'.s, p, Waiting(c)) && w'.h == w.h && w'.s == w.s.(procs := w'.s.procs)
      && w'.s.procs == w.s.procs[p := w.s.procs[p].(pending := true)]
  {
  }

  lemma LastPhase(c: nat, i: nat, j: nat)
    requires i != j
    ensures PhaseAt(c, i, j, if i < j then j else i) == if i < j then Answered(c) else Detached
  {
  }

  lemma ReadyListed(rules: Rules, w: World, p: nat)
    requires Kept(rules, w) && p < |w.s.procs| && w.s.procs[p].state == Ready
    ensures Level(rules, w.s.procs[p].eff) < |w.s.lists.ready|
    ensures p in w.s.lists.ready[Level(rules, w.s.procs[p].eff)]
  {
    hide CpusKept, SuspKept, WaitsKept, OwnersKept, UrgencyKept, GrantsKept;
    StatesMatchLists(rules, w, p);
  }

  lemma {:induction false} RacePhase(
    rules: Rules, worlds: seq<World>, events: seq<Event>, p: nat, c: nat, i: nat, j: nat, t: nat)
    requires IsHistory(rules, worlds, events) && Kept(rules, worlds[0]) && In(worlds[0].s, p, Waiting(c))
    requires i < |events| && j < |events| && events[i] == SegmentDone(p, true) && ConfirmsCpu(events[j], c)
    requires |events| == (if i < j then j else i) + 1 && t < |events|
    requires forall t | 0 <= t < |events| && t != i && t != j :: !Involves(events[t], p, c)
    ensures In(worlds[t].s, p, PhaseAt(c, i, j, t))
  {
    hide Kept, Enabled, Step, In, Involves;
    if t > 0 {
      RacePhase(rules, worlds, events, p, c, i, j, t - 1);
      RunKept(rules, worlds, events, t - 1);
      assert SteppedAt(rules, worlds, events, t - 1);
      if t - 1 == i || t - 1 == j {
        PhaseStep(rules, worlds[t - 1], events[t - 1], p, c);
      } else {
        PhaseStays(rules, worlds[t - 1], events[t - 1], p, c, PhaseAt(c, i, j, t - 1));
      }
    }
  }

  lemma PhaseStays(rules: Rules, w: World, ev: Event, p: nat, c: nat, phase: Phase)
    requires Kept(rules, w) && Enabled(w, ev) && In(w.s, p, phase) && !Involves(ev, p, c)
    requires !phase.Detached? ==> phase.cpu == c
    ensures In(Step(rules, w, ev).s, p, phase)
  {
    hide Kept, Enabled, Step;
    StepLeaves(rules, w, ev, p);
  }
}
