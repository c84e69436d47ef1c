/**
 The suspension timeout over whole runs: nobody is suspended early.
*/
module SchedulerTimes {
  import opened Base
  import opened SchedulerState
  import opened SchedulerSteps
  import opened SchedulerLists
  import opened SchedulerRuns
  import opened SchedulerCpus
  import opened SchedulerMutexes
  import opened SchedulerDispatch
  import opened SchedulerSafety
  import opened SchedulerTheorems
  import opened SchedulerRaces

  /** A blocked process keeps the time at which it became blocked. */
  ghost predicate TimeKept(s: Sched, s': Sched, p: nat) {
    p < |s'.procs| && s'.procs[p].state == Block ==>
      || s'.procs[p].blockedSince == s.clock
      || (p < |s.procs| && s.procs[p].state == Block && s'.procs[p].blockedSince == s.procs[p].blockedSince)
  }

  lemma PassTimes(rules: Rules, w: World, p: nat)
    requires Kept(rules, w)
    ensures TimeKept(w.s, Pass(rules, w).s, p)
  {
    hide Agree, Flat, FreeList, DispatchAll, Preempted, Holder, Good;
    GoodListed(rules, w);
    PassExact(rules, w.s);
    var flat, free := Flat(w.s.lists.ready), FreeList(w.s.cpus);
    var k := if |flat| < |free| then |flat| else |free|;
    if p in flat[..k] {
      var i :| 0 <= i < k && flat[..k][i] == p;
    }
  }

  lemma LockTimes(rules: Rules, w: World, q: nat, m: nat, p: nat)
    requires Kept(rules, w) && Runs(w.s, q) && m < |w.s.mutexes|
    ensures TimeKept(w.s, Lock(rules, w.s, q, m), p)
  {
    hide Agree, CpusKept, SuspKept, WaitsKept, OwnersKept, UrgencyKept, GrantsKept, BlockProcess, Inherit;
    MutexFacts(rules, w, m);
    var mx := w.s.mutexes[m];
    if mx.locked && mx.owner != Some(q) {
      LockEffect(rules, w.s, q, m, mx.owner.value);
    }
  }

  lemma UnlockTimes(rules: Rules, w: World, q: nat, m: nat, p: nat)
    requires Kept(rules, w) && Runs(w.s, q) && m < |w.s.mutexes|
    requires w.s.mutexes[m].waiting != [] ==> w.s.mutexes[m].waiting[0] < |w.s.procs|
    ensures TimeKept(w.s, Unlock(rules, w.s, q, m), p)
  {
    hide Good, Unlock;
    if w.s.mutexes[m].owner == Some(q) {
      UnlockStates(rules, w.s, q, m);
    } else {
      UnlockForeign(rules, w.s, q, m);
    }
  }

  lemma SweepTimes(rules: Rules, s: Sched, p: nat)
    ensures TimeKept(s, Sweep(rules, s), p)
  {
    hide Overdue, Mark;
  }

  lemma CompositeTimes(rules: Rules, w: World, ev: Event, p: nat)
    requires Kept(rules, w) && Enabled(w, ev) && Composite(ev)
    ensures TimeKept(w.s, Step(rules, w, ev).s, p)
  {
    hide Good, Pass, BeginCompaction, Sweep, Confirm, ConfirmAll, SegmentResult, Lock, Unlock, Holder;
    match ev
    case DispatchPass => PassTimes(rules, w, p);
    case CompactionBegin => GoodListed(rules, w); ExecKnown(rules, w.s); BeginGood(rules, w);
    case Evicted(c) => ConfirmEffect(rules, w.s, c, false);
    case EvictedByAll(c) => ConfirmEffect(rules, w.s, c, true);
    case SegmentDone(q, ok) => PendingRuns(rules, w, q); SegmentResultEffect(rules, w.s, q, ok);
    case MutexLock(q, m) => MutexFacts(rules, w, m); LockTimes(rules, w, q, m, p);
    case MutexUnlock(q, m) => MutexFacts(rules, w, m); UnlockTimes(rules, w, q, m, p);
    case SuspensionSweep => SweepTimes(rules, w.s, p);
    case _ =>
  }

  lemma StepTimes(rules: Rules, w: World, ev: Event, p: nat)
    requires Kept(rules, w) && Enabled(w, ev)
    ensures TimeKept(w.s, Step(rules, w, ev).s, p)
  {
    hide Agree, CpusKept, SuspKept, WaitsKept, OwnersKept, UrgencyKept, GrantsKept;
    hide Pass, BeginCompaction, Sweep, Wake, Confirm, ConfirmAll, SegmentResult, LockStep, UnlockStep, FindMutex;
    hide Holder, Put, Take;
    if Composite(ev) {
      CompositeTimes(rules, w, ev, p);
    } else {
      match ev
      case IoDone(q) => IoStates(w, q); WakeEffect(rules, w.s, q);
      case SwapOutDone(q, ok) => AsleepStates(w, q);
      case SwapInDone(q) => AsleepStates(w, q);
      case _ =>
    }
  }

  /** Time passes by ticks only. */
  lemma StepClock(rules: Rules, w: World, ev: Event)
    requires Kept(rules, w) && Enabled(w, ev)
    ensures Step(rules, w, ev).s.clock == w.s.clock + if ev.Tick? then ev.time else 0
  {
    hide Agree, CpusKept, SuspKept, WaitsKept, OwnersKept, UrgencyKept, GrantsKept, Put, Take, Holder, Overdue;
    hide Mark, FindMutex;
    hide Pass, BeginCompaction, Confirm, ConfirmAll, Wake, Lock, Unlock, SegmentResult;
    match ev
    case DispatchPass => PassClock(rules, w);
    case CompactionBegin => ExecKnown(rules, w.s); BeginClock(w);
    case Evicted(c) => ConfirmEffect(rules, w.s, c, false);
    case EvictedByAll(c) => ConfirmEffect(rules, w.s, c, true);
    case SegmentDone(q, ok) => SegmentClock(rules, w.s, q, ok);
    case MutexLock(q, m) => MutexFacts(rules, w, m); LockClock(rules, w.s, q, m);
    case MutexUnlock(q, m) => MutexFacts(rules, w, m); UnlockClock(rules, w.s, q, m);
    case IoDone(q) => IoStates(w, q); WakeEffect(rules, w.s, q);
    case SwapOutDone(q, _) => AsleepStates(w, q);
    case SwapInDone(q) => AsleepStates(w, q);
    case _ =>
  }

  lemma SegmentClock(rules: Rules, s: Sched, p: nat, ok: bool)
    requires p < |s.procs|
    ensures SegmentResult(rules, s, p, ok).clock == s.clock
  {
    hide Put, Take;
  }

  lemma LockClock(rules: Rules, s: Sched, p: nat, m: nat)
    requires p < |s.procs| && m < |s.mutexes|
    ensures Lock(rules, s, p, m).clock == s.clock
  {
    hide Put, Take;
  }

  lemma UnlockClock(rules: Rules, s: Sched, p: nat, m: nat)
    requires p < |s.procs| && m < |s.mutexes|
    requires s.mutexes[m].waiting != [] ==> s.mutexes[m].waiting[0] < |s.procs|
    ensures Unlock(rules, s, p, m).clock == s.clock
  {
    hide Inherited, Put, Take;
  }

  lemma {:induction false} OrderEachClock(w: World, list: seq<nat>, call: nat)
    requires forall i | 0 <= i < |list| :: list[i] < |w.s.procs|
    ensures OrderEach(w, list, call).s.clock == w.s.clock
  {
    hide Holder;
    if list != [] {
      OrderEachClock(w, list[..|list| - 1], call);
    }
  }

  lemma BeginClock(w: World)
    requires forall i | 0 <= i < |w.s.lists.exec| :: w.s.lists.exec[i] < |w.s.procs|
    ensures BeginCompaction(w).s.clock == w.s.clock
  {
    hide OrderEach;
    var off := World(w.s.(canSchedule := false),
                     w.h.(calls := w.h.calls + 1, compactions := w.h.compactions + {w.h.calls}));
    OrderEachClock(off, w.s.lists.exec, w.h.calls);
  }

  lemma {:induction false} AllClock(rules: Rules, s: Sched)
    requires WellFormed(rules) && Listed(rules, s)
    ensures DispatchAll(rules, s).clock == s.clock
    decreases |Flat(s.lists.ready)|
  {
    hide Agree, Flat, FreeList, DispatchNext;
    if CanDispatch(s) {
      DispatchStep(rules, s);
      AllClock(rules, DispatchNext(rules, s));
    }
  }

  lemma PassClock(rules: Rules, w: World)
    requires Kept(rules, w)
    ensures Pass(rules, w).s.clock == w.s.clock
  {
    hide Agree, DispatchAll, Preempted, Holder;
    AllClock(rules, w.s);
  }

  // ---------- over a run ----------

  /** At every moment since `i`, what is blocked now has been blocked since the time it remembers. */
  ghost predicate Since(worlds: seq<World>, i: nat, n: nat, p: nat)
    requires i <= n < |worlds|
  {
    && worlds[i].s.clock <= worlds[n].s.clock
    && (p < |worlds[n].s.procs| && worlds[n].s.procs[p].state == Block
        && worlds[n].s.procs[p].blockedSince < worlds[i].s.clock ==>
          p < |worlds[i].s.procs| && worlds[i].s.procs[p].state == Block)
  }

  lemma {:induction false} BlockedSince(rules: Rules, worlds: seq<World>, events: seq<Event>, i: nat, n: nat, p: nat)
    requires IsHistory(rules, worlds, events) && Kept(rules, worlds[0]) && i <= n <= |events|
    ensures Since(worlds, i, n, p)
    decreases n
  {
    hide Kept, Enabled, Step;
    if i < n {
      BlockedSince(rules, worlds, events, i, n - 1, p);
      RunKept(rules, worlds, events, n - 1);
      assert SteppedAt(rules, worlds, events, n - 1);
      StepTimes(rules, worlds[n - 1], events[n - 1], p);
      StepClock(rules, worlds[n - 1], events[n - 1]);
    }
  }

  /** A sweep suspends a process only if it was blocked at every moment of the run that lies within the
      suspension timeout. */
  lemma NobodySuspendedEarly(rules: Rules, worlds: seq<World>, events: seq<Event>, i: nat, p: nat)
    requires IsHistory(rules, worlds, events) && Kept(rules, worlds[0]) && i <= |events|
    requires var s := worlds[|events|].s; p in Overdue(rules, s, s.lists.block, true)
    requires worlds[|events|].s.clock < worlds[i].s.clock + rules.suspensionTimeout
    ensures p < |worlds[i].s.procs| && worlds[i].s.procs[p].state == Block
  {
    BlockedSince(rules, worlds, events, i, |events|, p);
    assert Expired(rules, worlds[|events|].s, p);
  }
}
