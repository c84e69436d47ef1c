/**
 The scheduler and the CPUs together: what the theorems on compaction give the CPUs.
*/
module SchedulerPreemption {
  import SchedulerState
  import SchedulerRuns
  import SchedulerSafety
  import SchedulerTheorems
  import SchedulerCompaction
  import SegmentStore
  import StoreRuns
  import Preemption

  /** What is loaded on a CPU is, for the scheduler, on a CPU. */
  ghost predicate Matches(sys: Preemption.System, s: SchedulerState.Sched) {
    forall q | q in sys.loaded :: q < |s.procs| && s.procs[q].cpu.Some?
  }

  /** In a run of the scheduler from the beginning of a compaction, under the exact condition that its eviction
      waits for everybody, and until some compaction ends: once its confirmations have come, Kernel Memory may
      compact, and by the theorems on preemption no program notices. */
  lemma CompactionMayRun(
    rules: SchedulerState.Rules, worlds: seq<SchedulerRuns.World>, events: seq<SchedulerRuns.Event>, n: nat,
    set': Preemption.Setting, sys: Preemption.System, p: nat)
    requires SchedulerTheorems.IsHistory(rules, worlds, events) && SchedulerSafety.Kept(rules, worlds[0])
    requires 0 < n <= |events| && events[0] == SchedulerRuns.CompactionBegin
    requires forall p | 0 <= p < |worlds[0].s.procs| && worlds[0].s.procs[p].cpu.Some?
      && worlds[0].s.procs[p].cpu.value < |worlds[0].s.cpus| ::
        !worlds[0].s.cpus[worlds[0].s.procs[p].cpu.value].evicting
    requires forall i | 0 < i < n :: !events[i].CompactionEnd?
    requires SchedulerRuns.AllCame(worlds[n].h, worlds[0].h.calls)
    requires Preemption.Ready(set', sys) && Matches(sys, worlds[n].s) && p in sys.contexts
    ensures Preemption.Enabled(set', sys, Preemption.Memory(StoreRuns.CompactMemory))
    ensures var sys' := Preemption.Fire(set', sys, Preemption.Memory(StoreRuns.CompactMemory));
      && Preemption.Ready(set', sys') && p in sys'.contexts
      && Preemption.Observed(set', sys', p) == Preemption.Observed(set', sys, p)
  {
    hide Preemption.Ready, Preemption.Fire, Preemption.Observed, SchedulerSafety.Kept, SchedulerRuns.AllCame;
    SchedulerCompaction.CompactionSafe(rules, worlds, events, n);
    assert sys.loaded == map[];
    var ev := Preemption.Memory(StoreRuns.CompactMemory);
    Preemption.FireReady(set', sys, ev);
    Preemption.FireInvisible(set', sys, ev, p);
  }
}
