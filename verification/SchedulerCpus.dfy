/**
 CPUs, eviction orders and waiting lists after every handler: nobody is lost, nobody runs twice.
*/
module SchedulerCpus {
  import opened Base
  import opened SchedulerState
  import opened SchedulerSteps
  import opened SchedulerLists
  import opened SchedulerRuns

  // ---------- steps that concern neither CPUs nor waiting ----------

  lemma CpusFrame(w: World, w': World)
    requires CpusKept(w) && |w.s.procs| <= |w'.s.procs|
    requires forall p | 0 <= p < |w.s.procs| ::
      var (pr, pr') := (w.s.procs[p], w'.s.procs[p]);
      pr'.cpu == pr.cpu && pr'.pending == pr.pending && (pr'.state == Exec <==> pr.state == Exec)
    requires forall p | |w.s.procs| <= p < |w'.s.procs| ::
      var pr := w'.s.procs[p]; pr.cpu.None? && !pr.pending && pr.state != Exec
    requires w'.s.cpus == w.s.cpus && w'.h.orders == w.h.orders
    requires w.h.calls <= w'.h.calls && w'.h.compactions <= w.h.compactions
    ensures CpusKept(w')
  {
    forall p | 0 <= p < |w'.s.procs| ensures CpuKept(w'.s, p) {
      assert p < |w.s.procs| ==> CpuKept(w.s, p);
    }
    forall c | c in w'.h.orders ensures OrderKept(w', c) {
      assert OrderKept(w, c);
    }
    forall c | 0 <= c < |w'.s.cpus| ensures IdleKept(w'.s, c) {
      assert c < |w.s.cpus| ==> IdleKept(w.s, c);
    }
  }

  lemma SuspFrame(w: World, w': World)
    requires SuspKept(w) && |w.s.procs| <= |w'.s.procs|
    requires forall p | 0 <= p < |w.s.procs| :: Asleep(w'.s.procs[p]) <==> Asleep(w.s.procs[p])
    requires forall p | |w.s.procs| <= p < |w'.s.procs| :: !Asleep(w'.s.procs[p])
    requires w'.s.susp == w.s.susp && w'.h.swapping == w.h.swapping
    ensures SuspKept(w')
  {
    hide Asleep;
  }

  lemma WaitsFrame(w: World, w': World)
    requires WaitsKept(w) && |w.s.procs| <= |w'.s.procs|
    requires forall p | 0 <= p < |w.s.procs| :: Blocked(w'.s.procs[p]) <==> Blocked(w.s.procs[p])
    requires forall p | |w.s.procs| <= p < |w'.s.procs| :: !Blocked(w'.s.procs[p])
    requires w'.s.mutexes == w.s.mutexes && w'.h.waitsOn == w.h.waitsOn && w'.h.io == w.h.io
    ensures WaitsKept(w')
  {
    hide Blocked;
    forall m | 0 <= m < |w'.s.mutexes| ensures WaitersKept(w', m) {
      assert WaitersKept(w, m);
    }
  }

  lemma OwnersFrame(s: Sched, s': Sched)
    requires OwnersKept(s) && |s.procs| <= |s'.procs|
    requires forall p | 0 <= p < |s.procs| :: s'.procs[p].owned == s.procs[p].owned
    requires forall p | |s.procs| <= p < |s'.procs| :: s'.procs[p].owned == []
    requires s'.mutexes == s.mutexes
    ensures OwnersKept(s')
  {
    forall m | 0 <= m < |s'.mutexes| ensures MutexKept(s', m) {
      assert MutexKept(s, m);
    }
    forall p | 0 <= p < |s'.procs| ensures OwnedKept(s', p) {
      if p < |s.procs| {
        assert OwnedKept(s, p);
        assert forall m: nat :: Owns(s', p, m) == Owns(s, p, m);
      } else {
        forall m: nat ensures !Owns(s', p, m) {
          if m < |s.mutexes| {
            assert MutexKept(s, m);
          }
        }
      }
    }
  }

  lemma UrgencyFrame(rules: Rules, w: World, w': World)
    requires UrgencyKept(rules, w) && |w.s.procs| <= |w'.s.procs|
    requires forall p | 0 <= p < |w.s.procs| ::
      w'.s.procs[p].eff == w.s.procs[p].eff && w'.s.procs[p].base == w.s.procs[p].base
    requires forall p | |w.s.procs| <= p < |w'.s.procs| :: w'.s.procs[p].eff == w'.s.procs[p].base
    requires w'.s.mutexes == w.s.mutexes && w'.h.arrivals == w.h.arrivals
    requires forall m | 0 <= m < |w.s.mutexes| ::
        w.s.mutexes[m].owner.Some? ==> w.s.mutexes[m].owner.value < |w.s.procs|
    ensures UrgencyKept(rules, w')
  {
    forall p | 0 <= p < |w'.s.procs| ensures FloorKept(rules, w'.s, p) {
      if p < |w.s.procs| {
        assert FloorKept(rules, w.s, p);
        PressedStill(w.s, w'.s, p, w.s.procs[p].eff);
      }
    }
    forall m | 0 <= m < |w'.s.mutexes| ensures CeilingKept(rules, w', m) {
      assert CeilingKept(rules, w, m);
    }
  }

  lemma PressedStill(s: Sched, s': Sched, p: nat, prio: byte)
    requires |s.procs| <= |s'.procs| && s'.mutexes == s.mutexes
    requires forall q | 0 <= q < |s.procs| :: s'.procs[q].eff <= s.procs[q].eff
    ensures Pressed(s, p, prio) ==> Pressed(s', p, prio)
  {
    if Pressed(s, p, prio) {
      var m, q :| 0 <= m < |s.mutexes| && 0 <= q < |s.procs| &&
        s.mutexes[m].owner == Some(p) && q in s.mutexes[m].waiting && s.procs[q].eff <= prio;
      assert s'.procs[q].eff <= prio;
    }
  }

  /** One process changes; what it owns and its priorities do not, nor do the mutexes. */
  lemma MutexesFrame(rules: Rules, w: World, w': World, p: nat)
    requires Good(rules, w) && p < |w.s.procs|
    requires |w'.s.procs| == |w.s.procs| && w'.s.procs == w.s.procs[p := w'.s.procs[p]]
    requires w'.s.procs[p].owned == w.s.procs[p].owned
    requires w'.s.procs[p].eff == w.s.procs[p].eff && w'.s.procs[p].base == w.s.procs[p].base
    requires w'.s.mutexes == w.s.mutexes && w'.h.arrivals == w.h.arrivals
    requires w'.h.arrived == w.h.arrived && w'.h.granted == w.h.granted
    ensures OwnersKept(w'.s) && UrgencyKept(rules, w') && GrantsKept(w')
  {
    hide Agree, CpusKept, SuspKept, WaitsKept, FloorKept, CeilingKept;
    forall m | 0 <= m < |w.s.mutexes| ensures w.s.mutexes[m].owner.Some? ==> w.s.mutexes[m].owner.value < |w.s.procs| {
      assert MutexKept(w.s, m);
    }
    OwnersFrame(w.s, w'.s);
    UrgencyFrame(rules, w, w');
  }

  // ---------- CPUs ----------

  lemma HolderUnique(w: World, c: nat, p: nat)
    requires CpusKept(w) && p < |w.s.procs| && w.s.procs[p].cpu == Some(c)
    ensures Holder(w.s.procs, c) == Some(p)
  {
  }

  lemma HeldBy(procs: seq<Process>, p: nat, c: nat)
    requires p < |procs| && procs[p].cpu == Some(c)
    ensures Holder(procs, c).Some?
  {
  }

  /** One process changes its state or its CPU; availability changes at most for that CPU. */
  ghost predicate CpuMove(w: World, w': World, p: nat) {
    && p < |w.s.procs| == |w'.s.procs| && w'.s.procs == w.s.procs[p := w'.s.procs[p]]
    && |w'.s.cpus| == |w.s.cpus| && w'.h.orders == w.h.orders
    && w'.h.calls == w.h.calls && w'.h.compactions == w.h.compactions
    && (forall c | 0 <= c < |w.s.cpus| :: w'.s.cpus[c].evicting == w.s.cpus[c].evicting)
    && (forall c | 0 <= c < |w.s.cpus| && w.s.procs[p].cpu != Some(c) && w'.s.procs[p].cpu != Some(c) ::
         w'.s.cpus[c].available == w.s.cpus[c].available)
  }

  /** A process that gives its CPU up, or had none, and takes none. */
  lemma CpuGivenUp(w: World, w': World, p: nat)
    requires CpusKept(w) && CpuMove(w, w', p)
    requires w'.s.procs[p].cpu.None?
    requires w'.s.procs[p].pending ==> w'.s.procs[p].state == Exec
    requires w'.s.procs[p].state == Exec ==> w'.s.procs[p].pending
    requires w.s.procs[p].cpu.Some? && w.s.procs[p].cpu.value < |w.s.cpus| ==>
      var cpu := w'.s.cpus[w.s.procs[p].cpu.value]; cpu.available || cpu.evicting
    ensures CpusKept(w')
  {
    forall q | 0 <= q < |w'.s.procs| ensures CpuKept(w'.s, q) {
      assert CpuKept(w.s, q);
      assert CpuKept(w.s, p);
    }
    forall c | c in w'.h.orders ensures OrderKept(w', c) {
      assert OrderKept(w, c);
    }
    forall c | 0 <= c < |w'.s.cpus| ensures IdleKept(w'.s, c) {
      assert IdleKept(w.s, c);
      var holder := Holder(w.s.procs, c);
      if holder.Some? && holder.value != p {
        HeldBy(w'.s.procs, holder.value, c);
      }
    }
  }

  lemma DispatchCpus(rules: Rules, w: World, p: nat, c: nat)
    requires CpusKept(w) && p < |w.s.procs| && w.s.procs[p].state == Ready
    requires c < |w.s.cpus| && Free(w.s.cpus[c])
    ensures CpusKept(World(Dispatch(rules, w.s, p, c), w.h))
  {
    hide Take, Put;
    var w' := World(Dispatch(rules, w.s, p, c), w.h);
    forall q | 0 <= q < |w'.s.procs| ensures CpuKept(w'.s, q) {
      assert CpuKept(w.s, q);
    }
    forall d | d in w'.h.orders ensures OrderKept(w', d) {
      assert OrderKept(w, d);
    }
    forall q, r | 0 <= q < |w'.s.procs| && 0 <= r < |w'.s.procs| && w'.s.procs[q].cpu.Some?
        && w'.s.procs[q].cpu == w'.s.procs[r].cpu ensures q == r {
      assert CpuKept(w.s, q) && CpuKept(w.s, r);
    }
    forall d | 0 <= d < |w'.s.cpus| ensures IdleKept(w'.s, d) {
      assert IdleKept(w.s, d) && CpuKept(w.s, p);
      HeldBy(w'.s.procs, p, c);
      var holder := Holder(w.s.procs, d);
      if holder.Some? && holder.value != p {
        HeldBy(w'.s.procs, holder.value, d);
      }
    }
  }

  lemma OrderCpus(w: World, c: nat, caller: Option<nat>)
    requires CpusKept(w) && (caller.Some? ==> caller.value < w.h.calls)
    ensures CpusKept(OrderSent(w, c, caller))
  {
    var w' := OrderSent(w, c, caller);
    forall q | 0 <= q < |w'.s.procs| ensures CpuKept(w'.s, q) {
      assert CpuKept(w.s, q);
    }
    forall d | d in w'.h.orders ensures OrderKept(w', d) {
      if d in w.h.orders {
        assert OrderKept(w, d);
      } else {
        assert d == c;
        assert Holder(w.s.procs, c).Some?;
      }
    }
    forall c | 0 <= c < |w'.s.cpus| ensures IdleKept(w'.s, c) {
      assert c < |w.s.cpus| ==> IdleKept(w.s, c);
    }
  }

  /** A demoted process has left its CPU, and is ready unless its own memory request is open. */
  lemma DemoteEffect(rules: Rules, s: Sched, p: nat, first: bool)
    requires p < |s.procs|
    ensures var (s', pr) := (Demote(rules, s, p, first), s.procs[p]);
      && s'.procs == s.procs[p := pr.(cpu := None, state := if pr.pending then pr.state else Ready)]
      && s'.cpus == s.cpus && s'.susp == s.susp && s'.mutexes == s.mutexes
      && s'.canSchedule == s.canSchedule && s'.clock == s.clock
  {
    hide Take, Put, PutFirst;
  }

  /** What a confirmation does to a CPU and to the process that holds it. */
  lemma ConfirmEffect(rules: Rules, s: Sched, c: nat, all: bool)
    ensures var s' := if all then ConfirmAll(rules, s, c) else Confirm(rules, s, c);
      && (Holder(s.procs, c).None? ==> s'.procs == s.procs && s'.lists == s.lists)
      && (Holder(s.procs, c).Some? ==>
           var (p, pr) := (Holder(s.procs, c).value, s.procs[Holder(s.procs, c).value]);
           s'.procs == s.procs[p := pr.(cpu := None, state := if pr.pending then pr.state else Ready)])
      && s'.cpus == (if all && Holder(s.procs, c).None? then s.cpus else Settle(s, c).cpus)
      && s'.susp == s.susp && s'.mutexes == s.mutexes && s'.canSchedule == s.canSchedule && s'.clock == s.clock
  {
    hide Demote, Holder;
    if Holder(s.procs, c).Some? {
      DemoteEffect(rules, if all then s else Settle(s, c), Holder(s.procs, c).value, all);
    }
  }

  /** The CPU of a confirmed order: free again if a single order was confirmed, or if its process still
      held it; otherwise, after `evict_all_processes`, it stays marked as evicting. */
  lemma EvictedCpus(rules: Rules, w: World, c: nat, all: bool)
    requires CpusKept(w) && c in w.h.orders
    ensures var s' := if all then ConfirmAll(rules, w.s, c) else Confirm(rules, w.s, c);
      CpusKept(World(s', w.h.(orders := w.h.orders - {c})))
  {
    hide Confirm, ConfirmAll, Holder;
    ConfirmEffect(rules, w.s, c, all);
    var s' := if all then ConfirmAll(rules, w.s, c) else Confirm(rules, w.s, c);
    var w' := World(s', w.h.(orders := w.h.orders - {c}));
    assert OrderKept(w, c);
    forall q | 0 <= q < |s'.procs| ensures CpuKept(s', q) {
      assert CpuKept(w.s, q);
    }
    forall d | d in w'.h.orders ensures OrderKept(w', d) {
      assert OrderKept(w, d);
    }
    forall d | 0 <= d < |s'.cpus| ensures IdleKept(s', d) {
      assert IdleKept(w.s, d);
      EvictedHolder(w, s', c, d);
    }
  }

  /** Whoever holds another CPU still holds it. */
  lemma EvictedHolder(w: World, s': Sched, c: nat, d: nat)
    requires |s'.procs| == |w.s.procs|
    requires Holder(w.s.procs, c).None? ==> s'.procs == w.s.procs
    requires Holder(w.s.procs, c).Some? ==>
      forall q | 0 <= q < |w.s.procs| && q != Holder(w.s.procs, c).value :: s'.procs[q] == w.s.procs[q]
    ensures d != c && Holder(w.s.procs, d).Some? ==> Holder(s'.procs, d).Some?
    ensures d == c && Holder(w.s.procs, c).None? ==> Holder(s'.procs, d).None?
  {
  }

  // ---------- suspension ----------

  lemma SweepSusp(rules: Rules, w: World)
    requires SuspKept(w) && Listed(rules, w.s)
    ensures var late := Overdue(rules, w.s, w.s.lists.block, true);
      SuspKept(World(Sweep(rules, w.s), w.h.(swapping := w.h.swapping + ToSet(late))))
  {
    hide Agree, Overdue, Mark;
    var late := Overdue(rules, w.s, w.s.lists.block, true);
    var w' := World(Sweep(rules, w.s), w.h.(swapping := w.h.swapping + ToSet(late)));
    forall p: nat ensures p in w'.s.susp || p in w'.h.swapping <==> p < |w'.s.procs| && Asleep(w'.s.procs[p]) {
      assert p in late <==> p in w.s.lists.block && Expired(rules, w.s, p);
    }
  }

  lemma SwapOutSusp(rules: Rules, w: World, p: nat, ok: bool)
    requires SuspKept(w) && p in w.h.swapping
    ensures SuspKept(World(SwappedOut(rules, w.s, p, ok), w.h.(swapping := w.h.swapping - {p})))
  {
    hide Put;
  }

  lemma SwapInSusp(rules: Rules, w: World, p: nat)
    requires SuspKept(w) && p in w.s.susp
    ensures SuspKept(World(SwappedIn(rules, w.s, p), w.h))
  {
    hide Put;
    WithoutDistinct(w.s.susp, p);
  }
}
