/**
 Mutexes with priority inheritance: owners, waiting queues and priorities after every handler
 (kernel_scheduler/src/managers/mutex_manager.c).
*/
module SchedulerMutexes {
  import opened Base
  import opened SchedulerState
  import opened SchedulerSteps
  import opened SchedulerRuns

  // ---------- what the handlers change ----------

  /** The effect of an owner's boost. */
  function Boosted(rules: Rules, pr: Process, prio: byte): Process {
    if rules.algorithm == CMN && prio < pr.eff then pr.(eff := prio) else pr
  }

  lemma ReprioritizeEffect(rules: Rules, s: Sched, p: nat, prio: byte)
    requires p < |s.procs|
    ensures var s' := Reprioritize(rules, s, p, prio);
      s' == s.(procs := s.procs[p := s.procs[p].(eff := prio)], lists := s'.lists)
  {
    hide Take, Put;
  }

  /** `mutex_lock` of a mutex that another process owns. */
  lemma LockEffect(rules: Rules, s: Sched, p: nat, m: nat, o: nat)
    requires p < |s.procs| && m < |s.mutexes| && o < |s.procs| && o != p
    requires s.mutexes[m].locked && s.mutexes[m].owner == Some(o) && s.procs[p].cpu.Some?
    ensures var (s', mx) := (Lock(rules, s, p, m), s.mutexes[m]);
      && s'.procs == s.procs[p := s.procs[p].(state := Block, cpu := None, blockedSince := s.clock)]
                            [o := Boosted(rules, s.procs[o], s.procs[p].eff)]
      && s'.mutexes == s.mutexes[m := mx.(waiting := mx.waiting + [p])]
      && s'.cpus == SetAvailable(s, s.procs[p].cpu.value, true).cpus
      && s'.susp == s.susp && s'.canSchedule == s.canSchedule && s'.clock == s.clock
  {
    hide Take, Put, Reprioritize;
    var mx := s.mutexes[m];
    var s1 := BlockProcess(SetMutex(s, m, mx.(waiting := mx.waiting + [p])), p);
    assert s1.procs == s.procs[p := s.procs[p].(state := Block, cpu := None, blockedSince := s.clock)];
    ReprioritizeEffect(rules, s1, o, s1.procs[p].eff);
  }

  /** The first half of `mutex_unlock`. */
  lemma ReleaseEffect(rules: Rules, s: Sched, p: nat, m: nat)
    requires p < |s.procs|
    ensures var (s', pr) := (Release(rules, s, p, m), s.procs[p]);
      var owned := Without(pr.owned, m);
      var prio := Inherited(Update(s, p, pr.(owned := owned)), owned, pr.base);
      s' == s.(procs := s.procs[p := pr.(owned := owned, eff := if rules.algorithm == CMN then prio else pr.eff)],
               lists := s'.lists)
  {
    hide Reprioritize, Inherited, Without;
    var pr := s.procs[p];
    var s1 := Update(s, p, pr.(owned := Without(pr.owned, m)));
    ReprioritizeEffect(rules, s1, p, Inherited(s1, s1.procs[p].owned, pr.base));
  }

  function Woken(pr: Process): Process {
    pr.(state := if pr.state == SuspBlock then SuspReady else Ready)
  }

  lemma WakeEffect(rules: Rules, s: Sched, p: nat)
    requires p < |s.procs|
    ensures var s' := Wake(rules, s, p);
      s' == s.(procs := s.procs[p := Woken(s.procs[p])], lists := s'.lists)
  {
    hide Take, Put;
  }

  /** The second half of `mutex_unlock`. */
  lemma HandOverEffect(rules: Rules, s: Sched, m: nat)
    requires m < |s.mutexes| && s.mutexes[m].waiting != [] && s.mutexes[m].waiting[0] < |s.procs|
    ensures var (s', mx, next) := (HandOver(rules, s, m), s.mutexes[m], s.mutexes[m].waiting[0]);
      var pr := s.procs[next];
      s' == s.(procs := s.procs[next := Woken(pr.(owned := pr.owned + [m]))], lists := s'.lists,
               mutexes := s.mutexes[m := mx.(locked := true, owner := Some(next), waiting := mx.waiting[1..])])
  {
    hide Wake;
    var mx, next := s.mutexes[m], s.mutexes[m].waiting[0];
    var pr := s.procs[next];
    var s1 := SetMutex(s, m, mx.(locked := true, owner := Some(next), waiting := mx.waiting[1..]));
    WakeEffect(rules, Update(s1, next, pr.(owned := pr.owned + [m])), next);
  }

  // ---------- waiting ----------

  lemma IoStartWaits(w: World, p: nat, c: nat)
    requires WaitsKept(w) && Runs(w.s, p)
    ensures WaitsKept(World(StartIo(w.s, p, c), w.h.(io := w.h.io + {p})))
  {
    hide Take, Put;
    var w' := World(StartIo(w.s, p, c), w.h.(io := w.h.io + {p}));
    forall m | 0 <= m < |w'.s.mutexes| ensures WaitersKept(w', m) {
      assert WaitersKept(w, m);
    }
  }

  lemma IoDoneWaits(rules: Rules, w: World, p: nat)
    requires WaitsKept(w) && p in w.h.io
    ensures WaitsKept(World(Wake(rules, w.s, p), w.h.(io := w.h.io - {p})))
  {
    hide Wake;
    WakeEffect(rules, w.s, p);
    var w' := World(Wake(rules, w.s, p), w.h.(io := w.h.io - {p}));
    forall m | 0 <= m < |w'.s.mutexes| ensures WaitersKept(w', m) {
      assert WaitersKept(w, m);
    }
  }

  lemma LockWaits(rules: Rules, w: World, p: nat, m: nat, o: nat)
    requires WaitsKept(w) && Runs(w.s, p) && m < |w.s.mutexes| && m < |w.h.arrivals| && m < |w.h.arrived|
    requires w.s.mutexes[m].locked && w.s.mutexes[m].owner == Some(o) && o < |w.s.procs| && o != p
    ensures WaitsKept(LockStep(rules, w, p, m))
  {
    hide Lock;
    LockEffect(rules, w.s, p, m, o);
    var w' := LockStep(rules, w, p, m);
    forall n | 0 <= n < |w'.s.mutexes| ensures WaitersKept(w', n) {
      assert WaitersKept(w, n);
    }
  }

  lemma HandOverWaits(rules: Rules, w: World, m: nat)
    requires WaitsKept(w) && m < |w.s.mutexes| && w.s.mutexes[m].waiting != []
    requires m < |w.h.arrivals| && m < |w.h.granted| && w.h.arrivals[m] != []
    ensures w.s.mutexes[m].waiting[0] < |w.s.procs|
    ensures WaitsKept(World(HandOver(rules, w.s, m), Granted(w.h, w.s.mutexes[m].waiting[0], m)))
  {
    hide HandOver;
    var mx := w.s.mutexes[m];
    var next := mx.waiting[0];
    assert WaitersKept(w, m);
    assert next in mx.waiting;
    HandOverEffect(rules, w.s, m);
    var w' := World(HandOver(rules, w.s, m), Granted(w.h, next, m));
    assert mx.waiting == [next] + mx.waiting[1..];
    forall n | 0 <= n < |w'.s.mutexes| ensures WaitersKept(w', n) {
      assert WaitersKept(w, n);
    }
  }

  // ---------- owners ----------

  lemma AcquireOwners(s: Sched, p: nat, m: nat)
    requires OwnersKept(s) && p < |s.procs| && m < |s.mutexes| && !s.mutexes[m].locked
    ensures OwnersKept(Acquire(s, p, m))
  {
    var s' := Acquire(s, p, m);
    assert MutexKept(s, m);
    assert OwnedKept(s, p);
    assert !Owns(s, p, m);
    forall n | 0 <= n < |s'.mutexes| ensures MutexKept(s', n) {
      assert MutexKept(s, n);
    }
    forall q | 0 <= q < |s'.procs| ensures OwnedKept(s', q) {
      assert OwnedKept(s, q);
      assert forall n: nat :: Owns(s', q, n) <==> Owns(s, q, n) || (q == p && n == m);
    }
  }

  lemma LockOwners(rules: Rules, s: Sched, p: nat, m: nat, o: nat)
    requires OwnersKept(s) && Runs(s, p) && m < |s.mutexes|
    requires s.mutexes[m].locked && s.mutexes[m].owner == Some(o) && o < |s.procs| && o != p
    ensures OwnersKept(Lock(rules, s, p, m))
  {
    hide Lock;
    LockEffect(rules, s, p, m, o);
    var s' := Lock(rules, s, p, m);
    forall n | 0 <= n < |s'.mutexes| ensures MutexKept(s', n) {
      assert MutexKept(s, n);
    }
    forall q | 0 <= q < |s'.procs| ensures OwnedKept(s', q) {
      assert OwnedKept(s, q);
      assert forall n: nat :: Owns(s', q, n) <==> Owns(s, q, n);
    }
  }

  /** Both halves of an unlock at once: between them the mutex has an owner that does not list it. */
  lemma UnlockOwners(rules: Rules, s: Sched, p: nat, m: nat)
    requires OwnersKept(s) && p < |s.procs| && m < |s.mutexes| && s.mutexes[m].owner == Some(p)
    requires s.mutexes[m].waiting != [] ==> s.mutexes[m].waiting[0] < |s.procs|
    requires NoDuplicates(s.mutexes[m].waiting)
    ensures OwnersKept(Unlock(rules, s, p, m))
  {
    hide Release, HandOver, Inherited;
    assert MutexKept(s, m);
    var mx := s.mutexes[m];
    ReleaseEffect(rules, s, p, m);
    assert OwnedKept(s, p);
    WithoutDistinct(s.procs[p].owned, m);
    var s1 := Release(rules, s, p, m);
    if mx.waiting != [] {
      HandOverEffect(rules, s1, m);
      assert mx.waiting[0] in mx.waiting;
      HandedOwners(s, s1, HandOver(rules, s1, m), p, m);
    } else {
      FreedOwners(s, s1, HandOver(rules, s1, m), p, m) by {
        HandOverNobody(rules, s1, m);
      }
    }
  }

  lemma HandOverNobody(rules: Rules, s: Sched, m: nat)
    requires m < |s.mutexes| && s.mutexes[m].waiting == []
    ensures HandOver(rules, s, m) == SetMutex(s, m, s.mutexes[m].(locked := false, owner := None))
  {
  }

  ghost predicate Released(s: Sched, s1: Sched, p: nat, m: nat)
    requires p < |s.procs|
  {
    && |s1.procs| == |s.procs| && s1.mutexes == s.mutexes
    && (forall q | 0 <= q < |s.procs| && q != p :: s1.procs[q] == s.procs[q])
    && NoDuplicates(s1.procs[p].owned)
    && (forall n :: n in s1.procs[p].owned <==> n in s.procs[p].owned && n != m)
  }

  lemma FreedOwners(s: Sched, s1: Sched, s': Sched, p: nat, m: nat)
    requires OwnersKept(s) && p < |s.procs| && m < |s.mutexes| && s.mutexes[m].owner == Some(p)
    requires s.mutexes[m].waiting == [] && Released(s, s1, p, m)
    requires s' == SetMutex(s1, m, s1.mutexes[m].(locked := false, owner := None))
    ensures OwnersKept(s')
  {
    forall n | 0 <= n < |s'.mutexes| ensures MutexKept(s', n) {
      assert MutexKept(s, n);
    }
    forall q | 0 <= q < |s'.procs| ensures OwnedKept(s', q) {
      assert OwnedKept(s, q);
      assert forall n: nat :: Owns(s', q, n) <==> Owns(s, q, n) && n != m;
    }
  }

  lemma TailDistinct(list: seq<nat>)
    requires list != [] && NoDuplicates(list)
    ensures NoDuplicates(list[1..]) && list[0] !in list[1..]
    ensures forall q :: q in list <==> q == list[0] || q in list[1..]
  {
    assert list == [list[0]] + list[1..];
    assert forall i | 0 <= i < |list| - 1 :: list[1..][i] == list[i + 1];
  }

  lemma HandedOwners(s: Sched, s1: Sched, s': Sched, p: nat, m: nat)
    requires OwnersKept(s) && p < |s.procs| && m < |s.mutexes| && s.mutexes[m].owner == Some(p)
    requires s.mutexes[m].waiting != [] && NoDuplicates(s.mutexes[m].waiting) && Released(s, s1, p, m)
    requires s.mutexes[m].waiting[0] < |s.procs| && s.mutexes[m].waiting[0] != p
    requires var (mx, next) := (s.mutexes[m], s.mutexes[m].waiting[0]);
      && s'.mutexes == s.mutexes[m := mx.(locked := true, owner := Some(next), waiting := mx.waiting[1..])]
      && s'.procs == s1.procs[next := Woken(s1.procs[next].(owned := s1.procs[next].owned + [m]))]
    ensures OwnersKept(s')
  {
    var mx := s.mutexes[m];
    var next := mx.waiting[0];
    assert MutexKept(s, m);
    TailDistinct(mx.waiting);
    forall n | 0 <= n < |s'.mutexes| ensures MutexKept(s', n) {
      assert MutexKept(s, n);
    }
    assert !Owns(s, next, m) && OwnedKept(s, next);
    forall q | 0 <= q < |s'.procs| ensures OwnedKept(s', q) {
      assert OwnedKept(s, q);
      assert forall n: nat :: Owns(s', q, n) <==> (Owns(s, q, n) && n != m) || (q == next && n == m);
    }
  }

  // ---------- priorities ----------

  /** What a release computes: at most the base and every waiter's priority, and one of them. */
  lemma {:induction false} MostUrgentExact(procs: seq<Process>, list: seq<nat>, prio: byte)
    ensures var r := MostUrgent(procs, list, prio);
      && r <= prio && (forall q | q in list && q < |procs| :: r <= procs[q].eff)
      && (r < prio ==> exists q | q in list :: q < |procs| && procs[q].eff == r)
  {
    if list != [] {
      var n := |list| - 1;
      MostUrgentExact(procs, list[..n], prio);
      assert list == list[..n] + [list[n]];
    }
  }

  lemma {:induction false} InheritedExact(s: Sched, owned: seq<nat>, prio: byte)
    ensures var r := Inherited(s, owned, prio);
      && r <= prio
      && (forall m, q | m in owned && m < |s.mutexes| && q in s.mutexes[m].waiting && q < |s.procs| ::
          r <= s.procs[q].eff)
      && (r < prio ==> exists m, q | m in owned && m < |s.mutexes| && q in s.mutexes[m].waiting ::
            q < |s.procs| && s.procs[q].eff == r)
  {
    if owned != [] {
      var n := |owned| - 1;
      var m := owned[n];
      InheritedExact(s, owned[..n], prio);
      assert owned == owned[..n] + [m];
      var front := Inherited(s, owned[..n], prio);
      if m < |s.mutexes| {
        MostUrgentExact(s.procs, s.mutexes[m].waiting, front);
        var r := Inherited(s, owned, prio);
        if r < front {
          var q :| q in s.mutexes[m].waiting && q < |s.procs| && s.procs[q].eff == r;
          assert m in owned && q in s.mutexes[m].waiting;
        }
      }
    }
  }

  /** More waiting processes and lower numbers press at least as much. */
  lemma PressedMore(s: Sched, s': Sched, o: nat, prio: byte)
    requires |s.procs| == |s'.procs| && |s.mutexes| <= |s'.mutexes|
    requires forall m, q | 0 <= m < |s.mutexes| && s.mutexes[m].owner == Some(o)
      && q in s.mutexes[m].waiting && q < |s.procs| ::
      s'.mutexes[m].owner == Some(o) && q in s'.mutexes[m].waiting && s'.procs[q].eff <= s.procs[q].eff
    ensures Pressed(s, o, prio) ==> Pressed(s', o, prio)
  {
    if Pressed(s, o, prio) {
      var m, q :| 0 <= m < |s.mutexes| && 0 <= q < |s.procs| &&
        s.mutexes[m].owner == Some(o) && q in s.mutexes[m].waiting && s.procs[q].eff <= prio;
      assert s'.mutexes[m].owner == Some(o) && q in s'.mutexes[m].waiting && s'.procs[q].eff <= prio;
    }
  }

  lemma AcquireUrgency(rules: Rules, w: World, p: nat, m: nat)
    requires UrgencyKept(rules, w) && OwnersKept(w.s) && p < |w.s.procs| && m < |w.s.mutexes| && !w.s.mutexes[m].locked
    ensures UrgencyKept(rules, World(Acquire(w.s, p, m), w.h))
  {
    var w' := World(Acquire(w.s, p, m), w.h);
    assert MutexKept(w.s, m);
    forall q | 0 <= q < |w'.s.procs| ensures FloorKept(rules, w'.s, q) {
      assert FloorKept(rules, w.s, q);
      PressedMore(w.s, w'.s, q, w.s.procs[q].eff);
    }
    forall n | 0 <= n < |w'.s.mutexes| ensures CeilingKept(rules, w', n) {
      assert CeilingKept(rules, w, n);
    }
  }

  lemma LockUrgency(rules: Rules, w: World, p: nat, m: nat, o: nat)
    requires UrgencyKept(rules, w) && OwnersKept(w.s) && Runs(w.s, p) && m < |w.s.mutexes| && m < |w.h.arrived|
    requires w.s.mutexes[m].locked && w.s.mutexes[m].owner == Some(o) && o < |w.s.procs| && o != p
    ensures UrgencyKept(rules, LockStep(rules, w, p, m))
  {
    hide Lock, Pressed;
    LockEffect(rules, w.s, p, m, o);
    var w' := LockStep(rules, w, p, m);
    assert MutexKept(w.s, m);
    assert FloorKept(rules, w.s, p) && FloorKept(rules, w.s, o);
    forall q | 0 <= q < |w'.s.procs| ensures FloorKept(rules, w'.s, q) {
      assert FloorKept(rules, w.s, q);
      PressedMore(w.s, w'.s, q, w.s.procs[q].eff);
      if q == o {
        PressedBy(w'.s, o, m, p);
      }
    }
    forall n | 0 <= n < |w'.s.mutexes| ensures CeilingKept(rules, w', n) {
      assert CeilingKept(rules, w, n);
    }
  }

  lemma PressedBy(s: Sched, o: nat, m: nat, q: nat)
    requires m < |s.mutexes| && q < |s.procs| && s.mutexes[m].owner == Some(o) && q in s.mutexes[m].waiting
    ensures Pressed(s, o, s.procs[q].eff)
  {
  }

  /** What a release leaves behind, seen from the priorities. */
  ghost predicate Lowered(rules: Rules, s: Sched, s1: Sched, p: nat, m: nat)
    requires p < |s.procs|
  {
    && Released(s, s1, p, m)
    && s1.procs[p].base == s.procs[p].base
    && (rules.algorithm != CMN ==> s1.procs[p].eff == s.procs[p].eff)
    && (rules.algorithm == CMN ==>
         && s1.procs[p].eff <= s.procs[p].base
         && (forall n, q | n in s1.procs[p].owned && n < |s.mutexes|
              && q in s.mutexes[n].waiting && q < |s.procs| && q != p ::
              s1.procs[p].eff <= s.procs[q].eff)
         && (s1.procs[p].eff < s.procs[p].base ==>
             exists n, q | n in s1.procs[p].owned && n < |s.mutexes| && q in s.mutexes[n].waiting ::
              q < |s.procs| && s.procs[q].eff == s1.procs[p].eff))
  }

  lemma ReleaseLowers(rules: Rules, s: Sched, p: nat, m: nat)
    requires OwnersKept(s) && p < |s.procs|
    ensures Lowered(rules, s, Release(rules, s, p, m), p, m)
  {
    hide Release, Inherited;
    ReleaseEffect(rules, s, p, m);
    var pr := s.procs[p];
    assert OwnedKept(s, p);
    WithoutDistinct(pr.owned, m);
    var owned: seq<nat> := Without<nat>(pr.owned, m);
    var s0 := Update(s, p, pr.(owned := owned));
    InheritedExact(s0, owned, pr.base);
    var s1 := Release(rules, s, p, m);
    assert s1.procs[p].owned == owned && s1.procs[p].base == pr.base;
    assert s0.mutexes == s.mutexes && forall q | 0 <= q < |s.procs| :: s0.procs[q].eff == s.procs[q].eff;
    assert Released(s, s1, p, m);
    if rules.algorithm == CMN && s1.procs[p].eff < pr.base {
      var n, q :| n in owned && n < |s.mutexes| && q in s.mutexes[n].waiting && q < |s.procs|
          && s0.procs[q].eff == s1.procs[p].eff;
      assert n in s1.procs[p].owned && q in s.mutexes[n].waiting && s.procs[q].eff == s1.procs[p].eff;
    }
  }

  /** After a release, before the hand-over is noticed: the other mutexes and everybody's bounds. */
  lemma ReleasedFloor(rules: Rules, w: World, s1: Sched, s': Sched, p: nat, m: nat, q: nat)
    requires UrgencyKept(rules, w) && OwnersKept(w.s) && p < |w.s.procs| && q < |w.s.procs| && m < |w.s.mutexes|
    requires w.s.mutexes[m].owner == Some(p) && Lowered(rules, w.s, s1, p, m)
    requires forall n | 0 <= n < |w.s.mutexes| :: p !in w.s.mutexes[n].waiting
    requires |s'.mutexes| == |w.s.mutexes| && |s'.procs| == |w.s.procs|
    requires forall n | 0 <= n < |w.s.mutexes| && n != m :: s'.mutexes[n] == w.s.mutexes[n]
    requires forall z | 0 <= z < |w.s.procs| ::
        s'.procs[z].eff == s1.procs[z].eff && s'.procs[z].base == s1.procs[z].base
    ensures FloorKept(rules, s', q)
  {
    assert FloorKept(rules, w.s, q);
    if s'.procs[q].eff < s'.procs[q].base {
      if q == p && rules.algorithm == CMN {
        var n, z :| n in s1.procs[p].owned && n < |w.s.mutexes| && z in w.s.mutexes[n].waiting && z < |w.s.procs|
          && w.s.procs[z].eff == s1.procs[p].eff;
        assert OwnedKept(w.s, p) && Owns(w.s, p, n);
        assert z != p;
        PressedBy(s', p, n, z);
      } else if q != p {
        assert Pressed(w.s, q, w.s.procs[q].eff);
        var n, z :| 0 <= n < |w.s.mutexes| && 0 <= z < |w.s.procs| &&
          w.s.mutexes[n].owner == Some(q) && z in w.s.mutexes[n].waiting && w.s.procs[z].eff <= w.s.procs[q].eff;
        assert n != m && z != p;
        assert s'.mutexes[n].owner == Some(q) && z in s'.mutexes[n].waiting && s'.procs[z].eff <= s'.procs[q].eff;
      }
    }
  }

  lemma ReleasedCeiling(rules: Rules, w: World, s1: Sched, w': World, p: nat, m: nat, n: nat)
    requires UrgencyKept(rules, w) && OwnersKept(w.s) && p < |w.s.procs| && m < |w.s.mutexes|
        && n < |w.s.mutexes| && n != m
    requires w.s.mutexes[m].owner == Some(p) && Lowered(rules, w.s, s1, p, m)
    requires p !in w.s.mutexes[n].waiting
    requires |w'.s.mutexes| == |w.s.mutexes| == |w'.h.arrivals| && |w'.s.procs| == |w.s.procs|
    requires w'.s.mutexes[n] == w.s.mutexes[n] && w'.h.arrivals[n] == w.h.arrivals[n]
    requires forall z | 0 <= z < |w.s.procs| :: w'.s.procs[z].eff == s1.procs[z].eff
    ensures CeilingKept(rules, w', n)
  {
    assert CeilingKept(rules, w, n);
    var mx, arrivals := w.s.mutexes[n], w.h.arrivals[n];
    assert OwnedKept(w.s, p);
    forall i | 0 <= i < |arrivals|
      ensures w'.s.procs[mx.waiting[i]].eff <= arrivals[i].prio
      ensures rules.algorithm == CMN && arrivals[i].tenure && mx.owner.Some? && mx.owner.value < |w.s.procs| ==>
           w'.s.procs[mx.owner.value].eff <= arrivals[i].prio
    {
      assert mx.waiting[i] in mx.waiting;
      if mx.owner == Some(p) {
        assert Owns(w.s, p, n);
        assert n in s1.procs[p].owned;
      }
    }
  }

  lemma UnlockUrgency(rules: Rules, w: World, p: nat, m: nat)
    requires UrgencyKept(rules, w) && OwnersKept(w.s) && p < |w.s.procs| && m < |w.s.mutexes| && m < |w.h.granted|
    requires w.s.mutexes[m].owner == Some(p)
    requires forall n | 0 <= n < |w.s.mutexes| :: p !in w.s.mutexes[n].waiting
    requires w.s.mutexes[m].waiting != [] ==> w.s.mutexes[m].waiting[0] < |w.s.procs| && w.h.arrivals[m] != []
    ensures UrgencyKept(rules, UnlockStep(rules, w, p, m))
  {
    hide Release, HandOver, Lowered, FloorKept, Pressed;
    var w', s1 := UnlockStep(rules, w, p, m), Release(rules, w.s, p, m);
    ReleaseLowers(rules, w.s, p, m);
    LoweredSame(rules, w.s, s1, p, m);
    if w.s.mutexes[m].waiting != [] {
      HandOverEffect(rules, s1, m);
    } else {
      HandOverNobody(rules, s1, m);
    }
    assert CeilingKept(rules, w, m);
    forall q | 0 <= q < |w'.s.procs| ensures FloorKept(rules, w'.s, q) {
      ReleasedFloor(rules, w, s1, w'.s, p, m, q);
    }
    forall n | 0 <= n < |w'.s.mutexes| ensures CeilingKept(rules, w', n) {
      if n != m {
        ReleasedCeiling(rules, w, s1, w', p, m, n);
      } else {
        HandedCeiling(rules, w, s1, w', p, m);
      }
    }
  }

  lemma LoweredSame(rules: Rules, s: Sched, s1: Sched, p: nat, m: nat)
    requires p < |s.procs| && Lowered(rules, s, s1, p, m)
    ensures |s1.procs| == |s.procs| && s1.mutexes == s.mutexes
    ensures forall q | 0 <= q < |s.procs| && q != p :: s1.procs[q] == s.procs[q]
  {
  }

  lemma HandedCeiling(rules: Rules, w: World, s1: Sched, w': World, p: nat, m: nat)
    requires p < |w.s.procs| && m < |w.s.mutexes| == |w.h.arrivals| && CeilingKept(rules, w, m)
    requires p !in w.s.mutexes[m].waiting
    requires |w'.s.mutexes| == |w.s.mutexes| == |w'.h.arrivals| && |w'.s.procs| == |w.s.procs|
    requires forall q | 0 <= q < |w.s.procs| && q != p :: w'.s.procs[q].eff == w.s.procs[q].eff
    requires w.s.mutexes[m].waiting == [] ==> w'.s.mutexes[m].waiting == [] && w'.h.arrivals[m] == w.h.arrivals[m]
    requires w.s.mutexes[m].waiting != [] ==>
      && w'.s.mutexes[m].waiting == w.s.mutexes[m].waiting[1..]
      && w.h.arrivals[m] != [] && w'.h.arrivals[m] == NotInTenure(w.h.arrivals[m][1..])
    ensures CeilingKept(rules, w', m)
  {
    var waiting := w.s.mutexes[m].waiting;
    forall i | 0 <= i < |w'.h.arrivals[m]|
      ensures w'.s.procs[w'.s.mutexes[m].waiting[i]].eff <= w'.h.arrivals[m][i].prio && !w'.h.arrivals[m][i].tenure
    {
      assert waiting[i + 1] in waiting;
      assert w'.s.mutexes[m].waiting[i] == waiting[i + 1];
    }
  }

  // ---------- grants ----------

  lemma UnlockGrants(rules: Rules, w: World, p: nat, m: nat)
    requires GrantsKept(w) && p < |w.s.procs| && m < |w.s.mutexes| && m < |w.h.arrivals|
    requires w.s.mutexes[m].waiting != [] ==> w.s.mutexes[m].waiting[0] < |w.s.procs| && w.h.arrivals[m] != []
    ensures GrantsKept(UnlockStep(rules, w, p, m))
  {
    hide Release, HandOver, Inherited;
    ReleaseEffect(rules, w.s, p, m);
    var s1, mx := Release(rules, w.s, p, m), w.s.mutexes[m];
    if mx.waiting != [] {
      HandOverEffect(rules, s1, m);
      assert mx.waiting == [mx.waiting[0]] + mx.waiting[1..];
      assert w.h.granted[m] + mx.waiting == (w.h.granted[m] + [mx.waiting[0]]) + mx.waiting[1..];
    } else {
      HandOverNobody(rules, s1, m);
    }
  }

  lemma LockGrants(rules: Rules, w: World, p: nat, m: nat, o: nat)
    requires GrantsKept(w) && Runs(w.s, p) && m < |w.s.mutexes| && m < |w.h.arrivals|
    requires w.s.mutexes[m].locked && w.s.mutexes[m].owner == Some(o) && o < |w.s.procs| && o != p
    ensures GrantsKept(LockStep(rules, w, p, m))
  {
    hide Lock;
    LockEffect(rules, w.s, p, m, o);
    var waiting := w.s.mutexes[m].waiting;
    assert (w.h.granted[m] + waiting) + [p] == w.h.granted[m] + (waiting + [p]);
  }

  // ---------- a new mutex ----------

  lemma NewMutexKept(rules: Rules, w: World, name: string)
    requires WaitsKept(w) && OwnersKept(w.s) && UrgencyKept(rules, w) && GrantsKept(w)
    ensures var w' := CreateMutexStep(w, name);
      WaitsKept(w') && OwnersKept(w'.s) && UrgencyKept(rules, w') && GrantsKept(w')
  {
    var w' := CreateMutexStep(w, name);
    forall m | 0 <= m < |w'.s.mutexes| ensures WaitersKept(w', m) && MutexKept(w'.s, m) {
      assert m < |w.s.mutexes| ==> WaitersKept(w, m) && MutexKept(w.s, m);
    }
    NewMutexUrgency(rules, w, name);
    forall p | 0 <= p < |w'.s.procs| ensures OwnedKept(w'.s, p) {
      assert OwnedKept(w.s, p);
      assert forall m: nat :: Owns(w'.s, p, m) <==> Owns(w.s, p, m);
    }
  }

  lemma NewMutexUrgency(rules: Rules, w: World, name: string)
    requires UrgencyKept(rules, w)
    ensures UrgencyKept(rules, CreateMutexStep(w, name))
  {
    var w' := CreateMutexStep(w, name);
    forall p | 0 <= p < |w'.s.procs| ensures FloorKept(rules, w'.s, p) {
      assert FloorKept(rules, w.s, p);
      PressedMore(w.s, w'.s, p, w.s.procs[p].eff);
    }
    forall m | 0 <= m < |w'.s.mutexes| ensures CeilingKept(rules, w', m) {
      assert m < |w.s.mutexes| ==> CeilingKept(rules, w, m);
    }
  }
}
