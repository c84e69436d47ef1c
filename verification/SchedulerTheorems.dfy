/**
 What holds in every state the Kernel Scheduler can reach, and over its runs.
*/
module SchedulerTheorems {
  import opened Base
  import opened SchedulerState
  import opened SchedulerSteps
  import opened SchedulerLists
  import opened SchedulerRuns
  import opened SchedulerCpus
  import opened SchedulerMutexes
  import opened SchedulerDispatch
  import opened SchedulerSafety

  // ---------- runs ----------

  function Start(queues: nat): World {
    World(Sched([], Lists(seq(queues, _ => []), [], []), [], [], [], true, 0),
          History(map[], {}, {}, map[], [], [], [], 0, {}))
  }

  lemma StartKept(rules: Rules)
    requires WellFormed(rules)
    ensures Kept(rules, Start(rules.queues))
  {
  }

  ghost predicate SteppedAt(rules: Rules, worlds: seq<World>, events: seq<Event>, i: nat)
    requires i < |events| && |worlds| == |events| + 1
  {
    Kept(rules, worlds[i]) ==> Enabled(worlds[i], events[i]) && worlds[i + 1] == Step(rules, worlds[i], events[i])
  }

  ghost predicate IsHistory(rules: Rules, worlds: seq<World>, events: seq<Event>) {
    && |worlds| == |events| + 1
    && forall i | 0 <= i < |events| :: SteppedAt(rules, worlds, events, i)
  }

  /** Every state of every run keeps the invariant. */
  lemma {:induction false} RunKept(rules: Rules, worlds: seq<World>, events: seq<Event>, n: nat)
    requires IsHistory(rules, worlds, events) && Kept(rules, worlds[0]) && n <= |events|
    ensures Kept(rules, worlds[n])
  {
    hide Kept, Enabled, Step;
    if n > 0 {
      RunKept(rules, worlds, events, n - 1);
      assert SteppedAt(rules, worlds, events, n - 1);
      StepGood(rules, worlds[n - 1], events[n - 1]);
    }
  }

  lemma HistoryTail(rules: Rules, worlds: seq<World>, events: seq<Event>)
    requires IsHistory(rules, worlds, events) && events != []
    ensures IsHistory(rules, worlds[1..], events[1..])
  {
    hide Kept, Enabled, Step;
    var (later, rest) := (worlds[1..], events[1..]);
    forall i | 0 <= i < |rest| ensures SteppedAt(rules, later, rest, i) {
      assert SteppedAt(rules, worlds, events, i + 1);
    }
  }

  // ---------- states and lists ----------

  lemma ListExact(rules: Rules, s: Sched, at: Place, p: nat)
    requires Listed(rules, s) && Real(s.lists, at)
    ensures p in ListAt(s.lists, at) <==> p < |s.procs| && Home(rules, s.procs[p]) == at
    ensures NoDuplicates(ListAt(s.lists, at))
  {
    hide Home, ListAt;
    assert HoldsExactly(rules, s.procs, s.lists, at, None);
    assert Belongs(rules, s.procs, at, p) <==> p in ListAt(s.lists, at);
  }

  /** A process is ready iff it stands in the queue of its own priority, once, and in no other; it is in the
      exec list iff it runs on a CPU, and in the block list iff it is blocked; a process that runs without
      a CPU has a memory request open; the suspended list holds suspended processes only. */
  lemma StatesMatchLists(rules: Rules, w: World, p: nat)
    requires Kept(rules, w) && p < |w.s.procs|
    ensures forall q | 0 <= q < |w.s.lists.ready| ::
      && NoDuplicates(w.s.lists.ready[q])
      && (p in w.s.lists.ready[q] <==> (
           && w.s.procs[p].state == Ready
           && q == if rules.algorithm != CMN then 0
                   else if w.s.procs[p].eff < rules.queues then w.s.procs[p].eff else rules.queues - 1))
    ensures p in w.s.lists.exec <==> w.s.procs[p].state == Exec && w.s.procs[p].cpu.Some?
    ensures w.s.procs[p].state == Exec && w.s.procs[p].cpu.None? ==> w.s.procs[p].pending
    ensures p in w.s.lists.block <==> w.s.procs[p].state == Block
    ensures p in w.s.susp ==> w.s.procs[p].state == SuspBlock || w.s.procs[p].state == SuspReady
  {
    forall q | 0 <= q < |w.s.lists.ready| ensures
      && NoDuplicates(w.s.lists.ready[q])
      && (p in w.s.lists.ready[q] <==> (
           && w.s.procs[p].state == Ready
           && q == if rules.algorithm != CMN then 0
                   else if w.s.procs[p].eff < rules.queues then w.s.procs[p].eff else rules.queues - 1))
    {
      ListExact(rules, w.s, InReady(q), p);
    }
    ListExact(rules, w.s, InExec, p);
    ListExact(rules, w.s, InBlock, p);
    assert CpuKept(w.s, p);
  }

  // ---------- CPUs ----------

  /** While a CPU is being evicted only the process that held it when the order was sent can hold it, so
      the confirmation takes the CPU from that process or from nobody, and from nobody else. */
  lemma ConfirmationTarget(rules: Rules, w: World, c: nat, all: bool)
    requires Kept(rules, w) && c in w.h.orders
    ensures var s' := if all then ConfirmAll(rules, w.s, c) else Confirm(rules, w.s, c);
      && |s'.procs| == |w.s.procs| && c < |w.s.cpus| == |s'.cpus|
      && (forall p | 0 <= p < |w.s.procs| && p != w.h.orders[c].target :: s'.procs[p] == w.s.procs[p])
      && (forall p | 0 <= p < |w.s.procs| :: s'.procs[p].cpu != Some(c))
      && (s'.cpus[c] == CpuInfo(true, false) <==> !all || w.s.procs[w.h.orders[c].target].cpu == Some(c))
  {
    hide Confirm, ConfirmAll, Agree, Holder;
    ConfirmEffect(rules, w.s, c, all);
    assert OrderKept(w, c);
    if Holder(w.s.procs, c).Some? {
      HolderUnique(w, c, w.h.orders[c].target);
    }
  }

  /** Where an evicted process goes: to the front of its queue if everybody is evicted under CMN, and behind
      all others in every other case - by a single order, or under FIFO and RR. */
  lemma EvictedPlace(rules: Rules, w: World, c: nat, all: bool)
    requires Kept(rules, w) && c in w.h.orders && w.h.orders[c].target < |w.s.procs|
    requires var pr := w.s.procs[w.h.orders[c].target]; pr.cpu == Some(c) && !pr.pending
    ensures var s' := if all then ConfirmAll(rules, w.s, c) else Confirm(rules, w.s, c);
      var (p, q) := (w.h.orders[c].target, Level(rules, w.s.procs[w.h.orders[c].target].eff));
      && q < |w.s.lists.ready| == |s'.lists.ready|
      && s'.lists.ready == w.s.lists.ready[q := if all && rules.algorithm == CMN then [p] + w.s.lists.ready[q]
                                                else w.s.lists.ready[q] + [p]]
  {
    hide HoldsExactly, CpuKept, OrderKept, Holder, SuspKept, WaitsKept, OwnersKept, UrgencyKept, GrantsKept;
    HolderUnique(w, c, w.h.orders[c].target);
  }

  /** No process is put on a CPU that is being evicted, and no two processes ever hold the same CPU. */
  lemma NoSharedCpu(rules: Rules, w: World, p: nat, q: nat)
    requires Kept(rules, w) && p < |w.s.procs| && q < |w.s.procs| && p != q
    ensures w.s.procs[p].cpu.Some? ==> w.s.procs[p].cpu != w.s.procs[q].cpu
    ensures Preserves(rules, w, p)
  {
    hide Agree, Flat, FreeList, DispatchAll;
    PassExact(rules, w.s);
    var s', flat, free := DispatchAll(rules, w.s), Flat(w.s.lists.ready), FreeList(w.s.cpus);
    var k := if |flat| < |free| then |flat| else |free|;
    if p in flat[..k] {
      var i :| 0 <= i < k && flat[..k][i] == p;
      assert free[i] in free;
    }
  }

  /** After a dispatch pass a process holds the CPU it held, or one that was free and not being evicted. */
  ghost predicate Preserves(rules: Rules, w: World, p: nat)
    requires Kept(rules, w) && p < |w.s.procs|
  {
    var s' := DispatchAll(rules, w.s);
    && p < |s'.procs|
    && (s'.procs[p].cpu == w.s.procs[p].cpu
        || (s'.procs[p].cpu.Some? && s'.procs[p].cpu.value < |w.s.cpus| && Free(w.s.cpus[s'.procs[p].cpu.value])))
  }

  // ---------- mutexes ----------

  /** Locked iff owned; owner and owned list agree; waiting implies locked; nobody waits for two mutexes,
      for its own, or while it waits for IO; grants follow the order of arrival. */
  lemma MutexesSound(rules: Rules, w: World, m: nat, n: nat, p: nat)
    requires Kept(rules, w) && m < |w.s.mutexes| && n < |w.s.mutexes| && p < |w.s.procs|
    ensures w.s.mutexes[m].locked <==> w.s.mutexes[m].owner.Some?
    ensures m in w.s.procs[p].owned <==> w.s.mutexes[m].owner == Some(p)
    ensures NoDuplicates(w.s.procs[p].owned) && NoDuplicates(w.s.mutexes[m].waiting)
    ensures w.s.mutexes[m].waiting != [] ==> w.s.mutexes[m].locked
    ensures p in w.s.mutexes[m].waiting ==> m !in w.s.procs[p].owned && p !in w.h.io && Blocked(w.s.procs[p])
    ensures p in w.s.mutexes[m].waiting && p in w.s.mutexes[n].waiting ==> m == n
    ensures Blocked(w.s.procs[p]) && p !in w.h.io ==> exists k | 0 <= k < |w.s.mutexes| :: p in w.s.mutexes[k].waiting
    ensures m < |w.h.granted| && m < |w.h.arrived| && w.h.granted[m] <= w.h.arrived[m]
  {
    hide Agree, CpusKept, SuspKept, UrgencyKept;
    MutexFacts(rules, w, m);
    assert OwnedKept(w.s, p) && Owns(w.s, p, m) == (w.s.mutexes[m].owner == Some(p));
    assert WaitersKept(w, m) && WaitersKept(w, n);
    if Blocked(w.s.procs[p]) && p !in w.h.io {
      assert WaitersKept(w, w.h.waitsOn[p]);
    }
  }

  // ---------- priority inheritance ----------

  /** The two bounds. From below: what a release would compute now, the base or the most urgent waiter of
      an owned mutex. From above: the base and, under CMN, the priority at arrival of everybody who began to
      wait for an owned mutex while the process owned it. So a process that owns no mutex has its base. */
  lemma InheritanceBounds(rules: Rules, w: World, p: nat)
    requires Kept(rules, w) && p < |w.s.procs|
    ensures Inherited(w.s, w.s.procs[p].owned, w.s.procs[p].base) <= w.s.procs[p].eff <= w.s.procs[p].base
    ensures w.s.procs[p].owned == [] ==> w.s.procs[p].eff == w.s.procs[p].base
    ensures rules.algorithm != CMN ==> w.s.procs[p].eff == w.s.procs[p].base
    ensures |w.h.arrivals| == |w.s.mutexes|
    ensures forall m, i | 0 <= m < |w.s.mutexes| && w.s.mutexes[m].owner == Some(p) && rules.algorithm == CMN
      && 0 <= i < |w.h.arrivals[m]| && w.h.arrivals[m][i].tenure :: w.s.procs[p].eff <= w.h.arrivals[m][i].prio
  {
    hide Agree, CpusKept, SuspKept, WaitsKept, Inherited;
    var pr := w.s.procs[p];
    assert FloorKept(rules, w.s, p) && OwnedKept(w.s, p);
    InheritedExact(w.s, pr.owned, pr.base);
    if pr.eff < pr.base {
      var m, q :| 0 <= m < |w.s.mutexes| && 0 <= q < |w.s.procs| &&
        w.s.mutexes[m].owner == Some(p) && q in w.s.mutexes[m].waiting && w.s.procs[q].eff <= pr.eff;
      assert Owns(w.s, p, m) && m in pr.owned;
    }
    forall m, i | 0 <= m < |w.s.mutexes| && w.s.mutexes[m].owner == Some(p) && rules.algorithm == CMN
      && 0 <= i < |w.h.arrivals[m]| && w.h.arrivals[m][i].tenure
      ensures pr.eff <= w.h.arrivals[m][i].prio
    {
      assert CeilingKept(rules, w, m);
    }
  }

  /** An owner is at least as urgent as every process that waits for the mutex. */
  ghost predicate Urges(s: Sched, m: nat)
    requires m < |s.mutexes|
  {
    forall q | q in s.mutexes[m].waiting && q < |s.procs| && s.mutexes[m].owner.Some?
        && s.mutexes[m].owner.value < |s.procs| ::
      s.procs[s.mutexes[m].owner.value].eff <= s.procs[q].eff
  }

  /** A mutex that is handed over does not boost its new owner: the new owner is at least as urgent as those
      left waiting if and only if it was at least as urgent as everybody behind it in the queue. */
  lemma HandOverUrges(rules: Rules, w: World, p: nat, m: nat)
    requires Kept(rules, w) && Runs(w.s, p) && m < |w.s.mutexes|
    requires w.s.mutexes[m].owner == Some(p) && w.s.mutexes[m].waiting != []
    ensures var next := w.s.mutexes[m].waiting[0];
      && next < |w.s.procs| && |Unlock(rules, w.s, p, m).mutexes| == |w.s.mutexes|
      && (Urges(Unlock(rules, w.s, p, m), m)
          <==> forall q | q in w.s.mutexes[m].waiting[1..] && q < |w.s.procs| ::
                 w.s.procs[next].eff <= w.s.procs[q].eff)
  {
    hide Release, HandOver, Inherited, Agree, CpusKept, SuspKept, UrgencyKept;
    MutexFacts(rules, w, m);
    ReleaseEffect(rules, w.s, p, m);
    HandOverEffect(rules, Release(rules, w.s, p, m), m);
    TailDistinct(w.s.mutexes[m].waiting);
    var s', next := Unlock(rules, w.s, p, m), w.s.mutexes[m].waiting[0];
    assert s'.mutexes[m].owner == Some(next) && s'.mutexes[m].waiting == w.s.mutexes[m].waiting[1..];
    forall q | q in w.s.mutexes[m].waiting && q < |w.s.procs| ensures s'.procs[q].eff == w.s.procs[q].eff {
      assert q != p;
    }
  }

  /** Inheritance is not transitive: under CMN, from a state in which every owner is as urgent as those who wait
      for it, a process that starts to wait leaves such a state if and only if it is not so that the owner it
      makes more urgent itself waits for a mutex whose owner is less urgent than the process. */
  lemma LockUrges(rules: Rules, w: World, p: nat, m: nat, o: nat)
    requires Kept(rules, w) && rules.algorithm == CMN && Runs(w.s, p) && m < |w.s.mutexes|
    requires w.s.mutexes[m].owner == Some(o) && o != p
    requires forall n | 0 <= n < |w.s.mutexes| :: Urges(w.s, n)
    ensures o < |w.s.procs| && |Lock(rules, w.s, p, m).mutexes| == |w.s.mutexes|
    ensures (forall n | 0 <= n < |w.s.mutexes| :: Urges(Lock(rules, w.s, p, m), n))
       <==> !(w.s.procs[p].eff < w.s.procs[o].eff && exists n | 0 <= n < |w.s.mutexes| :: Behind(w.s, p, o, n))
  {
    hide Lock, Agree, CpusKept, SuspKept, UrgencyKept;
    MutexFacts(rules, w, m);
    LockEffect(rules, w.s, p, m, o);
    var s' := Lock(rules, w.s, p, m);
    forall n | 0 <= n < |w.s.mutexes|
      ensures Urges(s', n) <==> !(w.s.procs[p].eff < w.s.procs[o].eff && Behind(w.s, p, o, n))
    {
      MutexFacts(rules, w, n);
      LockUrgesAt(w.s, s', p, m, o, n);
    }
  }

  /** `o` waits for mutex `n`, whose owner is less urgent than `p`. */
  ghost predicate Behind(s: Sched, p: nat, o: nat, n: nat)
    requires p < |s.procs| && n < |s.mutexes|
  {
    var owner := s.mutexes[n].owner;
    o in s.mutexes[n].waiting && owner.Some? && owner.value < |s.procs| && s.procs[owner.value].eff > s.procs[p].eff
  }

  lemma LockUrgesAt(s: Sched, s': Sched, p: nat, m: nat, o: nat, n: nat)
    requires p < |s.procs| && o < |s.procs| && o != p && m < |s.mutexes| && n < |s.mutexes|
    requires s.mutexes[m].owner == Some(o) && Urges(s, n)
    requires s.mutexes[n].owner.Some? ==> s.mutexes[n].owner.value < |s.procs|
    requires forall q | q in s.mutexes[n].waiting :: q < |s.procs| && s.mutexes[n].owner != Some(q)
    requires |s'.procs| == |s.procs| && |s'.mutexes| == |s.mutexes|
    requires forall q | 0 <= q < |s.procs| ::
      s'.procs[q].eff == if q == o && s.procs[p].eff < s.procs[o].eff then s.procs[p].eff else s.procs[q].eff
    requires s'.mutexes[n].owner == s.mutexes[n].owner
    requires s'.mutexes[n].waiting == s.mutexes[n].waiting + if n == m then [p] else []
    ensures Urges(s', n) <==> !(s.procs[p].eff < s.procs[o].eff && Behind(s, p, o, n))
  {
    if s.procs[p].eff < s.procs[o].eff && Behind(s, p, o, n) {
      assert o in s'.mutexes[n].waiting;
    }
  }

  /** A waits for a mutex of B and owns one itself; C, more urgent than both, is about to ask for that one. */
  function Chain(): World {
    var a := Process(Block, 5, 5, None, [0], false, 0, 0);
    var b := Process(Ready, 5, 5, None, [1], false, 0, 0);
    var c := Process(Exec, 1, 1, Some(0), [], false, 0, 0);
    var ready := [[], [], [], [], [], [1], [], []];
    World(Sched([a, b, c], Lists(ready, [2], [0]), [], [CpuInfo(false, false)],
                [Mutex("a", true, Some(0), []), Mutex("b", true, Some(1), [0])], true, 0),
          History(map[], {}, {}, map[0 := 1], [[], [Arrival(5, true)]], [[], [0]], [[], []], 0, {}))
  }

  /** A becomes as urgent as C, B does not. */
  lemma NotTransitive()
    ensures Kept(CMN_RULES, Chain()) && Runs(Chain().s, 2)
    ensures Urges(Chain().s, 0) && Urges(Chain().s, 1)
    ensures var s' := Lock(CMN_RULES, Chain().s, 2, 0);
      |s'.mutexes| == 2 && !Urges(s', 1)
  {
    hide Agree, CpusKept, SuspKept, WaitsKept, OwnersKept, UrgencyKept;
    ChainKept();
    var s := Chain().s;
    assert Urges(s, 0) && Urges(s, 1);
    LockUrges(CMN_RULES, Chain(), 2, 0, 0);
    MutexFacts(CMN_RULES, Chain(), 0);
    LockEffect(CMN_RULES, s, 2, 0, 0);
    LockUrgesAt(s, Lock(CMN_RULES, s, 2, 0), 2, 0, 0, 1);
    assert Behind(s, 2, 0, 1);
  }

  lemma ChainKept()
    ensures Kept(CMN_RULES, Chain()) && Runs(Chain().s, 2)
  {
    hide Agree, CpusKept, SuspKept, WaitsKept, OwnersKept, UrgencyKept;
    ChainListed();
    ChainCpus();
    ChainMutexes();
    ChainUrgency();
    assert Chain().h.granted[0] + [] == [] && Chain().h.granted[1] + [0] == [0];
  }

  lemma ChainListed()
    ensures Listed(CMN_RULES, Chain().s)
  {
    var s := Chain().s;
    forall at | Real(s.lists, at) ensures HoldsExactly(CMN_RULES, s.procs, s.lists, at, None) {
      if at.InReady? {
        assert s.lists.ready[at.level] == if at.level == 5 then [1] else [];
      }
    }
  }

  lemma ChainCpus()
    ensures CpusKept(Chain()) && SuspKept(Chain())
  {
    HeldBy(Chain().s.procs, 2, 0);
  }

  lemma ChainMutexes()
    ensures WaitsKept(Chain()) && OwnersKept(Chain().s)
  {
    var w := Chain();
    assert WaitersKept(w, 0) && WaitersKept(w, 1) && MutexKept(w.s, 0) && MutexKept(w.s, 1);
    forall p | 0 <= p < 3 ensures OwnedKept(w.s, p) {
      assert forall m: nat :: Owns(w.s, p, m) <==> m < 2 && p == m;
    }
  }

  lemma ChainUrgency()
    ensures UrgencyKept(CMN_RULES, Chain())
  {
    var w := Chain();
    assert CeilingKept(CMN_RULES, w, 0) && CeilingKept(CMN_RULES, w, 1);
  }

  /** Two processes wait, the less urgent one first; the owner is about to unlock. */
  const CMN_RULES: Rules := Rules(CMN, 8, true, 100)

  function TwoWaiting(): World {
    var owner := Process(Exec, 3, 1, Some(0), [0], false, 0, 0);
    var first := Process(Block, 5, 5, None, [], false, 0, 0);
    var second := Process(Block, 1, 1, None, [], false, 0, 0);
    var ready := [[], [], [], [], [], [], [], []];
    World(Sched([owner, first, second], Lists(ready, [0], [1, 2]), [], [CpuInfo(false, false)],
                [Mutex("m", true, Some(0), [1, 2])], true, 0),
          History(map[], {}, {}, map[1 := 0, 2 := 0], [[Arrival(5, true), Arrival(1, true)]], [[1, 2]], [[]], 0, {}))
  }

  /** So the owner of a mutex is not always as urgent as everybody who waits for it. */
  lemma NotAlwaysUrged()
    ensures Kept(CMN_RULES, TwoWaiting()) && Runs(TwoWaiting().s, 0)
    ensures Urges(TwoWaiting().s, 0)
    ensures var s' := Unlock(CMN_RULES, TwoWaiting().s, 0, 0);
      |s'.mutexes| == 1 && !Urges(s', 0)
  {
    TwoWaitingKept();
    HandOverUrges(CMN_RULES, TwoWaiting(), 0, 0);
    assert TwoWaiting().s.mutexes[0].waiting[1..] == [2];
  }

  lemma TwoWaitingKept()
    ensures Kept(CMN_RULES, TwoWaiting()) && Runs(TwoWaiting().s, 0)
  {
    hide Agree, CpusKept, SuspKept, WaitsKept, OwnersKept, UrgencyKept;
    TwoWaitingListed();
    TwoWaitingCpus();
    TwoWaitingMutex();
    TwoWaitingUrgency();
    assert TwoWaiting().h.granted[0] + [1, 2] == [1, 2];
  }

  lemma TwoWaitingListed()
    ensures Listed(CMN_RULES, TwoWaiting().s)
  {
    var s := TwoWaiting().s;
    forall at | Real(s.lists, at) ensures HoldsExactly(CMN_RULES, s.procs, s.lists, at, None) {
      if at.InReady? {
        assert s.lists.ready[at.level] == [];
      }
    }
  }

  lemma TwoWaitingCpus()
    ensures CpusKept(TwoWaiting()) && SuspKept(TwoWaiting())
  {
    HeldBy(TwoWaiting().s.procs, 0, 0);
  }

  lemma TwoWaitingMutex()
    ensures WaitsKept(TwoWaiting()) && OwnersKept(TwoWaiting().s)
  {
    var w := TwoWaiting();
    assert WaitersKept(w, 0) && MutexKept(w.s, 0);
    forall p | 0 <= p < 3 ensures OwnedKept(w.s, p) {
      assert forall m: nat :: Owns(w.s, p, m) <==> m == 0 && p == 0;
    }
  }

  lemma TwoWaitingUrgency()
    ensures UrgencyKept(CMN_RULES, TwoWaiting())
  {
    var w := TwoWaiting();
    assert Pressed(w.s, 0, 1) by {
      assert w.s.mutexes[0].owner == Some(0) && 2 in w.s.mutexes[0].waiting && w.s.procs[2].eff <= 1;
    }
    assert CeilingKept(CMN_RULES, w, 0);
  }
}
