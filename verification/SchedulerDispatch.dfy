/**
 The dispatch pass of the short-term scheduler (kernel_scheduler/src/schedulers/short_term_scheduler.c).
*/
module SchedulerDispatch {
  import opened Base
  import opened SchedulerState
  import opened SchedulerSteps
  import opened SchedulerLists

  /** FIFO and RR keep a single ready queue. */
  predicate WellFormed(rules: Rules) {
    rules.queues > 0 && (rules.algorithm != CMN ==> rules.queues == 1)
  }

  /** Everybody who is ready, most urgent queue first. */
  function Flat(queues: seq<seq<nat>>): seq<nat> {
    if queues == [] then [] else queues[0] + Flat(queues[1..])
  }

  /** The CPUs that are free, in list order. */
  function FreeList(cpus: seq<CpuInfo>): (r: seq<nat>)
    ensures forall c: nat :: c in r <==> c < |cpus| && Free(cpus[c])
  {
    if cpus == [] then []
    else
      var n := |cpus| - 1;
      FreeList(cpus[..n]) + if Free(cpus[n]) then [n] else []
  }

  // ---------- queues ----------

  /** Position of the first queue that is not empty. */
  lemma {:induction false} FirstReadyExact(queues: seq<seq<nat>>) returns (i: nat)
    ensures FirstReady(queues).None? <==> Flat(queues) == []
    ensures FirstReady(queues).Some? ==>
      && i < |queues| && queues[i] != [] && FirstReady(queues) == Some(queues[i][0])
      && (forall k | 0 <= k < i :: queues[k] == []) && Flat(queues) != [] && Flat(queues)[0] == queues[i][0]
      && Flat(queues[i := queues[i][1..]]) == Flat(queues)[1..]
  {
    i := 0;
    if queues != [] {
      if queues[0] == [] {
        var j := FirstReadyExact(queues[1..]);
        i := j + 1;
        assert forall k | 0 < k < i && i <= |queues| :: queues[k] == queues[1..][k - 1];
        if FirstReady(queues).Some? {
          assert queues[i := queues[i][1..]][1..] == queues[1..][j := queues[1..][j][1..]];
        }
      } else {
        assert queues[0 := queues[0][1..]][1..] == queues[1..];
      }
    }
  }

  /** The head of a queue is removed as the first occurrence of itself. */
  lemma WithoutHead(s: seq<nat>)
    requires s != []
    ensures Without(s, s[0]) == s[1..]
  {
  }

  /** In a state where lists agree, the next process is the head of all that is ready: the guard that it
      must be READY never fails. */
  lemma NextExact(rules: Rules, s: Sched)
    requires WellFormed(rules) && Listed(rules, s)
    ensures NextToRun(rules, s) == if Flat(s.lists.ready) == [] then None else Some(Flat(s.lists.ready)[0])
    ensures Flat(s.lists.ready) != [] ==>
      var p := Flat(s.lists.ready)[0];
      && p < |s.procs| && s.procs[p].state == Ready
      && Flat(RemoveReady(rules, s, p).lists.ready) == Flat(s.lists.ready)[1..]
  {
    hide FirstReady, Flat;
    var ready := s.lists.ready;
    var i := FirstReadyExact(ready);
    if |ready| == 1 {
      SingleQueue(ready);
    }
    if Flat(ready) != [] {
      var p := ready[i][0];
      assert Real(s.lists, InReady(i)) && HoldsExactly(rules, s.procs, s.lists, InReady(i), None);
      assert p in ListAt(s.lists, InReady(i));
      assert Belongs(rules, s.procs, InReady(i), p);
      WithoutHead(ready[i]);
      assert RemoveReady(rules, s, p).lists.ready == ready[i := ready[i][1..]];
    }
  }

  lemma SingleQueue(queues: seq<seq<nat>>)
    requires |queues| == 1
    ensures Flat(queues) == queues[0]
    ensures FirstReady(queues) == if queues[0] == [] then None else Some(queues[0][0])
  {
    assert queues[1..] == [];
  }

  // ---------- CPUs ----------

  lemma {:induction false} FreeListSorted(cpus: seq<CpuInfo>)
    ensures forall i, j | 0 <= i < j < |FreeList(cpus)| :: FreeList(cpus)[i] < FreeList(cpus)[j]
  {
    if cpus != [] {
      var front := FreeList(cpus[..|cpus| - 1]);
      FreeListSorted(cpus[..|cpus| - 1]);
      assert forall i | 0 <= i < |front| :: front[i] in front;
    }
  }

  lemma FreeCpuFirst(cpus: seq<CpuInfo>)
    ensures FreeCpu(cpus) == if FreeList(cpus) == [] then None else Some(FreeList(cpus)[0])
  {
    hide FreeCpu, FreeList;
    FreeListSorted(cpus);
    var free, r := FreeList(cpus), FreeCpu(cpus);
    if r.Some? {
      assert r.value in free;
    }
    if free != [] {
      assert free[0] in free;
    }
  }

  lemma {:induction false} FreeListBusy(cpus: seq<CpuInfo>, c: nat)
    requires c < |cpus|
    ensures FreeList(cpus[c := cpus[c].(available := false)]) == Without(FreeList(cpus), c)
  {
    var n := |cpus| - 1;
    var cpus', front := cpus[c := cpus[c].(available := false)], FreeList(cpus[..n]);
    var last: seq<nat> := if Free(cpus[n]) then [n] else [];
    WithoutAppend(front, last, c);
    if c == n {
      assert cpus'[..n] == cpus[..n];
      assert FreeList(cpus') == front;
      assert front + [] == front;
    } else {
      FreeListBusy(cpus[..n], c);
      assert cpus'[..n] == cpus[..n][c := cpus[c].(available := false)];
      assert cpus'[n] == cpus[n];
      WithoutAbsent(last, c);
      if c !in front {
        WithoutAbsent(front, c);
      }
    }
  }

  // ---------- the pass ----------

  ghost predicate CanDispatch(s: Sched) {
    Flat(s.lists.ready) != [] && FreeList(s.cpus) != []
  }

  /** One iteration: the head of all that is ready goes to the first free CPU. */
  ghost function DispatchNext(rules: Rules, s: Sched): Sched
    requires CanDispatch(s) && Flat(s.lists.ready)[0] < |s.procs|
  {
    Dispatch(rules, s, Flat(s.lists.ready)[0], FreeList(s.cpus)[0])
  }

  lemma DispatchStep(rules: Rules, s: Sched)
    requires WellFormed(rules) && Listed(rules, s) && CanDispatch(s)
    ensures Flat(s.lists.ready)[0] < |s.procs|
    ensures var (s', p, c) := (DispatchNext(rules, s), Flat(s.lists.ready)[0], FreeList(s.cpus)[0]);
      && Listed(rules, s') && NextToRun(rules, s) == Some(p) && FreeCpu(s.cpus) == Some(c)
      && s.procs[p].state == Ready && Free(s.cpus[c])
      && Flat(s'.lists.ready) == Flat(s.lists.ready)[1..]
      && s'.lists.exec == s.lists.exec + [p] && s'.lists.block == s.lists.block
      && FreeList(s'.cpus) == FreeList(s.cpus)[1..]
      && |s'.procs| == |s.procs| && s'.procs == s.procs[p := s'.procs[p]]
      && s'.procs[p] == Started(rules, s, p, c)
      && s' == s.(procs := s'.procs, lists := s'.lists, cpus := s.cpus[c := s.cpus[c].(available := false)])
  {
    hide Agree, Flat, FreeList, FreeCpu, NextToRun;
    NextExact(rules, s);
    FreeCpuFirst(s.cpus);
    var p, c := Flat(s.lists.ready)[0], FreeList(s.cpus)[0];
    assert c in FreeList(s.cpus);
    DispatchListed(rules, s, p, c);
    FreeListBusy(s.cpus, c);
    WithoutHead(FreeList(s.cpus));
    DispatchLists(rules, s, p, c);
  }

  lemma DispatchLists(rules: Rules, s: Sched, p: nat, c: nat)
    requires p < |s.procs|
    ensures var s' := Dispatch(rules, s, p, c);
      && s'.lists.ready == RemoveReady(rules, s, p).lists.ready
      && s'.lists.exec == s.lists.exec + [p] && s'.lists.block == s.lists.block
  {
    hide Without;
  }

  /** The whole loop. */
  ghost function DispatchAll(rules: Rules, s: Sched): Sched
    requires WellFormed(rules) && Listed(rules, s)
    decreases |Flat(s.lists.ready)|
  {
    if !CanDispatch(s) then s
    else
      DispatchStep(rules, s);
      DispatchAll(rules, DispatchNext(rules, s))
  }

  /** A process as it starts to run on a CPU; FIFO does not take the time. */
  function Started(rules: Rules, s: Sched, p: nat, c: nat): Process
    requires p < |s.procs|
  {
    var pr := s.procs[p].(state := Exec, cpu := Some(c));
    if rules.algorithm == FIFO then pr else pr.(execSince := s.clock)
  }

  /** The outcome of a pass in which the first `k` of the ready processes are dispatched: nothing else changes. */
  ghost predicate Dispatched(rules: Rules, s: Sched, s': Sched, k: nat)
    requires k <= |Flat(s.lists.ready)| && k <= |FreeList(s.cpus)|
  {
    var flat, free := Flat(s.lists.ready), FreeList(s.cpus);
    && Flat(s'.lists.ready) == flat[k..] && FreeList(s'.cpus) == free[k..]
    && s'.lists.exec == s.lists.exec + flat[..k] && s'.lists.block == s.lists.block
    && s' == s.(procs := s'.procs, lists := s'.lists, cpus := s'.cpus)
    && |s'.procs| == |s.procs| && |s'.cpus| == |s.cpus|
    && (forall i | 0 <= i < k :: flat[i] < |s.procs| && s'.procs[flat[i]] == Started(rules, s, flat[i], free[i]))
    && (forall p | 0 <= p < |s.procs| && p !in flat[..k] :: s'.procs[p] == s.procs[p])
    && (forall c | 0 <= c < |s.cpus| ::
         s'.cpus[c] == if c in free[..k] then s.cpus[c].(available := false) else s.cpus[c])
  }

  /** A pass dispatches, in order, as many of the ready processes as there are free CPUs, each to the next
      free CPU, and leaves everything else alone. */
  lemma {:induction false} PassExact(rules: Rules, s: Sched)
    requires WellFormed(rules) && Listed(rules, s)
    ensures Listed(rules, DispatchAll(rules, s))
    ensures var (flat, free) := (Flat(s.lists.ready), FreeList(s.cpus));
      Dispatched(rules, s, DispatchAll(rules, s), if |flat| < |free| then |flat| else |free|)
    decreases |Flat(s.lists.ready)|
  {
    hide Agree, Flat, FreeList, Dispatched, DispatchNext;
    if CanDispatch(s) {
      DispatchStep(rules, s);
      PassExact(rules, DispatchNext(rules, s));
      var n := |Flat(s.lists.ready)|;
      var k := if n < |FreeList(s.cpus)| then n else |FreeList(s.cpus)|;
      FlatInjective(rules, s);
      DispatchedStep(rules, s, DispatchNext(rules, s), DispatchAll(rules, s), k);
    } else {
      DispatchedNone(rules, s);
    }
  }

  lemma DispatchedNone(rules: Rules, s: Sched)
    requires !CanDispatch(s)
    ensures Dispatched(rules, s, s, 0)
  {
  }

  lemma TailPrefix(list: seq<nat>, k: nat)
    requires 0 < k <= |list|
    ensures [list[0]] + list[1..][..k - 1] == list[..k] && list[1..][k - 1..] == list[k..]
    ensures forall x :: x in list[..k] <==> x == list[0] || x in list[1..][..k - 1]
  {
    assert list[..k] == [list[0]] + list[1..][..k - 1];
  }

  lemma DispatchedStep(rules: Rules, s: Sched, s1: Sched, s': Sched, k: nat)
    requires CanDispatch(s) && 0 < k <= |Flat(s.lists.ready)| && k <= |FreeList(s.cpus)|
    requires var (p, c) := (Flat(s.lists.ready)[0], FreeList(s.cpus)[0]);
      && p < |s.procs| && c < |s.cpus| && s1.procs == s.procs[p := Started(rules, s, p, c)]
      && s1 == s.(procs := s1.procs, lists := s1.lists, cpus := s.cpus[c := s.cpus[c].(available := false)])
      && Flat(s1.lists.ready) == Flat(s.lists.ready)[1..] && FreeList(s1.cpus) == FreeList(s.cpus)[1..]
      && s1.lists.exec == s.lists.exec + [p] && s1.lists.block == s.lists.block
    requires NoDuplicates(Flat(s.lists.ready))
    requires Dispatched(rules, s1, s', k - 1)
    ensures Dispatched(rules, s, s', k)
  {
    hide Flat, FreeList;
    var flat, free := Flat(s.lists.ready), FreeList(s.cpus);
    TailPrefix(flat, k);
    TailPrefix(free, k);
    assert (s.lists.exec + [flat[0]]) + flat[1..][..k - 1] == s.lists.exec + ([flat[0]] + flat[1..][..k - 1]);
    assert flat[0] !in flat[1..][..k - 1];
    forall i | 0 <= i < k
      ensures flat[i] < |s.procs| && s'.procs[flat[i]] == Started(rules, s, flat[i], free[i])
    {
      if i > 0 {
        assert flat[1..][i - 1] == flat[i] && free[1..][i - 1] == free[i];
      }
    }
    CpusStep(s.cpus, s1.cpus, s'.cpus, free, k);
  }

  lemma CpusStep(cpus: seq<CpuInfo>, cpus1: seq<CpuInfo>, cpus': seq<CpuInfo>, free: seq<nat>, k: nat)
    requires 0 < k <= |free| && free[0] < |cpus| == |cpus'|
    requires cpus1 == cpus[free[0] := cpus[free[0]].(available := false)]
    requires forall c | 0 <= c < |cpus| ::
      cpus'[c] == if c in free[1..][..k - 1] then cpus1[c].(available := false) else cpus1[c]
    ensures forall c | 0 <= c < |cpus| ::
      cpus'[c] == if c in free[..k] then cpus[c].(available := false) else cpus[c]
  {
    TailPrefix(free, k);
  }

  /** Where the parts of the concatenation come from. */
  lemma {:induction false} FlatFrom(queues: seq<seq<nat>>, i: nat) returns (l: nat, j: nat)
    requires i < |Flat(queues)|
    ensures l < |queues| && j < |queues[l]| && Flat(queues)[i] == queues[l][j]
    ensures i == |Flat(queues[..l])| + j
    decreases |queues|
  {
    if i < |queues[0]| {
      l, j := 0, i;
    } else {
      l, j := FlatFrom(queues[1..], i - |queues[0]|);
      assert queues[..l + 1][1..] == queues[1..][..l];
      l := l + 1;
    }
  }

  lemma {:induction false} FlatGrows(queues: seq<seq<nat>>, l: nat)
    requires l < |queues|
    ensures |Flat(queues[..l])| + |queues[l]| == |Flat(queues[..l + 1])|
  {
    if l > 0 {
      FlatGrows(queues[1..], l - 1);
      assert queues[..l][1..] == queues[1..][..l - 1];
      assert queues[..l + 1][1..] == queues[1..][..l];
    }
  }

  lemma {:induction false} FlatMonotone(queues: seq<seq<nat>>, l: nat, m: nat)
    requires l <= m <= |queues|
    ensures |Flat(queues[..l])| <= |Flat(queues[..m])|
  {
    if l < m {
      FlatMonotone(queues, l, m - 1);
      FlatGrows(queues, m - 1);
    }
  }

  /** The concatenation is ordered by queue, and lists everybody once. */
  lemma FlatOrdered(rules: Rules, s: Sched, i: nat, j: nat)
    requires Listed(rules, s) && i < j < |Flat(s.lists.ready)|
    ensures var (p, q) := (Flat(s.lists.ready)[i], Flat(s.lists.ready)[j]);
      && p < |s.procs| && q < |s.procs| && p != q && s.procs[p].state == Ready && s.procs[q].state == Ready
      && Level(rules, s.procs[p].eff) <= Level(rules, s.procs[q].eff)
  {
    hide Flat;
    var ready := s.lists.ready;
    var l, x := FlatFrom(ready, i);
    var m, y := FlatFrom(ready, j);
    assert Real(s.lists, InReady(l)) && HoldsExactly(rules, s.procs, s.lists, InReady(l), None);
    assert Real(s.lists, InReady(m)) && HoldsExactly(rules, s.procs, s.lists, InReady(m), None);
    assert ready[l][x] in ListAt(s.lists, InReady(l)) && ready[m][y] in ListAt(s.lists, InReady(m));
    assert Belongs(rules, s.procs, InReady(l), ready[l][x]) && Belongs(rules, s.procs, InReady(m), ready[m][y]);
    if m < l {
      FlatGrows(ready, m);
      FlatMonotone(ready, m + 1, l);
    }
  }

  lemma FlatInjective(rules: Rules, s: Sched)
    requires Listed(rules, s)
    ensures NoDuplicates(Flat(s.lists.ready))
  {
    hide Agree, Flat;
    var flat := Flat(s.lists.ready);
    forall i, j | 0 <= i < j < |flat| ensures flat[i] != flat[j] {
      FlatOrdered(rules, s, i, j);
    }
  }

  lemma {:induction false} FlatHas(queues: seq<seq<nat>>, l: nat, j: nat)
    requires l < |queues| && j < |queues[l]|
    ensures queues[l][j] in Flat(queues)
  {
    if l > 0 {
      FlatHas(queues[1..], l - 1, j);
    }
  }

  /** After a pass nobody is ready or no CPU is free; whoever was dispatched is in a queue at least as
      urgent as whoever is left ready, and came before it if they are in the same queue. */
  lemma PassFair(rules: Rules, s: Sched)
    requires WellFormed(rules) && Listed(rules, s)
    ensures var s' := DispatchAll(rules, s);
      || (forall p | 0 <= p < |s'.procs| :: s'.procs[p].state != Ready)
      || (forall c | 0 <= c < |s'.cpus| :: !Free(s'.cpus[c]))
    ensures var s' := DispatchAll(rules, s);
      forall p, q | 0 <= p < |s.procs| && 0 <= q < |s.procs| && |s'.procs| == |s.procs|
        && s.procs[p].state == Ready && s'.procs[p].state == Exec && s'.procs[q].state == Ready ::
        Before(rules, s, p, q)
  {
    hide Agree, Flat, FreeList, DispatchAll;
    PassExact(rules, s);
    var s', flat, free := DispatchAll(rules, s), Flat(s.lists.ready), FreeList(s.cpus);
    var k := if |flat| < |free| then |flat| else |free|;
    if k == |flat| {
      forall p | 0 <= p < |s'.procs| ensures s'.procs[p].state != Ready {
        if s'.procs[p].state == Ready {
          ReadyInFlat(rules, s', p);
        }
      }
    } else {
      forall c | 0 <= c < |s'.cpus| ensures !Free(s'.cpus[c]) {
        assert c !in FreeList(s'.cpus);
      }
    }
    forall p, q | 0 <= p < |s.procs| && 0 <= q < |s.procs|
      && s.procs[p].state == Ready && s'.procs[p].state == Exec && s'.procs[q].state == Ready
      ensures Before(rules, s, p, q)
    {
      ReadyInFlat(rules, s, p);
      ReadyInFlat(rules, s', q);
      var j :| 0 <= j < |flat[k..]| && flat[k..][j] == q;
      assert p in flat[..k];
      var i :| 0 <= i < k && flat[..k][i] == p;
      FlatOrdered(rules, s, i, k + j);
    }
  }

  /** `p` stands before `q` in the order of urgency, then arrival. */
  ghost predicate Before(rules: Rules, s: Sched, p: nat, q: nat)
    requires p < |s.procs| && q < |s.procs|
  {
    && Level(rules, s.procs[p].eff) <= Level(rules, s.procs[q].eff)
    && exists i, j | 0 <= i < j < |Flat(s.lists.ready)| :: Flat(s.lists.ready)[i] == p && Flat(s.lists.ready)[j] == q
  }

  lemma ReadyInFlat(rules: Rules, s: Sched, p: nat)
    requires Listed(rules, s) && p < |s.procs| && s.procs[p].state == Ready
    ensures p in Flat(s.lists.ready)
  {
    hide Flat;
    var l := Level(rules, s.procs[p].eff);
    assert Real(s.lists, InReady(l)) && HoldsExactly(rules, s.procs, s.lists, InReady(l), None);
    assert Belongs(rules, s.procs, InReady(l), p);
    var j :| 0 <= j < |s.lists.ready[l]| && s.lists.ready[l][j] == p;
    FlatHas(s.lists.ready, l, j);
  }
}
