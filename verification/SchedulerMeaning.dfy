/**
 What every step of the Kernel Scheduler does, told of the states before and after it and without the functions
 that compute it: who changes, how, where he stands afterwards, and that nobody and nothing else changes.
*/
module SchedulerMeaning {
  import opened Base
  import opened SchedulerState
  import opened SchedulerSteps
  import opened SchedulerLists
  import opened SchedulerRuns
  import opened SchedulerCpus
  import opened SchedulerMutexes
  import opened SchedulerDispatch
  import opened SchedulerSafety
  import opened SchedulerCompaction

  // ---------- places ----------

  /** The ready queue of a priority: its own under CMN, priorities past the last queue sharing that one. */
  function Queue(rules: Rules, eff: byte): Place
    requires rules.queues > 0
  {
    InReady(if rules.algorithm != CMN then 0 else if eff < rules.queues then eff else rules.queues - 1)
  }

  /** `p` has left the list it stood in and stands at the end, or at the front, of the list at `at`, if there is
      one; everybody else stands where he stood, in the same order. */
  ghost predicate Moves(lists: Lists, lists': Lists, p: nat, at: Place, first: bool) {
    |lists'.ready| == |lists.ready| && forall h | Real(lists, h) :: MovesAt(lists, lists', p, at, first, h)
  }

  ghost predicate MovesAt(lists: Lists, lists': Lists, p: nat, at: Place, first: bool, h: Place) {
    var others := Without(ListAt(lists, h), p);
    ListAt(lists', h) == if h != at then others else if first then [p] + others else others + [p]
  }

  lemma PutMoves(rules: Rules, s: Sched, p: nat, at: Place)
    requires Listed(rules, s) && p < |s.procs|
    ensures var taken := Take(s.lists, Home(rules, s.procs[p]), p);
      Moves(s.lists, Put(taken, at, p), p, at, false) && Moves(s.lists, PutFirst(taken, at, p), p, at, true)
  {
    hide Home, ListAt;
    var home := Home(rules, s.procs[p]);
    forall h | Real(s.lists, h) && h != home ensures Without(ListAt(s.lists, h), p) == ListAt(s.lists, h) {
      assert HoldsExactly(rules, s.procs, s.lists, h, None);
      assert !Belongs(rules, s.procs, h, p);
      WithoutAbsent(ListAt(s.lists, h), p);
    }
  }

  /** The list without `p`, from wherever it is taken, is the list without `p`. */
  lemma TakeAny(rules: Rules, s: Sched, p: nat, at: Place)
    requires Listed(rules, s) && p < |s.procs|
    ensures var taken := Take(s.lists, Home(rules, s.procs[p]), p); Take(taken, at, p) == taken
  {
    hide Agree, Home, Take;
    Rehome(rules, s, p, s.procs[p], Take(s.lists, Home(rules, s.procs[p]), p));
  }

  lemma QueueIs(rules: Rules, pr: Process)
    requires rules.queues > 0
    ensures ReadyPlace(rules, pr) == Queue(rules, pr.eff)
    ensures pr.state == Ready ==> Home(rules, pr) == Queue(rules, pr.eff)
    ensures pr.state == Exec && pr.cpu.Some? ==> Home(rules, pr) == InExec
    ensures pr.state == Exec && pr.cpu.None? ==> Home(rules, pr) == Nowhere
    ensures pr.state == Block ==> Home(rules, pr) == InBlock
    ensures pr.state in {New, SuspBlock, SuspReady, Exit} ==> Home(rules, pr) == Nowhere
  {
  }

  // ---------- the meanings ----------

  /** The process that holds the CPU leaves it, and the CPU is free; it is ready unless a memory request of its
      own is open. */
  ghost predicate Frees(rules: Rules, s: Sched, s': Sched, c: nat, p: nat, first: bool)
    requires rules.queues > 0
  {
    && p < |s.procs| && c < |s.cpus|
    && s' == s.(lists := s'.lists, cpus := s.cpus[c := CpuInfo(true, false)],
                procs := s.procs[p := s.procs[p].(cpu := None, state := if s.procs[p].pending then Exec else Ready)])
    && Moves(s.lists, s'.lists, p, if s.procs[p].pending then Nowhere else Queue(rules, s.procs[p].eff), first)
  }

  ghost predicate Confirms(rules: Rules, s: Sched, s': Sched, c: nat, all: bool)
    requires rules.queues > 0
  {
    && c < |s.cpus|
    && (forall p | 0 <= p < |s.procs| && s.procs[p].cpu == Some(c) ::
         Frees(rules, s, s', c, p, all && rules.algorithm == CMN))
    && ((forall p | 0 <= p < |s.procs| :: s.procs[p].cpu != Some(c)) ==>
         s' == if all then s else s.(cpus := s.cpus[c := CpuInfo(true, false)]))
  }

  /** The CPUs with one of them available. */
  function Opened(cpus: seq<CpuInfo>, c: nat): seq<CpuInfo>
    requires c < |cpus|
  {
    cpus[c := cpus[c].(available := true)]
  }

  /** The process ends, and its CPU is available. */
  ghost predicate Ends(s: Sched, s': Sched, p: nat) {
    && p < |s.procs| && s.procs[p].cpu.Some? && s.procs[p].cpu.value < |s.cpus|
    && s' == s.(lists := s'.lists, procs := s.procs[p := s.procs[p].(state := Exit, cpu := None)],
                cpus := Opened(s.cpus, s.procs[p].cpu.value))
    && Moves(s.lists, s'.lists, p, Nowhere, false)
  }

  /** The process is blocked from now on, and its CPU is available. */
  ghost predicate Blocks(s: Sched, s': Sched, p: nat) {
    && p < |s.procs| && s.procs[p].cpu.Some? && s.procs[p].cpu.value < |s.cpus|
    && s' == s.(lists := s'.lists,
                procs := s.procs[p := s.procs[p].(state := Block, cpu := None, blockedSince := s.clock)],
                cpus := Opened(s.cpus, s.procs[p].cpu.value))
    && Moves(s.lists, s'.lists, p, InBlock, false)
  }

  /** The process changes its state to one that goes with a list, and stands at the end of that list. */
  ghost predicate Turns(s: Sched, s': Sched, p: nat, pr: Process, at: Place) {
    && p < |s.procs| && s' == s.(lists := s'.lists, procs := s.procs[p := pr])
    && Moves(s.lists, s'.lists, p, at, false)
  }

  /** A blocked process is ready, or, if it is suspended, ready to be resumed. */
  ghost predicate Wakes(rules: Rules, s: Sched, s': Sched, p: nat, pr: Process)
    requires rules.queues > 0
  {
    if pr.state == SuspBlock then Turns(s, s', p, pr.(state := SuspReady), Nowhere)
    else Turns(s, s', p, pr.(state := Ready), Queue(rules, pr.eff))
  }

  /** The answer to a memory request. */
  ghost predicate Answers(rules: Rules, s: Sched, s': Sched, p: nat, ok: bool)
    requires rules.queues > 0 && p < |s.procs|
  {
    var pr := s.procs[p].(pending := false);
    if ok then
      if pr.cpu.Some? then s' == s.(procs := s.procs[p := pr])
      else Turns(s, s', p, pr.(state := Ready), Queue(rules, pr.eff))
    else
      && s' == s.(lists := s'.lists, procs := s.procs[p := pr.(state := Exit, cpu := None)], cpus := s'.cpus)
      && Moves(s.lists, s'.lists, p, Nowhere, false)
      && |s'.cpus| == |s.cpus|
      && forall c | 0 <= c < |s.cpus| :: s'.cpus[c] ==
           if pr.cpu == Some(c) && !s.cpus[c].evicting then s.cpus[c].(available := true) else s.cpus[c]
  }

  /** A lock by `p`: a free mutex is now its own; for its own nothing happens; and for another's it is blocked
      as the last of those who wait, and, under CMN, the owner is as urgent as `p` at least, going to the end of
      the queue of its new priority if it is ready. */
  ghost predicate Locks(rules: Rules, s: Sched, s': Sched, p: nat, m: nat)
    requires rules.queues > 0 && p < |s.procs| && m < |s.mutexes|
  {
    var (mx, pr) := (s.mutexes[m], s.procs[p]);
    if !mx.locked then
      s' == s.(mutexes := s.mutexes[m := mx.(locked := true, owner := Some(p))],
               procs := s.procs[p := pr.(owned := pr.owned + [m])])
    else if mx.owner == Some(p) then s' == s
    else
      && mx.owner.Some? && mx.owner.value < |s.procs| && pr.cpu.Some? && pr.cpu.value < |s.cpus|
      && LocksOut(rules, s, s', p, m, mx.owner.value)
  }

  ghost predicate LocksOut(rules: Rules, s: Sched, s': Sched, p: nat, m: nat, o: nat)
    requires rules.queues > 0 && p < |s.procs| && m < |s.mutexes| && o < |s.procs|
    requires s.procs[p].cpu.Some? && s.procs[p].cpu.value < |s.cpus|
  {
    var (mx, pr, owner) := (s.mutexes[m], s.procs[p], s.procs[o]);
    var urged := rules.algorithm == CMN && pr.eff < owner.eff;
    && s' == s.(lists := s'.lists,
                procs := s.procs[p := pr.(state := Block, cpu := None, blockedSince := s.clock)]
                                [o := if urged then owner.(eff := pr.eff) else owner],
                mutexes := s.mutexes[m := mx.(waiting := mx.waiting + [p])],
                cpus := Opened(s.cpus, pr.cpu.value))
    && exists between: Lists ::
      && Moves(s.lists, between, p, InBlock, false)
      && if urged && owner.state == Ready then Moves(between, s'.lists, o, Queue(rules, pr.eff), false)
         else s'.lists == between
  }

  /** `prio` is the most urgent of the base of `p` and of all who wait for a mutex of `p` other than `m`. */
  ghost predicate LeftWith(s: Sched, p: nat, m: nat, prio: byte)
    requires p < |s.procs|
  {
    && prio <= s.procs[p].base
    && (forall n, q | 0 <= n < |s.mutexes| && n != m && s.mutexes[n].owner == Some(p) && q in s.mutexes[n].waiting
          && q < |s.procs| :: prio <= s.procs[q].eff)
    && (prio < s.procs[p].base ==> exists n, q | 0 <= n < |s.mutexes| && n != m && s.mutexes[n].owner == Some(p)
          && q in s.mutexes[n].waiting :: q < |s.procs| && s.procs[q].eff == prio)
  }

  /** An unlock by `p`: nothing happens to a mutex of another's; its own goes to the first of those who wait, who
      wakes, or to nobody; and `p` is left, under CMN, with the priority it would have without that mutex. */
  ghost predicate Unlocks(rules: Rules, s: Sched, s': Sched, p: nat, m: nat)
    requires rules.queues > 0 && p < |s.procs| && m < |s.mutexes|
  {
    if s.mutexes[m].owner != Some(p) then s' == s
    else
      exists prio: byte ::
        && (if rules.algorithm == CMN then LeftWith(s, p, m, prio) else prio == s.procs[p].eff)
        && UnlocksTo(rules, s, s', p, m, prio)
  }

  ghost predicate UnlocksTo(rules: Rules, s: Sched, s': Sched, p: nat, m: nat, prio: byte)
    requires rules.queues > 0 && p < |s.procs| && m < |s.mutexes|
  {
    var (mx, pr) := (s.mutexes[m], s.procs[p]);
    var left := s.procs[p := pr.(owned := Without(pr.owned, m), eff := prio)];
    if mx.waiting == [] then
      s' == s.(procs := left, mutexes := s.mutexes[m := mx.(locked := false, owner := None)])
    else
      var next := mx.waiting[0];
      next < |s.procs| && next != p && HandsOver(rules, s.(procs := left), s', m, next)
  }

  ghost predicate HandsOver(rules: Rules, s: Sched, s': Sched, m: nat, next: nat)
    requires rules.queues > 0 && m < |s.mutexes| && s.mutexes[m].waiting != [] && next < |s.procs|
  {
    var mx := s.mutexes[m];
    var to := s.procs[next].(owned := s.procs[next].owned + [m]);
    var given := s.mutexes[m := mx.(locked := true, owner := Some(next), waiting := mx.waiting[1..])];
    Wakes(rules, s.(procs := s.procs[next := to], mutexes := given), s', next, to)
  }

  /** The process has been blocked for the timeout. */
  ghost predicate Late(rules: Rules, s: Sched, p: nat) {
    p < |s.procs| && s.procs[p].state == Block && s.procs[p].blockedSince + rules.suspensionTimeout <= s.clock
  }

  /** What stands in `part` stands in `list`, in the same order. */
  ghost predicate InOrder(list: seq<nat>, part: seq<nat>) {
    forall i, j | 0 <= i < j < |part| :: Ordered(list, part[i], part[j])
  }

  ghost predicate Ordered(list: seq<nat>, p: nat, q: nat) {
    exists a, b | 0 <= a < b < |list| :: list[a] == p && list[b] == q
  }

  /** A sweep suspends exactly those who are late, and is owed the confirmation of exactly those. */
  ghost predicate Sweeps(rules: Rules, w: World, w': World) {
    var (s, s') := (w.s, w'.s);
    && s' == s.(procs := s'.procs, lists := s.lists.(block := s'.lists.block)) && |s'.procs| == |s.procs|
    && (forall p | 0 <= p < |s.procs| ::
         s'.procs[p] == if Late(rules, s, p) then s.procs[p].(state := SuspBlock) else s.procs[p])
    && (forall p :: p in s'.lists.block <==> p in s.lists.block && !Late(rules, s, p))
    && InOrder(s.lists.block, s'.lists.block)
    && w'.h == w.h.(swapping := w'.h.swapping)
    && (forall p: nat :: p in w'.h.swapping <==> p in w.h.swapping || Late(rules, s, p))
  }

  /** A suspension that is confirmed puts the process in the suspended list; one that is refused undoes it: a
      process that was woken meanwhile is ready, any other is blocked again, from now on. */
  ghost predicate SwapsOut(rules: Rules, s: Sched, s': Sched, p: nat, ok: bool)
    requires rules.queues > 0 && p < |s.procs|
  {
    var pr := s.procs[p];
    if ok then s' == s.(susp := s.susp + [p])
    else if pr.state == SuspReady then Turns(s, s', p, pr.(state := Ready), Queue(rules, pr.eff))
    else Turns(s, s', p, pr.(state := Block, blockedSince := s.clock), InBlock)
  }

  /** A resumed process leaves the suspended list, and is ready or blocked as it would be without suspension. */
  ghost predicate SwapsIn(rules: Rules, s: Sched, s': Sched, p: nat)
    requires rules.queues > 0 && p < |s.procs|
  {
    var (pr, out) := (s.procs[p], s.(susp := Without(s.susp, p)));
    if pr.state == SuspReady then Turns(out, s', p, pr.(state := Ready), Queue(rules, pr.eff))
    else Turns(out, s', p, pr.(state := Block, blockedSince := s.clock), InBlock)
  }

  // ---------- that the steps mean this ----------

  lemma CreatedMeans(rules: Rules, w: World, p: nat)
    requires Kept(rules, w) && p < |w.s.procs| && w.s.procs[p].state == New
    ensures Turns(w.s, Created(rules, w.s, p), p, w.s.procs[p].(state := Ready), Queue(rules, w.s.procs[p].eff))
  {
    hide Agree, CpusKept, SuspKept, WaitsKept, OwnersKept, UrgencyKept, GrantsKept, Moves, Take, Put, Queue, Home;
    QueueIs(rules, w.s.procs[p]);
    QueueIs(rules, w.s.procs[p].(state := Ready));
    PutMoves(rules, w.s, p, Queue(rules, w.s.procs[p].eff));
    PlaceNowhere(w.s.lists, p);
  }

  lemma DemoteMeans(rules: Rules, w: World, c: nat, p: nat, all: bool)
    requires Kept(rules, w) && p < |w.s.procs| && w.s.procs[p].cpu == Some(c)
    ensures c < |w.s.cpus| && w.s.procs[p].state == Exec
    ensures Frees(rules, w.s, if all then Settle(Demote(rules, w.s, p, true), c)
                              else Demote(rules, Settle(w.s, c), p, false), c, p, all && rules.algorithm == CMN)
  {
    hide Agree, SuspKept, WaitsKept, OwnersKept, UrgencyKept, GrantsKept, Moves, Take, Put, PutFirst, Queue, Home;
    assert CpuKept(w.s, p);
    QueueIs(rules, w.s.procs[p]);
    QueueIs(rules, w.s.procs[p].(state := Ready, cpu := None));
    PutMoves(rules, w.s, p, Queue(rules, w.s.procs[p].eff));
    PutMoves(rules, w.s, p, Nowhere);
    PlaceNowhere(Take(w.s.lists, InExec, p), p);
    FirstNowhere(w.s.lists, Take(w.s.lists, InExec, p), p);
  }

  lemma FirstNowhere(lists: Lists, lists': Lists, p: nat)
    ensures Moves(lists, lists', p, Nowhere, false) ==> Moves(lists, lists', p, Nowhere, true)
  {
    hide ListAt;
    if Moves(lists, lists', p, Nowhere, false) {
      forall h | Real(lists, h) ensures MovesAt(lists, lists', p, Nowhere, true, h) {
        assert MovesAt(lists, lists', p, Nowhere, false, h);
      }
    }
  }

  lemma ConfirmMeans(rules: Rules, w: World, c: nat, all: bool)
    requires Kept(rules, w) && c in w.h.orders
    ensures Confirms(rules, w.s, if all then ConfirmAll(rules, w.s, c) else Confirm(rules, w.s, c), c, all)
  {
    hide Agree, SuspKept, WaitsKept, OwnersKept, UrgencyKept, GrantsKept, Frees, Demote, Holder;
    assert OrderKept(w, c);
    forall p | 0 <= p < |w.s.procs| && w.s.procs[p].cpu == Some(c)
      ensures Frees(rules, w.s, if all then ConfirmAll(rules, w.s, c) else Confirm(rules, w.s, c), c, p,
                all && rules.algorithm == CMN)
    {
      HolderUnique(w, c, p);
      DemoteMeans(rules, w, c, p, all);
    }
  }

  lemma AnswerMeans(rules: Rules, w: World, p: nat, ok: bool)
    requires Kept(rules, w) && p < |w.s.procs| && w.s.procs[p].pending
    ensures Answers(rules, w.s, SegmentResult(rules, w.s, p, ok), p, ok)
  {
    hide Agree, SuspKept, WaitsKept, OwnersKept, UrgencyKept, GrantsKept, Moves, Take, Put, Queue, Home;
    assert CpuKept(w.s, p);
    QueueIs(rules, w.s.procs[p]);
    QueueIs(rules, w.s.procs[p].(state := Ready, pending := false));
    QueueIs(rules, w.s.procs[p].(state := Exit, cpu := None, pending := false));
    PutMoves(rules, w.s, p, Queue(rules, w.s.procs[p].eff));
    PutMoves(rules, w.s, p, Nowhere);
    PlaceNowhere(w.s.lists, p);
    PlaceNowhere(Take(w.s.lists, InExec, p), p);
    TakeAny(rules, w.s, p, InExec);
    TakeAny(rules, w.s, p, ReadyPlace(rules, w.s.procs[p]));
  }

  lemma EndMeans(rules: Rules, w: World, p: nat)
    requires Kept(rules, w) && Runs(w.s, p)
    ensures Ends(w.s, End(w.s, p, w.s.procs[p].cpu.value), p)
  {
    hide Agree, SuspKept, WaitsKept, OwnersKept, UrgencyKept, GrantsKept, Moves, Take, Put, Home;
    assert CpuKept(w.s, p);
    QueueIs(rules, w.s.procs[p]);
    PutMoves(rules, w.s, p, Nowhere);
    PlaceNowhere(Take(w.s.lists, InExec, p), p);
  }

  lemma BlockMeans(rules: Rules, s: Sched, p: nat)
    requires Listed(rules, s) && rules.queues > 0 && Runs(s, p)
    ensures Turns(s, BlockProcess(s, p), p, s.procs[p].(state := Block, cpu := None, blockedSince := s.clock), InBlock)
  {
    hide Agree, Moves, Take, Put, Home;
    QueueIs(rules, s.procs[p]);
    PutMoves(rules, s, p, InBlock);
  }

  lemma IoStartMeans(rules: Rules, w: World, p: nat)
    requires Kept(rules, w) && Runs(w.s, p)
    ensures Blocks(w.s, StartIo(w.s, p, w.s.procs[p].cpu.value), p)
  {
    hide Agree, SuspKept, WaitsKept, OwnersKept, UrgencyKept, GrantsKept, Moves, BlockProcess;
    assert CpuKept(w.s, p);
    BlockMeans(rules, w.s, p);
  }

  lemma WakeMeans(rules: Rules, s: Sched, p: nat)
    requires Listed(rules, s) && rules.queues > 0 && p < |s.procs| && Blocked(s.procs[p])
    ensures Wakes(rules, s, Wake(rules, s, p), p, s.procs[p])
  {
    hide Agree, Moves, Take, Put, Queue, Home;
    QueueIs(rules, s.procs[p]);
    QueueIs(rules, s.procs[p].(state := Ready));
    PutMoves(rules, s, p, Queue(rules, s.procs[p].eff));
    PutMoves(rules, s, p, Nowhere);
    TakeAny(rules, s, p, InBlock);
    PlaceNowhere(s.lists, p);
    PlaceNowhere(Take(s.lists, InBlock, p), p);
  }

  lemma ReprioritizeMeans(rules: Rules, s: Sched, p: nat, prio: byte)
    requires Listed(rules, s) && rules.queues > 0 && p < |s.procs|
    ensures var s' := Reprioritize(rules, s, p, prio);
      && s' == s.(lists := s'.lists, procs := s.procs[p := s.procs[p].(eff := prio)])
      && if s.procs[p].state == Ready then Moves(s.lists, s'.lists, p, Queue(rules, prio), false)
         else s'.lists == s.lists
  {
    hide Agree, Moves, Take, Put, Queue, Home;
    QueueIs(rules, s.procs[p]);
    QueueIs(rules, s.procs[p].(eff := prio));
    PutMoves(rules, s, p, Queue(rules, prio));
  }

  lemma LockMeans(rules: Rules, w: World, p: nat, m: nat)
    requires Kept(rules, w) && Runs(w.s, p) && m < |w.s.mutexes|
    ensures Locks(rules, w.s, Lock(rules, w.s, p, m), p, m)
  {
    hide Agree, SuspKept, WaitsKept, OwnersKept, UrgencyKept, GrantsKept, BlockProcess, Reprioritize, LocksOut;
    MutexFacts(rules, w, m);
    assert CpuKept(w.s, p);
    var mx := w.s.mutexes[m];
    if mx.locked && mx.owner != Some(p) {
      LockOutMeans(rules, w.s, p, m, mx.owner.value);
    }
  }

  lemma LockOutMeans(rules: Rules, s: Sched, p: nat, m: nat, o: nat)
    requires Listed(rules, s) && rules.queues > 0 && Runs(s, p) && m < |s.mutexes| && o < |s.procs| && o != p
    requires s.procs[p].cpu.value < |s.cpus| && s.mutexes[m].locked && s.mutexes[m].owner == Some(o)
    ensures LocksOut(rules, s, Lock(rules, s, p, m), p, m, o)
  {
    hide Agree, Moves, BlockProcess, Reprioritize, Queue;
    var mx := s.mutexes[m];
    var s1 := SetMutex(s, m, mx.(waiting := mx.waiting + [p]));
    BlockMeans(rules, s1, p);
    BlockListed(rules, s1, p);
    var s2 := BlockProcess(s1, p);
    ReprioritizeMeans(rules, s2, o, s2.procs[p].eff);
    assert Moves(s.lists, s2.lists, p, InBlock, false);
  }

  lemma UnlockMeans(rules: Rules, w: World, p: nat, m: nat)
    requires Kept(rules, w) && Runs(w.s, p) && m < |w.s.mutexes|
    requires w.s.mutexes[m].waiting != [] ==> w.s.mutexes[m].waiting[0] < |w.s.procs|
    ensures Unlocks(rules, w.s, Unlock(rules, w.s, p, m), p, m)
  {
    hide Agree, SuspKept, WaitsKept, UrgencyKept, GrantsKept, Release, HandOver, LeftWith, UnlocksTo;
    MutexFacts(rules, w, m);
    if w.s.mutexes[m].owner == Some(p) {
      ReleaseMeans(rules, w, p, m);
      var prio := Release(rules, w.s, p, m).procs[p].eff;
      HandOverMeans(rules, w, p, m, prio);
    }
  }

  lemma ReleaseMeans(rules: Rules, w: World, p: nat, m: nat)
    requires Kept(rules, w) && Runs(w.s, p) && m < |w.s.mutexes| && w.s.mutexes[m].owner == Some(p)
    ensures var s1 := Release(rules, w.s, p, m);
      && p < |s1.procs| && (if rules.algorithm == CMN then LeftWith(w.s, p, m, s1.procs[p].eff)
                            else s1.procs[p].eff == w.s.procs[p].eff)
      && s1 == w.s.(procs :=
           w.s.procs[p := w.s.procs[p].(owned := Without(w.s.procs[p].owned, m), eff := s1.procs[p].eff)])
  {
    hide Agree, SuspKept, UrgencyKept, GrantsKept, Inherited, Moves;
    ReleaseEffect(rules, w.s, p, m);
    ReleaseLowers(rules, w.s, p, m);
    assert OwnedKept(w.s, p);
    ReleaseStays(rules, w.s, p, m);
    ReleaseLeaves(rules, w, p, m);
  }

  /** A running process stands in no ready queue. */
  lemma ReleaseStays(rules: Rules, s: Sched, p: nat, m: nat)
    requires Runs(s, p)
    ensures Release(rules, s, p, m).lists == s.lists
  {
    hide Inherited, Put, Take;
  }

  lemma ReleaseLeaves(rules: Rules, w: World, p: nat, m: nat)
    requires Kept(rules, w) && Runs(w.s, p) && m < |w.s.mutexes| && w.s.mutexes[m].owner == Some(p)
    requires Lowered(rules, w.s, Release(rules, w.s, p, m), p, m)
    ensures rules.algorithm == CMN ==> LeftWith(w.s, p, m, Release(rules, w.s, p, m).procs[p].eff)
    ensures rules.algorithm != CMN ==> Release(rules, w.s, p, m).procs[p].eff == w.s.procs[p].eff
  {
    hide Release, Agree, CpusKept, SuspKept, UrgencyKept, GrantsKept;
    var s1 := Release(rules, w.s, p, m);
    assert OwnedKept(w.s, p);
    NotWaiting(w, p);
    if rules.algorithm == CMN {
      forall n, q | 0 <= n < |w.s.mutexes| && n != m && w.s.mutexes[n].owner == Some(p) && q in w.s.mutexes[n].waiting
        && q < |w.s.procs| ensures s1.procs[p].eff <= w.s.procs[q].eff
      {
        assert Owns(w.s, p, n);
        assert n in s1.procs[p].owned;
      }
      if s1.procs[p].eff < w.s.procs[p].base {
        var n, q :| n in s1.procs[p].owned && n < |w.s.mutexes| && q in w.s.mutexes[n].waiting && q < |w.s.procs|
          && w.s.procs[q].eff == s1.procs[p].eff;
        assert Owns(w.s, p, n);
        assert w.s.mutexes[n].owner == Some(p) && q in w.s.mutexes[n].waiting;
      }
    }
  }

  lemma HandOverMeans(rules: Rules, w: World, p: nat, m: nat, prio: byte)
    requires Kept(rules, w) && Runs(w.s, p) && m < |w.s.mutexes| && w.s.mutexes[m].owner == Some(p)
    requires w.s.mutexes[m].waiting != [] ==> w.s.mutexes[m].waiting[0] < |w.s.procs|
    requires Release(rules, w.s, p, m)
          == w.s.(procs := w.s.procs[p := w.s.procs[p].(owned := Without(w.s.procs[p].owned, m), eff := prio)])
    ensures UnlocksTo(rules, w.s, Unlock(rules, w.s, p, m), p, m, prio)
  {
    hide Release, Agree, CpusKept, SuspKept, WaitsKept, OwnersKept, UrgencyKept, GrantsKept, Wakes, Wake;
    MutexFacts(rules, w, m);
    ReleaseListed(rules, w.s, p, m);
    var s1 := Release(rules, w.s, p, m);
    if w.s.mutexes[m].waiting != [] {
      var next := w.s.mutexes[m].waiting[0];
      var s2 := SetMutex(s1, m,
        s1.mutexes[m].(locked := true, owner := Some(next), waiting := s1.mutexes[m].waiting[1..]));
      var pr := s1.procs[next];
      var s3 := Update(s2, next, pr.(owned := pr.owned + [m]));
      HomeOwned(rules, pr, pr.owned + [m]);
      hide Home;
      Stay(rules, s1, s3.procs);
      WakeMeans(rules, s3, next);
    } else {
      HandOverNobody(rules, s1, m);
    }
  }

  // ---------- suspension ----------

  lemma {:induction false} OverdueInOrder(rules: Rules, s: Sched, list: seq<nat>, overdue: bool)
    ensures InOrder(list, Overdue(rules, s, list, overdue))
  {
    hide Expired;
    if list != [] {
      var n := |list| - 1;
      var front, part := Overdue(rules, s, list[..n], overdue), Overdue(rules, s, list, overdue);
      OverdueInOrder(rules, s, list[..n], overdue);
      forall i, j | 0 <= i < j < |part| ensures Ordered(list, part[i], part[j]) {
        if j < |front| {
          assert Ordered(list[..n], part[i], part[j]);
          var a, b :| 0 <= a < b < |list[..n]| && list[..n][a] == part[i] && list[..n][b] == part[j];
          assert list[a] == part[i] && list[b] == part[j];
        } else {
          assert part[i] in front;
          assert part[i] in list[..n];
          var a :| 0 <= a < n && list[..n][a] == part[i];
          assert list[a] == part[i] && list[n] == part[j];
        }
      }
    }
  }

  lemma SweepMeans(rules: Rules, w: World)
    requires Kept(rules, w)
    ensures var late := Overdue(rules, w.s, w.s.lists.block, true);
      Sweeps(rules, w, World(Sweep(rules, w.s), w.h.(swapping := w.h.swapping + ToSet(late))))
  {
    hide Overdue, Mark, CpusKept, SuspKept, WaitsKept, OwnersKept, UrgencyKept, GrantsKept;
    var s, late := w.s, Overdue(rules, w.s, w.s.lists.block, true);
    OverdueInOrder(rules, s, s.lists.block, false);
    assert Real(s.lists, InBlock) && HoldsExactly(rules, s.procs, s.lists, InBlock, None);
    forall p: nat ensures p in late <==> Late(rules, s, p) {
      assert p in ListAt(s.lists, InBlock) <==> Belongs(rules, s.procs, InBlock, p);
    }
  }

  lemma SwapOutMeans(rules: Rules, w: World, p: nat, ok: bool)
    requires Kept(rules, w) && p in w.h.swapping
    ensures p < |w.s.procs| && Asleep(w.s.procs[p])
    ensures SwapsOut(rules, w.s, SwappedOut(rules, w.s, p, ok), p, ok)
  {
    hide Agree, CpusKept, WaitsKept, OwnersKept, UrgencyKept, GrantsKept, Moves, Take, Put, Queue, Home;
    QueueIs(rules, w.s.procs[p]);
    QueueIs(rules, w.s.procs[p].(state := Ready));
    PutMoves(rules, w.s, p, Queue(rules, w.s.procs[p].eff));
    PutMoves(rules, w.s, p, InBlock);
    PlaceNowhere(w.s.lists, p);
  }

  lemma SwapInMeans(rules: Rules, w: World, p: nat)
    requires Kept(rules, w) && p in w.s.susp
    ensures p < |w.s.procs| && Asleep(w.s.procs[p])
    ensures SwapsIn(rules, w.s, SwappedIn(rules, w.s, p), p)
  {
    hide Agree, CpusKept, WaitsKept, OwnersKept, UrgencyKept, GrantsKept, Moves, Take, Put, Queue, Home;
    QueueIs(rules, w.s.procs[p]);
    QueueIs(rules, w.s.procs[p].(state := Ready));
    PutMoves(rules, w.s, p, Queue(rules, w.s.procs[p].eff));
    PutMoves(rules, w.s, p, InBlock);
    PlaceNowhere(w.s.lists, p);
  }

  // ---------- the dispatch pass and its preemption ----------

  /** The first process of the first queue that is not empty stands in queue `l`. */
  ghost predicate Heads(s: Sched, l: nat) {
    && l < |s.lists.ready| && s.lists.ready[l] != [] && s.lists.ready[l][0] < |s.procs|
    && forall k | 0 <= k < l :: s.lists.ready[k] == []
  }

  /** The `i`-th executing process is the first of those than whom nobody who executes is less urgent. */
  ghost predicate Victim(s: Sched, i: nat) {
    && i < |s.lists.exec| && (forall j | 0 <= j < |s.lists.exec| :: s.lists.exec[j] < |s.procs|)
    && (forall j | 0 <= j < |s.lists.exec| :: s.procs[s.lists.exec[j]].eff <= s.procs[s.lists.exec[i]].eff)
    && (forall j | 0 <= j < i :: s.procs[s.lists.exec[j]].eff < s.procs[s.lists.exec[i]].eff)
  }

  /** The `i`-th executing process is on CPU `c`, and less urgent than the head of the ready queues. */
  ghost predicate Outranked(s: Sched, c: nat, i: nat, l: nat) {
    && Victim(s, i) && Heads(s, l) && s.procs[s.lists.exec[i]].cpu == Some(c)
    && s.procs[s.lists.ready[l][0]].eff < s.procs[s.lists.exec[i]].eff
  }

  /** What a pass that ends in `s'` is to preempt: preemption is on, somebody is still ready, no CPU is free, and
      the least urgent of those who execute is less urgent than the head of the ready queues. */
  ghost predicate Preempts(rules: Rules, s': Sched, c: nat) {
    && rules.algorithm == CMN && rules.preemption && (forall d | 0 <= d < |s'.cpus| :: !Free(s'.cpus[d]))
    && exists i: nat, l: nat :: Outranked(s', c, i, l)
  }

  lemma {:induction false} LeastUrgentFirst(procs: seq<Process>, list: seq<nat>) returns (i: nat)
    requires list != [] && forall j | 0 <= j < |list| :: list[j] < |procs|
    ensures i < |list| && LeastUrgent(procs, list) == Some(list[i])
    ensures forall j | 0 <= j < |list| :: procs[list[j]].eff <= procs[list[i]].eff
    ensures forall j | 0 <= j < i :: procs[list[j]].eff < procs[list[i]].eff
  {
    var n := |list| - 1;
    if n == 0 {
      i := 0;
    } else {
      i := LeastUrgentFirst(procs, list[..n]);
      if procs[list[n]].eff > procs[list[i]].eff {
        i := n;
      }
    }
  }

  /** The choice made by the code is that one. */
  lemma PreemptedExact(rules: Rules, s: Sched, c: nat)
    requires WellFormed(rules) && Listed(rules, s) && forall j | 0 <= j < |s.lists.exec| :: s.lists.exec[j] < |s.procs|
    ensures Preempted(rules, s) == Some(c) <==> Preempts(rules, s, c)
  {
    hide Agree, Flat, FreeList, LeastUrgent, FreeCpu, FirstReady;
    NextExact(rules, s);
    FreeCpuExact(s.cpus);
    var l := FirstReadyExact(s.lists.ready);
    if Flat(s.lists.ready) != [] {
      assert Heads(s, l);
    } else {
      NothingReady(s.lists.ready);
    }
    forall k: nat | Heads(s, k) ensures k == l {
      HeadUnique(s, k, l);
    }
    if s.lists.exec != [] {
      var i := LeastUrgentFirst(s.procs, s.lists.exec);
      assert Victim(s, i);
      if Preempted(rules, s) == Some(c) {
        assert Outranked(s, c, i, l);
      }
    }
  }

  lemma FreeCpuExact(cpus: seq<CpuInfo>)
    ensures FreeCpu(cpus).None? <==> forall d | 0 <= d < |cpus| :: !Free(cpus[d])
  {
  }

  lemma HeadUnique(s: Sched, k: nat, l: nat)
    requires Heads(s, k)
    requires Flat(s.lists.ready) != [] ==> Heads(s, l)
    ensures k == l || Flat(s.lists.ready) == []
  {
  }

  lemma NothingReady(queues: seq<seq<nat>>)
    requires Flat(queues) == []
    ensures forall l | 0 <= l < |queues| :: queues[l] == []
  {
    forall l | 0 <= l < |queues| ensures queues[l] == [] {
      if queues[l] != [] {
        FlatHas(queues, l, 0);
      }
    }
  }

  /** The effect of an order that may be refused. */
  ghost predicate OrderedTo(w: World, w': World, c: nat) {
    && w'.s == w.s.(cpus := w'.s.cpus) && w'.h == w.h.(orders := w'.h.orders) && |w'.s.cpus| == |w.s.cpus|
    && (forall d | 0 <= d < |w.s.cpus| ::
         w'.s.cpus[d] == if d == c then w.s.cpus[d].(evicting := true) else w.s.cpus[d])
    && (forall d: nat :: d in w'.h.orders <==> d in w.h.orders || (d == c && c < |w.s.cpus| && !w.s.cpus[c].evicting))
    && (forall d | d in w.h.orders :: w'.h.orders[d] == w.h.orders[d])
    && (c in w'.h.orders && c !in w.h.orders ==>
         && w'.h.orders[c].caller == None && w'.h.orders[c].target < |w.s.procs|
         && w.s.procs[w'.h.orders[c].target].cpu == Some(c))
  }

  lemma OrderMeans(w: World, c: nat)
    requires Holder(w.s.procs, c).Some? && forall d | d in w.h.orders :: d < |w.s.cpus| && w.s.cpus[d].evicting
    ensures OrderedTo(w, OrderSent(w, c, None), c)
  {
    hide Holder;
    HolderHolds(w.s.procs, c);
  }

  lemma HolderHolds(procs: seq<Process>, c: nat)
    requires Holder(procs, c).Some?
    ensures Holder(procs, c).value < |procs| && procs[Holder(procs, c).value].cpu == Some(c)
  {
  }

  /** A pass dispatches as many of the ready as there are free CPUs, and then, exactly if there is one to preempt,
      orders its CPU to evict it. */
  ghost predicate Passes(rules: Rules, w: World, w': World) {
    var (flat, free) := (Flat(w.s.lists.ready), FreeList(w.s.cpus));
    exists s1: Sched ::
      && Dispatched(rules, w.s, s1, if |flat| < |free| then |flat| else |free|)
      && (forall c: nat | Preempts(rules, s1, c) :: OrderedTo(World(s1, w.h), w', c))
      && ((forall c: nat :: !Preempts(rules, s1, c)) ==> w' == World(s1, w.h))
  }

  lemma PassMeans(rules: Rules, w: World)
    requires Kept(rules, w)
    ensures Passes(rules, w, Pass(rules, w))
  {
    hide Good, Flat, FreeList, DispatchAll, Preempted, Preempts, OrderSent, OrderedTo, Dispatched;
    GoodListed(rules, w);
    PassExact(rules, w.s);
    PassGood(rules, w);
    var s1 := DispatchAll(rules, w.s);
    ExecKnown(rules, s1);
    forall c: nat ensures Preempted(rules, s1) == Some(c) <==> Preempts(rules, s1, c) {
      PreemptedExact(rules, s1, c);
    }
    if Preempted(rules, s1).Some? {
      var c := Preempted(rules, s1).value;
      PreemptsHeld(rules, s1, c);
      GoodOrders(rules, World(s1, w.h));
      OrderMeans(World(s1, w.h), c);
    }
  }

  lemma PreemptsHeld(rules: Rules, s: Sched, c: nat)
    requires Preempts(rules, s, c)
    ensures Holder(s.procs, c).Some?
  {
    var i: nat, l: nat :| Outranked(s, c, i, l);
    HeldBy(s.procs, s.lists.exec[i], c);
  }

  lemma GoodOrders(rules: Rules, w: World)
    requires Good(rules, w)
    ensures forall d | d in w.h.orders :: d < |w.s.cpus| && w.s.cpus[d].evicting
  {
    forall d | d in w.h.orders ensures d < |w.s.cpus| && w.s.cpus[d].evicting {
      assert OrderKept(w, d);
    }
  }

  /** A pass leaves a new order for a CPU if and only if CMN and preemption are on, somebody is still ready, no CPU
      is free, the process on that CPU is the first of the least urgent ones and less urgent than the head of the
      ready queues, and no eviction of that CPU was under way. */
  lemma PassPreempts(rules: Rules, w: World, c: nat)
    requires Kept(rules, w)
    ensures var w' := Pass(rules, w);
      && (c in w'.h.orders && c !in w.h.orders
          <==> Preempts(rules, w'.s, c) && c < |w.s.cpus| && !w.s.cpus[c].evicting)
      && (c in w'.h.orders && c !in w.h.orders ==>
          && w'.h.orders[c].caller == None && w'.h.orders[c].target < |w'.s.procs|
          && w'.s.procs[w'.h.orders[c].target].cpu == Some(c))
  {
    hide Good, Flat, FreeList, Pass, Preempts;
    PassMeans(rules, w);
    GoodOrders(rules, w);
    var w' := Pass(rules, w);
    var flat, free := Flat(w.s.lists.ready), FreeList(w.s.cpus);
    var s1: Sched :| Dispatched(rules, w.s, s1, if |flat| < |free| then |flat| else |free|)
      && (forall d: nat | Preempts(rules, s1, d) :: OrderedTo(World(s1, w.h), w', d))
      && ((forall d: nat :: !Preempts(rules, s1, d)) ==> w' == World(s1, w.h));
    if exists d: nat :: Preempts(rules, s1, d) {
      var d: nat :| Preempts(rules, s1, d);
      PreemptsSame(rules, s1, w'.s, c, d);
      PreemptsOne(rules, s1, c, d);
      assert OrderedTo(World(s1, w.h), w', d);
      assert Preempts(rules, w'.s, c) <==> c == d;
      assert c < |w.s.cpus| ==> s1.cpus[c].evicting == w.s.cpus[c].evicting;
    } else {
      assert w' == World(s1, w.h);
      assert !Preempts(rules, s1, c);
    }
  }

  /** Marking the CPU of the process to preempt changes nothing about whom to preempt. */
  lemma PreemptsSame(rules: Rules, s: Sched, s': Sched, c: nat, d: nat)
    requires Preempts(rules, s, d) && s' == s.(cpus := s'.cpus) && |s'.cpus| == |s.cpus|
    requires forall e | 0 <= e < |s.cpus| ::
      s'.cpus[e] == if e == d then s.cpus[e].(evicting := true) else s.cpus[e]
    ensures Preempts(rules, s', c) <==> Preempts(rules, s, c)
  {
    forall e | 0 <= e < |s'.cpus| ensures !Free(s'.cpus[e]) {
      assert !Free(s.cpus[e]);
    }
    forall i: nat, l: nat ensures Outranked(s', c, i, l) <==> Outranked(s, c, i, l) {
    }
  }

  lemma PreemptsOne(rules: Rules, s: Sched, c: nat, d: nat)
    requires Preempts(rules, s, d)
    ensures Preempts(rules, s, c) ==> c == d
  {
    if Preempts(rules, s, c) {
      var i: nat, l: nat :| Outranked(s, c, i, l);
      var j: nat, k: nat :| Outranked(s, d, j, k);
      VictimUnique(s, i, j);
    }
  }

  lemma VictimUnique(s: Sched, i: nat, j: nat)
    requires Victim(s, i) && Victim(s, j)
    ensures i == j
  {
    var x, y := s.procs[s.lists.exec[i]], s.procs[s.lists.exec[j]];
  }

  // ---------- the beginning of a compaction ----------

  ghost predicate Held(s: Sched, c: nat) {
    exists p | 0 <= p < |s.procs| :: s.procs[p].cpu == Some(c)
  }

  /** Dispatching is off, and every CPU that somebody holds is to evict him; the orders are those to the CPUs that
      were not being evicted already. */
  ghost predicate Begins(w: World, w': World) {
    && w'.s == w.s.(canSchedule := false, cpus := w'.s.cpus) && |w'.s.cpus| == |w.s.cpus|
    && (forall c | 0 <= c < |w.s.cpus| ::
         w'.s.cpus[c] == if Held(w.s, c) then w.s.cpus[c].(evicting := true) else w.s.cpus[c])
    && w'.h == w.h.(orders := w'.h.orders, calls := w.h.calls + 1, compactions := w.h.compactions + {w.h.calls})
    && (forall c: nat :: c in w'.h.orders <==>
         c in w.h.orders || (c < |w.s.cpus| && Held(w.s, c) && !w.s.cpus[c].evicting))
    && (forall c | c in w.h.orders :: w'.h.orders[c] == w.h.orders[c])
    && (forall c | c in w'.h.orders && c !in w.h.orders :: NewOrder(w, w'.h.orders[c], c))
  }

  ghost predicate NewOrder(w: World, sent: Sent, c: nat) {
    sent.caller == Some(w.h.calls) && sent.target < |w.s.procs| && w.s.procs[sent.target].cpu == Some(c)
  }

  lemma {:induction false} OrderEachFrame(w: World, list: seq<nat>, call: nat)
    requires forall i | 0 <= i < |list| :: list[i] < |w.s.procs|
    ensures var w' := OrderEach(w, list, call);
      && w'.s == w.s.(cpus := w'.s.cpus) && |w'.s.cpus| == |w.s.cpus| && w'.h == w.h.(orders := w'.h.orders)
      && (forall c | 0 <= c < |w.s.cpus| :: w'.s.cpus[c].available == w.s.cpus[c].available)
      && (forall c | c in w.h.orders && (c >= |w.s.cpus| || w.s.cpus[c].evicting) ::
           c in w'.h.orders && w'.h.orders[c] == w.h.orders[c])
      && (forall c: nat | c < |w.s.cpus| && w.s.cpus[c].evicting :: w'.s.cpus[c].evicting)
      && (forall c | c in w'.h.orders && c !in w.h.orders :: c < |w.s.cpus|
           && w'.h.orders[c].caller == Some(call) && w'.h.orders[c].target < |w.s.procs|
           && w.s.procs[w'.h.orders[c].target].cpu == Some(c))
  {
    hide Holder;
    if list != [] {
      OrderEachFrame(w, list[..|list| - 1], call);
      var cpu := w.s.procs[list[|list| - 1]].cpu;
      if cpu.Some? && Holder(w.s.procs, cpu.value).Some? {
        HolderHolds(w.s.procs, cpu.value);
      }
    }
  }

  lemma HeldCalled(rules: Rules, w: World, c: nat)
    requires Kept(rules, w)
    ensures Held(w.s, c) <==> Called(w.s, w.s.lists.exec, c)
  {
    hide Good, Called;
    if Held(w.s, c) {
      var p :| 0 <= p < |w.s.procs| && w.s.procs[p].cpu == Some(c);
      CalledExact(rules, w, p);
    }
    CalledHeld(w.s, w.s.lists.exec, c);
  }

  lemma CalledHeld(s: Sched, list: seq<nat>, c: nat)
    ensures Called(s, list, c) ==> Held(s, c)
  {
  }

  lemma BeginMeans(rules: Rules, w: World)
    requires Kept(rules, w) && forall i | 0 <= i < |w.s.lists.exec| :: w.s.lists.exec[i] < |w.s.procs|
    ensures Begins(w, BeginCompaction(w))
  {
    hide Agree, SuspKept, WaitsKept, OwnersKept, UrgencyKept, GrantsKept, OrderEach, Called, Held;
    var call := w.h.calls;
    var off := World(w.s.(canSchedule := false),
                     w.h.(calls := call + 1, compactions := w.h.compactions + {call}));
    var w' := BeginCompaction(w);
    forall d | d in off.h.orders ensures OrderKept(off, d) {
      assert OrderKept(w, d);
    }
    forall p | 0 <= p < |w.s.procs| ensures CpuKept(off.s, p) {
      assert CpuKept(w.s, p);
    }
    forall d | 0 <= d < |w.s.cpus| ensures IdleKept(off.s, d) {
      assert IdleKept(w.s, d);
    }
    OrderEachFrame(off, w.s.lists.exec, call);
    forall c | 0 <= c < |w.s.cpus|
      ensures w'.s.cpus[c] == if Held(w.s, c) then w.s.cpus[c].(evicting := true) else w.s.cpus[c]
      ensures c in w'.h.orders <==> c in w.h.orders || (Held(w.s, c) && !w.s.cpus[c].evicting)
    {
      HeldCalled(rules, w, c);
      CalledSame(w.s, off.s, w.s.lists.exec, c);
      OrderEachExact(off, w.s.lists.exec, call, c);
    }
    forall c | c in w.h.orders ensures c < |w.s.cpus| && w'.h.orders[c] == w.h.orders[c] {
      assert OrderKept(w, c);
    }
  }

  // ---------- every step ----------

  /** Nobody owes, or is owed, another answer than before. */
  predicate SameDebts(h: History, h': History) {
    && h'.orders == h.orders && h'.io == h.io && h'.swapping == h.swapping
    && h'.calls == h.calls && h'.compactions == h.compactions
  }

  /** What every step does. */
  ghost predicate Means(rules: Rules, w: World, ev: Event, w': World)
    requires Kept(rules, w) && Enabled(w, ev)
  {
    var (s, h, s') := (w.s, w.h, w'.s);
    match ev
    case NewProcess(base) =>
      w' == World(s.(procs := s.procs + [Process(New, base, base, None, [], false, 0, 0)]), h)
    case ProcessCreated(p) => w'.h == h && Turns(s, s', p, s.procs[p].(state := Ready), Queue(rules, s.procs[p].eff))
    case NewCpu => w' == World(s.(cpus := s.cpus + [CpuInfo(true, false)]), h)
    case DispatchPass => Passes(rules, w, w')
    case QuantumExpired(c) => OrderedTo(w, w', c)
    case CompactionBegin => Begins(w, w')
    case CompactionEnd(call) => w' == World(s.(canSchedule := true), h.(compactions := h.compactions - {call}))
    case Evicted(c) => w'.h == h.(orders := h.orders - {c}) && Confirms(rules, s, s', c, false)
    case EvictedByAll(c) => w'.h == h.(orders := h.orders - {c}) && Confirms(rules, s, s', c, true)
    case MemorySyscall(p) => w' == World(s.(procs := s.procs[p := s.procs[p].(pending := true)]), h)
    case SegmentDone(p, ok) => w'.h == h && Answers(rules, s, s', p, ok)
    case ProcessEnd(p) => w'.h == h && Ends(s, s', p)
    case MutexCreate(name) => SameDebts(h, w'.h) &&
      s' == if exists m | 0 <= m < |s.mutexes| :: s.mutexes[m].name == name then s
            else s.(mutexes := s.mutexes + [Mutex(name, false, None, [])])
    case MutexLock(p, m) => SameDebts(h, w'.h) && Locks(rules, s, s', p, m)
    case MutexUnlock(p, m) => SameDebts(h, w'.h) && Unlocks(rules, s, s', p, m)
    case IoStart(p) => w'.h == h.(io := h.io + {p}) && Blocks(s, s', p)
    case IoDone(p) => w'.h == h.(io := h.io - {p}) && p < |s.procs| && Wakes(rules, s, s', p, s.procs[p])
    case SuspensionSweep => Sweeps(rules, w, w')
    case SwapOutDone(p, ok) =>
      w'.h == h.(swapping := h.swapping - {p}) && p < |s.procs| && SwapsOut(rules, s, s', p, ok)
    case SwapInDone(p) => w'.h == h && p < |s.procs| && SwapsIn(rules, s, s', p)
    case Tick(time) => w' == World(s.(clock := s.clock + time), h)
  }

  lemma MutexCreateMeans(s: Sched, name: string)
    ensures CreateMutex(s, name) == if exists m | 0 <= m < |s.mutexes| :: s.mutexes[m].name == name then s
                                    else s.(mutexes := s.mutexes + [Mutex(name, false, None, [])])
  {
  }

  /** Every step does just that. */
  lemma StepMeans(rules: Rules, w: World, ev: Event)
    requires Kept(rules, w) && Enabled(w, ev)
    ensures Means(rules, w, ev, Step(rules, w, ev))
  {
    hide Good, Pass, BeginCompaction, OrderSent, Sweep, Wake, Confirm, ConfirmAll, SegmentResult, Lock, Unlock;
    hide SwappedIn, SwappedOut, Created, End, StartIo, Overdue, CreateMutex, Holder, Queue, Take, Put;
    hide Turns, Passes, OrderedTo, Begins, Confirms, Answers, Ends, Locks, Unlocks, Blocks, Wakes, Sweeps;
    hide SwapsOut, SwapsIn;
    match ev
    case ProcessCreated(p) => CreatedMeans(rules, w, p);
    case DispatchPass => PassMeans(rules, w);
    case QuantumExpired(c) => GoodOrders(rules, w); OrderMeans(w, c);
    case CompactionBegin => GoodListed(rules, w); ExecKnown(rules, w.s); BeginMeans(rules, w);
    case Evicted(c) => ConfirmMeans(rules, w, c, false);
    case EvictedByAll(c) => ConfirmMeans(rules, w, c, true);
    case SegmentDone(p, ok) => AnswerMeans(rules, w, p, ok);
    case ProcessEnd(p) => EndMeans(rules, w, p);
    case MutexCreate(name) => MutexCreateMeans(w.s, name); CreateMutexIs(w, name);
    case MutexLock(p, m) => MutexFacts(rules, w, m); LockMeans(rules, w, p, m);
    case MutexUnlock(p, m) => MutexFacts(rules, w, m); UnlockMeans(rules, w, p, m);
    case IoStart(p) => IoStartMeans(rules, w, p);
    case IoDone(p) => GoodListed(rules, w); GoodIo(rules, w, p); WakeMeans(rules, w.s, p);
    case SuspensionSweep => SweepMeans(rules, w);
    case SwapOutDone(p, ok) => SwapOutMeans(rules, w, p, ok);
    case SwapInDone(p) => SwapInMeans(rules, w, p);
    case _ =>
  }

  lemma CreateMutexIs(w: World, name: string)
    ensures CreateMutexStep(w, name).s == CreateMutex(w.s, name)
  {
    hide FindMutex;
  }

  lemma GoodIo(rules: Rules, w: World, p: nat)
    requires Good(rules, w) && p in w.h.io
    ensures p < |w.s.procs| && Blocked(w.s.procs[p])
  {
  }

  // ---------- what follows for some of them ----------

  /** After a lock the process still runs if and only if the mutex is locked and its own; and locking a free mutex
      changes nothing else. */
  lemma LockGrants(rules: Rules, w: World, p: nat, m: nat)
    requires Kept(rules, w) && Enabled(w, MutexLock(p, m))
    ensures var s' := Step(rules, w, MutexLock(p, m)).s;
      && m < |s'.mutexes| && p < |s'.procs|
      && (Runs(s', p) <==> s'.mutexes[m].locked && s'.mutexes[m].owner == Some(p) && m in s'.procs[p].owned)
      && (Runs(s', p) <==> !w.s.mutexes[m].locked || w.s.mutexes[m].owner == Some(p))
      && (!w.s.mutexes[m].locked ==>
           s' == w.s.(mutexes := s'.mutexes, procs := s'.procs)
           && s'.mutexes == w.s.mutexes[m := w.s.mutexes[m].(locked := true, owner := Some(p))]
           && s'.procs == w.s.procs[p := w.s.procs[p].(owned := w.s.procs[p].owned + [m])])
  {
    hide Agree, CpusKept, SuspKept, WaitsKept, UrgencyKept, GrantsKept, Lock, Moves, Step;
    MutexFacts(rules, w, m);
    StepMeans(rules, w, MutexLock(p, m));
    assert OwnedKept(w.s, p);
    assert Owns(w.s, p, m) <==> m in w.s.procs[p].owned;
  }

  /** A process is in the suspended list after the answer to its swapping out if and only if that was confirmed;
      if it was refused, it is ready exactly if it had been woken meanwhile, and blocked otherwise. */
  lemma SwapOutExact(rules: Rules, w: World, p: nat, ok: bool)
    requires Kept(rules, w) && Enabled(w, SwapOutDone(p, ok))
    ensures var s' := Step(rules, w, SwapOutDone(p, ok)).s;
      && p < |w.s.procs| == |s'.procs|
      && (p in s'.susp <==> ok)
      && (!ok ==> s'.procs[p].state == if w.s.procs[p].state == SuspReady then Ready else Block)
  {
    hide Agree, CpusKept, WaitsKept, OwnersKept, UrgencyKept, GrantsKept, SwappedOut, Moves, Step;
    StepMeans(rules, w, SwapOutDone(p, ok));
  }

  /** A CPU that is not being evicted is available exactly if nobody holds it. */
  lemma CpusExact(rules: Rules, w: World, c: nat)
    requires Kept(rules, w) && c < |w.s.cpus| && !w.s.cpus[c].evicting
    ensures w.s.cpus[c].available <==> !Held(w.s, c)
  {
    hide Agree, SuspKept, WaitsKept, OwnersKept, UrgencyKept, GrantsKept;
    assert IdleKept(w.s, c);
    if Held(w.s, c) {
      var p :| 0 <= p < |w.s.procs| && w.s.procs[p].cpu == Some(c);
      assert CpuKept(w.s, p);
    } else if Holder(w.s.procs, c).Some? {
      HolderHolds(w.s.procs, c);
    }
  }
}
