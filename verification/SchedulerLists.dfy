/**
 State and lists agree after every handler of the Kernel Scheduler.
*/
module SchedulerLists {
  import opened Base
  import opened SchedulerState
  import opened SchedulerSteps

  ghost predicate Listed(rules: Rules, s: Sched) {
    Agree(rules, s.procs, s.lists)
  }

  lemma PlaceNowhere(lists: Lists, p: nat)
    ensures Take(lists, Nowhere, p) == lists && Put(lists, Nowhere, p) == lists
  {
  }

  /** A process that is removed from where it belongs may be put where its new state belongs. */
  lemma Rehome(rules: Rules, s: Sched, p: nat, pr: Process, taken: Lists)
    requires Listed(rules, s) && p < |s.procs| && taken == Take(s.lists, Home(rules, s.procs[p]), p)
    ensures forall at :: Take(taken, at, p) == taken
    ensures Agree(rules, s.procs[p := pr], Put(taken, Home(rules, pr), p))
    ensures Agree(rules, s.procs[p := pr], PutFirst(taken, Home(rules, pr), p))
  {
    hide Home, Agree, AgreeBut;
    TakeBut(rules, s.procs, s.lists, p);
    forall at ensures Take(taken, at, p) == taken {
      TakeTwice(rules, s.procs, taken, p, at);
    }
    PutAgrees(rules, s.procs, taken, s.procs[p := pr], p);
  }

  /** A change that moves nobody. */
  lemma Stay(rules: Rules, s: Sched, procs': seq<Process>)
    requires Listed(rules, s) && |s.procs| <= |procs'|
    requires forall q | 0 <= q < |s.procs| :: Home(rules, procs'[q]) == Home(rules, s.procs[q])
    requires forall q | |s.procs| <= q < |procs'| :: Home(rules, procs'[q]) == Nowhere
    ensures Agree(rules, procs', s.lists)
  {
    hide Home, Agree;
    StayAgrees(rules, s.procs, s.lists, procs');
  }

  lemma CreateListed(rules: Rules, s: Sched, base: byte)
    requires Listed(rules, s)
    ensures Listed(rules, Create(s, base))
  {
    hide Agree;
    Stay(rules, s, Create(s, base).procs);
  }

  /** A process that stands nowhere becomes ready. */
  lemma AddReadyListed(rules: Rules, s: Sched, p: nat)
    requires Listed(rules, s) && p < |s.procs| && Home(rules, s.procs[p]) == Nowhere
    ensures Listed(rules, AddReady(rules, SetState(s, p, Ready), p))
  {
    hide Agree, Take, Put;
    PlaceNowhere(s.lists, p);
    Rehome(rules, s, p, s.procs[p].(state := Ready), s.lists);
  }

  lemma DispatchListed(rules: Rules, s: Sched, p: nat, c: nat)
    requires Listed(rules, s) && p < |s.procs| && s.procs[p].state == Ready
    ensures Listed(rules, Dispatch(rules, s, p, c))
  {
    hide Agree, Take, Put;
    Rehome(rules, s, p, Dispatch(rules, s, p, c).procs[p], RemoveReady(rules, s, p).lists);
  }

  lemma DemoteListed(rules: Rules, s: Sched, p: nat, first: bool)
    requires Listed(rules, s) && p < |s.procs| && s.procs[p].state == Exec && s.procs[p].cpu.Some?
    ensures Listed(rules, Demote(rules, s, p, first))
  {
    hide Agree, Take, Put, PutFirst;
    var s' := Demote(rules, s, p, first);
    PlaceNowhere(Leave(s, InExec, p).lists, p);
    Rehome(rules, s, p, s'.procs[p], Leave(s, InExec, p).lists);
    assert s'.procs == s.procs[p := s'.procs[p]];
  }

  lemma SegmentResultListed(rules: Rules, s: Sched, p: nat, ok: bool)
    requires Listed(rules, s) && p < |s.procs| && s.procs[p].state == Exec
    ensures Listed(rules, SegmentResult(rules, s, p, ok))
  {
    hide Agree, Take, Put;
    var s' := SegmentResult(rules, s, p, ok);
    var taken := Take(s.lists, Home(rules, s.procs[p]), p);
    PlaceNowhere(s.lists, p);
    PlaceNowhere(taken, p);
    Rehome(rules, s, p, s'.procs[p], taken);
    assert s'.procs == s.procs[p := s'.procs[p]];
    if s.procs[p].cpu.Some? && ok {
      Stay(rules, s, s'.procs);
    }
  }

  lemma EndListed(rules: Rules, s: Sched, p: nat, c: nat)
    requires Listed(rules, s) && p < |s.procs| && s.procs[p].state == Exec && s.procs[p].cpu.Some?
    ensures Listed(rules, End(s, p, c))
  {
    hide Agree, Take, Put;
    var taken := Leave(s, InExec, p).lists;
    PlaceNowhere(taken, p);
    Rehome(rules, s, p, End(s, p, c).procs[p], taken);
    assert End(s, p, c).procs == s.procs[p := End(s, p, c).procs[p]];
  }

  lemma BlockListed(rules: Rules, s: Sched, p: nat)
    requires Listed(rules, s) && p < |s.procs| && s.procs[p].state == Exec && s.procs[p].cpu.Some?
    ensures Listed(rules, BlockProcess(s, p))
  {
    hide Agree, Take, Put;
    Rehome(rules, s, p, BlockProcess(s, p).procs[p], Leave(s, InExec, p).lists);
  }

  lemma WakeListed(rules: Rules, s: Sched, p: nat)
    requires Listed(rules, s) && p < |s.procs| && (s.procs[p].state == Block || s.procs[p].state == SuspBlock)
    ensures Listed(rules, Wake(rules, s, p))
  {
    hide Agree, Take, Put;
    var taken := Take(s.lists, Home(rules, s.procs[p]), p);
    PlaceNowhere(s.lists, p);
    PlaceNowhere(taken, p);
    Rehome(rules, s, p, Wake(rules, s, p).procs[p], taken);
  }

  lemma ReprioritizeListed(rules: Rules, s: Sched, p: nat, prio: byte)
    requires Listed(rules, s) && p < |s.procs|
    ensures Listed(rules, Reprioritize(rules, s, p, prio))
  {
    hide Agree, Take, Put;
    var s' := Reprioritize(rules, s, p, prio);
    if s.procs[p].state == Ready {
      Rehome(rules, s, p, s'.procs[p], RemoveReady(rules, s, p).lists);
    } else {
      Stay(rules, s, s'.procs);
    }
  }

  lemma LockListed(rules: Rules, s: Sched, p: nat, m: nat)
    requires Listed(rules, s) && p < |s.procs| && m < |s.mutexes|
    requires s.procs[p].state == Exec && s.procs[p].cpu.Some?
    ensures Listed(rules, Lock(rules, s, p, m))
  {
    hide Agree, BlockProcess, Reprioritize, Home;
    var mx := s.mutexes[m];
    if !mx.locked {
      HomeOwned(rules, s.procs[p], s.procs[p].owned + [m]);
      Stay(rules, s, Acquire(s, p, m).procs);
    } else if mx.owner != Some(p) {
      var s1 := SetMutex(s, m, mx.(waiting := mx.waiting + [p]));
      BlockListed(rules, s1, p);
      BlockSize(s1, p);
      var s2 := BlockProcess(s1, p);
      if mx.owner.Some? && mx.owner.value < |s.procs| {
        ReprioritizeListed(rules, s2, mx.owner.value, s2.procs[p].eff);
      }
    }
  }

  lemma BlockSize(s: Sched, p: nat)
    requires p < |s.procs|
    ensures |BlockProcess(s, p).procs| == |s.procs|
  {
  }

  lemma HomeOwned(rules: Rules, pr: Process, owned: seq<nat>)
    ensures Home(rules, pr.(owned := owned)) == Home(rules, pr)
  {
  }

  lemma UnlockListed(rules: Rules, s: Sched, p: nat, m: nat)
    requires Listed(rules, s) && p < |s.procs| && m < |s.mutexes|
    requires s.mutexes[m].waiting != [] ==>
      var next := s.mutexes[m].waiting[0];
      next < |s.procs| && next != p && (s.procs[next].state == Block || s.procs[next].state == SuspBlock)
    ensures Listed(rules, Unlock(rules, s, p, m))
  {
    if s.mutexes[m].owner == Some(p) {
      ReleaseListed(rules, s, p, m);
      HandOverListed(rules, Release(rules, s, p, m), m);
    }
  }

  lemma ReleaseListed(rules: Rules, s: Sched, p: nat, m: nat)
    requires Listed(rules, s) && p < |s.procs|
    ensures Listed(rules, Release(rules, s, p, m))
    ensures |Release(rules, s, p, m).procs| == |s.procs| && Release(rules, s, p, m).mutexes == s.mutexes
    ensures forall q | 0 <= q < |s.procs| && q != p :: Release(rules, s, p, m).procs[q] == s.procs[q]
  {
    hide Agree, Home, Inherited;
    var s1 := Update(s, p, s.procs[p].(owned := Without(s.procs[p].owned, m)));
    HomeOwned(rules, s.procs[p], s1.procs[p].owned);
    Stay(rules, s, s1.procs);
    ReprioritizeListed(rules, s1, p, Inherited(s1, s1.procs[p].owned, s.procs[p].base));
  }

  lemma HandOverListed(rules: Rules, s: Sched, m: nat)
    requires Listed(rules, s) && m < |s.mutexes|
    requires s.mutexes[m].waiting != [] ==>
      var next := s.mutexes[m].waiting[0];
      next < |s.procs| && (s.procs[next].state == Block || s.procs[next].state == SuspBlock)
    ensures Listed(rules, HandOver(rules, s, m))
  {
    hide Agree, Home, Wake;
    var mx := s.mutexes[m];
    if mx.waiting != [] {
      var next := mx.waiting[0];
      var s1 := SetMutex(s, m, mx.(locked := true, owner := Some(next), waiting := mx.waiting[1..]));
      var pr := s.procs[next];
      HomeOwned(rules, pr, pr.owned + [m]);
      Stay(rules, s, Update(s1, next, pr.(owned := pr.owned + [m])).procs);
      WakeListed(rules, Update(s1, next, pr.(owned := pr.owned + [m])), next);
    }
  }

  lemma {:induction false} OverdueDistinct(rules: Rules, s: Sched, list: seq<nat>, overdue: bool)
    requires NoDuplicates(list)
    ensures NoDuplicates(Overdue(rules, s, list, overdue))
  {
    if list != [] {
      OverdueDistinct(rules, s, list[..|list| - 1], overdue);
    }
  }

  lemma SweepListed(rules: Rules, s: Sched)
    requires Listed(rules, s)
    ensures Listed(rules, Sweep(rules, s))
  {
    var s' := Sweep(rules, s);
    forall at | Real(s'.lists, at) ensures HoldsExactly(rules, s'.procs, s'.lists, at, None) {
      assert Real(s.lists, at);
      assert HoldsExactly(rules, s.procs, s.lists, at, None);
      assert Real(s.lists, InBlock);
      assert HoldsExactly(rules, s.procs, s.lists, InBlock, None);
      OverdueDistinct(rules, s, s.lists.block, false);
      SweepHolds(rules, s, at);
    }
  }

  lemma SweepHolds(rules: Rules, s: Sched, at: Place)
    requires HoldsExactly(rules, s.procs, s.lists, at, None) && at != Nowhere
    requires HoldsExactly(rules, s.procs, s.lists, InBlock, None)
    ensures forall p :: p in ListAt(Sweep(rules, s).lists, at) <==> Belongs(rules, Sweep(rules, s).procs, at, p)
    ensures at != InBlock ==> ListAt(Sweep(rules, s).lists, at) == ListAt(s.lists, at)
  {
    hide Overdue, Mark;
    forall p: nat
      ensures p in ListAt(Sweep(rules, s).lists, at) <==> Belongs(rules, Sweep(rules, s).procs, at, p)
    {
      assert p in s.lists.block <==> Belongs(rules, s.procs, InBlock, p);
      assert p in ListAt(s.lists, at) <==> Belongs(rules, s.procs, at, p);
    }
  }

  lemma SwappedOutListed(rules: Rules, s: Sched, p: nat, ok: bool)
    requires Listed(rules, s) && p < |s.procs|
    ensures Listed(rules, SwappedOut(rules, s, p, ok))
  {
    hide Agree, Take, Put;
    var s' := SwappedOut(rules, s, p, ok);
    PlaceNowhere(s.lists, p);
    Rehome(rules, s, p, s'.procs[p], Take(s.lists, Home(rules, s.procs[p]), p));
  }

  lemma SwappedInListed(rules: Rules, s: Sched, p: nat)
    requires Listed(rules, s) && p < |s.procs|
    ensures Listed(rules, SwappedIn(rules, s, p))
  {
    hide Agree, Take, Put;
    var s' := SwappedIn(rules, s, p);
    PlaceNowhere(s.lists, p);
    Rehome(rules, s, p, s'.procs[p], Take(s.lists, Home(rules, s.procs[p]), p));
  }
}
