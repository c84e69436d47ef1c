/**
 The state of the Kernel Scheduler: processes, the lists they stand in, CPUs and mutexes
 (kernel_scheduler/src/utils.c, kernel_scheduler/src/utils.h).
*/
module SchedulerState {
  import opened Base

  datatype Algorithm = FIFO | RR | CMN

  /** `queues` is `queue_algorithms_count`: one for FIFO and RR. */
  datatype Rules = Rules(algorithm: Algorithm, queues: nat, preemption: bool, suspensionTimeout: nat)

  datatype PState = New | Ready | Exec | Block | SuspBlock | SuspReady | Exit

  /** A pid is the position of its process in `list_processes`; mutexes and CPUs are also named by position. */
  datatype Process = Process(
    state: PState, base: byte, eff: byte, cpu: Option<nat>, owned: seq<nat>, pending: bool,
    blockedSince: nat, execSince: nat)

  datatype CpuInfo = CpuInfo(available: bool, evicting: bool)

  datatype Mutex = Mutex(name: string, locked: bool, owner: Option<nat>, waiting: seq<nat>)

  /** The lists that a state goes with. */
  datatype Lists = Lists(ready: seq<seq<nat>>, exec: seq<nat>, block: seq<nat>)

  datatype Sched = Sched(
    procs: seq<Process>, lists: Lists, susp: seq<nat>, cpus: seq<CpuInfo>, mutexes: seq<Mutex>,
    canSchedule: bool, clock: nat)

  /** The ready queue of an effective priority: priorities past the last queue share it. */
  function Level(rules: Rules, eff: byte): nat {
    if rules.algorithm != CMN || rules.queues == 0 then 0 else if eff >= rules.queues then rules.queues - 1 else eff
  }

  // ---------- places ----------

  /** A list a process can stand in. */
  datatype Place = InReady(level: nat) | InExec | InBlock | Nowhere

  function ListAt(lists: Lists, at: Place): seq<nat> {
    match at
    case InReady(q) => if q < |lists.ready| then lists.ready[q] else []
    case InExec => lists.exec
    case InBlock => lists.block
    case Nowhere => []
  }

  function SetList(lists: Lists, at: Place, list: seq<nat>): (r: Lists)
    ensures |r.ready| == |lists.ready|
    ensures forall h | h != at :: ListAt(r, h) == ListAt(lists, h)
    ensures Real(lists, at) ==> ListAt(r, at) == list
  {
    match at
    case InReady(q) => if q < |lists.ready| then lists.(ready := lists.ready[q := list]) else lists
    case InExec => lists.(exec := list)
    case InBlock => lists.(block := list)
    case Nowhere => lists
  }

  predicate Real(lists: Lists, at: Place) {
    at != Nowhere && (at.InReady? ==> at.level < |lists.ready|)
  }

  /** `remove_process_from_list`, `remove_process_from_ready_queue` */
  function Take(lists: Lists, at: Place, p: nat): (r: Lists)
    ensures |r.ready| == |lists.ready|
    ensures forall h :: ListAt(r, h) == if h == at then Without(ListAt(lists, h), p) else ListAt(lists, h)
  {
    SetList(lists, at, Without(ListAt(lists, at), p))
  }

  /** `add_process_to_list`, `add_process_to_ready_queue` */
  function Put(lists: Lists, at: Place, p: nat): (r: Lists)
    ensures |r.ready| == |lists.ready|
    ensures forall h :: ListAt(r, h) == if h == at && Real(lists, at) then ListAt(lists, h) + [p] else ListAt(lists, h)
  {
    SetList(lists, at, ListAt(lists, at) + [p])
  }

  function PutFirst(lists: Lists, at: Place, p: nat): (r: Lists)
    ensures |r.ready| == |lists.ready|
    ensures forall h :: ListAt(r, h) == if h == at && Real(lists, at) then [p] + ListAt(lists, h) else ListAt(lists, h)
  {
    SetList(lists, at, [p] + ListAt(lists, at))
  }

  /** Where a process in this state belongs. */
  function Home(rules: Rules, pr: Process): Place {
    match pr.state
    case Ready => InReady(Level(rules, pr.eff))
    case Exec => if pr.cpu.Some? then InExec else Nowhere
    case Block => InBlock
    case _ => Nowhere
  }

  /** The list at a place holds exactly the processes that belong there, once each; `except` stands nowhere. */
  ghost predicate HoldsExactly(rules: Rules, procs: seq<Process>, lists: Lists, at: Place, except: Option<nat>) {
    && NoDuplicates(ListAt(lists, at))
    && forall p :: p in ListAt(lists, at) <==> Belongs(rules, procs, at, p) && Some(p) != except
  }

  ghost predicate Belongs(rules: Rules, procs: seq<Process>, at: Place, p: nat) {
    p < |procs| && Home(rules, procs[p]) == at
  }

  /** State and lists agree. */
  ghost predicate Agree(rules: Rules, procs: seq<Process>, lists: Lists) {
    && |lists.ready| == rules.queues > 0
    && forall at | Real(lists, at) :: HoldsExactly(rules, procs, lists, at, None)
  }

  /** The same, except that process `p` stands in no list. */
  ghost predicate AgreeBut(rules: Rules, procs: seq<Process>, lists: Lists, p: nat) {
    && |lists.ready| == rules.queues > 0
    && forall at | Real(lists, at) :: HoldsExactly(rules, procs, lists, at, Some(p))
  }

  lemma HomeReal(rules: Rules, lists: Lists, pr: Process)
    requires |lists.ready| == rules.queues > 0
    ensures Home(rules, pr) != Nowhere ==> Real(lists, Home(rules, pr))
  {
  }

  lemma WithoutAbsent(s: seq<nat>, p: nat)
    requires p !in s
    ensures Without(s, p) == s
  {
  }

  /** A process is taken out of the lists by removing it from where it belongs. */
  lemma TakeBut(rules: Rules, procs: seq<Process>, lists: Lists, p: nat)
    requires Agree(rules, procs, lists) && p < |procs|
    ensures AgreeBut(rules, procs, Take(lists, Home(rules, procs[p]), p), p)
  {
    hide Home, ListAt;
    var lists' := Take(lists, Home(rules, procs[p]), p);
    forall at | Real(lists', at) ensures HoldsExactly(rules, procs, lists', at, Some(p)) {
      assert HoldsExactly(rules, procs, lists, at, None);
      WithoutDistinct(ListAt(lists, at), p);
    }
  }

  /** Removing it again from anywhere does nothing. */
  lemma TakeTwice(rules: Rules, procs: seq<Process>, lists: Lists, p: nat, at: Place)
    requires AgreeBut(rules, procs, lists, p)
    ensures Take(lists, at, p) == lists
  {
    if Real(lists, at) {
      assert HoldsExactly(rules, procs, lists, at, Some(p));
      assert p !in ListAt(lists, at);
      WithoutAbsent(ListAt(lists, at), p);
    }
  }

  /** Nobody but `p` has changed its place. */
  ghost predicate OnlyMoves(rules: Rules, procs: seq<Process>, procs': seq<Process>, p: nat) {
    forall at, q | q != p && at != Nowhere :: Belongs(rules, procs', at, q) <==> Belongs(rules, procs, at, q)
  }

  /** A process that stands nowhere may be put, at either end, where its new state belongs. */
  lemma PutAgrees(rules: Rules, procs: seq<Process>, lists: Lists, procs': seq<Process>, p: nat)
    requires AgreeBut(rules, procs, lists, p) && OnlyMoves(rules, procs, procs', p) && p < |procs'|
    ensures Agree(rules, procs', Put(lists, Home(rules, procs'[p]), p))
    ensures Agree(rules, procs', PutFirst(lists, Home(rules, procs'[p]), p))
  {
    hide Home, ListAt;
    var home := Home(rules, procs'[p]);
    HomeReal(rules, lists, procs'[p]);
    forall at | Real(lists, at)
      ensures HoldsExactly(rules, procs', Put(lists, home, p), at, None)
      ensures HoldsExactly(rules, procs', PutFirst(lists, home, p), at, None)
    {
      assert HoldsExactly(rules, procs, lists, at, Some(p));
    }
  }

  /** Nobody has changed its place. */
  lemma StayAgrees(rules: Rules, procs: seq<Process>, lists: Lists, procs': seq<Process>)
    requires Agree(rules, procs, lists)
    requires forall at, q | at != Nowhere :: Belongs(rules, procs', at, q) <==> Belongs(rules, procs, at, q)
    ensures Agree(rules, procs', lists)
  {
    hide Home, ListAt;
    forall at | Real(lists, at) ensures HoldsExactly(rules, procs', lists, at, None) {
      assert HoldsExactly(rules, procs, lists, at, None);
    }
  }
}
