/**
 What every step of Kernel Memory and its CPUs together does, told of the systems before and after it.
*/
module PreemptionMeaning {
  import opened Base
  import opened SegmentStore
  import opened StoreRuns
  import opened StoreMeaning
  import opened Contexts
  import opened Cpu
  import opened CpuMeaning
  import opened Programs
  import opened Preemption

  /** One instruction of the process on its CPU: it stays there if it goes on, leaves its registers to Kernel Memory
      if it stops for a syscall, and is over if it exits or faults. */
  ghost predicate Turns(set': Setting, sys: System, sys': System, pid: nat)
    requires set'.segMax > 0 && pid in sys.loaded
  {
    exists c, mem, signal :: TurnsTo(set', sys, sys', pid, c, mem, signal)
  }

  ghost predicate TurnsTo(
    set': Setting, sys: System, sys': System, pid: nat, c: Context, mem: seq<byte>, signal: Signal)
    requires set'.segMax > 0 && pid in sys.loaded
  {
    var on := sys.loaded[pid];
    && Does(set'.programs(pid)(on.ctx.pc), on.ctx, on.table, set'.segMax, sys.st.mem, c, mem, signal)
    && sys'.st == sys.st.(mem := mem)
    && sys'.loaded == (if signal == Running then sys.loaded[pid := Loaded(c, on.table)] else sys.loaded - {pid})
    && sys'.contexts == (if signal == Stopping then sys.contexts[pid := c] else sys.contexts)
    && sys'.ended == (if signal == Exiting then sys.ended + {pid} else sys.ended)
  }

  lemma TakeTurnMeans(set': Setting, sys: System, pid: nat)
    requires Ready(set', sys) && pid in sys.loaded
    ensures set'.segMax > 0 && Turns(set', sys, TakeTurn(set', sys, pid), pid)
  {
    hide Turn, Does, Save, Ready;
    ReadySegMax(set', sys);
    LoadedKnown(set', sys, pid);
    var on := sys.loaded[pid];
    var t := Turn(set'.programs(pid), on.ctx, on.table, set'.segMax, sys.st.mem);
    CpuMeaning.TurnMeans(set'.programs(pid), on.ctx, on.table, set'.segMax, sys.st.mem);
    SaveExact(sys.contexts, pid, t.0);
    assert TurnsTo(set', sys, TakeTurn(set', sys, pid), pid, t.0, t.1, t.2);
  }

  lemma LoadedKnown(set': Setting, sys: System, pid: nat)
    requires Ready(set', sys) && pid in sys.loaded
    ensures pid in sys.contexts && pid < TWO_32
  {
    assert OnCpu(sys, pid);
  }

  /** The registers that Kernel Memory keeps for processes: a new one has zeros, one that is finished none, and all
      others are untouched. */
  ghost predicate Keeps(contexts: map<nat, Context>, req: Request, contexts': map<nat, Context>) {
    match req
    case AdmitProcess(pid) => contexts' == contexts[pid := Context(0, 0, 0, 0, 0, 0, 0, 0, 0, 0, 0)]
    case FinishProcess(pid) => contexts' == contexts - {pid}
    case _ => contexts' == contexts
  }

  /** What every step does. */
  ghost predicate Happens(set': Setting, sys: System, ev: Event, sys': System)
    requires Ready(set', sys) && Enabled(set', sys, ev) && set'.segMax > 0
  {
    match ev
    case TurnOf(pid) => Turns(set', sys, sys', pid)
    case Evict(pid) =>
      sys' == sys.(loaded := sys.loaded - {pid}, contexts := sys.contexts[pid := sys.loaded[pid].ctx])
    case Dispatch(pid) =>
      && Sendable32(Table(sys.st.segs, pid))
      && sys' == sys.(loaded := sys.loaded[pid := Loaded(sys.contexts[pid], Entries(Table(sys.st.segs, pid)))])
    case Memory(req) =>
      && sys' == sys.(st := sys'.st, contexts := sys'.contexts) && Keeps(sys.contexts, req, sys'.contexts)
      && exists r :: Serves(set'.cfg, sys.st, req, sys'.st, r)
  }

  /** Every step does just that. */
  lemma FireMeans(set': Setting, sys: System, ev: Event)
    requires Ready(set', sys) && Enabled(set', sys, ev)
    ensures set'.segMax > 0 && Happens(set', sys, ev, Fire(set', sys, ev))
  {
    hide TakeTurn, Turns, PutOn, Save, Table, Entries, Serves, Serve, Orderly;
    ReadySegMax(set', sys);
    ReadyFacts(set', sys);
    match ev
    case TurnOf(pid) => TakeTurnMeans(set', sys, pid);
    case Evict(pid) =>
      assert OnCpu(sys, pid);
      SaveExact(sys.contexts, pid, sys.loaded[pid].ctx);
    case Dispatch(pid) => PutOnExact(sys, pid);
    case Memory(req) => ServeMeans(set'.cfg, sys.st, req);
  }
}
