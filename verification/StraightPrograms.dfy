/**
 Programs without jumps: a CPU performs their instructions in the order in which they stand, and so does every
 run in which the process is taken off its CPU and put back.
*/
module StraightPrograms {
  import opened Base
  import opened Contexts
  import opened Cpu
  import opened CpuMeaning
  import opened Programs
  import opened Preemption

  // ---------- on a CPU ----------

  /** An instruction that neither writes the program counter nor leaves the cycle, unless it faults. */
  predicate Straight(ins: Instruction) {
    match ins
    case SetTo(r, _) => r != Some(PC)
    case Sum(r, _) => r != Some(PC)
    case Sub(r, _) => r != Some(PC)
    case MovIn(r) => r != Some(PC)
    case Jnz(_, _) => false
    case Syscall => false
    case Io(_, _) => false
    case Exit => false
    case _ => true
  }

  /** The instructions of a list, one after the other, up to the first that faults; the program counter counts
      them. */
  ghost function InSequence(list: seq<Instruction>, c: Context, table: seq<Entry>, segMax: u32, mem: seq<byte>):
      (Context, seq<byte>, Signal)
    requires segMax > 0
  {
    if list == [] then (c, mem, Running)
    else
      var before := InSequence(list[..|list| - 1], c, table, segMax, mem);
      if before.2 != Running then before
      else
        var e := Execute(list[|list| - 1], before.0, table, segMax, before.1);
        (e.ctx.(pc := (c.pc + |list|) % TWO_32), e.mem, e.signal)
  }

  lemma StraightTurn(program: Program, c: Context, table: seq<Entry>, segMax: u32, mem: seq<byte>)
    requires segMax > 0 && Straight(program(c.pc))
    ensures var (t, e) := (Turn(program, c, table, segMax, mem), Execute(program(c.pc), c, table, segMax, mem));
      t == (e.ctx.(pc := Next(c.pc)), e.mem, e.signal)
  {
    hide MmuTranslate, Get;
  }

  lemma NextModulo(pc: nat, n: nat)
    ensures Next((pc + n) % TWO_32) == (pc + (n + 1)) % TWO_32
  {
  }

  /** As many turns as a program without jumps has instructions from `pc` on perform exactly those, in the order in
      which they stand. */
  lemma {:induction false} StraightLine(
    program: Program, c: Context, table: seq<Entry>, segMax: u32, mem: seq<byte>, list: seq<Instruction>)
    requires segMax > 0
    requires forall i: nat | i < |list| :: Straight(list[i]) && program((c.pc + i) % TWO_32) == list[i]
    ensures Turns(program, c, table, segMax, mem, |list|) == InSequence(list, c, table, segMax, mem)
    ensures InSequence(list, c, table, segMax, mem).2 == Running ==>
      InSequence(list, c, table, segMax, mem).0.pc == (c.pc + |list|) % TWO_32
  {
    hide Execute, Turn, Straight;
    if list != [] {
      var n := |list| - 1;
      StraightLine(program, c, table, segMax, mem, list[..n]);
      var before := Turns(program, c, table, segMax, mem, n);
      if before.2 == Running {
        assert program(before.0.pc) == list[n];
        StraightTurn(program, before.0, table, segMax, before.1);
        NextModulo(c.pc, n);
      }
    }
  }

  // ---------- in every run ----------

  /** The same on the machine without addresses. */
  ghost function PerformedInSequence(list: seq<Instruction>, s: State, segMax: u32): State
    requires segMax > 0
  {
    if list == [] then s
    else
      var before := PerformedInSequence(list[..|list| - 1], s, segMax);
      if !before.alive then before
      else
        var m := Perform(list[|list| - 1], before.ctx, before.objs, segMax);
        State(m.ctx.(pc := (s.ctx.pc + |list|) % TWO_32), Stored(before.objs, m.write), m.signal != Exiting)
  }

  lemma LogicalStraightTurn(program: Program, segMax: u32, s: State)
    requires segMax > 0 && s.alive && Straight(program(s.ctx.pc))
    ensures var m := Perform(program(s.ctx.pc), s.ctx, s.objs, segMax);
      LogicalTurn(program, segMax, s)
        == State(m.ctx.(pc := Next(s.ctx.pc)), Stored(s.objs, m.write), m.signal != Exiting)
  {
    hide Locate, Get, Stored;
  }

  lemma {:induction false} LogicalStraightLine(program: Program, segMax: u32, s: State, list: seq<Instruction>)
    requires segMax > 0 && s.alive
    requires forall i: nat | i < |list| :: Straight(list[i]) && program((s.ctx.pc + i) % TWO_32) == list[i]
    ensures LogicalTurns(program, segMax, s, |list|) == PerformedInSequence(list, s, segMax)
    ensures var t := PerformedInSequence(list, s, segMax);
      t.alive ==> t.ctx.pc == (s.ctx.pc + |list|) % TWO_32
  {
    hide Perform, Straight, Stored;
    if list != [] {
      var n := |list| - 1;
      LogicalStraightLine(program, segMax, s, list[..n]);
      var before := LogicalTurns(program, segMax, s, n);
      if before.alive {
        assert program(before.ctx.pc) == list[n];
        LogicalStraightTurn(program, segMax, before);
        NextModulo(s.ctx.pc, n);
      }
    }
  }

  /** In every run that makes no request about `p`, however often it is interrupted, `n` turns of `p` perform the
      `n` instructions that stand from its program counter on, each once and in that order. */
  lemma StraightInEveryRun(
    set': Setting, states: seq<System>, events: seq<Event>, p: nat, list: seq<Instruction>)
    requires IsExecution(set', states, events) && Ready(set', states[0])
    requires p in states[0].contexts && Leaves(events, p) && TurnsOf(events, p) == |list|
    requires var s := Observed(set', states[0], p);
      s.alive && forall i: nat | i < |list| ::
        Straight(list[i]) && set'.programs(p)((s.ctx.pc + i) % TWO_32) == list[i]
    ensures Ready(set', states[|events|]) && p in states[|events|].contexts && set'.segMax > 0
    ensures Same(PerformedInSequence(list, Observed(set', states[0], p), set'.segMax),
                 Observed(set', states[|events|], p))
  {
    hide Ready, Enabled, Fire, LogicalTurn, Observed, Straight;
    ReadySegMax(set', states[0]);
    RunTransparent(set', states, events, p);
    LogicalStraightLine(set'.programs(p), set'.segMax, Observed(set', states[0], p), list);
  }
}
