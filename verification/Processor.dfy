/**
 A CPU as the program runs it: registers and flags changed in place, memory reached through the sticks
 (cpu/src/manage_instructions.c).
*/
module Processors {
  import opened Base
  import opened MemorySticks
  import opened Contexts
  import opened Cpu

  /** Why an instruction cycle is left: a syscall, a fault or EXIT, an interrupt; or it still goes on. */
  datatype End = Stopped | Ended | Interrupted | Unfinished

  class Processor {
    const bank: MemoryBank
    const segMax: u32
    var pid: u32
    var ctx: Context
    var table: seq<Entry>
    var hasJumped: bool
    var shouldExit: bool
    var shouldStop: bool
    /** The last context sent to Kernel Memory. */
    var saved: Option<seq<byte>>

    constructor (bank: MemoryBank, segMax: u32, pid: u32, ctx: Context, table: seq<Entry>)
      ensures this.bank == bank && this.segMax == segMax && this.pid == pid && this.ctx == ctx && this.table == table
      ensures Fresh() && saved == None
    {
      this.bank, this.segMax, this.pid, this.ctx, this.table := bank, segMax, pid, ctx, table;
      hasJumped, shouldExit, shouldStop, saved := false, false, false, None;
    }

    ghost predicate Valid()
      reads this, bank
    {
      bank.Valid() && segMax > 0
    }

    /** No flag is raised, as between two instructions of a running process. */
    ghost predicate Fresh()
      reads this
    {
      !hasJumped && !shouldExit && !shouldStop
    }

    /** The registers, memory and flags are those of an outcome. */
    ghost predicate Shows(e: Effect)
      reads this, bank, bank.sticks
    {
      && ctx == e.ctx && bank.Flat() == e.mem && hasJumped == e.jumped
      && shouldExit == (e.signal == Exiting) && shouldStop == (e.signal == Stopping)
    }

    /** `mmu_translate`: a fault ends the process. */
    method Translate(address: u32, size: u32) returns (at: Option<u32>)
      requires segMax > 0
      modifies this`shouldExit
      ensures at == MmuTranslate(table, segMax, address, size)
      ensures shouldExit == (old(shouldExit) || at.None?)
    {
      var id, offset := SegmentOf(address, segMax), OffsetOf(address, segMax);
      var i := 0;
      while i < |table| && table[i].id != id
        invariant i <= |table|
        invariant forall k | 0 <= k < i :: table[k].id != id
      {
        i := i + 1;
      }
      if i == |table| || Wrap(offset + size) > table[i].size {
        shouldExit := true;
        return None;
      }
      return Some(Wrap(table[i].base + offset));
    }

    /** `instruction_set`, and the end of SUM and SUB. */
    method SetRegister(r: Register, value: u32)
      modifies this`ctx, this`hasJumped
      ensures ctx == Set(old(ctx), r, value)
      ensures hasJumped == (old(hasJumped) || r == PC)
    {
      ctx := Set(ctx, r, value);
      if r == PC {
        hasJumped := true;
      }
    }

    /** `instruction_mov_in` */
    method MovInto(r: Register)
      requires Valid() && Fresh()
      modifies this`ctx, this`hasJumped, this`shouldExit
      ensures Shows(ExecuteMovIn(r, old(ctx), table, segMax, bank.Flat()))
    {
      hide MmuTranslate, Concat, AllAccepted, MemoryBank.Sizes, Get, Set;
      var at := Translate(ctx.si, Width(r));
      if shouldExit {
        return;
      }
      var data, _ := bank.Read(at.value, Width(r));
      if data.None? {
        return;
      }
      SetRegister(r, ValueOf(data.value));
    }

    /** `instruction_mov_out` */
    method MovFrom(r: Register)
      requires Valid() && Fresh()
      modifies this`shouldExit, bank.sticks
      ensures Valid() && Shows(ExecuteMovOut(r, ctx, table, segMax, old(bank.Flat())))
    {
      hide MmuTranslate, Concat, AllAccepted, MemoryBank.Sizes, Overwrite, RegisterBytes;
      var at := Translate(ctx.di, Width(r));
      if shouldExit {
        return;
      }
      var _, _ := bank.Write(at.value, RegisterBytes(ctx, r));
    }

    /** `instruction_copy_mem` */
    method Copy(r: Register)
      requires Valid() && Fresh()
      modifies this`shouldExit, bank.sticks
      ensures Valid() && Shows(ExecuteCopyMem(Get(ctx, r), ctx, table, segMax, old(bank.Flat())))
    {
      hide MmuTranslate, Concat, Overwrite, Get, ReadAt;
      var size := Get(ctx, r);
      var src := Translate(ctx.si, size);
      if shouldExit {
        return;
      }
      var dst := Translate(ctx.di, size);
      if shouldExit {
        return;
      }
      Transfer(src.value, dst.value, size);
    }

    /** All is read before anything is written. */
    method Transfer(src: u32, dst: u32, size: u32)
      requires Valid()
      modifies bank.sticks
      ensures Valid()
      ensures var (mem, data) := (old(bank.Flat()), ReadAt(old(bank.Flat()), src, size));
        bank.Flat() == if data.None? then mem else Overwrite(mem, dst, data.value)
    {
      hide Concat, AllAccepted, MemoryBank.Sizes, Overwrite;
      var data, _ := bank.Read(src, size);
      if data.Some? {
        var _, _ := bank.Write(dst, data.value);
      }
    }

    /** The common part of the instructions that ask the scheduler for something: the program counter is
        advanced, then the context is sent to Kernel Memory. */
    method StopForScheduler()
      modifies this`ctx, this`hasJumped, this`shouldStop, this`saved
      ensures ctx == old(ctx).(pc := Wrap(old(ctx).pc + 1)) && hasJumped && shouldStop
      ensures saved == Some(SavePayload(pid, ctx))
    {
      ctx := ctx.(pc := Wrap(ctx.pc + 1));
      hasJumped := true;
      shouldStop := true;
      var payload := ContextSend(pid, ctx);
      saved := Some(payload);
    }

    /** `execute_instruction`; the context is sent exactly when the process is to stop. */
    method ExecuteInstruction(ins: Instruction)
      requires Valid() && Fresh()
      modifies this`ctx, this`hasJumped, this`shouldExit, this`shouldStop, this`saved, bank.sticks
      ensures Valid() && Shows(Execute(ins, old(ctx), table, segMax, old(bank.Flat())))
      ensures saved == if shouldStop then Some(SavePayload(pid, ctx)) else old(saved)
    {
      hide MmuTranslate, Concat, AllAccepted, MemoryBank.Sizes, Get, Set, ExecuteMovIn, ExecuteMovOut;
      hide ExecuteCopyMem, SavePayload;
      match ins {
        case SetTo(Some(r), value) => SetRegister(r, value);
        case Sum(Some(r), Some(s)) => SetRegister(r, Wrap(Get(ctx, r) + Get(ctx, s)));
        case Sub(Some(r), Some(s)) => SetRegister(r, Wrap(Get(ctx, r) + TWO_32 - Get(ctx, s)));
        case Jnz(Some(r), target) =>
          if target > 0 && Get(ctx, r) != 0 {
            ctx := ctx.(pc := target);
            hasJumped := true;
          }
        case MovIn(Some(r)) => MovInto(r);
        case MovOut(Some(r)) => MovFrom(r);
        case CopyMem(Some(r)) => Copy(r);
        case Syscall => StopForScheduler();
        case Io(Some(r), Some(s)) =>
          var at := Translate(Get(ctx, r), Get(ctx, s));
          if !shouldExit {
            StopForScheduler();
          }
        case Exit => shouldExit := true;
        case _ =>
      }
    }

    /** One turn of the cycle up to the look at the interrupt flag. */
    method TakeTurn(program: Program)
      requires Valid() && Fresh()
      modifies this`ctx, this`hasJumped, this`shouldExit, this`shouldStop, this`saved, bank.sticks
      ensures Valid() && !hasJumped
      ensures var t := Turn(program, old(ctx), table, segMax, old(bank.Flat()));
        && ctx == t.0 && bank.Flat() == t.1
        && shouldExit == (t.2 == Exiting) && shouldStop == (t.2 == Stopping)
      ensures saved == if shouldStop then Some(SavePayload(pid, ctx)) else old(saved)
    {
      hide Concat, SavePayload;
      ExecuteInstruction(program(ctx.pc));
      StoppedHasJumped(program(old(ctx).pc), old(ctx), table, segMax, old(bank.Flat()));
      if !hasJumped {
        ctx := ctx.(pc := Wrap(ctx.pc + 1));
      } else {
        hasJumped := false;
      }
    }

    /** `instructions_cicle`, where `interrupts` tells at each boundary whether an interrupt is pending:
        it runs whole instructions of the program, and unless the process ended, what Kernel Memory was
        sent is the state of the registers at the boundary where it left off. */
    method InstructionsCycle(program: Program, interrupts: seq<bool>) returns (n: nat, end: End)
      requires Valid() && Fresh()
      modifies this`ctx, this`hasJumped, this`shouldExit, this`shouldStop, this`saved, bank.sticks
      ensures Valid() && n <= |interrupts|
      ensures var t := Turns(program, old(ctx), table, segMax, old(bank.Flat()), n);
        && ctx == t.0 && bank.Flat() == t.1
        && (end == Ended <==> t.2 == Exiting) && (end == Stopped <==> t.2 == Stopping)
      ensures end == Interrupted ==> n > 0 && interrupts[n - 1]
      ensures end == Unfinished ==> n == |interrupts| && forall i | 0 <= i < n :: !interrupts[i]
      ensures saved == if end == Stopped || end == Interrupted then Some(SavePayload(pid, ctx)) else old(saved)
      ensures forall i | 0 <= i < n - 1 :: !interrupts[i]
    {
      hide Turn, Turns, Concat, SavePayload;
      n, end := 0, Unfinished;
      TurnsBegin(program, ctx, table, segMax, bank.Flat());
      while end == Unfinished && n < |interrupts|
        invariant n <= |interrupts| && Valid() && !hasJumped && (end == Unfinished ==> Fresh())
        invariant Reached(Turns(program, old(ctx), table, segMax, old(bank.Flat()), n), end)
        invariant end == Interrupted ==> n > 0 && interrupts[n - 1]
        invariant saved == if end == Stopped || end == Interrupted then Some(SavePayload(pid, ctx)) else old(saved)
        invariant forall i | 0 <= i < n - 1 :: !interrupts[i]
        invariant end == Unfinished && n > 0 ==> !interrupts[n - 1]
        decreases |interrupts| - n, end == Unfinished
      {
        TurnsNext(program, old(ctx), table, segMax, old(bank.Flat()), n);
        end := NextTurn(program, interrupts[n]);
        n := n + 1;
      }
    }

    /** The registers, memory and reason to leave are those after some turns. */
    ghost predicate Reached(t: (Context, seq<byte>, Signal), end: End)
      reads this, bank, bank.sticks
    {
      ctx == t.0 && bank.Flat() == t.1 && (end == Ended <==> t.2 == Exiting) && (end == Stopped <==> t.2 == Stopping)
    }

    /** One turn, then the flags and the interrupt. */
    method NextTurn(program: Program, interrupt: bool) returns (end: End)
      requires Valid() && Fresh()
      modifies this`ctx, this`hasJumped, this`shouldExit, this`shouldStop, this`saved, bank.sticks
      ensures Valid() && Fresh()
      ensures Reached(Turn(program, old(ctx), table, segMax, old(bank.Flat())), end)
      ensures end == Interrupted ==> interrupt
      ensures end == Unfinished ==> !interrupt
      ensures saved == if end == Stopped || end == Interrupted then Some(SavePayload(pid, ctx)) else old(saved)
    {
      hide Turn, Concat, SavePayload;
      TakeTurn(program);
      end := Unfinished;
      if shouldExit {
        shouldExit, end := false, Ended;
      } else if shouldStop {
        shouldStop, end := false, Stopped;
      } else if interrupt {
        var payload := ContextSend(pid, ctx);
        saved, end := Some(payload), Interrupted;
      }
    }
  }

  lemma TurnsBegin(program: Program, c: Context, table: seq<Entry>, segMax: u32, mem: seq<byte>)
    requires segMax > 0
    ensures Turns(program, c, table, segMax, mem, 0) == (c, mem, Running)
  {
  }

  lemma TurnsNext(program: Program, c: Context, table: seq<Entry>, segMax: u32, mem: seq<byte>, n: nat)
    requires segMax > 0 && Turns(program, c, table, segMax, mem, n).2 == Running
    ensures var t := Turns(program, c, table, segMax, mem, n);
      Turns(program, c, table, segMax, mem, n + 1) == Turn(program, t.0, table, segMax, t.1)
  {
    hide Turn;
  }

  /** A stopping instruction has already advanced the program counter, so what it sent is not stale. */
  lemma StoppedHasJumped(ins: Instruction, c: Context, table: seq<Entry>, segMax: u32, mem: seq<byte>)
    requires segMax > 0
    ensures Execute(ins, c, table, segMax, mem).signal == Stopping ==> Execute(ins, c, table, segMax, mem).jumped
  {
    hide MmuTranslate, Get, Set;
  }
}
