/**
 The instruction set and the MMU of a CPU, over physical memory (cpu/src/manage_instructions.c).
*/
module Cpu {
  import opened Base
  import opened Framing
  import opened Contexts

  datatype Register = AX | BX | CX | DX | EAX | EBX | ECX | EDX | SI | DI | PC

  /** Bytes of a register: the one-letter registers have one, all others four. */
  function Width(r: Register): nat {
    if r == AX || r == BX || r == CX || r == DX then 1 else 4
  }

  /** `read_register_value` */
  function Get(c: Context, r: Register): u32 {
    match r
    case AX => c.ax
    case BX => c.bx
    case CX => c.cx
    case DX => c.dx
    case EAX => c.eax
    case EBX => c.ebx
    case ECX => c.ecx
    case EDX => c.edx
    case SI => c.si
    case DI => c.di
    case PC => c.pc
  }

  /** `write_register_value`: a one-byte register takes the low byte. */
  function Set(c: Context, r: Register, value: u32): Context {
    match r
    case AX => c.(ax := value % 256)
    case BX => c.(bx := value % 256)
    case CX => c.(cx := value % 256)
    case DX => c.(dx := value % 256)
    case EAX => c.(eax := value)
    case EBX => c.(ebx := value)
    case ECX => c.(ecx := value)
    case EDX => c.(edx := value)
    case SI => c.(si := value)
    case DI => c.(di := value)
    case PC => c.(pc := value)
  }

  /** Writing a register changes that register, as far as it is wide, and no other. */
  lemma RegistersApart(c: Context, r: Register, value: u32, q: Register)
    ensures Get(Set(c, r, value), q)
         == if q != r then Get(c, q) else if r in {AX, BX, CX, DX} then value % 256 else value
  {
  }

  /** A register name is absent when it names no register. `Syscall` is any of MUTEX_CREATE, MUTEX_LOCK,
      MUTEX_UNLOCK, MEM_ALLOC, MEM_FREE and SLEEP; `Io` is STDIN or STDOUT. */
  datatype Instruction =
    | Noop
    | SetTo(dst: Option<Register>, value: u32)
    | MovIn(dst: Option<Register>)
    | MovOut(src: Option<Register>)
    | Sum(dst: Option<Register>, src: Option<Register>)
    | Sub(dst: Option<Register>, src: Option<Register>)
    | Jnz(test: Option<Register>, target: i32)
    | CopyMem(size: Option<Register>)
    | Syscall
    | Io(address: Option<Register>, size: Option<Register>)
    | InitProc
    | Exit
    | Unknown

  /** What `atoi` yields. */
  type i32 = n: int | -0x8000_0000 <= n < 0x8000_0000

  /** Whether the instruction cycle goes on: `should_stop` and `should_exit`. */
  datatype Signal = Running | Stopping | Exiting

  /** The outcome of one instruction. */
  datatype Effect = Effect(ctx: Context, mem: seq<byte>, jumped: bool, signal: Signal)

  // ---------- the MMU ----------

  /** The first entry with the given segment id. */
  function FindEntry(table: seq<Entry>, id: nat): (r: Option<nat>)
    ensures r.Some? ==> r.value < |table| && table[r.value].id == id
    ensures r.Some? ==> forall k | 0 <= k < r.value :: table[k].id != id
    ensures r.None? ==> forall k | 0 <= k < |table| :: table[k].id != id
  {
    if table == [] then None
    else if table[0].id == id then Some(0)
    else
      var r := FindEntry(table[1..], id);
      if r.None? then None else Some(r.value + 1)
  }

  /** The two halves of a logical address. */
  function SegmentOf(address: u32, segMax: u32): nat
    requires segMax > 0
  {
    address / segMax
  }

  function OffsetOf(address: u32, segMax: u32): (r: u32)
    requires segMax > 0
    ensures r < segMax
  {
    address % segMax
  }

  /** A sum as a 32-bit register holds it. */
  function Wrap(sum: nat): (r: u32)
    requires sum < 2 * TWO_32
    ensures r == if sum < TWO_32 then sum else sum - TWO_32
  {
    sum % TWO_32
  }

  /** `mmu_translate`: nothing on a segmentation fault. The sums are 32-bit sums. */
  function MmuTranslate(table: seq<Entry>, segMax: u32, address: u32, size: u32): Option<u32>
    requires segMax > 0
  {
    var offset := OffsetOf(address, segMax);
    match FindEntry(table, SegmentOf(address, segMax))
    case None => None
    case Some(k) =>
      if Wrap(offset + size) > table[k].size then None else Some(Wrap(table[k].base + offset))
  }

  /** `memory_read` on the flat memory. */
  function ReadAt(mem: seq<byte>, address: nat, size: nat): Option<seq<byte>> {
    if size == 0 then Some([])
    else if address + size > |mem| then None
    else Some(mem[address..address + size])
  }

  /** The bytes of a register, and the value of as many bytes. */
  function RegisterBytes(c: Context, r: Register): (bytes: seq<byte>)
    ensures |bytes| == Width(r)
  {
    if Width(r) == 1 then [Get(c, r) % 256] else Word(Get(c, r))
  }

  function ValueOf(bytes: seq<byte>): u32
    requires |bytes| == 1 || |bytes| == 4
  {
    if |bytes| == 1 then bytes[0] else OfWord(bytes)
  }

  /** What MOV_OUT stores of a register, MOV_IN loads back. */
  lemma RegisterRoundTrip(c: Context, r: Register)
    ensures Set(c, r, ValueOf(RegisterBytes(c, r))) == c
  {
    WordRoundTrip(Get(c, r));
  }

  // ---------- instructions ----------

  /** `execute_instruction` */
  function Execute(ins: Instruction, c: Context, table: seq<Entry>, segMax: u32, mem: seq<byte>): Effect
    requires segMax > 0
  {
    match ins
    case SetTo(Some(r), value) => Effect(Set(c, r, value), mem, r == PC, Running)
    case Sum(Some(r), Some(s)) => Effect(Set(c, r, Wrap(Get(c, r) + Get(c, s))), mem, r == PC, Running)
    case Sub(Some(r), Some(s)) => Effect(Set(c, r, Wrap(Get(c, r) + TWO_32 - Get(c, s))), mem, r == PC, Running)
    case Jnz(Some(r), target) =>
      if target > 0 && Get(c, r) != 0 then Effect(c.(pc := target), mem, true, Running)
      else Effect(c, mem, false, Running)
    case MovIn(Some(r)) => ExecuteMovIn(r, c, table, segMax, mem)
    case MovOut(Some(r)) => ExecuteMovOut(r, c, table, segMax, mem)
    case CopyMem(Some(r)) => ExecuteCopyMem(Get(c, r), c, table, segMax, mem)
    case Syscall => Effect(c.(pc := Wrap(c.pc + 1)), mem, true, Stopping)
    case Io(Some(r), Some(s)) =>
      if MmuTranslate(table, segMax, Get(c, r), Get(c, s)).None? then Effect(c, mem, false, Exiting)
      else Effect(c.(pc := Wrap(c.pc + 1)), mem, true, Stopping)
    case Exit => Effect(c, mem, false, Exiting)
    case _ => Effect(c, mem, false, Running)
  }

  /** `instruction_mov_in` */
  function ExecuteMovIn(r: Register, c: Context, table: seq<Entry>, segMax: u32, mem: seq<byte>): Effect
    requires segMax > 0
  {
    var at := MmuTranslate(table, segMax, c.si, Width(r));
    if at.None? then Effect(c, mem, false, Exiting)
    else
      var data := ReadAt(mem, at.value, Width(r));
      if data.None? then Effect(c, mem, false, Running)
      else Effect(Set(c, r, ValueOf(data.value)), mem, r == PC, Running)
  }

  /** `instruction_mov_out` */
  function ExecuteMovOut(r: Register, c: Context, table: seq<Entry>, segMax: u32, mem: seq<byte>): Effect
    requires segMax > 0
  {
    var at := MmuTranslate(table, segMax, c.di, Width(r));
    if at.None? then Effect(c, mem, false, Exiting)
    else Effect(c, Overwrite(mem, at.value, RegisterBytes(c, r)), false, Running)
  }

  /** `instruction_copy_mem`: both addresses are translated first, and all is read before anything is written. */
  function ExecuteCopyMem(size: u32, c: Context, table: seq<Entry>, segMax: u32, mem: seq<byte>): Effect
    requires segMax > 0
  {
    var src, dst := MmuTranslate(table, segMax, c.si, size), MmuTranslate(table, segMax, c.di, size);
    if src.None? || dst.None? then Effect(c, mem, false, Exiting)
    else
      var data := ReadAt(mem, src.value, size);
      if data.None? then Effect(c, mem, false, Running)
      else Effect(c, Overwrite(mem, dst.value, data.value), false, Running)
  }

  /** The program counter after an instruction. */
  function Advance(c: Context, jumped: bool): Context {
    if jumped then c else c.(pc := Wrap(c.pc + 1))
  }

  type Program = u32 -> Instruction

  /** One turn of the instruction cycle. */
  function Turn(
    program: Program, c: Context, table: seq<Entry>, segMax: u32, mem: seq<byte>): (Context, seq<byte>, Signal)
    requires segMax > 0
  {
    var e := Execute(program(c.pc), c, table, segMax, mem);
    (Advance(e.ctx, e.jumped), e.mem, e.signal)
  }

  /** `n` turns, stopping early when an instruction stops or ends the process. */
  function Turns(
    program: Program, c: Context, table: seq<Entry>, segMax: u32, mem: seq<byte>, n: nat):
      (Context, seq<byte>, Signal)
    requires segMax > 0
    decreases n
  {
    if n == 0 then (c, mem, Running)
    else
      var before := Turns(program, c, table, segMax, mem, n - 1);
      if before.2 != Running then before
      else Turn(program, before.0, table, segMax, before.1)
  }
}
