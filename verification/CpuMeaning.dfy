/**
 What the MMU and the instructions of a CPU do, told in arithmetic on addresses, registers and bytes and
 without the functions that compute it.
*/
module CpuMeaning {
  import opened Base
  import opened Framing
  import opened Contexts
  import opened Cpu

  // ---------- the MMU ----------

  /** The segment `id` begins at the logical address `id * segMax`, and its byte `k` is `k` further on: the
      translation of that address is `k` bytes behind the base of the first segment with that id, exactly if the
      access ends inside the segment, as far as the sums can be held in 32 bits. */
  lemma TranslationArithmetic(table: seq<Entry>, segMax: u32, j: nat, k: nat, n: u32)
    requires j < |table| && forall i | 0 <= i < j :: table[i].id != table[j].id
    requires k < segMax && table[j].id * segMax + k < TWO_32
    ensures var (e, at) := (table[j], MmuTranslate(table, segMax, table[j].id * segMax + k, n));
      && (k + n < TWO_32 ==> (at.Some? <==> k + n <= e.size))
      && (k + n >= TWO_32 ==> (at.Some? <==> k + n - TWO_32 <= e.size))
      && (at.Some? ==> at.value == (e.base + k) % TWO_32)
      && (at.Some? && e.base + k < TWO_32 ==> at.value == e.base + k)
  {
    QuotientUnique(table[j].id, segMax, k);
  }

  /** An address that names no segment faults. */
  lemma NoTranslation(table: seq<Entry>, segMax: u32, id: nat, k: nat, n: u32)
    requires k < segMax && id * segMax + k < TWO_32 && forall i | 0 <= i < |table| :: table[i].id != id
    ensures MmuTranslate(table, segMax, id * segMax + k, n).None?
  {
    QuotientUnique(id, segMax, k);
  }

  /** Every address is a byte of one segment, so the two lemmas before say what becomes of each. */
  lemma AddressParts(address: u32, segMax: u32)
    requires segMax > 0
    ensures address == SegmentOf(address, segMax) * segMax + OffsetOf(address, segMax)
  {
  }

  // ---------- registers and their bytes ----------

  /** Every register has its place in the context. */
  lemma RegisterPlaces(c: Context)
    ensures c == Context(Get(c, PC), Get(c, AX), Get(c, BX), Get(c, CX), Get(c, DX),
                         Get(c, EAX), Get(c, EBX), Get(c, ECX), Get(c, EDX), Get(c, SI), Get(c, DI))
  {
  }

  /** How many values a register has. */
  function Values(r: Register): nat {
    if r in {AX, BX, CX, DX} then 256 else TWO_32
  }

  /** `c'` is `c` with the register holding `value`, as far as it can, and all others as they were. */
  ghost predicate Holding(c: Context, c': Context, r: Register, value: int) {
    && Get(c', r) == value % Values(r)
    && forall q: Register | q != r :: Get(c', q) == Get(c, q)
  }

  /** The program counter is one further, in 32 bits. */
  function Next(pc: u32): u32 {
    (pc + 1) % TWO_32
  }

  ghost predicate GoesOn(c: Context, c': Context) {
    c' == c.(pc := Next(c.pc))
  }

  /** The register holds `value`, and the program goes on behind the instruction; or at `value`, if the register is
      the program counter. */
  ghost predicate Writes(c: Context, c': Context, r: Register, value: int) {
    if r == PC then c' == c.(pc := value % TWO_32)
    else c'.pc == Next(c.pc) && Holding(c, c'.(pc := c.pc), r, value)
  }

  /** A register lies in memory with its lowest byte first. */
  lemma BytesOrdered(c: Context, r: Register, k: nat)
    requires k < |RegisterBytes(c, r)|
    ensures |RegisterBytes(c, r)| == if r in {AX, BX, CX, DX} then 1 else 4
    ensures RegisterBytes(c, r)[k] == ByteOf(Get(c, r), k)
  {
    WordByte(Get(c, r), k);
  }

  /** The value of the bytes at an address, the lowest first. */
  function NumberAt(mem: seq<byte>, at: nat, width: nat): nat
    requires (width == 1 || width == 4) && at + width <= |mem|
  {
    if width == 1 then mem[at]
    else
      mem[at] as nat + 256 * mem[at + 1] as nat + 65536 * mem[at + 2] as nat + 16777216 * mem[at + 3] as nat
  }

  /** Memory with `n` bytes from `at` on replaced by those of `from`, as far as it reaches. */
  ghost predicate Stores(mem: seq<byte>, mem': seq<byte>, at: nat, n: nat, from: nat -> byte) {
    && |mem'| == |mem|
    && forall a: nat | a < |mem| :: mem'[a] == if at <= a < at + n then from(a - at) else mem[a]
  }

  // ---------- what every instruction does ----------

  /** One turn of the instruction cycle. */
  ghost predicate Does(ins: Instruction, c: Context, table: seq<Entry>, segMax: u32, mem: seq<byte>,
                       c': Context, mem': seq<byte>, signal: Signal)
    requires segMax > 0
  {
    match ins
    case SetTo(Some(r), value) => signal == Running && mem' == mem && Writes(c, c', r, value)
    case Sum(Some(r), Some(s)) => signal == Running && mem' == mem && Writes(c, c', r, Get(c, r) + Get(c, s))
    case Sub(Some(r), Some(s)) => signal == Running && mem' == mem && Writes(c, c', r, Get(c, r) - Get(c, s))
    case Jnz(Some(r), target) =>
      && signal == Running && mem' == mem
      && if Get(c, r) != 0 && target > 0 then c' == c.(pc := target) else GoesOn(c, c')
    case MovIn(Some(r)) => mem' == mem && Loads(r, c, MmuTranslate(table, segMax, c.si, Width(r)), mem, c', signal)
    case MovOut(Some(r)) =>
      var at := MmuTranslate(table, segMax, c.di, Width(r));
      && GoesOn(c, c') && signal == (if at.None? then Exiting else Running)
      && if at.None? then mem' == mem
         else Stores(mem, mem', at.value, if Values(r) == 256 then 1 else 4, k => ByteOf(Get(c, r), k))
    case CopyMem(Some(r)) =>
      && GoesOn(c, c')
      && Copies(Get(c, r), MmuTranslate(table, segMax, c.si, Get(c, r)), MmuTranslate(table, segMax, c.di, Get(c, r)),
                mem, mem', signal)
    case Syscall => GoesOn(c, c') && mem' == mem && signal == Stopping
    case Io(Some(r), Some(s)) =>
      && GoesOn(c, c') && mem' == mem
      && signal == if MmuTranslate(table, segMax, Get(c, r), Get(c, s)).None? then Exiting else Stopping
    case Exit => GoesOn(c, c') && mem' == mem && signal == Exiting
    case _ => GoesOn(c, c') && mem' == mem && signal == Running
  }

  ghost predicate Loads(r: Register, c: Context, at: Option<u32>, mem: seq<byte>, c': Context, signal: Signal) {
    var width := if Values(r) == 256 then 1 else 4;
    && signal == (if at.None? then Exiting else Running)
    && if at.None? || at.value + width > |mem| then GoesOn(c, c')
       else Writes(c, c', r, NumberAt(mem, at.value, width))
  }

  /** All is read before anything is written, and nothing is read past the end of memory. */
  ghost predicate Copies(
    n: u32, src: Option<u32>, dst: Option<u32>, mem: seq<byte>, mem': seq<byte>, signal: Signal)
  {
    && signal == (if src.None? || dst.None? then Exiting else Running)
    && if src.None? || dst.None? || src.value + n > |mem| then mem' == mem
       else Stores(mem, mem', dst.value, n, k => if src.value + k < |mem| then mem[src.value + k] else 0)
  }

  lemma WriteMeans(c: Context, r: Register, value: nat, v: u32)
    requires v == value % TWO_32
    ensures Writes(c, Advance(Set(c, r, v), r == PC), r, value)
  {
    assert value % TWO_32 % 256 == value % 256;
  }

  lemma SameRemainder(n: int, k: nat, d: nat)
    requires d > 0
    ensures (n + k * d) % d == n % d
  {
    var m := n + k * d;
    assert n == n / d * d + n % d && m == m / d * d + m % d;
    assert (n / d + k) * d == n / d * d + k * d;
    PartsUnique(m / d, m % d, n / d + k, n % d, d);
  }

  lemma WriteDifference(c: Context, r: Register, x: u32, y: u32)
    ensures Writes(c, Advance(Set(c, r, Wrap(x + TWO_32 - y)), r == PC), r, x - y)
  {
    hide Set, Advance, Get;
    WriteMeans(c, r, x + TWO_32 - y, Wrap(x + TWO_32 - y));
    SameRemainder(x - y, 1, TWO_32);
    SameRemainder(x - y, 16777216, 256);
  }

  lemma LoadMeans(r: Register, c: Context, table: seq<Entry>, segMax: u32, mem: seq<byte>)
    requires segMax > 0
    ensures var e := ExecuteMovIn(r, c, table, segMax, mem);
      && e.mem == mem
      && Loads(r, c, MmuTranslate(table, segMax, c.si, Width(r)), mem, Advance(e.ctx, e.jumped), e.signal)
  {
    hide MmuTranslate, Set, Get, Writes;
    var at := MmuTranslate(table, segMax, c.si, Width(r));
    if at.Some? && at.value + Width(r) <= |mem| {
      WriteMeans(c, r, NumberAt(mem, at.value, Width(r)), ValueOf(mem[at.value..at.value + Width(r)]));
    }
  }

  lemma StoreMeans(r: Register, c: Context, table: seq<Entry>, segMax: u32, mem: seq<byte>)
    requires segMax > 0
    ensures var e := ExecuteMovOut(r, c, table, segMax, mem);
      Does(MovOut(Some(r)), c, table, segMax, mem, Advance(e.ctx, e.jumped), e.mem, e.signal)
  {
    hide MmuTranslate, Get, RegisterBytes, ByteOf;
    forall k: nat | k < Width(r) ensures RegisterBytes(c, r)[k] == ByteOf(Get(c, r), k) {
      BytesOrdered(c, r, k);
    }
  }

  lemma CopyMeans(n: u32, c: Context, table: seq<Entry>, segMax: u32, mem: seq<byte>)
    requires segMax > 0
    ensures var e := ExecuteCopyMem(n, c, table, segMax, mem);
      && e.ctx == c && !e.jumped
      && Copies(n, MmuTranslate(table, segMax, c.si, n), MmuTranslate(table, segMax, c.di, n), mem, e.mem, e.signal)
  {
    hide MmuTranslate, Get;
  }

  /** Every turn does just that. */
  lemma TurnMeans(program: Program, c: Context, table: seq<Entry>, segMax: u32, mem: seq<byte>)
    requires segMax > 0
    ensures var t := Turn(program, c, table, segMax, mem);
      Does(program(c.pc), c, table, segMax, mem, t.0, t.1, t.2)
  {
    hide MmuTranslate, Get, Set, ExecuteMovIn, ExecuteMovOut, ExecuteCopyMem, Writes, Loads, Copies, Stores;
    match program(c.pc)
    case SetTo(Some(r), value) => WriteMeans(c, r, value, value);
    case Sum(Some(r), Some(s)) => WriteMeans(c, r, Get(c, r) + Get(c, s), Wrap(Get(c, r) + Get(c, s)));
    case Sub(Some(r), Some(s)) => WriteDifference(c, r, Get(c, r), Get(c, s));
    case MovIn(Some(r)) => LoadMeans(r, c, table, segMax, mem);
    case MovOut(Some(r)) => StoreMeans(r, c, table, segMax, mem);
    case CopyMem(Some(r)) => CopyMeans(Get(c, r), c, table, segMax, mem);
    case _ =>
  }
}
