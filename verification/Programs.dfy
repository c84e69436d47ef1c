/**
 What a program means to its author: registers and byte-string segments, no physical addresses; and the
 proof that a CPU over physical memory computes just that, for its own process and nobody else's.
*/
module Programs {
  import opened Base
  import opened Segments
  import opened SegmentStore
  import opened StoreViews
  import opened Contexts
  import opened Cpu

  // ---------- the machine without addresses ----------

  /** Where a logical range lies: nowhere (a segmentation fault), in segment `k`, or, because the 32-bit sum
      of offset and size wrapped, at a place the MMU lets through but no memory holds. */
  datatype Place = Fault | Nowhere | At(k: nat, offset: nat)

  function FindObj(objs: seq<Obj>, id: nat): (r: Option<nat>)
    ensures r.Some? ==> r.value < |objs| && objs[r.value].id == id
  {
    if objs == [] then None
    else if objs[0].id == id then Some(0)
    else
      var r := FindObj(objs[1..], id);
      if r.None? then None else Some(r.value + 1)
  }

  function Locate(objs: seq<Obj>, segMax: u32, address: u32, size: u32): (p: Place)
    requires segMax > 0
    ensures p.At? ==> p.k < |objs| && p.offset + size <= |objs[p.k].bytes|
    ensures p.At? ==> objs[p.k].id == SegmentOf(address, segMax) && p.offset == OffsetOf(address, segMax)
  {
    var offset := OffsetOf(address, segMax);
    match FindObj(objs, SegmentOf(address, segMax))
    case None => Fault
    case Some(k) =>
      if Wrap(offset + size) > |objs[k].bytes| then Fault
      else if offset + size >= TWO_32 then Nowhere
      else At(k, offset)
  }

  /** A store of `data` at `offset` of segment `k`. */
  datatype Write = Write(k: nat, offset: nat, data: seq<byte>)

  function Stored(objs: seq<Obj>, w: Option<Write>): seq<Obj>
    requires w.Some? ==> w.value.k < |objs| && w.value.offset + |w.value.data| <= |objs[w.value.k].bytes|
  {
    if w.None? then objs
    else
      var Write(k, offset, data) := w.value;
      objs[k := Obj(objs[k].id, Splice(objs[k].bytes, offset, data))]
  }

  datatype Meaning = Meaning(ctx: Context, write: Option<Write>, jumped: bool, signal: Signal)

  function Perform(ins: Instruction, c: Context, objs: seq<Obj>, segMax: u32): (m: Meaning)
    requires segMax > 0
    ensures m.write.Some? ==>
      m.write.value.k < |objs| && m.write.value.offset + |m.write.value.data| <= |objs[m.write.value.k].bytes|
  {
    match ins
    case SetTo(Some(r), value) => Meaning(Set(c, r, value), None, r == PC, Running)
    case Sum(Some(r), Some(s)) => Meaning(Set(c, r, Wrap(Get(c, r) + Get(c, s))), None, r == PC, Running)
    case Sub(Some(r), Some(s)) => Meaning(Set(c, r, Wrap(Get(c, r) + TWO_32 - Get(c, s))), None, r == PC, Running)
    case Jnz(Some(r), target) =>
      if target > 0 && Get(c, r) != 0 then Meaning(c.(pc := target), None, true, Running)
      else Meaning(c, None, false, Running)
    case MovIn(Some(r)) =>
      (match Locate(objs, segMax, c.si, Width(r))
       case Fault => Meaning(c, None, false, Exiting)
       case Nowhere => Meaning(c, None, false, Running)
       case At(k, offset) =>
         Meaning(Set(c, r, ValueOf(objs[k].bytes[offset..offset + Width(r)])), None, r == PC, Running))
    case MovOut(Some(r)) =>
      (match Locate(objs, segMax, c.di, Width(r))
       case Fault => Meaning(c, None, false, Exiting)
       case Nowhere => Meaning(c, None, false, Running)
       case At(k, offset) => Meaning(c, Some(Write(k, offset, RegisterBytes(c, r))), false, Running))
    case CopyMem(Some(r)) =>
      var src, dst := Locate(objs, segMax, c.si, Get(c, r)), Locate(objs, segMax, c.di, Get(c, r));
      if src.Fault? || dst.Fault? then Meaning(c, None, false, Exiting)
      else if src.Nowhere? || dst.Nowhere? then Meaning(c, None, false, Running)
      else
        var data := objs[src.k].bytes[src.offset..src.offset + Get(c, r)];
        Meaning(c, Some(Write(dst.k, dst.offset, data)), false, Running)
    case Syscall => Meaning(c.(pc := Wrap(c.pc + 1)), None, true, Stopping)
    case Io(Some(r), Some(s)) =>
      if Locate(objs, segMax, Get(c, r), Get(c, s)).Fault? then Meaning(c, None, false, Exiting)
      else Meaning(c.(pc := Wrap(c.pc + 1)), None, true, Stopping)
    case Exit => Meaning(c, None, false, Exiting)
    case _ => Meaning(c, None, false, Running)
  }

  // ---------- what a CPU knows of a process ----------

  /** Memory is small enough for no access to reach around the 32-bit address space. */
  predicate Fits(segMax: u32, mem: seq<byte>) {
    segMax > 0 && segMax + |mem| <= TWO_32
  }

  predicate Sendable32(table: seq<Segment>) {
    forall k | 0 <= k < |table| :: table[k].End() < TWO_32
  }

  /** A segment table as Kernel Memory sends it. */
  function Entries(table: seq<Segment>): (r: seq<Entry>)
    requires Sendable32(table)
    ensures |r| == |table|
    ensures forall k | 0 <= k < |r| :: r[k] == Entry(table[k].id, table[k].base, table[k].size)
  {
    if table == [] then []
    else [Entry(table[0].id, table[0].base, table[0].size)] + Entries(table[1..])
  }

  /** `objs` is what `table` describes over `mem`. */
  ghost predicate Describes(table: seq<Entry>, mem: seq<byte>, objs: seq<Obj>) {
    && |table| == |objs|
    && forall k | 0 <= k < |table| ::
      && table[k].base + table[k].size <= |mem|
      && objs[k] == Obj(table[k].id, mem[table[k].base..table[k].base + table[k].size])
  }

  lemma {:induction false} SameEntry(table: seq<Entry>, mem: seq<byte>, objs: seq<Obj>, id: nat)
    requires Describes(table, mem, objs)
    ensures FindObj(objs, id) == FindEntry(table, id)
  {
    if table != [] {
      SameEntry(table[1..], mem, objs[1..], id);
    }
  }

  /** A successful translation lies inside one of the process's segments, at the place the logical address
      names, if and only if the sum of offset and size did not wrap; if it wrapped, the range ends beyond
      all memory. */
  lemma TranslationExact(table: seq<Entry>, mem: seq<byte>, objs: seq<Obj>, segMax: u32, address: u32, size: u32)
    requires Describes(table, mem, objs) && Fits(segMax, mem)
    ensures var at := MmuTranslate(table, segMax, address, size);
      var place := Locate(objs, segMax, address, size);
      && (at.None? <==> place.Fault?)
      && (place.At? ==> at == Some(table[place.k].base + place.offset)
                        && place.offset + size <= table[place.k].size)
      && (place.Nowhere? ==> OffsetOf(address, segMax) <= at.value && at.value + size > |mem|)
      && (place.At? || place.Nowhere? ==> (place.At? <==> OffsetOf(address, segMax) + size < TWO_32))
  {
    hide OffsetOf, SegmentOf, Wrap, FindEntry, FindObj;
    SameEntry(table, mem, objs, SegmentOf(address, segMax));
  }

  // ---------- one instruction ----------

  /** Physical memory after a store, given the table that places it. */
  function Written(mem: seq<byte>, table: seq<Entry>, w: Option<Write>): seq<byte>
    requires w.Some? ==> w.value.k < |table|
  {
    if w.None? then mem else Overwrite(mem, table[w.value.k].base + w.value.offset, w.value.data)
  }

  /** A place that is not a fault is read as the segment's bytes, and one that is nowhere holds nothing. */
  lemma ReadExact(table: seq<Entry>, mem: seq<byte>, objs: seq<Obj>, segMax: u32, address: u32, size: u32)
    requires Describes(table, mem, objs) && Fits(segMax, mem)
    requires !Locate(objs, segMax, address, size).Fault?
    ensures MmuTranslate(table, segMax, address, size).Some?
    ensures var place := Locate(objs, segMax, address, size);
      ReadAt(mem, MmuTranslate(table, segMax, address, size).value, size)
        == if place.At? then Some(objs[place.k].bytes[place.offset..place.offset + size]) else None
  {
    hide OffsetOf, SegmentOf, Wrap, FindEntry, FindObj, MmuTranslate, Locate;
    TranslationExact(table, mem, objs, segMax, address, size);
    NowhereBeyond(objs, segMax, address, size);
    var place := Locate(objs, segMax, address, size);
    if place.At? {
      var e := table[place.k];
      SliceOfSlice(mem, e.base, e.size, place.offset, size);
    }
  }

  lemma SliceOfSlice(mem: seq<byte>, base: nat, length: nat, offset: nat, size: nat)
    requires base + length <= |mem| && offset + size <= length
    ensures mem[base..base + length][offset..offset + size] == mem[base + offset..base + offset + size]
  {
    var inner := mem[base..base + length];
    var left, right := inner[offset..offset + size], mem[base + offset..base + offset + size];
    assert |left| == |right|;
    forall k | 0 <= k < |left| ensures left[k] == right[k] {
      assert left[k] == inner[offset + k];
    }
  }

  lemma NowhereBeyond(objs: seq<Obj>, segMax: u32, address: u32, size: u32)
    requires segMax > 0
    ensures Locate(objs, segMax, address, size).Nowhere? ==> OffsetOf(address, segMax) + size >= TWO_32
  {
    hide OffsetOf, SegmentOf, Wrap, FindObj;
  }

  lemma MovInSimulates(r: Register, c: Context, table: seq<Entry>, segMax: u32, mem: seq<byte>, objs: seq<Obj>)
    requires Describes(table, mem, objs) && Fits(segMax, mem)
    ensures Agree(ExecuteMovIn(r, c, table, segMax, mem), Perform(MovIn(Some(r)), c, objs, segMax), mem, table)
  {
    hide OffsetOf, SegmentOf, Wrap, FindEntry, FindObj, MmuTranslate, Locate, Describes, ReadAt, ValueOf;
    TranslationExact(table, mem, objs, segMax, c.si, Width(r));
    if !Locate(objs, segMax, c.si, Width(r)).Fault? {
      ReadExact(table, mem, objs, segMax, c.si, Width(r));
    }
  }

  lemma MovOutSimulates(r: Register, c: Context, table: seq<Entry>, segMax: u32, mem: seq<byte>, objs: seq<Obj>)
    requires Describes(table, mem, objs) && Fits(segMax, mem)
    ensures Agree(ExecuteMovOut(r, c, table, segMax, mem), Perform(MovOut(Some(r)), c, objs, segMax), mem, table)
  {
    hide OffsetOf, SegmentOf, Wrap, FindEntry, FindObj, MmuTranslate, Locate, Overwrite, RegisterBytes;
    TranslationExact(table, mem, objs, segMax, c.di, Width(r));
    NowhereBeyond(objs, segMax, c.di, Width(r));
    var at := MmuTranslate(table, segMax, c.di, Width(r));
    if Locate(objs, segMax, c.di, Width(r)).Nowhere? {
      assert at.value >= |mem|;
      OverwriteBeyond(mem, at.value, RegisterBytes(c, r));
    }
  }

  lemma OverwriteBeyond(mem: seq<byte>, address: nat, data: seq<byte>)
    requires address >= |mem|
    ensures Overwrite(mem, address, data) == mem
  {
  }

  lemma DescribesSize(table: seq<Entry>, mem: seq<byte>, objs: seq<Obj>)
    requires Describes(table, mem, objs)
    ensures |table| == |objs| && forall k | 0 <= k < |table| :: table[k].base + table[k].size <= |mem|
  {
  }

  lemma CopyMemSimulates(r: Register, c: Context, table: seq<Entry>, segMax: u32, mem: seq<byte>, objs: seq<Obj>)
    requires Describes(table, mem, objs) && Fits(segMax, mem)
    ensures var e := ExecuteCopyMem(Get(c, r), c, table, segMax, mem);
      Agree(e, Perform(CopyMem(Some(r)), c, objs, segMax), mem, table)
  {
    hide OffsetOf, SegmentOf, Wrap, FindEntry, FindObj, MmuTranslate, Locate, Overwrite, Get, ReadAt, Describes;
    DescribesSize(table, mem, objs);
    var size := Get(c, r);
    TranslationExact(table, mem, objs, segMax, c.si, size);
    TranslationExact(table, mem, objs, segMax, c.di, size);
    NowhereBeyond(objs, segMax, c.di, size);
    if !Locate(objs, segMax, c.si, size).Fault? {
      ReadExact(table, mem, objs, segMax, c.si, size);
    }
  }

  /** The CPU's outcome is the program's meaning, with the store placed by the table. */
  ghost predicate Agree(e: Effect, m: Meaning, mem: seq<byte>, table: seq<Entry>) {
    && e.ctx == m.ctx && e.jumped == m.jumped && e.signal == m.signal
    && (m.write.Some? ==> m.write.value.k < |table|)
    && e.mem == Written(mem, table, m.write)
  }

  lemma ExecuteSimulates(ins: Instruction, c: Context, table: seq<Entry>, segMax: u32, mem: seq<byte>, objs: seq<Obj>)
    requires Describes(table, mem, objs) && Fits(segMax, mem)
    ensures Agree(Execute(ins, c, table, segMax, mem), Perform(ins, c, objs, segMax), mem, table)
  {
    hide OffsetOf, SegmentOf, FindEntry, FindObj, MmuTranslate, Locate, Overwrite, Get, Set, ReadAt,
      ExecuteMovIn, ExecuteMovOut, ExecuteCopyMem;
    match ins
    case MovIn(Some(r)) => MovInSimulates(r, c, table, segMax, mem, objs);
    case MovOut(Some(r)) => MovOutSimulates(r, c, table, segMax, mem, objs);
    case CopyMem(Some(r)) => CopyMemSimulates(r, c, table, segMax, mem, objs);
    case Io(Some(r), Some(s)) => TranslationExact(table, mem, objs, segMax, Get(c, r), Get(c, s));
    case _ =>
  }

  // ---------- the MMU in a reachable allocator state ----------

  lemma TableDescribes(segs: seq<Segment>, mem: seq<byte>, segMax: u32, pid: nat)
    requires Disjoint(segs, |mem|) && Fits(segMax, mem)
    ensures var table := Table(segs, pid);
      Sendable32(table) && Describes(Entries(table), mem, Resident(segs, mem, pid))
  {
    ResidentTable(segs, mem, pid);
  }

  /** What the MMU of a CPU that runs `pid` translates an access to. */
  ghost function Translation(segs: seq<Segment>, pid: nat, segMax: u32, address: u32, size: u32): Option<u32>
    requires segMax > 0 && Sendable32(Table(segs, pid))
  {
    MmuTranslate(Entries(Table(segs, pid)), segMax, address, size)
  }

  /** Every byte a process can address is its own: two processes never reach the same physical byte, nor
      does one process under two logical addresses, even if it holds several segments of one id. */
  lemma AddressesApart(segs: seq<Segment>, mem: seq<byte>, segMax: u32, p: nat, a: u32, q: nat, b: u32)
    requires Disjoint(segs, |mem|) && Fits(segMax, mem)
    requires Sendable32(Table(segs, p)) && Sendable32(Table(segs, q))
    requires Translation(segs, p, segMax, a, 1).Some? && Translation(segs, q, segMax, b, 1).Some?
    ensures Translation(segs, p, segMax, a, 1) == Translation(segs, q, segMax, b, 1) <==> p == q && a == b
  {
    hide MmuTranslate, Locate, Table, Resident, SegmentOf, OffsetOf;
    TableDescribes(segs, mem, segMax, p);
    TableDescribes(segs, mem, segMax, q);
    var tp, op := Entries(Table(segs, p)), Resident(segs, mem, p);
    var tq, oq := Entries(Table(segs, q)), Resident(segs, mem, q);
    TranslationExact(tp, mem, op, segMax, a, 1);
    TranslationExact(tq, mem, oq, segMax, b, 1);
    ByteInSegment(op, mem, segMax, a);
    ByteInSegment(oq, mem, segMax, b);
    var x, y := Locate(op, segMax, a, 1), Locate(oq, segMax, b, 1);
    if p != q || x.k != y.k {
      TablesApart(segs, |mem|, p, x.k, q, y.k);
    } else if a != b {
      AddressSplit(a, b, segMax);
    }
  }

  lemma ByteInSegment(objs: seq<Obj>, mem: seq<byte>, segMax: u32, address: u32)
    requires Fits(segMax, mem)
    ensures Locate(objs, segMax, address, 1).Nowhere? ==> |mem| == 0
  {
    hide SegmentOf, FindObj;
  }

  lemma AddressSplit(a: u32, b: u32, segMax: u32)
    requires segMax > 0 && SegmentOf(a, segMax) == SegmentOf(b, segMax)
    ensures OffsetOf(a, segMax) == OffsetOf(b, segMax) <==> a == b
  {
  }

  /** Whole accesses of different processes never meet: a range that the MMU lets through either ends beyond all
      memory, exactly if its 32-bit sum wrapped, and then no byte is read or written, or is apart from every
      such range of every other process. */
  lemma ProcessesApart(
    segs: seq<Segment>, mem: seq<byte>, segMax: u32, p: nat, a: u32, n: u32, q: nat, b: u32, m: u32)
    requires Disjoint(segs, |mem|) && Fits(segMax, mem) && p != q
    requires Sendable32(Table(segs, p)) && Sendable32(Table(segs, q))
    requires Translation(segs, p, segMax, a, n).Some? && Translation(segs, q, segMax, b, m).Some?
    ensures var x, y := Translation(segs, p, segMax, a, n).value, Translation(segs, q, segMax, b, m).value;
      && (x + n <= |mem| <==> OffsetOf(a, segMax) + n < TWO_32)
      && (y + m <= |mem| <==> OffsetOf(b, segMax) + m < TWO_32)
      && (x + n <= |mem| && y + m <= |mem| ==> x + n <= y || y + m <= x)
  {
    hide MmuTranslate, Locate, Table, Resident, SegmentOf, OffsetOf;
    TableDescribes(segs, mem, segMax, p);
    TableDescribes(segs, mem, segMax, q);
    var tp, op := Entries(Table(segs, p)), Resident(segs, mem, p);
    var tq, oq := Entries(Table(segs, q)), Resident(segs, mem, q);
    TranslationExact(tp, mem, op, segMax, a, n);
    TranslationExact(tq, mem, oq, segMax, b, m);
    var k, l := Locate(op, segMax, a, n), Locate(oq, segMax, b, m);
    if k.At? && l.At? {
      TablesApart(segs, |mem|, p, k.k, q, l.k);
    }
  }
}
