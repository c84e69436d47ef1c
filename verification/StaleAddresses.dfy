/**
 STDIN and STDOUT send a physical address that the CPU translated before the process was blocked
 (cpu/src/manage_instructions.c:715-781): exactly when it still names the same bytes later.
*/
module StaleAddresses {
  import opened Base
  import opened Segments
  import opened SegmentStore
  import opened StoreViews
  import opened StoreRuns
  import opened StoreTables
  import opened Contexts
  import opened Cpu
  import opened Programs

  /** While a process reads the same, a translated range is where its segment is now if and only if that
      segment has not moved. */
  lemma StillNames(
    segs: seq<Segment>, mem: seq<byte>, segs': seq<Segment>, mem': seq<byte>, segMax: u32, p: nat, a: u32, n: u32)
    requires Disjoint(segs, |mem|) && Fits(segMax, mem) && Disjoint(segs', |mem'|) && Fits(segMax, mem')
    requires Sendable32(Table(segs, p)) && Sendable32(Table(segs', p))
    requires Resident(segs', mem', p) == Resident(segs, mem, p)
    requires Translation(segs, p, segMax, a, n).Some? && OffsetOf(a, segMax) + n < TWO_32
    ensures Translation(segs', p, segMax, a, n).Some? && Locate(Resident(segs, mem, p), segMax, a, n).At?
    ensures var k := Locate(Resident(segs, mem, p), segMax, a, n).k;
      && k < |Table(segs, p)| == |Table(segs', p)|
      && (Translation(segs', p, segMax, a, n) == Translation(segs, p, segMax, a, n)
          <==> Table(segs', p)[k].base == Table(segs, p)[k].base)
  {
    hide MmuTranslate, Locate, Table, Resident, SegmentOf, OffsetOf, Describes;
    TableDescribes(segs, mem, segMax, p);
    TableDescribes(segs', mem', segMax, p);
    TableNames(Entries(Table(segs, p)), mem, Entries(Table(segs', p)), mem', Resident(segs, mem, p), segMax, a, n);
  }

  lemma TableNames(
    table: seq<Entry>, mem: seq<byte>, table': seq<Entry>, mem': seq<byte>, objs: seq<Obj>, segMax: u32, a: u32, n: u32)
    requires Describes(table, mem, objs) && Describes(table', mem', objs) && Fits(segMax, mem) && Fits(segMax, mem')
    requires MmuTranslate(table, segMax, a, n).Some? && OffsetOf(a, segMax) + n < TWO_32
    ensures MmuTranslate(table', segMax, a, n).Some? && Locate(objs, segMax, a, n).At?
    ensures var k := Locate(objs, segMax, a, n).k;
      && k < |table| == |table'|
      && (MmuTranslate(table', segMax, a, n) == MmuTranslate(table, segMax, a, n) <==> table'[k].base == table[k].base)
  {
    hide MmuTranslate, Locate, SegmentOf, OffsetOf;
    TranslationExact(table, mem, objs, segMax, a, n);
    TranslationExact(table', mem', objs, segMax, a, n);
  }

  /** No request of another process makes it stale, unless memory is compacted for it. */
  lemma StillNamesServed(cfg: Config, st: Store, req: Request, segMax: u32, p: nat, a: u32, n: u32)
    requires Sound(cfg, st) && Orderly(st, req) && Readable(cfg, st) && !Moves(cfg, st, req) && !About(req, p)
    requires Sendable32(Table(st.segs, p)) && segMax > 0
    ensures Sendable32(Table(Serve(cfg, st, req).0.segs, p))
    ensures Translation(Serve(cfg, st, req).0.segs, p, segMax, a, n) == Translation(st.segs, p, segMax, a, n)
  {
    hide Table, Serve, Sound, Orderly, Moves, About;
    ServeUndisturbed(cfg, st, req, p);
  }

  // ---------- compaction makes it stale ----------

  const APART: seq<Segment> := [Segment(1, 0, 4, 4), Segment(2, 0, 8, 4)]

  /** Four bytes are free in front of a segment of process 1, which a segment of process 2 follows. After a
      compaction the address that was the first byte of the one is the first byte of the other. */
  lemma CompactionStales(mem: seq<byte>)
    requires |mem| == 12
    ensures Disjoint(APART, 12) && Sendable32(Table(APART, 1)) && Translation(APART, 1, 16, 0, 4) == Some(4)
    ensures var segs' := Compacted(mem, APART).1;
      && segs' == [Segment(1, 0, 0, 4), Segment(2, 0, 4, 4)]
      && Sendable32(Table(segs', 1)) && Translation(segs', 1, 16, 0, 4) == Some(0)
      && segs'[1].owner == 2 && segs'[1].Holds(4)
  {
    hide Compacted;
    CompactionExact(mem, APART);
    ApartPlaces(mem, Compacted(mem, APART).0, Compacted(mem, APART).1);
    FirstTable(Segment(1, 0, 4, 4), Segment(2, 0, 8, 4));
    FirstTable(Segment(1, 0, 0, 4), Segment(2, 0, 4, 4));
    FirstTranslation(0, 4);
    FirstTranslation(0, 0);
  }

  lemma ApartPlaces(mem: seq<byte>, mem': seq<byte>, segs': seq<Segment>)
    requires |mem| == 12 && IsCompaction(mem, APART, mem', segs') && SumSizes(APART) == 8
    ensures segs' == [Segment(1, 0, 0, 4), Segment(2, 0, 4, 4)]
  {
    assert !Free(segs', 0);
    assert segs'[1].End() > 8 ==> segs'[1].End() - 1 >= 8 && !Free(segs', segs'[1].End() - 1) by {
      assert segs'[1].Holds(segs'[1].End() - 1);
    }
  }

  lemma FirstTable(s: Segment, t: Segment)
    requires s.owner == 1 && t.owner == 2
    ensures Table([s, t], 1) == [s]
  {
    assert [s, t][..1] == [s] && [s][..0] == [];
    assert Table([s], 1) == [s];
  }

  lemma FirstTranslation(id: u32, base: u32)
    requires base <= 4 && id == 0
    ensures MmuTranslate(Entries([Segment(1, id, base, 4)]), 16, 0, 4) == Some(base)
  {
    var table := Entries([Segment(1, id, base, 4)]);
    assert table == [Entry(id, base, 4)];
    assert SegmentOf(0, 16) == 0 && OffsetOf(0, 16) == 0;
  }
}
