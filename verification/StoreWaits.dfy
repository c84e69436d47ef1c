/**
 A creation that waits for a compaction while other requests are served: exactly when it still succeeds
 (kernel_memory/src/memory_manage.c:141-161, 163-217).
*/
module StoreWaits {
  import opened Base
  import opened Segments
  import opened SwapBlocks
  import opened SegmentStore
  import opened StoreViews
  import opened StoreRequests
  import opened StoreRuns

  /** However a run goes on after a request began to wait, and with whatever requests of others before and
      after the compaction: placing the segment at last succeeds exactly when then enough bytes in a row are
      free; and if nothing is served between the compaction and it, exactly when enough bytes are free in
      total when the compaction begins. */
  lemma WaitingCreateSucceedsIff(
    cfg: Config, states: seq<Store>, reqs: seq<Request>, results: seq<Result>, pid: nat, id: u32, size: nat)
    requires IsRun(cfg, states, reqs, results) && Sound(cfg, states[0]) && size > 0
    requires reqs != [] && reqs[|reqs| - 1] == PlaceSegment(pid, id, size)
    ensures var n := |reqs| - 1;
      results[n] == if pid in states[n].pids && HasRoom(states[n], size) then Ok else Error
    ensures var n := |reqs| - 1;
      n > 0 && reqs[n - 1] == CompactMemory ==>
        var st := states[n - 1];
        results[n] == if pid in st.pids && SumSizes(st.segs) + size <= |st.mem| then Ok else Error
  {
    hide HasRoom, Place, Sound, Compacted, SumSizes;
    var n := |reqs| - 1;
    RunSound(cfg, states, reqs, results, n);
    assert ServedAt(cfg, states, reqs, results, n);
    ServeSound(cfg, states[n], reqs[n]);
    PlaceSucceedsIff(cfg, states[n], pid, id, size);
    if n > 0 && reqs[n - 1] == CompactMemory {
      RunSound(cfg, states, reqs, results, n - 1);
      assert ServedAt(cfg, states, reqs, results, n - 1);
      ServeSound(cfg, states[n - 1], reqs[n - 1]);
      PlaceCompactedIff(cfg, states[n - 1], pid, id, size);
    }
  }

  // ---------- it does not always ----------

  const BEST: Config := Config(Best, 1)

  function Zeros(n: nat): (r: seq<byte>)
    ensures |r| == n
  {
    if n == 0 then [] else Zeros(n - 1) + [0]
  }

  function Room(segs: seq<Segment>): Store {
    Store(Zeros(20), [0, 1, 2], segs, [], [])
  }

  /** Ten bytes are free, five and five. */
  function Halved(): Store {
    Room([Segment(0, 0, 5, 5), Segment(0, 1, 15, 5)])
  }

  /** Eight bytes are free, all at the end, as a compaction leaves them. */
  function Packed(): Store {
    Room([Segment(0, 0, 0, 5), Segment(0, 1, 5, 5), Segment(0, 2, 10, 2)])
  }

  /** A request for eight bytes waits; five are given to another process meanwhile; after the compaction the
      request ends in the error that is taken for impossible. */
  lemma TakenWhileWaiting()
    ensures Sound(BEST, Halved()) && Begin(BEST, Halved(), 1, 0, 8) == (Halved(), Waits)
    ensures var st := Begin(BEST, Halved(), 2, 0, 5).0;
      && Begin(BEST, Halved(), 2, 0, 5).1 == Ok
      && Place(BEST, Compact(st), 1, 0, 8).1 == Error
  {
    hide Compacted, Holes, Choose;
    var st := Halved();
    HalvedSound();
    assert st.segs[0].Holds(5) && st.segs[0].Holds(9) && st.segs[1].Holds(15);
    NoRoomForEight(st, 5, 9, 15);
    assert HasRoom(st, 5) by {
      assert FreeRun(st, 0, 5);
    }
    HalvedSize();
    BeginExact(BEST, st, 1, 0, 8);
    BeginExact(BEST, st, 2, 0, 5);
    var s := PlaceShape(BEST, st, 2, 0, 5);
    var st1 := Begin(BEST, st, 2, 0, 5).0;
    PlaceKeepsViews(BEST, st, 2, 0, 5, 2);
    assert st1.segs[..2] == st.segs;
    PlaceCompactedIff(BEST, st1, 1, 0, 8);
  }

  /** In twenty bytes with one taken in every eight there is no room for eight. */
  lemma NoRoomForEight(st: Store, x: nat, y: nat, z: nat)
    requires |st.mem| == 20 && x <= 7 && x < y <= x + 8 && y < z <= y + 8 && 12 <= z < 20
    requires !Free(st.segs, x) && !Free(st.segs, y) && !Free(st.segs, z)
    ensures !HasRoom(st, 8)
  {
    hide Free;
    forall base: nat ensures !FreeRun(st, base, 8) {
      var a := if base <= x then x else if base <= y then y else z;
      assert base <= 12 ==> base <= a < base + 8 && !Free(st.segs, a);
    }
  }

  /** Even enough free bytes after the compaction are not enough if they come apart again before the segment
      is placed: five of the eight are given away and five others freed. */
  lemma ApartWhileWaiting()
    ensures Sound(BEST, Packed()) && SumSizes(Packed().segs) + 8 == |Packed().mem|
    ensures var st1 := Begin(BEST, Packed(), 2, 0, 5);
      var st2 := Delete(st1.0, 0, 0);
      && st1.1 == Ok && st2.1 == Ok
      && SumSizes(st2.0.segs) + 8 == |st2.0.mem|
      && Place(BEST, st2.0, 1, 0, 8).1 == Error
  {
    hide Holes, Choose;
    var st := Packed();
    PackedSizes();
    HolesExact(st.segs, 20);
    PackedHole();
    var st1 := st.(segs := st.segs + [Segment(2, 0, 12, 5)]);
    PackedDelete(st1);
    var st2 := Delete(st1, 0, 0).0;
    assert st2.segs == [Segment(0, 1, 5, 5), Segment(0, 2, 10, 2), Segment(2, 0, 12, 5)];
    ThreeSizes(st2.segs[0], st2.segs[1], st2.segs[2]);
    assert st2.segs[0].Holds(5) && st2.segs[1].Holds(11) && st2.segs[2].Holds(16);
    NoRoomForEight(st2, 5, 11, 16);
    PackedSound(st2);
    PlaceSucceedsIff(BEST, st2, 1, 0, 8);
  }

  lemma ThreeSizes(a: Segment, b: Segment, c: Segment)
    ensures SumSizes([a, b, c]) == a.size + b.size + c.size
  {
    assert [a, b, c][..2] == [a, b] && [a, b][..1] == [a] && [a][..0] == [];
    assert SumSizes([a]) == a.size;
    assert SumSizes([a, b]) == a.size + b.size;
  }

  lemma PackedSizes()
    ensures Sound(BEST, Packed()) && SumSizes(Packed().segs) == 12
  {
    var segs := Packed().segs;
    ThreeSizes(segs[0], segs[1], segs[2]);
  }

  lemma PackedSound(st: Store)
    requires st == Room([Segment(0, 1, 5, 5), Segment(0, 2, 10, 2), Segment(2, 0, 12, 5)])
    ensures Sound(BEST, st)
  {
  }

  lemma PackedHoles()
    ensures Holes(Packed().segs, 20) == [Hole(12, 8)]
  {
    hide Holes;
    var segs := Packed().segs;
    forall a | 0 <= a < 20 ensures Free(segs, a) <==> 12 <= a {
      assert a < 5 ==> segs[0].Holds(a);
      assert 5 <= a < 10 ==> segs[1].Holds(a);
      assert 10 <= a < 12 ==> segs[2].Holds(a);
    }
    OneHole(segs, 20, 12);
  }

  lemma OnlyChoice(hole: Hole, size: nat)
    requires size <= hole.size
    ensures Choose(Best, [hole], size) == Some(0) && SumHoles([hole]) == hole.size
  {
  }

  /** The one hole is the eight bytes at the end, so a segment of five is put at its start. */
  lemma PackedHole()
    ensures Begin(BEST, Packed(), 2, 0, 5) == (Packed().(segs := Packed().segs + [Segment(2, 0, 12, 5)]), Ok)
  {
    hide Holes, Choose, SumHoles;
    PackedHoles();
    OnlyChoice(Hole(12, 8), 5);
  }

  lemma PackedDelete(st: Store)
    requires st == Packed().(segs := Packed().segs + [Segment(2, 0, 12, 5)])
    ensures Delete(st, 0, 0) == (st.(segs := Remove(st.segs, 0)), Ok)
  {
    assert st.segs[0].owner == 0 && st.segs[0].id == 0;
    var r := FindSegment(st.segs, 0, 0);
    assert r == Some(0);
  }

  lemma HalvedSound()
    ensures Sound(BEST, Halved())
  {
  }

  lemma HalvedSize()
    ensures SumSizes(Halved().segs) == 10
  {
    var segs := Halved().segs;
    assert segs[..1] == [segs[0]] && segs[..1][..0] == [];
    assert SumSizes(segs[..1]) == 5;
  }
}
