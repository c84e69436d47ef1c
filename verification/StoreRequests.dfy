/**
 What each request does to the invariant of Kernel Memory and to what processes see.
*/
module StoreRequests {
  import opened Base
  import opened Segments
  import opened SwapBlocks
  import opened SegmentStore
  import opened StoreViews

  // ---------- compaction ----------

  lemma CompactKeepsViews(cfg: Config, st: Store, q: nat)
    requires Sound(cfg, st)
    ensures Sound(cfg, Compact(st))
    ensures View(cfg, Compact(st), q) == View(cfg, st, q)
  {
    hide PieceObjs, ReadBlocks, Compacted, SumSizes, Resident;
    CompactionExact(st.mem, st.segs);
    var st' := Compact(st);
    assert forall k | 0 <= k < |st.segs| :: st'.segs[k] == st.segs[k].(base := st'.segs[k].base);
    ResidentFrame(st.segs, st.mem, st'.segs, st'.mem, q);
  }

  // ---------- creation ----------

  lemma HoleHoldsNothing(segs: seq<Segment>, total: nat, hole: Hole, s: Segment, k: nat)
    requires Disjoint(segs, total) && hole in Holes(segs, total)
    requires s.size > 0 && hole.base <= s.base && s.End() <= hole.End() && k < |segs|
    ensures s.End() <= total && Apart(segs[k], s)
  {
    var holes := Holes(segs, total);
    HolesExact(segs, total);
    var i :| 0 <= i < |holes| && holes[i] == hole;
    var a := if segs[k].base > s.base then segs[k].base else s.base;
    assert holes[i].Holds(a) ==> InHoles(holes, a);
    assert !Apart(segs[k], s) ==> segs[k].Holds(a) && holes[i].Holds(a);
  }

  /** The hole picked for a segment is free for all of it. */
  lemma ChosenHoleFree(cfg: Config, st: Store, pid: nat, id: u32, size: nat)
    requires Sound(cfg, st) && size > 0 && ChooseHole(cfg, st, size).Some?
    ensures var s := Segment(pid, id, ChooseHole(cfg, st, size).value.base, size);
      && s.End() <= |st.mem|
      && (forall k | 0 <= k < |st.segs| :: Apart(st.segs[k], s))
      && Disjoint(st.segs + [s], |st.mem|)
  {
    var hole := ChooseHole(cfg, st, size).value;
    var s := Segment(pid, id, hole.base, size);
    HolesExact(st.segs, |st.mem|);
    forall k | 0 <= k < |st.segs| ensures Apart(st.segs[k], s) {
      HoleHoldsNothing(st.segs, |st.mem|, hole, s, k);
    }
    DisjointSnoc(st.segs, s, |st.mem|);
  }

  /** `size` bytes in a row are free. */
  ghost predicate HasRoom(st: Store, size: nat) {
    exists base: nat :: FreeRun(st, base, size)
  }

  ghost predicate FreeRun(st: Store, base: nat, size: nat) {
    base + size <= |st.mem| && forall a | base <= a < base + size :: Free(st.segs, a)
  }

  /** A free run lies in a single hole. */
  lemma {:induction false} RunInHole(holes: seq<Hole>, total: nat, base: nat, size: nat) returns (i: nat)
    requires Separated(holes, total) && size > 0 && forall a | base <= a < base + size :: InHoles(holes, a)
    ensures i < |holes| && holes[i].base <= base && base + size <= holes[i].End()
    decreases size
  {
    if size == 1 {
      assert InHoles(holes, base);
      i :| 0 <= i < |holes| && holes[i].Holds(base);
    } else {
      i := RunInHole(holes, total, base, size - 1);
      assert InHoles(holes, base + size - 1);
      var j :| 0 <= j < |holes| && holes[j].Holds(base + size - 1);
      SameHole(holes, total, i, j, base + size - 1);
    }
  }

  /** Neighbouring addresses lie in the same hole. */
  lemma SameHole(holes: seq<Hole>, total: nat, i: nat, j: nat, a: nat)
    requires Separated(holes, total) && i < |holes| && j < |holes| && a > 0
    requires holes[i].Holds(a - 1) && holes[j].Holds(a)
    ensures i == j
  {
  }

  /** A hole is found exactly when enough bytes in a row are free. */
  lemma RoomExact(cfg: Config, st: Store, size: nat)
    requires Sound(cfg, st) && size > 0
    ensures ChooseHole(cfg, st, size).Some? <==> HasRoom(st, size)
  {
    hide Holes, Choose, FreeRun, ParkedSound;
    if HasRoom(st, size) {
      var base: nat :| FreeRun(st, base, size);
      RunFindsHole(cfg, st, base, size);
    }
    if ChooseHole(cfg, st, size).Some? {
      HoleIsRun(cfg, st, size);
    }
  }

  lemma RunFindsHole(cfg: Config, st: Store, base: nat, size: nat)
    requires Disjoint(st.segs, |st.mem|) && size > 0 && FreeRun(st, base, size)
    ensures ChooseHole(cfg, st, size).Some?
  {
    hide Holes, Disjoint, Free;
    HolesExact(st.segs, |st.mem|);
    var i := RunInHole(Holes(st.segs, |st.mem|), |st.mem|, base, size);
  }

  lemma HoleIsRun(cfg: Config, st: Store, size: nat)
    requires Disjoint(st.segs, |st.mem|) && size > 0 && ChooseHole(cfg, st, size).Some?
    ensures FreeRun(st, ChooseHole(cfg, st, size).value.base, size)
  {
    hide Holes, Disjoint, Free;
    HolesExact(st.segs, |st.mem|);
    var holes := Holes(st.segs, |st.mem|);
    var i := Choose(cfg.strategy, holes, size).value;
    forall a | holes[i].base <= a < holes[i].base + size ensures Free(st.segs, a) {
      assert holes[i].Holds(a) && InHoles(holes, a);
    }
  }

  /** A hole of the required size exists after compaction whenever enough bytes are free in total. */
  lemma CompactionMakesRoom(cfg: Config, st: Store, size: nat)
    requires Sound(cfg, st) && size > 0
    ensures ChooseHole(cfg, Compact(st), size).Some? <==> SumSizes(st.segs) + size <= |st.mem|
  {
    CompactionExact(st.mem, st.segs);
  }

  /** Placing a segment succeeds, whatever was served since its request began, exactly when at that moment
      the process is known and enough bytes in a row are free. */
  lemma PlaceSucceedsIff(cfg: Config, st: Store, pid: nat, id: u32, size: nat)
    requires Sound(cfg, st) && size > 0
    ensures Place(cfg, st, pid, id, size).1 == if pid in st.pids && HasRoom(st, size) then Ok else Error
  {
    hide HasRoom, Holes, Choose;
    RoomExact(cfg, st, size);
  }

  /** Right after a compaction that means: exactly when enough bytes are free in total. */
  lemma PlaceCompactedIff(cfg: Config, st: Store, pid: nat, id: u32, size: nat)
    requires Sound(cfg, st) && size > 0
    ensures Place(cfg, Compact(st), pid, id, size).1
         == if pid in st.pids && SumSizes(st.segs) + size <= |st.mem| then Ok else Error
  {
    hide Holes, Choose, Compacted;
    CompactionMakesRoom(cfg, st, size);
  }

  /** A request for a segment is refused for lack of space exactly when fewer bytes than requested are free
      in total, and waits for a compaction exactly when they are, but not in a row. */
  lemma BeginExact(cfg: Config, st: Store, pid: nat, id: u32, size: nat)
    requires Sound(cfg, st) && size > 0
    ensures Begin(cfg, st, pid, id, size).1 ==
      if SumSizes(st.segs) + size > |st.mem| then NoSpace
      else if !HasRoom(st, size) then Waits
      else if pid in st.pids then Ok
      else Error
  {
    hide HasRoom;
    HolesExact(st.segs, |st.mem|);
    RoomExact(cfg, st, size);
  }

  /** `segment_create` of a positive size, undisturbed, fails for lack of space exactly when fewer bytes than
      requested are free in total: fragmentation never makes it fail, and a known process gets no error. */
  lemma CreateSucceedsIff(cfg: Config, st: Store, pid: nat, id: u32, size: nat)
    requires Sound(cfg, st) && size > 0
    ensures Create(cfg, st, pid, id, size).1 ==
      if SumSizes(st.segs) + size > |st.mem| then NoSpace
      else if pid in st.pids then Ok
      else Error
  {
    hide HasRoom, Begin, Place;
    BeginExact(cfg, st, pid, id, size);
    PlaceCompactedIff(cfg, st, pid, id, size);
  }

  lemma AppendSegment(cfg: Config, st: Store, s: Segment, q: nat)
    requires Sound(cfg, st) && s.owner in st.pids && s.End() <= |st.mem| && Disjoint(st.segs + [s], |st.mem|)
    ensures Sound(cfg, st.(segs := st.segs + [s]))
    ensures q != s.owner ==> View(cfg, st.(segs := st.segs + [s]), q) == View(cfg, st, q)
    ensures q == s.owner && FindParked(st.parked, q).None? ==>
      View(cfg, st.(segs := st.segs + [s]), q) == View(cfg, st, q) + [Obj(s.id, Bytes(st.mem, s))]
  {
    hide PieceObjs, ReadBlocks, Bytes, Resident;
    ResidentSnoc(st.segs, s, st.mem, q);
    if q == s.owner && FindParked(st.parked, q).None? {
      assert Swapped(cfg, st, q) == [];
    }
  }

  lemma PlaceShape(cfg: Config, st: Store, pid: nat, id: u32, size: nat) returns (s: Segment)
    requires Sound(cfg, st) && size > 0
    ensures Place(cfg, st, pid, id, size).1 != Ok ==> Place(cfg, st, pid, id, size) == (st, Error)
    ensures Place(cfg, st, pid, id, size).1 == Ok ==>
      && Place(cfg, st, pid, id, size).0 == st.(segs := st.segs + [s])
      && s == Segment(pid, id, s.base, size) && pid in st.pids
      && s.End() <= |st.mem| && Disjoint(st.segs + [s], |st.mem|)
  {
    hide Disjoint, Holes, Choose;
    s := Segment(pid, id, 0, size);
    if Place(cfg, st, pid, id, size).1 == Ok {
      s := Segment(pid, id, ChooseHole(cfg, st, size).value.base, size);
      ChosenHoleFree(cfg, st, pid, id, size);
    }
  }

  /** Placing a segment gives the process the new one after those it had, and nobody else notices. */
  lemma PlaceKeepsViews(cfg: Config, st: Store, pid: nat, id: u32, size: nat, q: nat)
    requires Sound(cfg, st) && size > 0
    ensures var (st', r) := Place(cfg, st, pid, id, size);
      && Sound(cfg, st') && st'.pids == st.pids
      && (r != Ok || q != pid ==> View(cfg, st', q) == View(cfg, st, q))
      && (r == Ok && FindParked(st.parked, pid).None? ==> Grown(View(cfg, st, pid), View(cfg, st', pid), id, size))
  {
    hide View, Place, Disjoint, ParkedSound;
    var s := PlaceShape(cfg, st, pid, id, size);
    if Place(cfg, st, pid, id, size).1 == Ok {
      AppendSegment(cfg, st, s, q);
      AppendSegment(cfg, st, s, pid);
    }
  }

  /** The state an undisturbed creation places its segment in, if it gets that far. */
  ghost function Before(cfg: Config, st: Store, pid: nat, id: u32, size: nat): Store {
    if Begin(cfg, st, pid, id, size).1 == Waits then Compact(st) else st
  }

  lemma CreatePlaces(cfg: Config, st: Store, pid: nat, id: u32, size: nat)
    requires Sound(cfg, st) && size > 0
    ensures var (st1, r) := (Before(cfg, st, pid, id, size), Create(cfg, st, pid, id, size));
      r == (st1, NoSpace) || r == Place(cfg, st1, pid, id, size)
  {
  }

  lemma CreateSound(cfg: Config, st: Store, pid: nat, id: u32, size: nat)
    requires Sound(cfg, st) && size > 0
    ensures Sound(cfg, Create(cfg, st, pid, id, size).0)
    ensures Create(cfg, st, pid, id, size).0.pids == st.pids
  {
    hide Create, Place, Begin, Sound;
    CreatePlaces(cfg, st, pid, id, size);
    CompactKeepsViews(cfg, st, pid);
    PlaceKeepsViews(cfg, Before(cfg, st, pid, id, size), pid, id, size, pid);
  }

  /** Every other process sees what it saw before a creation, and so does every process after a failure. */
  lemma CreateKeepsViews(cfg: Config, st: Store, pid: nat, id: u32, size: nat, q: nat)
    requires Sound(cfg, st) && size > 0 && Sound(cfg, Create(cfg, st, pid, id, size).0)
    requires Create(cfg, st, pid, id, size).1 != Ok || q != pid
    ensures View(cfg, Create(cfg, st, pid, id, size).0, q) == View(cfg, st, q)
  {
    hide Create, Place, Begin, View;
    CreatePlaces(cfg, st, pid, id, size);
    CompactKeepsViews(cfg, st, q);
    PlaceKeepsViews(cfg, Before(cfg, st, pid, id, size), pid, id, size, q);
  }

  /** The process itself sees the new segment after those it had. */
  lemma CreateGrowsView(cfg: Config, st: Store, pid: nat, id: u32, size: nat)
    requires Sound(cfg, st) && size > 0 && Sound(cfg, Create(cfg, st, pid, id, size).0)
    requires Create(cfg, st, pid, id, size).1 == Ok && FindParked(st.parked, pid).None?
    ensures Grown(View(cfg, st, pid), View(cfg, Create(cfg, st, pid, id, size).0, pid), id, size)
  {
    hide Create, Place, Begin, View, Grown;
    CreatePlaces(cfg, st, pid, id, size);
    CompactKeepsViews(cfg, st, pid);
    PlaceKeepsViews(cfg, Before(cfg, st, pid, id, size), pid, id, size, pid);
  }

  lemma BeginKeepsViews(cfg: Config, st: Store, pid: nat, id: u32, size: nat, q: nat)
    requires Sound(cfg, st) && size > 0
    ensures var (st', r) := Begin(cfg, st, pid, id, size);
      && Sound(cfg, st') && st'.pids == st.pids
      && (r != Ok || q != pid ==> View(cfg, st', q) == View(cfg, st, q))
      && (r == Ok && FindParked(st.parked, pid).None? ==> Grown(View(cfg, st, pid), View(cfg, st', pid), id, size))
  {
    hide View, Place, Sound, Grown;
    PlaceKeepsViews(cfg, st, pid, id, size, q);
  }

  // ---------- deletion ----------

  lemma {:induction false} ResidentIds(segs: seq<Segment>, mem: seq<byte>, pid: nat, id: u32)
    requires forall k | 0 <= k < |segs| :: segs[k].End() <= |mem|
    requires forall k | 0 <= k < |segs| && segs[k].owner == pid :: segs[k].id != id
    ensures forall j | 0 <= j < |Resident(segs, mem, pid)| :: Resident(segs, mem, pid)[j].id != id
  {
    if segs != [] {
      ResidentIds(segs[..|segs| - 1], mem, pid, id);
    }
  }

  lemma DisjointRemove(segs: seq<Segment>, i: nat, total: nat)
    requires Disjoint(segs, total) && i < |segs|
    ensures Disjoint(Remove(segs, i), total)
    ensures forall k | 0 <= k < |Remove(segs, i)| :: Remove(segs, i)[k] in segs
  {
    var r := Remove(segs, i);
    assert forall k | 0 <= k < |r| :: r[k] == segs[if k < i then k else k + 1];
  }

  lemma ResidentRemove(segs: seq<Segment>, mem: seq<byte>, i: nat, q: nat)
    requires i < |segs| && forall k | 0 <= k < |segs| :: segs[k].End() <= |mem|
    ensures var s := segs[i];
      && Resident(segs, mem, q) == Resident(segs[..i], mem, q)
           + ((if s.owner == q then [Obj(s.id, Bytes(mem, s))] else []) + Resident(segs[i + 1..], mem, q))
      && Resident(Remove(segs, i), mem, q) == Resident(segs[..i], mem, q) + Resident(segs[i + 1..], mem, q)
  {
    assert segs == segs[..i] + [segs[i]] + segs[i + 1..];
    ResidentSnoc(segs[..i], segs[i], mem, q);
    ResidentConcat(segs[..i] + [segs[i]], segs[i + 1..], mem, q);
    ResidentConcat(segs[..i], segs[i + 1..], mem, q);
  }

  lemma DeleteSound(cfg: Config, st: Store, pid: nat, id: u32)
    requires Sound(cfg, st)
    ensures Sound(cfg, Delete(st, pid, id).0)
  {
    if Delete(st, pid, id).1 == Ok {
      DisjointRemove(st.segs, FindSegment(st.segs, pid, id).value, |st.mem|);
    }
  }

  /** A process loses the first of its segments with the given id, and nothing else changes. */
  lemma DeleteKeepsViews(cfg: Config, st: Store, pid: nat, id: u32, q: nat)
    requires Sound(cfg, st) && Sound(cfg, Delete(st, pid, id).0)
    ensures Delete(st, pid, id).1 != Ok || q != pid ==> View(cfg, Delete(st, pid, id).0, q) == View(cfg, st, q)
    ensures Delete(st, pid, id).1 == Ok ==> Shrunk(View(cfg, st, pid), View(cfg, Delete(st, pid, id).0, pid), id)
  {
    hide PieceObjs, ReadBlocks, Bytes, Resident, Shrunk;
    if Delete(st, pid, id).1 == Ok {
      var i := FindSegment(st.segs, pid, id).value;
      ResidentRemove(st.segs, st.mem, i, q);
      ResidentRemove(st.segs, st.mem, i, pid);
      ResidentIds(st.segs[..i], st.mem, pid, id);
      var front, back := Resident(st.segs[..i], st.mem, pid), Resident(st.segs[i + 1..], st.mem, pid);
      ShrunkAt(front, Obj(id, Bytes(st.mem, st.segs[i])), back, Swapped(cfg, st, pid), id);
    }
  }

  lemma ShrunkAt(front: seq<Obj>, o: Obj, back: seq<Obj>, rest: seq<Obj>, id: u32)
    requires o.id == id && forall j | 0 <= j < |front| :: front[j].id != id
    ensures Shrunk(front + ([o] + back) + rest, front + back + rest, id)
  {
    var before := front + ([o] + back) + rest;
    assert before[|front|] == o;
    assert front + back + rest == Remove(before, |front|);
  }

  // ---------- writes ----------

  lemma PokeResident(segs: seq<Segment>, mem: seq<byte>, pid: nat, k: nat, offset: nat, data: seq<byte>, q: nat)
    requires Disjoint(segs, |mem|) && k < |Table(segs, pid)| && offset + |data| <= Table(segs, pid)[k].size
    ensures var mem' := Overwrite(mem, Table(segs, pid)[k].base + offset, data);
      && k < |Resident(segs, mem, pid)| && offset + |data| <= |Resident(segs, mem, pid)[k].bytes|
      && Resident(segs, mem', q) ==
           if q != pid then Resident(segs, mem, q)
           else
             var o := Resident(segs, mem, q)[k];
             Resident(segs, mem, q)[k := Obj(o.id, Splice(o.bytes, offset, data))]
  {
    var s := Table(segs, pid)[k];
    var mem' := Overwrite(mem, s.base + offset, data);
    ResidentTable(segs, mem, pid);
    ResidentTable(segs, mem, q);
    ResidentTable(segs, mem', q);
    assert Bytes(mem', s) == Splice(Bytes(mem, s), offset, data);
    forall j | 0 <= j < |Table(segs, q)| && (q != pid || j != k)
      ensures Resident(segs, mem', q)[j] == Resident(segs, mem, q)[j]
    {
      TablesApart(segs, |mem|, pid, k, q, j);
      assert Bytes(mem', Table(segs, q)[j]) == Bytes(mem, Table(segs, q)[j]);
    }
  }

  /** The write succeeds exactly when it stays inside an existing segment of the process; it changes those
      bytes and nothing that any process, this one included, sees otherwise. */
  lemma PokeKeepsViews(cfg: Config, st: Store, pid: nat, k: nat, offset: nat, data: seq<byte>, q: nat)
    requires Sound(cfg, st) && FindParked(st.parked, pid).None?
    ensures var (st', r) := Poke(st, pid, k, offset, data);
      var own := View(cfg, st, pid);
      && Sound(cfg, st')
      && (r == Ok <==> k < |own| && offset + |data| <= |own[k].bytes|)
      && View(cfg, st', q) == if r == Ok && q == pid
                              then own[k := Obj(own[k].id, Splice(own[k].bytes, offset, data))]
                              else View(cfg, st, q)
  {
    hide Table;
    ResidentTable(st.segs, st.mem, pid);
    assert View(cfg, st, pid) == Resident(st.segs, st.mem, pid);
    if Poke(st, pid, k, offset, data).1 == Ok {
      PokeResident(st.segs, st.mem, pid, k, offset, data, q);
    }
  }

  // ---------- processes and sticks ----------

  lemma AddStickKeepsViews(cfg: Config, st: Store, stick: seq<byte>, q: nat)
    requires Sound(cfg, st)
    ensures Sound(cfg, AddStick(st, stick).0)
    ensures View(cfg, AddStick(st, stick).0, q) == View(cfg, st, q)
  {
    ResidentFrame(st.segs, st.mem, st.segs, st.mem + stick, q);
  }

  lemma AdmitKeepsViews(cfg: Config, st: Store, pid: nat, q: nat)
    requires Sound(cfg, st) && pid !in st.pids
    ensures Sound(cfg, Admit(st, pid).0)
    ensures View(cfg, Admit(st, pid).0, q) == View(cfg, st, q)
    ensures FindParked(st.parked, pid).None? ==> View(cfg, st, pid) == []
  {
    NoSegments(st.segs, st.mem, pid);
  }

  lemma {:induction false} NoSegments(segs: seq<Segment>, mem: seq<byte>, pid: nat)
    requires forall k | 0 <= k < |segs| :: segs[k].End() <= |mem| && segs[k].owner != pid
    ensures Resident(segs, mem, pid) == []
  {
    if segs != [] {
      NoSegments(segs[..|segs| - 1], mem, pid);
    }
  }

  lemma FinishKeepsViews(cfg: Config, st: Store, pid: nat, q: nat)
    requires Sound(cfg, st)
    ensures Sound(cfg, Finish(st, pid).0)
    ensures q != pid ==> View(cfg, Finish(st, pid).0, q) == View(cfg, st, q)
  {
    hide Resident, PieceObjs;
    WithoutDistinct(st.pids, pid);
    OthersDisjoint(st.segs, pid, |st.mem|);
    if pid in st.pids {
      ResidentOthers(st.segs, st.mem, pid, q);
    }
  }
}
