/**
 What a process sees of Kernel Memory: its segments as byte strings, wherever they are kept, and the
 invariant that keeps those byte strings apart.
*/
module StoreViews {
  import opened Base
  import opened Segments
  import opened SwapBlocks
  import opened SegmentStore

  /** A segment without its place. */
  datatype Obj = Obj(id: u32, bytes: seq<byte>)

  /** The segments of `pid` that are in memory, in table order. */
  ghost function Resident(segs: seq<Segment>, mem: seq<byte>, pid: nat): seq<Obj>
    requires forall k | 0 <= k < |segs| :: segs[k].End() <= |mem|
  {
    if segs == [] then []
    else
      var last := segs[|segs| - 1];
      Resident(segs[..|segs| - 1], mem, pid) + if last.owner == pid then [Obj(last.id, Bytes(mem, last))] else []
  }

  /** What reading a suspended process's pieces back from swap yields. */
  ghost function PieceObjs(swap: seq<seq<byte>>, pieces: seq<Piece>, blockSize: nat): seq<Obj>
    requires IsFile(swap, blockSize)
    requires forall i | 0 <= i < |pieces| :: PieceSound(swap, pieces[i], blockSize)
  {
    if pieces == [] then []
    else
      var p := pieces[0];
      assert PieceSound(swap, p, blockSize);
      [Obj(p.id, ReadBlocks(swap, p.blocks, p.size, blockSize))] + PieceObjs(swap, pieces[1..], blockSize)
  }

  ghost predicate PieceSound(swap: seq<seq<byte>>, piece: Piece, blockSize: nat) {
    && blockSize > 0 && piece.size > 0
    && |piece.blocks| == BlocksNeeded(piece.size, blockSize) && NoDuplicates(piece.blocks)
    && forall j | 0 <= j < |piece.blocks| :: piece.blocks[j] < |swap|
  }

  /** Every suspended process has at most one piece, and no two share a block. */
  ghost predicate ParkedSound(swap: seq<seq<byte>>, parked: seq<Parked>, blockSize: nat) {
    && IsFile(swap, blockSize)
    && (forall i | 0 <= i < |parked| ::
         |parked[i].pieces| <= 1 && forall j | 0 <= j < |parked[i].pieces| ::
             PieceSound(swap, parked[i].pieces[j], blockSize))
    && (forall i, j | 0 <= i < |parked| && 0 <= j < |parked| && i != j ::
         parked[i].pid != parked[j].pid && PieceBlocks(parked[i].pieces) !! PieceBlocks(parked[j].pieces))
  }

  ghost predicate Sound(cfg: Config, st: Store) {
    && NoDuplicates(st.pids)
    && Disjoint(st.segs, |st.mem|)
    && (forall k | 0 <= k < |st.segs| :: st.segs[k].owner in st.pids)
    && ParkedSound(st.swap, st.parked, cfg.blockSize)
  }

  ghost function Swapped(cfg: Config, st: Store, pid: nat): seq<Obj>
    requires Sound(cfg, st)
  {
    match FindParked(st.parked, pid)
    case None => []
    case Some(i) => PieceObjs(st.swap, st.parked[i].pieces, cfg.blockSize)
  }

  /** The segments of a process as byte strings, in memory or in swap. */
  ghost function View(cfg: Config, st: Store, pid: nat): seq<Obj>
    requires Sound(cfg, st)
  {
    Resident(st.segs, st.mem, pid) + Swapped(cfg, st, pid)
  }

  // ---------- tables and views ----------

  lemma {:induction false} ResidentTable(segs: seq<Segment>, mem: seq<byte>, pid: nat)
    requires forall k | 0 <= k < |segs| :: segs[k].End() <= |mem|
    ensures |Resident(segs, mem, pid)| == |Table(segs, pid)|
    ensures forall k | 0 <= k < |Table(segs, pid)| ::
      var s := Table(segs, pid)[k];
      s in segs && s.End() <= |mem| && Resident(segs, mem, pid)[k] == Obj(s.id, Bytes(mem, s))
  {
    if segs != [] {
      ResidentTable(segs[..|segs| - 1], mem, pid);
    }
  }

  /** Moving segments or changing foreign bytes does not change what a process sees. */
  lemma {:induction false} ResidentFrame(
    segs: seq<Segment>, mem: seq<byte>, segs': seq<Segment>, mem': seq<byte>, pid: nat)
    requires |segs| == |segs'|
    requires forall k | 0 <= k < |segs| ::
      && segs[k].End() <= |mem| && segs'[k].End() <= |mem'|
      && segs'[k].owner == segs[k].owner && segs'[k].id == segs[k].id
      && (segs[k].owner == pid ==> Bytes(mem', segs'[k]) == Bytes(mem, segs[k]))
    ensures Resident(segs', mem', pid) == Resident(segs, mem, pid)
  {
    if segs != [] {
      var n := |segs| - 1;
      ResidentFrame(segs[..n], mem, segs'[..n], mem', pid);
    }
  }

  lemma {:induction false} ResidentConcat(a: seq<Segment>, b: seq<Segment>, mem: seq<byte>, pid: nat)
    requires forall k | 0 <= k < |a| :: a[k].End() <= |mem|
    requires forall k | 0 <= k < |b| :: b[k].End() <= |mem|
    ensures Resident(a + b, mem, pid) == Resident(a, mem, pid) + Resident(b, mem, pid)
  {
    if b == [] {
      assert a + b == a;
    } else {
      var n := |b| - 1;
      ResidentConcat(a, b[..n], mem, pid);
      assert (a + b)[..|a + b| - 1] == a + b[..n];
    }
  }

  lemma ResidentSnoc(a: seq<Segment>, s: Segment, mem: seq<byte>, pid: nat)
    requires forall k | 0 <= k < |a| :: a[k].End() <= |mem|
    requires s.End() <= |mem|
    ensures Resident(a + [s], mem, pid)
         == Resident(a, mem, pid) + if s.owner == pid then [Obj(s.id, Bytes(mem, s))] else []
  {
    assert (a + [s])[..|a|] == a;
  }

  lemma DisjointSnoc(a: seq<Segment>, s: Segment, total: nat)
    requires Disjoint(a, total) && s.size > 0 && s.End() <= total
    requires forall k | 0 <= k < |a| :: Apart(a[k], s)
    ensures Disjoint(a + [s], total)
  {
  }

  lemma {:induction false} OthersWithin(segs: seq<Segment>, pid: nat)
    ensures forall s :: s in Others(segs, pid) <==> s in segs && s.owner != pid
  {
    if segs != [] {
      var n := |segs| - 1;
      OthersWithin(segs[..n], pid);
      assert segs == segs[..n] + [segs[n]];
    }
  }

  lemma {:induction false} ResidentOthers(segs: seq<Segment>, mem: seq<byte>, pid: nat, q: nat)
    requires forall k | 0 <= k < |segs| :: segs[k].End() <= |mem|
    requires forall k | 0 <= k < |Others(segs, pid)| :: Others(segs, pid)[k].End() <= |mem|
    ensures Resident(Others(segs, pid), mem, q) == if q == pid then [] else Resident(segs, mem, q)
  {
    if segs != [] {
      var n := |segs| - 1;
      assert Others(segs[..n], pid) <= Others(segs, pid);
      ResidentOthers(segs[..n], mem, pid, q);
      if segs[n].owner == pid {
        assert Others(segs, pid) == Others(segs[..n], pid);
      } else {
        ResidentSnoc(Others(segs[..n], pid), segs[n], mem, q);
      }
    }
  }

  lemma {:induction false} OthersDisjoint(segs: seq<Segment>, pid: nat, total: nat)
    requires Disjoint(segs, total)
    ensures Disjoint(Others(segs, pid), total)
    ensures forall k | 0 <= k < |Others(segs, pid)| :: Others(segs, pid)[k] in segs && Others(segs, pid)[k].owner != pid
  {
    if segs != [] {
      var n := |segs| - 1;
      OthersDisjoint(segs[..n], pid, total);
      var rest := Others(segs[..n], pid);
      forall k | 0 <= k < |rest| ensures Apart(rest[k], segs[n]) {
        var i :| 0 <= i < n && segs[i] == rest[k];
      }
      if segs[n].owner != pid {
        DisjointSnoc(rest, segs[n], total);
      }
    }
  }

  /** Segments at different places of the tables, of the same or of different processes, do not overlap. */
  lemma {:induction false} TablesApart(segs: seq<Segment>, total: nat, p: nat, i: nat, q: nat, j: nat)
    requires Disjoint(segs, total)
    requires i < |Table(segs, p)| && j < |Table(segs, q)| && (p != q || i != j)
    ensures Apart(Table(segs, p)[i], Table(segs, q)[j])
  {
    var n := |segs| - 1;
    var tp, tq := Table(segs[..n], p), Table(segs[..n], q);
    if i < |tp| && j < |tq| {
      TablesApart(segs[..n], total, p, i, q, j);
    } else if i < |tp| {
      InTable(segs[..n], p, i);
    } else if j < |tq| {
      InTable(segs[..n], q, j);
    }
  }

  lemma {:induction false} InTable(segs: seq<Segment>, pid: nat, k: nat)
    requires k < |Table(segs, pid)|
    ensures exists i | 0 <= i < |segs| :: segs[i] == Table(segs, pid)[k]
  {
    var n := |segs| - 1;
    if k < |Table(segs[..n], pid)| {
      InTable(segs[..n], pid, k);
    } else {
      assert segs[n] == Table(segs, pid)[k];
    }
  }

  lemma FindParkedUnique(parked: seq<Parked>, i: nat)
    requires i < |parked|
    requires forall k | 0 <= k < |parked| && k != i :: parked[k].pid != parked[i].pid
    ensures FindParked(parked, parked[i].pid) == Some(i)
  {
  }

  /** `after` is `before` with one segment of the given id and size appended. */
  ghost predicate Grown(before: seq<Obj>, after: seq<Obj>, id: u32, size: nat) {
    && |after| == |before| + 1 && after[..|before|] == before
    && after[|before|].id == id && |after[|before|].bytes| == size
  }

  /** `after` is `before` without its first segment of the given id. */
  ghost predicate Shrunk(before: seq<Obj>, after: seq<Obj>, id: u32) {
    exists k | 0 <= k < |before| ::
      before[k].id == id && (forall j | 0 <= j < k :: before[j].id != id) && after == Remove(before, k)
  }
}
