/**
 Where segments lie in physical memory: the free holes between them, the choice of a hole, and compaction
 (kernel_memory/src/memory_manage.c). All segment tables are kept in one list tagged by the owning process.
*/
module Segments {
  import opened Base

  datatype Segment = Segment(owner: nat, id: u32, base: nat, size: nat) {
    function End(): nat { base + size }
    predicate Holds(address: nat) { base <= address < End() }
  }

  datatype Hole = Hole(base: nat, size: nat) {
    function End(): nat { base + size }
    predicate Holds(address: nat) { base <= address < End() }
  }

  predicate Apart(s: Segment, t: Segment) {
    s.End() <= t.base || t.End() <= s.base
  }

  /** No two segments overlap, none is empty and all lie inside a memory of `total` bytes. */
  ghost predicate Disjoint(segs: seq<Segment>, total: nat) {
    && (forall i | 0 <= i < |segs| :: segs[i].size > 0 && segs[i].End() <= total)
    && (forall i, j | 0 <= i < |segs| && 0 <= j < |segs| && i != j :: Apart(segs[i], segs[j]))
  }

  function SumSizes(segs: seq<Segment>): nat {
    if segs == [] then 0 else SumSizes(segs[..|segs| - 1]) + segs[|segs| - 1].size
  }

  // ---------- list_sort by base ----------

  /** `order` lists positions of `segs`, none twice, by ascending base. */
  ghost predicate Ascending(segs: seq<Segment>, order: seq<nat>) {
    && (forall i | 0 <= i < |order| :: order[i] < |segs|)
    && NoDuplicates(order)
    && (forall i, j | 0 <= i < j < |order| :: segs[order[i]].base <= segs[order[j]].base)
  }

  /** `order` lists every position of `segs` once, by ascending base. */
  ghost predicate IsOrder(segs: seq<Segment>, order: seq<nat>) {
    Ascending(segs, order) && |order| == |segs| && forall k | 0 <= k < |segs| :: k in order
  }

  /** Sum of the sizes of the segments listed in `order`. */
  ghost function SumOver(segs: seq<Segment>, order: seq<nat>): nat
    requires forall i | 0 <= i < |order| :: order[i] < |segs|
  {
    if order == [] then 0 else segs[order[0]].size + SumOver(segs, order[1..])
  }

  function Insert(segs: seq<Segment>, order: seq<nat>, k: nat): (r: seq<nat>)
    requires k < |segs| && forall i | 0 <= i < |order| :: order[i] < |segs|
    ensures |r| == |order| + 1
    ensures forall i | 0 <= i < |r| :: r[i] < |segs|
    ensures forall x :: x in r <==> x in order || x == k
  {
    if order == [] then [k]
    else if segs[k].base < segs[order[0]].base then [k] + order
    else [order[0]] + Insert(segs, order[1..], k)
  }

  lemma {:induction false} InsertKeepsOrder(segs: seq<Segment>, order: seq<nat>, k: nat)
    requires Ascending(segs, order) && k < |segs| && k !in order
    ensures Ascending(segs, Insert(segs, order, k))
    ensures SumOver(segs, Insert(segs, order, k)) == SumOver(segs, order) + segs[k].size
  {
    if order != [] {
      var first, rest := order[0], order[1..];
      assert order == [first] + rest;
      assert Ascending(segs, rest);
      if segs[k].base < segs[first].base {
        ConsAscending(segs, k, order);
      } else {
        InsertKeepsOrder(segs, rest, k);
        forall y | y in Insert(segs, rest, k) ensures segs[first].base <= segs[y].base && y != first {
          if y != k {
            var j :| 0 <= j < |rest| && rest[j] == y;
            assert order[j + 1] == y;
          }
        }
        ConsAscending(segs, first, Insert(segs, rest, k));
      }
    } else {
      ConsAscending(segs, k, order);
    }
  }

  lemma ConsAscending(segs: seq<Segment>, x: nat, rest: seq<nat>)
    requires Ascending(segs, rest) && x < |segs|
    requires forall y | y in rest :: y < |segs| && segs[x].base <= segs[y].base && y != x
    ensures Ascending(segs, [x] + rest)
    ensures SumOver(segs, [x] + rest) == segs[x].size + SumOver(segs, rest)
  {
    assert ([x] + rest)[1..] == rest;
    forall i, j | 0 <= i < j < |[x] + rest|
      ensures ([x] + rest)[i] != ([x] + rest)[j] && segs[([x] + rest)[i]].base <= segs[([x] + rest)[j]].base
    {
      assert ([x] + rest)[j] == rest[j - 1] && rest[j - 1] in rest;
    }
  }

  /** The positions of `segs` sorted by base. */
  function ByBase(segs: seq<Segment>): (order: seq<nat>)
    ensures forall i | 0 <= i < |order| :: order[i] < |segs|
  {
    if segs == [] then [] else Insert(segs, ByBase(segs[..|segs| - 1]), |segs| - 1)
  }

  lemma {:induction false} ByBaseSorts(segs: seq<Segment>)
    ensures IsOrder(segs, ByBase(segs))
    ensures SumOver(segs, ByBase(segs)) == SumSizes(segs)
  {
    if segs != [] {
      var shorter := segs[..|segs| - 1];
      ByBaseSorts(shorter);
      SumOverPrefix(shorter, segs, ByBase(shorter));
      InsertKeepsOrder(segs, ByBase(shorter), |segs| - 1);
    }
  }

  lemma {:induction false} SumOverPrefix(shorter: seq<Segment>, segs: seq<Segment>, order: seq<nat>)
    requires shorter <= segs
    requires forall i | 0 <= i < |order| :: order[i] < |shorter|
    ensures SumOver(segs, order) == SumOver(shorter, order)
  {
    if order != [] {
      SumOverPrefix(shorter, segs, order[1..]);
    }
  }

  // ---------- get_free_holes ----------

  predicate InHoles(holes: seq<Hole>, address: nat) {
    exists i | 0 <= i < |holes| :: holes[i].Holds(address)
  }

  predicate Free(segs: seq<Segment>, address: nat) {
    forall i | 0 <= i < |segs| :: !segs[i].Holds(address)
  }

  /** Non-empty intervals below `total`, by ascending address, no two of them touching. */
  ghost predicate Separated(holes: seq<Hole>, total: nat) {
    && (forall i | 0 <= i < |holes| :: holes[i].size > 0 && holes[i].End() <= total)
    && (forall i, j | 0 <= i < j < |holes| :: holes[i].End() < holes[j].base)
  }

  /** The maximal free intervals in address order: what `get_free_holes` is for. */
  ghost predicate IsHoleList(segs: seq<Segment>, total: nat, holes: seq<Hole>) {
    Separated(holes, total) && forall a | 0 <= a < total :: Free(segs, a) <==> InHoles(holes, a)
  }

  function SumHoles(holes: seq<Hole>): nat {
    if holes == [] then 0 else holes[0].size + SumHoles(holes[1..])
  }

  /** The loop of `get_free_holes` over the sorted segments `rest`, from `cursor` on. */
  function HolesAfter(segs: seq<Segment>, rest: seq<nat>, cursor: nat, total: nat): seq<Hole>
    requires forall i | 0 <= i < |rest| :: rest[i] < |segs|
  {
    if rest == [] then
      if cursor < total then [Hole(cursor, total - cursor)] else []
    else
      var s := segs[rest[0]];
      GapBefore(s, cursor) + HolesAfter(segs, rest[1..], s.End(), total)
  }

  function Holes(segs: seq<Segment>, total: nat): seq<Hole> {
    HolesAfter(segs, ByBase(segs), 0, total)
  }

  /** The segments of `rest` still lie ahead of the cursor, in order and without overlap. */
  ghost predicate Ahead(segs: seq<Segment>, rest: seq<nat>, cursor: nat, total: nat) {
    && Ascending(segs, rest)
    && Disjoint(segs, total)
    && cursor <= total
    && forall i | 0 <= i < |rest| :: cursor <= segs[rest[i]].base
  }

  lemma AheadNext(segs: seq<Segment>, rest: seq<nat>, cursor: nat, total: nat)
    requires Ahead(segs, rest, cursor, total) && rest != []
    ensures Ahead(segs, rest[1..], segs[rest[0]].End(), total)
  {
    var tail := rest[1..];
    forall i, j | 0 <= i < j < |tail|
      ensures tail[i] != tail[j] && segs[tail[i]].base <= segs[tail[j]].base
    {
      assert rest[i + 1] == tail[i] && rest[j + 1] == tail[j];
    }
    forall i | 0 <= i < |tail| ensures segs[rest[0]].End() <= segs[tail[i]].base {
      assert rest[i + 1] == tail[i] && rest[0] != tail[i];
      assert Apart(segs[rest[0]], segs[tail[i]]);
    }
  }

  /** No segment of `rest` holds the address. */
  predicate FreeOf(segs: seq<Segment>, rest: seq<nat>, address: nat)
    requires forall i | 0 <= i < |rest| :: rest[i] < |segs|
  {
    forall i | 0 <= i < |rest| :: !segs[rest[i]].Holds(address)
  }

  lemma FreeOfCons(segs: seq<Segment>, rest: seq<nat>, address: nat)
    requires rest != [] && forall i | 0 <= i < |rest| :: rest[i] < |segs|
    ensures FreeOf(segs, rest, address) <==> !segs[rest[0]].Holds(address) && FreeOf(segs, rest[1..], address)
  {
    assert rest == [rest[0]] + rest[1..];
  }

  lemma InHolesCons(first: Hole, later: seq<Hole>, address: nat)
    ensures InHoles([first] + later, address) <==> first.Holds(address) || InHoles(later, address)
  {
    var holes := [first] + later;
    assert holes[0] == first;
    if InHoles(later, address) {
      var i :| 0 <= i < |later| && later[i].Holds(address);
      assert holes[i + 1].Holds(address);
    }
  }

  /** The holes found from `cursor` on are exact for the addresses from `cursor` on. */
  ghost predicate ExactFrom(segs: seq<Segment>, rest: seq<nat>, cursor: nat, total: nat, holes: seq<Hole>)
    requires forall i | 0 <= i < |rest| :: rest[i] < |segs|
  {
    && Separated(holes, total)
    && (forall i | 0 <= i < |holes| :: cursor <= holes[i].base)
    && (forall a | cursor <= a < total :: FreeOf(segs, rest, a) <==> InHoles(holes, a))
  }

  lemma {:induction false} HolesAfterExact(segs: seq<Segment>, rest: seq<nat>, cursor: nat, total: nat)
    requires Ahead(segs, rest, cursor, total)
    ensures ExactFrom(segs, rest, cursor, total, HolesAfter(segs, rest, cursor, total))
    ensures SumHoles(HolesAfter(segs, rest, cursor, total)) + SumOver(segs, rest) == total - cursor
  {
    if rest == [] {
      if cursor < total {
        assert HolesAfter(segs, rest, cursor, total)[0] == Hole(cursor, total - cursor);
      }
    } else {
      AheadNext(segs, rest, cursor, total);
      HolesAfterExact(segs, rest[1..], segs[rest[0]].End(), total);
      ExactStep(segs, rest, cursor, total, HolesAfter(segs, rest[1..], segs[rest[0]].End(), total));
    }
  }

  /** The holes reported while stepping over the segment `s`. */
  function GapBefore(s: Segment, cursor: nat): seq<Hole> {
    if s.base > cursor then [Hole(cursor, s.base - cursor)] else []
  }

  lemma ExactStep(segs: seq<Segment>, rest: seq<nat>, cursor: nat, total: nat, later: seq<Hole>)
    requires Ahead(segs, rest, cursor, total) && rest != []
    requires ExactFrom(segs, rest[1..], segs[rest[0]].End(), total, later)
    ensures ExactFrom(segs, rest, cursor, total, GapBefore(segs[rest[0]], cursor) + later)
    ensures SumHoles(GapBefore(segs[rest[0]], cursor) + later) == SumHoles(later) + (segs[rest[0]].base - cursor)
  {
    var s := segs[rest[0]];
    var holes := GapBefore(s, cursor) + later;
    SeparatedStep(s, cursor, total, later);
    forall a | cursor <= a < total
      ensures FreeOf(segs, rest, a) <==> InHoles(holes, a)
    {
      ExactStepAt(segs, rest, cursor, total, later, a);
    }
  }

  lemma SeparatedStep(s: Segment, cursor: nat, total: nat, later: seq<Hole>)
    requires Separated(later, total) && cursor <= s.base && s.size > 0 && s.End() <= total
    requires forall i | 0 <= i < |later| :: s.End() <= later[i].base
    ensures var holes := GapBefore(s, cursor) + later;
      && Separated(holes, total)
      && (forall i | 0 <= i < |holes| :: cursor <= holes[i].base)
      && SumHoles(holes) == SumHoles(later) + (s.base - cursor)
  {
    if s.base > cursor {
      ConsSeparated(Hole(cursor, s.base - cursor), later, total);
    } else {
      assert GapBefore(s, cursor) + later == later;
    }
  }

  lemma ConsSeparated(hole: Hole, later: seq<Hole>, total: nat)
    requires Separated(later, total) && hole.size > 0 && hole.End() <= total
    requires forall i | 0 <= i < |later| :: hole.End() < later[i].base
    ensures Separated([hole] + later, total)
    ensures forall i | 0 <= i < |[hole] + later| :: hole.base <= ([hole] + later)[i].base
    ensures SumHoles([hole] + later) == SumHoles(later) + hole.size
  {
    assert ([hole] + later)[1..] == later;
    forall i, j | 0 <= i < j < |[hole] + later| ensures ([hole] + later)[i].End() < ([hole] + later)[j].base {
      assert ([hole] + later)[j] == later[j - 1];
    }
  }

  lemma ExactStepAt(segs: seq<Segment>, rest: seq<nat>, cursor: nat, total: nat, later: seq<Hole>, a: nat)
    requires Ahead(segs, rest, cursor, total) && rest != [] && cursor <= a < total
    requires ExactFrom(segs, rest[1..], segs[rest[0]].End(), total, later)
    ensures FreeOf(segs, rest, a) <==> InHoles(GapBefore(segs[rest[0]], cursor) + later, a)
  {
    var s := segs[rest[0]];
    AheadNext(segs, rest, cursor, total);
    FreeOfCons(segs, rest, a);
    if s.base > cursor {
      InHolesCons(Hole(cursor, s.base - cursor), later, a);
    } else {
      assert [] + later == later;
    }
    if a < s.End() {
      assert FreeOf(segs, rest[1..], a) && !InHoles(later, a);
    }
  }

  /** A set of addresses is the union of separated intervals in one way only. */
  lemma {:induction false} SeparatedUnique(h: seq<Hole>, g: seq<Hole>, total: nat)
    requires Separated(h, total) && Separated(g, total)
    requires forall a | 0 <= a < total :: InHoles(h, a) <==> InHoles(g, a)
    ensures h == g
  {
    if h == [] {
      FirstHeld(g, total);
    } else if g == [] {
      FirstHeld(h, total);
    } else {
      FirstStarts(h, g, total);
      FirstStarts(g, h, total);
      FirstEnds(h, g, total);
      FirstEnds(g, h, total);
      forall a | 0 <= a < total ensures InHoles(h[1..], a) <==> InHoles(g[1..], a) {
        InTail(h, total, a);
        InTail(g, total, a);
      }
      SeparatedUnique(h[1..], g[1..], total);
    }
  }

  lemma FirstHeld(h: seq<Hole>, total: nat)
    requires Separated(h, total)
    ensures h != [] ==> h[0].base < total && InHoles(h, h[0].base)
  {
    assert h != [] ==> h[0].Holds(h[0].base);
  }

  lemma FirstStarts(h: seq<Hole>, g: seq<Hole>, total: nat)
    requires Separated(h, total) && Separated(g, total) && h != [] && g != []
    requires forall a | 0 <= a < total :: InHoles(h, a) <==> InHoles(g, a)
    ensures g[0].base <= h[0].base
  {
    FirstHeld(h, total);
    var i :| 0 <= i < |g| && g[i].Holds(h[0].base);
    assert i > 0 ==> g[0].End() < g[i].base;
  }

  lemma FirstEnds(h: seq<Hole>, g: seq<Hole>, total: nat)
    requires Separated(h, total) && Separated(g, total) && h != [] && g != [] && h[0].base == g[0].base
    requires forall a | 0 <= a < total :: InHoles(h, a) <==> InHoles(g, a)
    ensures g[0].End() <= h[0].End()
  {
    var a := h[0].End();
    assert !InHoles(h, a);
    assert a < g[0].End() ==> g[0].Holds(a);
  }

  lemma InTail(h: seq<Hole>, total: nat, a: nat)
    requires Separated(h, total) && h != []
    ensures InHoles(h[1..], a) <==> InHoles(h, a) && !h[0].Holds(a)
  {
    if InHoles(h[1..], a) {
      var i :| 0 <= i < |h[1..]| && h[1..][i].Holds(a);
      assert h[i + 1].Holds(a) && h[0].End() < h[i + 1].base;
    }
    if InHoles(h, a) && !h[0].Holds(a) {
      var i :| 0 <= i < |h| && h[i].Holds(a);
      assert h[1..][i - 1].Holds(a);
    }
  }

  lemma FreeOfAll(segs: seq<Segment>, order: seq<nat>, a: nat)
    requires IsOrder(segs, order)
    ensures Free(segs, a) <==> FreeOf(segs, order, a)
  {
    if FreeOf(segs, order, a) {
      forall k | 0 <= k < |segs| ensures !segs[k].Holds(a) {
        assert k in order;
        var i :| 0 <= i < |order| && order[i] == k;
      }
    }
  }

  /** `get_free_holes` returns the maximal free intervals, and hole sizes plus segment sizes make up the
      whole memory. */
  lemma HolesExact(segs: seq<Segment>, total: nat)
    requires Disjoint(segs, total)
    ensures IsHoleList(segs, total, Holes(segs, total))
    ensures SumHoles(Holes(segs, total)) + SumSizes(segs) == total
  {
    var order, holes := ByBase(segs), Holes(segs, total);
    ByBaseSorts(segs);
    HolesAfterExact(segs, order, 0, total);
    forall a ensures Free(segs, a) <==> FreeOf(segs, order, a) {
      FreeOfAll(segs, order, a);
    }
  }

  /** There is no other list of maximal free intervals. */
  lemma HolesUnique(segs: seq<Segment>, total: nat, holes: seq<Hole>)
    requires Disjoint(segs, total) && IsHoleList(segs, total, holes)
    ensures holes == Holes(segs, total)
  {
    HolesExact(segs, total);
    SeparatedUnique(holes, Holes(segs, total), total);
  }

  // ---------- best_fit and worst_fit ----------

  datatype Strategy = Best | Worst {
    /** A hole of size `a` is preferred over one of size `b`. */
    predicate Prefers(a: nat, b: nat) {
      if Best? then a < b else a > b
    }
  }

  /** The chosen hole fits, no fitting hole is preferred, and of equally good ones it is the first. */
  ghost predicate IsChoice(strategy: Strategy, holes: seq<Hole>, size: nat, i: nat) {
    && i < |holes| && holes[i].size >= size
    && (forall j | 0 <= j < |holes| && holes[j].size >= size :: !strategy.Prefers(holes[j].size, holes[i].size))
    && (forall j | 0 <= j < i && holes[j].size >= size :: strategy.Prefers(holes[i].size, holes[j].size))
  }

  function Choose(strategy: Strategy, holes: seq<Hole>, size: nat): (r: Option<nat>)
    ensures r.None? <==> forall i | 0 <= i < |holes| :: holes[i].size < size
    ensures r.Some? ==> IsChoice(strategy, holes, size, r.value)
  {
    if holes == [] then None
    else
      var last := |holes| - 1;
      var r := Choose(strategy, holes[..last], size);
      if holes[last].size >= size && (r.None? || strategy.Prefers(holes[last].size, holes[r.value].size))
      then Some(last)
      else r
  }

  // ---------- compact_memory ----------

  /** `compact_memory` from one point of its loop on: the segments of `rest` are still to be moved. */
  function Pack(mem: seq<byte>, segs: seq<Segment>, rest: seq<nat>, cursor: nat): (r: (seq<byte>, seq<Segment>))
    requires forall i | 0 <= i < |rest| :: rest[i] < |segs|
    ensures |r.0| == |mem| && |r.1| == |segs|
    decreases |rest|
  {
    if rest == [] then (mem, segs)
    else
      var s := segs[rest[0]];
      var moved := if s.base == cursor || s.End() > |mem| then mem else Overwrite(mem, cursor, mem[s.base..s.End()]);
      Pack(moved, segs[rest[0] := s.(base := cursor)], rest[1..], cursor + s.size)
  }

  function Compacted(mem: seq<byte>, segs: seq<Segment>): (seq<byte>, seq<Segment>) {
    Pack(mem, segs, ByBase(segs), 0)
  }

  function Bytes(mem: seq<byte>, s: Segment): seq<byte>
    requires s.End() <= |mem|
  {
    mem[s.base..s.End()]
  }

  /** What moving the segments of `rest` to `cursor` and beyond does to segments and memory. */
  ghost predicate Slid(
    mem: seq<byte>, segs: seq<Segment>, rest: seq<nat>, cursor: nat, mem': seq<byte>, segs': seq<Segment>)
    requires forall i | 0 <= i < |rest| :: rest[i] < |segs|
  {
    var end := cursor + SumOver(segs, rest);
    && |mem'| == |mem| && |segs'| == |segs|
    && (forall k | 0 <= k < |segs| :: segs'[k] == segs[k].(base := segs'[k].base))
    && (forall k | 0 <= k < |segs| && k !in rest :: segs'[k] == segs[k])
    && (forall a | 0 <= a < |mem| && !(cursor <= a < end) :: mem'[a] == mem[a])
    && (forall k | k in rest :: cursor <= segs'[k].base <= segs[k].base && segs'[k].End() <= end)
    && (forall k | k in rest ::
         segs[k].End() <= |mem| && segs'[k].End() <= |mem| && Bytes(mem', segs'[k]) == Bytes(mem, segs[k]))
    && (forall j, k | j in rest && k in rest && segs[j].base < segs[k].base :: segs'[j].End() <= segs'[k].base)
    && (forall a | cursor <= a < end :: !FreeOf(segs', rest, a))
  }

  /** Segments already moved lie below the cursor. */
  ghost predicate Behind(segs: seq<Segment>, rest: seq<nat>, cursor: nat) {
    forall k | 0 <= k < |segs| && k !in rest :: segs[k].End() <= cursor
  }

  lemma TailLater(segs: seq<Segment>, rest: seq<nat>, cursor: nat, total: nat)
    requires Ahead(segs, rest, cursor, total) && rest != []
    ensures forall k | k in rest[1..] :: k < |segs| && k != rest[0] && segs[rest[0]].End() <= segs[k].base
    ensures forall k :: k in rest <==> k == rest[0] || k in rest[1..]
  {
    AheadNext(segs, rest, cursor, total);
    assert rest == [rest[0]] + rest[1..];
    forall k | k in rest[1..] ensures k != rest[0] {
      var i :| 0 <= i < |rest[1..]| && rest[1..][i] == k;
      assert rest[i + 1] == k;
    }
  }

  lemma MoveStaysDisjoint(segs: seq<Segment>, rest: seq<nat>, cursor: nat, total: nat)
    requires Ahead(segs, rest, cursor, total) && Behind(segs, rest, cursor) && rest != []
    ensures Disjoint(segs[rest[0] := segs[rest[0]].(base := cursor)], total)
  {
    TailLater(segs, rest, cursor, total);
    var first := rest[0];
    var moved := segs[first].(base := cursor);
    assert cursor <= segs[first].base;
    forall k | 0 <= k < |segs| && k != first ensures Apart(moved, segs[k]) {
      if k !in rest {
        assert segs[k].End() <= cursor;
      }
    }
  }

  /** One iteration of the loop leaves the loop in the same kind of state. */
  lemma PackStep(segs: seq<Segment>, rest: seq<nat>, cursor: nat, total: nat)
    requires Ahead(segs, rest, cursor, total) && Behind(segs, rest, cursor) && rest != []
    ensures var s := segs[rest[0]];
      var segs1 := segs[rest[0] := s.(base := cursor)];
      Ahead(segs1, rest[1..], cursor + s.size, total) && Behind(segs1, rest[1..], cursor + s.size)
  {
    var s, tail := segs[rest[0]], rest[1..];
    var segs1 := segs[rest[0] := s.(base := cursor)];
    TailLater(segs, rest, cursor, total);
    AheadNext(segs, rest, cursor, total);
    MoveStaysDisjoint(segs, rest, cursor, total);
    assert forall i | 0 <= i < |tail| :: tail[i] in tail && segs1[tail[i]] == segs[tail[i]];
  }

  lemma MoveKeepsBytes(mem: seq<byte>, s: Segment, cursor: nat)
    requires cursor <= s.base && s.End() <= |mem|
    ensures var moved := MoveDown(mem, s, cursor);
      && Bytes(moved, s.(base := cursor)) == Bytes(mem, s)
      && (forall a | 0 <= a < |mem| && !(cursor <= a < cursor + s.size) :: moved[a] == mem[a])
  {
  }

  /** Compaction, from any point of its loop on, moves every segment's bytes intact although source and
      target may overlap, keeps the order of the segments and leaves no gap. */
  lemma {:induction false} PackSlides(mem: seq<byte>, segs: seq<Segment>, rest: seq<nat>, cursor: nat)
    requires Ahead(segs, rest, cursor, |mem|) && Behind(segs, rest, cursor)
    ensures PackSlid(mem, segs, rest, cursor)
    decreases |rest|
  {
    hide *;
    AheadFirst(segs, rest, cursor, |mem|);
    if rest == [] {
      PackNothing(mem, segs, cursor);
    } else {
      var s, tail := segs[rest[0]], rest[1..];
      var mem1, segs1 := MoveDown(mem, s, cursor), segs[rest[0] := s.(base := cursor)];
      PackStep(segs, rest, cursor, |mem|);
      PackSlides(mem1, segs1, tail, cursor + s.size);
      PackSlidesStep(mem, segs, rest, cursor);
    }
  }

  /** The memory and the segments after packing are as `Slid` says. */
  ghost predicate PackSlid(mem: seq<byte>, segs: seq<Segment>, rest: seq<nat>, cursor: nat) {
    && (forall i | 0 <= i < |rest| :: rest[i] < |segs|)
    && Slid(mem, segs, rest, cursor, Pack(mem, segs, rest, cursor).0, Pack(mem, segs, rest, cursor).1)
  }

  /** Memory after a segment is moved to the cursor. */
  ghost function MoveDown(mem: seq<byte>, s: Segment, cursor: nat): (moved: seq<byte>)
    requires s.End() <= |mem|
    ensures |moved| == |mem|
  {
    if s.base == cursor then mem else Overwrite(mem, cursor, Bytes(mem, s))
  }

  lemma PackSlidesStep(mem: seq<byte>, segs: seq<Segment>, rest: seq<nat>, cursor: nat)
    requires Ahead(segs, rest, cursor, |mem|) && Behind(segs, rest, cursor) && rest != []
    requires forall i | 0 <= i < |rest| :: rest[i] < |segs|
    requires segs[rest[0]].End() <= |mem| && cursor <= segs[rest[0]].base
    requires var s := segs[rest[0]];
      PackSlid(MoveDown(mem, s, cursor), segs[rest[0] := s.(base := cursor)], rest[1..], cursor + s.size)
    ensures PackSlid(mem, segs, rest, cursor)
  {
    hide Overwrite, SumOver, Slid, Ahead, Behind, Bytes, Pack;
    var s := segs[rest[0]];
    PackOne(mem, segs, rest, cursor);
    MoveKeepsBytes(mem, s, cursor);
    var r := Pack(mem, segs, rest, cursor);
    SlidStep(mem, segs, rest, cursor, MoveDown(mem, s, cursor), r.0, r.1);
  }

  lemma AheadFirst(segs: seq<Segment>, rest: seq<nat>, cursor: nat, total: nat)
    requires Ahead(segs, rest, cursor, total)
    ensures forall i | 0 <= i < |rest| :: rest[i] < |segs|
    ensures rest != [] ==> cursor <= segs[rest[0]].base && segs[rest[0]].End() <= total
  {
  }

  lemma PackOne(mem: seq<byte>, segs: seq<Segment>, rest: seq<nat>, cursor: nat)
    requires (forall i | 0 <= i < |rest| :: rest[i] < |segs|) && rest != [] && segs[rest[0]].End() <= |mem|
    ensures var s := segs[rest[0]];
      Pack(mem, segs, rest, cursor)
        == Pack(MoveDown(mem, s, cursor), segs[rest[0] := s.(base := cursor)], rest[1..], cursor + s.size)
  {
  }

  lemma PackNothing(mem: seq<byte>, segs: seq<Segment>, cursor: nat)
    ensures PackSlid(mem, segs, [], cursor)
  {
  }

  lemma SlidStep(
    mem: seq<byte>, segs: seq<Segment>, rest: seq<nat>, cursor: nat,
    mem1: seq<byte>, mem': seq<byte>, segs': seq<Segment>)
    requires Ahead(segs, rest, cursor, |mem|) && Behind(segs, rest, cursor) && rest != [] && |mem1| == |mem|
    requires var s := segs[rest[0]];
      && Bytes(mem1, s.(base := cursor)) == Bytes(mem, s)
      && (forall a | 0 <= a < |mem| && !(cursor <= a < cursor + s.size) :: mem1[a] == mem[a])
      && Slid(mem1, segs[rest[0] := s.(base := cursor)], rest[1..], cursor + s.size, mem', segs')
    ensures Slid(mem, segs, rest, cursor, mem', segs')
  {
    var first, tail := rest[0], rest[1..];
    var s := segs[first];
    var segs1 := segs[first := s.(base := cursor)];
    TailLater(segs, rest, cursor, |mem|);
    SumOverSame(segs, segs1, tail);
    assert segs'[first] == s.(base := cursor);
    SlidBytes(mem, segs, rest, cursor, mem1, mem', segs');
    forall a | cursor <= a < cursor + SumOver(segs, rest) ensures !FreeOf(segs', rest, a) {
      FreeOfCons(segs', rest, a);
    }
    forall j, k | j in rest && k in rest && segs[j].base < segs[k].base ensures segs'[j].End() <= segs'[k].base {
      assert k != first;
    }
  }

  lemma SlidBytes(
    mem: seq<byte>, segs: seq<Segment>, rest: seq<nat>, cursor: nat,
    mem1: seq<byte>, mem': seq<byte>, segs': seq<Segment>)
    requires Ahead(segs, rest, cursor, |mem|) && Behind(segs, rest, cursor) && rest != [] && |mem1| == |mem|
    requires var s := segs[rest[0]];
      && Bytes(mem1, s.(base := cursor)) == Bytes(mem, s)
      && (forall a | 0 <= a < |mem| && !(cursor <= a < cursor + s.size) :: mem1[a] == mem[a])
      && Slid(mem1, segs[rest[0] := s.(base := cursor)], rest[1..], cursor + s.size, mem', segs')
    ensures forall k | k in rest ::
      segs[k].End() <= |mem| && segs'[k].End() <= |mem| && Bytes(mem', segs'[k]) == Bytes(mem, segs[k])
  {
    var first := rest[0];
    var s := segs[first];
    TailLater(segs, rest, cursor, |mem|);
    forall k | k in rest
      ensures segs[k].End() <= |mem| && segs'[k].End() <= |mem| && Bytes(mem', segs'[k]) == Bytes(mem, segs[k])
    {
      if k == first {
        assert segs'[first] == s.(base := cursor);
        assert Bytes(mem', segs'[first]) == Bytes(mem1, segs'[first]);
      } else {
        assert Bytes(mem1, segs[k]) == Bytes(mem, segs[k]);
      }
    }
  }

  lemma {:induction false} SumOverSame(segs: seq<Segment>, segs1: seq<Segment>, order: seq<nat>)
    requires |segs| == |segs1| && forall k | 0 <= k < |segs| :: segs1[k].size == segs[k].size
    requires forall i | 0 <= i < |order| :: order[i] < |segs|
    ensures SumOver(segs1, order) == SumOver(segs, order)
  {
    if order != [] {
      SumOverSame(segs, segs1, order[1..]);
    }
  }

  lemma {:induction false} SumSizesSame(segs: seq<Segment>, segs1: seq<Segment>)
    requires |segs| == |segs1| && forall k | 0 <= k < |segs| :: segs1[k].size == segs[k].size
    ensures SumSizes(segs1) == SumSizes(segs)
  {
    if segs != [] {
      SumSizesSame(segs[..|segs| - 1], segs1[..|segs| - 1]);
    }
  }

  /** Gap-free prefix, same order, same owners, ids, sizes and bytes, nothing else touched. */
  ghost predicate IsCompaction(mem: seq<byte>, segs: seq<Segment>, mem': seq<byte>, segs': seq<Segment>) {
    && |mem'| == |mem| && |segs'| == |segs|
    && (forall k | 0 <= k < |segs| ::
         && segs'[k] == segs[k].(base := segs'[k].base) && segs'[k].base <= segs[k].base
         && segs[k].End() <= |mem| && segs'[k].End() <= |mem| && Bytes(mem', segs'[k]) == Bytes(mem, segs[k]))
    && (forall j, k | 0 <= j < |segs| && 0 <= k < |segs| && segs[j].base < segs[k].base ::
         segs'[j].End() <= segs'[k].base)
    && (forall a | 0 <= a < |mem| :: Free(segs', a) <==> SumSizes(segs) <= a)
    && (forall a | 0 <= a < |mem| && SumSizes(segs) <= a :: mem'[a] == mem[a])
  }

  /** `compact_memory`: the segments slide, in the order they had, to a gap-free prefix of memory; every
      segment keeps its owner, id, size and bytes; nothing beyond the prefix is touched; one hole is left
      at most. */
  lemma CompactionExact(mem: seq<byte>, segs: seq<Segment>)
    requires Disjoint(segs, |mem|)
    ensures IsCompaction(mem, segs, Compacted(mem, segs).0, Compacted(mem, segs).1)
    ensures Disjoint(Compacted(mem, segs).1, |mem|)
    ensures SumSizes(Compacted(mem, segs).1) == SumSizes(segs) <= |mem|
    ensures Holes(Compacted(mem, segs).1, |mem|)
         == if SumSizes(segs) < |mem| then [Hole(SumSizes(segs), |mem| - SumSizes(segs))] else []
  {
    hide Pack, HolesAfter, Insert;
    CompactedPlaces(mem, segs);
    HolesExact(segs, |mem|);
    SumSizesSame(segs, Compacted(mem, segs).1);
    OneHole(Compacted(mem, segs).1, |mem|, SumSizes(segs));
  }

  lemma CompactedPlaces(mem: seq<byte>, segs: seq<Segment>)
    requires Disjoint(segs, |mem|)
    ensures IsCompaction(mem, segs, Compacted(mem, segs).0, Compacted(mem, segs).1)
    ensures Disjoint(Compacted(mem, segs).1, |mem|)
  {
    var order := ByBase(segs);
    var r := Compacted(mem, segs);
    ByBaseSorts(segs);
    PackSlides(mem, segs, order, 0);
    SlidDisjoint(mem, segs, order, r.0, r.1);
    SlidCompacts(mem, segs, order, r.0, r.1);
  }

  lemma SlidCompacts(mem: seq<byte>, segs: seq<Segment>, order: seq<nat>, mem': seq<byte>, segs': seq<Segment>)
    requires IsOrder(segs, order) && SumOver(segs, order) == SumSizes(segs) && Slid(mem, segs, order, 0, mem', segs')
    requires Disjoint(segs, |mem|)
    ensures IsCompaction(mem, segs, mem', segs')
  {
    forall a | 0 <= a < |mem| ensures Free(segs', a) <==> SumSizes(segs) <= a {
      SlidFree(mem, segs, order, mem', segs', a);
    }
    assert forall k | 0 <= k < |segs| :: k in order;
  }

  lemma SlidDisjoint(mem: seq<byte>, segs: seq<Segment>, order: seq<nat>, mem': seq<byte>, segs': seq<Segment>)
    requires Disjoint(segs, |mem|) && IsOrder(segs, order) && Slid(mem, segs, order, 0, mem', segs')
    ensures Disjoint(segs', |mem|)
  {
    forall k | 0 <= k < |segs'| ensures segs'[k].size > 0 && segs'[k].End() <= |mem| {
      assert k in order;
    }
    forall j, k | 0 <= j < |segs'| && 0 <= k < |segs'| && j != k ensures Apart(segs'[j], segs'[k]) {
      assert j in order && k in order && Apart(segs[j], segs[k]);
    }
  }

  lemma SlidFree(
    mem: seq<byte>, segs: seq<Segment>, order: seq<nat>, mem': seq<byte>, segs': seq<Segment>, a: nat)
    requires IsOrder(segs, order) && Slid(mem, segs, order, 0, mem', segs') && a < |mem|
    ensures Free(segs', a) <==> SumOver(segs, order) <= a
  {
    if a < SumOver(segs, order) {
      assert !FreeOf(segs', order, a);
    } else {
      forall k | 0 <= k < |segs'| ensures !segs'[k].Holds(a) {
        assert k in order;
      }
    }
  }

  lemma OneHole(segs: seq<Segment>, total: nat, used: nat)
    requires Disjoint(segs, total)
    requires forall a | 0 <= a < total :: Free(segs, a) <==> used <= a
    ensures Holes(segs, total) == if used < total then [Hole(used, total - used)] else []
  {
    var holes := if used < total then [Hole(used, total - used)] else [];
    assert used < total ==> holes[0] == Hole(used, total - used);
    HolesUnique(segs, total, holes);
  }
}
