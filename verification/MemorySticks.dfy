/**
 The physical memory: a list of hot-pluggable memory sticks, each a byte buffer of its own, addressed
 as one flat array (kernel_memory/src/memory_manage.c, memory_stick/src/main.c).
*/
module MemorySticks {
  import opened Base

  /** What the sticks hold, laid end to end in connection order. */
  function Concat(sticks: seq<seq<byte>>): seq<byte> {
    if sticks == [] then [] else sticks[0] + Concat(sticks[1..])
  }

  /** Physical address of the first byte of stick `i`. */
  function Start(sticks: seq<seq<byte>>, i: nat): nat
    requires i <= |sticks|
  {
    |Concat(sticks[..i])|
  }

  lemma ConcatUnfold(sticks: seq<seq<byte>>)
    ensures Concat(sticks) == if sticks == [] then [] else sticks[0] + Concat(sticks[1..])
  {
  }

  lemma {:induction false} ConcatJoin(front: seq<seq<byte>>, back: seq<seq<byte>>)
    ensures Concat(front + back) == Concat(front) + Concat(back)
    decreases |front|
  {
    hide Concat;
    ConcatUnfold(front);
    if front == [] {
      assert front + back == back;
    } else {
      var head, tail := front[0], front[1..];
      ConcatUnfold(front + back);
      ConcatJoin(tail, back);
      assert (front + back)[1..] == tail + back;
      assert head + (Concat(tail) + Concat(back)) == (head + Concat(tail)) + Concat(back);
    }
  }

  lemma ConcatOne(stick: seq<byte>)
    ensures Concat([stick]) == stick
  {
    assert [stick][1..] == [];
  }

  lemma SplitAt(sticks: seq<seq<byte>>, i: nat)
    requires i < |sticks|
    ensures sticks[..i] + sticks[i..] == sticks && sticks[i..] != []
    ensures sticks[i..][0] == sticks[i] && sticks[i..][1..] == sticks[i + 1..]
    ensures sticks[..i] + [sticks[i]] == sticks[..i + 1]
  {
  }

  lemma ConcatParts(sticks: seq<seq<byte>>, i: nat)
    requires i < |sticks|
    ensures Concat(sticks) == Concat(sticks[..i]) + (sticks[i] + Concat(sticks[i + 1..]))
  {
    hide *;
    SplitAt(sticks, i);
    ConcatJoin(sticks[..i], sticks[i..]);
    ConcatUnfold(sticks[i..]);
  }

  lemma ConcatNext(sticks: seq<seq<byte>>, i: nat)
    requires i < |sticks|
    ensures Concat(sticks[..i + 1]) == Concat(sticks[..i]) + sticks[i]
  {
    hide *;
    SplitAt(sticks, i);
    ConcatJoin(sticks[..i], [sticks[i]]);
    ConcatOne(sticks[i]);
  }

  lemma ConcatSplit(sticks: seq<seq<byte>>, i: nat)
    requires i < |sticks|
    ensures Concat(sticks) == Concat(sticks[..i]) + (sticks[i] + Concat(sticks[i + 1..]))
    ensures Start(sticks, i + 1) == Start(sticks, i) + |sticks[i]|
    ensures Start(sticks, |sticks|) == |Concat(sticks)|
  {
    hide Concat;
    ConcatParts(sticks, i);
    ConcatNext(sticks, i);
    assert sticks[..|sticks|] == sticks;
  }

  /** Part of a stick is the same part of the flat memory, at the stick's start plus the offset. */
  lemma ConcatChunk(sticks: seq<seq<byte>>, i: nat, offset: nat, size: nat)
    requires i < |sticks| && offset + size <= |sticks[i]|
    ensures var at := Start(sticks, i) + offset;
      at + size <= |Concat(sticks)| && Concat(sticks)[at..at + size] == sticks[i][offset..offset + size]
  {
    ConcatSplit(sticks, i);
  }

  /** Overwriting inside one stick is overwriting the flat memory at the matching address. */
  lemma ConcatSplice(sticks: seq<seq<byte>>, i: nat, offset: nat, data: seq<byte>)
    requires i < |sticks| && offset + |data| <= |sticks[i]|
    ensures Start(sticks, i) + offset + |data| <= |Concat(sticks)|
    ensures Concat(sticks[i := Splice(sticks[i], offset, data)])
         == Splice(Concat(sticks), Start(sticks, i) + offset, data)
  {
    var updated := sticks[i := Splice(sticks[i], offset, data)];
    ConcatSplit(sticks, i);
    ConcatSplit(updated, i);
    assert updated[..i] == sticks[..i] && updated[i + 1..] == sticks[i + 1..];
    SpliceMiddle(Concat(sticks[..i]), sticks[i], Concat(sticks[i + 1..]), offset, data);
  }

  /** `handle_read` of a memory stick: an out-of-range request is refused. */
  method StickRead(stick: array<byte>, offset: nat, size: nat) returns (r: Option<seq<byte>>)
    ensures r == if offset + size > stick.Length then None else Some(stick[offset..offset + size])
  {
    if offset + size > stick.Length {
      return None;
    }
    return Some(stick[offset..offset + size]);
  }

  /** `handle_write` of a memory stick: an out-of-range request is refused and changes nothing. */
  method StickWrite(stick: array<byte>, offset: nat, data: seq<byte>) returns (ok: bool)
    modifies stick
    ensures ok == (offset + |data| <= stick.Length)
    ensures stick[..] == if ok then Splice(old(stick[..]), offset, data) else old(stick[..])
  {
    if offset + |data| > stick.Length {
      return false;
    }
    forall i | 0 <= i < |data| {
      stick[offset + i] := data[i];
    }
    return true;
  }

  /** One request to a stick. */
  datatype Chunk = Chunk(stick: nat, offset: nat, size: nat)

  /** It is not empty, and the bound check of its stick accepts it. */
  ghost predicate Accepted(sizes: seq<nat>, chunk: Chunk) {
    chunk.size > 0 && chunk.stick < |sizes| && chunk.offset + chunk.size <= sizes[chunk.stick]
  }

  /** Bytes asked for by a list of requests. */
  ghost function Total(sent: seq<Chunk>): nat {
    if sent == [] then 0 else Total(sent[..|sent| - 1]) + sent[|sent| - 1].size
  }

  ghost predicate AllAccepted(sizes: seq<nat>, sent: seq<Chunk>) {
    forall j | 0 <= j < |sent| :: Accepted(sizes, sent[j])
  }

  lemma SentMore(sizes: seq<nat>, sent: seq<Chunk>, chunk: Chunk)
    requires AllAccepted(sizes, sent) && Accepted(sizes, chunk)
    ensures AllAccepted(sizes, sent + [chunk]) && Total(sent + [chunk]) == Total(sent) + chunk.size
  {
    assert (sent + [chunk])[..|sent|] == sent;
  }

  lemma SentNothing(sizes: seq<nat>)
    ensures AllAccepted(sizes, []) && Total([]) == 0
  {
  }

  class MemoryBank {
    var sticks: seq<array<byte>>

    ghost predicate Valid()
      reads this
    {
      NoDuplicates(sticks)
    }

    ghost function Contents(): (c: seq<seq<byte>>)
      reads this, sticks
      ensures |c| == |sticks|
    {
      seq(|sticks|, i requires 0 <= i < |sticks| reads this, sticks => sticks[i][..])
    }

    ghost function Sizes(): seq<nat>
      reads this
    {
      seq(|sticks|, i requires 0 <= i < |sticks| reads this => sticks[i].Length)
    }

    /** The flat physical memory. */
    ghost function Flat(): seq<byte>
      reads this, sticks
    {
      Concat(Contents())
    }

    constructor ()
      ensures Valid() && sticks == [] && Flat() == []
    {
      sticks := [];
    }

    /** `get_memory_stick_by_address`: the stick that holds an address and the offset inside it. */
    method FindStick(address: nat) returns (i: nat, offset: nat)
      ensures i <= |sticks|
      ensures i < |sticks| <==> address < |Flat()|
      ensures i < |sticks| ==> offset < sticks[i].Length && address == Start(Contents(), i) + offset
    {
      var cursor := 0;
      i, offset := 0, 0;
      while i < |sticks|
        invariant i <= |sticks|
        invariant cursor == Start(Contents(), i) <= address
      {
        ConcatSplit(Contents(), i);
        if address < cursor + sticks[i].Length {
          offset := address - cursor;
          return;
        }
        cursor := cursor + sticks[i].Length;
        i := i + 1;
      }
      assert Contents()[..i] == Contents();
    }

    /** `memory_read`: the slice of the flat memory, or nothing when it runs past the last stick. */
    method Read(address: nat, size: nat) returns (r: Option<seq<byte>>, ghost sent: seq<Chunk>)
      requires Valid()
      ensures AllAccepted(Sizes(), sent) && (r.Some? ==> Total(sent) == size)
      ensures size == 0 ==> r == Some([])
      ensures size > 0 && address + size > |Flat()| ==> r == None
      ensures size > 0 && address + size <= |Flat()| ==> r == Some(Flat()[address..address + size])
    {
      hide Concat, AllAccepted, Total, Start, MemoryBank.Contents, MemoryBank.Flat;
      var done, data := 0, [];
      sent := [];
      SentNothing(Sizes());
      while done < size
        invariant AllAccepted(Sizes(), sent) && Total(sent) == done
        invariant done <= size && |data| == done
        invariant done > 0 ==> address + done <= |Flat()| && data == Flat()[address..address + done]
      {
        var i, offset := FindStick(address + done);
        if i == |sticks| {
          r := None;
          return;
        }
        var available := sticks[i].Length - offset;
        var remaining := size - done;
        var chunk := if remaining < available then remaining else available;
        SentMore(Sizes(), sent, Chunk(i, offset, chunk));
        sent := sent + [Chunk(i, offset, chunk)];
        var part := ReadChunk(i, offset, chunk);
        if part.None? {
          r := None;
          return;
        }
        SliceGrows(Flat(), address, done, chunk);
        data := data + part.value;
        done := done + chunk;
      }
      r := Some(data);
    }

    /** One MS_READ request to stick `i`, and its answer. */
    method ReadChunk(i: nat, offset: nat, size: nat) returns (r: Option<seq<byte>>)
      requires Valid() && i < |sticks|
      ensures r.Some? <==> offset + size <= sticks[i].Length
      ensures r.Some? ==>
        var at := Start(Contents(), i) + offset;
        at + size <= |Flat()| && r.value == Flat()[at..at + size]
    {
      hide Concat, Start;
      r := StickRead(sticks[i], offset, size);
      if r.Some? {
        ConcatChunk(Contents(), i, offset, size);
        assert Contents()[i][offset..offset + size] == sticks[i][offset..offset + size];
      }
    }

    /** `memory_write`: succeeds iff the data fit; on failure the part that fits has been written. */
    method Write(address: nat, data: seq<byte>) returns (ok: bool, ghost sent: seq<Chunk>)
      requires Valid()
      modifies sticks
      ensures AllAccepted(Sizes(), sent) && (ok ==> Total(sent) == |data|)
      ensures ok == (data == [] || address + |data| <= |Flat()|)
      ensures Flat() == Overwrite(old(Flat()), address, data)
    {
      hide Concat, Overwrite, Splice, AllAccepted, Total, Start, MemoryBank.Contents, MemoryBank.Flat;
      var done := 0;
      sent := [];
      SentNothing(Sizes());
      while done < |data|
        invariant AllAccepted(Sizes(), sent) && Total(sent) == done
        invariant done <= |data| && Valid()
        invariant done > 0 ==> address + done <= |Flat()|
        invariant Flat() == Overwrite(old(Flat()), address, data[..done])
      {
        var i, offset := FindStick(address + done);
        if i == |sticks| {
          OverwriteStops(old(Flat()), address, data, done);
          ok := false;
          return;
        }
        var available := sticks[i].Length - offset;
        var remaining := |data| - done;
        var chunk := if remaining < available then remaining else available;
        SentMore(Sizes(), sent, Chunk(i, offset, chunk));
        sent := sent + [Chunk(i, offset, chunk)];
        var accepted := WriteChunk(i, offset, data[done..done + chunk]);
        if !accepted {
          ok := false;
          return;
        }
        OverwriteGrows(old(Flat()), address, data, done, chunk);
        done := done + chunk;
      }
      assert data[..done] == data;
      ok := true;
    }

    /** One MS_WRITE request to stick `i`, and its answer. */
    method WriteChunk(i: nat, offset: nat, chunk: seq<byte>) returns (ok: bool)
      requires Valid() && i < |sticks|
      modifies sticks[i]
      ensures ok == (offset + |chunk| <= sticks[i].Length)
      ensures ok ==> Start(old(Contents()), i) + offset + |chunk| <= |old(Flat())|
      ensures Flat() == if ok then Splice(old(Flat()), Start(old(Contents()), i) + offset, chunk) else old(Flat())
    {
      hide Concat, Splice, Start, MemoryBank.Contents;
      ghost var before := Contents();
      ok := AskStick(i, offset, chunk);
      if ok {
        ConcatSplice(before, i, offset, chunk);
      }
    }

    method AskStick(i: nat, offset: nat, chunk: seq<byte>) returns (ok: bool)
      requires Valid() && i < |sticks|
      modifies sticks[i]
      ensures ok == (offset + |chunk| <= sticks[i].Length) && |old(Contents())[i]| == sticks[i].Length
      ensures Contents() == if ok then old(Contents())[i := Splice(old(Contents())[i], offset, chunk)]
                            else old(Contents())
    {
      hide Concat, Splice, Start;
      ghost var before := Contents();
      ok := StickWrite(sticks[i], offset, chunk);
      assert forall k | 0 <= k < |sticks| && k != i :: Contents()[k] == before[k];
    }

    /** `memory_stick_protocol`: a stick connected at run time extends memory at its end. */
    method Connect(stick: array<byte>)
      requires Valid() && stick !in sticks
      modifies this
      ensures Valid() && sticks == old(sticks) + [stick]
      ensures Flat() == old(Flat()) + stick[..]
    {
      ConcatJoin(Contents(), [stick[..]]);
      assert Concat([stick[..]]) == stick[..];
      ghost var before := Contents();
      sticks := sticks + [stick];
      assert Contents() == before + [stick[..]];
    }
  }

  lemma SliceGrows(mem: seq<byte>, address: nat, done: nat, chunk: nat)
    requires address + done + chunk <= |mem|
    ensures mem[address..address + done] + mem[address + done..address + done + chunk]
         == mem[address..address + done + chunk]
  {
  }

  lemma OverwriteGrows(mem: seq<byte>, address: nat, data: seq<byte>, done: nat, chunk: nat)
    requires done + chunk <= |data| && address + done + chunk <= |mem|
    ensures Splice(Overwrite(mem, address, data[..done]), address + done, data[done..done + chunk])
         == Overwrite(mem, address, data[..done + chunk])
  {
  }

  lemma OverwriteStops(mem: seq<byte>, address: nat, data: seq<byte>, done: nat)
    requires done <= |data| && |mem| <= address + done
    ensures Overwrite(mem, address, data[..done]) == Overwrite(mem, address, data)
  {
  }
}
