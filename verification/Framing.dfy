/**
 The byte format of packages: every field is its length in four bytes followed by its bytes
 (utils/src/utils/net_utils.c).
*/
module Framing {
  import opened Base

  // ---------- integers ----------

  /** A 32-bit integer as it lies in memory, low byte first. */
  function Word(n: u32): (r: seq<byte>)
    ensures |r| == 4
  {
    var (a, b, c) := (n / 256, n / 256 / 256, n / 256 / 256 / 256);
    [n % 256, a % 256, b % 256, c]
  }

  function OfWord(w: seq<byte>): u32
    requires |w| == 4
  {
    w[0] as int + 256 * (w[1] as int + 256 * (w[2] as int + 256 * (w[3] as int)))
  }

  lemma WordRoundTrip(n: u32)
    ensures OfWord(Word(n)) == n
  {
  }

  function Power(k: nat): nat {
    if k == 0 then 1 else if k == 1 then 256 else if k == 2 then 65536 else 16777216
  }

  /** Byte `k` of a number, the lowest first. */
  function ByteOf(n: u32, k: nat): byte {
    n / Power(k) % 256
  }

  lemma QuotientUnique(q: nat, d: nat, r: nat)
    requires r < d
    ensures (q * d + r) / d == q && (q * d + r) % d == r
  {
    var x := q * d + r;
    var (p, s) := (x / d, x % d);
    assert x == p * d + s;
    PartsUnique(p, s, q, r, d);
  }

  lemma PartsUnique(p: int, s: nat, q: int, r: nat, d: nat)
    requires r < d && s < d && p * d + s == q * d + r
    ensures p == q && s == r
  {
    assert (p - q) * d == r - s;
    assert p - q >= 1 ==> (p - q) * d >= d;
    assert q - p >= 1 ==> (q - p) * d >= d;
    assert (q - p) * d == s - r;
  }

  /** Numbers are sent, and kept in memory, with the lowest byte first. */
  lemma WordByte(n: u32, k: nat)
    requires k < 4
    ensures Word(n)[k] == ByteOf(n, k)
  {
    QuotientTwice(n);
    QuotientThrice(n);
  }

  lemma QuotientTwice(n: nat)
    ensures n / 256 / 256 == n / 65536
  {
    var a := n / 256;
    assert n == 256 * a + n % 256 && a == 256 * (a / 256) + a % 256;
  }

  lemma QuotientThrice(n: nat)
    ensures n / 256 / 256 / 256 == n / 16777216
  {
    QuotientTwice(n);
    var b := n / 65536;
    assert n == 65536 * b + n % 65536 && b == 256 * (b / 256) + b % 256;
  }

  // ---------- fields ----------

  /** Sizes are C `int`s. */
  const MAX_SIZE: nat := 0x7FFF_FFFF

  function Field(value: seq<byte>): (r: seq<byte>)
    requires |value| <= MAX_SIZE
    ensures |r| == 4 + |value|
  {
    Word(|value|) + value
  }

  /** The field that starts at `offset`, and the offset after it; nothing if the buffer ends before. */
  function FieldAt(buffer: seq<byte>, offset: nat): (r: Option<(seq<byte>, nat)>)
    ensures r.Some? ==> offset < r.value.1 <= |buffer|
  {
    if offset + 4 > |buffer| then None
    else
      var size := OfWord(buffer[offset..offset + 4]);
      if offset + 4 + size > |buffer| then None
      else Some((buffer[offset + 4..offset + 4 + size], offset + 4 + size))
  }

  lemma FieldRoundTrip(before: seq<byte>, value: seq<byte>, after: seq<byte>)
    requires |value| <= MAX_SIZE
    ensures FieldAt(before + (Field(value) + after), |before|) == Some((value, |before| + |Field(value)|))
  {
    var buffer := before + (Field(value) + after);
    WordRoundTrip(|value|);
    assert buffer[|before|..|before| + 4] == Word(|value|);
    assert buffer[|before| + 4..|before| + 4 + |value|] == value;
  }

  /** `uint32_deserialize` of a field that holds four bytes. */
  function WordAt(buffer: seq<byte>, offset: nat): (r: Option<(u32, nat)>)
    ensures r.Some? ==> offset < r.value.1 <= |buffer|
  {
    match FieldAt(buffer, offset)
    case None => None
    case Some((value, next)) => if |value| == 4 then Some((OfWord(value), next)) else None
  }

  /** `uint8_deserialize` of a field that holds one byte. */
  function ByteAt(buffer: seq<byte>, offset: nat): (r: Option<(byte, nat)>)
    ensures r.Some? ==> offset < r.value.1 <= |buffer|
  {
    match FieldAt(buffer, offset)
    case None => None
    case Some((value, next)) => if |value| == 1 then Some((value[0], next)) else None
  }

  lemma WordAtRoundTrip(before: seq<byte>, n: u32, after: seq<byte>)
    ensures WordAt(before + (Field(Word(n)) + after), |before|) == Some((n, |before| + 8))
  {
    FieldRoundTrip(before, Word(n), after);
    WordRoundTrip(n);
  }

  // ---------- packages on the wire ----------

  /** `package_serialize`: operation code, size, stream. */
  function Serialize(opCode: u32, stream: seq<byte>): seq<byte>
    requires |stream| <= MAX_SIZE
  {
    Word(opCode) + Word(|stream|) + stream
  }

  /** `operation_receive`, then `buffer_receive`: the buffer is absent when its size is zero. */
  function Receive(wire: seq<byte>): Option<(u32, Option<seq<byte>>, seq<byte>)> {
    if |wire| < 8 then None
    else
      var size := OfWord(wire[4..8]);
      if 8 + size > |wire| then None
      else Some((OfWord(wire[..4]), if size == 0 then None else Some(wire[8..8 + size]), wire[8 + size..]))
  }

  /** A package is received as it was sent, and the bytes of the next one are left for it. */
  lemma SerializeRoundTrip(opCode: u32, stream: seq<byte>, next: seq<byte>)
    requires |stream| <= MAX_SIZE
    ensures Receive(Serialize(opCode, stream) + next)
         == Some((opCode, if stream == [] then None else Some(stream), next))
  {
    var wire := Serialize(opCode, stream) + next;
    WordRoundTrip(opCode);
    WordRoundTrip(|stream|);
    assert wire[..4] == Word(opCode) && wire[4..8] == Word(|stream|);
    assert wire[8..8 + |stream|] == stream && wire[8 + |stream|..] == next;
  }

  /** On the wire lie the operation code, the size of the stream and the stream, in this order. */
  lemma SerializeLayout(opCode: u32, stream: seq<byte>)
    requires |stream| <= MAX_SIZE
    ensures var wire := Serialize(opCode, stream);
      && |wire| == 8 + |stream| && wire[8..] == stream
      && forall k: nat | k < 4 :: wire[k] == ByteOf(opCode, k) && wire[4 + k] == ByteOf(|stream|, k)
  {
    hide Word;
    forall k: nat | k < 4
      ensures Word(opCode)[k] == ByteOf(opCode, k) && Word(|stream|)[k] == ByteOf(|stream|, k)
    {
      WordByte(opCode, k);
      WordByte(|stream|, k);
    }
  }

  /** A field is its length and its bytes. */
  lemma FieldLayout(value: seq<byte>)
    requires |value| <= MAX_SIZE
    ensures Field(value)[4..] == value && forall k: nat | k < 4 :: Field(value)[k] == ByteOf(|value|, k)
  {
    hide Word;
    forall k: nat | k < 4 ensures Word(|value|)[k] == ByteOf(|value|, k) {
      WordByte(|value|, k);
    }
  }

  // ---------- lists of integers ----------

  function EncodeList(xs: seq<u32>): seq<byte> {
    if xs == [] then [] else Field(Word(xs[0])) + EncodeList(xs[1..])
  }

  /** The loop of `uint32_list_decode` from `offset` on. */
  function DecodeList(buffer: seq<byte>, offset: nat): Option<seq<u32>>
    decreases |buffer| - offset
  {
    if offset >= |buffer| then Some([])
    else
      match WordAt(buffer, offset)
      case None => None
      case Some((x, next)) =>
        match DecodeList(buffer, next)
        case None => None
        case Some(rest) => Some([x] + rest)
  }

  lemma {:induction false} ListRoundTripFrom(before: seq<byte>, xs: seq<u32>)
    ensures DecodeList(before + EncodeList(xs), |before|) == Some(xs)
    decreases |xs|
  {
    hide Word, OfWord, WordAt, Field, FieldAt;
    if xs == [] {
      assert before + [] == before;
    } else {
      var field, rest := Field(Word(xs[0])), EncodeList(xs[1..]);
      WordAtRoundTrip(before, xs[0], rest);
      ListRoundTripFrom(before + field, xs[1..]);
      assert (before + field) + rest == before + (field + rest);
      assert [xs[0]] + xs[1..] == xs;
    }
  }

  /** Decoding undoes encoding for every list, the empty one included. */
  lemma ListRoundTrip(xs: seq<u32>)
    ensures DecodeList(EncodeList(xs), 0) == Some(xs)
  {
    ListRoundTripFrom([], xs);
    assert [] + EncodeList(xs) == EncodeList(xs);
  }

  class Package {
    var opCode: u32
    var stream: seq<byte>

    constructor (opCode: u32)
      ensures this.opCode == opCode && stream == []
    {
      this.opCode := opCode;
      stream := [];
    }

    /** `package_add` */
    method Add(value: seq<byte>)
      requires |value| <= MAX_SIZE
      modifies this`stream
      ensures stream == old(stream) + Field(value)
    {
      stream := stream + Word(|value|) + value;
    }

    /** The loop of `uint32_list_send`. */
    method AddList(xs: seq<u32>)
      modifies this`stream
      ensures stream == old(stream) + EncodeList(xs)
    {
      for i := 0 to |xs|
        invariant stream + EncodeList(xs[i..]) == old(stream) + EncodeList(xs)
      {
        assert xs[i..][1..] == xs[i + 1..];
        assert (stream + Field(Word(xs[i]))) + EncodeList(xs[i + 1..])
            == stream + (Field(Word(xs[i])) + EncodeList(xs[i + 1..]));
        Add(Word(xs[i]));
      }
      assert stream + [] == stream;
    }
  }

  /** What is decoded of a list, given what was already decoded of it. */
  ghost function After(xs: seq<u32>, rest: Option<seq<u32>>): Option<seq<u32>> {
    match rest
    case None => None
    case Some(ys) => Some(xs + ys)
  }

  lemma AfterNext(data: seq<byte>, offset: nat, xs: seq<u32>)
    requires offset < |data|
    ensures After(xs, DecodeList(data, offset)) ==
      match WordAt(data, offset)
      case None => None
      case Some((x, next)) => After(xs + [x], DecodeList(data, next))
  {
    hide WordAt;
    var word := WordAt(data, offset);
    if word.Some? && DecodeList(data, word.value.1).Some? {
      var rest := DecodeList(data, word.value.1).value;
      assert xs + ([word.value.0] + rest) == (xs + [word.value.0]) + rest;
    }
  }

  lemma AfterEnds(xs: seq<u32>, r: Option<seq<u32>>)
    ensures After([], r) == r && After(xs, Some([])) == Some(xs)
  {
    assert r.Some? ==> [] + r.value == r.value;
    assert xs + [] == xs;
  }

  /** `uint32_list_decode` */
  method ReceiveList(buffer: Option<seq<byte>>) returns (list: Option<seq<u32>>)
    ensures list == if buffer.None? then Some([]) else DecodeList(buffer.value, 0)
  {
    hide WordAt, After;
    if buffer.None? {
      return Some([]);
    }
    var data := buffer.value;
    var offset: nat, xs := 0, [];
    AfterEnds([], DecodeList(data, 0));
    while offset < |data|
      invariant offset <= |data|
      invariant DecodeList(data, 0) == After(xs, DecodeList(data, offset))
      decreases |data| - offset
    {
      AfterNext(data, offset, xs);
      var word := WordAt(data, offset);
      if word.None? {
        return None;
      }
      xs := xs + [word.value.0];
      offset := word.value.1;
    }
    AfterEnds(xs, DecodeList(data, offset));
    return Some(xs);
  }
}
