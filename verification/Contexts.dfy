/**
 The packages that carry records: stick credentials, CPU contexts and segment tables
 (utils/src/utils/net_utils.c, cpu/src/main.c, kernel_memory/src/module_handlers/cpu_handler.c).
*/
module Contexts {
  import opened Base
  import opened Framing

  // ---------- runs of fields ----------

  /** What a `package_add` for each of the values appends to a stream. */
  function EncodeFields(fields: seq<seq<byte>>): seq<byte>
    requires forall i | 0 <= i < |fields| :: |fields[i]| <= MAX_SIZE
  {
    if fields == [] then [] else EncodeFields(fields[..|fields| - 1]) + Field(fields[|fields| - 1])
  }

  /** Where field `i` starts. */
  function Offset(fields: seq<seq<byte>>, i: nat): nat
    requires i <= |fields|
  {
    if i == 0 then 0 else Offset(fields, i - 1) + 4 + |fields[i - 1]|
  }

  /** Every field is found at its own offset, whatever precedes and follows the run. */
  lemma {:induction false} FieldsAt(before: seq<byte>, fields: seq<seq<byte>>, after: seq<byte>, i: nat)
    requires i < |fields| && forall k | 0 <= k < |fields| :: |fields[k]| <= MAX_SIZE
    ensures FieldAt(before + (EncodeFields(fields) + after), |before| + Offset(fields, i))
         == Some((fields[i], |before| + Offset(fields, i + 1)))
    decreases |fields|
  {
    hide FieldAt, Field;
    var n := |fields| - 1;
    var front, last := EncodeFields(fields[..n]), Field(fields[n]);
    OffsetSize(fields[..n]);
    OffsetPrefix(fields, n, i);
    if i == n {
      FieldRoundTrip(before + front, fields[n], after);
      OffsetPrefix(fields, n, n);
      assert (before + front) + (last + after) == before + ((front + last) + after);
    } else {
      FieldsAt(before, fields[..n], last + after, i);
      OffsetPrefix(fields, n, i + 1);
      assert before + (front + (last + after)) == before + ((front + last) + after);
    }
  }

  lemma {:induction false} OffsetPrefix(fields: seq<seq<byte>>, n: nat, i: nat)
    requires i <= n <= |fields|
    ensures Offset(fields[..n], i) == Offset(fields, i)
  {
    if i > 0 {
      OffsetPrefix(fields, n, i - 1);
    }
  }

  lemma {:induction false} OffsetSize(fields: seq<seq<byte>>)
    requires forall k | 0 <= k < |fields| :: |fields[k]| <= MAX_SIZE
    ensures |EncodeFields(fields)| == Offset(fields, |fields|)
  {
    if fields != [] {
      var n := |fields| - 1;
      OffsetSize(fields[..n]);
      OffsetPrefix(fields, n, n);
    }
  }

  // ---------- CPU contexts ----------

  datatype Context = Context(
    pc: u32, ax: byte, bx: byte, cx: byte, dx: byte,
    eax: u32, ebx: u32, ecx: u32, edx: u32, si: u32, di: u32)

  function ContextFields(c: Context): (r: seq<seq<byte>>)
    ensures |r| == 11 && forall i | 0 <= i < |r| :: |r[i]| == if 1 <= i <= 4 then 1 else 4
  {
    [Word(c.pc), [c.ax], [c.bx], [c.cx], [c.dx],
     Word(c.eax), Word(c.ebx), Word(c.ecx), Word(c.edx), Word(c.si), Word(c.di)]
  }

  function EncodeContext(c: Context): seq<byte> {
    EncodeFields(ContextFields(c))
  }

  /** The eleven registers that start at `offset`, and the offset after them. */
  function ContextAt(buffer: seq<byte>, offset: nat): (r: Option<(Context, nat)>)
    ensures r.Some? ==> offset < r.value.1 <= |buffer|
  {
    var pc := WordAt(buffer, offset);
    if pc.None? then None else
    var small := BytesAt(buffer, pc.value.1, 4);
    if small.None? then None else
    var wide := WordsAt(buffer, small.value.1, 6);
    if wide.None? then None else
    var (s, w) := (small.value.0, wide.value.0);
    Some((Context(pc.value.0, s[0], s[1], s[2], s[3], w[0], w[1], w[2], w[3], w[4], w[5]), wide.value.1))
  }

  /** `n` calls of `uint8_deserialize` in a row. */
  function BytesAt(buffer: seq<byte>, offset: nat, n: nat): (r: Option<(seq<byte>, nat)>)
    ensures r.Some? ==> |r.value.0| == n && offset <= r.value.1 && (offset <= |buffer| ==> r.value.1 <= |buffer|)
    decreases n
  {
    if n == 0 then Some(([], offset)) else
    var front := BytesAt(buffer, offset, n - 1);
    if front.None? then None else
    var last := ByteAt(buffer, front.value.1);
    if last.None? then None else Some((front.value.0 + [last.value.0], last.value.1))
  }

  /** `n` calls of `uint32_deserialize` in a row. */
  function WordsAt(buffer: seq<byte>, offset: nat, n: nat): (r: Option<(seq<u32>, nat)>)
    ensures r.Some? ==> |r.value.0| == n && offset <= r.value.1 && (offset <= |buffer| ==> r.value.1 <= |buffer|)
    decreases n
  {
    if n == 0 then Some(([], offset)) else
    var front := WordsAt(buffer, offset, n - 1);
    if front.None? then None else
    var last := WordAt(buffer, front.value.1);
    if last.None? then None else Some((front.value.0 + [last.value.0], last.value.1))
  }

  /** Field `i` of the run, found at its place, holds `value`. */
  ghost predicate Holds(buffer: seq<byte>, at: nat, fields: seq<seq<byte>>, i: nat) {
    && i < |fields|
    && FieldAt(buffer, at + Offset(fields, i)) == Some((fields[i], at + Offset(fields, i + 1)))
  }

  ghost predicate HoldsAll(buffer: seq<byte>, at: nat, fields: seq<seq<byte>>) {
    forall i | 0 <= i < |fields| :: Holds(buffer, at, fields, i)
  }

  lemma {:induction false} WordsHeld(buffer: seq<byte>, at: nat, fields: seq<seq<byte>>, first: nat, words: seq<u32>)
    requires HoldsAll(buffer, at, fields) && first + |words| <= |fields|
    requires forall i | first <= i < first + |words| :: fields[i] == Word(words[i - first])
    ensures WordsAt(buffer, at + Offset(fields, first), |words|) == Some((words, at + Offset(fields, first + |words|)))
  {
    hide FieldAt, Offset, Word, OfWord;
    if words != [] {
      var n := |words| - 1;
      WordsHeld(buffer, at, fields, first, words[..n]);
      assert Holds(buffer, at, fields, first + n);
      WordRoundTrip(words[n]);
      assert words == words[..n] + [words[n]];
    }
  }

  lemma {:induction false} BytesHeld(buffer: seq<byte>, at: nat, fields: seq<seq<byte>>, first: nat, bytes: seq<byte>)
    requires HoldsAll(buffer, at, fields) && first + |bytes| <= |fields|
    requires forall i | first <= i < first + |bytes| :: fields[i] == [bytes[i - first]]
    ensures BytesAt(buffer, at + Offset(fields, first), |bytes|) == Some((bytes, at + Offset(fields, first + |bytes|)))
  {
    hide FieldAt, Offset;
    if bytes != [] {
      var n := |bytes| - 1;
      BytesHeld(buffer, at, fields, first, bytes[..n]);
      assert Holds(buffer, at, fields, first + n);
      assert bytes == bytes[..n] + [bytes[n]];
    }
  }

  /** Every field of an encoded run is held at its place. */
  lemma RunHeld(before: seq<byte>, fields: seq<seq<byte>>, after: seq<byte>)
    requires forall k | 0 <= k < |fields| :: |fields[k]| <= MAX_SIZE
    ensures HoldsAll(before + (EncodeFields(fields) + after), |before|, fields)
    ensures |EncodeFields(fields)| == Offset(fields, |fields|)
  {
    hide FieldAt, Offset, EncodeFields;
    var buffer := before + (EncodeFields(fields) + after);
    forall i | 0 <= i < |fields| ensures Holds(buffer, |before|, fields, i) {
      FieldsAt(before, fields, after, i);
    }
    OffsetSize(fields);
  }

  /** A context is decoded as it was encoded, wherever it stands in a payload, consuming exactly its bytes. */
  lemma ContextRoundTrip(before: seq<byte>, c: Context, after: seq<byte>)
    ensures ContextAt(before + (EncodeContext(c) + after), |before|) == Some((c, |before| + |EncodeContext(c)|))
  {
    hide FieldAt, Offset, Word, EncodeFields, WordsAt, BytesAt, HoldsAll, WordAt;
    var fields, buffer, at := ContextFields(c), before + (EncodeContext(c) + after), |before|;
    RunHeld(before, fields, after);
    var small, wide := [c.ax, c.bx, c.cx, c.dx], [c.eax, c.ebx, c.ecx, c.edx, c.si, c.di];
    OffsetZero(fields);
    WordHeld(buffer, at, fields, 0, c.pc);
    BytesHeld(buffer, at, fields, 1, small);
    WordsHeld(buffer, at, fields, 5, wide);
  }

  lemma OffsetZero(fields: seq<seq<byte>>)
    ensures Offset(fields, 0) == 0
  {
  }

  lemma WordHeld(buffer: seq<byte>, at: nat, fields: seq<seq<byte>>, i: nat, word: u32)
    requires HoldsAll(buffer, at, fields) && i < |fields| && fields[i] == Word(word)
    ensures WordAt(buffer, at + Offset(fields, i)) == Some((word, at + Offset(fields, i + 1)))
  {
    hide FieldAt, Offset, Word, OfWord;
    assert Holds(buffer, at, fields, i);
    WordRoundTrip(word);
  }

  // ---------- segment tables ----------

  /** A segment table entry as the CPU holds it. */
  datatype Entry = Entry(id: u32, base: u32, size: u32)

  function EntryFields(e: Entry): (r: seq<seq<byte>>)
    ensures |r| == 3 && forall i | 0 <= i < |r| :: |r[i]| <= MAX_SIZE
  {
    [Word(e.id), Word(e.base), Word(e.size)]
  }

  function EncodeEntries(table: seq<Entry>): seq<byte> {
    if table == [] then []
    else EncodeFields(EntryFields(table[0])) + EncodeEntries(table[1..])
  }

  /** The loop of `context_receive` over `n` segments. */
  function EntriesAt(buffer: seq<byte>, offset: nat, n: nat): (r: Option<(seq<Entry>, nat)>)
    ensures r.Some? ==> |r.value.0| == n
    decreases n
  {
    if n == 0 then Some(([], offset)) else
    var w := WordsAt(buffer, offset, 3);
    if w.None? then None else
    var first := Entry(w.value.0[0], w.value.0[1], w.value.0[2]);
    var rest := EntriesAt(buffer, w.value.1, n - 1);
    if rest.None? then None else Some(([first] + rest.value.0, rest.value.1))
  }

  lemma {:induction false} EntriesRoundTrip(before: seq<byte>, table: seq<Entry>, after: seq<byte>)
    ensures EntriesAt(before + (EncodeEntries(table) + after), |before|, |table|)
         == Some((table, |before| + |EncodeEntries(table)|))
    decreases |table|
  {
    hide WordsAt, EncodeFields, EntryFields;
    if table != [] {
      var e := table[0];
      var head, tail := EncodeFields(EntryFields(e)), EncodeEntries(table[1..]);
      EntryRoundTrip(before, e, tail + after);
      EntriesRoundTrip(before + head, table[1..], after);
      assert before + (head + (tail + after)) == (before + head) + (tail + after)
          == before + ((head + tail) + after);
      assert [table[0]] + table[1..] == table;
    }
  }

  /** A run of words is decoded as it was encoded. */
  lemma WordRunRoundTrip(before: seq<byte>, fields: seq<seq<byte>>, words: seq<u32>, after: seq<byte>)
    requires |fields| == |words|
    requires forall i | 0 <= i < |fields| :: fields[i] == Word(words[i]) && |fields[i]| <= MAX_SIZE
    ensures WordsAt(before + (EncodeFields(fields) + after), |before|, |words|)
         == Some((words, |before| + |EncodeFields(fields)|))
  {
    hide FieldAt, Offset, Word, EncodeFields, WordsAt, HoldsAll, WordAt;
    RunHeld(before, fields, after);
    OffsetZero(fields);
    WordsHeld(before + (EncodeFields(fields) + after), |before|, fields, 0, words);
  }

  lemma EntryRoundTrip(before: seq<byte>, e: Entry, after: seq<byte>)
    ensures var head := EncodeFields(EntryFields(e));
      WordsAt(before + (head + after), |before|, 3) == Some(([e.id, e.base, e.size], |before| + |head|))
  {
    hide Word, EncodeFields, WordsAt;
    var words := [e.id, e.base, e.size];
    WordRunRoundTrip(before, EntryFields(e), words, after);
  }

  // ---------- payloads ----------

  /** `context_send`: the CPU stores the context of a process it stops running. */
  function SavePayload(pid: u32, c: Context): seq<byte> {
    Field(Word(pid)) + EncodeContext(c)
  }

  /** The CONTEXT_TRANSFER handler of Kernel Memory. */
  function ReadSave(buffer: seq<byte>): Option<(u32, Context, nat)> {
    var pid := WordAt(buffer, 0);
    if pid.None? then None else
    var c := ContextAt(buffer, pid.value.1);
    if c.None? then None else Some((pid.value.0, c.value.0, c.value.1))
  }

  lemma SaveRoundTrip(pid: u32, c: Context)
    ensures ReadSave(SavePayload(pid, c)) == Some((pid, c, |SavePayload(pid, c)|))
  {
    hide EncodeContext, ContextAt, WordAt, Word;
    WordAtRoundTrip([], pid, EncodeContext(c));
    assert [] + SavePayload(pid, c) == SavePayload(pid, c);
    ContextRoundTrip(Field(Word(pid)), c, []);
    assert EncodeContext(c) + [] == EncodeContext(c);
    assert |Field(Word(pid))| == 8;
  }

  /** What is saved is 84 bytes long; every register stands at its own place in it. */
  lemma SaveLayout(pid: u32, c: Context)
    ensures var s := SavePayload(pid, c);
      && |s| == 84 && s[4..8] == Word(pid) && s[12..16] == Word(c.pc)
      && s[20] == c.ax && s[25] == c.bx && s[30] == c.cx && s[35] == c.dx
      && s[40..44] == Word(c.eax) && s[48..52] == Word(c.ebx) && s[56..60] == Word(c.ecx)
      && s[64..68] == Word(c.edx) && s[72..76] == Word(c.si) && s[80..84] == Word(c.di)
  {
    hide Word, FieldAt, EncodeFields, Holds;
    var (fields, s) := (ContextFields(c), SavePayload(pid, c));
    RunHeld(Field(Word(pid)), fields, []);
    assert Field(Word(pid)) + (EncodeContext(c) + []) == s;
    ContextOffsets(c);
    forall i: nat | i < 11
      ensures 8 + Offset(fields, i) + 4 + |fields[i]| <= |s|
      ensures s[8 + Offset(fields, i) + 4..8 + Offset(fields, i) + 4 + |fields[i]|] == fields[i]
    {
      HeldBytes(s, 8, fields, i);
    }
    assert fields[0] == Word(c.pc) && fields[1] == [c.ax] && fields[2] == [c.bx] && fields[3] == [c.cx];
    assert fields[4] == [c.dx] && fields[5] == Word(c.eax) && fields[6] == Word(c.ebx) && fields[7] == Word(c.ecx);
    assert fields[8] == Word(c.edx) && fields[9] == Word(c.si) && fields[10] == Word(c.di);
  }

  lemma HeldBytes(s: seq<byte>, at: nat, fields: seq<seq<byte>>, i: nat)
    requires HoldsAll(s, at, fields) && i < |fields|
    ensures var from := at + Offset(fields, i) + 4;
      from + |fields[i]| <= |s| && s[from..from + |fields[i]|] == fields[i]
  {
    hide Offset;
    assert Holds(s, at, fields, i);
  }

  lemma ContextOffsets(c: Context)
    ensures var f := ContextFields(c);
      && Offset(f, 0) == 0 && Offset(f, 1) == 8 && Offset(f, 2) == 13 && Offset(f, 3) == 18 && Offset(f, 4) == 23
      && Offset(f, 5) == 28 && Offset(f, 6) == 36 && Offset(f, 7) == 44 && Offset(f, 8) == 52 && Offset(f, 9) == 60
      && Offset(f, 10) == 68 && Offset(f, 11) == 76
  {
    var f := ContextFields(c);
    assert Offset(f, 1) == 8 && Offset(f, 2) == 13;
    assert Offset(f, 3) == 18 && Offset(f, 4) == 23;
    assert Offset(f, 5) == 28 && Offset(f, 6) == 36;
    assert Offset(f, 7) == 44 && Offset(f, 8) == 52;
  }

  /** `context_send_from_pcb`: Kernel Memory sends the context and the segment table to a CPU. */
  function LoadPayload(c: Context, table: seq<Entry>): seq<byte>
    requires |table| < TWO_32
  {
    EncodeContext(c) + (Field(Word(|table|)) + EncodeEntries(table))
  }

  /** `context_receive` */
  function ReadLoad(buffer: seq<byte>): Option<(Context, seq<Entry>, nat)> {
    var c := ContextAt(buffer, 0);
    if c.None? then None else
    var count := WordAt(buffer, c.value.1);
    if count.None? then None else
    var table := EntriesAt(buffer, count.value.1, count.value.0);
    if table.None? then None else Some((c.value.0, table.value.0, table.value.1))
  }

  /** A CPU loads exactly the context and the table that Kernel Memory holds. */
  lemma LoadRoundTrip(c: Context, table: seq<Entry>)
    requires |table| < TWO_32
    ensures ReadLoad(LoadPayload(c, table)) == Some((c, table, |LoadPayload(c, table)|))
  {
    hide EncodeContext, ContextAt, WordAt, Word, EncodeEntries, EntriesAt;
    var head, count, tail := EncodeContext(c), Field(Word(|table|)), EncodeEntries(table);
    ContextRoundTrip([], c, count + tail);
    assert [] + (head + (count + tail)) == LoadPayload(c, table);
    WordAtRoundTrip(head, |table|, tail);
    EntriesRoundTrip(head + count, table, []);
    assert (head + count) + (tail + []) == head + (count + tail);
    assert |count| == 8;
  }

  // ---------- memory stick credentials ----------

  /** `ip` and `port` are C strings, without their final NUL. */
  datatype Credentials = Credentials(ip: seq<byte>, port: seq<byte>, id: u32, size: u32)

  predicate Sendable(c: Credentials) {
    && 0 !in c.ip && 0 !in c.port && |c.ip| < MAX_SIZE && |c.port| < MAX_SIZE
  }

  /** The characters of a buffer up to its first NUL. */
  function CString(buffer: seq<byte>): seq<byte> {
    if buffer == [] || buffer[0] == 0 then [] else [buffer[0]] + CString(buffer[1..])
  }

  lemma {:induction false} CStringRoundTrip(s: seq<byte>)
    requires 0 !in s
    ensures CString(s + [0]) == s
  {
    if s != [] {
      assert (s + [0])[1..] == s[1..] + [0];
      CStringRoundTrip(s[1..]);
    }
  }

  function CredentialFields(c: Credentials): (r: seq<seq<byte>>)
    requires Sendable(c)
    ensures forall i | 0 <= i < |r| :: |r[i]| <= MAX_SIZE
  {
    [c.ip + [0], c.port + [0], Word(c.id), Word(c.size)]
  }

  function EncodeCredentials(list: seq<Credentials>): seq<byte>
    requires forall i | 0 <= i < |list| :: Sendable(list[i])
  {
    if list == [] then [] else EncodeFields(CredentialFields(list[0])) + EncodeCredentials(list[1..])
  }

  /** One iteration of the loop of `receive_credentials_list`. */
  function CredentialsAt(buffer: seq<byte>, offset: nat): (r: Option<(Credentials, nat)>)
    ensures r.Some? ==> offset < r.value.1 <= |buffer|
  {
    var ip := FieldAt(buffer, offset);
    if ip.None? then None else
    var port := FieldAt(buffer, ip.value.1);
    if port.None? then None else
    var w := WordsAt(buffer, port.value.1, 2);
    if w.None? then None else
    Some((Credentials(CString(ip.value.0), CString(port.value.0), w.value.0[0], w.value.0[1]), w.value.1))
  }

  function DecodeCredentials(buffer: seq<byte>, offset: nat): Option<seq<Credentials>>
    decreases |buffer| - offset
  {
    if offset >= |buffer| then Some([]) else
    var c := CredentialsAt(buffer, offset);
    if c.None? then None else
    var rest := DecodeCredentials(buffer, c.value.1);
    if rest.None? then None else Some([c.value.0] + rest.value)
  }

  lemma CredentialsAtRoundTrip(before: seq<byte>, c: Credentials, after: seq<byte>)
    requires Sendable(c)
    ensures var head := EncodeFields(CredentialFields(c));
      head != [] && CredentialsAt(before + (head + after), |before|) == Some((c, |before| + |head|))
  {
    hide FieldAt, Offset, Word, EncodeFields, WordsAt, HoldsAll, WordAt, CString;
    var fields := CredentialFields(c);
    var buffer, at := before + (EncodeFields(fields) + after), |before|;
    RunHeld(before, fields, after);
    OffsetZero(fields);
    FieldHeld(buffer, at, fields, 0);
    FieldHeld(buffer, at, fields, 1);
    WordsHeld(buffer, at, fields, 2, [c.id, c.size]);
    CStringRoundTrip(c.ip);
    CStringRoundTrip(c.port);
  }

  lemma FieldHeld(buffer: seq<byte>, at: nat, fields: seq<seq<byte>>, i: nat)
    requires HoldsAll(buffer, at, fields) && i < |fields|
    ensures FieldAt(buffer, at + Offset(fields, i)) == Some((fields[i], at + Offset(fields, i + 1)))
  {
    assert Holds(buffer, at, fields, i);
  }

  lemma {:induction false} CredentialsRoundTripFrom(before: seq<byte>, list: seq<Credentials>)
    requires forall i | 0 <= i < |list| :: Sendable(list[i])
    ensures DecodeCredentials(before + EncodeCredentials(list), |before|) == Some(list)
    decreases |list|
  {
    hide CredentialsAt, EncodeFields, CredentialFields;
    if list == [] {
      assert before + [] == before;
    } else {
      var head, tail := EncodeFields(CredentialFields(list[0])), EncodeCredentials(list[1..]);
      CredentialsAtRoundTrip(before, list[0], tail);
      CredentialsRoundTripFrom(before + head, list[1..]);
      assert (before + head) + tail == before + (head + tail);
      assert [list[0]] + list[1..] == list;
    }
  }

  /** Decoding undoes encoding for every list of credentials, the empty one included. */
  lemma CredentialsRoundTrip(list: seq<Credentials>)
    requires forall i | 0 <= i < |list| :: Sendable(list[i])
    ensures DecodeCredentials(EncodeCredentials(list), 0) == Some(list)
  {
    CredentialsRoundTripFrom([], list);
    assert [] + EncodeCredentials(list) == EncodeCredentials(list);
  }

  // ---------- the code that sends and receives them ----------

  /** The `package_add` calls for the registers. */
  method AddContext(pkg: Package, c: Context)
    modifies pkg`stream
    ensures pkg.stream == old(pkg.stream) + EncodeContext(c)
  {
    hide Word, ContextFields;
    var fields := ContextFields(c);
    for i := 0 to |fields|
      invariant pkg.stream == old(pkg.stream) + EncodeFields(fields[..i])
    {
      assert fields[..i + 1][..i] == fields[..i];
      pkg.Add(fields[i]);
    }
    assert fields[..|fields|] == fields;
  }

  /** `context_send` */
  method ContextSend(pid: u32, c: Context) returns (stream: seq<byte>)
    ensures stream == SavePayload(pid, c)
  {
    var pkg := new Package(0);
    pkg.Add(Word(pid));
    AddContext(pkg, c);
    assert pkg.stream == [] + Field(Word(pid)) + EncodeContext(c);
    return pkg.stream;
  }

  /** `context_send_from_pcb` */
  method ContextSendFromPcb(c: Context, table: seq<Entry>) returns (stream: seq<byte>)
    requires |table| < TWO_32
    ensures stream == LoadPayload(c, table)
  {
    hide EncodeContext, EncodeEntries, Word;
    var pkg := new Package(0);
    AddContext(pkg, c);
    pkg.Add(Word(|table|));
    ghost var head := pkg.stream;
    assert table[0..] == table;
    for i := 0 to |table|
      invariant pkg.stream + EncodeEntries(table[i..]) == head + EncodeEntries(table)
    {
      EntriesStep(pkg.stream, table, i);
      AddEntry(pkg, table[i]);
    }
    EntriesStop(pkg.stream, table);
    assert head == [] + EncodeContext(c) + Field(Word(|table|));
    return pkg.stream;
  }

  method AddEntry(pkg: Package, e: Entry)
    modifies pkg`stream
    ensures pkg.stream == old(pkg.stream) + EncodeFields(EntryFields(e))
  {
    hide Word;
    pkg.Add(Word(e.id));
    pkg.Add(Word(e.base));
    pkg.Add(Word(e.size));
    var fields := EntryFields(e);
    assert fields[..2] == [Word(e.id), Word(e.base)] && fields[..2][..1] == [Word(e.id)];
    assert EncodeFields(fields[..2][..1]) == [] + Field(Word(e.id));
  }

  lemma EntriesStep(stream: seq<byte>, table: seq<Entry>, i: nat)
    requires i < |table|
    ensures var e := table[i];
      (stream + EncodeFields(EntryFields(e))) + EncodeEntries(table[i + 1..])
        == stream + EncodeEntries(table[i..])
  {
    assert table[i..][1..] == table[i + 1..];
  }

  lemma EntriesStop(stream: seq<byte>, table: seq<Entry>)
    ensures stream + EncodeEntries(table[|table|..]) == stream
  {
  }

  /** `context_receive` */
  method ContextReceive(buffer: seq<byte>) returns (r: Option<(Context, seq<Entry>, nat)>)
    ensures r == ReadLoad(buffer)
  {
    hide EntriesAt, ContextAt, WordAt, WordsAt;
    var c := ContextAt(buffer, 0);
    if c.None? {
      return None;
    }
    var count := WordAt(buffer, c.value.1);
    if count.None? {
      return None;
    }
    var offset, n := count.value.1, count.value.0;
    var table: seq<Entry> := [];
    ghost var all := EntriesAt(buffer, offset, n);
    EntriesBegin(all);
    for i := 0 to n
      invariant all == Prepend(table, EntriesAt(buffer, offset, n - i))
    {
      var w := WordsAt(buffer, offset, 3);
      EntriesUnfold(buffer, offset, n - i, table);
      if w.None? {
        return None;
      }
      table := table + [Entry(w.value.0[0], w.value.0[1], w.value.0[2])];
      offset := w.value.1;
    }
    EntriesEnd(buffer, offset, table);
    return Some((c.value.0, table, offset));
  }

  ghost function Prepend(front: seq<Entry>, r: Option<(seq<Entry>, nat)>): Option<(seq<Entry>, nat)> {
    if r.None? then None else Some((front + r.value.0, r.value.1))
  }

  lemma EntriesBegin(r: Option<(seq<Entry>, nat)>)
    ensures Prepend([], r) == r
  {
    assert r.Some? ==> [] + r.value.0 == r.value.0;
  }

  lemma EntriesUnfold(buffer: seq<byte>, offset: nat, n: nat, front: seq<Entry>)
    requires n > 0
    ensures var w := WordsAt(buffer, offset, 3);
      Prepend(front, EntriesAt(buffer, offset, n))
        == if w.None? then None
           else Prepend(front + [Entry(w.value.0[0], w.value.0[1], w.value.0[2])], EntriesAt(buffer, w.value.1, n - 1))
  {
    hide WordsAt;
    var w := WordsAt(buffer, offset, 3);
    if w.Some? {
      var first := Entry(w.value.0[0], w.value.0[1], w.value.0[2]);
      var rest := EntriesAt(buffer, w.value.1, n - 1);
      assert rest.Some? ==> front + ([first] + rest.value.0) == (front + [first]) + rest.value.0;
    }
  }

  lemma EntriesEnd(buffer: seq<byte>, offset: nat, table: seq<Entry>)
    ensures Prepend(table, EntriesAt(buffer, offset, 0)) == Some((table, offset))
  {
    assert table + [] == table;
  }

  /** The loop of `send_credentials_list`. */
  method AddCredentials(pkg: Package, list: seq<Credentials>)
    requires forall i | 0 <= i < |list| :: Sendable(list[i])
    modifies pkg`stream
    ensures pkg.stream == old(pkg.stream) + EncodeCredentials(list)
  {
    hide CredentialFields;
    assert list[0..] == list;
    for i := 0 to |list|
      invariant pkg.stream + EncodeCredentials(list[i..]) == old(pkg.stream) + EncodeCredentials(list)
    {
      assert list[i..][1..] == list[i + 1..];
      assert (pkg.stream + EncodeFields(CredentialFields(list[i]))) + EncodeCredentials(list[i + 1..])
          == pkg.stream + EncodeCredentials(list[i..]);
      AddOne(pkg, list[i]);
    }
    assert pkg.stream + [] == pkg.stream;
  }

  method AddOne(pkg: Package, c: Credentials)
    requires Sendable(c)
    modifies pkg`stream
    ensures pkg.stream == old(pkg.stream) + EncodeFields(CredentialFields(c))
  {
    hide Word;
    var fields := CredentialFields(c);
    pkg.Add(c.ip + [0]);
    pkg.Add(c.port + [0]);
    pkg.Add(Word(c.id));
    pkg.Add(Word(c.size));
    assert fields[..3] == [c.ip + [0], c.port + [0], Word(c.id)];
    assert fields[..3][..2] == [c.ip + [0], c.port + [0]] && fields[..3][..2][..1] == [c.ip + [0]];
    assert fields == [c.ip + [0], c.port + [0], Word(c.id), Word(c.size)];
    assert EncodeFields([c.ip + [0]]) == Field(c.ip + [0]);
    assert EncodeFields(fields[..3][..2]) == Field(c.ip + [0]) + Field(c.port + [0]);
    assert EncodeFields(fields[..3]) == Field(c.ip + [0]) + Field(c.port + [0]) + Field(Word(c.id));
  }

  /** `receive_credentials_list`, given its buffer. */
  method ReceiveCredentials(buffer: Option<seq<byte>>) returns (list: Option<seq<Credentials>>)
    ensures list == if buffer.None? then Some([]) else DecodeCredentials(buffer.value, 0)
  {
    hide CredentialsAt;
    if buffer.None? {
      return Some([]);
    }
    var data := buffer.value;
    var offset: nat, found := 0, [];
    assert forall o: Option<seq<Credentials>> | o.Some? :: [] + o.value == o.value;
    while offset < |data|
      invariant offset <= |data|
      invariant DecodeCredentials(data, 0)
        == match DecodeCredentials(data, offset) case None => None case Some(rest) => Some(found + rest)
      decreases |data| - offset
    {
      var c := CredentialsAt(data, offset);
      if c.None? {
        return None;
      }
      ghost var rest := DecodeCredentials(data, c.value.1);
      assert rest.Some? ==> found + ([c.value.0] + rest.value) == (found + [c.value.0]) + rest.value;
      found := found + [c.value.0];
      offset := c.value.1;
    }
    assert found + [] == found;
    return Some(found);
  }
}
