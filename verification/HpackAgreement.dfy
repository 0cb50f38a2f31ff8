/** The encoder and the decoder stay in step: whatever header blocks are written, with whatever limits
    set between them, the decoder emits the same fields and its table follows the encoder's. */
module HpackAgreement {
  import opened Bits
  import opened HeaderTable
  import opened DynamicTable
  import opened HpackString
  import opened Hpack
  import VarInt
  import Huffman

  // ---- What a search finds is what the index means ----

  /** An index that a search reports addresses, in Decoder.at, an entry with the same name, and with
      the same value if the search says so. */
  lemma SearchAt(fixed: seq<HeaderField>, ents: seq<HeaderField>, f: HeaderField)
    ensures var r := SearchTable(fixed, ents, f);
            r.index != 0 ==>
              var a := At(fixed, ents, r.index);
              a.Some? && a.value.name == f.name && (r.nameValueMatch ==> a.value.value == f.value)
  {
    hide NewestName, NewestPair;
  }

  // ---- Size of the tables ----

  lemma TableLength(ents: seq<HeaderField>)
    ensures 32 * |ents| <= Total(ents)
  {
  }

  // ---- One field ----

  /** A field whose strings are within the reader's limit and whose size is a 32-bit number. */
  ghost predicate FieldOk(maxStrLen: nat, f: HeaderField) {
    WithinLimit(maxStrLen, f.name) && WithinLimit(maxStrLen, f.value) && |f.name| + |f.value| + 32 < WORD
  }

  /** The decoder state after a field has been received and the table has become `tab`. */
  function Received(keep: Keep, d: Dec, f: HeaderField, tab: Tab): Dec {
    var fs := d.emitted + [f];
    if d.emitEnabled then d.(tab := tab, firstField := false, emitted := fs, emitEnabled := keep(fs))
    else d.(tab := tab, firstField := false)
  }

  ghost predicate Small(c: Shared, tab: Tab) {
    Exact(tab) && tab.maxSize <= 4096 && |c.fixed| < WORD
  }

  lemma IndexFits(c: Shared, tab: Tab, f: HeaderField)
    requires Small(c, tab)
    ensures SearchTable(c.fixed, tab.ents, f).index < Pow2(63)
  {
    TableLength(tab.ents);
    Pow2Values();
    Pow2Monotone(30, 63);
    assert Pow2(33) == 8 * Pow2(30) by {
      assert Pow2(31) == 2 * Pow2(30);
      assert Pow2(33) == 2 * Pow2(32);
    }
    Pow2Monotone(33, 63);
  }

  lemma Prefixes()
    ensures Pow2(7) == 128 && Pow2(6) == 64 && Pow2(5) == 32 && Pow2(4) == 16
  {
  }

  lemma FirstOctet(n: nat, flag: nat, i: nat, q: Str)
    requires 1 <= n <= 8 && flag + Pow2(n) <= 256
    ensures flag <= (VarInt.Flagged(n, flag, i) + q)[0] < flag + Pow2(n)
  {
  }

  lemma ParseIndexedField(c: Shared, keep: Keep, d: Dec, f: HeaderField, q: Str)
    requires Proper(c) && Small(c, d.tab) && FieldOk(d.maxStrLen, f)
    requires SearchTable(c.fixed, d.tab.ents, f).nameValueMatch
    ensures ParseRepr(c, keep, d, IndexedRecord(SearchTable(c.fixed, d.tab.ents, f).index) + q)
            == Extended(Received(keep, d, f, d.tab), d, q)
  {
    hide Huffman.WellFormed, Huffman.PrefixFree, Huffman.PaddingSafe, Pow2, VarInt.Read, VarInt.Flagged, SearchTable;
    hide At, Total;
    Prefixes();
    var i := SearchTable(c.fixed, d.tab.ents, f).index;
    IndexFits(c, d.tab, f);
    SearchAt(c.fixed, d.tab.ents, f);
    VarInt.RoundTrip(7, 0x80, i, q);
    FirstOctet(7, 0x80, i, q);
  }

  /** ParseRepr leaves the firstField flag to its caller. */
  function Extended(d': Dec, d: Dec, q: Str): Parse {
    Done(d'.(firstField := d.firstField), q)
  }

  lemma LiteralNewName(c: Shared, ents: seq<HeaderField>, maxStrLen: nat, want: bool, n: nat, flag: Byte,
                       f: HeaderField, q: Str)
    requires Proper(c) && FieldOk(maxStrLen, f) && 2 <= n <= 8 && flag % Pow2(n) == 0
    ensures ReadLiteral(c, ents, maxStrLen, want, n,
                        [flag] + EncodeString(c.code, f.name) + EncodeString(c.code, f.value) + q)
            == Literal(if want then f.name else [], if want then f.value else [], q)
  {
    hide Huffman.WellFormed, Huffman.PrefixFree, Huffman.PaddingSafe, ReadString, EncodeString, At, VarInt.Read, Pow2;
    var a, b := EncodeString(c.code, f.name), EncodeString(c.code, f.value);
    assert [flag] + a + b + q == [flag] + (a + (b + q));
    ZeroIndex(n, flag, a + (b + q));
    StringRoundTrip(c.code, maxStrLen, f.name, b + q, want);
    StringRoundTrip(c.code, maxStrLen, f.value, q, want);
  }

  lemma ZeroIndex(n: nat, flag: Byte, q: Str)
    requires 2 <= n <= 8 && flag % Pow2(n) == 0
    ensures VarInt.Read(n, [flag] + q) == VarInt.Value(0, q)
  {
    Pow2Monotone(2, n);
    assert Pow2(2) == 4;
    assert ([flag] + q)[1..] == q;
  }

  lemma LiteralIndexedName(c: Shared, ents: seq<HeaderField>, maxStrLen: nat, want: bool, n: nat, flag: nat, i: nat,
                           f: HeaderField, q: Str)
    requires Proper(c) && FieldOk(maxStrLen, f) && 1 <= n <= 8 && VarInt.Aligned(flag, n)
    requires 0 < i < Pow2(63) && At(c.fixed, ents, i).Some? && At(c.fixed, ents, i).value.name == f.name
    ensures ReadLiteral(c, ents, maxStrLen, want, n, VarInt.Flagged(n, flag, i) + EncodeString(c.code, f.value) + q)
            == Literal(f.name, if want then f.value else [], q)
  {
    hide Huffman.WellFormed, Huffman.PrefixFree, Huffman.PaddingSafe, ReadString, EncodeString, At, VarInt.Read;
    hide VarInt.Flagged;
    var b := EncodeString(c.code, f.value);
    VarInt.RoundTrip(n, flag, i, b + q);
    assert VarInt.Flagged(n, flag, i) + b + q == VarInt.Flagged(n, flag, i) + (b + q);
    StringRoundTrip(c.code, maxStrLen, f.value, q, want);
  }

  /** What a literal representation becomes. */
  lemma FinishLiteral(c: Shared, keep: Keep, d: Dec, buf: Str, n: nat, it: IndexType, f: HeaderField, q: Str,
                      name: Str, value: Str)
    requires Huffman.WellFormed(c.code) && 1 <= n <= 8 && FieldOk(d.maxStrLen, f)
    requires f.sensitive == it.IndexedNever?
    requires ReadLiteral(c, d.tab.ents, d.maxStrLen, d.emitEnabled || it.IndexedTrue?, n, buf) ==
               Literal(name, value, q)
    requires |name| <= |f.name| && |value| <= |f.value|
    requires d.emitEnabled || it.IndexedTrue? ==> name == f.name && value == f.value
    ensures ParseLiteral(c, keep, d, buf, n, it) ==
            Extended(Received(keep, d, f, if it.IndexedTrue? then Add(d.tab, f) else d.tab), d, q)
  {
    hide Huffman.WellFormed, ReadLiteral, Add;
  }

  function ItOf(indexing: bool, sensitive: bool): IndexType {
    if sensitive then IndexedNever else if indexing then IndexedTrue else IndexedFalse
  }

  /** A literal field of any of the three kinds is received with the table the encoder has. */
  lemma ParseNewName(c: Shared, keep: Keep, d: Dec, f: HeaderField, indexing: bool, q: Str)
    requires Proper(c) && FieldOk(d.maxStrLen, f) && (indexing ==> !f.sensitive)
    ensures ParseRepr(c, keep, d, NewNameRecord(c.code, f, indexing) + q) ==
            Extended(Received(keep, d, f, if indexing then Add(d.tab, f) else d.tab), d, q)
  {
    hide Huffman.WellFormed, Huffman.PrefixFree, Huffman.PaddingSafe, ReadLiteral, EncodeString, Pow2, FieldOk, Add;
    hide ParseLiteral;
    Prefixes();
    var it := ItOf(indexing, f.sensitive);
    var n := if indexing then 6 else 4;
    var buf := NewNameRecord(c.code, f, indexing) + q;
    var want := d.emitEnabled || it.IndexedTrue?;
    LiteralNewName(c, d.tab.ents, d.maxStrLen, want, n, TypeByte(indexing, f.sensitive), f, q);
    FinishLiteral(c, keep, d, buf, n, it, f, q, if want then f.name else [], if want then f.value else []);
    assert buf[0] == TypeByte(indexing, f.sensitive);
  }

  lemma ParseIndexedName(c: Shared, keep: Keep, d: Dec, f: HeaderField, i: nat, indexing: bool, q: Str)
    requires Proper(c) && FieldOk(d.maxStrLen, f) && (indexing ==> !f.sensitive)
    requires 0 < i < Pow2(63) && At(c.fixed, d.tab.ents, i).Some? && At(c.fixed, d.tab.ents, i).value.name == f.name
    ensures ParseRepr(c, keep, d, IndexedNameRecord(c.code, f, i, indexing) + q) ==
            Extended(Received(keep, d, f, if indexing then Add(d.tab, f) else d.tab), d, q)
  {
    hide Huffman.WellFormed, Huffman.PrefixFree, Huffman.PaddingSafe, ReadLiteral, EncodeString, Pow2, FieldOk, Add;
    hide ParseLiteral, At, VarInt.Flagged;
    Prefixes();
    var it := ItOf(indexing, f.sensitive);
    var n := if indexing then 6 else 4;
    var flag := TypeByte(indexing, f.sensitive);
    var buf := IndexedNameRecord(c.code, f, i, indexing) + q;
    var want := d.emitEnabled || it.IndexedTrue?;
    assert buf == VarInt.Flagged(n, flag, i) + EncodeString(c.code, f.value) + q;
    LiteralIndexedName(c, d.tab.ents, d.maxStrLen, want, n, flag, i, f, q);
    FinishLiteral(c, keep, d, buf, n, it, f, q, f.name, if want then f.value else []);
    FirstOctet(n, flag, i, EncodeString(c.code, f.value) + q);
    assert buf == VarInt.Flagged(n, flag, i) + (EncodeString(c.code, f.value) + q);
  }

  /** One field as the encoder writes it, without size records. */
  lemma ParseField(c: Shared, keep: Keep, e: Enc, d: Dec, f: HeaderField, q: Str)
    requires Proper(c) && Small(c, e.tab) && FieldOk(d.maxStrLen, f) && d.tab == e.tab
    ensures ParseRepr(c, keep, d, FieldBytes(c, e, f) + q) ==
            Extended(Received(keep, d, f, AfterField(c, e, f).tab), d, q)
  {
    hide Huffman.WellFormed, Huffman.PrefixFree, Huffman.PaddingSafe, Pow2, SearchTable, At, FieldOk, Add, ParseRepr;
    hide IndexedRecord, NewNameRecord, IndexedNameRecord, Received;
    var found := SearchTable(c.fixed, e.tab.ents, f);
    if found.nameValueMatch {
      ParseIndexedField(c, keep, d, f, q);
    } else if found.index == 0 {
      ParseNewName(c, keep, d, f, ShouldIndex(e, f), q);
    } else {
      SearchAt(c.fixed, e.tab.ents, f);
      IndexFits(c, e.tab, f);
      ParseIndexedName(c, keep, d, f, found.index, ShouldIndex(e, f), q);
    }
  }

  // ---- Staying in step ----

  /** Both tables are the same, up to a size record that is still to be written. */
  ghost predicate Synced(c: Shared, e: Enc, d: Dec) {
    && Small(c, e.tab) && e.minSize == UINT32_MAX && e.tab.maxSize <= d.allowedMax && d.saved == []
    && e.tab == (if e.tableSizeUpdate then SetMaxSize(d.tab, e.tab.maxSize) else d.tab)
  }

  lemma AddKeepsExact(c: Shared, e: Enc, f: HeaderField)
    requires Small(c, e.tab) && |f.name| + |f.value| + 32 < WORD
    ensures Small(c, AfterField(c, e, f).tab) && AfterField(c, e, f).tab.maxSize == e.tab.maxSize
  {
    hide Total, Evict, SearchTable;
    if ShouldIndex(e, f) { AddLongest(e.tab, f); }
  }

  lemma SizeRecordParses(c: Shared, keep: Keep, d: Dec, v: nat, q: Str)
    requires Huffman.WellFormed(c.code) && v <= d.allowedMax && v <= 4096 && (d.firstField || d.tab.size == 0)
    ensures ParseRepr(c, keep, d, TableSizeRecord(v) + q) == Done(d.(tab := SetMaxSize(d.tab, v)), q)
  {
    hide Huffman.WellFormed, Pow2, VarInt.Read, VarInt.Flagged, SetMaxSize;
    Pow2Values();
    Pow2Monotone(30, 63);
    Prefixes();
    VarInt.RoundTrip(5, 0x20, v, q);
    FirstOctet(5, 0x20, v, q);
  }

  /** The size record brings the decoder's table to the encoder's. */
  lemma RunUpdate(c: Shared, keep: Keep, e: Enc, d: Dec, q: Str)
    requires Proper(c) && Synced(c, e, d) && (e.tableSizeUpdate ==> d.firstField)
    ensures var d1 := if e.tableSizeUpdate then d.(tab := e.tab, firstField := false) else d;
            Run(c, keep, d, UpdateBytes(e) + q) == Run(c, keep, d1, q) && d1.tab == e.tab
  {
    hide Huffman.WellFormed, Huffman.PrefixFree, Huffman.PaddingSafe, ParseRepr, TableSizeRecord, SetMaxSize, Total;
    if e.tableSizeUpdate {
      assert UpdateBytes(e) == TableSizeRecord(e.tab.maxSize);
      SizeRecordParses(c, keep, d, e.tab.maxSize, q);
      var buf := TableSizeRecord(e.tab.maxSize) + q;
      assert buf != [];
    } else {
      assert UpdateBytes(e) + q == q;
    }
  }

  /** One call of WriteField: the decoder receives the field and is in step again. */
  lemma FieldStep(c: Shared, keep: Keep, e: Enc, d: Dec, f: HeaderField, q: Str)
    requires Proper(c) && Synced(c, e, d) && (e.tableSizeUpdate ==> d.firstField) && FieldOk(d.maxStrLen, f)
    ensures var (e', b) := WriteField(c, e, f);
            var d' := Received(keep, d, f, e'.tab);
            && Run(c, keep, d, b + q) == Run(c, keep, d', q)
            && Synced(c, e', d') && !e'.tableSizeUpdate
  {
    hide Huffman.WellFormed, Huffman.PrefixFree, Huffman.PaddingSafe, ParseRepr, UpdateBytes, FieldBytes, AfterField;
    hide SetMaxSize, Total;
    var e1 := Flushed(e);
    var a, b := UpdateBytes(e), FieldBytes(c, e1, f);
    assert a + b + q == a + (b + q);
    RunUpdate(c, keep, e, d, b + q);
    var d1 := if e.tableSizeUpdate then d.(tab := e.tab, firstField := false) else d;
    ParseField(c, keep, e1, d1, f, q);
    assert b + q != [];
    AddKeepsExact(c, e1, f);
    AfterFieldFlags(c, e1, f);
  }

  lemma AfterFieldFlags(c: Shared, e: Enc, f: HeaderField)
    ensures var e' := AfterField(c, e, f); e'.minSize == e.minSize && e'.tableSizeUpdate == e.tableSizeUpdate
  {
  }

  // ---- Whole blocks ----

  /** The fields the callback is given while it keeps emission on. */
  function Emit(keep: Keep, on: bool, em: seq<HeaderField>, fs: seq<HeaderField>): (bool, seq<HeaderField>)
    decreases |fs|
  {
    if fs == [] || !on then (on, em) else Emit(keep, keep(em + [fs[0]]), em + [fs[0]], fs[1..])
  }

  ghost predicate FieldsOk(maxStrLen: nat, fs: seq<HeaderField>) {
    forall i :: 0 <= i < |fs| ==> FieldOk(maxStrLen, fs[i])
  }

  function ReceivedAll(keep: Keep, d: Dec, fs: seq<HeaderField>, tab: Tab): Dec {
    var (on, em) := Emit(keep, d.emitEnabled, d.emitted, fs);
    if fs == [] then d else d.(tab := tab, firstField := false, emitEnabled := on, emitted := em)
  }

  /** A whole block: the decoder consumes all of it, gives the callback exactly the fields, in order,
      until it switches emission off, and ends with the encoder's table either way. */
  lemma {:induction false} BlockStep(c: Shared, keep: Keep, e: Enc, d: Dec, fs: seq<HeaderField>, q: Str)
    requires Proper(c) && Synced(c, e, d) && (e.tableSizeUpdate ==> d.firstField) && FieldsOk(d.maxStrLen, fs)
    ensures var (e', b) := WriteFields(c, e, fs);
            var d' := ReceivedAll(keep, d, fs, e'.tab);
            && Run(c, keep, d, b + q) == Run(c, keep, d', q)
            && Synced(c, e', d')
            && (fs != [] ==> !e'.tableSizeUpdate)
            && (fs == [] ==> e' == e)
    decreases |fs|
  {
    hide Proper, Synced, WriteField, Run, FieldOk;
    if fs == [] {
      assert [] + q == q;
    } else {
      var (e1, b) := WriteField(c, e, fs[0]);
      var (e2, bs) := WriteFields(c, e1, fs[1..]);
      assert b + bs + q == b + (bs + q);
      FieldStep(c, keep, e, d, fs[0], bs + q);
      var d1 := Received(keep, d, fs[0], e1.tab);
      BlockStep(c, keep, e1, d1, fs[1..], q);
      ReceivedCons(keep, d, fs, e1.tab, e2.tab);
    }
  }

  lemma ReceivedCons(keep: Keep, d: Dec, fs: seq<HeaderField>, tab1: Tab, tab: Tab)
    requires fs != [] && (fs[1..] == [] ==> tab1 == tab)
    ensures ReceivedAll(keep, Received(keep, d, fs[0], tab1), fs[1..], tab) == ReceivedAll(keep, d, fs, tab)
  {
  }

  // ---- Whole sessions ----

  /** What happens between and in header blocks. */
  datatype Op = Limit(v: nat) | Block(fields: seq<HeaderField>)

  ghost predicate OpOk(op: Op) {
    op.Block? ==> FieldsOk(0, op.fields)
  }

  /** DecodeFull of a block: the fields, or the error. */
  datatype Decoded = Fields(fs: seq<HeaderField>) | Error(e: HpackString.Error)

  function All(): Keep { _ => true }

  function DecodeFull(c: Shared, d: Dec, p: Str): (Dec, Decoded)
    requires Huffman.WellFormed(c.code)
  {
    var o := Write(c, All(), d.(emitted := []), p);
    match o.failure
    case Some(e) => (o.d, Error(e))
    case None =>
      var o' := Close(o.d);
      match o'.failure
      case Some(e) => (o'.d, Error(e))
      case None => (o'.d, Fields(o'.d.emitted))
  }

  function Step(c: Shared, e: Enc, d: Dec, op: Op): (Enc, Dec, seq<Decoded>)
    requires Huffman.WellFormed(c.code)
  {
    match op
    case Limit(v) => (SetLimit(e, v), d, [])
    case Block(fs) =>
      var (e', b) := WriteFields(c, e, fs);
      var (d', r) := DecodeFull(c, d, b);
      (e', d', [r])
  }

  /** All blocks of a session, encoded, decoded and collected. */
  function Session(c: Shared, e: Enc, d: Dec, ops: seq<Op>): (Enc, Dec, seq<Decoded>)
    requires Huffman.WellFormed(c.code)
    decreases |ops|
  {
    if ops == [] then (e, d, [])
    else
      var (e1, d1, r) := Step(c, e, d, ops[0]);
      var (e2, d2, rs) := Session(c, e1, d1, ops[1..]);
      (e2, d2, r + rs)
  }

  function Sent(ops: seq<Op>): seq<Decoded> {
    if ops == [] then [] else (match ops[0] case Limit(_) => [] case Block(fs) => [Fields(fs)]) + Sent(ops[1..])
  }

  /** Between blocks: in step, and ready for the first field of the next one. */
  ghost predicate Ready(c: Shared, e: Enc, d: Dec) {
    Synced(c, e, d) && d.firstField && d.emitEnabled && d.maxStrLen == 0
  }

  lemma {:induction false} EmitAll(em: seq<HeaderField>, fs: seq<HeaderField>)
    ensures Emit(All(), true, em, fs) == (true, em + fs)
    decreases |fs|
  {
    if fs == [] {
      assert em + fs == em;
    } else {
      EmitAll(em + [fs[0]], fs[1..]);
      assert em + [fs[0]] + fs[1..] == em + fs;
    }
  }

  lemma BlockAgrees(c: Shared, e: Enc, d: Dec, fs: seq<HeaderField>)
    requires Proper(c) && Ready(c, e, d) && FieldsOk(0, fs)
    ensures var (e', b) := WriteFields(c, e, fs);
            var (d', r) := DecodeFull(c, d, b);
            && r == Fields(fs) && Ready(c, e', d')
            && (fs != [] ==> d'.tab == e'.tab)
  {
    hide WriteFields, ParseRepr, FieldsOk, Huffman.Good, SetMaxSize, Total;
    var (e', b) := WriteFields(c, e, fs);
    var d0 := d.(emitted := []);
    BlockStep(c, All(), e, d0, fs, []);
    EmitAll([], fs);
    assert [] + fs == fs;
    assert b + [] == b && d0.saved + b == b && d0.(saved := []) == d0;
    if fs == [] { EmptyBlock(c, e); }
  }

  lemma EmptyBlock(c: Shared, e: Enc)
    ensures WriteFields(c, e, []).1 == []
  {
  }

  lemma LimitKeepsSync(c: Shared, e: Enc, d: Dec, v: nat)
    requires Synced(c, e, d)
    ensures Synced(c, SetLimit(e, v), d)
  {
    hide Evict, Total;
    if e.tab.maxSize > v {
      SetMaxLongest(e.tab, v);
      if e.tableSizeUpdate { EvictTwice(d.tab, e.tab.maxSize, v); }
    }
  }

  /** Every block of the session decodes to exactly the fields sent, and after a block that is not empty both
      tables, with their sizes, are the same. */
  ghost predicate InAgreement(c: Shared, e: Enc, d: Dec, ops: seq<Op>)
    requires Huffman.WellFormed(c.code)
  {
    var (e', d', rs) := Session(c, e, d, ops);
    && rs == Sent(ops)
    && (ops != [] && ops[|ops| - 1].Block? && ops[|ops| - 1].fields != [] ==> d'.tab == e'.tab)
  }

  /** HPACK agreement: for every sequence of header blocks and limits, every block decodes to exactly
      the fields that were written, and the ends stay in step. */
  lemma {:induction false} SessionAgrees(c: Shared, e: Enc, d: Dec, ops: seq<Op>)
    requires Proper(c) && Ready(c, e, d) && (forall i :: 0 <= i < |ops| ==> OpOk(ops[i]))
    ensures InAgreement(c, e, d, ops) && Ready(c, Session(c, e, d, ops).0, Session(c, e, d, ops).1)
    decreases |ops|
  {
    hide Proper, Ready, Step, Session, Sent, OpOk, Huffman.WellFormed;
    ProperCode(c);
    SessionIs(c, e, d, ops);
    if ops != [] {
      StepAgrees(c, e, d, ops[0]);
      var (e1, d1, r) := Step(c, e, d, ops[0]);
      SessionAgrees(c, e1, d1, ops[1..]);
      SessionIs(c, e1, d1, ops[1..]);
    }
  }

  lemma ProperCode(c: Shared)
    requires Proper(c)
    ensures Huffman.WellFormed(c.code)
  {
  }

  lemma SessionIs(c: Shared, e: Enc, d: Dec, ops: seq<Op>)
    requires Huffman.WellFormed(c.code)
    ensures ops == [] ==> Session(c, e, d, ops) == (e, d, []) && Sent(ops) == []
    ensures ops != [] ==>
              var (e1, d1, r) := Step(c, e, d, ops[0]);
              var (e2, d2, rs) := Session(c, e1, d1, ops[1..]);
              Session(c, e, d, ops) == (e2, d2, r + rs)
    ensures ops != [] ==>
              Sent(ops) == (if ops[0].Block? then [Fields(ops[0].fields)] else []) + Sent(ops[1..])
  {
    hide Step, Huffman.WellFormed;
  }

  /** One operation: a block decodes to its fields, a limit to nothing, and the ends stay in step. */
  lemma StepAgrees(c: Shared, e: Enc, d: Dec, op: Op)
    requires Proper(c) && Ready(c, e, d) && OpOk(op)
    ensures Huffman.WellFormed(c.code)
    ensures var (e', d', r) := Step(c, e, d, op);
            && r == (if op.Block? then [Fields(op.fields)] else []) && Ready(c, e', d')
            && (op.Block? && op.fields != [] ==> d'.tab == e'.tab)
  {
    hide Proper, Ready, WriteFields, DecodeFull, FieldsOk, SetLimit, Huffman.WellFormed;
    ProperCode(c);
    match op
    case Limit(v) => ReadyAfterLimit(c, e, d, v);
    case Block(fs) => BlockAgrees(c, e, d, fs);
  }

  lemma ReadyAfterLimit(c: Shared, e: Enc, d: Dec, v: nat)
    requires Ready(c, e, d)
    ensures Ready(c, SetLimit(e, v), d)
  {
    LimitKeepsSync(c, e, d, v);
  }

  /** A new encoder and a decoder started at the default table size are in step. */
  lemma StartsReady(c: Shared)
    requires Proper(c) && |c.fixed| < WORD
    ensures Ready(c, NewEnc(), NewDec(4096))
  {
  }

  // ---- Where agreement ends ----

  /** After a shrink and a growth the encoder writes two size records. The decoder accepts the pair
      exactly when the smaller size leaves its table empty; section 4.2 of RFC 7541 allows both. */
  lemma DoubleUpdate(c: Shared, keep: Keep, e: Enc, d: Dec, q: Str)
    requires Proper(c) && d.firstField && e.tableSizeUpdate && e.minSize < e.tab.maxSize <= 4096 <= d.allowedMax
    ensures var t := SetMaxSize(d.tab, e.minSize);
            Run(c, keep, d, UpdateBytes(e) + q) ==
            if t.size > 0 then Outcome(d.(tab := t, firstField := false), Some(SizeUpdateNotFirst))
            else Run(c, keep, d.(tab := SetMaxSize(t, e.tab.maxSize), firstField := false), q)
  {
    hide Huffman.WellFormed, Huffman.PrefixFree, Huffman.PaddingSafe, TableSizeRecord, SetMaxSize, ParseRepr;
    var a, b := TableSizeRecord(e.minSize), TableSizeRecord(e.tab.maxSize);
    assert UpdateBytes(e) + q == a + (b + q);
    SizeRecordParses(c, keep, d, e.minSize, b + q);
    var d1 := d.(tab := SetMaxSize(d.tab, e.minSize), firstField := false);
    assert a + (b + q) != [];
    if d1.tab.size > 0 {
      RefusedRecord(c, keep, d1, e.tab.maxSize, q);
    } else {
      SizeRecordParses(c, keep, d1, e.tab.maxSize, q);
      assert b + q != [];
    }
  }

  lemma RefusedRecord(c: Shared, keep: Keep, d: Dec, v: nat, q: Str)
    requires Huffman.WellFormed(c.code) && !d.firstField && d.tab.size > 0
    ensures Run(c, keep, d, TableSizeRecord(v) + q) == Outcome(d, Some(SizeUpdateNotFirst))
  {
    hide Huffman.WellFormed, VarInt.Flagged, Pow2;
    Prefixes();
    FirstOctet(5, 0x20, v, q);
  }

  lemma NothingEvicted(t: Tab)
    requires t.size <= t.maxSize
    ensures Evict(t) == t
  {
  }

  lemma Add32Zero(n: nat)
    requires n < WORD
    ensures Add32(0, n) == n
  {
  }

  lemma AddFirst(t: Tab, f: HeaderField)
    requires t.ents == [] && t.size == 0 && t.maxSize >= Size(f)
    ensures Add(t, f).size == Size(f) && Add(t, f).maxSize == t.maxSize
  {
    hide Evict, Size, Add32;
    Add32Zero(Size(f));
    NothingEvicted(Tab(t.ents + [f], Size(f), t.maxSize));
  }

  lemma ShrinkAndGrow(e: Enc, small: nat, large: nat)
    requires 0 < e.tab.size <= small < large <= e.maxSizeLimit && small < e.minSize
    ensures var e2 := SetMaxDynamic(SetMaxDynamic(e, small), large);
            && e2.tableSizeUpdate && e2.minSize == small && e2.tab.maxSize == large
            && SetMaxSize(e.tab, small) == e.tab.(maxSize := small)
  {
    hide Evict;
    NothingEvicted(e.tab.(maxSize := small));
    NothingEvicted(e.tab.(maxSize := small).(maxSize := large));
  }

  /** On a new connection: a block with one field that is indexed, a shrink that still holds it and a growth;
      then the decoder refuses the next block, whatever its field. */
  lemma DoubleUpdateExample(c: Shared, keep: Keep, f: HeaderField, small: nat, large: nat, next: HeaderField)
    requires Proper(c) && |c.fixed| < WORD && FieldOk(0, f) && !f.sensitive && Size(f) <= small < large <= 4096
    requires !SearchTable(c.fixed, [], f).nameValueMatch
    ensures var (e, b) := WriteField(c, NewEnc(), f);
            var o := Write(c, keep, NewDec(4096), b);
            var b2 := WriteField(c, SetMaxDynamic(SetMaxDynamic(e, small), large), next).1;
            && o.failure.None? && Close(o.d).failure.None?
            && Write(c, keep, Close(o.d).d, b2).failure == Some(SizeUpdateNotFirst)
  {
    hide Huffman.WellFormed, Huffman.PrefixFree, Huffman.PaddingSafe, Run, UpdateBytes, FieldBytes, SearchTable, Add;
    hide SetMaxSize, Evict, Pow2, Total, FieldOk;
    var e0, d0 := NewEnc(), NewDec(4096);
    var (e, b) := WriteField(c, e0, f);
    StartsReady(c);
    FieldStep(c, keep, e0, d0, f, []);
    var d := Received(keep, d0, f, e.tab);
    assert b + [] == b && d0.saved + b == b && d0.(saved := []) == d0;
    RunNothing(c, keep, d);
    WriteSomething(c, e0, f);
    SizePositive(f);
    AddFirst(e0.tab, f);
    ShrinkAndGrow(e, small, large);
    var e2 := SetMaxDynamic(SetMaxDynamic(e, small), large);
    var d1 := d.(firstField := true);
    DoubleUpdate(c, keep, e2, d1, FieldBytes(c, Flushed(e2), next));
    WriteSomething(c, e2, next);
    var b2 := WriteField(c, e2, next).1;
    assert d1.saved + b2 == b2 && d1.(saved := []) == d1;
  }

  lemma SizePositive(f: HeaderField)
    requires FieldOk(0, f)
    ensures Size(f) > 0
  {
    hide Pow2;
  }

  lemma RunNothing(c: Shared, keep: Keep, d: Dec)
    requires Huffman.WellFormed(c.code)
    ensures Run(c, keep, d, []) == Outcome(d, None)
  {
  }

  lemma WriteSomething(c: Shared, e: Enc, f: HeaderField)
    ensures WriteField(c, e, f).1 != []
  {
  }
}
