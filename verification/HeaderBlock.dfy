/** A header list, encoded, split into frames, read back, merged and decoded. */
module HeaderBlock {
  import opened Bits
  import opened HeaderTable
  import DynamicTable
  import HpackString
  import VarInt
  import Huffman
  import opened Hpack
  import opened HpackCut
  import opened HpackAgreement
  import HpackTruncation
  import Frames
  import opened FrameRoundTrip
  import opened MetaHeaders

  // ---- The shape of a split block ----

  /** The fragments of a split block. */
  function Pieces(block: Str, maxFrameSize: nat): (r: seq<Str>)
    requires maxFrameSize >= 1
    decreases |block|
  {
    if |block| <= maxFrameSize then [block] else [block[..maxFrameSize]] + Pieces(block[maxFrameSize..], maxFrameSize)
  }

  lemma {:induction false} PiecesJoin(block: Str, maxFrameSize: nat)
    requires maxFrameSize >= 1
    ensures Join(Pieces(block, maxFrameSize)) == block
    decreases |block|
  {
    var ps := Pieces(block, maxFrameSize);
    if |block| <= maxFrameSize {
      assert ps[1..] == [] && block + [] == block;
    } else {
      PiecesJoin(block[maxFrameSize..], maxFrameSize);
      assert ps[1..] == Pieces(block[maxFrameSize..], maxFrameSize);
    }
  }

  /** Every frame holds its piece of the block; only the first is HEADERS and may end the stream; only
      the last ends the headers. */
  lemma {:induction false} SplitShape(id: Frames.U32, endStream: bool, block: Str, maxFrameSize: nat, first: bool)
    requires maxFrameSize >= 1
    ensures var qs, ps := SplitBlock(id, endStream, block, maxFrameSize, first), Pieces(block, maxFrameSize);
            && |qs| == |ps|
            && forall i :: 0 <= i < |qs| ==>
                 && |ps[i]| <= maxFrameSize
                 && qs[i] ==
                    if first && i == 0 then
                      Frames.WriteHeaders(id, ps[i], endStream, i == |qs| - 1, 0, Frames.NO_PRIORITY)
                    else Frames.WriteContinuation(id, i == |qs| - 1, ps[i])
    decreases |block|
  {
    if |block| > maxFrameSize {
      var rest := block[maxFrameSize..];
      SplitShape(id, endStream, rest, maxFrameSize, false);
      SplitIs(id, endStream, block, maxFrameSize, first);
      hide SplitBlock, Pieces;
      var qs, ps := SplitBlock(id, endStream, block, maxFrameSize, first), Pieces(block, maxFrameSize);
      var qs1, ps1 := SplitBlock(id, endStream, rest, maxFrameSize, false), Pieces(rest, maxFrameSize);
      assert forall i :: 1 <= i < |qs| ==> qs[i] == qs1[i - 1] && ps[i] == ps1[i - 1];
    }
  }

  lemma SplitIs(id: Frames.U32, endStream: bool, block: Str, maxFrameSize: nat, first: bool)
    requires 1 <= maxFrameSize < |block|
    ensures var rest := block[maxFrameSize..];
            && SplitBlock(id, endStream, block, maxFrameSize, first) ==
                 [HeadRequest(id, endStream, block, maxFrameSize, first)] +
                 SplitBlock(id, endStream, rest, maxFrameSize, false)
            && Pieces(block, maxFrameSize) == [block[..maxFrameSize]] + Pieces(rest, maxFrameSize)
  {
    hide HeadRequest;
  }

  lemma {:induction false} SplitContiguous(id: Frames.U32, endStream: bool, block: Str, maxFrameSize: nat, first: bool)
    requires maxFrameSize >= 1 && id > 0
    ensures var qs := SplitBlock(id, endStream, block, maxFrameSize, first); var open: nat := if first then 0 else id;
            Contiguous(qs, open) && OpenAfterAll(qs, open) == 0
    decreases |block|
  {
    if |block| > maxFrameSize {
      SplitContiguous(id, endStream, block[maxFrameSize..], maxFrameSize, false);
      var qs := SplitBlock(id, endStream, block, maxFrameSize, first);
      assert qs[1..] == SplitBlock(id, endStream, block[maxFrameSize..], maxFrameSize, false);
    } else {
      var qs := SplitBlock(id, endStream, block, maxFrameSize, first);
      assert qs[1..] == [];
    }
  }

  lemma SplitSendable(id: Frames.U32, endStream: bool, block: Str, maxFrameSize: nat, first: bool, maxReadSize: nat)
    requires 1 <= maxFrameSize <= maxReadSize && maxFrameSize < Frames.MAX_FRAME && Frames.ValidId(id)
    ensures AllSendable(SplitBlock(id, endStream, block, maxFrameSize, first), maxReadSize)
  {
    SplitShape(id, endStream, block, maxFrameSize, first);
    var qs, ps := SplitBlock(id, endStream, block, maxFrameSize, first), Pieces(block, maxFrameSize);
    forall i | 0 <= i < |qs| ensures Sendable(qs[i], maxReadSize) {
      FragmentSendable(qs[i], ps[i], maxFrameSize, maxReadSize);
    }
  }

  lemma FragmentSendable(q: Frames.Request, p: Str, maxFrameSize: nat, maxReadSize: nat)
    requires (q.WriteHeaders? && q.padLength == 0 && q.priority == Frames.NO_PRIORITY) || q.WriteContinuation?
    requires q.fragment == p && |p| <= maxFrameSize <= maxReadSize && maxFrameSize < Frames.MAX_FRAME
    requires Frames.ValidId(q.id)
    ensures Sendable(q, maxReadSize) && Frames.Payload(q) == p
  {
    if q.WriteHeaders? {
      assert [] + ([] + (p + Frames.PadZeros(0))) == p;
    }
  }

  // ---- Reading the frames of a block ----

  /** The bytes of the continuations that follow the first fragment, and of what comes after. */
  ghost function Following(id: Frames.U32, endStream: bool, block: Str, maxFrameSize: nat, maxReadSize: nat,
                           tail: Str): Str
    requires 1 <= maxFrameSize <= maxReadSize && maxFrameSize < Frames.MAX_FRAME && Frames.ValidId(id)
  {
    if |block| <= maxFrameSize then tail
    else
      var rest := block[maxFrameSize..];
      SplitSendable(id, endStream, rest, maxFrameSize, false, maxReadSize);
      WriteAll(SplitBlock(id, endStream, rest, maxFrameSize, false), maxReadSize) + tail
  }

  /** A frame at the front of the input is read and passes the order check. */
  lemma ReadSent(q: Frames.Request, open: nat, maxReadSize: nat, after: Str)
    requires Sendable(q, maxReadSize) && (q.WriteHeaders? || q.WriteContinuation?)
    requires if open == 0 then !q.WriteContinuation? else q.WriteContinuation? && q.id == open
    ensures Frames.Accepts(q)
    ensures Frames.ReadFrame(Frames.Write(q).value + after, open, maxReadSize) ==
            Frames.Ok(Frames.Step(FrameOf(q), after, if q.endHeaders then 0 else q.id))
    ensures Frames.Has(FrameOf(q).h.flags, Frames.END_HEADERS) == q.endHeaders
  {
    SendableAccepts(q, maxReadSize);
    hide Frames.Payload, Frames.Write, Frames.CheckOrder, Frames.ReadRaw, Frames.Accepts, Content, Frames.FlagsOf;
    hide Frames.Has;
    ReadWrite(q, after, maxReadSize);
    OrderAccepts(q, open);
    EndHeadersFlag(q);
  }

  lemma WriteAllHead(qs: seq<Frames.Request>, maxReadSize: nat, tail: Str)
    requires qs != [] && AllSendable(qs, maxReadSize)
    ensures Sendable(qs[0], maxReadSize) && AllSendable(qs[1..], maxReadSize) && Frames.Write(qs[0]).Ok?
    ensures WriteAll(qs, maxReadSize) + tail == Frames.Write(qs[0]).value + (WriteAll(qs[1..], maxReadSize) + tail)
  {
    hide Frames.Write, Frames.Payload;
    assert forall i :: 0 <= i < |qs[1..]| ==> qs[1..][i] == qs[i + 1];
  }

  /** One frame of a split block is read, and leaves the frames that follow. */
  lemma ReadOne(id: Frames.U32, endStream: bool, block: Str, maxFrameSize: nat, first: bool, maxReadSize: nat,
                tail: Str)
    requires 1 <= maxFrameSize <= maxReadSize && maxFrameSize < Frames.MAX_FRAME && Frames.ValidId(id)
    ensures AllSendable(SplitBlock(id, endStream, block, maxFrameSize, first), maxReadSize)
    ensures var q := HeadRequest(id, endStream, block, maxFrameSize, first); var ended := |block| <= maxFrameSize;
            && Frames.Accepts(q) && Frames.Has(FrameOf(q).h.flags, Frames.END_HEADERS) == ended
            && Frames.ReadFrame(WriteAll(SplitBlock(id, endStream, block, maxFrameSize, first), maxReadSize) + tail,
                                if first then 0 else id, maxReadSize) ==
               Frames.Ok(Frames.Step(FrameOf(q), Following(id, endStream, block, maxFrameSize, maxReadSize, tail),
                                     if ended then 0 else id))
  {
    hide Frames.ReadFrame, Frames.Accepts, Frames.Payload, Frames.Write, Content, Frames.FlagsOf, Sendable;
    hide SplitBlock, Frames.Has, FrameOf;
    var qs := SplitBlock(id, endStream, block, maxFrameSize, first);
    SplitSendable(id, endStream, block, maxFrameSize, first, maxReadSize);
    SplitTail(id, endStream, block, maxFrameSize, first);
    var after := WriteAll(qs[1..], maxReadSize) + tail;
    WriteAllHead(qs, maxReadSize, tail);
    ReadSent(qs[0], if first then 0 else id, maxReadSize, after);
    assert after == Following(id, endStream, block, maxFrameSize, maxReadSize, tail) by {
      if |block| <= maxFrameSize { assert WriteAll([], maxReadSize) + tail == tail; }
    }
  }

  lemma SplitTail(id: Frames.U32, endStream: bool, block: Str, maxFrameSize: nat, first: bool)
    requires maxFrameSize >= 1
    ensures var qs := SplitBlock(id, endStream, block, maxFrameSize, first);
            && qs != [] && qs[0] == HeadRequest(id, endStream, block, maxFrameSize, first)
            && qs[1..] == if |block| <= maxFrameSize then []
                 else SplitBlock(id, endStream, block[maxFrameSize..], maxFrameSize, false)
  {
  }

  lemma SendableAccepts(q: Frames.Request, maxReadSize: nat)
    requires Sendable(q, maxReadSize)
    ensures Frames.Accepts(q) && Frames.Write(q).Ok? && |Frames.Payload(q)| <= maxReadSize
  {
  }

  /** Merging the frames feeds the decoder the pieces of the block. */
  lemma {:induction false} MergeFeeds(c: Shared, keep: Keep, d: Dec, id: Frames.U32, endStream: bool, block: Str,
                                      maxFrameSize: nat, maxReadSize: nat, tail: Str)
    requires Huffman.WellFormed(c.code)
    requires 1 <= maxFrameSize <= maxReadSize && maxFrameSize < Frames.MAX_FRAME && Frames.ValidId(id)
    requires Feed(c, keep, d, Pieces(block, maxFrameSize)).failure.None?
    ensures var ended := |block| <= maxFrameSize;
            ReadBlock(c, keep, d, if ended then block else block[..maxFrameSize], ended,
                      Following(id, endStream, block, maxFrameSize, maxReadSize, tail),
                      if ended then 0 else id, maxReadSize) ==
            BlockOutcome(Feed(c, keep, d, Pieces(block, maxFrameSize)).d, 0, tail, None)
    decreases |block|
  {
    hide Huffman.WellFormed, Write, Frames.ReadFrame, WriteAll, Frames.Accepts, Frames.Payload, Frames.FlagsOf;
    hide SplitBlock, Frames.Has;
    var ps := Pieces(block, maxFrameSize);
    if |block| <= maxFrameSize {
      assert ps[1..] == [];
    } else {
      var rest := block[maxFrameSize..];
      assert ps[1..] == Pieces(rest, maxFrameSize);
      ReadOne(id, endStream, rest, maxFrameSize, false, maxReadSize, tail);
      assert rest[..|rest|] == rest;
      MergeFeeds(c, keep, Write(c, keep, d, ps[0]).d, id, endStream, rest, maxFrameSize, maxReadSize, tail);
    }
  }

  // ---- Representations of an encoder are never suspiciously long ----

  lemma FieldLength(c: Shared, e: Enc, f: HeaderField, maxStrLen: nat)
    requires Small(c, e.tab) && FieldOk(maxStrLen, f) && maxStrLen > 0
    ensures |FieldBytes(c, e, f)| <= 2 * (maxStrLen + 8)
  {
    hide HpackString.EncodeString, SearchTable, Pow2, VarInt.Flagged;
    var i := SearchTable(c.fixed, e.tab.ents, f).index;
    IndexWord(c, e, f);
    Prefixes();
    FlaggedLength(7, 0x80, i);
    FlaggedLength(6, 0x40, i);
    FlaggedLength(4, 0, i);
    FlaggedLength(4, 0x10, i);
    HpackString.EncodedLength(c.code, f.name);
    HpackString.EncodedLength(c.code, f.value);
  }

  lemma IndexWord(c: Shared, e: Enc, f: HeaderField)
    requires Small(c, e.tab)
    ensures SearchTable(c.fixed, e.tab.ents, f).index < 0x1_0000_0000 + 0x1_0000
  {
    TableLength(e.tab.ents);
  }

  lemma FlaggedLength(n: nat, flag: nat, i: nat)
    requires 1 <= n <= 8 && flag + Pow2(n) <= 256 && i < 0x8_0000_0000
    ensures |VarInt.Flagged(n, flag, i)| <= 6
  {
    HpackString.VarIntLength(n, i);
  }

  lemma UpdateShort(c: Shared, keep: Keep, e: Enc, d: Dec, q: Str)
    requires Proper(c) && Synced(c, e, d) && (e.tableSizeUpdate ==> d.firstField)
    requires Short(c, keep, if e.tableSizeUpdate then d.(tab := e.tab, firstField := false) else d, q)
    ensures Short(c, keep, d, UpdateBytes(e) + q)
  {
    hide Huffman.WellFormed, Huffman.PrefixFree, Huffman.PaddingSafe, ParseRepr, DynamicTable.SetMaxSize;
    hide DynamicTable.Total, VarInt.Flagged, Pow2;
    if e.tableSizeUpdate {
      assert UpdateBytes(e) == TableSizeRecord(e.tab.maxSize);
      SizeRecordParses(c, keep, d, e.tab.maxSize, q);
      Prefixes();
      FlaggedLength(5, 0x20, e.tab.maxSize);
      var buf := TableSizeRecord(e.tab.maxSize) + q;
      assert buf != [];
    } else {
      assert UpdateBytes(e) + q == q;
    }
  }

  /** One call of WriteField adds representations that the reader's limit allows. */
  lemma FieldShort(c: Shared, keep: Keep, e: Enc, d: Dec, f: HeaderField, q: Str)
    requires Proper(c) && Synced(c, e, d) && (e.tableSizeUpdate ==> d.firstField) && FieldOk(d.maxStrLen, f)
    requires d.maxStrLen > 0
    requires Short(c, keep, Received(keep, d, f, WriteField(c, e, f).0.tab), q)
    ensures Short(c, keep, d, WriteField(c, e, f).1 + q)
  {
    hide Huffman.WellFormed, Huffman.PrefixFree, Huffman.PaddingSafe, ParseRepr, UpdateBytes, FieldBytes, AfterField;
    hide DynamicTable.SetMaxSize, DynamicTable.Total, FieldOk;
    var e1 := Flushed(e);
    var a, b := UpdateBytes(e), FieldBytes(c, e1, f);
    assert a + b + q == a + (b + q);
    var d1 := if e.tableSizeUpdate then d.(tab := e.tab, firstField := false) else d;
    RunUpdate(c, keep, e, d, []);
    ParseField(c, keep, e1, d1, f, q);
    FieldLength(c, e1, f, d.maxStrLen);
    assert b + q != [];
    UpdateShort(c, keep, e, d, b + q);
  }

  lemma {:induction false} BlockShort(c: Shared, keep: Keep, e: Enc, d: Dec, fs: seq<HeaderField>)
    requires Proper(c) && Synced(c, e, d) && (e.tableSizeUpdate ==> d.firstField) && FieldsOk(d.maxStrLen, fs)
    requires d.maxStrLen > 0
    ensures Short(c, keep, d, WriteFields(c, e, fs).1)
    decreases |fs|
  {
    hide Proper, Synced, WriteField, FieldOk, Huffman.WellFormed;
    if fs != [] {
      var (e1, b) := WriteField(c, e, fs[0]);
      FieldStep(c, keep, e, d, fs[0], []);
      var d1 := Received(keep, d, fs[0], e1.tab);
      BlockShort(c, keep, e1, d1, fs[1..]);
      FieldShort(c, keep, e, d, fs[0], WriteFields(c, e1, fs[1..]).1);
    }
  }

  // ---- What the callback keeps ----

  /** The size of a list as the reader counts it, in the 32-bit sizes of its fields. */
  function ListSize(fs: seq<HeaderField>): nat
    decreases |fs|
  {
    if fs == [] then 0 else ListSize(fs[..|fs| - 1]) + DynamicTable.Size(fs[|fs| - 1])
  }

  lemma FoldSnoc(limit: nat, fs: seq<HeaderField>, f: HeaderField)
    ensures Fold(limit, fs + [f]) == Callback(Fold(limit, fs), f)
    ensures ListSize(fs + [f]) == ListSize(fs) + DynamicTable.Size(f)
  {
    var s := fs + [f];
    assert s[..|s| - 1] == fs && s[|s| - 1] == f;
  }

  /** As long as emission is on, every field given was kept. */
  ghost predicate Kept(limit: nat, em: seq<HeaderField>) {
    var m := Fold(limit, em);
    m.fields == em && m.remain + ListSize(em) == limit && !m.invalid && !m.truncated
  }

  /** Once it is off, the last field given was invalid or did not fit; the ones before were kept. */
  ghost predicate Stopped(limit: nat, em: seq<HeaderField>) {
    var m := Fold(limit, em);
    && em != [] && m.fields == em[..|em| - 1] && ListSize(m.fields) <= limit
    && (m.invalid != m.truncated) && (m.truncated ==> ListSize(em) > limit)
  }

  lemma {:induction false} EmitKeeps(limit: nat, em: seq<HeaderField>, fs: seq<HeaderField>)
    requires Kept(limit, em)
    ensures var (on, em') := Emit(Keeping(limit), true, em, fs);
            if on then em' == em + fs && Kept(limit, em') else em' <= em + fs && Stopped(limit, em')
    decreases |fs|
  {
    if fs == [] {
      assert em + fs == em;
    } else {
      var e1 := em + [fs[0]];
      FoldSnoc(limit, em, fs[0]);
      assert e1[..|em|] == em;
      assert em + fs == e1 + fs[1..];
      if Keeping(limit)(e1) {
        hide Fold, ListSize;
        EmitKeeps(limit, e1, fs[1..]);
      } else {
        hide Fold;
        assert Emit(Keeping(limit), true, em, fs) == (false, e1);
      }
    }
  }

  // ---- End to end ----

  /** The decoder at the start of a block, as readMetaFrame sets it up. */
  function Prepared(r: Reader): Dec {
    r.dec.(emitEnabled := true, maxStrLen := ListLimit(r), emitted := [])
  }

  /** Between blocks both ends are in step and the reader expects a new block. */
  ghost predicate InStep(c: Shared, e: Enc, r: Reader) {
    Synced(c, e, r.dec) && r.dec.firstField && r.lastHeaderStream == 0
  }

  lemma WholeBlock(c: Shared, keep: Keep, e: Enc, d: Dec, fs: seq<HeaderField>)
    requires Proper(c) && Synced(c, e, d) && d.firstField && d.emitEnabled && d.emitted == []
    requires FieldsOk(d.maxStrLen, fs)
    ensures var (e', b) := WriteFields(c, e, fs);
            var o := Write(c, keep, d, b);
            && o.failure.None? && Synced(c, e', o.d) && o.d.saved == [] && o.d.emitted == Emit(keep, true, [], fs).1
            && o.d.maxStrLen == d.maxStrLen && o.d.allowedMax == d.allowedMax
  {
    hide WriteFields, ParseRepr, FieldsOk, Huffman.Good, DynamicTable.SetMaxSize, DynamicTable.Total, Small;
    var (e', b) := WriteFields(c, e, fs);
    BlockStep(c, keep, e, d, fs, []);
    assert b + [] == b && d.saved + b == b && d.(saved := []) == d;
    if fs == [] { EmptyBlock(c, e); }
  }

  lemma FedBlock(c: Shared, keep: Keep, e: Enc, d: Dec, fs: seq<HeaderField>, maxFrameSize: nat)
    requires Proper(c) && Synced(c, e, d) && d.firstField && FieldsOk(d.maxStrLen, fs) && d.maxStrLen > 0
    requires maxFrameSize >= 1
    ensures var b := WriteFields(c, e, fs).1; Feed(c, keep, d, Pieces(b, maxFrameSize)) == Write(c, keep, d, b)
  {
    hide Write, Feed, Short, Cuttable, Run, Huffman.WellFormed, WriteFields, DynamicTable.SetMaxSize, Small, FieldsOk;
    var b := WriteFields(c, e, fs).1;
    BlockShort(c, keep, e, d, fs);
    BlockStep(c, keep, e, d, fs, []);
    RunEmpty(c, keep, ReceivedAll(keep, d, fs, WriteFields(c, e, fs).0.tab));
    assert b + [] == b;
    CuttableIsShort(c, keep, d, b);
    PiecesJoin(b, maxFrameSize);
    assert d.(saved := []) == d && d.saved + b == b;
    CutIndependence(c, keep, d, Pieces(b, maxFrameSize));
  }

  /** The octets of a header list. */
  ghost function BlockFrames(c: Shared, e: Enc, fs: seq<HeaderField>, id: Frames.U32, endStream: bool,
                             maxFrameSize: nat, maxReadSize: nat): Str
    requires 1 <= maxFrameSize <= maxReadSize && maxFrameSize < Frames.MAX_FRAME && Frames.ValidId(id)
  {
    var b := WriteFields(c, e, fs).1;
    SplitSendable(id, endStream, b, maxFrameSize, true, maxReadSize);
    WriteAll(SplitBlock(id, endStream, b, maxFrameSize, true), maxReadSize)
  }

  /** What the reader makes of a header list that reaches it. */
  function Verdict(limit: nat, h: Frames.Header, fs: seq<HeaderField>): Frames.Result<Item> {
    var m := Fold(limit, Emit(Keeping(limit), true, [], fs).1);
    if m.invalid || !PseudosOk(PseudoFields(m.fields)) then Frames.Err(Frames.StreamError(h.id, Frames.PROTOCOL_ERROR))
    else Frames.Ok(MetaItem(MetaFrame(h, Frames.NO_PRIORITY, m.fields, m.truncated)))
  }

  lemma MergedMeta(c: Shared, e: Enc, r: Reader, fs: seq<HeaderField>, id: Frames.U32, endStream: bool,
                   maxFrameSize: nat, tail: Str, hf: Frames.Frame)
    requires Proper(c) && Synced(c, e, r.dec) && r.dec.firstField && FieldsOk(ListLimit(r), fs)
    requires 1 <= maxFrameSize <= r.maxReadSize && maxFrameSize < Frames.MAX_FRAME && Frames.ValidId(id)
    requires var b := WriteFields(c, e, fs).1; var ended := |b| <= maxFrameSize;
             && hf.body == Frames.HeadersBody(Frames.NO_PRIORITY, if ended then b else b[..maxFrameSize])
             && Frames.Has(hf.h.flags, Frames.END_HEADERS) == ended && r.lastHeaderStream == if ended then 0 else id
    ensures var b := WriteFields(c, e, fs).1;
            var o := ReadMetaFrame(c, r, hf, Following(id, endStream, b, maxFrameSize, r.maxReadSize, tail));
            && o.rest == tail && InStep(c, WriteFields(c, e, fs).0, o.r)
            && o.r == r.(dec := o.r.dec, lastHeaderStream := 0)
            && (match o.result case Ok(m) => Frames.Ok(MetaItem(m)) case Err(x) => Frames.Err(x)) ==
                  Verdict(ListLimit(r), hf.h, fs)
  {
    hide Synced, FieldsOk, WriteFields, Write, ReadBlock, Feed, Emit, Huffman.WellFormed, Following, Frames.Has;
    hide ReadMetaFrame, Verdict, Proper;
    var d, keep := Prepared(r), Keeping(ListLimit(r));
    var b, e1 := WriteFields(c, e, fs).1, WriteFields(c, e, fs).0;
    ProperFormed(c);
    SyncedPrepared(c, e, r);
    WholeBlock(c, keep, e, d, fs);
    FedBlock(c, keep, e, d, fs, maxFrameSize);
    MergeFeeds(c, keep, d, id, endStream, b, maxFrameSize, r.maxReadSize, tail);
    var o := Write(c, keep, d, b);
    SyncedClose(c, e1, o.d);
    ReadMetaIs(c, r, hf, Following(id, endStream, b, maxFrameSize, r.maxReadSize, tail), o.d, tail, fs);
  }

  lemma SyncedPrepared(c: Shared, e: Enc, r: Reader)
    requires Synced(c, e, r.dec)
    ensures Synced(c, e, Prepared(r))
  {
    hide DynamicTable.SetMaxSize, Small;
  }

  /** readMetaFrame once the block has been merged and decoded. */
  lemma ReadMetaIs(c: Shared, r: Reader, hf: Frames.Frame, b: Str, d: Dec, tail: Str, fs: seq<HeaderField>)
    requires Huffman.WellFormed(c.code) && hf.body.HeadersBody? && hf.body.priority == Frames.NO_PRIORITY
    requires d.saved == []
    requires ReadBlock(c, Keeping(ListLimit(r)), Prepared(r), hf.body.fragment,
                       Frames.Has(hf.h.flags, Frames.END_HEADERS), b, r.lastHeaderStream, r.maxReadSize)
             == BlockOutcome(d, 0, tail, None)
    requires d.emitted == Emit(Keeping(ListLimit(r)), true, [], fs).1
    ensures var o := ReadMetaFrame(c, r, hf, b);
            && o.rest == tail && o.r == r.(dec := d.(firstField := true), lastHeaderStream := 0)
            && (match o.result case Ok(m) => Frames.Ok(MetaItem(m)) case Err(x) => Frames.Err(x)) ==
                  Verdict(ListLimit(r), hf.h, fs)
  {
    hide ReadBlock, Fold, PseudosOk, PseudoFields, Emit, Huffman.WellFormed, Frames.Has;
  }

  lemma SyncedClose(c: Shared, e: Enc, d: Dec)
    requires Synced(c, e, d)
    ensures Synced(c, e, d.(firstField := true))
  {
    hide DynamicTable.SetMaxSize, Small;
  }

  lemma HeadBody(id: Frames.U32, endStream: bool, block: Str, maxFrameSize: nat)
    ensures Content(HeadRequest(id, endStream, block, maxFrameSize, true)) ==
            Frames.HeadersBody(Frames.NO_PRIORITY, if |block| <= maxFrameSize then block else block[..maxFrameSize])
  {
    assert block[..|block|] == block;
  }

  lemma SameLimit(r: Reader, last: nat)
    ensures ListLimit(r.(lastHeaderStream := last)) == ListLimit(r)
  {
  }

  /** A header list of any length, encoded and split at any frame size, is read back in one piece: the
      reader decodes exactly its fields, judges them, leaves what follows, and stays in step. */
  lemma HeaderListRead(c: Shared, e: Enc, r: Reader, fs: seq<HeaderField>, id: Frames.U32, endStream: bool,
                       maxFrameSize: nat, tail: Str)
    requires Proper(c) && InStep(c, e, r) && FieldsOk(ListLimit(r), fs)
    requires 1 <= maxFrameSize <= r.maxReadSize && maxFrameSize < Frames.MAX_FRAME && Frames.ValidId(id)
    ensures var o := ReadItem(c, r, BlockFrames(c, e, fs, id, endStream, maxFrameSize, r.maxReadSize) + tail);
            var q := HeadRequest(id, endStream, WriteFields(c, e, fs).1, maxFrameSize, true);
            && o.rest == tail && InStep(c, WriteFields(c, e, fs).0, o.r) && o.r == r.(dec := o.r.dec)
            && Frames.Accepts(q) && o.result == Verdict(ListLimit(r), HeaderOf(q), fs)
  {
    hide Synced, FieldsOk, WriteFields, ReadMetaFrame, Verdict, Huffman.WellFormed, Following, Frames.Has;
    hide Frames.ReadFrame, Frames.Accepts, Frames.Payload, WriteAll, SplitBlock, Frames.FlagsOf, HeadRequest, Content;
    hide HeaderOf, ListLimit;
    var b := WriteFields(c, e, fs).1;
    var q := HeadRequest(id, endStream, b, maxFrameSize, true);
    ReadOne(id, endStream, b, maxFrameSize, true, r.maxReadSize, tail);
    HeadBody(id, endStream, b, maxFrameSize);
    SameLimit(r, if |b| <= maxFrameSize then 0 else id);
    var hf := FrameOf(q);
    MergedMeta(c, e, r.(lastHeaderStream := if |b| <= maxFrameSize then 0 else id), fs, id, endStream, maxFrameSize,
               tail, hf);
  }

  /** A list that passes the reader's own checks: order and names, size, and pseudo-header fields. */
  predicate Passes(limit: nat, fs: seq<HeaderField>) {
    var m := Fold(limit, fs);
    !m.invalid && !m.truncated && m.fields == fs && PseudosOk(PseudoFields(fs))
  }

  lemma {:induction false} FoldPrefix(limit: nat, em: seq<HeaderField>, fs: seq<HeaderField>)
    requires !Fold(limit, em + fs).invalid && !Fold(limit, em + fs).truncated
    ensures !Fold(limit, em).invalid && !Fold(limit, em).truncated
    ensures Emit(Keeping(limit), true, em, fs) == (true, em + fs)
    decreases |fs|
  {
    hide Fold, ListSize;
    if fs == [] {
      assert em + fs == em;
    } else {
      assert em + fs == (em + [fs[0]]) + fs[1..];
      FoldPrefix(limit, em + [fs[0]], fs[1..]);
      FoldSnoc(limit, em, fs[0]);
    }
  }

  /** The flags that the reader sees: END_STREAM as asked for. */
  lemma FirstFlags(id: Frames.U32, endStream: bool, block: Str, maxFrameSize: nat)
    ensures var q := HeadRequest(id, endStream, block, maxFrameSize, true);
            && Frames.Has(Frames.FlagsOf(q), Frames.END_STREAM) == endStream
            && Frames.Has(Frames.FlagsOf(q), Frames.END_HEADERS) == (|block| <= maxFrameSize)
  {
    HeadersFlags(false, endStream, |block| <= maxFrameSize, false);
  }

  /** Any header list that passes the reader's checks comes back as the same list. */
  lemma HeaderListRoundTrip(c: Shared, e: Enc, r: Reader, fs: seq<HeaderField>, id: Frames.U32, endStream: bool,
                            maxFrameSize: nat, tail: Str)
    requires Proper(c) && InStep(c, e, r) && FieldsOk(ListLimit(r), fs) && Passes(ListLimit(r), fs)
    requires 1 <= maxFrameSize <= r.maxReadSize && maxFrameSize < Frames.MAX_FRAME && Frames.ValidId(id)
    ensures var o := ReadItem(c, r, BlockFrames(c, e, fs, id, endStream, maxFrameSize, r.maxReadSize) + tail);
            && o.rest == tail && InStep(c, WriteFields(c, e, fs).0, o.r) && o.r == r.(dec := o.r.dec)
            && o.result.Ok? && o.result.value.MetaItem?
            && var m := o.result.value.meta;
               m.fields == fs && !m.truncated && m.h.id == id && Frames.Has(m.h.flags, Frames.END_STREAM) == endStream
  {
    hide InStep, FieldsOk, WriteFields, ReadItem, BlockFrames, Huffman.WellFormed, Fold, PseudosOk, PseudoFields;
    hide Frames.Has, Frames.FlagsOf, Frames.Payload, Frames.Accepts;
    HeaderListRead(c, e, r, fs, id, endStream, maxFrameSize, tail);
    FirstFlags(id, endStream, WriteFields(c, e, fs).1, maxFrameSize);
    assert [] + fs == fs;
    FoldPrefix(ListLimit(r), [], fs);
  }

  lemma KeptNone(limit: nat)
    ensures Kept(limit, [])
  {
  }

  /** The longest prefix of `fs` within the limit; `truncated` says whether something was dropped. */
  ghost predicate LongestPrefix(limit: nat, fs: seq<HeaderField>, fields: seq<HeaderField>, truncated: bool) {
    && fields <= fs && ListSize(fields) <= limit
    && (truncated <==> fields != fs)
    && (fields != fs ==> ListSize(fs[..|fields| + 1]) > limit)
  }

  lemma KeepsLongest(limit: nat, fs: seq<HeaderField>)
    requires !Fold(limit, Emit(Keeping(limit), true, [], fs).1).invalid
    ensures var m := Fold(limit, Emit(Keeping(limit), true, [], fs).1); LongestPrefix(limit, fs, m.fields, m.truncated)
  {
    KeptNone(limit);
    hide Fold, ListSize, Emit;
    assert [] + fs == fs;
    EmitKeeps(limit, [], fs);
    var (on, em) := Emit(Keeping(limit), true, [], fs);
    if !on {
      assert em == fs[..|em|];
    }
  }

  /** A list whose names and order are in order but which is too long: the longest prefix within the
      limit is returned, and Truncated says whether something was dropped. */
  lemma VerdictPrefix(limit: nat, h: Frames.Header, fs: seq<HeaderField>)
    requires Verdict(limit, h, fs).Ok?
    ensures var m := Verdict(limit, h, fs).value.meta; LongestPrefix(limit, fs, m.fields, m.truncated)
  {
    hide PseudosOk, PseudoFields, Fold, ListSize, Emit, LongestPrefix;
    KeepsLongest(limit, fs);
  }

  // ---- Blocks of any peer ----

  lemma FollowWrite(c: Shared, keep: Keep, d: Dec, d': Dec, p: Str)
    requires Huffman.WellFormed(c.code) && HpackTruncation.Follows(keep, d, d') && Write(c, All(), d, p).failure.None?
    ensures var o, o' := Write(c, All(), d, p), Write(c, keep, d', p);
            o'.failure.None? && HpackTruncation.Follows(keep, o.d, o'.d)
  {
    hide Huffman.WellFormed, Run, Emit;
    if p != [] {
      HpackTruncation.Truncation(c, keep, d.(saved := []), d'.(saved := []), d.saved + p);
    }
  }

  /** Merging frame after frame: the decoder whose callback stops follows the one that goes on. */
  lemma {:induction false} FollowBlock(c: Shared, keep: Keep, d: Dec, d': Dec, fragment: Str, ended: bool, b: Str,
                                       last: nat, max: nat)
    requires Huffman.WellFormed(c.code) && HpackTruncation.Follows(keep, d, d')
    requires ReadBlock(c, All(), d, fragment, ended, b, last, max).failure.None?
    ensures var o := ReadBlock(c, All(), d, fragment, ended, b, last, max);
            var o' := ReadBlock(c, keep, d', fragment, ended, b, last, max);
            && o'.failure.None? && HpackTruncation.Follows(keep, o.dec, o'.dec)
            && o'.lastHeaderStream == o.lastHeaderStream && o'.rest == o.rest
    decreases |b|
  {
    hide Huffman.WellFormed, Write, Emit, HpackTruncation.Follows, Frames.ReadFrame, Frames.Skip, Frames.Has;
    FollowWrite(c, keep, d, d', fragment);
    var step := Frames.ReadFrame(b, last, max);
    if !ended && step.Ok? && step.value.frame.body.ContinuationBody? {
      var e, e' := Write(c, All(), d, fragment).d, Write(c, keep, d', fragment).d;
      FollowBlock(c, keep, e, e', step.value.frame.body.fragment,
                  Frames.Has(step.value.frame.h.flags, Frames.END_HEADERS), step.value.rest,
                  step.value.lastHeaderStream, max);
    }
  }

  /** The block that a HEADERS frame starts, decoded with every field emitted. */
  ghost function AllFields(c: Shared, r: Reader, hf: Frames.Frame, b: Str): BlockOutcome
    requires Huffman.WellFormed(c.code) && hf.body.HeadersBody?
  {
    ReadBlock(c, All(), Prepared(r), hf.body.fragment, Frames.Has(hf.h.flags, Frames.END_HEADERS), b,
              r.lastHeaderStream, r.maxReadSize)
  }

  /** Whoever sent it: if the block decodes cleanly with every field emitted, readMetaFrame consumes the
      same input and ends with the same table, whatever it makes of the fields; and a frame that it
      returns has the longest prefix of the fields within the limit, Truncated if that is not all. */
  lemma AnyBlock(c: Shared, r: Reader, hf: Frames.Frame, b: Str)
    requires Huffman.WellFormed(c.code) && hf.body.HeadersBody? && AllFields(c, r, hf, b).failure.None?
    ensures var o, all := ReadMetaFrame(c, r, hf, b), AllFields(c, r, hf, b);
            && o.rest == all.rest && o.r.lastHeaderStream == all.lastHeaderStream && o.r.dec.tab == all.dec.tab
            && (o.result.Ok? ==>
                  LongestPrefix(ListLimit(r), all.dec.emitted, o.result.value.fields, o.result.value.truncated))
  {
    hide Huffman.WellFormed, ReadBlock, Fold, PseudosOk, PseudoFields, LongestPrefix, Frames.Has, Keeping;
    var keep, d, all := Keeping(ListLimit(r)), Prepared(r), AllFields(c, r, hf, b);
    assert HpackTruncation.Follows(keep, d, d);
    FollowBlock(c, keep, d, d, hf.body.fragment, Frames.Has(hf.h.flags, Frames.END_HEADERS), b, r.lastHeaderStream,
                r.maxReadSize);
    hide Emit;
    if ReadMetaFrame(c, r, hf, b).result.Ok? {
      KeepsLongest(ListLimit(r), all.dec.emitted);
    }
  }

  // ---- A whole connection ----

  /** What the writer does: send a header list, or follow the peer's table size setting. */
  datatype Action = Send(id: Frames.U32, endStream: bool, fields: seq<HeaderField>) | Resize(v: nat)

  ghost predicate Proposed(limit: nat, a: Action) {
    a.Send? ==> FieldsOk(limit, a.fields) && Passes(limit, a.fields)
  }

  predicate IdsOk(actions: seq<Action>) {
    forall i :: 0 <= i < |actions| && actions[i].Send? ==> Frames.ValidId(actions[i].id)
  }

  ghost function Output(c: Shared, e: Enc, actions: seq<Action>, maxFrameSize: nat, maxReadSize: nat): Str
    requires 1 <= maxFrameSize <= maxReadSize && maxFrameSize < Frames.MAX_FRAME && IdsOk(actions)
    decreases |actions|
  {
    if actions == [] then []
    else match actions[0]
      case Resize(v) => Output(c, SetLimit(e, v), actions[1..], maxFrameSize, maxReadSize)
      case Send(id, endStream, fs) =>
        BlockFrames(c, e, fs, id, endStream, maxFrameSize, maxReadSize)
        + Output(c, WriteFields(c, e, fs).0, actions[1..], maxFrameSize, maxReadSize)
  }

  /** The header lists read, as long as there is input and no error. */
  function Input(c: Shared, r: Reader, b: Str): seq<Frames.Result<Item>>
    requires Huffman.WellFormed(c.code)
    decreases |b|
  {
    if b == [] then []
    else
      var o := ReadItem(c, r, b);
      if o.result.Ok? && |o.rest| < |b| then [o.result] + Input(c, o.r, o.rest) else [o.result]
  }

  function Sends(actions: seq<Action>): seq<Action> {
    if actions == [] then [] else (if actions[0].Send? then [actions[0]] else []) + Sends(actions[1..])
  }

  predicate Arrives(a: Action, r: Frames.Result<Item>) {
    && a.Send? && r.Ok? && r.value.MetaItem? && r.value.meta.fields == a.fields && !r.value.meta.truncated
    && r.value.meta.h.id == a.id && Frames.Has(r.value.meta.h.flags, Frames.END_STREAM) == a.endStream
  }

  lemma BlockNotEmpty(c: Shared, e: Enc, fs: seq<HeaderField>, id: Frames.U32, endStream: bool, maxFrameSize: nat,
                      maxReadSize: nat)
    requires 1 <= maxFrameSize <= maxReadSize && maxFrameSize < Frames.MAX_FRAME && Frames.ValidId(id)
    ensures BlockFrames(c, e, fs, id, endStream, maxFrameSize, maxReadSize) != []
  {
    hide Frames.Payload, WriteFields;
    var b := WriteFields(c, e, fs).1;
    SplitSendable(id, endStream, b, maxFrameSize, true, maxReadSize);
    var qs := SplitBlock(id, endStream, b, maxFrameSize, true);
    assert Sendable(qs[0], maxReadSize);
  }

  /** The lists read are those sent, one for one and in order. */
  ghost predicate AllArrive(c: Shared, e: Enc, r: Reader, actions: seq<Action>, maxFrameSize: nat)
    requires Huffman.WellFormed(c.code) && IdsOk(actions)
    requires 1 <= maxFrameSize <= r.maxReadSize && maxFrameSize < Frames.MAX_FRAME
  {
    var rs := Input(c, r, Output(c, e, actions, maxFrameSize, r.maxReadSize));
    |rs| == |Sends(actions)| && forall i :: 0 <= i < |rs| ==> Arrives(Sends(actions)[i], rs[i])
  }

  /** Everything the writer sends on a connection arrives, list by list and in order. */
  lemma {:induction false} ConnectionRoundTrip(c: Shared, e: Enc, r: Reader, actions: seq<Action>, maxFrameSize: nat)
    requires Proper(c) && InStep(c, e, r) && 1 <= maxFrameSize <= r.maxReadSize && maxFrameSize < Frames.MAX_FRAME
    requires IdsOk(actions) && forall i :: 0 <= i < |actions| ==> Proposed(ListLimit(r), actions[i])
    ensures AllArrive(c, e, r, actions, maxFrameSize)
    decreases |actions|
  {
    hide InStep, FieldsOk, WriteFields, ReadItem, BlockFrames, Huffman.WellFormed, Passes, Frames.Has, SetLimit, Proper;
    ProperFormed(c);
    if actions != [] {
      var rest := actions[1..];
      assert forall i :: 0 <= i < |rest| ==> rest[i] == actions[i + 1];
      match actions[0]
      case Resize(v) =>
        StepLimit(c, e, r, v);
        ConnectionRoundTrip(c, SetLimit(e, v), r, rest, maxFrameSize);
      case Send(id, endStream, fs) =>
        assert Proposed(ListLimit(r), actions[0]);
        var e1 := WriteFields(c, e, fs).0;
        var tail := Output(c, e1, rest, maxFrameSize, r.maxReadSize);
        HeaderListRoundTrip(c, e, r, fs, id, endStream, maxFrameSize, tail);
        BlockNotEmpty(c, e, fs, id, endStream, maxFrameSize, r.maxReadSize);
        var o := ReadItem(c, r, BlockFrames(c, e, fs, id, endStream, maxFrameSize, r.maxReadSize) + tail);
        ConnectionRoundTrip(c, e1, o.r, rest, maxFrameSize);
        SendStep(actions, o.result, Input(c, o.r, tail));
    }
  }

  lemma SendStep(actions: seq<Action>, r: Frames.Result<Item>, rs: seq<Frames.Result<Item>>)
    requires actions != [] && actions[0].Send? && Arrives(actions[0], r)
    requires |rs| == |Sends(actions[1..])| && forall i :: 0 <= i < |rs| ==> Arrives(Sends(actions[1..])[i], rs[i])
    ensures var all := [r] + rs;
            |all| == |Sends(actions)| && forall i :: 0 <= i < |all| ==> Arrives(Sends(actions)[i], all[i])
  {
    hide Arrives;
    assert Sends(actions) == [actions[0]] + Sends(actions[1..]);
  }

  lemma ProperFormed(c: Shared)
    requires Proper(c)
    ensures Huffman.WellFormed(c.code)
  {
  }

  lemma StepLimit(c: Shared, e: Enc, r: Reader, v: nat)
    requires InStep(c, e, r)
    ensures InStep(c, SetLimit(e, v), r)
  {
    hide Synced, SetLimit;
    LimitKeepsSync(c, e, r.dec, v);
  }

  /** A new connection starts in step. */
  lemma ConnectionStarts(c: Shared, maxReadSize: nat, maxHeaderListSize: nat)
    requires Proper(c) && |c.fixed| < WORD
    ensures InStep(c, NewEnc(), Reader(NewDec(4096), 0, maxReadSize, maxHeaderListSize))
  {
    StartsReady(c);
  }
}
