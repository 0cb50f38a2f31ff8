/** Header blocks across frames: splitting into HEADERS and CONTINUATION, and the reader that merges,
    decodes and checks them. */
module MetaHeaders {
  import opened Bits
  import opened HeaderTable
  import DynamicTable
  import Hpack
  import Huffman
  import opened Frames

  // ---- Splitting ----

  /** The first frame of a block, or of what is left of it. */
  function HeadRequest(id: U32, endStream: bool, block: Str, maxFrameSize: nat, first: bool): Request {
    var endHeaders := |block| <= maxFrameSize;
    var size := if endHeaders then |block| else maxFrameSize;
    if first then WriteHeaders(id, block[..size], endStream, endHeaders, 0, NO_PRIORITY)
    else WriteContinuation(id, endHeaders, block[..size])
  }

  /** The frames that carry `block`, each with at most `maxFrameSize` octets of it. */
  function SplitBlock(id: U32, endStream: bool, block: Str, maxFrameSize: nat, first: bool): (r: seq<Request>)
    requires maxFrameSize >= 1
    decreases |block|
  {
    [HeadRequest(id, endStream, block, maxFrameSize, first)]
    + if |block| <= maxFrameSize then [] else SplitBlock(id, endStream, block[maxFrameSize..], maxFrameSize, false)
  }

  // ---- The checks on decoded fields ----

  const COLON: Byte := 58

  predicate IsPseudo(f: HeaderField) {
    f.name != [] && f.name[0] == COLON
  }

  /** A regular name is not empty and has no upper-case letter. */
  predicate ValidName(name: Str) {
    name != [] && forall i :: 0 <= i < |name| ==> !(65 <= name[i] <= 90)
  }

  /** What the emit callback of readMetaFrame remembers. */
  datatype Meta = Meta(fields: seq<HeaderField>, remain: nat, sawRegular: bool, invalid: bool, truncated: bool)

  predicate Invalidates(m: Meta, f: HeaderField) {
    if IsPseudo(f) then m.sawRegular else !ValidName(f.name)
  }

  function Callback(m: Meta, f: HeaderField): Meta {
    var m1 := m.(sawRegular := m.sawRegular || !IsPseudo(f));
    if m.invalid || Invalidates(m, f) then m1.(invalid := true)
    else if DynamicTable.Size(f) > m.remain then m1.(truncated := true)
    else m1.(remain := m.remain - DynamicTable.Size(f), fields := m.fields + [f])
  }

  /** The callback after it was given `fs`. */
  function Fold(limit: nat, fs: seq<HeaderField>): Meta
    decreases |fs|
  {
    if fs == [] then Meta([], limit, false, false, false) else Callback(Fold(limit, fs[..|fs| - 1]), fs[|fs| - 1])
  }

  /** Emission stays on until a field is invalid or does not fit. */
  function Keeping(limit: nat): Hpack.Keep {
    (fs: seq<HeaderField>) => !Fold(limit, fs).invalid && !Fold(limit, fs).truncated
  }

  /** The leading pseudo-header fields. */
  function PseudoFields(fs: seq<HeaderField>): (r: seq<HeaderField>)
    ensures r <= fs
  {
    if fs == [] || !IsPseudo(fs[0]) then [] else [fs[0]] + PseudoFields(fs[1..])
  }

  predicate RequestName(name: Str) {
    name == Ascii(":method") || name == Ascii(":path") || name == Ascii(":scheme") || name == Ascii(":authority") ||
      name == Ascii(":protocol")
  }

  predicate ResponseName(name: Str) {
    name == Ascii(":status")
  }

  /** Known names, none twice, and not of a request and a response together. */
  predicate PseudosOk(pf: seq<HeaderField>) {
    && (forall i :: 0 <= i < |pf| ==> RequestName(pf[i].name) || ResponseName(pf[i].name))
    && (forall i, j :: 0 <= i < j < |pf| ==> pf[i].name != pf[j].name)
    && !((exists i :: 0 <= i < |pf| && RequestName(pf[i].name)) &&
         (exists i :: 0 <= i < |pf| && ResponseName(pf[i].name)))
  }

  const METHOD: Str := [58, 109, 101, 116, 104, 111, 100]  // :method
  const PATH: Str := [58, 112, 97, 116, 104]  // :path
  const SCHEME: Str := [58, 115, 99, 104, 101, 109, 101]  // :scheme
  const AUTHORITY: Str := [58, 97, 117, 116, 104, 111, 114, 105, 116, 121]  // :authority
  const PROTOCOL: Str := [58, 112, 114, 111, 116, 111, 99, 111, 108]  // :protocol
  const STATUS: Str := [58, 115, 116, 97, 116, 117, 115]  // :status

  /** The pseudo-header fields of a request, and the one of `:protocol` of RFC 8441. */
  predicate OfRequest(name: Str) {
    name == METHOD || name == PATH || name == SCHEME || name == AUTHORITY || name == PROTOCOL
  }

  /** Pseudo-header fields by their octets: all of a request or all of a response, and none twice. */
  predicate PseudosLegal(pf: seq<HeaderField>) {
    && ((forall i :: 0 <= i < |pf| ==> OfRequest(pf[i].name)) ||
        (forall i :: 0 <= i < |pf| ==> pf[i].name == STATUS))
    && (forall i, j :: 0 <= i < j < |pf| ==> pf[i].name != pf[j].name)
  }

  lemma Spelling(name: Str)
    ensures RequestName(name) <==> OfRequest(name)
    ensures ResponseName(name) <==> name == STATUS
    ensures OfRequest(name) || name == STATUS ==> name != [] && name[0] == 58
    ensures !(OfRequest(name) && name == STATUS)
  {
    assert Ascii(":method") == METHOD;
    assert Ascii(":path") == PATH;
    assert Ascii(":scheme") == SCHEME;
    assert Ascii(":authority") == AUTHORITY;
    assert Ascii(":protocol") == PROTOCOL;
    assert Ascii(":status") == STATUS;
  }

  lemma PseudosAre(pf: seq<HeaderField>)
    ensures PseudosOk(pf) <==> PseudosLegal(pf)
  {
    hide RequestName, ResponseName, OfRequest;
    forall i | 0 <= i < |pf| ensures (RequestName(pf[i].name) <==> OfRequest(pf[i].name)) &&
                                     (ResponseName(pf[i].name) <==> pf[i].name == STATUS) &&
                                     !(OfRequest(pf[i].name) && pf[i].name == STATUS) {
      Spelling(pf[i].name);
    }
  }

  lemma NamesDiffer(name: Str)
    requires RequestName(name)
    ensures !ResponseName(name)
  {
    hide RequestName, ResponseName, OfRequest;
    Spelling(name);
  }

  /** checkPseudos. */
  method CheckPseudos(fields: seq<HeaderField>) returns (ok: bool)
    ensures ok == PseudosOk(PseudoFields(fields)) == PseudosLegal(PseudoFields(fields))
  {
    hide PseudoFields, RequestName, ResponseName, PseudosLegal;
    PseudosAre(PseudoFields(fields));
    var isRequest, isResponse := false, false;
    var pf := PseudoFields(fields);
    for i := 0 to |pf|
      invariant forall k :: 0 <= k < i ==> RequestName(pf[k].name) || ResponseName(pf[k].name)
      invariant forall k, j :: 0 <= k < j < i ==> pf[k].name != pf[j].name
      invariant isRequest == exists k :: 0 <= k < i && RequestName(pf[k].name)
      invariant isResponse == exists k :: 0 <= k < i && ResponseName(pf[k].name)
    {
      var f := pf[i];
      if RequestName(f.name) {
        isRequest := true;
        NamesDiffer(f.name);
      } else if ResponseName(f.name) {
        isResponse := true;
      } else {
        return false;
      }
      for j := 0 to i
        invariant forall k :: 0 <= k < j ==> pf[k].name != f.name
      {
        if f.name == pf[j].name {
          return false;
        }
      }
    }
    return !(isRequest && isResponse);
  }

  // ---- Merging ----

  datatype MetaFrame = MetaFrame(h: Header, priority: Priority, fields: seq<HeaderField>, truncated: bool)

  /** The framer's reading side: the decoder, the open header block and the limits. */
  datatype Reader = Reader(dec: Hpack.Dec, lastHeaderStream: nat, maxReadSize: nat, maxHeaderListSize: nat)

  function ListLimit(r: Reader): nat {
    if r.maxHeaderListSize == 0 then 0x100_0000 else r.maxHeaderListSize
  }

  /** After a call: the reader, the input left and the result. */
  datatype MetaOutcome = MetaOutcome(r: Reader, rest: Str, result: Result<MetaFrame>)

  datatype BlockOutcome = BlockOutcome(dec: Hpack.Dec, lastHeaderStream: nat, rest: Str, failure: Option<Error>)

  /** Feeds the decoder one fragment after the other until one ends the block. */
  function ReadBlock(c: Hpack.Shared, keep: Hpack.Keep, d: Hpack.Dec, fragment: Str, ended: bool, b: Str, last: nat,
                     maxReadSize: nat): BlockOutcome
    requires Huffman.WellFormed(c.code)
    decreases |b|
  {
    var o := Hpack.Write(c, keep, d, fragment);
    if o.failure.Some? then BlockOutcome(o.d, last, b, Some(ConnectionError(COMPRESSION_ERROR)))
    else if ended then BlockOutcome(o.d, last, b, None)
    else match ReadFrame(b, last, maxReadSize)
      case Err(e) => BlockOutcome(o.d, last, Skip(b, maxReadSize), Some(e))
      case Ok(step) =>
        if step.frame.body.ContinuationBody? then
          ReadBlock(c, keep, o.d, step.frame.body.fragment, Has(step.frame.h.flags, END_HEADERS), step.rest,
                    step.lastHeaderStream, maxReadSize)
        else BlockOutcome(o.d, step.lastHeaderStream, step.rest, Some(ConnectionError(PROTOCOL_ERROR)))
  }

  /** What readMetaFrame returns once the block is decoded. */
  function Judge(limit: nat, hf: Frame, d: Hpack.Dec): Result<MetaFrame>
    requires hf.body.HeadersBody?
  {
    var m := Fold(limit, d.emitted);
    if Hpack.Close(d).failure.Some? then Err(ConnectionError(COMPRESSION_ERROR))
    else if m.invalid || !PseudosOk(PseudoFields(m.fields)) then Err(StreamError(hf.h.id, PROTOCOL_ERROR))
    else Ok(MetaFrame(hf.h, hf.body.priority, m.fields, m.truncated))
  }

  /** readMetaFrame on a HEADERS frame that ReadFrame accepted. */
  function ReadMetaFrame(c: Hpack.Shared, r: Reader, hf: Frame, b: Str): MetaOutcome
    requires Huffman.WellFormed(c.code) && hf.body.HeadersBody?
  {
    var limit := ListLimit(r);
    var d := r.dec.(emitEnabled := true, maxStrLen := limit, emitted := []);
    var o := ReadBlock(c, Keeping(limit), d, hf.body.fragment, Has(hf.h.flags, END_HEADERS), b, r.lastHeaderStream,
                       r.maxReadSize);
    var r1 := r.(dec := o.dec, lastHeaderStream := o.lastHeaderStream);
    if o.failure.Some? then MetaOutcome(r1, o.rest, Err(o.failure.value))
    else MetaOutcome(r1.(dec := Hpack.Close(o.dec).d), o.rest, Judge(limit, hf, o.dec))
  }

  /** ReadFrame with merging of header blocks. */
  datatype Item = MetaItem(meta: MetaFrame) | FrameItem(frame: Frame)

  datatype ItemOutcome = ItemOutcome(r: Reader, rest: Str, result: Result<Item>)

  function ReadItem(c: Hpack.Shared, r: Reader, b: Str): ItemOutcome
    requires Huffman.WellFormed(c.code)
  {
    match ReadFrame(b, r.lastHeaderStream, r.maxReadSize)
    case Err(e) => ItemOutcome(r, Skip(b, r.maxReadSize), Err(e))
    case Ok(step) =>
      var r1 := r.(lastHeaderStream := step.lastHeaderStream);
      if step.frame.body.HeadersBody? then
        var o := ReadMetaFrame(c, r1, step.frame, step.rest);
        ItemOutcome(o.r, o.rest, match o.result case Ok(m) => Ok(MetaItem(m)) case Err(e) => Err(e))
      else ItemOutcome(r1, step.rest, Ok(FrameItem(step.frame)))
  }
}
