/** HPACK (RFC 7541) as functions on values: what one call of Encoder.WriteField appends and one
    call of Decoder.Write consumes. The code and the static table are parameters. */
module Hpack {
  import opened Bits
  import opened HeaderTable
  import opened DynamicTable
  import opened HpackString
  import VarInt
  import Huffman

  /** The tables both ends share. */
  datatype Shared = Shared(code: Huffman.Table, fixed: seq<HeaderField>)

  const UINT32_MAX: nat := WORD - 1

  /** What the shared tables must satisfy. */
  ghost predicate Proper(c: Shared) {
    Huffman.Good(c.code) && forall i :: 0 <= i < |c.fixed| ==> !c.fixed[i].sensitive
  }

  // ---- The encoder ----

  datatype Enc = Enc(tab: Tab, minSize: nat, maxSizeLimit: nat, tableSizeUpdate: bool)

  function NewEnc(): Enc { Enc(NewTab(4096), UINT32_MAX, 4096, false) }

  /** searchTable: the static table is preferred unless only the dynamic one matches the value, or
      only it matches at all. */
  function SearchTable(fixed: seq<HeaderField>, ents: seq<HeaderField>, f: HeaderField): (r: Found)
    ensures r.index <= |fixed| + |ents|
    ensures r.nameValueMatch ==> r.index != 0 && !f.sensitive
  {
    var i := Scan(fixed, f, false);
    if i.nameValueMatch then i
    else
      var j := Scan(ents, f, true);
      if j.nameValueMatch || (i.index == 0 && j.index != 0) then Found(j.index + |fixed|, j.nameValueMatch)
      else Found(i.index, false)
  }

  function ShouldIndex(e: Enc, f: HeaderField): bool {
    !f.sensitive && Size(f) <= e.tab.maxSize
  }

  function TypeByte(indexing: bool, sensitive: bool): Byte {
    if sensitive then 0x10 else if indexing then 0x40 else 0
  }

  function TableSizeRecord(v: nat): (r: Str)
    ensures r != []
  {
    assert Pow2(5) == 32;
    VarInt.Flagged(5, 0x20, v)
  }

  function IndexedRecord(i: nat): (r: Str)
    ensures r != []
  {
    assert Pow2(7) == 128;
    VarInt.Flagged(7, 0x80, i)
  }

  function NewNameRecord(code: Huffman.Table, f: HeaderField, indexing: bool): (r: Str)
    ensures r != []
  {
    [TypeByte(indexing, f.sensitive)] + EncodeString(code, f.name) + EncodeString(code, f.value)
  }

  function IndexedNameRecord(code: Huffman.Table, f: HeaderField, i: nat, indexing: bool): (r: Str)
    ensures r != []
  {
    assert Pow2(6) == 64 && Pow2(4) == 16;
    (if indexing && !f.sensitive then VarInt.Flagged(6, 0x40, i)
      else VarInt.Flagged(4, TypeByte(false, f.sensitive), i))
    + EncodeString(code, f.value)
  }

  /** The size records that precede the next field. */
  function UpdateBytes(e: Enc): Str {
    if !e.tableSizeUpdate then []
    else (if e.minSize < e.tab.maxSize then TableSizeRecord(e.minSize) else []) + TableSizeRecord(e.tab.maxSize)
  }

  function Flushed(e: Enc): Enc {
    if e.tableSizeUpdate then e.(tableSizeUpdate := false, minSize := UINT32_MAX) else e
  }

  function FieldBytes(c: Shared, e: Enc, f: HeaderField): (r: Str)
    ensures r != []
  {
    var found := SearchTable(c.fixed, e.tab.ents, f);
    if found.nameValueMatch then IndexedRecord(found.index)
    else if found.index == 0 then NewNameRecord(c.code, f, ShouldIndex(e, f))
    else IndexedNameRecord(c.code, f, found.index, ShouldIndex(e, f))
  }

  function AfterField(c: Shared, e: Enc, f: HeaderField): Enc {
    if !SearchTable(c.fixed, e.tab.ents, f).nameValueMatch && ShouldIndex(e, f) then e.(tab := Add(e.tab, f)) else e
  }

  /** WriteField: the new state and the octets written. */
  function WriteField(c: Shared, e: Enc, f: HeaderField): (Enc, Str) {
    (AfterField(c, Flushed(e), f), UpdateBytes(e) + FieldBytes(c, Flushed(e), f))
  }

  function WriteFields(c: Shared, e: Enc, fs: seq<HeaderField>): (Enc, Str)
    decreases |fs|
  {
    if fs == [] then (e, [])
    else
      var (e1, b) := WriteField(c, e, fs[0]);
      var (e2, bs) := WriteFields(c, e1, fs[1..]);
      (e2, b + bs)
  }

  function SetLimit(e: Enc, v: nat): Enc {
    if e.tab.maxSize > v then e.(maxSizeLimit := v, tableSizeUpdate := true, tab := SetMaxSize(e.tab, v))
    else e.(maxSizeLimit := v)
  }

  /** SetMaxDynamicTableSize, which the transport does not call. */
  function SetMaxDynamic(e: Enc, v: nat): Enc {
    var w := if v > e.maxSizeLimit then e.maxSizeLimit else v;
    e.(minSize := if w < e.minSize then w else e.minSize, tableSizeUpdate := true, tab := SetMaxSize(e.tab, w))
  }

  // ---- The decoder ----

  /** `emitted` are the fields passed to the emit callback. The callback may switch emission off; it
      is the function `keep` of the fields passed so far. */
  datatype Dec = Dec(tab: Tab, allowedMax: nat, maxStrLen: nat, firstField: bool,
                     emitEnabled: bool, emitted: seq<HeaderField>, saved: Str)

  type Keep = seq<HeaderField> -> bool

  function NewDec(maxSize: nat): Dec { Dec(NewTab(maxSize), maxSize, 0, true, true, [], []) }

  /** Decoder.at: index 0 and those beyond the tables are invalid. */
  function At(fixed: seq<HeaderField>, ents: seq<HeaderField>, i: nat): Option<HeaderField> {
    if i == 0 then None
    else if i <= |fixed| then Some(fixed[i - 1])
    else if i > |fixed| + |ents| then None
    else Some(ents[|ents| - (i - |fixed|)])
  }

  /** Consuming one representation: a new state and the input left, not enough input (and nothing
      changed), or a fatal error. */
  datatype Parse = Done(d: Dec, rest: Str) | NeedMore | Fatal(d: Dec, e: Error)

  datatype IndexType = IndexedTrue | IndexedFalse | IndexedNever

  function CallEmit(keep: Keep, d: Dec, f: HeaderField, rest: Str): Parse {
    if d.maxStrLen != 0 && (|f.name| > d.maxStrLen || |f.value| > d.maxStrLen) then Fatal(d, StringLength)
    else if d.emitEnabled then
      var fs := d.emitted + [f];
      Done(d.(emitted := fs, emitEnabled := keep(fs)), rest)
    else Done(d, rest)
  }

  function ParseIndexed(c: Shared, keep: Keep, d: Dec, buf: Str): (r: Parse)
    requires buf != []
    ensures r.Done? ==> |r.rest| < |buf|
  {
    match VarInt.Read(7, buf)
    case NeedMore => NeedMore
    case Overflow => Fatal(d, VarIntOverflow)
    case Value(i, rest) =>
      match At(c.fixed, d.tab.ents, i)
      case None => Fatal(d, InvalidIndex(i))
      case Some(f) => CallEmit(keep, d, HeaderField(f.name, f.value, false), rest)
  }

  /** The name and value of a literal field. */
  datatype LiteralRead = Literal(name: Str, value: Str, rest: Str) | LiteralMore | LiteralError(e: Error)

  function ReadLiteral(c: Shared, ents: seq<HeaderField>, maxStrLen: nat, want: bool, n: nat,
                       buf: Str): (r: LiteralRead)
    requires Huffman.WellFormed(c.code) && 1 <= n <= 8
    ensures r.Literal? ==> |r.rest| < |buf|
  {
    match VarInt.Read(n, buf)
    case NeedMore => LiteralMore
    case Overflow => LiteralError(VarIntOverflow)
    case Value(i, rest) =>
      if i > 0 then
        match At(c.fixed, ents, i)
        case None => LiteralError(InvalidIndex(i))
        case Some(f) => ReadValue(c, maxStrLen, want, f.name, rest)
      else
        match ReadString(c.code, maxStrLen, rest, want)
        case More => LiteralMore
        case Failed(e) => LiteralError(e)
        case Text(name, rest) => ReadValue(c, maxStrLen, want, name, rest)
  }

  function ReadValue(c: Shared, maxStrLen: nat, want: bool, name: Str, buf: Str): (r: LiteralRead)
    requires Huffman.WellFormed(c.code)
    ensures r.Literal? ==> |r.rest| < |buf|
  {
    match ReadString(c.code, maxStrLen, buf, want)
    case More => LiteralMore
    case Failed(e) => LiteralError(e)
    case Text(value, rest) => Literal(name, value, rest)
  }

  function ParseLiteral(c: Shared, keep: Keep, d: Dec, buf: Str, n: nat, it: IndexType): (r: Parse)
    requires Huffman.WellFormed(c.code) && 1 <= n <= 8
    ensures r.Done? ==> |r.rest| < |buf|
  {
    match ReadLiteral(c, d.tab.ents, d.maxStrLen, d.emitEnabled || it.IndexedTrue?, n, buf)
    case LiteralMore => NeedMore
    case LiteralError(e) => Fatal(d, e)
    case Literal(name, value, rest) =>
      var d' := if it.IndexedTrue? then d.(tab := Add(d.tab, HeaderField(name, value, false))) else d;
      CallEmit(keep, d', HeaderField(name, value, it.IndexedNever?), rest)
  }

  function ParseSizeUpdate(d: Dec, buf: Str): (r: Parse)
    ensures r.Done? ==> |r.rest| < |buf|
  {
    if !d.firstField && d.tab.size > 0 then Fatal(d, SizeUpdateNotFirst)
    else
      match VarInt.Read(5, buf)
      case NeedMore => NeedMore
      case Overflow => Fatal(d, VarIntOverflow)
      case Value(v, rest) =>
        if v > d.allowedMax then Fatal(d, SizeUpdateTooLarge)
        else Done(d.(tab := SetMaxSize(d.tab, v)), rest)
  }

  /** parseHeaderFieldRepr: the kind of representation is in the upper bits of its first octet. */
  function ParseRepr(c: Shared, keep: Keep, d: Dec, buf: Str): (r: Parse)
    requires Huffman.WellFormed(c.code) && buf != []
    ensures r.Done? ==> |r.rest| < |buf|
  {
    var b := buf[0];
    if b >= 128 then ParseIndexed(c, keep, d, buf)
    else if b >= 64 then ParseLiteral(c, keep, d, buf, 6, IndexedTrue)
    else if b >= 32 then ParseSizeUpdate(d, buf)
    else if b >= 16 then ParseLiteral(c, keep, d, buf, 4, IndexedNever)
    else ParseLiteral(c, keep, d, buf, 4, IndexedFalse)
  }

  /** The outcome of a call: the new state and the error, if any. */
  datatype Outcome = Outcome(d: Dec, failure: Option<Error>)

  /** An incomplete representation is kept for the next call, unless it is suspiciously long. */
  function Save(d: Dec, buf: Str): Outcome {
    if d.maxStrLen != 0 && |buf| > 2 * (d.maxStrLen + 8) then Outcome(d, Some(StringLength))
    else Outcome(d.(saved := buf), None)
  }

  function Run(c: Shared, keep: Keep, d: Dec, buf: Str): Outcome
    requires Huffman.WellFormed(c.code)
    decreases |buf|
  {
    if buf == [] then Outcome(d, None)
    else
      match ParseRepr(c, keep, d, buf)
      case NeedMore => Save(d, buf)
      case Fatal(d', e) => Outcome(d'.(firstField := false), Some(e))
      case Done(d', rest) => Run(c, keep, d'.(firstField := false), rest)
  }

  /** Decoder.Write. */
  function Write(c: Shared, keep: Keep, d: Dec, p: Str): Outcome
    requires Huffman.WellFormed(c.code)
  {
    if p == [] then Outcome(d, None) else Run(c, keep, d.(saved := []), d.saved + p)
  }

  /** Decoder.Close. */
  function Close(d: Dec): Outcome {
    if d.saved != [] then Outcome(d.(saved := []), Some(TruncatedHeaders))
    else Outcome(d.(firstField := true), None)
  }
}
