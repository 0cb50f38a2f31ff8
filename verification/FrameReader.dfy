/** The reading half of the framer: the input, the open header block and the decoder, updated in place. */
module FrameReader {
  import opened Bits
  import opened HeaderTable
  import opened Frames
  import opened MetaHeaders
  import Hpack
  import HpackDecoder
  import Huffman

  class Framer {
    const hdec: HpackDecoder.Decoder
    const maxReadSize: nat
    const maxHeaderListSize: nat
    var lastHeaderStream: nat
    var input: seq<Byte>

    ghost predicate Valid()
      reads this, hdec, hdec.fixed, hdec.dynTab, hdec.dynTab.table
    {
      hdec.Valid() && hdec.keep == Keeping(Limit())
    }

    function Limit(): nat {
      if maxHeaderListSize == 0 then 0x100_0000 else maxHeaderListSize
    }

    ghost function Value(): Reader
      reads this, hdec, hdec.dynTab, hdec.dynTab.table
    {
      Reader(hdec.Value(), lastHeaderStream, maxReadSize, maxHeaderListSize)
    }

    constructor (hdec: HpackDecoder.Decoder, maxReadSize: nat, maxHeaderListSize: nat, input: seq<Byte>)
      requires hdec.Valid() && hdec.keep == Keeping(if maxHeaderListSize == 0 then 0x100_0000 else maxHeaderListSize)
      ensures Valid() && Value() == Reader(hdec.Value(), 0, maxReadSize, maxHeaderListSize) && this.input == input
      ensures this.hdec == hdec
    {
      hide Keeping, HpackDecoder.Decoder.Valid, HpackDecoder.Decoder.Value;
      this.hdec, this.maxReadSize, this.maxHeaderListSize := hdec, maxReadSize, maxHeaderListSize;
      lastHeaderStream := 0;
      this.input := input;
    }

    method CheckFrameOrder(h: Header) returns (err: Option<Error>)
      modifies this`lastHeaderStream
      ensures match CheckOrder(old(lastHeaderStream), h)
              case Ok(last) => err == None && lastHeaderStream == last
              case Err(e) => err == Some(e) && lastHeaderStream == old(lastHeaderStream)
    {
      if lastHeaderStream != 0 {
        if h.kind != CONTINUATION {
          return Some(ConnectionError(PROTOCOL_ERROR));
        }
        if h.id != lastHeaderStream {
          return Some(ConnectionError(PROTOCOL_ERROR));
        }
      } else if h.kind == CONTINUATION {
        return Some(ConnectionError(PROTOCOL_ERROR));
      }
      if h.kind == HEADERS || h.kind == CONTINUATION {
        if Has(h.flags, END_HEADERS) {
          lastHeaderStream := 0;
        } else {
          lastHeaderStream := h.id;
        }
      }
      return None;
    }

    /** One frame off the input. */
    method NextFrame() returns (r: Result<Frame>)
      modifies this`lastHeaderStream, this`input
      ensures input == Skip(old(input), maxReadSize)
      ensures match ReadFrame(old(input), old(lastHeaderStream), maxReadSize)
              case Ok(step) => r == Ok(step.frame) && input == step.rest && lastHeaderStream == step.lastHeaderStream
              case Err(e) => r == Err(e) && lastHeaderStream == old(lastHeaderStream)
    {
      hide Parse, CheckOrder;
      var b := input;
      if |b| < 9 {
        input := [];
        return Err(UnexpectedEOF);
      }
      var h := ReadHeader(b);
      input := b[9..];
      if h.length > maxReadSize {
        return Err(FrameTooLarge);
      }
      if |input| < h.length {
        input := [];
        return Err(UnexpectedEOF);
      }
      var payload := input[..h.length];
      input := input[h.length..];
      assert payload == b[9..9 + h.length] && input == b[9 + h.length..];
      var p := Parse(h, payload);
      if p.Err? {
        return Err(p.error);
      }
      var err := CheckFrameOrder(h);
      if err.Some? {
        return Err(err.value);
      }
      return Ok(Frame(h, p.value));
    }

    /** One round of the loop. */
    lemma ReadBlockIs(c: Hpack.Shared, keep: Hpack.Keep, d: Hpack.Dec, fragment: Str, ended: bool, b: Str, last: nat,
                      max: nat)
      requires Huffman.WellFormed(c.code) && (!ended ==> last != 0)
      ensures var o, f := Hpack.Write(c, keep, d, fragment), ReadFrame(b, last, max);
              ReadBlock(c, keep, d, fragment, ended, b, last, max) ==
              if o.failure.Some? then BlockOutcome(o.d, last, b, Some(ConnectionError(COMPRESSION_ERROR)))
              else if ended then BlockOutcome(o.d, last, b, None)
              else if f.Err? then BlockOutcome(o.d, last, Skip(b, max), Some(f.error))
              else if !f.value.frame.body.ContinuationBody? then
                BlockOutcome(o.d, f.value.lastHeaderStream, f.value.rest, Some(ConnectionError(PROTOCOL_ERROR)))
              else ReadBlock(c, keep, o.d, f.value.frame.body.fragment, Has(f.value.frame.h.flags, END_HEADERS),
                             f.value.rest, f.value.lastHeaderStream, max)
      ensures !ended && ReadFrame(b, last, max).Ok? &&
                !Has(ReadFrame(b, last, max).value.frame.h.flags, END_HEADERS) ==>
                ReadFrame(b, last, max).value.lastHeaderStream != 0
    {
      hide Hpack.Write, Parse, ReadHeader, Has, Huffman.WellFormed;
    }

    /** An open block is only ever continued, so the merge never meets another kind of frame. */
    lemma OnlyContinuations(b: Str, last: nat, maxReadSize: nat)
      requires last != 0 && ReadFrame(b, last, maxReadSize).Ok?
      ensures ReadFrame(b, last, maxReadSize).value.frame.body.ContinuationBody?
    {
      hide ParseContinuation;
      var h := ReadHeader(b);
      assert h.kind == CONTINUATION;
      ContinuationParses(h, b[9..9 + h.length]);
    }

    lemma ContinuationParses(h: Header, p: seq<Byte>)
      requires h.kind == CONTINUATION && Parse(h, p).Ok?
      ensures Parse(h, p).value.ContinuationBody?
    {
    }

    lemma DecoderReady()
      requires hdec.Valid()
      ensures Huffman.WellFormed(hdec.Tables().code)
    {
    }

    /** The loop of readMetaFrame. */
    method MergeBlock(fragment: Str, ended: bool) returns (failure: Option<Error>)
      requires hdec.Valid() && (!ended ==> lastHeaderStream != 0)
      modifies this`lastHeaderStream, this`input, hdec, hdec.dynTab, hdec.dynTab.table
      ensures hdec.Valid() && hdec.Tables() == old(hdec.Tables()) && Huffman.WellFormed(hdec.Tables().code)
      ensures ReadBlock(hdec.Tables(), hdec.keep, old(hdec.Value()), fragment, ended, old(input),
                        old(lastHeaderStream), maxReadSize)
              == BlockOutcome(hdec.Value(), lastHeaderStream, input, failure)
    {
      hide Hpack.Write, ReadFrame, ReadBlock, Skip, Has, Huffman.WellFormed, HpackDecoder.Decoder.Value;
      hide HpackDecoder.Decoder.Tables, HpackDecoder.Decoder.Valid;
      DecoderReady();
      var frag, done := fragment, ended;
      ghost var c, keep, max := hdec.Tables(), hdec.keep, maxReadSize;
      ghost var goal := ReadBlock(c, keep, hdec.Value(), frag, done, input, lastHeaderStream, max);
      while true
        invariant hdec.Valid() && hdec.Tables() == c && (!done ==> lastHeaderStream != 0)
        invariant ReadBlock(c, keep, hdec.Value(), frag, done, input, lastHeaderStream, max) == goal
        decreases |input|
      {
        ghost var b, last := input, lastHeaderStream;
        ReadBlockIs(c, keep, hdec.Value(), frag, done, b, last, max);
        var e := hdec.Write(frag);
        if e.Some? {
          return Some(ConnectionError(COMPRESSION_ERROR));
        }
        if done {
          return None;
        }
        var f := NextFrame();
        if f.Err? {
          return Some(f.error);
        }
        OnlyContinuations(b, last, max);
        frag, done := f.value.body.fragment, Has(f.value.h.flags, END_HEADERS);
      }
    }

    /** Sets the decoder up for a block: emission on, a limit on strings, a new list. */
    method Prepare()
      requires hdec.Valid()
      modifies hdec
      ensures hdec.Valid() && hdec.Tables() == old(hdec.Tables())
      ensures hdec.Value() == old(hdec.Value()).(emitEnabled := true, maxStrLen := Limit(), emitted := [])
    {
      hdec.emitEnabled := true;
      hdec.maxStrLen := Limit();
      hdec.emitted := [];
    }

    /** Ends the block and judges its fields. */
    method Finish(hf: Frame) returns (r: Result<MetaFrame>)
      requires hdec.Valid() && hf.body.HeadersBody?
      modifies hdec
      ensures hdec.Valid() && hdec.Tables() == old(hdec.Tables())
      ensures hdec.Value() == Hpack.Close(old(hdec.Value())).d && r == Judge(Limit(), hf, old(hdec.Value()))
    {
      hide Fold, PseudosOk, PseudoFields;
      var m := Fold(Limit(), hdec.emitted);
      var e := hdec.Close();
      if e.Some? {
        return Err(ConnectionError(COMPRESSION_ERROR));
      }
      if m.invalid {
        return Err(StreamError(hf.h.id, PROTOCOL_ERROR));
      }
      var ok := CheckPseudos(m.fields);
      if !ok {
        return Err(StreamError(hf.h.id, PROTOCOL_ERROR));
      }
      return Ok(MetaFrame(hf.h, hf.body.priority, m.fields, m.truncated));
    }

    /** readMetaFrame: merges the block that a HEADERS frame starts, decodes it and checks the fields. */
    method MergeHeaders(hf: Frame) returns (r: Result<MetaFrame>)
      requires hdec.Valid() && hf.body.HeadersBody? && (!Has(hf.h.flags, END_HEADERS) ==> lastHeaderStream != 0)
      modifies this`lastHeaderStream, this`input, hdec, hdec.dynTab, hdec.dynTab.table
      ensures hdec.Valid() && hdec.Tables() == old(hdec.Tables()) && Huffman.WellFormed(hdec.Tables().code)
      ensures var d := old(hdec.Value()).(emitEnabled := true, maxStrLen := Limit(), emitted := []);
              var o := ReadBlock(hdec.Tables(), hdec.keep, d, hf.body.fragment, Has(hf.h.flags, END_HEADERS),
                                 old(input), old(lastHeaderStream), maxReadSize);
              && lastHeaderStream == o.lastHeaderStream && input == o.rest
              && hdec.Value() == (if o.failure.Some? then o.dec else Hpack.Close(o.dec).d)
              && r == (if o.failure.Some? then Err(o.failure.value) else Judge(Limit(), hf, o.dec))
    {
      hide ReadBlock, Judge, Hpack.Close, Has, HpackDecoder.Decoder.Tables, HpackDecoder.Decoder.Valid;
      hide HpackDecoder.Decoder.Value, Huffman.WellFormed;
      DecoderReady();
      Prepare();
      var failure := MergeBlock(hf.body.fragment, Has(hf.h.flags, END_HEADERS));
      if failure.Some? {
        return Err(failure.value);
      }
      r := Finish(hf);
    }

    /** ReadFrame with merging of header blocks. */
    method ReadNext() returns (r: Result<Item>)
      requires Valid()
      modifies this`lastHeaderStream, this`input, hdec, hdec.dynTab, hdec.dynTab.table
      ensures Valid() && hdec.Tables() == old(hdec.Tables()) && Huffman.WellFormed(hdec.Tables().code)
      ensures ReadItem(hdec.Tables(), old(Value()), old(input)) == ItemOutcome(Value(), input, r)
    {
      hide ReadItem, ReadBlock, Judge, Hpack.Close, ReadFrame, Skip, Has, HpackDecoder.Decoder.Tables;
      hide HpackDecoder.Decoder.Valid, HpackDecoder.Decoder.Value, Keeping, Huffman.WellFormed;
      DecoderReady();
      ghost var b, last := input, lastHeaderStream;
      ItemIs(hdec.Tables(), Value(), hdec.keep, b);
      var f := NextFrame();
      if f.Err? {
        return Err(f.error);
      }
      if f.value.body.HeadersBody? {
        HeadersOpen(b, last, maxReadSize);
        var m := MergeHeaders(f.value);
        if m.Err? {
          return Err(m.error);
        }
        return Ok(MetaItem(m.value));
      }
      return Ok(FrameItem(f.value));
    }

    ghost function Merged(c: Hpack.Shared, r: Reader, keep: Hpack.Keep, step: Step): BlockOutcome
      requires Huffman.WellFormed(c.code) && step.frame.body.HeadersBody?
    {
      ReadBlock(c, keep, r.dec.(emitEnabled := true, maxStrLen := ListLimit(r), emitted := []),
                step.frame.body.fragment, Has(step.frame.h.flags, END_HEADERS), step.rest,
                step.lastHeaderStream, r.maxReadSize)
    }

    ghost function Concluded(r: Reader, frame: Frame, o: BlockOutcome): ItemOutcome
      requires frame.body.HeadersBody?
    {
      var m := if o.failure.Some? then Err(o.failure.value) else Judge(ListLimit(r), frame, o.dec);
      var d := if o.failure.Some? then o.dec else Hpack.Close(o.dec).d;
      ItemOutcome(Reader(d, o.lastHeaderStream, r.maxReadSize, r.maxHeaderListSize), o.rest,
                  if m.Ok? then Ok(MetaItem(m.value)) else Err(m.error))
    }

    lemma ItemIs(c: Hpack.Shared, r: Reader, keep: Hpack.Keep, b: Str)
      requires Huffman.WellFormed(c.code) && keep == Keeping(ListLimit(r))
      ensures var f := ReadFrame(b, r.lastHeaderStream, r.maxReadSize);
              ReadItem(c, r, b) ==
              if f.Err? then ItemOutcome(r, Skip(b, r.maxReadSize), Err(f.error))
              else if f.value.frame.body.HeadersBody? then Concluded(r, f.value.frame, Merged(c, r, keep, f.value))
              else ItemOutcome(r.(lastHeaderStream := f.value.lastHeaderStream), f.value.rest,
                               Ok(FrameItem(f.value.frame)))
    {
      hide Keeping, ReadBlock, Judge, ReadFrame, Has, Huffman.WellFormed, Hpack.Close, Skip;
    }

    /** HEADERS without END_HEADERS leave their block open. */
    lemma HeadersOpen(b: Str, last: nat, maxReadSize: nat)
      requires ReadFrame(b, last, maxReadSize).Ok? && ReadFrame(b, last, maxReadSize).value.frame.body.HeadersBody?
      ensures var step := ReadFrame(b, last, maxReadSize).value;
              !Has(step.frame.h.flags, END_HEADERS) ==> step.lastHeaderStream != 0
    {
      var h := ReadHeader(b);
      HeadersKind(h, b[9..9 + h.length]);
    }

    lemma HeadersKind(h: Header, p: seq<Byte>)
      requires Parse(h, p).Ok? && Parse(h, p).value.HeadersBody?
      ensures h.kind == HEADERS && h.id != 0
    {
    }
  }
}
