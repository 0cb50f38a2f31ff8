/** The writing half of the framer: a buffer that is filled and patched, and the scheduler's loop that
    cuts a header block into frames. */
module FrameWriter {
  import opened Bits
  import opened HeaderTable
  import opened Frames
  import opened FrameRoundTrip
  import opened MetaHeaders
  import HeaderBlock
  import Hpack
  import HpackEncoder

  class Writer {
    var wbuf: seq<Byte>
    var out: seq<Byte>

    constructor ()
      ensures out == []
    {
      wbuf, out := [], [];
    }

    /** A request was carried out: its octets were written, or nothing and the error is reported. */
    ghost predicate Did(q: Request, was: seq<Byte>, err: Option<Error>)
      reads this
    {
      match Write(q)
      case Ok(b) => err == None && out == was + b
      case Err(e) => err == Some(e) && out == was
    }

    method StartWrite(kind: Byte, flags: Byte, id: U32)
      modifies this`wbuf
      ensures wbuf == [0, 0, 0, kind, flags] + Put32(id)
    {
      wbuf := [0, 0, 0, kind, flags] + Put32(id);
    }

    /** Fills in the length and writes, unless the frame is too long. */
    method EndWrite(ghost q: Request) returns (err: Option<Error>)
      requires Accepts(q) && wbuf == [0, 0, 0, Kind(q), FlagsOf(q)] + Put32(StreamOf(q)) + Payload(q)
      modifies this
      ensures Did(q, old(out), err)
    {
      hide Payload, Kind, FlagsOf, StreamOf, Accepts, Put32;
      var length := |wbuf| - 9;
      if length >= MAX_FRAME {
        return Some(FrameTooLarge);
      }
      ghost var body := Payload(q);
      wbuf := [length / 0x1_0000, length / 256 % 256, length % 256] + wbuf[3..];
      assert wbuf == HeaderOctets(|body|, Kind(q), FlagsOf(q), StreamOf(q)) + body;
      out := out + wbuf;
      return None;
    }

    method WriteDataPadded(id: U32, endStream: bool, data: seq<Byte>,
                           pad: Option<seq<Byte>>) returns (err: Option<Error>)
      modifies this
      ensures Did(WriteData(id, endStream, data, pad), old(out), err)
    {
      hide Put32, Write, Payload, FlagsOf;
      ghost var q := WriteData(id, endStream, data, pad);
      Illegal(q);
      if !ValidId(id) {
        return Some(IllegalWrite);
      }
      if pad.Some? {
        if |pad.value| > 255 {
          return Some(IllegalWrite);
        }
        for i := 0 to |pad.value|
          invariant forall k :: 0 <= k < i ==> pad.value[k] == 0
        {
          if pad.value[i] != 0 {
            return Some(IllegalWrite);
          }
        }
      }
      StartWrite(DATA, Flag(endStream, END_STREAM) + Flag(pad.Some?, PADDED), id);
      ghost var head := wbuf;
      if pad.Some? {
        wbuf := wbuf + [|pad.value|];
      }
      wbuf := wbuf + data;
      if pad.Some? {
        wbuf := wbuf + pad.value;
      }
      DataOctets(q, head);
      err := EndWrite(q);
    }

    method WriteHeadersFrame(id: U32, fragment: seq<Byte>, endStream: bool, endHeaders: bool, padLength: Byte,
                             priority: Priority) returns (err: Option<Error>)
      modifies this
      ensures Did(WriteHeaders(id, fragment, endStream, endHeaders, padLength, priority), old(out), err)
    {
      hide Put32, Write, Payload, PadPrefix, FlagsOf;
      ghost var q := WriteHeaders(id, fragment, endStream, endHeaders, padLength, priority);
      Illegal(q);
      if !ValidId(id) {
        return Some(IllegalWrite);
      }
      var hasPriority := priority != NO_PRIORITY;
      StartWrite(HEADERS, Flag(padLength != 0, PADDED) + Flag(endStream, END_STREAM) + Flag(endHeaders, END_HEADERS)
                          + Flag(hasPriority, WITH_PRIORITY), id);
      ghost var head := wbuf;
      if padLength != 0 {
        wbuf := wbuf + [padLength];
      }
      assert wbuf == head + PadPrefix(padLength) by { PadPrefixIs(padLength, head); }
      if hasPriority {
        if priority.dep >= HALF {
          return Some(IllegalWrite);
        }
        wbuf := wbuf + Put32(if priority.exclusive then priority.dep + HALF else priority.dep);
        wbuf := wbuf + [priority.weight];
      }
      wbuf := wbuf + fragment;
      wbuf := wbuf + PadZeros(padLength);
      HeadersOctets(q, head);
      err := EndWrite(q);
    }

    method WritePriorityFrame(id: U32, priority: Priority) returns (err: Option<Error>)
      modifies this
      ensures Did(WritePriority(id, priority), old(out), err)
    {
      hide Put32;
      if !ValidId(id) || priority.dep >= HALF {
        return Some(IllegalWrite);
      }
      StartWrite(PRIORITY, 0, id);
      wbuf := wbuf + Put32(if priority.exclusive then priority.dep + HALF else priority.dep);
      wbuf := wbuf + [priority.weight];
      ghost var q := WritePriority(id, priority);
      assert wbuf == [0, 0, 0, Kind(q), FlagsOf(q)] + Put32(StreamOf(q)) + Payload(q);
      err := EndWrite(q);
    }

    method WriteRstStream(id: U32, code: U32) returns (err: Option<Error>)
      modifies this
      ensures Did(WriteRst(id, code), old(out), err)
    {
      hide Put32;
      if !ValidId(id) {
        return Some(IllegalWrite);
      }
      StartWrite(RST_STREAM, 0, id);
      wbuf := wbuf + Put32(code);
      err := EndWrite(WriteRst(id, code));
    }

    method WriteSettingsFrame(settings: seq<Setting>) returns (err: Option<Error>)
      modifies this
      ensures Did(WriteSettings(settings), old(out), err)
    {
      hide Put32, Put16;
      StartWrite(SETTINGS, 0, 0);
      ghost var head := wbuf;
      for i := 0 to |settings|
        invariant wbuf + SettingOctets(settings[i..]) == head + SettingOctets(settings) && out == old(out)
      {
        var s := settings[i];
        wbuf := wbuf + Put16(s.id);
        wbuf := wbuf + Put32(s.val);
        assert settings[i..][1..] == settings[i + 1..];
      }
      assert settings[|settings|..] == [] && wbuf + [] == wbuf;
      err := EndWrite(WriteSettings(settings));
    }

    method WriteSettingsAckFrame() returns (err: Option<Error>)
      modifies this
      ensures Did(WriteSettingsAck, old(out), err)
    {
      StartWrite(SETTINGS, ACK, 0);
      err := EndWrite(WriteSettingsAck);
    }

    method WritePushPromiseFrame(id: U32, promiseId: U32, fragment: seq<Byte>, endHeaders: bool,
                                 padLength: Byte) returns (err: Option<Error>)
      modifies this
      ensures Did(WritePushPromise(id, promiseId, fragment, endHeaders, padLength), old(out), err)
    {
      hide Put32, Write, Payload, PadPrefix, FlagsOf;
      ghost var q := WritePushPromise(id, promiseId, fragment, endHeaders, padLength);
      Illegal(q);
      if !ValidId(id) {
        return Some(IllegalWrite);
      }
      StartWrite(PUSH_PROMISE, PromiseFlags(endHeaders, padLength), id);
      ghost var head := wbuf;
      if padLength != 0 {
        wbuf := wbuf + [padLength];
      }
      assert wbuf == head + PadPrefix(padLength) by { PadPrefixIs(padLength, head); }
      if !ValidId(promiseId) {
        return Some(IllegalWrite);
      }
      wbuf := wbuf + Put32(promiseId);
      wbuf := wbuf + fragment;
      wbuf := wbuf + PadZeros(padLength);
      PushOctets(q, head);
      err := EndWrite(q);
    }

    method WritePingFrame(ack: bool, data: Octets8) returns (err: Option<Error>)
      modifies this
      ensures Did(WritePing(ack, data), old(out), err)
    {
      StartWrite(PING, Flag(ack, ACK), 0);
      wbuf := wbuf + data;
      err := EndWrite(WritePing(ack, data));
    }

    method WriteGoAwayFrame(maxStreamID: U32, code: U32, debug: seq<Byte>) returns (err: Option<Error>)
      modifies this
      ensures Did(WriteGoAway(maxStreamID, code, debug), old(out), err)
    {
      hide Put32;
      StartWrite(GOAWAY, 0, 0);
      ghost var head := wbuf;
      wbuf := wbuf + Put32(maxStreamID % HALF);
      wbuf := wbuf + Put32(code);
      wbuf := wbuf + debug;
      assert wbuf == head + Payload(WriteGoAway(maxStreamID, code, debug));
      err := EndWrite(WriteGoAway(maxStreamID, code, debug));
    }

    method WriteWindowUpdateFrame(id: U32, increment: U32) returns (err: Option<Error>)
      modifies this
      ensures Did(WriteWindowUpdate(id, increment), old(out), err)
    {
      hide Put32;
      if increment < 1 || increment > 2147483647 {
        return Some(IllegalWrite);
      }
      StartWrite(WINDOW_UPDATE, 0, id);
      wbuf := wbuf + Put32(increment);
      err := EndWrite(WriteWindowUpdate(id, increment));
    }

    method WriteContinuationFrame(id: U32, endHeaders: bool, fragment: seq<Byte>) returns (err: Option<Error>)
      modifies this
      ensures Did(WriteContinuation(id, endHeaders, fragment), old(out), err)
    {
      if !ValidId(id) {
        return Some(IllegalWrite);
      }
      StartWrite(CONTINUATION, Flag(endHeaders, END_HEADERS), id);
      wbuf := wbuf + fragment;
      err := EndWrite(WriteContinuation(id, endHeaders, fragment));
    }

    method WriteRawFrame(kind: Byte, flags: Byte, id: U32, payload: seq<Byte>) returns (err: Option<Error>)
      modifies this
      ensures Did(WriteRaw(kind, flags, id, payload), old(out), err)
    {
      StartWrite(kind, flags, id);
      wbuf := wbuf + payload;
      err := EndWrite(WriteRaw(kind, flags, id, payload));
    }

    /** The loop of writeHeader: HEADERS first, then CONTINUATION until the block is used up. */
    method WriteBlock(id: U32, endStream: bool, block: Str, maxFrameSize: nat) returns (err: Option<Error>)
      requires ValidId(id) && 1 <= maxFrameSize < MAX_FRAME
      modifies this
      ensures AllSendable(SplitBlock(id, endStream, block, maxFrameSize, true), maxFrameSize)
      ensures err == None
      ensures out == old(out) + WriteAll(SplitBlock(id, endStream, block, maxFrameSize, true), maxFrameSize)
    {
      hide Write, Accepts, WriteAll, SplitBlock;
      HeaderBlock.SplitSendable(id, endStream, block, maxFrameSize, true, maxFrameSize);
      var first, endHeaders := true, false;
      var hBuf := block;
      ghost var goal := old(out) + WriteAll(SplitBlock(id, endStream, block, maxFrameSize, true), maxFrameSize);
      while !endHeaders
        invariant endHeaders ==> out == goal
        invariant !endHeaders ==>
                    && AllSendable(SplitBlock(id, endStream, hBuf, maxFrameSize, first), maxFrameSize)
                    && out + WriteAll(SplitBlock(id, endStream, hBuf, maxFrameSize, first), maxFrameSize) == goal
        decreases !endHeaders, |hBuf|
      {
        var size := |hBuf|;
        if size > maxFrameSize {
          size := maxFrameSize;
        } else {
          endHeaders := true;
        }
        ghost var was := out;
        ghost var q := HeadRequest(id, endStream, hBuf, maxFrameSize, first);
        HeadWritten(id, endStream, hBuf, maxFrameSize, first);
        if first {
          first := false;
          err := WriteHeadersFrame(id, hBuf[..size], endStream, endHeaders, 0, NO_PRIORITY);
        } else {
          err := WriteContinuationFrame(id, endHeaders, hBuf[..size]);
        }
        hBuf := hBuf[size..];
        if err.Some? {
          return;
        }
        assert out == was + Write(q).value;
        if !endHeaders {
          HeaderBlock.SplitSendable(id, endStream, hBuf, maxFrameSize, false, maxFrameSize);
        }
      }
      err := None;
    }
  }

  lemma Illegal(q: Request)
    ensures !Accepts(q) ==> Write(q) == Err(IllegalWrite)
  {
  }

  function PromiseFlags(endHeaders: bool, padLength: Byte): Byte {
    Flag(padLength != 0, PADDED) + Flag(endHeaders, END_HEADERS)
  }

  lemma PadPrefixIs(padLength: Byte, head: seq<Byte>)
    ensures head + PadPrefix(padLength) == if padLength != 0 then head + [padLength] else head
  {
  }

  lemma DataOctets(q: Request, head: seq<Byte>)
    requires q.WriteData? && Accepts(q)
    ensures head + Payload(q) == if q.pad.Some? then head + [|q.pad.value|] + q.data + q.pad.value else head + q.data
    ensures FlagsOf(q) == Flag(q.endStream, END_STREAM) + Flag(q.pad.Some?, PADDED)
  {
  }

  lemma HeadersOctets(q: Request, head: seq<Byte>)
    requires q.WriteHeaders? && Accepts(q)
    ensures var p := head + PadPrefix(q.padLength);
            var dep := if q.priority.exclusive then q.priority.dep + HALF else q.priority.dep;
            if q.priority == NO_PRIORITY then p + q.fragment + PadZeros(q.padLength) == head + Payload(q)
            else
              dep < WORD
              && p + Put32(dep) + [q.priority.weight] + q.fragment + PadZeros(q.padLength) == head + Payload(q)
    ensures FlagsOf(q) == Flag(q.padLength != 0, PADDED) + Flag(q.endStream, END_STREAM) +
              Flag(q.endHeaders, END_HEADERS) + Flag(q.priority != NO_PRIORITY, WITH_PRIORITY)
  {
    hide Put32, PadPrefix;
  }

  lemma PushOctets(q: Request, head: seq<Byte>)
    requires q.WritePushPromise? && Accepts(q)
    ensures head + PadPrefix(q.padLength) + Put32(q.promiseId) + q.fragment + PadZeros(q.padLength) == head + Payload(q)
    ensures FlagsOf(q) == PromiseFlags(q.endHeaders, q.padLength)
  {
    hide Put32, PadPrefix;
  }

  /** The first frame of what is left of a block can be written, and the others follow it. */
  lemma HeadWritten(id: U32, endStream: bool, block: Str, maxFrameSize: nat, first: bool)
    requires ValidId(id) && 1 <= maxFrameSize < MAX_FRAME
    requires AllSendable(SplitBlock(id, endStream, block, maxFrameSize, first), maxFrameSize)
    ensures Write(HeadRequest(id, endStream, block, maxFrameSize, first)).Ok?
    ensures |block| > maxFrameSize ==>
              AllSendable(SplitBlock(id, endStream, block[maxFrameSize..], maxFrameSize, false), maxFrameSize)
    ensures WriteAll(SplitBlock(id, endStream, block, maxFrameSize, first), maxFrameSize) ==
            Write(HeadRequest(id, endStream, block, maxFrameSize, first)).value
            + if |block| <= maxFrameSize then []
              else WriteAll(SplitBlock(id, endStream, block[maxFrameSize..], maxFrameSize, false), maxFrameSize)
  {
    hide Write, HeadRequest;
    var qs := SplitBlock(id, endStream, block, maxFrameSize, first);
    HeaderBlock.SplitTail(id, endStream, block, maxFrameSize, first);
    assert Sendable(qs[0], maxFrameSize);
    assert forall i :: 0 <= i < |qs[1..]| ==> qs[1..][i] == qs[i + 1];
  }

  /** writeHeader: the list through the encoder, and its block into frames. */
  method WriteHeader(w: Writer, hEnc: HpackEncoder.Encoder, id: U32, endStream: bool, fs: seq<HeaderField>,
                     maxFrameSize: nat)
    requires hEnc.Valid() && ValidId(id) && 1 <= maxFrameSize < MAX_FRAME
    modifies w, hEnc, hEnc.dynTab, hEnc.dynTab.table
    ensures hEnc.Valid() && hEnc.Tables() == old(hEnc.Tables())
    ensures hEnc.Value() == Hpack.WriteFields(hEnc.Tables(), old(hEnc.Value()), fs).0
    ensures w.out == old(w.out) +
              HeaderBlock.BlockFrames(hEnc.Tables(), old(hEnc.Value()), fs, id, endStream, maxFrameSize, maxFrameSize)
  {
    hide Hpack.WriteField, SplitBlock, WriteAll, HpackEncoder.Encoder.Valid, HpackEncoder.Encoder.Value;
    hide HpackEncoder.Encoder.Tables;
    var hBuf: Str := [];
    ghost var all := Hpack.WriteFields(hEnc.Tables(), hEnc.Value(), fs).1;
    assert fs[0..] == fs && [] + all == all;
    for i := 0 to |fs|
      invariant hEnc.Valid() && hEnc.Tables() == old(hEnc.Tables()) && w.out == old(w.out)
      invariant var (e, b) := Hpack.WriteFields(hEnc.Tables(), hEnc.Value(), fs[i..]);
                Hpack.WriteFields(hEnc.Tables(), old(hEnc.Value()), fs) == (e, hBuf + b)
    {
      assert fs[i..][1..] == fs[i + 1..];
      ghost var e0, h0 := hEnc.Value(), hBuf;
      var b := hEnc.WriteField(fs[i]);
      hBuf := hBuf + b;
      ghost var rest := Hpack.WriteFields(hEnc.Tables(), hEnc.Value(), fs[i + 1..]);
      assert h0 + (b + rest.1) == hBuf + rest.1;
    }
    assert fs[|fs|..] == [] && hBuf + [] == hBuf;
    var _ := w.WriteBlock(id, endStream, hBuf, maxFrameSize);
  }
}
