/** What is written is read back, frame for frame, and the order that the reader enforces. */
module FrameRoundTrip {
  import opened Bits
  import opened Frames

  /** What the reader should find in the frame of a request. */
  function Content(q: Request): Body {
    match q
    case WriteData(_, _, data, _) => DataBody(data)
    case WriteHeaders(_, fragment, _, _, _, priority) => HeadersBody(priority, fragment)
    case WritePriority(_, priority) => PriorityBody(priority)
    case WriteRst(_, code) => RstBody(code)
    case WriteSettings(settings) => SettingsBody(SettingOctets(settings))
    case WriteSettingsAck => SettingsBody([])
    case WritePushPromise(_, promiseId, fragment, _, _) => PushPromiseBody(promiseId, fragment)
    case WritePing(_, ping) => PingBody(ping)
    case WriteGoAway(last, code, debug) => GoAwayBody(last % HALF, code, debug)
    case WriteWindowUpdate(_, increment) => WindowUpdateBody(increment)
    case WriteContinuation(_, _, fragment) => ContinuationBody(fragment)
    case WriteRaw(_, _, _, payload) => UnknownBody(payload)
  }

  function HeaderOf(q: Request): Header
    requires Accepts(q)
  {
    Header(|Payload(q)|, Kind(q), FlagsOf(q), StreamOf(q) % HALF)
  }

  function FrameOf(q: Request): Frame
    requires Accepts(q)
  {
    Frame(HeaderOf(q), Content(q))
  }

  /** A raw frame is of a type without a parser of its own. */
  predicate Extension(q: Request) {
    q.WriteRaw? ==> q.kind > CONTINUATION
  }

  /** The only thing a writer may send that the reader refuses: a first initial window beyond 2^31-1. */
  predicate Refused(q: Request) {
    q.WriteSettings? && WindowTooBig(q.settings)
  }

  // ---- One frame ----

  lemma {:induction false} SettingsBack(s: seq<Setting>)
    ensures GetSettings(SettingOctets(s)) == s
    decreases |s|
  {
    if s != [] {
      var rest := SettingOctets(s[1..]);
      var p := SettingOctets(s);
      assert p == Put16(s[0].id) + (Put32(s[0].val) + rest);
      Get16Put16(s[0].id, Put32(s[0].val) + rest);
      Get32Put32(s[0].val, rest);
      assert p[2..] == Put32(s[0].val) + rest;
      assert p[6..] == p[2..][4..] == rest;
      hide Get32, Get16, Put32, Put16;
      SettingsBack(s[1..]);
      assert [Setting(Get16(p), Get32(p[2..]))] == [s[0]];
    }
  }

  lemma PriorityBack(p: Priority, rest: seq<Byte>)
    requires p.dep < HALF
    ensures |PriorityOctets(p)| == 5 && GetPriority(PriorityOctets(p) + rest) == p
    ensures (PriorityOctets(p) + rest)[5..] == rest
  {
    hide Get32, Put32;
    var v := if p.exclusive then p.dep + HALF else p.dep;
    Get32Put32(v, [p.weight] + rest);
    assert PriorityOctets(p) + rest == Put32(v) + ([p.weight] + rest);
  }

  /** The flags octet of HEADERS holds each flag. */
  lemma HeadersFlags(a: bool, b: bool, c: bool, d: bool)
    ensures var f: int := Flag(a, PADDED) + Flag(b, END_STREAM) + Flag(c, END_HEADERS) + Flag(d, WITH_PRIORITY);
            && 0 <= f < 256 && Has(f, PADDED) == a && Has(f, END_STREAM) == b
            && Has(f, END_HEADERS) == c && Has(f, WITH_PRIORITY) == d
  {
  }

  lemma PaddingBack(flags: Byte, padLength: Byte, p: seq<Byte>)
    requires Has(flags, PADDED) == (padLength != 0)
    ensures Padding(flags, PadPrefix(padLength) + p) == Ok((p, padLength as nat))
  {
    if padLength != 0 { assert (PadPrefix(padLength) + p)[1..] == p; } else { assert PadPrefix(padLength) + p == p; }
  }

  lemma HeadersBack(q: Request)
    requires q.WriteHeaders? && Accepts(q)
    ensures ParseHeaders(HeaderOf(q), Payload(q)) == Ok(Content(q))
  {
    hide Has, Flag, GetPriority, PriorityOctets, Padding, PadPrefix;
    var prio := q.priority != NO_PRIORITY;
    HeadersFlags(q.padLength != 0, q.endStream, q.endHeaders, prio);
    var body := q.fragment + PadZeros(q.padLength);
    var tail := (if prio then PriorityOctets(q.priority) else []) + body;
    PaddingBack(FlagsOf(q), q.padLength, tail);
    if prio { PriorityBack(q.priority, body); } else { assert tail == body; }
    assert body[..|body| - q.padLength] == q.fragment;
  }

  lemma DataFlags(a: bool, b: bool)
    ensures var f: int := Flag(a, END_STREAM) + Flag(b, PADDED);
            0 <= f < 256 && Has(f, PADDED) == b && Has(f, END_STREAM) == a
  {
  }

  lemma DataBack(q: Request)
    requires q.WriteData? && Accepts(q)
    ensures ParseData(HeaderOf(q), Payload(q)) == Ok(Content(q))
  {
    hide Has, Flag;
    DataFlags(q.endStream, q.pad.Some?);
    if q.pad.Some? {
      var tail := q.data + q.pad.value;
      assert Payload(q) == [|q.pad.value|] + tail;
      assert Payload(q)[1..] == tail;
      assert tail[..|tail| - |q.pad.value|] == q.data;
    } else {
      assert q.data[..|q.data|] == q.data;
    }
  }

  lemma PushFlags(a: bool, b: bool)
    ensures var f: int := Flag(a, PADDED) + Flag(b, END_HEADERS);
            0 <= f < 256 && Has(f, PADDED) == a && Has(f, END_HEADERS) == b
  {
  }

  lemma PushPromiseBack(q: Request)
    requires q.WritePushPromise? && Accepts(q)
    ensures ParsePushPromise(HeaderOf(q), Payload(q)) == Ok(Content(q))
  {
    hide Has, Flag, Padding, PadPrefix, Get32, Put32;
    PushFlags(q.padLength != 0, q.endHeaders);
    var body := q.fragment + PadZeros(q.padLength);
    var tail := Put32(q.promiseId) + body;
    PaddingBack(FlagsOf(q), q.padLength, tail);
    Get32Put32(q.promiseId, body);
    assert tail[4..|tail| - q.padLength] == body[..|body| - q.padLength] == q.fragment;
  }

  lemma GoAwayBack(q: Request)
    requires q.WriteGoAway?
    ensures ParseGoAway(HeaderOf(q), Payload(q)) == Ok(Content(q))
  {
    hide Get32, Put32;
    var tail := Put32(q.code) + q.debug;
    Get32Put32(q.last % HALF, tail);
    Get32Put32(q.code, q.debug);
    assert Payload(q)[8..] == tail[4..];
  }

  lemma SmallBack(q: Request)
    requires Accepts(q) && (q.WriteRst? || q.WriteWindowUpdate? || q.WritePriority?)
    ensures Parse(HeaderOf(q), Payload(q)) == Ok(Content(q))
  {
    hide Get32, Put32, GetPriority, PriorityOctets;
    match q {
      case WriteRst(_, code) =>
        Get32Put32(code, []);
        assert Put32(code) + [] == Put32(code);
      case WriteWindowUpdate(_, increment) =>
        Get32Put32(increment, []);
        assert Put32(increment) + [] == Put32(increment);
      case WritePriority(_, priority) =>
        PriorityBack(priority, []);
        assert PriorityOctets(priority) + [] == PriorityOctets(priority);
    }
  }

  lemma SettingsFrameBack(q: Request)
    requires q.WriteSettings?
    ensures ParseSettings(HeaderOf(q), Payload(q)) ==
            if Refused(q) then Err(ConnectionError(FLOW_CONTROL_ERROR)) else Ok(Content(q))
  {
    SettingsBack(q.settings);
  }

  /** Each parser undoes its Write function. */
  lemma ParseBack(q: Request)
    requires Accepts(q) && Extension(q)
    ensures Parse(HeaderOf(q), Payload(q)) ==
            if Refused(q) then Err(ConnectionError(FLOW_CONTROL_ERROR)) else Ok(Content(q))
  {
    hide ParseHeaders, ParseData, ParsePushPromise, ParseGoAway, ParseSettings, Get32, Put32;
    match q
    case WriteData(_, _, _, _) => DataBack(q);
    case WriteHeaders(_, _, _, _, _, _) => HeadersBack(q);
    case WriteSettings(_) => SettingsFrameBack(q);
    case WriteSettingsAck => AckBack();
    case WritePushPromise(_, _, _, _, _) => PushPromiseBack(q);
    case WriteGoAway(_, _, _) => GoAwayBack(q);
    case WriteRst(_, _) => SmallBack(q);
    case WriteWindowUpdate(_, _) => SmallBack(q);
    case WritePriority(_, _) => SmallBack(q);
    case _ =>
  }

  lemma AckBack()
    ensures ParseSettings(HeaderOf(WriteSettingsAck), []) == Ok(SettingsBody([]))
  {
  }

  lemma HeaderBack(length: nat, kind: Byte, flags: Byte, id: U32, rest: seq<Byte>)
    requires length < MAX_FRAME
    ensures ReadHeader(HeaderOctets(length, kind, flags, id) + rest) == Header(length, kind, flags, id % HALF)
  {
    var b := HeaderOctets(length, kind, flags, id) + rest;
    Get32Put32(id, rest);
    assert b[5..] == Put32(id) + rest;
    hide Get32, Put32;
    assert length == length / 256 * 256 + length % 256;
    assert length / 256 == length / 0x1_0000 * 256 + length / 256 % 256;
  }

  /** One frame: whatever a Write function produces is read back, with the rest of the input left over. */
  lemma ReadWrite(q: Request, rest: seq<Byte>, maxReadSize: nat)
    requires Write(q).Ok? && |Payload(q)| <= maxReadSize && Extension(q)
    ensures ReadRaw(Write(q).value + rest, maxReadSize) ==
            if Refused(q) then Err(ConnectionError(FLOW_CONTROL_ERROR)) else Ok((FrameOf(q), rest))
  {
    hide Payload, Parse, HeaderOctets, ReadHeader, Content, Kind, FlagsOf, StreamOf, Accepts;
    var p := Payload(q);
    var h := HeaderOctets(|p|, Kind(q), FlagsOf(q), StreamOf(q));
    var b := Write(q).value + rest;
    assert b == h + (p + rest);
    HeaderBack(|p|, Kind(q), FlagsOf(q), StreamOf(q), p + rest);
    assert b[9..9 + |p|] == p && b[9 + |p|..] == rest;
    ParseBack(q);
  }

  // ---- Sequences ----

  /** The stream whose header block is open after a request. */
  function OpenAfter(q: Request, open: nat): nat {
    match q
    case WriteHeaders(id, _, _, endHeaders, _, _) => if endHeaders then 0 else id
    case WriteContinuation(id, endHeaders, _) => if endHeaders then 0 else id
    case _ => open
  }

  /** Header blocks are contiguous: an open one is only followed by a continuation on its stream. */
  predicate Contiguous(qs: seq<Request>, open: nat)
    decreases |qs|
  {
    qs != [] ==>
      && (if open == 0 then !qs[0].WriteContinuation? else qs[0].WriteContinuation? && qs[0].id == open)
      && Contiguous(qs[1..], OpenAfter(qs[0], open))
  }

  function OpenAfterAll(qs: seq<Request>, open: nat): nat
    decreases |qs|
  {
    if qs == [] then open else OpenAfterAll(qs[1..], OpenAfter(qs[0], open))
  }

  /** A request that can be written, is not too long for the reader and is not refused by it. */
  predicate Sendable(q: Request, maxReadSize: nat) {
    Write(q).Ok? && |Payload(q)| <= maxReadSize && Extension(q) && !Refused(q)
  }

  predicate AllSendable(qs: seq<Request>, maxReadSize: nat) {
    forall i :: 0 <= i < |qs| ==> Sendable(qs[i], maxReadSize)
  }

  function WriteAll(qs: seq<Request>, maxReadSize: nat): seq<Byte>
    requires AllSendable(qs, maxReadSize)
    decreases |qs|
  {
    if qs == [] then [] else Write(qs[0]).value + WriteAll(qs[1..], maxReadSize)
  }

  function FramesOf(qs: seq<Request>, maxReadSize: nat): seq<Frame>
    requires AllSendable(qs, maxReadSize)
    decreases |qs|
  {
    if qs == [] then [] else [FrameOf(qs[0])] + FramesOf(qs[1..], maxReadSize)
  }

  lemma EndHeadersFlag(q: Request)
    requires Accepts(q) && (q.WriteHeaders? || q.WriteContinuation?)
    ensures Has(FlagsOf(q), END_HEADERS) == q.endHeaders && StreamOf(q) == StreamOf(q) % HALF == q.id
  {
    if q.WriteHeaders? { HeadersFlags(q.padLength != 0, q.endStream, q.endHeaders, q.priority != NO_PRIORITY); }
  }

  lemma OrderAccepts(q: Request, open: nat)
    requires Accepts(q) && Extension(q)
    requires if open == 0 then !q.WriteContinuation? else q.WriteContinuation? && q.id == open
    ensures CheckOrder(open, HeaderOf(q)) == Ok(OpenAfter(q, open))
  {
    hide Payload;
    if q.WriteHeaders? || q.WriteContinuation? { EndHeadersFlag(q); }
  }

  /** Any contiguous sequence of frames, written back to back, is read back frame for frame. */
  lemma {:induction false} SequenceRoundTrip(qs: seq<Request>, open: nat, maxReadSize: nat)
    requires AllSendable(qs, maxReadSize) && Contiguous(qs, open)
    ensures ReadAll(WriteAll(qs, maxReadSize), open, maxReadSize) ==
              Reading(FramesOf(qs, maxReadSize), OpenAfterAll(qs, open), None)
    decreases |qs|
  {
    hide Payload, Parse, Content, Kind, FlagsOf, StreamOf, Accepts, CheckOrder, ReadRaw, HeaderOctets;
    if qs != [] {
      assert Sendable(qs[0], maxReadSize);
      var rest := WriteAll(qs[1..], maxReadSize);
      ReadWrite(qs[0], rest, maxReadSize);
      OrderAccepts(qs[0], open);
      WriteLength(qs[0]);
      SequenceRoundTrip(qs[1..], OpenAfter(qs[0], open), maxReadSize);
    }
  }

  lemma OrderRefuses(q: Request, open: nat)
    requires Accepts(q) && Extension(q)
    requires if open == 0 then q.WriteContinuation? else !(q.WriteContinuation? && q.id == open)
    ensures CheckOrder(open, HeaderOf(q)) == Err(ConnectionError(PROTOCOL_ERROR))
  {
    hide Payload;
    if q.WriteContinuation? { EndHeadersFlag(q); }
  }

  /** Exactly the contiguous sequences are read back; any other ends in a protocol error. */
  lemma {:induction false} SequenceExactly(qs: seq<Request>, open: nat, maxReadSize: nat)
    requires AllSendable(qs, maxReadSize)
    ensures var r := ReadAll(WriteAll(qs, maxReadSize), open, maxReadSize);
            && (r.error.None? <==> Contiguous(qs, open))
            && (r.error.Some? ==> r.error == Some(ConnectionError(PROTOCOL_ERROR)))
    decreases |qs|
  {
    hide Payload, Parse, Content, Kind, FlagsOf, StreamOf, Accepts, CheckOrder, ReadRaw, HeaderOctets;
    if qs != [] {
      assert Sendable(qs[0], maxReadSize);
      var q, rest := qs[0], WriteAll(qs[1..], maxReadSize);
      ReadWrite(q, rest, maxReadSize);
      WriteLength(q);
      if if open == 0 then !q.WriteContinuation? else q.WriteContinuation? && q.id == open {
        OrderAccepts(q, open);
        SequenceExactly(qs[1..], OpenAfter(q, open), maxReadSize);
      } else {
        OrderRefuses(q, open);
      }
    }
  }

  /** A PUSH_PROMISE that leaves its header block open, followed by the CONTINUATION that would close it, is
      refused, whatever comes before and after. */
  lemma OpenPromiseRefused(before: seq<Request>, p: Request, k: Request, after: seq<Request>, maxReadSize: nat)
    requires AllSendable(before + [p, k] + after, maxReadSize) && Contiguous(before, 0) && OpenAfterAll(before, 0) == 0
    requires p.WritePushPromise? && !p.endHeaders && k.WriteContinuation? && k.id == p.id
    ensures var r := ReadAll(WriteAll(before + [p, k] + after, maxReadSize), 0, maxReadSize);
            r.error == Some(ConnectionError(PROTOCOL_ERROR))
  {
    hide ReadAll, WriteAll, Sendable;
    var qs := [p, k] + after;
    assert before + [p, k] + after == before + qs;
    SequenceExactly(before + qs, 0, maxReadSize);
    ContiguousAppend(before, qs, 0);
    assert qs[0] == p && qs[1..][0] == k;
  }

  lemma {:induction false} ContiguousAppend(qs: seq<Request>, more: seq<Request>, open: nat)
    ensures Contiguous(qs + more, open) <==> Contiguous(qs, open) && Contiguous(more, OpenAfterAll(qs, open))
    decreases |qs|
  {
    if qs == [] {
      assert qs + more == more;
    } else {
      assert (qs + more)[1..] == qs[1..] + more;
      ContiguousAppend(qs[1..], more, OpenAfter(qs[0], open));
    }
  }

  lemma WriteLength(q: Request)
    requires Write(q).Ok?
    ensures |Write(q).value| == 9 + |Payload(q)|
  {
  }

  // ---- What an accepted sequence looks like ----

  /** A frame that leaves the header block of its stream open. */
  predicate LeavesOpen(h: Header) {
    (h.kind == HEADERS || h.kind == CONTINUATION) && !Has(h.flags, END_HEADERS)
  }

  predicate OpenPromise(h: Header) {
    h.kind == PUSH_PROMISE && !Has(h.flags, END_HEADERS)
  }

  predicate Continues(h: Header, next: Header) {
    next.kind == CONTINUATION && next.id == h.id
  }

  lemma ParsedId(h: Header, p: seq<Byte>)
    requires Parse(h, p).Ok? && (h.kind == HEADERS || h.kind == CONTINUATION)
    ensures h.id != 0
  {
  }

  /** Whatever is read: HEADERS or CONTINUATION without END_HEADERS is followed by a CONTINUATION of the
      same stream and by nothing else, and a CONTINUATION comes nowhere else. */
  lemma {:induction false} AcceptedOrder(b: seq<Byte>, last: nat, maxReadSize: nat)
    ensures var fs := ReadAll(b, last, maxReadSize).frames;
            && (fs != [] && last == 0 ==> fs[0].h.kind != CONTINUATION)
            && (fs != [] && last != 0 ==> fs[0].h.kind == CONTINUATION && fs[0].h.id == last)
            && forall i :: 0 <= i < |fs| - 1 ==>
                 if LeavesOpen(fs[i].h) then Continues(fs[i].h, fs[i + 1].h) else fs[i + 1].h.kind != CONTINUATION
    decreases |b|
  {
    hide Parse, ReadHeader;
    var r := ReadAll(b, last, maxReadSize);
    if b != [] && ReadFrame(b, last, maxReadSize).Ok? {
      var step := ReadFrame(b, last, maxReadSize).value;
      var h := step.frame.h;
      if h.kind == HEADERS || h.kind == CONTINUATION { ParsedId(ReadHeader(b), b[9..9 + ReadHeader(b).length]); }
      AcceptedOrder(step.rest, step.lastHeaderStream, maxReadSize);
      var fs := ReadAll(step.rest, step.lastHeaderStream, maxReadSize).frames;
      assert r.frames == [step.frame] + fs;
      forall i | 0 <= i < |r.frames| - 1
        ensures if LeavesOpen(r.frames[i].h) then Continues(r.frames[i].h, r.frames[i + 1].h)
                else r.frames[i + 1].h.kind != CONTINUATION
      {
        if i == 0 { assert r.frames[1] == fs[0]; } else { assert r.frames[i] == fs[i - 1] && r.frames[i + 1] == fs[i]; }
      }
    }
  }

  /** Every header block, PUSH_PROMISE included, is closed before anything else than its continuations. */
  predicate BlocksContiguous(fs: seq<Frame>) {
    forall i :: 0 <= i < |fs| - 1 ==> LeavesOpen(fs[i].h) || OpenPromise(fs[i].h) ==> Continues(fs[i].h, fs[i + 1].h)
  }

  /** The order check does not know PUSH_PROMISE: what it accepts is contiguous exactly when no
      PUSH_PROMISE in it leaves its block open before another frame. */
  lemma ContiguousExactly(b: seq<Byte>, last: nat, maxReadSize: nat)
    ensures var fs := ReadAll(b, last, maxReadSize).frames;
            BlocksContiguous(fs) <==> forall i :: 0 <= i < |fs| - 1 ==> !OpenPromise(fs[i].h)
  {
    AcceptedOrder(b, last, maxReadSize);
    hide ReadAll;
    var fs := ReadAll(b, last, maxReadSize).frames;
    if BlocksContiguous(fs) {
      forall i | 0 <= i < |fs| - 1 ensures !OpenPromise(fs[i].h) {
        assert !LeavesOpen(fs[i].h) ==> fs[i + 1].h.kind != CONTINUATION;
      }
    }
  }

  lemma PromiseThenPing(p: Request, ping: Request, maxReadSize: nat)
    requires Sendable(p, maxReadSize) && Sendable(ping, maxReadSize)
    requires p.WritePushPromise? && !p.endHeaders && ping.WritePing?
    ensures Accepts(p) && Accepts(ping) && AllSendable([p, ping], maxReadSize)
    ensures ReadAll(WriteAll([p, ping], maxReadSize), 0, maxReadSize) == Reading([FrameOf(p), FrameOf(ping)], 0, None)
    ensures !BlocksContiguous([FrameOf(p), FrameOf(ping)])
  {
    hide ReadAll, WriteAll, Payload;
    var qs, fs := [p, ping], [FrameOf(p), FrameOf(ping)];
    assert qs[1..] == [ping] && [ping][1..] == [];
    assert Contiguous([ping], 0) && OpenAfterAll([ping], 0) == 0;
    SequenceRoundTrip(qs, 0, maxReadSize);
    assert FramesOf([ping], maxReadSize) == [FrameOf(ping)] + FramesOf([], maxReadSize);
    assert FramesOf(qs, maxReadSize) == [FrameOf(p)] + FramesOf([ping], maxReadSize) == fs;
    assert fs[0] == FrameOf(p) && fs[1] == FrameOf(ping);
    PushFlags(p.padLength != 0, p.endHeaders);
    assert OpenPromise(fs[0].h) && !Continues(fs[0].h, fs[0 + 1].h);
  }

  /** An open PUSH_PROMISE may be followed by PING, and its own CONTINUATION is refused: both as octets
      that are written and read. */
  lemma OpenPromiseExample()
    ensures var p, k := WritePushPromise(1, 2, [], false, 0), WriteContinuation(1, true, []);
            var ping := WritePing(false, [0, 0, 0, 0, 0, 0, 0, 0]);
            && AllSendable([p, ping], 100) && AllSendable([p, k], 100)
            && ReadAll(WriteAll([p, ping], 100), 0, 100).error.None?
            && !BlocksContiguous(ReadAll(WriteAll([p, ping], 100), 0, 100).frames)
            && ReadAll(WriteAll([p, k], 100), 0, 100).error == Some(ConnectionError(PROTOCOL_ERROR))
  {
    hide ReadAll, WriteAll, Sendable, Accepts, BlocksContiguous, FrameOf;
    SmallRequests();
    var p, k := WritePushPromise(1, 2, [], false, 0), WriteContinuation(1, true, []);
    PromiseThenPing(p, WritePing(false, [0, 0, 0, 0, 0, 0, 0, 0]), 100);
    assert [] + [p, k] + [] == [p, k];
    OpenPromiseRefused([], p, k, [], 100);
  }

  lemma SmallRequests()
    ensures Sendable(WritePushPromise(1, 2, [], false, 0), 100)
    ensures Sendable(WritePing(false, [0, 0, 0, 0, 0, 0, 0, 0]), 100)
    ensures Sendable(WriteContinuation(1, true, []), 100)
  {
  }

  /** SETTINGS with an initial window of 2^31 can be written and are refused. */
  lemma WindowRefused(rest: seq<Byte>, maxReadSize: nat)
    requires maxReadSize >= 6
    ensures var q := WriteSettings([Setting(INITIAL_WINDOW_SIZE, 0x8000_0000)]);
            && Write(q).Ok? && ReadRaw(Write(q).value + rest, maxReadSize) == Err(ConnectionError(3))
  {
    var q := WriteSettings([Setting(INITIAL_WINDOW_SIZE, 0x8000_0000)]);
    assert |Payload(q)| == 6;
    hide ReadRaw;
    ReadWrite(q, rest, maxReadSize);
  }
}
