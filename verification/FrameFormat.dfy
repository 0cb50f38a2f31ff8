/** The format of frames in numbers (section 4.1, 6 and 7 of RFC 7540), which frames the reader refuses and with
    which error, and that whatever it accepts could have been written. */
module FrameFormat {
  import opened Bits
  import opened Frames
  import opened FrameRoundTrip

  // ---- The header of a frame ----

  function KindNumber(q: Request): Byte {
    match q
    case WriteData(_, _, _, _) => 0
    case WriteHeaders(_, _, _, _, _, _) => 1
    case WritePriority(_, _) => 2
    case WriteRst(_, _) => 3
    case WriteSettings(_) => 4
    case WriteSettingsAck => 4
    case WritePushPromise(_, _, _, _, _) => 5
    case WritePing(_, _) => 6
    case WriteGoAway(_, _, _) => 7
    case WriteWindowUpdate(_, _) => 8
    case WriteContinuation(_, _, _) => 9
    case WriteRaw(kind, _, _, _) => kind
  }

  /** Bit 0 ends the stream or acknowledges, bit 2 ends the headers, bit 3 is padding, bit 5 priority. */
  predicate FlagNumber(q: Request, f: Byte) {
    match q
    case WriteData(_, endStream, _, pad) => f == (if endStream then 1 else 0) + (if pad.Some? then 8 else 0)
    case WriteHeaders(_, _, endStream, endHeaders, padLength, priority) =>
      f == (if endStream then 1 else 0) + (if endHeaders then 4 else 0) + (if padLength > 0 then 8 else 0)
           + (if priority != NO_PRIORITY then 32 else 0)
    case WriteSettingsAck => f == 1
    case WritePushPromise(_, _, _, endHeaders, padLength) =>
      f == (if endHeaders then 4 else 0) + (if padLength > 0 then 8 else 0)
    case WritePing(ack, _) => f == if ack then 1 else 0
    case WriteContinuation(_, endHeaders, _) => f == if endHeaders then 4 else 0
    case WriteRaw(_, flags, _, _) => f == flags
    case _ => f == 0
  }

  /** Length in three octets, type, flags and the stream in four, most significant first; then the payload. */
  lemma HeaderNumbers(q: Request)
    requires Write(q).Ok?
    ensures var w := Write(q).value;
            && |w| >= 9 && w[0] as int * 65536 + w[1] as int * 256 + w[2] as int == |w| - 9
            && w[3] == KindNumber(q) && FlagNumber(q, w[4])
            && w[5] as int * 16777216 + w[6] as int * 65536 + w[7] as int * 256 + w[8] as int == StreamOf(q)
            && w[9..] == Payload(q)
  {
    hide Payload;
    var p := Payload(q);
    HeaderBack(|p|, Kind(q), FlagsOf(q), StreamOf(q), p);
    var w := Write(q).value;
    var id := StreamOf(q);
    assert w == HeaderOctets(|p|, Kind(q), FlagsOf(q), id) + p;
    Get32Put32(id, p);
    assert w[5..] == Put32(id) + p;
    hide Kind, FlagsOf, StreamOf, KindNumber, FlagNumber;
    assert Kind(q) == KindNumber(q) && FlagNumber(q, FlagsOf(q)) by { FlagsAre(q); }
  }

  lemma FlagsAre(q: Request)
    ensures Kind(q) == KindNumber(q) && FlagNumber(q, FlagsOf(q))
  {
  }

  /** The number in four octets, most significant first. */
  function Number(p: seq<Byte>, i: nat): int
    requires i + 4 <= |p|
  {
    p[i] as int * 16777216 + p[i + 1] as int * 65536 + p[i + 2] as int * 256 + p[i + 3] as int
  }

  lemma NumberPut(v: U32, before: seq<Byte>, rest: seq<Byte>)
    ensures var p := before + Put32(v) + rest; Number(p, |before|) == v
  {
    Get32Put32(v, rest);
    var p, n := before + Put32(v) + rest, |before|;
    assert p[n..] == Put32(v) + rest;
    hide Put32;
    assert p[n] == p[n..][0] && p[n + 1] == p[n..][1] && p[n + 2] == p[n..][2] && p[n + 3] == p[n..][3];
  }

  /** The numbers in a payload, where they are; reserved bits are clear. */
  predicate PayloadNumber(q: Request, p: seq<Byte>) {
    match q
    case WriteRst(_, code) => |p| == 4 && Number(p, 0) == code
    case WriteWindowUpdate(_, increment) => |p| == 4 && Number(p, 0) == increment
    case WriteGoAway(last, code, debug) =>
      |p| == 8 + |debug| && Number(p, 0) == last % 2147483648 && Number(p, 4) == code && p[8..] == debug
    case WritePriority(_, s) =>
      |p| == 5 && Number(p, 0) == s.dep + (if s.exclusive then 2147483648 else 0) && p[4] == s.weight
    case WritePushPromise(_, promiseId, fragment, _, padLength) =>
      var n := if padLength > 0 then 1 else 0;
      && |p| == n + 4 + |fragment| + padLength && Number(p, n) == promiseId && p[n + 4..n + 4 + |fragment|] == fragment
      && (padLength > 0 ==> p[0] == padLength)
    case _ => true
  }

  lemma PlainNumber(v: U32, rest: seq<Byte>)
    ensures |Put32(v) + rest| == 4 + |rest| && Number(Put32(v) + rest, 0) == v && (Put32(v) + rest)[4..] == rest
  {
    hide Put32, Number;
    NumberPut(v, [], rest);
    assert [] + Put32(v) + rest == Put32(v) + rest;
  }

  lemma GoAwayNumbers(q: Request)
    requires q.WriteGoAway?
    ensures PayloadNumber(q, Payload(q))
  {
    hide Put32, Number;
    var a, b := Put32(q.last % HALF), Put32(q.code) + q.debug;
    PlainNumber(q.last % HALF, b);
    NumberPut(q.code, a, q.debug);
    assert a + b == a + Put32(q.code) + q.debug;
    assert (a + b)[8..] == q.debug;
  }

  lemma PushNumbers(q: Request)
    requires q.WritePushPromise? && Accepts(q)
    ensures PayloadNumber(q, Payload(q))
  {
    hide Put32, Number;
    var before, rest := PadPrefix(q.padLength), q.fragment + PadZeros(q.padLength);
    NumberPut(q.promiseId, before, rest);
    var p := before + Put32(q.promiseId) + rest;
    assert Payload(q) == before + (Put32(q.promiseId) + rest) == p;
    var n := |before|;
    assert p[n + 4..n + 4 + |q.fragment|] == rest[..|q.fragment|] == q.fragment;
  }

  lemma PayloadNumbers(q: Request)
    requires Accepts(q)
    ensures PayloadNumber(q, Payload(q))
  {
    hide Put32, Number;
    match q {
      case WriteRst(_, code) =>
        PlainNumber(code, []);
        assert Put32(code) + [] == Put32(code);
      case WriteWindowUpdate(_, increment) =>
        PlainNumber(increment, []);
        assert Put32(increment) + [] == Put32(increment);
      case WriteGoAway(_, _, _) => GoAwayNumbers(q);
      case WritePriority(_, s) => PlainNumber(if s.exclusive then s.dep + HALF else s.dep, [s.weight]);
      case WritePushPromise(_, _, _, _, _) => PushNumbers(q);
      case _ =>
    }
  }

  /** A stream number that a frame of a stream may have. */
  predicate Numbered(id: U32) { 1 <= id <= 2147483647 }

  /** What a Write function refuses to write at all. */
  predicate Illegal(q: Request) {
    match q
    case WriteData(id, _, _, pad) =>
      !Numbered(id) || (pad.Some? && (|pad.value| > 255 || exists i :: 0 <= i < |pad.value| && pad.value[i] != 0))
    case WriteHeaders(id, _, _, _, _, p) => !Numbered(id) || (p != Priority(0, false, 0) && p.dep > 2147483647)
    case WritePriority(id, p) => !Numbered(id) || p.dep > 2147483647
    case WriteRst(id, _) => !Numbered(id)
    case WritePushPromise(id, promiseId, _, _, _) => !Numbered(id) || !Numbered(promiseId)
    case WriteWindowUpdate(_, increment) => !(1 <= increment <= 2147483647)
    case WriteContinuation(id, _, _) => !Numbered(id)
    case _ => false
  }

  /** A frame is written unless it is illegal, or its payload does not fit three octets of length. */
  lemma WrittenExactly(q: Request)
    ensures Write(q) == Err(IllegalWrite) <==> Illegal(q)
    ensures Write(q) == Err(FrameTooLarge) <==> !Illegal(q) && |Payload(q)| >= 16777216
    ensures Write(q).Ok? <==> !Illegal(q) && |Payload(q)| < 16777216
  {
    hide Payload;
  }

  // ---- What the reader refuses ----

  /** Types of frames that belong to a stream: DATA, HEADERS, PRIORITY, RST_STREAM, PUSH_PROMISE, CONTINUATION. */
  predicate OnStream(kind: Byte) { kind in {0, 1, 2, 3, 5, 9} }

  /** SETTINGS, PING and GOAWAY belong to the connection. */
  predicate OnConnection(kind: Byte) { kind in {4, 6, 7} }

  /** The length of a payload that a type prescribes. */
  predicate GoodLength(kind: Byte, flags: Byte, n: nat) {
    && (kind == 2 ==> n == 5) && (kind == 3 ==> n == 4) && (kind == 6 ==> n == 8) && (kind == 7 ==> n >= 8)
    && (kind == 8 ==> n == 4) && (kind == 4 ==> n % 6 == 0 && (flags % 2 == 1 ==> n == 0))
  }

  predicate Placed(h: Header) {
    (OnStream(h.kind) ==> h.id != 0) && (OnConnection(h.kind) ==> h.id == 0)
  }

  /** A frame on the wrong kind of stream is a PROTOCOL_ERROR of the connection, 1, and one of the wrong length a
      FRAME_SIZE_ERROR, 6; no other frame is the latter. */
  lemma Misplaced(h: Header, p: seq<Byte>)
    requires h.length == |p|
    ensures var good := GoodLength(h.kind, h.flags, |p|);
            && (!Placed(h) && good ==> Parse(h, p) == Err(ConnectionError(1)))
            && (Placed(h) && !good ==> Parse(h, p) == Err(ConnectionError(6)))
            && (!Placed(h) && !good ==> Parse(h, p) in {Err(ConnectionError(1)), Err(ConnectionError(6))})
            && (good ==> Parse(h, p) != Err(ConnectionError(6)))
  {
    hide Get32, GetSettings, WindowTooBig;
  }

  /** A window update of nothing is an error of its stream, or of the connection. */
  lemma EmptyUpdate(h: Header, p: seq<Byte>)
    requires h.kind == 8 && |p| == 4 && p[0] % 128 == 0 && p[1] == p[2] == p[3] == 0
    ensures Parse(h, p) == if h.id == 0 then Err(ConnectionError(1)) else Err(StreamError(h.id, 1))
  {
  }

  /** The setting at `i` is the first initial window, and is 2^31 or more. */
  predicate BigWindow(ss: seq<Setting>, i: nat) {
    i < |ss| && ss[i].id == 4 && ss[i].val >= 2147483648 && forall j :: 0 <= j < i ==> ss[j].id != 4
  }

  /** The initial window among settings is the first one given; from 2^31 on it is too big. */
  lemma {:induction false} FirstWindow(ss: seq<Setting>)
    ensures WindowTooBig(ss) <==> exists i: nat :: BigWindow(ss, i)
    decreases |ss|
  {
    if ss != [] {
      var rest := ss[1..];
      FirstWindow(rest);
      assert forall i :: 0 <= i < |rest| ==> rest[i] == ss[i + 1];
      if ss[0].id != 4 && WindowTooBig(rest) {
        var i: nat :| BigWindow(rest, i);
        assert BigWindow(ss, i + 1) by { assert forall j :: 1 <= j < i + 1 ==> ss[j] == rest[j - 1]; }
      }
      if ss[0].id == 4 && ss[0].val >= 2147483648 { assert BigWindow(ss, 0); }
      if i: nat :| i > 0 && BigWindow(ss, i) {
        assert BigWindow(rest, i - 1) by { assert forall j :: 0 <= j < i - 1 ==> rest[j] == ss[j + 1]; }
      }
    }
  }

  /** SETTINGS with such a window are a FLOW_CONTROL_ERROR, 3. */
  lemma WindowError(h: Header, p: seq<Byte>)
    requires h.kind == 4 && h.id == 0 && h.length == |p| && GoodLength(4, h.flags, |p|) && WindowTooBig(GetSettings(p))
    ensures Parse(h, p) == Err(ConnectionError(3))
  {
    hide GetSettings, WindowTooBig;
  }

  /** Padding beyond the payload: an error of the connection, or for HEADERS of the stream. */
  lemma TooMuchPadding(h: Header, p: seq<Byte>)
    requires h.id != 0 && Has(h.flags, 8) && p != []
    ensures h.kind == 0 && p[0] as int > |p| - 1 ==> Parse(h, p) == Err(ConnectionError(1))
    ensures var used := if Has(h.flags, 32) then 6 else 1;
            h.kind == 1 && |p| >= used && p[0] as int > |p| - used ==> Parse(h, p) == Err(StreamError(h.id, 1))
    ensures h.kind == 5 && |p| >= 5 && p[0] as int > |p| - 5 ==> Parse(h, p) == Err(ConnectionError(1))
  {
    hide Has, Get32, GetPriority;
  }

  /** A payload that ends before what its flags announce. */
  lemma CutShort(h: Header, p: seq<Byte>)
    requires h.id != 0 && h.kind in {0, 1, 5}
    ensures Has(h.flags, 8) && p == [] ==> Parse(h, p) == Err(UnexpectedEOF)
    ensures h.kind == 1 && Has(h.flags, 32) && |p| < (if Has(h.flags, 8) then 6 else 5) ==>
              Parse(h, p) == Err(UnexpectedEOF)
    ensures h.kind == 5 && |p| < (if Has(h.flags, 8) then 5 else 4) ==> Parse(h, p) == Err(UnexpectedEOF)
  {
    hide Has, Get32, GetPriority;
  }

  /** Frames longer than the reader allows, and input that ends before a frame does. */
  lemma TooLongOrShort(b: seq<Byte>, max: nat)
    ensures |b| < 9 ==> ReadRaw(b, max) == Err(UnexpectedEOF)
    ensures |b| >= 9 ==>
              var n := b[0] as int * 65536 + b[1] as int * 256 + b[2] as int;
              (n > max ==> ReadRaw(b, max) == Err(FrameTooLarge)) &&
              (n <= max && |b| < 9 + n ==> ReadRaw(b, max) == Err(UnexpectedEOF))
  {
    hide Parse;
  }

  /** After a frame of any kind, refused or not, reading goes on behind it. */
  lemma GoesOn(kind: Byte, flags: Byte, id: U32, p: seq<Byte>, rest: seq<Byte>, max: nat)
    requires |p| <= max && |p| < MAX_FRAME
    ensures var b := HeaderOctets(|p|, kind, flags, id) + p + rest;
            && Skip(b, max) == rest
            && (ReadRaw(b, max).Ok? ==> ReadRaw(b, max).value.1 == rest)
  {
    hide Parse, HeaderOctets, ReadHeader;
    var h := HeaderOctets(|p|, kind, flags, id);
    var b := h + p + rest;
    assert b == h + (p + rest);
    HeaderBack(|p|, kind, flags, id, p + rest);
    assert b[9 + |p|..] == rest;
  }

  // ---- What it accepts could have been written ----

  /** The request that writes the content of a frame, without padding. */
  function Rewritten(f: Frame): Request
    requires f.h.id < HALF && (f.body.PingBody? ==> |f.body.data| == 8)
    requires f.body.RstBody? ==> f.body.code < WORD
    requires f.body.PushPromiseBody? ==> f.body.promiseId < WORD
    requires f.body.GoAwayBody? ==> f.body.last < WORD && f.body.code < WORD
    requires f.body.WindowUpdateBody? ==> f.body.increment < WORD
  {
    var es, eh := Has(f.h.flags, 1), Has(f.h.flags, 4);
    match f.body
    case DataBody(data) => WriteData(f.h.id, es, data, None)
    case HeadersBody(priority, fragment) => WriteHeaders(f.h.id, fragment, es, eh, 0, priority)
    case PriorityBody(priority) => WritePriority(f.h.id, priority)
    case RstBody(code) => WriteRst(f.h.id, code)
    case SettingsBody(p) => if es then WriteSettingsAck else WriteSettings(GetSettings(p))
    case PushPromiseBody(promiseId, fragment) => WritePushPromise(f.h.id, promiseId, fragment, eh, 0)
    case PingBody(data) => WritePing(es, data)
    case GoAwayBody(last, code, debug) => WriteGoAway(last, code, debug)
    case WindowUpdateBody(increment) => WriteWindowUpdate(f.h.id, increment)
    case ContinuationBody(fragment) => WriteContinuation(f.h.id, eh, fragment)
    case UnknownBody(p) => WriteRaw(f.h.kind, f.h.flags, f.h.id, p)
  }

  lemma {:induction false} SettingsWritten(p: seq<Byte>)
    requires |p| % 6 == 0
    ensures SettingOctets(GetSettings(p)) == p
    decreases |p|
  {
    if |p| >= 6 {
      hide Get32, Get16;
      SettingsWritten(p[6..]);
      var s := GetSettings(p);
      assert s[1..] == GetSettings(p[6..]);
      Put16Get16(p);
      Put32Get32(p[2..]);
      assert p == p[..2] + p[2..][..4] + p[6..];
    }
  }

  lemma Put32Get32(p: seq<Byte>)
    requires |p| >= 4
    ensures Put32(Get32(p)) == p[..4]
  {
    var v := Get32(p);
    assert v / 0x100_0000 == p[0] && v / 0x1_0000 == p[0] as int * 256 + p[1] as int;
    assert v / 256 == p[0] as int * 0x1_0000 + p[1] as int * 256 + p[2] as int;
  }

  lemma Put16Get16(p: seq<Byte>)
    requires |p| >= 2
    ensures Put16(Get16(p)) == p[..2]
  {
  }

  /** What the parser of each type leaves: numbers in range, a stream where there must be one. */
  ghost predicate Sound(h: Header, body: Body) {
    && Placed(h)
    && (match body
        case DataBody(_) => h.kind == 0
        case HeadersBody(priority, _) => h.kind == 1 && priority.dep < HALF
        case PriorityBody(priority) => h.kind == 2 && priority.dep < HALF
        case RstBody(code) => h.kind == 3 && code < WORD
        case SettingsBody(p) => h.kind == 4 && |p| % 6 == 0 && (Has(h.flags, 1) ==> p == [])
        case PushPromiseBody(promiseId, _) => h.kind == 5 && promiseId < HALF
        case PingBody(data) => h.kind == 6 && |data| == 8
        case GoAwayBody(last, code, _) => h.kind == 7 && last < HALF && code < WORD
        case WindowUpdateBody(increment) => h.kind == 8 && 0 < increment < HALF
        case ContinuationBody(_) => h.kind == 9
        case UnknownBody(_) => h.kind > 9)
  }

  lemma ParseSound(h: Header, p: seq<Byte>)
    requires Parse(h, p).Ok? && h.length == |p|
    ensures Sound(h, Parse(h, p).value)
  {
    hide Get32, GetSettings, WindowTooBig, Has;
  }

  /** Whatever the reader accepts is the content of a request that the writer accepts, on the same stream and with
      the same flags to end the stream and the headers; except a PUSH_PROMISE that promises stream 0, which no
      writer writes. */
  lemma AcceptedIsWritable(h: Header, p: seq<Byte>)
    requires Parse(h, p).Ok? && h.length == |p| && h.id < HALF
    ensures Sound(h, Parse(h, p).value)
    ensures var body := Parse(h, p).value; var q := Rewritten(Frame(h, body));
            && (Accepts(q) <==> !(body.PushPromiseBody? && body.promiseId == 0))
            && Content(q) == body && KindNumber(q) == h.kind && StreamOf(q) == h.id && Extension(q)
            && (h.kind in {0, 1} ==> Has(FlagsOf(q), 1) == Has(h.flags, 1))
            && (h.kind in {1, 5, 9} ==> Has(FlagsOf(q), 4) == Has(h.flags, 4))
  {
    ParseSound(h, p);
    var body := Parse(h, p).value;
    hide Parse;
    RewrittenFits(h, body);
  }

  lemma RewrittenFits(h: Header, body: Body)
    requires Sound(h, body) && h.id < HALF && (h.kind == 8 || h.kind > 9 || OnStream(h.kind) || OnConnection(h.kind))
    ensures var q := Rewritten(Frame(h, body));
            && (Accepts(q) <==> !(body.PushPromiseBody? && body.promiseId == 0))
            && Content(q) == body && KindNumber(q) == h.kind && StreamOf(q) == h.id && Extension(q)
            && (h.kind in {0, 1} ==> Has(FlagsOf(q), 1) == Has(h.flags, 1))
            && (h.kind in {1, 5, 9} ==> Has(FlagsOf(q), 4) == Has(h.flags, 4))
  {
    hide Has, GetSettings, SettingOctets;
    var es, eh := Has(h.flags, 1), Has(h.flags, 4);
    if body.SettingsBody? { SettingsWritten(body.p); }
    if body.HeadersBody? { HeadersFlags(false, es, eh, body.priority != NO_PRIORITY); }
    DataFlags(es, false);
    PushFlags(false, eh);
  }
}
