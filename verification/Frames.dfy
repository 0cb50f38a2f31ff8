/** Frames: the octets each Write function produces, and the parser of each type (sections 4.1 and 6 of
    RFC 7540). Flags and big-endian integers are plain arithmetic. */
module Frames {
  import opened Bits

  const HALF: nat := 0x8000_0000
  const MAX_FRAME: nat := 0x100_0000

  type U16 = x: nat | x < 0x1_0000
  type U32 = x: nat | x < WORD
  type Octets8 = s: seq<Byte> | |s| == 8 witness [0, 0, 0, 0, 0, 0, 0, 0]

  datatype Result<T> = Ok(value: T) | Err(error: Error)

  datatype Error =
    | UnexpectedEOF
    | FrameTooLarge
    | ConnectionError(code: nat)
    | StreamError(id: nat, code: nat)
    | IllegalWrite

  const PROTOCOL_ERROR: nat := 1
  const FLOW_CONTROL_ERROR: nat := 3
  const FRAME_SIZE_ERROR: nat := 6
  const COMPRESSION_ERROR: nat := 9

  const DATA: Byte := 0
  const HEADERS: Byte := 1
  const PRIORITY: Byte := 2
  const RST_STREAM: Byte := 3
  const SETTINGS: Byte := 4
  const PUSH_PROMISE: Byte := 5
  const PING: Byte := 6
  const GOAWAY: Byte := 7
  const WINDOW_UPDATE: Byte := 8
  const CONTINUATION: Byte := 9

  const END_STREAM: Byte := 1
  const ACK: Byte := 1
  const END_HEADERS: Byte := 4
  const PADDED: Byte := 8
  const WITH_PRIORITY: Byte := 32

  /** A single flag bit of a flags octet. */
  predicate Has(flags: Byte, flag: Byte)
    requires flag > 0
  {
    (flags / flag) % 2 == 1
  }

  function Flag(on: bool, flag: Byte): Byte {
    if on then flag else 0
  }

  // ---- Integers, most significant octet first ----

  function Put32(v: U32): (r: seq<Byte>)
    ensures |r| == 4
  {
    [v / 0x100_0000, v / 0x1_0000 % 256, v / 256 % 256, v % 256]
  }

  function Get32(p: seq<Byte>): (r: U32)
    requires |p| >= 4
  {
    p[0] as int * 0x100_0000 + p[1] as int * 0x1_0000 + p[2] as int * 256 + p[3]
  }

  function Put16(v: U16): (r: seq<Byte>)
    ensures |r| == 2
  {
    [v / 256, v % 256]
  }

  function Get16(p: seq<Byte>): (r: U16)
    requires |p| >= 2
  {
    p[0] as int * 256 + p[1]
  }

  lemma Get32Put32(v: U32, rest: seq<Byte>)
    ensures Get32(Put32(v) + rest) == v && (Put32(v) + rest)[4..] == rest
  {
    assert v == v / 256 * 256 + v % 256;
    assert v / 256 == v / 0x1_0000 * 256 + v / 256 % 256;
    assert v / 0x1_0000 == v / 0x100_0000 * 256 + v / 0x1_0000 % 256;
  }

  lemma Get16Put16(v: U16, rest: seq<Byte>)
    ensures Get16(Put16(v) + rest) == v && (Put16(v) + rest)[2..] == rest
  {
  }

  // ---- What may be written ----

  datatype Priority = Priority(dep: U32, exclusive: bool, weight: Byte)

  const NO_PRIORITY: Priority := Priority(0, false, 0)

  datatype Setting = Setting(id: U16, val: U32)

  const INITIAL_WINDOW_SIZE: U16 := 4

  /** One constructor for each Write function of the framer. */
  datatype Request =
    | WriteData(id: U32, endStream: bool, data: seq<Byte>, pad: Option<seq<Byte>>)
    | WriteHeaders(id: U32, fragment: seq<Byte>, endStream: bool, endHeaders: bool, padLength: Byte, priority: Priority)
    | WritePriority(id: U32, priority: Priority)
    | WriteRst(id: U32, code: U32)
    | WriteSettings(settings: seq<Setting>)
    | WriteSettingsAck
    | WritePushPromise(id: U32, promiseId: U32, fragment: seq<Byte>, endHeaders: bool, padLength: Byte)
    | WritePing(ack: bool, ping: Octets8)
    | WriteGoAway(last: U32, code: U32, debug: seq<Byte>)
    | WriteWindowUpdate(id: U32, increment: U32)
    | WriteContinuation(id: U32, endHeaders: bool, fragment: seq<Byte>)
    | WriteRaw(kind: Byte, flags: Byte, id: U32, payload: seq<Byte>)

  predicate ValidId(id: U32) { 0 < id < HALF }

  /** The checks of the Write functions. */
  predicate Accepts(q: Request) {
    match q
    case WriteData(id, _, _, pad) =>
      ValidId(id) && (pad.Some? ==> |pad.value| <= 255 && forall i :: 0 <= i < |pad.value| ==> pad.value[i] == 0)
    case WriteHeaders(id, _, _, _, _, priority) => ValidId(id) && (priority != NO_PRIORITY ==> priority.dep < HALF)
    case WritePriority(id, priority) => ValidId(id) && priority.dep < HALF
    case WriteRst(id, _) => ValidId(id)
    case WritePushPromise(id, promiseId, _, _, _) => ValidId(id) && ValidId(promiseId)
    case WriteWindowUpdate(_, increment) => 1 <= increment < HALF
    case WriteContinuation(id, _, _) => ValidId(id)
    case _ => true
  }

  function Kind(q: Request): Byte {
    match q
    case WriteData(_, _, _, _) => DATA
    case WriteHeaders(_, _, _, _, _, _) => HEADERS
    case WritePriority(_, _) => PRIORITY
    case WriteRst(_, _) => RST_STREAM
    case WriteSettings(_) => SETTINGS
    case WriteSettingsAck => SETTINGS
    case WritePushPromise(_, _, _, _, _) => PUSH_PROMISE
    case WritePing(_, _) => PING
    case WriteGoAway(_, _, _) => GOAWAY
    case WriteWindowUpdate(_, _) => WINDOW_UPDATE
    case WriteContinuation(_, _, _) => CONTINUATION
    case WriteRaw(kind, _, _, _) => kind
  }

  function FlagsOf(q: Request): Byte {
    match q
    case WriteData(_, endStream, _, pad) => Flag(endStream, END_STREAM) + Flag(pad.Some?, PADDED)
    case WriteHeaders(_, _, endStream, endHeaders, padLength, priority) =>
      Flag(padLength != 0, PADDED) + Flag(endStream, END_STREAM) + Flag(endHeaders, END_HEADERS) +
        Flag(priority != NO_PRIORITY, WITH_PRIORITY)
    case WriteSettingsAck => ACK
    case WritePushPromise(_, _, _, endHeaders, padLength) =>
      Flag(padLength != 0, PADDED) + Flag(endHeaders, END_HEADERS)
    case WritePing(ack, _) => Flag(ack, ACK)
    case WriteContinuation(_, endHeaders, _) => Flag(endHeaders, END_HEADERS)
    case WriteRaw(_, flags, _, _) => flags
    case _ => 0
  }

  function StreamOf(q: Request): U32 {
    match q
    case WriteSettings(_) => 0
    case WriteSettingsAck => 0
    case WritePing(_, _) => 0
    case WriteGoAway(_, _, _) => 0
    case _ => q.id
  }

  function SettingOctets(settings: seq<Setting>): (r: seq<Byte>)
    ensures |r| == 6 * |settings|
  {
    if settings == [] then [] else Put16(settings[0].id) + Put32(settings[0].val) + SettingOctets(settings[1..])
  }

  function PadZeros(n: nat): (r: seq<Byte>)
    ensures |r| == n
  {
    seq(n, _ => 0)
  }

  function PadPrefix(padLength: Byte): (r: seq<Byte>) {
    if padLength != 0 then [padLength] else []
  }

  function PriorityOctets(p: Priority): (r: seq<Byte>)
    requires p.dep < HALF
  {
    Put32(if p.exclusive then p.dep + HALF else p.dep) + [p.weight]
  }

  function Payload(q: Request): seq<Byte>
    requires Accepts(q)
  {
    match q
    case WriteData(_, _, data, pad) => if pad.Some? then [|pad.value|] + data + pad.value else data
    case WriteHeaders(_, fragment, _, _, padLength, priority) =>
      PadPrefix(padLength) +
        ((if priority != NO_PRIORITY then PriorityOctets(priority) else []) + (fragment + PadZeros(padLength)))
    case WritePriority(_, priority) => PriorityOctets(priority)
    case WriteRst(_, code) => Put32(code)
    case WriteSettings(settings) => SettingOctets(settings)
    case WriteSettingsAck => []
    case WritePushPromise(_, promiseId, fragment, _, padLength) =>
      PadPrefix(padLength) + (Put32(promiseId) + (fragment + PadZeros(padLength)))
    case WritePing(_, ping) => ping
    case WriteGoAway(last, code, debug) => Put32(last % HALF) + (Put32(code) + debug)
    case WriteWindowUpdate(_, increment) => Put32(increment)
    case WriteContinuation(_, _, fragment) => fragment
    case WriteRaw(_, _, _, payload) => payload
  }

  /** The nine octets before the payload. */
  function HeaderOctets(length: nat, kind: Byte, flags: Byte, id: U32): (r: seq<Byte>)
    requires length < MAX_FRAME
    ensures |r| == 9
  {
    [length / 0x1_0000, length / 256 % 256, length % 256, kind, flags] + Put32(id)
  }

  function Write(q: Request): Result<seq<Byte>> {
    if !Accepts(q) then Err(IllegalWrite)
    else if |Payload(q)| >= MAX_FRAME then Err(FrameTooLarge)
    else Ok(HeaderOctets(|Payload(q)|, Kind(q), FlagsOf(q), StreamOf(q)) + Payload(q))
  }

  // ---- What is read ----

  datatype Header = Header(length: nat, kind: Byte, flags: Byte, id: nat)

  datatype Body =
    | DataBody(data: seq<Byte>)
    | HeadersBody(priority: Priority, fragment: seq<Byte>)
    | PriorityBody(priority: Priority)
    | RstBody(code: nat)
    | SettingsBody(p: seq<Byte>)
    | PushPromiseBody(promiseId: nat, fragment: seq<Byte>)
    | PingBody(data: seq<Byte>)
    | GoAwayBody(last: nat, code: nat, debug: seq<Byte>)
    | WindowUpdateBody(increment: nat)
    | ContinuationBody(fragment: seq<Byte>)
    | UnknownBody(p: seq<Byte>)

  datatype Frame = Frame(h: Header, body: Body)

  function ReadHeader(b: seq<Byte>): Header
    requires |b| >= 9
  {
    Header(b[0] as int * 0x1_0000 + b[1] as int * 256 + b[2], b[3], b[4], Get32(b[5..]) % HALF)
  }

  function GetPriority(p: seq<Byte>): Priority
    requires |p| >= 5
  {
    var v := Get32(p);
    Priority(v % HALF, v != v % HALF, p[4])
  }

  /** Strips the pad length octet: what is left, and how much of its end is padding. */
  function Padding(flags: Byte, p: seq<Byte>): Result<(seq<Byte>, nat)> {
    if !Has(flags, PADDED) then Ok((p, 0))
    else if p == [] then Err(UnexpectedEOF)
    else Ok((p[1..], p[0]))
  }

  function ParseData(h: Header, p: seq<Byte>): Result<Body> {
    if h.id == 0 then Err(ConnectionError(PROTOCOL_ERROR))
    else match Padding(h.flags, p)
      case Err(e) => Err(e)
      case Ok((q, pad)) =>
        if pad > |q| then Err(ConnectionError(PROTOCOL_ERROR)) else Ok(DataBody(q[..|q| - pad]))
  }

  function ParseHeaders(h: Header, p: seq<Byte>): Result<Body> {
    if h.id == 0 then Err(ConnectionError(PROTOCOL_ERROR))
    else match Padding(h.flags, p)
      case Err(e) => Err(e)
      case Ok((q, pad)) =>
        var prio := Has(h.flags, WITH_PRIORITY);
        if prio && |q| < 5 then Err(UnexpectedEOF)
        else
          var r := if prio then q[5..] else q;
          if pad > |r| then Err(StreamError(h.id, PROTOCOL_ERROR))
          else Ok(HeadersBody(if prio then GetPriority(q) else NO_PRIORITY, r[..|r| - pad]))
  }

  function ParsePriority(h: Header, p: seq<Byte>): Result<Body> {
    if h.id == 0 then Err(ConnectionError(PROTOCOL_ERROR))
    else if |p| != 5 then Err(ConnectionError(FRAME_SIZE_ERROR))
    else Ok(PriorityBody(GetPriority(p)))
  }

  function ParseRst(h: Header, p: seq<Byte>): Result<Body> {
    if |p| != 4 then Err(ConnectionError(FRAME_SIZE_ERROR))
    else if h.id == 0 then Err(ConnectionError(PROTOCOL_ERROR))
    else Ok(RstBody(Get32(p)))
  }

  /** The settings of a payload; a rest of fewer than six octets is no setting. */
  function GetSettings(p: seq<Byte>): seq<Setting> {
    if |p| < 6 then [] else [Setting(Get16(p), Get32(p[2..]))] + GetSettings(p[6..])
  }

  /** The first value for an identifier. */
  function Value(settings: seq<Setting>, id: U16): Option<nat> {
    if settings == [] then None else if settings[0].id == id then Some(settings[0].val) else Value(settings[1..], id)
  }

  predicate WindowTooBig(settings: seq<Setting>) {
    var v := Value(settings, INITIAL_WINDOW_SIZE);
    v.Some? && v.value >= HALF
  }

  function ParseSettings(h: Header, p: seq<Byte>): Result<Body> {
    if Has(h.flags, ACK) && h.length > 0 then Err(ConnectionError(FRAME_SIZE_ERROR))
    else if h.id != 0 then Err(ConnectionError(PROTOCOL_ERROR))
    else if |p| % 6 != 0 then Err(ConnectionError(FRAME_SIZE_ERROR))
    else if WindowTooBig(GetSettings(p)) then Err(ConnectionError(FLOW_CONTROL_ERROR))
    else Ok(SettingsBody(p))
  }

  function ParsePushPromise(h: Header, p: seq<Byte>): Result<Body> {
    if h.id == 0 then Err(ConnectionError(PROTOCOL_ERROR))
    else match Padding(h.flags, p)
      case Err(e) => Err(e)
      case Ok((q, pad)) =>
        if |q| < 4 then Err(UnexpectedEOF)
        else if pad > |q| - 4 then Err(ConnectionError(PROTOCOL_ERROR))
        else Ok(PushPromiseBody(Get32(q) % HALF, q[4..|q| - pad]))
  }

  function ParsePing(h: Header, p: seq<Byte>): Result<Body> {
    if |p| != 8 then Err(ConnectionError(FRAME_SIZE_ERROR))
    else if h.id != 0 then Err(ConnectionError(PROTOCOL_ERROR))
    else Ok(PingBody(p))
  }

  function ParseGoAway(h: Header, p: seq<Byte>): Result<Body> {
    if h.id != 0 then Err(ConnectionError(PROTOCOL_ERROR))
    else if |p| < 8 then Err(ConnectionError(FRAME_SIZE_ERROR))
    else Ok(GoAwayBody(Get32(p) % HALF, Get32(p[4..]), p[8..]))
  }

  function ParseWindowUpdate(h: Header, p: seq<Byte>): Result<Body> {
    if |p| != 4 then Err(ConnectionError(FRAME_SIZE_ERROR))
    else if Get32(p) % HALF == 0 then
      if h.id == 0 then Err(ConnectionError(PROTOCOL_ERROR)) else Err(StreamError(h.id, PROTOCOL_ERROR))
    else Ok(WindowUpdateBody(Get32(p) % HALF))
  }

  function ParseContinuation(h: Header, p: seq<Byte>): Result<Body> {
    if h.id == 0 then Err(ConnectionError(PROTOCOL_ERROR)) else Ok(ContinuationBody(p))
  }

  function Parse(h: Header, p: seq<Byte>): Result<Body> {
    if h.kind == DATA then ParseData(h, p)
    else if h.kind == HEADERS then ParseHeaders(h, p)
    else if h.kind == PRIORITY then ParsePriority(h, p)
    else if h.kind == RST_STREAM then ParseRst(h, p)
    else if h.kind == SETTINGS then ParseSettings(h, p)
    else if h.kind == PUSH_PROMISE then ParsePushPromise(h, p)
    else if h.kind == PING then ParsePing(h, p)
    else if h.kind == GOAWAY then ParseGoAway(h, p)
    else if h.kind == WINDOW_UPDATE then ParseWindowUpdate(h, p)
    else if h.kind == CONTINUATION then ParseContinuation(h, p)
    else Ok(UnknownBody(p))
  }

  /** Reading one frame off the front of the input, before the order check: the frame and the rest. */
  function ReadRaw(b: seq<Byte>, maxReadSize: nat): (r: Result<(Frame, seq<Byte>)>)
    ensures r.Ok? ==> |b| >= 9 && |r.value.1| + 9 <= |b|
  {
    if |b| < 9 then Err(UnexpectedEOF)
    else
      var h := ReadHeader(b);
      if h.length > maxReadSize then Err(FrameTooLarge)
      else if |b| < 9 + h.length then Err(UnexpectedEOF)
      else match Parse(h, b[9..9 + h.length])
        case Err(e) => Err(e)
        case Ok(body) => Ok((Frame(h, body), b[9 + h.length..]))
  }

  /** What is left of the input after an attempt to read a frame, whatever came of it. */
  function Skip(b: seq<Byte>, maxReadSize: nat): (r: seq<Byte>) {
    if |b| < 9 then []
    else
      var length := ReadHeader(b).length;
      if length > maxReadSize then b[9..] else if |b| < 9 + length then [] else b[9 + length..]
  }

  // ---- Order ----

  /** checkFrameOrder: the stream whose header block is open afterwards (0 for none). */
  function CheckOrder(lastHeaderStream: nat, h: Header): Result<nat> {
    if lastHeaderStream != 0 && (h.kind != CONTINUATION || h.id != lastHeaderStream) then
      Err(ConnectionError(PROTOCOL_ERROR))
    else if lastHeaderStream == 0 && h.kind == CONTINUATION then Err(ConnectionError(PROTOCOL_ERROR))
    else if h.kind == HEADERS || h.kind == CONTINUATION then Ok(if Has(h.flags, END_HEADERS) then 0 else h.id)
    else Ok(lastHeaderStream)
  }

  datatype Step = Step(frame: Frame, rest: seq<Byte>, lastHeaderStream: nat)

  /** ReadFrame without merging of header blocks. */
  function ReadFrame(b: seq<Byte>, lastHeaderStream: nat, maxReadSize: nat): (r: Result<Step>)
    ensures r.Ok? ==> |r.value.rest| + 9 <= |b|
  {
    match ReadRaw(b, maxReadSize)
    case Err(e) => Err(e)
    case Ok((f, rest)) =>
      match CheckOrder(lastHeaderStream, f.h)
      case Err(e) => Err(e)
      case Ok(last) => Ok(Step(f, rest, last))
  }

  datatype Reading = Reading(frames: seq<Frame>, lastHeaderStream: nat, error: Option<Error>)

  /** Reading until the input ends or an error. */
  function ReadAll(b: seq<Byte>, lastHeaderStream: nat, maxReadSize: nat): Reading
    decreases |b|
  {
    if b == [] then Reading([], lastHeaderStream, None)
    else match ReadFrame(b, lastHeaderStream, maxReadSize)
      case Err(e) => Reading([], lastHeaderStream, Some(e))
      case Ok(step) =>
        var r := ReadAll(step.rest, step.lastHeaderStream, maxReadSize);
        r.(frames := [step.frame] + r.frames)
  }
}
