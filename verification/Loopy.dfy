/** The outbound scheduler (loopyWriter) as a state machine on values: one function per handler, and
    processData. What is written goes to the end of `wire`. */
module Loopy {
  import opened Bits
  import opened HeaderTable

  const DEFAULT_WINDOW: nat := 65535

  /** What waits in the queue of a stream. A trailer carries the reset code of its cleanup, if any. */
  datatype Item = Data(bytes: seq<Byte>, endStream: bool) | Trailer(fields: seq<HeaderField>, rst: Option<nat>)

  datatype State = Active | Empty | WaitingOnStreamQuota

  datatype Stream = Stream(state: State, items: seq<Item>, bytesOutStanding: int)

  const FRESH: Stream := Stream(Empty, [], 0)

  /** Control frames that are written as they come. */
  datatype Outgoing = WindowUpdateOut(id: nat, increment: nat) | SettingsOut(ss: seq<(nat, nat)>)
    | PingOut(ack: bool, data: seq<Byte>)

  /** Frames written, the completion signal of a data item, the work of the server's GOAWAY handler, and
      the answer to a request for the quota. */
  datatype Event =
    | DataFrame(id: nat, payload: seq<Byte>, endStream: bool)
    | Completed(id: nat)
    | HeadersFrame(id: nat, fields: seq<HeaderField>, endStream: bool)
    | RstStream(id: nat, code: nat)
    | SettingsAck
    | TableSize(v: nat)
    | Control(o: Outgoing)
    | GoAwayItem
    | QuotaReply(quota: nat)

  /** Go visits a map in any order; `order` is the one taken. */
  datatype Setting = InitialWindowSize(v: nat, order: seq<nat>) | HeaderTableSize(v: nat) | OtherSetting

  datatype Init = Registered | Draining | ConnClosing

  /** Control items, in the order of loopyWriter.handle. An outgoing GOAWAY carries what the server's handler
      returns: whether to drain, and whether the writer goes on. */
  datatype Command =
    | IncomingWindowUpdate(id: nat, increment: nat)
    | IncomingSettings(ss: seq<Setting>)
    | Headers(id: nat, fields: seq<HeaderField>, endStream: bool, init: Init, rst: Option<nat>)
    | RegisterStream(id: nat)
    | CleanupStream(id: nat, rst: Option<nat>)
    | IncomingGoAway
    | Bytes(id: nat, bytes: seq<Byte>, endStream: bool)
    | Emission(o: Outgoing)
    | OutgoingGoAway(draining: bool, ok: bool)
    | QuotaRequest

  datatype Loopy = Loopy(server: bool, maxFrameSize: nat, sendQuota: nat, oiws: nat,
                         streams: map<nat, Stream>, active: seq<nat>, draining: bool, wire: seq<Event>)
  {
    /** The stream-level send window. */
    function Window(id: nat): int
      requires id in streams
    {
      oiws - streams[id].bytesOutStanding
    }
  }

  /** The state after a step, and whether the writer goes on. */
  datatype Next = Next(l: Loopy, ok: bool)

  function NewLoopy(server: bool, maxFrameSize: nat): Loopy {
    Loopy(server, maxFrameSize, DEFAULT_WINDOW, DEFAULT_WINDOW, map[], [], false, [])
  }

  function WithoutId(s: seq<nat>, id: nat): (r: seq<nat>)
    ensures id !in r
    ensures forall x :: x in r <==> x in s && x != id
    ensures |r| <= |s|
  {
    if s == [] then [] else (if s[0] == id then [] else [s[0]]) + WithoutId(s[1..], id)
  }

  function Update(l: Loopy, id: nat, s: Stream): Loopy {
    l.(streams := l.streams[id := s])
  }

  function Write(l: Loopy, e: Event): Loopy {
    l.(wire := l.wire + [e])
  }

  /** A waiting stream becomes active, at the end of the list. */
  function Activate(l: Loopy, id: nat): Loopy
    requires id in l.streams
  {
    Update(l, id, l.streams[id].(state := Active)).(active := l.active + [id])
  }

  // ---- The handlers ----

  function OnWindowUpdate(l: Loopy, id: nat, increment: nat): Loopy {
    if id == 0 then l.(sendQuota := (l.sendQuota + increment) % WORD)
    else if id !in l.streams then l
    else
      var s := l.streams[id];
      var l1 := Update(l, id, s.(bytesOutStanding := s.bytesOutStanding - increment));
      if l1.Window(id) > 0 && s.state == WaitingOnStreamQuota then Activate(l1, id) else l1
  }

  function ActivateWaiting(l: Loopy, order: seq<nat>): Loopy
    decreases |order|
  {
    if order == [] then l
    else
      var id := order[0];
      var l1 := if id in l.streams && l.streams[id].state == WaitingOnStreamQuota then Activate(l, id) else l;
      ActivateWaiting(l1, order[1..])
  }

  function ApplySetting(l: Loopy, s: Setting): Loopy {
    match s
    case InitialWindowSize(v, order) =>
      var l1 := l.(oiws := v);
      if l.oiws < v then ActivateWaiting(l1, order) else l1
    case HeaderTableSize(v) => Write(l, TableSize(v))
    case OtherSetting => l
  }

  function ApplySettings(l: Loopy, ss: seq<Setting>): Loopy
    decreases |ss|
  {
    if ss == [] then l else ApplySettings(ApplySetting(l, ss[0]), ss[1..])
  }

  function Cleanup(l: Loopy, id: nat, rst: Option<nat>): Next {
    var l1 := if id in l.streams then l.(streams := l.streams - {id}, active := WithoutId(l.active, id)) else l;
    var l2 := if rst.Some? then Write(l1, RstStream(id, rst.value)) else l1;
    Next(l2, !(!l.server && l.draining && |l2.streams| == 0))
  }

  function OnHeaders(l: Loopy, id: nat, fields: seq<HeaderField>, endStream: bool, init: Init, rst: Option<nat>): Next {
    if l.server && id % 2 == 1 then
      if id !in l.streams then Next(l, true)
      else if !endStream then Next(Write(l, HeadersFrame(id, fields, false)), true)
      else
        var s := l.streams[id];
        if s.state != Empty then Next(Update(l, id, s.(items := s.items + [Trailer(fields, rst)])), true)
        else Cleanup(Write(l, HeadersFrame(id, fields, true)), id, rst)
    else
      match init
      case ConnClosing => Next(l, false)
      case Draining => Next(l, true)
      case Registered => Next(Update(Write(l, HeadersFrame(id, fields, endStream)), id, FRESH), true)
  }

  /** preprocessData. */
  function OnBytes(l: Loopy, id: nat, bytes: seq<Byte>, endStream: bool): Loopy {
    if id !in l.streams then l
    else
      var s := l.streams[id];
      var l1 := Update(l, id, s.(items := s.items + [Data(bytes, endStream)]));
      if s.state == Empty then Activate(l1, id) else l1
  }

  /** Frames that the framer does not write; the error ends the writer. */
  predicate Refused(o: Outgoing) {
    match o
    case WindowUpdateOut(_, increment) => !(1 <= increment <= 0x7fff_ffff)
    case SettingsOut(ss) => 6 * |ss| >= 0x100_0000
    case PingOut(_, _) => false
  }

  /** goAwayHandler: only a server has a handler of its own. */
  function OnGoAway(l: Loopy, draining: bool, ok: bool): Next {
    if !l.server then Next(l, true)
    else
      var l1 := Write(l, GoAwayItem);
      if ok then Next(l1.(draining := draining), true) else Next(l1, false)
  }

  function Handle(l: Loopy, c: Command): Next {
    match c
    case IncomingWindowUpdate(id, increment) => Next(OnWindowUpdate(l, id, increment), true)
    case IncomingSettings(ss) => Next(Write(ApplySettings(l, ss), SettingsAck), true)
    case Headers(id, fields, endStream, init, rst) => OnHeaders(l, id, fields, endStream, init, rst)
    case RegisterStream(id) => Next(Update(l, id, FRESH), true)
    case CleanupStream(id, rst) => Cleanup(l, id, rst)
    case IncomingGoAway =>
      if l.server then Next(l, true) else Next(l.(draining := true), |l.streams| != 0)
    case Bytes(id, bytes, endStream) => Next(OnBytes(l, id, bytes, endStream), true)
    case Emission(o) => if Refused(o) then Next(l, false) else Next(Write(l, Control(o)), true)
    case OutgoingGoAway(draining, ok) => OnGoAway(l, draining, ok)
    case QuotaRequest => Next(Write(l, QuotaReply(l.sendQuota)), true)
  }

  // ---- processData ----

  function Min(a: int, b: int): int { if a < b then a else b }

  /** How much of the first item of the stream may go out. */
  function Allowance(l: Loopy, id: nat): int
    requires id in l.streams
  {
    Min(Min(l.maxFrameSize, l.Window(id)), l.sendQuota)
  }

  /** After a write: the stream is out of data, its trailer goes out, it is out of window, or it goes
      to the end of the list. An item that was empty does not look at the window, and does not
      report that the connection is closing. */
  function AfterWrite(l: Loopy, id: nat, checkWindow: bool): Next
    requires id in l.streams
  {
    var s := l.streams[id];
    if s.items == [] then Next(Update(l, id, s.(state := Empty)), true)
    else match s.items[0]
      case Trailer(fields, rst) =>
        var c := Cleanup(Write(l, HeadersFrame(id, fields, true)), id, rst);
        Next(c.l, c.ok || !checkWindow)
      case Data(_, _) =>
        if checkWindow && l.Window(id) <= 0 then Next(Update(l, id, s.(state := WaitingOnStreamQuota)), true)
        else Next(l.(active := l.active + [id]), true)
  }

  function Idle(l: Loopy): bool {
    l.sendQuota == 0 || l.active == []
  }

  /** The first stream of the list can be served: it is established and its first item is data. */
  predicate Servable(l: Loopy) {
    l.active != [] ==>
      l.active[0] in l.streams && l.streams[l.active[0]].items != [] && l.streams[l.active[0]].items[0].Data?
  }

  /** Sending `n` octets of the first item of the stream. */
  function Send(l: Loopy, id: nat, n: nat): Loopy
    requires id in l.streams && l.streams[id].items != [] && l.streams[id].items[0].Data?
    requires n <= |l.streams[id].items[0].bytes| && n <= l.sendQuota
  {
    var s := l.streams[id];
    var it := s.items[0];
    var all := n == |it.bytes|;
    var l1 := Write(l, DataFrame(id, it.bytes[..n], it.endStream && all));
    var l2 := l1.(sendQuota := l.sendQuota - n);
    var s1 := s.(bytesOutStanding := s.bytesOutStanding + n);
    if all then Write(Update(l2, id, s1.(items := s.items[1..])), Completed(id))
    else Update(l2, id, s1.(items := [Data(it.bytes[n..], it.endStream)] + s.items[1..]))
  }

  function ProcessData(l: Loopy): Next
    requires Servable(l)
  {
    if Idle(l) then Next(l, true)
    else
      var id := l.active[0];
      var l0 := l.(active := l.active[1..]);
      var bytes := l.streams[id].items[0].bytes;
      if |bytes| == 0 then AfterWrite(Send(l0, id, 0), id, false)
      else if l.Window(id) <= 0 then Next(Update(l0, id, l.streams[id].(state := WaitingOnStreamQuota)), true)
      else
        var n := Min(Allowance(l, id), |bytes|);
        AfterWrite(Send(l0, id, n), id, true)
  }
}
