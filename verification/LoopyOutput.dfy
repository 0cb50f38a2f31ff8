/** Over whole runs of the scheduler: which control frames are written and with what in them, when streams come and
    go, which are reset, and when the writer ends. */
module LoopyOutput {
  import opened Bits
  import opened HeaderTable
  import opened Loopy
  import opened LoopyInvariant
  import opened LoopyLedger
  import Frames

  // ---- Control frames ----

  /** Everything but DATA, completions, HEADERS that end their stream and resets. */
  predicate Plain(e: Event) {
    !e.DataFrame? && !e.Completed? && !(e.HeadersFrame? && e.endStream) && !e.RstStream?
  }

  function PlainEvents(wire: seq<Event>): seq<Event> {
    if wire == [] then []
    else
      var e := wire[|wire| - 1];
      PlainEvents(wire[..|wire| - 1]) + if Plain(e) then [e] else []
  }

  /** The table sizes among settings. */
  function TableSizes(ss: seq<Setting>): seq<Event> {
    if ss == [] then [] else (if ss[0].HeaderTableSize? then [TableSize(ss[0].v)] else []) + TableSizes(ss[1..])
  }

  /** What a control item makes the scheduler write: HEADERS that do not end their stream if the stream is
      established or the item opens it, an acknowledgement after the table sizes for settings, and outgoing
      frames, GOAWAYs and the quota as asked. */
  function Answer(l: Loopy, c: Command): seq<Event> {
    match c
    case Headers(id, fields, endStream, init, _) =>
      var known := if l.server && id % 2 == 1 then id in l.streams else init.Registered?;
      if known && !endStream then [HeadersFrame(id, fields, false)] else []
    case IncomingSettings(ss) => TableSizes(ss) + [SettingsAck]
    case Emission(o) => if Refused(o) then [] else [Control(o)]
    case OutgoingGoAway(_, _) => if l.server then [GoAwayItem] else []
    case QuotaRequest => [QuotaReply(l.sendQuota)]
    case _ => []
  }

  /** The answers of a run, in order. */
  ghost function Answers(l: Loopy, steps: seq<Step>): seq<Event>
    requires Run(l, steps)
    decreases |steps|
  {
    if steps == [] then []
    else (if steps[0].Item? then Answer(l, steps[0].c) else []) + Answers(Do(l, steps[0]).l, steps[1..])
  }

  lemma PlainSnoc(wire: seq<Event>, e: Event)
    ensures PlainEvents(wire + [e]) == PlainEvents(wire) + if Plain(e) then [e] else []
  {
    assert (wire + [e])[..|wire|] == wire;
  }

  lemma {:induction false} ActivateWire(l: Loopy, order: seq<nat>)
    ensures ActivateWaiting(l, order).wire == l.wire
    decreases |order|
  {
    if order != [] {
      var id := order[0];
      var l1 := if id in l.streams && l.streams[id].state == WaitingOnStreamQuota then Activate(l, id) else l;
      ActivateWire(l1, order[1..]);
    }
  }

  lemma {:induction false} SettingsPlain(l: Loopy, ss: seq<Setting>)
    ensures PlainEvents(ApplySettings(l, ss).wire) == PlainEvents(l.wire) + TableSizes(ss)
    decreases |ss|
  {
    hide ApplySetting, PlainEvents;
    if ss != [] {
      SettingPlain(l, ss[0]);
      SettingsPlain(ApplySetting(l, ss[0]), ss[1..]);
    }
  }

  lemma SettingPlain(l: Loopy, s: Setting)
    ensures PlainEvents(ApplySetting(l, s).wire) ==
            PlainEvents(l.wire) + if s.HeaderTableSize? then [TableSize(s.v)] else []
  {
    hide ActivateWaiting, PlainEvents;
    if s.InitialWindowSize? { ActivateWire(l.(oiws := s.v), s.order); }
    if s.HeaderTableSize? { PlainSnoc(l.wire, TableSize(s.v)); }
  }

  lemma CleanupPlain(l: Loopy, id: nat, rst: Option<nat>)
    ensures PlainEvents(Cleanup(l, id, rst).l.wire) == PlainEvents(l.wire)
  {
    hide PlainEvents;
    if rst.Some? { PlainSnoc(l.wire, RstStream(id, rst.value)); }
  }

  lemma HeadersPlain(l: Loopy, id: nat, fields: seq<HeaderField>, endStream: bool, init: Init, rst: Option<nat>)
    ensures PlainEvents(OnHeaders(l, id, fields, endStream, init, rst).l.wire) ==
            PlainEvents(l.wire) + Answer(l, Headers(id, fields, endStream, init, rst))
  {
    hide PlainEvents, Cleanup;
    var e := HeadersFrame(id, fields, endStream);
    PlainSnoc(l.wire, e);
    CleanupPlain(Write(l, e), id, rst);
  }

  lemma HandlePlain(l: Loopy, c: Command)
    ensures PlainEvents(Handle(l, c).l.wire) == PlainEvents(l.wire) + Answer(l, c)
  {
    hide PlainEvents, Cleanup, OnHeaders, ApplySettings, Refused;
    match c
    case IncomingSettings(ss) =>
      SettingsPlain(l, ss);
      PlainSnoc(ApplySettings(l, ss).wire, SettingsAck);
    case Headers(id, fields, endStream, init, rst) => HeadersPlain(l, id, fields, endStream, init, rst);
    case CleanupStream(id, rst) => CleanupPlain(l, id, rst);
    case Emission(o) => PlainSnoc(l.wire, Control(o));
    case OutgoingGoAway(_, _) => PlainSnoc(l.wire, GoAwayItem);
    case QuotaRequest => PlainSnoc(l.wire, QuotaReply(l.sendQuota));
    case _ =>
  }

  lemma ServePlain(l: Loopy, id: nat, n: nat, checkWindow: bool)
    requires CanSend(l, id, n)
    ensures id in Send(l, id, n).streams
    ensures PlainEvents(AfterWrite(Send(l, id, n), id, checkWindow).l.wire) == PlainEvents(l.wire)
  {
    hide PlainEvents, Cleanup, AfterWrite;
    var it := l.streams[id].items[0];
    var e := DataFrame(id, it.bytes[..n], it.endStream && n == |it.bytes|);
    PlainSnoc(l.wire, e);
    PlainSnoc(l.wire + [e], Completed(id));
    AfterPlain(Send(l, id, n), id, checkWindow);
  }

  lemma AfterPlain(l: Loopy, id: nat, checkWindow: bool)
    requires id in l.streams
    ensures PlainEvents(AfterWrite(l, id, checkWindow).l.wire) == PlainEvents(l.wire)
  {
    hide PlainEvents, Cleanup;
    var items := l.streams[id].items;
    if items != [] && items[0].Trailer? {
      var e := HeadersFrame(id, items[0].fields, true);
      PlainSnoc(l.wire, e);
      CleanupPlain(Write(l, e), id, items[0].rst);
    }
  }

  lemma ProcessPlain(l: Loopy)
    requires Servable(l)
    ensures PlainEvents(ProcessData(l).l.wire) == PlainEvents(l.wire)
  {
    hide PlainEvents, Send, AfterWrite;
    if !Idle(l) {
      var id, bytes := l.active[0], l.streams[l.active[0]].items[0].bytes;
      var l0 := l.(active := l.active[1..]);
      if |bytes| == 0 {
        ServePlain(l0, id, 0, false);
      } else if l.Window(id) > 0 {
        ServePlain(l0, id, Min(Allowance(l, id), |bytes|), true);
      }
    }
  }

  /** Over every run, the control frames on the wire are the answers to the control items, in order, each once, and
      no others: HEADERS with the fields given, the acknowledgement of settings, and what was asked to go out. */
  lemma {:induction false} OutputExactly(l: Loopy, steps: seq<Step>)
    requires Run(l, steps)
    ensures PlainEvents(After(l, steps).wire) == PlainEvents(l.wire) + Answers(l, steps)
    decreases |steps|
  {
    hide PlainEvents, Handle, ProcessData, Answer, Legal;
    if steps != [] {
      match steps[0] {
        case Item(c) => HandlePlain(l, c);
        case Process => ProcessPlain(l);
      }
      OutputExactly(Do(l, steps[0]).l, steps[1..]);
    }
  }

  // ---- Streams come and go ----

  /** The trailers of the stream go out. */
  predicate Trailed(was: seq<Event>, now: seq<Event>, id: nat) {
    exists k :: |was| <= k < |now| && now[k].HeadersFrame? && now[k].id == id && now[k].endStream
  }

  /** Which streams are established after a step: new ones when they are registered or opened, until they are cleaned
      up or their trailers go out. */
  ghost predicate Lives(l: Loopy, st: Step, id: nat)
    requires st.Process? ==> Servable(l)
  {
    match st
    case Item(RegisterStream(i)) => i == id || id in l.streams
    case Item(CleanupStream(i, _)) => i != id && id in l.streams
    case Item(Headers(i, _, _, init, _)) =>
      if l.server && i % 2 == 1 then id in l.streams && !Trailed(l.wire, Do(l, st).l.wire, id)
      else (init.Registered? && i == id) || id in l.streams
    case _ => id in l.streams && !Trailed(l.wire, Do(l, st).l.wire, id)
  }

  lemma NotTrailed(was: seq<Event>, now: seq<Event>, id: nat)
    requires was <= now && forall k :: |was| <= k < |now| ==> !(now[k].HeadersFrame? && now[k].endStream)
    ensures !Trailed(was, now, id)
  {
  }

  lemma CleanupStreams(l: Loopy, id: nat, rst: Option<nat>)
    ensures var r := Cleanup(l, id, rst).l;
            && r.streams == l.streams - {id}
            && r.wire == if rst.Some? then l.wire + [RstStream(id, rst.value)] else l.wire
  {
    hide WithoutId;
    assert id !in l.streams ==> l.streams - {id} == l.streams;
  }

  /** Trailers written, and the stream dropped. */
  lemma TrailersEnd(l: Loopy, id: nat, fields: seq<HeaderField>, rst: Option<nat>, x: nat)
    ensures var r := Cleanup(Write(l, HeadersFrame(id, fields, true)), id, rst).l;
            && r.streams == l.streams - {id} && l.wire <= r.wire
            && (Trailed(l.wire, r.wire, x) <==> x == id)
            && Resets(r.wire, x) == Resets(l.wire, x) + (if x == id then Code(rst) else [])
  {
    hide Cleanup, Resets;
    var w := Write(l, HeadersFrame(id, fields, true));
    CleanupStreams(w, id, rst);
    var r := Cleanup(w, id, rst).l;
    assert r.wire[|l.wire|] == HeadersFrame(id, fields, true);
    assert forall k :: |l.wire| < k < |r.wire| ==> r.wire[k].RstStream?;
    ResetSnoc(l.wire, HeadersFrame(id, fields, true), x);
    if rst.Some? { ResetSnoc(w.wire, RstStream(id, rst.value), x); }
  }

  // ---- Resets ----

  function Code(rst: Option<nat>): seq<nat> { if rst.Some? then [rst.value] else [] }

  /** The codes with which a stream was reset. */
  function Resets(wire: seq<Event>, id: nat): seq<nat> {
    if wire == [] then []
    else
      var e := wire[|wire| - 1];
      Resets(wire[..|wire| - 1], id) + if e.RstStream? && e.id == id then [e.code] else []
  }

  lemma ResetSnoc(wire: seq<Event>, e: Event, id: nat)
    ensures Resets(wire + [e], id) == Resets(wire, id) + if e.RstStream? && e.id == id then [e.code] else []
  {
    assert (wire + [e])[..|wire|] == wire;
  }

  /** The reset code of the first trailers in a queue. */
  function TrailerCode(items: seq<Item>): seq<nat> {
    if items == [] then [] else if items[0].Trailer? then Code(items[0].rst) else TrailerCode(items[1..])
  }

  /** The reset that a step must write: what a cleanup asks for, and what trailers that end the stream carry. */
  ghost function ResetOf(l: Loopy, st: Step, id: nat): seq<nat>
    requires st.Process? ==> Servable(l)
  {
    match st
    case Item(CleanupStream(i, rst)) => if i == id then Code(rst) else []
    case Item(Headers(i, _, _, _, rst)) => if i == id && Trailed(l.wire, Do(l, st).l.wire, id) && l.server && i % 2 == 1
                                           then Code(rst) else []
    case Process => if id in l.streams && id !in Do(l, st).l.streams then TrailerCode(l.streams[id].items) else []
    case _ => []
  }

  /** Nothing but frames that neither end a stream nor reset one. */
  ghost predicate Mild(was: seq<Event>, now: seq<Event>) {
    was <= now && forall k :: |was| <= k < |now| ==>
                     !now[k].RstStream? && !(now[k].HeadersFrame? && now[k].endStream)
  }

  lemma {:induction false} MildResets(was: seq<Event>, now: seq<Event>, id: nat)
    requires Mild(was, now)
    ensures Resets(now, id) == Resets(was, id)
    decreases |now|
  {
    if |was| < |now| { MildResets(was, now[..|now| - 1], id); } else { assert was == now; }
  }

  lemma {:induction false} SettingsMild(l: Loopy, ss: seq<Setting>)
    requires ListOk(l)
    ensures var r := ApplySettings(l, ss); Mild(l.wire, r.wire) && r.streams.Keys == l.streams.Keys
    decreases |ss|
  {
    if ss != [] {
      var l1 := ApplySetting(l, ss[0]);
      assert ListOk(l1) && Mild(l.wire, l1.wire) && l1.streams.Keys == l.streams.Keys by {
        if ss[0].InitialWindowSize? {
          assert ListOk(l.(oiws := ss[0].v));
          ActivateWaitingOk(l.(oiws := ss[0].v), ss[0].order);
        }
      }
      hide ListOk, ApplySetting;
      SettingsMild(l1, ss[1..]);
    }
  }

  /** One step does to the streams, and resets, what it must. */
  ghost predicate Exactly(l: Loopy, st: Step, id: nat)
    requires st.Process? ==> Servable(l)
  {
    var r := Do(l, st).l;
    (id in r.streams <==> Lives(l, st, id)) && Resets(r.wire, id) == Resets(l.wire, id) + ResetOf(l, st, id)
  }

  lemma HeadersExactly(l: Loopy, i: nat, fields: seq<HeaderField>, endStream: bool, init: Init, rst: Option<nat>,
                       id: nat)
    requires Inv(l) && !(init.Registered? && endStream && !(l.server && i % 2 == 1) && i in l.streams)
    ensures Exactly(l, Item(Headers(i, fields, endStream, init, rst)), id)
  {
    hide Cleanup, Resets, Trailed, Inv;
    var r := OnHeaders(l, i, fields, endStream, init, rst).l;
    if l.server && i % 2 == 1 {
      if i in l.streams && endStream && l.streams[i].state == Empty {
        TrailersEnd(l, i, fields, rst, id);
      } else {
        NotTrailed(l.wire, r.wire, id);
        MildResets(l.wire, r.wire, id);
      }
    } else if init.Registered? {
      ResetSnoc(l.wire, HeadersFrame(i, fields, endStream), id);
    }
  }

  lemma MildStep(l: Loopy, c: Command, id: nat)
    requires !c.Headers? && !c.CleanupStream? && Mild(l.wire, Handle(l, c).l.wire)
    requires Handle(l, c).l.streams.Keys == l.streams.Keys + (if c.RegisterStream? then {c.id} else {})
    ensures Exactly(l, Item(c), id)
  {
    hide Handle, Resets, Trailed;
    var r := Handle(l, c).l;
    NotTrailed(l.wire, r.wire, id);
    MildResets(l.wire, r.wire, id);
  }

  lemma HandleMild(l: Loopy, c: Command)
    requires ListOk(l) && !c.Headers? && !c.CleanupStream?
    ensures var r := Handle(l, c).l;
            && Mild(l.wire, r.wire)
            && r.streams.Keys == l.streams.Keys + (if c.RegisterStream? then {c.id} else {})
  {
    hide OnHeaders, Cleanup, ApplySettings, Refused, ListOk, OnWindowUpdate, OnBytes, OnGoAway;
    match c
    case IncomingSettings(ss) => SettingsMild(l, ss);
    case IncomingWindowUpdate(id, increment) => UpdateMild(l, id, increment);
    case Bytes(id, bytes, endStream) => BytesMild(l, id, bytes, endStream);
    case OutgoingGoAway(draining, ok) => GoAwayMild(l, draining, ok);
    case _ =>
  }

  lemma UpdateMild(l: Loopy, id: nat, increment: nat)
    ensures var r := OnWindowUpdate(l, id, increment); r.wire == l.wire && r.streams.Keys == l.streams.Keys
  {
  }

  lemma BytesMild(l: Loopy, id: nat, bytes: seq<Byte>, endStream: bool)
    ensures var r := OnBytes(l, id, bytes, endStream); r.wire == l.wire && r.streams.Keys == l.streams.Keys
  {
  }

  lemma GoAwayMild(l: Loopy, draining: bool, ok: bool)
    ensures var r := OnGoAway(l, draining, ok).l; Mild(l.wire, r.wire) && r.streams == l.streams
  {
  }

  lemma CleanupExactly(l: Loopy, i: nat, rst: Option<nat>, id: nat)
    ensures Exactly(l, Item(CleanupStream(i, rst)), id)
  {
    hide Resets, Cleanup;
    CleanupStreams(l, i, rst);
    if rst.Some? { ResetSnoc(l.wire, RstStream(i, rst.value), id); }
  }

  lemma HandleExactly(l: Loopy, c: Command, id: nat)
    requires Inv(l) && Legal(l, c)
    ensures Exactly(l, Item(c), id)
  {
    hide Exactly, Handle, Inv, ListOk;
    InvList(l);
    match c
    case Headers(i, fields, endStream, init, rst) => HeadersExactly(l, i, fields, endStream, init, rst, id);
    case CleanupStream(i, rst) => CleanupExactly(l, i, rst, id);
    case _ =>
      HandleMild(l, c);
      MildStep(l, c, id);
  }

  // ---- processData ----

  /** After a write the stream goes exactly when its trailers are next, and they go out. */
  lemma AfterExactly(l: Loopy, id: nat, checkWindow: bool, x: nat)
    requires id in l.streams
    ensures var r := AfterWrite(l, id, checkWindow).l; var ends := TrailersNext(l, id);
            && l.wire <= r.wire && r.streams.Keys == (if ends then l.streams.Keys - {id} else l.streams.Keys)
            && (Trailed(l.wire, r.wire, x) <==> ends && x == id)
            && Resets(r.wire, x) == Resets(l.wire, x) +
                 (if ends && x == id then TrailerCode(l.streams[id].items) else [])
  {
    hide Cleanup, Resets, Trailed;
    var items := l.streams[id].items;
    if TrailersNext(l, id) {
      TrailersEnd(l, id, items[0].fields, items[0].rst, x);
    } else {
      NotTrailed(l.wire, l.wire, x);
    }
  }

  predicate TrailersNext(l: Loopy, id: nat)
    requires id in l.streams
  {
    l.streams[id].items != [] && l.streams[id].items[0].Trailer?
  }

  lemma TrailedLater(a: seq<Event>, b: seq<Event>, c: seq<Event>, id: nat)
    requires Mild(a, b) && b <= c
    ensures Trailed(a, c, id) <==> Trailed(b, c, id)
  {
    assert forall k :: |a| <= k < |b| ==> c[k] == b[k];
  }

  lemma SendMild(l: Loopy, id: nat, n: nat)
    requires CanSend(l, id, n)
    ensures var r := Send(l, id, n);
            && id in r.streams && Mild(l.wire, r.wire) && r.streams.Keys == l.streams.Keys
            && (TrailersNext(r, id) ==> TrailerCode(r.streams[id].items) == TrailerCode(l.streams[id].items))
  {
  }

  lemma ServeExactly(l: Loopy, id: nat, n: nat, checkWindow: bool, x: nat)
    requires CanSend(l, id, n)
    ensures id in Send(l, id, n).streams
    ensures var r := AfterWrite(Send(l, id, n), id, checkWindow).l;
            && (x in r.streams <==> x in l.streams && !Trailed(l.wire, r.wire, x))
            && Resets(r.wire, x) == Resets(l.wire, x) +
                 (if x in l.streams && x !in r.streams then TrailerCode(l.streams[x].items) else [])
  {
    hide Send, AfterWrite, Resets, Trailed, TrailerCode;
    SendMild(l, id, n);
    var s := Send(l, id, n);
    AfterExactly(s, id, checkWindow, x);
    TrailedLater(l.wire, s.wire, AfterWrite(s, id, checkWindow).l.wire, x);
    MildResets(l.wire, s.wire, x);
  }

  lemma ProcessExactly(l: Loopy, id: nat)
    requires Servable(l)
    ensures Exactly(l, Process, id)
  {
    hide Send, AfterWrite, Resets, Trailed, TrailerCode;
    var r := ProcessData(l).l;
    if !Idle(l) {
      var x, bytes := l.active[0], l.streams[l.active[0]].items[0].bytes;
      var l0 := l.(active := l.active[1..]);
      if |bytes| == 0 {
        ServeExactly(l0, x, 0, false, id);
      } else if l.Window(x) > 0 {
        ServeExactly(l0, x, Min(Allowance(l, x), |bytes|), true, id);
      } else {
        NotTrailed(l.wire, r.wire, id);
      }
    } else {
      NotTrailed(l.wire, r.wire, id);
    }
  }

  /** Over every run: the codes of the resets of a stream are those that its cleanups asked for and its trailers
      carried, in order; and which streams are established changes from step to step as it must. */
  ghost function ResetsOf(l: Loopy, steps: seq<Step>, id: nat): seq<nat>
    requires Run(l, steps)
    decreases |steps|
  {
    if steps == [] then [] else ResetOf(l, steps[0], id) + ResetsOf(Do(l, steps[0]).l, steps[1..], id)
  }

  ghost predicate LivesThroughout(l: Loopy, steps: seq<Step>, id: nat)
    requires Run(l, steps)
    decreases |steps|
  {
    steps != [] ==>
      && (id in Do(l, steps[0]).l.streams <==> Lives(l, steps[0], id))
      && LivesThroughout(Do(l, steps[0]).l, steps[1..], id)
  }

  lemma {:induction false} StreamsExactly(l: Loopy, steps: seq<Step>, id: nat)
    requires Run(l, steps) && Inv(l)
    ensures Resets(After(l, steps).wire, id) == Resets(l.wire, id) + ResetsOf(l, steps, id)
    ensures LivesThroughout(l, steps, id)
    decreases |steps|
  {
    hide Inv, Resets, ResetOf, Lives, Do, Legal, Servable;
    if steps != [] {
      StepOk(l, steps[0]);
      match steps[0] {
        case Item(c) => HandleExactly(l, c, id);
        case Process => ProcessExactly(l, id);
      }
      StreamsExactly(Do(l, steps[0]).l, steps[1..], id);
    }
  }


  // ---- When the writer ends ----

  /** A control item ends the writer: the connection closes while a stream is opened, a draining client loses its
      last stream, the framer refuses a frame, or the server's GOAWAY handler says so. */
  predicate Ends(l: Loopy, c: Command) {
    match c
    case Headers(id, _, _, init, _) => !(l.server && id % 2 == 1) && init.ConnClosing?
    case CleanupStream(id, _) => !l.server && l.draining && forall x :: x in l.streams ==> x == id
    case IncomingGoAway => !l.server && l.streams == map[]
    case Emission(o) => Refused(o)
    case OutgoingGoAway(_, ok) => l.server && !ok
    case _ => false
  }

  lemma NoStreams(streams: map<nat, Stream>)
    ensures |streams| == 0 <==> streams == map[]
  {
    if |streams| == 0 { assert streams.Keys == {}; }
  }

  lemma OnlyStream(streams: map<nat, Stream>, id: nat)
    ensures |streams - {id}| == 0 <==> forall x :: x in streams ==> x == id
  {
    NoStreams(streams - {id});
  }

  lemma CleanupEnds(l: Loopy, id: nat, rst: Option<nat>)
    ensures Cleanup(l, id, rst).ok <==> !(!l.server && l.draining && forall x :: x in l.streams ==> x == id)
  {
    OnlyStream(l.streams, id);
    CleanupStreams(l, id, rst);
  }

  lemma HandleEnds(l: Loopy, c: Command)
    ensures Handle(l, c).ok <==> !Ends(l, c)
  {
    hide Cleanup, ApplySettings, OnWindowUpdate, OnBytes, Refused;
    match c
    case Headers(id, fields, endStream, init, rst) =>
      CleanupEnds(Write(l, HeadersFrame(id, fields, true)), id, rst);
    case CleanupStream(id, rst) => CleanupEnds(l, id, rst);
    case IncomingGoAway => NoStreams(l.streams);
    case _ =>
  }

  /** A client queues data only: trailers are a server's. */
  ghost predicate DataOnly(l: Loopy) {
    !l.server ==> forall id, k :: id in l.streams && 0 <= k < |l.streams[id].items| ==> l.streams[id].items[k].Data?
  }

  lemma HeadersDataOnly(l: Loopy, id: nat, fields: seq<HeaderField>, endStream: bool, init: Init, rst: Option<nat>)
    requires DataOnly(l)
    ensures DataOnly(OnHeaders(l, id, fields, endStream, init, rst).l)
  {
    hide WithoutId;
  }

  lemma {:induction false} SettingsDataOnly(l: Loopy, ss: seq<Setting>)
    requires DataOnly(l) && ListOk(l)
    ensures DataOnly(ApplySettings(l, ss)) && ApplySettings(l, ss).server == l.server
    decreases |ss|
  {
    if ss != [] {
      var l1 := ApplySetting(l, ss[0]);
      assert ListOk(l1) && DataOnly(l1) && l1.server == l.server by {
        if ss[0].InitialWindowSize? {
          assert ListOk(l.(oiws := ss[0].v));
          ActivateWaitingOk(l.(oiws := ss[0].v), ss[0].order);
        }
      }
      hide ListOk, ApplySetting, DataOnly;
      SettingsDataOnly(l1, ss[1..]);
    }
  }

  lemma UpdateDataOnly(l: Loopy, id: nat, increment: nat)
    requires DataOnly(l)
    ensures DataOnly(OnWindowUpdate(l, id, increment))
  {
  }

  lemma BytesDataOnly(l: Loopy, id: nat, bytes: seq<Byte>, endStream: bool)
    requires DataOnly(l)
    ensures DataOnly(OnBytes(l, id, bytes, endStream))
  {
  }

  lemma CleanupDataOnly(l: Loopy, id: nat, rst: Option<nat>)
    requires DataOnly(l)
    ensures DataOnly(Cleanup(l, id, rst).l)
  {
    hide WithoutId;
  }

  lemma HandleDataOnly(l: Loopy, c: Command)
    requires DataOnly(l) && ListOk(l)
    ensures DataOnly(Handle(l, c).l)
  {
    hide Cleanup, ApplySettings, OnWindowUpdate, OnBytes, OnHeaders, Refused, ListOk;
    match c
    case IncomingWindowUpdate(id, increment) => hide DataOnly; UpdateDataOnly(l, id, increment);
    case IncomingSettings(ss) => SettingsDataOnly(l, ss);
    case Headers(id, fields, endStream, init, rst) => HeadersDataOnly(l, id, fields, endStream, init, rst);
    case CleanupStream(id, rst) => CleanupDataOnly(l, id, rst);
    case Bytes(id, bytes, endStream) => BytesDataOnly(l, id, bytes, endStream);
    case _ =>
  }

  lemma ServeDataOnly(l: Loopy, id: nat, n: nat, checkWindow: bool)
    requires CanSend(l, id, n) && DataOnly(l)
    ensures id in Send(l, id, n).streams
    ensures var r := AfterWrite(Send(l, id, n), id, checkWindow); r.ok && DataOnly(r.l)
  {
    hide AfterWrite, Cleanup;
    var s := Send(l, id, n);
    assert DataOnly(s) && s.server == l.server;
    AfterDataOnly(s, id, checkWindow);
  }

  lemma AfterDataOnly(l: Loopy, id: nat, checkWindow: bool)
    requires id in l.streams && DataOnly(l)
    ensures var r := AfterWrite(l, id, checkWindow); r.ok && DataOnly(r.l)
  {
    hide Cleanup;
    var items := l.streams[id].items;
    if items != [] && items[0].Trailer? {
      var w := Write(l, HeadersFrame(id, items[0].fields, true));
      CleanupEnds(w, id, items[0].rst);
      CleanupDataOnly(w, id, items[0].rst);
    }
  }

  /** processData never ends the writer. */
  lemma ProcessGoesOn(l: Loopy)
    requires Servable(l) && DataOnly(l)
    ensures ProcessData(l).ok && DataOnly(ProcessData(l).l)
  {
    hide Send, AfterWrite;
    if !Idle(l) {
      var id, bytes := l.active[0], l.streams[l.active[0]].items[0].bytes;
      var l0 := l.(active := l.active[1..]);
      if |bytes| == 0 {
        ServeDataOnly(l0, id, 0, false);
      } else if l.Window(id) > 0 {
        ServeDataOnly(l0, id, Min(Allowance(l, id), |bytes|), true);
      }
    }
  }

  /** The writer goes on after each step of a run exactly when the step is no control item that ends it. */
  ghost predicate EndsThroughout(l: Loopy, steps: seq<Step>)
    requires Run(l, steps)
    decreases |steps|
  {
    steps != [] ==>
      && (Do(l, steps[0]).ok <==> !(steps[0].Item? && Ends(l, steps[0].c)))
      && EndsThroughout(Do(l, steps[0]).l, steps[1..])
  }

  lemma {:induction false} EndsExactly(l: Loopy, steps: seq<Step>)
    requires Run(l, steps) && Inv(l) && DataOnly(l)
    ensures EndsThroughout(l, steps)
    decreases |steps|
  {
    hide Inv, Handle, ProcessData, Ends, DataOnly, Legal, Servable, ListOk;
    if steps != [] {
      StepOk(l, steps[0]);
      InvList(l);
      match steps[0] {
        case Item(c) =>
          HandleEnds(l, c);
          HandleDataOnly(l, c);
        case Process => ProcessGoesOn(l);
      }
      EndsExactly(Do(l, steps[0]).l, steps[1..]);
    }
  }

  /** In every run from the start. */
  lemma WriterEnds(server: bool, maxFrameSize: nat, steps: seq<Step>)
    requires maxFrameSize >= 1 && Run(NewLoopy(server, maxFrameSize), steps)
    ensures EndsThroughout(NewLoopy(server, maxFrameSize), steps)
  {
    hide EndsThroughout, LoopyInvariant.Run;
    NewLoopyOk(server, maxFrameSize);
    EndsExactly(NewLoopy(server, maxFrameSize), steps);
  }

  /** The frames that end the writer are those that the framer does not write. */
  lemma RefusedByFramer(id: Frames.U32, increment: Frames.U32, ack: bool, data: Frames.Octets8)
    ensures Refused(WindowUpdateOut(id, increment)) <==> Frames.Write(Frames.WriteWindowUpdate(id, increment)).Err?
    ensures !Refused(PingOut(ack, data)) && Frames.Write(Frames.WritePing(ack, data)).Ok?
  {
  }

  lemma SettingsRefused(ss: seq<Frames.Setting>)
    ensures Refused(SettingsOut(seq(|ss|, i requires 0 <= i < |ss| => (ss[i].id as nat, ss[i].val as nat)))) <==>
            Frames.Write(Frames.WriteSettings(ss)).Err?
  {
  }

  // ---- Waking ----

  /** An increment is added to the window of its stream, and wakes it exactly when it waits and then has window; the
      others keep their states, and their places in front of it. */
  lemma WakesExactly(l: Loopy, id: nat, increment: nat)
    requires id > 0 && id in l.streams
    ensures var r := OnWindowUpdate(l, id, increment);
            && r.streams.Keys == l.streams.Keys && r.Window(id) == l.Window(id) + increment
            && r.streams - {id} == l.streams - {id}
            && (if l.streams[id].state == WaitingOnStreamQuota && l.Window(id) + increment > 0 then
                  r.streams[id].state == Active && r.active == l.active + [id]
                else r.streams[id].state == l.streams[id].state && r.active == l.active)
  {
  }

  lemma {:induction false} VisitWakes(l: Loopy, order: seq<nat>)
    requires NoDuplicates(order)
    ensures ActivateWaiting(l, order).active == l.active + Waiting(l, order)
    decreases |order|
  {
    if order == [] {
      assert l.active + [] == l.active;
    } else {
      var id, rest := order[0], order[1..];
      var l1 := if id in l.streams && l.streams[id].state == WaitingOnStreamQuota then Activate(l, id) else l;
      assert forall i, j :: 0 <= i < j < |rest| ==> rest[i] != rest[j];
      assert id !in rest by { assert forall j :: 0 <= j < |rest| ==> rest[j] == order[j + 1]; }
      VisitWakes(l1, rest);
      SameWaiting(l, l1, rest);
    }
  }

  /** The streams that wait, in the order in which they are visited. */
  function Waiting(l: Loopy, order: seq<nat>): seq<nat> {
    if order == [] then []
    else
      var id := order[0];
      (if id in l.streams && l.streams[id].state == WaitingOnStreamQuota then [id] else []) + Waiting(l, order[1..])
  }

  lemma {:induction false} SameWaiting(l: Loopy, r: Loopy, order: seq<nat>)
    requires forall id :: id in order ==> (id in r.streams <==> id in l.streams)
    requires forall id :: id in order && id in l.streams ==> r.streams[id] == l.streams[id]
    ensures Waiting(r, order) == Waiting(l, order)
    decreases |order|
  {
    if order != [] { SameWaiting(l, r, order[1..]); }
  }

  /** A new initial window wakes every waiting stream, in the order in which they are visited, exactly when it is
      larger. */
  lemma WindowWakes(l: Loopy, v: nat, order: seq<nat>)
    requires NoDuplicates(order)
    ensures var r := ApplySetting(l, InitialWindowSize(v, order));
            r.active == if v > l.oiws then l.active + Waiting(l, order) else l.active
  {
    hide ActivateWaiting;
    VisitWakes(l.(oiws := v), order);
    SameWaiting(l, l.(oiws := v), order);
  }

  // ---- What the scheduler is set to ----

  /** Draining and the initial window after a step: a client drains from a GOAWAY on, a server as its handler says,
      and the window is the last one set. */
  function Set(server: bool, draining: bool, oiws: nat, st: Step): (bool, nat) {
    match st
    case Item(IncomingGoAway) => (draining || !server, oiws)
    case Item(OutgoingGoAway(d, ok)) => (if server && ok then d else draining, oiws)
    case Item(IncomingSettings(ss)) => (draining, LastWindow(ss, oiws))
    case _ => (draining, oiws)
  }

  function LastWindow(ss: seq<Setting>, oiws: nat): nat {
    if ss == [] then oiws
    else
      var s := ss[|ss| - 1];
      if s.InitialWindowSize? then s.v else LastWindow(ss[..|ss| - 1], oiws)
  }

  function SetAfter(server: bool, draining: bool, oiws: nat, steps: seq<Step>): (bool, nat)
    decreases |steps|
  {
    if steps == [] then (draining, oiws)
    else
      var (d, w) := Set(server, draining, oiws, steps[0]);
      SetAfter(server, d, w, steps[1..])
  }

  lemma {:induction false} LastWindowCons(s: Setting, ss: seq<Setting>, oiws: nat)
    ensures LastWindow([s] + ss, oiws) == LastWindow(ss, if s.InitialWindowSize? then s.v else oiws)
    decreases |ss|
  {
    var all := [s] + ss;
    if ss == [] {
      assert all[..|all| - 1] == [];
    } else {
      assert all[..|all| - 1] == [s] + ss[..|ss| - 1];
      LastWindowCons(s, ss[..|ss| - 1], oiws);
    }
  }

  ghost predicate SameSetup(l: Loopy, r: Loopy) { r.server == l.server && r.maxFrameSize == l.maxFrameSize }

  lemma {:induction false} SettingsSet(l: Loopy, ss: seq<Setting>)
    requires ListOk(l)
    ensures var r := ApplySettings(l, ss);
            SameSetup(l, r) && r.draining == l.draining && r.oiws == LastWindow(ss, l.oiws)
    decreases |ss|
  {
    if ss != [] {
      var l1 := ApplySetting(l, ss[0]);
      assert ListOk(l1) && SameSetup(l, l1) && l1.draining == l.draining &&
             l1.oiws == (if ss[0].InitialWindowSize? then ss[0].v else l.oiws) by {
        if ss[0].InitialWindowSize? {
          assert ListOk(l.(oiws := ss[0].v));
          ActivateWaitingOk(l.(oiws := ss[0].v), ss[0].order);
        }
      }
      hide ListOk, ApplySetting;
      SettingsSet(l1, ss[1..]);
      LastWindowCons(ss[0], ss[1..], l.oiws);
      assert [ss[0]] + ss[1..] == ss;
    }
  }

  lemma HandleSet(l: Loopy, c: Command)
    requires ListOk(l)
    ensures var r := Handle(l, c).l;
            SameSetup(l, r) && (r.draining, r.oiws) == Set(l.server, l.draining, l.oiws, Item(c))
  {
    hide ApplySettings, ListOk, WithoutId, Refused;
    if c.IncomingSettings? { SettingsSet(l, c.ss); }
  }

  lemma ServeSet(l: Loopy, id: nat, n: nat, checkWindow: bool)
    requires CanSend(l, id, n)
    ensures id in Send(l, id, n).streams
    ensures var r := AfterWrite(Send(l, id, n), id, checkWindow).l;
            SameSetup(l, r) && r.draining == l.draining && r.oiws == l.oiws
  {
    hide WithoutId;
  }

  lemma ProcessSet(l: Loopy)
    requires Servable(l)
    ensures var r := ProcessData(l).l; SameSetup(l, r) && r.draining == l.draining && r.oiws == l.oiws
  {
    hide Send, AfterWrite;
    if !Idle(l) {
      var id, bytes := l.active[0], l.streams[l.active[0]].items[0].bytes;
      var l0 := l.(active := l.active[1..]);
      if |bytes| == 0 {
        ServeSet(l0, id, 0, false);
      } else if l.Window(id) > 0 {
        ServeSet(l0, id, Min(Allowance(l, id), |bytes|), true);
      }
    }
  }

  /** After every run the scheduler is set to what its items said. */
  lemma {:induction false} SetExactly(l: Loopy, steps: seq<Step>)
    requires Run(l, steps) && Inv(l)
    ensures var r := After(l, steps);
            SameSetup(l, r) && (r.draining, r.oiws) == SetAfter(l.server, l.draining, l.oiws, steps)
    decreases |steps|
  {
    hide Inv, Handle, ProcessData, Legal, Servable, Set, ListOk;
    if steps != [] {
      StepOk(l, steps[0]);
      InvList(l);
      match steps[0] {
        case Item(c) => HandleSet(l, c);
        case Process =>
          ProcessSet(l);
          assert Set(l.server, l.draining, l.oiws, Process) == (l.draining, l.oiws) by { ProcessSets(l); }
      }
      SetExactly(Do(l, steps[0]).l, steps[1..]);
    }
  }

  lemma ProcessSets(l: Loopy)
    ensures Set(l.server, l.draining, l.oiws, Process) == (l.draining, l.oiws)
  {
  }
}
