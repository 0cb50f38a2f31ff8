/** Both ends of a connection: the scheduler sends, the receiver keeps its ledgers, and two first-in
    first-out links join them. Frames on their way to the receiver are the tail of the scheduler's wire. */
module FlowProtocol {
  import opened Bits
  import opened Loopy
  import opened LoopyInvariant
  import opened LoopyLedger
  import opened FlowControl
  import opened FlowSender

  // ---- The receiver ----

  /** From the receiver to the sender: window updates, a new initial window, and the HEADERS of a stream
      that the receiver opens. */
  datatype Msg = Update(id: nat, w: nat) | ConnUpdate(w: nat) | Setting(v: nat) | Opening(id: nat)

  /** `readClosed` are the streams whose reading side was reset. */
  datatype Receiver = Receiver(streams: map<nat, In>, initialWindow: nat, fc: TrIn, readClosed: set<nat>)

  /** The receiver after a call, the messages it sends, and whether data was refused. */
  datatype Outcome = Outcome(r: Receiver, sent: seq<Msg>, refused: bool)

  function Ack(id: nat, w: nat): seq<Msg> {
    if w > 0 then [Update(id, w)] else []
  }

  function ConnAck(w: nat): seq<Msg> {
    if w > 0 then [ConnUpdate(w)] else []
  }

  /** The connection's part of handleData; a bandwidth probe returns everything received. */
  function CountData(fc: TrIn, size: nat, probe: bool): (TrIn, seq<Msg>) {
    var c := TrOnData(fc, size);
    if probe then (TrReset(c.f).f, ConnAck(c.w) + ConnAck(TrReset(c.f).w)) else (c.f, ConnAck(c.w))
  }

  /** handleData: `pad` are the octets of a padded frame that are not data, which count as read at once. */
  function HandleData(r: Receiver, id: nat, size: nat, pad: nat, probe: bool): Outcome {
    var (fc, acks) := CountData(r.fc, size, probe);
    var r1 := r.(fc := fc);
    if id !in r.streams then Outcome(r1, acks, false)
    else if id in r.readClosed then Outcome(r1.(streams := r.streams - {id}), acks, false)
    else if size == 0 then Outcome(r1, acks, false)
    else
      var f := AddData(r.streams[id], size);
      if !Within(f) then Outcome(r1.(streams := r.streams - {id}), acks, true)
      else
        var g := if pad > 0 then Read(f, pad) else Granted(f, 0);
        Outcome(r1.(streams := r.streams[id := g.f]), acks + Ack(id, g.w), false)
  }

  /** The application read `n` octets. */
  function UpdateWindow(r: Receiver, id: nat, n: nat): Outcome
    requires id in r.streams
  {
    var g := Read(r.streams[id], n);
    Outcome(r.(streams := r.streams[id := g.f]), Ack(id, g.w), false)
  }

  /** The application is about to read `n` octets. */
  function AdjustWindow(r: Receiver, id: nat, n: nat): Outcome
    requires id in r.streams
  {
    var g := Adjust(r.streams[id], n);
    Outcome(r.(streams := r.streams[id := g.f]), Ack(id, g.w), false)
  }

  /** All windows become `n`. */
  function UpdateFlowControl(r: Receiver, n: nat): Outcome {
    var g := TrNewLimit(r.fc, n);
    var streams := map id | id in r.streams :: r.streams[id].(limit := n);
    Outcome(r.(streams := streams, initialWindow := n, fc := g.f), [ConnUpdate(g.w), Setting(n)], false)
  }

  /** The connection is told the difference, as a 32-bit word, and then the new initial window. */
  lemma RaiseTells(r: Receiver, n: nat)
    ensures var o := UpdateFlowControl(r, n);
            && o.sent == [ConnUpdate((n - r.fc.limit) % 0x1_0000_0000), Setting(n)] && !o.refused
            && o.r.initialWindow == n && o.r.fc == r.fc.(limit := n) && o.r.streams.Keys == r.streams.Keys
            && forall id :: id in r.streams ==> o.r.streams[id] == r.streams[id].(limit := n)
  {
  }

  function OpenStream(r: Receiver, id: nat): Receiver {
    r.(streams := r.streams[id := In(r.initialWindow, 0, 0, 0)])
  }

  /** The connection's count: a probe returns everything received, otherwise a quarter of the limit or nothing. */
  lemma CountReturns(fc: TrIn, n: nat, probe: bool)
    requires fc.unacked + n < WORD
    ensures var (g, acks) := CountData(fc, n, probe); var total := fc.unacked + n;
            && g.limit == fc.limit
            && (if probe then g.unacked == 0 && acks == ConnAck(total)
                else if total >= fc.limit / 4 then g.unacked == 0 && acks == ConnAck(total)
                else g.unacked == total && acks == [])
  {
  }

  /** handleData on a stream that is read: data is refused exactly when it is beyond what was granted, and then
      the stream goes; otherwise the padding is as if read, and the rest waits for the reader. */
  lemma DataOutcome(r: Receiver, id: nat, size: nat, pad: nat, probe: bool, received: nat, issued: nat)
    requires id in r.streams && id !in r.readClosed && 0 < size && pad <= size
    requires var f := r.streams[id];
             Small(f) && Balance(f, received, issued) && f.pendingData + f.pendingUpdate + size < WORD
    ensures var o, f := HandleData(r, id, size, pad, probe), r.streams[id];
            && (o.refused <==> received + size - issued > f.limit)
            && o.r == r.(fc := CountData(r.fc, size, probe).0, streams := o.r.streams)
            && (if o.refused then o.r.streams == r.streams - {id} && o.sent == CountData(r.fc, size, probe).1
                else
                  && id in o.r.streams && o.r.streams - {id} == r.streams - {id}
                  && o.r.streams[id].pendingData == f.pendingData + size - pad
                  && exists w :: o.sent == CountData(r.fc, size, probe).1 + Ack(id, w)
                                 && Balance(o.r.streams[id], received + size, issued + w))
  {
    hide CountData, FlowControl.Read, Within;
    var f := r.streams[id];
    var g := AddData(f, size);
    DataRefused(f, size, received, issued);
    if Within(g) {
      DataKeeps(f, size, received, issued);
      ReadExactly(g, pad);
      ReadKeeps(g, pad, received + size, issued);
      var w := if pad > 0 then FlowControl.Read(g, pad).w else 0;
      var o := HandleData(r, id, size, pad, probe);
      assert o.sent == CountData(r.fc, size, probe).1 + Ack(id, w);
    }
  }

  /** Data of a stream that is unknown, or reset for reading, is counted on the connection alone. */
  lemma DataElsewhere(r: Receiver, id: nat, size: nat, pad: nat, probe: bool)
    requires id !in r.streams || id in r.readClosed
    ensures var o := HandleData(r, id, size, pad, probe); var (fc, acks) := CountData(r.fc, size, probe);
            o == Outcome(r.(fc := fc, streams := r.streams - {id}), acks, false)
  {
    hide CountData;
    assert id !in r.streams ==> r.streams - {id} == r.streams;
  }

  // ---- The two ends ----

  /** `known` are the streams the receiver opened, `issued` and `connIssued` what it ever granted. */
  datatype System = System(l: Loopy, h: History, delivered: nat, back: seq<Msg>, r: Receiver, known: set<nat>,
                           issued: map<nat, nat>, connIssued: nat, refused: bool)
  {
    function Issued(id: nat): nat { if id in issued then issued[id] else 0 }

    /** Streams that exist or existed at the receiver. */
    function Opened(): set<nat>
      requires delivered <= |l.wire|
    {
      known + HeaderIds(l.wire[..delivered])
    }

    function Received(id: Option<nat>): nat
      requires delivered <= |l.wire|
    {
      WireOctets(l.wire[..delivered], id)
    }
  }

  datatype Move =
    | Local(c: Command)
    | Process
    | DeliverBack(order: seq<nat>)
    | DeliverFrame(probe: bool)
    | Open(id: nat)
    | Close(id: nat)
    | StopRead(id: nat)
    | ReadData(id: nat, n: nat)
    | AskWindow(id: nat, n: nat)
    | Raise(n: nat)

  function ToCommand(m: Msg, order: seq<nat>): Command {
    match m
    case Update(id, w) => IncomingWindowUpdate(id, w)
    case ConnUpdate(w) => IncomingWindowUpdate(0, w)
    case Setting(v) => IncomingSettings([InitialWindowSize(v, order)])
    case Opening(id) => RegisterStream(id)
  }

  /** What the sender's own program may ask of the scheduler: not what comes from the peer. */
  ghost predicate Own(s: System, c: Command)
    requires s.delivered <= |s.l.wire|
  {
    match c
    case IncomingWindowUpdate(_, _) => false
    case IncomingSettings(_) => false
    case RegisterStream(_) => false
    case Headers(id, _, _, init, _) =>
      (s.l.server && id % 2 == 1) || !init.Registered? ||
        (id > 0 && id !in s.h.queued && id !in s.known && id !in s.Opened())
    case _ => true
  }

  ghost predicate Possible(s: System, m: Move) {
    s.delivered <= |s.l.wire| &&
    match m
    case Local(c) => Own(s, c)
    case Process => Servable(s.l)
    case DeliverBack(order) => s.back != [] && Legal(s.l, ToCommand(s.back[0], order))
    case DeliverFrame(_) => s.delivered < |s.l.wire|
    case Open(id) => id > 0 && id !in s.Opened() && id !in s.h.queued
    case Close(id) => id in s.r.streams
    case StopRead(id) => id in s.r.streams
    case ReadData(id, n) => id in s.r.streams && n <= s.r.streams[id].pendingData
    case AskWindow(id, n) => id in s.r.streams && (s.r.streams[id].delta == 0 || !Adjusts(s.r.streams[id], Capped(n)))
    case Raise(n) => s.r.initialWindow < n <= MAX_WINDOW
  }

  /** The scheduler takes a step. */
  ghost function Sender(s: System, st: LoopyInvariant.Step): System
    requires st.Process? ==> Servable(s.l)
  {
    s.(l := Do(s.l, st).l, h := RecordStep(s.l, s.h, st))
  }

  /** A message goes to the sender. */
  function Push(s: System, m: Msg): System {
    var s1 := s.(back := s.back + [m]);
    match m
    case Update(id, w) => s1.(issued := s.issued[id := s.Issued(id) + w])
    case ConnUpdate(w) => s1.(connIssued := s.connIssued + w)
    case _ => s1
  }

  function PushAll(s: System, sent: seq<Msg>): System
    decreases |sent|
  {
    if sent == [] then s else PushAll(Push(s, sent[0]), sent[1..])
  }

  lemma {:induction false} PushAllBack(s: System, sent: seq<Msg>)
    ensures var t := PushAll(s, sent);
            t.back == s.back + sent && t == s.(back := t.back, issued := t.issued, connIssued := t.connIssued)
    decreases |sent|
  {
    if sent != [] {
      PushAllBack(Push(s, sent[0]), sent[1..]);
      assert s.back + sent == s.back + [sent[0]] + sent[1..];
    } else {
      assert s.back + [] == s.back;
    }
  }

  /** The receiver took a call. */
  function Replied(s: System, o: Outcome): System {
    PushAll(s, o.sent).(r := o.r, refused := s.refused || o.refused)
  }

  function Receive(s: System, e: Event, probe: bool): System {
    match e
    case DataFrame(id, payload, _) => Replied(s, HandleData(s.r, id, |payload|, 0, probe))
    case HeadersFrame(id, _, _) =>
      if s.delivered <= |s.l.wire| && id !in s.Opened() then s.(r := OpenStream(s.r, id)) else s
    case _ => s
  }

  ghost function After(s: System, m: Move): System
    requires Possible(s, m)
  {
    match m
    case Local(c) => Sender(s, Item(c))
    case Process => Sender(s, LoopyInvariant.Process)
    case DeliverBack(order) => Sender(s, Item(ToCommand(s.back[0], order))).(back := s.back[1..])
    case DeliverFrame(probe) => Receive(s, s.l.wire[s.delivered], probe).(delivered := s.delivered + 1)
    case Open(id) => s.(r := OpenStream(s.r, id), known := s.known + {id}, back := s.back + [Opening(id)])
    case Close(id) => s.(r := s.r.(streams := s.r.streams - {id}))
    case StopRead(id) => s.(r := s.r.(readClosed := s.r.readClosed + {id}))
    case ReadData(id, n) => Replied(s, UpdateWindow(s.r, id, n))
    case AskWindow(id, n) => Replied(s, AdjustWindow(s.r, id, n))
    case Raise(n) => Replied(s, UpdateFlowControl(s.r, n))
  }

  ghost predicate Possibles(s: System, ms: seq<Move>)
    decreases |ms|
  {
    ms != [] ==> Possible(s, ms[0]) && Possibles(After(s, ms[0]), ms[1..])
  }

  ghost function AfterAll(s: System, ms: seq<Move>): System
    requires Possibles(s, ms)
    decreases |ms|
  {
    if ms == [] then s else AfterAll(After(s, ms[0]), ms[1..])
  }

  function Start(server: bool, maxFrameSize: nat): System {
    System(NewLoopy(server, maxFrameSize), NO_HISTORY, 0, [],
           Receiver(map[], DEFAULT_WINDOW, TrIn(DEFAULT_WINDOW, 0), {}), {}, map[], 0, false)
  }

  // ---- What is on its way to the sender ----

  function ConnTotal(back: seq<Msg>): nat {
    if back == [] then 0 else (if back[0].ConnUpdate? then back[0].w else 0) + ConnTotal(back[1..])
  }

  /** Updates of a stream on their way that will count: those after the stream is registered. */
  function Pend(back: seq<Msg>, id: nat, registered: bool): nat
    decreases |back|
  {
    if back == [] then 0
    else match back[0]
      case Opening(i) => Pend(back[1..], id, registered || i == id)
      case Update(i, w) => (if registered && i == id then w else 0) + Pend(back[1..], id, registered)
      case _ => Pend(back[1..], id, registered)
  }

  /** The initial window once everything on its way is applied. */
  function Final(back: seq<Msg>, oiws: nat): nat
    decreases |back|
  {
    if back == [] then oiws else Final(back[1..], if back[0].Setting? then back[0].v else oiws)
  }

  predicate Rising(back: seq<Msg>, oiws: nat)
    decreases |back|
  {
    back != [] ==>
      if back[0].Setting? then oiws <= back[0].v && Rising(back[1..], back[0].v) else Rising(back[1..], oiws)
  }

  lemma {:induction false} PendSnoc(back: seq<Msg>, m: Msg, id: nat, registered: bool)
    ensures Pend(back + [m], id, registered) ==
            Pend(back, id, registered) +
              (if m.Update? && m.id == id && (registered || Opening(id) in back) then m.w else 0)
    decreases |back|
  {
    var b := back + [m];
    if back == [] {
      assert b[1..] == [];
    } else {
      assert b[1..] == back[1..] + [m] && back == [back[0]] + back[1..];
      PendSnoc(back[1..], m, id, registered || back[0] == Opening(id));
    }
  }

  lemma {:induction false} FinalSnoc(back: seq<Msg>, m: Msg, oiws: nat)
    requires Rising(back, oiws)
    ensures Final(back + [m], oiws) == if m.Setting? then m.v else Final(back, oiws)
    ensures Rising(back + [m], oiws) <==> (m.Setting? ==> Final(back, oiws) <= m.v)
    ensures oiws <= Final(back, oiws)
    decreases |back|
  {
    var b := back + [m];
    if back == [] {
      assert b[1..] == [];
    } else {
      assert b[1..] == back[1..] + [m];
      FinalSnoc(back[1..], m, if back[0].Setting? then back[0].v else oiws);
    }
  }

  lemma {:induction false} ConnTotalSnoc(back: seq<Msg>, m: Msg)
    ensures ConnTotal(back + [m]) == ConnTotal(back) + (if m.ConnUpdate? then m.w else 0)
    decreases |back|
  {
    var b := back + [m];
    if back == [] {
      assert b[1..] == [];
    } else {
      assert b[1..] == back[1..] + [m];
      ConnTotalSnoc(back[1..], m);
    }
  }

  /** Updates to a stream that was never opened are not on their way. */
  lemma {:induction false} PendNone(back: seq<Msg>, id: nat, registered: bool)
    requires forall i :: 0 <= i < |back| ==> !(back[i].Update? && back[i].id == id)
    ensures Pend(back, id, registered) == 0
    decreases |back|
  {
    if back != [] {
      assert forall i :: 0 <= i < |back[1..]| ==> back[1..][i] == back[i + 1];
      PendNone(back[1..], id, registered || back[0] == Opening(id));
    }
  }

  lemma {:induction false} PrefixOctets(was: seq<Event>, now: seq<Event>, id: Option<nat>)
    requires was <= now
    ensures WireOctets(was, id) <= WireOctets(now, id)
    decreases |now|
  {
    if |was| < |now| {
      PrefixOctets(was, now[..|now| - 1], id);
    } else {
      assert was == now;
    }
  }

  // ---- The invariant ----

  ghost predicate SenderOk(s: System) {
    s.delivered <= |s.l.wire| && Inv(s.l) && Ledger(s.l, s.h) && Covered(s.l, s.h) && s.h.wraps == 0
  }

  /** Streams are announced before they are used, and opened once. */
  ghost predicate NamesOk(s: System)
    requires s.delivered <= |s.l.wire|
  {
    var ids := HeaderIds(s.l.wire);
    && 0 !in s.known && 0 !in s.h.queued && ids <= s.h.queued.Keys
    && Announced(s.l.wire, s.known)
    && s.l.streams.Keys <= s.known + ids && s.r.streams.Keys <= s.Opened()
    && (forall id :: id in s.known ==> id in s.h.queued || Opening(id) in s.back)
  }

  ghost predicate BackOk(s: System)
    requires s.delivered <= |s.l.wire|
  {
    && (forall i :: 0 <= i < |s.back| && s.back[i].Opening? ==> s.back[i].id in s.known && s.back[i].id !in s.h.queued)
    && (forall i :: 0 <= i < |s.back| && s.back[i].Update? ==> s.back[i].id in s.Opened())
    && (forall i, j :: 0 <= i < j < |s.back| && s.back[i].Opening? ==> s.back[i] != s.back[j])
  }

  /** What was granted to a stream is applied or on its way; once the stream is gone it may be lost. */
  ghost predicate GrantOk(s: System, id: nat) {
    && Applied(s.h, id) <= s.Issued(id)
    && (id in s.l.streams || id !in s.h.queued ==>
          s.Issued(id) == Applied(s.h, id) + Pend(s.back, id, id in s.l.streams))
  }

  ghost predicate GrantsOk(s: System) {
    forall id :: GrantOk(s, id)
  }

  ghost predicate LimitsOk(s: System) {
    && Rising(s.back, s.l.oiws) && Final(s.back, s.l.oiws) == s.r.initialWindow <= MAX_WINDOW
    && s.r.fc.limit == s.r.initialWindow
  }

  ghost predicate StreamOk(s: System, id: nat)
    requires s.delivered <= |s.l.wire|
  {
    && (id in s.r.streams ==>
          var f := s.r.streams[id];
          f.limit == s.r.initialWindow && Small(f) && Balance(f, s.Received(Some(id)), s.Issued(id)))
    && (id !in s.Opened() ==> s.Received(Some(id)) == 0 && s.Issued(id) == 0)
  }

  ghost predicate StreamsOk(s: System)
    requires s.delivered <= |s.l.wire|
  {
    forall id :: StreamOk(s, id)
  }

  ghost predicate ConnOk(s: System)
    requires s.delivered <= |s.l.wire|
  {
    && s.connIssued + DEFAULT_WINDOW + s.r.fc.unacked == s.r.fc.limit + s.Received(None)
    && s.h.connIncrements + ConnTotal(s.back) == s.connIssued
  }

  ghost predicate Good(s: System) {
    SenderOk(s) && NamesOk(s) && BackOk(s) && GrantsOk(s) && LimitsOk(s) && StreamsOk(s) && ConnOk(s) && !s.refused
  }

  // ---- The laws ----

  /** DATA of a stream, or of all, on its way to the receiver. */
  function InFlight(s: System, id: Option<nat>): int
    requires s.delivered <= |s.l.wire|
  {
    WireOctets(s.l.wire, id) - s.Received(id)
  }

  /** The window of a stream is somewhere: with the sender, on its way in either direction, at the
      receiver, or in a settings change that the sender has not applied yet. */
  lemma StreamLaw(s: System, id: nat)
    requires Good(s) && id in s.l.streams && id in s.r.streams
    ensures var f := s.r.streams[id];
            s.l.Window(id) + InFlight(s, Some(id)) + f.pendingData + f.pendingUpdate + Pend(s.back, id, true)
              + (Final(s.back, s.l.oiws) - s.l.oiws) == f.limit + f.delta
    ensures s.l.Window(id) >= 0 && InFlight(s, Some(id)) >= 0 && Final(s.back, s.l.oiws) >= s.l.oiws
  {
    hide WireOctets, Inv, Ledger, Pend, Announced, HeaderIds, Final, Rising;
    assert GrantOk(s, id) && StreamOk(s, id);
    SentSoFar(s.l, s.h, id);
    PrefixOctets(s.l.wire[..s.delivered], s.l.wire, Some(id));
    FinalSnoc(s.back, ConnUpdate(0), s.l.oiws);
  }

  /** The protocol's bound on the sender's window holds while limit and extra window are within it. Once
      everything is back with the sender, it holds in no other case. */
  lemma WindowBound(s: System, id: nat)
    requires Good(s) && id in s.l.streams && id in s.r.streams
    ensures var f := s.r.streams[id];
            && (f.limit + f.delta <= MAX_WINDOW ==> s.l.Window(id) <= MAX_WINDOW)
            && (s.back == [] && s.delivered == |s.l.wire| && f.pendingData == f.pendingUpdate == 0 ==>
                  (s.l.Window(id) <= MAX_WINDOW <==> f.limit + f.delta <= MAX_WINDOW))
  {
    StreamLaw(s, id);
    hide Good, WireOctets;
    if s.delivered == |s.l.wire| { assert s.l.wire[..s.delivered] == s.l.wire; }
  }

  lemma ConnLaw(s: System)
    requires Good(s)
    ensures s.l.sendQuota + InFlight(s, None) + s.r.fc.unacked + ConnTotal(s.back) == s.r.fc.limit <= MAX_WINDOW
    ensures InFlight(s, None) >= 0
  {
    hide WireOctets, Inv, Covered, Account, Pend, Announced, HeaderIds, Final, Rising, NamesOk, BackOk, GrantsOk;
    hide StreamsOk;
    PrefixOctets(s.l.wire[..s.delivered], s.l.wire, None);
  }
}
