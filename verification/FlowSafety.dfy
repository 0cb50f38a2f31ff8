/** Every move of either end keeps the flow-control invariant, so nothing that the scheduler sends is
    ever refused. */
module FlowSafety {
  import opened Bits
  import opened HeaderTable
  import opened Loopy
  import LoopyInvariant
  import opened LoopyLedger
  import opened FlowControl
  import opened FlowSender
  import opened FlowProtocol

  // ---- The scheduler's own steps ----

  /** A step of the scheduler that applies nothing from the peer. */
  ghost predicate OwnChange(l: Loopy, h: History, r: Loopy, g: History) {
    && l.wire <= r.wire && r.oiws == l.oiws && g.connIncrements == h.connIncrements && g.wraps == h.wraps
    && (forall id :: Applied(g, id) == Applied(h, id))
    && h.queued.Keys <= g.queued.Keys
    && HeaderIds(l.wire) <= HeaderIds(r.wire) <= g.queued.Keys + HeaderIds(l.wire)
    && (forall id :: id in r.streams && id !in l.streams ==> id in HeaderIds(r.wire) && id !in h.queued)
    && (forall id :: id in r.streams ==> id in g.queued)
  }

  /** Which stream a control item may open. */
  ghost predicate OpenedBy(l: Loopy, c: Command, id: nat) {
    c.Headers? && c.id == id && !(l.server && id % 2 == 1) && c.init.Registered?
  }

  lemma HandleNames(l: Loopy, c: Command)
    requires !c.IncomingSettings?
    ensures var w, v := l.wire, Handle(l, c).l.wire;
            && HeaderIds(w) <= HeaderIds(v)
            && forall id :: id in HeaderIds(v) && id !in HeaderIds(w) ==>
                 c.Headers? && c.id == id && (id in l.streams || OpenedBy(l, c, id))
  {
    hide HeaderIds, OnHeaders, Cleanup, OnWindowUpdate, OnBytes, Refused;
    match c
    case IncomingWindowUpdate(id, increment) => QuietUpdate(l, id, increment);
    case Bytes(id, bytes, endStream) => QuietBytes(l, id, bytes, endStream);
    case Headers(id, fields, endStream, init, rst) => HeadersNames(l, id, fields, endStream, init, rst);
    case CleanupStream(id, rst) => CleanupNames(l, id, rst);
    case Emission(o) => HeaderSnoc(l.wire, Control(o));
    case OutgoingGoAway(_, _) => HeaderSnoc(l.wire, GoAwayItem);
    case QuotaRequest => HeaderSnoc(l.wire, QuotaReply(l.sendQuota));
    case _ =>
  }

  lemma CleanupNames(l: Loopy, id: nat, rst: Option<nat>)
    ensures HeaderIds(Cleanup(l, id, rst).l.wire) == HeaderIds(l.wire)
  {
    hide HeaderIds;
    if rst.Some? { HeaderSnoc(l.wire, RstStream(id, rst.value)); }
  }

  lemma HeadersNames(l: Loopy, id: nat, fields: seq<HeaderField>, endStream: bool, init: Init, rst: Option<nat>)
    ensures var w, r := l.wire, OnHeaders(l, id, fields, endStream, init, rst).l;
            HeaderIds(r.wire) == HeaderIds(w)
            || (HeaderIds(r.wire) == HeaderIds(w) + {id} &&
                  (id in l.streams || (!(l.server && id % 2 == 1) && init.Registered?)))
  {
    hide HeaderIds, Cleanup;
    var e := HeadersFrame(id, fields, endStream);
    HeaderSnoc(l.wire, e);
    CleanupNames(Write(l, e), id, rst);
  }

  /** The scheduler's program does not change windows. */
  lemma HandleOwn(l: Loopy, c: Command)
    requires !c.IncomingSettings?
    ensures Handle(l, c).l.oiws == l.oiws
  {
  }

  lemma RecordOwn(l: Loopy, h: History, c: Command)
    requires l.streams.Keys <= h.queued.Keys && h.queued.Keys == h.increments.Keys
    requires !c.IncomingSettings? && !c.IncomingWindowUpdate?
    ensures var g := RecordStep(l, h, LoopyInvariant.Item(c));
            && g.connIncrements == h.connIncrements && g.wraps == h.wraps && h.queued.Keys <= g.queued.Keys
            && (forall id :: id in g.queued && id !in h.queued ==> OpenedBy(l, c, id) || c == RegisterStream(id))
            && (forall id :: OpenedBy(l, c, id) ==> id in g.queued)
  {
  }

  lemma OwnIsFresh(s: System, c: Command)
    requires SenderOk(s) && Own(s, c)
    ensures FreshId(s.h, s.l, c) && LoopyInvariant.Legal(s.l, c)
  {
    Known(s.l, s.h);
  }

  lemma LocalChange(s: System, c: Command)
    requires SenderOk(s) && NamesOk(s) && Own(s, c)
    ensures var t := Sender(s, LoopyInvariant.Item(c)); OwnChange(s.l, s.h, t.l, t.h) && Quiet(s.l.wire, t.l.wire)
  {
    hide HeaderIds, Announced, Handle, LoopyInvariant.Inv, Covered, RecordStep;
    var l, h := s.l, s.h;
    var t := Sender(s, LoopyInvariant.Item(c));
    OwnIsFresh(s, c);
    Known(l, h);
    HandleQuiet(l, c);
    HandleNames(l, c);
    HandleOwn(l, c);
    RecordOwn(l, h, c);
    hide Ledger;
    StepKnown(s, LoopyInvariant.Item(c));
    forall id ensures Applied(t.h, id) == Applied(h, id) { RecordGrants(l, h, c, id); }
    forall id | id in t.l.streams && id !in l.streams ensures id in HeaderIds(t.l.wire) && id !in h.queued {
      NewStream(l, h, c, id);
    }
    assert HeaderIds(t.l.wire) <= t.h.queued.Keys + HeaderIds(l.wire);
  }

  lemma NewStream(l: Loopy, h: History, c: Command, id: nat)
    requires Opens(l, Handle(l, c).l, c) && FreshId(h, l, c) && !c.RegisterStream? && id in Handle(l, c).l.streams
    requires id !in l.streams
    ensures id in HeaderIds(Handle(l, c).l.wire) && id !in h.queued
  {
    var w := Handle(l, c).l.wire;
    assert w == w[..|w| - 1] + [w[|w| - 1]];
    HeaderSnoc(w[..|w| - 1], w[|w| - 1]);
  }

  /** The ledger after a step knows all its streams. */
  lemma StepKnown(s: System, st: LoopyInvariant.Step)
    requires SenderOk(s) && LoopyInvariant.Enabled(s.l, st) && (st.Item? ==> FreshId(s.h, s.l, st.c))
    ensures var t := Sender(s, st); LoopyInvariant.Inv(t.l) && Ledger(t.l, t.h) && t.l.streams.Keys <= t.h.queued.Keys
  {
    hide LoopyInvariant.Inv, Ledger, Covered, FreshId, LoopyInvariant.Do, RecordStep;
    StepAccounts(s.l, s.h, st);
    LoopyInvariant.StepOk(s.l, st);
    var t := Sender(s, st);
    Known(t.l, t.h);
  }

  lemma ProcessChange(s: System)
    requires SenderOk(s) && NamesOk(s) && Servable(s.l)
    ensures var t := Sender(s, LoopyInvariant.Process); OwnChange(s.l, s.h, t.l, t.h) && Announced(t.l.wire, s.known)
  {
    hide HeaderIds, Announced, LoopyInvariant.Inv, Covered, ProcessData;
    var l, h := s.l, s.h;
    var t := Sender(s, LoopyInvariant.Process);
    StepKnown(s, LoopyInvariant.Process);
    Known(l, h);
    hide Ledger;
    var id, n := ProcessSends(l);
    if n >= 0 {
      SendsOctets(l.wire, t.l.wire, id, n, None);
      SendsAnnounced(l.wire, t.l.wire, id, n, s.known);
    }
    ProcessNames(l);
  }

  lemma ProcessNames(l: Loopy)
    requires Servable(l)
    ensures var w, v := l.wire, ProcessData(l).l.wire; HeaderIds(w) <= HeaderIds(v) <= HeaderIds(w) + l.streams.Keys
  {
    hide HeaderIds, Send, AfterWrite;
    if !Idle(l) {
      var id := l.active[0];
      var l0 := l.(active := l.active[1..]);
      var bytes := l.streams[id].items[0].bytes;
      if |bytes| == 0 {
        ServeNames(l0, id, 0, false);
      } else if l.Window(id) > 0 {
        ServeNames(l0, id, Min(Allowance(l, id), |bytes|), true);
      }
    }
  }

  lemma ServeNames(l: Loopy, id: nat, n: nat, checkWindow: bool)
    requires CanSend(l, id, n)
    ensures id in Send(l, id, n).streams
    ensures var w, v := l.wire, AfterWrite(Send(l, id, n), id, checkWindow).l.wire;
            HeaderIds(w) <= HeaderIds(v) <= HeaderIds(w) + {id}
  {
    hide HeaderIds;
    var it := l.streams[id].items[0];
    var e := DataFrame(id, it.bytes[..n], it.endStream && n == |it.bytes|);
    HeaderSnoc(l.wire, e);
    HeaderSnoc(l.wire + [e], Completed(id));
    var l1 := Send(l, id, n);
    assert HeaderIds(l1.wire) == HeaderIds(l.wire);
    hide Send, Cleanup;
    AfterNames(l1, id, checkWindow);
  }

  lemma AfterNames(l: Loopy, id: nat, checkWindow: bool)
    requires id in l.streams
    ensures var w, v := l.wire, AfterWrite(l, id, checkWindow).l.wire;
            HeaderIds(w) <= HeaderIds(v) <= HeaderIds(w) + {id}
  {
    hide HeaderIds, Cleanup;
    var items := l.streams[id].items;
    if items != [] && items[0].Trailer? {
      var e := HeadersFrame(id, items[0].fields, true);
      HeaderSnoc(l.wire, e);
      CleanupNames(Write(l, e), id, items[0].rst);
    }
  }

  /** What the receiver has seen does not change when the wire grows. */
  lemma SamePast(s: System, t: System)
    requires s.delivered <= |s.l.wire| && t.delivered == s.delivered && s.l.wire <= t.l.wire && t.known == s.known
    ensures t.delivered <= |t.l.wire| && t.Opened() == s.Opened() && forall id :: t.Received(id) == s.Received(id)
  {
    hide HeaderIds, WireOctets;
    assert t.l.wire[..t.delivered] == s.l.wire[..s.delivered];
  }

  lemma OwnGrant(s: System, t: System, id: nat)
    requires s.delivered <= |s.l.wire| && GrantOk(s, id) && BackOk(s) && (id !in s.Opened() ==> s.Issued(id) == 0)
    requires OwnChange(s.l, s.h, t.l, t.h) && t.back == s.back && t.issued == s.issued
    requires s.l.streams.Keys <= s.h.queued.Keys
    requires id in t.l.streams && id !in s.l.streams ==> id !in s.Opened()
    ensures GrantOk(t, id)
  {
    hide HeaderIds, Pend;
    if id in t.l.streams && id !in s.l.streams {
      PendNone(s.back, id, true);
      PendNone(s.back, id, false);
    }
  }

  /** The sender's half after one of its own steps. */
  lemma OwnKeeps(s: System, t: System)
    requires Good(s) && OwnChange(s.l, s.h, t.l, t.h) && t == s.(l := t.l, h := t.h) && Announced(t.l.wire, s.known)
    requires LoopyInvariant.Inv(t.l) && Ledger(t.l, t.h) && Covered(t.l, t.h) && t.l.streams.Keys <= t.h.queued.Keys
    requires forall id :: id in t.h.queued && id !in s.h.queued ==> id > 0 && id !in s.Opened() && id !in s.known
    ensures Good(t)
  {
    hide HeaderIds, Announced, LoopyInvariant.Inv, Ledger, Covered, Pend, Final, Rising, WireOctets, ConnTotal;
    SamePast(s, t);
    Known(s.l, s.h);
    forall id ensures StreamOk(t, id) { assert StreamOk(s, id); }
    forall id ensures GrantOk(t, id) {
      assert StreamOk(s, id) && GrantOk(s, id);
      OwnGrant(s, t, id);
    }
    OwnNames(s, t);
  }

  lemma OwnNames(s: System, t: System)
    requires SenderOk(s) && NamesOk(s) && BackOk(s) && OwnChange(s.l, s.h, t.l, t.h) && t == s.(l := t.l, h := t.h)
    requires Announced(t.l.wire, s.known)
    requires s.delivered <= |t.l.wire| && t.Opened() == s.Opened() && t.l.streams.Keys <= t.h.queued.Keys
    requires forall id :: id in t.h.queued && id !in s.h.queued ==> id > 0 && id !in s.Opened() && id !in s.known
    ensures NamesOk(t) && BackOk(t)
  {
    hide HeaderIds, Announced, SenderOk;
  }

  /** Every step of the scheduler's own program and every call of processData keeps the invariant. */
  lemma LocalKeeps(s: System, c: Command)
    requires Good(s) && Own(s, c)
    ensures Good(Sender(s, LoopyInvariant.Item(c)))
  {
    hide HeaderIds, Announced, LoopyInvariant.Inv, Ledger, Covered, Pend, Final, Rising, WireOctets, ConnTotal;
    hide Handle, RecordStep;
    hide BackOk, GrantsOk, LimitsOk, StreamsOk, ConnOk, OwnChange;
    var t := Sender(s, LoopyInvariant.Item(c));
    OwnIsFresh(s, c);
    StepKnown(s, LoopyInvariant.Item(c));
    LocalChange(s, c);
    HandleOwnCovered(s, c);
    QuietAnnounced(s.l.wire, t.l.wire, s.known);
    Known(s.l, s.h);
    RecordOwn(s.l, s.h, c);
    OwnKeeps(s, t);
  }

  lemma HandleOwnCovered(s: System, c: Command)
    requires SenderOk(s) && Own(s, c)
    ensures var t := Sender(s, LoopyInvariant.Item(c)); Covered(t.l, t.h)
  {
    hide LoopyInvariant.Inv, Ledger, Covered, Handle, RecordStep;
    OwnIsFresh(s, c);
    HandleOwn(s.l, c);
    HandleCovered(s.l, s.h, c);
  }

  lemma ProcessKeeps(s: System)
    requires Good(s) && Servable(s.l)
    ensures Good(Sender(s, LoopyInvariant.Process))
  {
    hide HeaderIds, Announced, LoopyInvariant.Inv, Ledger, Covered, Pend, Final, Rising, WireOctets, ConnTotal;
    hide ProcessData;
    hide BackOk, GrantsOk, LimitsOk, StreamsOk, ConnOk, OwnChange;
    StepKnown(s, LoopyInvariant.Process);
    ProcessChange(s);
    ProcessCovered(s.l, s.h);
    OwnKeeps(s, Sender(s, LoopyInvariant.Process));
  }

  // ---- Messages that reach the sender ----

  /** The front message is handled. */
  ghost function Arrive(s: System, order: seq<nat>): System
    requires s.back != []
  {
    Sender(s, LoopyInvariant.Item(ToCommand(s.back[0], order))).(back := s.back[1..])
  }

  lemma BackTail(s: System)
    requires s.delivered <= |s.l.wire| && BackOk(s) && s.back != []
    ensures BackOk(s.(back := s.back[1..]))
    ensures forall id :: Opening(id) in s.back && s.back[0] != Opening(id) ==> Opening(id) in s.back[1..]
  {
    hide HeaderIds;
    var rest := s.back[1..];
    assert s.back == [s.back[0]] + rest;
    assert forall i :: 0 <= i < |rest| ==> rest[i] == s.back[i + 1];
    forall i, j | 0 <= i < j < |rest| && rest[i].Opening? ensures rest[i] != rest[j] {
      assert rest[i] == s.back[i + 1] && rest[j] == s.back[j + 1];
    }
  }

  /** What a message adds to the window of a stream. */
  function Added(l: Loopy, m: Msg, id: nat): nat {
    if m.Update? && m.id == id && id in l.streams then m.w else 0
  }

  /** The effect of the front message on names and amounts, apart from windows. */
  ghost predicate Arrived(s: System, t: System, m: Msg) {
    && s.delivered <= |s.l.wire| && s.l.wire <= t.l.wire && HeaderIds(t.l.wire) == HeaderIds(s.l.wire)
    && t.l.streams.Keys == s.l.streams.Keys + (if m.Opening? then {m.id} else {})
    && t.h.queued.Keys == s.h.queued.Keys + (if m.Opening? then {m.id} else {})
    && t.l.oiws == (if m.Setting? then m.v else s.l.oiws)
    && t.h.connIncrements == s.h.connIncrements + (if m.ConnUpdate? then m.w else 0)
    && (forall id :: Applied(t.h, id) == Applied(s.h, id) + Added(s.l, m, id))
    && t == s.(l := t.l, h := t.h, back := t.back)
  }

  lemma SettingArrives(l: Loopy, v: nat, order: seq<nat>)
    requires LoopyInvariant.Inv(l)
    ensures var r := Handle(l, IncomingSettings([InitialWindowSize(v, order)])).l;
            r.wire == l.wire + [SettingsAck] && r.streams.Keys == l.streams.Keys && r.oiws == v
  {
    hide ActivateWaiting;
    var s := InitialWindowSize(v, order);
    assert [s][1..] == [];
    assert ApplySettings(l, [s]) == ApplySettings(ApplySetting(l, s), []) == ApplySetting(l, s);
    assert LoopyInvariant.ListOk(l.(oiws := v));
    LoopyInvariant.ActivateWaitingOk(l.(oiws := v), order);
  }

  /** What a message does to the scheduler and its history, the windows of streams aside. */
  ghost predicate Handled(l: Loopy, h: History, r: Loopy, g: History, m: Msg) {
    && (if m.Setting? then r.wire == l.wire + [SettingsAck] else r.wire == l.wire)
    && r.streams.Keys == l.streams.Keys + (if m.Opening? then {m.id} else {})
    && g.queued.Keys == h.queued.Keys + (if m.Opening? then {m.id} else {})
    && r.oiws == (if m.Setting? then m.v else l.oiws)
    && g.connIncrements == h.connIncrements + (if m.ConnUpdate? then m.w else 0)
  }

  lemma MsgHandled(l: Loopy, h: History, m: Msg, order: seq<nat>)
    requires LoopyInvariant.Inv(l) && l.streams.Keys <= h.queued.Keys && h.queued.Keys == h.increments.Keys
    requires m.Update? ==> m.id > 0
    ensures var c := ToCommand(m, order);
            Handled(l, h, Handle(l, c).l, RecordStep(l, h, LoopyInvariant.Item(c)), m)
  {
    hide LoopyInvariant.Inv, Handle;
    if m.Setting? {
      SettingArrives(l, m.v, order);
    } else {
      AmountArrives(l, h, m, order);
    }
  }

  lemma FrontFacts(s: System)
    requires Good(s) && s.back != []
    ensures s.delivered <= |s.l.wire| && LoopyInvariant.Inv(s.l) && Announced(s.l.wire, s.known)
    ensures s.l.streams.Keys <= s.h.queued.Keys && s.h.queued.Keys == s.h.increments.Keys
    ensures var m := s.back[0]; (m.Update? ==> m.id > 0) && (m.Opening? ==> m.id !in s.h.queued)
  {
    hide HeaderIds, Announced, Covered, GrantsOk, LimitsOk, StreamsOk, ConnOk, LoopyInvariant.Inv;
    Known(s.l, s.h);
    if s.back[0].Update? { OpenedPositive(s, s.back[0].id); }
  }

  lemma ArriveChange(s: System, order: seq<nat>)
    requires Good(s) && s.back != [] && LoopyInvariant.Legal(s.l, ToCommand(s.back[0], order))
    ensures FreshId(s.h, s.l, ToCommand(s.back[0], order)) && Arrived(s, Arrive(s, order), s.back[0])
    ensures Announced(Arrive(s, order).l.wire, s.known)
  {
    hide Good, HeaderIds, Announced, LoopyInvariant.Inv, RecordStep, Handle, Applied;
    FrontFacts(s);
    var m, t := s.back[0], Arrive(s, order);
    MsgHandled(s.l, s.h, m, order);
    if m.Setting? {
      HeaderSnoc(s.l.wire, SettingsAck);
      AnnouncedSnoc(s.l.wire, SettingsAck, s.known);
    }
    forall id ensures Applied(t.h, id) == Applied(s.h, id) + Added(s.l, m, id) {
      RecordGrants(s.l, s.h, ToCommand(m, order), id);
    }
  }

  lemma OpenedPositive(s: System, id: nat)
    requires s.delivered <= |s.l.wire| && NamesOk(s) && id in s.Opened()
    ensures id > 0 && (id in s.h.queued || id in s.known)
  {
    hide Announced;
    ExtendsHeaders(s.l.wire[..s.delivered], s.l.wire);
  }

  lemma AmountArrives(l: Loopy, h: History, m: Msg, order: seq<nat>)
    requires l.streams.Keys <= h.queued.Keys && h.queued.Keys == h.increments.Keys && !m.Setting?
    requires (m.Update? ==> m.id > 0)
    ensures var c := ToCommand(m, order); var r, g := Handle(l, c).l, RecordStep(l, h, LoopyInvariant.Item(c));
            && r.wire == l.wire && r.oiws == l.oiws
            && r.streams.Keys == l.streams.Keys + (if m.Opening? then {m.id} else {})
            && g.queued.Keys == h.queued.Keys + (if m.Opening? then {m.id} else {})
            && g.connIncrements == h.connIncrements + (if m.ConnUpdate? then m.w else 0)
            && g.wraps == h.wraps + (if m.ConnUpdate? then (l.sendQuota + m.w) / WORD else 0)
  {
  }

  /** An increment of the connection never overflows the quota: it is part of the limit. */
  lemma NoWrap(s: System, order: seq<nat>)
    requires Good(s) && s.back != [] && (s.back[0].Update? ==> s.back[0].id > 0)
    ensures Arrive(s, order).h.wraps == 0
  {
    Known(s.l, s.h);
    ConnLaw(s);
    var m := s.back[0];
    assert m.ConnUpdate? ==> ConnTotal(s.back) >= m.w;
    hide Good;
    if !m.Setting? {
      AmountArrives(s.l, s.h, m, order);
    }
  }

  lemma ArriveGrant(s: System, t: System, m: Msg, id: nat)
    requires s.back != [] && m == s.back[0] && t.back == s.back[1..] && Arrived(s, t, m) && GrantOk(s, id)
    requires m.Opening? ==> m.id !in s.h.queued && m.id !in s.l.streams
    ensures GrantOk(t, id)
  {
    hide HeaderIds;
  }

  lemma ArriveNames(s: System, t: System, m: Msg)
    requires s.back != [] && m == s.back[0] && t.back == s.back[1..] && Arrived(s, t, m) && NamesOk(s) && BackOk(s)
    requires t.delivered <= |t.l.wire| && t.Opened() == s.Opened() && Announced(t.l.wire, s.known)
    ensures NamesOk(t) && BackOk(t)
  {
    BackTail(s);
    hide HeaderIds, Announced;
    assert m.Opening? ==> m.id in s.known;
    assert forall i :: 0 <= i < |t.back| && t.back[i].Opening? ==>
             t.back[i] == s.back[i + 1] && s.back[0] != s.back[i + 1];
  }

  lemma ArriveSender(s: System, order: seq<nat>)
    requires Good(s) && s.back != [] && LoopyInvariant.Legal(s.l, ToCommand(s.back[0], order))
    requires (s.back[0].Update? ==> s.back[0].id > 0)
    requires FreshId(s.h, s.l, ToCommand(s.back[0], order)) && Arrived(s, Arrive(s, order), s.back[0])
    ensures SenderOk(Arrive(s, order))
  {
    var c := ToCommand(s.back[0], order);
    NoWrap(s, order);
    hide HeaderIds, LoopyInvariant.Inv, Ledger, Covered, Handle, RecordStep, NamesOk, BackOk, GrantsOk, StreamsOk;
    hide ConnOk;
    StepKnown(s, LoopyInvariant.Item(c));
    HandleCovered(s.l, s.h, c);
  }

  /** What arrives was on its way. */
  lemma ArriveAmounts(s: System, t: System, m: Msg)
    requires s.back != [] && m == s.back[0] && t.back == s.back[1..] && Arrived(s, t, m)
    requires m.Opening? ==> m.id !in s.h.queued && m.id !in s.l.streams
    requires GrantsOk(s) && LimitsOk(s) && StreamsOk(s) && ConnOk(s)
    ensures t.delivered <= |t.l.wire| && GrantsOk(t) && LimitsOk(t) && StreamsOk(t) && ConnOk(t)
  {
    hide HeaderIds, Pend, WireOctets, GrantOk;
    SamePast(s, t);
    forall id ensures GrantOk(t, id) {
      assert GrantOk(s, id);
      ArriveGrant(s, t, m, id);
    }
    forall id ensures StreamOk(t, id) { assert StreamOk(s, id); }
  }

  /** A message handled by the sender keeps the invariant. */
  lemma ArriveKeeps(s: System, order: seq<nat>)
    requires Good(s) && s.back != [] && LoopyInvariant.Legal(s.l, ToCommand(s.back[0], order))
    ensures Good(Arrive(s, order))
  {
    var m, t := s.back[0], Arrive(s, order);
    assert m.Opening? ==> m.id !in s.h.queued;
    assert m.Update? ==> m.id in s.Opened();
    ArriveChange(s, order);
    Known(s.l, s.h);
    hide HeaderIds, Announced, LoopyInvariant.Inv, Ledger, Covered, Handle, RecordStep, NamesOk, BackOk, GrantsOk;
    hide StreamsOk, ConnOk, LimitsOk, FreshId;
    if m.Update? { OpenedPositive(s, m.id); }
    ArriveSender(s, order);
    SamePast(s, t);
    ArriveNames(s, t, m);
    ArriveAmounts(s, t, m);
  }

  // ---- The receiver's moves ----

  /** What does not depend on the receiver's ledgers. */
  ghost predicate Links(s: System) {
    && s.delivered <= |s.l.wire| && NamesOk(s) && BackOk(s) && GrantsOk(s) && Rising(s.back, s.l.oiws)
    && s.h.connIncrements + ConnTotal(s.back) == s.connIssued
  }

  lemma GoodLinks(s: System)
    requires Good(s)
    ensures Links(s)
  {
    hide NamesOk, BackOk, GrantsOk, StreamsOk, LoopyInvariant.Inv, Ledger, Covered;
  }

  lemma PushGrant(s: System, m: Msg, id: nat)
    requires s.delivered <= |s.l.wire| && NamesOk(s) && GrantOk(s, id) && !m.Opening?
    requires (m.Update? ==> m.id in s.Opened())
    ensures GrantOk(Push(s, m), id)
  {
    hide Announced, Pend;
    PendSnoc(s.back, m, id, id in s.l.streams);
    if m.Update? && m.id == id { OpenedPositive(s, id); }
  }

  lemma PushBack(s: System, m: Msg)
    requires s.delivered <= |s.l.wire| && NamesOk(s) && BackOk(s) && !m.Opening? && (m.Update? ==> m.id in s.Opened())
    ensures NamesOk(Push(s, m)) && BackOk(Push(s, m))
  {
    hide HeaderIds, Announced;
  }

  /** A window update or a rise of the initial window joins the others. */
  lemma PushLinks(s: System, m: Msg)
    requires Links(s) && !m.Opening? && (m.Update? ==> m.id in s.Opened())
    requires (m.Setting? ==> Final(s.back, s.l.oiws) <= m.v)
    ensures Links(Push(s, m)) && Final(Push(s, m).back, s.l.oiws) == if m.Setting? then m.v else Final(s.back, s.l.oiws)
  {
    PushBack(s, m);
    FinalSnoc(s.back, m, s.l.oiws);
    ConnTotalSnoc(s.back, m);
    hide NamesOk, BackOk, GrantOk, Rising, Final, ConnTotal, HeaderIds;
    forall id ensures GrantOk(Push(s, m), id) {
      assert GrantOk(s, id);
      PushGrant(s, m, id);
    }
  }

  lemma LinksGood(s: System)
    requires Links(s) && SenderOk(s) && StreamsOk(s) && !s.refused
    requires Final(s.back, s.l.oiws) == s.r.initialWindow == s.r.fc.limit <= MAX_WINDOW
    requires s.connIssued + DEFAULT_WINDOW + s.r.fc.unacked == s.r.fc.limit + s.Received(None)
    ensures Good(s)
  {
    hide NamesOk, BackOk, GrantsOk, StreamsOk, SenderOk;
  }

  /** Replacing ledgers of streams that exist. */
  lemma LinksReceiver(s: System, r: Receiver)
    requires Links(s) && r.streams.Keys <= s.Opened()
    ensures Links(s.(r := r))
  {
    hide HeaderIds, Announced;
    forall id ensures GrantOk(s.(r := r), id) { assert GrantOk(s, id); }
  }

  lemma ReplyIs(s: System, id: nat, w: nat, r: Receiver)
    ensures Replied(s, Outcome(r, Ack(id, w), false)) == (if w > 0 then Push(s, Update(id, w)) else s).(r := r)
  {
    PushOne(s, Update(id, w));
  }

  lemma ReplyStreams(s: System, t: System, id: nat, g: Granted)
    requires s.delivered <= |s.l.wire| && StreamsOk(s) && id in s.r.streams && g.f.limit == s.r.streams[id].limit
    requires Small(g.f)
    requires Balance(g.f, s.Received(Some(id)), s.Issued(id) + g.w)
    requires t == (if g.w > 0 then Push(s, Update(id, g.w)) else s).(r := s.r.(streams := s.r.streams[id := g.f]))
    requires id in s.Opened()
    ensures StreamsOk(t)
  {
    hide HeaderIds, WireOctets, Small;
    forall x ensures StreamOk(t, x) { assert StreamOk(s, x) && StreamOk(s, id); }
  }

  /** One stream got a new ledger and perhaps an update. */
  lemma StreamReply(s: System, id: nat, g: Granted)
    requires Good(s) && id in s.r.streams && g.f.limit == s.r.streams[id].limit && Small(g.f)
    requires Balance(g.f, s.Received(Some(id)), s.Issued(id) + g.w)
    ensures Good(Replied(s, Outcome(s.r.(streams := s.r.streams[id := g.f]), Ack(id, g.w), false)))
  {
    hide NamesOk, BackOk, GrantsOk, HeaderIds, WireOctets, Rising, Final, ConnTotal, StreamsOk, LoopyInvariant.Inv;
    hide Ledger, Covered, Replied, Small, Balance;
    GoodLinks(s);
    LinksNames(s);
    var r := s.r.(streams := s.r.streams[id := g.f]);
    var t := Replied(s, Outcome(r, Ack(id, g.w), false));
    ReplyIs(s, id, g.w, r);
    ReplyStreams(s, t, id, g);
    if g.w > 0 { PushLinks(s, Update(id, g.w)); }
    var p := if g.w > 0 then Push(s, Update(id, g.w)) else s;
    LinksReceiver(p, r);
    SenderSame(s, t);
    LinksGood(t);
  }

  lemma PushOne(s: System, m: Msg)
    ensures PushAll(s, [m]) == Push(s, m)
  {
    assert [m][1..] == [];
    assert PushAll(Push(s, m), []) == Push(s, m);
  }

  lemma PushTwo(s: System, m: Msg, n: Msg)
    ensures PushAll(s, [m, n]) == Push(Push(s, m), n)
  {
    assert [m, n][1..] == [n];
    PushOne(Push(s, m), n);
  }

  lemma LinksNames(s: System)
    requires Links(s)
    ensures s.r.streams.Keys <= s.Opened()
  {
  }

  lemma SenderSame(s: System, t: System)
    requires SenderOk(s) && t.l == s.l && t.h == s.h && t.delivered <= |s.l.wire|
    ensures SenderOk(t)
  {
  }

  /** Reading keeps the invariant. */
  lemma ReadDataKeeps(s: System, id: nat, n: nat)
    requires Good(s) && id in s.r.streams && n <= s.r.streams[id].pendingData
    ensures Good(Replied(s, UpdateWindow(s.r, id, n)))
  {
    assert StreamOk(s, id);
    ReadKeeps(s.r.streams[id], n, s.Received(Some(id)), s.Issued(id));
    hide Good, FlowControl.Read, Replied;
    StreamReply(s, id, FlowControl.Read(s.r.streams[id], n));
  }

  /** So does asking for an extra window while none is outstanding. */
  lemma AskWindowKeeps(s: System, id: nat, n: nat)
    requires Good(s) && id in s.r.streams && (s.r.streams[id].delta == 0 || !Adjusts(s.r.streams[id], Capped(n)))
    ensures Good(Replied(s, AdjustWindow(s.r, id, n)))
  {
    assert StreamOk(s, id);
    AdjustKeeps(s.r.streams[id], n, s.Received(Some(id)), s.Issued(id));
    assert Small(Adjust(s.r.streams[id], n).f);
    hide Good, Adjust, Replied;
    StreamReply(s, id, Adjust(s.r.streams[id], n));
  }

  /** Once the application has asked for `n` octets, the sender's window and what is in flight, waits for the
      reader or is on its way back cover them: a message of that size can be sent whole. */
  lemma AskCovers(s: System, id: nat, n: nat)
    requires Good(s) && id in s.l.streams && id in s.r.streams && s.r.streams[id].delta == 0
    requires s.r.initialWindow + n <= MAX_WINDOW
    ensures var t := After(s, AskWindow(id, n));
            && t.delivered <= |t.l.wire| && id in t.l.streams && id in t.r.streams
            && t.l.Window(id) + InFlight(t, Some(id)) + t.r.streams[id].pendingData + Pend(t.back, id, true)
                 + (Final(t.back, t.l.oiws) - t.l.oiws) >= n
  {
    hide Good, Replied, InFlight, Pend, Final, Adjust;
    GoodStream(s, id);
    AskWindowKeeps(s, id, n);
    var t := After(s, AskWindow(id, n));
    assert t.l == s.l && t.r == AdjustWindow(s.r, id, n).r by { RepliedIs(s, AdjustWindow(s.r, id, n)); }
    GoodStream(t, id);
    StreamLaw(t, id);
    AdjustCovers(s.r.streams[id], n);
    AdjustExactly(s.r.streams[id], n);
    AdjustKeeps(s.r.streams[id], n, s.Received(Some(id)), s.Issued(id));
  }

  lemma RepliedIs(s: System, o: Outcome)
    ensures var t := Replied(s, o); t.l == s.l && t.r == o.r && t.delivered == s.delivered
  {
    PushAllBack(s, o.sent);
  }

  /** Raising every window at once keeps the invariant. */
  lemma RaiseKeeps(s: System, n: nat)
    requires Good(s) && s.r.initialWindow < n <= MAX_WINDOW
    ensures Good(Replied(s, UpdateFlowControl(s.r, n)))
  {
    hide NamesOk, BackOk, GrantsOk, HeaderIds, WireOctets, Rising, Final, ConnTotal, LoopyInvariant.Inv, Ledger;
    hide Covered;
    GoodLinks(s);
    LinksNames(s);
    var o := UpdateFlowControl(s.r, n);
    var w := n - s.r.fc.limit;
    PushTwo(s, ConnUpdate(w), Setting(n));
    var p := Push(Push(s, ConnUpdate(w)), Setting(n));
    var t := p.(r := o.r);
    assert Replied(s, o) == t;
    forall x ensures StreamOk(t, x) { assert StreamOk(s, x); }
    hide StreamsOk, Replied, UpdateFlowControl;
    PushLinks(s, ConnUpdate(w));
    PushLinks(Push(s, ConnUpdate(w)), Setting(n));
    assert o.r.streams.Keys == s.r.streams.Keys by { RaisedStreams(s.r, n); }
    LinksReceiver(p, o.r);
    SenderSame(s, t);
    LinksGood(t);
  }

  lemma RaisedStreams(r: Receiver, n: nat)
    ensures UpdateFlowControl(r, n).r.streams.Keys == r.streams.Keys
  {
  }

  lemma CloseKeeps(s: System, id: nat)
    requires Good(s)
    ensures Good(s.(r := s.r.(streams := s.r.streams - {id})))
  {
    hide NamesOk, BackOk, GrantsOk, HeaderIds, WireOctets, Rising, Final, ConnTotal, LoopyInvariant.Inv, Ledger;
    hide Covered;
    GoodLinks(s);
    LinksNames(s);
    var r := s.r.(streams := s.r.streams - {id});
    var t := s.(r := r);
    LinksReceiver(s, r);
    forall x ensures StreamOk(t, x) { assert StreamOk(s, x); }
    LinksGood(t);
  }

  lemma StopReadKeeps(s: System, id: nat)
    requires Good(s)
    ensures Good(s.(r := s.r.(readClosed := s.r.readClosed + {id})))
  {
    hide NamesOk, BackOk, GrantsOk, HeaderIds, WireOctets, Rising, Final, ConnTotal, LoopyInvariant.Inv, Ledger;
    hide Covered;
    GoodLinks(s);
    LinksNames(s);
    var r := s.r.(readClosed := s.r.readClosed + {id});
    var t := s.(r := r);
    LinksReceiver(s, r);
    forall x ensures StreamOk(t, x) { assert StreamOk(s, x); }
    LinksGood(t);
  }

  /** The receiver opens a stream and tells the sender. */
  lemma OpenKeeps(s: System, id: nat)
    requires Good(s) && id > 0 && id !in s.Opened() && id !in s.h.queued
    ensures Good(s.(r := OpenStream(s.r, id), known := s.known + {id}, back := s.back + [Opening(id)]))
  {
    hide HeaderIds, WireOctets, LoopyInvariant.Inv, Ledger, Covered, Announced, Rising, Final, ConnTotal, Pend, GrantOk;
    var t := s.(r := OpenStream(s.r, id), known := s.known + {id}, back := s.back + [Opening(id)]);
    FinalSnoc(s.back, Opening(id), s.l.oiws);
    ConnTotalSnoc(s.back, Opening(id));
    forall x ensures GrantOk(t, x) {
      assert GrantOk(s, x);
      OpenGrant(s, t, x);
    }
    assert StreamOk(s, id);
    forall x ensures StreamOk(t, x) { assert StreamOk(s, x); }
    hide GrantsOk, StreamsOk;
    OpenNames(s, t, id);
  }

  lemma OpenGrant(s: System, t: System, x: nat)
    requires GrantOk(s, x) && t.l == s.l && t.h == s.h && t.issued == s.issued && |t.back| == |s.back| + 1
    requires t.back == s.back + [t.back[|s.back|]] && t.back[|s.back|].Opening?
    ensures GrantOk(t, x)
  {
    hide Pend;
    PendSnoc(s.back, t.back[|s.back|], x, x in s.l.streams);
  }

  lemma OpenNames(s: System, t: System, id: nat)
    requires s.delivered <= |s.l.wire| && NamesOk(s) && BackOk(s) && id > 0 && id !in s.Opened() && id !in s.h.queued
    requires t == s.(r := OpenStream(s.r, id), known := s.known + {id}, back := s.back + [Opening(id)])
    ensures NamesOk(t) && BackOk(t)
  {
    hide HeaderIds, Announced;
    AnnouncedMore(s.l.wire, s.known, t.known);
    assert id !in s.known;
    assert forall i :: 0 <= i < |s.back| ==> t.back[i] == s.back[i];
    assert t.back[|s.back|] == Opening(id);
  }

  lemma AnnouncedMore(wire: seq<Event>, known: set<nat>, more: set<nat>)
    requires Announced(wire, known) && known <= more
    ensures Announced(wire, more)
  {
    hide HeaderIds;
  }

  // ---- Frames that reach the receiver ----

  /** One more frame seen. */
  lemma SeenOne(s: System)
    requires s.delivered < |s.l.wire|
    ensures var e, t := s.l.wire[s.delivered], s.(delivered := s.delivered + 1);
            && (forall id :: t.Received(id) == s.Received(id) + EventOctets(e, id))
            && t.Opened() == s.Opened() + (if e.HeadersFrame? then {e.id} else {})
  {
    var w := s.l.wire[..s.delivered + 1];
    assert w[..|w| - 1] == s.l.wire[..s.delivered];
  }

  lemma SeenLinks(s: System)
    requires Links(s) && s.delivered < |s.l.wire|
    ensures Links(s.(delivered := s.delivered + 1))
  {
    SeenOne(s);
    hide HeaderIds, Announced, WireOctets;
    var t := s.(delivered := s.delivered + 1);
    assert s.Opened() <= t.Opened();
    forall id ensures GrantOk(t, id) { assert GrantOk(s, id); }
  }

  /** A frame other than DATA: HEADERS of a new stream open it. */
  lemma OtherFrameKeeps(s: System)
    requires Good(s) && s.delivered < |s.l.wire| && !s.l.wire[s.delivered].DataFrame?
    ensures Good(After(s, DeliverFrame(false))) && After(s, DeliverFrame(true)) == After(s, DeliverFrame(false))
  {
    hide NamesOk, BackOk, GrantsOk, HeaderIds, WireOctets, Rising, Final, ConnTotal, LoopyInvariant.Inv, Ledger;
    hide Covered;
    var e := s.l.wire[s.delivered];
    var t := s.(delivered := s.delivered + 1);
    var unseen := e.HeadersFrame? && e.id !in s.Opened();
    var r := if unseen then OpenStream(s.r, e.id) else s.r;
    assert After(s, DeliverFrame(false)) == t.(r := r);
    GoodLinks(s);
    SeenLinks(s);
    SeenOne(s);
    LinksNames(s);
    LinksReceiver(t, r);
    forall x ensures StreamOk(t.(r := r), x) { assert StreamOk(s, x); }
    hide StreamsOk;
    LinksGood(t.(r := r));
  }

  /** DATA on its way fits what the receiver granted, on its stream and on the connection. */
  lemma DataFits(s: System, id: nat)
    requires Good(s) && s.delivered < |s.l.wire| && s.l.wire[s.delivered].DataFrame? && s.l.wire[s.delivered].id == id
    ensures var n := |s.l.wire[s.delivered].payload|;
            && id in s.Opened()
            && s.Received(Some(id)) + n - s.Issued(id) <= s.r.initialWindow
            && s.r.fc.unacked + n <= s.r.fc.limit
  {
    var t := s.(delivered := s.delivered + 1);
    SeenOne(s);
    ConnLaw(s);
    assert GrantOk(s, id);
    hide HeaderIds, WireOctets, Pend, ConnTotal, LoopyInvariant.Inv, Ledger;
    FinalSnoc(s.back, ConnUpdate(0), s.l.oiws);
    PrefixOctets(t.l.wire[..t.delivered], t.l.wire, Some(id));
    PrefixOctets(t.l.wire[..t.delivered], t.l.wire, None);
  }

  /** What is counted and not yet acknowledged, plus what is acknowledged now. */
  lemma CountKeeps(fc: TrIn, n: nat, probe: bool)
    requires fc.unacked + n <= fc.limit <= MAX_WINDOW
    ensures var (g, acks) := CountData(fc, n, probe);
            && g.limit == fc.limit && g.unacked + ConnTotal(acks) == fc.unacked + n
            && forall i :: 0 <= i < |acks| ==> acks[i].ConnUpdate?
  {
    var c := TrOnData(fc, n);
    AckTotal(c.w);
    if probe {
      var d := TrReset(c.f);
      AckTotal(d.w);
      if d.w > 0 {
        ConnTotalSnoc(ConnAck(c.w), ConnUpdate(d.w));
      } else {
        assert ConnAck(c.w) + [] == ConnAck(c.w);
      }
    }
  }

  lemma AckTotal(w: nat)
    ensures ConnTotal(ConnAck(w)) == w
  {
    assert w > 0 ==> ConnAck(w)[1..] == [];
  }

  lemma {:induction false} PushAcks(s: System, acks: seq<Msg>)
    requires Links(s) && forall i :: 0 <= i < |acks| ==> acks[i].ConnUpdate?
    ensures var t := PushAll(s, acks);
            && Links(t) && Final(t.back, s.l.oiws) == Final(s.back, s.l.oiws)
            && t == s.(back := t.back, connIssued := s.connIssued + ConnTotal(acks))
    decreases |acks|
  {
    hide Links, Final;
    if acks != [] {
      PushLinks(s, acks[0]);
      PushAcks(Push(s, acks[0]), acks[1..]);
    }
  }

  lemma GoodStream(s: System, id: nat)
    requires Good(s)
    ensures s.delivered <= |s.l.wire| && StreamOk(s, id)
  {
  }

  /** The streams after DATA: the one it belongs to accepts it. */
  lemma DataStreams(s: System, id: nat, n: nat, probe: bool, x: nat)
    requires Good(s) && s.delivered < |s.l.wire| && s.l.wire[s.delivered].DataFrame? && s.l.wire[s.delivered].id == id
    requires n == |s.l.wire[s.delivered].payload|
    ensures !HandleData(s.r, id, n, 0, probe).refused
    ensures StreamOk(s.(r := HandleData(s.r, id, n, 0, probe).r, delivered := s.delivered + 1), x)
  {
    hide HeaderIds, WireOctets, Good, AddData, Within, Small, Balance, CountData;
    DataFits(s, id);
    SeenOne(s);
    GoodStream(s, x);
    GoodStream(s, id);
    if id in s.r.streams {
      DataKeeps(s.r.streams[id], n, s.Received(Some(id)), s.Issued(id));
    }
  }

  lemma DataNames(r: Receiver, id: nat, n: nat, probe: bool)
    ensures var o := HandleData(r, id, n, 0, probe);
            && o.r.streams.Keys <= r.streams.Keys && o.r.initialWindow == r.initialWindow
            && (o.r.fc, o.sent) == CountData(r.fc, n, probe)
  {
    hide CountData;
    var acks := CountData(r.fc, n, probe).1;
    assert acks + [] == acks;
  }

  /** The messages that DATA causes, and the frame itself, leave the links in order. */
  lemma DataLinks(s: System, o: Outcome, n: nat, probe: bool)
    requires Links(s) && s.delivered < |s.l.wire| && s.r.fc.unacked + n <= s.r.fc.limit <= MAX_WINDOW
    requires o.r.streams.Keys <= s.r.streams.Keys && (o.r.fc, o.sent) == CountData(s.r.fc, n, probe) && !o.refused
    ensures var t := Replied(s, o).(delivered := s.delivered + 1);
            && Links(t) && Final(t.back, s.l.oiws) == Final(s.back, s.l.oiws)
            && t == s.(r := o.r, back := t.back, connIssued := t.connIssued, delivered := s.delivered + 1)
            && t.connIssued + t.r.fc.unacked == s.connIssued + s.r.fc.unacked + n && t.r.fc.limit == s.r.fc.limit
  {
    hide NamesOk, BackOk, GrantsOk, HeaderIds, WireOctets, Rising, Final, ConnTotal, CountData, PushAll;
    CountKeeps(s.r.fc, n, probe);
    LinksNames(s);
    PushAcks(s, o.sent);
    var p := PushAll(s, o.sent);
    SeenOne(p);
    SeenLinks(p);
    LinksReceiver(p.(delivered := p.delivered + 1), o.r);
  }

  lemma DataFrameKeeps(s: System, probe: bool)
    requires Good(s) && s.delivered < |s.l.wire| && s.l.wire[s.delivered].DataFrame?
    ensures Good(After(s, DeliverFrame(probe)))
  {
    hide NamesOk, BackOk, GrantsOk, StreamsOk, HeaderIds, WireOctets, Rising, Final, ConnTotal, LoopyInvariant.Inv;
    hide Ledger, Covered;
    hide CountData, HandleData, Replied, Links;
    var e := s.l.wire[s.delivered];
    var id, n := e.id, |e.payload|;
    var o := HandleData(s.r, id, n, 0, probe);
    var t := After(s, DeliverFrame(probe));
    DataFits(s, id);
    SeenOne(s);
    DataNames(s.r, id, n, probe);
    GoodLinks(s);
    DataStreams(s, id, n, probe, 0);
    DataLinks(s, o, n, probe);
    DataStreamsOk(s, t, id, n, probe);
    SenderSame(s, t);
    LinksGood(t);
  }

  lemma DataStreamsOk(s: System, t: System, id: nat, n: nat, probe: bool)
    requires Good(s) && s.delivered < |s.l.wire| && s.l.wire[s.delivered].DataFrame? && s.l.wire[s.delivered].id == id
    requires n == |s.l.wire[s.delivered].payload|
    requires t.l == s.l && t.r == HandleData(s.r, id, n, 0, probe).r && t.delivered == s.delivered + 1
    requires t.known == s.known && t.issued == s.issued
    ensures StreamsOk(t)
  {
    hide Good, HandleData, HeaderIds, WireOctets, Small, Balance;
    forall x ensures StreamOk(t, x) { DataStreams(s, id, n, probe, x); }
  }

  // ---- Every run ----

  /** Every move keeps the invariant. */
  lemma MoveKeeps(s: System, m: Move)
    requires Good(s) && Possible(s, m)
    ensures Good(After(s, m))
  {
    hide Good, Own, Replied, Receive, Sender;
    match m
    case Local(c) => LocalKeeps(s, c);
    case Process => ProcessKeeps(s);
    case DeliverBack(order) => ArriveKeeps(s, order);
    case DeliverFrame(probe) =>
      if s.l.wire[s.delivered].DataFrame? { DataFrameKeeps(s, probe); } else { OtherFrameKeeps(s); }
    case Open(id) => OpenKeeps(s, id);
    case Close(id) => CloseKeeps(s, id);
    case StopRead(id) => StopReadKeeps(s, id);
    case ReadData(id, n) => ReadDataKeeps(s, id, n);
    case AskWindow(id, n) => AskWindowKeeps(s, id, n);
    case Raise(n) => RaiseKeeps(s, n);
  }

  lemma StartGood(server: bool, maxFrameSize: nat)
    requires maxFrameSize >= 1
    ensures Good(Start(server, maxFrameSize))
  {
    var s := Start(server, maxFrameSize);
    LoopyInvariant.NewLoopyOk(server, maxFrameSize);
    StartAccounts(server, maxFrameSize);
    forall id ensures StreamOk(s, id) {}
    forall id ensures GrantOk(s, id) {}
  }

  lemma {:induction false} RunKeeps(s: System, ms: seq<Move>)
    requires Good(s) && Possibles(s, ms)
    ensures Good(AfterAll(s, ms))
    decreases |ms|
  {
    hide Good, Possible, After;
    if ms != [] {
      MoveKeeps(s, ms[0]);
      RunKeeps(After(s, ms[0]), ms[1..]);
    }
  }

  /** In every interleaving no DATA is ever refused, the window of every stream known to both ends adds
      up to its limit, and so does the window of the connection. */
  lemma NeverRefused(server: bool, maxFrameSize: nat, ms: seq<Move>, id: nat)
    requires maxFrameSize >= 1 && Possibles(Start(server, maxFrameSize), ms)
    ensures var s := AfterAll(Start(server, maxFrameSize), ms);
            && !s.refused && s.delivered <= |s.l.wire|
            && s.l.sendQuota + InFlight(s, None) + s.r.fc.unacked + ConnTotal(s.back) == s.r.fc.limit
            && (id in s.l.streams && id in s.r.streams ==>
                  var f := s.r.streams[id];
                  s.l.Window(id) + InFlight(s, Some(id)) + f.pendingData + f.pendingUpdate + Pend(s.back, id, true)
                    + (Final(s.back, s.l.oiws) - s.l.oiws) == f.limit + f.delta)
  {
    StartGood(server, maxFrameSize);
    RunKeeps(Start(server, maxFrameSize), ms);
    var s := AfterAll(Start(server, maxFrameSize), ms);
    ConnLaw(s);
    if id in s.l.streams && id in s.r.streams { StreamLaw(s, id); }
  }
}
