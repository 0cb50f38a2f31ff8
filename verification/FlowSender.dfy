/** What one step of the scheduler can do to its peer: which frames it adds, and that no stream is ever
    sent more than the window it was given. */
module FlowSender {
  import opened Bits
  import opened HeaderTable
  import opened Loopy
  import opened LoopyInvariant
  import opened LoopyLedger

  function Applied(h: History, id: nat): int {
    if id in h.increments then h.increments[id] else 0
  }

  /** No stream, established or gone, has sent more than its initial window and what it was granted. */
  ghost predicate Covered(l: Loopy, h: History) {
    forall id :: WireOctets(l.wire, Some(id)) <= Applied(h, id) + l.oiws
  }

  /** The streams that a stretch of output opens. */
  function HeaderIds(wire: seq<Event>): set<nat> {
    if wire == [] then {}
    else
      var e := wire[|wire| - 1];
      HeaderIds(wire[..|wire| - 1]) + (if e.HeadersFrame? then {e.id} else {})
  }

  lemma HeaderSnoc(wire: seq<Event>, e: Event)
    ensures HeaderIds(wire + [e]) == HeaderIds(wire) + (if e.HeadersFrame? then {e.id} else {})
  {
    assert (wire + [e])[..|wire|] == wire;
  }

  /** DATA only goes out on a stream that `known` contains or that was opened before on the wire. */
  ghost predicate Announced(wire: seq<Event>, known: set<nat>) {
    forall k :: 0 <= k < |wire| && wire[k].DataFrame? ==> wire[k].id in known + HeaderIds(wire[..k])
  }

  lemma AnnouncedSnoc(wire: seq<Event>, e: Event, known: set<nat>)
    requires Announced(wire, known) && (e.DataFrame? ==> e.id in known + HeaderIds(wire))
    ensures Announced(wire + [e], known)
  {
    hide HeaderIds;
    var w := wire + [e];
    forall k | 0 <= k < |w| && w[k].DataFrame? ensures w[k].id in known + HeaderIds(w[..k]) {
      if k < |wire| {
        assert w[..k] == wire[..k];
      } else {
        assert w[..k] == wire;
      }
    }
  }

  lemma {:induction false} ExtendsHeaders(was: seq<Event>, now: seq<Event>)
    requires was <= now
    ensures HeaderIds(was) <= HeaderIds(now)
    decreases |now|
  {
    if |was| < |now| {
      ExtendsHeaders(was, now[..|now| - 1]);
    } else {
      assert was == now;
    }
  }

  // ---- Control items write no DATA ----

  /** Nothing but frames without payload is added. */
  ghost predicate Quiet(was: seq<Event>, now: seq<Event>) {
    was <= now && forall k :: |was| <= k < |now| ==> !now[k].DataFrame?
  }

  lemma {:induction false} QuietOctets(was: seq<Event>, now: seq<Event>, id: Option<nat>)
    requires Quiet(was, now)
    ensures WireOctets(now, id) == WireOctets(was, id)
    decreases |now|
  {
    if |was| < |now| {
      QuietOctets(was, now[..|now| - 1], id);
    } else {
      assert was == now;
    }
  }

  lemma {:induction false} QuietAnnounced(was: seq<Event>, now: seq<Event>, known: set<nat>)
    requires Quiet(was, now) && Announced(was, known)
    ensures Announced(now, known)
    decreases |now|
  {
    hide HeaderIds;
    if |was| < |now| {
      var w := now[..|now| - 1];
      QuietAnnounced(was, w, known);
      assert w + [now[|now| - 1]] == now;
      AnnouncedSnoc(w, now[|now| - 1], known);
    } else {
      assert was == now;
    }
  }

  lemma {:induction false} SettingsQuiet(l: Loopy, ss: seq<Setting>)
    requires ListOk(l)
    ensures var r := ApplySettings(l, ss); Quiet(l.wire, r.wire) && r.streams.Keys == l.streams.Keys
    decreases |ss|
  {
    if ss != [] {
      var l1 := ApplySetting(l, ss[0]);
      assert ListOk(l1) && Quiet(l.wire, l1.wire) && l1.streams.Keys == l.streams.Keys by {
        if ss[0].InitialWindowSize? {
          assert ListOk(l.(oiws := ss[0].v));
          ActivateWaitingOk(l.(oiws := ss[0].v), ss[0].order);
        }
      }
      hide ListOk, ApplySetting;
      SettingsQuiet(l1, ss[1..]);
    }
  }

  predicate LastOpens(e: Event, id: nat) { e.HeadersFrame? && e.id == id }

  /** A stream that a control item adds is one it registers, or opens on the wire. */
  ghost predicate Opens(l: Loopy, r: Loopy, c: Command) {
    forall id :: id in r.streams && id !in l.streams ==>
                   || (c.RegisterStream? && c.id == id)
                   || (c.Headers? && c.id == id && r.wire != [] && LastOpens(r.wire[|r.wire| - 1], id))
  }

  lemma HandleQuiet(l: Loopy, c: Command)
    requires Inv(l)
    ensures Quiet(l.wire, Handle(l, c).l.wire) && Opens(l, Handle(l, c).l, c)
  {
    hide Inv, ListOk, ApplySettings, OnHeaders, Cleanup, OnWindowUpdate, OnBytes, OnGoAway;
    InvList(l);
    match c
    case IncomingWindowUpdate(id, increment) => QuietUpdate(l, id, increment);
    case IncomingSettings(ss) => SettingsQuiet(l, ss);
    case Headers(id, fields, endStream, init, rst) => HeadersQuiet(l, id, fields, endStream, init, rst);
    case CleanupStream(id, rst) => CleanupQuiet(l, id, rst);
    case Bytes(id, bytes, endStream) => QuietBytes(l, id, bytes, endStream);
    case OutgoingGoAway(draining, ok) => QuietGoAway(l, draining, ok);
    case _ =>
  }

  lemma QuietUpdate(l: Loopy, id: nat, increment: nat)
    ensures var r := OnWindowUpdate(l, id, increment); r.wire == l.wire && r.streams.Keys == l.streams.Keys
  {
  }

  lemma QuietBytes(l: Loopy, id: nat, bytes: seq<Byte>, endStream: bool)
    ensures var r := OnBytes(l, id, bytes, endStream); r.wire == l.wire && r.streams.Keys == l.streams.Keys
  {
  }

  lemma QuietGoAway(l: Loopy, draining: bool, ok: bool)
    ensures var r := OnGoAway(l, draining, ok).l; Quiet(l.wire, r.wire) && r.streams == l.streams
  {
  }

  lemma CleanupQuiet(l: Loopy, id: nat, rst: Option<nat>)
    ensures var r := Cleanup(l, id, rst).l; Quiet(l.wire, r.wire) && r.streams.Keys <= l.streams.Keys
  {
  }

  lemma HeadersQuiet(l: Loopy, id: nat, fields: seq<HeaderField>, endStream: bool, init: Init, rst: Option<nat>)
    ensures var r := OnHeaders(l, id, fields, endStream, init, rst).l;
            Quiet(l.wire, r.wire) && Opens(l, r, Headers(id, fields, endStream, init, rst))
  {
  }

  // ---- processData writes DATA within the window ----

  /** One new DATA frame of `id` with `n` octets, if any, and then quiet. */
  ghost predicate Sends(was: seq<Event>, now: seq<Event>, id: nat, n: nat) {
    exists e: Event :: e.DataFrame? && e.id == id && |e.payload| == n && Quiet(was + [e], now)
  }

  lemma SendSends(l: Loopy, id: nat, n: nat, checkWindow: bool)
    requires CanSend(l, id, n)
    ensures id in Send(l, id, n).streams
    ensures var r := AfterWrite(Send(l, id, n), id, checkWindow).l;
            Sends(l.wire, r.wire, id, n) && r.streams.Keys <= l.streams.Keys
  {
    var it := l.streams[id].items[0];
    var e := DataFrame(id, it.bytes[..n], it.endStream && n == |it.bytes|);
    var l1 := Send(l, id, n);
    assert Quiet(l.wire + [e], l1.wire);
    AfterWriteWire(l1, id, checkWindow);
    var r := AfterWrite(l1, id, checkWindow).l;
    assert Quiet(l1.wire, r.wire);
    assert Quiet(l.wire + [e], r.wire);
  }

  /** The stream whose turn it is, and how much it sends; -1 octets stand for nothing written. */
  lemma ProcessSends(l: Loopy) returns (id: nat, n: int)
    requires Servable(l)
    ensures ProcessData(l).l.streams.Keys <= l.streams.Keys && ProcessData(l).l.oiws == l.oiws
    ensures if n < 0 then ProcessData(l).l.wire == l.wire
            else
              && id in l.streams && Sends(l.wire, ProcessData(l).l.wire, id, n)
              && (n == 0 || n <= l.Window(id)) && n <= l.sendQuota
  {
    hide Send, AfterWrite;
    id, n := 0, -1;
    if !Idle(l) {
      id := l.active[0];
      var l0 := l.(active := l.active[1..]);
      var bytes := l.streams[id].items[0].bytes;
      if |bytes| == 0 {
        n := 0;
        SendSends(l0, id, 0, false);
        SendKeepsLimits(l0, id, 0, false);
      } else if l.Window(id) > 0 {
        n := Min(Allowance(l, id), |bytes|);
        SendSends(l0, id, n, true);
        SendKeepsLimits(l0, id, n, true);
      }
    }
  }

  lemma SendKeepsLimits(l: Loopy, id: nat, n: nat, checkWindow: bool)
    requires CanSend(l, id, n)
    ensures id in Send(l, id, n).streams
    ensures AfterWrite(Send(l, id, n), id, checkWindow).l.oiws == l.oiws
  {
  }

  lemma SendsOctets(was: seq<Event>, now: seq<Event>, id: nat, n: nat, x: Option<nat>)
    requires Sends(was, now, id, n)
    ensures was <= now && WireOctets(now, x) == WireOctets(was, x) + (if x == None || x == Some(id) then n else 0)
  {
    hide WireOctets;
    var e: Event :| e.DataFrame? && e.id == id && |e.payload| == n && Quiet(was + [e], now);
    QuietOctets(was + [e], now, x);
    WireSnoc(was, e, x);
    assert was <= was + [e] <= now;
  }

  lemma SendsAnnounced(was: seq<Event>, now: seq<Event>, id: nat, n: nat, known: set<nat>)
    requires Sends(was, now, id, n) && Announced(was, known) && id in known + HeaderIds(was)
    ensures Announced(now, known)
  {
    hide HeaderIds, Announced;
    var e: Event :| e.DataFrame? && e.id == id && |e.payload| == n && Quiet(was + [e], now);
    AnnouncedSnoc(was, e, known);
    QuietAnnounced(was + [e], now, known);
  }

  // ---- Covered is kept ----

  /** processData never sends beyond the window. */
  lemma ProcessCovered(l: Loopy, h: History)
    requires Servable(l) && Ledger(l, h) && Covered(l, h)
    ensures Covered(ProcessData(l).l, h)
  {
    hide WireOctets, ProcessData, Ledger, Applied;
    var r := ProcessData(l).l;
    var id, n := ProcessSends(l);
    if n >= 0 {
      SentSoFar(l, h, id);
      forall x ensures WireOctets(r.wire, Some(x)) <= Applied(h, x) + r.oiws {
        SendsOctets(l.wire, r.wire, id, n, Some(x));
      }
    }
  }

  lemma SentSoFar(l: Loopy, h: History, id: nat)
    requires Ledger(l, h) && id in l.streams
    ensures l.Window(id) == l.oiws + Applied(h, id) - WireOctets(l.wire, Some(id))
  {
    hide WireOctets, WireUnits, QueueUnits;
    assert Account(l, h, id);
  }

  /** A control item that does not take window away. */
  lemma HandleCovered(l: Loopy, h: History, c: Command)
    requires Inv(l) && Ledger(l, h) && Covered(l, h) && FreshId(h, l, c)
    requires Handle(l, c).l.oiws >= l.oiws
    ensures Covered(Handle(l, c).l, RecordStep(l, h, Item(c)))
  {
    hide WireOctets, Handle, Inv;
    var r, g := Handle(l, c).l, RecordStep(l, h, Item(c));
    HandleQuiet(l, c);
    Known(l, h);
    hide Ledger;
    forall x ensures WireOctets(r.wire, Some(x)) <= Applied(g, x) + r.oiws {
      QuietOctets(l.wire, r.wire, Some(x));
      RecordGrants(l, h, c, x);
    }
  }

  lemma RecordGrants(l: Loopy, h: History, c: Command, id: nat)
    requires l.streams.Keys <= h.queued.Keys && h.queued.Keys == h.increments.Keys && FreshId(h, l, c)
    ensures var g := RecordStep(l, h, Item(c));
            Applied(g, id) == Applied(h, id) +
              (if c.IncomingWindowUpdate? && c.id == id && id != 0 && id in l.streams then c.increment else 0)
  {
  }
}
