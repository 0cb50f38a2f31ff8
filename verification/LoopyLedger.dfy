/** Over whole runs: the flow-control accounts of the sender, and the order and completeness of what
    each stream puts on the wire. */
module LoopyLedger {
  import opened Bits
  import opened HeaderTable
  import opened Loopy
  import opened LoopyInvariant

  /** What a stream's output consists of: its octets, the end-of-stream marks, the completion of each
      item and its trailers. */
  datatype Unit = Octet(b: Byte) | End | Finished | Trailers(fields: seq<HeaderField>)

  function Octets(bytes: seq<Byte>): (r: seq<Unit>) {
    seq(|bytes|, i requires 0 <= i < |bytes| => Octet(bytes[i]))
  }

  function ItemUnits(it: Item): seq<Unit> {
    match it
    case Data(bytes, endStream) => Octets(bytes) + (if endStream then [End] else []) + [Finished]
    case Trailer(fields, _) => [Trailers(fields)]
  }

  function QueueUnits(items: seq<Item>): seq<Unit> {
    if items == [] then [] else ItemUnits(items[0]) + QueueUnits(items[1..])
  }

  /** What an event on the wire is for stream `id`. */
  function EventUnits(e: Event, id: nat): seq<Unit> {
    match e
    case DataFrame(i, payload, endStream) => if i == id then Octets(payload) + (if endStream then [End] else []) else []
    case Completed(i) => if i == id then [Finished] else []
    case HeadersFrame(i, fields, endStream) => if i == id && endStream then [Trailers(fields)] else []
    case _ => []
  }

  function WireUnits(wire: seq<Event>, id: nat): seq<Unit> {
    if wire == [] then [] else WireUnits(wire[..|wire| - 1], id) + EventUnits(wire[|wire| - 1], id)
  }

  /** DATA octets in an event, of stream `id` or of any. */
  function EventOctets(e: Event, id: Option<nat>): nat {
    if e.DataFrame? && (id.None? || id.value == e.id) then |e.payload| else 0
  }

  function WireOctets(wire: seq<Event>, id: Option<nat>): nat {
    if wire == [] then 0 else WireOctets(wire[..|wire| - 1], id) + EventOctets(wire[|wire| - 1], id)
  }

  lemma WireSnoc(wire: seq<Event>, e: Event, id: Option<nat>)
    ensures id.Some? ==> WireUnits(wire + [e], id.value) == WireUnits(wire, id.value) + EventUnits(e, id.value)
    ensures WireOctets(wire + [e], id) == WireOctets(wire, id) + EventOctets(e, id)
  {
    var w := wire + [e];
    assert w[..|w| - 1] == wire && w[|w| - 1] == e;
  }

  lemma {:induction false} QueueSnoc(items: seq<Item>, it: Item)
    ensures QueueUnits(items + [it]) == QueueUnits(items) + ItemUnits(it)
  {
    if items == [] {
      assert items + [it] == [it] && [it][1..] == [];
    } else {
      assert (items + [it])[1..] == items[1..] + [it];
      QueueSnoc(items[1..], it);
    }
  }

  // ---- History ----

  /** What was asked of the scheduler so far: increments granted by the peer, connection increments
      that wrapped the quota, the units queued on each stream and the streams ever established. */
  datatype History = History(connIncrements: nat, wraps: nat, increments: map<nat, int>, queued: map<nat, seq<Unit>>)

  const NO_HISTORY: History := History(0, 0, map[], map[])

  function Opened(h: History, id: nat, units: seq<Unit>): History {
    h.(increments := h.increments[id := 0], queued := h.queued[id := units])
  }

  function Queue(h: History, id: nat, units: seq<Unit>): History
    requires id in h.queued
  {
    h.(queued := h.queued[id := h.queued[id] + units])
  }

  /** The history after a command. */
  function Record(l: Loopy, h: History, c: Command): History
    requires l.streams.Keys <= h.queued.Keys && l.streams.Keys <= h.increments.Keys
  {
    match c
    case IncomingWindowUpdate(id, increment) =>
      if id == 0 then
        h.(connIncrements := h.connIncrements + increment, wraps := h.wraps + (l.sendQuota + increment) / WORD)
      else if id in l.streams then h.(increments := h.increments[id := h.increments[id] + increment])
      else h
    case RegisterStream(id) => Opened(h, id, [])
    case Headers(id, fields, endStream, init, _) =>
      if l.server && id % 2 == 1 then
        if id in l.streams && endStream then Queue(h, id, [Trailers(fields)]) else h
      else if init.Registered? then Opened(h, id, if endStream then [Trailers(fields)] else [])
      else h
    case Bytes(id, bytes, endStream) =>
      if id in l.streams then Queue(h, id, ItemUnits(Data(bytes, endStream))) else h
    case _ => h
  }

  /** Every established stream has its own number, never used before. */
  ghost predicate FreshId(h: History, l: Loopy, c: Command) {
    match c
    case RegisterStream(id) => id !in h.queued
    case Headers(id, _, _, init, _) => (l.server && id % 2 == 1) || !init.Registered? || id !in h.queued
    case _ => true
  }

  // ---- The accounts ----

  function Find<T>(m: map<nat, T>, id: nat): Option<T> {
    if id in m then Some(m[id]) else None
  }

  /** The account of one stream: what was written followed by what is queued is what was asked for, in
      order, and what is outstanding is what was sent minus what was granted. Once the stream is gone
      what was written is a prefix of what was asked for; before it is known nothing is written. */
  ghost predicate Balanced(s: Option<Stream>, queued: Option<seq<Unit>>, granted: Option<int>, units: seq<Unit>,
                           octets: int) {
    if queued.None? || granted.None? then queued.None? && granted.None? && s.None? && units == [] && octets == 0
    else
      && units <= queued.value
      && (s.Some? ==>
            units + QueueUnits(s.value.items) == queued.value && s.value.bytesOutStanding == octets - granted.value)
  }

  ghost predicate Account(l: Loopy, h: History, id: nat) {
    Balanced(Find(l.streams, id), Find(h.queued, id), Find(h.increments, id), WireUnits(l.wire, id),
             WireOctets(l.wire, Some(id)))
  }

  /** The account of the connection; `wraps` counts the times an increment overflowed the quota. */
  ghost predicate ConnAccount(l: Loopy, h: History) {
    WireOctets(l.wire, None) + l.sendQuota + WORD * h.wraps == DEFAULT_WINDOW + h.connIncrements
  }

  ghost predicate Ledger(l: Loopy, h: History) {
    ConnAccount(l, h) && (forall id :: Account(l, h, id))
  }

  lemma Known(l: Loopy, h: History)
    requires Ledger(l, h)
    ensures l.streams.Keys <= h.queued.Keys && h.queued.Keys == h.increments.Keys
  {
    forall id ensures id in l.streams ==> id in h.queued
              ensures id in h.queued <==> id in h.increments
    {
      assert Account(l, h, id);
    }
  }

  /** A stream whose queue, debt and output are as before. */
  lemma Untouched(l: Loopy, h: History, r: Loopy, g: History, id: nat)
    requires Account(l, h, id)
    requires id in r.streams ==> id in l.streams && r.streams[id].items == l.streams[id].items
    requires id in r.streams ==> r.streams[id].bytesOutStanding == l.streams[id].bytesOutStanding
    requires Find(g.queued, id) == Find(h.queued, id) && Find(g.increments, id) == Find(h.increments, id)
    requires WireUnits(r.wire, id) == WireUnits(l.wire, id)
    requires WireOctets(r.wire, Some(id)) == WireOctets(l.wire, Some(id))
    ensures Account(r, g, id)
  {
    hide WireUnits, WireOctets, QueueUnits;
  }

  /** Changes that write nothing and leave queues and accounts alone. */
  ghost predicate SameAccounts(l: Loopy, r: Loopy) {
    && r.wire == l.wire && r.sendQuota == l.sendQuota && r.streams.Keys <= l.streams.Keys
    && (forall id :: id in r.streams ==>
          && r.streams[id].items == l.streams[id].items
          && r.streams[id].bytesOutStanding == l.streams[id].bytesOutStanding)
  }

  lemma SameLedger(l: Loopy, r: Loopy, h: History)
    requires Ledger(l, h) && SameAccounts(l, r)
    ensures Ledger(r, h)
  {
    hide Account, WireUnits, WireOctets, Find;
    forall id ensures Account(r, h, id) {
      Untouched(l, h, r, h, id);
    }
  }

  /** Writing an event that belongs to no stream. */
  lemma NeutralWrite(l: Loopy, e: Event, h: History)
    requires Ledger(l, h) && !e.DataFrame? && !e.Completed? && !(e.HeadersFrame? && e.endStream)
    ensures Ledger(Write(l, e), h)
  {
    hide Account, WireUnits, WireOctets, Find;
    WireSnoc(l.wire, e, None);
    forall id ensures Account(Write(l, e), h, id) {
      WireSnoc(l.wire, e, Some(id));
      Untouched(l, h, Write(l, e), h, id);
    }
  }

  lemma SettingAccounts(l: Loopy, s: Setting, h: History)
    requires Ledger(l, h) && ListOk(l)
    ensures Ledger(ApplySetting(l, s), h) && ListOk(ApplySetting(l, s))
  {
    hide Ledger;
    match s {
      case InitialWindowSize(v, order) =>
        assert ListOk(l.(oiws := v));
        ActivateWaitingOk(l.(oiws := v), order);
        SameLedger(l, ApplySetting(l, s), h);
      case HeaderTableSize(v) => NeutralWrite(l, TableSize(v), h);
      case OtherSetting =>
    }
  }

  lemma {:induction false} SettingsAccounts(l: Loopy, ss: seq<Setting>, h: History)
    requires Ledger(l, h) && ListOk(l)
    ensures Ledger(ApplySettings(l, ss), h)
    decreases |ss|
  {
    hide Ledger, ListOk, ApplySetting;
    if ss != [] {
      SettingAccounts(l, ss[0], h);
      SettingsAccounts(ApplySetting(l, ss[0]), ss[1..], h);
    }
  }

  lemma ConnUpdate(l: Loopy, h: History, increment: nat)
    requires ConnAccount(l, h)
    ensures var q := l.sendQuota + increment;
            ConnAccount(l.(sendQuota := q % WORD),
                        h.(connIncrements := h.connIncrements + increment, wraps := h.wraps + q / WORD))
  {
    hide WireOctets;
    var q := l.sendQuota + increment;
    assert q % WORD + WORD * (q / WORD) == q;
    assert WORD * (h.wraps + q / WORD) == WORD * h.wraps + WORD * (q / WORD);
  }

  lemma GrantAccount(l: Loopy, h: History, r: Loopy, id: nat, increment: nat)
    requires Account(l, h, id) && id in l.streams && id in h.increments && id in r.streams && r.wire == l.wire
    requires r.streams[id].items == l.streams[id].items
    requires r.streams[id].bytesOutStanding == l.streams[id].bytesOutStanding - increment
    ensures Account(r, h.(increments := h.increments[id := h.increments[id] + increment]), id)
  {
    hide WireUnits, WireOctets, QueueUnits;
  }

  lemma WindowUpdateAccounts(l: Loopy, h: History, id: nat, increment: nat)
    requires Ledger(l, h)
    ensures l.streams.Keys <= h.queued.Keys && l.streams.Keys <= h.increments.Keys
    ensures Ledger(OnWindowUpdate(l, id, increment), Record(l, h, IncomingWindowUpdate(id, increment)))
  {
    hide Account, WireUnits, WireOctets;
    Known(l, h);
    var r, g := OnWindowUpdate(l, id, increment), Record(l, h, IncomingWindowUpdate(id, increment));
    if id == 0 { ConnUpdate(l, h, increment); }
    forall x ensures Account(r, g, x) {
      if id != 0 && x == id && id in l.streams {
        GrantAccount(l, h, r, id, increment);
      } else {
        Untouched(l, h, r, g, x);
      }
    }
  }

  lemma QueueAccount(l: Loopy, h: History, r: Loopy, id: nat, it: Item)
    requires Account(l, h, id) && id in l.streams && id in h.queued && id in r.streams && r.wire == l.wire
    requires r.streams[id].items == l.streams[id].items + [it]
    requires r.streams[id].bytesOutStanding == l.streams[id].bytesOutStanding
    ensures Account(r, Queue(h, id, ItemUnits(it)), id)
  {
    hide WireUnits, WireOctets, QueueUnits, ItemUnits;
    QueueSnoc(l.streams[id].items, it);
    var w, q, i := WireUnits(l.wire, id), QueueUnits(l.streams[id].items), ItemUnits(it);
    assert w + (q + i) == (w + q) + i;
  }

  /** Queueing an item on an established stream. */
  lemma QueueAccounts(l: Loopy, h: History, r: Loopy, id: nat, it: Item)
    requires Ledger(l, h) && id in l.streams
    requires r.wire == l.wire && r.sendQuota == l.sendQuota && r.streams.Keys == l.streams.Keys
    requires forall x :: x in l.streams && x != id ==> r.streams[x] == l.streams[x]
    requires r.streams[id].items == l.streams[id].items + [it]
    requires r.streams[id].bytesOutStanding == l.streams[id].bytesOutStanding
    ensures id in h.queued && Ledger(r, Queue(h, id, ItemUnits(it)))
  {
    hide Account, WireUnits, WireOctets, ItemUnits, QueueUnits;
    Known(l, h);
    var g := Queue(h, id, ItemUnits(it));
    forall x ensures Account(r, g, x) {
      if x == id { QueueAccount(l, h, r, id, it); } else { Untouched(l, h, r, g, x); }
    }
  }

  lemma CleanupAccounts(l: Loopy, h: History, id: nat, rst: Option<nat>)
    requires Ledger(l, h)
    ensures Ledger(Cleanup(l, id, rst).l, h)
  {
    hide Ledger;
    var l1 := if id in l.streams then l.(streams := l.streams - {id}, active := WithoutId(l.active, id)) else l;
    SameLedger(l, l1, h);
    if rst.Some? { NeutralWrite(l1, RstStream(id, rst.value), h); }
  }

  /** The stream without its first item, when that is a trailer, and with the trailer on the wire. */
  function TakeTrailer(l: Loopy, id: nat): Loopy
    requires id in l.streams && l.streams[id].items != [] && l.streams[id].items[0].Trailer?
  {
    var s := l.streams[id];
    Update(Write(l, HeadersFrame(id, s.items[0].fields, true)), id, s.(items := s.items[1..]))
  }

  lemma TakeAccount(l: Loopy, h: History, id: nat)
    requires Account(l, h, id) && id in l.streams && l.streams[id].items != [] && l.streams[id].items[0].Trailer?
    ensures Account(TakeTrailer(l, id), h, id)
  {
    hide WireUnits, WireOctets;
    var items := l.streams[id].items;
    WireSnoc(l.wire, HeadersFrame(id, items[0].fields, true), Some(id));
    var w, t, q := WireUnits(l.wire, id), [Trailers(items[0].fields)], QueueUnits(items[1..]);
    assert QueueUnits(items) == t + q;
    assert (w + t) + q == w + (t + q);
  }

  lemma TakeAccounts(l: Loopy, h: History, id: nat)
    requires Ledger(l, h) && id in l.streams && l.streams[id].items != [] && l.streams[id].items[0].Trailer?
    ensures Ledger(TakeTrailer(l, id), h)
  {
    hide Account, WireUnits, WireOctets;
    var r, e := TakeTrailer(l, id), HeadersFrame(id, l.streams[id].items[0].fields, true);
    WireSnoc(l.wire, e, None);
    forall x ensures Account(r, h, x) {
      if x == id {
        TakeAccount(l, h, id);
      } else {
        WireSnoc(l.wire, e, Some(x));
        Untouched(l, h, r, h, x);
      }
    }
  }

  /** Trailers that were queued go out when they reach the front. */
  lemma QueuedTrailerAccounts(l: Loopy, h: History, id: nat)
    requires Ledger(l, h) && id in l.streams && l.streams[id].items != [] && l.streams[id].items[0].Trailer?
    ensures var it := l.streams[id].items[0];
            Ledger(Cleanup(Write(l, HeadersFrame(id, it.fields, true)), id, it.rst).l, h)
  {
    hide Ledger;
    TakeAccounts(l, h, id);
    var it, r := l.streams[id].items[0], TakeTrailer(l, id);
    CleanupAccounts(r, h, id, it.rst);
    assert r.streams - {id} == l.streams - {id};
  }

  /** Writing the trailers of a stream without queued items, and dropping the stream. */
  lemma TrailerAccounts(l: Loopy, h: History, id: nat, fields: seq<HeaderField>, rst: Option<nat>)
    requires Ledger(l, h) && id in l.streams && l.streams[id].items == []
    ensures id in h.queued
    ensures Ledger(Cleanup(Write(l, HeadersFrame(id, fields, true)), id, rst).l, Queue(h, id, [Trailers(fields)]))
  {
    hide Ledger, QueueUnits;
    var s, t := l.streams[id], Trailer(fields, rst);
    var l1 := Update(l, id, s.(items := [t]));
    QueueAccounts(l, h, l1, id, t);
    QueuedTrailerAccounts(l1, Queue(h, id, ItemUnits(t)), id);
    assert l1.streams - {id} == l.streams - {id};
  }

  lemma OpenAccount(l: Loopy, h: History, id: nat, units: seq<Unit>)
    requires id !in h.queued && id !in l.streams
    requires WireUnits(l.wire, id) == units && WireOctets(l.wire, Some(id)) == 0
    ensures Account(Update(l, id, FRESH), Opened(h, id, units), id)
  {
    hide WireUnits, WireOctets;
  }

  /** A new stream starts with an empty account. */
  lemma OpenAccounts(l: Loopy, h: History, id: nat)
    requires Ledger(l, h) && id !in h.queued
    ensures Ledger(Update(l, id, FRESH), Opened(h, id, []))
  {
    hide WireUnits, WireOctets;
    assert Account(l, h, id);
    hide Account;
    var r, g := Update(l, id, FRESH), Opened(h, id, []);
    forall x ensures Account(r, g, x) {
      if x == id { OpenAccount(l, h, id, []); } else { Untouched(l, h, r, g, x); }
    }
  }

  lemma OpenEndedAccounts(l: Loopy, h: History, id: nat, fields: seq<HeaderField>)
    requires Ledger(l, h) && id !in h.queued
    ensures Ledger(Update(Write(l, HeadersFrame(id, fields, true)), id, FRESH), Opened(h, id, [Trailers(fields)]))
  {
    hide WireUnits, WireOctets;
    assert Account(l, h, id);
    hide Account;
    var e := HeadersFrame(id, fields, true);
    WireSnoc(l.wire, e, None);
    var r, g := Update(Write(l, e), id, FRESH), Opened(h, id, [Trailers(fields)]);
    forall x ensures Account(r, g, x) {
      WireSnoc(l.wire, e, Some(x));
      if x == id { OpenAccount(Write(l, e), h, id, [Trailers(fields)]); } else { Untouched(l, h, r, g, x); }
    }
  }

  lemma OwnHeadersAccounts(l: Loopy, h: History, id: nat, fields: seq<HeaderField>, endStream: bool, init: Init,
                           rst: Option<nat>)
    requires Ledger(l, h) && Inv(l) && l.server && id % 2 == 1
    ensures l.streams.Keys <= h.queued.Keys && l.streams.Keys <= h.increments.Keys
    ensures Ledger(OnHeaders(l, id, fields, endStream, init, rst).l,
                   Record(l, h, Headers(id, fields, endStream, init, rst)))
  {
    Known(l, h);
    hide Ledger, Cleanup;
    if id in l.streams {
      assert StreamOk(l, id);
      hide Inv;
      var s := l.streams[id];
      if !endStream {
        NeutralWrite(l, HeadersFrame(id, fields, false), h);
      } else if s.state != Empty {
        QueueAccounts(l, h, Update(l, id, s.(items := s.items + [Trailer(fields, rst)])), id, Trailer(fields, rst));
      } else {
        TrailerAccounts(l, h, id, fields, rst);
      }
    }
  }

  lemma HeadersAccounts(l: Loopy, h: History, id: nat, fields: seq<HeaderField>, endStream: bool, init: Init,
                        rst: Option<nat>)
    requires Ledger(l, h) && Inv(l) && FreshId(h, l, Headers(id, fields, endStream, init, rst))
    ensures l.streams.Keys <= h.queued.Keys && l.streams.Keys <= h.increments.Keys
    ensures Ledger(OnHeaders(l, id, fields, endStream, init, rst).l,
                   Record(l, h, Headers(id, fields, endStream, init, rst)))
  {
    Known(l, h);
    hide Ledger, Inv, Cleanup;
    if l.server && id % 2 == 1 {
      OwnHeadersAccounts(l, h, id, fields, endStream, init, rst);
    } else if init.Registered? {
      if endStream {
        OpenEndedAccounts(l, h, id, fields);
      } else {
        NeutralWrite(l, HeadersFrame(id, fields, false), h);
        OpenAccounts(Write(l, HeadersFrame(id, fields, false)), h, id);
      }
    }
  }

  /** Every control item keeps the accounts. */
  lemma HandleAccounts(l: Loopy, h: History, c: Command)
    requires Ledger(l, h) && Inv(l) && FreshId(h, l, c)
    ensures l.streams.Keys <= h.queued.Keys && l.streams.Keys <= h.increments.Keys
    ensures Ledger(Handle(l, c).l, Record(l, h, c))
  {
    hide Ledger, Inv, ListOk, OnHeaders, OnWindowUpdate, Cleanup, ApplySettings, Refused;
    Known(l, h);
    InvList(l);
    match c
    case IncomingWindowUpdate(id, increment) => WindowUpdateAccounts(l, h, id, increment);
    case IncomingSettings(ss) =>
      SettingsAccounts(l, ss, h);
      NeutralWrite(ApplySettings(l, ss), SettingsAck, h);
    case Headers(id, fields, endStream, init, rst) => HeadersAccounts(l, h, id, fields, endStream, init, rst);
    case RegisterStream(id) => OpenAccounts(l, h, id);
    case CleanupStream(id, rst) => CleanupAccounts(l, h, id, rst);
    case IncomingGoAway => SameLedger(l, l.(draining := true), h);
    case Bytes(id, bytes, endStream) =>
      if id in l.streams { QueueAccounts(l, h, OnBytes(l, id, bytes, endStream), id, Data(bytes, endStream)); }
    case Emission(o) => NeutralWrite(l, Control(o), h);
    case OutgoingGoAway(draining, ok) =>
      NeutralWrite(l, GoAwayItem, h);
      SameLedger(Write(l, GoAwayItem), Write(l, GoAwayItem).(draining := draining), h);
    case QuotaRequest => NeutralWrite(l, QuotaReply(l.sendQuota), h);
  }

  // ---- processData ----

  lemma OctetsSplit(bytes: seq<Byte>, n: nat)
    requires n <= |bytes|
    ensures Octets(bytes[..n]) + Octets(bytes[n..]) == Octets(bytes)
  {
  }

  /** The first item of the queue is data of which `n` octets may go. */
  predicate CanSend(l: Loopy, id: nat, n: nat) {
    && id in l.streams && l.streams[id].items != [] && l.streams[id].items[0].Data?
    && n <= |l.streams[id].items[0].bytes| && n <= l.sendQuota
  }

  /** What Send adds to the wire for stream `x`. */
  lemma SendWire(l: Loopy, id: nat, n: nat, x: nat)
    requires CanSend(l, id, n)
    ensures var it, r := l.streams[id].items[0], Send(l, id, n);
            var sent := if n == |it.bytes| then ItemUnits(it) else Octets(it.bytes[..n]);
            && WireUnits(r.wire, x) == WireUnits(l.wire, x) + (if x == id then sent else [])
            && WireOctets(r.wire, Some(x)) == WireOctets(l.wire, Some(x)) + (if x == id then n else 0)
            && WireOctets(r.wire, None) == WireOctets(l.wire, None) + n
  {
    hide WireUnits, WireOctets, Octets;
    var it := l.streams[id].items[0];
    var all := n == |it.bytes|;
    var e := DataFrame(id, it.bytes[..n], it.endStream && all);
    WireSnoc(l.wire, e, Some(x));
    WireSnoc(l.wire, e, None);
    if all {
      assert it.bytes[..n] == it.bytes;
      WireSnoc(l.wire + [e], Completed(id), Some(x));
      WireSnoc(l.wire + [e], Completed(id), None);
      var w, o := WireUnits(l.wire, id), Octets(it.bytes) + if it.endStream then [End] else [];
      assert (w + o) + [Finished] == w + (o + [Finished]);
    }
  }

  /** What is left of the first item together with what was sent of it is the item. */
  lemma SendQueue(l: Loopy, id: nat, n: nat)
    requires CanSend(l, id, n)
    ensures var it, r := l.streams[id].items[0], Send(l, id, n);
            var sent := if n == |it.bytes| then ItemUnits(it) else Octets(it.bytes[..n]);
            sent + QueueUnits(r.streams[id].items) == QueueUnits(l.streams[id].items)
  {
    hide Octets, WireUnits;
    var items := l.streams[id].items;
    var it := items[0];
    if n != |it.bytes| {
      var rest := Data(it.bytes[n..], it.endStream);
      assert ([rest] + items[1..])[1..] == items[1..];
      OctetsSplit(it.bytes, n);
      var a, b := Octets(it.bytes[..n]), Octets(it.bytes[n..]);
      var c, q := if it.endStream then [End] else [], QueueUnits(items[1..]);
      assert a + (b + c + [Finished] + q) == (a + b) + c + [Finished] + q;
    }
  }

  lemma SendAccount(l: Loopy, h: History, id: nat, n: nat)
    requires CanSend(l, id, n) && Account(l, h, id)
    ensures Account(Send(l, id, n), h, id)
  {
    hide WireUnits, WireOctets, Octets, ItemUnits, QueueUnits;
    SendWire(l, id, n, id);
    SendQueue(l, id, n);
    var it, r := l.streams[id].items[0], Send(l, id, n);
    var sent := if n == |it.bytes| then ItemUnits(it) else Octets(it.bytes[..n]);
    var w, q := WireUnits(l.wire, id), QueueUnits(r.streams[id].items);
    assert (w + sent) + q == w + (sent + q);
  }

  /** What Send puts on the wire is what it takes off the queue, and off the quota. */
  lemma SendAccounts(l: Loopy, h: History, id: nat, n: nat)
    requires Ledger(l, h) && CanSend(l, id, n)
    ensures Ledger(Send(l, id, n), h) && id in Send(l, id, n).streams
  {
    hide Account, WireUnits, WireOctets, Octets, ItemUnits;
    SendWire(l, id, n, id);
    var r := Send(l, id, n);
    forall x ensures Account(r, h, x) {
      if x == id {
        SendAccount(l, h, id, n);
      } else {
        SendWire(l, id, n, x);
        Untouched(l, h, r, h, x);
      }
    }
  }

  lemma AfterWriteAccounts(l: Loopy, h: History, id: nat, checkWindow: bool)
    requires Ledger(l, h) && id in l.streams
    ensures Ledger(AfterWrite(l, id, checkWindow).l, h)
  {
    hide Ledger, Cleanup;
    var s := l.streams[id];
    if s.items != [] && s.items[0].Trailer? {
      QueuedTrailerAccounts(l, h, id);
    } else {
      SameLedger(l, AfterWrite(l, id, checkWindow).l, h);
    }
  }

  /** processData keeps the accounts. */
  lemma ProcessAccounts(l: Loopy, h: History)
    requires Ledger(l, h) && Servable(l)
    ensures Ledger(ProcessData(l).l, h)
  {
    hide Ledger, Send, AfterWrite;
    if !Idle(l) {
      var id := l.active[0];
      var l0 := l.(active := l.active[1..]);
      var bytes := l.streams[id].items[0].bytes;
      SameLedger(l, l0, h);
      if |bytes| == 0 {
        SendAccounts(l0, h, id, 0);
        AfterWriteAccounts(Send(l0, id, 0), h, id, false);
      } else if l.Window(id) <= 0 {
        SameLedger(l0, ProcessData(l).l, h);
      } else {
        var n := Min(Allowance(l, id), |bytes|);
        SendAccounts(l0, h, id, n);
        AfterWriteAccounts(Send(l0, id, n), h, id, true);
      }
    }
  }

  // ---- Runs ----

  /** A run that never uses a stream number twice. */
  ghost predicate FreshRun(l: Loopy, h: History, steps: seq<Step>)
    requires Run(l, steps)
    decreases |steps|
  {
    steps != [] ==>
      && (steps[0].Item? ==> FreshId(h, l, steps[0].c))
      && FreshRun(Do(l, steps[0]).l, RecordStep(l, h, steps[0]), steps[1..])
  }

  ghost function RecordStep(l: Loopy, h: History, st: Step): History {
    if st.Item? && l.streams.Keys <= h.queued.Keys && l.streams.Keys <= h.increments.Keys then Record(l, h, st.c) else h
  }

  ghost function HistoryAfter(l: Loopy, h: History, steps: seq<Step>): History
    requires Run(l, steps)
    decreases |steps|
  {
    if steps == [] then h else HistoryAfter(Do(l, steps[0]).l, RecordStep(l, h, steps[0]), steps[1..])
  }

  lemma StepAccounts(l: Loopy, h: History, st: Step)
    requires Ledger(l, h) && Inv(l) && Enabled(l, st) && (st.Item? ==> FreshId(h, l, st.c))
    ensures Ledger(Do(l, st).l, RecordStep(l, h, st))
  {
    hide Ledger, Inv, Handle, ProcessData, Record, Legal;
    match st
    case Item(c) => HandleAccounts(l, h, c);
    case Process => ProcessAccounts(l, h);
  }

  /** The accounts balance after every run. */
  lemma {:induction false} RunAccounts(l: Loopy, h: History, steps: seq<Step>)
    requires Ledger(l, h) && Inv(l) && Run(l, steps) && FreshRun(l, h, steps)
    ensures Ledger(After(l, steps), HistoryAfter(l, h, steps))
    decreases |steps|
  {
    hide Ledger, Inv, Do, FreshId, RecordStep, Legal, Servable;
    if steps != [] {
      StepAccounts(l, h, steps[0]);
      StepOk(l, steps[0]);
      RunAccounts(Do(l, steps[0]).l, RecordStep(l, h, steps[0]), steps[1..]);
    }
  }

  /** No increment of the connection in the run overflows the quota it meets. */
  ghost predicate NoOverflow(l: Loopy, steps: seq<Step>)
    requires Run(l, steps)
    decreases |steps|
  {
    steps != [] ==>
      && (steps[0].Item? && steps[0].c.IncomingWindowUpdate? && steps[0].c.id == 0 ==>
            l.sendQuota + steps[0].c.increment < WORD)
      && NoOverflow(Do(l, steps[0]).l, steps[1..])
  }

  lemma StepWraps(l: Loopy, h: History, st: Step)
    requires l.streams.Keys <= h.queued.Keys && l.streams.Keys <= h.increments.Keys
    ensures var update := st.Item? && st.c.IncomingWindowUpdate? && st.c.id == 0;
            RecordStep(l, h, st).wraps == h.wraps + if update then (l.sendQuota + st.c.increment) / WORD else 0
  {
  }

  /** The overflows that the history counts are those of the run. */
  lemma {:induction false} WrapsCount(l: Loopy, h: History, steps: seq<Step>)
    requires Ledger(l, h) && Inv(l) && Run(l, steps) && FreshRun(l, h, steps)
    ensures HistoryAfter(l, h, steps).wraps >= h.wraps
    ensures HistoryAfter(l, h, steps).wraps == h.wraps <==> NoOverflow(l, steps)
    decreases |steps|
  {
    hide Ledger, Inv, Do, FreshId, RecordStep, Legal, Servable;
    if steps != [] {
      Known(l, h);
      StepWraps(l, h, steps[0]);
      StepAccounts(l, h, steps[0]);
      StepOk(l, steps[0]);
      WrapsCount(Do(l, steps[0]).l, RecordStep(l, h, steps[0]), steps[1..]);
    }
  }

  lemma StartAccounts(server: bool, maxFrameSize: nat)
    ensures Ledger(NewLoopy(server, maxFrameSize), NO_HISTORY)
  {
    forall id ensures Account(NewLoopy(server, maxFrameSize), NO_HISTORY, id) {
    }
  }

  /** Every run from the start: DATA octets and quota make up what the peer granted the connection exactly
      when no increment of the run overflowed the quota it met, and for every established stream the debt is what
      was sent minus what was granted, and the output followed by the queue is what was asked for. */
  lemma Conservation(server: bool, maxFrameSize: nat, steps: seq<Step>, id: nat)
    requires maxFrameSize >= 1
    requires Run(NewLoopy(server, maxFrameSize), steps) && FreshRun(NewLoopy(server, maxFrameSize), NO_HISTORY, steps)
    ensures var l := After(NewLoopy(server, maxFrameSize), steps);
            var h := HistoryAfter(NewLoopy(server, maxFrameSize), NO_HISTORY, steps);
            && WireOctets(l.wire, None) + l.sendQuota + WORD * h.wraps == 65535 + h.connIncrements
            && (WireOctets(l.wire, None) + l.sendQuota == 65535 + h.connIncrements
                <==> NoOverflow(NewLoopy(server, maxFrameSize), steps))
            && (id in l.streams ==>
                  && id in h.queued && id in h.increments
                  && l.streams[id].bytesOutStanding == WireOctets(l.wire, Some(id)) - h.increments[id]
                  && WireUnits(l.wire, id) + QueueUnits(l.streams[id].items) == h.queued[id])
            && WireUnits(l.wire, id) <= (if id in h.queued then h.queued[id] else [])
  {
    var l0 := NewLoopy(server, maxFrameSize);
    NewLoopyOk(server, maxFrameSize);
    StartAccounts(server, maxFrameSize);
    RunAccounts(l0, NO_HISTORY, steps);
    WrapsCount(l0, NO_HISTORY, steps);
    hide WireUnits, WireOctets, After, HistoryAfter, FreshRun, NoOverflow, LoopyInvariant.Run, QueueUnits;
    assert Account(After(l0, steps), HistoryAfter(l0, NO_HISTORY, steps), id);
  }

  /** Two increments of 2^31-1 on a new connection overflow the quota: 65533 is left of more than 2^32. */
  lemma QuotaOverflows(server: bool, maxFrameSize: nat)
    ensures var l := NewLoopy(server, maxFrameSize);
            var steps := [Item(IncomingWindowUpdate(0, 0x7fff_ffff)), Item(IncomingWindowUpdate(0, 0x7fff_ffff))];
            && Run(l, steps) && FreshRun(l, NO_HISTORY, steps) && HistoryAfter(l, NO_HISTORY, steps).wraps == 1
            && After(l, steps).sendQuota == 65533
            && DEFAULT_WINDOW + HistoryAfter(l, NO_HISTORY, steps).connIncrements == 65533 + WORD
  {
    var l0, st := NewLoopy(server, maxFrameSize), Item(IncomingWindowUpdate(0, 0x7fff_ffff));
    var steps := [st, st];
    assert steps[1..] == [st] && [st][1..] == [];
    var l1, h1 := Do(l0, st).l, RecordStep(l0, NO_HISTORY, st);
    assert l1.sendQuota == 0x8000_fffe && h1.wraps == 0;
    var l2, h2 := Do(l1, st).l, RecordStep(l1, h1, st);
    assert l2.sendQuota == 65533 && h2.wraps == 1;
    assert Run(l2, []) && Run(l1, [st]) && FreshRun(l2, h2, []) && FreshRun(l1, h1, [st]);
    assert After(l1, [st]) == After(l2, []) == l2;
    assert HistoryAfter(l1, h1, [st]) == HistoryAfter(l2, h2, []) == h2;
  }

  // ---- The limits of one frame ----

  /** Everything processData writes follows what was there, and a DATA frame with content is at most
      the frame size, the window of its stream and the quota of the connection, as they were. */
  lemma FrameLimits(l: Loopy, k: nat)
    requires Servable(l) && |l.wire| <= k < |ProcessData(l).l.wire|
    ensures l.wire <= ProcessData(l).l.wire
    ensures var e := ProcessData(l).l.wire[k];
            e.DataFrame? && e.payload != [] ==>
              && e.id in l.streams && |e.payload| <= l.maxFrameSize
              && |e.payload| <= l.Window(e.id) && |e.payload| <= l.sendQuota
  {
    hide Send, AfterWrite;
    if !Idle(l) {
      var id := l.active[0];
      var l0 := l.(active := l.active[1..]);
      var bytes := l.streams[id].items[0].bytes;
      if |bytes| != 0 && l.Window(id) > 0 {
        ServeWire(l0, id, Min(Allowance(l, id), |bytes|), true);
      } else if |bytes| == 0 {
        ServeWire(l0, id, 0, false);
      }
    }
  }

  /** What serving a stream adds: one DATA frame, and then none. */
  lemma ServeWire(l: Loopy, id: nat, n: nat, checkWindow: bool)
    requires CanSend(l, id, n)
    ensures id in Send(l, id, n).streams
    ensures var w := AfterWrite(Send(l, id, n), id, checkWindow).l.wire;
            && l.wire < w && w[|l.wire|].DataFrame? && w[|l.wire|].id == id && |w[|l.wire|].payload| == n
            && forall k :: |l.wire| < k < |w| ==> !w[k].DataFrame?
  {
    hide AfterWrite;
    var r := Send(l, id, n);
    assert l.wire < r.wire && r.wire[|l.wire|].DataFrame? && |r.wire[|l.wire|].payload| == n;
    AfterWriteWire(r, id, checkWindow);
  }

  lemma AfterWriteWire(l: Loopy, id: nat, checkWindow: bool)
    requires id in l.streams
    ensures var w := AfterWrite(l, id, checkWindow).l.wire;
            l.wire <= w && forall k :: |l.wire| <= k < |w| ==> !w[k].DataFrame?
  {
  }
}
