/** Round robin and termination: how long a stream waits for its turn, and when the scheduler stops. */
module LoopyFairness {
  import opened Bits
  import opened HeaderTable
  import opened Loopy
  import opened LoopyInvariant

  // ---- Turns ----

  /** The stream is at position `k` of the list or before it. */
  ghost predicate Within(active: seq<nat>, id: nat, k: nat) {
    exists i :: 0 <= i <= k && i < |active| && active[i] == id
  }

  /** The step is a call of processData that takes the stream off the list to serve it. */
  predicate Serves(l: Loopy, st: Step, id: nat) {
    st.Process? && !Idle(l) && l.active[0] == id
  }

  ghost predicate ServedDuring(l: Loopy, steps: seq<Step>, id: nat)
    requires LoopyInvariant.Run(l, steps)
    decreases |steps|
  {
    steps != [] && (Serves(l, steps[0], id) || ServedDuring(Do(l, steps[0]).l, steps[1..], id))
  }

  /** The connection has quota at every call of processData. */
  ghost predicate QuotaStays(l: Loopy, steps: seq<Step>)
    requires LoopyInvariant.Run(l, steps)
    decreases |steps|
  {
    steps != [] ==> (steps[0].Process? ==> l.sendQuota > 0) && QuotaStays(Do(l, steps[0]).l, steps[1..])
  }

  function Calls(steps: seq<Step>): nat {
    if steps == [] then 0 else (if steps[0].Process? then 1 else 0) + Calls(steps[1..])
  }

  predicate Resets(st: Step, id: nat) {
    st.Item? && st.c.CleanupStream? && st.c.id == id
  }

  lemma {:induction false} WithoutPlace(s: seq<nat>, gone: nat, id: nat, k: nat)
    requires Within(s, id, k) && id != gone
    ensures Within(WithoutId(s, gone), id, k)
    decreases |s|
  {
    var i :| 0 <= i <= k && i < |s| && s[i] == id;
    var r := WithoutId(s, gone);
    if i == 0 {
      assert r[0] == id;
    } else {
      assert s[1..][i - 1] == id;
      WithoutPlace(s[1..], gone, id, k - 1);
      var j :| 0 <= j <= k - 1 && j < |WithoutId(s[1..], gone)| && WithoutId(s[1..], gone)[j] == id;
      assert r[if s[0] == gone then j else j + 1] == id;
    }
  }

  lemma PrefixPlace(s: seq<nat>, r: seq<nat>, id: nat, k: nat)
    requires Within(s, id, k) && s <= r
    ensures Within(r, id, k)
  {
    var i :| 0 <= i <= k && i < |s| && s[i] == id;
    assert r[i] == id;
  }

  /** Control items only append to the list, apart from the removal of another stream. */
  ghost predicate Moved(l: Loopy, r: Loopy, id: nat) {
    l.active <= r.active || exists gone :: gone != id && r.active == WithoutId(l.active, gone)
  }

  lemma {:induction false} SettingsAppend(l: Loopy, ss: seq<Setting>)
    requires ListOk(l)
    ensures l.active <= ApplySettings(l, ss).active
    decreases |ss|
  {
    if ss != [] {
      var l1 := ApplySetting(l, ss[0]);
      assert ListOk(l1) && l.active <= l1.active by {
        if ss[0].InitialWindowSize? {
          assert ListOk(l.(oiws := ss[0].v));
          ActivateWaitingOk(l.(oiws := ss[0].v), ss[0].order);
        }
      }
      hide ListOk, ApplySetting;
      SettingsAppend(l1, ss[1..]);
    }
  }

  lemma HandleMoves(l: Loopy, c: Command, id: nat)
    requires Inv(l) && Legal(l, c) && id in l.active && !(c.CleanupStream? && c.id == id)
    ensures Moved(l, Handle(l, c).l, id)
  {
    hide Inv, ListOk, ApplySettings, OnHeaders, Cleanup, OnWindowUpdate, OnBytes, WithoutId, Refused;
    InvList(l);
    match c
    case IncomingWindowUpdate(x, increment) => UpdateMoves(l, x, increment);
    case Bytes(x, bytes, endStream) => BytesMove(l, x, bytes, endStream);
    case IncomingSettings(ss) => SettingsAppend(l, ss);
    case CleanupStream(x, rst) => CleanupMoves(l, x, rst);
    case Headers(x, fields, endStream, init, rst) => HeadersMove(l, x, fields, endStream, init, rst, id);
    case _ =>
  }

  lemma UpdateMoves(l: Loopy, x: nat, increment: nat)
    ensures l.active <= OnWindowUpdate(l, x, increment).active
  {
  }

  lemma BytesMove(l: Loopy, x: nat, bytes: seq<Byte>, endStream: bool)
    ensures l.active <= OnBytes(l, x, bytes, endStream).active
  {
  }

  lemma CleanupMoves(l: Loopy, x: nat, rst: Option<nat>)
    ensures var r := Cleanup(l, x, rst).l.active; r == l.active || r == WithoutId(l.active, x)
  {
  }

  lemma HeadersMove(l: Loopy, x: nat, fields: seq<HeaderField>, endStream: bool, init: Init, rst: Option<nat>, id: nat)
    requires ListOk(l) && id in l.active
    ensures Moved(l, OnHeaders(l, x, fields, endStream, init, rst).l, id)
  {
    if l.server && x % 2 == 1 && x in l.streams && endStream && l.streams[x].state == Empty {
      assert x != id;
      assert OnHeaders(l, x, fields, endStream, init, rst).l.active == WithoutId(l.active, x);
    }
  }

  /** A control item never sends a stream back in the list. */
  lemma HandlePlace(l: Loopy, c: Command, id: nat, k: nat)
    requires Inv(l) && Legal(l, c) && Within(l.active, id, k) && !(c.CleanupStream? && c.id == id)
    ensures Within(Handle(l, c).l.active, id, k)
  {
    hide Handle, Inv, Legal;
    HandleMoves(l, c, id);
    var r := Handle(l, c).l;
    if l.active <= r.active {
      PrefixPlace(l.active, r.active, id, k);
    } else {
      var gone :| gone != id && r.active == WithoutId(l.active, gone);
      WithoutPlace(l.active, gone, id, k);
    }
  }

  /** What a call of processData leaves of the list: the rest, then perhaps the stream it served. */
  lemma ProcessRotates(l: Loopy)
    requires Inv(l) && Servable(l) && !Idle(l)
    ensures var id, rest, r := l.active[0], l.active[1..], ProcessData(l).l.active;
            r == rest || r == rest + [id] || r == WithoutId(rest, id)
  {
    hide Inv, Send, AfterWrite;
    var id, bytes := l.active[0], l.streams[l.active[0]].items[0].bytes;
    var l0 := l.(active := l.active[1..]);
    if |bytes| == 0 {
      ServeRotates(l0, id, 0, false);
    } else if l.Window(id) > 0 {
      ServeRotates(l0, id, Min(Allowance(l, id), |bytes|), true);
    }
  }

  lemma ServeRotates(l: Loopy, id: nat, n: nat, checkWindow: bool)
    requires id in l.streams && l.streams[id].items != [] && l.streams[id].items[0].Data?
    requires n <= |l.streams[id].items[0].bytes| && n <= l.sendQuota
    ensures id in Send(l, id, n).streams
    ensures var r := AfterWrite(Send(l, id, n), id, checkWindow).l.active;
            r == l.active || r == l.active + [id] || r == WithoutId(l.active, id)
  {
    hide WithoutId;
    assert Send(l, id, n).active == l.active && id in Send(l, id, n).streams;
    hide Send;
    AfterRotates(Send(l, id, n), id, checkWindow);
  }

  lemma AfterRotates(l: Loopy, id: nat, checkWindow: bool)
    requires id in l.streams
    ensures var r := AfterWrite(l, id, checkWindow).l.active;
            r == l.active || r == l.active + [id] || r == WithoutId(l.active, id)
  {
    hide WithoutId;
  }

  /** Serving another stream brings this one forward. */
  lemma ProcessPlace(l: Loopy, id: nat, k: nat)
    requires Inv(l) && Servable(l) && !Idle(l) && Within(l.active, id, k) && l.active[0] != id
    ensures k > 0 && Within(ProcessData(l).l.active, id, k - 1)
  {
    hide ProcessData, Inv;
    ProcessRotates(l);
    var i :| 0 <= i <= k && i < |l.active| && l.active[i] == id;
    var rest := l.active[1..];
    assert rest[i - 1] == id;
    var r := ProcessData(l).l.active;
    if r == rest || r == rest + [l.active[0]] {
      assert r[i - 1] == id;
    } else {
      WithoutPlace(rest, l.active[0], id, k - 1);
    }
  }

  /** Fairness: a stream at position `k` has had its turn by the (k+1)-th call of processData, whatever
      control items come between, unless the stream itself is cleaned up. */
  lemma {:induction false} Fairness(l: Loopy, steps: seq<Step>, id: nat, k: nat)
    requires Inv(l) && LoopyInvariant.Run(l, steps) && QuotaStays(l, steps)
    requires Within(l.active, id, k) && Calls(steps) > k
    requires forall i :: 0 <= i < |steps| ==> !Resets(steps[i], id)
    ensures ServedDuring(l, steps, id)
    decreases |steps|
  {
    hide Inv, Legal, Servable, Handle, ProcessData, Within;
    var st, rest := steps[0], steps[1..];
    if !Serves(l, st, id) {
      StepOk(l, st);
      assert forall i :: 0 <= i < |rest| ==> rest[i] == steps[i + 1];
      var j: nat := TurnLeft(l, st, id, k);
      Fairness(Do(l, st).l, rest, id, j);
    }
  }

  ghost function TurnLeft(l: Loopy, st: Step, id: nat, k: nat): (j: nat)
    requires Inv(l) && Enabled(l, st) && (st.Process? ==> l.sendQuota > 0)
    requires Within(l.active, id, k) && !Resets(st, id) && !Serves(l, st, id)
    ensures Within(Do(l, st).l.active, id, j)
    ensures j == if st.Process? then k - 1 else k
  {
    match st
    case Item(c) => HandlePlace(l, c, id, k); k
    case Process => ProcessPlace(l, id, k); k - 1
  }

  /** A turn: the stream sends at least one octet of its first item, or the whole item when that is
      empty; only a stream without window goes to wait instead. */
  lemma Turn(l: Loopy, id: nat)
    requires Inv(l) && !Idle(l) && l.active[0] == id
    ensures Servable(l)
    ensures var r := ProcessData(l).l; var bytes := l.streams[id].items[0].bytes;
            if bytes != [] && l.Window(id) <= 0 then
              r.wire == l.wire && id in r.streams && r.streams[id].state == WaitingOnStreamQuota
            else
              && l.wire < r.wire && r.wire[|l.wire|].DataFrame? && r.wire[|l.wire|].id == id
              && r.wire[|l.wire|].payload <= bytes && (bytes != [] ==> r.wire[|l.wire|].payload != [])
  {
    ProcessDataOk(l);
    assert l.maxFrameSize >= 1;
    hide Inv;
    var bytes := l.streams[id].items[0].bytes;
    var l0 := l.(active := l.active[1..]);
    if bytes == [] {
      TurnWire(l0, id, 0, false);
    } else if l.Window(id) > 0 {
      TurnWire(l0, id, Min(Allowance(l, id), |bytes|), true);
    }
  }

  /** A turn sends as much as it may, and the stream then has its place: DATA with content is all of the item, or
      reaches the frame size, the window or the quota. A stream with something left goes to the end of the
      list, unless it has used up its window; an empty item does not look at the window. */
  lemma TurnFull(l: Loopy, id: nat)
    requires Inv(l) && !Idle(l) && l.active[0] == id
    ensures Servable(l)
    ensures var r, bytes := ProcessData(l).l, l.streams[id].items[0].bytes;
            && (bytes != [] && l.Window(id) > 0 ==>
                  && |l.wire| < |r.wire| && r.wire[|l.wire|].DataFrame?
                  && var n := |r.wire[|l.wire|].payload|;
                     n == |bytes| || n == l.maxFrameSize || n == l.Window(id) || n == l.sendQuota)
            && (id in r.streams && r.streams[id].items != [] ==>
                  if bytes != [] && r.Window(id) <= 0 then
                    r.streams[id].state == WaitingOnStreamQuota && id !in r.active
                  else r.active == l.active[1..] + [id])
            && (id in r.streams && r.streams[id].items == [] ==> r.streams[id].state == Empty)
  {
    ProcessDataOk(l);
    DequeueHeld(l);
    assert l.maxFrameSize >= 1;
    hide Inv, Held, Send;
    var bytes := l.streams[id].items[0].bytes;
    var l0 := l.(active := l.active[1..]);
    assert id !in l0.active by { HeldOff(l0, id); }
    if bytes == [] {
      TurnWire(l0, id, 0, false);
      TurnPlace(l0, id, 0, false);
    } else if l.Window(id) > 0 {
      TurnWire(l0, id, Min(Allowance(l, id), |bytes|), true);
      TurnPlace(l0, id, Min(Allowance(l, id), |bytes|), true);
    }
  }

  lemma HeldOff(l: Loopy, id: nat)
    requires Held(l, id)
    ensures id !in l.active
  {
  }

  lemma TurnPlace(l: Loopy, id: nat, n: nat, checkWindow: bool)
    requires id in l.streams && l.streams[id].items != [] && l.streams[id].items[0].Data? && id !in l.active
    requires n <= |l.streams[id].items[0].bytes| && n <= l.sendQuota
    ensures id in Send(l, id, n).streams
    ensures var r := AfterWrite(Send(l, id, n), id, checkWindow).l;
            && (id in r.streams && r.streams[id].items != [] ==>
                  if checkWindow && r.Window(id) <= 0 then
                    r.streams[id].state == WaitingOnStreamQuota && r.active == l.active
                  else r.active == l.active + [id])
            && (id in r.streams && r.streams[id].items == [] ==> r.streams[id].state == Empty)
  {
    assert Send(l, id, n).active == l.active;
    hide Send;
    PlaceAfter(Send(l, id, n), id, checkWindow);
  }

  lemma PlaceAfter(l: Loopy, id: nat, checkWindow: bool)
    requires id in l.streams && id !in l.active
    ensures var r := AfterWrite(l, id, checkWindow).l;
            && (id in r.streams && r.streams[id].items != [] ==>
                  if checkWindow && r.Window(id) <= 0 then
                    r.streams[id].state == WaitingOnStreamQuota && r.active == l.active
                  else r.active == l.active + [id])
            && (id in r.streams && r.streams[id].items == [] ==> r.streams[id].state == Empty)
  {
    hide WithoutId;
  }

  lemma TurnWire(l: Loopy, id: nat, n: nat, checkWindow: bool)
    requires id in l.streams && l.streams[id].items != [] && l.streams[id].items[0].Data?
    requires n <= |l.streams[id].items[0].bytes| && n <= l.sendQuota
    ensures id in Send(l, id, n).streams
    ensures var w := AfterWrite(Send(l, id, n), id, checkWindow).l.wire; var it := l.streams[id].items[0];
            l.wire < w && w[|l.wire|] == DataFrame(id, it.bytes[..n], it.endStream && n == |it.bytes|)
  {
    var r := Send(l, id, n);
    var it := l.streams[id].items[0];
    assert r.wire[|l.wire|] == DataFrame(id, it.bytes[..n], it.endStream && n == |it.bytes|);
    assert r.wire <= AfterWrite(r, id, checkWindow).l.wire;
  }

  // ---- Termination ----

  function QueueWeight(items: seq<Item>): nat {
    if items == [] then 0 else (if items[0].Data? then |items[0].bytes| else 0) + 1 + QueueWeight(items[1..])
  }

  /** Octets and items queued on the streams of the list, and the number of those streams. */
  function Weight(streams: map<nat, Stream>, active: seq<nat>): nat
    requires forall i :: 0 <= i < |active| ==> active[i] in streams
  {
    if active == [] then 0 else QueueWeight(streams[active[0]].items) + 1 + Weight(streams, active[1..])
  }

  lemma {:induction false} WeightSnoc(streams: map<nat, Stream>, active: seq<nat>, id: nat)
    requires id in streams && forall i :: 0 <= i < |active| ==> active[i] in streams
    ensures Weight(streams, active + [id]) == Weight(streams, active) + QueueWeight(streams[id].items) + 1
    decreases |active|
  {
    hide QueueWeight;
    var s := active + [id];
    if active == [] {
      assert s[1..] == [] && s[0] == id;
    } else {
      assert s[1..] == active[1..] + [id] && s[0] == active[0];
      WeightSnoc(streams, active[1..], id);
    }
  }

  lemma {:induction false} WeightSame(streams: map<nat, Stream>, other: map<nat, Stream>, active: seq<nat>)
    requires forall i :: 0 <= i < |active| ==>
               active[i] in streams && active[i] in other && other[active[i]].items == streams[active[i]].items
    ensures Weight(streams, active) == Weight(other, active)
    decreases |active|
  {
    hide QueueWeight;
    if active != [] { WeightSame(streams, other, active[1..]); }
  }

  lemma {:induction false} WithoutNone(s: seq<nat>, id: nat)
    requires id !in s
    ensures WithoutId(s, id) == s
    decreases |s|
  {
    if s != [] { WithoutNone(s[1..], id); }
  }

  ghost function Measure(l: Loopy): nat
    requires Inv(l)
  {
    Weight(l.streams, l.active)
  }

  lemma SendLightens(l: Loopy, id: nat, n: nat)
    requires id in l.streams && l.streams[id].items != [] && l.streams[id].items[0].Data?
    requires n <= |l.streams[id].items[0].bytes| && n <= l.sendQuota && (n == 0 ==> l.streams[id].items[0].bytes == [])
    ensures var r := Send(l, id, n);
            && id in r.streams && QueueWeight(r.streams[id].items) < QueueWeight(l.streams[id].items)
            && r.active == l.active
            && (forall x :: x in l.streams && x != id ==> x in r.streams && r.streams[x] == l.streams[x])
  {
    var items := l.streams[id].items;
    var n1 := Data(items[0].bytes[n..], items[0].endStream);
    assert ([n1] + items[1..])[1..] == items[1..];
  }

  /** After a write the stream is off the list or, lighter than it was, at its end. */
  lemma AfterWriteLightens(l: Loopy, id: nat, checkWindow: bool, w: nat)
    requires id in l.streams && id !in l.active && (forall i :: 0 <= i < |l.active| ==> l.active[i] in l.streams)
    requires QueueWeight(l.streams[id].items) < w
    ensures var r := AfterWrite(l, id, checkWindow).l;
            && (forall i :: 0 <= i < |r.active| ==> r.active[i] in r.streams)
            && Weight(r.streams, r.active) <= Weight(l.streams, l.active) + w
  {
    hide QueueWeight, Weight, AfterWrite;
    AfterWriteList(l, id, checkWindow);
    var r := AfterWrite(l, id, checkWindow).l;
    if r.active == l.active {
      WeightSame(l.streams, r.streams, l.active);
    } else {
      WeightSnoc(l.streams, l.active, id);
    }
  }

  lemma AfterWriteList(l: Loopy, id: nat, checkWindow: bool)
    requires id in l.streams && id !in l.active
    ensures var r := AfterWrite(l, id, checkWindow).l;
            || (&& r.active == l.active
                && forall x :: x in l.streams && x != id ==> x in r.streams && r.streams[x].items == l.streams[x].items)
            || (r.active == l.active + [id] && r.streams == l.streams)
  {
    WithoutNone(l.active, id);
  }

  lemma ServeLightens(l: Loopy, id: nat, n: nat, checkWindow: bool)
    requires Held(l, id) && l.streams[id].items != [] && l.streams[id].items[0].Data?
    requires n <= |l.streams[id].items[0].bytes| && n <= l.sendQuota && (n == 0 ==> l.streams[id].items[0].bytes == [])
    ensures id in Send(l, id, n).streams
    ensures (forall i :: 0 <= i < |l.active| ==> l.active[i] in l.streams)
    ensures var r := AfterWrite(Send(l, id, n), id, checkWindow).l;
            && (forall i :: 0 <= i < |r.active| ==> r.active[i] in r.streams)
            && Weight(r.streams, r.active) <= Weight(l.streams, l.active) + QueueWeight(l.streams[id].items)
  {
    SendLightens(l, id, n);
    assert forall i :: 0 <= i < |l.active| ==> l.active[i] in l.active && l.active[i] in l.streams;
    hide QueueWeight, Weight, Send, AfterWrite;
    var r := Send(l, id, n);
    WeightSame(l.streams, r.streams, l.active);
    AfterWriteLightens(r, id, checkWindow, QueueWeight(l.streams[id].items));
  }

  lemma FirstWeight(l: Loopy)
    requires Inv(l) && l.active != []
    ensures l.maxFrameSize >= 1 && l.active[0] in l.streams
    ensures forall i :: 0 <= i < |l.active[1..]| ==> l.active[1..][i] in l.streams
    ensures Measure(l) == QueueWeight(l.streams[l.active[0]].items) + 1 + Weight(l.streams, l.active[1..])
  {
    hide QueueWeight;
    var rest := l.active[1..];
    assert l.active[0] in l.active;
    assert forall i :: 0 <= i < |rest| ==> rest[i] == l.active[i + 1] && rest[i] in l.active;
  }

  /** Every call of processData that finds something to do makes the measure smaller. */
  lemma Progress(l: Loopy)
    requires Inv(l) && !Idle(l)
    ensures Servable(l) && Inv(ProcessData(l).l) && Measure(ProcessData(l).l) < Measure(l)
  {
    hide Inv, Held, Weight, QueueWeight, Send, AfterWrite;
    ProcessDataOk(l);
    DequeueHeld(l);
    var r := ProcessData(l).l;
    var id, rest := l.active[0], l.active[1..];
    var l0 := l.(active := rest);
    var bytes := l.streams[id].items[0].bytes;
    FirstWeight(l);
    if |bytes| == 0 {
      ServeLightens(l0, id, 0, false);
    } else if l.Window(id) <= 0 {
      WeightSame(l.streams, r.streams, rest);
    } else {
      ServeLightens(l0, id, Min(Allowance(l, id), |bytes|), true);
    }
  }

  /** The inner loop of the writer when no control item arrives: processData until there is nothing to do. */
  ghost function Drain(l: Loopy): (n: Next)
    requires Inv(l)
    ensures Inv(n.l) && (n.ok ==> Idle(n.l))
    decreases Measure(l)
  {
    if Idle(l) then Next(l, true)
    else
      Progress(l);
      var n := ProcessData(l);
      if n.ok then Drain(n.l) else n
  }

  /** `n` calls of processData. */
  ghost function Turns(l: Loopy, n: nat): (r: Loopy)
    requires Inv(l)
    ensures Inv(r)
    decreases n
  {
    if n == 0 then l else ProcessDataOk(l); Turns(ProcessData(l).l, n - 1)
  }

  /** The number of calls until there is nothing to do is at most the measure. */
  lemma {:induction false} DrainBound(l: Loopy, n: nat)
    requires Inv(l) && n >= Measure(l)
    ensures Idle(Turns(l, n))
    decreases n
  {
    hide Inv, ProcessData, Weight;
    if n == 0 {
      if l.active != [] { WeightPositive(l); }
    } else {
      ProcessDataOk(l);
      if Idle(l) { IdleStays(l); IdleTurns(l, n - 1); } else { Progress(l); DrainBound(ProcessData(l).l, n - 1); }
    }
  }

  lemma WeightPositive(l: Loopy)
    requires Inv(l) && l.active != []
    ensures Measure(l) > 0
  {
  }

  lemma IdleStays(l: Loopy)
    requires Servable(l) && Idle(l)
    ensures ProcessData(l) == Next(l, true)
  {
  }

  lemma {:induction false} IdleTurns(l: Loopy, n: nat)
    requires Inv(l) && Idle(l)
    ensures Turns(l, n) == l
    decreases n
  {
    hide Inv, ProcessData;
    if n != 0 { ProcessDataOk(l); IdleStays(l); IdleTurns(l, n - 1); }
  }

  /** When the scheduler stops with connection quota left, a stream with something queued has no window. */
  lemma NoStrandedStream(l: Loopy, id: nat)
    requires Inv(l) && Idle(l) && l.sendQuota > 0 && id in l.streams && l.streams[id].items != []
    ensures l.Window(id) <= 0 && l.streams[id].state == WaitingOnStreamQuota
  {
    assert StreamOk(l, id);
    assert id !in l.active;
  }
}
