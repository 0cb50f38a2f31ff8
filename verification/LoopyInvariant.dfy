/** What every step of the scheduler keeps. */
module LoopyInvariant {
  import opened Bits
  import opened HeaderTable
  import opened Loopy

  ghost predicate NoDuplicates(s: seq<nat>) {
    forall i, j :: 0 <= i < j < |s| ==> s[i] != s[j]
  }

  /** The list holds, once each, exactly the established streams that are active. */
  ghost predicate ListOk(l: Loopy) {
    && NoDuplicates(l.active)
    && (forall id :: id in l.active <==> id in l.streams && l.streams[id].state == Active)
  }

  /** A stream is empty exactly when nothing is queued, a queue starts with data, and a stream waits
      only while it has no window. */
  ghost predicate StreamOk(l: Loopy, id: nat)
    requires id in l.streams
  {
    var s := l.streams[id];
    && (s.state == Empty <==> s.items == [])
    && (s.items != [] ==> s.items[0].Data?)
    && (s.state == WaitingOnStreamQuota ==> l.Window(id) <= 0)
  }

  ghost predicate StreamsOk(l: Loopy) {
    forall id :: id in l.streams ==> StreamOk(l, id)
  }

  ghost predicate Inv(l: Loopy) {
    l.sendQuota < WORD && l.maxFrameSize >= 1 && ListOk(l) && StreamsOk(l)
  }

  /** What the rest of the program guarantees of a control item: a stream is registered once, and
      the loop over the streams visits all of them. */
  ghost predicate Legal(l: Loopy, c: Command) {
    match c
    case RegisterStream(id) => id !in l.streams
    case Headers(id, _, _, init, _) => (l.server && id % 2 == 1) || !init.Registered? || id !in l.streams
    case IncomingSettings(ss) => Covers(l, ss)
    case _ => true
  }

  ghost predicate Covers(l: Loopy, ss: seq<Setting>) {
    forall i :: 0 <= i < |ss| && ss[i].InitialWindowSize? ==> forall id :: id in l.streams ==> id in ss[i].order
  }

  // ---- Building blocks ----

  lemma WithoutOk(s: seq<nat>, id: nat)
    requires NoDuplicates(s)
    ensures NoDuplicates(WithoutId(s, id))
  {
    if s != [] {
      assert forall i, j :: 0 <= i < j < |s[1..]| ==> s[1..][i] != s[1..][j];
      WithoutOk(s[1..], id);
      var r := WithoutId(s[1..], id);
      if s[0] != id {
        forall j | 0 <= j < |r| ensures r[j] != s[0] {
          assert r[j] in s[1..];
        }
      }
    }
  }

  lemma ActivateOk(l: Loopy, id: nat)
    requires ListOk(l) && id in l.streams && l.streams[id].state != Active
    ensures ListOk(Activate(l, id))
  {
  }

  /** Changing a stream that stays on, or stays off, the list. */
  lemma UpdateOk(l: Loopy, id: nat, s: Stream)
    requires ListOk(l) && (id in l.active <==> s.state == Active)
    ensures ListOk(Update(l, id, s))
  {
  }

  lemma {:induction false} ActivateWaitingOk(l: Loopy, order: seq<nat>)
    requires ListOk(l)
    ensures var r := ActivateWaiting(l, order);
            && ListOk(r) && r.streams.Keys == l.streams.Keys && r == l.(streams := r.streams, active := r.active)
            && l.active <= r.active
            && (forall id :: id in l.streams ==>
                  var s := l.streams[id];
                  r.streams[id] == if s.state == WaitingOnStreamQuota && id in order then s.(state := Active) else s)
    decreases |order|
  {
    if order != [] {
      var id := order[0];
      if id in l.streams && l.streams[id].state == WaitingOnStreamQuota {
        ActivateOk(l, id);
        ActivateWaitingOk(Activate(l, id), order[1..]);
      } else {
        ActivateWaitingOk(l, order[1..]);
      }
    }
  }

  lemma LowerOk(l: Loopy, v: nat)
    requires Inv(l) && v <= l.oiws
    ensures Inv(l.(oiws := v))
  {
    var r := l.(oiws := v);
    assert forall id :: id in l.streams ==> StreamOk(l, id) && r.Window(id) <= l.Window(id);
  }

  lemma RaiseOk(l: Loopy, v: nat, order: seq<nat>)
    requires Inv(l) && forall id :: id in l.streams ==> id in order
    ensures var r := ActivateWaiting(l.(oiws := v), order); Inv(r) && r.streams.Keys == l.streams.Keys
  {
    hide ActivateWaiting;
    assert ListOk(l.(oiws := v));
    ActivateWaitingOk(l.(oiws := v), order);
    var r := ActivateWaiting(l.(oiws := v), order);
    assert forall id :: id in r.streams ==> StreamOk(l, id) && r.streams[id].state != WaitingOnStreamQuota;
  }

  lemma SettingOk(l: Loopy, s: Setting)
    requires Inv(l) && Covers(l, [s])
    ensures Inv(ApplySetting(l, s)) && ApplySetting(l, s).streams.Keys == l.streams.Keys
  {
    if s.InitialWindowSize? {
      assert [s][0] == s;
      hide Inv, ActivateWaiting;
      if l.oiws < s.v { RaiseOk(l, s.v, s.order); } else { LowerOk(l, s.v); }
    } else {
      WriteOk(l, TableSize(if s.HeaderTableSize? then s.v else 0));
    }
  }

  lemma {:induction false} SettingsOk(l: Loopy, ss: seq<Setting>)
    requires Inv(l) && Covers(l, ss)
    ensures Inv(ApplySettings(l, ss)) && ApplySettings(l, ss).streams.Keys == l.streams.Keys
    decreases |ss|
  {
    hide Inv, ApplySetting;
    if ss != [] {
      assert Covers(l, [ss[0]]);
      SettingOk(l, ss[0]);
      assert forall i :: 0 <= i < |ss[1..]| ==> ss[1..][i] == ss[i + 1];
      SettingsOk(ApplySetting(l, ss[0]), ss[1..]);
    }
  }

  lemma CleanupOk(l: Loopy, id: nat, rst: Option<nat>)
    requires l.sendQuota < WORD && l.maxFrameSize >= 1 && ListOk(l)
    requires forall x :: x in l.streams && x != id ==> StreamOk(l, x)
    ensures Inv(Cleanup(l, id, rst).l)
  {
    WithoutOk(l.active, id);
    var r := Cleanup(l, id, rst).l;
    assert forall x :: x in r.streams ==>
             x in l.streams && x != id && r.streams[x] == l.streams[x] && r.Window(x) == l.Window(x);
  }

  lemma WriteOk(l: Loopy, e: Event)
    requires Inv(l)
    ensures Inv(Write(l, e))
  {
    assert forall x :: x in l.streams ==> Write(l, e).Window(x) == l.Window(x);
  }

  /** Putting a correct stream in place. */
  lemma PutOk(l: Loopy, id: nat, s: Stream)
    requires Inv(l) && (id in l.active <==> s.state == Active)
    requires StreamOk(Update(l, id, s), id)
    ensures Inv(Update(l, id, s))
  {
    UpdateOk(l, id, s);
    var r := Update(l, id, s);
    assert forall x :: x in l.streams && x != id ==> r.streams[x] == l.streams[x] && r.Window(x) == l.Window(x);
  }

  lemma PutActiveOk(l: Loopy, id: nat, s: Stream)
    requires Inv(l) && id in l.streams && id !in l.active && s.state != Active
    requires StreamOk(Activate(Update(l, id, s), id), id)
    ensures Inv(Activate(Update(l, id, s), id))
  {
    UpdateOk(l, id, s);
    ActivateOk(Update(l, id, s), id);
    var r := Activate(Update(l, id, s), id);
    assert forall x :: x in l.streams && x != id ==> r.streams[x] == l.streams[x] && r.Window(x) == l.Window(x);
  }

  // ---- Control items ----

  lemma QuotaOk(l: Loopy, quota: nat)
    requires Inv(l) && quota < WORD
    ensures Inv(l.(sendQuota := quota))
  {
    var r := l.(sendQuota := quota);
    assert forall x :: x in l.streams ==> r.Window(x) == l.Window(x);
  }

  lemma DrainingOk(l: Loopy, draining: bool)
    requires Inv(l)
    ensures Inv(l.(draining := draining))
  {
    var r := l.(draining := draining);
    assert forall x :: x in l.streams ==> r.Window(x) == l.Window(x);
  }

  lemma InvList(l: Loopy)
    requires Inv(l)
    ensures ListOk(l)
  {
  }

  lemma InvAt(l: Loopy, id: nat)
    requires Inv(l) && id in l.streams
    ensures StreamOk(l, id) && (id in l.active <==> l.streams[id].state == Active)
  {
  }

  /** A window update keeps the invariant: a stream that gets window back does not go on waiting. */
  lemma WindowUpdateOk(l: Loopy, id: nat, increment: nat)
    requires Inv(l)
    ensures Inv(OnWindowUpdate(l, id, increment))
  {
    hide Inv;
    if id == 0 {
      QuotaOk(l, (l.sendQuota + increment) % WORD);
    } else if id in l.streams {
      var s := l.streams[id].(bytesOutStanding := l.streams[id].bytesOutStanding - increment);
      InvAt(l, id);
      if Update(l, id, s).Window(id) > 0 && s.state == WaitingOnStreamQuota {
        PutActiveOk(l, id, s);
      } else {
        PutOk(l, id, s);
      }
    }
  }

  lemma BytesOk(l: Loopy, id: nat, bytes: seq<Byte>, endStream: bool)
    requires Inv(l)
    ensures Inv(OnBytes(l, id, bytes, endStream))
  {
    if id in l.streams {
      assert StreamOk(l, id);
      var s := l.streams[id];
      var s1 := s.(items := s.items + [Data(bytes, endStream)]);
      if s.state == Empty {
        assert s1.items[0] == Data(bytes, endStream);
        PutActiveOk(l, id, s1);
      } else {
        assert s1.items[0] == s.items[0];
        PutOk(l, id, s1);
      }
    }
  }

  lemma HeadersOk(l: Loopy, id: nat, fields: seq<HeaderField>, endStream: bool, init: Init, rst: Option<nat>)
    requires Inv(l) && Legal(l, Headers(id, fields, endStream, init, rst))
    ensures Inv(OnHeaders(l, id, fields, endStream, init, rst).l)
  {
    if l.server && id % 2 == 1 {
      if id in l.streams {
        var e := HeadersFrame(id, fields, endStream);
        WriteOk(l, e);
        assert StreamOk(l, id);
        var s := l.streams[id];
        if endStream && s.state != Empty {
          var s1 := s.(items := s.items + [Trailer(fields, rst)]);
          assert s1.items[0] == s.items[0];
          PutOk(l, id, s1);
        } else if endStream {
          CleanupOk(Write(l, e), id, rst);
        }
      }
    } else if init.Registered? {
      var e := HeadersFrame(id, fields, endStream);
      WriteOk(l, e);
      PutOk(Write(l, e), id, FRESH);
    }
  }

  /** Every control item keeps the invariant. */
  lemma HandleOk(l: Loopy, c: Command)
    requires Inv(l) && Legal(l, c)
    ensures Inv(Handle(l, c).l)
  {
    match c
    case IncomingWindowUpdate(id, increment) => WindowUpdateOk(l, id, increment);
    case IncomingSettings(ss) =>
      SettingsOk(l, ss);
      WriteOk(ApplySettings(l, ss), SettingsAck);
    case Headers(id, fields, endStream, init, rst) => HeadersOk(l, id, fields, endStream, init, rst);
    case RegisterStream(id) => PutOk(l, id, FRESH);
    case CleanupStream(id, rst) => CleanupOk(l, id, rst);
    case IncomingGoAway =>
      assert forall x :: x in l.streams ==> l.(draining := true).Window(x) == l.Window(x);
    case Bytes(id, bytes, endStream) => BytesOk(l, id, bytes, endStream);
    case Emission(o) => WriteOk(l, Control(o));
    case OutgoingGoAway(draining, ok) =>
      WriteOk(l, GoAwayItem);
      DrainingOk(Write(l, GoAwayItem), draining);
    case QuotaRequest => WriteOk(l, QuotaReply(l.sendQuota));
  }

  // ---- processData ----

  /** Between the removal of a stream from the list and its next place: the stream is off the list,
      everything else is as it should be. */
  ghost predicate Held(l: Loopy, id: nat) {
    && l.sendQuota < WORD && l.maxFrameSize >= 1
    && id in l.streams && id !in l.active && l.streams[id].state == Active
    && NoDuplicates(l.active)
    && (forall x :: x != id ==> (x in l.active <==> x in l.streams && l.streams[x].state == Active))
    && (forall x :: x in l.streams && x != id ==> StreamOk(l, x))
  }

  lemma DequeueHeld(l: Loopy)
    requires Inv(l) && l.active != []
    ensures Servable(l) && Held(l.(active := l.active[1..]), l.active[0])
  {
    var id := l.active[0];
    assert id in l.active;
    assert StreamOk(l, id);
    var l0 := l.(active := l.active[1..]);
    assert forall x :: x in l.active <==> x == id || x in l.active[1..];
    assert forall x :: x in l.streams ==> l0.Window(x) == l.Window(x);
  }

  lemma SendHeld(l: Loopy, id: nat, n: nat)
    requires Held(l, id) && l.streams[id].items != [] && l.streams[id].items[0].Data?
    requires n <= |l.streams[id].items[0].bytes| && n <= l.sendQuota
    ensures Held(Send(l, id, n), id)
  {
    var r := Send(l, id, n);
    assert forall x :: x in l.streams && x != id ==> r.streams[x] == l.streams[x] && r.Window(x) == l.Window(x);
  }

  lemma AfterWriteOk(l: Loopy, id: nat, checkWindow: bool)
    requires Held(l, id)
    ensures Inv(AfterWrite(l, id, checkWindow).l)
  {
    hide Held, Inv, Cleanup;
    HeldId(l, id);
    var s := l.streams[id];
    if s.items == [] {
      EmptyOk(l, id);
    } else if s.items[0].Trailer? {
      HeldCleanup(l, id, s.items[0].fields, s.items[0].rst);
    } else if checkWindow && l.Window(id) <= 0 {
      WaitOk(l, id);
    } else {
      RequeueOk(l, id);
    }
  }

  lemma HeldId(l: Loopy, id: nat)
    requires Held(l, id)
    ensures id in l.streams
  {
  }

  lemma EmptyOk(l: Loopy, id: nat)
    requires Held(l, id) && l.streams[id].items == []
    ensures Inv(Update(l, id, l.streams[id].(state := Empty)))
  {
    var r := Update(l, id, l.streams[id].(state := Empty));
    assert forall x :: x in l.streams && x != id ==> r.streams[x] == l.streams[x] && r.Window(x) == l.Window(x);
  }

  lemma RequeueOk(l: Loopy, id: nat)
    requires Held(l, id) && l.streams[id].items != [] && l.streams[id].items[0].Data?
    ensures Inv(l.(active := l.active + [id]))
  {
    var r := l.(active := l.active + [id]);
    assert forall x :: x in l.streams ==> r.Window(x) == l.Window(x);
  }

  lemma HeldCleanup(l: Loopy, id: nat, fields: seq<HeaderField>, rst: Option<nat>)
    requires Held(l, id)
    ensures Inv(Cleanup(Write(l, HeadersFrame(id, fields, true)), id, rst).l)
  {
    WithoutOk(l.active, id);
    var r := Cleanup(Write(l, HeadersFrame(id, fields, true)), id, rst).l;
    assert forall x :: x in r.streams ==>
             x in l.streams && x != id && r.streams[x] == l.streams[x] && r.Window(x) == l.Window(x);
  }

  lemma WaitOk(l: Loopy, id: nat)
    requires Held(l, id) && l.streams[id].items != [] && l.streams[id].items[0].Data? && l.Window(id) <= 0
    ensures Inv(Update(l, id, l.streams[id].(state := WaitingOnStreamQuota)))
  {
    var r := Update(l, id, l.streams[id].(state := WaitingOnStreamQuota));
    assert forall x :: x in l.streams && x != id ==> r.streams[x] == l.streams[x] && r.Window(x) == l.Window(x);
  }

  /** processData keeps the invariant, and never finds the list's first stream without data. */
  lemma ProcessDataOk(l: Loopy)
    requires Inv(l)
    ensures Servable(l) && Inv(ProcessData(l).l)
  {
    if l.active != [] { DequeueHeld(l); }
    if !Idle(l) {
      var id := l.active[0];
      var l0 := l.(active := l.active[1..]);
      var bytes := l.streams[id].items[0].bytes;
      hide Inv, Held, Send;
      if |bytes| == 0 {
        SendHeld(l0, id, 0);
        AfterWriteOk(Send(l0, id, 0), id, false);
      } else if l.Window(id) <= 0 {
        WaitOk(l0, id);
      } else {
        var n := Min(Allowance(l, id), |bytes|);
        SendHeld(l0, id, n);
        AfterWriteOk(Send(l0, id, n), id, true);
      }
    }
  }

  // ---- Runs ----

  datatype Step = Item(c: Command) | Process

  ghost predicate Enabled(l: Loopy, st: Step) {
    match st case Item(c) => Legal(l, c) case Process => Servable(l)
  }

  function Do(l: Loopy, st: Step): Next
    requires st.Process? ==> Servable(l)
  {
    match st case Item(c) => Handle(l, c) case Process => ProcessData(l)
  }

  /** A run: every step is legal where it happens, and the writer went on before it. */
  ghost predicate Run(l: Loopy, steps: seq<Step>)
    decreases |steps|
  {
    steps != [] ==>
      Enabled(l, steps[0]) && (Do(l, steps[0]).ok || steps[1..] == []) && Run(Do(l, steps[0]).l, steps[1..])
  }

  ghost function After(l: Loopy, steps: seq<Step>): Loopy
    requires Run(l, steps)
    decreases |steps|
  {
    if steps == [] then l else After(Do(l, steps[0]).l, steps[1..])
  }

  lemma NewLoopyOk(server: bool, maxFrameSize: nat)
    requires maxFrameSize >= 1
    ensures Inv(NewLoopy(server, maxFrameSize))
  {
  }

  lemma StepOk(l: Loopy, st: Step)
    requires Inv(l) && Enabled(l, st)
    ensures Inv(Do(l, st).l)
  {
    match st
    case Item(c) => HandleOk(l, c);
    case Process => ProcessDataOk(l);
  }

  /** The scheduler invariant holds after every run. */
  lemma {:induction false} RunOk(l: Loopy, steps: seq<Step>)
    requires Inv(l) && Run(l, steps)
    ensures Inv(After(l, steps))
    decreases |steps|
  {
    hide Inv, Do, Legal, Servable;
    if steps != [] {
      StepOk(l, steps[0]);
      RunOk(Do(l, steps[0]).l, steps[1..]);
    }
  }
}
