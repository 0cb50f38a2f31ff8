/** Flow control comes to rest: from every state that a run can reach, delivering, reading and sending
    end after finitely many moves, in whatever order they happen, and then everything has been sent. */
module FlowRest {
  import opened Bits
  import opened Loopy
  import LoopyInvariant
  import opened LoopyFairness
  import opened FlowControl
  import opened FlowProtocol
  import FlowSafety
  import opened FlowLiveness

  // ---- Sums over a map ----

  ghost function Pick(m: map<nat, nat>): (id: nat)
    requires m != map[]
    ensures id in m
  {
    var id :| id in m; id
  }

  ghost function Sum(m: map<nat, nat>): nat
    decreases |m|
  {
    if m == map[] then 0
    else
      var id := Pick(m);
      assert (m - {id}).Keys == m.Keys - {id};
      m[id] + Sum(m - {id})
  }

  /** Any key may be taken out first. */
  lemma {:induction false} SumAt(m: map<nat, nat>, id: nat)
    requires id in m
    ensures Sum(m) == m[id] + Sum(m - {id})
    decreases |m|
  {
    var k := Pick(m);
    if k != id {
      assert (m - {k}).Keys == m.Keys - {k};
      SumAt(m - {k}, id);
      SumAt(m - {id}, k) by { assert (m - {id}).Keys == m.Keys - {id}; }
      assert (m - {k}) - {id} == (m - {id}) - {k};
    }
  }

  // ---- The load of a state ----

  ghost function Queues(streams: map<nat, Stream>): map<nat, nat> {
    map id | id in streams :: QueueWeight(streams[id].items)
  }

  ghost function Unread(streams: map<nat, In>): map<nat, nat> {
    map id | id in streams :: streams[id].pendingData
  }

  /** Settings on their way, each of which will be acknowledged. */
  function Settings(back: seq<Msg>): nat {
    if back == [] then 0 else (if back[0].Setting? then 1 else 0) + Settings(back[1..])
  }

  /** What is left to do: what the sender has queued, settings on their way, frames on their way, octets to
      read, messages on their way, and streams on the scheduler's list. */
  datatype Load = Load(queued: nat, settings: nat, frames: nat, unread: nat, messages: nat, active: nat)

  ghost function LoadOf(s: System): Load
    requires s.delivered <= |s.l.wire|
  {
    Load(Sum(Queues(s.l.streams)), Settings(s.back), |s.l.wire| - s.delivered, Sum(Unread(s.r.streams)), |s.back|,
         |s.l.active|)
  }

  /** In order of weight: sending may bring anything else, but nothing else brings more to send. */
  predicate Lighter(a: Load, b: Load) {
    || a.queued < b.queued
    || (a.queued == b.queued &&
          (|| a.settings < b.settings
           || (a.settings == b.settings &&
                 (|| a.frames < b.frames
                  || (a.frames == b.frames &&
                        (|| a.unread < b.unread
                         || (a.unread == b.unread &&
                               (a.messages < b.messages || (a.messages == b.messages && a.active < b.active)))))))))
  }

  /** A move that neither opens, closes nor asks for anything: something on its way arrives, the
      application reads, or processData finds something to do. */
  ghost predicate Useful(s: System, m: Move) {
    Possible(s, m) &&
    match m
    case DeliverBack(_) => true
    case DeliverFrame(_) => true
    case ReadData(_, n) => n > 0
    case Process => !Idle(s.l)
    case _ => false
  }

  lemma UsefulPossible(s: System, m: Move)
    requires Useful(s, m)
    ensures Possible(s, m)
  {
  }

  // ---- Sending ----

  lemma OneStream(a: map<nat, Stream>, b: map<nat, Stream>, id: nat)
    requires id in a && b - {id} == a - {id}
    ensures Sum(Queues(b)) + QueueWeight(a[id].items) ==
            Sum(Queues(a)) + if id in b then QueueWeight(b[id].items) else 0
  {
    hide QueueWeight, Sum;
    assert Queues(a) - {id} == Queues(a - {id}) == Queues(b - {id}) == Queues(b) - {id};
    SumAt(Queues(a), id);
    if id in b { SumAt(Queues(b), id); } else { assert b - {id} == b; }
  }

  lemma AfterWriteOthers(l: Loopy, id: nat, checkWindow: bool)
    requires id in l.streams
    ensures var r := AfterWrite(l, id, checkWindow).l;
            r.streams - {id} == l.streams - {id} && (id in r.streams ==> r.streams[id].items == l.streams[id].items)
  {
    hide Cleanup;
    var items := l.streams[id].items;
    if items != [] && items[0].Trailer? {
      CleanupOthers(Write(l, HeadersFrame(id, items[0].fields, true)), id, items[0].rst);
    }
  }

  lemma CleanupOthers(l: Loopy, id: nat, rst: Option<nat>)
    ensures Cleanup(l, id, rst).l.streams == l.streams - {id}
  {
  }

  lemma ServeLoad(l: Loopy, id: nat, n: nat, checkWindow: bool)
    requires id in l.streams && l.streams[id].items != [] && l.streams[id].items[0].Data?
    requires n <= |l.streams[id].items[0].bytes| && n <= l.sendQuota && (n == 0 ==> l.streams[id].items[0].bytes == [])
    ensures id in Send(l, id, n).streams
    ensures Sum(Queues(AfterWrite(Send(l, id, n), id, checkWindow).l.streams)) < Sum(Queues(l.streams))
  {
    assert Send(l, id, n).streams - {id} == l.streams - {id};
    SendLightens(l, id, n);
    hide QueueWeight, Sum, Queues, Send, AfterWrite;
    AfterWriteOthers(Send(l, id, n), id, checkWindow);
    OneStream(l.streams, AfterWrite(Send(l, id, n), id, checkWindow).l.streams, id);
  }

  lemma SameQueue(streams: map<nat, Stream>, id: nat, state: State)
    requires id in streams
    ensures Queues(streams[id := streams[id].(state := state)]) == Queues(streams)
  {
  }

  /** A call of processData sends something, or takes a stream without window off the list. */
  lemma ProcessLoad(l: Loopy)
    requires LoopyInvariant.Inv(l) && !Idle(l)
    ensures Servable(l)
    ensures var r := ProcessData(l).l;
            || Sum(Queues(r.streams)) < Sum(Queues(l.streams))
            || (&& Sum(Queues(r.streams)) == Sum(Queues(l.streams)) && r.wire == l.wire
                && |r.active| < |l.active|)
  {
    hide LoopyInvariant.Inv, Send, AfterWrite, Sum, Queues, QueueWeight, Weight;
    LoopyInvariant.ProcessDataOk(l);
    FirstWeight(l);
    var id, bytes := l.active[0], l.streams[l.active[0]].items[0].bytes;
    var l0 := l.(active := l.active[1..]);
    if |bytes| == 0 {
      ServeLoad(l0, id, 0, false);
    } else if l.Window(id) > 0 {
      ServeLoad(l0, id, Min(Allowance(l, id), |bytes|), true);
    } else {
      SameQueue(l.streams, id, WaitingOnStreamQuota);
    }
  }

  // ---- Messages and frames ----

  /** A message changes no queue. */
  lemma MessageLoad(l: Loopy, m: Msg, order: seq<nat>)
    requires LoopyInvariant.Inv(l) && (m.Opening? ==> m.id !in l.streams)
    ensures Sum(Queues(Handle(l, ToCommand(m, order)).l.streams)) == Sum(Queues(l.streams))
  {
    hide Sum, Queues, LoopyInvariant.Inv, OnWindowUpdate;
    match m
    case Update(id, w) => UpdateQueues(l, id, w);
    case ConnUpdate(w) => UpdateQueues(l, 0, w);
    case Setting(v) => hide Handle; SettingQueues(l, v, order);
    case Opening(id) => OpenQueues(l.streams, id);
  }

  lemma UpdateQueues(l: Loopy, id: nat, w: nat)
    ensures Queues(OnWindowUpdate(l, id, w).streams) == Queues(l.streams)
  {
    hide QueueWeight;
  }

  lemma OpenQueues(streams: map<nat, Stream>, id: nat)
    requires id !in streams
    ensures Sum(Queues(streams[id := FRESH])) == Sum(Queues(streams))
  {
    hide Sum;
    assert Queues(streams[id := FRESH]) - {id} == Queues(streams);
    SumAt(Queues(streams[id := FRESH]), id);
  }

  lemma SettingQueues(l: Loopy, v: nat, order: seq<nat>)
    requires LoopyInvariant.Inv(l)
    ensures var r := Handle(l, IncomingSettings([InitialWindowSize(v, order)])).l;
            Queues(r.streams) == Queues(l.streams)
  {
    hide QueueWeight, ActivateWaiting;
    var s := InitialWindowSize(v, order);
    assert [s][1..] == [];
    assert ApplySettings(l, [s]) == ApplySettings(ApplySetting(l, s), []) == ApplySetting(l, s);
    assert LoopyInvariant.ListOk(l.(oiws := v));
    LoopyInvariant.ActivateWaitingOk(l.(oiws := v), order);
  }

  lemma ArriveLowers(s: System, order: seq<nat>)
    requires Good(s) && Useful(s, DeliverBack(order))
    ensures var t := After(s, DeliverBack(order)); t.delivered <= |t.l.wire| && Lighter(LoadOf(t), LoadOf(s))
  {
    hide Good, Sum, Queues, Handle, LoopyInvariant.Inv;
    FlowSafety.FrontFacts(s);
    MessageLoad(s.l, s.back[0], order);
    FlowSafety.MsgHandled(s.l, s.h, s.back[0], order);
  }

  lemma {:induction false} SettingsJoin(back: seq<Msg>, sent: seq<Msg>)
    requires forall i :: 0 <= i < |sent| ==> !sent[i].Setting?
    ensures Settings(back + sent) == Settings(back)
    decreases |back| + |sent|
  {
    if back != [] {
      assert (back + sent)[1..] == back[1..] + sent;
      SettingsJoin(back[1..], sent);
    } else if sent != [] {
      assert back + sent == sent && [] + sent[1..] == sent[1..];
      SettingsJoin([], sent[1..]);
    }
  }

  /** A reply of the receiver without settings. */
  lemma ReplyLoad(s: System, o: Outcome)
    requires forall i :: 0 <= i < |o.sent| ==> !o.sent[i].Setting?
    ensures var t := Replied(s, o);
            t.l == s.l && t.delivered == s.delivered && t.r == o.r && Settings(t.back) == Settings(s.back)
  {
    hide PushAll, Settings;
    PushAllBack(s, o.sent);
    SettingsJoin(s.back, o.sent);
  }

  lemma FrameLowers(s: System, probe: bool)
    requires Useful(s, DeliverFrame(probe))
    ensures var t := After(s, DeliverFrame(probe)); t.delivered <= |t.l.wire| && Lighter(LoadOf(t), LoadOf(s))
  {
    hide Sum, HandleData, Replied, Settings;
    var e := s.l.wire[s.delivered];
    if e.DataFrame? {
      FlowSafety.DataNames(s.r, e.id, |e.payload|, probe);
      ReplyLoad(s, HandleData(s.r, e.id, |e.payload|, 0, probe));
    }
  }

  lemma ReadLowers(s: System, id: nat, n: nat)
    requires Good(s) && Useful(s, ReadData(id, n))
    ensures var t := After(s, ReadData(id, n)); t.delivered <= |t.l.wire| && Lighter(LoadOf(t), LoadOf(s))
  {
    hide Good, Sum, Replied, Settings;
    FlowSafety.GoodStream(s, id);
    var f := s.r.streams[id];
    var o := UpdateWindow(s.r, id, n);
    ReplyLoad(s, o);
    assert FlowControl.Read(f, n).f.pendingData == f.pendingData - n;
    var a, b := Unread(s.r.streams), Unread(o.r.streams);
    assert a - {id} == b - {id};
    SumAt(a, id);
    SumAt(b, id);
  }

  lemma ProcessLowers(s: System)
    requires Good(s) && Useful(s, Process)
    ensures var t := After(s, Process); t.delivered <= |t.l.wire| && Lighter(LoadOf(t), LoadOf(s))
  {
    ProcessLoad(s.l);
    FlowSafety.MoveKeeps(s, Process);
    hide Sum, Settings, ProcessData, Queues;
  }

  /** Every useful move leaves less to do, in whatever order they come. */
  lemma MoveLowers(s: System, m: Move)
    requires Good(s) && Useful(s, m)
    ensures Good(After(s, m)) && Lighter(LoadOf(After(s, m)), LoadOf(s))
  {
    hide Good, Sum, Settings, Lighter, Receive, Replied, ProcessData;
    FlowSafety.MoveKeeps(s, m);
    match m
    case DeliverBack(order) => ArriveLowers(s, order);
    case DeliverFrame(probe) => FrameLowers(s, probe);
    case ReadData(id, n) => ReadLowers(s, id, n);
    case Process => ProcessLowers(s);
  }

  // ---- Rest ----

  lemma {:induction false} AllOf(ids: set<nat>) returns (order: seq<nat>)
    ensures forall id :: id in ids ==> id in order
    decreases |ids|
  {
    order := [];
    if ids != {} {
      var id :| id in ids;
      order := AllOf(ids - {id});
      order := [id] + order;
    }
  }

  /** There is a useful move unless the system is at rest. */
  lemma SomeMove(s: System) returns (m: Move)
    requires Good(s) && !AtRest(s)
    ensures Useful(s, m)
  {
    if s.back != [] {
      FlowSafety.FrontFacts(s);
      var order := AllOf(s.l.streams.Keys);
      m := DeliverBack(order);
    } else if s.delivered < |s.l.wire| {
      m := DeliverFrame(false);
    } else if id :| id in s.r.streams && s.r.streams[id].pendingData > 0 {
      m := ReadData(id, s.r.streams[id].pendingData);
    } else {
      LoopyInvariant.ProcessDataOk(s.l);
      m := Process;
    }
  }

  /** At rest exactly when no useful move is left. */
  lemma RestExactly(s: System)
    requires Good(s)
    ensures AtRest(s) <==> forall m :: !Useful(s, m)
  {
    if !AtRest(s) { var m := SomeMove(s); }
  }

  ghost predicate Usefuls(s: System, ms: seq<Move>)
    decreases |ms|
  {
    ms != [] ==> Useful(s, ms[0]) && Usefuls(After(s, ms[0]), ms[1..])
  }

  lemma {:induction false} UsefulsPossible(s: System, ms: seq<Move>)
    requires Usefuls(s, ms)
    ensures Possibles(s, ms)
    decreases |ms|
  {
    if ms != [] { UsefulsPossible(After(s, ms[0]), ms[1..]); }
  }

  /** Finitely many useful moves lead to rest. */
  lemma {:induction false} ReachesRest(s: System) returns (ms: seq<Move>)
    requires Good(s)
    ensures Usefuls(s, ms) && Possibles(s, ms) && AtRest(AfterAll(s, ms))
    decreases LoadOf(s).queued, LoadOf(s).settings, LoadOf(s).frames,
              LoadOf(s).unread, LoadOf(s).messages, LoadOf(s).active
  {
    ms := [];
    if !AtRest(s) {
      var m := SomeMove(s);
      MoveLowers(s, m);
      var rest := ReachesRest(After(s, m));
      ms := [m] + rest;
      assert ms[1..] == rest;
    }
  }

  /** So does every schedule that makes a useful move as long as there is one, and then no stream open at
      both ends has anything left to send. */
  lemma {:induction false} EverySchedule(run: nat -> System, pick: nat -> Move, k: nat) returns (n: nat)
    requires Good(run(k)) && Lean(run(k).r)
    requires forall i :: i >= k && !AtRest(run(i)) ==> Useful(run(i), pick(i)) && run(i + 1) == After(run(i), pick(i))
    ensures n >= k && AtRest(run(n)) && AllSent(run(n))
    decreases LoadOf(run(k)).queued, LoadOf(run(k)).settings, LoadOf(run(k)).frames,
              LoadOf(run(k)).unread, LoadOf(run(k)).messages, LoadOf(run(k)).active
  {
    hide Good, Lean, AtRest, Useful, After, LoadOf, AllSent;
    n := k;
    if AtRest(run(k)) {
      RestSent(run(k));
    } else {
      UsefulPossible(run(k), pick(k));
      MoveLowers(run(k), pick(k));
      MoveLean(run(k), pick(k));
      n := EverySchedule(run, pick, k + 1);
    }
  }

  lemma {:induction false} RunJoin(s: System, a: seq<Move>, b: seq<Move>)
    requires Possibles(s, a) && Possibles(AfterAll(s, a), b)
    ensures Possibles(s, a + b) && AfterAll(s, a + b) == AfterAll(AfterAll(s, a), b)
    decreases |a|
  {
    hide Possible, After;
    if a == [] {
      assert a + b == b;
    } else {
      assert (a + b)[1..] == a[1..] + b;
      RunJoin(After(s, a[0]), a[1..], b);
    }
  }

  /** Every run can be continued to rest by useful moves alone, and then no stream open at both ends has
      anything left to send. */
  lemma EverythingSent(server: bool, maxFrameSize: nat, ms: seq<Move>) returns (more: seq<Move>)
    requires maxFrameSize >= 1 && Possibles(Start(server, maxFrameSize), ms)
    ensures Usefuls(AfterAll(Start(server, maxFrameSize), ms), more)
    ensures Possibles(Start(server, maxFrameSize), ms + more)
    ensures var s := AfterAll(Start(server, maxFrameSize), ms + more); AtRest(s) && AllSent(s)
  {
    hide Possibles, AfterAll, Usefuls, AtRest, AllSent, Lean;
    var s := Start(server, maxFrameSize);
    FlowSafety.StartGood(server, maxFrameSize);
    StartLean(server, maxFrameSize);
    RunLean(s, ms);
    more := ReachesRest(AfterAll(s, ms));
    RunJoin(s, ms, more);
    NothingStuck(server, maxFrameSize, ms + more);
  }
}
