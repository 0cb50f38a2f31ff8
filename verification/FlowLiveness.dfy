/** Flow control does not deadlock: when everything sent has arrived and been read, every sender has
    window again, so nothing stays queued. */
module FlowLiveness {
  import opened Loopy
  import LoopyInvariant
  import LoopyFairness
  import opened LoopyLedger
  import opened FlowControl
  import opened FlowSender
  import opened FlowProtocol
  import FlowSafety

  /** Less than a quarter of a window is held back by the receiver. */
  predicate LeanStream(f: In) {
    f.limit >= 4 && f.pendingUpdate < f.limit / 4
  }

  ghost predicate Lean(r: Receiver) {
    && r.initialWindow >= 4 && r.fc.limit >= 4 && r.fc.unacked < r.fc.limit / 4
    && forall id :: id in r.streams ==> LeanStream(r.streams[id])
  }

  lemma ReadLean(f: In, n: nat)
    requires LeanStream(f)
    ensures LeanStream(Read(f, n).f)
  {
  }

  lemma AdjustLean(f: In, n: nat)
    requires LeanStream(f)
    ensures LeanStream(Adjust(f, n).f)
  {
  }

  lemma CountLean(fc: TrIn, n: nat, probe: bool)
    requires fc.limit >= 4
    ensures var g := CountData(fc, n, probe).0; g.limit == fc.limit && g.unacked < g.limit / 4
  {
  }

  lemma DataLean(r: Receiver, id: nat, n: nat, pad: nat, probe: bool)
    requires Lean(r)
    ensures Lean(HandleData(r, id, n, pad, probe).r)
  {
    hide CountData, FlowControl.Read, Within;
    CountLean(r.fc, n, probe);
    if id in r.streams {
      ReadLean(AddData(r.streams[id], n), pad);
    }
  }

  lemma RepliedReceiver(s: System, o: Outcome)
    ensures Replied(s, o).r == o.r
  {
  }

  lemma RaiseLean(r: Receiver, n: nat)
    requires Lean(r) && n >= r.initialWindow && n >= r.fc.limit
    requires forall id :: id in r.streams ==> r.streams[id].limit <= n
    ensures Lean(UpdateFlowControl(r, n).r)
  {
  }

  /** Every move keeps the receiver lean. */
  lemma MoveLean(s: System, m: Move)
    requires Good(s) && Possible(s, m) && Lean(s.r)
    ensures Lean(After(s, m).r)
  {
    hide Lean, Good, Own, HandleData, UpdateWindow, AdjustWindow, UpdateFlowControl, Replied, OpenStream;
    match m
    case Local(_) =>
    case Process =>
    case DeliverBack(_) =>
    case DeliverFrame(probe) =>
      var e := s.l.wire[s.delivered];
      if e.DataFrame? {
        RepliedReceiver(s, HandleData(s.r, e.id, |e.payload|, 0, probe));
        DataLean(s.r, e.id, |e.payload|, 0, probe);
      } else if e.HeadersFrame? {
        OpenLean(s.r, e.id);
      }
    case Open(id) => OpenLean(s.r, id);
    case Close(id) => CloseLean(s.r, id);
    case StopRead(id) => StopReadLean(s.r, id);
    case ReadData(id, n) =>
      RepliedReceiver(s, UpdateWindow(s.r, id, n));
      ReceiverLean(s.r, id, n);
    case AskWindow(id, n) =>
      RepliedReceiver(s, AdjustWindow(s.r, id, n));
      ReceiverLean(s.r, id, n);
    case Raise(n) =>
      RepliedReceiver(s, UpdateFlowControl(s.r, n));
      GoodLimits(s);
      RaiseLean(s.r, n);
  }

  lemma OpenLean(r: Receiver, id: nat)
    requires Lean(r)
    ensures Lean(OpenStream(r, id))
  {
  }

  lemma CloseLean(r: Receiver, id: nat)
    requires Lean(r)
    ensures Lean(r.(streams := r.streams - {id}))
  {
  }

  lemma StopReadLean(r: Receiver, id: nat)
    requires Lean(r)
    ensures Lean(r.(readClosed := r.readClosed + {id}))
  {
  }

  lemma ReceiverLean(r: Receiver, id: nat, n: nat)
    requires Lean(r) && id in r.streams
    ensures Lean(UpdateWindow(r, id, n).r) && Lean(AdjustWindow(r, id, n).r)
  {
    ReadLean(r.streams[id], n);
    AdjustLean(r.streams[id], n);
    hide LeanStream, FlowControl.Read, Adjust;
  }

  lemma GoodLimits(s: System)
    requires Good(s)
    ensures s.r.fc.limit == s.r.initialWindow
    ensures forall id :: id in s.r.streams ==> s.r.streams[id].limit == s.r.initialWindow
  {
    hide NamesOk, BackOk, GrantsOk, HeaderIds, WireOctets, Rising, Final, ConnTotal, LoopyInvariant.Inv, Ledger;
    hide Covered;
    forall id | id in s.r.streams ensures s.r.streams[id].limit == s.r.initialWindow {
      assert StreamOk(s, id);
    }
  }

  lemma {:induction false} RunLean(s: System, ms: seq<Move>)
    requires Good(s) && Lean(s.r) && Possibles(s, ms)
    ensures Good(AfterAll(s, ms)) && Lean(AfterAll(s, ms).r)
    ensures LegalBack(s.back) ==> LegalBack(AfterAll(s, ms).back)
    decreases |ms|
  {
    hide Good, Lean, Possible, After, LegalBack;
    if ms != [] {
      FlowSafety.MoveKeeps(s, ms[0]);
      MoveLean(s, ms[0]);
      if LegalBack(s.back) { MoveLegal(s, ms[0]); }
      RunLean(After(s, ms[0]), ms[1..]);
    }
  }

  // ---- Updates that the framer writes ----

  /** Every window update on its way has an increment that a WINDOW_UPDATE frame can carry. */
  ghost predicate LegalBack(back: seq<Msg>) {
    forall i :: 0 <= i < |back| && (back[i].Update? || back[i].ConnUpdate?) ==> 1 <= back[i].w <= MAX_WINDOW
  }

  lemma PushLegal(s: System, o: Outcome)
    requires LegalBack(s.back) && LegalBack(o.sent)
    ensures LegalBack(Replied(s, o).back)
  {
    PushAllBack(s, o.sent);
    hide PushAll;
  }

  lemma CountLegal(fc: TrIn, n: nat, probe: bool)
    requires fc.unacked + n <= fc.limit <= MAX_WINDOW
    ensures LegalBack(CountData(fc, n, probe).1)
  {
  }

  lemma DataLegal(s: System, probe: bool)
    requires Good(s) && s.delivered < |s.l.wire| && s.l.wire[s.delivered].DataFrame?
    ensures var e := s.l.wire[s.delivered]; LegalBack(HandleData(s.r, e.id, |e.payload|, 0, probe).sent)
  {
    hide Good, HandleData, CountData;
    var e := s.l.wire[s.delivered];
    ConnLaw(s);
    FlowSafety.DataFits(s, e.id);
    CountLegal(s.r.fc, |e.payload|, probe);
    FlowSafety.DataNames(s.r, e.id, |e.payload|, probe);
  }

  lemma StreamLegal(s: System, id: nat, n: nat)
    requires Good(s) && Lean(s.r) && id in s.r.streams
    ensures LegalBack(AdjustWindow(s.r, id, n).sent)
    ensures n <= s.r.streams[id].pendingData ==> LegalBack(UpdateWindow(s.r, id, n).sent)
  {
    hide Good;
    FlowSafety.GoodStream(s, id);
    assert LeanStream(s.r.streams[id]);
    if n <= s.r.streams[id].pendingData { ReadUpdate(s.r.streams[id], n); }
    hide FlowControl.Read;
  }

  /** Every move keeps them so. */
  lemma MoveLegal(s: System, m: Move)
    requires Good(s) && Possible(s, m) && Lean(s.r) && LegalBack(s.back)
    ensures LegalBack(After(s, m).back)
  {
    hide Lean, Good, Own, HandleData, UpdateWindow, AdjustWindow, Replied;
    match m
    case DeliverFrame(probe) =>
      var e := s.l.wire[s.delivered];
      if e.DataFrame? {
        DataLegal(s, probe);
        PushLegal(s, HandleData(s.r, e.id, |e.payload|, 0, probe));
      }
    case ReadData(id, n) =>
      StreamLegal(s, id, n);
      PushLegal(s, UpdateWindow(s.r, id, n));
    case AskWindow(id, n) =>
      StreamLegal(s, id, n);
      PushLegal(s, AdjustWindow(s.r, id, n));
    case Raise(n) =>
      GoodLimits(s);
      PushLegal(s, UpdateFlowControl(s.r, n));
    case _ =>
  }

  /** In every run of the two ends, every WINDOW_UPDATE on its way has an increment in 1..2^31-1. */
  lemma UpdatesLegal(server: bool, maxFrameSize: nat, ms: seq<Move>)
    requires maxFrameSize >= 1 && Possibles(Start(server, maxFrameSize), ms)
    ensures LegalBack(AfterAll(Start(server, maxFrameSize), ms).back)
  {
    hide Possibles, Lean, After, AfterAll;
    FlowSafety.StartGood(server, maxFrameSize);
    StartLean(server, maxFrameSize);
    RunLean(Start(server, maxFrameSize), ms);
  }

  // ---- Rest ----

  /** Nothing is on its way, the application has read all there is, and the scheduler has nothing to do. */
  ghost predicate AtRest(s: System) {
    && s.back == [] && s.delivered == |s.l.wire| && Idle(s.l)
    && forall id :: id in s.r.streams ==> s.r.streams[id].pendingData == 0
  }

  /** With everything read, more than three quarters of each window are back with the sender. */
  lemma WindowReturns(s: System, id: nat)
    requires Good(s) && Lean(s.r) && s.back == [] && s.delivered == |s.l.wire|
    ensures 4 * s.l.sendQuota > 3 * s.r.fc.limit
    ensures id in s.l.streams && id in s.r.streams && s.r.streams[id].pendingData == 0 ==>
              4 * s.l.Window(id) > 3 * s.r.streams[id].limit
  {
    ConnLaw(s);
    assert s.l.wire[..s.delivered] == s.l.wire;
    if id in s.l.streams && id in s.r.streams {
      StreamLaw(s, id);
      assert LeanStream(s.r.streams[id]);
    }
    hide Good;
  }

  lemma StartLean(server: bool, maxFrameSize: nat)
    ensures Lean(Start(server, maxFrameSize).r)
  {
  }

  /** No stream open at both ends has anything left to send. */
  ghost predicate AllSent(s: System) {
    forall id :: id in s.l.streams && id in s.r.streams ==> s.l.streams[id].items == []
  }

  lemma RestSent(s: System)
    requires Good(s) && Lean(s.r) && AtRest(s)
    ensures AllSent(s)
  {
    hide Lean, NamesOk, BackOk, GrantsOk, StreamsOk, ConnOk, LimitsOk;
    forall id | id in s.l.streams && id in s.r.streams ensures s.l.streams[id].items == [] {
      if s.l.streams[id].items != [] {
        WindowReturns(s, id);
        LimitPositive(s, id);
        LoopyFairness.NoStrandedStream(s.l, id);
        assert false;
      }
    }
  }

  /** Every run that comes to rest has sent everything. */
  lemma NothingStuck(server: bool, maxFrameSize: nat, ms: seq<Move>)
    requires maxFrameSize >= 1 && Possibles(Start(server, maxFrameSize), ms)
    ensures var s := AfterAll(Start(server, maxFrameSize), ms); AtRest(s) ==> AllSent(s)
  {
    hide Good, Possibles, Lean, After, AfterAll, AtRest, AllSent;
    var s := AfterAll(Start(server, maxFrameSize), ms);
    FlowSafety.StartGood(server, maxFrameSize);
    StartLean(server, maxFrameSize);
    RunLean(Start(server, maxFrameSize), ms);
    if AtRest(s) { RestSent(s); }
  }

  lemma LimitPositive(s: System, id: nat)
    requires Lean(s.r) && id in s.r.streams
    ensures s.r.streams[id].limit > 0 && s.r.fc.limit > 0
  {
    assert LeanStream(s.r.streams[id]);
  }
}
