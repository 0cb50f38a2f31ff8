/** Graceful shutdown of a server: accepting streams, draining, and the GOAWAY frames, interleaved. */
module GoAway {
  /** Stream numbers on the wire have 31 bits. */
  const MAX_ID: nat := 0x7fff_ffff

  /** A queued goAway item. */
  datatype Item = Item(headsUp: bool, closeConn: bool)

  /** A stream is accepted or reset with an error code, or a GOAWAY goes out. */
  datatype Event = Accepted(id: nat) | Reset(id: nat, code: nat) | Sent(last: nat, final: bool)

  const PROTOCOL_ERROR: nat := 1
  const FRAME_SIZE_ERROR: nat := 6
  const REFUSED_STREAM: nat := 7

  /** `timers` are the goroutines that will queue the final goAway; `stopped` is the end of the writer. */
  datatype State = State(maxStreamID: nat, closing: bool, active: set<nat>, maxStreams: nat, draining: bool,
                         queue: seq<Item>, timers: nat, stopped: bool, log: seq<Event>)

  function Start(maxStreams: nat): State {
    State(0, false, {}, maxStreams, false, [], 0, false, [])
  }

  function Log(s: State, e: Event): State { s.(log := s.log + [e]) }

  /** operateAcceptHeaders: a truncated list is reset, and a number not above the last is an error. Otherwise
      the number is noted, even if the stream has a header that cannot be decoded, or the server is closing or
      full. */
  function Accept(s: State, id: nat, truncated: bool, headerError: bool): State {
    if truncated then Log(s, Reset(id, FRAME_SIZE_ERROR))
    else if id <= s.maxStreamID then s
    else
      var s1 := s.(maxStreamID := id);
      if headerError then Log(s1, Reset(id, PROTOCOL_ERROR))
      else if s.closing then s1
      else if |s.active| >= s.maxStreams then Log(s1, Reset(id, REFUSED_STREAM))
      else Log(s1.(active := s.active + {id}), Accepted(id))
  }

  function Drain(s: State): State {
    if s.draining then s else s.(draining := true, queue := s.queue + [Item(true, false)])
  }

  /** WriteGoAway drops the highest bit of the number. */
  function Wire(id: nat): nat {
    id % (MAX_ID + 1)
  }

  /** outgoingGoAwayHandler, when the writer takes the item. */
  function HandleGoAway(s: State, g: Item): State {
    if s.closing then s.(stopped := true)
    else if !g.headsUp then
      s.(closing := true, stopped := g.closeConn || s.active == {}, log := s.log + [Sent(Wire(s.maxStreamID), true)])
    else s.(timers := s.timers + 1, log := s.log + [Sent(Wire(0xffff_ffff), false)])
  }

  datatype Step =
    | AcceptStep(id: nat, truncated: bool, headerError: bool)
    | CloseStream(id: nat)
    | DrainStep
    | TooManyPings
    | Handle
    | Timer

  predicate Possible(s: State, st: Step) {
    match st
    case AcceptStep(id, _, _) => id <= MAX_ID
    case Handle => s.queue != [] && !s.stopped
    case Timer => s.timers > 0
    case _ => true
  }

  function Do(s: State, st: Step): State {
    match st
    case AcceptStep(id, truncated, headerError) => Accept(s, id, truncated, headerError)
    case CloseStream(id) => s.(active := s.active - {id})
    case DrainStep => Drain(s)
    case TooManyPings => s.(queue := s.queue + [Item(false, true)])
    case Handle => if s.queue == [] then s else HandleGoAway(s.(queue := s.queue[1..]), s.queue[0])
    case Timer => if s.timers == 0 then s else s.(timers := s.timers - 1, queue := s.queue + [Item(false, false)])
  }

  predicate Run(s: State, steps: seq<Step>)
    decreases |steps|
  {
    steps != [] ==> Possible(s, steps[0]) && Run(Do(s, steps[0]), steps[1..])
  }

  function After(s: State, steps: seq<Step>): State
    decreases |steps|
  {
    if steps == [] then s else After(Do(s, steps[0]), steps[1..])
  }

  // ---- The promises ----

  /** Accepted numbers strictly increase. */
  predicate AcceptsIncrease(log: seq<Event>) {
    forall i, j :: 0 <= i < j < |log| && log[i].Accepted? && log[j].Accepted? ==> log[i].id < log[j].id
  }

  /** A final GOAWAY covers every stream that was ever accepted, before it or after it. */
  predicate FinalCovers(log: seq<Event>) {
    forall i, j :: 0 <= i < |log| && 0 <= j < |log| && log[i].Sent? && log[i].final && log[j].Accepted? ==>
      log[j].id <= log[i].last
  }

  /** The numbers of successive GOAWAYs never increase, and none follows a final one. */
  predicate SentInOrder(log: seq<Event>) {
    forall i, j :: 0 <= i < j < |log| && log[i].Sent? && log[j].Sent? ==> log[j].last <= log[i].last && !log[i].final
  }

  predicate Inv(s: State) {
    && AcceptsIncrease(s.log) && FinalCovers(s.log) && SentInOrder(s.log)
    && s.maxStreamID <= MAX_ID
    && (forall i :: 0 <= i < |s.log| && s.log[i].Accepted? ==> s.log[i].id <= s.maxStreamID)
    && (forall i :: 0 <= i < |s.log| && s.log[i].Sent? ==> s.log[i].last <= MAX_ID && (s.log[i].final ==> s.closing))
    && (forall i :: 0 <= i < |s.log| && s.log[i].Sent? && !s.log[i].final ==> s.log[i].last == MAX_ID)
  }

  /** A new event that fits the log. */
  lemma Logged(log: seq<Event>, e: Event)
    requires AcceptsIncrease(log) && FinalCovers(log) && SentInOrder(log)
    requires e.Accepted? ==>
               forall i :: 0 <= i < |log| ==>
                 (log[i].Accepted? ==> log[i].id < e.id) && (log[i].Sent? ==> !log[i].final)
    requires e.Sent? ==>
               forall i :: 0 <= i < |log| ==>
                 && (log[i].Sent? ==> e.last <= log[i].last && !log[i].final)
                 && (log[i].Accepted? && e.final ==> log[i].id <= e.last)
    ensures AcceptsIncrease(log + [e]) && FinalCovers(log + [e]) && SentInOrder(log + [e])
  {
    var l := log + [e];
    assert forall i :: 0 <= i < |log| ==> l[i] == log[i];
  }

  lemma AcceptKeeps(s: State, id: nat, truncated: bool, headerError: bool)
    requires Inv(s) && id <= MAX_ID
    ensures Inv(Accept(s, id, truncated, headerError))
  {
    hide AcceptsIncrease, FinalCovers, SentInOrder;
    if truncated {
      Logged(s.log, Reset(id, FRAME_SIZE_ERROR));
    } else if id > s.maxStreamID && headerError {
      Logged(s.log, Reset(id, PROTOCOL_ERROR));
    } else if id > s.maxStreamID && !s.closing {
      Logged(s.log, if |s.active| >= s.maxStreams then Reset(id, REFUSED_STREAM) else Accepted(id));
    }
  }

  lemma HandleKeeps(s: State, g: Item)
    requires Inv(s)
    ensures Inv(HandleGoAway(s, g))
  {
    hide AcceptsIncrease, FinalCovers, SentInOrder;
    if !s.closing {
      Logged(s.log, if g.headsUp then Sent(Wire(0xffff_ffff), false) else Sent(Wire(s.maxStreamID), true));
    }
  }

  lemma StepKeeps(s: State, st: Step)
    requires Inv(s) && Possible(s, st)
    ensures Inv(Do(s, st))
  {
    hide AcceptsIncrease, FinalCovers, SentInOrder, Accept, HandleGoAway;
    match st
    case AcceptStep(id, truncated, headerError) => AcceptKeeps(s, id, truncated, headerError);
    case Handle => HandleKeeps(s.(queue := s.queue[1..]), s.queue[0]);
    case _ =>
  }

  lemma {:induction false} RunKeeps(s: State, steps: seq<Step>)
    requires Inv(s) && Run(s, steps)
    ensures Inv(After(s, steps))
    decreases |steps|
  {
    hide Inv, Do, Possible;
    if steps != [] {
      StepKeeps(s, steps[0]);
      RunKeeps(Do(s, steps[0]), steps[1..]);
    }
  }

  /** In every interleaving accepted numbers strictly increase, the final GOAWAY covers all accepted
      streams, the numbers of GOAWAYs never increase and none follows the final one. */
  lemma GoAwaySafe(maxStreams: nat, steps: seq<Step>)
    requires Run(Start(maxStreams), steps)
    ensures var log := After(Start(maxStreams), steps).log; AcceptsIncrease(log) && FinalCovers(log) && SentInOrder(log)
  {
    RunKeeps(Start(maxStreams), steps);
    hide Run, After, AcceptsIncrease, FinalCovers, SentInOrder;
  }

  // ---- What happens, in terms of what happened before ----

  /** The highest number of the header frames so far that were not truncated. */
  function Highest(steps: seq<Step>): nat {
    if steps == [] then 0
    else
      var h, st := Highest(steps[..|steps| - 1]), steps[|steps| - 1];
      if st.AcceptStep? && !st.truncated && st.id > h then st.id else h
  }

  predicate FinalSent(log: seq<Event>) {
    exists i :: 0 <= i < |log| && log[i].Sent? && log[i].final
  }

  function Count(log: seq<Event>, e: Event): nat {
    if log == [] then 0 else Count(log[..|log| - 1], e) + if log[|log| - 1] == e then 1 else 0
  }

  predicate Drained(steps: seq<Step>) {
    exists i :: 0 <= i < |steps| && steps[i].DrainStep?
  }

  /** What a step adds to the goAway items: the first drain a heads-up, too many pings and a timer that ran
      out one that is final. */
  function Queued(before: seq<Step>, st: Step): seq<Item> {
    match st
    case DrainStep => if Drained(before) then [] else [Item(true, false)]
    case TooManyPings => [Item(false, true)]
    case Timer => [Item(false, false)]
    case _ => []
  }

  function Requests(steps: seq<Step>): seq<Item> {
    if steps == [] then []
    else
      var before := steps[..|steps| - 1];
      Requests(before) + Queued(before, steps[|steps| - 1])
  }

  function Steps(steps: seq<Step>, st: Step): nat {
    if steps == [] then 0 else Steps(steps[..|steps| - 1], st) + if steps[|steps| - 1] == st then 1 else 0
  }

  function OpenAfter(open: set<nat>, st: Step, accepted: bool): set<nat> {
    match st
    case AcceptStep(id, _, _) => if accepted then open + {id} else open
    case CloseStream(id) => open - {id}
    case _ => open
  }

  predicate AcceptsIn(s: State, st: Step) {
    st.AcceptStep? && Do(s, st).log == s.log + [Accepted(st.id)]
  }

  /** The streams that were accepted and not closed since. */
  function Open(maxStreams: nat, steps: seq<Step>): set<nat> {
    if steps == [] then {}
    else
      var before, st := steps[..|steps| - 1], steps[|steps| - 1];
      OpenAfter(Open(maxStreams, before), st, AcceptsIn(After(Start(maxStreams), before), st))
  }

  lemma {:induction false} RunSnoc(s: State, steps: seq<Step>, st: Step)
    ensures After(s, steps + [st]) == Do(After(s, steps), st)
    ensures Run(s, steps + [st]) <==> Run(s, steps) && Possible(After(s, steps), st)
    decreases |steps|
  {
    hide Do, Possible;
    var all := steps + [st];
    if steps == [] {
      assert all[1..] == [];
    } else {
      assert all[1..] == steps[1..] + [st];
      RunSnoc(Do(s, steps[0]), steps[1..], st);
    }
  }

  /** The streams are what the steps so far make of them. */
  ghost predicate StreamHistory(maxStreams: nat, steps: seq<Step>, s: State) {
    && s.maxStreamID == Highest(steps) && s.active == Open(maxStreams, steps) && s.maxStreams == maxStreams
    && (s.draining <==> Drained(steps))
  }

  /** So are the items and timers. */
  ghost predicate ItemHistory(steps: seq<Step>, s: State) {
    && (s.closing <==> FinalSent(s.log))
    && Steps(steps, Handle) <= |Requests(steps)| && s.queue == Requests(steps)[Steps(steps, Handle)..]
    && s.timers + Steps(steps, Timer) == Count(s.log, Sent(MAX_ID, false))
  }

  ghost predicate History(maxStreams: nat, steps: seq<Step>, s: State) {
    StreamHistory(maxStreams, steps, s) && ItemHistory(steps, s)
  }

  lemma CountSnoc(log: seq<Event>, x: Event, e: Event)
    ensures Count(log + [x], e) == Count(log, e) + if x == e then 1 else 0
  {
    assert (log + [x])[..|log|] == log;
  }

  lemma FinalSnoc(log: seq<Event>, x: Event)
    ensures FinalSent(log + [x]) <==> FinalSent(log) || (x.Sent? && x.final)
  {
    var l := log + [x];
    assert l[|log|] == x;
    if FinalSent(log) {
      var i :| 0 <= i < |log| && log[i].Sent? && log[i].final;
      assert l[i] == log[i];
    }
  }

  lemma HistorySnoc(maxStreams: nat, steps: seq<Step>, st: Step)
    ensures var all := steps + [st]; var h := Highest(steps);
            && Highest(all) == (if st.AcceptStep? && !st.truncated && st.id > h then st.id else h)
            && (Drained(all) <==> Drained(steps) || st.DrainStep?)
            && (forall x :: Steps(all, x) == Steps(steps, x) + if st == x then 1 else 0)
            && Requests(all) == Requests(steps) + Queued(steps, st)
            && Open(maxStreams, all) ==
               OpenAfter(Open(maxStreams, steps), st, AcceptsIn(After(Start(maxStreams), steps), st))
  {
    hide AcceptsIn, After, OpenAfter, Queued;
    var all := steps + [st];
    assert all[..|all| - 1] == steps && all[|all| - 1] == st;
    if Drained(steps) {
      var i :| 0 <= i < |steps| && steps[i].DrainStep?;
      assert all[i] == steps[i];
    }
  }

  /** What happens to a header frame: a stream is accepted exactly when its list is whole, its number is above
      `highest`, its headers are good and the server is neither closing nor full; otherwise it is reset, for
      the first of these reasons, unless the number is old or the server is closing. */
  function Answer(id: nat, truncated: bool, headerError: bool, highest: nat, closing: bool, full: bool): seq<Event> {
    if !truncated && id > highest && !headerError && !closing && !full then [Accepted(id)]
    else if truncated then [Reset(id, 6)]
    else if id <= highest then []
    else if headerError then [Reset(id, 1)]
    else if closing then []
    else [Reset(id, 7)]
  }

  /** A goAway item waits for the writer. */
  predicate Pending(steps: seq<Step>) {
    Steps(steps, Handle) < |Requests(steps)|
  }

  /** What a step writes, in terms of the steps before it. */
  ghost predicate Writes(maxStreams: nat, before: seq<Step>, s: State, st: Step, t: State) {
    match st
    case AcceptStep(id, truncated, headerError) =>
      t.log == s.log + Answer(id, truncated, headerError, Highest(before), FinalSent(s.log),
                              |Open(maxStreams, before)| >= maxStreams)
    case Handle =>
      if FinalSent(s.log) || !Pending(before) then t.log == s.log
      else if Requests(before)[Steps(before, Handle)].headsUp then t.log == s.log + [Sent(MAX_ID, false)]
      else t.log == s.log + [Sent(Highest(before), true)]
    case _ => t.log == s.log
  }

  /** When the writer ends: at a goAway after the final one, or at the final one if the connection is to be
      closed or no stream is open. */
  ghost predicate Stops(maxStreams: nat, before: seq<Step>, s: State, st: Step, t: State) {
    if !st.Handle? || !Pending(before) then t.stopped == s.stopped
    else
      var g := Requests(before)[Steps(before, Handle)];
      if FinalSent(s.log) then t.stopped
      else if g.headsUp then t.stopped == s.stopped
      else t.stopped == (g.closeConn || Open(maxStreams, before) == {})
  }

  lemma StepWrites(maxStreams: nat, before: seq<Step>, s: State, st: Step)
    requires History(maxStreams, before, s) && s.maxStreamID <= MAX_ID && Possible(s, st)
    ensures st.Handle? ==> Pending(before)
    ensures Writes(maxStreams, before, s, st, Do(s, st)) && Stops(maxStreams, before, s, st, Do(s, st))
  {
    hide Highest, FinalSent, Open, Drained, Requests, Steps, Count;
  }

  lemma AcceptLogs(s: State, id: nat, truncated: bool, headerError: bool)
    ensures var t := Accept(s, id, truncated, headerError);
            && t == s.(maxStreamID := t.maxStreamID, active := t.active, log := t.log)
            && t.maxStreamID == (if !truncated && id > s.maxStreamID then id else s.maxStreamID)
            && (t.log == s.log || (t.log == s.log + [t.log[|s.log|]] && !t.log[|s.log|].Sent?))
            && t.active == (if t.log == s.log + [Accepted(id)] then s.active + {id} else s.active)
  {
  }

  lemma HandleLogs(s: State, g: Item)
    requires s.maxStreamID <= MAX_ID
    ensures var t := HandleGoAway(s, g);
            && t == s.(closing := t.closing, timers := t.timers, stopped := t.stopped, log := t.log)
            && (if s.closing then t.log == s.log else t.log == s.log + [t.log[|s.log|]] && t.log[|s.log|].Sent?)
            && (!s.closing ==> t.closing == t.log[|s.log|].final && (t.log[|s.log|].final <==> !g.headsUp))
            && (s.closing ==> t.closing)
            && t.timers == s.timers + (if !s.closing && t.log[|s.log|] == Sent(MAX_ID, false) then 1 else 0)
  {
  }

  lemma StepStreams(maxStreams: nat, before: seq<Step>, st: Step)
    requires var s := After(Start(maxStreams), before);
             StreamHistory(maxStreams, before, s) && s.maxStreamID <= MAX_ID && Possible(s, st)
    ensures StreamHistory(maxStreams, before + [st], Do(After(Start(maxStreams), before), st))
  {
    hide Highest, Open, Drained, Requests, Steps, After, Accept, HandleGoAway;
    var s := After(Start(maxStreams), before);
    HistorySnoc(maxStreams, before, st);
    if st.AcceptStep? { AcceptLogs(s, st.id, st.truncated, st.headerError); }
    if st.Handle? { HandleLogs(s.(queue := s.queue[1..]), s.queue[0]); }
  }

  lemma StepItems(maxStreams: nat, before: seq<Step>, s: State, st: Step)
    requires ItemHistory(before, s) && s.maxStreamID <= MAX_ID && Possible(s, st) && (s.draining <==> Drained(before))
    ensures ItemHistory(before + [st], Do(s, st))
  {
    hide FinalSent, Open, Highest, Drained, Requests, Steps, Count, Accept, HandleGoAway;
    var t := Do(s, st);
    HistorySnoc(maxStreams, before, st);
    if st.AcceptStep? { AcceptLogs(s, st.id, st.truncated, st.headerError); }
    if st.Handle? { HandleLogs(s.(queue := s.queue[1..]), s.queue[0]); }
    if t.log != s.log {
      var x := t.log[|s.log|];
      assert t.log == s.log + [x];
      CountSnoc(s.log, x, Sent(MAX_ID, false));
      FinalSnoc(s.log, x);
    }
  }

  lemma StepHistory(maxStreams: nat, before: seq<Step>, st: Step)
    requires var s := After(Start(maxStreams), before);
             History(maxStreams, before, s) && s.maxStreamID <= MAX_ID && Possible(s, st)
    ensures History(maxStreams, before + [st], Do(After(Start(maxStreams), before), st))
  {
    hide ItemHistory, Do, Possible, After, Drained, Highest, Open;
    StepStreams(maxStreams, before, st);
    StepItems(maxStreams, before, After(Start(maxStreams), before), st);
  }

  lemma {:induction false} HistoryHolds(maxStreams: nat, steps: seq<Step>)
    requires Run(Start(maxStreams), steps)
    ensures var s := After(Start(maxStreams), steps); History(maxStreams, steps, s) && s.maxStreamID <= MAX_ID
    decreases |steps|
  {
    hide History;
    RunKeeps(Start(maxStreams), steps);
    if steps == [] {
      StartHistory(maxStreams);
    } else {
      var before, st := steps[..|steps| - 1], steps[|steps| - 1];
      assert before + [st] == steps;
      RunSnoc(Start(maxStreams), before, st);
      HistoryHolds(maxStreams, before);
      StepHistory(maxStreams, before, st);
    }
  }

  lemma StartHistory(maxStreams: nat)
    ensures History(maxStreams, [], Start(maxStreams))
  {
  }

  /** In every run each step writes, and ends the writer, as what happened before it says: which streams are
      accepted and which are reset, and the number that each GOAWAY carries. */
  lemma GoAwayExactly(maxStreams: nat, before: seq<Step>, st: Step)
    requires Run(Start(maxStreams), before + [st])
    ensures st.Handle? ==> Pending(before)
    ensures var s, t := After(Start(maxStreams), before), After(Start(maxStreams), before + [st]);
            Writes(maxStreams, before, s, st, t) && Stops(maxStreams, before, s, st, t)
  {
    hide History, Writes, Stops, Run, After, Pending;
    RunSnoc(Start(maxStreams), before, st);
    HistoryHolds(maxStreams, before);
    StepWrites(maxStreams, before, After(Start(maxStreams), before), st);
  }

  // ---- The object ----

  class Server {
    var maxStreamID: nat
    var closing: bool
    var activeStreams: set<nat>
    const maxStreams: nat
    var draining: bool
    var controlBuf: seq<Item>
    var timers: nat
    var stopped: bool
    var log: seq<Event>

    function Value(): State
      reads this
    {
      State(maxStreamID, closing, activeStreams, maxStreams, draining, controlBuf, timers, stopped, log)
    }

    constructor (maxStreams: nat)
      ensures Value() == Start(maxStreams)
    {
      this.maxStreams := maxStreams;
      maxStreamID, closing, activeStreams, draining := 0, false, {}, false;
      controlBuf, timers, stopped, log := [], 0, false, [];
    }

    method OperateAcceptHeaders(id: nat, truncated: bool, headerError: bool)
      modifies this
      ensures Value() == Accept(old(Value()), id, truncated, headerError)
    {
      if truncated {
        log := log + [Reset(id, FRAME_SIZE_ERROR)];
        return;
      }
      if id <= maxStreamID {
        return;
      }
      maxStreamID := id;
      if headerError {
        log := log + [Reset(id, PROTOCOL_ERROR)];
        return;
      }
      if closing {
        return;
      }
      if |activeStreams| >= maxStreams {
        log := log + [Reset(id, REFUSED_STREAM)];
        return;
      }
      activeStreams := activeStreams + {id};
      log := log + [Accepted(id)];
    }

    method StartDrain()
      modifies this
      ensures Value() == Drain(old(Value()))
    {
      if draining {
        return;
      }
      draining := true;
      controlBuf := controlBuf + [Item(true, false)];
    }

    method OutgoingGoAway(g: Item)
      modifies this
      ensures Value() == HandleGoAway(old(Value()), g)
    {
      if closing {
        stopped := true;
        return;
      }
      if !g.headsUp {
        closing := true;
        var sid := maxStreamID;
        var closeConn := g.closeConn || activeStreams == {};
        log := log + [Sent(Wire(sid), true)];
        stopped := closeConn;
        return;
      }
      log := log + [Sent(Wire(0xffff_ffff), false)];
      timers := timers + 1;
    }
  }
}
