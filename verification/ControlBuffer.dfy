/** The control buffer: many producers and one consumer around a mutex, a one-place wake-up channel and
    throttle channels. Critical sections are single steps; what happens outside the mutex is a step of
    its own, in any interleaving. */
module ControlBuffer {
  import opened Bits

  const MAX_RESPONSES: nat := 50

  /** A control item: whether it is a response to the peer, and whether it is a header frame. */
  datatype Item = Item(response: bool, header: bool)

  /** Where the consumer is: outside get, waiting in its select, or gone. */
  datatype Consumer = Running | Blocked | Stopped

  /** `token` is the content of the wake-up channel, `sends` the producers that are about to send to
      it; `trfChan` is the throttle channel and `closes` how often each channel made was closed. */
  datatype State = State(list: seq<Item>, consumerWaiting: bool, token: bool, sends: nat, consumer: Consumer,
                         finished: bool, responses: int, trfChan: Option<nat>, closes: seq<nat>, orphans: seq<Item>)

  const START: State := State([], false, false, 0, Running, false, 0, None, [], [])

  // ---- The critical sections ----

  function Close(s: State): State {
    match s.trfChan
    case None => s
    case Some(c) =>
      if c < |s.closes| then s.(closes := s.closes[c := s.closes[c] + 1], trfChan := None) else s.(trfChan := None)
  }

  /** executeAndPut up to the unlock. */
  function Put(s: State, it: Item): State {
    if s.finished then s
    else
      var s1 := if s.consumerWaiting then s.(consumerWaiting := false, sends := s.sends + 1) else s;
      var s2 := s1.(list := s.list + [it]);
      if !it.response then s2
      else if s.responses + 1 == MAX_RESPONSES then
        s2.(responses := s.responses + 1, trfChan := Some(|s.closes|), closes := s.closes + [0])
      else s2.(responses := s.responses + 1)
  }

  datatype Got = Taken(it: Item) | Nothing | Waiting | Ended

  /** One round of get up to the unlock. */
  function Get(s: State, block: bool): (State, Got) {
    if s.finished then (s.(consumer := Stopped), Ended)
    else if s.list != [] then
      var it := s.list[0];
      var s1 := s.(list := s.list[1..]);
      (if !it.response then s1
       else (if s.responses == MAX_RESPONSES then Close(s1) else s1).(responses := s.responses - 1), Taken(it))
    else if !block then (s, Nothing)
    else (s.(consumerWaiting := true, consumer := Blocked), Waiting)
  }

  function Orphans(list: seq<Item>): seq<Item> {
    if list == [] then [] else (if list[0].header then [list[0]] else []) + Orphans(list[1..])
  }

  function Finish(s: State): State {
    if s.finished then s
    else Close(s.(finished := true, list := [], orphans := s.orphans + Orphans(s.list))).(trfChan := None)
  }

  // ---- Steps ----

  datatype Step =
    | PutStep(it: Item)
    | SendStep      // a producer's send on the wake-up channel
    | GetStep(block: bool)
    | WakeStep      // the consumer's select takes the token
    | DoneStep      // the consumer's select sees the end of the connection
    | FinishStep

  predicate Possible(s: State, st: Step) {
    match st
    case SendStep => s.sends > 0
    case GetStep(_) => s.consumer == Running
    case WakeStep => s.consumer == Blocked && s.token
    case DoneStep => s.consumer == Blocked && s.finished
    case _ => true
  }

  function Do(s: State, st: Step): State {
    match st
    case PutStep(it) => Put(s, it)
    case SendStep => if s.sends > 0 then s.(sends := s.sends - 1, token := true) else s
    case GetStep(block) => Get(s, block).0
    case WakeStep => s.(token := false, consumer := Running)
    case DoneStep => s.(consumer := Stopped)
    case FinishStep => Finish(s)
  }

  predicate Run(s: State, steps: seq<Step>)
    decreases |steps|
  {
    steps != [] ==> Possible(s, steps[0]) && Run(Do(s, steps[0]), steps[1..])
  }

  function After(s: State, steps: seq<Step>): State
    decreases |steps|
  {
    if steps == [] then s else After(Do(s, steps[0]), steps[1..])
  }

  // ---- The invariant ----

  function Responses(list: seq<Item>): nat {
    if list == [] then 0 else (if list[0].response then 1 else 0) + Responses(list[1..])
  }

  function Bit(b: bool): nat { if b then 1 else 0 }

  /** There is exactly one wake-up for a consumer that waits, in one of three places, and none for one
      that does not. */
  predicate WakeOk(s: State) {
    var wakeUps := Bit(s.consumerWaiting) + s.sends + Bit(s.token);
    && (s.consumer == Running ==> wakeUps == 0)
    && (s.consumer == Blocked ==> wakeUps == 1)
    && (s.consumer == Stopped ==> wakeUps <= 1 && s.finished)
    && (s.consumerWaiting ==> s.list == [])
  }

  /** The count is exact and the channel exists from the fiftieth response on. */
  predicate ThrottleOk(s: State) {
    && (!s.finished ==> s.responses == Responses(s.list) && (s.trfChan.Some? <==> s.responses >= MAX_RESPONSES))
    && (s.finished ==> s.trfChan.None? && s.list == [])
  }

  /** The current channel, if any, is the newest and is open; all others have been closed once. */
  predicate ChannelsOk(s: State) {
    && (s.trfChan.Some? ==> |s.closes| > 0 && s.trfChan.value == |s.closes| - 1)
    && (forall i :: 0 <= i < |s.closes| ==> s.closes[i] == if s.trfChan == Some(i) then 0 else 1)
  }

  predicate Inv(s: State) {
    WakeOk(s) && ThrottleOk(s) && ChannelsOk(s)
  }

  lemma {:induction false} ResponsesSnoc(list: seq<Item>, it: Item)
    ensures Responses(list + [it]) == Responses(list) + Bit(it.response)
    decreases |list|
  {
    var l := list + [it];
    if list == [] {
      assert l[1..] == [];
    } else {
      assert l[1..] == list[1..] + [it];
      ResponsesSnoc(list[1..], it);
    }
  }

  lemma PutKeeps(s: State, it: Item)
    requires Inv(s)
    ensures Inv(Put(s, it))
  {
    ResponsesSnoc(s.list, it);
    hide Responses;
  }

  lemma GetKeeps(s: State, block: bool)
    requires Inv(s) && s.consumer == Running
    ensures Inv(Get(s, block).0)
  {
  }

  lemma FinishKeeps(s: State)
    requires Inv(s)
    ensures Inv(Finish(s))
  {
  }

  /** The send of a producer always finds the channel empty: the wake-up is never dropped. */
  lemma SendFinds(s: State)
    requires Inv(s) && s.sends > 0
    ensures !s.token && s.sends == 1 && !s.consumerWaiting && s.consumer != Running
  {
  }

  lemma StepKeeps(s: State, st: Step)
    requires Inv(s) && Possible(s, st)
    ensures Inv(Do(s, st))
  {
    hide Put, Get, Finish, Responses;
    match st
    case PutStep(it) => PutKeeps(s, it);
    case GetStep(block) => GetKeeps(s, block);
    case FinishStep => FinishKeeps(s);
    case _ =>
  }

  lemma {:induction false} RunKeeps(s: State, steps: seq<Step>)
    requires Inv(s) && Run(s, steps)
    ensures Inv(After(s, steps))
    decreases |steps|
  {
    hide Inv, Do, Possible;
    if steps != [] {
      StepKeeps(s, steps[0]);
      RunKeeps(Do(s, steps[0]), steps[1..]);
    }
  }

  /** In every interleaving: a consumer blocked on a list that is not empty has its wake-up waiting or
      about to be sent; until the end the count is exact and there is a throttle channel from fifty
      responses on; no channel is ever closed twice, and after the end none is open. */
  lemma ControlBufferSafe(steps: seq<Step>)
    requires Run(START, steps)
    ensures var s := After(START, steps);
            && (s.consumer == Blocked && s.list != [] ==> s.token || s.sends > 0)
            && (!s.finished ==> s.responses == Responses(s.list) && (s.trfChan.Some? <==> s.responses >= 50))
            && (forall i :: 0 <= i < |s.closes| ==> s.closes[i] <= 1)
            && (s.finished ==> s.trfChan.None? && forall i :: 0 <= i < |s.closes| ==> s.closes[i] == 1)
  {
    hide Run, After, Do, Responses, Inv;
    StartKeeps();
    RunKeeps(START, steps);
    InvMeans(After(START, steps));
  }

  lemma InvMeans(s: State)
    requires Inv(s)
    ensures s.consumer == Blocked && s.list != [] ==> s.token || s.sends > 0
    ensures !s.finished ==> s.responses == Responses(s.list) && (s.trfChan.Some? <==> s.responses >= MAX_RESPONSES)
    ensures forall i :: 0 <= i < |s.closes| ==> s.closes[i] <= 1
    ensures s.finished ==> s.trfChan.None? && forall i :: 0 <= i < |s.closes| ==> s.closes[i] == 1
  {
    hide Responses;
  }

  lemma StartKeeps()
    ensures Inv(START)
  {
  }

  // ---- Order ----

  /** The items put before the end. */
  function PutItems(steps: seq<Step>): seq<Item> {
    if steps == [] || steps[0].FinishStep? then []
    else (if steps[0].PutStep? then [steps[0].it] else []) + PutItems(steps[1..])
  }

  /** What the calls of get return: the item at the front, as long as there is one and it is not the end. */
  function TakenItems(s: State, steps: seq<Step>): seq<Item>
    decreases |steps|
  {
    if steps == [] then []
    else
      var first := if steps[0].GetStep? && !s.finished && s.list != [] then [s.list[0]] else [];
      first + TakenItems(Do(s, steps[0]), steps[1..])
  }

  function HeaderItems(list: seq<Item>): seq<Item> {
    if list == [] then []
    else
      var it := list[|list| - 1];
      HeaderItems(list[..|list| - 1]) + if it.header then [it] else []
  }

  lemma {:induction false} HeaderItemsCons(it: Item, list: seq<Item>)
    ensures HeaderItems([it] + list) == (if it.header then [it] else []) + HeaderItems(list)
    decreases |list|
  {
    var l := [it] + list;
    if list == [] {
      assert l[..|l| - 1] == [];
    } else {
      assert l[..|l| - 1] == [it] + list[..|list| - 1];
      HeaderItemsCons(it, list[..|list| - 1]);
    }
  }

  lemma {:induction false} OrphansAre(list: seq<Item>)
    ensures Orphans(list) == HeaderItems(list)
    decreases |list|
  {
    if list != [] {
      OrphansAre(list[1..]);
      HeaderItemsCons(list[0], list[1..]);
      assert list == [list[0]] + list[1..];
    }
  }

  lemma StepOrder(s: State, st: Step)
    requires !s.finished
    ensures var t := Do(s, st);
            if st.FinishStep? then t.finished && t.list == [] && t.orphans == s.orphans + HeaderItems(s.list)
            else
              && !t.finished && t.orphans == s.orphans
              && t.list == if st.PutStep? then s.list + [st.it]
                           else if st.GetStep? && s.list != [] then s.list[1..] else s.list
  {
    hide HeaderItems;
    OrphansAre(s.list);
  }

  lemma StepEnded(s: State, st: Step)
    requires s.finished
    ensures var t := Do(s, st); t.finished && t.list == s.list && t.orphans == s.orphans
  {
  }

  lemma {:induction false} EndedStays(s: State, steps: seq<Step>)
    requires s.finished
    ensures var t := After(s, steps); t.finished && t.list == s.list && t.orphans == s.orphans
    ensures TakenItems(s, steps) == []
    decreases |steps|
  {
    hide Do;
    if steps != [] {
      StepEnded(s, steps[0]);
      EndedStays(Do(s, steps[0]), steps[1..]);
    }
  }

  /** First in, first out: until the end what was taken and what is in the list is `all` that was put, in order;
      at the end the headers among the rest are reported. */
  ghost predicate InOrder(all: seq<Item>, taken: seq<Item>, orphans: seq<Item>, t: State) {
    if !t.finished then taken + t.list == all && t.orphans == orphans
    else taken <= all && t.list == [] && t.orphans == orphans + HeaderItems(all[|taken|..])
  }

  lemma OrderCons(got: seq<Item>, all: seq<Item>, taken: seq<Item>, orphans: seq<Item>, t: State)
    requires InOrder(all, taken, orphans, t)
    ensures InOrder(got + all, got + taken, orphans, t)
  {
    hide HeaderItems;
    if t.finished {
      assert (got + all)[|got + taken|..] == all[|taken|..];
    } else {
      assert got + taken + t.list == got + (taken + t.list);
    }
  }

  lemma {:induction false} OrderFrom(s: State, steps: seq<Step>)
    requires !s.finished
    ensures InOrder(s.list + PutItems(steps), TakenItems(s, steps), s.orphans, After(s, steps))
    decreases |steps|
  {
    hide Do, HeaderItems;
    if steps == [] {
      assert s.list + [] == s.list && [] + s.list == s.list;
    } else {
      var st, rest := steps[0], steps[1..];
      var t := Do(s, st);
      StepOrder(s, st);
      if st.FinishStep? {
        EndedStays(t, rest);
        assert s.list + [] == s.list && s.list[0..] == s.list;
      } else {
        hide InOrder, PutItems, TakenItems, After;
        OrderFrom(t, rest);
        var got := if st.GetStep? && s.list != [] then [s.list[0]] else [];
        OrderCons(got, t.list + PutItems(rest), TakenItems(t, rest), s.orphans, After(t, rest));
        QueueMoves(s, steps, t.list);
      }
    }
  }

  /** What a step other than the end takes and puts. */
  lemma QueueMoves(s: State, steps: seq<Step>, next: seq<Item>)
    requires !s.finished && steps != [] && !steps[0].FinishStep?
    requires next == if steps[0].PutStep? then s.list + [steps[0].it]
                     else if steps[0].GetStep? && s.list != [] then s.list[1..] else s.list
    ensures var got, t := if steps[0].GetStep? && s.list != [] then [s.list[0]] else [], Do(s, steps[0]);
            && got + (next + PutItems(steps[1..])) == s.list + PutItems(steps)
            && TakenItems(s, steps) == got + TakenItems(t, steps[1..])
            && After(s, steps) == After(t, steps[1..])
  {
    hide Do, PutItems, TakenItems, After;
    FirstStep(s, steps);
    var got := if steps[0].GetStep? && s.list != [] then [s.list[0]] else [];
    var put := if steps[0].PutStep? then [steps[0].it] else [];
    assert got + next == s.list + put;
    Regroup(got, next, s.list, put, PutItems(steps[1..]));
  }

  lemma FirstStep(s: State, steps: seq<Step>)
    requires !s.finished && steps != [] && !steps[0].FinishStep?
    ensures PutItems(steps) == (if steps[0].PutStep? then [steps[0].it] else []) + PutItems(steps[1..])
    ensures TakenItems(s, steps) ==
            (if steps[0].GetStep? && s.list != [] then [s.list[0]] else []) + TakenItems(Do(s, steps[0]), steps[1..])
    ensures After(s, steps) == After(Do(s, steps[0]), steps[1..])
  {
    hide Do;
  }

  lemma Regroup(a: seq<Item>, b: seq<Item>, c: seq<Item>, d: seq<Item>, rest: seq<Item>)
    requires a + b == c + d
    ensures a + (b + rest) == c + (d + rest)
  {
    assert a + (b + rest) == (a + b) + rest == (c + d) + rest == c + (d + rest);
  }

  /** In every interleaving the buffer is a queue: nothing put before the end is lost, doubled or overtaken. */
  lemma BufferOrder(steps: seq<Step>)
    ensures var s, put, taken := After(START, steps), PutItems(steps), TakenItems(START, steps);
            if !s.finished then taken + s.list == put && s.orphans == []
            else taken <= put && s.list == [] && s.orphans == HeaderItems(put[|taken|..])
  {
    hide After, HeaderItems;
    OrderFrom(START, steps);
    assert [] + PutItems(steps) == PutItems(steps);
  }

  /** What get answers: the front item as long as there is one before the end. */
  lemma GetAnswers(s: State, block: bool)
    ensures var got := Get(s, block).1;
            && (got.Taken? <==> !s.finished && s.list != []) && (got.Taken? ==> got.it == s.list[0])
            && (got.Ended? <==> s.finished) && (got.Waiting? <==> !s.finished && s.list == [] && block)
  {
  }

  // ---- The object ----

  /** The fields behind the mutex; each method is one critical section. */
  class Buffer {
    var list: seq<Item>
    var consumerWaiting: bool
    var err: bool
    var transportResponseFrames: int
    var trfChan: Option<nat>
    var closes: seq<nat>
    var orphaned: seq<Item>

    /** The state as the interleaved steps see it, with the channel and the consumer around the object. */
    ghost function Value(token: bool, sends: nat, consumer: Consumer): State
      reads this
    {
      State(list, consumerWaiting, token, sends, consumer, err, transportResponseFrames, trfChan, closes, orphaned)
    }

    constructor ()
      ensures Value(false, 0, Running) == START
    {
      list, consumerWaiting, err := [], false, false;
      transportResponseFrames, trfChan, closes, orphaned := 0, None, [], [];
    }

    /** `f` is what the function argument returns for the item, if one is given; it runs in the critical
        section, and the item is put only if it succeeds. */
    method ExecuteAndPut(f: Option<bool>, it: Item, ghost token: bool, ghost sends: nat, ghost consumer: Consumer)
      returns (ok: bool, wakeUp: bool)
      modifies this
      ensures ok <==> !old(err) && f != Some(false)
      ensures var s := old(Value(token, sends, consumer));
              Value(token, sends + Bit(wakeUp), consumer) == if f == Some(false) then s else Put(s, it)
    {
      ok, wakeUp := false, false;
      if err {
        return;
      }
      if f.Some? && !f.value {
        return;
      }
      ok := true;
      if consumerWaiting {
        wakeUp := true;
        consumerWaiting := false;
      }
      list := list + [it];
      if it.response {
        CountResponse();
      }
    }

    /** One more response frame is queued; with the last one allowed, readers are to wait. */
    method CountResponse()
      modifies this`transportResponseFrames, this`trfChan, this`closes
      ensures transportResponseFrames == old(transportResponseFrames) + 1
      ensures if transportResponseFrames == MAX_RESPONSES then
                trfChan == Some(|old(closes)|) && closes == old(closes) + [0]
              else trfChan == old(trfChan) && closes == old(closes)
    {
      transportResponseFrames := transportResponseFrames + 1;
      if transportResponseFrames == MAX_RESPONSES {
        trfChan := Some(|closes|);
        closes := closes + [0];
      }
    }

    method CloseThrottle()
      requires trfChan.Some? && trfChan.value < |closes|
      modifies this`closes, this`trfChan
      ensures trfChan == None && closes == old(closes)[old(trfChan).value := old(closes)[old(trfChan).value] + 1]
    {
      var ch := trfChan.value;
      closes := closes[ch := closes[ch] + 1];
      trfChan := None;
    }

    method TakeOrWait(block: bool, ghost token: bool, ghost sends: nat) returns (got: Got)
      requires Inv(Value(token, sends, Running))
      modifies this
      ensures var consumer := if got.Waiting? then Blocked else if got.Ended? then Stopped else Running;
              (Value(token, sends, consumer), got) == Get(old(Value(token, sends, Running)), block)
    {
      hide Responses;
      if err {
        return Ended;
      }
      if list != [] {
        var it := list[0];
        list := list[1..];
        if it.response {
          if transportResponseFrames == MAX_RESPONSES {
            CloseThrottle();
          }
          transportResponseFrames := transportResponseFrames - 1;
        }
        return Taken(it);
      }
      if !block {
        return Nothing;
      }
      consumerWaiting := true;
      return Waiting;
    }

    /** Takes out what is left, and tells the streams whose headers were not sent. */
    method DropAll()
      modifies this`list, this`orphaned
      ensures list == [] && orphaned == old(orphaned) + Orphans(old(list))
    {
      var all := list;
      list := [];
      for i := 0 to |all|
        invariant list == [] && orphaned + Orphans(all[i..]) == old(orphaned) + Orphans(all)
      {
        assert all[i..][1..] == all[i + 1..];
        if all[i].header {
          orphaned := orphaned + [all[i]];
        }
      }
      assert all[|all|..] == [] && orphaned + [] == orphaned;
    }

    method FinishAll(ghost token: bool, ghost sends: nat, ghost consumer: Consumer)
      requires Inv(Value(token, sends, consumer))
      modifies this
      ensures Value(token, sends, consumer) == Finish(old(Value(token, sends, consumer)))
    {
      hide Responses, Orphans;
      if err {
        return;
      }
      err := true;
      DropAll();
      if trfChan.Some? {
        CloseThrottle();
      }
      trfChan := None;
    }
  }
}
