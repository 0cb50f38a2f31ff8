/** The write quota of a stream: one writer and the scheduler, each atomic operation a step. */
module WriteQuota {
  import opened Bits

  const DEFAULT_WRITE_QUOTA: int := 65536

  /** Where the writer is in Write: not in it, about to load the quota, about to subtract `size` after
      a load above zero, about to wait or waiting after a load that was not, about to queue the data. */
  datatype Writer = Idle | Loading(hdr: nat, data: nat) | Consuming(hdr: nat, data: nat)
    | Waiting(hdr: nat, data: nat) | Queueing(data: nat)

  /** `token` is the content of the channel, `sending` whether the scheduler is about to send to it;
      `queued` is data in the control buffer or in the scheduler, `lost` what was taken for headers. */
  datatype State = State(quota: int, token: bool, sending: bool, writer: Writer, queued: nat, lost: nat)

  const START: State := State(DEFAULT_WRITE_QUOTA, false, false, Idle, 0, 0)

  /** A signed 32-bit word. */
  function Signed32(x: int): int {
    var r := x % WORD;
    if r < WORD / 2 then r else r - WORD
  }

  datatype Step =
    | StartWrite(hdr: nat, data: nat)
    | Load
    | Consume
    | TakeToken
    | Queue
    | Replenish(n: nat)   // the scheduler puts `n` octets on the wire
    | SendToken

  predicate Possible(s: State, st: Step, max: nat) {
    match st
    case StartWrite(hdr, data) => s.writer == Idle && hdr + data <= max
    case Load => s.writer.Loading?
    case Consume => s.writer.Consuming?
    case TakeToken => s.writer.Waiting? && s.token
    case Queue => s.writer.Queueing?
    case Replenish(n) => !s.sending && 0 < n <= s.queued
    case SendToken => s.sending
  }

  /** waitOrConsumeQuota returns at once for nothing; otherwise it loads, and subtracts or waits.
      realReplenish adds, and sends when its addition made the quota positive. */
  function Do(s: State, st: Step): State {
    match st
    case StartWrite(hdr, data) => s.(writer := if hdr + data == 0 then Queueing(data) else Loading(hdr, data))
    case Load =>
      if !s.writer.Loading? then s
      else s.(writer := if s.quota > 0 then Consuming(s.writer.hdr, s.writer.data)
              else Waiting(s.writer.hdr, s.writer.data))
    case Consume =>
      if !s.writer.Consuming? then s
      else s.(quota := Signed32(s.quota - (s.writer.hdr + s.writer.data)), lost := s.lost + s.writer.hdr,
              writer := Queueing(s.writer.data))
    case TakeToken =>
      if !s.writer.Waiting? then s else s.(token := false, writer := Loading(s.writer.hdr, s.writer.data))
    case Queue => if !s.writer.Queueing? then s else s.(queued := s.queued + s.writer.data, writer := Idle)
    case Replenish(n) =>
      var a := Signed32(s.quota + n);
      var b := Signed32(a - n);
      s.(quota := a, sending := b <= 0 && a > 0, queued := if n <= s.queued then s.queued - n else 0)
    case SendToken => s.(sending := false, token := true)
  }

  predicate Run(s: State, steps: seq<Step>, max: nat)
    decreases |steps|
  {
    steps != [] ==> Possible(s, steps[0], max) && Run(Do(s, steps[0]), steps[1..], max)
  }

  function After(s: State, steps: seq<Step>): State
    decreases |steps|
  {
    if steps == [] then s else After(Do(s, steps[0]), steps[1..])
  }

  /** Data that Write has taken quota for and that is not on the wire. */
  function Unsent(s: State): nat {
    s.queued + if s.writer.Queueing? then s.writer.data else 0
  }

  predicate Inv(s: State, max: nat) {
    && s.quota + Unsent(s) + s.lost == DEFAULT_WRITE_QUOTA
    && -(max as int) < s.quota
    && (s.writer.Consuming? ==> s.quota > 0)
    && (s.writer.Waiting? && s.quota > 0 ==> s.token || s.sending)
    && (match s.writer
        case Idle => true
        case Queueing(data) => data <= max
        case w => 0 < w.hdr + w.data <= max)
  }

  lemma Fits(x: int)
    requires -0x8000_0000 <= x < 0x8000_0000
    ensures Signed32(x) == x
  {
  }

  lemma StepKeeps(s: State, st: Step, max: nat)
    requires Inv(s, max) && Possible(s, st, max) && 0 < max <= 0x7fff_ffff
    ensures Inv(Do(s, st), max)
  {
    match st {
      case Consume => Fits(s.quota - (s.writer.hdr + s.writer.data));
      case Replenish(n) =>
        Fits(s.quota + n);
        Fits(s.quota);
      case _ =>
    }
    hide Signed32;
  }

  lemma {:induction false} RunKeeps(s: State, steps: seq<Step>, max: nat)
    requires Inv(s, max) && Run(s, steps, max) && 0 < max <= 0x7fff_ffff
    ensures Inv(After(s, steps), max)
    decreases |steps|
  {
    hide Inv, Do, Possible;
    if steps != [] {
      StepKeeps(s, steps[0], max);
      RunKeeps(Do(s, steps[0]), steps[1..], max);
    }
  }

  // ---- What the calls lose ----

  /** A write that has not taken its quota yet. */
  predicate Unpaid(s: State) {
    s.writer.Loading? || s.writer.Consuming? || s.writer.Waiting?
  }

  /** The calls of Write, in order. */
  function Calls(steps: seq<Step>): (r: seq<Step>)
    ensures forall i :: 0 <= i < |r| ==> r[i].StartWrite?
  {
    if steps == [] then [] else (if steps[0].StartWrite? then [steps[0]] else []) + Calls(steps[1..])
  }

  /** The calls that have taken their quota: all but the one that is still to take it. */
  function PaidCalls(steps: seq<Step>): (r: seq<Step>)
    ensures forall i :: 0 <= i < |r| ==> r[i].StartWrite?
  {
    var calls := Calls(steps);
    if Unpaid(After(START, steps)) && calls != [] then calls[..|calls| - 1] else calls
  }

  function HeaderOctets(calls: seq<Step>): nat
    requires forall i :: 0 <= i < |calls| ==> calls[i].StartWrite?
  {
    if calls == [] then 0 else calls[0].hdr + HeaderOctets(calls[1..])
  }

  function UnpaidHeader(s: State): nat {
    if Unpaid(s) then s.writer.hdr else 0
  }

  lemma StepLaw(s: State, st: Step, max: nat)
    requires Possible(s, st, max)
    ensures var t := Do(s, st);
            t.lost + UnpaidHeader(t) == s.lost + UnpaidHeader(s) + if st.StartWrite? then st.hdr else 0
  {
    hide Signed32;
  }

  /** Over any run: what is lost, and what the unpaid call will lose, are the header parts of the calls. */
  lemma {:induction false} HeaderLaw(s: State, steps: seq<Step>, max: nat)
    requires Run(s, steps, max)
    ensures var t := After(s, steps);
            t.lost + UnpaidHeader(t) == s.lost + UnpaidHeader(s) + HeaderOctets(Calls(steps))
    decreases |steps|
  {
    if steps != [] {
      hide Do, Possible;
      var st := steps[0];
      StepLaw(s, st, max);
      HeaderLaw(Do(s, st), steps[1..], max);
      if st.StartWrite? {
        assert Calls(steps)[1..] == Calls(steps[1..]);
      } else {
        assert Calls(steps) == Calls(steps[1..]);
      }
    }
  }

  /** The unpaid call is the last one. */
  lemma {:induction false} UnpaidIsLast(s: State, steps: seq<Step>, max: nat)
    requires Run(s, steps, max) && Unpaid(After(s, steps))
    ensures var calls := Calls(steps); var h := UnpaidHeader(After(s, steps));
            if calls == [] then Unpaid(s) && h == UnpaidHeader(s) else h == calls[|calls| - 1].hdr
    decreases |steps|
  {
    if steps != [] {
      var st := steps[0];
      UnpaidIsLast(Do(s, st), steps[1..], max);
      if Calls(steps[1..]) == [] {
        assert st.StartWrite? ==> UnpaidHeader(Do(s, st)) == st.hdr;
        assert !st.StartWrite? ==> Unpaid(s) && UnpaidHeader(Do(s, st)) == UnpaidHeader(s) by { hide Signed32; }
      }
    }
  }

  lemma {:induction false} HeaderOctetsInit(calls: seq<Step>)
    requires calls != [] && forall i :: 0 <= i < |calls| ==> calls[i].StartWrite?
    ensures HeaderOctets(calls) == HeaderOctets(calls[..|calls| - 1]) + calls[|calls| - 1].hdr
    decreases |calls|
  {
    if |calls| > 1 {
      var rest := calls[1..];
      HeaderOctetsInit(rest);
      assert rest[..|rest| - 1] == calls[..|calls| - 1][1..];
    }
  }

  lemma {:induction false} NoHeaderOctets(calls: seq<Step>)
    requires forall i :: 0 <= i < |calls| ==> calls[i].StartWrite?
    ensures HeaderOctets(calls) == 0 <==> forall i :: 0 <= i < |calls| ==> calls[i].hdr == 0
    decreases |calls|
  {
    if calls != [] {
      var rest := calls[1..];
      NoHeaderOctets(rest);
      assert forall i :: 0 <= i < |rest| ==> rest[i] == calls[i + 1];
      if HeaderOctets(calls) == 0 {
        forall i | 0 <= i < |calls| ensures calls[i].hdr == 0 {
          if i > 0 { assert rest[i - 1] == calls[i]; }
        }
      }
    }
  }

  /** What is lost are the header parts of the calls that have taken their quota. */
  lemma LostIs(steps: seq<Step>, max: nat)
    requires Run(START, steps, max)
    ensures After(START, steps).lost == HeaderOctets(PaidCalls(steps))
  {
    hide Run, After, HeaderOctets;
    HeaderLaw(START, steps, max);
    if Unpaid(After(START, steps)) {
      UnpaidIsLast(START, steps, max);
      HeaderOctetsInit(Calls(steps));
    }
  }

  /** A token is sent exactly for the addition that makes the quota positive. */
  lemma TokenDue(s: State, n: nat)
    requires -0x8000_0000 <= s.quota && s.quota + n < 0x8000_0000
    ensures Do(s, Replenish(n)).quota == s.quota + n
    ensures Do(s, Replenish(n)).sending <==> s.quota <= 0 < s.quota + n
  {
    Fits(s.quota + n);
    Fits(s.quota);
  }

  /** In every interleaving: quota and unsent data make up the whole quota, less the header parts of the
      calls that have taken theirs, so exactly when none of those had a header part; the quota stays
      above minus the largest write; and a writer that waits while there is quota has its token waiting
      or about to be sent. */
  lemma WriteQuotaSafe(steps: seq<Step>, max: nat)
    requires Run(START, steps, max) && 0 < max <= 0x7fff_ffff
    ensures var s := After(START, steps); var paid := PaidCalls(steps);
            && s.quota + Unsent(s) == 65536 - HeaderOctets(paid)
            && (s.quota + Unsent(s) == 65536 <==> forall i :: 0 <= i < |paid| ==> paid[i].hdr == 0)
            && s.quota > -(max as int)
            && (s.writer.Waiting? && s.quota > 0 ==> s.token || s.sending)
  {
    hide Run, After, HeaderOctets, PaidCalls;
    RunKeeps(START, steps, max);
    LostIs(steps, max);
    NoHeaderOctets(PaidCalls(steps));
  }

  /** A write with a header part takes quota that is never given back. */
  lemma HeadersLose()
    ensures var t := Do(Do(Do(Do(Do(START, StartWrite(5, 10)), Load), Consume), Queue), Replenish(10));
            t.quota == DEFAULT_WRITE_QUOTA - 5 && Unsent(t) == 0
  {
    var s1 := Do(START, StartWrite(5, 10));
    var s2 := Do(s1, Load);
    assert s2.writer == Consuming(5, 10);
    var s3 := Do(s2, Consume);
    Fits(s2.quota - 15);
    Fits(s2.quota - 5);
    var s4 := Do(s3, Queue);
    assert s4.queued == 10 && s4.quota == DEFAULT_WRITE_QUOTA - 15;
  }

  // ---- The object ----

  /** The counter; each method is one atomic operation, or two with nothing in between. */
  class Quota {
    var quota: int

    constructor ()
      ensures quota == START.quota
    {
      quota := DEFAULT_WRITE_QUOTA;
    }

    /** One round of waitOrConsumeQuota: it loads the quota and, if that is positive, subtracts. */
    method TryConsume(hdr: nat, data: nat, ghost s: State) returns (ok: bool)
      requires s.quota == quota && s.writer == Loading(hdr, data)
      modifies this
      ensures var t := Do(s, Load);
              if ok then t.writer.Consuming? && quota == Do(t, Consume).quota else t.writer.Waiting? && quota == t.quota
    {
      if quota > 0 {
        quota := Signed32(quota - (hdr + data));
        return true;
      }
      return false;
    }

    /** realReplenish: whether a token is to be sent. */
    method RealReplenish(n: nat, ghost s: State) returns (send: bool)
      requires s.quota == quota
      modifies this
      ensures quota == Do(s, Replenish(n)).quota && send == Do(s, Replenish(n)).sending
    {
      var a := Signed32(quota + n);
      quota := a;
      var b := Signed32(a - n);
      send := b <= 0 && a > 0;
    }
  }
}
