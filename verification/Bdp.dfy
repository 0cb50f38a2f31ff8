/** The estimate of the bandwidth-delay product and the windows that follow it. Times are left out: the
    comparison of bandwidths is a parameter of each step. */
module Bdp {
  import opened Bits
  import opened FlowControl

  const BDP_LIMIT: nat := 0x100_0000

  datatype Est = Est(bdp: nat, sample: nat, isSent: bool)

  const START: Est := Est(65535, 0, false)

  /** add: the new estimator, and whether to send a probe. */
  function Add(e: Est, n: nat): (Est, bool) {
    if e.bdp == BDP_LIMIT then (e, false)
    else if !e.isSent then (e.(isSent := true, sample := n), true)
    else (e.(sample := Wrap(e.sample + n)), false)
  }

  /** The sample is at least 0.66 of the estimate. */
  predicate Grows(e: Est, isMax: bool) {
    100 * e.sample >= 66 * e.bdp && isMax && e.bdp != BDP_LIMIT
  }

  /** calculate: the window to use from now on, if it changes. */
  function Calculate(e: Est, isMax: bool): (Est, Option<nat>) {
    var e1 := e.(isSent := false);
    if Grows(e, isMax) then
      var b := Wrap(2 * e.sample);
      var c := if b > BDP_LIMIT then BDP_LIMIT else b;
      (e1.(bdp := c), Some(c))
    else (e1, None)
  }

  class Estimator {
    var bdp: nat
    var sample: nat
    var isSent: bool

    function Value(): Est
      reads this
    {
      Est(bdp, sample, isSent)
    }

    constructor ()
      ensures Value() == START
    {
      bdp, sample, isSent := 65535, 0, false;
    }

    method AddOctets(n: nat) returns (probe: bool)
      modifies this
      ensures (Value(), probe) == Add(old(Value()), n)
    {
      if bdp == BDP_LIMIT {
        return false;
      }
      if !isSent {
        isSent := true;
        sample := n;
        return true;
      }
      sample := Wrap(sample + n);
      return false;
    }

    method Acked(isMax: bool) returns (window: Option<nat>)
      modifies this
      ensures (Value(), window) == Calculate(old(Value()), isMax)
    {
      isSent := false;
      if 100 * sample >= 66 * bdp && isMax && bdp != BDP_LIMIT {
        bdp := Wrap(2 * sample);
        if bdp > BDP_LIMIT {
          bdp := BDP_LIMIT;
        }
        return Some(bdp);
      }
      return None;
    }
  }

  // ---- The connection window follows the estimate ----

  /** One end: its estimator, its connection ledger, the limits it set and the increments it sent for them. */
  datatype End = End(e: Est, fc: TrIn, limits: seq<nat>, increments: seq<nat>)

  datatype Step = Data(n: nat) | Ack(isMax: bool)

  /** Both ends start with the same estimate; a client has the default connection limit, a server twice that. */
  function NewEnd(limit: nat): End { End(START, TrIn(limit, 0), [], []) }

  const CLIENT_LIMIT: nat := 65535
  const SERVER_LIMIT: nat := 131070

  function Do(c: End, st: Step): End {
    match st
    case Data(n) => c.(e := Add(c.e, n).0)
    case Ack(isMax) =>
      var (e, w) := Calculate(c.e, isMax);
      match w
      case None => c.(e := e)
      case Some(n) =>
        var g := TrNewLimit(c.fc, n);
        End(e, g.f, c.limits + [n], c.increments + [g.w])
  }

  /** Samples stay below 2^31. */
  predicate Small(c: End) { c.e.sample < 0x8000_0000 }

  predicate Run(c: End, steps: seq<Step>)
    decreases |steps|
  {
    Small(c) && (steps != [] ==> Run(Do(c, steps[0]), steps[1..]))
  }

  function After(c: End, steps: seq<Step>): End
    decreases |steps|
  {
    if steps == [] then c else After(Do(c, steps[0]), steps[1..])
  }

  /** The least estimate after `k` updates, as long as it is below the limit. */
  function Least(k: nat): nat {
    if k == 0 then 65535 else (132 * Least(k - 1) + 99) / 100
  }

  lemma LeastNext(k: nat, v: nat)
    requires Least(k) == v
    ensures Least(k + 1) == (132 * v + 99) / 100
  {
  }

  /** Twenty updates reach the limit. */
  lemma LeastTwenty()
    ensures Least(20) >= BDP_LIMIT
  {
    hide Least;
    assert Least(0) == 65535 by { LeastZero(); }
    LeastNext(0, 65535);
    LeastNext(1, 86507);
    LeastNext(2, 114190);
    LeastNext(3, 150731);
    LeastNext(4, 198965);
    LeastNext(5, 262634);
    LeastNext(6, 346677);
    LeastNext(7, 457614);
    LeastNext(8, 604051);
    LeastNext(9, 797348);
    LeastNext(10, 1052500);
    LeastNext(11, 1389300);
    LeastNext(12, 1833876);
    LeastNext(13, 2420717);
    LeastNext(14, 3195347);
    LeastNext(15, 4217859);
    LeastNext(16, 5567574);
    LeastNext(17, 7349198);
    LeastNext(18, 9700942);
    LeastNext(19, 12805244);
  }

  lemma LeastZero()
    ensures Least(0) == 65535
  {
  }

  /** An increment that a WINDOW_UPDATE can carry. */
  predicate LegalIncrement(w: nat) { 1 <= w <= MAX_WINDOW }

  /** After its first update an end has its estimate as its limit, so only the first increment can be
      illegal, and is so exactly when it does not raise the limit that the end started with. */
  predicate Inv(c: End, start: nat) {
    && 65535 <= c.e.bdp <= BDP_LIMIT && |c.limits| == |c.increments|
    && (c.limits == [] ==> c.fc.limit == start && c.e.bdp == 65535)
    && (c.limits != [] ==> c.fc.limit == c.e.bdp && c.limits[0] > 65535)
    && (c.limits != [] ==> (LegalIncrement(c.increments[0]) <==> c.limits[0] > start))
    && (forall i :: 1 <= i < |c.increments| ==> LegalIncrement(c.increments[i]))
    && (c.e.bdp == BDP_LIMIT || c.e.bdp >= Least(|c.increments|))
    && |c.increments| <= 20 && (c.e.bdp != BDP_LIMIT ==> |c.increments| < 20)
  }

  /** An update strictly raises the estimate, by at least 32%, and never passes the limit. */
  lemma UpdateRaises(e: Est, isMax: bool)
    requires 0 < e.bdp <= BDP_LIMIT && e.sample < 0x8000_0000 && Calculate(e, isMax).1.Some?
    ensures var n := Calculate(e, isMax).1.value;
            && e.bdp < n <= BDP_LIMIT && Calculate(e, isMax).0.bdp == n
            && (n == BDP_LIMIT || 100 * n >= 132 * e.bdp)
  {
  }

  lemma StepKeeps(c: End, st: Step, start: nat)
    requires Inv(c, start) && Small(c) && start <= MAX_WINDOW
    ensures Inv(Do(c, st), start)
  {
    hide Least;
    if st.Ack? && Calculate(c.e, st.isMax).1.Some? {
      UpdateRaises(c.e, st.isMax);
      var k, n := |c.increments|, Calculate(c.e, st.isMax).1.value;
      LeastStep(k, c.e.bdp, n);
      if k == 19 { LeastTwenty(); }
      IncrementLegal(c.fc, n);
      hide Calculate, TrNewLimit, Wrap;
    }
  }

  lemma LeastStep(k: nat, was: nat, now: nat)
    requires was >= Least(k) && (now == BDP_LIMIT || 100 * now >= 132 * was)
    ensures now == BDP_LIMIT || now >= Least(k + 1)
  {
  }

  lemma {:induction false} RunKeeps(c: End, steps: seq<Step>, start: nat)
    requires Inv(c, start) && Run(c, steps) && start <= MAX_WINDOW
    ensures Inv(After(c, steps), start)
    decreases |steps|
  {
    hide Inv, Do, Small;
    if steps != [] {
      StepKeeps(c, steps[0], start);
      RunKeeps(Do(c, steps[0]), steps[1..], start);
    }
  }

  lemma StartKeeps(start: nat)
    ensures Inv(NewEnd(start), start)
  {
  }

  /** Every run of a client: at most twenty updates, the estimate within its limit and equal to the
      connection limit, and every increment a legal WINDOW_UPDATE. */
  lemma BdpBound(steps: seq<Step>)
    requires Run(NewEnd(CLIENT_LIMIT), steps)
    ensures var c := After(NewEnd(CLIENT_LIMIT), steps);
            && |c.increments| <= 20 && 65535 <= c.e.bdp <= BDP_LIMIT && c.fc.limit == c.e.bdp
            && forall i :: 0 <= i < |c.increments| ==> LegalIncrement(c.increments[i])
  {
    hide Run, After, LegalIncrement;
    StartKeeps(CLIENT_LIMIT);
    RunKeeps(NewEnd(CLIENT_LIMIT), steps, CLIENT_LIMIT);
  }

  /** Every run of a server: the same, except that its first increment is legal if and only if the first
      limit it sets is above the 131070 it started with. */
  lemma ServerBound(steps: seq<Step>)
    requires Run(NewEnd(SERVER_LIMIT), steps)
    ensures var c := After(NewEnd(SERVER_LIMIT), steps);
            && |c.increments| <= 20 && 65535 <= c.e.bdp <= BDP_LIMIT && |c.limits| == |c.increments|
            && (c.limits != [] ==>
                  c.fc.limit == c.e.bdp && (LegalIncrement(c.increments[0]) <==> c.limits[0] > SERVER_LIMIT))
            && forall i :: 1 <= i < |c.increments| ==> LegalIncrement(c.increments[i])
  {
    hide Run, After, LegalIncrement;
    StartKeeps(SERVER_LIMIT);
    RunKeeps(NewEnd(SERVER_LIMIT), steps, SERVER_LIMIT);
  }

  // ---- What the estimate is, in terms of what was received ----

  /** The octets of the current or, after an acknowledgement, of the last measurement, as a 32-bit word: those
      since the acknowledgement before. */
  function Sample(steps: seq<Step>): nat {
    if steps == [] then 0
    else
      var before, st := steps[..|steps| - 1], steps[|steps| - 1];
      match st
      case Ack(_) => Sample(before)
      case Data(n) => if Between(before) then n else (Sample(before) + n) % 0x1_0000_0000
  }

  /** No measurement is going on. */
  predicate Between(steps: seq<Step>) {
    steps == [] || steps[|steps| - 1].Ack?
  }

  /** The last limit set, or else the estimate at the start. */
  function Estimate(limits: seq<nat>): nat {
    if limits == [] then 65535 else limits[|limits| - 1]
  }

  /** The estimator is what the steps so far make of it, up to its limit of 16 MiB. */
  predicate Measured(start: nat, steps: seq<Step>, c: End) {
    && c.e.bdp == Estimate(c.limits) && c.fc.limit == (if c.limits == [] then start else Estimate(c.limits))
    && (c.e.bdp != 16777216 ==> (c.e.isSent <==> !Between(steps)) && c.e.sample == Sample(steps))
  }

  lemma {:induction false} RunSnoc(c: End, steps: seq<Step>, st: Step)
    ensures After(c, steps + [st]) == Do(After(c, steps), st)
    ensures Run(c, steps + [st]) <==> Run(c, steps) && Small(Do(After(c, steps), st))
    decreases |steps|
  {
    hide Do, Small;
    var all := steps + [st];
    if steps == [] {
      assert all[1..] == [];
      assert Run(Do(c, st), []) <==> Small(Do(c, st));
    } else {
      assert all[1..] == steps[1..] + [st];
      RunSnoc(Do(c, steps[0]), steps[1..], st);
    }
  }

  lemma SampleSnoc(steps: seq<Step>, st: Step)
    ensures Sample(steps + [st]) ==
            if st.Ack? then Sample(steps) else if Between(steps) then st.n else (Sample(steps) + st.n) % WORD
    ensures Between(steps + [st]) <==> st.Ack?
  {
    assert (steps + [st])[..|steps|] == steps;
  }

  lemma RunSmall(c: End, steps: seq<Step>)
    requires Run(c, steps)
    ensures Small(After(c, steps))
    decreases |steps|
  {
    hide Small, Do;
    if steps != [] { RunSmall(Do(c, steps[0]), steps[1..]); }
  }

  /** What a step does to limits and increments, and whether it sends a probe. */
  ghost predicate Follows(start: nat, before: seq<Step>, c: End, st: Step, t: End) {
    var s, b := Sample(before), Estimate(c.limits);
    if st.Ack? && st.isMax && b != 16777216 && 100 * s >= 66 * b then
      var n := if 2 * s > 16777216 then 16777216 else 2 * s;
      && t.limits == c.limits + [n]
      && t.increments == c.increments + [(n - (if c.limits == [] then start else b)) % 0x1_0000_0000]
    else t.limits == c.limits && t.increments == c.increments
  }

  lemma StepFollows(start: nat, before: seq<Step>, c: End, st: Step)
    requires Measured(start, before, c) && Small(c) && Small(Do(c, st))
    ensures Follows(start, before, c, st, Do(c, st)) && Measured(start, before + [st], Do(c, st))
    ensures st.Data? ==> (Add(c.e, st.n).1 <==> Between(before) && Estimate(c.limits) != 16777216)
  {
    hide Sample, Between;
    SampleSnoc(before, st);
  }

  lemma {:induction false} AlwaysMeasured(start: nat, steps: seq<Step>)
    requires Run(NewEnd(start), steps)
    ensures Measured(start, steps, After(NewEnd(start), steps))
    decreases |steps|
  {
    hide Measured, Small;
    if steps == [] {
      StartMeasured(start);
    } else {
      var before, st := steps[..|steps| - 1], steps[|steps| - 1];
      assert before + [st] == steps;
      RunSnoc(NewEnd(start), before, st);
      RunSmall(NewEnd(start), before);
      AlwaysMeasured(start, before);
      StepFollows(start, before, After(NewEnd(start), before), st);
    }
  }

  lemma StartMeasured(start: nat)
    ensures Measured(start, [], NewEnd(start))
  {
  }

  /** In every run the window changes exactly when an acknowledgement finds that the octets since the one
      before are at least 0.66 of the estimate, at the highest bandwidth so far and below 16 MiB. It becomes
      twice those octets, at most 16 MiB, and the increment sent is the difference as a 32-bit word. A probe
      is sent exactly when data arrives while no measurement is going on. */
  lemma WindowExactly(start: nat, before: seq<Step>, st: Step)
    requires Run(NewEnd(start), before + [st])
    ensures var c, t := After(NewEnd(start), before), After(NewEnd(start), before + [st]);
            && Follows(start, before, c, st, t)
            && (st.Data? ==> (Add(c.e, st.n).1 <==> Between(before) && Estimate(c.limits) != 16777216))
  {
    hide Measured, Follows, Small, Run, After, Add;
    RunSnoc(NewEnd(start), before, st);
    RunSmall(NewEnd(start), before);
    AlwaysMeasured(start, before);
    StepFollows(start, before, After(NewEnd(start), before), st);
  }

  /** The increment of a raised limit is legal exactly when the limit rises. */
  lemma IncrementLegal(f: TrIn, n: nat)
    requires f.limit <= MAX_WINDOW && n <= MAX_WINDOW
    ensures LegalIncrement(TrNewLimit(f, n).w) <==> n > f.limit
  {
  }

  /** A server that receives 50000 octets before its first probe is acknowledged lowers its limit to
      100000, and the increment wraps to a number that no WINDOW_UPDATE can carry. */
  lemma ServerWraps()
    ensures var steps := [Data(50000), Ack(true)];
            Run(NewEnd(SERVER_LIMIT), steps) && After(NewEnd(SERVER_LIMIT), steps).increments == [4294936226]
  {
    var c, steps := NewEnd(SERVER_LIMIT), [Data(50000), Ack(true)];
    assert steps[1..] == [Ack(true)] && steps[1..][1..] == [];
    var c1 := Do(c, Data(50000));
    assert c1.e == Est(65535, 50000, true);
    var c2 := Do(c1, Ack(true));
    assert c2.increments == [] + [4294936226];
    assert Run(c2, []) && Run(c1, [Ack(true)]);
    assert After(c1, [Ack(true)]) == After(c2, []) == c2;
  }

  /** After data is counted less than a quarter of the window is unacknowledged, exactly when the limit
      is at least four. */
  lemma UnackedBound(f: TrIn, n: nat)
    ensures TrOnData(f, n).f.unacked < f.limit / 4 <==> f.limit >= 4
  {
  }
}
