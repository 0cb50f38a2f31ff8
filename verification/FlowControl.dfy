/** Inbound flow control: what a stream and the connection remember of the window they granted. All
    fields are 32-bit words and wrap around. */
module FlowControl {
  import opened Bits

  const MAX_WINDOW: nat := 0x7fff_ffff

  function Wrap(x: int): (r: nat)
    ensures r < WORD && (0 <= x < WORD ==> r == x)
  {
    x % WORD
  }

  /** A word read as a signed number. */
  function Signed(x: nat): int {
    if x <= MAX_WINDOW then x else x - WORD
  }

  // ---- One stream ----

  datatype In = In(limit: nat, pendingData: nat, pendingUpdate: nat, delta: nat)

  /** What a call leaves, and the window update it asks for. */
  datatype Granted = Granted(f: In, w: nat)

  function Adjusts(f: In, n: nat): bool {
    Signed(Wrap(n - f.pendingData)) > Signed(Wrap(f.limit - Wrap(f.pendingData + f.pendingUpdate)))
  }

  function Capped(n: nat): nat {
    if n > MAX_WINDOW then MAX_WINDOW else n
  }

  function Adjust(f: In, n: nat): Granted {
    var m := Capped(n);
    if Adjusts(f, m) then
      var d := if Wrap(f.limit + m) > MAX_WINDOW then Wrap(MAX_WINDOW - f.limit) else m;
      Granted(f.(delta := d), d)
    else Granted(f, 0)
  }

  function AddData(f: In, n: nat): In {
    f.(pendingData := Wrap(f.pendingData + n))
  }

  /** Whether the data just added is within what was granted. */
  predicate Within(f: In) {
    Wrap(f.pendingData + f.pendingUpdate) <= Wrap(f.limit + f.delta)
  }

  /** Octets read first make up for the extra window, then count towards the next update. */
  function Consume(f: In, n: nat): In {
    var used := if n > f.delta then f.delta else n;
    f.(pendingData := Wrap(f.pendingData - n), pendingUpdate := Wrap(f.pendingUpdate + (n - used)),
       delta := f.delta - used)
  }

  predicate Due(f: In) {
    f.pendingUpdate >= f.limit / 4 || f.pendingUpdate > 64 * 1024
  }

  function Read(f: In, n: nat): Granted {
    if f.pendingData == 0 then Granted(f, 0)
    else
      var f1 := Consume(f, n);
      if Due(f1) then Granted(f1.(pendingUpdate := 0), f1.pendingUpdate) else Granted(f1, 0)
  }

  class InFlow {
    var limit: nat
    var pendingData: nat
    var pendingUpdate: nat
    var delta: nat

    function Value(): In
      reads this
    {
      In(limit, pendingData, pendingUpdate, delta)
    }

    constructor (limit: nat)
      ensures Value() == In(limit, 0, 0, 0)
    {
      this.limit, pendingData, pendingUpdate, delta := limit, 0, 0, 0;
    }

    method NewLimit(n: nat)
      modifies this
      ensures Value() == old(Value()).(limit := n)
    {
      limit := n;
    }

    method MaybeAdjust(n: nat) returns (w: nat)
      modifies this
      ensures Granted(Value(), w) == Adjust(old(Value()), n)
    {
      hide Wrap, Signed;
      var m := n;
      if m > MAX_WINDOW { m := MAX_WINDOW; }
      var estSenderQuota := Signed(Wrap(limit - Wrap(pendingData + pendingUpdate)));
      var estUntransmittedData := Signed(Wrap(m - pendingData));
      if estUntransmittedData > estSenderQuota {
        if Wrap(limit + m) > MAX_WINDOW {
          delta := Wrap(MAX_WINDOW - limit);
        } else {
          delta := m;
        }
        return delta;
      }
      return 0;
    }

    method OnData(n: nat) returns (ok: bool)
      modifies this
      ensures Value() == AddData(old(Value()), n) && ok == Within(Value())
    {
      pendingData := Wrap(pendingData + n);
      ok := !(Wrap(pendingData + pendingUpdate) > Wrap(limit + delta));
    }

    method OnRead(n: nat) returns (w: nat)
      modifies this
      ensures Granted(Value(), w) == Read(old(Value()), n)
    {
      if pendingData == 0 {
        return 0;
      }
      pendingData := Wrap(pendingData - n);
      var m := n;
      if m > delta {
        m := m - delta;
        delta := 0;
      } else {
        delta := delta - m;
        m := 0;
      }
      pendingUpdate := Wrap(pendingUpdate + m);
      if pendingUpdate >= limit / 4 || pendingUpdate > 64 * 1024 {
        w := pendingUpdate;
        pendingUpdate := 0;
        return;
      }
      return 0;
    }
  }

  // ---- The connection ----

  datatype TrIn = TrIn(limit: nat, unacked: nat)

  datatype TrGranted = TrGranted(f: TrIn, w: nat)

  function TrNewLimit(f: TrIn, n: nat): TrGranted {
    TrGranted(f.(limit := n), Wrap(n - f.limit))
  }

  function TrOnData(f: TrIn, n: nat): TrGranted {
    var u := Wrap(f.unacked + n);
    if u >= f.limit / 4 then TrGranted(f.(unacked := 0), u) else TrGranted(f.(unacked := u), 0)
  }

  function TrReset(f: TrIn): TrGranted {
    TrGranted(f.(unacked := 0), f.unacked)
  }

  class TrInFlow {
    var limit: nat
    var unacked: nat
    var effectiveWindowSize: nat

    function Value(): TrIn
      reads this
    {
      TrIn(limit, unacked)
    }

    constructor (limit: nat)
      ensures Value() == TrIn(limit, 0) && effectiveWindowSize == 0
    {
      this.limit, unacked, effectiveWindowSize := limit, 0, 0;
    }

    method NewLimit(n: nat) returns (d: nat)
      modifies this
      ensures TrGranted(Value(), d) == TrNewLimit(old(Value()), n) && effectiveWindowSize == Wrap(limit - unacked)
    {
      d := Wrap(n - limit);
      limit := n;
      UpdateEffectiveWindowSize();
    }

    method OnData(n: nat) returns (w: nat)
      modifies this
      ensures TrGranted(Value(), w) == TrOnData(old(Value()), n) && effectiveWindowSize == Wrap(limit - unacked)
    {
      unacked := Wrap(unacked + n);
      if unacked >= limit / 4 {
        w := unacked;
        unacked := 0;
        UpdateEffectiveWindowSize();
        return;
      }
      UpdateEffectiveWindowSize();
      return 0;
    }

    method Reset() returns (w: nat)
      modifies this
      ensures TrGranted(Value(), w) == TrReset(old(Value())) && effectiveWindowSize == Wrap(limit - unacked)
    {
      w := unacked;
      unacked := 0;
      UpdateEffectiveWindowSize();
    }

    method UpdateEffectiveWindowSize()
      modifies this`effectiveWindowSize
      ensures effectiveWindowSize == Wrap(limit - unacked)
    {
      effectiveWindowSize := Wrap(limit - unacked);
    }
  }

  // ---- What the receiver keeps ----

  /** The receiver's side of the account of a stream: what came in, plus the extra window granted, is
      what waits for the reader, what waits for an update, and what was already granted back. */
  predicate Balance(f: In, received: int, issued: int) {
    received + f.delta == f.pendingData + f.pendingUpdate + issued
  }

  predicate Small(f: In) {
    f.limit <= MAX_WINDOW && f.delta <= MAX_WINDOW && f.pendingData + f.pendingUpdate <= f.limit + f.delta
  }

  /** Data within the grant is accepted, nothing wraps, and the balance is kept. */
  lemma DataKeeps(f: In, n: nat, received: nat, issued: nat)
    requires Small(f) && Balance(f, received, issued) && received + n - issued <= f.limit
    ensures var r := AddData(f, n); Within(r) && Small(r) && Balance(r, received + n, issued) && r.limit == f.limit
  {
  }

  /** Data is accepted exactly when what is unaccounted for, as a 32-bit word, is within limit and extra. */
  lemma DataAccepted(f: In, n: nat, received: nat, issued: nat)
    requires Small(f) && Balance(f, received, issued)
    ensures Within(AddData(f, n)) <==> Wrap(received + n - issued + f.delta) <= f.limit + f.delta
  {
  }

  /** So data beyond the grant is refused, as long as the sum fits a word. */
  lemma DataRefused(f: In, n: nat, received: nat, issued: nat)
    requires Small(f) && Balance(f, received, issued) && f.pendingData + f.pendingUpdate + n < WORD
    ensures Within(AddData(f, n)) <==> received + n - issued <= f.limit
  {
    hide Within, AddData;
    DataAccepted(f, n, received, issued);
  }

  /** Reading what is pending keeps the balance. */
  lemma ReadKeeps(f: In, n: nat, received: nat, issued: nat)
    requires Small(f) && Balance(f, received, issued) && n <= f.pendingData
    ensures var g := Read(f, n); Small(g.f) && Balance(g.f, received, issued + g.w) && g.f.limit == f.limit
  {
    var f1 := Consume(f, n);
    assert f.pendingData + f.pendingUpdate < WORD;
    assert f1.pendingData == f.pendingData - n;
    assert f1.pendingUpdate + f1.pendingData <= f1.limit + f1.delta;
  }

  /** So does a padded frame, whose padding counts as read at once. */
  lemma PaddedKeeps(f: In, n: nat, pad: nat, received: nat, issued: nat)
    requires Small(f) && Balance(f, received, issued) && received + n - issued <= f.limit && pad <= n
    ensures Within(AddData(f, n))
    ensures var g := Read(AddData(f, n), pad); Small(g.f) && Balance(g.f, received + n, issued + g.w)
  {
    DataKeeps(f, n, received, issued);
    ReadKeeps(AddData(f, n), pad, received + n, issued);
    hide Read, Within, Balance, Small;
  }

  /** An extra window keeps the balance exactly when the last one is used up, or none is granted. */
  lemma AdjustKeeps(f: In, n: nat, received: nat, issued: nat)
    requires Small(f) && Balance(f, received, issued)
    ensures var g := Adjust(f, n);
            && g.f.limit == f.limit && (f.delta == 0 ==> Small(g.f))
            && (Balance(g.f, received, issued + g.w) <==> f.delta == 0 || !Adjusts(f, Capped(n)))
  {
    assert f.limit + Capped(n) < WORD;
  }

  /** When an extra window is granted, and how large: what the sender may still send, if it has received every
      update, is the limit less what is held back; if the read wants more, limit and extra window together
      become the limit and the read, as far as the largest window goes. */
  lemma AdjustExactly(f: In, n: nat)
    requires Small(f) && f.pendingData <= MAX_WINDOW && f.pendingUpdate <= f.limit
    ensures var g := Adjust(f, n); var m := if n < 0x7fff_ffff then n else 0x7fff_ffff;
            if m <= f.limit - f.pendingUpdate then g == Granted(f, 0)
            else
              && g == Granted(f.(delta := g.w), g.w)
              && f.limit + g.w == if f.limit + m < 0x7fff_ffff then f.limit + m else 0x7fff_ffff
  {
  }

  /** So a read of `n` octets is covered, and a grant is made only if it is needed. */
  lemma AdjustCovers(f: In, n: nat)
    requires Small(f) && f.delta == 0 && f.limit + n <= MAX_WINDOW
    ensures var g := Adjust(f, n);
            n <= f.limit + g.f.delta - f.pendingUpdate && (g.w == 0 <==> n <= f.limit - f.pendingUpdate)
  {
    hide Adjust;
    AdjustExactly(f, n);
  }

  // ---- Reading in pieces ----

  function Total(ns: seq<nat>): nat { if ns == [] then 0 else ns[0] + Total(ns[1..]) }

  /** Reads of the given sizes: what they leave, and the updates they ask for, added up. */
  function ReadAll(f: In, ns: seq<nat>): Granted
    decreases |ns|
  {
    if ns == [] then Granted(f, 0)
    else
      var g := Read(f, ns[0]);
      var h := ReadAll(g.f, ns[1..]);
      Granted(h.f, g.w + h.w)
  }

  /** One read: the extra window is used up first, and the rest is returned or held back. An update is a quarter
      of the limit or more than 64 KiB, and after a read less than that is held back. */
  lemma ReadExactly(f: In, n: nat)
    requires Small(f) && n <= f.pendingData
    ensures var g := Read(f, n);
            && g.f.pendingData == f.pendingData - n && g.f.limit == f.limit
            && g.f.delta == (if n < f.delta then f.delta - n else 0)
            && g.w + g.f.pendingUpdate == f.pendingUpdate + (if n < f.delta then 0 else n - f.delta)
            && (g.w > 0 ==> g.w >= f.limit / 4 || g.w > 65536)
            && (f.pendingData > 0 ==> (g.f.pendingUpdate < f.limit / 4 || g.f.pendingUpdate == 0)
                                      && g.f.pendingUpdate <= 65536)
  {
    assert f.pendingData + f.pendingUpdate < WORD;
  }

  /** However the octets are read: what they use up of the extra window, and what comes back for them, depends
      on their number alone. */
  lemma {:induction false} ReadPieces(f: In, ns: seq<nat>)
    requires Small(f) && Total(ns) <= f.pendingData
    ensures var g, n := ReadAll(f, ns), Total(ns);
            && g.f.pendingData == f.pendingData - n && g.f.delta == (if n < f.delta then f.delta - n else 0)
            && g.w + g.f.pendingUpdate == f.pendingUpdate + (if n < f.delta then 0 else n - f.delta)
    decreases |ns|
  {
    hide Read;
    if ns != [] {
      ReadExactly(f, ns[0]);
      ReadPieces(Read(f, ns[0]).f, ns[1..]);
    }
  }

  /** The connection acknowledges a quarter of its limit or nothing, and nothing is lost. */
  lemma CountExactly(f: TrIn, n: nat)
    requires f.unacked + n < WORD
    ensures var g := TrOnData(f, n);
            && g.f.limit == f.limit && g.w + g.f.unacked == f.unacked + n
            && (g.w > 0 ==> g.w >= f.limit / 4 && g.f.unacked == 0)
  {
  }

  /** An extra window leaves limit and extra window together within the largest window. */
  lemma AdjustCap(f: In, n: nat)
    requires f.limit <= MAX_WINDOW && (f.limit + f.delta <= MAX_WINDOW || Adjusts(f, Capped(n)))
    ensures var g := Adjust(f, n).f; g.limit == f.limit && g.limit + g.delta <= MAX_WINDOW
  {
  }

  /** A later rise of the limit does not look at the extra window, and leaves the bound. */
  lemma RaisePastCap()
    ensures var f := Adjust(In(65535, 0, 0, 0), MAX_WINDOW).f;
            f.limit + f.delta == MAX_WINDOW && f.(limit := 100000).limit + f.delta == MAX_WINDOW + 34465
  {
  }

  /** An update that reading asks for is at most the limit, if no more than that was held back before. */
  lemma ReadUpdate(f: In, n: nat)
    requires Small(f) && n <= f.pendingData && f.pendingUpdate <= f.limit
    ensures Read(f, n).w <= f.limit
  {
    assert f.pendingData + f.pendingUpdate < WORD;
  }

  /** A second adjustment while the first is outstanding forgets it: the peer is granted both, and data
      it may send is refused. */
  lemma AdjustTwice()
    ensures var f := In(65535, 0, 0, 0);
            var g := Adjust(f, 100000); var k := Adjust(g.f, 100000);
            && g.w + k.w == 200000 && Balance(g.f, 0, g.w) && !Balance(k.f, 0, g.w + k.w)
            && !Within(AddData(k.f, 65535 + g.w + k.w))
  {
  }
}
