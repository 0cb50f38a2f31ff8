/** The receiving half of the transport as the program has it: ledgers that are objects, and a control
    buffer that collects the messages to the peer. */
module FlowReceiver {
  import opened FlowControl
  import opened FlowProtocol

  class Transport {
    const fc: TrInFlow
    var streams: map<nat, InFlow>
    var initialWindowSize: nat
    var readClosed: set<nat>
    var sent: seq<Msg>

    ghost function Repr(): set<object>
      reads this
    {
      {this, fc} + streams.Values
    }

    /** No two streams share a ledger. */
    ghost predicate Valid()
      reads this
    {
      forall i, j :: i in streams && j in streams && i != j ==> streams[i] != streams[j]
    }

    ghost function Model(): Receiver
      reads Repr()
    {
      Receiver(Ledgers(), initialWindowSize, fc.Value(), readClosed)
    }

    ghost function Ledgers(): map<nat, In>
      reads this, streams.Values
    {
      map id | id in streams :: streams[id].Value()
    }

    constructor ()
      ensures Valid() && Model() == Receiver(map[], 65535, TrIn(65535, 0), {}) && sent == [] && fresh(Repr())
    {
      var f := new TrInFlow(65535);
      fc, streams, initialWindowSize, readClosed, sent := f, map[], 65535, {}, [];
    }

    method NewStream(id: nat)
      requires Valid() && id !in streams
      modifies this
      ensures Valid() && Model() == OpenStream(old(Model()), id) && sent == old(sent) && fresh(Repr() - old(Repr()))
    {
      var f := new InFlow(initialWindowSize);
      streams := streams[id := f];
      assert Ledgers() == old(Ledgers())[id := f.Value()];
    }

    method CountFrame(size: nat, probe: bool)
      modifies this`sent, fc
      ensures Ledgers() == old(Ledgers())
      ensures old(sent) <= sent && (fc.Value(), sent[|old(sent)|..]) == CountData(old(fc.Value()), size, probe)
    {
      var w := fc.OnData(size);
      var acks := ConnAck(w);
      if probe {
        w := fc.Reset();
        acks := acks + ConnAck(w);
      }
      sent := sent + acks;
    }

    lemma LedgerKeys()
      ensures Ledgers().Keys == streams.Keys
    {
    }

    /** Takes a DATA frame of `size` octets, `pad` of them padding; `probe` says that a bandwidth probe
        starts with it. */
    method HandleData(id: nat, size: nat, pad: nat, probe: bool) returns (refused: bool)
      requires Valid()
      modifies Repr()
      ensures Valid() && Repr() <= old(Repr())
      ensures var o := FlowProtocol.HandleData(old(Model()), id, size, pad, probe);
              Model() == o.r && sent == old(sent) + o.sent && refused == o.refused
    {
      hide CountData, AddData, Within, Ledgers, FlowControl.Read;
      assert Ledgers().Keys == streams.Keys by { LedgerKeys(); }
      CountFrame(size, probe);
      assert sent == old(sent) + sent[|old(sent)|..];
      refused := false;
      if id !in streams {
        return;
      }
      if id in readClosed {
        Drop(id);
        return;
      }
      if size > 0 {
        refused := AcceptData(id, size);
        if !refused && pad > 0 {
          ReturnRead(id, pad);
        }
      }
    }

    method Drop(id: nat)
      requires Valid() && id in streams
      modifies this`streams
      ensures Valid() && Repr() <= old(Repr()) && Ledgers() == old(Ledgers()) - {id}
    {
      streams := streams - {id};
    }

    method AcceptData(id: nat, size: nat) returns (refused: bool)
      requires Valid() && id in streams
      modifies this`streams, streams[id]
      ensures Valid() && Repr() <= old(Repr()) && (!refused ==> streams == old(streams))
      ensures id in old(Ledgers())
      ensures var f := AddData(old(Ledgers())[id], size);
              && Ledgers() == (if Within(f) then old(Ledgers())[id := f] else old(Ledgers()) - {id})
              && refused == !Within(f)
    {
      hide AddData, Within;
      var ok := streams[id].OnData(size);
      if !ok {
        streams := streams - {id};
      }
      refused := !ok;
    }

    method ReturnRead(id: nat, n: nat)
      requires Valid() && id in streams
      modifies this`sent, streams[id]
      ensures id in old(Ledgers())
      ensures var g := FlowControl.Read(old(Ledgers())[id], n);
              Ledgers() == old(Ledgers())[id := g.f] && sent == old(sent) + Ack(id, g.w)
    {
      hide FlowControl.Read;
      var w := streams[id].OnRead(n);
      if w > 0 {
        sent := sent + [Update(id, w)];
      }
    }

    method UpdateWindow(id: nat, n: nat)
      requires Valid() && id in streams
      modifies Repr()
      ensures Valid() && Repr() == old(Repr())
      ensures var o := FlowProtocol.UpdateWindow(old(Model()), id, n); Model() == o.r && sent == old(sent) + o.sent
    {
      hide FlowControl.Read, Ledgers;
      ReturnRead(id, n);
    }

    method AdjustWindow(id: nat, n: nat)
      requires Valid() && id in streams
      modifies Repr()
      ensures Valid() && Repr() == old(Repr())
      ensures var o := FlowProtocol.AdjustWindow(old(Model()), id, n); Model() == o.r && sent == old(sent) + o.sent
    {
      hide Adjust, Ledgers;
      Extra(id, n);
    }

    method Extra(id: nat, n: nat)
      requires Valid() && id in streams
      modifies this`sent, streams[id]
      ensures id in old(Ledgers())
      ensures var g := Adjust(old(Ledgers())[id], n);
              Ledgers() == old(Ledgers())[id := g.f] && sent == old(sent) + Ack(id, g.w)
    {
      hide Adjust;
      var w := streams[id].MaybeAdjust(n);
      if w > 0 {
        sent := sent + [Update(id, w)];
      }
    }

    method RaiseStreams(n: nat)
      requires Valid()
      modifies streams.Values
      ensures Ledgers() == map id | id in old(Ledgers()) :: old(Ledgers())[id].(limit := n)
    {
      var todo := streams.Keys;
      while todo != {}
        invariant todo <= streams.Keys && fc.Value() == old(fc.Value())
        invariant forall id :: id in streams ==>
                    var f := old(streams[id].Value());
                    streams[id].Value() == if id in todo then f else f.(limit := n)
        decreases |todo|
      {
        var id :| id in todo;
        streams[id].NewLimit(n);
        todo := todo - {id};
      }
    }

    method RaiseConnection(n: nat)
      modifies this`initialWindowSize, this`sent, fc
      ensures Ledgers() == old(Ledgers()) && initialWindowSize == n
      ensures var g := TrNewLimit(old(fc.Value()), n);
              fc.Value() == g.f && sent == old(sent) + [ConnUpdate(g.w), Setting(n)]
    {
      initialWindowSize := n;
      var d := fc.NewLimit(n);
      sent := sent + [ConnUpdate(d)];
      sent := sent + [Setting(n)];
    }

    method UpdateFlowControl(n: nat)
      requires Valid()
      modifies Repr()
      ensures Valid() && Repr() == old(Repr())
      ensures var o := FlowProtocol.UpdateFlowControl(old(Model()), n); Model() == o.r && sent == old(sent) + o.sent
    {
      hide Ledgers;
      RaiseStreams(n);
      RaiseConnection(n);
    }
  }
}
