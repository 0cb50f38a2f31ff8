/** loopyWriter as the program has it: objects for the streams, linked in place, each handler proved
    against its function on values. */
module LoopyWriter {
  import opened Bits
  import opened HeaderTable
  import opened Loopy
  import opened LoopyInvariant
  import opened LoopyFairness
  import opened OutStreams

  ghost function Ids(nodes: seq<OutStream>): (r: seq<nat>)
    ensures |r| == |nodes| && forall i :: 0 <= i < |r| ==> r[i] == nodes[i].id
  {
    seq(|nodes|, i requires 0 <= i < |nodes| => nodes[i].id)
  }

  class Writer {
    const server: bool
    const maxFrameSize: nat
    const activeStreams: OutStreamList
    var sendQuota: nat
    var oiws: nat
    var estdStreams: map<nat, OutStream>
    var draining: bool
    var wire: seq<Event>

    ghost function Repr(): set<object>
      reads this
    {
      {this, activeStreams, activeStreams.head, activeStreams.tail} + estdStreams.Values
    }

    /** Objects and numbers correspond; the list holds established streams; the others have no links. */
    ghost predicate Valid()
      reads Repr(), activeStreams.nodes
    {
      && activeStreams.Valid()
      && (forall id :: id in estdStreams ==>
            estdStreams[id].id == id && estdStreams[id] != activeStreams.head && estdStreams[id] != activeStreams.tail)
      && (forall s :: s in activeStreams.nodes ==> s.id in estdStreams && estdStreams[s.id] == s)
      && (forall id :: id in estdStreams ==>
            estdStreams[id] in activeStreams.nodes || (estdStreams[id].next == null && estdStreams[id].prev == null))
    }

    ghost function Streams(): map<nat, Stream>
      reads this, estdStreams.Values
    {
      map id | id in estdStreams :: estdStreams[id].Value()
    }

    ghost function Model(): Loopy
      reads this, activeStreams, estdStreams.Values
    {
      Loopy(server, maxFrameSize, sendQuota, oiws, Streams(), Ids(activeStreams.nodes), draining, wire)
    }

    constructor (server: bool, maxFrameSize: nat)
      ensures Valid() && Model() == NewLoopy(server, maxFrameSize) && fresh(Repr())
    {
      this.server, this.maxFrameSize := server, maxFrameSize;
      var list := new OutStreamList();
      activeStreams := list;
      sendQuota, oiws, estdStreams, draining, wire := DEFAULT_WINDOW, DEFAULT_WINDOW, map[], false, [];
    }

    /** Assigning to the state, the queue or the debt of one stream, and to the plain fields of the writer. */
    twostate lemma Assigned(str: OutStream)
      requires old(Valid()) && str.id in old(estdStreams) && old(estdStreams)[str.id] == str
      requires estdStreams == old(estdStreams)
      requires unchanged(old(Repr()) - {this, str}) && str.next == old(str.next) && str.prev == old(str.prev)
      ensures Valid() && Streams() == old(Streams())[str.id := str.Value()]
      ensures activeStreams.nodes == old(activeStreams.nodes)
    {
      assert forall s :: s in activeStreams.nodes ==> s in estdStreams.Values;
      assert forall id :: id in estdStreams && id != str.id ==>
               estdStreams[id].id == id && estdStreams[id].Value() == old(estdStreams[id].Value());
      assert Streams() == old(Streams())[str.id := str.Value()];
    }

    /** Assigning to the fields of the writer that hold no objects. */
    twostate lemma OnlySelf()
      requires old(Valid()) && unchanged(old(Repr()) - {this}) && estdStreams == old(estdStreams)
      ensures Valid() && Streams() == old(Streams()) && activeStreams.nodes == old(activeStreams.nodes)
    {
      assert forall s :: s in activeStreams.nodes ==> s in estdStreams.Values;
    }

    lemma StreamsAt()
      ensures Streams().Keys == estdStreams.Keys
      ensures forall id :: id in estdStreams ==> Streams()[id] == estdStreams[id].Value()
    {
    }

    lemma Listed(id: nat)
      requires Valid() && ListOk(Model()) && id in estdStreams
      ensures estdStreams[id].id == id && (estdStreams[id] in activeStreams.nodes <==> estdStreams[id].state == Active)
    {
      var l := Model();
      assert id in l.active <==> l.streams[id].state == Active;
    }

    lemma Placed(id: nat)
      requires Valid() && id in estdStreams
      ensures var s := estdStreams[id];
              && s.id == id && s != activeStreams.head && s != activeStreams.tail
              && (s in activeStreams.nodes || (s.next == null && s.prev == null))
              && (forall x :: x in activeStreams.nodes && x.id == id ==> x == s)
              && (forall x :: x in estdStreams && estdStreams[x] !in activeStreams.nodes ==>
                    estdStreams[x] !in activeStreams.All())
              && (forall x :: x in estdStreams && x != id ==> estdStreams[x] != s)
    {
    }

    lemma AllInRepr()
      requires Valid()
      ensures activeStreams.Valid() && forall s :: s in activeStreams.All() ==> s in Repr()
    {
    }

    method Enqueue(str: OutStream)
      requires Valid() && str.id in estdStreams && estdStreams[str.id] == str && str !in activeStreams.nodes
      modifies Repr()
      ensures Valid() && estdStreams == old(estdStreams)
      ensures Model() == old(Model()).(active := old(Model()).active + [str.id])
    {
      AllInRepr();
      activeStreams.Enqueue(str);
      assert Streams() == old(Streams());
    }

    method IncomingWindowUpdate(id: nat, increment: nat)
      requires Valid() && ListOk(Model())
      modifies Repr()
      ensures Valid() && estdStreams == old(estdStreams)
      ensures Model() == OnWindowUpdate(old(Model()), id, increment)
    {
      hide ListOk, Valid, Streams, OnWindowUpdate;
      StreamsAt();
      if id == 0 {
        sendQuota := (sendQuota + increment) % WORD;
        OnlySelf();
        UpdateConn(old(Model()), increment);
        return;
      }
      if id in estdStreams {
        Listed(id);
        var str := estdStreams[id];
        str.bytesOutStanding := str.bytesOutStanding - increment;
        if oiws - str.bytesOutStanding > 0 && str.state == WaitingOnStreamQuota {
          str.state := Active;
          Assigned(str);
          Enqueue(str);
        } else {
          Assigned(str);
        }
        UpdateStream(old(Model()), id, increment);
      } else {
        UpdateStream(old(Model()), id, increment);
      }
    }

    method RegisterStream(id: nat)
      requires Valid() && id !in estdStreams
      modifies Repr()
      ensures Valid() && fresh(Repr() - old(Repr()))
      ensures Model() == Update(old(Model()), id, FRESH)
    {
      var str := new OutStream(id);
      AddStream(str);
    }

    /** A new object enters the map. */
    method AddStream(str: OutStream)
      requires Valid() && str.id !in estdStreams && str !in Repr() && str.next == null && str.prev == null
      modifies this
      ensures Valid() && estdStreams == old(estdStreams)[str.id := str]
      ensures Model() == Update(old(Model()), str.id, str.Value())
    {
      AllInRepr();
      estdStreams := estdStreams[str.id := str];
      assert Streams() == old(Streams())[str.id := str.Value()];
    }

    /** The stream leaves the map and, wherever it is, the list. */
    method DropStream(id: nat)
      requires Valid() && NoDuplicates(Model().active) && id in estdStreams
      modifies Repr()
      ensures Valid() && estdStreams == old(estdStreams) - {id}
      ensures Model() ==
                old(Model()).(streams := old(Model()).streams - {id}, active := WithoutId(old(Model()).active, id))
    {
      hide Linked, NoDuplicates, Ids, WithoutId, Valid, Streams;
      var str := estdStreams[id];
      AllInRepr();
      Placed(id);
      estdStreams := estdStreams - {id};
      activeStreams.Delete(str);
      DropNode(old(activeStreams.nodes), activeStreams.nodes, str);
      Dropped(id);
    }

    twostate lemma Dropped(id: nat)
      requires old(Valid()) && id in old(estdStreams) && estdStreams == old(estdStreams) - {id}
      requires forall s :: s in activeStreams.nodes <==> s in old(activeStreams.nodes) && s != old(estdStreams)[id]
      requires forall x :: x in estdStreams && estdStreams[x] !in old(activeStreams.nodes) ==>
                 estdStreams[x].next == old(estdStreams[x].next) && estdStreams[x].prev == old(estdStreams[x].prev)
      requires forall x :: x in estdStreams ==> estdStreams[x].Value() == old(estdStreams[x].Value())
      ensures activeStreams.Valid() ==> Valid()
      ensures Streams() == old(Streams()) - {id}
    {
      hide Linked;
    }

    /** A frame, or the completion of an item, leaves. */
    method Emit(e: Event)
      requires Valid()
      modifies this`wire
      ensures Valid() && Model() == Write(old(Model()), e)
    {
      hide Valid, Streams;
      wire := wire + [e];
      OnlySelf();
    }

    method CleanupStream(id: nat, rst: Option<nat>) returns (ok: bool)
      requires Valid() && NoDuplicates(Model().active)
      modifies Repr()
      ensures Valid() && Repr() <= old(Repr())
      ensures Next(Model(), ok) == Cleanup(old(Model()), id, rst)
    {
      hide Valid, Streams, NoDuplicates;
      StreamsAt();
      if id in estdStreams {
        DropStream(id);
        StreamsAt();
      }
      if rst.Some? {
        Emit(RstStream(id, rst.value));
        StreamsAt();
      }
      assert |Streams().Keys| == |estdStreams.Keys|;
      ok := !(!server && draining && |estdStreams| == 0);
    }

    method HandleHeaders(id: nat, fields: seq<HeaderField>, endStream: bool, init: Init,
                         rst: Option<nat>) returns (ok: bool)
      requires Valid() && ListOk(Model()) && Legal(Model(), Headers(id, fields, endStream, init, rst))
      modifies Repr()
      ensures Valid() && fresh(Repr() - old(Repr()))
      ensures Next(Model(), ok) == OnHeaders(old(Model()), id, fields, endStream, init, rst)
    {
      hide Valid, Streams, NoDuplicates, ListOk, Cleanup;
      StreamsAt();
      if server && id % 2 == 1 {
        ok := OwnHeaders(id, fields, endStream, init, rst);
        return;
      }
      match init {
        case ConnClosing => ok := false;
        case Draining => ok := true;
        case Registered =>
          var str := new OutStream(id);
          Emit(HeadersFrame(id, fields, endStream));
          AddStream(str);
          ok := true;
      }
    }

    method OwnHeaders(id: nat, fields: seq<HeaderField>, endStream: bool, ghost init: Init,
                      rst: Option<nat>) returns (ok: bool)
      requires Valid() && ListOk(Model()) && server && id % 2 == 1
      modifies Repr()
      ensures Valid() && Repr() <= old(Repr())
      ensures Next(Model(), ok) == OnHeaders(old(Model()), id, fields, endStream, init, rst)
    {
      hide Valid, Streams, NoDuplicates, ListOk, Cleanup;
      StreamsAt();
      if id !in estdStreams {
        return true;
      }
      if !endStream {
        Emit(HeadersFrame(id, fields, false));
        return true;
      }
      var str := estdStreams[id];
      Placed(id);
      if str.state != Empty {
        str.items := str.items + [Trailer(fields, rst)];
        Assigned(str);
        return true;
      }
      Distinct(Model());
      Emit(HeadersFrame(id, fields, true));
      ok := CleanupStream(id, rst);
    }

    method PreprocessData(id: nat, bytes: seq<Byte>, endStream: bool)
      requires Valid() && ListOk(Model())
      modifies Repr()
      ensures Valid() && estdStreams == old(estdStreams)
      ensures Model() == OnBytes(old(Model()), id, bytes, endStream)
    {
      hide Valid, Streams, ListOk;
      StreamsAt();
      if id !in estdStreams {
        return;
      }
      Listed(id);
      var str := estdStreams[id];
      str.items := str.items + [Data(bytes, endStream)];
      if str.state == Empty {
        str.state := Active;
        Assigned(str);
        Enqueue(str);
      } else {
        Assigned(str);
      }
    }

    method IncomingGoAwayFrame() returns (ok: bool)
      requires Valid()
      modifies this`draining
      ensures Valid() && Next(Model(), ok) == Handle(old(Model()), IncomingGoAway)
    {
      hide Valid, Streams;
      ok := true;
      if !server {
        draining := true;
        OnlySelf();
        StreamsAt();
        assert |Streams().Keys| == |estdStreams.Keys|;
        ok := |estdStreams| != 0;
      }
    }

    /** goAwayHandler: `drain` and `handled` are what the server's own handler returns. */
    method HandleGoAway(drain: bool, handled: bool) returns (ok: bool)
      requires Valid()
      modifies this`draining, this`wire
      ensures Valid() && Next(Model(), ok) == OnGoAway(old(Model()), drain, handled)
    {
      hide Valid, Streams;
      if !server {
        return true;
      }
      Emit(GoAwayItem);
      if !handled {
        return false;
      }
      label before:
      draining := drain;
      OnlySelf@before();
      return true;
    }

    method ActivateAll(order: seq<nat>)
      requires Valid() && ListOk(Model())
      modifies Repr()
      ensures Valid() && estdStreams == old(estdStreams)
      ensures Model() == ActivateWaiting(old(Model()), order)
    {
      hide Valid, Streams, ListOk;
      for i := 0 to |order|
        invariant Valid() && estdStreams == old(estdStreams) && ListOk(Model())
        invariant ActivateWaiting(Model(), order[i..]) == ActivateWaiting(old(Model()), order)
      {
        StreamsAt();
        assert order[i..][1..] == order[i + 1..];
        var id := order[i];
        if id in estdStreams && estdStreams[id].state == WaitingOnStreamQuota {
          Listed(id);
          ActivateOk(Model(), id);
          label before:
          var str := estdStreams[id];
          str.state := Active;
          Assigned@before(str);
          Enqueue(str);
        }
      }
    }

    method ApplySettingOf(s: Setting)
      requires Valid() && ListOk(Model())
      modifies Repr()
      ensures Valid() && estdStreams == old(estdStreams)
      ensures Model() == ApplySetting(old(Model()), s)
    {
      hide Valid, Streams, ListOk, ActivateWaiting;
      match s {
        case InitialWindowSize(v, order) =>
          var o := oiws;
          oiws := v;
          OnlySelf();
          ListKept(old(Model()), Model());
          if o < oiws {
            ActivateAll(order);
          }
        case HeaderTableSize(v) => Emit(TableSize(v));
        case OtherSetting =>
      }
    }

    method ApplySettingsOf(ss: seq<Setting>)
      requires Valid() && Inv(Model()) && Covers(Model(), ss)
      modifies Repr()
      ensures Valid() && estdStreams == old(estdStreams)
      ensures Model() == ApplySettings(old(Model()), ss)
    {
      hide Valid, Streams, Model, ApplySetting;
      for i := 0 to |ss|
        invariant Valid() && estdStreams == old(estdStreams) && Inv(Model()) && Covers(Model(), ss)
        invariant ApplySettings(Model(), ss[i..]) == ApplySettings(old(Model()), ss)
      {
        assert ss[i..][1..] == ss[i + 1..] && Covers(Model(), [ss[i]]);
        SettingOk(Model(), ss[i]);
        ApplySettingOf(ss[i]);
      }
    }

    /** Every control item does what its function says, and keeps the invariant. */
    method HandleCommand(c: Command) returns (ok: bool)
      requires Valid() && Inv(Model()) && Legal(Model(), c)
      modifies Repr()
      ensures Valid() && Inv(Model()) && fresh(Repr() - old(Repr()))
      ensures Next(Model(), ok) == Handle(old(Model()), c)
    {
      hide Valid, Streams, Inv, ListOk, NoDuplicates, Cleanup, OnHeaders, OnWindowUpdate, OnBytes, ApplySettings;
      hide OnGoAway, Refused;
      InvList(Model());
      Distinct(Model());
      StreamsAt();
      HandleOk(Model(), c);
      ok := true;
      match c {
        case IncomingWindowUpdate(id, increment) => IncomingWindowUpdate(id, increment);
        case IncomingSettings(ss) =>
          ApplySettingsOf(ss);
          Emit(SettingsAck);
        case Headers(id, fields, endStream, init, rst) => ok := HandleHeaders(id, fields, endStream, init, rst);
        case RegisterStream(id) => RegisterStream(id);
        case CleanupStream(id, rst) => ok := CleanupStream(id, rst);
        case IncomingGoAway => ok := IncomingGoAwayFrame();
        case Bytes(id, bytes, endStream) => PreprocessData(id, bytes, endStream);
        case Emission(o) =>
          if Refused(o) {
            ok := false;
          } else {
            Emit(Control(o));
          }
        case OutgoingGoAway(drain, handled) => ok := HandleGoAway(drain, handled);
        case QuotaRequest => Emit(QuotaReply(sendQuota));
      }
    }

    /** Removes the first stream of the list. */
    method Dequeue() returns (str: OutStream?)
      requires Valid()
      modifies Repr()
      ensures Valid() && estdStreams == old(estdStreams)
      ensures str == null <==> old(Model()).active == []
      ensures str == null ==> Model() == old(Model())
      ensures str != null ==>
                && str.id == old(Model()).active[0] && str.id in estdStreams
                && estdStreams[str.id] == str && str !in activeStreams.nodes
      ensures str != null ==> Model() == old(Model()).(active := old(Model()).active[1..])
    {
      hide Linked;
      AllInRepr();
      str := activeStreams.Dequeue();
      assert Streams() == old(Streams());
    }

    /** The frame with `n` octets of the first item of a stream; what is then left in its queue. */
    method WriteItem(str: OutStream, n: nat) returns (items: seq<Item>)
      requires Valid() && str.items != [] && str.items[0].Data? && n <= |str.items[0].bytes|
      modifies this`wire
      ensures Valid() && Model() == old(Model()).(wire := wire)
      ensures var it := str.items[0]; var all := |it.bytes[n..]| == 0;
              var frame := DataFrame(str.id, it.bytes[..n], it.endStream && |it.bytes| <= n);
              var left := [Data(it.bytes[n..], it.endStream)] + str.items[1..];
              && wire == (if all then old(wire) + [frame] + [Completed(str.id)] else old(wire) + [frame])
              && items == (if all then left[1..] else left)
    {
      hide Valid, Streams;
      var it := str.items[0];
      var endStream := it.endStream && |it.bytes| <= n;
      wire := wire + [DataFrame(str.id, it.bytes[..n], endStream)];
      var rest := it.bytes[n..];
      items := [Data(rest, it.endStream)] + str.items[1..];
      if |rest| == 0 {
        items := items[1..];
        wire := wire + [Completed(str.id)];
      }
      OnlySelf();
    }

    /** The queue and the windows after `n` octets went out. */
    method Deduct(str: OutStream, items: seq<Item>, n: nat)
      requires Valid() && str.id in estdStreams && estdStreams[str.id] == str && n <= sendQuota
      modifies this`sendQuota, str`items, str`bytesOutStanding
      ensures Valid()
      ensures var s := Stream(old(str.state), items, old(str.bytesOutStanding) + n);
              Model() == Update(old(Model()), str.id, s).(sendQuota := old(sendQuota) - n)
    {
      hide Valid, Streams;
      str.items := items;
      str.bytesOutStanding := str.bytesOutStanding + n;
      sendQuota := sendQuota - n;
      Assigned(str);
    }

    /** Writes `n` octets of the first item of a stream. */
    method SendItem(str: OutStream, n: nat)
      requires Valid() && str.id in estdStreams && estdStreams[str.id] == str && str.items != [] && str.items[0].Data?
      requires n <= |str.items[0].bytes| && n <= sendQuota
      modifies this`wire, this`sendQuota, str`items, str`bytesOutStanding
      ensures Valid() && Model() == Send(old(Model()), str.id, n)
    {
      hide Valid, Streams, Send;
      StreamsAt();
      SendParts(Model(), str.id, n);
      var items := WriteItem(str, n);
      Deduct(str, items, n);
    }

    /** What follows a write: the stream is out of data, its trailers go out, it waits or it queues again. */
    method Resume(str: OutStream, checkWindow: bool) returns (ok: bool)
      requires Valid() && NoDuplicates(Model().active) && str.id in estdStreams && estdStreams[str.id] == str
      requires str !in activeStreams.nodes
      modifies Repr()
      ensures Valid() && Repr() <= old(Repr())
      ensures Next(Model(), ok) == AfterWrite(old(Model()), str.id, checkWindow)
    {
      hide Valid, Streams, NoDuplicates, Cleanup;
      StreamsAt();
      ok := true;
      if str.items == [] {
        str.state := Empty;
        Assigned(str);
      } else if str.items[0].Trailer? {
        ok := SendTrailer(str);
        ok := ok || !checkWindow;
      } else if checkWindow && oiws - str.bytesOutStanding <= 0 {
        str.state := WaitingOnStreamQuota;
        Assigned(str);
      } else {
        Enqueue(str);
      }
    }

    method SendTrailer(str: OutStream) returns (ok: bool)
      requires Valid() && NoDuplicates(Model().active) && str.id in estdStreams && estdStreams[str.id] == str
      requires str.items != [] && str.items[0].Trailer?
      modifies Repr()
      ensures Valid() && Repr() <= old(Repr())
      ensures var t := old(str.items)[0];
              Next(Model(), ok) == Cleanup(Write(old(Model()), HeadersFrame(str.id, t.fields, true)), str.id, t.rst)
    {
      hide Valid, Streams, NoDuplicates, Cleanup;
      var t := str.items[0];
      Emit(HeadersFrame(str.id, t.fields, true));
      ok := CleanupStream(str.id, t.rst);
    }

    method Serve(str: OutStream, n: nat, checkWindow: bool) returns (ok: bool)
      requires Valid() && Held(Model(), str.id) && str.id in estdStreams && estdStreams[str.id] == str
      requires str !in activeStreams.nodes
      requires str.items != [] && str.items[0].Data? && n <= |str.items[0].bytes| && n <= sendQuota
      modifies Repr()
      ensures Valid() && Repr() <= old(Repr())
      ensures Next(Model(), ok) == AfterWrite(Send(old(Model()), str.id, n), str.id, checkWindow)
    {
      hide Valid, Streams, Held, Send, AfterWrite, NoDuplicates;
      StreamsAt();
      SendHeld(Model(), str.id, n);
      SendItem(str, n);
      HeldDistinct(Model(), str.id);
      ok := Resume(str, checkWindow);
    }

    /** processData: whether there was nothing to do, and whether the writer goes on. */
    method ProcessOne() returns (isEmpty: bool, ok: bool)
      requires Valid() && Inv(Model())
      modifies Repr()
      ensures Valid() && Inv(Model()) && Repr() <= old(Repr())
      ensures isEmpty <==> Idle(old(Model()))
      ensures Servable(old(Model())) && Next(Model(), ok) == ProcessData(old(Model()))
    {
      hide Valid, Streams, Inv, Held, Send, AfterWrite, NoDuplicates;
      ghost var l := Model();
      ProcessDataOk(l);
      if sendQuota == 0 {
        return true, true;
      }
      if l.active != [] { DequeueHeld(l); }
      var str := Dequeue();
      if str == null {
        return true, true;
      }
      StreamsAt();
      isEmpty := false;
      var dataSize := |str.items[0].bytes|;
      if dataSize == 0 {
        ok := Serve(str, 0, false);
        return;
      }
      var strQuota := oiws - str.bytesOutStanding;
      if strQuota <= 0 {
        label before:
        str.state := WaitingOnStreamQuota;
        Assigned@before(str);
        ok := true;
        return;
      }
      var maxSize := Min(Min(maxFrameSize, strQuota), sendQuota);
      var size := Min(maxSize, dataSize);
      ok := Serve(str, size, true);
    }

    /** The loop of the writer while no control item arrives: it ends, because the measure decreases. */
    method DrainAll() returns (ok: bool)
      requires Valid() && Inv(Model())
      modifies Repr()
      ensures Valid() && Inv(Model()) && Repr() <= old(Repr())
      ensures Next(Model(), ok) == Drain(old(Model())) && (ok ==> Idle(Model()))
    {
      hide Valid, Streams, Inv, Model, ProcessData, Weight, Measure, Idle, Servable;
      ok := true;
      var isEmpty := false;
      while ok && !isEmpty
        invariant Valid() && Inv(Model()) && Repr() <= old(Repr())
        invariant if ok then Drain(Model()) == Drain(old(Model())) else Next(Model(), false) == Drain(old(Model()))
        invariant isEmpty ==> ok && Idle(Model())
        decreases !isEmpty, if Inv(Model()) then Measure(Model()) else 0
      {
        ghost var l := Model();
        if !Idle(l) { Progress(l); } else { ProcessDataOk(l); IdleStays(l); }
        isEmpty, ok := ProcessOne();
      }
    }
  }

  lemma SendParts(l: Loopy, id: nat, n: nat)
    requires id in l.streams && l.streams[id].items != [] && l.streams[id].items[0].Data?
    requires n <= |l.streams[id].items[0].bytes| && n <= l.sendQuota
    ensures var s := l.streams[id]; var it := s.items[0]; var all := |it.bytes[n..]| == 0;
            var frame := DataFrame(id, it.bytes[..n], it.endStream && |it.bytes| <= n);
            var items := [Data(it.bytes[n..], it.endStream)] + s.items[1..];
            var left := if all then items[1..] else items;
            Send(l, id, n) == l.(wire := if all then l.wire + [frame] + [Completed(id)] else l.wire + [frame],
                                 sendQuota := l.sendQuota - n,
                                 streams := l.streams[id := Stream(s.state, left, s.bytesOutStanding + n)])
  {
    var items := l.streams[id].items;
    assert ([Data(items[0].bytes[n..], items[0].endStream)] + items[1..])[1..] == items[1..];
  }

  lemma HeldDistinct(l: Loopy, id: nat)
    requires Held(l, id)
    ensures NoDuplicates(l.active) && l.sendQuota < WORD
  {
  }

  lemma Distinct(l: Loopy)
    requires ListOk(l)
    ensures NoDuplicates(l.active)
  {
  }

  lemma ListKept(l: Loopy, r: Loopy)
    requires ListOk(l) && r.streams == l.streams && r.active == l.active
    ensures ListOk(r)
  {
  }

  lemma UpdateConn(l: Loopy, increment: nat)
    ensures OnWindowUpdate(l, 0, increment) == l.(sendQuota := (l.sendQuota + increment) % WORD)
  {
  }

  lemma UpdateStream(l: Loopy, id: nat, increment: nat)
    requires id != 0
    ensures OnWindowUpdate(l, id, increment) ==
            if id !in l.streams then l
            else
              var s := l.streams[id].(bytesOutStanding := l.streams[id].bytesOutStanding - increment);
              if l.oiws - s.bytesOutStanding > 0 && s.state == WaitingOnStreamQuota then
                Update(l, id, s.(state := Active)).(active := l.active + [id])
              else Update(l, id, s)
  {
  }

  lemma DropIds(nodes: seq<OutStream>, now: seq<OutStream>, k: nat)
    requires NoDuplicates(Ids(nodes)) && k < |nodes| && now == nodes[..k] + nodes[k + 1..]
    ensures Ids(now) == WithoutId(Ids(nodes), nodes[k].id)
  {
    WithoutAt(Ids(nodes), k);
    hide WithoutId, NoDuplicates;
    assert Ids(now) == Ids(nodes)[..k] + Ids(nodes)[k + 1..];
  }

  lemma DropMembers(nodes: seq<OutStream>, now: seq<OutStream>, k: nat)
    requires NoDuplicates(Ids(nodes)) && k < |nodes| && now == nodes[..k] + nodes[k + 1..]
    ensures forall s :: s in now <==> s in nodes && s != nodes[k]
  {
    forall s | s in nodes && s != nodes[k] ensures s in now {
      var j :| 0 <= j < |nodes| && nodes[j] == s;
      assert now[if j < k then j else j - 1] == s;
    }
    forall j | 0 <= j < |now| ensures now[j] in nodes && now[j] != nodes[k] {
      var i := if j < k then j else j + 1;
      assert now[j] == nodes[i] && Ids(nodes)[i] != Ids(nodes)[k];
    }
  }

  lemma DropNode(nodes: seq<OutStream>, now: seq<OutStream>, str: OutStream)
    requires NoDuplicates(Ids(nodes)) && forall s :: s in nodes && s.id == str.id ==> s == str
    requires str !in nodes ==> now == nodes
    requires forall k :: 0 <= k < |nodes| && nodes[k] == str ==> now == nodes[..k] + nodes[k + 1..]
    ensures Ids(now) == WithoutId(Ids(nodes), str.id)
    ensures forall s :: s in now <==> s in nodes && s != str
  {
    hide NoDuplicates, WithoutId;
    if str in nodes {
      var k :| 0 <= k < |nodes| && nodes[k] == str;
      DropIds(nodes, now, k);
      DropMembers(nodes, now, k);
    } else {
      assert str.id !in Ids(nodes);
      WithoutNone(Ids(nodes), str.id);
    }
  }

  /** Without repetitions, dropping a number is removing it at its position. */
  lemma {:induction false} WithoutAt(s: seq<nat>, k: nat)
    requires NoDuplicates(s) && k < |s|
    ensures WithoutId(s, s[k]) == s[..k] + s[k + 1..]
    decreases |s|
  {
    if k == 0 {
      WithoutNone(s[1..], s[0]);
    } else {
      WithoutAt(s[1..], k - 1);
      assert s[1..][..k - 1] == s[1..k] && s[1..][k..] == s[k + 1..];
      assert s[..k] == [s[0]] + s[1..k];
    }
  }
}
