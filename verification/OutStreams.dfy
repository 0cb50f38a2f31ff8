/** The list of active streams: an intrusive doubly linked list between two sentinels. */
module OutStreams {
  import opened Loopy

  class OutStream {
    const id: nat
    var state: State
    var items: seq<Item>
    var bytesOutStanding: int
    var next: OutStream?
    var prev: OutStream?

    constructor (id: nat)
      ensures this.id == id && Value() == FRESH && next == null && prev == null
    {
      this.id := id;
      state, items, bytesOutStanding := Empty, [], 0;
      next, prev := null, null;
    }

    function Value(): Stream
      reads this`state, this`items, this`bytesOutStanding
    {
      Stream(state, items, bytesOutStanding)
    }

    ghost function Neighbours(): set<OutStream>
      reads this
    {
      (if prev == null then {} else {prev}) + (if next == null then {} else {next})
    }

    method DeleteSelf()
      requires this !in Neighbours()
      modifies this`next, this`prev, Neighbours()`next, Neighbours()`prev
      ensures next == null && prev == null
      ensures forall x :: x in old(Neighbours()) ==>
                && x.next == (if x == old(prev) then old(next) else old(x.next))
                && x.prev == (if x == old(next) then old(prev) else old(x.prev))
    {
      if prev != null { prev.next := next; }
      if next != null { next.prev := prev; }
      next, prev := null, null;
    }
  }

  /** From sentinel to sentinel each node is linked to its neighbours, and none occurs twice. */
  ghost predicate Linked(a: seq<OutStream>)
    reads a`next, a`prev
  {
    && (forall i, j :: 0 <= i < j < |a| ==> a[i] != a[j])
    && (forall i :: 0 <= i < |a| - 1 ==> a[i].next == a[i + 1] && a[i + 1].prev == a[i])
  }

  class OutStreamList {
    const head: OutStream
    const tail: OutStream
    ghost var nodes: seq<OutStream>

    ghost function All(): seq<OutStream>
      reads this
    {
      [head] + nodes + [tail]
    }

    ghost predicate Valid()
      reads this, All()`next, All()`prev
    {
      Linked(All())
    }

    constructor ()
      ensures Valid() && nodes == [] && fresh(head) && fresh(tail)
    {
      var h := new OutStream(0);
      var t := new OutStream(0);
      h.next := t;
      t.prev := h;
      head, tail := h, t;
      nodes := [];
    }

    method Enqueue(s: OutStream)
      requires Valid() && s !in All()
      modifies this`nodes, s`next, s`prev, All()`next, All()`prev
      ensures Valid() && nodes == old(nodes) + [s]
    {
      ghost var a := All();
      ghost var last: nat := |a| - 2;
      assert a[last + 1] == tail && a[last + 1].prev == a[last];
      var e := tail.prev;
      e.next := s;
      s.prev := e;
      s.next := tail;
      tail.prev := s;
      nodes := nodes + [s];
      assert All() == a[..|a| - 1] + [s, tail];
    }

    /** Takes out a node, wherever it is; a node that is not in the list has no links. */
    method Delete(s: OutStream)
      requires Valid() && s != head && s != tail && (s in nodes || (s.next == null && s.prev == null))
      modifies this`nodes, s`next, s`prev, All()`next, All()`prev
      ensures Valid() && s !in nodes && s.next == null && s.prev == null
      ensures s !in old(nodes) ==> nodes == old(nodes)
      ensures forall k :: 0 <= k < |old(nodes)| && old(nodes)[k] == s ==> nodes == old(nodes)[..k] + old(nodes)[k + 1..]
    {
      hide Linked;
      ghost var k := Position(s);
      if k < |nodes| { Around(k); }
      assert s !in s.Neighbours() && s.Neighbours() <= set x | x in All();
      s.DeleteSelf();
      if k < |nodes| {
        Unlinked(k);
        nodes := nodes[..k] + nodes[k + 1..];
        assert All() == old(All())[..k + 1] + old(All())[k + 2..];
      }
    }

    /** The links around a node that took itself out. */
    twostate lemma Unlinked(k: nat)
      requires old(Valid()) && nodes == old(nodes) && k < |nodes|
      requires forall x :: x in All() && x != nodes[k] ==>
                && x.next == (if x == old(nodes[k].prev) then old(nodes[k].next) else old(x.next))
                && x.prev == (if x == old(nodes[k].next) then old(nodes[k].prev) else old(x.prev))
      ensures Linked(All()[..k + 1] + All()[k + 2..])
    {
      var b, a := All(), All()[..k + 1] + All()[k + 2..];
      assert b == old(All());
      assert b[k + 1] == nodes[k] && old(b[k + 1].next) == b[k + 2] && old(b[k + 1].prev) == b[k];
      forall i | 0 <= i < |a| - 1 ensures a[i].next == a[i + 1] && a[i + 1].prev == a[i] {
        var u := if i <= k then i else i + 1;
        var v := if i + 1 <= k then i + 1 else i + 2;
        assert a[i] == b[u] && a[i + 1] == b[v];
        assert u == k || old(b[u].next) == b[u + 1];
        assert v == k + 2 || old(b[v - 1 + 1].prev) == b[v - 1];
      }
    }

    /** The place of a node, or the length of the list, and what the links say there. */
    ghost function Position(s: OutStream): (k: nat)
      requires Valid()
      reads this, All()`next, All()`prev
      ensures if s in nodes then k < |nodes| && nodes[k] == s else k == |nodes|
    {
      if s in nodes then var k :| 0 <= k < |nodes| && nodes[k] == s; k else |nodes|
    }

    lemma Around(k: nat)
      requires Valid() && k < |nodes|
      ensures nodes[k].prev == All()[k] && nodes[k].next == All()[k + 2]
      ensures forall j :: 0 <= j < |nodes| && nodes[j] == nodes[k] ==> j == k
      ensures var s := nodes[k]; s.prev != s && s.next != s && s.prev != s.next
    {
      assert All()[k + 1] == nodes[k] && All()[k + 1].next == All()[k + 2];
      assert All()[k + 1].prev == All()[k];
      assert forall j :: 0 <= j < |nodes| ==> nodes[j] == All()[j + 1];
    }

    method Dequeue() returns (s: OutStream?)
      requires Valid()
      modifies this`nodes, All()`next, All()`prev
      ensures Valid()
      ensures old(nodes) == [] ==> s == null && nodes == []
      ensures old(nodes) != [] ==>
                s == old(nodes)[0] && nodes == old(nodes)[1..] && s !in nodes && s.next == null && s.prev == null
    {
      ghost var a := All();
      assert a[0] == head && a[0].next == a[0 + 1];
      assert nodes != [] ==> a[1] == nodes[0] && a[1] != a[|a| - 1];
      var b := head.next;
      if b == tail {
        return null;
      }
      assert nodes != [] && nodes[0] == b;
      Delete(b);
      return b;
    }
  }
}
