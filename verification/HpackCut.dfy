/** Decoder.Write does not depend on how its input is cut. */
module HpackCut {
  import opened Bits
  import opened HeaderTable
  import opened DynamicTable
  import opened HpackString
  import opened Hpack
  import VarInt
  import Huffman

  // ---- More input does not change a finished parse ----

  function Extend(r: Parse, q: Str): Parse {
    match r case Done(d, rest) => Done(d, rest + q) case e => e
  }

  function ExtendLiteral(r: LiteralRead, q: Str): LiteralRead {
    match r case Literal(n, v, rest) => Literal(n, v, rest + q) case e => e
  }

  lemma ValueExtend(c: Shared, maxStrLen: nat, want: bool, name: Str, p: Str, q: Str)
    requires Huffman.WellFormed(c.code) && !ReadValue(c, maxStrLen, want, name, p).LiteralMore?
    ensures ReadValue(c, maxStrLen, want, name, p + q) == ExtendLiteral(ReadValue(c, maxStrLen, want, name, p), q)
  {
    hide Huffman.WellFormed, ReadString;
    ReadStringExtend(c.code, maxStrLen, p, q, want);
  }

  lemma LiteralExtend(c: Shared, ents: seq<HeaderField>, maxStrLen: nat, want: bool, n: nat, p: Str, q: Str)
    requires Huffman.WellFormed(c.code) && 1 <= n <= 8 && !ReadLiteral(c, ents, maxStrLen, want, n, p).LiteralMore?
    ensures ReadLiteral(c, ents, maxStrLen, want, n, p + q) ==
              ExtendLiteral(ReadLiteral(c, ents, maxStrLen, want, n, p), q)
  {
    hide Huffman.WellFormed, ReadString, VarInt.Read, At, ReadValue;
    VarInt.ReadExtend(n, p, q);
    match VarInt.Read(n, p)
    case Overflow =>
    case Value(i, rest) =>
      if i > 0 {
        match At(c.fixed, ents, i)
        case None =>
        case Some(f) => ValueExtend(c, maxStrLen, want, f.name, rest, q);
      } else {
        ReadStringExtend(c.code, maxStrLen, rest, q, want);
        match ReadString(c.code, maxStrLen, rest, want)
        case Failed(e) =>
        case Text(name, rest) => ValueExtend(c, maxStrLen, want, name, rest, q);
      }
  }

  lemma ParseExtend(c: Shared, keep: Keep, d: Dec, p: Str, q: Str)
    requires Huffman.WellFormed(c.code) && p != [] && !ParseRepr(c, keep, d, p).NeedMore?
    ensures ParseRepr(c, keep, d, p + q) == Extend(ParseRepr(c, keep, d, p), q)
  {
    hide Huffman.WellFormed, ReadLiteral, VarInt.Read, At, Add, SetMaxSize;
    var b := p[0];
    assert (p + q)[0] == b;
    if b >= 128 {
      VarInt.ReadExtend(7, p, q);
    } else if b >= 64 {
      LiteralExtend(c, d.tab.ents, d.maxStrLen, true, 6, p, q);
    } else if b >= 32 {
      if d.firstField || d.tab.size == 0 {
        VarInt.ReadExtend(5, p, q);
      }
    } else {
      LiteralExtend(c, d.tab.ents, d.maxStrLen, d.emitEnabled, 4, p, q);
    }
  }

  // ---- A parse that needed the added input consumes some of it ----

  lemma {:induction false} TailBeyond(p: Str, q: Str, i: nat, m: nat)
    requires VarInt.ReadTail(p, i, m).NeedMore? && VarInt.ReadTail(p + q, i, m).Value?
    ensures |VarInt.ReadTail(p + q, i, m).rest| < |q|
    decreases |p|
  {
    if p == [] {
      assert p + q == q;
    } else {
      assert (p + q)[1..] == p[1..] + q;
      TailBeyond(p[1..], q, i + VarInt.Weigh(p[0], m), m + 7);
    }
  }

  lemma IntBeyond(n: nat, p: Str, q: Str)
    requires 1 <= n <= 8 && VarInt.Read(n, p).NeedMore? && VarInt.Read(n, p + q).Value?
    ensures |VarInt.Read(n, p + q).rest| < |q|
  {
    if p == [] {
      assert p + q == q;
    } else {
      assert (p + q)[1..] == p[1..] + q;
      TailBeyond(p[1..], q, VarInt.Prefix(p[0], n), 0);
    }
  }

  lemma StringBeyond(code: Huffman.Table, maxLen: nat, p: Str, q: Str, want: bool)
    requires Huffman.WellFormed(code)
    requires ReadString(code, maxLen, p, want).More? && ReadString(code, maxLen, p + q, want).Text?
    ensures |ReadString(code, maxLen, p + q, want).rest| < |q|
  {
    hide Huffman.WellFormed, Huffman.DecodeBits, VarInt.Read;
    if p == [] {
      assert p + q == q;
    } else if VarInt.Read(7, p).NeedMore? {
      IntBeyond(7, p, q);
    } else {
      VarInt.ReadExtend(7, p, q);
    }
  }

  lemma ValueBeyond(c: Shared, maxStrLen: nat, want: bool, name: Str, p: Str, q: Str)
    requires Huffman.WellFormed(c.code)
    requires ReadValue(c, maxStrLen, want, name, p).LiteralMore? && ReadValue(c, maxStrLen, want, name, p + q).Literal?
    ensures |ReadValue(c, maxStrLen, want, name, p + q).rest| < |q|
  {
    hide Huffman.WellFormed, ReadString;
    StringBeyond(c.code, maxStrLen, p, q, want);
  }

  lemma LiteralBeyond(c: Shared, ents: seq<HeaderField>, maxStrLen: nat, want: bool, n: nat, p: Str, q: Str)
    requires Huffman.WellFormed(c.code) && 1 <= n <= 8
    requires ReadLiteral(c, ents, maxStrLen, want, n, p).LiteralMore?
    requires ReadLiteral(c, ents, maxStrLen, want, n, p + q).Literal?
    ensures |ReadLiteral(c, ents, maxStrLen, want, n, p + q).rest| < |q|
  {
    hide Huffman.WellFormed, ReadString, VarInt.Read, At, ReadValue;
    match VarInt.Read(n, p)
    case NeedMore => IntBeyond(n, p, q);
    case Overflow => VarInt.ReadExtend(n, p, q);
    case Value(i, rest) =>
      VarInt.ReadExtend(n, p, q);
      if i > 0 {
        var f := At(c.fixed, ents, i).value;
        ValueBeyond(c, maxStrLen, want, f.name, rest, q);
      } else {
        match ReadString(c.code, maxStrLen, rest, want)
        case More => StringBeyond(c.code, maxStrLen, rest, q, want);
        case Failed(e) => ReadStringExtend(c.code, maxStrLen, rest, q, want);
        case Text(name, rest') =>
          ReadStringExtend(c.code, maxStrLen, rest, q, want);
          ValueBeyond(c, maxStrLen, want, name, rest', q);
      }
  }

  lemma ParseBeyond(c: Shared, keep: Keep, d: Dec, p: Str, q: Str)
    requires Huffman.WellFormed(c.code) && p != []
    requires ParseRepr(c, keep, d, p).NeedMore? && ParseRepr(c, keep, d, p + q).Done?
    ensures |ParseRepr(c, keep, d, p + q).rest| < |q|
  {
    hide Huffman.WellFormed, ReadLiteral, VarInt.Read, At, Add, SetMaxSize;
    var b := p[0];
    assert (p + q)[0] == b;
    if b >= 128 {
      IntBeyond(7, p, q);
    } else if b >= 64 {
      LiteralBeyond(c, d.tab.ents, d.maxStrLen, true, 6, p, q);
    } else if b >= 32 {
      IntBeyond(5, p, q);
    } else {
      LiteralBeyond(c, d.tab.ents, d.maxStrLen, d.emitEnabled, 4, p, q);
    }
  }

  lemma ParseKeepsRest(c: Shared, keep: Keep, d: Dec, p: Str)
    requires Huffman.WellFormed(c.code) && p != [] && ParseRepr(c, keep, d, p).Done?
    ensures var d' := ParseRepr(c, keep, d, p).d; d'.saved == d.saved && d'.maxStrLen == d.maxStrLen
  {
    hide Huffman.WellFormed, ReadLiteral, VarInt.Read, At, Add, SetMaxSize;
  }

  /** A representation is finished by its last octet: at least as many octets leave it finished... */
  lemma LongerPrefix(c: Shared, keep: Keep, d: Dec, buf: Str, k: nat)
    requires Huffman.WellFormed(c.code) && buf != [] && ParseRepr(c, keep, d, buf).Done?
    requires |buf| - |ParseRepr(c, keep, d, buf).rest| <= k <= |buf|
    ensures k > 0 && ParseRepr(c, keep, d, buf[..k]).Done?
    ensures Extend(ParseRepr(c, keep, d, buf[..k]), buf[k..]) == ParseRepr(c, keep, d, buf)
  {
    hide Huffman.WellFormed, ParseRepr;
    var p, q := buf[..k], buf[k..];
    assert p + q == buf;
    if ParseRepr(c, keep, d, p).NeedMore? {
      ParseBeyond(c, keep, d, p, q);
    } else {
      ParseExtend(c, keep, d, p, q);
    }
  }

  /** ... and fewer leave it incomplete. */
  lemma ShorterPrefix(c: Shared, keep: Keep, d: Dec, buf: Str, k: nat)
    requires Huffman.WellFormed(c.code) && buf != [] && ParseRepr(c, keep, d, buf).Done?
    requires 0 < k < |buf| - |ParseRepr(c, keep, d, buf).rest|
    ensures ParseRepr(c, keep, d, buf[..k]).NeedMore?
  {
    hide Huffman.WellFormed, ParseRepr;
    var p, q := buf[..k], buf[k..];
    assert p + q == buf;
    if !ParseRepr(c, keep, d, p).NeedMore? {
      ParseExtend(c, keep, d, p, q);
    }
  }

  // ---- Cutting the input ----

  /** The most that Save keeps of an incomplete representation. */
  function Bound(d: Dec): nat {
    2 * (d.maxStrLen + 8)
  }

  /** No cut within the representation at the front of `buf` leaves more than Save keeps. */
  ghost predicate FrontFits(c: Shared, keep: Keep, d: Dec, buf: Str)
    requires Huffman.WellFormed(c.code)
  {
    forall k :: 0 < k <= |buf| && ParseRepr(c, keep, d, buf[..k]).NeedMore? ==> k <= Bound(d)
  }

  /** At every representation: no cut within it is refused, or being refused there is the outcome anyway. */
  ghost predicate Cuttable(c: Shared, keep: Keep, d: Dec, buf: Str)
    requires Huffman.WellFormed(c.code)
    decreases |buf|
  {
    buf == [] ||
    (&& (FrontFits(c, keep, d, buf) || Run(c, keep, d, buf) == Outcome(d, Some(StringLength)))
     && match ParseRepr(c, keep, d, buf)
        case Done(d', rest) => Cuttable(c, keep, d'.(firstField := false), rest)
        case _ => true)
  }

  ghost predicate MayCut(c: Shared, keep: Keep, d: Dec, buf: Str)
    requires Huffman.WellFormed(c.code)
  {
    d.maxStrLen == 0 || Cuttable(c, keep, d, buf)
  }

  /** A call on the first part of the input has the outcome of the whole if it fails, and otherwise
      leaves a state from which the rest leads to that outcome. */
  lemma {:induction false} RunSplit(c: Shared, keep: Keep, d: Dec, u: Str, y: Str)
    requires Huffman.WellFormed(c.code) && d.saved == [] && MayCut(c, keep, d, u + y)
    ensures var o := Run(c, keep, d, u);
            if o.failure.Some? then o == Run(c, keep, d, u + y)
            else
              var d2 := o.d.(saved := []);
              Run(c, keep, d2, o.d.saved + y) == Run(c, keep, d, u + y) && MayCut(c, keep, d2, o.d.saved + y)
    decreases |u|
  {
    hide Huffman.WellFormed, ParseRepr;
    if u == [] {
      assert u + y == y;
    } else {
      match ParseRepr(c, keep, d, u)
      case NeedMore =>
        assert (u + y)[..|u|] == u;
        assert d.(saved := u).(saved := []) == d;
      case Fatal(d', e) => ParseExtend(c, keep, d, u, y);
      case Done(d', rest) =>
        ParseExtend(c, keep, d, u, y);
        ParseKeepsRest(c, keep, d, u);
        RunSplit(c, keep, d'.(firstField := false), rest, y);
    }
  }

  /** Feeding pieces one after the other, up to the first error. */
  function Feed(c: Shared, keep: Keep, d: Dec, pieces: seq<Str>): Outcome
    requires Huffman.WellFormed(c.code)
    decreases |pieces|
  {
    if pieces == [] then Outcome(d, None)
    else
      var o := Write(c, keep, d, pieces[0]);
      if o.failure.Some? then o else Feed(c, keep, o.d, pieces[1..])
  }

  function Join(pieces: seq<Str>): Str {
    if pieces == [] then [] else pieces[0] + Join(pieces[1..])
  }

  /** Cut independence: feeding a block in any pieces has the same outcome (fields, error and state)
      as feeding it whole; always when there is no string limit. */
  lemma {:induction false} CutIndependence(c: Shared, keep: Keep, d: Dec, pieces: seq<Str>)
    requires Huffman.WellFormed(c.code) && MayCut(c, keep, d.(saved := []), d.saved + Join(pieces))
    ensures Feed(c, keep, d, pieces) == Write(c, keep, d, Join(pieces))
    decreases |pieces|
  {
    hide Huffman.WellFormed, Run, Cuttable;
    if pieces != [] {
      var p, ps := pieces[0], pieces[1..];
      if p == [] {
        assert Join(pieces) == Join(ps);
        CutIndependence(c, keep, d, ps);
      } else {
        assert d.saved + Join(pieces) == (d.saved + p) + Join(ps);
        RunSplit(c, keep, d.(saved := []), d.saved + p, Join(ps));
        var o := Write(c, keep, d, p);
        if o.failure.None? {
          CutIndependence(c, keep, o.d, ps);
          if Join(ps) == [] { assert d.saved + Join(pieces) == d.saved + p; }
        }
      }
    }
  }

  // ---- Exactly when cuts do not matter ----

  /** A place where cutting changes the outcome. */
  lemma {:induction false} BadCut(c: Shared, keep: Keep, d: Dec, buf: Str) returns (k: nat)
    requires Huffman.WellFormed(c.code) && d.saved == [] && d.maxStrLen != 0 && !Cuttable(c, keep, d, buf)
    ensures k <= |buf| && Resume(c, keep, Run(c, keep, d, buf[..k]), buf[k..]) != Run(c, keep, d, buf)
    decreases |buf|
  {
    hide Huffman.WellFormed, ParseRepr;
    if FrontFits(c, keep, d, buf) || Run(c, keep, d, buf) == Outcome(d, Some(StringLength)) {
      var d', rest := ParseRepr(c, keep, d, buf).d, ParseRepr(c, keep, d, buf).rest;
      var d1, n := d'.(firstField := false), |buf| - |rest|;
      ParseKeepsRest(c, keep, d, buf);
      var j := BadCut(c, keep, d1, rest);
      k := n + j;
      LongerPrefix(c, keep, d, buf, k);
      var r := ParseRepr(c, keep, d, buf[..k]).rest;
      assert r + buf[k..] == rest && |r| == j;
      assert r == rest[..j] && buf[k..] == rest[j..];
    } else {
      k :| 0 < k <= |buf| && ParseRepr(c, keep, d, buf[..k]).NeedMore? && k > Bound(d);
    }
  }

  /** Feeding more input after a call. */
  function Resume(c: Shared, keep: Keep, o: Outcome, q: Str): Outcome
    requires Huffman.WellFormed(c.code)
  {
    if o.failure.Some? then o else Write(c, keep, o.d, q)
  }

  lemma FeedTwo(c: Shared, keep: Keep, d: Dec, p: Str, q: Str)
    requires Huffman.WellFormed(c.code) && d.saved == []
    ensures Join([p, q]) == p + q && Feed(c, keep, d, [p, q]) == Resume(c, keep, Run(c, keep, d, p), q)
  {
    hide Huffman.WellFormed, ParseRepr;
    assert [p, q][1..] == [q] && [q][1..] == [];
    assert Join([q]) == q + [] == q;
    assert d.(saved := []) == d && [] + p == p;
    var o := Run(c, keep, d, p);
    assert Write(c, keep, d, p) == o;
    if o.failure.None? {
      var o2 := Write(c, keep, o.d, q);
      assert o2.failure.None? ==> Feed(c, keep, o2.d, []) == o2;
      assert Feed(c, keep, o.d, [q]) == o2;
    }
  }

  /** For every input of a decoder between blocks: no way of cutting it makes a difference exactly when
      there is no string limit or the input is cuttable. */
  lemma CutExactly(c: Shared, keep: Keep, d: Dec, buf: Str)
    requires Huffman.WellFormed(c.code) && d.saved == []
    ensures (forall pieces :: Join(pieces) == buf ==> Feed(c, keep, d, pieces) == Write(c, keep, d, buf))
            <==> MayCut(c, keep, d, buf)
  {
    hide Huffman.WellFormed, Cuttable, Run;
    assert d.(saved := []) == d && d.saved + buf == buf;
    if MayCut(c, keep, d, buf) {
      forall pieces | Join(pieces) == buf ensures Feed(c, keep, d, pieces) == Write(c, keep, d, buf) {
        CutIndependence(c, keep, d, pieces);
      }
    } else {
      var k := BadCut(c, keep, d, buf);
      FeedTwo(c, keep, d, buf[..k], buf[k..]);
      assert buf[..k] + buf[k..] == buf;
      RunEmpty(c, keep, d);
      assert Feed(c, keep, d, [buf[..k], buf[k..]]) != Write(c, keep, d, buf);
    }
  }

  lemma RunEmpty(c: Shared, keep: Keep, d: Dec)
    requires Huffman.WellFormed(c.code)
    ensures Run(c, keep, d, []) == Outcome(d, None)
  {
  }

  /** Every representation that is consumed is at most one octet longer than what Save keeps. */
  ghost predicate Short(c: Shared, keep: Keep, d: Dec, buf: Str)
    requires Huffman.WellFormed(c.code)
    decreases |buf|
  {
    buf == [] ||
    match ParseRepr(c, keep, d, buf)
    case Done(d', rest) => |buf| - |rest| <= Bound(d) + 1 && Short(c, keep, d'.(firstField := false), rest)
    case NeedMore => true
    case Fatal(_, _) => false
  }

  lemma FrontLength(c: Shared, keep: Keep, d: Dec, buf: Str)
    requires Huffman.WellFormed(c.code) && buf != [] && ParseRepr(c, keep, d, buf).Done?
    ensures FrontFits(c, keep, d, buf) <==> |buf| - |ParseRepr(c, keep, d, buf).rest| <= Bound(d) + 1
  {
    hide Huffman.WellFormed, ParseRepr;
    var n := |buf| - |ParseRepr(c, keep, d, buf).rest|;
    forall k | 0 < k <= |buf| && ParseRepr(c, keep, d, buf[..k]).NeedMore? ensures k < n {
      if k >= n { LongerPrefix(c, keep, d, buf, k); }
    }
    if n > 1 { ShorterPrefix(c, keep, d, buf, n - 1); }
  }

  /** For input without an error the condition is one on lengths. */
  lemma {:induction false} CuttableIsShort(c: Shared, keep: Keep, d: Dec, buf: Str)
    requires Huffman.WellFormed(c.code) && d.maxStrLen != 0 && Run(c, keep, d, buf).failure.None?
    ensures Cuttable(c, keep, d, buf) <==> Short(c, keep, d, buf)
    decreases |buf|
  {
    hide Huffman.WellFormed, ParseRepr;
    if buf != [] && ParseRepr(c, keep, d, buf).Done? {
      var d', rest := ParseRepr(c, keep, d, buf).d, ParseRepr(c, keep, d, buf).rest;
      FrontLength(c, keep, d, buf);
      hide FrontFits;
      ParseKeepsRest(c, keep, d, buf);
      CuttableIsShort(c, keep, d'.(firstField := false), rest);
    }
  }

  /** Under a string limit, input that is accepted whole is accepted however it is cut, with the same
      outcome, exactly when its representations are short. */
  lemma ShortExactly(c: Shared, keep: Keep, d: Dec, buf: Str)
    requires Huffman.WellFormed(c.code) && d.saved == [] && d.maxStrLen != 0 && Write(c, keep, d, buf).failure.None?
    ensures (forall pieces :: Join(pieces) == buf ==> Feed(c, keep, d, pieces) == Write(c, keep, d, buf))
            <==> Short(c, keep, d, buf)
  {
    hide Huffman.WellFormed, ParseRepr, Short, Cuttable;
    assert d.(saved := []) == d && d.saved + buf == buf;
    RunEmpty(c, keep, d);
    CutExactly(c, keep, d, buf);
    CuttableIsShort(c, keep, d, buf);
  }

  // ---- A representation that cuts make too long ----

  /** A string of 127 octets whose length is written in ten octets. */
  function LongString(): (r: Str)
    ensures |r| == 137
  {
    [127, 128, 128, 128, 128, 128, 128, 128, 128, 0] + seq(127, _ => 97)
  }

  /** A literal with a new name: its name and its value are such strings. */
  function LongLiteral(): (r: Str)
    ensures |r| == 275
  {
    [0] + LongString() + LongString()
  }

  lemma NoWeight(m: nat)
    ensures VarInt.Weigh(128, m) == 0 && VarInt.Weigh(0, m) == 0
  {
  }

  lemma {:induction false} LongTail(q: Str, n: nat)
    requires n <= 8
    ensures VarInt.ReadTail(seq(n, _ => 128) + [0] + q, 127, 7 * (8 - n)) == VarInt.Value(127, q)
    decreases n
  {
    hide VarInt.Weigh, VarInt.ReadTail;
    assert VarInt.Weigh(128, 7 * (8 - n)) == 0 && VarInt.Weigh(0, 7 * (8 - n)) == 0 by { NoWeight(7 * (8 - n)); }
    var p := seq(n, _ => 128) + [0] + q;
    VarInt.ReadTailIs(p, 127, 7 * (8 - n));
    if n == 0 {
      assert p[0] == 0 && p[1..] == q;
    } else {
      assert p[0] == 128 && p[1..] == seq(n - 1, _ => 128) + [0] + q;
      LongTail(q, n - 1);
    }
  }

  lemma LongStringReads(code: Huffman.Table, q: Str, want: bool)
    requires Huffman.WellFormed(code)
    ensures var s := ReadString(code, 127, LongString() + q, want); s.Text? && s.rest == q && |s.s| <= 127
  {
    hide Huffman.WellFormed, VarInt.ReadTail;
    var p, t := LongString() + q, seq(127, _ => 97) + q;
    LongTail(t, 8);
    assert p[1..] == seq(8, _ => 128) + [0] + t;
    Prefix7();
    assert VarInt.Read(7, p) == VarInt.Value(127, t);
    assert t[127..] == q;
  }

  lemma LongLiteralParses(c: Shared, keep: Keep, d: Dec)
    requires Huffman.WellFormed(c.code) && d.maxStrLen == 127
    ensures var r := ParseRepr(c, keep, d, LongLiteral()); r.Done? && r.rest == []
  {
    hide Huffman.WellFormed, ReadString, LongString;
    var p, v := LongLiteral(), LongString() + [];
    assert p[1..] == LongString() + v && v == LongString();
    LongStringReads(c.code, v, d.emitEnabled);
    LongStringReads(c.code, [], d.emitEnabled);
    assert VarInt.Read(4, p) == VarInt.Value(0, p[1..]) by { assert Pow2(4) == 16; }
  }

  /** With a limit of 127 the literal is accepted whole, and refused when it is cut before its last octet. */
  lemma CutMatters(c: Shared, keep: Keep, d: Dec)
    requires Huffman.WellFormed(c.code) && d.saved == [] && d.maxStrLen == 127
    ensures var b := LongLiteral();
            && Join([b[..274], b[274..]]) == b && Write(c, keep, d, b).failure.None?
            && Feed(c, keep, d, [b[..274], b[274..]]) == Outcome(d, Some(StringLength))
  {
    hide Huffman.WellFormed, ParseRepr, LongLiteral;
    var b := LongLiteral();
    LongLiteralParses(c, keep, d);
    ShorterPrefix(c, keep, d, b, 274);
    FeedTwo(c, keep, d, b[..274], b[274..]);
    assert b[..274] + b[274..] == b && d.saved + b == b && d.(saved := []) == d;
    RunEmpty(c, keep, ParseRepr(c, keep, d, b).d.(firstField := false));
  }
}
