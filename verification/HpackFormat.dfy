/** What the octets of HPACK mean on their own: which representation the encoder chooses (section 6 of RFC 7541),
    and what the decoder refuses or bounds whoever wrote its input. */
module HpackFormat {
  import opened Bits
  import opened HeaderTable
  import opened DynamicTable
  import opened HpackString
  import opened Hpack
  import opened HpackAgreement
  import HpackCut
  import VarInt
  import Huffman

  // ---- What the encoder finds ----

  predicate SameField(x: HeaderField, f: HeaderField) { x.name == f.name && x.value == f.value }

  ghost predicate Pair(es: seq<HeaderField>, f: HeaderField) {
    exists i :: 0 <= i < |es| && SameField(es[i], f)
  }

  ghost predicate Named(es: seq<HeaderField>, f: HeaderField) {
    exists i :: 0 <= i < |es| && es[i].name == f.name
  }

  lemma ScanExactly(es: seq<HeaderField>, f: HeaderField, dynamic: bool)
    ensures var r := Scan(es, f, dynamic);
            && (r.nameValueMatch <==> !f.sensitive && Pair(es, f)) && (r.index == 0 <==> !Named(es, f))
            && (r.index != 0 ==>
                  var k := if dynamic then |es| - r.index else r.index - 1;
                  && es[k].name == f.name && (r.nameValueMatch ==> es[k].value == f.value)
                  && forall j :: k < j < |es| ==>
                       if r.nameValueMatch then !SameField(es[j], f) else es[j].name != f.name)
  {
    hide NewestName, NewestPair;
    var p, n := NewestPair(es, f.name, f.value), NewestName(es, f.name);
    if p.Some? {
      assert SameField(es[p.value], f);
      assert es[p.value].name == f.name;
    }
    if n.Some? { assert es[n.value].name == f.name; }
  }

  /** searchTable: a field that is not sensitive is found by name and value if either table has it, and by name
      otherwise; the static table goes first. */
  lemma SearchExactly(fixed: seq<HeaderField>, ents: seq<HeaderField>, f: HeaderField)
    ensures var r := SearchTable(fixed, ents, f);
            && (r.nameValueMatch <==> !f.sensitive && (Pair(fixed, f) || Pair(ents, f)))
            && (r.index == 0 <==> !Named(fixed, f) && !Named(ents, f))
            && (r.nameValueMatch ==> (r.index <= |fixed| <==> Pair(fixed, f)))
            && (!r.nameValueMatch && r.index != 0 ==> (r.index <= |fixed| <==> Named(fixed, f)))
  {
    hide Scan, Pair, Named;
    ScanExactly(fixed, f, false);
    ScanExactly(ents, f, true);
    PairNamed(fixed, f);
    PairNamed(ents, f);
  }

  lemma PairNamed(es: seq<HeaderField>, f: HeaderField)
    ensures Pair(es, f) ==> Named(es, f)
  {
    if Pair(es, f) {
      var i :| 0 <= i < |es| && SameField(es[i], f);
      assert es[i].name == f.name;
    }
  }

  // ---- What it writes ----

  lemma FlaggedFirst(n: nat, flag: nat, i: nat)
    requires 1 <= n <= 8 && flag + Pow2(n) <= 256
    ensures var b := VarInt.Flagged(n, flag, i)[0];
            flag <= b < flag + Pow2(n) && (b == flag <==> i == 0 || Pow2(n) == 1)
  {
    Pow2Monotone(n, 8);
    hide Pow2, VarInt.Tail;
  }

  /** The representation by its first octet: indexed from 128 on, literal with indexing from 64 on, never indexed
      from 16 on, without indexing below 16. A field is indexed if a table holds it. Otherwise it is literal:
      never indexed if it is sensitive, entered in the table if it fits, and its name is written out, after
      an index of 0, exactly when no table has it. */
  lemma FieldForm(c: Shared, e: Enc, f: HeaderField)
    ensures var b := FieldBytes(c, e, f)[0]; var known := Pair(c.fixed, f) || Pair(e.tab.ents, f);
            && (b >= 128 <==> !f.sensitive && known) && (16 <= b < 32 <==> f.sensitive)
            && (64 <= b < 128 <==> !f.sensitive && !known && (|f.name| + |f.value| + 32) % WORD <= e.tab.maxSize)
            && (b in {0, 16, 64} <==> b < 128 && !Named(c.fixed, f) && !Named(e.tab.ents, f)) && !(32 <= b < 64)
            && AfterField(c, e, f).tab == if 64 <= b < 128 then Add(e.tab, f) else e.tab
  {
    hide SearchTable, Pow2, EncodeString, VarInt.Flagged, Pair, Named, Add;
    Prefixes();
    SearchExactly(c.fixed, e.tab.ents, f);
    PairNamed(c.fixed, f);
    PairNamed(e.tab.ents, f);
    var i := SearchTable(c.fixed, e.tab.ents, f).index;
    FlaggedFirst(7, 0x80, i);
    FlaggedFirst(6, 0x40, i);
    FlaggedFirst(4, 0, i);
    FlaggedFirst(4, 0x10, i);
  }

  lemma KeepsNewest(t: Tab, f: HeaderField)
    requires Exact(t) && |f.name| + |f.value| + 32 <= t.maxSize && 2 * t.maxSize < WORD
    ensures var es := Add(t, f).ents; es != [] && es[|es| - 1] == f
  {
    hide Add, Total;
    AddLongest(t, f);
    var all, es := t.ents + [f], Add(t, f).ents;
    if es == [] {
      assert all[|all| - 1..] == [f];
      OneTotal(f);
    }
  }

  lemma OneTotal(f: HeaderField)
    ensures Total([f]) == |f.name| + |f.value| + 32
  {
    assert [f][1..] == [];
  }

  /** Once a field is known, it is written as its index. */
  lemma KnownIsIndexed(c: Shared, e: Enc, f: HeaderField)
    requires !f.sensitive && !e.tableSizeUpdate && (Pair(c.fixed, f) || Pair(e.tab.ents, f))
    ensures 0x80 + Pow2(7) <= 256
    ensures var i := SearchTable(c.fixed, e.tab.ents, f).index;
            && WriteField(c, e, f).1 == VarInt.Flagged(7, 0x80, i)
            && At(c.fixed, e.tab.ents, i).Some? && SameField(At(c.fixed, e.tab.ents, i).value, f)
  {
    hide SearchTable, Pow2, VarInt.Flagged, Pair, At, NewNameRecord, IndexedNameRecord;
    Prefixes();
    SearchExactly(c.fixed, e.tab.ents, f);
    SearchAt(c.fixed, e.tab.ents, f);
    var i := SearchTable(c.fixed, e.tab.ents, f).index;
    assert [] + VarInt.Flagged(7, 0x80, i) == VarInt.Flagged(7, 0x80, i);
  }

  lemma NowKnown(c: Shared, e: Enc, f: HeaderField)
    requires Exact(e.tab) && !f.sensitive && |f.name| + |f.value| + 32 <= e.tab.maxSize && 2 * e.tab.maxSize < WORD
    ensures var e' := WriteField(c, e, f).0;
            !e'.tableSizeUpdate && (Pair(c.fixed, f) || Pair(e'.tab.ents, f))
  {
    hide SearchTable, UpdateBytes, FieldBytes, Pair, Add, Total;
    SearchExactly(c.fixed, e.tab.ents, f);
    KeepsNewest(e.tab, f);
    HasNewest(Add(e.tab, f).ents, f);
  }

  /** Compression works: a field that fits the table is a single index the next time it is written. */
  lemma Reuse(c: Shared, e: Enc, f: HeaderField)
    requires Exact(e.tab) && !f.sensitive && |f.name| + |f.value| + 32 <= e.tab.maxSize && 2 * e.tab.maxSize < WORD
    ensures 0x80 + Pow2(7) <= 256
    ensures var e' := WriteField(c, e, f).0; var i := SearchTable(c.fixed, e'.tab.ents, f).index;
            && WriteField(c, e', f).1 == VarInt.Flagged(7, 0x80, i)
            && At(c.fixed, e'.tab.ents, i).Some? && SameField(At(c.fixed, e'.tab.ents, i).value, f)
  {
    hide SearchTable, Pow2, VarInt.Flagged, Pair, WriteField, At, Exact;
    NowKnown(c, e, f);
    KnownIsIndexed(c, WriteField(c, e, f).0, f);
  }

  lemma HasNewest(es: seq<HeaderField>, f: HeaderField)
    requires es != [] && es[|es| - 1] == f
    ensures Pair(es, f)
  {
    assert SameField(es[|es| - 1], f);
  }

  /** A new entry comes first behind the static table, and the others move up by one. */
  lemma NewestFirst(fixed: seq<HeaderField>, ents: seq<HeaderField>, f: HeaderField, i: nat)
    ensures At(fixed, ents + [f], |fixed| + 1) == Some(f)
    ensures |fixed| < i ==> At(fixed, ents + [f], i + 1) == At(fixed, ents, i)
    ensures 1 <= i <= |fixed| ==> At(fixed, ents, i) == Some(fixed[i - 1])
    ensures At(fixed, ents, i).None? <==> i == 0 || i > |fixed| + |ents|
  {
  }

  // ---- What the decoder refuses ----

  /** An index that leads nowhere is an error, as a field and as a name. */
  lemma BadIndex(c: Shared, keep: Keep, d: Dec, i: nat, q: Str)
    requires Huffman.WellFormed(c.code) && i < Pow2(63) && (i == 0 || i > |c.fixed| + |d.tab.ents|)
    ensures 0x80 + Pow2(7) <= 256 && 0x40 + Pow2(6) <= 256
    ensures Run(c, keep, d, VarInt.Flagged(7, 0x80, i) + q) ==
            Outcome(d.(firstField := false), Some(InvalidIndex(i)))
    ensures i > 0 ==> Run(c, keep, d, VarInt.Flagged(6, 0x40, i) + q) ==
                      Outcome(d.(firstField := false), Some(InvalidIndex(i)))
  {
    hide Huffman.WellFormed, VarInt.Read, VarInt.Flagged, Pow2, At, ReadString;
    Prefixes();
    NewestFirst(c.fixed, d.tab.ents, HeaderField([], [], false), i);
    VarInt.RoundTrip(7, 0x80, i, q);
    VarInt.RoundTrip(6, 0x40, i, q);
    FirstOctet(7, 0x80, i, q);
    FirstOctet(6, 0x40, i, q);
  }

  /** So is a size record beyond what the decoder allows. */
  lemma TooLarge(c: Shared, keep: Keep, d: Dec, v: nat, q: Str)
    requires Huffman.WellFormed(c.code) && d.allowedMax < v < Pow2(63) && d.firstField
    ensures 0x20 + Pow2(5) <= 256
    ensures Run(c, keep, d, VarInt.Flagged(5, 0x20, v) + q) ==
            Outcome(d.(firstField := false), Some(SizeUpdateTooLarge))
  {
    hide Huffman.WellFormed, VarInt.Read, VarInt.Flagged, Pow2;
    Prefixes();
    VarInt.RoundTrip(5, 0x20, v, q);
    FirstOctet(5, 0x20, v, q);
  }

  /** A block that ends inside a field is an error: every proper part of what one field is written as. */
  lemma TruncatedField(c: Shared, e: Enc, d: Dec, f: HeaderField, k: nat)
    requires Proper(c) && Ready(c, e, d) && !e.tableSizeUpdate && FieldOk(0, f)
    requires 0 < k < |WriteField(c, e, f).1|
    ensures Huffman.WellFormed(c.code)
    ensures DecodeFull(c, d, WriteField(c, e, f).1[..k]).1 == Error(TruncatedHeaders)
  {
    hide Huffman.WellFormed, Huffman.PrefixFree, Huffman.PaddingSafe, ParseRepr, FieldBytes, AfterField, FieldOk;
    hide SetMaxSize, Total;
    var d0 := d.(emitted := []);
    var b := FieldBytes(c, Flushed(e), f);
    assert WriteField(c, e, f).1 == [] + b == b;
    ParseField(c, All(), e, d0, f, []);
    assert b + [] == b && d0.saved + b[..k] == b[..k] && d0.(saved := []) == d0;
    HpackCut.ShorterPrefix(c, All(), d0, b, k);
    assert b[..k] != [];
  }

  // ---- What it bounds ----

  /** Strings within the reader's limit, if it has one. */
  ghost predicate Bounded(maxStrLen: nat, fs: seq<HeaderField>) {
    forall i :: 0 <= i < |fs| && maxStrLen != 0 ==> |fs[i].name| <= maxStrLen && |fs[i].value| <= maxStrLen
  }

  /** The table is within what the decoder allows, and nothing too long was emitted. */
  ghost predicate Bounds(d: Dec) {
    d.tab.maxSize <= d.allowedMax && Bounded(d.maxStrLen, d.emitted)
  }

  /** A step of the decoder from `d` to `r` leaves its settings alone and what was emitted in place. */
  ghost predicate Grown(d: Dec, r: Dec) {
    r.allowedMax == d.allowedMax && r.maxStrLen == d.maxStrLen && d.emitted <= r.emitted
  }

  lemma EmitBounds(keep: Keep, d: Dec, f: HeaderField, rest: Str)
    requires Bounds(d)
    ensures var p := CallEmit(keep, d, f, rest); !p.NeedMore? && Bounds(p.d) && Grown(d, p.d)
  {
  }

  lemma ParseBounds(c: Shared, keep: Keep, d: Dec, buf: Str)
    requires Huffman.WellFormed(c.code) && buf != [] && Bounds(d)
    ensures var p := ParseRepr(c, keep, d, buf); p.NeedMore? || (Bounds(p.d) && Grown(d, p.d))
  {
    hide Huffman.WellFormed, ReadLiteral, VarInt.Read, At, Evict, CallEmit, Bounded;
    forall d', f, rest | Bounds(d') ensures var p := CallEmit(keep, d', f, rest);
                                            !p.NeedMore? && Bounds(p.d) && Grown(d', p.d) {
      EmitBounds(keep, d', f, rest);
    }
  }

  lemma {:induction false} RunBounds(c: Shared, keep: Keep, d: Dec, buf: Str)
    requires Huffman.WellFormed(c.code) && Bounds(d)
    ensures var r := Run(c, keep, d, buf).d; Bounds(r) && Grown(d, r)
    decreases |buf|
  {
    hide Huffman.WellFormed, ParseRepr, Bounded;
    if buf != [] {
      ParseBounds(c, keep, d, buf);
      var p := ParseRepr(c, keep, d, buf);
      if p.Done? { RunBounds(c, keep, p.d.(firstField := false), p.rest); }
    }
  }

  /** Whatever the input, and whoever wrote it: the table stays within the size that the decoder allows, and no
      string beyond the limit reaches the callback. */
  lemma WriteBounds(c: Shared, keep: Keep, d: Dec, p: Str)
    requires Huffman.WellFormed(c.code) && Bounds(d)
    ensures var r := Write(c, keep, d, p).d; Bounds(r) && Grown(d, r)
  {
    hide Huffman.WellFormed, Run, Bounded;
    if p != [] { RunBounds(c, keep, d.(saved := []), d.saved + p); }
  }
}
