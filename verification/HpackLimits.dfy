/** The limit that the peer sets for the dynamic table: the encoder keeps it, says so at the start of the next
    block, and the decoder follows. */
module HpackLimits {
  import opened Bits
  import opened HeaderTable
  import opened DynamicTable
  import opened Hpack
  import opened HpackAgreement
  import VarInt
  import Huffman

  /** The smallest of `size` and all limits. */
  function Smallest(size: nat, ops: seq<Op>): nat
    decreases |ops|
  {
    if ops == [] then size
    else Smallest(if ops[0].Limit? && ops[0].v < size then ops[0].v else size, ops[1..])
  }

  lemma {:induction false} SmallestBounds(size: nat, ops: seq<Op>)
    ensures Smallest(size, ops) <= size
    ensures forall i :: 0 <= i < |ops| && ops[i].Limit? ==> Smallest(size, ops) <= ops[i].v
    ensures Smallest(size, ops) == size || Limit(Smallest(size, ops)) in ops
    decreases |ops|
  {
    if ops != [] {
      var size1 := if ops[0].Limit? && ops[0].v < size then ops[0].v else size;
      SmallestBounds(size1, ops[1..]);
      assert forall i :: 1 <= i < |ops| ==> ops[i] == ops[1..][i - 1];
    }
  }

  // ---- The encoder ----

  lemma WriteFieldSize(c: Shared, e: Enc, f: HeaderField)
    ensures var e' := WriteField(c, e, f).0; e'.tab.maxSize == e.tab.maxSize && !e'.tableSizeUpdate
  {
    hide SearchTable, FieldBytes, UpdateBytes;
  }

  lemma {:induction false} WriteFieldsSize(c: Shared, e: Enc, fs: seq<HeaderField>)
    ensures var e' := WriteFields(c, e, fs).0;
            && e'.tab.maxSize == e.tab.maxSize
            && (if fs == [] then e' == e else !e'.tableSizeUpdate)
    decreases |fs|
  {
    hide WriteField;
    if fs != [] {
      WriteFieldSize(c, e, fs[0]);
      WriteFieldsSize(c, WriteField(c, e, fs[0]).0, fs[1..]);
    }
  }

  /** A limit takes the size down to it, and only then is a size record due. */
  lemma LimitSize(e: Enc, v: nat)
    ensures var e' := SetLimit(e, v);
            && e'.tab.maxSize == (if v < e.tab.maxSize then v else e.tab.maxSize) && e'.minSize == e.minSize
            && (e'.tableSizeUpdate <==> e.tableSizeUpdate || v < e.tab.maxSize)
  {
  }

  /** The operations up to the last block that is not empty: those that the decoder has been told of. */
  function Told(ops: seq<Op>): seq<Op> {
    if ops == [] || (ops[|ops| - 1].Block? && ops[|ops| - 1].fields != []) then ops else Told(ops[..|ops| - 1])
  }

  ghost function EncAfter(c: Shared, e: Enc, ops: seq<Op>): Enc {
    if ops == [] then e
    else
      var e1, op := EncAfter(c, e, ops[..|ops| - 1]), ops[|ops| - 1];
      match op case Limit(v) => SetLimit(e1, v) case Block(fs) => WriteFields(c, e1, fs).0
  }

  lemma {:induction false} EncCons(c: Shared, e: Enc, op: Op, ops: seq<Op>)
    ensures EncAfter(c, e, [op] + ops) ==
            EncAfter(c, match op case Limit(v) => SetLimit(e, v) case Block(fs) => WriteFields(c, e, fs).0, ops)
    decreases |ops|
  {
    hide SetLimit, WriteFields;
    var all := [op] + ops;
    if ops == [] {
      assert all[..|all| - 1] == [];
      assert EncAfter(c, e, []) == e;
    } else {
      assert all[..|all| - 1] == [op] + ops[..|ops| - 1];
      EncCons(c, e, op, ops[..|ops| - 1]);
    }
  }

  /** The encoder of a session does not depend on the decoder. */
  lemma {:induction false} SessionEncoder(c: Shared, e: Enc, d: Dec, ops: seq<Op>)
    requires Huffman.WellFormed(c.code)
    ensures Session(c, e, d, ops).0 == EncAfter(c, e, ops)
    decreases |ops|
  {
    hide Huffman.WellFormed, SetLimit, WriteFields, DecodeFull;
    if ops != [] {
      var (e1, d1, r) := Step(c, e, d, ops[0]);
      SessionEncoder(c, e1, d1, ops[1..]);
      EncCons(c, e, ops[0], ops[1..]);
      assert [ops[0]] + ops[1..] == ops;
    }
  }

  lemma {:induction false} SmallestSnoc(size: nat, ops: seq<Op>, op: Op)
    ensures Smallest(size, ops + [op]) ==
            if op.Limit? && op.v < Smallest(size, ops) then op.v else Smallest(size, ops)
    decreases |ops|
  {
    var all := ops + [op];
    if ops == [] {
      assert all[1..] == [];
    } else {
      assert all[1..] == ops[1..] + [op];
      SmallestSnoc(if ops[0].Limit? && ops[0].v < size then ops[0].v else size, ops[1..], op);
    }
  }

  /** The encoder's size is the smallest limit so far, and a record is due exactly when that is below the
      smallest limit that the decoder has been told of. */
  lemma {:induction false} EncoderSize(c: Shared, ops: seq<Op>)
    ensures var e := EncAfter(c, NewEnc(), ops); var now, was := Smallest(4096, ops), Smallest(4096, Told(ops));
            e.tab.maxSize == now && (e.tableSizeUpdate <==> now < was) && now <= was
    decreases |ops|
  {
    hide SetLimit, WriteFields;
    if ops != [] {
      var before, op := ops[..|ops| - 1], ops[|ops| - 1];
      assert before + [op] == ops;
      EncoderSize(c, before);
      SmallestSnoc(4096, before, op);
      var e := EncAfter(c, NewEnc(), before);
      match op {
        case Limit(v) => LimitSize(e, v);
        case Block(fs) => WriteFieldsSize(c, e, fs);
      }
    }
  }

  // ---- What the block says ----

  /** The octet starts a size record (section 6.3 of RFC 7541). */
  predicate SizeRecord(b: Byte) { 32 <= b < 64 }

  lemma FieldIsNoRecord(c: Shared, e: Enc, f: HeaderField)
    ensures !SizeRecord(FieldBytes(c, e, f)[0])
  {
    hide SearchTable, Pow2, HpackString.EncodeString, VarInt.Flagged;
    Prefixes();
    var found := SearchTable(c.fixed, e.tab.ents, f);
    FirstOctet(7, 0x80, found.index, []);
    FirstOctet(6, 0x40, found.index, []);
    FirstOctet(4, 0, found.index, []);
    FirstOctet(4, 0x10, found.index, []);
    NoTail(VarInt.Flagged(7, 0x80, found.index));
    NoTail(VarInt.Flagged(6, 0x40, found.index));
    NoTail(VarInt.Flagged(4, 0, found.index));
    NoTail(VarInt.Flagged(4, 0x10, found.index));
  }

  lemma NoTail(s: Str)
    ensures s + [] == s
  {
  }

  /** What a block starts with: the record `v` and no other, if one is due, and else no record. */
  ghost predicate Starts(b: Str, due: bool, v: nat)
    requires 0x20 + Pow2(5) <= 256
  {
    if due then
      var r := VarInt.Flagged(5, 0x20, v);
      r < b && SizeRecord(b[0]) && !SizeRecord(b[|r|])
    else b != [] && !SizeRecord(b[0])
  }

  lemma FieldStarts(c: Shared, e: Enc, f: HeaderField)
    requires e.minSize == UINT32_MAX && e.tab.maxSize <= 4096
    ensures 0x20 + Pow2(5) <= 256 && Starts(WriteField(c, e, f).1, e.tableSizeUpdate, e.tab.maxSize)
  {
    hide FieldBytes, Pow2, VarInt.Flagged;
    Prefixes();
    FieldIsNoRecord(c, Flushed(e), f);
    var r, b := VarInt.Flagged(5, 0x20, e.tab.maxSize), FieldBytes(c, Flushed(e), f);
    FirstOctet(5, 0x20, e.tab.maxSize, []);
    NoTail(r);
    if e.tableSizeUpdate {
      assert UpdateBytes(e) == r;
      assert (r + b)[|r|] == b[0];
    } else {
      assert [] + b == b;
    }
  }

  lemma StartsMore(b: Str, more: Str, due: bool, v: nat)
    requires 0x20 + Pow2(5) <= 256 && Starts(b, due, v)
    ensures Starts(b + more, due, v)
  {
    hide VarInt.Flagged, Pow2;
  }

  lemma {:induction false} EncMinSize(c: Shared, ops: seq<Op>)
    ensures EncAfter(c, NewEnc(), ops).minSize == UINT32_MAX
    decreases |ops|
  {
    hide WriteFields, SetLimit;
    if ops != [] {
      var before, op := ops[..|ops| - 1], ops[|ops| - 1];
      EncMinSize(c, before);
      var e := EncAfter(c, NewEnc(), before);
      match op {
        case Limit(v) => LimitSize(e, v);
        case Block(fs) => WriteFieldsMin(c, e, fs);
      }
    }
  }

  lemma {:induction false} WriteFieldsMin(c: Shared, e: Enc, fs: seq<HeaderField>)
    requires e.minSize == UINT32_MAX
    ensures WriteFields(c, e, fs).0.minSize == UINT32_MAX
    decreases |fs|
  {
    hide SearchTable, FieldBytes, UpdateBytes;
    if fs != [] { WriteFieldsMin(c, WriteField(c, e, fs[0]).0, fs[1..]); }
  }

  /** For every session of a new encoder: a block that is not empty starts with a size record exactly when a
      limit since the last such block is below all limits before it; the record says the smallest limit. */
  lemma BlockSaysLimit(c: Shared, d: Dec, ops: seq<Op>, fs: seq<HeaderField>)
    requires Huffman.WellFormed(c.code) && fs != []
    ensures 0x20 + Pow2(5) <= 256
    ensures var now, was := Smallest(4096, ops), Smallest(4096, Told(ops));
            Starts(WriteFields(c, Session(c, NewEnc(), d, ops).0, fs).1, now < was, now)
  {
    hide Huffman.WellFormed, Session, Starts, WriteField, Pow2, Smallest, Told;
    var e := EncAfter(c, NewEnc(), ops);
    SessionEncoder(c, NewEnc(), d, ops);
    EncoderSize(c, ops);
    EncMinSize(c, ops);
    SmallestBounds(4096, ops);
    FieldStarts(c, e, fs[0]);
    StartsMore(WriteField(c, e, fs[0]).1, WriteFields(c, WriteField(c, e, fs[0]).0, fs[1..]).1, e.tableSizeUpdate,
               e.tab.maxSize);
  }

  /** After every session the encoder's size is at most every limit in it and equal to one of them, or 4096; so
      is the decoder's, after a block that is not empty. */
  lemma LimitsKept(c: Shared, ops: seq<Op>)
    requires Proper(c) && |c.fixed| < WORD && forall i :: 0 <= i < |ops| ==> OpOk(ops[i])
    ensures Huffman.WellFormed(c.code)
    ensures var (e, d, _) := Session(c, NewEnc(), NewDec(4096), ops);
            && (forall i :: 0 <= i < |ops| && ops[i].Limit? ==> e.tab.maxSize <= ops[i].v)
            && (e.tab.maxSize == 4096 || Limit(e.tab.maxSize) in ops)
            && (ops != [] && ops[|ops| - 1].Block? && ops[|ops| - 1].fields != [] ==> d.tab.maxSize == e.tab.maxSize)
  {
    hide Proper, Session, OpOk, Ready, Smallest, Huffman.WellFormed, Told;
    ProperCode(c);
    SessionEncoder(c, NewEnc(), NewDec(4096), ops);
    EncoderSize(c, ops);
    SmallestBounds(4096, ops);
    StartsReady(c);
    SessionAgrees(c, NewEnc(), NewDec(4096), ops);
  }

  // ---- Changes of size by the program ----

  /** Between two blocks the peer may set a limit, and the program a size. */
  datatype Change = NewLimit(v: nat) | NewSize(v: nat)

  function Changed(e: Enc, cs: seq<Change>): Enc {
    if cs == [] then e
    else
      var e1 := Changed(e, cs[..|cs| - 1]);
      match cs[|cs| - 1] case NewLimit(v) => SetLimit(e1, v) case NewSize(v) => SetMaxDynamic(e1, v)
  }

  /** The limit, the size, and the smallest size that the program set, if it set one. */
  datatype Sizes = Sizes(limit: nat, size: nat, least: Option<nat>)

  function Min(a: nat, b: nat): nat { if a < b then a else b }

  function SizesAfter(s: Sizes, cs: seq<Change>): Sizes {
    if cs == [] then s
    else
      var s1 := SizesAfter(s, cs[..|cs| - 1]);
      match cs[|cs| - 1]
      case NewLimit(v) => s1.(limit := v, size := Min(s1.size, v))
      case NewSize(v) =>
        var w := Min(v, s1.limit);
        s1.(size := w, least := Some(if s1.least.Some? then Min(s1.least.value, w) else w))
  }

  /** An encoder with nothing left to say about its size. */
  predicate Silent(e: Enc) {
    !e.tableSizeUpdate && e.minSize == UINT32_MAX && e.maxSizeLimit <= UINT32_MAX && e.tab.maxSize <= UINT32_MAX
  }

  /** The encoder `e'` has come from a silent one with the size `was` by changes that lead to `s`. */
  predicate Reflects(e': Enc, was: nat, s: Sizes) {
    && e'.tab.maxSize == s.size <= UINT32_MAX && e'.maxSizeLimit == s.limit <= UINT32_MAX
    && e'.minSize == (if s.least.Some? then s.least.value else UINT32_MAX)
    && (e'.tableSizeUpdate <==> s.least.Some? || s.size < was) && (s.least.None? ==> s.size <= was)
  }

  lemma ChangeReflects(e': Enc, was: nat, s: Sizes, v: nat)
    requires Reflects(e', was, s) && v <= UINT32_MAX
    ensures Reflects(SetLimit(e', v), was, s.(limit := v, size := Min(s.size, v)))
    ensures var w := Min(v, s.limit);
            Reflects(SetMaxDynamic(e', v), was,
                     s.(size := w, least := Some(if s.least.Some? then Min(s.least.value, w) else w)))
  {
    hide Evict;
  }

  lemma {:induction false} ChangedReflects(e: Enc, cs: seq<Change>)
    requires Silent(e) && forall i :: 0 <= i < |cs| ==> cs[i].v <= UINT32_MAX
    ensures Reflects(Changed(e, cs), e.tab.maxSize, SizesAfter(Sizes(e.maxSizeLimit, e.tab.maxSize, None), cs))
    decreases |cs|
  {
    hide Reflects, SetLimit, SetMaxDynamic;
    if cs == [] {
      assert Reflects(e, e.tab.maxSize, Sizes(e.maxSizeLimit, e.tab.maxSize, None)) by { SilentReflects(e); }
    } else {
      var before := cs[..|cs| - 1];
      ChangedReflects(e, before);
      ChangeReflects(Changed(e, before), e.tab.maxSize,
                     SizesAfter(Sizes(e.maxSizeLimit, e.tab.maxSize, None), before), cs[|cs| - 1].v);
    }
  }

  lemma SilentReflects(e: Enc)
    requires Silent(e)
    ensures Reflects(e, e.tab.maxSize, Sizes(e.maxSizeLimit, e.tab.maxSize, None))
  {
  }

  /** Whatever changes come between two blocks, the size is the one set last, as far as the limits go. The next
      block starts with it if the program set a size or a limit took it down, and before it comes the
      smallest size that the program set, if that is smaller. */
  lemma ChangesTold(e: Enc, cs: seq<Change>)
    requires Silent(e) && forall i :: 0 <= i < |cs| ==> cs[i].v <= UINT32_MAX
    ensures 0x20 + Pow2(5) <= 256
    ensures var s, e' := SizesAfter(Sizes(e.maxSizeLimit, e.tab.maxSize, None), cs), Changed(e, cs);
            && e'.tab.maxSize == s.size
            && UpdateBytes(e') ==
                 if s.least.None? && s.size == e.tab.maxSize then []
                 else (if s.least.Some? && s.least.value < s.size then VarInt.Flagged(5, 0x20, s.least.value) else [])
                      + VarInt.Flagged(5, 0x20, s.size)
  {
    hide VarInt.Flagged, Pow2, Changed, SizesAfter;
    Prefixes();
    ChangedReflects(e, cs);
  }

  /** A new encoder starts with a size and a limit of 4096. */
  lemma NewChanges(cs: seq<Change>)
    requires forall i :: 0 <= i < |cs| ==> cs[i].v <= UINT32_MAX
    ensures Changed(NewEnc(), cs).tab.maxSize == SizesAfter(Sizes(4096, 4096, None), cs).size
  {
    hide Changed, SizesAfter, UpdateBytes;
    ChangesTold(NewEnc(), cs);
  }

  lemma ChangedSnoc(e: Enc, s: Sizes, cs: seq<Change>, c: Change)
    ensures var e1, s1 := Changed(e, cs), SizesAfter(s, cs);
            if c.NewLimit? then
              && Changed(e, cs + [c]) == SetLimit(e1, c.v)
              && SizesAfter(s, cs + [c]) == s1.(limit := c.v, size := Min(s1.size, c.v))
            else
              var w := Min(c.v, s1.limit);
              && Changed(e, cs + [c]) == SetMaxDynamic(e1, c.v)
              && SizesAfter(s, cs + [c]) ==
                   s1.(size := w, least := Some(if s1.least.Some? then Min(s1.least.value, w) else w))
  {
    hide SetLimit, SetMaxDynamic;
    assert (cs + [c])[..|cs|] == cs;
  }

  /** A limit that took the size down is forgotten if the program then sets a size: the entries that no longer
      fit are gone from the encoder's table, and the decoder is told of the size before only. */
  lemma LimitForgotten(e: Enc, small: nat)
    requires Silent(e) && small < e.tab.maxSize
    ensures 0x20 + Pow2(5) <= 256
    ensures var m := e.tab.maxSize; var e' := Changed(e, [NewLimit(small), NewLimit(m), NewSize(m)]);
            && UpdateBytes(e') == VarInt.Flagged(5, 0x20, m)
            && e'.tab == SetMaxSize(SetMaxSize(e.tab, small), m)
  {
    hide VarInt.Flagged, Pow2, Evict, Changed, SizesAfter, UpdateBytes;
    var m := e.tab.maxSize;
    var s := Sizes(e.maxSizeLimit, m, None);
    var a, b, c := NewLimit(small), NewLimit(m), NewSize(m);
    assert [] + [a] == [a] && [a] + [b] == [a, b] && [a, b] + [c] == [a, b, c];
    assert Changed(e, []) == e && SizesAfter(s, []) == s by { NoChange(e, s); }
    ChangedSnoc(e, s, [], a);
    ChangedSnoc(e, s, [a], b);
    ChangedSnoc(e, s, [a, b], c);
    ChangesTold(e, [a, b, c]);
    assert [] + VarInt.Flagged(5, 0x20, m) == VarInt.Flagged(5, 0x20, m);
  }

  lemma NoChange(e: Enc, s: Sizes)
    ensures Changed(e, []) == e && SizesAfter(s, []) == s
  {
  }
}
