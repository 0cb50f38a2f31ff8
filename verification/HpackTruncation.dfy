/** Switching emission off part way through a block does not desynchronise the decoder. */
module HpackTruncation {
  import opened HeaderTable
  import opened DynamicTable
  import opened HpackString
  import opened Hpack
  import opened HpackAgreement
  import VarInt
  import Huffman

  /** `d'` is `d`, decoded so far with every field emitted, except that its callback was `keep`. */
  ghost predicate Follows(keep: Keep, d: Dec, d': Dec) {
    && d.emitEnabled
    && var (on, em) := Emit(keep, true, [], d.emitted); d' == d.(emitEnabled := on, emitted := em)
  }

  lemma {:induction false} EmitSnoc(keep: Keep, on: bool, em: seq<HeaderField>, fs: seq<HeaderField>, f: HeaderField)
    ensures var (on', em') := Emit(keep, on, em, fs);
            Emit(keep, on, em, fs + [f]) == if on' then (keep(em' + [f]), em' + [f]) else (false, em')
    decreases |fs|
  {
    if fs == [] {
      assert fs + [f] == [f] && [f][1..] == [];
    } else if on {
      assert (fs + [f])[1..] == fs[1..] + [f] && (fs + [f])[0] == fs[0];
      EmitSnoc(keep, keep(em + [fs[0]]), em + [fs[0]], fs[1..], f);
    }
  }

  lemma SkipRead(code: Huffman.Table, maxLen: nat, p: Str)
    requires Huffman.WellFormed(code)
    ensures var r, s := ReadString(code, maxLen, p, true), ReadString(code, maxLen, p, false);
            && (r.More? ==> s.More?)
            && (r.Text? ==> s == Text([], r.rest))
  {
    hide Huffman.WellFormed, VarInt.Read, Huffman.Decode;
  }

  lemma SkipValue(c: Shared, maxStrLen: nat, name: Str, name': Str, p: Str)
    requires Huffman.WellFormed(c.code)
    ensures var r, s := ReadValue(c, maxStrLen, true, name, p), ReadValue(c, maxStrLen, false, name', p);
            && (r.LiteralMore? ==> s.LiteralMore?)
            && (r.Literal? ==> s == Literal(name', [], r.rest) && r.name == name)
  {
    hide Huffman.WellFormed, ReadString;
    SkipRead(c.code, maxStrLen, p);
  }

  /** What a literal reads as when its strings are skipped. */
  lemma SkipLiteral(c: Shared, ents: seq<HeaderField>, maxStrLen: nat, n: nat, buf: Str)
    requires Huffman.WellFormed(c.code) && 1 <= n <= 8
    ensures var r, s := ReadLiteral(c, ents, maxStrLen, true, n, buf), ReadLiteral(c, ents, maxStrLen, false, n, buf);
            && (r.LiteralMore? ==> s.LiteralMore?)
            && (r.Literal? ==> s.Literal? && s.rest == r.rest && s.value == [] && (s.name == [] || s.name == r.name))
  {
    hide Huffman.WellFormed, VarInt.Read, At, ReadString, ReadValue;
    match VarInt.Read(n, buf)
    case NeedMore =>
    case Overflow =>
    case Value(i, rest) =>
      if i > 0 {
        match At(c.fixed, ents, i)
        case None =>
        case Some(f) => SkipValue(c, maxStrLen, f.name, f.name, rest);
      } else {
        SkipRead(c.code, maxStrLen, rest);
        match ReadString(c.code, maxStrLen, rest, true)
        case Text(name, rest') => SkipValue(c, maxStrLen, name, [], rest');
        case _ =>
      }
  }

  lemma FollowEmit(keep: Keep, d: Dec, d': Dec, f: HeaderField, rest: Str)
    requires Follows(keep, d, d') && CallEmit(All(), d, f, rest).Done?
    ensures var r, r' := CallEmit(All(), d, f, rest), CallEmit(keep, d', f, rest);
            r'.Done? && r.rest == r'.rest == rest && Follows(keep, r.d, r'.d)
  {
    EmitSnoc(keep, true, [], d.emitted, f);
  }

  /** A field that is not emitted any more. */
  lemma FollowSkip(keep: Keep, d: Dec, d': Dec, f: HeaderField, g: HeaderField, rest: Str)
    requires Follows(keep, d, d') && !d'.emitEnabled && CallEmit(All(), d, f, rest).Done?
    requires |g.name| <= |f.name| && |g.value| <= |f.value|
    ensures var r, r' := CallEmit(All(), d, f, rest), CallEmit(keep, d', g, rest);
            r'.Done? && r.rest == r'.rest == rest && Follows(keep, r.d, r'.d)
  {
    EmitSnoc(keep, true, [], d.emitted, f);
  }

  /** A finished or an incomplete parse is followed by one of the same kind. */
  ghost predicate Tracks(keep: Keep, r: Parse, r': Parse) {
    match r
    case Done(d, rest) => r'.Done? && r'.rest == rest && Follows(keep, d, r'.d)
    case NeedMore => r'.NeedMore?
    case Fatal(_, _) => true
  }

  lemma FollowLiteral(c: Shared, keep: Keep, d: Dec, d': Dec, buf: Str, n: nat, it: IndexType)
    requires Huffman.WellFormed(c.code) && 1 <= n <= 8 && Follows(keep, d, d')
    ensures Tracks(keep, ParseLiteral(c, All(), d, buf, n, it), ParseLiteral(c, keep, d', buf, n, it))
  {
    hide Huffman.WellFormed, ReadLiteral, Add, CallEmit, Emit;
    SkipLiteral(c, d.tab.ents, d.maxStrLen, n, buf);
    match ReadLiteral(c, d.tab.ents, d.maxStrLen, true, n, buf)
    case LiteralMore =>
    case LiteralError(e) =>
    case Literal(name, value, rest) =>
      var f := HeaderField(name, value, it.IndexedNever?);
      if it.IndexedTrue? {
        var tab := Add(d.tab, HeaderField(name, value, false));
        if CallEmit(All(), d.(tab := tab), f, rest).Done? {
          FollowEmit(keep, d.(tab := tab), d'.(tab := tab), f, rest);
        }
      } else if CallEmit(All(), d, f, rest).Done? {
        if d'.emitEnabled {
          FollowEmit(keep, d, d', f, rest);
        } else {
          var s := ReadLiteral(c, d.tab.ents, d.maxStrLen, false, n, buf);
          FollowSkip(keep, d, d', f, HeaderField(s.name, s.value, it.IndexedNever?), rest);
        }
      }
      assert ParseLiteral(c, All(), d, buf, n, it).Done? || ParseLiteral(c, All(), d, buf, n, it).Fatal? by {
        EmitOutcome(All(), d, f, rest);
        EmitOutcome(All(), d.(tab := Add(d.tab, HeaderField(name, value, false))), f, rest);
      }
  }

  lemma EmitOutcome(keep: Keep, d: Dec, f: HeaderField, rest: Str)
    ensures !CallEmit(keep, d, f, rest).NeedMore?
  {
  }

  lemma FollowRepr(c: Shared, keep: Keep, d: Dec, d': Dec, buf: Str)
    requires Huffman.WellFormed(c.code) && buf != [] && Follows(keep, d, d')
    ensures Tracks(keep, ParseRepr(c, All(), d, buf), ParseRepr(c, keep, d', buf))
  {
    hide Huffman.WellFormed, ParseLiteral, Emit, SetMaxSize, VarInt.Read, At;
    var b := buf[0];
    if b >= 128 {
      match VarInt.Read(7, buf)
      case NeedMore =>
      case Overflow =>
      case Value(i, rest) =>
        match At(c.fixed, d.tab.ents, i)
        case None =>
        case Some(f) =>
          var g := HeaderField(f.name, f.value, false);
          if CallEmit(All(), d, g, rest).Done? { FollowEmit(keep, d, d', g, rest); }
    } else if b >= 64 {
      FollowLiteral(c, keep, d, d', buf, 6, IndexedTrue);
    } else if b >= 32 {
    } else if b >= 16 {
      FollowLiteral(c, keep, d, d', buf, 4, IndexedNever);
    } else {
      FollowLiteral(c, keep, d, d', buf, 4, IndexedFalse);
    }
  }

  /** Truncation: if a block decodes without error when every field is emitted, it does so whenever
      the callback stops emission, and then the table, the flags and the input left over are the
      same; the fields emitted are the leading ones, up to where the callback stopped. */
  lemma {:induction false} Truncation(c: Shared, keep: Keep, d: Dec, d': Dec, buf: Str)
    requires Huffman.WellFormed(c.code) && Follows(keep, d, d')
    requires Run(c, All(), d, buf).failure.None?
    ensures var o, o' := Run(c, All(), d, buf), Run(c, keep, d', buf);
            o'.failure.None? && Follows(keep, o.d, o'.d) && o'.d.tab == o.d.tab && o'.d.saved == o.d.saved
    decreases |buf|
  {
    hide Huffman.WellFormed, ParseRepr, Emit;
    if buf != [] {
      FollowRepr(c, keep, d, d', buf);
      match ParseRepr(c, All(), d, buf)
      case NeedMore =>
      case Done(d1, rest) =>
        var d1' := ParseRepr(c, keep, d', buf).d;
        Truncation(c, keep, d1.(firstField := false), d1'.(firstField := false), rest);
    }
  }
}
