/** The Decoder object: its buffer, table and flags, updated in place, follow the functions of Hpack. */
module HpackDecoder {
  import opened Bits
  import opened HeaderTable
  import opened HpackString
  import DynamicTable
  import Hpack
  import VarInt
  import Huffman
  import HuffmanTree

  datatype Status = Fine | Need | Err(e: Error)

  class Decoder {
    const code: Huffman.Table
    const tree: HuffmanTree.Tree
    const fixed: HeaderFieldTable  // the static table
    const dynTab: DynamicTable.Table
    const keep: Hpack.Keep  // whether the emit callback keeps emission on
    var allowedMaxSize: nat
    var maxStrLen: nat
    var firstField: bool
    var emitEnabled: bool
    var emitted: seq<HeaderField>
    var saveBuf: Str
    var buf: Str

    ghost predicate Valid()
      reads this, fixed, dynTab, dynTab.table
    {
      && Huffman.Good(code) && HuffmanTree.Complete(tree, code)
      && !fixed.dynamic && fixed.Valid() && dynTab.Valid()
    }

    ghost function Tables(): Hpack.Shared
      reads fixed
    {
      Hpack.Shared(code, fixed.ents)
    }

    ghost function Value(): Hpack.Dec
      reads this, dynTab, dynTab.table
    {
      Hpack.Dec(dynTab.Value(), allowedMaxSize, maxStrLen, firstField, emitEnabled, emitted, saveBuf)
    }

    /** How a parse shows in the object: the buffer is consumed only if it succeeds. */
    ghost predicate Shows(r: Hpack.Parse, s: Status, v: Hpack.Dec, before: Str)
      reads this, dynTab, dynTab.table
    {
      match r
      case Done(d, rest) => s == Fine && Value() == d && buf == rest
      case NeedMore => s == Need && Value() == v && buf == before
      case Fatal(d, e) => s == Err(e) && Value() == d
    }

    constructor (code: Huffman.Table, tree: HuffmanTree.Tree, fixed: HeaderFieldTable, maxSize: nat, keep: Hpack.Keep)
      requires Huffman.Good(code) && HuffmanTree.Complete(tree, code) && !fixed.dynamic && fixed.Valid()
      ensures Valid() && fresh(dynTab) && fresh(dynTab.table)
      ensures Value() == Hpack.NewDec(maxSize) && Tables() == Hpack.Shared(code, fixed.ents) && this.keep == keep
    {
      this.code, this.tree, this.fixed, this.keep := code, tree, fixed, keep;
      dynTab := new DynamicTable.Table(maxSize);
      allowedMaxSize, maxStrLen := maxSize, 0;
      firstField, emitEnabled, emitted, saveBuf, buf := true, true, [], [], [];
    }

    method At(i: nat) returns (r: Option<HeaderField>)
      ensures r == Hpack.At(fixed.ents, dynTab.table.ents, i)
    {
      if i == 0 { return None; }
      if i <= |fixed.ents| { return Some(fixed.ents[i - 1]); }
      if i > |fixed.ents| + |dynTab.table.ents| { return None; }
      return Some(dynTab.table.ents[|dynTab.table.ents| - (i - |fixed.ents|)]);
    }

    method ReadText(p: Str, want: bool) returns (r: StringRead)
      requires Huffman.Good(code) && HuffmanTree.Complete(tree, code)
      ensures r == ReadString(code, maxStrLen, p, want)
    {
      hide Huffman.WellFormed, Huffman.PrefixFree, Huffman.PaddingSafe, Huffman.Decode, HuffmanTree.Built, VarInt.Read;
      if p == [] { return More; }
      var v := VarInt.ReadVarInt(7, p);
      match v
      case NeedMore => return More;
      case Overflow => return Failed(VarIntOverflow);
      case Value(n, q) =>
        if maxStrLen != 0 && n > maxStrLen { return Failed(StringLength); }
        if |q| < n { return More; }
        if p[0] < 128 { return Text(if want then q[..n] else [], q[n..]); }
        if !want { return Text([], q[n..]); }
        var h := HuffmanTree.HuffmanDecode(code, tree, maxStrLen, q[..n]);
        match h
        case Decoded(s) => return Text(s, q[n..]);
        case InvalidHuffman => return Failed(InvalidHuffman);
        case StringTooLong => return Failed(StringLength);
    }

    method CallEmit(f: HeaderField) returns (s: Status)
      modifies this
      ensures Shows(Hpack.CallEmit(keep, old(Value()), f, old(buf)), s, old(Value()), old(buf))
      ensures !s.Need? && buf == old(buf)
    {
      if maxStrLen != 0 && (|f.name| > maxStrLen || |f.value| > maxStrLen) { return Err(StringLength); }
      if emitEnabled {
        emitted := emitted + [f];
        emitEnabled := keep(emitted);
      }
      return Fine;
    }

    method ParseFieldIndexed() returns (s: Status)
      requires Valid() && buf != []
      modifies this
      ensures Valid() && Shows(Hpack.ParseIndexed(Tables(), keep, old(Value()), old(buf)), s, old(Value()), old(buf))
    {
      hide Huffman.Good, HuffmanTree.Complete, NamesFrom, PairsFrom, VarInt.Read, Hpack.At, Hpack.CallEmit;
      var v := VarInt.ReadVarInt(7, buf);
      match v
      case NeedMore => return Need;
      case Overflow => return Err(VarIntOverflow);
      case Value(i, rest) =>
        var f := At(i);
        if f.None? { return Err(InvalidIndex(i)); }
        buf := rest;
        assert Value() == old(Value());
        s := CallEmit(HeaderField(f.value.name, f.value.value, false));
    }

    /** The name and value of a literal field, without consuming them. */
    method ReadFields(n: nat, want: bool) returns (r: Hpack.LiteralRead)
      requires Valid() && 1 <= n <= 8
      ensures r == Hpack.ReadLiteral(Tables(), dynTab.table.ents, maxStrLen, want, n, buf)
    {
      hide Huffman.WellFormed, Huffman.PrefixFree, Huffman.PaddingSafe, HuffmanTree.Built, NamesFrom, PairsFrom;
      hide VarInt.Read, Hpack.At, ReadString;
      var v := VarInt.ReadVarInt(n, buf);
      match v
      case NeedMore => return Hpack.LiteralMore;
      case Overflow => return Hpack.LiteralError(VarIntOverflow);
      case Value(i, rest) =>
        var name, left := [], rest;
        if i > 0 {
          var f := At(i);
          if f.None? { return Hpack.LiteralError(InvalidIndex(i)); }
          name := f.value.name;
        } else {
          var t := ReadText(rest, want);
          match t {
            case More => return Hpack.LiteralMore;
            case Failed(e) => return Hpack.LiteralError(e);
            case Text(x, y) => name, left := x, y;
          }
        }
        var t := ReadText(left, want);
        match t
        case More => return Hpack.LiteralMore;
        case Failed(e) => return Hpack.LiteralError(e);
        case Text(value, y) => return Hpack.Literal(name, value, y);
    }

    method ParseFieldLiteral(n: nat, it: Hpack.IndexType) returns (s: Status)
      requires Valid() && 1 <= n <= 8
      modifies this, dynTab, dynTab.table
      ensures Valid() && Tables() == old(Tables())
      ensures Shows(Hpack.ParseLiteral(Tables(), keep, old(Value()), old(buf), n, it), s, old(Value()), old(buf))
    {
      hide Huffman.WellFormed, Huffman.PrefixFree, Huffman.PaddingSafe, HuffmanTree.Built, NamesFrom, PairsFrom;
      hide Hpack.ReadLiteral, Hpack.CallEmit, DynamicTable.Add;
      var r := ReadFields(n, emitEnabled || it.IndexedTrue?);
      match r
      case LiteralMore => return Need;
      case LiteralError(e) => return Err(e);
      case Literal(name, value, rest) =>
        buf := rest;
        if it.IndexedTrue? {
          dynTab.AddField(HeaderField(name, value, false));
        }
        s := CallEmit(HeaderField(name, value, it.IndexedNever?));
    }

    method ParseDynamicTableSizeUpdate() returns (s: Status)
      requires Valid()
      modifies this, dynTab, dynTab.table
      ensures Valid() && Tables() == old(Tables())
      ensures Shows(Hpack.ParseSizeUpdate(old(Value()), old(buf)), s, old(Value()), old(buf))
    {
      hide Huffman.Good, HuffmanTree.Complete, NamesFrom, PairsFrom, VarInt.Read, DynamicTable.SetMaxSize;
      if !firstField && dynTab.size > 0 { return Err(SizeUpdateNotFirst); }
      var v := VarInt.ReadVarInt(5, buf);
      match v
      case NeedMore => return Need;
      case Overflow => return Err(VarIntOverflow);
      case Value(size, rest) =>
        if size > allowedMaxSize { return Err(SizeUpdateTooLarge); }
        dynTab.SetMax(size);
        buf := rest;
        return Fine;
    }

    method ParseHeaderFieldRepr() returns (s: Status)
      requires Valid() && buf != []
      modifies this, dynTab, dynTab.table
      ensures Valid() && Tables() == old(Tables())
      ensures Shows(Hpack.ParseRepr(Tables(), keep, old(Value()), old(buf)), s, old(Value()), old(buf))
    {
      hide Huffman.WellFormed, Huffman.PrefixFree, Huffman.PaddingSafe, HuffmanTree.Built, NamesFrom, PairsFrom;
      hide Hpack.ParseLiteral, Hpack.ParseIndexed, Hpack.ParseSizeUpdate;
      var b := buf[0];
      if b >= 128 {
        s := ParseFieldIndexed();
      } else if 64 <= b {
        s := ParseFieldLiteral(6, Hpack.IndexedTrue);
      } else if b < 16 {
        s := ParseFieldLiteral(4, Hpack.IndexedFalse);
      } else if b < 32 {
        s := ParseFieldLiteral(4, Hpack.IndexedNever);
      } else {
        s := ParseDynamicTableSizeUpdate();
      }
    }

    /** Write: the loop over the representations in the buffer. */
    method Write(p: Str) returns (failure: Option<Error>)
      requires Valid()
      modifies this, dynTab, dynTab.table
      ensures Valid() && Tables() == old(Tables())
      ensures Hpack.Outcome(Value(), failure) == Hpack.Write(Tables(), keep, old(Value()), p)
    {
      hide Huffman.WellFormed, Huffman.PrefixFree, Huffman.PaddingSafe, HuffmanTree.Built, NamesFrom, PairsFrom;
      hide Hpack.ParseRepr, Hpack.Run, Hpack.Write, HeaderFieldTable.Valid, DynamicTable.Table.Valid;
      hide HuffmanTree.Complete;
      WriteIs(Tables(), keep, Value(), p);
      if p == [] { return None; }
      if saveBuf == [] {
        buf := p;
      } else {
        buf := saveBuf + p;
        saveBuf := [];
      }
      assert old(saveBuf) == [] ==> old(saveBuf) + p == p;
      while buf != []
        invariant Valid() && Tables() == old(Tables())
        invariant Hpack.Run(Tables(), keep, Value(), buf) == Hpack.Write(Tables(), keep, old(Value()), p)
        decreases |buf|
      {
        RunIs(Tables(), keep, Value(), buf);
        var s := ParseHeaderFieldRepr();
        match s {
          case Need =>
            if maxStrLen != 0 && |buf| > 2 * (maxStrLen + 8) { return Some(StringLength); }
            saveBuf := buf;
            return None;
          case Err(e) =>
            firstField := false;
            return Some(e);
          case Fine =>
            firstField := false;
        }
      }
      RunIs(Tables(), keep, Value(), buf);
      return None;
    }

    lemma WriteIs(c: Hpack.Shared, keep: Hpack.Keep, d: Hpack.Dec, p: Str)
      requires Huffman.WellFormed(c.code)
      ensures Hpack.Write(c, keep, d, p) ==
              if p == [] then Hpack.Outcome(d, None) else Hpack.Run(c, keep, d.(saved := []), d.saved + p)
    {
      hide Huffman.WellFormed, Hpack.Run;
    }

    lemma RunIs(c: Hpack.Shared, keep: Hpack.Keep, d: Hpack.Dec, buf: Str)
      requires Huffman.WellFormed(c.code)
      ensures buf == [] ==> Hpack.Run(c, keep, d, buf) == Hpack.Outcome(d, None)
      ensures buf != [] ==>
                var r := Hpack.ParseRepr(c, keep, d, buf);
                Hpack.Run(c, keep, d, buf) ==
                if r.NeedMore? then Hpack.Save(d, buf)
                else if r.Fatal? then Hpack.Outcome(r.d.(firstField := false), Some(r.e))
                else Hpack.Run(c, keep, r.d.(firstField := false), r.rest)
    {
      hide Huffman.WellFormed, Hpack.ParseRepr;
    }

    method Close() returns (failure: Option<Error>)
      requires Valid()
      modifies this
      ensures Valid() && Hpack.Outcome(Value(), failure) == Hpack.Close(old(Value()))
    {
      if saveBuf != [] {
        saveBuf := [];
        return Some(TruncatedHeaders);
      }
      firstField := true;
      return None;
    }
  }
}
