/** The Encoder object: its fields, updated in place, follow the functions of Hpack. */
module HpackEncoder {
  import opened Bits
  import opened HeaderTable
  import opened HpackString
  import DynamicTable
  import Hpack
  import VarInt
  import Huffman

  method AppendFlagged(dst: Str, n: nat, flag: Byte, i: nat) returns (out: Str)
    requires 1 <= n <= 8 && flag + Pow2(n) <= 256 && flag in {0, 0x10, 0x20, 0x40, 0x80}
    requires (flag == 0 || flag >= Pow2(n))
    ensures out == dst + VarInt.Flagged(n, flag, i)
  {
    hide VarInt.Encode, BitOr, Pow2;
    var first := |dst|;
    out := VarInt.AppendVarInt(dst, n, i);
    ghost var e := VarInt.Encode(n, i);
    SetFlag(e[0], flag, n);
    out := out[first := BitOr(out[first], flag)];
    assert out == dst + ([flag + e[0]] + e[1..]);
  }

  /** A flag above all bits of `b` is added by or. */
  lemma SetFlag(b: Byte, flag: Byte, n: nat)
    requires b < Pow2(n) && flag + Pow2(n) <= 256 && flag in {0, 0x10, 0x20, 0x40, 0x80}
    requires (flag == 0 || flag >= Pow2(n))
    ensures BitOr(b, flag) == flag + b
  {
    OrCommutes(b, flag);
    if flag == 0 {
      OrZero(b);
    } else {
      Flags();
      assert b < flag;
      var k := if flag == 0x10 then 4 else if flag == 0x20 then 5 else if flag == 0x40 then 6 else 7;
      OrDisjoint(1, b, k, 1);
    }
  }

  lemma Flags()
    ensures Shl(1, 4) == 0x10 && Shl(1, 5) == 0x20 && Shl(1, 6) == 0x40 && Shl(1, 7) == 0x80
    ensures Pow2(4) == 0x10 && Pow2(5) == 0x20 && Pow2(6) == 0x40 && Pow2(7) == 0x80
  {
    assert Shl(1, 2) == 4;
    assert Shl(1, 4) == 0x10 by { assert Shl(1, 3) == 8; }
    assert Shl(1, 6) == 0x40 by { assert Shl(1, 5) == 0x20; }
  }

  class Encoder {
    const code: Huffman.Table
    const fixed: HeaderFieldTable  // the static table
    const dynTab: DynamicTable.Table
    var minSize: nat
    var maxSizeLimit: nat
    var tableSizeUpdate: bool

    ghost predicate Valid()
      reads this, fixed, dynTab, dynTab.table
    {
      Huffman.WellFormed(code) && !fixed.dynamic && fixed.Valid() && dynTab.Valid()
    }

    ghost function Tables(): Hpack.Shared
      reads fixed
    {
      Hpack.Shared(code, fixed.ents)
    }

    ghost function Value(): Hpack.Enc
      reads this, dynTab, dynTab.table
    {
      Hpack.Enc(dynTab.Value(), minSize, maxSizeLimit, tableSizeUpdate)
    }

    constructor (code: Huffman.Table, fixed: HeaderFieldTable)
      requires Huffman.WellFormed(code) && !fixed.dynamic && fixed.Valid()
      ensures Valid() && fresh(dynTab) && fresh(dynTab.table)
      ensures Value() == Hpack.NewEnc() && Tables() == Hpack.Shared(code, fixed.ents)
    {
      this.code, this.fixed := code, fixed;
      dynTab := new DynamicTable.Table(4096);
      minSize, maxSizeLimit, tableSizeUpdate := Hpack.UINT32_MAX, 4096, false;
    }

    /** searchTable. */
    method Search(f: HeaderField) returns (r: Found)
      requires Valid()
      ensures r == Hpack.SearchTable(fixed.ents, dynTab.table.ents, f)
    {
      hide Huffman.WellFormed, NamesFrom, PairsFrom, Scan;
      var i := fixed.Search(f);
      if i.nameValueMatch { return i; }
      var j := dynTab.table.Search(f);
      if j.nameValueMatch || (i.index == 0 && j.index != 0) {
        return Found(j.index + |fixed.ents|, j.nameValueMatch);
      }
      return Found(i.index, false);
    }

    /** WriteField: `out` is what it writes to the underlying writer. */
    method WriteField(f: HeaderField) returns (out: Str)
      requires Valid()
      modifies this, dynTab, dynTab.table
      ensures Valid() && Tables() == old(Tables())
      ensures (Value(), out) == Hpack.WriteField(Tables(), old(Value()), f)
    {
      hide Huffman.WellFormed, NamesFrom, PairsFrom, Hpack.SearchTable, DynamicTable.Add, DynamicTable.Size;
      hide VarInt.Flagged, EncodeString;
      Flags();
      out := [];
      if tableSizeUpdate {
        tableSizeUpdate := false;
        if minSize < dynTab.maxSize {
          out := AppendFlagged(out, 5, 0x20, minSize);
        }
        minSize := Hpack.UINT32_MAX;
        out := AppendFlagged(out, 5, 0x20, dynTab.maxSize);
      }
      ghost var pre := out;
      assert pre == Hpack.UpdateBytes(old(Value()));
      ghost var e := Hpack.Flushed(old(Value()));
      assert Value() == e;
      var found := Search(f);
      if found.nameValueMatch {
        out := AppendFlagged(out, 7, 0x80, found.index);
      } else {
        var indexing := !f.sensitive && DynamicTable.Size(f) <= dynTab.maxSize;
        if indexing {
          dynTab.AddField(f);
        }
        if found.index == 0 {
          out := AppendNewName(out, f, indexing);
        } else {
          out := AppendIndexedName(out, f, found.index, indexing);
        }
      }
      assert out == pre + Hpack.FieldBytes(Tables(), e, f);
    }

    method AppendNewName(dst: Str, f: HeaderField, indexing: bool) returns (out: Str)
      requires Huffman.WellFormed(code) && (indexing ==> !f.sensitive)
      ensures out == dst + Hpack.NewNameRecord(code, f, indexing)
    {
      hide Huffman.WellFormed, EncodeString;
      out := dst + [Hpack.TypeByte(indexing, f.sensitive)];
      out := AppendString(code, out, f.name);
      out := AppendString(code, out, f.value);
      ghost var t := [Hpack.TypeByte(indexing, f.sensitive)];
      ghost var n, v := EncodeString(code, f.name), EncodeString(code, f.value);
      assert dst + t + n + v == dst + (t + n + v);
    }

    method AppendIndexedName(dst: Str, f: HeaderField, i: nat, indexing: bool) returns (out: Str)
      requires Huffman.WellFormed(code) && (indexing ==> !f.sensitive)
      ensures out == dst + Hpack.IndexedNameRecord(code, f, i, indexing)
    {
      hide Huffman.WellFormed, VarInt.Flagged, EncodeString, Pow2, Shl;
      Flags();
      var n := if indexing then 6 else 4;
      out := AppendFlagged(dst, n, Hpack.TypeByte(indexing, f.sensitive), i);
      ghost var h, v := VarInt.Flagged(n, Hpack.TypeByte(indexing, f.sensitive), i), EncodeString(code, f.value);
      out := AppendString(code, out, f.value);
      assert dst + h + v == dst + (h + v);
    }

    /** SetMaxDynamicTableSizeLimit. */
    method SetMaxDynamicTableSizeLimit(v: nat)
      requires Valid()
      modifies this, dynTab, dynTab.table
      ensures Valid() && Tables() == old(Tables())
      ensures Value() == Hpack.SetLimit(old(Value()), v)
    {
      hide Huffman.WellFormed, NamesFrom, PairsFrom, DynamicTable.SetMaxSize;
      maxSizeLimit := v;
      if dynTab.maxSize > v {
        tableSizeUpdate := true;
        dynTab.SetMax(v);
      }
    }

    /** SetMaxDynamicTableSize. */
    method SetMaxDynamicTableSize(v: nat)
      requires Valid()
      modifies this, dynTab, dynTab.table
      ensures Valid() && Tables() == old(Tables())
      ensures Value() == Hpack.SetMaxDynamic(old(Value()), v)
    {
      hide Huffman.WellFormed, NamesFrom, PairsFrom, DynamicTable.SetMaxSize;
      var w := if v > maxSizeLimit then maxSizeLimit else v;
      if w < minSize { minSize := w; }
      tableSizeUpdate := true;
      dynTab.SetMax(w);
    }
  }
}
