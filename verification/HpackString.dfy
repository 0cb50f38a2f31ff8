/** String literals of section 5.2 of RFC 7541: appendHpackString and Decoder.readString. */
module HpackString {
  import opened Bits
  import opened HeaderTable
  import VarInt
  import Huffman
  import HuffmanCoder

  datatype Error =
    | StringLength
    | InvalidHuffman
    | VarIntOverflow
    | InvalidIndex(i: nat)
    | SizeUpdateNotFirst
    | SizeUpdateTooLarge
    | TruncatedHeaders

  datatype StringRead = Text(s: Str, rest: Str) | More | Failed(e: Error)

  /** Huffman-coded only when that is strictly shorter. */
  function EncodeString(code: Huffman.Table, s: Str): (r: Str)
    ensures r != []
  {
    var h := Huffman.Encode(code, s);
    assert Pow2(7) == 128;
    if |h| < |s| then VarInt.Flagged(7, 128, |h|) + h else VarInt.Flagged(7, 0, |s|) + s
  }

  /** `maxLen` 0 means no limit; when the string is not wanted it is skipped and reads as empty. */
  function ReadString(code: Huffman.Table, maxLen: nat, p: Str, want: bool): (r: StringRead)
    requires Huffman.WellFormed(code)
    ensures r.Text? ==> |r.rest| < |p| && r.rest == p[|p| - |r.rest|..]
  {
    if p == [] then More
    else
      match VarInt.Read(7, p)
      case NeedMore => More
      case Overflow => Failed(VarIntOverflow)
      case Value(n, q) =>
        if maxLen != 0 && n > maxLen then Failed(StringLength)
        else if |q| < n then More
        else if p[0] < 128 then Text(if want then q[..n] else [], q[n..])
        else if !want then Text([], q[n..])
        else
          match Huffman.Decode(code, maxLen, q[..n])
          case Decoded(s) => Text(s, q[n..])
          case InvalidHuffman => Failed(InvalidHuffman)
          case StringTooLong => Failed(StringLength)
  }

  method AppendString(code: Huffman.Table, dst: Str, s: Str) returns (out: Str)
    requires Huffman.WellFormed(code)
    ensures out == dst + EncodeString(code, s)
  {
    hide Huffman.WellFormed, Huffman.Encode, VarInt.Encode, VarInt.Flagged, Pow2;
    Prefix7();
    var n := HuffmanCoder.HuffmanEncodeLength(code, s);
    if n < |s| {
      out := AppendCoded(code, dst, s, n);
    } else {
      out := VarInt.AppendVarInt(dst, 7, |s|);
      out := out + s;
      assert VarInt.Flagged(7, 0, |s|) == VarInt.Encode(7, |s|) by { NoFlag(|s|); }
    }
  }

  /** Length and coded octets, and then the flag in the octet where the length starts. */
  method AppendCoded(code: Huffman.Table, dst: Str, s: Str, n: nat) returns (out: Str)
    requires Huffman.WellFormed(code)
    ensures 128 + Pow2(7) <= 256 && out == dst + (VarInt.Flagged(7, 128, n) + Huffman.Encode(code, s))
  {
    hide Huffman.WellFormed, Huffman.Encode, VarInt.Encode, BitOr, Pow2;
    Prefix7();
    var first := |dst|;
    out := VarInt.AppendVarInt(dst, 7, n);
    out := HuffmanCoder.AppendHuffmanString(code, out, s);
    ghost var e, h := VarInt.Encode(7, n), Huffman.Encode(code, s);
    assert out == dst + (e + h) && out[first] == e[0];
    SetTopBit(e[0]);
    out := out[first := BitOr(out[first], 0x80)];
    assert out == dst + (([128 + e[0]] + e[1..]) + h);
  }

  lemma NoFlag(n: nat)
    ensures Pow2(7) <= 256 && VarInt.Flagged(7, 0, n) == VarInt.Encode(7, n)
  {
    hide VarInt.Encode, Pow2;
    Prefix7();
  }

  lemma SetTopBit(b: Byte)
    requires b < 128
    ensures BitOr(b, 0x80) == 128 + b
  {
    assert Shl(1, 7) == 128 by {
      assert Shl(1, 3) == 8 by { assert Shl(1, 2) == 4; }
      assert Shl(1, 5) == 32 by { assert Shl(1, 4) == 16; }
      assert Shl(1, 6) == 64;
    }
    assert Pow2(7) == 128;
    OrDisjoint(1, b, 7, 1);
    OrCommutes(b, 0x80);
  }

  lemma OrCommutes(a: nat, b: nat)
    ensures BitOr(a, b) == BitOr(b, a)
  {
  }

  ghost predicate WithinLimit(maxLen: nat, s: Str) {
    |s| < Pow2(63) && (maxLen == 0 || |s| <= maxLen)
  }

  lemma CodedRoundTrip(code: Huffman.Table, maxLen: nat, s: Str, q: Str, want: bool)
    requires Huffman.Good(code) && WithinLimit(maxLen, s) && |Huffman.Encode(code, s)| < |s|
    ensures ReadString(code, maxLen, EncodeString(code, s) + q, want) == Text(if want then s else [], q)
  {
    hide Huffman.PrefixFree, Huffman.PaddingSafe, Huffman.Encode, Huffman.DecodeBits, VarInt.Read, VarInt.Encode, Pow2;
    var h := Huffman.Encode(code, s);
    var p := EncodeString(code, s) + q;
    Prefix7();
    VarInt.RoundTrip(7, 128, |h|, h + q);
    assert p == VarInt.Flagged(7, 128, |h|) + (h + q);
    assert (h + q)[..|h|] == h && (h + q)[|h|..] == q;
    Huffman.DecodeEncode(code, maxLen, s);
  }

  lemma PlainRoundTrip(code: Huffman.Table, maxLen: nat, s: Str, q: Str, want: bool)
    requires Huffman.WellFormed(code) && WithinLimit(maxLen, s) && |Huffman.Encode(code, s)| >= |s|
    ensures ReadString(code, maxLen, EncodeString(code, s) + q, want) == Text(if want then s else [], q)
  {
    hide Huffman.WellFormed, Huffman.Encode, Huffman.DecodeBits, VarInt.Read, VarInt.Encode, Pow2;
    var p := EncodeString(code, s) + q;
    Prefix7();
    VarInt.RoundTrip(7, 0, |s|, s + q);
    assert p == VarInt.Flagged(7, 0, |s|) + (s + q);
    assert (s + q)[..|s|] == s && (s + q)[|s|..] == q;
  }

  /** Reading an encoded string gives it back, with what follows it left over. */
  lemma StringRoundTrip(code: Huffman.Table, maxLen: nat, s: Str, q: Str, want: bool)
    requires Huffman.Good(code) && WithinLimit(maxLen, s)
    ensures ReadString(code, maxLen, EncodeString(code, s) + q, want) == Text(if want then s else [], q)
  {
    hide ReadString, EncodeString, Huffman.Encode, Huffman.WellFormed, Huffman.PrefixFree, Huffman.PaddingSafe;
    if |Huffman.Encode(code, s)| < |s| {
      CodedRoundTrip(code, maxLen, s, q, want);
    } else {
      PlainRoundTrip(code, maxLen, s, q, want);
    }
  }

  lemma Prefix7()
    ensures Pow2(7) == 128
  {
  }

  /** The top bit says that the string is Huffman-coded, which it is exactly when that is shorter; the length that
      follows is that of the octets after it. */
  lemma StringForm(code: Huffman.Table, s: Str)
    ensures Pow2(7) == 128
    ensures var b, h := EncodeString(code, s), Huffman.Encode(code, s);
            && (b[0] >= 128 <==> |h| < |s|)
            && b == VarInt.Flagged(7, if |h| < |s| then 128 else 0, if |h| < |s| then |h| else |s|)
                    + (if |h| < |s| then h else s)
  {
    hide Huffman.Encode, VarInt.Encode, Pow2;
    Prefix7();
  }

  /** A string longer than the limit is refused by its length alone. */
  lemma LongRefused(code: Huffman.Table, maxLen: nat, n: nat, flag: nat, q: Str, want: bool)
    requires Huffman.WellFormed(code) && 0 < maxLen < n < Pow2(63) && flag in {0, 128}
    ensures Pow2(7) == 128 && ReadString(code, maxLen, VarInt.Flagged(7, flag, n) + q, want) == Failed(StringLength)
  {
    hide Huffman.WellFormed, VarInt.Read, VarInt.Flagged, Pow2, Huffman.Decode;
    Prefix7();
    VarInt.RoundTrip(7, flag, n, q);
  }

  /** More input does not change the outcome of a read that is complete. */
  lemma ReadStringExtend(code: Huffman.Table, maxLen: nat, p: Str, q: Str, want: bool)
    requires Huffman.WellFormed(code) && !ReadString(code, maxLen, p, want).More?
    ensures ReadString(code, maxLen, p + q, want) ==
            match ReadString(code, maxLen, p, want) case Text(s, rest) => Text(s, rest + q) case e => e
  {
    hide Huffman.WellFormed, Huffman.DecodeBits, VarInt.Read;
    VarInt.ReadExtend(7, p, q);
    match VarInt.Read(7, p)
    case Overflow =>
    case Value(n, r) =>
      if |r| >= n {
        assert (r + q)[..n] == r[..n] && (r + q)[n..] == r[n..] + q;
      }
  }

  /** The encoding of a string is at most six octets longer than the string. */
  lemma EncodedLength(code: Huffman.Table, s: Str)
    requires |s| < 0x1_0000_0000
    ensures |EncodeString(code, s)| <= |s| + 6
  {
    hide Huffman.Encode;
    Prefix7();
    var h := Huffman.Encode(code, s);
    if |h| < |s| { VarIntLength(7, |h|); } else { VarIntLength(7, |s|); }
  }

  lemma VarIntLength(n: nat, i: nat)
    requires 1 <= n <= 8 && i < 0x8_0000_0000
    ensures |VarInt.Encode(n, i)| <= 6
  {
    var k := Pow2(n) - 1;
    if i >= k { TailLength(i - k); }
  }

  lemma TailLength(i: nat)
    requires i < 0x8_0000_0000
    ensures |VarInt.Tail(i)| <= 5
  {
    var a, b, c, d := i / 128, i / 128 / 128, i / 128 / 128 / 128, i / 128 / 128 / 128 / 128;
    assert d < 128;
    assert |VarInt.Tail(d)| == 1;
    assert |VarInt.Tail(c)| <= 2;
    assert |VarInt.Tail(b)| <= 3;
    assert |VarInt.Tail(a)| <= 4;
  }
}
