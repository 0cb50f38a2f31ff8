/** AppendHuffmanString and HuffmanEncodeLength: the bit buffer that fills octets in place. */
module HuffmanCoder {
  import opened Bits
  import opened Huffman

  /** Or-ing `t` into the free low bits of an octet puts the bits of `t` after its used bits. */
  lemma OrOctet(last: Byte, rem: nat, t: nat)
    requires 1 <= rem <= 8 && t < Pow2(rem)
    requires ToBits(last, 8)[8 - rem..] == Zeros(rem)
    ensures BitOr(last, t) < 256
    ensures ToBits(BitOr(last, t), 8) == ToBits(last, 8)[..8 - rem] + ToBits(t, rem)
  {
    hide ToBits, FromBits, BitOr, Shl, Pow2, Zeros;
    var k: nat := 8 - rem;
    var b := ToBits(last, 8);
    var h := FromBits(b[..k]);
    ToFrom(b[..k]);
    ShiftLeft(h, k, rem);
    assert k + rem == 8;
    assert b == b[..k] + b[k..];
    Pow2Values();
    ShlBound(h, k, rem);
    FromTo(last, 8);
    FromTo(Shl(h, rem), 8);
    OrDisjoint(h, t, rem, k);
    OrBound(h, t, rem, k);
  }

  lemma OrBound(h: nat, t: nat, k: nat, n: nat)
    requires h < Pow2(n) && t < Pow2(k)
    ensures Shl(h, k) + t < Pow2(n + k)
    decreases k
  {
    if k > 0 { OrBound(h, t / 2, k - 1, n); }
  }

  lemma OrTail(out: seq<Byte>, b: seq<bool>, rem: nat, t: nat)
    requires out != [] && 1 <= rem <= 8 && t < Pow2(rem)
    requires BytesToBits(out) == b + Zeros(rem)
    ensures var last := |out| - 1;
            BitOr(out[last], t) < 256 &&
            BytesToBits(out[last := BitOr(out[last], t)]) == b + ToBits(t, rem)
  {
    hide ToBits, BytesToBits, BitOr, Pow2;
    var last := |out| - 1;
    var front := out[..last];
    assert out == front + [out[last]];
    BytesToBitsSnoc(front, out[last]);
    var f := BytesToBits(front);
    assert (f + ToBits(out[last], 8))[|f|..] == ToBits(out[last], 8);
    assert (b + Zeros(rem))[|f|..] == b[|f|..] + Zeros(rem);
    assert (b + Zeros(rem))[..|f|] == b[..|f|];
    assert (f + ToBits(out[last], 8))[..|f|] == f;
    assert ToBits(out[last], 8)[8 - rem..] == Zeros(rem);
    OrOctet(out[last], rem, t);
    var x: Byte := BitOr(out[last], t);
    BytesToBitsSnoc(front, x);
    assert out[last := x] == front + [x];
    assert b == f + b[|f|..];
    assert ToBits(out[last], 8)[..8 - rem] == b[|f|..];
  }

  /** The bits of `code` that go into an octet with `rem` free bits when all `nbits` fit. */
  lemma LastChunk(code: nat, nbits: nat, rem: nat)
    requires nbits < rem <= 8 && (rem == 8 || code < Pow2(nbits))
    ensures var t := Shl(code, rem - nbits) % 256;
            t < Pow2(rem) && ToBits(t, rem) == ToBits(code, nbits) + Zeros(rem - nbits)
  {
    Pow2Values();
    hide ToBits, Shl, Pow2;
    var v := Shl(code, rem - nbits);
    assert nbits + (rem - nbits) == rem;
    ShiftLeft(code, nbits, rem - nbits);
    if rem == 8 {
      Truncate8(v);
    } else {
      ShlBound(code, nbits, rem - nbits);
      Pow2Monotone(rem, 8);
    }
  }

  /** The next `rem` bits of `code` when it has at least that many left. */
  lemma FullChunk(code: nat, nbits: nat, rem: nat)
    requires 1 <= rem <= 8 && rem <= nbits && (rem == 8 || code < Pow2(nbits))
    ensures var t := Shr(code, nbits - rem) % 256;
            t < Pow2(rem) && ToBits(code, nbits) == ToBits(t, rem) + ToBits(code, nbits - rem)
  {
    Pow2Values();
    hide ToBits, Shr, Pow2;
    var v := Shr(code, nbits - rem);
    Split(code, rem, nbits - rem);
    assert rem + (nbits - rem) == nbits;
    if rem == 8 {
      Truncate8(v);
    } else {
      ShrBound(code, rem, nbits - rem);
      Pow2Monotone(rem, 8);
    }
  }

  /** Both chunks, or-ed into the last octet of the buffer. */
  lemma WriteLastChunk(out: seq<Byte>, b: seq<bool>, code: nat, nbits: nat, rem: nat)
    requires out != [] && 1 <= nbits < rem <= 8 && (rem == 8 || code < Pow2(nbits))
    requires BytesToBits(out) == b + Zeros(rem)
    ensures var last, t := |out| - 1, Shl(code, rem - nbits) % 256;
            BitOr(out[last], t) < 256 &&
            BytesToBits(out[last := BitOr(out[last], t)]) == b + ToBits(code, nbits) + Zeros(rem - nbits)
  {
    hide ToBits, BytesToBits, BitOr, Pow2, Shl, Zeros;
    LastChunk(code, nbits, rem);
    var t := Shl(code, rem - nbits) % 256;
    OrTail(out, b, rem, t);
    assert b + ToBits(t, rem) == b + ToBits(code, nbits) + Zeros(rem - nbits);
  }

  lemma WriteFullChunk(out: seq<Byte>, b: seq<bool>, code: nat, nbits: nat, rem: nat)
    requires out != [] && 1 <= rem <= 8 && rem <= nbits && (rem == 8 || code < Pow2(nbits))
    requires BytesToBits(out) == b + Zeros(rem)
    ensures var last, t := |out| - 1, Shr(code, nbits - rem) % 256;
            BitOr(out[last], t) < 256 &&
            BytesToBits(out[last := BitOr(out[last], t)]) + ToBits(code, nbits - rem) == b + ToBits(code, nbits)
  {
    hide ToBits, BytesToBits, BitOr, Pow2, Shr, Zeros;
    FullChunk(code, nbits, rem);
    var t := Shr(code, nbits - rem) % 256;
    OrTail(out, b, rem, t);
    assert b + ToBits(t, rem) + ToBits(code, nbits - rem) == b + ToBits(code, nbits);
  }

  lemma FreshOctet(out: seq<Byte>)
    ensures BytesToBits(out + [0]) == BytesToBits(out) + Zeros(8)
  {
    BytesToBitsSnoc(out, 0);
    ToBitsZero(8);
  }

  /** appendByteToHuffmanCode: `b` are the bits written so far, of which the last octet of `dst`
      still has `rembits` free. */
  method AppendByte(t: Table, dst: seq<Byte>, rembits: nat, c: Byte, ghost b: seq<bool>)
    returns (out: seq<Byte>, rem: nat)
    requires WellFormed(t) && dst != [] && 1 <= rembits <= 8
    requires BytesToBits(dst) == b + Zeros(rembits)
    ensures out != [] && 1 <= rem <= 8
    ensures BytesToBits(out) == b + CodeBits(t, c) + Free(rem)
  {
    var code, nbits := t[c].bits, t[c].len;
    assert code < Pow2(nbits) && 1 <= nbits;
    hide WellFormed, ToBits, BytesToBits, Shl, Shr, BitOr, Zeros, Pow2;
    out, rem := dst, rembits;
    ghost var w := b;  // the bits in the buffer; those of c still to come are the low nbits of code
    while true
      invariant 1 <= nbits <= t[c].len && 1 <= rem <= 8 && out != []
      invariant rem == 8 || nbits == t[c].len
      invariant w + ToBits(code, nbits) == b + CodeBits(t, c)
      invariant BytesToBits(out) == w + Zeros(rem)
      decreases nbits
    {
      if rem > nbits {
        WriteLastChunk(out, w, code, nbits, rem);
        out := out[|out| - 1 := BitOr(out[|out| - 1], Shl(code, rem - nbits) % 256)];
        rem := rem - nbits;
        return;
      }
      WriteFullChunk(out, w, code, nbits, rem);
      out := out[|out| - 1 := BitOr(out[|out| - 1], Shr(code, nbits - rem) % 256)];
      w := BytesToBits(out);
      nbits := nbits - rem;
      rem := 8;
      if nbits == 0 {
        assert ToBits(code, 0) == [];
        return;
      }
      FreshOctet(out);
      out := out + [0];
    }
  }

  lemma EosPadding(rem: nat)
    requires 1 <= rem <= 7
    ensures var t := Shr(0x3fffffff, 30 - rem) % 256;
            t < Pow2(rem) && ToBits(t, rem) == Ones(rem)
  {
    hide Shr, ToBits, Pow2;
    Pow2Values();
    OnesValue(30);
    FullChunkOf(0x3fffffff, 30, rem);
    assert Ones(30)[..rem] == Ones(rem);
  }

  lemma FullChunkOf(code: nat, nbits: nat, rem: nat)
    requires 1 <= rem <= 8 && rem <= nbits && code < Pow2(nbits)
    ensures var t := Shr(code, nbits - rem) % 256;
            t < Pow2(rem) && ToBits(t, rem) == ToBits(code, nbits)[..rem]
  {
    FullChunk(code, nbits, rem);
  }

  lemma EncodeBitsTake(t: Table, d: seq<bool>, s: seq<Byte>, i: nat)
    requires i < |s|
    ensures d + EncodeBits(t, s[..i + 1]) == d + EncodeBits(t, s[..i]) + CodeBits(t, s[i])
  {
    EncodeBitsSnoc(t, s[..i], s[i]);
    assert s[..i] + [s[i]] == s[..i + 1];
  }

  /** The unused bits of the last octet; a buffer of whole octets has none. */
  function Free(rembits: nat): seq<bool> {
    if rembits == 8 then [] else Zeros(rembits)
  }

  lemma WritePadding(out: seq<Byte>, b: seq<bool>, rem: nat)
    requires out != [] && 1 <= rem <= 7 && BytesToBits(out) == b + Zeros(rem)
    ensures var last, t := |out| - 1, Shr(0x3fffffff, 30 - rem) % 256;
            BitOr(out[last], t) < 256 && BytesToBits(out[last := BitOr(out[last], t)]) == b + Ones(rem)
  {
    EosPadding(rem);
    OrTail(out, b, rem, Shr(0x3fffffff, 30 - rem) % 256);
  }

  /** AppendHuffmanString appends exactly the encoding of `s`. */
  method AppendHuffmanString(t: Table, dst: seq<Byte>, s: seq<Byte>) returns (out: seq<Byte>)
    requires WellFormed(t)
    ensures out == dst + Encode(t, s)
  {
    out := dst;
    var rembits := 8;
    ghost var d := BytesToBits(dst);
    ghost var b := d;
    assert d + EncodeBits(t, s[..0]) == d;
    assert d + Free(8) == d;
    hide ToBits, BytesToBits, Shl, Shr, BitOr, Zeros, Pow2, CodeBits, EncodeBits, Encode, WellFormed;
    for i := 0 to |s|
      invariant 1 <= rembits <= 8 && (rembits < 8 ==> out != [])
      invariant b == d + EncodeBits(t, s[..i])
      invariant BytesToBits(out) == b + Free(rembits)
    {
      if rembits == 8 {
        assert b + Free(8) == b;
        FreshOctet(out);
        out := out + [0];
      }
      out, rembits := AppendByte(t, out, rembits, s[i], b);
      EncodeBitsTake(t, d, s, i);
      b := b + CodeBits(t, s[i]);
    }
    assert s[..|s|] == s;
    ghost var k := 0;
    if rembits < 8 {
      WritePadding(out, b, rembits);
      out := out[|out| - 1 := BitOr(out[|out| - 1], Shr(0x3fffffff, 30 - rembits) % 256)];
      k := rembits;
    } else {
      assert b + Free(8) == b + Ones(0);
    }
    AppendedEncoding(t, dst, s, out, k);
  }

  lemma AppendedEncoding(t: Table, dst: seq<Byte>, s: seq<Byte>, out: seq<Byte>, k: nat)
    requires k <= 7
    requires BytesToBits(out) == BytesToBits(dst) + EncodeBits(t, s) + Ones(k)
    ensures out == dst + Encode(t, s)
  {
    PadUnique(|EncodeBits(t, s)|, k, |out| - |dst|);
    BytesToBitsConcat(dst, Encode(t, s));
    assert BytesToBits(out) == BytesToBits(dst) + (EncodeBits(t, s) + Ones(k));
    BytesToBitsInjective(out, dst + Encode(t, s));
  }

  /** HuffmanEncodeLength is the length of the encoding. */
  method HuffmanEncodeLength(t: Table, s: seq<Byte>) returns (n: nat)
    ensures n == |Encode(t, s)|
  {
    n := 0;
    for i := 0 to |s|
      invariant n == |EncodeBits(t, s[..i])|
    {
      EncodeBitsSnoc(t, s[..i], s[i]);
      assert s[..i] + [s[i]] == s[..i + 1];
      n := n + t[s[i]].len;
    }
    assert s[..|s|] == s;
    assert 8 * |Encode(t, s)| == n + PadLength(n);
    n := (n + 7) / 8;
  }
}
