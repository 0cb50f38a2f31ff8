/** Huffman coding of strings (section 5.2 of RFC 7541) on bit strings, for any prefix-free code:
    what the byte-at-a-time coder and decoder of the program compute, and the two directions of
    the round trip. */
module Huffman {
  import opened Bits

  /** A code word: the low `len` bits of `bits`. */
  datatype Code = Code(bits: nat, len: nat)

  type Table = t: seq<Code> | |t| == 256 witness seq(256, _ => Code(0, 1))

  datatype Result = Decoded(s: seq<Byte>) | InvalidHuffman | StringTooLong

  ghost predicate WellFormed(t: Table) {
    forall i :: 0 <= i < 256 ==> 1 <= t[i].len <= 30 && t[i].bits < Pow2(t[i].len)
  }

  function CodeBits(t: Table, sym: Byte): (r: seq<bool>)
  {
    ToBits(t[sym].bits, t[sym].len)
  }

  ghost predicate PrefixFree(t: Table)
  {
    forall a: Byte, b: Byte :: CodeBits(t, a) <= CodeBits(t, b) ==> a == b
  }

  /** `c` one bits filled up with zeros to an octet: what is left of the padding when the last
      octet is looked up. */
  function PadOctet(c: nat): (r: seq<bool>)
    requires c <= 8
  {
    Ones(c) + Zeros(8 - c)
  }

  /** The padding never completes a symbol. */
  ghost predicate PadNever(t: Table) {
    forall c, sym: Byte :: 0 <= c <= 7 ==> CodeBits(t, sym) != Ones(c)
  }

  /** Some symbol starts with, or is a start of, the octet. */
  ghost predicate PadCovers(t: Table, c: nat)
    requires c <= 8
  {
    exists sym: Byte :: CodeBits(t, sym) <= PadOctet(c) || PadOctet(c) <= CodeBits(t, sym)
  }

  /** The padding never completes a symbol, and the table never runs out of symbols on it. */
  ghost predicate PaddingSafe(t: Table) {
    PadNever(t) && forall c :: 1 <= c <= 7 ==> PadCovers(t, c)
  }

  ghost predicate Good(t: Table) {
    WellFormed(t) && PrefixFree(t) && PaddingSafe(t)
  }

  // ---- Encoding ----

  function EncodeBits(t: Table, s: seq<Byte>): (r: seq<bool>)
  {
    if s == [] then [] else CodeBits(t, s[0]) + EncodeBits(t, s[1..])
  }

  function PadLength(n: nat): (k: nat)
    ensures k <= 7 && (n + k) % 8 == 0
  {
    (8 - n % 8) % 8
  }

  /** The code words of `s`, filled up with one bits to a whole number of octets. */
  function Encode(t: Table, s: seq<Byte>): (v: seq<Byte>)
    ensures BytesToBits(v) == EncodeBits(t, s) + Ones(PadLength(|EncodeBits(t, s)|))
  {
    var b := EncodeBits(t, s);
    Pack(b + Ones(PadLength(|b|)))
  }

  lemma {:induction false} EncodeBitsSnoc(t: Table, s: seq<Byte>, c: Byte)
    ensures EncodeBits(t, s + [c]) == EncodeBits(t, s) + CodeBits(t, c)
  {
    if s == [] {
      assert s + [c] == [c];
      assert [c][1..] == [];
    } else {
      assert (s + [c])[1..] == s[1..] + [c];
      EncodeBitsSnoc(t, s[1..], c);
    }
  }

  // ---- Decoding ----

  /** The first symbol from `k` on whose code word starts `r`. */
  function MatchFrom(t: Table, r: seq<bool>, k: nat): (m: Option<Byte>)
    requires k <= 256
    ensures m.Some? ==> CodeBits(t, m.value) <= r
    ensures m.None? ==> forall c: Byte :: k <= c ==> !(CodeBits(t, c) <= r)
    decreases 256 - k
  {
    if k == 256 then None
    else if CodeBits(t, k) <= r then Some(k)
    else MatchFrom(t, r, k + 1)
  }

  /** Take symbols off the front of `r` while some code word starts it; what is left must be at
      most seven one bits. */
  function DecodeBits(t: Table, maxLen: nat, r: seq<bool>, out: seq<Byte>): (d: Result)
    requires WellFormed(t)
    decreases |r|
  {
    match MatchFrom(t, r, 0)
    case Some(sym) =>
      if maxLen != 0 && |out| == maxLen then StringTooLong
      else DecodeBits(t, maxLen, r[t[sym].len..], out + [sym])
    case None =>
      if |r| <= 7 && r == Ones(|r|) then Decoded(out) else InvalidHuffman
  }

  function Decode(t: Table, maxLen: nat, v: seq<Byte>): (d: Result)
    requires WellFormed(t)
  {
    DecodeBits(t, maxLen, BytesToBits(v), [])
  }

  // ---- Round trips ----

  lemma MatchUnique(t: Table, r: seq<bool>, sym: Byte)
    requires WellFormed(t) && PrefixFree(t) && CodeBits(t, sym) <= r
    ensures MatchFrom(t, r, 0) == Some(sym)
  {
    var a, b := CodeBits(t, MatchFrom(t, r, 0).value), CodeBits(t, sym);
    assert a <= b || b <= a;
  }

  lemma PrefixOfOnes(p: seq<bool>, k: nat)
    requires p <= Ones(k)
    ensures p == Ones(|p|)
  {
  }

  lemma MatchOnes(t: Table, k: nat)
    requires PaddingSafe(t) && k <= 7
    ensures MatchFrom(t, Ones(k), 0) == None
  {
    var m := MatchFrom(t, Ones(k), 0);
    if m.Some? {
      PrefixOfOnes(CodeBits(t, m.value), k);
      assert false;
    }
  }

  /** One decoding step on a bit string that starts with the code word of `sym`. */
  lemma DecodeStep(t: Table, maxLen: nat, r: seq<bool>, out: seq<Byte>, sym: Byte)
    requires WellFormed(t) && PrefixFree(t) && CodeBits(t, sym) <= r
    ensures DecodeBits(t, maxLen, r, out) ==
            if maxLen != 0 && |out| == maxLen then StringTooLong
            else DecodeBits(t, maxLen, r[t[sym].len..], out + [sym])
  {
    MatchUnique(t, r, sym);
  }

  lemma DecodePadding(t: Table, maxLen: nat, k: nat, out: seq<Byte>)
    requires Good(t) && k <= 7
    ensures DecodeBits(t, maxLen, Ones(k), out) == Decoded(out)
  {
    MatchOnes(t, k);
  }

  lemma EncodeBitsCons(t: Table, s: seq<Byte>, tail: seq<bool>)
    requires s != []
    ensures CodeBits(t, s[0]) <= EncodeBits(t, s) + tail
    ensures (EncodeBits(t, s) + tail)[t[s[0]].len..] == EncodeBits(t, s[1..]) + tail
  {
    var c := CodeBits(t, s[0]);
    assert EncodeBits(t, s) + tail == c + (EncodeBits(t, s[1..]) + tail);
  }

  lemma {:induction false} DecodeBitsOfEncoding(t: Table, maxLen: nat, s: seq<Byte>, k: nat, out: seq<Byte>)
    requires Good(t) && k <= 7 && (maxLen == 0 || |out| <= maxLen)
    ensures DecodeBits(t, maxLen, EncodeBits(t, s) + Ones(k), out) ==
            if maxLen == 0 || |out| + |s| <= maxLen then Decoded(out + s) else StringTooLong
    decreases |s|
  {
    hide PrefixFree, PaddingSafe, DecodeBits;
    if s == [] {
      assert EncodeBits(t, s) + Ones(k) == Ones(k) && out + s == out;
      DecodePadding(t, maxLen, k, out);
    } else {
      EncodeBitsCons(t, s, Ones(k));
      DecodeStep(t, maxLen, EncodeBits(t, s) + Ones(k), out, s[0]);
      if maxLen == 0 || |out| < maxLen {
        DecodeBitsOfEncoding(t, maxLen, s[1..], k, out + [s[0]]);
        assert out + [s[0]] + s[1..] == out + s;
      }
    }
  }

  /** Decoding the encoding of any string gives it back, or reports the length limit exactly when
      the string is longer. */
  lemma DecodeEncode(t: Table, maxLen: nat, s: seq<Byte>)
    requires Good(t)
    ensures Decode(t, maxLen, Encode(t, s)) ==
            if maxLen == 0 || |s| <= maxLen then Decoded(s) else StringTooLong
  {
    hide PrefixFree, PaddingSafe, DecodeBits;
    DecodeBitsOfEncoding(t, maxLen, s, PadLength(|EncodeBits(t, s)|), []);
    assert [] + s == s;
  }

  lemma MatchedLength(t: Table, r: seq<bool>)
    requires WellFormed(t)
    ensures var m := MatchFrom(t, r, 0);
            m.Some? ==> 1 <= t[m.value].len <= |r| && r[..t[m.value].len] == CodeBits(t, m.value)
  {
    hide MatchFrom;
  }

  lemma {:induction false} DecodedIsEncoding(t: Table, maxLen: nat, r: seq<bool>,
                                             out: seq<Byte>) returns (s: seq<Byte>, k: nat)
    requires WellFormed(t)
    requires DecodeBits(t, maxLen, r, out).Decoded?
    ensures DecodeBits(t, maxLen, r, out).s == out + s
    ensures k <= 7 && r == EncodeBits(t, s) + Ones(k)
    decreases |r|
  {
    hide WellFormed, CodeBits, MatchFrom;
    MatchedLength(t, r);
    match MatchFrom(t, r, 0)
    case None =>
      s, k := [], |r|;
      assert out + s == out;
    case Some(sym) =>
      var len := t[sym].len;
      var s', k' := DecodedIsEncoding(t, maxLen, r[len..], out + [sym]);
      s, k := [sym] + s', k';
      assert out + s == out + [sym] + s';
      assert s[1..] == s';
      assert r == r[..len] + r[len..];
      assert r[..len] == CodeBits(t, sym);
  }

  lemma PadUnique(n: nat, k: nat, m: nat)
    requires k <= 7 && n + k == 8 * m
    ensures k == PadLength(n)
  {
  }

  /** Any input that decodes is exactly the encoding of what it decodes to. */
  lemma EncodeDecode(t: Table, maxLen: nat, v: seq<Byte>)
    requires WellFormed(t)
    requires Decode(t, maxLen, v).Decoded?
    ensures v == Encode(t, Decode(t, maxLen, v).s)
  {
    var s, k := DecodedIsEncoding(t, maxLen, BytesToBits(v), []);
    assert [] + s == s;
    PadUnique(|EncodeBits(t, s)|, k, |v|);
    BytesToBitsInjective(v, Encode(t, s));
  }
}
