/** The integer representation of section 5.1 of RFC 7541: appendVarInt and readVarInt. */
module VarInt {
  import opened Bits

  datatype ReadResult = Value(i: nat, rest: seq<Byte>) | NeedMore | Overflow

  // ---- Writing ----

  function Tail(i: nat): (r: seq<Byte>)
    ensures r != []
  {
    if i < 128 then [i] else [128 + i % 128] + Tail(i / 128)
  }

  /** `i` with an `n`-bit prefix, in the low bits of the first octet. */
  function Encode(n: nat, i: nat): (r: seq<Byte>)
    requires 1 <= n <= 8
    ensures r != [] && r[0] < Pow2(n)
  {
    Pow2Monotone(n, 8);
    assert Pow2(8) == 256;
    var k := Pow2(n) - 1;
    if i < k then [i] else [k] + Tail(i - k)
  }

  /** The same with the representation's type bits in the upper bits of the first octet. */
  function Flagged(n: nat, flag: nat, i: nat): (r: seq<Byte>)
    requires 1 <= n <= 8 && flag + Pow2(n) <= 256
    ensures r != []
  {
    var e := Encode(n, i);
    [flag + e[0]] + e[1..]
  }

  method AppendVarInt(dst: seq<Byte>, n: nat, value: nat) returns (out: seq<Byte>)
    requires 1 <= n <= 8
    ensures out == dst + Encode(n, value)
  {
    Pow2Monotone(n, 8);
    Pow2Values();
    var k := Pow2(n) - 1;
    EncodeParts(n, value);
    ghost var e := Encode(n, value);
    hide Encode, Tail, Pow2;
    if value < k {
      return dst + [value];
    }
    out := dst + [k];
    var i: nat := value - k;
    assert out + Tail(i) == dst + e by {
      assert e == [e[0]] + e[1..];
    }
    while i >= 128
      invariant out + Tail(i) == dst + e
    {
      TailStep(i);
      assert out + Tail(i) == out + [128 + i % 128] + Tail(i / 128);
      out := out + [128 + i % 128];
      i := i / 128;
    }
    TailStep(i);
    out := out + [i];
  }

  lemma {:induction false} TailStep(i: nat)
    ensures Tail(i) == if i < 128 then [i] else [128 + i % 128] + Tail(i / 128)
  {
  }

  /** Groups of seven bits, least significant first. */
  function Groups(p: seq<Byte>): int {
    if p == [] then 0 else p[0] % 128 + 128 * Groups(p[1..])
  }

  lemma {:induction false} TailGroups(j: nat)
    ensures Groups(Tail(j)) == j
    ensures forall i :: 0 <= i < |Tail(j)| ==> (Tail(j)[i] >= 128 <==> i < |Tail(j)| - 1)
    decreases j
  {
    var p := Tail(j);
    if j < 128 {
      assert p[1..] == [] && Groups([]) == 0;
    } else {
      TailGroups(j / 128);
      assert p[1..] == Tail(j / 128);
      assert forall i :: 1 <= i < |p| ==> p[i] == p[1..][i - 1];
    }
  }

  /** The format of section 5.1 of RFC 7541: a number that fits the prefix is the prefix; otherwise the prefix is
      all ones, and the rest follows in groups of seven bits, all but the last of them marked. */
  lemma Format(n: nat, i: nat)
    requires 1 <= n <= 8
    ensures var e, max := Encode(n, i), Pow2(n) - 1;
            if i < max then e == [i]
            else
              && e[0] == max && |e| > 1 && max + Groups(e[1..]) == i
              && forall k :: 1 <= k < |e| ==> (e[k] >= 128 <==> k < |e| - 1)
  {
    hide Pow2, Tail, Groups;
    EncodeParts(n, i);
    var e, max := Encode(n, i), Pow2(n) - 1;
    if i >= max {
      TailGroups(i - max);
      assert forall k :: 1 <= k < |e| ==> e[k] == e[1..][k - 1];
    }
  }

  lemma EncodeParts(n: nat, i: nat)
    requires 1 <= n <= 8
    ensures var e, w := Encode(n, i), Pow2(n);
            if i < w - 1 then e == [i] else e[0] == w - 1 && e[1..] == Tail(i - (w - 1))
  {
    hide Pow2, Tail;
  }

  // ---- Reading ----

  /** What seven bits of weight 2^m contribute. */
  function Weigh(b: Byte, m: nat): nat { (b % 128) * Pow2(m) }

  /** The low `n` bits of an octet. */
  function Prefix(b: Byte, n: nat): (r: nat)
    ensures r < Pow2(n)
  {
    b % Pow2(n)
  }

  /** The octets after a full prefix; `i` has been read and the next seven bits have weight 2^m. */
  function ReadTail(p: seq<Byte>, i: nat, m: nat): (r: ReadResult)
    ensures r.Value? ==> |r.rest| < |p| && r.rest == p[|p| - |r.rest|..]
  {
    if p == [] then NeedMore
    else
      var j := i + Weigh(p[0], m);
      if p[0] < 128 then Value(j, p[1..])
      else if m + 7 >= 63 then Overflow
      else ReadTail(p[1..], j, m + 7)
  }

  function Read(n: nat, p: seq<Byte>): (r: ReadResult)
    requires 1 <= n <= 8
    ensures r.Value? ==> |r.rest| < |p| && r.rest == p[|p| - |r.rest|..]
  {
    if p == [] then NeedMore
    else
      var i := Prefix(p[0], n);
      if i < Pow2(n) - 1 then Value(i, p[1..])
      else ReadTail(p[1..], i, 0)
  }

  /** readVarInt: the loop over the octets after the prefix. */
  method ReadVarInt(n: nat, p: seq<Byte>) returns (r: ReadResult)
    requires 1 <= n <= 8
    ensures r == Read(n, p)
  {
    if p == [] { return NeedMore; }
    var i: nat := Prefix(p[0], n);
    if i < Pow2(n) - 1 { return Value(i, p[1..]); }
    var q, m: nat := p[1..], 0;
    while q != []
      invariant Read(n, p) == ReadTail(q, i, m)
      decreases |q|
    {
      var b := q[0];
      q := q[1..];
      i := i + Weigh(b, m);
      if b < 128 { return Value(i, q); }
      m := m + 7;
      if m >= 63 { return Overflow; }
    }
    return NeedMore;
  }

  // ---- Range, extension and round trip ----

  lemma Pow2Seven(m: nat)
    ensures Pow2(m + 7) == 128 * Pow2(m)
  {
    assert Pow2(m + 1) == 2 * Pow2(m);
    assert Pow2(m + 3) == 2 * Pow2(m + 2) && Pow2(m + 2) == 2 * Pow2(m + 1);
    assert Pow2(m + 5) == 2 * Pow2(m + 4) && Pow2(m + 4) == 2 * Pow2(m + 3);
    assert Pow2(m + 7) == 2 * Pow2(m + 6) && Pow2(m + 6) == 2 * Pow2(m + 5);
  }

  lemma MulUp(a: nat, b: nat, c: nat)
    requires a <= b
    ensures a * c <= b * c
  {
  }

  lemma WeighBound(b: Byte, m: nat)
    ensures Weigh(b, m) + Pow2(m) <= Pow2(m + 7)
  {
    MulUp(b % 128, 127, Pow2(m));
    Pow2Seven(m);
  }

  lemma {:induction false} TailBound(p: seq<Byte>, i: nat, m: nat)
    requires m <= 56 && m % 7 == 0
    ensures var r := ReadTail(p, i, m); r.Value? ==> r.i + Pow2(m) <= i + Pow2(63)
    decreases |p|
  {
    hide Pow2, Weigh;
    if p != [] {
      WeighBound(p[0], m);
      Pow2Monotone(m + 7, 63);
      if p[0] >= 128 && m + 7 < 63 {
        TailBound(p[1..], i + Weigh(p[0], m), m + 7);
      }
    }
  }

  /** No value that is read leaves the range of a 64-bit word: the sums never wrap. */
  lemma ReadRange(n: nat, p: seq<Byte>)
    requires 1 <= n <= 8
    ensures Read(n, p).Value? ==> Read(n, p).i < Pow2(63) + 255
  {
    Pow2Values();
    hide Pow2, Prefix, ReadTail;
    Pow2Monotone(n, 8);
    Pow2Monotone(8, 63);
    if p != [] {
      TailBound(p[1..], Prefix(p[0], n), 0);
    }
  }

  lemma {:induction false} ReadTailExtend(p: seq<Byte>, q: seq<Byte>, i: nat, m: nat)
    requires !ReadTail(p, i, m).NeedMore?
    ensures ReadTail(p + q, i, m) ==
            match ReadTail(p, i, m) case Value(v, rest) => Value(v, rest + q) case e => e
    decreases |p|
  {
    hide Weigh;
    assert (p + q)[1..] == p[1..] + q;
    if p[0] >= 128 && m + 7 < 63 {
      ReadTailExtend(p[1..], q, i + Weigh(p[0], m), m + 7);
    }
  }

  /** Once an integer is complete, or too long, more input does not change the outcome. */
  lemma ReadExtend(n: nat, p: seq<Byte>, q: seq<Byte>)
    requires 1 <= n <= 8 && !Read(n, p).NeedMore?
    ensures Read(n, p + q) == match Read(n, p) case Value(v, rest) => Value(v, rest + q) case e => e
  {
    hide Pow2, Prefix, ReadTail;
    assert (p + q)[1..] == p[1..] + q;
    if Prefix(p[0], n) >= Pow2(n) - 1 {
      ReadTailExtend(p[1..], q, Prefix(p[0], n), 0);
    }
  }

  lemma SplitSum(j: nat, w: nat)
    ensures (j % 128) * w + (j / 128) * (128 * w) == j * w
  {
    var a, b := j % 128, j / 128;
    assert j == a + 128 * b;
    assert b * (128 * w) == (128 * b) * w;
    assert (a + 128 * b) * w == a * w + (128 * b) * w;
  }

  /** Taking seven bits off a number and weighing the rest. */
  lemma WeighSplit(j: nat, m: nat)
    requires j >= 128
    ensures Weigh(128 + j % 128, m) + Raised(j / 128, m + 7) == Raised(j, m)
  {
    Pow2Seven(m);
    SplitSum(j, Pow2(m));
    assert (128 + j % 128) % 128 == j % 128;
  }

  lemma WeighLast(j: nat, m: nat)
    requires j < 128
    ensures Weigh(j, m) == Raised(j, m)
  {
  }

  lemma FitsBelow(j: nat, m: nat)
    requires m <= 49
    ensures j / 128 < Pow2(63 - m - 7) <==> j < Pow2(63 - m)
  {
    Pow2Seven(63 - m - 7);
  }

  lemma {:induction false} TailFirst(j: nat, q: seq<Byte>)
    ensures var p := Tail(j) + q;
            if j < 128 then p[0] == j && p[1..] == q else p[0] == 128 + j % 128 && p[1..] == Tail(j / 128) + q
  {
    hide Tail;
    TailStep(j);
  }

  /** `j` moved up by `m` bits. */
  function Raised(j: nat, m: nat): nat { j * Pow2(m) }

  lemma ReadTailIs(p: seq<Byte>, i: nat, m: nat)
    requires p != []
    ensures ReadTail(p, i, m) ==
            if p[0] < 128 then Value(i + Weigh(p[0], m), p[1..])
            else if m + 7 >= 63 then Overflow
            else ReadTail(p[1..], i + Weigh(p[0], m), m + 7)
  {
    hide Weigh;
  }

  lemma SevenFits(k: nat)
    requires k >= 7
    ensures Pow2(k) >= 128 && Pow2(7) == 128
  {
    assert Pow2(7) == 128;
    Pow2Monotone(7, k);
  }

  lemma {:induction false} ReadTailOfTail(j: nat, i: nat, m: nat, q: seq<Byte>)
    requires m <= 56 && m % 7 == 0
    ensures ReadTail(Tail(j) + q, i, m) == if j < Pow2(63 - m) then Value(i + Raised(j, m), q) else Overflow
    decreases j
  {
    hide Pow2, Weigh, Raised, ReadTail, Tail;
    TailFirst(j, q);
    var p := Tail(j) + q;
    ReadTailIs(p, i, m);
    if j < 128 {
      SevenFits(63 - m);
      WeighLast(j, m);
    } else if m < 56 {
      ReadTailOfTail(j / 128, i + Weigh(p[0], m), m + 7, q);
      FitsBelow(j, m);
      WeighSplit(j, m);
    } else {
      assert 63 - m == 7;
      SevenFits(7);
    }
  }

  lemma PowZero()
    ensures Pow2(0) == 1
  {
  }

  lemma TailRoundTrip(j: nat, i: nat, q: seq<Byte>)
    ensures ReadTail(Tail(j) + q, i, 0) == if j < Pow2(63) then Value(i + j, q) else Overflow
  {
    hide ReadTail, Tail, Pow2;
    ReadTailOfTail(j, i, 0, q);
    assert Pow2(0) == 1 by { PowZero(); }
  }

  lemma PrefixFlagged(flag: nat, low: nat, n: nat)
    requires 1 <= n <= 8 && Aligned(flag, n) && low < Pow2(n)
    ensures Prefix(flag + low, n) == low
  {
    ModAdd(flag, low, Pow2(n));
  }

  /** The flag bits are above the `n`-bit prefix. */
  predicate Aligned(flag: nat, n: nat) {
    flag % Pow2(n) == 0 && flag + Pow2(n) <= 256
  }

  lemma AlignedBound(flag: nat, n: nat)
    requires Aligned(flag, n)
    ensures flag + Pow2(n) <= 256
  {
  }

  /** Reading what was written gives the value back exactly when the part above the prefix fits in
      63 bits; a longer one is refused as an overflow. */
  lemma RoundTrip(n: nat, flag: nat, i: nat, q: seq<Byte>)
    requires 1 <= n <= 8 && Aligned(flag, n)
    ensures Read(n, Flagged(n, flag, i) + q) ==
            if i < Pow2(63) + Pow2(n) - 1 then Value(i, q) else Overflow
  {
    hide Pow2, Tail, ReadTail, Prefix, Encode, Aligned;
    AlignedBound(flag, n);
    var w, e := Pow2(n), Encode(n, i);
    var p := Flagged(n, flag, i) + q;
    PrefixFlagged(flag, e[0], n);
    EncodeParts(n, i);
    assert p[0] == flag + e[0] && p[1..] == e[1..] + q;
    if i < w - 1 {
      assert e[1..] + q == q;
    } else {
      TailRoundTrip(i - (w - 1), w - 1, q);
    }
  }

  lemma ModAdd(a: nat, b: nat, m: nat)
    requires m > 0 && a % m == 0 && b < m
    ensures (a + b) % m == b
  {
    var c := a / m;
    assert a + b == m * c + b;
    var d := (a + b) / m - c;
    assert m * d == b - (a + b) % m by {
      assert m * ((a + b) / m) + (a + b) % m == a + b;
      assert m * d == m * ((a + b) / m) - m * c;
    }
    if d >= 1 { MulUp(1, d, m); }
    if d <= -1 { MulUp(1, -d, m); }
  }
}
