/** Octets, powers of two and most-significant-bit-first bit strings: the arithmetic that the
    shift and mask expressions of the HPACK integer and Huffman coders stand for. */
module Bits {

  type Byte = b: int | 0 <= b < 256

  datatype Option<+T> = None | Some(value: T)

  /** One more than the largest 32-bit word. */
  const WORD: nat := 0x1_0000_0000

  function Pow2(n: nat): (r: nat)
    ensures r >= 1
  {
    if n == 0 then 1 else 2 * Pow2(n - 1)
  }

  /** The low `n` bits of `v`, most significant first: `uint8(v)` is `ToBits(v, 8)`. */
  function ToBits(v: nat, n: nat): (r: seq<bool>)
    ensures |r| == n
  {
    if n == 0 then [] else ToBits(v / 2, n - 1) + [v % 2 == 1]
  }

  function FromBits(b: seq<bool>): nat {
    if b == [] then 0 else 2 * FromBits(b[..|b| - 1]) + (if b[|b| - 1] then 1 else 0)
  }

  function Ones(n: nat): (r: seq<bool>) { seq(n, _ => true) }

  function Zeros(n: nat): (r: seq<bool>) { seq(n, _ => false) }

  /** Bitwise or of two naturals. */
  function BitOr(a: nat, b: nat): nat {
    if a == 0 && b == 0 then 0
    else 2 * BitOr(a / 2, b / 2) + (if a % 2 == 1 || b % 2 == 1 then 1 else 0)
  }

  lemma Pow2Values()
    ensures Pow2(8) == 256 && Pow2(10) == 1024 && Pow2(20) == 0x100000 && Pow2(30) == 0x40000000
  {
    assert Pow2(5) == 32;
    assert Pow2(10) == 1024;
    assert Pow2(15) == 32768;
    assert Pow2(20) == 0x100000;
    assert Pow2(25) == 0x2000000;
  }

  /** `v >> n` and `v << n`. */
  function Shr(v: nat, n: nat): nat {
    if n == 0 then v else Shr(v / 2, n - 1)
  }

  function Shl(v: nat, n: nat): nat {
    if n == 0 then v else 2 * Shl(v, n - 1)
  }

  lemma Pow2Monotone(a: nat, b: nat)
    requires a <= b
    ensures Pow2(a) <= Pow2(b)
  {
    if a < b { Pow2Monotone(a, b - 1); }
  }

  /** A shift right by `b` leaves the upper bits. */
  lemma {:induction false} Split(v: nat, a: nat, b: nat)
    ensures ToBits(v, a + b) == ToBits(Shr(v, b), a) + ToBits(v, b)
    decreases b
  {
    if b == 0 {
      assert ToBits(v, 0) == [];
    } else {
      Split(v / 2, a, b - 1);
      assert ToBits(v, a + b) == ToBits(v / 2, a + (b - 1)) + [v % 2 == 1];
      assert ToBits(v, b) == ToBits(v / 2, b - 1) + [v % 2 == 1];
    }
  }

  /** A shift left fills with zeros. */
  lemma {:induction false} ShiftLeft(v: nat, n: nat, k: nat)
    ensures ToBits(Shl(v, k), n + k) == ToBits(v, n) + Zeros(k)
    decreases k
  {
    if k == 0 {
      assert Zeros(0) == [];
    } else {
      ShiftLeft(v, n, k - 1);
      assert Shl(v, k) / 2 == Shl(v, k - 1) && Shl(v, k) % 2 == 0;
      assert Zeros(k) == Zeros(k - 1) + [false];
      assert ToBits(Shl(v, k), n + k) == ToBits(Shl(v, k - 1), n + (k - 1)) + [false];
    }
  }

  lemma FromTo(v: nat, n: nat)
    requires v < Pow2(n)
    ensures FromBits(ToBits(v, n)) == v
  {
    if n != 0 {
      FromTo(v / 2, n - 1);
      assert ToBits(v, n)[..n - 1] == ToBits(v / 2, n - 1);
    }
  }

  lemma {:induction false} ToFrom(b: seq<bool>)
    ensures FromBits(b) < Pow2(|b|)
    ensures ToBits(FromBits(b), |b|) == b
  {
    if b != [] {
      var c := b[..|b| - 1];
      ToFrom(c);
      var v := FromBits(b);
      assert v / 2 == FromBits(c) && (v % 2 == 1) == b[|b| - 1];
      assert b == c + [b[|b| - 1]];
    }
  }

  lemma ToBitsZero(n: nat)
    ensures ToBits(0, n) == Zeros(n)
  {
  }

  /** `uint8(v)` keeps the low eight bits. */
  lemma Truncate8(v: nat)
    ensures ToBits(v % 256, 8) == ToBits(v, 8)
  {
    var h := v / 256;
    assert Shl(h, 1) == 2 * h;
    assert Shl(h, 3) == 8 * h by { assert Shl(h, 2) == 4 * h; }
    assert Shl(h, 5) == 32 * h by { assert Shl(h, 4) == 16 * h; }
    assert Shl(h, 7) == 128 * h by { assert Shl(h, 6) == 64 * h; }
    assert v - v % 256 == Shl(h, 8);
    Truncate(v, v % 256, 8);
  }

  lemma {:induction false} Truncate(v: nat, w: nat, n: nat)
    requires w <= v && exists h: nat {:trigger Shl(h, n)} :: v - w == Shl(h, n)
    ensures ToBits(w, n) == ToBits(v, n)
    decreases n
  {
    if n > 0 {
      var h: nat :| v - w == Shl(h, n);
      assert v / 2 - w / 2 == Shl(h, n - 1);
      Truncate(v / 2, w / 2, n - 1);
    }
  }

  /** Adding bits below the zeros of a number puts them after its upper bits, and so does or. */
  lemma {:induction false} OrDisjoint(h: nat, t: nat, k: nat, n: nat)
    requires t < Pow2(k)
    ensures BitOr(Shl(h, k), t) == Shl(h, k) + t
    ensures ToBits(Shl(h, k) + t, n + k) == ToBits(h, n) + ToBits(t, k)
    decreases k
  {
    if k == 0 {
      OrZero(h);
      assert ToBits(t, 0) == [];
    } else {
      OrDisjoint(h, t / 2, k - 1, n);
      var p := Shl(h, k - 1);
      assert Shl(h, k) == 2 * p;
      assert (2 * p + t) / 2 == p + t / 2 && (2 * p + t) % 2 == t % 2;
      assert ToBits(2 * p + t, n + k) == ToBits(p + t / 2, n + (k - 1)) + [t % 2 == 1];
      assert ToBits(t, k) == ToBits(t / 2, k - 1) + [t % 2 == 1];
      assert BitOr(2 * p, t) == 2 * p + t by {
        assert (2 * p) / 2 == p && (2 * p) % 2 == 0;
      }
    }
  }

  lemma OrZero(h: nat)
    ensures BitOr(h, 0) == h
  {
  }

  /** The low `n` bits of `v` as a number: an unsigned `n`-bit word. */
  function Low(v: nat, n: nat): (r: nat)
    ensures r < Pow2(n)
    ensures ToBits(r, n) == ToBits(v, n)
  {
    ToFrom(ToBits(v, n));
    FromBits(ToBits(v, n))
  }

  /** Fewer bits of a number are the tail of more of them. */
  lemma BitsSuffix(v: nat, n: nat, m: nat)
    requires n <= m
    ensures ToBits(v, m)[m - n..] == ToBits(v, n)
  {
    Split(v, m - n, n);
    assert m - n + n == m;
  }

  /** A number is its upper bits followed by its lower ones. */
  lemma ShiftParts(v: nat, k: nat) returns (r: nat)
    ensures r < Pow2(k) && v == Shl(Shr(v, k), k) + r
    decreases k
  {
    if k == 0 {
      r := 0;
    } else {
      var r' := ShiftParts(v / 2, k - 1);
      r := 2 * r' + v % 2;
    }
  }

  lemma ShlAdd(h: nat, k: nat)
    ensures Shl(h + 1, k) == Shl(h, k) + Pow2(k)
  {
    if k > 0 { ShlAdd(h, k - 1); }
  }

  lemma ShlMonotone(a: nat, b: nat, k: nat)
    requires a <= b
    ensures Shl(a, k) <= Shl(b, k)
  {
  }

  lemma ShlBound(v: nat, n: nat, k: nat)
    requires v < Pow2(n)
    ensures Shl(v, k) < Pow2(n + k)
    decreases k
  {
    if k > 0 { ShlBound(v, n, k - 1); }
  }

  lemma ShrBound(v: nat, n: nat, k: nat)
    requires v < Pow2(n + k)
    ensures Shr(v, k) < Pow2(n)
    decreases k
  {
    if k > 0 { ShrBound(v / 2, n, k - 1); }
  }

  lemma OnesValue(n: nat)
    ensures ToBits(Pow2(n) - 1, n) == Ones(n)
  {
    if n > 0 {
      OnesValue(n - 1);
      assert (Pow2(n) - 1) / 2 == Pow2(n - 1) - 1;
      assert Ones(n) == Ones(n - 1) + [true];
    }
  }

  // ---- Octet strings as bit strings ----

  function BytesToBits(v: seq<Byte>): (r: seq<bool>)
    ensures |r| == 8 * |v|
  {
    if v == [] then [] else ToBits(v[0], 8) + BytesToBits(v[1..])
  }

  lemma BytesToBitsConcat(a: seq<Byte>, b: seq<Byte>)
    ensures BytesToBits(a + b) == BytesToBits(a) + BytesToBits(b)
  {
    if a == [] {
      assert a + b == b;
    } else {
      BytesToBitsConcat(a[1..], b);
      assert (a + b)[1..] == a[1..] + b;
    }
  }

  lemma BytesToBitsSnoc(a: seq<Byte>, b: Byte)
    ensures BytesToBits(a + [b]) == BytesToBits(a) + ToBits(b, 8)
  {
    BytesToBitsConcat(a, [b]);
    assert BytesToBits([b]) == ToBits(b, 8) + BytesToBits([]);
  }

  lemma BytesToBitsInjective(a: seq<Byte>, b: seq<Byte>)
    requires BytesToBits(a) == BytesToBits(b)
    ensures a == b
  {
    assert |a| == |b|;
    if a != [] {
      assert BytesToBits(a)[..8] == ToBits(a[0], 8);
      assert BytesToBits(b)[..8] == ToBits(b[0], 8);
      FromTo(a[0], 8); FromTo(b[0], 8);
      assert Pow2(8) == 256;
      assert BytesToBits(a)[8..] == BytesToBits(a[1..]);
      assert BytesToBits(b)[8..] == BytesToBits(b[1..]);
      BytesToBitsInjective(a[1..], b[1..]);
    }
  }

  /** The octets of a bit string whose length is a multiple of eight. */
  function Pack(b: seq<bool>): (v: seq<Byte>)
    requires |b| % 8 == 0
    ensures BytesToBits(v) == b
  {
    if b == [] then []
    else
      ToFrom(b[..8]);
      assert Pow2(8) == 256;
      var v: seq<Byte> := [FromBits(b[..8])] + Pack(b[8..]);
      assert v[1..] == Pack(b[8..]);
      v
  }
}
