/** The decoding tree with 256-way nodes, and the decoder that walks it an octet at a time.

    A node is named by the octets that lead to it from the root, and `tree[p + [i]]` is the slot
    `children[i]` of the node at `p`; a slot that is not in the map is nil. */
module HuffmanTree {
  import opened Bits
  import opened Huffman

  datatype Node = Inner | Leaf(codeLen: int, sym: Byte)

  type Tree = map<seq<Byte>, Node>

  /** The code word of `sym` ends within the last octet of `q`. */
  ghost predicate LeafAt(t: Table, sym: Byte, q: seq<Byte>)
  {
    8 * (|q| - 1) < t[sym].len <= 8 * |q| && CodeBits(t, sym) <= BytesToBits(q)
  }

  /** The code word of `sym` goes on after `q`. */
  ghost predicate InnerAt(t: Table, sym: Byte, q: seq<Byte>)
  {
    8 * |q| < t[sym].len && BytesToBits(q) <= CodeBits(t, sym)
  }

  ghost predicate LeavesIn(tree: Tree, t: Table, k: nat) {
    forall sym: Byte, q: seq<Byte> :: sym < k && LeafAt(t, sym, q) ==>
      q in tree && tree[q] == Leaf(t[sym].len - 8 * (|q| - 1), sym)
  }

  ghost predicate InnersIn(tree: Tree, t: Table, k: nat, depth: nat) {
    forall sym: Byte, q: seq<Byte> :: q != [] && InnerAt(t, sym, q) && (sym < k || (sym == k && |q| <= depth)) ==>
      q in tree && tree[q] == Inner
  }

  ghost predicate SlotSound(t: Table, k: nat, q: seq<Byte>, node: Node) {
    match node
    case Leaf(n, sym) => sym < k && LeafAt(t, sym, q) && n == t[sym].len - 8 * (|q| - 1)
    case Inner => exists sym: Byte :: sym <= k && InnerAt(t, sym, q)
  }

  ghost predicate Sound(tree: Tree, t: Table, k: nat) {
    forall q: seq<Byte> :: q in tree ==> q != [] && SlotSound(t, k, q, tree[q])
  }

  /** The tree holds exactly the slots of the symbols below `k`, and of `k` the inner ones down to
      depth `depth`. */
  ghost predicate Built(tree: Tree, t: Table, k: nat, depth: nat) {
    LeavesIn(tree, t, k) && InnersIn(tree, t, k, depth) && Sound(tree, t, k)
  }

  ghost predicate Complete(tree: Tree, t: Table)
  {
    Built(tree, t, 256, 0)
  }

  /** Two code words cannot both run through the same bits. */
  lemma Apart(t: Table, a: Byte, b: Byte, p: seq<bool>)
    requires PrefixFree(t)
    requires CodeBits(t, a) <= p && p <= CodeBits(t, b)
    ensures a == b
  {
  }

  lemma BothPrefixes(t: Table, a: Byte, b: Byte, p: seq<bool>)
    requires PrefixFree(t)
    requires CodeBits(t, a) <= p && CodeBits(t, b) <= p
    ensures a == b
  {
    var x, y := CodeBits(t, a), CodeBits(t, b);
    assert x <= y || y <= x;
  }

  // ---- Building ----

  /** On the way down the code word of `k` no slot is a leaf. */
  lemma NoLeafOnPath(tree: Tree, t: Table, k: Byte, q: seq<Byte>)
    requires PrefixFree(t) && Sound(tree, t, k) && InnerAt(t, k, q)
    ensures q in tree ==> tree[q] == Inner
  {
    hide PrefixFree, CodeBits, BytesToBits;
    if q in tree {
      match tree[q]
      case Inner =>
      case Leaf(n, sym) =>
        assert LeafAt(t, sym, q);
        Apart(t, sym, k, BytesToBits(q));
    }
  }

  /** Descending one level: the slot is nil or already an inner node. */
  lemma AddInner(tree: Tree, t: Table, k: Byte, path: seq<Byte>, i: Byte) returns (tree': Tree)
    requires PrefixFree(t)
    requires Built(tree, t, k, |path|) && InnerAt(t, k, path + [i])
    ensures tree' == if path + [i] in tree then tree else tree[path + [i] := Inner]
    ensures Built(tree', t, k, |path| + 1)
  {
    hide PrefixFree, LeafAt, InnerAt;
    var q := path + [i];
    NoLeafOnPath(tree, t, k, q);
    tree' := if q in tree then tree else tree[q := Inner];
    assert InnersIn(tree', t, k, |path| + 1) by {
      forall sym: Byte, p: seq<Byte> | p != [] && InnerAt(t, sym, p) && (sym < k || (sym == k && |p| <= |path| + 1))
        ensures p in tree' && tree'[p] == Inner
      {
        if sym == k && |p| == |path| + 1 {
          SamePath(t, k, p, q);
        }
      }
    }
  }

  lemma SamePath(t: Table, k: Byte, p: seq<Byte>, q: seq<Byte>)
    requires |p| == |q| && InnerAt(t, k, p) && InnerAt(t, k, q)
    ensures p == q
  {
    assert BytesToBits(p) == BytesToBits(q);
    BytesToBitsInjective(p, q);
  }

  /** The numbers whose bits above the lowest `s` are `c` are a range. */
  lemma ShrRange(i: nat, c: nat, s: nat)
    ensures Shr(i, s) == c <==> Shl(c, s) <= i < Shl(c, s) + Pow2(s)
  {
    hide Shr, Shl;
    var h := Shr(i, s);
    var r := ShiftParts(i, s);
    ShlAdd(h, s);
    ShlAdd(c, s);
    if h < c {
      ShlMonotone(h + 1, c, s);
    } else if c < h {
      ShlMonotone(c + 1, h, s);
    }
  }

  /** The octets whose first `n` bits are those of `code` are a range. */
  lemma LeafRange(code: nat, n: nat, i: Byte)
    requires 1 <= n <= 8
    ensures var start := Shl(code, 8 - n) % 256;
            start + Pow2(8 - n) <= 256 &&
            (ToBits(i, 8)[..n] == ToBits(code, n) <==> start <= i < start + Pow2(8 - n))
  {
    hide Shl, Shr, ToBits, Low;
    var s, c := 8 - n, Low(code, n);
    LeafStart(code, n);
    Split(i, n, s);
    assert n + s == 8;
    assert ToBits(i, 8)[..n] == ToBits(Shr(i, s), n);
    ShrRange(i, c, s);
    HuffmanShr(i, n, s);
    FromTo(Shr(i, s), n);
    FromTo(c, n);
    LeafEnd(c, n);
  }

  lemma LeafEnd(c: nat, n: nat)
    requires n <= 8 && c < Pow2(n)
    ensures Shl(c, 8 - n) + Pow2(8 - n) <= 256
  {
    ShlMonotone(c + 1, Pow2(n), 8 - n);
    ShlAdd(c, 8 - n);
    ShlPow(n, 8 - n);
    assert Pow2(8) == 256;
  }

  lemma ShlPow(n: nat, s: nat)
    ensures Shl(Pow2(n), s) == Pow2(n + s)
  {
    if s > 0 { ShlPow(n, s - 1); }
  }

  lemma HuffmanShr(v: nat, n: nat, k: nat)
    requires v < 256 && n + k == 8
    ensures Shr(v, k) < Pow2(n)
  {
    assert Pow2(8) == 256;
    ShrBound(v, n, k);
  }

  lemma LeafStart(code: nat, n: nat)
    requires 1 <= n <= 8
    ensures Shl(code, 8 - n) % 256 == Shl(Low(code, n), 8 - n)
  {
    hide Shl, ToBits, Low, Pow2, FromBits;
    Pow2Values();
    var s: nat := 8 - n;
    var c := Low(code, n);
    assert n + s == 8;
    ShiftLeft(code, n, s);
    ShiftLeft(c, n, s);
    Truncate8(Shl(code, s));
    FromTo(Shl(code, s) % 256, 8);
    assert Shl(c, s) < 256 by {
      ShlMonotone(c + 1, Pow2(n), s);
      ShlPow(n, s);
      ShlAdd(c, s);
    }
    FromTo(Shl(c, s), 8);
  }

  /** Which slots the code word of `k` fills as leaves. */
  lemma LeafSlots(t: Table, k: Byte, path: seq<Byte>, n: nat, i: Byte)
    requires WellFormed(t) && 1 <= n <= 8 && t[k].len == 8 * |path| + n
    requires CodeBits(t, k) == BytesToBits(path) + ToBits(t[k].bits, n)
    ensures var start := Shl(t[k].bits, 8 - n) % 256;
            LeafAt(t, k, path + [i]) <==> start <= i < start + Pow2(8 - n)
  {
    hide WellFormed;
    LeafRange(t[k].bits, n, i);
    BytesToBitsSnoc(path, i);
    var p, x := BytesToBits(path), ToBits(i, 8);
    assert (p + x)[..|p| + n] == p + x[..n];
    assert CodeBits(t, k) <= p + x <==> CodeBits(t, k) == p + x[..n];
    if CodeBits(t, k) == p + x[..n] {
      assert CodeBits(t, k)[|p|..] == x[..n];
      assert CodeBits(t, k)[|p|..] == ToBits(t[k].bits, n);
    }
  }

  lemma LeafParent(t: Table, k: Byte, path: seq<Byte>, n: nat, q: seq<Byte>)
    requires WellFormed(t) && 1 <= n <= 8 && t[k].len == 8 * |path| + n
    requires CodeBits(t, k) == BytesToBits(path) + ToBits(t[k].bits, n)
    requires LeafAt(t, k, q)
    ensures q != [] && q == path + [q[|q| - 1]]
  {
    hide WellFormed;
    var m := |q| - 1;
    assert m == |path|;
    BytesToBitsSnoc(q[..m], q[m]);
    assert q == q[..m] + [q[m]];
    assert BytesToBits(q[..m]) == BytesToBits(q)[..8 * m];
    assert BytesToBits(path) == CodeBits(t, k)[..8 * m];
    BytesToBitsInjective(q[..m], path);
  }

  /** buildRootHuffmanNode. */
  method Build(t: Table) returns (tree: Tree)
    requires WellFormed(t) && PrefixFree(t)
    ensures Complete(tree, t)
  {
    tree := map[];
    for sym := 0 to 256
      invariant Built(tree, t, sym, 0)
    {
      tree := AddSymbol(t, tree, sym);
    }
  }

  lemma CodeRange(t: Table, sym: Byte)
    requires WellFormed(t)
    ensures 1 <= t[sym].len && BytesToBits([]) + ToBits(t[sym].bits, t[sym].len) == CodeBits(t, sym)
  {
  }

  method AddSymbol(t: Table, tree0: Tree, sym: Byte) returns (tree: Tree)
    requires WellFormed(t) && PrefixFree(t) && Built(tree0, t, sym, 0)
    ensures Built(tree, t, sym + 1, 0)
  {
    hide WellFormed, PrefixFree, Built, InnerAt, BytesToBits, Shr, CodeBits, ToBits, LeafMap;
    CodeRange(t, sym);
    var code, codeLen := t[sym].bits, t[sym].len;
    tree := tree0;
    var cur: seq<Byte> := [];
    EmptyBits();
    while codeLen > 8
      invariant 1 <= codeLen && t[sym].len == 8 * |cur| + codeLen
      invariant BytesToBits(cur) + ToBits(code, codeLen) == CodeBits(t, sym)
      invariant Built(tree, t, sym, |cur|)
      decreases codeLen
    {
      ghost var before := codeLen;
      codeLen := codeLen - 8;
      var i: Byte := Shr(code, codeLen) % 256;
      Descend(t, sym, cur, before, i);
      ghost var tree' := AddInner(tree, t, sym, cur, i);
      if cur + [i] !in tree {
        tree := tree[cur + [i] := Inner];
      }
      cur := cur + [i];
    }
    ghost var before := tree;
    tree := FillLeaves(t, sym, cur, codeLen, tree);
    AddLeaves(t, sym, cur, codeLen, before, tree);
  }

  /** The slots from `lo` up to `i` below the path hold the leaf, the others what they held before. */
  ghost predicate Filled(path: seq<Byte>, lo: nat, i: nat, leaf: Node, before: Tree, tree: Tree) {
    && before.Keys <= tree.Keys
    && (forall x: Byte :: lo <= x < i ==> path + [x] in tree && tree[path + [x]] == leaf)
    && (forall q :: q in tree ==>
          || (q in before && tree[q] == before[q])
          || (|q| == |path| + 1 && q == path + [q[|path|]] && lo <= q[|path|] < i && tree[q] == leaf))
  }

  lemma FillOne(path: seq<Byte>, lo: nat, i: Byte, leaf: Node, before: Tree, tree: Tree)
    requires Filled(path, lo, i, leaf, before, tree) && lo <= i
    ensures Filled(path, lo, i + 1, leaf, before, tree[path + [i] := leaf])
  {
    var r := tree[path + [i] := leaf];
    forall x: Byte | lo <= x < i + 1 ensures path + [x] in r && r[path + [x]] == leaf {
    }
  }

  /** The inner loop: every slot that the last bits of the code word leave open gets the leaf. */
  method FillLeaves(t: Table, sym: Byte, cur: seq<Byte>, codeLen: nat, before: Tree) returns (tree: Tree)
    requires 1 <= codeLen <= 8
    ensures LeafMap(t, sym, cur, codeLen, before, tree)
  {
    hide Shl, Pow2, Filled;
    var code := t[sym].bits;
    var shift := 8 - codeLen;
    var start, end := Shl(code, shift) % 256, Pow2(shift);
    LeafRange(code, codeLen, 0);
    tree := before;
    NoneFilled(cur, start, Leaf(codeLen, sym), before);
    for i := start to start + end
      invariant Filled(cur, start, i, Leaf(codeLen, sym), before, tree)
    {
      FillOne(cur, start, i, Leaf(codeLen, sym), before, tree);
      tree := tree[cur + [i] := Leaf(codeLen, sym)];
    }
  }

  lemma NoneFilled(path: seq<Byte>, lo: nat, leaf: Node, before: Tree)
    ensures Filled(path, lo, lo, leaf, before, before)
  {
  }

  lemma EmptyBits()
    ensures BytesToBits([]) == []
  {
  }

  lemma Descend(t: Table, sym: Byte, cur: seq<Byte>, codeLen: nat, i: Byte)
    requires WellFormed(t) && codeLen > 8 && t[sym].len == 8 * |cur| + codeLen
    requires BytesToBits(cur) + ToBits(t[sym].bits, codeLen) == CodeBits(t, sym)
    requires i == Shr(t[sym].bits, codeLen - 8) % 256
    ensures BytesToBits(cur + [i]) + ToBits(t[sym].bits, codeLen - 8) == CodeBits(t, sym)
    ensures InnerAt(t, sym, cur + [i])
  {
    hide WellFormed, ToBits, Shr, BytesToBits, CodeBits;
    var code := t[sym].bits;
    var n: nat := codeLen - 8;
    Split(code, 8, n);
    assert 8 + n == codeLen;
    Truncate8(Shr(code, n));
    BytesToBitsSnoc(cur, i);
    var a, b, c := BytesToBits(cur), ToBits(i, 8), ToBits(code, n);
    assert a + (b + c) == (a + b) + c;
  }

  /** The leaf slots of `k`: `n` bits of its code word are left below `path`. */
  ghost predicate LeafMap(t: Table, k: Byte, path: seq<Byte>, n: nat, before: Tree, tree: Tree)
    requires 1 <= n <= 8
  {
    var start := Shl(t[k].bits, 8 - n) % 256;
    Filled(path, start, start + Pow2(8 - n), Leaf(n, k), before, tree)
  }

  ghost predicate LastStretch(t: Table, k: Byte, path: seq<Byte>, n: nat) {
    && 1 <= n <= 8 && t[k].len == 8 * |path| + n
    && CodeBits(t, k) == BytesToBits(path) + ToBits(t[k].bits, n)
  }

  /** A slot is filled with the leaf of `k` just when the code word of `k` ends there. */
  lemma FilledSlots(t: Table, k: Byte, path: seq<Byte>, n: nat, before: Tree, tree: Tree, q: seq<Byte>)
    requires WellFormed(t) && LastStretch(t, k, path, n) && LeafMap(t, k, path, n, before, tree)
    ensures LeafAt(t, k, q) ==> q in tree && tree[q] == Leaf(n, k) && |q| == |path| + 1
    ensures q in tree && !LeafAt(t, k, q) ==> q in before && tree[q] == before[q]
  {
    hide WellFormed, CodeBits, BytesToBits, Shl, LeafAt, Pow2;
    if LeafAt(t, k, q) {
      LeafParent(t, k, path, n, q);
      LeafSlots(t, k, path, n, q[|q| - 1]);
    } else if q in tree && |q| == |path| + 1 && q == path + [q[|path|]] {
      LeafSlots(t, k, path, n, q[|path|]);
    }
  }

  lemma AddLeaves(t: Table, k: Byte, path: seq<Byte>, n: nat, before: Tree, tree: Tree)
    requires WellFormed(t) && PrefixFree(t) && LastStretch(t, k, path, n)
    requires Built(before, t, k, |path|) && LeafMap(t, k, path, n, before, tree)
    ensures Built(tree, t, k + 1, 0)
  {
    hide WellFormed, PrefixFree, LeafMap, LeafAt, InnerAt;
    assert LeavesIn(tree, t, k + 1) by {
      forall sym: Byte, q: seq<Byte> | sym < k + 1 && LeafAt(t, sym, q)
        ensures q in tree && tree[q] == Leaf(t[sym].len - 8 * (|q| - 1), sym)
      {
        KeepLeaf(t, k, path, n, before, tree, sym, q);
      }
    }
    assert InnersIn(tree, t, k + 1, 0) by {
      forall sym: Byte, q: seq<Byte> | q != [] && InnerAt(t, sym, q) && (sym < k + 1 || (sym == k + 1 && |q| <= 0))
        ensures q in tree && tree[q] == Inner
      {
        KeepInner(t, k, path, n, before, tree, sym, q);
      }
    }
    assert Sound(tree, t, k + 1) by {
      forall q: seq<Byte> | q in tree ensures q != [] && SlotSound(t, k + 1, q, tree[q]) {
        KeepSound(t, k, path, n, before, tree, q);
      }
    }
  }

  lemma KeepLeaf(t: Table, k: Byte, path: seq<Byte>, n: nat, before: Tree, tree: Tree, sym: Byte, q: seq<Byte>)
    requires WellFormed(t) && PrefixFree(t) && LastStretch(t, k, path, n)
    requires LeavesIn(before, t, k) && LeafMap(t, k, path, n, before, tree)
    requires sym <= k && LeafAt(t, sym, q)
    ensures q in tree && tree[q] == Leaf(t[sym].len - 8 * (|q| - 1), sym)
  {
    FilledSlots(t, k, path, n, before, tree, q);
    hide WellFormed, PrefixFree, LeafAt, InnerAt, CodeBits, BytesToBits;
    if LeafAt(t, k, q) { LeafClash(t, sym, k, q); }
  }

  lemma KeepInner(t: Table, k: Byte, path: seq<Byte>, n: nat, before: Tree, tree: Tree, sym: Byte, q: seq<Byte>)
    requires WellFormed(t) && PrefixFree(t) && LastStretch(t, k, path, n)
    requires InnersIn(before, t, k, |path|) && LeafMap(t, k, path, n, before, tree)
    requires sym <= k && q != [] && InnerAt(t, sym, q)
    ensures q in tree && tree[q] == Inner
  {
    FilledSlots(t, k, path, n, before, tree, q);
    hide WellFormed, PrefixFree, LeafAt, InnerAt, CodeBits, BytesToBits;
    if LeafAt(t, k, q) { LeafClash(t, sym, k, q); }
    if sym == k { InnerDepth(t, k, q, |path|, n); }
  }

  lemma KeepSound(t: Table, k: Byte, path: seq<Byte>, n: nat, before: Tree, tree: Tree, q: seq<Byte>)
    requires WellFormed(t) && PrefixFree(t) && LastStretch(t, k, path, n)
    requires Sound(before, t, k) && LeafMap(t, k, path, n, before, tree)
    requires q in tree
    ensures q != [] && SlotSound(t, k + 1, q, tree[q])
  {
    FilledSlots(t, k, path, n, before, tree, q);
    hide WellFormed, PrefixFree, LeafAt, InnerAt, CodeBits, BytesToBits;
  }

  lemma InnerDepth(t: Table, k: Byte, q: seq<Byte>, depth: nat, n: nat)
    requires t[k].len == 8 * depth + n && n <= 8 && InnerAt(t, k, q)
    ensures |q| <= depth
  {
  }

  /** A slot belongs to one symbol if it is a leaf. */
  lemma LeafClash(t: Table, a: Byte, k: Byte, q: seq<Byte>)
    requires WellFormed(t) && PrefixFree(t)
    requires LeafAt(t, k, q)
    ensures !InnerAt(t, a, q)
    ensures LeafAt(t, a, q) ==> a == k
  {
    hide WellFormed, PrefixFree, CodeBits, BytesToBits;
    if InnerAt(t, a, q) { Apart(t, k, a, BytesToBits(q)); }
    if LeafAt(t, a, q) { BothPrefixes(t, a, k, BytesToBits(q)); }
  }

  // ---- Decoding ----

  /** `q` is the root or an inner node: some code word goes on after it. */
  ghost predicate InnerPath(t: Table, q: seq<Byte>) {
    exists sym: Byte :: InnerAt(t, sym, q)
  }

  lemma RootIsInner(t: Table)
    requires WellFormed(t)
    ensures InnerPath(t, [])
  {
    assert InnerAt(t, 0, []);
  }

  /** A node is at most three levels down: code words have at most 30 bits. */
  lemma PathDepth(t: Table, q: seq<Byte>)
    requires WellFormed(t) && InnerPath(t, q)
    ensures |q| <= 3
  {
    var sym: Byte :| InnerAt(t, sym, q);
  }

  /** A code word that starts `r` goes through the slot that the next octet selects. */
  lemma MatchThroughSlot(t: Table, tree: Tree, q: seq<Byte>, x: Byte, r: seq<bool>, c: Byte)
    requires PrefixFree(t) && InnerPath(t, q)
    requires BytesToBits(q) <= r && (BytesToBits(q + [x]) <= r || r <= BytesToBits(q + [x])) && CodeBits(t, c) <= r
    ensures LeafAt(t, c, q + [x]) || InnerAt(t, c, q + [x])
  {
    var p := BytesToBits(q + [x]);
    var w := CodeBits(t, c);
    assert w <= p || p <= w;
    if |w| <= 8 * |q| {
      var sym: Byte :| InnerAt(t, sym, q);
      assert w <= BytesToBits(q);
      Apart(t, c, sym, BytesToBits(q));
    }
  }

  lemma NilSlot(t: Table, tree: Tree, q: seq<Byte>, x: Byte, r: seq<bool>)
    requires PrefixFree(t) && Complete(tree, t) && InnerPath(t, q)
    requires BytesToBits(q) <= r && (BytesToBits(q + [x]) <= r || r <= BytesToBits(q + [x]))
    requires q + [x] !in tree
    ensures MatchFrom(t, r, 0) == None
  {
    hide PrefixFree, CodeBits, BytesToBits, InnerPath, LeafAt, InnerAt;
    var m := MatchFrom(t, r, 0);
    if m.Some? {
      MatchThroughSlot(t, tree, q, x, r, m.value);
      assert false;
    }
  }

  lemma InnerSlot(t: Table, tree: Tree, p: seq<Byte>)
    requires Complete(tree, t) && p in tree && tree[p] == Inner
    ensures InnerPath(t, p)
  {
  }

  /** Inside a code word nothing is complete yet. */
  lemma InnerNoMatch(t: Table, p: seq<Byte>, r: seq<bool>)
    requires PrefixFree(t) && InnerPath(t, p) && r <= BytesToBits(p)
    ensures MatchFrom(t, r, 0) == None
  {
    var m := MatchFrom(t, r, 0);
    var sym: Byte :| InnerAt(t, sym, p);
    if m.Some? {
      Apart(t, m.value, sym, BytesToBits(p));
      assert false;
    }
  }

  lemma LeafSlot(t: Table, tree: Tree, p: seq<Byte>)
    requires WellFormed(t) && Complete(tree, t) && p in tree && tree[p].Leaf?
    ensures p != [] && LeafAt(t, tree[p].sym, p) && tree[p].codeLen == t[tree[p].sym].len - 8 * (|p| - 1)
    ensures 1 <= tree[p].codeLen <= 8
  {
  }

  /** A leaf whose code word is longer than what is left is no match. */
  lemma LongLeaf(t: Table, p: seq<Byte>, r: seq<bool>, sym: Byte)
    requires PrefixFree(t) && LeafAt(t, sym, p) && r <= BytesToBits(p) && |r| < t[sym].len
    ensures MatchFrom(t, r, 0) == None
  {
    var m := MatchFrom(t, r, 0);
    if m.Some? {
      BothPrefixes(t, m.value, sym, BytesToBits(p));
      assert false;
    }
  }

  /** The state of the decoder after `n` octets of the input, whose bits are `b`: `pos` bits are
      decoded, the octets `q` after them are in the node, and the low `cbits` bits of `cur` are the
      rest that was read. */
  ghost predicate At(b: seq<bool>, n: nat, pos: nat, q: seq<Byte>, cur: nat, cbits: nat) {
    && pos + 8 * |q| + cbits == 8 * n <= |b|
    && BytesToBits(q) == b[pos..pos + 8 * |q|]
    && ToBits(cur, cbits) == b[8 * n - cbits..8 * n]
  }

  lemma ShiftIn(cur: nat, x: Byte, cbits: nat)
    requires cbits < 8
    ensures ToBits(Low(BitOr(Shl(cur, 8), x), 64), cbits + 8) == ToBits(cur, cbits) + ToBits(x, 8)
  {
    hide BitOr, Shl, ToBits, Pow2, Low;
    Pow2Values();
    var w := BitOr(Shl(cur, 8), x);
    OrDisjoint(cur, x, 8, cbits);
    BitsSuffix(w, cbits + 8, 64);
    BitsSuffix(Low(w, 64), cbits + 8, 64);
  }

  lemma ReadOctet(v: seq<Byte>, n: nat, pos: nat, q: seq<Byte>, cur: nat, cbits: nat)
    requires n < |v| && cbits < 8 && At(BytesToBits(v), n, pos, q, cur, cbits)
    ensures At(BytesToBits(v), n + 1, pos, q, Low(BitOr(Shl(cur, 8), v[n]), 64), cbits + 8)
  {
    hide BitOr, Shl, Low, ToBits, BytesToBits, Pow2;
    var b := BytesToBits(v);
    ShiftIn(cur, v[n], cbits);
    OctetBits(v, n);
    assert 8 * (n + 1) == 8 * n + 8 <= |b|;
    assert b[8 * n - cbits..8 * n] + b[8 * n..8 * n + 8] == b[8 * n - cbits..8 * (n + 1)];
  }

  lemma {:induction false} OctetBits(v: seq<Byte>, n: nat)
    requires n < |v|
    ensures BytesToBits(v)[8 * n..8 * n + 8] == ToBits(v[n], 8)
  {
    hide ToBits;
    if n > 0 {
      OctetBits(v[1..], n - 1);
      assert BytesToBits(v)[8..] == BytesToBits(v[1..]);
      OctetShift(BytesToBits(v), n);
    }
  }

  lemma OctetShift(b: seq<bool>, n: nat)
    requires n > 0 && 8 * n + 8 <= |b|
    ensures b[8..][8 * (n - 1)..8 * (n - 1) + 8] == b[8 * n..8 * n + 8]
  {
  }

  /** The octet `byte(cur >> (cbits - 8))` continues the node path along the input. */
  lemma NextOctet(b: seq<bool>, n: nat, pos: nat, q: seq<Byte>, cur: nat, cbits: nat)
    requires cbits >= 8 && At(b, n, pos, q, cur, cbits)
    ensures var x := Shr(cur, cbits - 8) % 256;
            && BytesToBits(q) <= b[pos..]
            && BytesToBits(q + [x]) <= b[pos..] && pos + 8 <= |b|
            && At(b, n, pos, q + [x], cur, cbits - 8)
  {
    hide Shr, ToBits, BytesToBits;
    var k: nat := cbits - 8;
    var x := Shr(cur, k) % 256;
    Split(cur, 8, k);
    assert 8 + k == cbits;
    Truncate8(Shr(cur, k));
    BytesToBitsSnoc(q, x);
    PathPrefix(b, n, pos, q, cur, cbits);
    var w := b[8 * n - cbits..8 * n];
    assert w[..8] == b[8 * n - cbits..8 * n - k];
    assert w[8..] == b[8 * n - k..8 * n];
    assert b[pos..pos + 8 * |q|] + b[pos + 8 * |q|..pos + 8 * |q| + 8] == b[pos..pos + 8 * |q| + 8];
  }

  /** A symbol was recognised: its bits are dropped from the pending ones. */
  lemma Consume(b: seq<bool>, n: nat, pos: nat, q: seq<Byte>, cur: nat, cbits: nat, len: nat)
    requires At(b, n, pos, q, cur, cbits) && len <= cbits
    ensures pos + 8 * |q| + len <= |b|
    ensures At(b, n, pos + 8 * |q| + len, [], cur, cbits - len)
  {
    BitsSuffix(cur, cbits - len, cbits);
  }

  /** The last lookup: the pending bits filled up with zeros. */
  lemma LastOctet(b: seq<bool>, n: nat, pos: nat, q: seq<Byte>, cur: nat, cbits: nat)
    requires 0 < cbits < 8 && At(b, n, pos, q, cur, cbits) && |b| == 8 * n
    ensures var x := Shl(cur, 8 - cbits) % 256;
            && BytesToBits(q + [x]) == b[pos..] + Zeros(8 - cbits)
            && b[pos..] <= BytesToBits(q + [x])
  {
    hide Shl, ToBits, BytesToBits, Zeros;
    var k: nat := 8 - cbits;
    var x := Shl(cur, k) % 256;
    ShiftLeft(cur, cbits, k);
    assert cbits + k == 8;
    Truncate8(Shl(cur, k));
    BytesToBitsSnoc(q, x);
    var u, v := b[pos..pos + 8 * |q|], b[8 * n - cbits..8 * n];
    assert b[pos..] == u + v;
    assert u + (v + Zeros(k)) == (u + v) + Zeros(k);
  }

  lemma AllOnes(cur: nat, cbits: nat)
    ensures Low(cur, cbits) == Pow2(cbits) - 1 <==> ToBits(cur, cbits) == Ones(cbits)
  {
    OnesValue(cbits);
    FromTo(Low(cur, cbits), cbits);
    FromTo(Pow2(cbits) - 1, cbits);
  }

  /** A symbol at the front of the rest is decoded next. */
  lemma TakeSymbol(t: Table, maxLen: nat, b: seq<bool>, pos: nat, out: seq<Byte>, sym: Byte)
    requires WellFormed(t) && PrefixFree(t) && pos <= |b| && CodeBits(t, sym) <= b[pos..]
    ensures pos + t[sym].len <= |b|
    ensures DecodeBits(t, maxLen, b[pos..], out) ==
            if maxLen != 0 && |out| == maxLen then StringTooLong
            else DecodeBits(t, maxLen, b[pos + t[sym].len..], out + [sym])
  {
    DecodeStep(t, maxLen, b[pos..], out, sym);
    assert b[pos..][t[sym].len..] == b[pos + t[sym].len..];
  }

  /** What the padding lookup must find. */
  lemma PadSlot(t: Table, tree: Tree, c: nat, x: Byte)
    requires Good(t) && Complete(tree, t) && 1 <= c <= 7
    requires BytesToBits([x]) == PadOctet(c)
    ensures [x] in tree
  {
    assert PadCovers(t, c);
    var sym: Byte :| CodeBits(t, sym) <= PadOctet(c) || PadOctet(c) <= CodeBits(t, sym);
    assert LeafAt(t, sym, [x]) || InnerAt(t, sym, [x]);
  }

  /** A missing slot at the last lookup is a decoding error. */
  lemma NilAtEnd(t: Table, tree: Tree, maxLen: nat, b: seq<bool>, pos: nat, q: seq<Byte>, cbits: nat, x: Byte,
                 out: seq<Byte>)
    requires Good(t) && Complete(tree, t) && InnerPath(t, q) && 0 < cbits < 8
    requires pos + 8 * |q| + cbits == |b| && BytesToBits(q) <= b[pos..]
    requires BytesToBits(q + [x]) == b[pos..] + Zeros(8 - cbits)
    requires q + [x] !in tree
    ensures DecodeBits(t, maxLen, b[pos..], out) == InvalidHuffman
  {
    NilSlot(t, tree, q, x, b[pos..]);
    hide PrefixFree, PaddingSafe, InnerPath, BytesToBits, Built;
    if |b[pos..]| <= 7 && b[pos..] == Ones(|b[pos..]|) {
      assert q == [] && q + [x] == [x];
      PadSlot(t, tree, cbits, x);
    }
  }

  /** Nothing more can be recognised: what is left must be padding. */
  lemma Finish(t: Table, maxLen: nat, b: seq<bool>, n: nat, pos: nat, q: seq<Byte>, cur: nat, cbits: nat,
               out: seq<Byte>)
    requires WellFormed(t) && At(b, n, pos, q, cur, cbits) && |b| == 8 * n && cbits < 8
    requires MatchFrom(t, b[pos..], 0) == None
    ensures DecodeBits(t, maxLen, b[pos..], out) ==
            if 8 * |q| + cbits > 7 then InvalidHuffman
            else if Low(cur, cbits) != Pow2(cbits) - 1 then InvalidHuffman
            else Decoded(out)
  {
    hide BytesToBits;
    AllOnes(cur, cbits);
    if 8 * |q| + cbits <= 7 {
      assert b[8 * n - cbits..8 * n] == b[pos..];
    }
  }

  /** huffmanDecode. `cur` is a 64-bit word. */
  method HuffmanDecode(t: Table, tree: Tree, maxLen: nat, v: seq<Byte>) returns (r: Result)
    requires Good(t) && Complete(tree, t)
    ensures r == Decode(t, maxLen, v)
  {
    var n: seq<Byte> := [];  // the current node
    var cur: nat, cbits: nat, sbits: nat := 0, 0, 0;
    var buf: seq<Byte> := [];
    ghost var b, pos: nat := BytesToBits(v), 0;
    hide PrefixFree, PaddingSafe, WellFormed, Built, InnerPath, BytesToBits, ToBits, Shl, Shr, BitOr, Low, DecodeBits;
    hide MatchFrom, CodeBits, LeafAt, InnerAt, Pow2, At;
    RootIsInner(t);
    assert b[0..] == b;
    InitialState(v);
    for i := 0 to |v|
      invariant InnerPath(t, n) && cbits < 8 && sbits == 8 * |n| + cbits && pos <= |b|
      invariant At(b, i, pos, n, cur, cbits)
      invariant DecodeBits(t, maxLen, b, []) == DecodeBits(t, maxLen, b[pos..], buf)
    {
      ReadOctet(v, i, pos, n, cur, cbits);
      cur := Low(BitOr(Shl(cur, 8), v[i]), 64);
      var failure;
      failure, n, cbits, sbits, buf, pos :=
        DrainOctets(t, tree, maxLen, b, i + 1, pos, n, cur, cbits + 8, sbits + 8, buf);
      if failure.Some? { return failure.value; }
    }
    r := DecodeTail(t, tree, maxLen, b, |v|, pos, n, cur, cbits, sbits, buf);
  }

  /** The inner loop of huffmanDecode: whole octets of the bits read are fed to the tree. The
      counts never leave the range of an 8-bit word. */
  method DrainOctets(t: Table, tree: Tree, maxLen: nat, ghost b: seq<bool>, ghost i: nat, ghost pos0: nat,
                     n0: seq<Byte>, cur: nat, cbits0: nat, sbits0: nat, buf0: seq<Byte>)
    returns (failure: Option<Result>, n: seq<Byte>, cbits: nat, sbits: nat, buf: seq<Byte>, ghost pos: nat)
    requires Good(t) && Complete(tree, t)
    requires InnerPath(t, n0) && cbits0 < 16 && sbits0 == 8 * |n0| + cbits0 && pos0 <= |b|
    requires At(b, i, pos0, n0, cur, cbits0)
    ensures match failure
            case Some(e) => e == DecodeBits(t, maxLen, b[pos0..], buf0)
            case None =>
              && InnerPath(t, n) && cbits < 8 && sbits == 8 * |n| + cbits && pos <= |b|
              && At(b, i, pos, n, cur, cbits)
              && DecodeBits(t, maxLen, b[pos0..], buf0) == DecodeBits(t, maxLen, b[pos..], buf)
  {
    hide PrefixFree, PaddingSafe, WellFormed, Built, InnerPath, BytesToBits, ToBits, Shl, Shr, BitOr, Low, DecodeBits;
    hide MatchFrom, CodeBits, LeafAt, InnerAt, Pow2, At;
    failure, n, cbits, sbits, buf, pos := None, n0, cbits0, sbits0, buf0, pos0;
    while cbits >= 8
      invariant InnerPath(t, n) && cbits < 16 && sbits == 8 * |n| + cbits && pos <= |b|
      invariant At(b, i, pos, n, cur, cbits)
      invariant DecodeBits(t, maxLen, b[pos0..], buf0) == DecodeBits(t, maxLen, b[pos..], buf)
      decreases cbits
    {
      PathDepth(t, n);
      assert cbits < 256 && sbits < 256;
      var idx: Byte := Shr(cur, cbits - 8) % 256;
      NextOctet(b, i, pos, n, cur, cbits);
      if n + [idx] !in tree {
        NilSlot(t, tree, n, idx, b[pos..]);
        RejectLong(t, maxLen, b[pos..], buf);
        failure := Some(InvalidHuffman);
        return;
      }
      match tree[n + [idx]]
      case Leaf(codeLen, sym) =>
        LeafSlot(t, tree, n + [idx]);
        LeafMatches(t, sym, n + [idx], b[pos..]);
        TakeSymbol(t, maxLen, b, pos, buf, sym);
        if maxLen != 0 && |buf| == maxLen {
          failure := Some(StringTooLong);
          return;
        }
        Consume(b, i, pos, n, cur, cbits, codeLen);
        buf := buf + [sym];
        cbits := cbits - codeLen;
        pos := pos + 8 * |n| + codeLen;
        n := [];
        sbits := cbits;
        RootIsInner(t);
      case Inner =>
        InnerSlot(t, tree, n + [idx]);
        n := n + [idx];
        cbits := cbits - 8;
    }
  }

  /** The loop of huffmanDecode over the bits left after the last octet, and its final checks. */
  method DecodeTail(t: Table, tree: Tree, maxLen: nat, ghost b: seq<bool>, ghost i: nat, ghost pos0: nat,
                    n0: seq<Byte>, cur: nat, cbits0: nat, sbits0: nat, buf0: seq<Byte>) returns (r: Result)
    requires Good(t) && Complete(tree, t)
    requires InnerPath(t, n0) && cbits0 < 8 && sbits0 == 8 * |n0| + cbits0 && |b| == 8 * i
    requires At(b, i, pos0, n0, cur, cbits0)
    ensures pos0 <= |b| && r == DecodeBits(t, maxLen, b[pos0..], buf0)
  {
    hide PrefixFree, PaddingSafe, WellFormed, Built, InnerPath, BytesToBits, ToBits, Shl, Shr, BitOr, Low, DecodeBits;
    hide MatchFrom, CodeBits, LeafAt, Pow2;
    var n, cbits: nat, sbits: nat, buf := n0, cbits0, sbits0, buf0;
    ghost var pos: nat := pos0;
    while cbits > 0
      invariant InnerPath(t, n) && cbits < 8 && sbits == 8 * |n| + cbits
      invariant At(b, i, pos, n, cur, cbits)
      invariant DecodeBits(t, maxLen, b[pos0..], buf0) == DecodeBits(t, maxLen, b[pos..], buf)
      decreases cbits
    {
      var x: Byte := Shl(cur, 8 - cbits) % 256;
      LastOctet(b, i, pos, n, cur, cbits);
      PathPrefix(b, i, pos, n, cur, cbits);
      if n + [x] !in tree {
        NilAtEnd(t, tree, maxLen, b, pos, n, cbits, x, buf);
        return InvalidHuffman;
      }
      match tree[n + [x]]
      case Inner =>
        InnerSlot(t, tree, n + [x]);
        InnerNoMatch(t, n + [x], b[pos..]);
        break;
      case Leaf(codeLen, sym) =>
        LeafSlot(t, tree, n + [x]);
        if codeLen > cbits {
          LongLeaf(t, n + [x], b[pos..], sym);
          break;
        }
        ShortLeaf(t, sym, n + [x], b[pos..]);
        TakeSymbol(t, maxLen, b, pos, buf, sym);
        if maxLen != 0 && |buf| == maxLen { return StringTooLong; }
        Consume(b, i, pos, n, cur, cbits, codeLen);
        buf := buf + [sym];
        cbits := cbits - codeLen;
        pos := pos + 8 * |n| + codeLen;
        n := [];
        sbits := cbits;
        RootIsInner(t);
    }
    if cbits == 0 {
      PathPrefix(b, i, pos, n, cur, cbits);
      InnerNoMatch(t, n, b[pos..]);
    }
    Finish(t, maxLen, b, i, pos, n, cur, cbits, buf);
    if sbits > 7 { return InvalidHuffman; }
    if Low(cur, cbits) != Pow2(cbits) - 1 { return InvalidHuffman; }
    return Decoded(buf);
  }

  lemma InitialState(v: seq<Byte>)
    ensures At(BytesToBits(v), 0, 0, [], 0, 0)
  {
  }

  lemma PathPrefix(b: seq<bool>, n: nat, pos: nat, q: seq<Byte>, cur: nat, cbits: nat)
    requires At(b, n, pos, q, cur, cbits)
    ensures BytesToBits(q) <= b[pos..]
    ensures |b| == 8 * n && cbits == 0 ==> BytesToBits(q) == b[pos..]
  {
  }

  lemma RejectLong(t: Table, maxLen: nat, r: seq<bool>, out: seq<Byte>)
    requires WellFormed(t) && MatchFrom(t, r, 0) == None && |r| >= 8
    ensures DecodeBits(t, maxLen, r, out) == InvalidHuffman
  {
  }

  lemma LeafMatches(t: Table, sym: Byte, p: seq<Byte>, r: seq<bool>)
    requires LeafAt(t, sym, p) && BytesToBits(p) <= r
    ensures CodeBits(t, sym) <= r
  {
  }

  lemma ShortLeaf(t: Table, sym: Byte, p: seq<Byte>, r: seq<bool>)
    requires LeafAt(t, sym, p) && r <= BytesToBits(p) && t[sym].len <= |r|
    ensures CodeBits(t, sym) <= r
  {
  }
}
