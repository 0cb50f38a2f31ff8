/** Which header lists the reader accepts, in terms of their octets: the rules of section 8.1.2 of RFC 7540 as far
    as readMetaFrame checks them. */
module HeaderLists {
  import opened Bits
  import opened HeaderTable
  import DynamicTable
  import Huffman
  import opened Hpack
  import opened HpackAgreement
  import Frames
  import opened FrameRoundTrip
  import opened MetaHeaders
  import opened HeaderBlock

  /** A regular name: not empty, no colon in front and no upper-case letter. */
  predicate Regular(name: Str) {
    name != [] && name[0] != 58 && forall i :: 0 <= i < |name| ==> name[i] < 65 || 90 < name[i]
  }

  /** The first `k` fields are pseudo-header fields, all of a request or all of a response and none twice, and
      only regular fields follow. */
  predicate LegalAt(fs: seq<HeaderField>, k: nat)
    requires k <= |fs|
  {
    && PseudosLegal(fs[..k])
    && (forall i :: k <= i < |fs| ==> Regular(fs[i].name))
  }

  ghost predicate Legal(fs: seq<HeaderField>) {
    exists k :: 0 <= k <= |fs| && LegalAt(fs, k)
  }

  // ---- The callback ----

  /** Pseudo-header fields come first, and the names after them are regular. */
  predicate Ordered(fs: seq<HeaderField>) {
    && (forall i, j :: 0 <= i < j < |fs| && IsPseudo(fs[j]) ==> IsPseudo(fs[i]))
    && (forall i :: 0 <= i < |fs| ==> IsPseudo(fs[i]) || Regular(fs[i].name))
  }

  lemma {:induction false} FoldOrdered(limit: nat, fs: seq<HeaderField>)
    ensures var m := Fold(limit, fs);
            (m.invalid <==> !Ordered(fs)) && (m.sawRegular <==> !forall i :: 0 <= i < |fs| ==> IsPseudo(fs[i]))
    decreases |fs|
  {
    if fs != [] {
      hide Fold, Ordered, ListSize;
      var before, f := fs[..|fs| - 1], fs[|fs| - 1];
      FoldOrdered(limit, before);
      assert before + [f] == fs;
      FoldSnoc(limit, before, f);
      OrderedSnoc(before, f);
      assert forall i :: 0 <= i < |before| ==> before[i] == fs[i];
    }
  }

  lemma OrderedSnoc(before: seq<HeaderField>, f: HeaderField)
    ensures Ordered(before + [f]) <==>
            Ordered(before) && (if IsPseudo(f) then forall i :: 0 <= i < |before| ==> IsPseudo(before[i])
                                else ValidName(f.name))
  {
    hide IsPseudo;
    var fs := before + [f];
    assert forall i :: 0 <= i < |before| ==> fs[i] == before[i];
    assert fs[|before|] == f;
    RegularIs(f);
  }

  lemma RegularIs(f: HeaderField)
    ensures !IsPseudo(f) ==> (ValidName(f.name) <==> Regular(f.name))
  {
  }

  lemma {:induction false} SizeGrows(fs: seq<HeaderField>, k: nat)
    requires k <= |fs|
    ensures ListSize(fs[..k]) <= ListSize(fs)
    decreases |fs|
  {
    if k == |fs| {
      assert fs[..k] == fs;
    } else {
      var before := fs[..|fs| - 1];
      SizeGrows(before, k);
      assert before[..k] == fs[..k];
    }
  }

  lemma OrderedPrefix(fs: seq<HeaderField>, em: seq<HeaderField>)
    requires em <= fs && Ordered(fs)
    ensures Ordered(em)
  {
    assert forall i :: 0 <= i < |em| ==> em[i] == fs[i];
  }

  /** What the callback has kept of a list when the block is over. */
  lemma KeptOf(limit: nat, fs: seq<HeaderField>)
    requires ListSize(fs) <= limit
    ensures var m := Fold(limit, Emit(Keeping(limit), true, [], fs).1);
            (m.invalid <==> !Ordered(fs)) && (!m.invalid ==> m.fields == fs && !m.truncated)
  {
    KeptNone(limit);
    hide Fold, ListSize, Emit, Ordered, Keeping;
    assert [] + fs == fs;
    EmitKeeps(limit, [], fs);
    var (on, em) := Emit(Keeping(limit), true, [], fs);
    FoldOrdered(limit, em);
    if !on {
      assert em == fs[..|em|];
      SizeGrows(fs, |em|);
      if Ordered(fs) { OrderedPrefix(fs, em); }
    }
  }

  /** Where emission stops: at a field that does not fit, or before it at one that is invalid. */
  lemma StopsAt(limit: nat, fs: seq<HeaderField>, em: seq<HeaderField>, k: nat)
    requires k < |fs| && ListSize(fs[..k]) <= limit < ListSize(fs[..k + 1]) && em <= fs && Stopped(limit, em)
    ensures em <= fs[..k + 1] && (Fold(limit, em).truncated ==> |em| == k + 1) && em[..|em| - 1] == fs[..|em| - 1]
  {
    hide Fold, ListSize;
    if |em| <= k {
      assert fs[..k][..|em|] == em;
      SizeGrows(fs[..k], |em|);
    } else {
      assert em[..|em| - 1] == fs[..|em| - 1];
      if |em| > k + 1 {
        assert fs[..|em| - 1][..k + 1] == fs[..k + 1];
        SizeGrows(fs[..|em| - 1], k + 1);
        assert false;
      }
    }
  }

  lemma NotKept(limit: nat, fs: seq<HeaderField>, k: nat)
    requires k <= |fs| && limit < ListSize(fs[..k])
    ensures !Kept(limit, fs)
  {
    hide Fold, ListSize;
    SizeGrows(fs, k);
  }

  lemma StoppedOf(limit: nat, fs: seq<HeaderField>, em: seq<HeaderField>, k: nat)
    requires k < |fs| && ListSize(fs[..k]) <= limit < ListSize(fs[..k + 1]) && em <= fs && Stopped(limit, em)
    ensures var m := Fold(limit, em);
            (m.invalid <==> !Ordered(fs[..k + 1])) && (!m.invalid ==> m.fields == fs[..k] && m.truncated)
  {
    hide Fold, ListSize, Ordered;
    FoldOrdered(limit, em);
    StopsAt(limit, fs, em, k);
    var next := fs[..k + 1];
    assert |em| == k + 1 ==> em == next;
    if Ordered(next) { OrderedPrefix(next, em); }
  }

  /** A list that is too long: the first `k` fields fit, and the next does not. */
  lemma KeptOfLong(limit: nat, fs: seq<HeaderField>, k: nat)
    requires k < |fs| && ListSize(fs[..k]) <= limit < ListSize(fs[..k + 1])
    ensures var m := Fold(limit, Emit(Keeping(limit), true, [], fs).1);
            (m.invalid <==> !Ordered(fs[..k + 1])) && (!m.invalid ==> m.fields == fs[..k] && m.truncated)
  {
    hide Fold, ListSize, Emit, Ordered, Keeping, Kept, Stopped;
    KeptNone(limit);
    assert [] + fs == fs;
    EmitKeeps(limit, [], fs);
    NotKept(limit, fs, k + 1);
    StoppedOf(limit, fs, Emit(Keeping(limit), true, [], fs).1, k);
  }

  // ---- The check of the pseudo-header fields ----

  lemma {:induction false} PseudoLength(fs: seq<HeaderField>)
    requires forall i, j :: 0 <= i < j < |fs| && IsPseudo(fs[j]) ==> IsPseudo(fs[i])
    ensures var k := |PseudoFields(fs)|; k <= |fs| && forall i :: 0 <= i < |fs| ==> (IsPseudo(fs[i]) <==> i < k)
    decreases |fs|
  {
    if fs != [] && IsPseudo(fs[0]) {
      assert forall i :: 0 <= i < |fs[1..]| ==> fs[1..][i] == fs[i + 1];
      PseudoLength(fs[1..]);
      assert forall i :: 1 <= i < |fs| ==> fs[i] == fs[1..][i - 1];
    }
  }

  lemma LegalPseudos(fs: seq<HeaderField>, k: nat)
    requires k <= |fs| && LegalAt(fs, k)
    ensures forall i :: 0 <= i < |fs| ==> (IsPseudo(fs[i]) <==> i < k)
  {
    hide OfRequest;
    forall i | 0 <= i < |fs| ensures IsPseudo(fs[i]) <==> i < k {
      Spelling(fs[i].name);
      assert i < k ==> fs[i] == fs[..k][i];
    }
  }

  lemma LegalExactly(fs: seq<HeaderField>)
    ensures Legal(fs) <==> Ordered(fs) && PseudosOk(PseudoFields(fs))
  {
    hide PseudosOk, PseudoFields, PseudosLegal;
    var pf := PseudoFields(fs);
    PseudosAre(pf);
    if Ordered(fs) {
      PseudoLength(fs);
      assert pf == fs[..|pf|];
      if PseudosOk(pf) { assert LegalAt(fs, |pf|); }
    }
    if Legal(fs) {
      var k :| 0 <= k <= |fs| && LegalAt(fs, k);
      LegalPseudos(fs, k);
      PseudoLength(fs);
      assert k < |fs| ==> (IsPseudo(fs[k]) <==> k < |pf|);
      assert |pf| < |fs| ==> (IsPseudo(fs[|pf|]) <==> |pf| < k);
      assert pf == fs[..k];
    }
  }

  // ---- What the reader returns ----

  /** The first `k` fields of a list are all of it, or all that fits the limit. */
  ghost predicate Fit(limit: nat, fs: seq<HeaderField>, k: nat) {
    k <= |fs| && ListSize(fs[..k]) <= limit && (k < |fs| ==> limit < ListSize(fs[..k + 1]))
  }

  lemma VerdictExactly(limit: nat, h: Frames.Header, fs: seq<HeaderField>, k: nat)
    requires Fit(limit, fs, k)
    ensures Verdict(limit, h, fs) ==
            if Legal(fs[..k]) && (k < |fs| ==> Ordered(fs[..k + 1])) then
              Frames.Ok(MetaItem(MetaFrame(h, Frames.NO_PRIORITY, fs[..k], k < |fs|)))
            else Frames.Err(Frames.StreamError(h.id, 1))
  {
    hide ListSize, PseudosOk, PseudoFields, Fold, Emit, Keeping, Legal, Ordered;
    LegalExactly(fs[..k]);
    if k == |fs| {
      assert fs[..k] == fs;
      KeptOf(limit, fs);
    } else {
      KeptOfLong(limit, fs, k);
      if Ordered(fs[..k + 1]) { OrderedPrefix(fs[..k + 1], fs[..k]); }
    }
  }

  /** The limit that a reader counts with: 16 MiB if none is set. */
  function LimitOf(r: Reader): nat { if r.maxHeaderListSize == 0 then 16777216 else r.maxHeaderListSize }

  /** Every header list, as octets written, split, read and merged: the longest prefix that fits the limit comes
      back exactly if it is legal and, when something follows it, that is in order; any other is refused with
      a stream error. */
  lemma ListExactly(c: Shared, e: Enc, r: Reader, fs: seq<HeaderField>, id: Frames.U32, endStream: bool,
                    maxFrameSize: nat, tail: Str, k: nat)
    requires Proper(c) && InStep(c, e, r) && FieldsOk(LimitOf(r), fs) && Fit(LimitOf(r), fs, k)
    requires 1 <= maxFrameSize <= r.maxReadSize && maxFrameSize < Frames.MAX_FRAME && Frames.ValidId(id)
    ensures var o := ReadItem(c, r, BlockFrames(c, e, fs, id, endStream, maxFrameSize, r.maxReadSize) + tail);
            && o.rest == tail && InStep(c, WriteFields(c, e, fs).0, o.r)
            && (if Legal(fs[..k]) && (k < |fs| ==> Ordered(fs[..k + 1])) then
                  && o.result.Ok? && o.result.value.MetaItem?
                  && var m := o.result.value.meta;
                     && m.fields == fs[..k] && m.truncated == (k < |fs|) && m.h.id == id
                     && Frames.Has(m.h.flags, Frames.END_STREAM) == endStream
                else o.result == Frames.Err(Frames.StreamError(id, 1)))
  {
    hide InStep, FieldsOk, WriteFields, ReadItem, BlockFrames, Huffman.WellFormed, Verdict, Legal, Ordered, Fit;
    hide Frames.Has, Frames.FlagsOf, Frames.Payload, Frames.Accepts;
    HeaderListRead(c, e, r, fs, id, endStream, maxFrameSize, tail);
    FirstFlags(id, endStream, WriteFields(c, e, fs).1, maxFrameSize);
    var q := HeadRequest(id, endStream, WriteFields(c, e, fs).1, maxFrameSize, true);
    VerdictExactly(LimitOf(r), HeaderOf(q), fs, k);
  }

  /** A block in one frame that HPACK cannot decode, or that ends inside a field, is a COMPRESSION_ERROR of the
      connection, 9. */
  lemma BadBlock(c: Shared, r: Reader, hf: Frames.Frame, b: Str)
    requires Huffman.WellFormed(c.code) && hf.body.HeadersBody? && Frames.Has(hf.h.flags, 4)
    requires var o := Write(c, Keeping(LimitOf(r)), Prepared(r), hf.body.fragment);
             o.failure.Some? || o.d.saved != []
    ensures var o := ReadMetaFrame(c, r, hf, b);
            o.rest == b && o.result == Frames.Err(Frames.ConnectionError(9))
  {
    hide Huffman.WellFormed, Write, Frames.Has, Fold, PseudosOk;
  }

  /** A pseudo-header field in front with none of the six names is refused, whatever follows. */
  lemma UnknownIllegal(fs: seq<HeaderField>)
    requires fs != [] && fs[0].name != [] && fs[0].name[0] == 58 && !OfRequest(fs[0].name) && fs[0].name != STATUS
    ensures !Legal(fs)
  {
    forall k | 0 <= k <= |fs| ensures !LegalAt(fs, k) {
      if k > 0 { assert fs[..k][0] == fs[0]; }
    }
  }

  /** A request with its four pseudo-header fields in any order, and then regular fields, is legal. */
  lemma RequestLegal(fs: seq<HeaderField>)
    requires |fs| >= 4 && multiset{fs[0].name, fs[1].name, fs[2].name, fs[3].name} ==
                          multiset{METHOD, SCHEME, PATH, AUTHORITY}
    requires forall i :: 4 <= i < |fs| ==> Regular(fs[i].name)
    ensures Legal(fs)
  {
    var names := multiset{fs[0].name, fs[1].name, fs[2].name, fs[3].name};
    assert names[METHOD] == 1 && names[SCHEME] == 1 && names[PATH] == 1 && names[AUTHORITY] == 1;
    assert fs[0].name in names && fs[1].name in names && fs[2].name in names && fs[3].name in names;
    assert LegalAt(fs, 4);
  }
}
