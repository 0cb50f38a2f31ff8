/** The static table of Appendix A of RFC 7541 and the agreement theorem for the tables in use. */
module StaticTable {
  import opened Bits
  import opened HeaderTable
  import Hpack
  import HpackAgreement
  import Huffman
  import HuffmanCode

  function NamesAndValues(): (r: seq<(string, string)>)
    ensures |r| == 61
  {
    [
      (":authority", ""),
      (":method", "GET"),
      (":method", "POST"),
      (":path", "/"),
      (":path", "/index.html"),
      (":scheme", "http"),
      (":scheme", "https"),
      (":status", "200"),
      (":status", "204"),
      (":status", "206"),
      (":status", "304"),
      (":status", "400"),
      (":status", "404"),
      (":status", "500"),
      ("accept-charset", ""),
      ("accept-encoding", "gzip, deflate"),
      ("accept-language", ""),
      ("accept-ranges", ""),
      ("accept", ""),
      ("access-control-allow-origin", ""),
      ("age", ""),
      ("allow", ""),
      ("authorization", ""),
      ("cache-control", ""),
      ("content-disposition", ""),
      ("content-encoding", ""),
      ("content-language", ""),
      ("content-length", ""),
      ("content-location", ""),
      ("content-range", ""),
      ("content-type", ""),
      ("cookie", ""),
      ("date", ""),
      ("etag", ""),
      ("expect", ""),
      ("expires", ""),
      ("from", ""),
      ("host", ""),
      ("if-match", ""),
      ("if-modified-since", ""),
      ("if-none-match", ""),
      ("if-range", ""),
      ("if-unmodified-since", ""),
      ("last-modified", ""),
      ("link", ""),
      ("location", ""),
      ("max-forwards", ""),
      ("proxy-authenticate", ""),
      ("proxy-authorization", ""),
      ("range", ""),
      ("referer", ""),
      ("refresh", ""),
      ("retry-after", ""),
      ("server", ""),
      ("set-cookie", ""),
      ("strict-transport-security", ""),
      ("transfer-encoding", ""),
      ("user-agent", ""),
      ("vary", ""),
      ("via", ""),
      ("www-authenticate", "")
    ]
  }

  function Entries(): seq<HeaderField> {
    seq(61, i requires 0 <= i < 61 => HeaderField(Ascii(NamesAndValues()[i].0), Ascii(NamesAndValues()[i].1), false))
  }

  lemma EntriesProper()
    ensures |Entries()| == 61 && forall i :: 0 <= i < 61 ==> !Entries()[i].sensitive
  {
    hide Ascii, NamesAndValues;
  }

  /** newStaticTable. */
  method NewStaticTable() returns (t: HeaderFieldTable)
    ensures fresh(t) && t.Valid() && !t.dynamic && t.ents == Entries()
  {
    hide NamesFrom, PairsFrom;
    t := new HeaderFieldTable(false);
    var es := Entries();
    hide Entries;
    for i := 0 to |es|
      invariant t.Valid() && t.ents == es[..i] && fresh(t) && !t.dynamic
    {
      t.AddEntry(es[i]);
    }
    assert es[..|es|] == es;
  }

  function Tables(): Hpack.Shared { Hpack.Shared(HuffmanCode.HpackCode(), Entries()) }

  lemma TablesProper()
    ensures Hpack.Proper(Tables()) && |Tables().fixed| < WORD
  {
    hide Entries, HuffmanCode.HpackCode, Huffman.Good;
    HuffmanCode.HpackCodeGood();
    EntriesProper();
  }

  /** A new encoder and a decoder started at 4096 agree on every session. */
  lemma HpackAgrees(ops: seq<HpackAgreement.Op>)
    requires forall i :: 0 <= i < |ops| ==> HpackAgreement.OpOk(ops[i])
    ensures Huffman.WellFormed(Tables().code)
    ensures HpackAgreement.InAgreement(Tables(), Hpack.NewEnc(), Hpack.NewDec(4096), ops)
  {
    hide Tables, Huffman.WellFormed, Huffman.PrefixFree, Huffman.PaddingSafe, HpackAgreement.Session;
    hide HpackAgreement.InAgreement, HpackAgreement.OpOk, HpackAgreement.Ready;
    TablesProper();
    HpackAgreement.StartsReady(Tables());
    HpackAgreement.SessionAgrees(Tables(), Hpack.NewEnc(), Hpack.NewDec(4096), ops);
  }
}
