/** The header-list theorem for the tables in use. */
module HeaderTables {
  import Huffman
  import Hpack
  import Frames
  import opened MetaHeaders
  import opened HeaderBlock
  import StaticTable

  function NewReader(maxReadSize: nat, maxHeaderListSize: nat): Reader {
    Reader(Hpack.NewDec(4096), 0, maxReadSize, maxHeaderListSize)
  }

  /** On a new connection with the tables in use, every header list that is sent arrives. */
  lemma HeadersArrive(actions: seq<Action>, maxFrameSize: nat, maxReadSize: nat, maxHeaderListSize: nat)
    requires 1 <= maxFrameSize <= maxReadSize && maxFrameSize < Frames.MAX_FRAME && IdsOk(actions)
    requires forall i :: 0 <= i < |actions| ==>
               Proposed(ListLimit(NewReader(maxReadSize, maxHeaderListSize)), actions[i])
    ensures Huffman.WellFormed(StaticTable.Tables().code)
    ensures AllArrive(StaticTable.Tables(), Hpack.NewEnc(), NewReader(maxReadSize, maxHeaderListSize), actions,
                      maxFrameSize)
  {
    hide Hpack.Proper, InStep, Proposed, AllArrive, Huffman.WellFormed, StaticTable.Tables, ListLimit;
    var c, r := StaticTable.Tables(), NewReader(maxReadSize, maxHeaderListSize);
    StaticTable.TablesProper();
    ProperFormed(c);
    ConnectionStarts(c, maxReadSize, maxHeaderListSize);
    ConnectionRoundTrip(c, Hpack.NewEnc(), r, actions, maxFrameSize);
  }
}
