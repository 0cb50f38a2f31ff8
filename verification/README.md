# HTTP/2 transport: a verified model

This project models the hard core of the `h2` package — an HTTP/2 transport with its own outbound
scheduler, flow control, framer and HPACK coder — and proves what its documentation and tests rely on,
for all inputs, all runs and all interleavings.

* **HPACK** (`h2/hpack`). `VarInt`, `Huffman`, `HuffmanCoder`, `HuffmanTree`, `HuffmanCode` (the concrete
  code), `HeaderTable`, `DynamicTable`, `HpackString`, `Hpack` (encoder and decoder as functions),
  `HpackEncoder` and `HpackDecoder` (the objects), `StaticTable`. The theorems are in `HpackAgreement`
  (both ends stay in step), `HpackLimits` (the peer's limits are kept and announced), `HpackFormat` (which
  representation is written, and what the decoder refuses and bounds), `HpackCut` (input may be cut anywhere)
  and `HpackTruncation` (emission may be switched off anywhere).
* **Outbound scheduler** (`loopyWriter`). `Loopy` holds one function per handler and processData;
  `OutStreams` and `LoopyWriter` are the linked list and the objects, each method proved against its
  function. `LoopyInvariant` is the scheduler invariant, `LoopyLedger` the accounts over whole runs and
  the order of the output, `LoopyOutput` the control frames, the streams that come and go and the end of the
  writer, `LoopyFairness` fairness and termination.
* **Flow control.** `FlowControl` holds the ledgers of the receiver with their 32-bit arithmetic,
  `FlowReceiver` the transport methods that use them. `FlowProtocol` joins the scheduler itself to the
  receiver by two first-in first-out links; `FlowSafety` proves the conservation laws and that nothing is
  refused, `FlowLiveness` that nothing gets stuck, and `FlowRest` that every schedule comes to rest.
  `WriteQuota` and `Bdp` are the quota of a writer and the bandwidth estimate.
* **Frames.** `Frames` (writers, parsers, order check), `FrameRoundTrip`, `FrameFormat` (the format in numbers,
  what is refused, and that what is accepted could have been written), `FrameWriter` and `FrameReader`
  (the framer's two halves as objects), `MetaHeaders` (splitting, merging, checks), `HeaderBlock` (the
  whole way of a header list, end to end), `HeaderLists` (exactly which lists come back) and `HeaderTables`
  (the end-to-end theorem for the tables in use).
* **Protocols around them.** `ControlBuffer` (producers, consumer, wake-up and throttle channels) and
  `GoAway` (graceful shutdown), as interleaved steps.

Where the code works by updating objects, the model has a class whose methods are proved equal to a
function on values; the theorems are about those functions. `dafny verify dfyconfig.toml` checks all of it.

## Conditions and findings

* A control item refers to a stream number that is registered once (odd numbers, `Legal`, `FreshId`), and
  data items are those of the `Write` path (`end == 0`).
* Go visits a map in any order; the order in which `applySettings` visits the streams is a parameter.
* `sendQuota` is a 32-bit number that the code adds to without a check (h2/controlbuf.go:590-592). The
  account of the connection balances if and only if no increment of the run met a quota that it overflows
  (`Conservation`); `FlowSafety` shows that this receiver sends no such increment.
* `maybeAdjust` overwrites an extra window that is still outstanding (h2/flowcontrol.go:178-188). It keeps
  the receiver's account if and only if none was outstanding or it grants nothing (`AdjustKeeps`);
  `AdjustTwice` shows two adjustments after which legal data is refused.
* `maybeAdjust` keeps limit and extra window together within 2^31-1 (`AdjustCap`), but a later rise of the
  limit does not look at the extra window: `RaisePastCap` gets to 2^31-1 + 34465. The sender's window is
  within the 2^31-1 of section 6.9.1 of RFC 7540 whenever limit + extra are, and once everything is back
  with the sender in no other case (`WindowBound`).
* The order check does not know PUSH_PROMISE (h2/frame/frame.go:578-585): one without END_HEADERS may be
  followed by anything but its own CONTINUATION. `ContiguousExactly` says exactly when an accepted
  sequence has contiguous header blocks, `SequenceExactly` exactly which written sequences are accepted,
  and `OpenPromiseRefused` that an open PUSH_PROMISE with its CONTINUATION never is; section 6.6 of RFC 7540
  allows that pair. `OpenPromiseExample` reads both as octets.
* A reader refuses one thing that a writer accepts: SETTINGS whose first initial window is beyond 2^31-1
  (`ReadWrite`, with `WindowRefused` at 2^31).
* `Write` takes quota for `hdr` and `data` but queues only `data` (h2/h2_connection_server.go:784-796).
  Quota and unsent data make up 65536 less the `hdr` octets of the calls that have taken their quota, so
  exactly 65536 if and only if none of those calls had an `hdr` (`WriteQuotaSafe`); `HeadersLose` is a call
  that loses five octets.
* A server starts with a connection limit of 131070 and an estimate of 65535, so a first update may lower
  the limit and its increment wraps (`ServerWraps`, a run). In every run of a server only the first increment
  can be illegal, and is so if and only if it sets a limit of at most 131070 (`ServerBound`).
* An encoder that shrinks and then grows its table emits two size records, and the decoder refuses the
  second unless its table is empty by then (`DoubleUpdate`, an equivalence, and `DoubleUpdateExample`, two
  blocks of a new connection).
* A limit that takes the encoder's table down is forgotten if the program then sets a size: the decoder is told of
  the last size only, and keeps entries that the encoder has evicted (`LimitForgotten`). Without calls of
  `SetMaxDynamicTableSize`, which the transport does not make, every limit is announced (`BlockSaysLimit`).
* The reader accepts a PUSH_PROMISE that promises stream 0, which no writer writes (`AcceptedIsWritable`).
* With a string limit the incremental decoder refuses an incomplete representation of more than
  2 * (limit + 8) octets (h2/hpack/hpack.go:263-273). `CutExactly` is the equivalence for every input: no
  cut changes the outcome if and only if at each representation no cut is refused, or being refused there is
  the outcome anyway. For input that is accepted whole this is a bound on lengths, 2 * (limit + 8) + 1
  (`ShortExactly`). `CutMatters` gives a literal of 275 octets that is accepted whole and refused when cut,
  and `BlockShort` shows that the encoder's output is never affected.
* Two increments of 2^31-1 overflow the quota of a new connection (`QuotaOverflows`).

## Model
| member | source | states |
|---|---|---|
| VarInt.RoundTrip | h2/hpack/encode.go:195-210 | reading an encoded integer gives it back with the rest of the input, for every prefix length and flag, exactly when it is below 2^63 plus the prefix limit; larger ones are reported as overflow |
| VarInt.AppendVarInt | h2/hpack/encode.go:195-210 | the loop appends the encoding |
| VarInt.ReadVarInt | h2/hpack/hpack.go:429-460 | the loop returns the value, needs more input, or reports overflow, as the specification reads it |
| VarInt.ReadRange | h2/hpack/hpack.go:429-460 | what is read is below 2^63 + 255, so the 64-bit accumulator does not wrap |
| VarInt.ReadExtend | h2/hpack/hpack.go:429-460 | input that follows a finished integer does not change it |
| VarInt.Format | h2/hpack/encode.go:195-210 | the format of section 5.1 of RFC 7541: prefix, or all ones and groups of seven bits, least significant first |
| Huffman.DecodeEncode | h2/hpack/huffman.go:49-106 | for every good code, decoding the encoding of any octet string returns it |
| Huffman.EncodeDecode | h2/hpack/huffman.go:49-106 | any input that is accepted is exactly the encoding of its output |
| HuffmanCoder.AppendByte | h2/hpack/huffman.go:207-233 | appending a code word bit by bit into the last octet extends the bit string by that word |
| HuffmanCoder.AppendHuffmanString | h2/hpack/huffman.go:171-191 | the loop with its padding appends the encoding of the string |
| HuffmanCoder.HuffmanEncodeLength | h2/hpack/huffman.go:195-201 | the result is the length of the encoding |
| HuffmanTree.Build | h2/hpack/huffman.go:138-167 | the tree holds every code word of a good code, and only those |
| HuffmanTree.FillLeaves | h2/hpack/huffman.go:158-165 | the loop enters the leaf at every octet that starts with the last bits of the word, and at no other |
| HuffmanTree.AddSymbol | h2/hpack/huffman.go:146-166 | a word is entered at all slots it covers, and no word entered before is lost |
| HuffmanTree.HuffmanDecode | h2/hpack/huffman.go:49-106 | the octet-stride decoder, with counters that fit their eight bits, agrees with bit-by-bit decoding, errors and length limit included |
| HuffmanCode.HpackCodeGood | h2/hpack/tables.go:203-480 | the concrete tables are prefix-free, have words of 5 to 30 bits and no all-ones word that padding could be |
| HuffmanCode.Canonical | h2/hpack/tables.go:203-480 | of two symbols with words of one length the smaller has the smaller word |
| HeaderTable.HeaderFieldTable.AddEntry | h2/hpack/tables.go:56-61 | the entry is appended and both indexes point to the newest match again |
| HeaderTable.HeaderFieldTable.EvictOldest | h2/hpack/tables.go:64-87 | the oldest n entries go, and both indexes stay exact |
| HeaderTable.HeaderFieldTable.Search | h2/hpack/tables.go:103-113 | search returns what a newest-first linear scan finds: name and value, else name, else 0 |
| HeaderTable.HeaderFieldTable.IdToIndex | h2/hpack/tables.go:117-126 | the HPACK index of an entry, counted from the newest in a dynamic table |
| DynamicTable.AddLongest | h2/hpack/hpack.go:173-187 | after an addition the table is the longest newest run of entries within the maximum, and size is its exact sum |
| DynamicTable.SetMaxLongest | h2/hpack/hpack.go:168-187 | the same after a change of the maximum |
| DynamicTable.Table.AddField | h2/hpack/hpack.go:173-187 | the object follows the table of values, index included |
| DynamicTable.Table.SetMax | h2/hpack/hpack.go:168-171 | the object follows the table of values, index included |
| HpackString.StringRoundTrip | h2/hpack/hpack.go:470-504 | reading an encoded string within the limit returns it, or skips it when it is not wanted |
| HpackString.StringForm | h2/hpack/encode.go:213-229 | the top bit is set, and the string coded, if and only if that is shorter; the length is that of what follows |
| HpackString.LongRefused | h2/hpack/hpack.go:470-504 | a length beyond the limit is refused before the string is read |
| HpackString.AppendString | h2/hpack/encode.go:213-229 | Huffman coding is used exactly when it is shorter |
| HpackAgreement.SearchAt | h2/hpack/encode.go:91-103 | the index that searchTable returns is one where Decoder.at finds the field, or its name |
| HpackAgreement.FieldStep | h2/hpack/encode.go:50-82 | one WriteField makes the decoder receive that field, Sensitive included, and brings the tables to agreement |
| HpackAgreement.BlockStep | h2/hpack/encode.go:50-132 | a whole block: exactly its fields reach the callback in order until it switches emission off, and the tables agree either way |
| HpackAgreement.SessionAgrees | h2/hpack/hpack.go:235-417 | any sequence of blocks and limit changes decodes to exactly the fields sent, with equal tables after each block that has fields |
| HpackLimits.LimitsKept | h2/hpack/encode.go:126-132 | after every session of a new connection the encoder's table size is the smallest limit set, or 4096, and after a block with fields the decoder's is the same |
| HpackLimits.BlockSaysLimit | h2/hpack/encode.go:53-60 | in every session a block with fields starts with a size record if and only if a limit since the last such block is below all before it, and the record says the smallest |
| HpackLimits.ChangesTold | h2/hpack/encode.go:108-132 | whatever limits and sizes are set between two blocks: the size is the last one within the limits, and the records are the smallest size the program set, if smaller, and the last one |
| HpackLimits.NewChanges | h2/hpack/encode.go:35-45 | a new encoder starts with a size and a limit of 4096 |
| HpackLimits.LimitForgotten | h2/hpack/encode.go:126-132 | a limit taken back by a size leaves no record although it evicted entries |
| HpackFormat.SearchExactly | h2/hpack/encode.go:91-103 | a pair is found if and only if a table has it and the field is not sensitive, a name if and only if a table has it; the static table goes first |
| HpackFormat.FieldForm | h2/hpack/encode.go:62-82 | the first octet says which representation: indexed if and only if a table holds the field, never indexed if and only if it is sensitive, with indexing if and only if it fits, and then alone the table changes |
| HpackFormat.Reuse | h2/hpack/encode.go:50-82 | a field that fits the table is a single index the next time |
| HpackFormat.NewestFirst | h2/hpack/hpack.go:196-212 | the newest entry has the first index after the static table, and exactly the indexes of both tables are valid |
| HpackFormat.BadIndex | h2/hpack/hpack.go:338-384 | an index of 0 or beyond the tables is an error, for a field and for a name |
| HpackFormat.TooLarge | h2/hpack/hpack.go:399-417 | a size record above what the decoder allows is an error |
| HpackFormat.TruncatedField | h2/hpack/hpack.go:235-241 | a block that ends anywhere inside a field is an error |
| HpackFormat.WriteBounds | h2/hpack/hpack.go:244-282 | whatever the input, the table stays within the allowed size and no string beyond the limit is emitted |
| HpackAgreement.DoubleUpdate | h2/hpack/hpack.go:399-417 | two size records in a row are accepted if and only if the table is empty after the first |
| HpackAgreement.DoubleUpdateExample | h2/hpack/encode.go:53-60 | on a new connection: after a block with one indexed field, any shrink that still holds it and any growth, the decoder refuses the next block with a size-update error, whatever its field |
| StaticTable.HpackAgrees | h2/hpack/tables.go:130-201 | the agreement theorem, equal tables included, for the static table and Huffman code in use, from the start of a connection |
| StaticTable.NewStaticTable | h2/hpack/tables.go:130-201 | the static table object holds the 61 entries |
| HpackCut.CutIndependence | h2/hpack/hpack.go:244-282 | feeding input in any pieces, also in the middle of a block, gives the same fields, error and final state as feeding it whole: always without a string limit, and under one when the input is cuttable |
| HpackCut.CutExactly | h2/hpack/hpack.go:244-282 | for every input: no way of cutting it changes the outcome if and only if there is no limit or the input is cuttable |
| HpackCut.ShortExactly | h2/hpack/hpack.go:263-273 | under a limit, input that is accepted whole has the same outcome however it is cut if and only if its representations are at most 2 * (limit + 8) + 1 octets long |
| HpackCut.CutMatters | h2/hpack/hpack.go:263-273 | a literal of 275 octets with overlong length integers is accepted whole under a limit of 127 and refused when cut before its last octet |
| HpackTruncation.Truncation | h2/hpack/hpack.go:353-396 | a block that decodes cleanly leaves the same table wherever emission is switched off, and the fields emitted are its leading ones |
| HpackEncoder.Encoder.WriteField | h2/hpack/encode.go:50-82 | the object writes the octets and reaches the state that the function says |
| HpackEncoder.Encoder.Search | h2/hpack/encode.go:91-103 | the static match is preferred unless only the dynamic table matches better |
| HpackEncoder.Encoder.SetMaxDynamicTableSizeLimit | h2/hpack/encode.go:126-132 | a lower limit shrinks the table and schedules a size record |
| HpackEncoder.Encoder.SetMaxDynamicTableSize | h2/hpack/encode.go:108-117 | the size is capped by the limit and the smallest size since the last record is remembered |
| HpackDecoder.Decoder.Write | h2/hpack/hpack.go:244-282 | the loop consumes representations and saves an incomplete one, as the function says |
| HpackDecoder.Decoder.Close | h2/hpack/hpack.go:235-241 | a saved rest is an error; otherwise the next field is a first one |
| HpackDecoder.Decoder.At | h2/hpack/hpack.go:196-212 | static, dynamic and invalid indexes |
| HpackDecoder.Decoder.ParseHeaderFieldRepr | h2/hpack/hpack.go:304-417 | one representation is consumed whole, not at all, or is an error |
| HpackDecoder.Decoder.ParseFieldIndexed | h2/hpack/hpack.go:338-350 | an indexed field is emitted, or the index is invalid |
| HpackDecoder.Decoder.ParseFieldLiteral | h2/hpack/hpack.go:353-384 | a literal is read, entered in the table if it is to be indexed, and emitted |
| HpackDecoder.Decoder.ParseDynamicTableSizeUpdate | h2/hpack/hpack.go:399-417 | a size record is accepted first in a block, or on an empty table, up to the allowed maximum |
| HpackDecoder.Decoder.CallEmit | h2/hpack/hpack.go:386-396 | over-long strings are an error, and the callback is called only while emission is on |
| OutStreams.OutStreamList.Enqueue | h2/controlbuf.go:258-264 | relinking at the tail appends to the list, and the links stay those of a list without repetition |
| OutStreams.OutStreamList.Dequeue | h2/controlbuf.go:267-274 | the first node is taken out, or null for an empty list |
| OutStreams.OutStreamList.Delete | h2/controlbuf.go:226-234 | deleteSelf removes a node from wherever it is, and does nothing to a node that is in no list |
| LoopyWriter.Writer.IncomingWindowUpdate | h2/controlbuf.go:588-604 | the objects follow the function: connection quota, or the debt of a stream, which wakes up when it has window again |
| LoopyWriter.Writer.RegisterStream | h2/controlbuf.go:617-626 | an empty stream is established |
| LoopyWriter.Writer.HandleHeaders | h2/controlbuf.go:629-675 | headers are written, trailers wait behind data or end the stream, new streams are established |
| LoopyWriter.Writer.PreprocessData | h2/controlbuf.go:724-737 | data is queued and an empty stream becomes active |
| LoopyWriter.Writer.CleanupStream | h2/controlbuf.go:752-770 | the stream leaves map and list wherever it is, RST_STREAM goes out if asked for, a draining client ends with its last stream |
| LoopyWriter.Writer.IncomingGoAwayFrame | h2/controlbuf.go:772-780 | a client drains, and ends when it has no stream |
| LoopyWriter.Writer.ApplySettingsOf | h2/controlbuf.go:826-846 | settings in order; a larger initial window wakes every waiting stream |
| LoopyWriter.Writer.HandleGoAway | h2/controlbuf.go:782-793 | only a server has a handler; its answer decides about draining and the end |
| LoopyWriter.Writer.HandleCommand | h2/controlbuf.go:795-824 | every control item does what its function says and keeps the invariant; an outgoing frame that the framer refuses ends the writer |
| LoopyWriter.Writer.ProcessOne | h2/controlbuf.go:854-986 | processData on the linked objects is the function, reports an empty round exactly when there is nothing to do, and keeps the invariant |
| LoopyWriter.Writer.DrainAll | h2/controlbuf.go:531-580 | the writer's loop without control items terminates, with nothing left to do |
| LoopyInvariant.HandleOk | h2/controlbuf.go:588-846 | every control item keeps: listed once iff established and active, empty iff nothing queued, waiting only without window, queues start with data |
| LoopyInvariant.ProcessDataOk | h2/controlbuf.go:854-986 | so does processData, and its type assertion never fails |
| LoopyInvariant.RunOk | h2/controlbuf.go:524-580 | the invariant holds after every run |
| LoopyLedger.HandleAccounts | h2/controlbuf.go:588-846 | every control item keeps the accounts of connection and streams and the order of their output |
| LoopyLedger.ProcessAccounts | h2/controlbuf.go:854-986 | so does processData |
| LoopyLedger.Conservation | h2/controlbuf.go:459-986 | every run: DATA octets plus quota are 65535 plus increments if and only if no increment of the run overflowed the quota it met, and differ by 2^32 for each that did; outstanding is sent minus granted; the output (octets, END_STREAM marks, completions, trailers) followed by the queue is exactly what was asked for, in order |
| LoopyOutput.OutputExactly | h2/controlbuf.go:588-846 | every run: the control frames on the wire are exactly those that the items call for, in order and with their content: HEADERS without END_STREAM for streams that are established or opened, table sizes and the acknowledgement of settings, outgoing frames, GOAWAY and the quota |
| LoopyOutput.StreamsExactly | h2/controlbuf.go:617-770 | every run: which streams are established follows registrations, openings, cleanups and trailers, and the resets of each stream are those that its cleanups and trailers ask for, in order |
| LoopyOutput.WriterEnds | h2/controlbuf.go:531-586 | every run: the writer ends exactly at an opening on a closing connection, the last stream of a draining client, a refused frame or a GOAWAY handler's error, and never in processData |
| LoopyOutput.SetExactly | h2/controlbuf.go:772-846 | every run: draining and the initial window are what the items said last |
| LoopyOutput.WakesExactly | h2/controlbuf.go:588-604 | an increment wakes its stream if and only if it waits and then has window |
| LoopyOutput.WindowWakes | h2/controlbuf.go:826-846 | a larger initial window, and no other, wakes the waiting streams in the order visited |
| LoopyOutput.RefusedByFramer | h2/frame/frame.go:1047-1055 | the window updates that end the writer are those that the framer does not write |
| LoopyOutput.SettingsRefused | h2/frame/frame.go:881-891 | the settings that end the writer are those that do not fit a frame |
| LoopyLedger.QuotaOverflows | h2/controlbuf.go:590-592 | a run of two increments of 2^31-1 leaves a quota of 65533 and one counted overflow |
| LoopyLedger.FrameLimits | h2/controlbuf.go:902-923 | a DATA frame is at most the frame size, the stream window and the connection quota at that moment, even after a window went negative |
| LoopyFairness.Fairness | h2/controlbuf.go:258-274 | a stream at position k is served by the (k+1)-th processData while there is quota, whatever control items intervene |
| LoopyFairness.Turn | h2/controlbuf.go:854-986 | being served means sending some of the first item, unless the stream has no window |
| LoopyFairness.TurnFull | h2/controlbuf.go:902-985 | a turn sends all of the item, or up to the frame size, the window or the quota; a stream with something left goes to the end of the list unless it has used up its window |
| LoopyFairness.Progress | h2/controlbuf.go:854-986 | every call that finds something to do lowers queued octets + items + listed streams |
| LoopyFairness.DrainBound | h2/controlbuf.go:531-580 | that measure bounds the number of calls until there is nothing to do |
| LoopyFairness.NoStrandedStream | h2/controlbuf.go:854-986 | when the writer stops with quota left, a stream with data has no window |
| FlowControl.InFlow.OnData | h2/flowcontrol.go:194-205 | the 32-bit ledger counts data and compares with the grant |
| FlowControl.InFlow.OnRead | h2/flowcontrol.go:209-232 | the 32-bit ledger uses up the extra window first and updates from a quarter of the limit on |
| FlowControl.InFlow.MaybeAdjust | h2/flowcontrol.go:162-191 | signed comparison and cap of the extra window |
| FlowControl.InFlow.NewLimit | h2/flowcontrol.go:156-160 | only the limit changes |
| FlowControl.TrInFlow.OnData | h2/flowcontrol.go:105-115 | the connection acknowledges from a quarter of its limit on |
| FlowControl.TrInFlow.NewLimit | h2/flowcontrol.go:98-103 | the increment is the difference of the limits as a 32-bit word |
| FlowControl.TrInFlow.Reset | h2/flowcontrol.go:117-122 | everything received is acknowledged at once |
| FlowControl.DataAccepted | h2/flowcontrol.go:194-205 | data of any size is accepted if and only if what is unaccounted for, as the 32-bit word that the code computes, is within limit and extra window; while the sum fits a word (`DataRefused`) that is within limit and grants |
| FlowControl.ReadExactly | h2/flowcontrol.go:209-232 | a read uses up the extra window first; an update is at least a quarter of the limit or above 64 KiB, and less than that is held back |
| FlowControl.ReadPieces | h2/flowcontrol.go:209-232 | however octets are read, the extra window used and the amount returned or held back depend on their number alone |
| FlowControl.CountExactly | h2/flowcontrol.go:105-115 | the connection acknowledges at least a quarter of its limit or nothing, and loses nothing |
| FlowControl.ReadKeeps | h2/flowcontrol.go:209-232 | reading what is pending keeps the receiver's account, without overflow |
| FlowControl.PaddedKeeps | h2/h2_connection.go:775-784 | a padded frame within the grants is accepted and keeps the account |
| FlowControl.AdjustKeeps | h2/flowcontrol.go:162-191 | an adjustment keeps the account if and only if no extra window is outstanding or none is granted |
| FlowControl.AdjustExactly | h2/flowcontrol.go:162-191 | an extra window is granted if and only if the read wants more than the limit less what is held back, and then limit and extra are the limit and the read, at most 2^31-1 |
| FlowControl.AdjustCovers | h2/flowcontrol.go:162-191 | so a read is covered, and nothing is granted without need |
| FlowControl.AdjustCap | h2/flowcontrol.go:178-188 | an adjustment leaves limit and extra window together within 2^31-1 |
| FlowControl.RaisePastCap | h2/flowcontrol.go:156-160 | an adjustment and a rise of the limit that leave that bound |
| FlowControl.AdjustTwice | h2/flowcontrol.go:178-188 | two adjustments in a row after which data within the grants is refused |
| FlowProtocol.DataOutcome | h2/h2_connection.go:734-808 | data is refused, and its stream dropped, if and only if it is beyond the grants; otherwise padding counts as read, the rest waits, and the account is kept |
| FlowProtocol.DataElsewhere | h2/h2_connection.go:734-808 | data of an unknown or read-closed stream counts on the connection alone |
| FlowProtocol.CountReturns | h2/h2_connection.go:734-760 | a probe returns everything received to the connection |
| FlowProtocol.RaiseTells | h2/h2_connection.go:713-732 | the connection's difference and then the new initial window are sent, and every stream has the new limit |
| FlowReceiver.Transport.NewStream | h2/h2_connection_server.go:288 | a new stream gets the current initial window |
| FlowReceiver.Transport.HandleData | h2/h2_connection.go:734-808 | the ledgers of connection and stream and the messages to the peer follow the function: unknown streams, streams closed for reading, refused data, and padding that counts as read |
| FlowReceiver.Transport.UpdateWindow | h2/h2_connection.go:700-704 | reading sends an update when one is due |
| FlowReceiver.Transport.AdjustWindow | h2/h2_connection.go:691-695 | an extra window is granted to the peer |
| FlowReceiver.Transport.UpdateFlowControl | h2/h2_connection.go:713-732 | every stream and the connection get the new limit, and both messages go out |
| FlowSender.ProcessCovered | h2/controlbuf.go:902-985 | no stream, established or gone, is ever sent more than its initial window and grants |
| FlowSafety.MoveKeeps | h2/h2_connection.go:691-808 | every send, delivery, read, adjustment, opening, closing and raise keeps the invariant of the two ends |
| FlowProtocol.StreamLaw | h2/flowcontrol.go:134-232 | sender window + DATA in flight + pendingData + pendingUpdate + updates in flight + unapplied settings = limit + delta, and the window is never negative |
| FlowProtocol.WindowBound | h2/flowcontrol.go:178-188 | the sender's window is at most 2^31-1 while limit + delta is, and with everything back at the sender only then |
| FlowProtocol.ConnLaw | h2/flowcontrol.go:92-126 | quota + DATA in flight + unacked + updates in flight = limit |
| FlowSafety.AskCovers | h2/flowcontrol.go:162-191 | after the application asked for n octets, the sender's window and what is in flight, unread or on its way back cover them |
| FlowSafety.NoWrap | h2/controlbuf.go:588-592 | an increment from this receiver never overflows the sender's quota |
| FlowSafety.NeverRefused | h2/controlbuf.go:588-985 | in every interleaving both laws hold and no data is refused |
| FlowLiveness.WindowReturns | h2/flowcontrol.go:209-232 | once everything sent has arrived and been read, more than three quarters of each window are back with the sender |
| FlowLiveness.UpdatesLegal | h2/frame/frame.go:1047-1055 | in every run each window update on its way, of a stream or the connection, has an increment in 1..2^31-1, so the framer writes it |
| FlowLiveness.NothingStuck | h2/controlbuf.go:854-986 | in every run that comes to rest, no stream open at both ends has anything left to send: flow control does not deadlock |
| FlowRest.MoveLowers | h2/controlbuf.go:854-986 | every delivery, read and non-empty call of processData, in whatever order, lowers a lexicographic measure of what is left to do |
| FlowRest.RestExactly | h2/controlbuf.go:854-986 | the system is at rest if and only if none of these moves is left |
| FlowRest.EverySchedule | h2/controlbuf.go:531-580 | every schedule that goes on with such moves while there are any comes to rest, and then everything is sent |
| FlowRest.EverythingSent | h2/controlbuf.go:531-580 | every run of the two ends can be continued to rest by finitely many such moves, and then no stream open at both ends has anything left to send |
| Bdp.Estimator.AddOctets | h2/bdp_estimator.go:85-100 | the sample accumulates and a probe starts a new one |
| Bdp.Estimator.Acked | h2/bdp_estimator.go:105-141 | the estimate becomes twice the sample, capped, under the two conditions |
| Bdp.WindowExactly | h2/bdp_estimator.go:85-141 | every run: the window changes if and only if an acknowledgement finds the octets since the one before at 0.66 of the estimate or more, at the highest bandwidth and below 16 MiB; it becomes twice those octets, at most 16 MiB; a probe goes out if and only if no measurement is going on |
| Bdp.UpdateRaises | h2/bdp_estimator.go:105-141 | an update raises the estimate strictly, by at least 32 percent unless capped, and never beyond 16 MiB |
| Bdp.BdpBound | h2/bdp_estimator.go:85-141 | a client makes at most twenty updates in any run, each with a legal increment, and its limit equals the estimate |
| Bdp.ServerBound | h2/h2_connection_server.go:179-202 | a server makes at most twenty; after the first its limit equals the estimate, and only the first increment can be illegal, if and only if it sets a limit of at most 131070 |
| Bdp.IncrementLegal | h2/flowcontrol.go:98-103 | the increment of a new limit is legal if and only if the limit rises |
| Bdp.ServerWraps | h2/h2_connection_server.go:113 | a run of a server whose first increment wraps to 4294936226 |
| Bdp.UnackedBound | h2/flowcontrol.go:105-115 | after data less than a quarter is unacknowledged, if and only if the limit is at least four |
| WriteQuota.WriteQuotaSafe | h2/flowcontrol.go:46-90 | in every interleaving: quota + unsent is 65536 less the header parts of the calls that have taken their quota, so 65536 iff all of those were empty; the quota stays above minus the largest write; a waiting writer with quota has a token present or coming |
| WriteQuota.TokenDue | h2/flowcontrol.go:78-90 | a token is sent if and only if the addition makes the quota positive |
| WriteQuota.Quota.TryConsume | h2/flowcontrol.go:58-76 | one round of the writer's loop: a positive quota is consumed, and may become negative |
| WriteQuota.Quota.RealReplenish | h2/flowcontrol.go:78-90 | the quota grows, and a token is due exactly when this addition made it positive |
| WriteQuota.HeaderLaw | h2/h2_connection_server.go:768-804 | over any run, what is lost and what the unpaid call will lose are exactly the header parts of the calls |
| WriteQuota.LostIs | h2/h2_connection_server.go:784-796 | what is lost are the header parts of the calls that have taken their quota |
| WriteQuota.HeadersLose | h2/h2_connection_server.go:784-796 | a write with a header part loses quota |
| FrameRoundTrip.ReadWrite | h2/frame/frame.go:498-540 | each of the Write functions, padding and priority included, is undone by the reader, which leaves the rest of the input; only an initial window beyond 2^31-1 is refused |
| FrameRoundTrip.SettingsBack | h2/frame/frame.go:769-903 | the settings read are those written |
| FrameRoundTrip.SequenceRoundTrip | h2/frame/frame.go:554-588 | any contiguous sequence of frames written back to back is read back frame for frame |
| FrameRoundTrip.SequenceExactly | h2/frame/frame.go:554-588 | a written sequence is read without error if and only if it is contiguous, and any other ends in a protocol error |
| FrameRoundTrip.OpenPromiseRefused | h2/frame/frame.go:554-588 | every PUSH_PROMISE without END_HEADERS followed by its CONTINUATION is refused, whatever surrounds them |
| FrameRoundTrip.WindowRefused | h2/frame/frame.go:795-803 | SETTINGS with an initial window of 2^31 are written and refused |
| FrameRoundTrip.AcceptedOrder | h2/frame/frame.go:554-588 | whatever is read, an open HEADERS block is followed by CONTINUATION of its stream and nothing else, and CONTINUATION comes nowhere else |
| FrameRoundTrip.ContiguousExactly | h2/frame/frame.go:578-585 | accepted blocks are contiguous if and only if no PUSH_PROMISE leaves its block open before another frame |
| FrameRoundTrip.OpenPromiseExample | h2/frame/frame.go:578-585 | as octets written and read: an open PUSH_PROMISE followed by PING is accepted, and followed by its CONTINUATION refused |
| FrameFormat.HeaderNumbers | h2/frame/frame.go:353-387 | length, type, flags and stream of every frame written, as numbers |
| FrameFormat.PayloadNumbers | h2/frame/frame.go:978-1468 | where the numbers of RST_STREAM, WINDOW_UPDATE, GOAWAY, PRIORITY and PUSH_PROMISE are in their payloads, with reserved bits clear |
| FrameFormat.WrittenExactly | h2/frame/frame.go:678-1479 | a frame is written unless its numbers, padding or increment are illegal or its payload has 2^24 octets or more |
| FrameFormat.Misplaced | h2/frame/frame.go:611-1340 | a frame on the wrong kind of stream is a PROTOCOL_ERROR and one of the wrong length a FRAME_SIZE_ERROR of the connection |
| FrameFormat.EmptyUpdate | h2/frame/frame.go:1017-1044 | a zero increment is an error of its stream, or of the connection |
| FrameFormat.TooMuchPadding | h2/frame/frame.go:611-644 | padding beyond the payload is an error of the connection, for HEADERS of the stream |
| FrameFormat.CutShort | h2/frame/frame.go:1088-1136 | a payload that ends before what its flags announce is an unexpected end |
| FrameFormat.TooLongOrShort | h2/frame/frame.go:498-525 | a frame longer than the reader allows is refused, and input that ends inside a frame is an unexpected end |
| FrameFormat.WindowError | h2/frame/frame.go:795-803 | an initial window that is too big is a FLOW_CONTROL_ERROR |
| FrameFormat.FirstWindow | h2/frame/frame.go:795-803 | the initial window that is checked is the first one among the settings |
| FrameFormat.GoesOn | h2/frame/frame.go:498-540 | behind a complete frame, refused or not, reading goes on with the next |
| FrameFormat.AcceptedIsWritable | h2/frame/frame.go:498-540 | whatever the parsers accept is the content of a request that the writer accepts, on the same stream and with the same flags, except a PUSH_PROMISE of stream 0 |
| FrameWriter.Writer.StartWrite | h2/frame/frame.go:353-365 | the frame header with its length still open |
| FrameWriter.Writer.EndWrite | h2/frame/frame.go:353-387 | the length is patched in, or the frame is refused as too large |
| FrameWriter.Writer.WriteDataPadded | h2/frame/frame.go:678-713 | checks, flags and octets of DATA |
| FrameWriter.Writer.WriteHeadersFrame | h2/frame/frame.go:1165-1203 | checks, flags and octets of HEADERS |
| FrameWriter.Writer.WritePriorityFrame | h2/frame/frame.go:1258-1276 | checks and octets of PRIORITY |
| FrameWriter.Writer.WriteRstStream | h2/frame/frame.go:1301-1311 | checks and octets of RST_STREAM |
| FrameWriter.Writer.WriteSettingsFrame | h2/frame/frame.go:881-891 | octets of SETTINGS |
| FrameWriter.Writer.WriteSettingsAckFrame | h2/frame/frame.go:897-903 | octets of the acknowledgement |
| FrameWriter.Writer.WritePushPromiseFrame | h2/frame/frame.go:1443-1468 | checks, flags and octets of PUSH_PROMISE |
| FrameWriter.Writer.WritePingFrame | h2/frame/frame.go:930-941 | octets of PING |
| FrameWriter.Writer.WriteGoAwayFrame | h2/frame/frame.go:978-987 | octets of GOAWAY |
| FrameWriter.Writer.WriteWindowUpdateFrame | h2/frame/frame.go:1047-1058 | checks and octets of WINDOW_UPDATE |
| FrameWriter.Writer.WriteContinuationFrame | h2/frame/frame.go:1341-1355 | checks, flags and octets of CONTINUATION |
| FrameWriter.Writer.WriteRawFrame | h2/frame/frame.go:1472-1479 | octets of a raw frame |
| FrameWriter.Writer.WriteBlock | h2/controlbuf.go:689-719 | the loop writes exactly the frames of the split block |
| FrameWriter.WriteHeader | h2/controlbuf.go:677-719 | a list goes through the encoder and its block into frames |
| FrameReader.Framer.CheckFrameOrder | h2/frame/frame.go:554-588 | the object keeps track of the open block as the function says |
| FrameReader.Framer.NextFrame | h2/frame/frame.go:498-540 | one frame is read, parsed and order-checked, and the input advances past it even when it is refused |
| FrameReader.Framer.OnlyContinuations | h2/frame/frame.go:1662-1677 | the type assertion in the merge never fails |
| FrameReader.Framer.MergeHeaders | h2/frame/frame.go:1611-1700 | the merge, the decoder and the checks follow the function |
| FrameReader.Framer.ReadNext | h2/frame/frame.go:498-540 | ReadFrame with merging of header blocks |
| MetaHeaders.CheckPseudos | h2/frame/frame.go:1571-1596 | by their octets: the leading pseudo-header fields are of the five of a request or are `:status`, and none is repeated |
| HeaderBlock.SplitShape | h2/controlbuf.go:689-719 | only the first frame is HEADERS and may end the stream, only the last ends the headers, each holds its piece of at most the frame size |
| HeaderBlock.SplitContiguous | h2/controlbuf.go:689-719 | the frames of a block form one contiguous header block that is closed at its end |
| HeaderBlock.BlockShort | h2/hpack/hpack.go:263-273 | the encoder's representations are never mistaken for suspiciously long ones |
| HeaderBlock.HeaderListRead | h2/frame/frame.go:1611-1700 | a header list, encoded, split at any frame size, framed, order-checked and merged, is decoded to exactly its fields and judged; both ends stay in step and what follows is untouched |
| HeaderBlock.HeaderListRoundTrip | h2/frame/frame.go:1611-1700 | a list that passes the reader's checks comes back as the same list, with its END_STREAM |
| HeaderLists.ListExactly | h2/frame/frame.go:1611-1700 | for every list with strings within the limit, as octets written, split, read and merged: the longest prefix within the limit comes back if and only if it is legal by its octets (pseudo-header fields of one kind, none twice, then regular names) and what follows is in order; any other list is a stream error 1 |
| HeaderLists.UnknownIllegal | h2/frame/frame.go:1571-1582 | a leading pseudo-header name that is none of the six is not legal |
| HeaderLists.RequestLegal | h2/frame/frame.go:1571-1582 | the four fields of a request in any order, and then regular fields, are legal |
| HeaderLists.BadBlock | h2/frame/frame.go:1662-1683 | a block that HPACK cannot decode, or that ends inside a field, is a connection error 9 |
| HeaderBlock.VerdictPrefix | h2/frame/frame.go:1618-1659 | the verdict on a list: Fields is the longest prefix within MaxHeaderListSize, and Truncated holds iff something was dropped |
| HeaderBlock.AnyBlock | h2/frame/frame.go:1611-1700 | readMetaFrame on any HEADERS frame and any input, whoever sent it: if the block decodes cleanly with every field emitted, it consumes the same input and ends with the same table; a frame it returns has the longest prefix of the fields within MaxHeaderListSize, Truncated iff something was dropped |
| HeaderBlock.ConnectionRoundTrip | h2/controlbuf.go:677-719 | all header lists of a connection, with table size changes between them, arrive in order |
| HeaderTables.HeadersArrive | h2/controlbuf.go:677-719 | the same from the start of a connection, with the static table and Huffman code in use |
| ControlBuffer.ControlBufferSafe | h2/controlbuf.go:311-441 | in every interleaving: no consumer is blocked on items without a wake-up present or coming; the response count is exact and the throttle channel exists from fifty on; no channel is closed twice and none is open after finish |
| ControlBuffer.BufferOrder | h2/controlbuf.go:326-441 | in every interleaving: until the end what was taken and what is in the list is what was put, in order; after it what was taken is a prefix, and the headers among the rest are reported |
| ControlBuffer.GetAnswers | h2/controlbuf.go:377-405 | get returns the front item if and only if there is one before the end |
| ControlBuffer.SendFinds | h2/controlbuf.go:353-358 | the wake-up send always finds its channel empty, so no wake-up is dropped |
| ControlBuffer.Buffer.ExecuteAndPut | h2/controlbuf.go:326-352 | the critical section of a producer: nothing after the end or when the function argument fails, else the item is put |
| ControlBuffer.Buffer.TakeOrWait | h2/controlbuf.go:377-405 | the critical section of the consumer |
| ControlBuffer.Buffer.FinishAll | h2/controlbuf.go:413-441 | the list is drained, orphaned headers are told, the throttle channel is closed |
| GoAway.GoAwaySafe | h2/h2_connection_server.go:965-1034 | in every interleaving accepted numbers strictly increase, the final GOAWAY covers all accepted streams, GOAWAY numbers never increase and none follows the final one |
| GoAway.GoAwayExactly | h2/h2_connection_server.go:258-1034 | every run: a stream is accepted if and only if its list is whole, its number above all before, its headers good and the server neither closing nor full, and else reset with 6, 1 or 7 or dropped; a heads-up announces 2^31-1, the final GOAWAY the highest number seen, and the writer stops if and only if the connection is to close or no stream is open |
| GoAway.Server.OperateAcceptHeaders | h2/h2_connection_server.go:258-389 | which streams are accepted and which reset, and that one with a bad header, or refused, still moves the highest number |
| GoAway.Server.StartDrain | h2/h2_connection_server.go:965-973 | the first call queues one heads-up |
| GoAway.Server.OutgoingGoAway | h2/h2_connection_server.go:979-1034 | a closing server stops, a heads-up announces all numbers, the final one the highest seen |

## Left out
- Sockets, TLS, contexts, timers, keepalive, logging and write errors of the connection: input and output.
- The `start`/`end` send path (`SendRaw`, `WriteDataNC`): its half in the writer is commented out.
- Reverse streams with even numbers and trailers sent by clients: unfinished in `headerHandler`.
- Client handling of repeated GOAWAYs and client stream quota: branches that are not reached, and plumbing.
- Callbacks of control items (`onEachWrite`, errors of `initStream` other than draining and closing): a completed data item is an event on the wire.
- LoopyWriter.Writer.CleanupStream: `onWrite` is left out, because trailers leave it unset (h2/h2_connection_server.go:706-709) although it is called without a check (h2/controlbuf.go:753), so the code does not decide what happens there.
- LoopyWriter.Writer.HandleCommand: stream numbers outside 1..2^31-1, which the framer would refuse, are not refused, because the transport makes none; the time at which a ping is written is not recorded, because times are left out; what the server's GOAWAY handler writes is in module GoAway.
- Header mapping, metadata, status tables and `grpc-timeout`: would only add easy members.
- `AllowIllegalReads` and `AllowIllegalWrites`, which are for tests of other implementations.
- The panic on 2^64 evictions in `headerFieldTable.evictOldest`.
- itemList: its nodes are a sequence; the intrusive stream list is linked objects.
- The child links of the Huffman tree are entries under octet paths; update in place of a node is an update of that map.
- Blocking of `waitOrConsumeQuota` and `get` on the end of the connection, beyond its being a step.
- Bdp.Estimator.Acked: the comparison of bandwidths is a parameter and the factor 0.66 is exact, because times and floating-point rounding are left out.
- WriteQuota.WriteQuotaSafe: writes are below 2^31 octets, because the conversion to a signed word would wrap beyond.
- FlowSafety.NeverRefused: windows start at their defaults and limits only rise, because a configured window is advertised but not used for incoming streams (h2/h2_connection_server.go:109-121, h2/h2_connection.go:325-330); an extra window is asked for when none is outstanding.
- HeaderBlock.HeaderListRoundTrip: strings and fields have lengths below 2^32, because sizes are 32-bit numbers.
