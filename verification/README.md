# The wire-protocol engine of wsbuilder, modelled and proved

wsbuilder implements HTTP/2, HTTP/3's transport and header compression, WebSocket framing and a
few schedulers in plain Python. This project models those parts and proves what they are for.
All strings are sequences of octets, numbers are unbounded as in Python, times are exact, and the
network may lose, reorder and repeat whatever was sent.

Where the source changes things in place, a `class` or a loop stands for it and is proved equal to
a function of the old state; the laws are then proved about those functions, over whole runs.

| area | modules |
|---|---|
| Huffman code, prefixed integers, strings | `Huffman`, `HuffmanCoder`, `HuffmanTable`, `CanonicalCode`, `HpackInteger`, `StringLiteral` |
| HPACK (RFC 7541) | `Hpack` and `HpackTable` (specification, table), `HpackCodec` (the two peers), `HpackLockstep` (runs), `HpackTurnover` (when a block leaves the table alone), `HpackStatic` (the standard tables) |
| QPACK (RFC 9204) | `Qpack`, `QpackTable`, `QpackCodec`, `QpackRoundTrip`, `QpackRoom`, `QpackRun`, `QpackStatic`, `QpackMishaps` |
| QUIC streams (RFC 9000) | `QuicStreamBuffer` (reassembly), `QuicSender` (drain and limits), `QuicStrand` (one stream end to end), `QuicDelivery` (whole connections), `QuicPeerView` (what the peer may come to see), `QuicReceive` (receive limits) |
| QUIC packets (RFC 9000, RFC 9002) | `QuicRecovery`, `QuicLossRecovery`, `QuicLedger`, `QuicAck`, `QuicFrames`, `QuicVarint` |
| HTTP/2 (RFC 9113) | `Http2Flow`, `Http2Run`, `Http2Connection` (windows and bodies out), `Http2Headers` (blocks), `Http2Inbound` |
| WebSocket (RFC 6455) | `WebSocketFrame`, `WebSocketReader`, `WebSocketMessage`, `BigEndians` |
| Schedulers | `WeightedRoundRobin`, `RateLimiter`, `RateLimiterLaws`, `RateLimiterRoom`, `RateLimiterDisorder`, `SecurityPolicy`, `TaskRegistry`, `TaskRun` |
| Shared | `Octets`, `BitStrings`, `SortedSets`, `MapSum`, `Wrappers`, `StaticTable` |

## Where the code is not what it says

The model does what the code does. Each of these is a theorem with its exact condition, and an
input on which it goes wrong.

- `decode_prefix` takes the sign of a QPACK base from the last octet of the insert count
  (src/wsbuilder/qpack.py:255), where section 4.5.1.2 of RFC 9204 puts it with the delta. A section
  that refers to the dynamic table comes back only when that octet is below 128 or the base is
  the required count: `SectionComesBackExactly`, `SmallTablesKeepTheSign`, `RoomySectionComesBack`; after 128 requests with
  the standard tables and 4096 octets the next one is lost: `SectionsAreLost`.
- The QPACK encoder may evict an entry that it has just planned to refer to
  (src/wsbuilder/qpack.py:439-446): `SectionMayEvictItsOwnEntry`, `SectionsAreLost`.
- A shorter piece replaces a longer one held at the same offset
  (src/wsbuilder/quic/connection.py:136-138). Exactly the bytes that no other held piece covers are
  lost, by a shorter piece only: `KeepsAllExactly`, `OnlyShorterLoses`, `ShorterPieceLosesBytes`. End
  to end this matters exactly when empty data was queued inside a stream: `HiddenExactly`,
  `EmptyDataHides`, `EmptyDataHidesBytes`.
- Loss recovery records a frame before its packet is refused (src/wsbuilder/quic/connection.py:770-774,
  800-817), the drain counts it as not sent (676-686), and `_retransmit` sends it again without a look
  at limits or resets (386-419). So the peer may count more than MAX_DATA, and get data beyond the final
  size of a stream that was reset: `ConnectionLimitExactly`, `ConnectionLimitIsOverrun`,
  `ResetHoldsExactly`, `FinalSizeIsOverrun`. MAX_STREAM_DATA holds anyway: `StreamLimitsHold`.
- The limiter takes the time of a request before it waits for the lock (src/wsbuilder/security.py:546),
  so requests may be judged out of order, and a full window can then hold more than the limit:
  `LateRateIsKept`, `LateRateIsTight`.
- A refused HTTP/2 stream's block is never decoded (src/wsbuilder/http2.py:686-691) although
  src/wsbuilder/http2.py:724-725 says every block is: `RefusalKeepsStepExactly`,
  `SmallRefusalKeepsStepExactly`, `RefusedRequestDesyncs`.
- A response that still waits for a window when its stream is refused (src/wsbuilder/http2.py:803-819)
  leaves the stream live, and trailers over the limit then get a second one, so that END_STREAM is
  sent twice: `EndIsLastExactly`, `EndIsSentTwice`.
- A stream's inbound window is seeded from the peer's own setting (src/wsbuilder/http2.py:692), so
  a peer that keeps to what it was told can be cut off: by a frame of a body within the limit when its
  setting was less than a frame (`BodiesWithinLimitAreTakenExactly`), and by a rejected body, whose
  octets are not handed back, when it was less than the window it was told of
  (`AllowedBodiesAreTakenExactly`, `RejectedBodyIsCutOff`).
- An exception that is not an `Exception` leaves a task listed as running for good
  (src/wsbuilder/tasks.py:277-293): `FinalizedStatusExactly`, `EscapedTaskStaysRunning`.

## Model

| member | source | states |
|---|---|---|
| HpackLockstep.Lockstep | src/wsbuilder/hpack.py:308-506 | over any run of header lists and table-size changes, started in step: every decoded block gives back the lower-cased list (or only its size, when over the limit) and after every block both tables are equal, through oversized inserts, evictions by the insert itself and never-indexed names |
| HpackStatic.StandardLockstep | src/wsbuilder/hpack.py:14-148 | two new peers with the Huffman code and static table of RFC 7541 stay in lockstep over every run |
| HpackLockstep.BlockRoundTrip | src/wsbuilder/hpack.py:474-506 | one block, with the size update queued before it, decodes to its lower-cased fields and leaves the decoder the encoder's table |
| HpackLockstep.FieldsAreRead | src/wsbuilder/hpack.py:399-451 | wherever encoded fields stand up to the end of a block, the decoder reads them all and makes the insertions the encoder made |
| HpackLockstep.LiteralIsRead | src/wsbuilder/hpack.py:453-460 | a literal, in any of its three forms, named by index or in full, is read back as its field and ends where it ends |
| HpackLockstep.IndexedIsRead | src/wsbuilder/hpack.py:423-426 | an index written for a field held in either table is read as that field |
| HpackLockstep.SizeUpdateIsRead | src/wsbuilder/hpack.py:432-442 | a size update within the ceiling resizes the decoder's table, in front of the first field |
| Hpack.LimitOnlyHidesFields | src/wsbuilder/hpack.py:399-451 | on every block, valid or not, a limited decode leaves the table and the error of an unlimited one; it reports the size exactly when the list is over the limit |
| Huffman.HuffmanInverse | src/wsbuilder/hpack.py:187-236 | for every prefix code with an all-ones end-of-string word of at least 8 bits: data decodes to a text if and only if it is that text's encoding, so the paddings accepted are exactly those written |
| Huffman.DecodeOfEncode | src/wsbuilder/hpack.py:206-236 | decoding undoes encoding for every text |
| Huffman.EncodeOfDecode | src/wsbuilder/hpack.py:226-235 | whatever is accepted is reproduced by encoding it again, padding included |
| HuffmanCoder.HuffmanEncode | src/wsbuilder/hpack.py:187-203 | the loop over an accumulator of bits writes the concatenated codes padded with ones |
| HuffmanCoder.HuffmanDecode | src/wsbuilder/hpack.py:206-236 | the walk through the trie, octet by octet, accepts and returns what decoding by code words says, with the same errors |
| HuffmanTable.TableIsPrefixCode | src/wsbuilder/hpack.py:82-148 | the code table of appendix B of RFC 7541 is a prefix code with an all-ones end-of-string word |
| HuffmanTable.TableSpellsCode | src/wsbuilder/hpack.py:82-148 | the numbers and lengths of the table are the code words that this and the loops are about |
| CanonicalCode.CanonicalTableIsPrefixCode | src/wsbuilder/hpack.py:168-181 | any table whose codes count upwards by length is a prefix code |
| HpackInteger.IntegerRoundTrip | src/wsbuilder/hpack.py:239-278 | a prefixed integer comes back, among any other octets and under any pattern, exactly when it is below 2^N - 1 + 2^35; above, the continuation is too long |
| HpackInteger.EncodeIntegerLoop | src/wsbuilder/hpack.py:239-253 | the loop writes the representation that the round trip is about, and refuses negative values |
| HpackInteger.DecodeIntegerLoop | src/wsbuilder/hpack.py:256-278 | the loop returns the value, or the error, that the round trip is about, on every input |
| StringLiteral.StringRoundTrip | src/wsbuilder/hpack.py:281-305 | a string comes back exactly when an integer can carry the length of its payload, whichever coding was chosen |
| HpackTurnover.BlockKeepsTableExactly | src/wsbuilder/hpack.py:474-506 | a block leaves the table as it was if and only if no other size is queued and its fields insert nothing, or insert more than fits and spell the old entries again |
| HpackTurnover.SmallBlockKeepsTableExactly | src/wsbuilder/hpack.py:474-506 | for fields that fit the table together: if and only if none of them is inserted by the table as it is |
| HpackTurnover.QuietFieldsKeepTable | src/wsbuilder/hpack.py:488-506 | fields that are known, never indexed, or too large for an empty table leave it as it was |
| HpackTurnover.KnownFieldsAreNotNeeded | src/wsbuilder/hpack.py:488-506 | with room for one entry, two new fields can end where they began |
| HpackTable.FitKeepsLongestPrefix | src/wsbuilder/hpack.py:337-340 | eviction keeps the newest entries, and one more would not fit |
| HpackTable.AddKeepsNewEntry | src/wsbuilder/hpack.py:342-352 | an insert that is not oversized stands first, and only older entries leave |
| HpackTable.DynamicTable.Evict | src/wsbuilder/hpack.py:337-340 | the loop that pops the oldest keeps the longest fitting run and its size |
| HpackTable.DynamicTable.Add | src/wsbuilder/hpack.py:342-352 | the table becomes the specified one, and says whether the entry was kept |
| HpackTable.DynamicTable.SetMaxSize | src/wsbuilder/hpack.py:329-331 | a new maximum evicts what no longer fits |
| HpackTable.DynamicTable.FindField | src/wsbuilder/hpack.py:360-370 | the newest exact match, or else the newest of the same name, or none |
| HpackCodec.Encoder.Encode | src/wsbuilder/hpack.py:474-486 | block and table are those of the run; a queued size update goes in front |
| HpackCodec.Encoder.SetMaxSize | src/wsbuilder/hpack.py:470-472 | a new size waits for the next block, in place of one queued before; the table stays |
| HpackCodec.Encoder.EncodeOneField | src/wsbuilder/hpack.py:488-506 | octets and table are those of one field of the run |
| HpackCodec.Decoder.Decode | src/wsbuilder/hpack.py:399-451 | fields, table and every error are those of the run, on every input |
| HpackCodec.Decoder.ReadLiteral | src/wsbuilder/hpack.py:453-460 | the literal that is read back in the run, or its error |
| QpackRoundTrip.SectionComesBackExactly | src/wsbuilder/qpack.py:421-482 | once the decoder's table is the encoder's, a section gives back exactly its fields if and only if it refers to no entry, or every entry referred to is still held and the sign is not misread or the base is the required count (with lines 322-383) |
| QpackRun.RunInStep | src/wsbuilder/qpack.py:398-494 | over any run of capacity changes and sections, reading the stream gives the decoder the encoder's table, and each exchanged section comes back exactly under that condition (with lines 216-243) |
| QpackStatic.StandardRun | src/wsbuilder/qpack.py:23-81 | the same of two new peers with the static table of RFC 9204 |
| QpackRun.NextInStep | src/wsbuilder/qpack.py:398-494 | one event keeps the peers in step and answers as the condition says |
| QpackRun.StreamIsRead | src/wsbuilder/qpack.py:195-243 | instructions written one after the other are read as exactly those, wherever they stand |
| QpackRoom.RoomySectionComesBack | src/wsbuilder/qpack.py:421-482 | a section comes back when none of its fields is among the oldest entries, the other entries and the new fields fit together, and the capacity is below 2048 |
| QpackRoom.RoomKeepsEntries | src/wsbuilder/qpack.py:421-456 | with that room every entry that a section refers to is held to its end |
| QpackRoundTrip.SectionComesBackLater | src/wsbuilder/qpack.py:344-383 | a decoder whose table has gone on still reads the section, as long as it holds what is referred to |
| QpackRoundTrip.HeldCountIsRecovered | src/wsbuilder/qpack.py:322-341 | held entries number at most capacity / 32, so the wrapped count of a held reference is recovered |
| QpackRoundTrip.CountIsResidue | src/wsbuilder/qpack.py:322-341 | the wrapped count stands for the one number of its residue in (total - max, total + max], and so for the true count exactly when that lies there |
| QpackRoundTrip.SectionMayLoseItsSign | src/wsbuilder/qpack.py:251-257 | with 4096 octets and 128 insertions, a section that refers to the last but one does not come back |
| QpackMishaps.SectionsAreLost | src/wsbuilder/qpack.py:398-494 | new peers with the standard tables: with 63 octets an exchange of two new fields is lost; with 4096, 128 exchanges come back and the next is lost, though the tables are equal |
| QpackRoundTrip.SectionMayEvictItsOwnEntry | src/wsbuilder/qpack.py:439-446 | with room for one entry, a section of two new fields does not come back |
| QpackRoundTrip.PlanAllStands | src/wsbuilder/qpack.py:421-456 | after the first pass every line stands for its field or has lost it to eviction, and numbers only grow |
| QpackRoundTrip.SectionIsRead | src/wsbuilder/qpack.py:344-383 | what the decoder makes of any prefix in front of any lines, resolved against its own table |
| QpackRoundTrip.PrefixIsRead | src/wsbuilder/qpack.py:246-257 | the prefix is read back, with the sign the code takes |
| QpackRoundTrip.StaticSectionComesBack | src/wsbuilder/qpack.py:292-319 | a section made without a table comes back with any table, or none |
| QpackTable.AddNumbers | src/wsbuilder/qpack.py:155-175 | an insert takes the next number, keeps every other held number with its entry, and never evicts itself |
| QpackTable.FitFrontKeepsNewest | src/wsbuilder/qpack.py:150-153 | eviction keeps every newest run that fits |
| QpackTable.NumberedTable.Add | src/wsbuilder/qpack.py:155-164 | the table becomes the specified one; the number is returned, or nothing when the entry is oversized |
| QpackTable.NumberedTable.Find | src/wsbuilder/qpack.py:177-189 | the newest exact match, or else the newest of the same name |
| QpackCodec.Encoder.Encode | src/wsbuilder/qpack.py:421-482 | both passes write the section of the run and leave the table and instructions of the run |
| QpackCodec.Encoder.PlanField | src/wsbuilder/qpack.py:432-451 | one line of the plan, with the insertion it makes |
| QpackCodec.Encoder.Insert | src/wsbuilder/qpack.py:484-494 | what fits is inserted and its instruction queued; what does not changes nothing |
| QpackCodec.Encoder.ChangeCapacity | src/wsbuilder/qpack.py:411-413 | the table is resized at once and the instruction queued behind the others |
| QpackCodec.Encoder.TakeEncoderStream | src/wsbuilder/qpack.py:415-419 | all queued instructions leave, in order; the table stays |
| QpackCodec.DecodeEncoderStream | src/wsbuilder/qpack.py:216-243 | the table after every whole instruction in front of an error, and the error, are those of the run |
| QpackCodec.DecodeFieldSection | src/wsbuilder/qpack.py:344-383 | the fields or the error of the run, on every input |
| QuicDelivery.DeliveredIsPrefix | src/wsbuilder/quic/connection.py:611-701 | under any loss, reordering, repetition, retransmission and refusal, what a stream's reader delivers is a prefix of what was queued (with lines 103-160 and 386-402) |
| QuicDelivery.WholeStreamArrives | src/wsbuilder/quic/connection.py:611-701 | once a stream's queue is empty and each frame sent has arrived at least once, all of it is delivered, and it is complete if and only if it was ended, unless empty data was queued inside the stream (with lines 103-160 and 386-402) |
| QuicDelivery.EmptyDataHides | src/wsbuilder/quic/connection.py:128-160 | if it was, then before anything of the stream has arrived there is an order in which each frame sent arrives and not everything is delivered (with lines 611-701) |
| QuicDelivery.EmptyDataHidesBytes | src/wsbuilder/quic/connection.py:136-138 | a run in which that happens to three bytes |
| QuicDelivery.NothingLostNothingTwice | src/wsbuilder/quic/connection.py:593-701 | per stream: frames sent are contiguous from 0, sent and queued bytes are all bytes queued, in order (a prefix after a reset), the offset counts what was sent, and FIN only stands on the last frame at the end |
| QuicDelivery.LimitsAreKept | src/wsbuilder/quic/connection.py:340-346 | what is counted as sent keeps at every moment to MAX_DATA and to each MAX_STREAM_DATA, and the connection total is the sum of the stream offsets (with lines 526-548) |
| QuicPeerView.StreamLimitsHold | src/wsbuilder/quic/connection.py:526-548 | every frame that may ever arrive, refused ones included, ends within the MAX_STREAM_DATA of its stream (with lines 386-419) |
| QuicPeerView.ConnectionLimitExactly | src/wsbuilder/quic/connection.py:657-691 | whatever arrives, the peer counts no more than a limit if and only if the total counted as sent, and how far refused frames reach beyond what was sent of their streams, add up to no more (with lines 386-419 and 770-774) |
| QuicPeerView.ConnectionLimitIsOverrun | src/wsbuilder/quic/connection.py:676-686 | a run, with no reset, in which the peer counts twice MAX_DATA (with lines 386-419) |
| QuicPeerView.UnrefusedRunsHold | src/wsbuilder/quic/connection.py:628-701 | when no packet is refused the peer never counts more than MAX_DATA, and every final size holds for good |
| QuicDelivery.ControlTellsTheTruth | src/wsbuilder/quic/connection.py:550-604 | a RESET_STREAM says exactly how much is counted as sent, however often it is repeated; a blocked limit is reported at most once |
| QuicPeerView.ResetHoldsExactly | src/wsbuilder/quic/connection.py:645-651 | the final size that a drain gives holds however the run goes on, if and only if no refused frame of the stream reaches beyond it when the reset is taken up (with lines 386-419) |
| QuicPeerView.FinalSizeIsOverrun | src/wsbuilder/quic/connection.py:645-651 | a run in which data arrives beyond a final size of zero (with lines 386-419) |
| QuicDelivery.NextKeepsInv | src/wsbuilder/quic/connection.py:593-701 | every single step of calls, limits, drain turns, arrivals and retransmissions keeps all of this |
| QuicStrand.WholeStreamDelivered | src/wsbuilder/quic/connection.py:103-160 | for one stream: when all is sent and arrived, exactly the queued bytes are delivered, and it is complete if and only if it was ended, unless empty data was queued inside it |
| QuicStrand.ArriveKeepsInv | src/wsbuilder/quic/connection.py:128-160 | any frame ever built, arriving at any time, keeps the reader a prefix that has lost nothing |
| QuicStrand.SplitKeepsInv | src/wsbuilder/quic/connection.py:659-668 | cutting a queued chunk at an allowance keeps the stream's order, contents and FIN |
| QuicStrand.HiddenExactly | src/wsbuilder/quic/connection.py:103-160 | of a stream sent whole: every order of arrival delivers all of it if and only if no empty data was queued inside it (with lines 611-701) |
| QuicStrand.EmptyPieceHides | src/wsbuilder/quic/connection.py:136-138 | an order of arrival that stops at the place of the empty data |
| QuicSender.DrainGoesToTheLimits | src/wsbuilder/quic/connection.py:628-701 | when no packet is refused, a drain leaves data only on streams at their own limit, or when the connection is at its limit: no stream waits for another |
| QuicSender.TakeKeepsLedger | src/wsbuilder/quic/connection.py:645-691 | every turn of a drain, whatever the packet layer answers, keeps the totals, and what is counted as sent within the limits |
| QuicSender.CallsKeepCount | src/wsbuilder/quic/connection.py:593-626 | queueing and resetting keep the count of queued bytes of every stream |
| QuicSender.RecountCounts | src/wsbuilder/quic/connection.py:693-699 | the recount after a drain is, per stream, the length of what is queued |
| QuicSender.CutPieces | src/wsbuilder/quic/connection.py:611-626 | the loop cuts the payload into the chunks the delivery theorems are about |
| QuicSender.CutsAreChunks | src/wsbuilder/quic/connection.py:617-625 | chunks are at most a chunk long, spell the payload, and only the last carries FIN |
| QuicSender.SendSide.DrainOutbound | src/wsbuilder/quic/connection.py:628-701 | the loop, whatever the packet layer answers at each entry, ends with the queue, offsets, totals and frames of the specified drain |
| QuicSender.SendSide.OfferEntry | src/wsbuilder/quic/connection.py:658-690 | one entry: sent whole, cut, blocked and reported, or put back, as specified |
| QuicSender.SendSide.QueueStreamData | src/wsbuilder/quic/connection.py:611-626 | the whole new sending state after a call |
| QuicSender.SendSide.AbandonStream | src/wsbuilder/quic/connection.py:593-604 | the whole new sending state after a reset |
| QuicSender.SendSide.OnMaxData | src/wsbuilder/quic/connection.py:340-342 | a connection limit only grows; nothing else changes |
| QuicSender.SendSide.OnMaxStreamData | src/wsbuilder/quic/connection.py:343-346 | a stream limit only grows; nothing else changes |
| QuicStreamBuffer.AddKeepsLedger | src/wsbuilder/quic/connection.py:128-160 | on every piece: the new frontier is the first position covered by neither delivered nor held pieces, exactly what lies above it stays held, and the held bytes are counted |
| QuicStreamBuffer.AddDeliversTheStream | src/wsbuilder/quic/connection.py:128-160 | pieces of one stream, in any order and overlap, are delivered as that stream, without gap or repeat |
| QuicStreamBuffer.KeepsAllExactly | src/wsbuilder/quic/connection.py:128-160 | every byte delivered, held or brought stays delivered or held if and only if the new piece does not replace a held one of which it leaves out a byte that no other held piece covers |
| QuicStreamBuffer.LossIsExact | src/wsbuilder/quic/connection.py:128-160 | byte by byte: after a piece, what is delivered or held is what it brings and what was before, less exactly that |
| QuicStreamBuffer.RunKeepsExactly | src/wsbuilder/quic/connection.py:103-160 | on every run of any pieces, a byte is delivered or held if and only if it came and was not lost since |
| QuicStreamBuffer.FrontierIsFirstMissing | src/wsbuilder/quic/connection.py:103-160 | on every run, `received` is the first byte that never came or was lost since |
| QuicStreamBuffer.LosslessRunDeliversAll | src/wsbuilder/quic/connection.py:103-160 | on every run without such a loss, `received` is the first byte that has not come, and the stream is complete if and only if every byte before its last final size has come |
| QuicStreamBuffer.ShorterPieceLosesBytes | src/wsbuilder/quic/connection.py:136-138 | an input on which two bytes are lost |
| QuicStreamBuffer.StreamBuffer.AddPiece | src/wsbuilder/quic/connection.py:128-160 | the whole new buffer, and what grew, are the specified ones |
| QuicStreamBuffer.StreamBuffer.DrainHeld | src/wsbuilder/quic/connection.py:143-157 | the nested loops end, at the frontier, with what lies above it |
| QuicReceive.ClosedExactlyOnViolation | src/wsbuilder/quic/connection.py:464-489 | on every run the connection is closed by a frame if and only if the frame opens a stream too many or goes beyond what the peer was told |
| QuicReceive.RunKeepsBooks | src/wsbuilder/quic/connection.py:464-501 | on every run the highest total is the sum over streams and within the maximum, the consumed total is the sum of received, each highest within its limit |
| QuicReceive.CreditIsLeft | src/wsbuilder/quic/connection.py:491-501 | at every moment at least half a window is left to each unfinished stream and to the connection |
| QuicReceive.RunTells | src/wsbuilder/quic/connection.py:491-501 | the limits in force are the last the peer was told, and what it was told only grows |
| QuicReceive.ReceiveSide.OnStreamFrame | src/wsbuilder/quic/connection.py:464-489 | the whole new receiving state, notices and delivered bytes after one frame |
| QuicReceive.ReceiveSide.ReplenishWindows | src/wsbuilder/quic/connection.py:491-501 | which limits are raised, to what, and which notices go out |
| QuicLedger.PacketsAreConserved | src/wsbuilder/quic/recovery.py:202-275 | on every run each packet sent is exactly one of tracked, acknowledged or lost, and only packets up to the largest acknowledged are lost |
| QuicLedger.BytesInFlightAreTracked | src/wsbuilder/quic/recovery.py:202-275 | bytes in flight are the sizes of the tracked packets that count, so the clamps at zero never bite, and the window never falls below its minimum (with lines 138-171) |
| QuicLedger.CutsAreApart | src/wsbuilder/quic/recovery.py:153-171 | each cut of the window is triggered by a packet sent after the previous cut |
| QuicLedger.DetectionIsComplete | src/wsbuilder/quic/recovery.py:249-275 | what detection leaves is lost neither by order nor by time, and the timer is set to when the first of it will be |
| QuicLedger.TakingOut | src/wsbuilder/quic/recovery.py:228-275 | taking packets out of a space takes exactly their sizes off its sum |
| QuicLossRecovery.NumberSpace.DetectLostPackets | src/wsbuilder/quic/recovery.py:249-275 | space, congestion state and lost packets are the specified ones |
| QuicLossRecovery.NumberSpace.Sift | src/wsbuilder/quic/recovery.py:255-270 | the walk in ascending order finds exactly the lost numbers and the earliest loss time of the rest |
| QuicLossRecovery.LossRecovery.OnAckReceived | src/wsbuilder/quic/recovery.py:228-247 | newly acknowledged and lost packets, and the whole new state |
| QuicLossRecovery.CongestionControl.OnPacketsAcked | src/wsbuilder/quic/recovery.py:138-151 | slow start, congestion avoidance and the recovery period, packet by packet |
| QuicLossRecovery.CongestionControl.OnPacketsLost | src/wsbuilder/quic/recovery.py:153-160 | what is taken off the flight and whether the window is cut |
| QuicAck.AckRanges | src/wsbuilder/quic/connection.py:704-731 | the ranges of any set of packet numbers expand to exactly that set, reach no lower than zero, and there are none only for the empty set |
| QuicAck.AcknowledgedNumbers | src/wsbuilder/quic/recovery.py:211-226 | the loop gives the numbers of the ranges, the further ranges cut off at zero |
| QuicFrames.AckSurvives | src/wsbuilder/quic/frames.py:383-400 | ranges that reach no lower than zero fit the wire and come back from it unchanged (with lines 117-129) |
| QuicFrames.PayloadIsParsed | src/wsbuilder/quic/frames.py:297-459 | a payload of any frames, with padding anywhere, is parsed as exactly the frames the parser keeps, in order (with lines 59-147) |
| QuicFrames.FrameIsRead | src/wsbuilder/quic/frames.py:59-380 | each kind of frame is read back where it stands and ends where it ends |
| QuicFrames.ZerosArePassedOver | src/wsbuilder/quic/frames.py:305-310 | padding changes nothing, whatever follows |
| QuicFrames.ParseFrames | src/wsbuilder/quic/frames.py:297-380 | the loop ends on every input with the frames or the error that the round trip is about |
| QuicFrames.ParseAck | src/wsbuilder/quic/frames.py:383-400 | ranges, with or without counts, or the error |
| QuicFrames.SerializeFrames | src/wsbuilder/quic/frames.py:458-459 | what is joined is a payload without padding |
| QuicVarint.VarintRoundTrip | src/wsbuilder/quic/varint.py:31-57 | any legal width is read back, among any other octets |
| QuicVarint.EncodeVarintIsRead | src/wsbuilder/quic/varint.py:31-57 | whatever is encoded, shortest or at a width asked for, is read back |
| QuicVarint.ShortestIsShortest | src/wsbuilder/quic/varint.py:20-28 | a width holds the value if and only if it is at least the one chosen |
| Http2Run.WindowsAreLedgers | src/wsbuilder/http2.py:595-665 | on every run each stream's window is the peer's setting plus credits less DATA sent, the connection's 65535 plus credits less all DATA sent, both at most 2^31 - 1 and the latter never negative (with lines 200-227 and 996-1027) |
| Http2Run.OnlySettingsOverdraw | src/wsbuilder/http2.py:606-613 | only a smaller INITIAL_WINDOW_SIZE takes a window below zero |
| Http2Run.OutputNeverSticks | src/wsbuilder/http2.py:996-1027 | after every step, a stream that is not closed and has output pending has a window, its own or the connection's, that is used up |
| Http2Run.BodyIsSpelled | src/wsbuilder/http2.py:904-1022 | the DATA frames of a stream spell what was written on it, in order; unless something was written after its end, only the last can end the stream, and does so exactly when the body was finished and all of it is out |
| Http2Run.EndIsLastExactly | src/wsbuilder/http2.py:904-1022 | when all that was written on a stream is out, END_STREAM was sent at most once, and last, if and only if nothing was written after it and no bodiless response overtook a body |
| Http2Run.EndIsSentTwice | src/wsbuilder/http2.py:803-819 | a run in which two responses end the same stream |
| Http2Run.NextKeeps | src/wsbuilder/http2.py:545-665 | every step of frames, settings, resets, bodies and producers keeps all of this |
| Http2Run.FlushAllKeeps | src/wsbuilder/http2.py:1024-1027 | after a flush of all streams output waits only for windows |
| Http2Flow.FlushDoes | src/wsbuilder/http2.py:1007-1022 | one stream's flush sends in frames within the limit as much as both windows allow, and ends the stream exactly when nothing is left |
| Http2Connection.FlowControlWindow.Consume | src/wsbuilder/http2.py:206-213 | an amount beyond the window is refused and leaves it alone |
| Http2Connection.FlowControlWindow.Credit | src/wsbuilder/http2.py:215-221 | zero and overflow are refused and leave the window alone |
| Http2Connection.FlowControlWindow.AdjustInitial | src/wsbuilder/http2.py:223-227 | a change is made even when it is then reported as too large |
| Http2Connection.FlushOut | src/wsbuilder/http2.py:1007-1022 | the loop sends the frames of the specified flush and leaves stream and connection as it does |
| Http2Connection.Connection.FlushAll | src/wsbuilder/http2.py:1024-1027 | state and frames of the specified flush of all streams, in the order they were opened |
| Http2Connection.Connection.OnWindowUpdate | src/wsbuilder/http2.py:650-665 | a credit to stream or connection, the frames it frees, a reset or a connection error |
| Http2Connection.Connection.OnSettings | src/wsbuilder/http2.py:595-615 | the retroactive change of every window, the new frame size, the frames freed, or a connection error |
| Http2Connection.Connection.SendData | src/wsbuilder/http2.py:996-1005 | the body joins the queue, and what the windows allow goes out |
| Http2Connection.Connection.FinishBody | src/wsbuilder/http2.py:964-972 | the end goes with what is queued, or in an empty frame of its own |
| Http2Headers.SplitSpells | src/wsbuilder/http2.py:983-994 | whatever the block and the limit: the fragments concatenate to it, each fits, only the first is HEADERS and carries END_STREAM, only the last END_HEADERS |
| Http2Headers.SendHeaderBlock | src/wsbuilder/http2.py:983-994 | the loop writes those frames |
| Http2Headers.BlockIsRebuilt | src/wsbuilder/http2.py:667-749 | however a block was cut, an admitted stream hands exactly the block to the decoder, once, at its last frame |
| Http2Headers.HeadersComeBack | src/wsbuilder/http2.py:667-749 | encoded, cut, put together and decoded, the headers come back if and only if their list is within the limit, and the tables stay in step either way |
| Http2Headers.RefusalKeepsStepExactly | src/wsbuilder/http2.py:686-691 | refusing a stream leaves the connection alive with tables in step if and only if the block fits one frame, no other table size is queued, and the headers insert nothing or spell the old entries again |
| Http2Headers.SmallRefusalKeepsStepExactly | src/wsbuilder/http2.py:686-691 | for headers that fit the table together: if and only if, besides, none of them is new to the tables |
| Http2Headers.QuietRefusalKeepsStep | src/wsbuilder/http2.py:686-691 | a refusal in one frame is harmless when each header is known, never indexed, or too large for an empty table |
| Http2Headers.RefusedBlockIsUnread | src/wsbuilder/http2.py:686-691 | a refused block is never decoded, and its continuation ends the connection |
| Http2Headers.RefusedNewFieldDesyncs | src/wsbuilder/http2.py:686-691 | a refused request with one new field leaves the tables apart |
| Http2Headers.RefusedRequestDesyncs | src/wsbuilder/http2.py:686-691 | new peers with the standard coding and a field named "x" that come apart so |
| Http2Headers.PaddingComesOff | src/wsbuilder/http2.py:158-168 | padding of any octets is taken off |
| Http2Inbound.FramesAreTakenExactly | src/wsbuilder/http2.py:751-786 | frames are taken if and only if each fits the windows as those before it left them, and the stream's window is then less by exactly what was not handed back |
| Http2Inbound.BodyIsTakenExactly | src/wsbuilder/http2.py:751-786 | a body within the limit is taken, and the windows restored, if and only if no frame is larger than a window was at the start |
| Http2Inbound.BodiesWithinLimitAreTakenExactly | src/wsbuilder/http2.py:692-692 | of bodies within the limit, a peer that keeps to what it was told is never cut off if and only if its own setting was at least a whole frame |
| Http2Inbound.AllowedBodiesAreTakenExactly | src/wsbuilder/http2.py:240-247 | of all bodies, those over the limit and those rejected for their headers included, a peer that keeps to what it was told is never cut off if and only if its own setting was at least the window it was told of |
| Http2Inbound.RejectedBodyIsCutOff | src/wsbuilder/http2.py:772-782 | a run in which a peer is cut off at the 16385th of 65535 octets, with a setting of a whole frame when the stream opened |
| Http2Inbound.ReceiveData | src/wsbuilder/http2.py:751-786 | both windows, and whether the stream is rejected or closed, after one DATA frame, or the error |
| WebSocketReader.FrameReader.ReceiveFrames | src/wsbuilder/ws.py:394-508 | with any chunking and timeouts anywhere, behind the last octet too, the frames are those of the uninterrupted octets, in order, and reading ends only where the octets end or go wrong (with lines 220-255) |
| WebSocketReader.FrameReader.Attempt | src/wsbuilder/ws.py:394-404 | a timeout hands back exactly what was read of the frame; a whole frame leaves nothing pending |
| WebSocketReader.FrameReader.ReadFrame | src/wsbuilder/ws.py:565-616 | header, lengths, mask and payload as parsing the octets at once says, or the same error |
| WebSocketReader.FrameReader.Exactly | src/wsbuilder/ws.py:555-562 | all the octets asked for, or a stop with all that was read still in hand |
| WebSocketReader.FrameReader.Recv | src/wsbuilder/ws.py:246-255 | pending octets first; consumed, pending and unread octets always partition the stream |
| WebSocketFrame.UnmaskIsOctetwise | src/wsbuilder/ws.py:619-631 | the big-number exclusive or is that of octet i with octet i mod 4 of the key |
| WebSocketFrame.UnmaskTwice | src/wsbuilder/ws.py:619-631 | masking twice gives back the payload |
| WebSocketFrame.ParseOfPrefix | src/wsbuilder/ws.py:565-616 | a frame or an error known from the first octets stays so, however many follow |
| WebSocketMessage.MessagesArePutTogether | src/wsbuilder/ws.py:405-508 | however each message of a stream is cut, and wherever control frames stand between the pieces, the caller gets every message whole, once, in order, and every control frame |
| WebSocketMessage.MessageIsPutTogether | src/wsbuilder/ws.py:405-508 | the same of one message |
| WebSocketMessage.CloseIsRead | src/wsbuilder/ws.py:664-686 | a close payload is read as a code and a reason if and only if it is their form, the code is one that may be sent, and the reason is text |
| WebSocketMessage.Receive | src/wsbuilder/ws.py:425-508 | the loop hands over those messages, or the fault it stops at, broken closes included |
| WeightedRoundRobin.SharesAreKept | src/wsbuilder/proxyi.py:841-860 | scores sum to zero and stay above minus the total weight W, and after t picks a target has had fewer than t*w/W + 1 |
| WeightedRoundRobin.OneRoundIsExact | src/wsbuilder/proxyi.py:841-860 | W picks choose each target exactly as often as its weight and end in the zero state |
| WeightedRoundRobin.RoundsRepeat | src/wsbuilder/proxyi.py:841-860 | each further round does the same |
| WeightedRoundRobin.ProxyRule.WeightedPick | src/wsbuilder/proxyi.py:841-860 | the target of the highest score, the first of equals, with the scores kept for the next pick |
| RateLimiterLaws.RateIsKept | src/wsbuilder/security.py:545-637 | of requests judged in the order of their times, however often it sweeps: no window of the configured length holds more allowed requests of a client than configured, unless its row was evicted for want of room (with lines 285-338) |
| RateLimiterRoom.RateIsKeptForFew | src/wsbuilder/security.py:318-338 | nothing is evicted, and the rate of every client is kept, when at every event no more clients than are tracked have asked within a window and a sweep interval (with lines 545-637) |
| RateLimiterDisorder.LateRateIsKept | src/wsbuilder/security.py:545-637 | of requests judged at most a time D out of order, as the time is taken before the lock: no window shorter by D holds more allowed requests than configured |
| RateLimiterDisorder.LateRateIsTight | src/wsbuilder/security.py:545-547 | for every such D and every limit from two on, a run in which every longer window can hold more than the limit |
| RateLimiterLaws.ThrottlingDecidesTheSame | src/wsbuilder/security.py:545-637 | of requests judged in the order of their times, throttled sweeping decides every request as sweeping at each one would, while no tracking cap is reached (with lines 296-309) |
| RateLimiterLaws.TrimCounts | src/wsbuilder/security.py:326-338 | of times in order, trimming keeps exactly those above the threshold |
| RateLimiterLaws.SweptSame | src/wsbuilder/security.py:280-309 | a sweep made and a sweep skipped leave what decides requests the same |
| SecurityPolicy.EventStore.PushEvent | src/wsbuilder/security.py:326-338 | the whole new store, and how many events of the client lie in the window |
| SecurityPolicy.EventStore.PruneEvents | src/wsbuilder/security.py:285-294 | old events go, and with them rows that are empty |
| SecurityPolicy.Policies.Sweep | src/wsbuilder/security.py:296-309 | stores, blocks and next time of the specified sweep |
| SecurityPolicy.Policies.EvaluateRequest | src/wsbuilder/security.py:545-637 | decision and whole new state of the run |
| SecurityPolicy.Policies.ObserveResponse | src/wsbuilder/security.py:639-653 | the suspicious event it records, and the block that follows |
| TaskRun.SlotsAreKept | src/wsbuilder/tasks.py:225-293 | on every interleaving the tasks that hold a slot are never more than the limit, and each that ends has given back exactly what it took |
| TaskRun.WorkingHoldsASlot | src/wsbuilder/tasks.py:225-256 | a task that runs its target holds a slot |
| TaskRun.PromisesAreKept | src/wsbuilder/tasks.py:225-293 | a task whose cancel returned True never ends completed or failed (with lines 155-160) |
| TaskRun.EndsAreFinal | src/wsbuilder/tasks.py:225-293 | no step changes a terminal status or takes back a promise (with lines 155-160) |
| TaskRun.FinalizedStatusExactly | src/wsbuilder/tasks.py:264-293 | a finalized task has a terminal status if and only if nothing beyond an Exception left its target; otherwise it is listed as running |
| TaskRun.EscapedTaskStaysRunning | src/wsbuilder/tasks.py:264-293 | a run in which a finalized task is listed as running |
| TaskRun.BooksAreExact | src/wsbuilder/tasks.py:309-352 | the registry is exactly the unfinished tasks and the last `max_finished_tasks` finalized ones, and each group its unfinished ones (with lines 431-449) |
| TaskRun.FailedStartLeavesNoTrace | src/wsbuilder/tasks.py:338-351 | a thread that fails to start leaves the registry as it was |
| TaskRegistry.EvictionKeepsLatest | src/wsbuilder/tasks.py:443-449 | eviction leaves the latest finished tasks and every unfinished one |
| TaskRegistry.Manager.Register | src/wsbuilder/tasks.py:338-340 | the task joins the registry and its group |
| TaskRegistry.Manager.FinalizeTask | src/wsbuilder/tasks.py:431-441 | all three books after a task has ended |
| TaskRegistry.Manager.EvictFinished | src/wsbuilder/tasks.py:443-449 | the loop pops the oldest down to the limit, and counts exactly the tasks that leave the books |

## Left out

- Foreign calls: sockets, TLS, packet protection, the handshake (one step that gives the peer's parameters), timers and clocks (times are parameters).
- QuicSender.SendSide.DrainOutbound: the packet layer is one answer per entry (sent, window full, refused). The early return of a closed connection or one without keys is left to the caller. Amplification limits, path migration, coalescing and the datagram's make-up are not described.
- QuicDelivery.NothingLostNothingTwice: that FIN only ends the stream is said of streams on which nothing is queued after the end, as the source does not refuse it. Producers that wait for queued bytes, and what is dropped at close, are not described.
- QuicLossRecovery.LossRecovery.OnAckReceived: the round-trip estimator and probe timeouts are not described, as they are floating point; the loss delay they give is a parameter.
- QuicLossRecovery.CongestionControl.OnPacketsLost: halving the window is integer division, which is what truncating half of it comes to for windows a double can hold.
- HpackLockstep.Lockstep: table sizes are at most 2^34 and coded strings shorter than the integer coding can carry, above which the decoder refuses them. Names and values are octets and lower-casing is that of ASCII; text encodings are not described.
- Huffman's trie is a value rather than nested lists changed in place while it is built.
- QpackRun.RunInStep: the encoder stream reaches the decoder in whole pieces, as the source itself demands of it; the decoder's own instructions (section 4.4 of RFC 9204) are not described. Capacities and insert counts are below 2^35.
- QuicFrames.PayloadIsParsed: a STREAM frame is written with its length, and a frame that the parser skips comes back as nothing, as in the source.
- Http2Run.BodyIsSpelled: handlers and producers are steps under the lock; their threads, timeouts and the failing of a producer after the connection died are not described.
- Http2Connection.Connection.OnSettings: of the settings only the window and frame size; the connection that died of one is not described further.
- Http2Connection.Connection.SendData: a stream's window is a field of the stream rather than an object of its own, and opening and releasing streams are steps on values in `Http2Run`.
- Http2Headers.BlockIsRebuilt: validation of header names, request building and dispatch are not described; their verdicts are parameters of the intake.
- WebSocketMessage.Receive: whether octets are text is a parameter. What is answered to a close or a ping, the handshake, idle ticks, keep-alives and sending are not described.
- WeightedRoundRobin.SharesAreKept: the set of targets and their weights stay the same over the run. Consistent hashing, least connections and health checks are not described.
- RateLimiterLaws.ThrottlingDecidesTheSame: for requests judged in the order of their times, though the source takes the time before the lock (src/wsbuilder/security.py:546); out of order, what holds of the rate is said by `RateLimiterDisorder`.
- SecurityPolicy.Policies.EvaluateRequest: time in whole ticks; lists and rules of access are what they answer for a request; retry-after values, counters and metrics are not described.
- SecurityPolicy.Policies.ObserveResponse: called for responses with a suspicious status to clients that are not on the whitelist; that filter is the caller's.
- TaskRegistry.Manager.FinalizeTask: task handles are values in the interleaved steps of `TaskRun`; results, timestamps and waiting are not described.
- Chunked coding, DNS names, the router, caches, the ORM, prediction code, dashboards and the command line: easier, or engines that are not visible in the source.
