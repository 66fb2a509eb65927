# Verification of the ASP/1, seam, resampler and half-duplex code

A Dafny 4.11 project that models the parts of this modem and station application where a
mistake would be quiet, and proves what they are relied on for.

| part | files |
|---|---|
| ASP/1 file transfer and chat (`app/asp.c`, `app/asp_wire.c`) | `Crc32`, `Wire`, `WireBuffers`, `Reassembly`, `Opening`, `SafeName`, `AspSpec`, `AspRuns`, `Asp`, `AspNet`, `AspSafety`, `AspHandling`, `AspTheorems`, `AspPeers`, `AspVerdicts`, `AspNames`, `AspTransfers`, `Layouts` |
| the lock-free rings (`app/ring.c`, `shell/ring.c`) | `RingSeam`, `RingCopies`, `RecordRing`, `AppRing`, `SampleRing` |
| the spine: transmit credit, events, ownership (`app/spine.c`, `shell/host.c`) | `TxCredit`, `Events`, `EventQueue`, `HostLines`, `HostEffects`, `Spine` |
| the resampler (`shell/resample.c`) | `Resample`, `Resampler` |
| the half-duplex driver (`shell/runtime.c`, `shell/loop.c`) | `HalfDuplex` |
| the broadcast filter and the telemetry codec (`apps/fecchat.c`, `shell/telemetry.c`) | `FecChat`, `Telemetry`, `TelemetryBuffers`, `Layouts` |

How it is put together:

- Code that updates state in place is a class or a method over arrays (`Asp.AspSession`,
  `AppRing.RecordRing`, `Spines.Spine`, `Resamplers.Resampler`, `HalfDuplex.Runtime`,
  `FecChats.FecChat` and so on), proved against functions on values. The theorems are about
  those functions.
- `AspNet` joins two sessions by two byte streams. Sends may be partial, deliveries may be cut
  anywhere, either user may chat, offer, answer, cancel and decline at any point, transports
  and files may fail at any point, and both stations report their partial files truthfully.
  `AspNet.Inv` is the invariant; `AspSafety` and `AspHandling` prove that each kind of step
  keeps it; `AspTheorems` draws the conclusions for every reachable state.
- The rings, the credit and the event queue are state machines whose steps are the atomic loads
  and stores of each thread; the theorems are about every interleaving. An atomic step
  publishes everything before it.
- Everything outside (transport, files, operator, link, modulator, devices) is a source of
  arbitrary answers.

Where the code and its comments or the obvious claim part ways, the code is modelled and the
difference is proved:

- The comment above `publish_credit` says the limit only grows. It falls exactly when credit is
  cut, or barred by a fault or a guest, while some was still showing, and by no more than a
  guest's payload otherwise (`TxCredits.LimitFallsExactly`); applied bytes plus room only fall by
  what a guest puts in (`TxCredits.StepKeeps`).
- "Took N of M bytes" is called unreachable. It is, without a guest; with one the bytes cut are no
  more than the guest put in, and can be all of that (`TxCredits.CreditNeverTruncates`,
  `TxCredits.GuestCanTruncate`).
- Bytes discarded during a fault are never credited back (`TxCredits.FaultsCostCredit`,
  `TxCredits.CreditCanBeLost`).
- An overflow of the event queue is always reported the first time. A later report is safe from
  any reader if and only if 70 bytes are free when the refused event is begun
  (`Events.ReportedHoweverRead`), and after seven faults cleared without draining they need not be
  (`Events.EighthReportCanBeLost`).
- Reducing a file name is idempotent unless the reduced name is a device's with an extension, and
  never then (`SafeNames.SafeNameIdempotent`, `SafeNames.ConTxt`).
- CANCEL and REJECT name an id but no direction, and both sides number from one, so either may
  stop the wrong transfer; `AspSpec.StopRouting` says exactly when, `AspVerdicts.WrongTransferCanStop`
  shows it, and safety does not depend on it.
- How a stream is cut can show before the peer has opened the session: exactly for streams of
  HELLOs that make no sense, the last one leaving room in the buffer, and then something else
  (`Opening.CutsAgreeExactly`). It cannot afterwards (`Reassembly.ChunkingIsInvisible`).
- A backend that supplies host commands can have a block captured while keyed, exactly when the
  link answers a command polled just before with a frame the modulator takes
  (`HalfDuplex.HearsExactly`, `HalfDuplex.CapturesKeyed`).
- A command line of the application can empty the link's queue even while a guest owns the link;
  `HostLines.PurgesExactly` says which lines.

`dafny verify dfyconfig.toml` checks the whole project.

## Model

| member | source | states |
|---|---|---|
| `Bytes.U16RoundTrip` | app/asp_wire.c:134-153 | a 16-bit word written little-endian reads back, whatever follows it |
| `Bytes.U32RoundTrip` | app/asp_wire.c:141-159 | a 32-bit word likewise |
| `Crc32.NibbleIsFourBits` | app/asp_wire.c:57-73 | one step of the nibble table is four shifts of the reflected register |
| `Crc32.NibblesFeedByte` | app/asp_wire.c:64-73 | two table steps feed one byte to the bit-serial register |
| `Crc32.Compute` | app/asp_wire.c:64-74 | the table loop computes the bit-serial CRC-32 of section 3.2.9 of IEEE 802.3 for every message |
| `Crc32.CrcContinues` | app/asp_wire.c:60-74 | the CRC of `a` continued over `b` is the CRC of `a + b`, which is what lets a transfer resume |
| `Crc32.CrcOfNothing` | app/asp_wire.c:64-74 | the CRC of nothing, started from zero, is zero |
| `Crc32.BurstIsDetected` | app/asp_wire.c:57-74 | two messages of equal length that differ only within four consecutive bytes always have different CRCs |
| `Crc32.CheckValue` | test/core/test_asp_wire.c:258 | the CRC of the nine characters "123456789" is 0xcbf43926 |
| `Wire.VarintMeaning` | app/asp_wire.c:16-45 | a varint that reads back is unsigned LEB128 (section 7.6 of DWARF 5): its value is the sum of its seven-bit groups |
| `Wire.LebRoundTrip` | app/asp_wire.c:16-45 | every length survives encoding and decoding, and exactly the bytes written are used |
| `Wire.FrameRoundTrip` | app/asp_wire.c:78-130 | a legal message followed by anything reads back with its type, payload and length |
| `Wire.FrameVerdictStable` | app/asp_wire.c:97-130 | OK and ERROR verdicts do not change when more bytes arrive |
| `Wire.ShortIsBounded` | app/asp_wire.c:97-130 | a SHORT verdict means fewer bytes than the longest message |
| `Wire.PartOfFrameIsShort` | app/asp_wire.c:97-130 | every proper prefix of a message is SHORT, never an error |
| `Wire.PayloadRoundTrip` | app/asp_wire.c:192-342 | every payload a station queues fits a message and parses back to what was meant |
| `Wire.TextBRoundTrip` | app/asp_wire.c:344-371 | a broadcast payload gives back its callsign (cut to what a slot holds), id and text |
| `Wire.HelloLooksLikeHello` | app/asp_wire.c:192-222 | every encoded HELLO passes the test for one, whatever follows |
| `Wire.StreamFront` | app/asp_wire.c:97-130 | reading any part of a stream of legal messages gives the first message whole, or an unfinished one |
| `Layouts.MessageLayout` | analysis/17-application-protocol.md:80-118 | every message byte for byte, by the tables of the specification: its type number, its length in seven-bit groups, and every field of its payload at its offset, little-endian |
| `Layouts.BroadcastLayout` | app/asp_wire.c:344-355 | the broadcast payload likewise: counted callsign, two bytes of id, text |
| `WireBuffers.VarintPut` | app/asp_wire.c:16-29 | the encoding loop writes exactly the LEB128 bytes, or nothing when they do not fit |
| `WireBuffers.VarintRead` | app/asp_wire.c:31-45 | the decoding loop returns the value and length, or nothing |
| `WireBuffers.FramePut` | app/asp_wire.c:78-95 | a message is written whole or not at all |
| `WireBuffers.FrameRead` | app/asp_wire.c:97-130 | the reader over a buffer agrees with the reader over its bytes |
| `WireBuffers.Writer.PutString` | app/asp_wire.c:162-173 | a length-prefixed string is written whole, cut to its maximum, or refused |
| `WireBuffers.HelloPut` | app/asp_wire.c:192-204 | the buffer ends up holding the HELLO payload, or nothing is reported |
| `WireBuffers.OfferPut` | app/asp_wire.c:237-250 | the same of OFFER |
| `WireBuffers.AcceptPut` | app/asp_wire.c:268-277 | the same of ACCEPT |
| `WireBuffers.IdCodePut` | app/asp_wire.c:289-297 | the same of REJECT, RESULT and CANCEL |
| `WireBuffers.StartPut` | app/asp_wire.c:308-316 | the same of START |
| `WireBuffers.TextBPutInto` | app/asp_wire.c:344-355 | the same of the broadcast payload, with the exact condition for fitting |
| `Reassembly.ParseSplits` | app/asp.c:533-549 | parsing a stream in two goes is parsing it at once |
| `Reassembly.ReceiveIsParse` | app/asp.c:517-549 | once the peer speaks ASP, one call with one chunk dispatches what a one-shot parse of buffer and chunk would |
| `Reassembly.ChunkingIsInvisible` | app/asp.c:517-549 | once the peer speaks ASP, however the stream is cut the messages dispatched, up to the first that ends the session, are those of the whole stream |
| `Opening.CutsAgreeExactly` | app/asp.c:495-551 | from the HELLO on, all cuts of a stream give the same messages, raw text and session if and only if the stream is not one or more HELLO messages that make no sense, the last shorter than the buffer, followed by a byte that is no HELLO |
| `Opening.CutIsInvisible` | app/asp.c:495-551 | any cut of any other stream comes to what reading it a message at a time does, raw mode included |
| `Opening.AmbiguousCutsDiffer` | app/asp.c:506-549 | a stream of that one kind has two cuts that show different amounts of raw text |
| `Opening.HearIsReceive` | app/asp.c:495-551 | in an open session a call with the raw decision in it is a call without |
| `Reassembly.BufferStaysPartial` | app/asp.c:520-549 | between calls the buffer holds an unfinished message shorter than the longest, so "message exceeds the maximum" cannot happen first |
| `Reassembly.ParseOfEncoded` | app/asp.c:533-549 | legal messages, concatenated, parse back to the same list |
| `Reassembly.LegalKeepsSession` | app/asp.c:425-487 | nothing a station of this program sends ends its peer's session |
| `SafeNames.SafeNameIsHarmless` | app/asp_wire.c:412-467 | a name that is accepted is non-empty, shorter than its buffer, free of separators, control and forbidden characters, and neither starts nor ends with a dot or space |
| `SafeNames.SafeNameIs` | app/asp_wire.c:412-467 | what becomes of every name, said without the reducing steps: the last component, as much as fits, cleaned, all but the dots and spaces at its ends; refused exactly when that is nothing or a device name with no room for the underscore |
| `SafeNames.HarmlessIsKept` | app/asp_wire.c:412-467 | a harmless name that fits and is no device name is taken as it is |
| `SafeNames.SafeNameIdempotent` | app/asp_wire.c:412-467 | reducing a result again changes nothing, unless the name once reduced is a device name with an extension, and then it always does |
| `SafeNames.DeviceStemSurvives` | app/asp_wire.c:379-410 | a device name with an extension keeps its reserved stem after the underscore is added |
| `SafeNames.ConTxt` | app/asp_wire.c:460-466 | the concrete case: CON.txt becomes CON.txt_, whose stem is still reserved |
| `SafeNames.FindBase` | app/asp_wire.c:412-428 | the scan finds what follows the last separator or colon |
| `SafeNames.IsReserved` | app/asp_wire.c:379-410 | the loops over the device table decide exactly whether the stem is one of them |
| `SafeNames.Reduce` | app/asp_wire.c:412-467 | the loops together compute the reduction, including every refusal |
| `AspVerdicts.VerdictIsRight` | app/asp.c:361-404 | over any held partial and any run of DATA: the whole file is reported OK, one damaged within four consecutive bytes is reported CRC_MISMATCH, and SHORT means a wrong length up to the 32-bit counter and nothing else |
| `AspVerdicts.ResumeIsChecked` | app/asp.c:291-338 | a receiver holding a true prefix is resumed after it; one holding a prefix damaged within four consecutive bytes, or more than the file, or one that cannot be checked, is started over |
| `AspSpec.StraysAreIgnored` | app/asp.c:291-421 | a message about a transfer other than the one in hand changes, sends and reports nothing |
| `AspSpec.RefusalFreesCancelWaits` | app/asp.c:202-246 | declining frees the slot whatever the transport does, and says so when it can; cancelling happens only if the CANCEL could be queued |
| `AspSpec.StopRouting` | app/asp.c:469-487 | REJECT or CANCEL stops the inbound transfer exactly when the id fits it and does not also fit the outbound one; the operator is told which was stopped, and nothing else |
| `AspVerdicts.WrongTransferCanStop` | app/asp.c:469-487 | the peer cancels what it sends and it is our own sending, under the same id, that stops |
| `AspSpec.DispatchConserves` | app/asp.c:425-493 | dispatching any message queues at most one reply and loses, repeats or interleaves no outbound byte |
| `AspSpec.PumpConserves` | app/asp.c:152-200 | the same of the transfer pump |
| `AspNames.OfferTakenUnder` | app/asp.c:248-289 | a station receiving nothing takes up a well-formed offer exactly if something is left of the name, under a harmless name of at most 255 bytes, which is the offered one if that is harmless and no device name; otherwise BAD_NAME |
| `AspNames.NamesFromOutside` | app/asp.c:248-289 | "../../x" is received as "x" and "CON" as "CON_" |
| `AspTransfers.TextGoesOut` | app/asp.c:104-123 | chat goes out, as one message or raw, whenever nothing is pending, the session lives and the text fits; otherwise nothing changes |
| `AspTransfers.TextIsHeard` | app/asp.c:439-445 | such a message reads back and its text is shown |
| `AspTransfers.BroadcastIsHeard` | app/asp.c:447-457 | a broadcast is shown as its text, and anything else of that type as it came |
| `AspTransfers.ByeAndUnknown` | app/asp.c:425-493 | BYE ends the session; an unknown type changes nothing |
| `AspTransfers.MalformedEnds` | app/asp.c:425-493 | which messages end the session with an error when too short, and which change nothing |
| `AspTransfers.OfferSays` | app/asp.c:127-149 | an offer carries the given name, type, size and CRC under the next id, with the defaults for what is not given |
| `AspTransfers.ResultIsTold` | app/asp.c:406-421 | whatever code the peer gives on our transfer is reported as it is, and the transfer is over |
| `AspTransfers.ReadFailureStops` | app/asp.c:176-189 | a file that cannot be read on is cancelled with the peer and reported short |
| `AspTransfers.WriteFailureStops` | app/asp.c:361-379 | data that cannot be written frees the slot and is answered WRITE_FAILED, if a message can be queued |
| `AspTransfers.SecondOfferIsRefused` | app/asp.c:248-262 | a second offer is rejected, if a message can be queued, and the first goes on |
| `AspTransfers.LateAnswerIsTheSame` | app/asp.c:223-246 | a decision put off has, when given, the effect it would have had at once |
| `AspTransfers.TransferGoesThrough` | app/asp.c:127-421 | any file offered to a free station holding any true prefix of it gets through when nothing is refused and nothing fails: the receiver ends with the whole file, both operators are told OK, and both slots are free |
| `AspRuns.OutboundStream` | app/asp.c:25-55 | over any run with any partial or empty sends, the bytes taken followed by the pending tail are every queued message in order |
| `AspRuns.RawIsDecidedOnce` | app/asp.c:499-515 | one event never leaves raw mode, and enters it only before the peer's first byte is read |
| `AspRuns.RawIsForGood` | app/asp.c:499-515 | against any peer and over any run raw mode is never left, and never entered once ASP was spoken |
| `AspNames.ReceivedUnderSafeName` | app/asp.c:248-289 | against any peer and over any run, whatever is being received is being received under a harmless name of at most 255 bytes |
| `AspRuns.EndsByItsBytes` | app/asp.c:425-493 | in an open session whether a message ends it depends only on its bytes |
| `AspRuns.SeenInOneChunk` | app/asp.c:506-549 | after a HELLO that makes no sense, a chat frame in the same chunk is read as a frame |
| `AspRuns.SeenInTwoChunks` | app/asp.c:506-515 | in a chunk of its own the same frame is raw text: before the session is open the cut can show |
| `AspRuns.SampleIsAmbiguous` | app/asp.c:506-549 | that stream is of the ambiguous kind |
| `Asp.AspSession.constructor` | app/asp.c:66-82 | opening queues our HELLO and nothing else |
| `Asp.AspSession.FlushOut` | app/asp.c:25-35 | the send loop pushes a prefix of what is pending, in any number of pieces, and stops short only when the transport refuses |
| `Asp.AspSession.QueueMessage` | app/asp.c:38-55 | one message at a time: refused while anything is pending, otherwise framed and pushed |
| `Asp.AspSession.Close` | app/asp.c:84-94 | closing drops both transfers and both buffers |
| `Asp.AspSession.SayText` | app/asp.c:104-123 | chat goes out framed or raw according to the link, and never while something is pending in raw mode |
| `Asp.AspSession.Offer` | app/asp.c:127-149 | an offer takes the next id even if it cannot be queued, and becomes the one outbound transfer only if it can |
| `Asp.AspSession.PumpTx` | app/asp.c:152-200 | one chunk of what the file holds at the offset, a DONE at the end, or an honest CANCEL when reading fails |
| `Asp.AspSession.Service` | app/asp.c:553-557 | pending output first, then one pump, with the credit the transport gives |
| `Asp.AspSession.Cancel` | app/asp.c:202-219 | either transfer is given up only once its CANCEL is queued |
| `Asp.AspSession.Answer` | app/asp.c:223-246 | accepting records what is held; declining frees the slot first |
| `Asp.AspSession.OnOffer` | app/asp.c:248-289 | a second or badly named offer is rejected; a good one is put to the operator under its safe name, and the operator's answer, if given at once, is the one acted on |
| `Asp.AspSession.OnAccept` | app/asp.c:291-338 | the prefix read back in blocks is the file's own beginning, and its CRC decides where to start |
| `Asp.AspSession.OnStart` | app/asp.c:340-359 | a start from zero discards what was held; any other start continues from it |
| `Asp.AspSession.OnData` | app/asp.c:361-379 | data is written, counted and folded into the running CRC, or the transfer fails |
| `Asp.AspSession.OnDone` | app/asp.c:381-404 | the verdict is sent and reported, and the slot is free |
| `Asp.AspSession.OnResult` | app/asp.c:406-421 | the verdict on our transfer is reported and the transfer is over |
| `Asp.AspSession.OnStop` | app/asp.c:469-487 | REJECT and CANCEL stop our transfer if the id fits it, else the peer's |
| `Asp.AspSession.Dispatch` | app/asp.c:425-493 | one whole message is handled as the step specification says; an unknown type changes nothing |
| `Asp.AspSession.Drain` | app/asp.c:533-549 | every whole message in the buffer is dispatched, up to one that ends the session |
| `Asp.AspSession.Recv` | app/asp.c:495-551 | feeding a chunk is a run of the event model, and from any session not ended dispatches, shows as raw text and leaves exactly what the chunked reference reader with the raw decision does |
| `AspTheorems.InitialHolds` | app/asp.c:66-82 | two freshly opened sessions satisfy the two-party invariant |
| `AspTheorems.HandleStep` | app/asp.c:425-493 | dispatching any message in flight keeps the two-party invariant |
| `AspTheorems.ActKeeps` | app/asp.c:104-557 | so does every other move: chat, offers, answers, cancels, sends, pumping, deliveries |
| `AspTheorems.ReachableHolds` | app/asp.c:66-557 | so the invariant holds in every reachable state of two stations |
| `AspTheorems.EndToEndIntegrity` | app/asp.c:127-421 | a transfer reported OK has the offered length and CRC and ends with the source's own bytes, and is the source whenever what was kept was a true prefix; the sender is told OK only of such transfers |
| `AspTheorems.SwapReachable` | app/asp.c:66-557 | the same invariant holds with the two stations exchanged |
| `AspTheorems.DoneIsAlwaysOk` | app/asp.c:381-404 | a DONE for the transfer still being received is always answered OK, never SHORT or CRC_MISMATCH |
| `AspTheorems.DataIsNeverMisattributed` | app/asp.c:361-379 | DATA taken in is always the next source bytes of the transfer being received, counted from the agreed offset |
| `AspTheorems.DataIsStored` | app/asp.c:361-379 | and it is appended whole, or the write fails and the reception ends |
| `AspTheorems.NeverMisread` | app/asp.c:499-549 | between two such stations no side is raw or ended and no delivery or full buffer could make it so, whatever arrived is unfinished or the oldest message in flight, and dispatching it raises no protocol error |
| `AspTheorems.DataBetweenStartAndDone` | app/asp.c:152-200 | between START(from) and DONE the DATA payloads are exactly the file from `from` on |
| `AspTheorems.OffsetWithinSize` | app/asp.c:152-200 | a transfer under way never reads past its end |
| `AspPeers.PeersKnowEachOther` | app/asp.c:425-437 | once its HELLO state is left, a side knows the other's announced callsign and capabilities, so files may be sent exactly when the outbound slot is free |
| `RingSeam.CopyInMisses` | app/ring.c:64-97 | a byte the producer stores never lands on anything published and unread |
| `RingSeam.StepKeeps` | app/ring.c:64-154 | every atomic step of either thread keeps the ring's invariant, however stale its copy of the other's counter |
| `RingSeam.UnreadSurvives` | app/ring.c:64-154 | in every interleaving the counters are at most a buffer apart and all that is published and unread is intact |
| `RecordRings.HeaderIsTrue` | app/ring.c:101-120 | the length the reader sees is the length that was written, and all of the record is there |
| `RecordRings.NeverRefused` | app/ring.c:113-116 | the branch that refuses a record not wholly contained is unreachable |
| `RecordRings.MoveKeeps` | app/ring.c:64-154 | every step of writer or reader keeps the record invariant |
| `RecordRings.StepRefinesFifo` | app/ring.c:64-154 | seen from outside each step appends one record, removes the oldest, or changes nothing |
| `RecordRings.RecordsComeWholeAndInOrder` | app/ring.c:64-154 | in every interleaving records are taken in order, each once, whole or dropped whole for want of room |
| `RingCopies.Put` | app/ring.c:26-37 | the wrapping copy in places the bytes and disturbs nothing of the lap before them |
| `RingCopies.Get` | app/ring.c:40-51 | the wrapping copy out gathers the bytes in order |
| `AppRing.RecordRing.Init` | app/ring.c:53-62 | storage of no size is refused, any other gives an empty ring |
| `AppRing.RecordRing.Write` | app/ring.c:64-97 | a record goes in whole exactly when it and the reserve fit, and otherwise nothing changes |
| `AppRing.RecordRing.PeekLen` | app/ring.c:101-120 | the length of the oldest record, or none when the ring is empty |
| `AppRing.RecordRing.Peek` | app/ring.c:122-131 | the same, zero standing for none |
| `AppRing.RecordRing.Read` | app/ring.c:133-154 | the oldest record is copied out if it fits the caller and dropped if not, and nothing else moves |
| `AppRing.RecordRing.Used` | app/ring.c:156-161 | the bytes in use are those of the records waiting, headers included |
| `AppRing.RecordRing.Reset` | app/ring.c:168-172 | resetting forgets everything |
| `SampleRings.SamplesAreAStream` | shell/ring.c:30-75 | in every interleaving the samples read are the samples written, in order, the rest being at most a buffer's worth |
| `SampleRings.SampleRing.Write` | shell/ring.c:30-52 | as many samples go in as there is room for |
| `SampleRings.SampleRing.Read` | shell/ring.c:54-75 | as many come out as are wanted and waiting, oldest first |
| `TxCredits.StepKeeps` | app/spine.c:643-672 | every step of submitter, modem, fault or guest keeps the credit invariant; applied bytes plus room never decrease, but by exactly what is taken of a guest's payload |
| `TxCredits.CeilingNeverFalls` | app/spine.c:736-769 | over any run the most the link could have taken never shrinks by more than guests put in, though the published limit may |
| `TxCredits.CreditNeverTruncates` | app/spine.c:643-672 | in every interleaving what is cut off submitted records is no more than guests put in the link; without guests each record fits when applied, and "took N of M bytes" is unreachable |
| `TxCredits.SubmissionTakes` | app/spine.c:912-953 | a submission takes all its data, or exactly 4096 bytes, or as much as brings the total up to the limit, or nothing when the limit was reached or the ring is full; what it takes is one record |
| `TxCredits.FreshCreditIsRoom` | app/spine.c:736-769 | in every reachable state with nothing in flight, nothing lost and no guest, full credit just published lets a submission take as much as the link has room for, up to 4096 bytes |
| `TxCredits.AcceptedBytesEnterOnce` | app/spine.c:923-953 | without a fault or a guest the bytes accepted are, in order and once each, those in the link's queue history and those still in the ring |
| `TxCredits.FaultsCostCredit` | app/spine.c:646-647 | bytes discarded during a fault or for a guest are missing from the credit for ever after, exactly that many; none missing if and only if none were discarded |
| `TxCredits.CreditCanBeLost` | app/spine.c:643-672 | a run in which a fault between submission and application loses a byte and the credit for it |
| `TxCredits.LimitFallsExactly` | app/spine.c:728-769 | in every reachable state without guests, publishing lowers the limit exactly when credit is cut or barred and some was still showing; otherwise it falls by no more than guests put in, contrary to the comment beside it |
| `TxCredits.LimitCanFall` | app/spine.c:728-735 | the published limit does fall, at once, if the first thing to happen is that credit is cut |
| `TxCredits.GuestCanTruncate` | app/spine.c:649-666 | a run in which a guest fills the link and an accepted record is cut by all the guest put in |
| `Events.EventRoundTrip` | app/spine.c:150-183 | every event reads back with its kind, code and flag, its strings shortened only for want of room, and its data up to 1024 bytes; one within the limits reads back as itself |
| `Events.EveryEventIsAccountedFor` | app/spine.c:192-207 | in every run every event emitted is tried in order, the events popped carry the kind, code, flag, strings and data of the ones kept, in order, those waiting are the rest of them, and the lost count is the number refused |
| `Events.OverflowIsReported` | app/spine.c:192-207 | in every interleaving with the reader a due overflow report is kept exactly when 70 bytes were free as its own attempt looked, which is so when no more than six earlier reports waited as the event was begun |
| `Events.ReportedHoweverRead` | app/spine.c:192-207 | the report of a refused event is kept whatever the reader does meanwhile if and only if 70 bytes are free when the event is begun |
| `Events.EighthReportCanBeLost` | app/spine.c:192-207 | a run of deliveries, replies and faults as the spine emits them in which the eighth report, after seven clearings, does not fit the reserve |
| `EventQueues.EventQueue.QueueEvent` | app/spine.c:150-183 | one event becomes one record or nothing: exactly when its encoding, its header and, for an ordinary event, the reserve fit |
| `EventQueues.EventQueue.Emit` | app/spine.c:192-207 | a refusal is counted and reported once |
| `EventQueues.EventQueue.Pop` | app/spine.c:1030-1059 | the oldest event comes out, carrying its fields |
| `HostLines.TestMatchesParser` | app/spine.c:531-544 | for every line the application's session test and the parser's keyword split agree |
| `HostLines.TestLine` | app/spine.c:531-544 | the loop over the keyword table decides the test |
| `HostLines.Split` | shell/host.c:158-169 | the scan finds the keyword and the parameters |
| `HostEffects.SplitIs` | shell/host.c:158-169 | the keyword is all before the first space and the parameters what follows the run of spaces after it |
| `HostLines.ConfigKeyword` | app/spine.c:571-627 | a setting's line runs under the setting's own keyword, whatever its value |
| `HostEffects.SettingNames` | app/spine.c:571-627 | each of the twelve settings runs under its own keyword and under no other's |
| `HostEffects.SettingSays` | app/spine.c:571-627 | the parser finds a setting's value as its parameter: text in upper case, a number that reads back, or TRUE or FALSE |
| `HostEffects.NumberReads` | app/spine.c:571-627 | every number written in a setting reads back as itself |
| `HostEffects.CommandReaches` | app/spine.c:675-682 | a typed command other than payload reaches the link exactly when the modem runs and no guest owns the link, or it is none of connect, disconnect, FEC send, id and break |
| `HostEffects.QueuedLineTells` | app/spine.c:685-711 | what a queued line tells the link, keyword by keyword and under which conditions, and that it tells nothing when the gate is shut |
| `HostLines.GuestOwnsTheLink` | app/spine.c:675-722 | while a guest owns the link no record the application can queue tells the link anything but ABORT or SET_MODE |
| `HostLines.PurgesExactly` | shell/host.c:397-414 | while a guest owns a running link its queue is emptied by exactly the command lines whose keyword is PURGEBUFFER, or DATATOSEND or BUFFER with a parameter that reads as zero |
| `HostLines.GuestQueueCanBePurged` | shell/host.c:410-414 | PURGEBUFFER can be queued by the application and does it |
| `Spines.Spine.TxSubmit` | app/spine.c:923-953 | a submission is a load, a write and a count of the credit machine; it takes at most 4096 bytes and what the limit allows, no less if the ring has room, and gives the reason for anything not taken |
| `Spines.Spine.SubmitCmd` | app/spine.c:970-988 | a command is queued exactly when it is not payload and its record fits the ring |
| `Spines.Spine.SubmitLine` | app/spine.c:955-968 | a line is queued up to its NUL exactly when it is not too long and its record fits the ring |
| `Spines.Spine.SubmitConfig` | app/spine.c:990-1026 | a setting is queued exactly when its value is not too long and its record fits the ring |
| `Spines.Spine.ApplyPayload` | app/spine.c:643-672 | payload is discarded unless permitted, and otherwise enters the link's queue as far as there is room |
| `Spines.Spine.ApplyOther` | app/spine.c:675-722 | commands, lines and settings have exactly the effect the gate and the parser give them |
| `Spines.Spine.ApplyNext` | app/spine.c:630-724 | the oldest record is applied, guest or no guest, as a step of the credit machine and a draining of the link; a purge leaves the link's queue empty; and the event queued, if any, is the refusal, the shortfall or a reply, as the record and the gate decide |
| `Spines.Spine.SeeGuest` | app/spine.c:786-819 | a guest's coming and going is a step of the credit machine, reported once; one that leaves mid-call has the call aborted |
| `Spines.Spine.PublishCredit` | app/spine.c:736-769 | the limit published is what was applied plus the room exactly when nothing bars sending, and each reason is given exactly when it is the first that applies |
| `Spines.Spine.Weigh` | app/spine.c:830-841 | half full cuts the credit and under a quarter restores it |
| `Spines.Spine.DrainCommands` | app/spine.c:771-781 | draining the command ring is a run of the credit machine and empties the ring |
| `Spines.Spine.ClearFault` | app/spine.c:483-497 | only a fault is cleared; the overflow report is rearmed and credit republished |
| `ResampleSpec.SampleIsCausal` | shell/resample.c:160-204 | no output already made depends on later input |
| `ResampleSpec.BlockingIsInvisible` | shell/resample.c:160-204 | however the input is blocked the output is that of the whole input |
| `ResampleSpec.OutputOfInputs` | shell/resample.c:160-204 | every output is the sum, over the input, of each sample times the tap as far along as the output lies after it; interpolating, after its place at the higher rate |
| `ResampleSpec.FirIsSpread` | shell/resample.c:175-202 | filtering a zero-stuffed signal is adding up each sample's own response |
| `Resamplers.Resampler.Init` | shell/resample.c:112-142 | ratios of zero or above eight are refused; any other starts silent |
| `Resamplers.Resampler.Push` | shell/resample.c:153-158 | writing each sample twice keeps the window of the last `nhist` inputs contiguous, oldest first |
| `Resamplers.Resampler.Convolve` | shell/resample.c:175-183 | with symmetric taps the loop over the window is the convolution |
| `Resamplers.Resampler.Phase` | shell/resample.c:191-202 | the polyphase loop is the full-rate filter over the zero-stuffed input |
| `Resamplers.Resampler.Resample` | shell/resample.c:160-204 | each call adds exactly its part of the reference output, decimated or interpolated, and drops what is short of a group |
| `Resamplers.Resampler.Pending` | shell/resample.c:213-222 | half the filter is owed: 12 outputs decimating, 12m interpolating |
| `Resamplers.Resampler.Flush` | shell/resample.c:224-250 | a flush puts out that much of the response to silence, as far as there is room, and forgets everything |
| `Resamplers.Resampler.Reset` | shell/resample.c:144-148 | a reset is silence |
| `Resamplers.FlushCoversDelay` | shell/resample.c:224-250 | an interpolating flush puts out 12m samples, among them the one where the last input meets the centre tap |
| `Resamplers.FlushCoversLastGroup` | shell/resample.c:224-250 | a decimating flush reaches the centre tap for the first sample of the last group |
| `Resamplers.InForIsLargest` | shell/resample.c:206-211 | the input count for a given output room is the largest in whole groups |
| `HalfDuplex.EdgesBalance` | shell/runtime.c:146-165 | in an alternating trace keyings exceed unkeyings by one exactly while keyed |
| `HalfDuplex.PerformKeeps` | shell/runtime.c:168-203 | a link step keys, and starts transmitting, exactly if it sends a frame the modulator takes, and captures and moves nothing |
| `HalfDuplex.PullKeeps` | shell/runtime.c:617-638 | samples come while transmitting and only then; a frame's end is followed without unkeying or unkeyed, and keyed means transmitting on return |
| `HalfDuplex.PullExactly` | shell/runtime.c:617-638 | a frame is pulled a block at a time to its last sample; at its end the link is asked, and what it sends follows without a gap, or the transmitter is unkeyed |
| `HalfDuplex.FrameIsThere` | shell/runtime.c:146-203 | a frame the modulator takes is there to be pulled, all of it, and keys only if not keyed |
| `HalfDuplex.NothingSeen` | shell/runtime.c:168-203 | an answer with no such frame keys and shows nothing |
| `HalfDuplex.ListenKeeps` | shell/loop.c:35-50 | a receiving iteration captures keyed exactly when the link answers a command polled in it with a frame the modulator takes, and ends transmitting exactly when such a command, a frame found in what was captured, or the timer step is so answered |
| `HalfDuplex.ListenDoes` | shell/loop.c:35-50 | a receiving iteration puts every command there is to the link, captures once, puts every frame found to the link, and steps it once for the passing of time, in that order and nothing else |
| `HalfDuplex.PlaysAll` | shell/loop.c:22-31 | a transmitting iteration plays exactly what it pulls |
| `HalfDuplex.HearsExactly` | shell/loop.c:52-65 | over any run keying alternates and matches transmission and nothing is pulled or played unkeyed; nothing is captured keyed if and only if no receiving iteration polls such a command |
| `HalfDuplex.NoHostHears` | shell/loop.c:35-50 | without a host nothing is ever captured keyed |
| `HalfDuplex.CapturesKeyed` | shell/loop.c:35-50 | a run of one iteration that polls a command, keys, and captures |
| `HalfDuplex.Runtime.StartTx` | shell/runtime.c:146-165 | an accepted frame keys if not keyed; a refused one keys nothing |
| `HalfDuplex.Runtime.StepAndPerform` | shell/runtime.c:168-203 | the loop over the link's actions performs them all, in order |
| `HalfDuplex.Runtime.Rx` | shell/runtime.c:523-597 | every decoded frame is put to the link, in order |
| `HalfDuplex.Runtime.PullTx` | shell/runtime.c:617-638 | an exhausted frame is reported to the link and followed or unkeyed, in place |
| `HalfDuplex.Loop.PollHost` | shell/loop.c:35-40 | the commands there are are delivered one after another, and without a host none |
| `HalfDuplex.Loop.ServeTx` | shell/loop.c:22-31 | the clock advances by the samples pulled, which are played keyed |
| `HalfDuplex.Loop.ServeRx` | shell/loop.c:35-50 | poll, capture, receive and one timer step, in that order, each recorded as it happens, and the clock advances by the samples captured |
| `HalfDuplex.Loop.Step` | shell/loop.c:52-58 | transmitting takes priority over receiving |
| `HalfDuplex.Loop.Run` | shell/loop.c:52-65 | any number of iterations from the start are a run of the driver on values, with its discipline and its exact condition for capturing keyed, and the clock is samples captured plus pulled |
| `FecChats.FilterAgreesWithHistory` | apps/fecchat.c:18-52 | a repeat is reported only if accepted inside the window, and missed only after 64 other acceptances no earlier than it |
| `FecChats.LongCallNeverRepeats` | apps/fecchat.c:37-49 | a callsign longer than a slot holds is never recognised |
| `FecChats.BroadcastRoundTrip` | apps/fecchat.c:73-131 | what is encoded is decoded, whatever follows |
| `FecChats.EverythingIsShown` | apps/fecchat.c:100-131 | what is heard is shown as a broadcast exactly when a whole one is at its front, and otherwise just as it came |
| `FecChats.BroadcastIsShown` | apps/fecchat.c:100-131 | a broadcast is shown with its callsign, as far as there is room, its id and its text |
| `FecChats.FecChat.IsNew` | apps/fecchat.c:18-52 | the scan, the ageing and the eviction in place compute the answer and the next table |
| `FecChats.FecChat.Encode` | apps/fecchat.c:73-98 | the message is written whole or not at all, and only success uses up an id |
| `Telemetry.RecordRoundTrip` | shell/telemetry.c:109-277 | every record that could be encoded decodes to itself, whatever follows |
| `Layouts.RecordLayout` | shell/telemetry.c:109-185 | every record byte for byte: its number, its payload's length, and every field at its offset, little-endian and in two's complement; nothing exactly when an array is missing or the room is short |
| `Layouts.TelemetryHelloLayout` | shell/telemetry.c:78-89 | the sixteen bytes of the stream hello |
| `Telemetry.VerdictStands` | shell/telemetry.c:187-200 | a verdict on a whole record does not depend on following bytes |
| `Telemetry.RawIsRead` | shell/telemetry.c:187-200 | a whole record is consumed by its own length, header included |
| `Telemetry.StreamRoundTrip` | shell/telemetry.c:187-277 | records interleaved with records the reader cannot make out decode to the same records in order, nothing left over |
| `Telemetry.ReadingSplits` | shell/telemetry.c:187-200 | reading a stream in two goes is reading it at once |
| `Telemetry.HelloRoundTrip` | shell/telemetry.c:78-105 | the stream hello gives back the spectrum geometry |
| `TelemetryBuffers.EncodeInto` | shell/telemetry.c:109-185 | the loops write exactly the encoded record, or nothing |
| `TelemetryBuffers.ParseFrom` | shell/telemetry.c:187-277 | the loops over the caller's arrays compute the same verdict and record |

## Left out

- Liveness of ASP/1 in general: a reply that finds the output buffer full is dropped, so a transfer may wait for ever; that one gets through is proved where nothing is refused and nothing fails.
- Wrap of the 16-bit transfer id and of machine-word ring counters: the two-party model makes fewer than 65536 offers in a run, and counters are unbounded.
- Progress callbacks, peer arrival callbacks and the wording of error texts in `app/asp.c`: they report and change nothing.
- Closing and reopening a session in the middle of a two-party run: each run starts from two opened sessions.
- Field layout of `asp_session`: the outbound and inbound halves are one record-valued field each.
- AspTheorems.EndToEndIntegrity: speaks of what was kept of an old partial as it was when its transfer started, because nothing but a CRC vouches for it.
- AspTransfers.TransferGoesThrough: the two stations take turns and nothing else is said meanwhile; with chat, losses and failures in between only safety is proved.
- Asp.AspSession.Recv: says of a session that has ended only that the call is a run of the event model.
- RecordRings.RecordsComeWholeAndInOrder: models each atomic access as a step that publishes everything before it, not weaker orderings.
- Spines.Spine.ApplyNext: leaves out the notifications a link step itself emits as events, and the size of a command record's fixed part is a parameter.
- The guest's own traffic in `app_step`, `app_report_fault` and device binding: their effect on credit is a step of the machine, not a method.
- HostLines.GuestOwnsTheLink: speaks of inputs to the link; settings written directly are outside it, and the validity of a callsign is a parameter.
- The event header is modelled as the 20 bytes common compilers give it, little-endian.
- Filter design and float rounding: taps are given and symmetric, sums are exact, and the rounding map is applied last; any final map would do.
- Resamplers.Resampler.Resample: keeps samples as integers in the history, which a float holds exactly.
- HalfDuplex.Runtime.PullTx: takes a link that emits at most one frame a step and a modulator whose accepted frames have samples, as the shell's own comments say; the demodulator only decides how many frames are delivered.
- FecChats.FilterAgreesWithHistory: takes a clock that does not run backwards, and compares callsigns as recorded, which is up to 31 bytes.
- `fecchat_text_capacity`: it counts one length byte, which is right only for short payloads.
- Telemetry: floats are 32-bit patterns; which observations are encoded when is not modelled.
- The telemetry server's drop-oldest queue, device request queue, capture files, settings, CAT control and host client.
- Sockets, serial ports, audio backends, files, processes, the user interfaces, scripts and argument parsing.
- The modem and link internals under `core/`: the link takes what fits, may drain, and may ask for anything.
