# Verification of the fake cameras, the bit fields and the category tree

A Dafny model of the parts of this repository that hold protocol state, cut
bytes into packets, or read them back, with proofs of what they promise. Every
`.dfy` file is one module; `dafny verify dfyconfig.toml` checks them all.

**USB3 Vision stream** (`U3vWire`, `U3vStream`, `U3vEngine`, `U3vRuns`,
`U3vTheorems`, `U3vLaws`, `U3vLayouts`, `U3vHost`, `U3vRegisters`, `U3vDecode`). A block is
cut into device transfers, those into 1024-byte packets, and packets fill host
transfers of any size. `U3vStream` says what one host transfer does on a list
of packets; `U3vEngine` is the device's own queue of transfers with offsets and
its one loop, proved to do exactly that; `U3vRuns` and `U3vTheorems` follow
whole runs with stalls, resets, stream disables, overruns and register writes.
`U3vHost` puts the host's queue of submitted transfers in front,
`U3vRegisters` the byte-addressed register map behind, and `U3vDecode` reads
the blocks back the way the host library does.

**GVSP** (`Gvsp`, `PacketScript`, `ScriptLaws`, `Retention`, `Recovery`,
`ReceiverLaws`, `ChunkData`, `GigePayload`, `GvspDecode`). A block becomes leader, data and trailer
datagrams; a script drops, repeats and reorders them; a bounded cache answers
resend requests. The end-to-end result is `Recovery.DamageIsRecovered`.

**Message channel** (`EventChannel`, `EventRuns`, `EventTheorems`,
`EventClient`). Events packed into messages, one outstanding at a time, sent
again until acknowledged or given up; each arm of the loop is one step.

**Control, heartbeat, region of interest** (`GigeRegisters`,
`GigeRegisterLaws`, `Control`, `ControlServer`, `ControlLaws`, `ControlTheorems`,
`CcpTheorems`, `Binning`, `GigeBinning`). Who may read and write, lazy expiry against an eager timer,
multi-register writes that stop at the first refusal, and binning arithmetic.

**Bit fields** (`Bits`, `BitOps`, `BitfieldBuilder`, `BitfieldLaws`). The parser's bit indices
mean the same to the extractor in both byte orders.

**Category tree** (`CategoryTree`). A depth-first walk of a possibly cyclic
graph with a shared `seen` set and a filter fused into it.

`Arithmetic` and `Bytes` hold what several modules share.

Where the source works step by step the model is a method with its loop, or a
class with the source's fields, and its `ensures` ties it to a specification
function; the theorems are about those functions. The modules named `...Laws` say
what the functions do in the wire's own numbers and positions, without their
branches. Time is a natural number,
frame pacing and generated test patterns are inputs, and each wake-up of a
`select!` loop is one input of a step function. Integers are unbounded; a cast
that cuts (`as u16`, `as u32`) is written out as a remainder or as the number
of bytes encoded. Every lemma turns automatic induction off, so what it rests on
is what its body says.

Some promises turned out to hold only under a condition, which is proved
exactly:

- After an endpoint reset the first leader is that of block 0 only if no block
  was abandoned unread in between: a transfer too small for the leader starts
  block 0, and a stream disable then abandons it
  (`U3vTheorems.FirstBytesAfterReset`, `BlockZeroCanBeSkipped`).
- A partial whole-packet payload transfer runs into the next one only if the
  trailer still fits behind it (`U3vLayouts.TransfersOneToOne`).
- CCP tells who is in control only as long as no ordinary write of the holder
  clears its access bits (`CcpTheorems.WriteKeepsTied`, `CcpTellsControl`,
  `ControlTheorems.HolderCanClearCcp`).
- A `<Mask>` field equals the masked and shifted register only for masks
  without a gap (`BitfieldBuilder.MaskIff`, `GappedMask`); a region narrower
  than the binning factor may move by more than the factor
  (`Binning.ReturnsIffNear`, `NarrowRegionMoves`).


## Model

| member | source | states |
|---|---|---|
| `U3vWire.LayoutCapacity` | crates/viva-fake-u3v/src/transport.rs:795-800 | the payload transfer sizes taken from the SIRM, zeros skipped, add up to count x size + the two final sizes |
| `U3vWire.PiecesJoin` | crates/viva-fake-u3v/src/transport.rs:801-813 | the pieces a payload is cut into join up to the payload's first bytes, as many as the sizes have room for |
| `U3vStream.TakeIsGreedy` | crates/viva-fake-u3v/src/transport.rs:711-717 | the packets a host transfer collects all fit, are all full packets but the last, and the next packet would not fit or must not follow |
| `U3vStream.GreedyIsUnique` | crates/viva-fake-u3v/src/transport.rs:748-752 | no other number of packets has that property: greedy filling is the only way to obey the short-packet rule |
| `U3vStream.FinishStep` | crates/viva-fake-u3v/src/transport.rs:734-752 | sending one full packet and going on equals the whole transfer: the loop may be cut at any packet boundary |
| `U3vEngine.StreamEndpoint.StreamTransfer` | crates/viva-fake-u3v/src/transport.rs:665-755 | one host transfer of the device's transfer queue, with its exits, is the transfer the packet-list specification prescribes: same bytes or error, same state afterwards |
| `U3vEngine.StreamEndpoint.StartBlock` | crates/viva-fake-u3v/src/transport.rs:759-828 | a block starts from the registers as they are: leader, payload cut by the host's layout, empty trailer; refused when the leader or trailer size is too small |
| `U3vEngine.CutPayload` | crates/viva-fake-u3v/src/transport.rs:801-813 | the cutting loop yields exactly the specified pieces |
| `U3vEngine.StreamEndpoint.DropIfOverrun` | crates/viva-fake-u3v/src/transport.rs:701-706 | with too few transfers queued the payload still to go is dropped and the block marked, once |
| `U3vEngine.StreamEndpoint.SendPacket` | crates/viva-fake-u3v/src/transport.rs:711-752 | one packet leaves, or the transfer ends by overflow, stall, full or short packet, in step with the specification |
| `U3vEngine.StreamEndpoint.BuildTrailerIfDue` | crates/viva-fake-u3v/src/transport.rs:707-710 | the trailer is built only when it is next, from what was really sent |
| `U3vEngine.StreamEndpoint.QueueExposureEnd` | crates/viva-fake-u3v/src/transport.rs:852-874 | an ExposureEnd command is queued only with both enables on, under the next request id, skipping 0 |
| `U3vEngine.StreamEndpoint.Reset` | crates/viva-fake-u3v/src/transport.rs:514-536 | a reset clears the halt, drops the block and restarts block ids at 0, and changes nothing else |
| `U3vEngine.StreamEndpoint.Write` | crates/viva-fake-u3v/src/transport.rs:620-631 | a register write starts or stops acquisition and abandons the block when it disables the stream |
| `U3vRuns.LeaderAlone` | crates/viva-fake-u3v/src/transport.rs:748-752 | the leader of a block is a host transfer of its own; a transfer too small for it fails and takes nothing |
| `U3vRuns.TransferTracks` | crates/viva-fake-u3v/src/transport.rs:665-755 | every transfer keeps the device's block and the host's bytes of it in agreement: the host holds the leader and a payload prefix, the device the rest |
| `U3vTheorems.StepKeeps` | crates/viva-fake-u3v/src/transport.rs:471-536 | every operation - transfer, reset, write, scripted fault - keeps the run's invariant |
| `U3vTheorems.EveryBlockWhole` | crates/viva-fake-u3v/src/transport.rs:665-755 | over every run each completed block is leader, a payload prefix and a trailer naming its length, flagged DATA_OVERRUN exactly when payload was dropped; between resets the completed blocks' ids strictly increase |
| `U3vTheorems.LeadersIncrease` | crates/viva-fake-u3v/src/transport.rs:759-772 | between resets the ids of all leaders a run returns strictly increase, those of blocks later abandoned by a stall or a stream disable included, and each is its block's leader byte for byte |
| `U3vTheorems.ReadsTileBlocks` | crates/viva-fake-u3v/src/transport.rs:665-755 | in every run without stall, reset and writes that abandon a block - other register writes, acquisition stops and queue demands allowed - the returned bytes are exactly the blocks received and the part under way, for every choice of transfer lengths and queue depths; failed and empty transfers take nothing |
| `U3vTheorems.OneBlock` | crates/viva-fake-u3v/src/transport.rs:977-986 | one block read by any transfers in such a run: the returned bytes are leader, payload prefix and a trailer whose valid size is that prefix's length |
| `U3vTheorems.EventsFollowTrailers` | crates/viva-fake-u3v/src/transport.rs:741-747 | over every run the queued events are one per completed block while both enables were on, in order, with its id and timestamp, and none for abandoned blocks |
| `U3vTheorems.HaltedUntilReset` | crates/viva-fake-u3v/src/transport.rs:670-674 | after a stall every stream transfer fails until a reset, whatever else happens |
| `U3vTheorems.StallHalts` | crates/viva-fake-u3v/src/transport.rs:720-732 | a step halts the endpoint exactly when it is a transfer that stalls |
| `U3vTheorems.FirstBytesAfterReset` | crates/viva-fake-u3v/src/transport.rs:514-536 | the first bytes after a reset are a leader, alone, whose id is the number of blocks abandoned unread since the reset |
| `U3vTheorems.RoomyReadsAbandonNothing` | crates/viva-fake-u3v/src/transport.rs:711-719 | if every transfer has room for a leader no block is abandoned unread, so that id is 0 |
| `U3vTheorems.BlockZeroCanBeSkipped` | crates/viva-fake-u3v/src/transport.rs:711-719 | otherwise it can be 1: a concrete run with a ten-byte transfer and a stream disable |
| `U3vLayouts.TakeAcross` | crates/viva-fake-u3v/src/transport.rs:748-752 | a device transfer ends its host transfer exactly when it fills it, ends in a short packet, or leaves no room for the next packet |
| `U3vLayouts.TransfersOneToOne` | crates/viva-fake-u3v/src/transport.rs:8-14 | a host reading with the sizes it wrote gets one host transfer per device transfer if and only if the last payload transfer stands alone |
| `U3vLaws.IdleSendsNothing` | crates/viva-fake-u3v/src/transport.rs:352-354 | a device that is not acquiring or whose stream is disabled sends nothing and keeps its state |
| `U3vLaws.ReadySendsLeader` | crates/viva-fake-u3v/src/transport.rs:759-772 | a ready device waits for its time, refuses a leader size under 52 or a trailer size under 32, and otherwise sends the next block's leader or overflows |
| `U3vLaws.AcquisitionFollowsWrites` | crates/viva-fake-u3v/src/transport.rs:620-627 | acquisition follows the writes that touch its two registers, stop winning, and no other operation |
| `U3vLaws.StoppedSendsNothing` | crates/viva-fake-u3v/src/transport.rs:675-677 | from AcquisitionStop until a write starts acquisition again no step of any run returns data |
| `U3vLaws.OnlyDisablingAbandons` | crates/viva-fake-u3v/src/transport.rs:628-631 | a block under way survives every write but one to the control register that leaves the stream disabled |
| `U3vLaws.OverrunLeavesTrailer` | crates/viva-fake-u3v/src/transport.rs:701-710 | with fewer transfers queued than required and payload next, all that comes is a trailer with status 0xA101 for what was sent |
| `U3vLaws.EnoughQueuedSends` | crates/viva-fake-u3v/src/transport.rs:701-717 | with enough queued and no stall armed the transfer begins with the next packet's bytes |
| `U3vLaws.StallComesAfter` | crates/viva-fake-u3v/src/transport.rs:720-732 | a stall armed after k payload packets comes in exactly the transfer that would send one more |
| `U3vLaws.PacketsAreFull` | crates/viva-fake-u3v/src/transport.rs:711 | a device transfer goes out in packets of 1024 bytes, only the last one shorter |
| `U3vLaws.SizesInOrder` | crates/viva-fake-u3v/src/transport.rs:795-800 | the transfer sizes come in the SIRM's order: the equal ones, then the two final ones, zeros left out |
| `U3vLaws.PiecesFill` | crates/viva-fake-u3v/src/transport.rs:801-813 | every piece fills its transfer but the last |
| `U3vLaws.FrameHoldsItsBits` | crates/viva-fake-u3v/src/registers.rs:903-910 | a frame's bytes hold width x height x depth bits with fewer than eight to spare |
| `U3vLaws.RequestsCycle` | crates/viva-fake-u3v/src/transport.rs:856 | event request ids run from 1 to 65535 and round again, never 0 |
| `U3vLaws.EventServed` | crates/viva-fake-u3v/src/transport.rs:877-891 | the event endpoint serves the oldest command while events are on, and loses one that does not fit |
| `U3vHost.SubmissionsCompleteInOrder` | crates/viva-fake-u3v/src/transport.rs:457-512 | over every sequence of calls, submitted transfers complete once each in submission order or are still queued |
| `U3vHost.QueueIsARun` | crates/viva-fake-u3v/src/transport.rs:471-508 | whatever the host submits, awaits and cancels, the device sees a run of stream transfers, each with the queue's real depth |
| `U3vHost.CancelDrains` | crates/viva-fake-u3v/src/transport.rs:471-512 | after a cancel, one wait per queued transfer completes each as cancelled and leaves the device untouched |
| `U3vHost.BulkIn.AwaitNext` | crates/viva-fake-u3v/src/transport.rs:471-508 | the oldest transfer is cancelled, served, or left waiting while the device has nothing; the device's count of queued transfers stays right |
| `U3vHost.BulkIn.SubmitTransfer` | crates/viva-fake-u3v/src/transport.rs:458-465 | a submission joins the queue's end and is counted |
| `U3vHost.BulkIn.CancelTransfers` | crates/viva-fake-u3v/src/transport.rs:510-512 | every transfer now queued, and no later one, is cancelled |
| `U3vHost.EventsAreTakenInOrder` | crates/viva-fake-u3v/src/transport.rs:877-891 | event commands taken by the host or cleared by a reset, then those waiting, are the ones the stream queued, in order |
| `U3vWire.TrailerReadsBack` | crates/viva-fake-u3v/src/transport.rs:977-986 | block id, status, valid size and height sit where the host's trailer parser looks |
| `U3vDecode.LeaderReadsBack` | crates/viva-u3v/src/stream.rs:739-794 | the host's leader parser gets back the id, payload type, time and format the device wrote |
| `U3vDecode.BlockReadsBack` | crates/viva-u3v/src/stream.rs:809-833 | a completed block parses at the host: leader and trailer name the same block, the trailer the payload length between them |
| `U3vDecode.EventReadsBack` | crates/viva-u3v/src/event.rs:65-113 | an event command parses as one ExposureEnd with the block's time and id |
| `U3vDecode.ChunksReadBack` | crates/viva-u3v/src/stream.rs:850-870 | a USB3 Vision chunk payload splits back into the image and each enabled chunk with its value, in order |
| `U3vDecode.ChunksHoldTheBlock` | crates/viva-fake-u3v/src/transport.rs:833-846 | the chunk 0x1001 carries the time and 0x1002 the block id, in the order enabled |
| `U3vRegisters.RegisterMap.Read` | crates/viva-fake-u3v/src/registers.rs:364-373 | a read is byte-addressed memory, unmapped bytes reading 0 |
| `U3vRegisters.RegisterMap.PayloadSize` | crates/viva-fake-u3v/src/registers.rs:399-405 | the size computed from the registers is the size of the format they hold |
| `U3vRegisters.RegisterMap.SyncPayloadSize` | crates/viva-fake-u3v/src/registers.rs:389-393 | both size registers take the current size and the format is unchanged |
| `U3vRegisters.RegisterMap.Write` | crates/viva-fake-u3v/src/registers.rs:376-385 | every mapped byte takes its value, unmapped ones are skipped, and the payload sizes are in step afterwards |
| `U3vRegisters.RegisterMap.LatchTimestamp` | crates/viva-fake-u3v/src/registers.rs:438-440 | a latch changes the timestamp register only, and no format |
| `U3vRegisters.StoreByte` | crates/viva-fake-u3v/src/registers.rs:355-360 | storing through the block that holds an address changes that byte and no other, as long as blocks do not overlap |
| `U3vRegisters.AdvertisedIsSent` | crates/viva-fake-u3v/src/registers.rs:389-405 | after any operation the SIRM's required payload size is the length of the payload the device then builds, whatever pattern, time and id |
| `U3vRegisters.RegisterMap.AcceptWrite` | crates/viva-fake-u3v/src/transport.rs:603-636 | an accepted write changes the map as written and latches the time when it sets the latch bit, and the payload sizes stay in step |
| `U3vRegisters.WriteReachesTheStream` | crates/viva-fake-u3v/src/transport.rs:620-631 | an accepted write is a register write as the stream takes it, with start, stop and control found from the bytes it touches: nothing the stream reads is out of step, and StreamEnable moves only when the control register is touched |
| `U3vRegisters.FormatFollows` | crates/viva-fake-u3v/src/registers.rs:399-466 | each word a host writes changes its own field of the image format - width, height, pixel format, chunk mode, the two chunk enables - and no other word changes any |
| `U3vRegisters.StreamFollows` | crates/viva-fake-u3v/src/registers.rs:468-482 | likewise the stream and event enables and the six sizes of the host's layout |
| `U3vRegisters.LatchReadsBack` | crates/viva-fake-u3v/src/transport.rs:632-635 | the timestamp register holds the time of a write that latches, and otherwise what it held |
| `Gvsp.BlockDatagrams` | crates/viva-fake-gige/src/gvsp.rs:313-339 | the packetising loop yields leader, chunks of the stride with ids from 1, and trailer |
| `Gvsp.DatagramIds` | crates/viva-fake-gige/src/gvsp.rs:313-339 | packet ids are positions, only the first datagram is a leader and only the last a trailer |
| `Gvsp.HeaderRoundTrip` | crates/viva-gige/src/gvsp.rs:376-407 | the receiver reads status, ids, format and body back, ids cut to 16 and 24 bits in the standard layout |
| `Gvsp.BlockIdsCycle` | crates/viva-fake-gige/src/gvsp_sender.rs:343-349 | the k-th block after the first has id k mod n + 1, n being 65535 or 2^64 - 1: ids count up, wrap to 1 and never take 0 |
| `Gvsp.PacketsFillTheSize` | crates/viva-fake-gige/src/gvsp.rs:187-191 | every data datagram but the last fills the packet size with IP, UDP and GVSP headers, and none exceeds it |
| `GvspDecode.LeaderReadsBack` | crates/viva-gige/src/gvsp.rs:426-468 | the receiver's leader parser gets payload type, time and image format back |
| `GvspDecode.TrailerReadsBack` | crates/viva-gige/src/gvsp.rs:491-537 | the receiver's trailer parser gets the lines, payload length and chunk layout back in all three trailer layouts |
| `PacketScript.Apply` | crates/viva-fake-gige/src/gvsp.rs:430-487 | the passes over the datagrams are the specified stages, in the fixed order |
| `PacketScript.KindsInterleaveFreely` | crates/viva-fake-gige/src/gvsp.rs:425-487 | two scripts whose steps for a block agree kind by kind damage it alike |
| `PacketScript.ScriptOutput` | crates/viva-fake-gige/src/gvsp.rs:430-487 | exact multiplicities: dropped packets never come out, every other once plus once per duplicate naming it, the leader once more per effective repeat, nothing else |
| `PacketScript.SparedKeepOrder` | crates/viva-fake-gige/src/gvsp.rs:430-487 | the data packets no step drops, delays or duplicates come out once each and in their order, whatever is done to the others |
| `ScriptLaws.BlocksAreAsBuilt` | crates/viva-fake-gige/src/gvsp.rs:313-339 | the datagrams of every block are leader, data and trailer with positions for ids, which is what the laws of the script's steps are about |
| `ScriptLaws.DropLands` | crates/viva-fake-gige/src/gvsp.rs:430-487 | in a block as built, a drop takes its packet out and nothing else |
| `ScriptLaws.DelayLands` | crates/viva-fake-gige/src/gvsp.rs:469-477 | a delay moves its packet that many places later, or to the end, the others keeping their order around it |
| `ScriptLaws.DuplicateLands` | crates/viva-fake-gige/src/gvsp.rs:430-487 | a duplicate comes right behind its original |
| `ScriptLaws.RepeatLands` | crates/viva-fake-gige/src/gvsp.rs:430-487 | a repeated leader comes right behind the packet it names |
| `ScriptLaws.EarlyTrailerLands` | crates/viva-fake-gige/src/gvsp.rs:430-487 | an early trailer comes right before the last data packet |
| `ScriptLaws.LandsInBlock` | crates/viva-fake-gige/src/gvsp.rs:430-487 | the same by position in a block as it is built |
| `ScriptLaws.BlockWide` | crates/viva-fake-gige/src/gvsp.rs:430-487 | a dropped block sends nothing, and a script that does not name a block changes nothing of it |
| `ScriptLaws.StepsInOrder` | crates/viva-fake-gige/src/gvsp.rs:425-487 | a step added to a script whose steps are of no later kind acts on what that script left, so any script is its steps in the fixed order of kinds |
| `PacketScript.InterleaveBlocks` | crates/viva-fake-gige/src/gvsp.rs:503-517 | the alternating loop is the specified interleaving |
| `PacketScript.InterleaveProjects` | crates/viva-fake-gige/src/gvsp.rs:503-517 | two interleaved blocks with different ids project back to each unchanged |
| `Retention.RequestRoundTrip` | crates/viva-fake-gige/src/resend.rs:59-94 | a resend request reads back in both id layouts |
| `Retention.Cache.Retain` | crates/viva-fake-gige/src/resend.rs:168-185 | a retention drops the older entry of its block, evicts the oldest, and keeps the packets by id |
| `Retention.CacheIsNewest` | crates/viva-fake-gige/src/resend.rs:168-185 | after any retentions the cache is the newest `capacity` distinct blocks by last retention, each with its last packets |
| `Retention.HeldExactly` | crates/viva-fake-gige/src/resend.rs:168-185 | a block's last retention is in the cache exactly when fewer than `capacity` other blocks were retained after it |
| `Retention.HeldAreLast` | crates/viva-fake-gige/src/resend.rs:168-185 | and the cache holds nothing but the last retention of each block |
| `Retention.IndexById` | crates/viva-fake-gige/src/resend.rs:172-179 | packets are indexed by id, a later datagram of an id replacing an earlier one, gaps empty |
| `Retention.Cache.AnswerRequest` | crates/viva-fake-gige/src/resend.rs:189-214 | the answer is the held packets of the range and a header for each one missing, in order |
| `Retention.AnsweredOnce` | crates/viva-fake-gige/src/resend.rs:189-214 | every id asked for is answered exactly once, at its place: the held bytes among those resent, or a PACKET_UNAVAILABLE header naming it among those not |
| `Retention.UnavailableReads` | crates/viva-fake-gige/src/resend.rs:189-214 | the header that stands for a missing packet reads as status 0x800C, its block and its id |
| `Recovery.ReceiveOriginals` | crates/viva-genicam/src/stream/assembly.rs:743-823 | whatever originals and error reports arrive, in any order and number, the receiver's buffer is never wrong, each data packet fills its slot, and neither the short-packet rule nor the trailer's range check ever takes one away |
| `Recovery.PayloadTaken` | crates/viva-genicam/src/stream/assembly.rs:796-841 | a data packet of the block is never taken for a misplaced short one: only its last can be short |
| `Recovery.DamageIsRecovered` | crates/viva-fake-gige/src/gvsp_sender.rs:203-214 | for every payload, stride of at least 1 and damage script, survivors and the cache's answers for what is missing, in any order and with any error reports among them, rebuild the payload exactly while the block is held, and with the trailer among them the frame is complete |
| `Recovery.UnavailableReportsError` | crates/viva-genicam/src/stream/assembly.rs:407-416 | the cache's answers for packets it no longer holds are such error reports, which the receiver ignores |
| `Recovery.RetainedBlockIsRecovered` | crates/viva-fake-gige/src/gvsp_sender.rs:203-214 | the same from the sender's own cycle: retained as built, then damaged, with fewer than `capacity` other blocks retained since |
| `ReceiverLaws.FrameIsItsPackets` | crates/viva-genicam/src/stream/assembly.rs:743-843 | whatever packets arrive, of this block or not, the frame is the bodies of data packets that did arrive, each at its slot, and zeros; the only body shorter than the stride is of the highest id so far and no lower than the trailer's |
| `ReceiverLaws.DataLands` | crates/viva-genicam/src/stream/assembly.rs:743-823 | a data packet is taken unless its id is 0, past the trailer's or already there, or it is too long; a short one goes as soon as a higher id or the trailer shows it is not the last |
| `ReceiverLaws.TrailerLands` | crates/viva-genicam/src/stream/assembly.rs:843-880 | the first trailer fixes the last id, closes the frame if it reports an error, and otherwise sends away a pending short packet below it |
| `ReceiverLaws.ReceiveTakes` | crates/viva-genicam/src/stream/assembly.rs:388-438 | only data packets without an error and trailers act, and none once an error closed the frame |
| `Recovery.TooManyPackets` | crates/viva-fake-gige/src/gvsp.rs:217-231 | with standard ids a block of 2^24 or more data packets cannot be completed: the 24-bit id never names that slot |
| `Recovery.TrailerIdWraps` | crates/viva-genicam/src/stream/assembly.rs:843-855 | with one packet fewer the trailer's id wraps to 0, and after it every data packet is refused as past the end |
| `Recovery.ErrorTrailerCloses` | crates/viva-genicam/src/stream/assembly.rs:860-867 | a trailer that reports an error closes the frame to everything after it |
| `ChunkData.ChunkPayload` | crates/viva-fake-gige/src/gvsp.rs:69-81 | the chunk-writing loop yields the layout |
| `ChunkData.ParseChunks` | crates/viva-gige/src/gvsp.rs:217-243 | the scan from the end is the specified reading, errors included |
| `ChunkData.ReadsBack` | crates/viva-fake-gige/src/gvsp.rs:69-81 | a laid-out list splits back into itself, in order, with its offsets |
| `ChunkData.Tiles` | fuzz/fuzz_targets/chunk_parse.rs:13-29 | a successful reading tiles the payload: laid out again it is the payload, byte for byte |
| `ChunkData.AcceptedIffLaid` | crates/viva-gige/src/gvsp.rs:217-243 | the accepted payloads are exactly the laid-out ones |
| `ChunkData.LaidInjective` | crates/viva-fake-gige/src/gvsp.rs:69-81 | different lists have different payloads |
| `ChunkData.ReadsBackIff` | crates/viva-fake-gige/src/gvsp.rs:69-81 | a list reads back as itself if and only if every id and length fits 32 bits |
| `GigePayload.ChunkValues` | crates/viva-fake-gige/src/gvsp_sender.rs:537-569 | the value chunks of the enabled selectors, in order; unknown selectors give none |
| `GigePayload.AdvertisedIsBuilt` | crates/viva-fake-gige/src/gvsp_sender.rs:353-410 | the advertised size is the built payload's length, chunk mode included, saturating at 32 bits, unless the frame is cut short, which is never longer |
| `GigePayload.ImageHoldsItsBits` | crates/viva-fake-gige/src/gvsp.rs:90-100 | an image takes the bytes its bits fill, or one a pixel for vendor formats and those without a depth |
| `GigePayload.ChunksHoldTheFrame` | crates/viva-fake-gige/src/gvsp_sender.rs:537-569 | behind the image the receiver finds exactly the enabled selectors' chunks, each with this frame's time, exposure, block id or dimensions |
| `GigePayload.BlockSplitsBack` | crates/viva-fake-gige/src/gvsp_sender.rs:521-533 | a chunk-mode block splits at the receiver into the image and the chunk of each enabled selector and no other, with this frame's values |
| `GigeBinning.PayloadSizeIsBuilt` | crates/viva-fake-gige/src/registers.rs:2449-2466 | reading PayloadSize through the register map gives that length |
| `GigeBinning.SettingsFollow` | crates/viva-fake-gige/src/registers.rs:2449-2466 | each word written to width, height, pixel format or chunk mode changes its own setting of the payload |
| `EventChannel.MessageChannel.NextMessage` | crates/viva-fake-gige/src/events.rs:210-245 | the packing loop pops the specified events and writes the specified message |
| `EventChannel.MessageChannel.PopJoining` | crates/viva-fake-gige/src/events.rs:227-234 | the inner loop pops exactly the bare events for one destination that still fit |
| `EventChannel.TakenIsWellFormed` | crates/viva-fake-gige/src/events.rs:210-245 | a message is one data event or at most eight bare events for one destination, and takes as many as it may |
| `EventChannel.MessageChannel.Wake` | crates/viva-fake-gige/src/events.rs:131-169 | each arm of the loop: queue or lose an event, settle, resend or give up the outstanding message |
| `EventChannel.MessageChannel.Step` | crates/viva-fake-gige/src/events.rs:121-190 | one turn of the loop is the specified step, and what it sends |
| `EventRuns.StepKeeps` | crates/viva-fake-gige/src/events.rs:121-190 | every step keeps the run's invariant |
| `EventTheorems.EverythingIsCounted` | crates/viva-fake-gige/src/events.rs:113-192 | over every run: events = lost + sent + queued, messages = acknowledged + abandoned + outstanding |
| `EventTheorems.EventsLeaveInOrder` | crates/viva-fake-gige/src/events.rs:113-192 | the messages' events in order and then the queue are the accepted events; the queue holds at most 16 and only while a message is outstanding; the wire is each message's one datagram as often as it was sent, in order |
| `EventTheorems.EventsQueue` | crates/viva-fake-gige/src/events.rs:132-138 | an event is queued behind the others, or lost when 16 wait |
| `EventTheorems.OnlyItsAckSettles` | crates/viva-fake-gige/src/events.rs:142-150 | an outstanding message is settled exactly by a datagram from its destination with status 0, its opcode and its id; any other leaves the channel as it was |
| `EventTheorems.MessagesAskFor` | crates/viva-fake-gige/src/events.rs:210-245 | each message goes to its first event's destination and asks for the acknowledgement of its kind |
| `EventTheorems.IdsRepeat` | crates/viva-fake-gige/src/events.rs:212 | two messages share a request id exactly when they are a multiple of 65535 apart |
| `EventTheorems.StaleAckIsIgnored` | crates/viva-fake-gige/src/events.rs:142-150 | an acknowledgement of a message is ignored while any of the next 65534 is outstanding |
| `EventTheorems.AckOfTheSameIdIsTaken` | crates/viva-fake-gige/src/events.rs:268-273 | 65535 messages later it is taken, so the bound is exact |
| `EventTheorems.SendsAreBounded` | crates/viva-fake-gige/src/events.rs:152-168 | with a fixed retry count R each message is sent at most R + 1 times, and exactly that often when given up |
| `EventTheorems.TransmissionsAreBounded` | crates/viva-fake-gige/src/events.rs:152-168 | messages <= transmissions <= (R + 1) x messages |
| `EventClient.MessageReadsBack` | crates/viva-gige/src/message.rs:190-226 | the host reads exactly a message's events, in order, unless it is longer than the host accepts, and then rejects it |
| `EventClient.OutstandingIsDelivered` | crates/viva-gige/src/message.rs:233-240 | in any run the host reads the outstanding message's events and its acknowledgement settles the message |
| `ControlServer.RegisterMap.NoteRegisterCommand` | crates/viva-fake-gige/src/registers.rs:1819-1835 | an expired privilege is revoked, then the holder's own command restarts its timer |
| `ControlServer.RegisterMap.WriteCcp` | crates/viva-fake-gige/src/registers.rs:1871-1884 | a CCP write claims, releases or is refused |
| `ControlServer.RegisterMap.WriteChecked` | crates/viva-fake-gige/src/gvcp_server.rs:639-661 | a write is taken with its side effects and acquisition signals, or refused and changes nothing |
| `ControlServer.RegisterMap.CheckAcquisition` | crates/viva-fake-gige/src/gvcp_server.rs:993-1010 | a non-zero word to AcquisitionStart or AcquisitionStop starts or stops the sender, anything else does not |
| `ControlServer.RegisterMap.HandleWriteReg` | crates/viva-fake-gige/src/gvcp_server.rs:675-707 | the pair loop is the specified prefix of writes, its reply and its test packet |
| `ControlServer.RegisterMap.HandleReadReg` | crates/viva-fake-gige/src/gvcp_server.rs:593-635 | the read loop answers every address or the first refusal |
| `ControlServer.RegisterMap.HandleReadMem` | crates/viva-fake-gige/src/gvcp_server.rs:709-763 | READMEM's refusals in order, then the bytes |
| `ControlServer.RegisterMap.HandleWriteMem` | crates/viva-fake-gige/src/gvcp_server.rs:765-806 | WRITEMEM's refusals, then one checked write |
| `ControlServer.RegisterMap.Handle` | crates/viva-fake-gige/src/gvcp_server.rs:302-315 | every register command applies the heartbeat rule before it is served |
| `ControlTheorems.OthersChangeNothing` | crates/viva-fake-gige/src/registers.rs:1858-1884 | while one peer holds control no command of another changes anything, the timer included, and its writes are refused |
| `ControlTheorems.ExclusiveBlocksReads` | crates/viva-fake-gige/src/registers.rs:1858-1865 | with the exclusive bit another peer is served no read |
| `ControlTheorems.CcpReadsZero` | crates/viva-fake-gige/src/registers.rs:1839-1843 | while nobody holds control CCP reads 0 |
| `ControlTheorems.RunKeepsClear` | crates/viva-fake-gige/src/registers.rs:1839-1843 | in every run the CCP register holds 0 whenever nobody holds control |
| `ControlTheorems.HolderCanClearCcp` | crates/viva-fake-gige/src/gvcp_server.rs:646-653 | the converse is not free: an eight-byte write over CCP clears it and keeps control |
| `CcpTheorems.WriteKeepsTied` | crates/viva-fake-gige/src/gvcp_server.rs:639-661 | an accepted write keeps the access bits of CCP in step with whether anybody holds control if and only if it is the four-byte CCP write, lands in another register, or leaves an access bit set |
| `CcpTheorems.OutsideMisses` | crates/viva-fake-gige/src/registers.rs:2153-2173 | a write that starts outside the CCP word never lands in it |
| `CcpTheorems.SideEffectsLeaveCcp` | crates/viva-fake-gige/src/registers.rs:2176-2212 | no side effect of a write reaches CCP, user sets included |
| `CcpTheorems.CcpTellsControl` | crates/viva-fake-gige/src/registers.rs:1839-1884 | in every run whose writes name CCP whole or start outside its word, CCP reads non-zero if and only if somebody holds control |
| `ControlTheorems.NobodyWritesPairs` | crates/viva-fake-gige/src/gvcp_server.rs:687-695 | nobody in control: a WRITEREG does nothing before its first claim and nothing without one |
| `ControlTheorems.OnlyAClaimWrites` | crates/viva-fake-gige/src/gvcp_server.rs:639-661 | nobody in control: a command without a claim changes no register |
| `ControlTheorems.PrefixApplied` | crates/viva-fake-gige/src/gvcp_server.rs:687-695 | a WRITEREG applies exactly the pairs before its first refused one |
| `ControlTheorems.LazyIsEager` | crates/viva-fake-gige/src/registers.rs:1819-1843 | over every timed run of commands from any peers, lazy expiry gives the replies of a device that revokes control the instant the timeout passes |
| `ControlTheorems.LateHolderIsRefused` | crates/viva-fake-gige/src/gvcp_server.rs:312-315 | a holder that comes back late finds its ordinary WRITEMEM refused and control given up |
| `ControlTheorems.LateHolderIsRefusedPairs` | crates/viva-fake-gige/src/gvcp_server.rs:312-315 | and likewise a WRITEREG that does not start with CCP, none of its pairs applied |
| `ControlTheorems.SilentHolderLoses` | crates/viva-fake-gige/src/registers.rs:1819-1835 | with the register at w milliseconds, a holder silent through other peers' commands keeps control, untouched, exactly until w x 1,000,000 ns after it last spoke; with w = 0 or no enforcement, for ever |
| `ControlTheorems.CommandsInTime` | crates/viva-fake-gige/src/registers.rs:1819-1843 | within w x 1,000,000 ns of the holder's last command its own restarts the timer and another peer's leaves everything as it was |
| `ControlTheorems.HolderReturns` | crates/viva-fake-gige/src/registers.rs:1819-1835 | on the camera itself, after such a run the holder's next command finds it in control exactly when it comes within the window |
| `ControlLaws.CcpDecides` | crates/viva-fake-gige/src/registers.rs:1871-1884 | a CCP write is refused while another holds control; an access bit gives control and starts the timer, none leaves nobody in control and CCP at 0 |
| `ControlLaws.RegsReadInOrder` | crates/viva-fake-gige/src/gvcp_server.rs:593-635 | bytes 4i to 4i + 4 of a READREG answer are the read of its ith address |
| `ControlLaws.RegsAnswered` | crates/viva-fake-gige/src/gvcp_server.rs:593-635 | it is acknowledged when every address may be read |
| `ControlLaws.RegsRefused` | crates/viva-fake-gige/src/gvcp_server.rs:593-635 | and otherwise refused whole, with the status of the first that may not |
| `ControlLaws.ReadRegAnswers` | crates/viva-fake-gige/src/gvcp_server.rs:593-635 | a peer without read access is refused whole |
| `ControlLaws.ReadMemAnswers` | crates/viva-fake-gige/src/gvcp_server.rs:709-763 | READMEM's refusals in the wire's numbers, then the address and the bytes there |
| `ControlLaws.HolderWrites` | crates/viva-fake-gige/src/gvcp_server.rs:765-806 | the holder's WRITEMEM is taken with its side effects and acknowledged with its address |
| `ControlLaws.AcquisitionSignals` | crates/viva-fake-gige/src/gvcp_server.rs:993-1010 | a non-zero word to 0x20024 starts and to 0x20028 stops the sender, nothing else signals |
| `GigeRegisterLaws.WriteReadsBack` | crates/viva-fake-gige/src/registers.rs:2153-2157 | an ordinary register reads back what was written and no other moves |
| `GigeRegisterLaws.PacketSizeReadsBack` | crates/viva-fake-gige/src/registers.rs:2094-2128 | the packet size reads back capped, keeps the do-not-fragment bit and fires one test packet of the size asked for |
| `GigeRegisterLaws.NotificationIsPerEvent` | crates/viva-fake-gige/src/registers.rs:2130-2141 | switching one event leaves every other as it was |
| `GigeRegisterLaws.EnableIsPerChunk` | crates/viva-fake-gige/src/registers.rs:2143-2151 | switching one chunk leaves every other as it was |
| `GigeRegisterLaws.UserSetRestores` | crates/viva-fake-gige/src/registers.rs:2276-2304 | loading a saved user set brings back the saved settings and changes nothing else |
| `GigeRegisterLaws.UnsavedSetIsDefault` | crates/viva-fake-gige/src/registers.rs:2284-2291 | a set never saved loads the settings the camera boots with |
| `GigeRegisterLaws.SaveTouchesItsSet` | crates/viva-fake-gige/src/registers.rs:2295-2304 | a save changes its own set alone, and one to set 0 nothing |
| `GigeRegisterLaws.LatchReadsBack` | crates/viva-fake-gige/src/registers.rs:2193-2197 | a latch makes the timestamp register read the time it was written at |
| `GigeRegisterLaws.TriggerCounts` | crates/viva-fake-gige/src/registers.rs:2206-2211 | a software trigger always counts, and waits for a frame only while FrameStart is selected |
| `GigeRegisterLaws.CommandsAreWriteOnly` | crates/viva-fake-gige/src/registers.rs:2006-2011 | what may not be read is what shares a byte with one of the seven command registers |
| `GigeRegisterLaws.ControllerNeedsCapability` | crates/viva-fake-gige/src/registers.rs:1923-1932 | without capability bit 27 the controller's port and address are no registers of the device |
| `GigeRegisterLaws.XmlReads` | crates/viva-fake-gige/src/registers.rs:2014-2024 | reads inside the XML return it byte for byte |
| `GigeRegisterLaws.HolderIsShown` | crates/viva-fake-gige/src/registers.rs:2026-2036 | the port and address of whoever holds control can be read, 0 while nobody does |
| `Binning.ScaleIsExact` | crates/viva-fake-gige/src/registers.rs:2228 | the u32 cast in the scaling never truncates |
| `Binning.RebinStaysPut` | crates/viva-fake-gige/src/registers.rs:2214-2237 | a change of factor never moves the region's start to the right; a region at least one new pixel wide keeps start and width to within one, a narrower one becomes one pixel at the last whole pixel or before |
| `Binning.AlwaysInside` | crates/viva-fake-gige/src/registers.rs:2223-2237 | after any run of binning writes offset + size <= maximum = sensor / factor |
| `Binning.WideReturns` | crates/viva-fake-gige/src/registers.rs:2223-2237 | binning 1 to n and back keeps the whole binned pixels of a region at least n wide |
| `Binning.ReturnsIffNear` | crates/viva-fake-gige/src/registers.rs:2223-2237 | size and offset return to within n exactly when the region is n wide, n exceeds the sensor, or a non-empty region starts inside a whole binned pixel |
| `Binning.NarrowRegionMoves` | crates/viva-fake-gige/src/registers.rs:2223-2237 | a concrete narrow region that does not return |
| `GigeBinning.FactorTakesEffect` | crates/viva-fake-gige/src/registers.rs:2176-2192 | a factor written to its register does to the registers what the axis arithmetic says |
| `GigeBinning.RegistersStayInside` | crates/viva-fake-gige/src/registers.rs:2176-2192 | both regions stay inside their maximums through any run of writes to either binning register, and each axis is what the factors written to it make of it |
| `BitOps.Extract` | crates/viva-genapi/src/bitops.rs:59-89 | the accumulating loops compute the field, or the right error |
| `BitOps.Insert` | crates/viva-genapi/src/bitops.rs:92-137 | the register's bytes are rewritten in place to hold the value, or left alone with the right error |
| `BitOps.NumberBit` | crates/viva-genapi/src/bitops.rs:63-77 | the accumulated number's bits are the register's, counted from the end the byte order counts from |
| `BitOps.ExtractNamesBits` | crates/viva-genapi/src/bitops.rs:59-89 | extracting gives, bit for bit, the register bits from the field's offset on |
| `BitOps.InsertNamesBits` | crates/viva-genapi/src/bitops.rs:92-137 | inserting sets exactly the field's register bits |
| `BitOps.ExtractAfterInsert` | crates/viva-genapi/src/bitops.rs:92-137 | extract after insert gives the value |
| `BitOps.InsertWhatIsThere` | crates/viva-genapi/src/bitops.rs:92-137 | inserting what is there changes nothing |
| `BitOps.InsertTwice` | crates/viva-genapi/src/bitops.rs:92-137 | the last insert wins |
| `BitOps.DisjointFieldUnchanged` | crates/viva-genapi/src/bitops.rs:92-137 | every disjoint field of the same byte order is unchanged |
| `BitOps.DisjointInsertsCommute` | crates/viva-genapi/src/bitops.rs:92-137 | disjoint inserts commute |
| `BitOps.BigFieldIsReversedLittle` | crates/viva-genapi/src/bitops.rs:71-77 | a big-endian field is the little-endian field from the other end of the reversed bytes |
| `BitfieldBuilder.Builder.NoteLsb` | crates/viva-genapi-xml/src/builders.rs:131-141 | records an LSB unless another source was declared first |
| `BitfieldBuilder.Builder.NoteMsb` | crates/viva-genapi-xml/src/builders.rs:144-154 | records an MSB unless another source was declared first |
| `BitfieldBuilder.Builder.NoteBit` | crates/viva-genapi-xml/src/builders.rs:157-167 | records a bit unless another source was declared first |
| `BitfieldBuilder.Builder.NoteLength` | crates/viva-genapi-xml/src/builders.rs:170-180 | records a length unless another source was declared first |
| `BitfieldBuilder.Builder.NoteMask` | crates/viva-genapi-xml/src/builders.rs:183-189 | records a mask only if nothing was declared |
| `BitfieldBuilder.Builder.NoteOrder` | crates/viva-genapi-xml/src/builders.rs:192-194 | records the byte order, the last one winning |
| `BitfieldLaws.NotesLand` | crates/viva-genapi-xml/src/builders.rs:131-194 | fed a node's elements in any order, the builder ends with the last value of each element of the first source, the first mask and the last byte order |
| `BitfieldLaws.RangeReads` | crates/viva-genapi-xml/src/builders.rs:252-258 | an LSB and MSB are accepted exactly when both are there and below 8 x the register's bytes, and read the bits from the lower to the higher, counted from the end the byte order counts from |
| `BitfieldLaws.BitReads` | crates/viva-genapi-xml/src/builders.rs:260-264 | a bit and length, 1 if none, likewise read that many bits from the bit on |
| `BitfieldLaws.MaskReads` | crates/viva-genapi-xml/src/builders.rs:265-273 | a mask of l ones from bit t on is accepted exactly when it fits and reads the register's number masked and shifted down |
| `BitfieldBuilder.OnlyFirstSourceCounts` | crates/viva-genapi-xml/src/builders.rs:131-194 | only notes of the first declared source and byte orders affect the result |
| `BitfieldBuilder.AcceptedIsInRange` | crates/viva-genapi-xml/src/builders.rs:202-338 | every field accepted for a 1- to 8-byte register is one the bit operations accept |
| `BitfieldBuilder.ExtractsNamedBits` | crates/viva-genapi-xml/src/builders.rs:305-338 | a field declared by bit numbers extracts exactly the register bits of those numbers in either byte order |
| `BitfieldBuilder.MaskExtracts` | crates/viva-genapi-xml/src/builders.rs:265-273 | in both byte orders a mask's field is the digits from its lowest one on |
| `BitfieldBuilder.MaskIff` | crates/viva-genapi-xml/src/builders.rs:265-273 | that field is the masked register shifted down, for every register value, if and only if the mask has no gap |
| `BitfieldBuilder.MaskBuilds` | crates/viva-genapi-xml/src/builders.rs:322-338 | the builder makes of a mask exactly that field, and accepts it exactly when it fits the register |
| `BitfieldBuilder.GappedMask` | crates/viva-genapi-xml/src/builders.rs:265-273 | a concrete mask with a gap that reads differently |
| `CategoryTree.Walker.TreeNode` | crates/viva-camctl/src/cmd_inspect.rs:74-131 | the recursive walk with its mutable seen set is the specified one, and terminates on cyclic graphs |
| `CategoryTree.Walker.TreeNodes` | crates/viva-camctl/src/cmd_inspect.rs:90-94 | a category's children in order, one shared seen set |
| `CategoryTree.FilterIsPruning` | crates/viva-camctl/src/cmd_inspect.rs:37-72 | the filtered tree is the unfiltered one without the features not kept and then without empty categories |
| `CategoryTree.TreeShowsOnce` | crates/viva-camctl/src/cmd_inspect.rs:86-89 | whatever the filter, no category appears twice |
| `CategoryTree.TreeShowsReachable` | crates/viva-camctl/src/cmd_inspect.rs:85-94 | each category reachable from the roots through shown categories appears exactly once, and no other |
| `CategoryTree.TreeGrowsFromRoot` | crates/viva-camctl/src/cmd_inspect.rs:50-51 | with a `Root` a category is shown exactly when a chain of shown categories, each listing the next, leads to it from `Root` |
| `CategoryTree.RootIsTheTree` | crates/viva-camctl/src/cmd_inspect.rs:50-51 | the tree is then the one node `Root`, or nothing if it is hidden |
| `CategoryTree.TreeGrowsFromUnlisted` | crates/viva-camctl/src/cmd_inspect.rs:52-65 | without one the chains start at the categories no category lists |
| `CategoryTree.TreeIsOrdered` | crates/viva-camctl/src/cmd_inspect.rs:90-94 | whatever the filter, every branch shows its children in the order its category lists them, and the roots stand in the order of the categories |
| `CategoryTree.TreeShowsFeatures` | crates/viva-camctl/src/cmd_inspect.rs:105-131 | every branch holds, in order, the shown features its category lists |

## Left out

- Sockets, tokio tasks, locks, `link_down`, spoofed sources, multicast and the camera being unplugged: only the step each received command, datagram or timer tick performs is modelled; a transmission counts whether or not the link is up, as in the source.
- Test patterns, HSV conversion, frame-rate and packet-delay timing and the device temperature: floating point and wall clock; patterns and pacing are inputs, and reading `DeviceTemperature` is not modelled.
- GenCP command parsing and acknowledgements on the USB control endpoint, and its read-only and write-only refusals: a register write is modelled from the point where it is accepted.
- The sender's choice of payload type, chunk layout id and Size Y for a block, and which of a script's blocks is whose turn: a block's header fields are inputs, and what is proved holds for all of them.
- GVCP discovery, FORCEIP, action commands, delayed acknowledgements, the in-flight set and configured command refusals: fixed layouts and test plumbing around the register commands that are modelled.
- The receiver's size limits and preallocated buffers, payload types it does not assemble, late blocks, timeouts and resend scheduling: `Recovery` models how the packets of one block are placed, taken back and ignored.
- 64-bit wrap-around of block ids, counters and addresses: these are unbounded in the model.
- XML parsing, ZIP handling, URL fetching, register initial values and the embedded XML text: library calls and constant data.
- Other `viva-camctl` commands, image encoding and the Python scripts: wrappers that would only add easy members.
- `CategoryTree`: case folding of the filter and how a feature's state becomes text; the filter is any predicate on names and a feature comes with its text.
- U3vRegisters.RegisterMap.constructor: starts from any non-overlapping blocks that include the registers the device writes, instead of listing the fixed initial registers.
- U3vRegisters.AdvertisedIsSent: assumes the payload size fits 64 bits; the source multiplies width, height and depth in 64 bits without a check.
- GigePayload.AdvertisedIsBuilt: computes sizes without the 64-bit bound of `usize`, which a size that fits 32 bits never reaches.
- Recovery.DamageIsRecovered: needs the block's packets, the trailer included, to be told apart by the header's packet id, 32 bits extended or 24 bits standard, and a trailer without an error status, which is what the sender builds; `Recovery.TooManyPackets`, `TrailerIdWraps` and `ErrorTrailerCloses` show that these bounds are real.
- GigeRegisters: the register table is a list searched from the front, one of the orders the source's hash map may have; the order matters only when a host creates overlapping registers.
- ControlTheorems.OnlyAClaimWrites: a test packet that an earlier refused WRITEREG asked for may still be fired by a later release, as in the source.
- U3vHost.BulkIn.AwaitNext: one stream handle; the source shares the count of queued transfers among all of them and takes a dropped handle's share off it, and an unplugged camera fails every transfer.
- U3vHost.EventsAreTakenInOrder: an event command longer than the host's transfer is lost with that transfer and counts as taken, as in the source.
