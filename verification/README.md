# USBMIDI 9: a verified model

USBMIDI 9 is a USB MIDI class driver for Mac OS 9 with an OMS driver on top of it, and a set of host tools for the
formats of that platform. This project models its core in Dafny and proves what every run, every input and every
byte stream keeps. `dafny verify dfyconfig.toml` checks it all.

* **The class driver** (`UsbMachine`, `UsbDriver`, `UsbEntry`, `UsbRegistry`, `UsbRuns`, `UsbRemoval`, `UsbBlocks`,
  `UsbService`, `UsbTasks`). The transaction starter and the completion call each other while the USB library may answer
  each call later, inside the call, with success and no callback, or with an error. The library is a script of answers;
  completions are separate stimuli that may interrupt the removal notification between any two of its steps. `UsbDriver`
  and `UsbEntry` are the code, over an array of instances; `UsbMachine` and `UsbRegistry` say what it does; `UsbRuns`,
  `UsbRemoval` and `UsbBlocks` what every run keeps; `UsbService` and `UsbTasks` tell, call by call and instance by
  instance, what is asked of the library.
* **The byte ring** (`Ring`, `RingRuns`). Free-running 32-bit counters, one producer, one consumer, and a producer that
  may fire between any two byte copies of a half-finished dequeue.
* **MIDI over USB** (`Packets`, `MidiStream`, `RxRuns`, `MidiRoundTrip`, `OmsTx`, `OmsTxRuns`, `OmsTxPorts`, `OmsRx`,
  `OmsRxRuns`, `RxPath`, `RxNested`, and for the bytes on the wire `Wire`, `OmsTxWire`, `OmsWire`). Two packetizers, one
  receiver, the OMS send hook with its carries, the demultiplexing drain, the way from the ring to the ports with
  transfers interrupting the drains, and what happens when such a transfer drains the ring as well.
* **PEF** (`PefFormat`, `PefUnpack`, `PefDecoder`, `PefBytes`, `PyUnpack`, `Reloc`, `RelocRun`, `RelocWords`, `RelocResolve`,
  `RelocVector`). Pattern-initialized data decoded twice, in Rust and in Python; relocation as an additive address
  trace, and opcode by opcode; the pointer resolver and the analysis of the special main.
* **Archive codecs** (`Bits`, `Canonical`, `CanonicalOrder`, `CanonicalTables`, `Lzh`, `LzhRun`, `LzhDynamic`,
  `LzhMoves`, `LzhCoder`, `LzhTokens`, `LzhUnitMatch`, `LzhOwnTables`). Canonical prefix codes, the metacode that spells
  code tables, and the LZSS stream of StuffIt method 13.
* **BinHex 4.0** (`BinHexRle`, `BinHexText`, `BinHexAlphabet`, `Crc`, `BinHexFile`, `BinHexLayout`, `BinHexMark`,
  `BinHexCrcMark`, `BinHexRun`). Appendix A of RFC 1741.
* **Descriptors** (`Descriptors`, `Topology`, `TopologyBytes`, `TopologyRun`). The walker, the MIDIStreaming parser, the
  port list.
* `Words` holds bytes, 32-bit words and powers of two.

Code that updates state step by step is modelled by classes and methods with loops, each proved against a
specification function; the theorems are about those functions.

## Where the code and its documentation differ

* `core/ports.h` says that vendor and product come from the first device descriptor. The code keeps those of the last
  full device descriptor before the MIDIStreaming interface, and so does the model (`Topology.Summary`,
  `Topology.SecondDeviceWins`).
* `core/ports.h` calls what is recorded of an OUT jack the list of its source jacks. In table 6-4 of the USB Device Class
  Definition for MIDI Devices 1.0 each source is followed by its pin, and the code reads consecutive bytes, so from the second
  pin on it records other bytes of that list (`TopologyBytes.SecondSourceLost`). Exactly when the sources come out right is
  `TopologyBytes.SourcesIff`; with one pin they always do.
* `classic/ring.h` promises one consumer, at task level. The OMS driver has two: with the event hook registered, a read
  completion drains the ring (`oms/oms_rx.c:203-209`), also while a drain at task time is half done
  (`oms/oms_driver.c:185`, `:700`). The task-time dequeue is harmed if and only if it found something to read and a
  transfer comes before it publishes the head (`RxNested.HarmlessIff`, `RxNested.DequeueHooked`): then the head passes the
  tail, the ring counts 2^32 - n bytes although nothing is unread, and the loop goes on for some 67 million turns
  (`RxNested.RunsAway`). A note on and its note off are enough (`RxNested.NoteHangs`). A transfer that comes while the
  packets of a dequeue are being routed is routed ahead of the rest of them (`RxNested.RouteOvertaken`,
  `RxNested.OvertakesIff`).
* The fixture encoder sends no distance for a match at distance one. The round trip holds for every code set if
  and only if no such match is chosen (`LzhUnitMatch.RoundTripIff`, `LzhUnitMatch.EncodedIff`), in particular without
  four equal bytes in a row (`Lzh.NoFourEqual`).
* The fixture encoder does not escape 0x90 in a BinHex header or CRC. A file whose first such mark is followed by a byte
  other than 0 and 1 is never read back (`BinHexMark.FirstMarkFails`); with a single mark it is read back if and only if
  nothing but zeros follows (`BinHexMark.OneMarkIff`), which does happen (`BinHexMark.MarkSurvives`). Where the mark's
  successor is packed data or the mark is in a fork's CRC the condition is that of `BinHexCrcMark.EndingMarkIff`,
  `BinHexCrcMark.FirstOfDataCrcIff`, `BinHexCrcMark.SecondOfDataCrcIff` and `BinHexCrcMark.RsrcCrcIff`.
* The two PEF decoders differ on varints of more than five bytes (`PyUnpack.SixByteVarint`); `PyUnpack.Agreement` says
  that they differ in nothing else.
* A special main can be reported as a valid vector although its words point nowhere (`RelocVector.ValidNowhere`); exactly
  when they point into sections is `RelocVector.ValidSomewhereIff`.
* The relocation replay calls itself complete although an unsupported sub-opcode was skipped
  (`Reloc.UnsupportedStaysComplete`). What the flag means is `Reloc.CompleteMeansApplied`; the flag together with an empty
  list of notes does mean that everything was carried out (`Reloc.SilenceMeansFaithful`).
* A full receive queue breaks the tag grammar if and only if it turns away the begin or the end of a run
  (`RxRuns.TagGrammarIff`).
* The code-index table is the repository's own, which numbers some codes differently from Table 4-1 of the USB Device
  Class Definition for MIDI Devices 1.0; what is proved is its internal consistency.
* `oms_tx_sysex_chunk` reads the last byte of a chunk before it rejects an over-long one; whatever it finds there, the
  chunk is counted as malformed and nothing is sent (`OmsTx.OmsOutput.SysexChunk`).
* The branch of the transaction starter for a machine already stopped is reachable only when the 32-bit token counter
  wraps to 0 during a stimulus (`UsbDriver.TokenDiffers`, `UsbDriver.StoppedBranchIff`), and then it is taken
  (`UsbDriver.StoppedBranchTaken`); even so no call is submitted twice, because the block is not held
  (`UsbRuns.RunsAreSafe` needs no assumption about the token).

## Model

| member | source | states |
|---|---|---|
| Ring.MaskedSlot | classic/ring.c:62-63 | masking a counter with size - 1 gives the slot that reduction modulo the size gives |
| Ring.CounterSlot | classic/ring.c:39-80 | the slot of `head + k` is the same whether or not the 32-bit counter has wrapped, because a power-of-two size divides 2^32 |
| Ring.ByteRing.Reset | classic/ring.c:24-28 | an empty ring, whatever the counters were |
| Ring.ByteRing.Used | classic/ring.c:30-37 | the wrapping difference of the counters, which is the number of unread bytes; 0 for a size that is no power of two |
| Ring.ByteRing.Enqueue | classic/ring.c:39-80 | the ring becomes the bounded drop-new queue offered the bytes; the stored count is what fitted; a size that is no power of two stores nothing |
| Ring.ByteRing.CopyIn | classic/ring.c:64-75 | the two copy loops lay the bytes down behind the unread ones, wrapping at the end, and no unread byte changes |
| Ring.ByteRing.Dequeue | classic/ring.c:82-123 | with the producer firing before any byte copy and before the counter is published, the bytes read are the oldest ones and the ring ends as the queue with the rest and everything that arrived |
| Ring.ByteRing.CopyOut | classic/ring.c:105-118 | one copy loop with an enqueue possible before every byte: the snapshot is copied although the ring grows meanwhile |
| Ring.ByteRing.NextByte | classic/ring.c:82-123 | byte k of the consumer's snapshot is still in its slot after any arrivals: the producer never writes in [head, tail) |
| Ring.OfferSplit | classic/ring.c:57-78 | offering transfers one after the other is offering their concatenation |
| RingRuns.FirstInFirstOut | classic/ring.c:39-123 | over every interleaving of enqueues and interrupted dequeues: taken bytes then stored bytes are the accepted bytes in order, and the two counters count them modulo 2^32 |
| RingRuns.FramingSurvivesOverflow | classic/ring.c:57-78 | when all lengths are multiples of four, head and tail stay multiples of four, and the packets stored and taken are an in-order subsequence of the packets sent |
| RingRuns.PerformAll | classic/ring.c:39-123 | a whole run of enqueues and interrupted dequeues on a fresh ring: contents, both counters and the bytes handed out are those of the history |
| Packets.CinDataLength | core/packets.c:14-20 | no code index carries more than three data bytes |
| Packets.Decode | core/packets.c:22-38 | cable and code index are nibbles, and the length is at most the three bytes there are |
| Packets.BuildDecode | core/packets.c:14-101 | decoding a built packet gives back the cable, the code index and exactly the data bytes the table prescribes |
| Packets.CinForStatus | core/packets.c:43-73 | which statuses have a code index, and that its data length is the message's length; which one it is follows from `Wire.ChannelCodes` |
| Wire.ChannelCodes | core/packets.c:43-73 | channel messages have the code indices from 9 to 15, one for each kind and in the order of their statuses, whatever the channel; system messages have at most 5 |
| Wire.StatusNeeds | core/packets.c:43-73 | a status has a code index exactly if MIDI gives it a length of its own, and it needs that many bytes |
| MidiStream.RxStream.Init | core/midi_stream.c:9-32 | a re-initialised stream is idle, empty, with counters at zero |
| MidiStream.RxStream.EnqueueMessage | core/midi_stream.c:36-54 | the bounded queue takes the message at its end or drops and counts it |
| MidiStream.RxStream.PacketIn | core/midi_stream.c:56-126 | one packet moves the stream as the specification says: misroute, miscellaneous and cable events counted, SysEx tags, malformation counters |
| MidiStream.RxStream.MessageOut | core/midi_stream.c:128-152 | the oldest pending message with its tag, or none |
| MidiStream.TxStream.MessageIn | core/midi_stream.c:200-280 | all or nothing: the packets of the message are written and counted, or one rejection is counted and nothing is written; what is accepted is in `Wire.AcceptedIff`, and the bytes that go out are in `Wire.WireOrder`, `Wire.SystemWire` and `Wire.SysexWire` |
| MidiStream.TxStream.SysexIn | core/midi_stream.c:213-252 | a run of any length fits its packets or is rejected as a whole |
| MidiStream.SysexPacketCount | core/midi_stream.c:192-198 | the rounded-up third is the number of packets of a run |
| MidiStream.SysexPacketAt | core/midi_stream.c:200-252 | packet k of a run of at least four bytes carries its k-th three bytes as a start packet; the last one is an end packet with the rest |
| Wire.AcceptedIff | core/midi_stream.c:200-280 | exactly the whole messages on cables 0 to 15 are accepted: SysEx from F0 to F7, a single F7, and every status with all its bytes |
| Wire.WireOrder | core/midi_stream.c:253-280 | two channel messages go out as one packet each, with the cable in the high nibble of the first byte and a low nibble from 9 on that orders the packets as their statuses are ordered |
| Wire.ChannelWire | core/midi_stream.c:253-280 | behind that byte come the bytes of the message, filled up with zeros |
| Wire.SystemWire | core/midi_stream.c:253-280 | a system message of one, two or three bytes goes out with code 5, 2 or 3, and a lone F7 with code 6 |
| Wire.SysexWire | core/midi_stream.c:200-252 | packet k of a run has code 4 and its k-th three bytes while more follow, and 5 plus the number of the last bytes, which is one to three |
| Wire.SysexSent | core/midi_stream.c:213-252 | a run from F0 to F7 is sent as these packets, a third of its length rounded up |
| Wire.Counted | core/midi_stream.c:56-93 | over any packets each of the counters for misrouted, miscellaneous and cable packets counts exactly the packets of another cable, of code 0 and of code 1 |
| Wire.MalformedCounted | core/midi_stream.c:86-117 | over any packets the two malformation counters count exactly the starts of a run without F0 and the end packets whose last byte is not F7 |
| Wire.QueueHolds | core/midi_stream.c:36-54 | sixteen messages wait at most; every later one is turned away and counted, and those waiting stay |
| MidiRoundTrip.RoundTrip | core/midi_stream.c:56-280 | for every list of accepted messages and single-byte realtime packets inserted anywhere, receiving with a take after each packet and regrouping by tag gives the messages and the realtime bytes, each where its last packet passed, with no drop and no malformation counted, and the stream ends idle |
| MidiRoundTrip.SeenInOrder | core/midi_stream.c:56-280 | from any open run: what the client sees is what was sent, a realtime byte at once and a message when its last packet passes, and no run stays open |
| MidiRoundTrip.RoundTripExact | core/midi_stream.c:56-280 | any list of accepted messages, realtime messages among them, is received as exactly that list, and the stream ends idle |
| MidiRoundTrip.DeliverEntries | core/midi_stream.c:56-152 | a well-formed stream yields every message it carries and trips neither malformation counter |
| RxRuns.Conservation | core/midi_stream.c:36-152 | in every reachable state packets = messages + queued + the four drop counters, and messages leave in arrival order |
| RxRuns.TagGrammar | core/midi_stream.c:77-124 | on arbitrary packets, overflows included, the tags follow the grammar of sentences, NONE or END or START (MID or NONE)* END, as long as no overflow turned away the begin or the end of a run |
| RxRuns.TagGrammarIff | core/midi_stream.c:36-124 | that condition is exact: it holds if and only if at every point of the run a start packet that gets through leaves tags that can be continued to a sentence |
| RxRuns.NoOverflowNoLoss | core/midi_stream.c:36-54 | in particular a run that counts no overflow meets it |
| RxRuns.LossShows | core/midi_stream.c:36-124 | from any full queue: once the begin or the end of a run is lost, the next start packet that gets through is tagged MID outside a run or START inside one, and nothing that follows can mend it |
| OmsTx.OmsOutput.Send | oms/oms_tx.c:151-207 | the send hook over all ports: an unusable refCon or length is counted, a conventional packet is re-emitted, a SysEx chunk goes through the addressed port's carry; the carry bytes and the encoder of every other port are as before |
| OmsTxPorts.PortsIndependent | oms/oms_tx.c:151-207 | over any calls to all ports, what a port sends on the wire and leaves in its carry is what the packets addressed to it alone make it send and leave |
| OmsTxPorts.ChunkingIndependenceOnPort | oms/oms_tx.c:78-207 | chunking independence of one port with any sends to other ports in between |
| OmsTx.OmsOutput.SysexChunk | oms/oms_tx.c:78-149 | the packets sent and the carry kept are those of the specification, whatever byte is read behind the data of an over-long chunk, and the overflow branch cannot be reached |
| OmsTx.OmsOutput.Emit | oms/oms_tx.c:43-55 | one packet with its cable and code nibbles and zero padding goes out and is counted |
| OmsTx.OmsOutput.Append | oms/oms_tx.c:113-122 | the carry followed by the chunk |
| OmsTx.OmsOutput.SendOn | oms/oms_tx.c:168-206 | which packets go to the encoder and which to the chunker, and what of the port changes |
| OmsTx.OmsOutput.FlushRun | oms/oms_tx.c:112-130 | at the end of a run everything collected is sent, the last one to three bytes in an end packet |
| OmsTx.OmsOutput.SendKeepingRest | oms/oms_tx.c:131-149 | inside a run whole threes are sent and at most two bytes are carried |
| OmsTx.CarryStaysSmall | oms/oms_tx.c:78-149 | a carry of at most two bytes stays that small after any packet |
| OmsTx.ConventionalPacket | oms/oms_tx.c:151-207 | re-emitting the decoded packet of a message that is no run gives the packet itself |
| OmsTxWire.ConventionalIs | oms/oms_tx.c:168-191 | a conventional packet is sent as the one packet of its message if that has one to three bytes and is whole, and otherwise counted; the run on the port is left alone |
| OmsTxWire.MalformedIs | oms/oms_tx.c:78-111 | exactly which chunks are counted as malformed, by flags and bytes: a beginning inside a run or without F0, and a chunk that cannot be sent; twice if both |
| OmsTxWire.ChunkConserves | oms/oms_tx.c:78-149 | no byte of a chunk is lost or doubled: the data of the packets sent and then the new carry are the old carry and then the chunk; the flags 1 and 3 send packets of code 4 alone, 2 and 0 end the run |
| OmsTxWire.PortsApart | oms/oms_tx.c:151-167 | the ports are those of interfaces 1 to 8 and cables 0 to 15, and no two of them are one |
| OmsTxRuns.ChunkingIndependence | oms/oms_tx.c:78-207 | for all runs F0..F7 and every split into chunks of one to four bytes, with conventional messages in between, the SysEx packets are those of the one-shot encoder for the whole runs, the carry ends empty and nothing is malformed |
| OmsTxRuns.CarryBounded | oms/oms_tx.c:78-149 | over any packets whatever the carry never exceeds two bytes |
| OmsRx.OmsInput.DeliverMessage | oms/oms_rx.c:57-67 | a message is handed over unless delivery is off or the port's reference number is negative |
| OmsRx.OmsInput.TakeMessages | oms/oms_rx.c:148-166 | every pending message of the port is taken, counted and offered for delivery |
| OmsRx.OmsInput.ServePort | oms/oms_rx.c:130-166 | a port seen for the first time is opened with a negative reference number, then fed and drained |
| OmsRx.OmsInput.RoutePacket | oms/oms_rx.c:123-168 | a packet goes to the stream of its own cable nibble and that stream is drained at once; no other port changes |
| OmsRx.OmsInput.RoutePackets | oms/oms_rx.c:123-168 | the packet loop routes the whole packets in order and leaves the bytes short of a packet |
| OmsRx.OmsInput.RouteChunk | oms/oms_rx.c:119-176 | packets are counted in fours, left-over bytes as dropped |
| OmsRx.OmsInput.DrainOnce | oms/oms_rx.c:116-176 | one dequeue of at most 64 bytes, routed, with transfers arriving before it and before any of its byte copies: the ring keeps the rest and what fitted of the arrivals, and the ports route exactly what was unread at the beginning; nothing when the ring is empty |
| OmsRx.OmsInput.Drain | oms/oms_rx.c:107-179 | nothing without the driver's table or for an interface that is not valid; otherwise the ports and both counters end as after the turns, however transfers interrupt them |
| OmsRx.OmsInput.Empty | oms/oms_rx.c:126-178 | dequeues of 64 bytes until the ring is empty, with transfers arriving in any of the turns, routed as the bytes come out of the drop-new queue |
| OmsRx.QuietTurn | oms/oms_rx.c:126-178 | where nothing arrives, turns of 64 bytes route what the joined bytes would, and each makes the ring shorter |
| OmsRx.OmsInput.Restart | oms/oms_driver.c:701-713 | every port in use gets a fresh stream and keeps its reference number; the others are left alone |
| RxPath.RoutedInOrder | oms/oms_rx.c:107-179 | for any sequence of whole-packet transfers, drains with transfers interrupting them anywhere, and restarts, overflow or not: the packets routed are an in-order subsequence of the device's, what is missing is waiting or was turned away by a full ring, with no overflow nothing is missing, and every packet is counted and no byte dropped |
| RxPath.InputIsReplay | oms/oms_rx.c:107-179 | the ports end as if those packets had been routed one after the other, each with the flag of its own drain, and the streams started anew where they were |
| RxPath.TurnsFlow | oms/oms_rx.c:107-179 | the queue, ports and counters of a drain in a run are those its code is proved to have |
| RxPath.Receive | oms/oms_rx.c:107-179 | the ring, the interrupted drains and the restarts together do that |
| RxNested.Push | classic/usb_driver.c:299-314 | a read completion with the hook registered: what fits is stored and the whole ring is routed before it returns; an empty transfer calls no hook |
| RxNested.HarmlessIff | classic/ring.c:99-121 | the used count after a task-time dequeue with nested drains is that of the unread bytes, and within the size, if and only if there was nothing to read or no transfer came before the head was published; otherwise it is 2^32 - n |
| RxNested.DequeueHooked | classic/ring.c:82-123 | the code: with a completion before any byte copy and before the publication the ring is still a ring exactly then, with the rest unread; otherwise nothing is unread and it counts 2^32 - n bytes |
| RxNested.TurnHooked | oms/oms_rx.c:123-177 | a whole turn: harmless, it is the turn of an undisturbed drain; otherwise the copied bytes are routed behind all that the nested drains have routed |
| RxNested.RunsAway | oms/oms_rx.c:123-129 | after a harmful turn the loop goes on until the count is down: 2^26 further dequeues, or one less, although nothing is unread |
| RxNested.RoutedTwice | oms/oms_rx.c:103-179 | transfers between the last copy and the publication alone: everything unread and the newer bytes are routed, and then the copied bytes once more |
| RxNested.NoteHangs | oms/oms_rx.c:103-209 | the failing input: a note on is unread, its note off comes before the publication; on, off and on again are delivered, the count is 2^32 - 4 and the next dequeue takes 64 bytes |
| RxNested.RouteOvertaken | oms/oms_rx.c:132-171 | a transfer in the middle of the packet loop: the newer packets are routed ahead of those left |
| RxNested.OvertakesIff | oms/oms_rx.c:132-171 | with no packet in common the order is that of the wire if and only if nothing is newer or nothing is left |
| OmsRxRuns.Demultiplexed | oms/oms_rx.c:107-179 | each port equals a single-stream decode of its own cable's packets; nothing is misrouted and no queue overflows |
| OmsRxRuns.SplitIndependence | oms/oms_rx.c:107-179 | however the bytes are split into drains of whole packets, the result is that of the joined bytes |
| OmsRxRuns.EndToEnd | oms/oms_rx.c:107-179 | messages packetized on a cable and mixed with any other cables' packets are delivered complete and in order on that cable's port |
| OmsWire.PortTold | oms/oms_rx.c:57-179 | for any packets from any idle state: on a port that delivers, OMS is told of exactly the packets of its cable from code 2 on, in order, each with as many bytes as its code has and with flag 1 at the beginning of a run, 3 inside, 2 at its end and 0 elsewhere |
| OmsWire.PortSilent | oms/oms_rx.c:57-179 | a port that is not open, has a negative reference number or is not delivering tells nothing |
| OmsWire.TurnTakes | oms/oms_rx.c:116-176 | a turn takes the oldest 64 unread bytes, or all if there are fewer, and counts their packets and left-over bytes |
| UsbMachine.DriveBounded | classic/usb_driver.c:141-338 | one stimulus issues at most as many calls as the depth bound leaves, and ends with exactly one call pending or with none and the machine stopped |
| UsbMachine.BoundIsReached | classic/usb_driver.c:147-160 | a library that completes every read inside the call makes exactly that many calls: the bound is exact |
| UsbMachine.CodesIgnored | classic/usb_driver.c:209-231 | once the completion has run inside the call, the code the call returns changes nothing |
| UsbMachine.ReadStaysInBlock | classic/usb_driver.c:281-291 | the aligned read buffer and a whole packet lie inside the allocated block |
| UsbService.DeliveryIrrelevant | classic/usb_driver.c:141-338 | whether outcomes come inside the calls, as a success without callback, or later makes no difference to what is asked of the library, stored and told, nor to where the instance is left |
| UsbService.AsTold | classic/usb_driver.c:240-338 | every instance, for every list of answers and from every stage, makes exactly the calls of the story `Tell`: ring, configuration, pipe, read buffer, then reads, again after a stall, and nothing after any other error |
| UsbService.SetUpInOrder | classic/usb_driver.c:240-338 | when the four set-up calls succeed, the configuration, the search for the pipe, the allocation of the packet size plus 63 bytes, and the first read on the pipe found into the first multiple of 64 of the block are asked for in this order, and then the reads |
| UsbService.SetUpStops | classic/usb_driver.c:240-338 | the set-up comes as far as its calls succeed: after a failure nothing more is asked for and the machine is stopped, otherwise it waits for the next call |
| UsbService.InitializeTells | classic/usb_driver.c:497-549 | a new instance asks for 4096 bytes with its interface reference and then does as told, with nothing left over from an earlier instance in its slot; the other instances do not change |
| UsbService.SixteenCalls | classic/usb_driver.c:147-160 | sixteen answers inside the calls, none of which stops the machine, are exactly sixteen calls, and then it stops |
| UsbService.FireServes | classic/usb_driver.c:240-338 | a completion whose next call stays pending is one more answer of that list |
| UsbService.Reading | classic/usb_driver.c:293-334 | over any list of reads: the stored bytes are the data of the successful ones one after the other, the hook is called once for each that brought something while it is set, each stall is cleared on the pipe and read again, and any other error stops the machine |
| UsbDriver.CallAndReaction | classic/usb_driver.c:141-233 | for pending, completion inside the call with any code, success without callback and whatever results it filled in, and immediate error, the token comparison makes exactly one step of the machine |
| UsbDriver.Driver.Initiate | classic/usb_driver.c:141-233 | the starter does what the machine does from its stage, for every answer of the library, and restores the depth; a stage byte that names no call stops it |
| UsbDriver.Driver.IssueCall | classic/usb_driver.c:155-233 | the call with its token and what is made of its return value is one issue of the machine |
| UsbDriver.Driver.React | classic/usb_driver.c:209-233 | what the starter makes of a return value, by the token |
| UsbDriver.Driver.CompletionProc | classic/usb_driver.c:240-338 | the completion moves the machine to the stage its status asks for and issues the next call unless the machine stops or is being removed; the order of the stages is that of `UsbService.AsTold` |
| UsbDriver.Driver.Transition | classic/usb_driver.c:240-334 | the stage switch alone: one completion of the machine, the pending bit cleared; what the stages ask for is that of `UsbService.AsTold` |
| UsbDriver.TokenDiffers | classic/usb_driver.c:162-164 | the token of a call is never the one a later call of the same stimulus left behind, unless the counter has wrapped to 0 |
| UsbDriver.StoppedBranchIff | classic/usb_driver.c:209-233 | the branch for a machine already stopped is taken if and only if the completion ran inside a call that then reported success and left the call's own token behind, which makes the token 0 |
| UsbDriver.StoppedBranchTaken | classic/usb_driver.c:209-233 | it is taken: with the token wrapped to 0 and a completion inside the call that reports an error |
| UsbRuns.RunsAreSafe | classic/usb_driver.c:141-659 | over every run: each parameter block is held at most once, exactly when pending; every instance is pending, stopped or being removed; between a notification that was not busy and the next initialize nothing is outstanding |
| UsbRuns.BootSafe | classic/usb_driver.c:141-659 | the state the loader leaves is safe |
| UsbRuns.NotifyReaches | classic/usb_driver.c:572-616 | with completions interrupting anywhere, the notification marks every instance, and if it was busy at none the library holds none of their blocks |
| UsbTasks.NotifyIs | classic/usb_driver.c:572-616 | without interruptions: every visited instance is being removed and its hook forgotten, one abort has gone out for each pending call with a pipe, on that pipe, nothing else has changed, and the answer is busy exactly if a call was pending |
| UsbTasks.BusyIff | classic/usb_driver.c:588-608 | whatever interrupts it, the notification is busy exactly if a call was pending at some instance when it was looked at |
| UsbRemoval.NoTransferAfterRemoval | classic/usb_driver.c:572-616 | no instance that existed at the notification submits another call in any run that follows, whatever other interfaces are initialized and wherever finalize moves it, and it stays marked until it is disposed of |
| UsbRemoval.StepSilent | classic/usb_driver.c:234-659 | at every allowed step, initialize included, a marked instance submits nothing and stays marked |
| UsbRemoval.QuietUntilClaimed | classic/usb_driver.c:572-616 | while all instances are marked and none is claimed no call is made at all |
| UsbRuns.AbortGoodIff | classic/usb_driver.c:588-604 | an abort keeps the invariant if and only if it is accepted, or refused with no completion to come, or the block has been let go of while it was refused |
| UsbRuns.FinalizeSafeIff | classic/usb_driver.c:551-570 | disposing of an instance keeps the invariant if and only if the library holds neither its block nor that of the one moved into its slot |
| UsbTasks.FinalizeIs | classic/usb_driver.c:551-570 | finalize gives back the ring and then the read buffer of the first instance of the interface, fills its place with the last one, and leaves the others alone; without such an instance nothing happens |
| UsbRuns.BrokenPromise | classic/usb_driver.c:572-616 | otherwise, when the other instances are drained, the next notification answers no error while the block is held |
| UsbBlocks.RunsBalance | classic/usb_driver.c:497-659 | handed out = given back + owned, for every block, over every run |
| UsbBlocks.EveryBlockFreedOnce | classic/usb_driver.c:630-659 | no block is given back more often than it was handed out, and with no instance left exactly as often |
| UsbEntry.CompletionFires | classic/usb_driver.c:240-338 | a completion of a held block is one step of the registry model |
| UsbEntry.Interrupts | classic/usb_driver.c:240-338 | any completions of held blocks, one after the other |
| UsbEntry.InitializeInterface | classic/usb_driver.c:497-549 | a full registry is refused; otherwise a fresh instance is claimed, set up and started |
| UsbTasks.ClaimedIff | classic/usb_driver.c:504-520 | an instance is claimed exactly for an interface with both descriptors, class 1, subclass 3 and an endpoint, while fewer than eight are claimed |
| UsbEntry.StartMachine | classic/usb_driver.c:542-548 | the first stage is set and the machine issues its first call |
| UsbEntry.ClaimInstance | classic/usb_driver.c:622-628 | the next free slot, or none |
| UsbEntry.MarkRemoving | classic/usb_driver.c:592-595 | the instance is marked and its client forgotten; nothing else changes |
| UsbEntry.AbortTransfer | classic/usb_driver.c:596-605 | a pending instance is aborted if it has a pipe; a refused abort clears the pending bit |
| UsbEntry.NotifyInstance | classic/usb_driver.c:572-616 | one turn of the notification loop, with completions before, between and after its steps |
| UsbEntry.NotifyBeingRemoved | classic/usb_driver.c:572-616 | the whole notification and its answer |
| UsbEntry.FinalizeInterface | classic/usb_driver.c:551-570 | the instance of the interface, if there is one, is disposed of; the answer is always no error |
| UsbEntry.DisposeInstance | classic/usb_driver.c:643-659 | both blocks are freed and the last instance moves into the slot |
| UsbEntry.DeallocBlock | classic/usb_driver.c:630-641 | a block that is there is freed once, through the instance's own parameter block |
| UsbEntry.SetEventCallback | classic/usb_driver.c:407-423 | the hook of an existing live instance is replaced, anything else refused |
| PefFormat.ReadAllBack | pefcheck/src/pef.rs:284-568 | reading a written program whose fields fit five-byte varints gives back every instruction and ends at the end of the stream |
| PefFormat.ReadVarint | pefcheck/src/pef.rs:532-555 | a value below 2^35 is read back from its varint |
| PefUnpack.Exactness | pefcheck/src/pef.rs:284-530 | a stream is accepted with an output if and only if it is, from end to end, a program that expands to it, of the announced length and ending with an instruction that emits |
| PefUnpack.DecodeEncoded | pefcheck/src/pef.rs:284-530 | decoding the encoding of a program gives its expansion |
| PefUnpack.PartialIsPrefix | pefcheck/src/pef.rs:300-530 | the output on a stream is a prefix of the output on every extension of it |
| PefUnpack.Unpack | pefcheck/src/pef.rs:311-345 | never more than the announced length is produced, and a complete decode produces exactly it |
| PefUnpack.SkipDropsNothing | pefcheck/src/pef.rs:455-516 | an interleaving instruction of announced length zero would read and emit nothing, so skipping it loses nothing |
| PefBytes.VarintIs | pefcheck/src/pef.rs:532-555 | bytes with the high bit set and one without are the number their groups of seven bits spell |
| PefBytes.LongHead | pefcheck/src/pef.rs:336-350 | a zero in the low five bits of the first byte means that the operand follows as a varint |
| PefBytes.ZeroStream | pefcheck/src/pef.rs:351-360 | the byte n alone is a stream of n zeros |
| PefBytes.BlockStream | pefcheck/src/pef.rs:361-379 | 0x20 + n and n bytes are those bytes |
| PefBytes.RepeatStream | pefcheck/src/pef.rs:380-412 | 0x40 + n, a count and n bytes are those bytes once more than the count, copy q behind q copies |
| PefBytes.MixedStream | pefcheck/src/pef.rs:413-467 | 0x60 + n, a size, a count, n common bytes and the custom blocks: byte by byte, the common block opens every turn and closes the whole, and custom block q ends turn q |
| PefBytes.MixedZeroStream | pefcheck/src/pef.rs:468-517 | 0x80 + n: the same with n zeros for the common block |
| PefBytes.ReservedRefused | pefcheck/src/pef.rs:518-528 | a stream that begins with a byte from 0xa0 on is refused and nothing of it decoded |
| PefDecoder.ReadVar | pefcheck/src/pef.rs:532-555 | the varint loop: at most five bytes, and the overflow check can never fire |
| PefDecoder.TakeAt | pefcheck/src/pef.rs:557-568 | the slice, if it lies inside the stream |
| PefDecoder.Grow | pefcheck/src/pef.rs:289-298 | the saturating comparison decides as the exact sum would |
| PefDecoder.Plain | pefcheck/src/pef.rs:351-379 | the two plain instructions |
| PefDecoder.Repeated | pefcheck/src/pef.rs:380-412 | the repeat instruction, with its checked size arithmetic, emits what the specification says or nothing |
| PefDecoder.RepeatedBlock | pefcheck/src/pef.rs:413-467 | the operands of the instruction with a literal common block, in their order |
| PefDecoder.RepeatedZero | pefcheck/src/pef.rs:468-517 | the operands of the instruction with a zero common block |
| PefDecoder.WeaveLiteral | pefcheck/src/pef.rs:456-465 | the loop that takes each custom block before it writes the common one |
| PefDecoder.WeaveZeros | pefcheck/src/pef.rs:506-515 | the loop that writes the zeros before it takes the custom block |
| PefDecoder.Woven | pefcheck/src/pef.rs:435-517 | the two interleaving instructions, with their checked size arithmetic and partial emission, run as specified |
| PefDecoder.Instruction | pefcheck/src/pef.rs:336-528 | one turn of the main loop |
| PefDecoder.UnpackPartial | pefcheck/src/pef.rs:311-530 | the decodable prefix and whether the decode is complete, for every stream |
| PefDecoder.UnpackPacked | pefcheck/src/pef.rs:284-287 | an answer if and only if the stream is a program of that length, and then its expansion |
| PyUnpack.Agreement | tools/re/pef_unpack.py:38-112 | the Rust decoder accepts a stream with an output exactly when the Python decoder does and every varint of the stream has at most five bytes |
| PyUnpack.PyExactness | tools/re/pef_unpack.py:63-112 | without the space check the same programs of the right length are accepted |
| PyUnpack.SixByteVarint | tools/re/pef_unpack.py:38-53 | a varint of six bytes is read by one decoder and refused by the other |
| PyUnpack.ReadsUnique | tools/re/pef_unpack.py:63-112 | a stream is at most one program |
| PyUnpack.ReadNextValue | tools/re/pef_unpack.py:38-53 | the varint loop, of any length, failing at the end of the data |
| PyUnpack.ReadN | tools/re/pef_unpack.py:56-60 | the slice, if it lies inside the data |
| PyUnpack.RepeatAt | tools/re/pef_unpack.py:81-85 | the repeat instruction |
| PyUnpack.RepeatBlockAt | tools/re/pef_unpack.py:86-95 | the instruction with a literal common block |
| PyUnpack.RepeatZeroAt | tools/re/pef_unpack.py:96-104 | the instruction with a zero common block |
| PyUnpack.Woven | tools/re/pef_unpack.py:91-104 | the interleaving loops, failing when a custom block is cut off |
| PyUnpack.Unpack | tools/re/pef_unpack.py:63-112 | an answer if and only if the stream is a program of that length with varints of any length |
| Reloc.Additive | pefcheck/src/reloc.rs:208-221 | a word that every write hits exactly or not at all ends as its first value plus the sum of what was added, modulo 2^32, whatever the order |
| Reloc.UntouchedByte | pefcheck/src/reloc.rs:208-221 | a byte outside every write keeps its value |
| Reloc.ApplyAll | pefcheck/src/reloc.rs:208-221 | the content keeps its length |
| Reloc.CompleteMeansApplied | pefcheck/src/reloc.rs:257-386 | for all programs: every instruction is whole, replayed and supported if and only if the replay calls itself complete and no instruction reached has an unsupported sub-opcode |
| Reloc.SkippedDoesNothing | pefcheck/src/reloc.rs:314-378 | an unsupported sub-opcode writes nothing, records nothing and changes no register |
| Reloc.SilenceMeansFaithful | pefcheck/src/reloc.rs:208-386 | the replay is complete and has no notes if and only if every instruction was whole, replayed, supported, its section existed and its writes lay inside the content |
| Reloc.UnsupportedStaysComplete | pefcheck/src/reloc.rs:314-332 | the smallest program that is called complete and not applied |
| RelocRun.AddWordAt | pefcheck/src/reloc.rs:208-221 | a big-endian wrapping add in place; a word not wholly inside is left alone and noted |
| RelocRun.RunOne | pefcheck/src/reloc.rs:262-306 | the one-word loops apply exactly their run of writes and note those beyond the content |
| RelocRun.RunTwo | pefcheck/src/reloc.rs:285-299 | the two-word loops apply exactly their run of writes and note those beyond the content |
| RelocRun.RunImports | pefcheck/src/reloc.rs:307-313 | consecutive fixups with consecutive import indices |
| RelocRun.ValueGroupAt | pefcheck/src/reloc.rs:270-315 | the value group by its sub-opcode: writes, fixups, registers and notes; what that is for the words of the section is in `RelocWords` |
| RelocRun.IndexGroupAt | pefcheck/src/reloc.rs:316-333 | the index group by its sub-opcode, with its notes |
| RelocRun.LargeSectionAt | pefcheck/src/reloc.rs:363-379 | the large section instruction by its sub-opcode, with its notes |
| RelocRun.Dispatch | pefcheck/src/reloc.rs:259-384 | one turn of the executor has the effect and the notes of its chunk |
| RelocRun.ApplyProgram | pefcheck/src/reloc.rs:241-386 | the content goes through exactly the writes of the trace, which depends on chunks and bases alone; the fixups, the notes in their order and the completeness flag are those of the program; what the writes of each instruction are is in `RelocWords` |
| Reloc.OneRunHits | pefcheck/src/reloc.rs:262-306 | a one-word run adds its value exactly once to the word of each turn and touches it no other way |
| Reloc.TwoRunHits | pefcheck/src/reloc.rs:285-299 | a two-word run adds one value to the first word of each turn and the other to the second |
| RelocWords.CodeProgram | pefcheck/src/reloc.rs:276-280 | 0x4000 + r: every one of the r + 1 words ends as its first value plus the base of section 0, and no other byte changes |
| RelocWords.DataProgram | pefcheck/src/reloc.rs:281-284 | 0x4200 + r: the same with the base of section 1 |
| RelocWords.Vectors12Program | pefcheck/src/reloc.rs:285-292 | 0x4400 + r: of every three words the first gets the base of section 0, the second that of section 1, and the third stays |
| RelocWords.Vectors8Program | pefcheck/src/reloc.rs:293-299 | 0x4600 + r: of every two words the first gets the base of section 0 and the second that of section 1 |
| RelocWords.Tables8Program | pefcheck/src/reloc.rs:300-306 | 0x4800 + r: of every two words the first gets the base of section 1 and the second stays |
| RelocWords.ImportProgram | pefcheck/src/reloc.rs:307-313 | 0x4a00 + r: the content stays, and consecutive imports are recorded at consecutive words |
| RelocWords.SkipProgram | pefcheck/src/reloc.rs:262-269 | 64 * skip + n: n words behind 4 * skip bytes get the base of section 1, and no other byte changes |
| RelocWords.ChosenCode | pefcheck/src/reloc.rs:324-325 | 0x6200 + s, or the large form with s in 22 bits: the base of section s is what a code run behind it adds |
| RelocWords.ChosenData | pefcheck/src/reloc.rs:324-325 | 0x6400 + s, or the large form: the same for a data run |
| RelocWords.NamedSection | pefcheck/src/reloc.rs:326-330 | 0x6600 + s, or the large form: one word gets the base of section s, and nothing else changes |
| RelocWords.AdvancedRun | pefcheck/src/reloc.rs:334-336 | 0x8000 + d: the next run starts d + 1 bytes further |
| RelocWords.PositionedRun | pefcheck/src/reloc.rs:350-354 | 0xa000 with an address of 26 bits: the next run starts there |
| RelocWords.Import | pefcheck/src/reloc.rs:319-323 | 0x6000 + x, anywhere in a program: import x is recorded at the position, and x + 1 comes next |
| RelocWords.LargeImport | pefcheck/src/reloc.rs:344-349 | 0xa400 with an index of 26 bits: the same |
| RelocWords.CodeRun | pefcheck/src/reloc.rs:276-280 | anywhere in a program, with any registers: the run writes with the code register and the position moves behind it |
| RelocWords.PassedOver | pefcheck/src/reloc.rs:314-332 | the other sub-opcodes of the value and index groups, anywhere in a program, do nothing |
| RelocWords.MakesPartial | pefcheck/src/reloc.rs:337-384 | repeats and undefined opcodes make the replay partial and do nothing else, the large repeat taking two chunks |
| RelocWords.CutOff | pefcheck/src/reloc.rs:344-379 | an instruction without its second chunk makes the replay partial |
| RelocWords.BigEndianWord | pefcheck/src/reloc.rs:208-221 | the last byte of a word counts once, and every byte 256 times what the next one counts |
| RelocResolve.SyntheticBases | pefcheck/src/reloc.rs:20-32 | the bases are the aligned running sum, truncated to 32 bits |
| RelocResolve.BasesAt | pefcheck/src/reloc.rs:20-32 | each base is the running start of its own section cut to 32 bits |
| RelocResolve.StartIsLeast | pefcheck/src/reloc.rs:20-32 | the first section starts at 0x10000000 and every other one at the first multiple of 16 behind the one before |
| RelocResolve.ResolvePointer | pefcheck/src/reloc.rs:440-459 | the first section that contains the word |
| RelocResolve.ResolveIsFirst | pefcheck/src/reloc.rs:440-459 | the answer is the least containing section and the distance from its base, and there is none only if no section contains the word |
| RelocResolve.ResolverExactness | pefcheck/src/reloc.rs:440-459 | every offset into every section resolves back from its address if and only if no nonempty section passes 2^32 and no two overlap |
| RelocResolve.SyntheticBasesApart | pefcheck/src/reloc.rs:20-32 | while the total stays within 2^32 the bases are 16-aligned, untruncated and apart |
| RelocResolve.RelocatedPointer | pefcheck/src/reloc.rs:208-221 | a word storing an offset into a section, to which the writes add in total that section's base, resolves to the section and offset |
| RelocResolve.RunResolves | pefcheck/src/reloc.rs:262-306 | every word of a run that stored an offset into the section becomes a pointer that resolves to it |
| RelocResolve.VectorsResolve | pefcheck/src/reloc.rs:285-299 | every transition vector becomes a pointer into the code section and one into the data section |
| RelocVector.PreparedMain | pefcheck/src/reloc.rs:464-536 | while the sections fit below 2^32, a main vector whose words are relocated by their sections' bases is reported as valid, with the two stored places, if and only if decoding and replay were complete and both offsets are multiples of four; otherwise as provisional or as no vector, with the two addresses |
| RelocVector.MainOfVectors | pefcheck/src/reloc.rs:285-299 | from program to report: with one chunk over a section of transition vectors, a main that is any of them is found with its entry in section 0 and its table of contents in section 1 |
| RelocVector.VectorProgram | pefcheck/src/reloc.rs:293-299 | the chunk for a run of transition vectors adds the bases of sections 0 and 1 to each in turn and is complete |
| RelocVector.PlaceWord | pefcheck/src/reloc.rs:440-459 | a word that resolves under synthetic bases is its section's start plus the offset, never zero, and as aligned as the offset |
| RelocVector.ValidSomewhereIff | pefcheck/src/reloc.rs:464-536 | the report is a valid vector with both places in sections if and only if decoding and replay were complete and both words, with what the program adds to them, are multiples of four inside some section |
| RelocVector.ValidNowhere | pefcheck/src/reloc.rs:510-515 | the smallest valid vector whose words lie in no section |
| Bits.BitReader.NextBit | tools/re/sit5.py:259-267 | the next bit, least significant first, or the end-of-stream error |
| Bits.BitReader.NextBits | tools/re/sit5.py:269-273 | the value of the next n bits, and exactly those consumed |
| Canonical.KraftIffFits | tools/re/sit5.py:280-301 | every assigned code fits its length if and only if the lengths satisfy Kraft's inequality |
| Canonical.AfterIsKraft | tools/re/sit5.py:280-301 | numbering the codes in order uses up exactly the Kraft sum of the lengths so far |
| Canonical.PrefixFree | tools/re/sit5.py:280-301 | under Kraft no code word is a prefix of another |
| CanonicalOrder.FirstCode | tools/re/sit5.py:280-301 | in the order of length and then symbol, the first coded symbol gets the code zero |
| CanonicalOrder.NextCode | tools/re/sit5.py:280-301 | the next one gets one more, with as many zeros behind it as its code is longer, which fixes every code |
| Canonical.NoCollision | tools/re/sit5.py:290-297 | keys of different symbols differ although the key records no length |
| Canonical.WordDecodes | tools/re/sit5.py:312-323 | a stream that starts with a symbol's word decodes to the symbol and loses exactly its length |
| CanonicalTables.NumberLevel | tools/re/sit5.py:287-299 | the inner loop for one length, and that the early return leaves no symbol without its code |
| CanonicalTables.BuildCanonical | tools/re/sit5.py:280-301 | the table holds exactly the coded symbols under their reversed codes, although the loop stops early |
| CanonicalTables.NextSymbol | tools/re/sit5.py:316-323 | the first prefix that is a key of its own length, or an error |
| CanonicalTables.CanonicalCodes | tools/re/make_classic_fixtures.py:122-136 | every coded symbol has its reversed code and its length |
| CanonicalTables.Reverse | tools/re/make_classic_fixtures.py:130-132 | the loop that turns a code around |
| LzhRun.RoundTrip | tools/re/sit5.py:397-444 | decoding what was encoded gives the payload, whenever no match at distance one is chosen and the three length arrays satisfy Kraft |
| Lzh.RoundTripFrom | tools/re/sit5.py:422-444 | the same from any point of the payload, in either code, with anything behind it |
| Lzh.NoFourEqual | tools/re/make_classic_fixtures.py:172-177 | without four equal bytes in a row no match at distance one is chosen |
| Lzh.ChooseIsLeast | tools/re/make_classic_fixtures.py:172-177 | the distance chosen is the least that matches, and none is chosen only if none does |
| Lzh.MatchInside | tools/re/make_classic_fixtures.py:172-177 | slices cut off at the end never match, so a match lies inside the payload |
| Lzh.Buckets | tools/re/make_classic_fixtures.py:181-188 | distances 2 to 10 have their bucket and their extra bits in range |
| LzhUnitMatch.RoundTripIff | tools/re/make_classic_fixtures.py:172-189 | for every payload: it comes back under every usable code set, whatever follows, if and only if no match at distance one is chosen |
| LzhUnitMatch.UnitMatchFails | tools/re/make_classic_fixtures.py:178-189 | for every payload with a match at distance one, a usable code set under which the decoder refuses what was encoded |
| LzhUnitMatch.EncodedIff | tools/re/make_classic_fixtures.py:139-197 | the same from bytes to bytes, with selector and padding |
| LzhRun.BitWriter.PutCode | tools/re/make_classic_fixtures.py:157-164 | the code's bits are appended, least significant first, whole bytes leaving the buffer |
| LzhRun.BitWriter.Flush | tools/re/make_classic_fixtures.py:194-196 | the waiting bits and fewer than eight zeros |
| LzhCoder.FindMatch | tools/re/make_classic_fixtures.py:172-177 | the least distance up to ten at which three bytes repeat |
| LzhCoder.PutDistance | tools/re/make_classic_fixtures.py:181-188 | the bucket's word and the extra bits; nothing for a distance without a bucket |
| LzhCoder.PutPayload | tools/re/make_classic_fixtures.py:169-194 | the tokens of the greedy parse and the end mark |
| LzhCoder.Lzh13Encode | tools/re/make_classic_fixtures.py:139-197 | the selector byte, the words of the greedy parse in the alternating codes, the end mark, padding |
| LzhCoder.ReadLengthAt | tools/re/sit5.py:426-431 | the length of a match symbol, with its extra bits; `LzhTokens.MatchMeans` says which lengths these are |
| LzhCoder.ReadDistanceAt | tools/re/sit5.py:434-440 | the distance from its bucket and extra bits |
| LzhCoder.CopyLoop | tools/re/sit5.py:441-443 | the overlapping copy, with Python's negative indices and its error |
| LzhCoder.Inflate | tools/re/sit5.py:418-444 | the main loop decodes as specified; `LzhTokens.AnyParse` says what that is for every stream of tokens |
| LzhTokens.MatchMeans | tools/re/sit5.py:422-444 | a match of any length from 3 to 32832, short or with ten or fifteen extra bits, at any distance the offset code has a bucket for: what follows is decoded behind an output that is longer by that length, starts with the old one, and repeats from that distance byte by byte |
| LzhTokens.ByteMeans | tools/re/sit5.py:422-425 | a byte is appended and the first code is next |
| LzhTokens.EndMeans | tools/re/sit5.py:432-433 | symbol 0x140 ends the stream, however much is missing |
| LzhTokens.BeforeTheStart | tools/re/sit5.py:441-443 | k bytes too far back is the k-th byte from the end, and beyond that an error |
| LzhTokens.AnyParse | tools/re/sit5.py:418-444 | however a payload is parsed into bytes and matches of any lengths and distances, its stream decodes to it, from any point and in either code |
| LzhCoder.BuildTables | tools/re/sit5.py:382-384 | the three tables of a set |
| LzhCoder.Decompress | tools/re/sit5.py:397-444 | the selector chooses a static set or the tables the stream brings; a bad selector or an exhausted stream is an error; `LzhTokens.ParseDecompresses` says what comes out for every stream of tokens |
| LzhTokens.ParseDecompresses | tools/re/sit5.py:397-444 | any parse of any payload, sent with one of the static sets behind its selector, decompresses to the payload |
| LzhTokens.OwnTablesParse | tools/re/sit5.py:397-444 | the same for a stream that brings its own tables |
| LzhDynamic.BuildDirect | tools/re/sit5.py:304-309 | direct insertion, a later code over an earlier one |
| LzhDynamic.MetaInTree | tools/re/sit5.py:328-339 | the 37 codes of the metacode are the paths of one binary tree, each to its own symbol |
| LzhDynamic.MetaReads | tools/re/sit5.py:312-340 | every symbol of the metacode is read back from its bits, whatever follows |
| LzhDynamic.ActOn | tools/re/sit5.py:352-373 | the switch over the symbol, with the runs of three and six bits |
| LzhDynamic.SpellAt | tools/re/sit5.py:343-376 | the loop with its trailing write; at least as many lengths as asked for, or the end of the stream |
| LzhDynamic.SpellBack | tools/re/sit5.py:343-376 | any list of lengths up to 31, spelled out symbol by symbol, is read back, whatever came before and follows |
| LzhMoves.MovesSpell | tools/re/sit5.py:343-376 | every list of moves, all 37 symbols with their runs of 1, 2 to 9 and 10 to 73 and the length written once more while there is room, spells exactly the list it draws |
| LzhMoves.ThreeLists | tools/re/sit5.py:401-407 | a first byte val below 8 brings two lists of 321 lengths and one of 10 + val |
| LzhMoves.TwoLists | tools/re/sit5.py:401-407 | from 8 to 15 the first list serves both codes, and the last has val + 2 lengths |
| LzhDynamic.TablesAt | tools/re/sit5.py:401-407 | the three tables a stream brings, the second possibly being the first |
| LzhOwnTables.OwnTablesDecompress | tools/re/sit5.py:397-444 | a payload encoded with any usable set of lengths up to 31, the lengths spelled in front with the program's metacode, decompresses to itself whenever no match at distance one was chosen |
| LzhCoder.EncodedDecompresses | tools/re/sit5.py:397-444 | what the encoder wrote decompresses to its payload, under the same guard |
| BinHexRle.ExpandRle | tools/re/binhex_decode.py:67-85 | decoding undoes run-length coding for every byte string, in any state before and with anything after |
| BinHexRle.CleanYields | tools/re/binhex_decode.py:67-85 | unescaped bytes survive when none is the run mark |
| BinHexRle.OneMarkLost | tools/re/binhex_decode.py:67-85 | one unescaped run mark in front always changes what is decoded |
| BinHexText.UnpackPack | tools/re/binhex_decode.py:51-61 | unpacking undoes packing for every byte string; the padding never makes another byte |
| BinHexText.TextRoundTrip | tools/re/binhex_decode.py:35-50 | the text decodes to the values it was made from, line ends and all |
| BinHexAlphabet.AlphaIff | tools/re/binhex_decode.py:23-28 | the alphabet is what lies between the exclamation mark and r without 19 characters that are named, and nothing else |
| BinHexAlphabet.LookupIs | tools/re/binhex_decode.py:28-50 | a character counts for its rank in that alphabet, and any other is not found |
| BinHexAlphabet.CollectIs | tools/re/binhex_decode.py:35-50 | reading fails exactly if a character before the closing colon is neither white space nor in the alphabet, and otherwise gives the ranks of the characters |
| BinHexAlphabet.BodyIs | tools/re/binhex_decode.py:38-44 | reading begins behind the first colon |
| BinHexAlphabet.TextIs | tools/re/make_classic_fixtures.py:77-80 | the text is the customary first line and, between colons, the lines |
| BinHexAlphabet.CharsRank | tools/re/make_classic_fixtures.py:23-24 | the character written for a value is the one of that rank |
| BinHexAlphabet.LinesAt | tools/re/make_classic_fixtures.py:77-80 | character k stands behind two line-end characters for every 64 characters before it |
| BinHexAlphabet.LinesBreak | tools/re/make_classic_fixtures.py:77-80 | behind every full line but the last there is a line end |
| BinHexAlphabet.OnlyAlphabet | tools/re/make_classic_fixtures.py:77-80 | apart from the first line, the colons and the line ends every character written is in the alphabet |
| BinHexLayout.PackThree | tools/re/make_classic_fixtures.py:65-74 | three bytes are four values, the high bits first, whatever follows |
| BinHexLayout.PackRest | tools/re/make_classic_fixtures.py:65-76 | one or two bytes at the end are filled up with zero bits |
| BinHexLayout.RunMeans | tools/re/binhex_decode.py:67-85 | a byte, 0x90 and n are n copies in all, whatever follows, and 0x90 and a zero are the byte 0x90 |
| BinHexLayout.MarkRepeats | tools/re/binhex_decode.py:67-85 | a count behind an escaped 0x90 repeats 0x90 |
| BinHexLayout.RunsMaximal | tools/re/make_classic_fixtures.py:27-49 | the encoder never splits a run, except at 255 |
| BinHexLayout.RunWritten | tools/re/make_classic_fixtures.py:27-49 | a run of three or more is written as byte, 0x90 and count, a shorter one as it is, and of 0x90 every copy with a zero behind it |
| Crc.Residue | tools/re/binhex_decode.py:111-123 | feeding a CRC its own two bytes brings it to zero |
| Crc.CheckedBlock | tools/re/binhex_decode.py:111-131 | after a part whose CRC is zero, a block's running CRC is its own, and zero again after its stored bytes |
| BinHexFile.HeaderBack | tools/re/binhex_decode.py:88-108 | a written header is recognised in the first layout and every field recovered |
| BinHexLayout.HeaderBytes | tools/re/make_classic_fixtures.py:52-58 | where every field of a header stands, byte by byte, numbers with their high bytes first |
| BinHexLayout.StreamBytes | tools/re/make_classic_fixtures.py:56-64 | header, data fork and resource fork stand in this order, each with its CRC behind it, the high byte first |
| BinHexFile.PlainExtracts | tools/re/binhex_decode.py:111-133 | from the plain stream the header and both forks are recovered and all three CRCs accepted |
| BinHexFile.FileRoundTrip | tools/re/binhex_decode.py:33-133 | an encoded file whose header and CRC bytes contain no 0x90 is read back whole |
| BinHexMark.FirstMarkFails | tools/re/make_classic_fixtures.py:52-64 | if the first 0x90 of the header or its CRC is followed by a byte other than 0 and 1, the file is not read back, whatever other marks there are |
| BinHexMark.OneMarkIff | tools/re/make_classic_fixtures.py:52-64 | a file with a single unescaped 0x90, in front of another byte of the header or its CRC, is read back if and only if nothing but zeros follows it |
| BinHexMark.MarkSurvives | tools/re/make_classic_fixtures.py:52-64 | there is a file that is read back although its header holds an unescaped 0x90 |
| BinHexCrcMark.FirstTaken | tools/re/make_classic_fixtures.py:27-64 | what the decoder makes of a packed fork whose first byte a mark has taken: the rest of it, or after a run of three or more the wrong byte repeated |
| BinHexCrcMark.OneShort | tools/re/binhex_decode.py:88-133 | a stream that lacks one byte behind a mark is accepted as the file if and only if that byte and all that follows are zero |
| BinHexCrcMark.TwoShort | tools/re/binhex_decode.py:88-133 | a stream that lacks the mark and a successor other than zero is never accepted as the file |
| BinHexCrcMark.EndingMarkIff | tools/re/make_classic_fixtures.py:27-64 | with the only mark as the last byte of the header's CRC the file is read back if and only if nothing but zeros follows and the data fork has fewer than three bytes |
| BinHexCrcMark.FirstOfDataCrcIff | tools/re/make_classic_fixtures.py:27-64 | with the only mark as the first byte of the data fork's CRC, if and only if nothing but zeros follows it |
| BinHexCrcMark.SecondOfDataCrcIff | tools/re/make_classic_fixtures.py:27-64 | with the only mark as the second byte of that CRC, if and only if the resource fork and its CRC are zero and the fork has fewer than three bytes |
| BinHexCrcMark.RsrcCrcIff | tools/re/make_classic_fixtures.py:27-64 | with marks in the resource fork's CRC alone, if and only if both its bytes and the last byte of the fork are 0x90 |
| BinHexRun.RleEncode | tools/re/make_classic_fixtures.py:27-49 | the loops write the runs of the data, cut at 255, with their tokens |
| BinHexRun.RleDecode | tools/re/binhex_decode.py:67-85 | the state machine expands the bytes as specified |
| BinHexRun.PackSix | tools/re/make_classic_fixtures.py:65-76 | eight bits to six through an accumulator that is never masked |
| BinHexRun.UnpackSix | tools/re/binhex_decode.py:51-61 | six bits to eight through a masked accumulator |
| BinHexRun.ReadText | tools/re/binhex_decode.py:35-50 | the values between the first two colons, white space skipped, anything else an error; which values and characters these are is in `BinHexAlphabet.CollectIs` |
| BinHexRun.WriteFile | tools/re/make_classic_fixtures.py:52-80 | the whole encoder; the bytes of its text are those of `BinHexAlphabet` and `BinHexLayout` |
| BinHexRun.ReadFile | tools/re/binhex_decode.py:111-133 | the whole decoder, and that it accepts every clean file the encoder wrote |
| Descriptors.WalkTiles | core/descriptors.c:24-65 | the descriptors carry their own lengths and, with the unread rest, make up the buffer |
| Descriptors.WalkStops | core/descriptors.c:24-65 | the walk ends cleanly exactly when nothing is left, otherwise for the reason it reports |
| Descriptors.WalkFlatten | core/descriptors.c:24-65 | descriptors laid end to end are exactly what the walk finds |
| Descriptors.DescIter.Next | core/descriptors.c:24-65 | one step; an error or the end is final, no read is outside the buffer, and without a buffer only length 0 is no error |
| Descriptors.DescIter.ReadU8 | core/descriptors.c:67-76 | the byte at an offset of the descriptor, 0 beyond its end |
| Descriptors.DescIter.ReadU16 | core/descriptors.c:78-90 | the little-endian pair, 0 unless both bytes are inside |
| Topology.ParseIsFold | core/ports.c:52-175 | the parse is the fold over the walked descriptors; a walk error counts only before the end of the set |
| Topology.Summary | core/ports.c:52-175 | said without the fold: the first MIDIStreaming interface with its class fields, the last device descriptor before it, version and length of the last header of its set, the first 16 jacks and 8 endpoints of the set, the jack counters |
| Topology.SecondDeviceWins | core/ports.c:66-75 | with two device descriptors in front of the interface, vendor and product are those of the second |
| Topology.PortAt | core/ports.c:177-207 | the ports are the first 32 pairs of an endpoint and an index into its jacks, in order, with the index as cable |
| TopologyBytes.TopologyRead | core/ports.c:52-175 | a device with a MIDIStreaming interface, any list of headers, jacks and endpoints laid out byte by byte, and anything behind it, is read back: identity, interface, last header, the first sixteen jacks and the first eight endpoints with their embedded jacks |
| TopologyBytes.PortsRead | core/ports.c:177-207 | jack i of an endpoint is the port of cable i behind the jacks of the endpoints before, up to 32 ports, receiving exactly if the address is at least 128 |
| TopologyBytes.SourcesIff | core/ports.c:119-142 | an OUT jack of up to eight pins is recorded with its sources if and only if each source is the byte at its place among the pairs of source and pin |
| TopologyBytes.SecondSourceLost | core/ports.c:119-142 | the smallest jack with a wrong source: two pins, of which the second source is recorded as the first source's pin |
| TopologyRun.ParseMs | core/ports.c:52-175 | the loop with its walker fills the structure in as the parse says, and succeeds exactly when no error was met |
| TopologyRun.MsInfo.OnInterface | core/ports.c:108-145 | header and jack descriptors are recorded, with the pin count cut to what is there |
| TopologyRun.MsInfo.OnEndpoint | core/ports.c:147-171 | an endpoint is recorded with the standard descriptor before it and at most 16 of the jacks present |
| TopologyRun.MsInfo.OnBefore | core/ports.c:72-92 | device identity and the first MIDIStreaming interface |
| TopologyRun.PortsFromMs | core/ports.c:177-207 | the nested loops with their early return give the port list |
| TopologyRun.ParsePorts | core/ports.c:209-220 | no ports when the parse fails, otherwise those of its endpoints |

## Left out

- The library's promise about refused aborts is an assumption of `UsbRuns.RunsAreSafe`; `UsbRuns.AbortGoodIff` says which
  aborts need it and `UsbRuns.BrokenPromise` what happens without it.
- Mixed mode, the secondary-interrupt trampoline of the bulk read, code-fragment symbols and memory zones: calls into the
  system, whose results are the library's answers.
- Null-pointer checks of the C entry points other than the walker's buffer: every pointer is a live object here.
- RxNested.DequeueHooked: the publication of the head is one step; a completion between the two instructions that read
  and write the counter is not modelled, nor one inside the handling of a single packet (`RxNested.RouteOvertaken` has
  it between packets).
- RxPath.RoutedInOrder: the transfers that interrupt a drain do not drain the ring themselves, as without the event hook;
  what they do with it is in `RxNested`.
- OmsRx.OmsInput.Restart: a MIDI start also restarts the send side of every port, which the model of the send hook does not
  take over.
- Statistics counters are unbounded; the wrap of an `unsigned long` counter is not modelled.
- The default OMS transport that counts dropped packets, port registration, names and message dispatch of the OMS driver.
- The contents of OMS packet headers beyond flags, length and data.
- `probe/`, reports, resource forks, archive walking, CFM validation: input, output and formatting.
- CanonicalTables.BuildCanonical: `zeros=False` and other maximum lengths than 32, which no caller uses, are not modelled.
- The numbers of the five static length sets of `sit5.py`: the model takes the length arrays as parameters, with Kraft's
  inequality as a hypothesis of the round trips.
- BinHexMark.OneMarkIff: files with several unescaped marks of which the first is followed by 0 or 1, beyond those of
  `BinHexCrcMark.RsrcCrcIff`, are not decided, nor is a mark in the name with one of the 255 data fork lengths from
  0x1010101 on whose four bytes are the same.
- `binascii.crc_hqx` is a foreign call, modelled by its polynomial.
- PefDecoder.UnpackPartial: error messages are not modelled, only that there is one; a 64-bit `usize` is assumed.
- RelocRun.ApplyProgram: notes are values instead of texts, and import names are their indices.
- Header parsing in front of the executor: `RelocVector.SpecialMain` takes the loaded section as a parameter, absent when
  it cannot be loaded.
- TopologyRun.ParseMs: the fixed arrays are sequences up to their counts; slots beyond the counts are not modelled.
