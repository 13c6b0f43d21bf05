# Verification of the measurement recorder

The recorder streams samples from and to USRP radios. Its promise is sample-exact coherence: every
received or transmitted sample sits at the index its hardware tick dictates, whatever errors, buffer
wraps, thread interleavings or restarts occur. This project models the five components that carry
that promise, or have a comparably hard one, and proves it.

- **Receive, ring buffer, file writer** (`Words`, `Ring`, `RxSpec`, `Receiver`, `Capture`, `Progress`,
  `Writer`).
  The receive worker writes packets into a power-of-two ring, announcing with `clob` what it is about
  to overwrite and publishing with `head`; after a gap it pads zeros up to the packet's tick. The
  writer copies blocks without a lock and checks afterwards that nothing was overwritten meanwhile.
  `Ring.Ringbuf` and `Receiver.Rx` are the classes, over real arrays and for all channels, proved
  equal to the stream `RxSpec.Run` assigns to a script of `recv()` results. `Capture` interleaves one
  channel's receive worker and writer with one step per access to shared memory, down to the single
  sample, and proves that the checked part of a file is the device's samples tick by tick; `Progress`
  proves that from every reachable state the machine can go on, so that every run can happen.
  `Writer.Wr` is the writer's loop over all channels.
- **Log queue** (`Mpsc`, `Logging`). The lock-free bounded queue, one program-counter step per atomic
  operation, any number of producers; then the queue as an object and the logger's drain of it.
- **Transmit** (`TxTime`, `TxSpec`, `Transmitter`). Aligned start times, the periodic send buffer, and
  the burst state machine under arbitrary send results, errors, mutes and stops.
- **UBX receiver driver** (`UbxFrame`, `UbxStream`, `UbxConfig`, `F9pRover`). Frames and their
  checksum, the resynchronising stream parser, the key/value codec, and paged configuration reads.
- **JSON log** (`Json`). The printer, against a parser written from the grammar of RFC 8259.

The environment is an argument everywhere: results of `recv()`, `send()`, `fwrite()` and `read()`,
device times, asynchronous messages and flag readings are scripts, and every theorem quantifies over
them. `dafny verify dfyconfig.toml` checks the whole project.

Some of the results are exact conditions under which the code keeps a promise that it does not keep
always, each with a run or an input in which it does not:

- `RxSpec.CoherentExactly`: the copy loop at `src/rx.cpp:247` reads the first channel's temporary
  buffer for every channel. Channel 0 is always coherent; another channel is coherent if and only if
  its samples equalled the first channel's wherever that path was taken (`RxSpec.SecondChannelLost`).
- `Writer.TruncationExact`: `src/wr.cpp:129` resizes a clobbered file to the last channel's count. The
  whole clobbered block goes if and only if the last channel was not ahead of that one
  (`Writer.TruncationKeepsClobbered`), and every checked sample stays if and only if it was not behind
  (`Writer.TruncationDropsChecked`).
- `TxSpec.LeftOpenExactly`: the transmit worker leaves a burst without an end-of-burst if and only if
  `run` falls between the check at `src/tx.cpp:181` and the loop head at `src/tx.cpp:115` while a burst
  with samples is under way (`TxSpec.BurstLeftOpen`).
- `Mpsc.RefusedExactly`: a push can be refused by a queue that is not full (`Mpsc.SpuriousRefusal`).
- `UbxConfig.RecoveredExactly`: keys of type 1 read back as truth values (`UbxConfig.FlagNotRecovered`).
- `Ring.Ringbuf.GetProducerSpan`: the clobber check is sound as long as the producer publishes what it
  writes; a producer that fills a grant, publishes less of it and takes a smaller one lowers `clob` below
  what it overwrote (`Ring.OverwriteUnannounced`). The receive worker never does.
- `UbxFrame.WaitsInHope`: the stream parser waits for bytes that can still complete a frame, except that
  it waits for the last byte of a frame whose first checksum byte is already wrong
  (`UbxFrame.WaitsInVain`).
- `Words.MaskExact`: the ring's masks need a size that is a power of two, which nothing checks.

## Model

| member | source | states |
|---|---|---|
| Words.PowerOfTwoExact | src/mpsc.hpp:17-18 | the bit test of the static assertion accepts exactly the powers of two (of non-zero sizes) |
| Words.MaskIsMod | src/ringbuf.hpp:86 | masking with size - 1 is the residue modulo a power of two |
| Words.MaskExact | src/ringbuf.hpp:47-48 | and is so for all positions only if the size is a power of two |
| Words.WrappedMask | src/mpsc.hpp:35-36 | masking a counter that wraps at 64 bits gives the residue of the unbounded counter |
| Words.SignedDifference | src/ringbuf.hpp:78-82 | a difference below 2^63 in size keeps its value through unsigned subtraction and the signed reading |
| Words.SlotsApart | src/ringbuf.hpp:139-143 | two indices less than a ring length apart have different cells |
| Words.EveryCell | src/mpsc.hpp:92-95 | any size consecutive indices reach every cell |
| Ring.Clip | src/ringbuf.hpp:96-104 | the span handed out is as long as wanted or ends with the ring, never beyond it, and not empty unless nothing was wanted |
| Ring.Ringbuf.constructor | src/ringbuf.hpp:40-55 | a new ring is empty and zeroed; if its size is a power of two it is in the state between two producer rounds |
| Ring.Ringbuf.SetDescriptorInfo | src/ringbuf.hpp:178-182 | stores start time and rate and nothing else |
| Ring.Ringbuf.GetProducerSpan | src/ringbuf.hpp:134-150 | whatever the producer did with earlier grants: in-bounds cells of exactly the next n indices; `clob` announces these, which may lower it, and covers all that has been overwritten exactly if nothing beyond them has |
| Ring.Ringbuf.Produce | src/ringbuf.hpp:170-176 | publishing n granted samples, however many were written, extends the logical stream by what their cells hold and keeps everything not overwritten |
| Ring.Ringbuf.GetConsumerSpan | src/ringbuf.hpp:84-105 | empty exactly if the whole request is not published; otherwise published, in-bounds cells of the next n indices |
| Ring.Ringbuf.GetClobberDistance | src/ringbuf.hpp:78-82 | within 2^63 the true signed distance; if it is not negative and the producer announced what it overwrote, every published sample from the tail on is still in the ring |
| Ring.OverwriteUnannounced | test/test_ringbuf.cpp:49-73 | a producer that fills more than it publishes and then takes a smaller grant: the check passes although the sample at the tail is overwritten |
| Ring.Ringbuf.GetBacklogSamples | src/ringbuf.hpp:70-76 | the samples between tail and head, none if the tail is ahead |
| Ring.Ringbuf.GetAlignedSamples | src/ringbuf.hpp:118-132 | for any block size that fits twice: an in-bounds contiguous block whose start and end are multiples of the size and whose end is the aligned head, or one block earlier exactly if less than a block lies between the ring's start and the aligned head; with room for three blocks and the current grant its content is the stream's; before the first block it points two blocks below the ring's end |
| Ring.Ringbuf.GetTail | src/ringbuf.hpp:152-168 | an accepted index is within half a sample of the requested time and beyond everything published, granted or announced; refusals happen exactly if the time precedes the start, or lies less than half a sample beyond `clob` |
| Ring.RecordingTail | src/ringbuf.hpp:159-161 | the sample count within half a sample of the requested time |
| RxSpec.LostExact | src/rx.cpp:216-225 | the unsigned test passes exactly for packets not early and at most one second late, and then counts the lost samples |
| RxSpec.ChannelsAgree | src/rx.cpp:231-251 | every run gives every channel the same number of samples |
| RxSpec.TickInvariant | src/rx.cpp:118-263 | after every result the next expected tick is the start tick plus the length of each channel's stream |
| RxSpec.AbortRule | src/rx.cpp:216-225 | a packet early by any amount or late by more than a second ends the run with nothing of it placed; any other is placed at its own tick |
| RxSpec.RunsExactly | src/rx.cpp:153-225 | the worker is running exactly as long as it met neither a fatal error nor an early or late packet |
| RxSpec.TrustsExactly | src/rx.cpp:161-170 | it trusts the next packet to be contiguous exactly if it received one since the start or the last overflow |
| RxSpec.PlacedWhole | src/rx.cpp:129-258 | behind the zeros of a gap come all samples recv() returned, the first at its tick; the next expected tick is the one behind the last; only a packet longer than asked for (a packet's capacity, and while contiguous the cells up to the ring's end) is cut, at that length |
| RxSpec.NothingDropped | src/rx.cpp:129-258 | in the stream of a whole run every packet that was in time and no longer than asked for lies complete at its ticks |
| RxSpec.FailureKeepsStream | src/rx.cpp:153-187 | a result without samples moves neither stream nor expected tick; no error and overflow go on, any other code stops; an overflow ends contiguity |
| RxSpec.CoherentExactly | src/rx.cpp:204-251 | a channel's stream is the device's samples at their ticks, zero where lost, if and only if its gap packets agreed with the first channel's |
| RxSpec.SecondChannelLost | src/rx.cpp:247 | a recording of two channels whose second channel holds the first one's sample |
| RxSpec.CoherentStep | src/rx.cpp:204-255 | one result keeps a channel coherent exactly if it is not placed after a gap or its samples equal the first channel's |
| RxSpec.FirstChannelGaps | src/rx.cpp:247 | for channel 0 the condition of coherence always holds |
| RxSpec.StartLead | src/rx.cpp:92-98 | reception starts more than half and at most one and a half seconds ahead |
| RxSpec.RecordingsAligned | src/ringbuf.hpp:159-161 | nodes that started at different full seconds give the same second's first sample the same place in their recordings |
| Receiver.Fill | src/rx.cpp:237 | writing a granted span keeps every sample the span does not replace |
| Receiver.PadLost | src/rx.cpp:232-240 | the padding loop ends and appends exactly the lost number of zeros, through any number of wraps |
| Receiver.CopyReceived | src/rx.cpp:242-250 | the copy loop ends and appends exactly the received samples |
| Receiver.Rx.GetSpans | src/rx.cpp:131-137 | all channels are granted a span at the same index, in bounds and as long as the shortest |
| Receiver.Rx.ReceiveContiguous | src/rx.cpp:204-211 | every channel's stream grows by its own samples |
| Receiver.Rx.ReceiveAfterGap | src/rx.cpp:231-251 | every channel's stream grows by the padding and the first channel's samples |
| Receiver.Rx.ReceivePacket | src/rx.cpp:202-251 | places a packet in all rings exactly if the specification does, else changes nothing |
| Receiver.Rx.Iterate | src/rx.cpp:128-264 | one pass takes rings and loop variables from one state of the specification to the next |
| Receiver.Rx.Worker | src/rx.cpp:128-264 | a whole run leaves each channel's ring with the stream the results call for, and all published heads equal to the expected tick less the start tick |
| Capture.WriteSpares | src/ringbuf.hpp:139-143 | writing one cell ahead of the head destroys one index of the last ring length, the one a ring length back |
| Capture.Reachable | src/rx.cpp:128-264 | in every interleaving: ring refines stream, the dirty mark never passes `clob` although grants may lower it, the worker follows its specification, and every sample read is right or provably late |
| Capture.WriterLeavesNoTrace | src/wr.cpp:101-139 | no step of the writer changes anything the receive worker or another reader sees |
| Capture.RxProgress | src/rx.cpp:204-251 | the stream only grows and the producer's commitment never recedes, even when `clob` does |
| Capture.CheckExact | src/ringbuf.hpp:78-82 | in every invariant state the 64-bit check is negative exactly if `clob` is more than a ring length past the tail |
| Capture.ClobberCheckSound | src/wr.cpp:109-134 | if the check passes, every sample of the block just copied equals the stream's; it fails exactly if `clob` passed the tail by more than a ring length; the resize to the common count then leaves nothing but checked samples exactly if that count is at most this channel's, and all of them exactly if it is this channel's |
| Capture.EndToEnd | src/wr.cpp:101-139 | first channel, every reachable state of the interleaved machine: checked sample j of the file is the device sample of tick start + tail + j, or zero if that tick was lost. While the writer runs the file holds all checked samples and nothing else but a block awaiting its check; after a failed check, exactly the checked samples if and only if the cut is their count, and nothing else if and only if it is at most that |
| Capture.EndToEndOf | src/wr.cpp:101-139 | the same for any channel whose gap packets agreed with the first channel's |
| Capture.FileIsExpected | src/wr.cpp:101-139 | the same for any state that satisfies the invariant |
| Progress.ReceiveFinishes | src/rx.cpp:128-264 | from any state of any run, some receive steps finish what is under way, meet any result the worker can meet next, and end at the loop head or stopped with variables and stream as specified |
| Progress.WriterDoesNotMatter | src/wr.cpp:101-139 | whatever writer steps fall in between, the receive steps of a schedule have the same effect |
| Progress.ReceiverProgress | src/rx.cpp:128-264 | so they do in every reachable state under every interleaving with the writer: no deadlock, no lost work |
| Progress.EveryRunHappens | src/rx.cpp:128-264 | for every script of results and every start index some schedule opens a recording there and leaves the stream the whole script calls for |
| Progress.WriterProgress | src/wr.cpp:109-138 | a published block can be recorded: up to 1048576 samples or the ring's end, and unless overtaken the file grows by exactly the stream's samples |
| Progress.ErrorEnds | src/wr.cpp:122-124 | an error of fwrite() ends the recording as it stands |
| Progress.EndedForGood | src/wr.cpp:122-131 | a recording that has ended stays as it is, whatever either thread does |
| Progress.StoppedForGood | src/rx.cpp:187-225 | a receive worker that has stopped publishes and overwrites nothing more |
| Writer.VisitIsSteps | src/wr.cpp:109-138 | once a block is published, a visit to one of any number of channels is what the interleaved machine's span, copy and check steps amount to, with the common count for the cut; other channels are not touched |
| Writer.IdleIsNoStep | src/wr.cpp:109-114 | with less than a block published, neither takes a step |
| Writer.CutExact | src/wr.cpp:129-138 | at such a visit the common count is this channel's exactly if the last channel has advanced alike, as the last channel, or a single one, always has |
| Writer.Wr.ServeAll | src/wr.cpp:108-139 | one pass serves the channels in order and ends at the first exception |
| Writer.Wr.Worker | src/wr.cpp:101-148 | the loop serves pass after pass until an exception; each file then holds as many samples as its tail has passed, except that of a channel found too slow, which holds as many as the last channel's tail has passed |
| Writer.StaysAccounted | src/wr.cpp:127-138 | the same after any number of passes, exception or not, and the count is the last channel's advance |
| Writer.VisitOutcome | src/wr.cpp:109-138 | nothing happens unless a whole block is published; else an error if fwrite() took nothing, too slow if `clob` has passed the tail by more than a ring length, and otherwise the samples taken, in that channel's file only |
| Writer.RoundServesAll | src/wr.cpp:107-139 | a round without exception serves every channel once |
| Writer.FilesExact | src/wr.cpp:101-148 | while the writer runs, a channel's file is the blocks of its own visits, one behind the other, whatever the other channels do |
| Writer.TruncationExact | src/wr.cpp:127-138 | the resize removes the whole clobbered block exactly if the last channel was not ahead of this one, keeps every checked sample exactly if it was not behind, and leaves the file as before the block exactly if both had advanced alike; no other file changes |
| Writer.TruncationKeepsClobbered | src/wr.cpp:129-137 | two channels, the second a block ahead: a whole clobbered block remains in the first file |
| Writer.TruncationDropsChecked | src/wr.cpp:129-137 | two channels, the second a block behind: the first file loses a checked block |
| Mpsc.PushAccounting | src/mpsc.hpp:24-48 | every step of a push keeps `used`, `head` and `lost` exact and occupied slots within N |
| Mpsc.PopAccounting | src/mpsc.hpp:51-78 | every step of a pop keeps the same, without underflow |
| Mpsc.PushSlots | src/mpsc.hpp:34-45 | every step of a push keeps tickets, slots and their owners in agreement |
| Mpsc.PopSlots | src/mpsc.hpp:63-75 | so does every step of a pop |
| Mpsc.Reachable | src/mpsc.hpp:24-78 | the invariant holds after any interleaving of any number of producers with the consumer |
| Mpsc.Fifo | src/mpsc.hpp:51-78 | what has been popped is a prefix of the accepted objects in ticket order: none lost, none twice |
| Mpsc.ProducerOrder | test/test_mpsc.cpp:31-39 | a producer's accepted objects are its successful pushes in order and at most one under way |
| Mpsc.PoppedInPushOrder | test/test_mpsc.cpp:43-59 | the consumer sees each producer's objects in the order they were pushed |
| Mpsc.PushesDecided | src/mpsc.hpp:24-49 | a producer's calls of push(), with the objects they were given, are in order its accepted and its refused ones and at most one undecided |
| Mpsc.PoppedWasPushed | src/mpsc.hpp:51-78 | every popped object was given to a call of push() by the producer its ticket names |
| Mpsc.SlotExclusivity | src/mpsc.hpp:40-46 | a producer with a ticket finds its slot invalid, shares it with no other producer, and never writes the slot the consumer is moving out of |
| Mpsc.UsedExact | src/mpsc.hpp:27-30 | `used` is occupied slots plus failed pushes not yet undone, the former at most N; `lost` counts the completed failures |
| Mpsc.RefusedExactly | src/mpsc.hpp:27-32 | a push is refused exactly if both together reach N; with no failure in flight, exactly if the queue is full |
| Mpsc.SpuriousRefusal | src/mpsc.hpp:27-32 | a reachable state in which an empty queue refuses a push |
| Mpsc.EmptyExactly | src/mpsc.hpp:53-66 | a pop returns nothing exactly if it finds no slot occupied and no failed push to be undone, or the oldest ticket not drawn or its producer still storing |
| Logging.PopEffect | src/mpsc.hpp:51-78 | the atomic steps of an uninterrupted pop amount to one update |
| Logging.PushEffect | src/mpsc.hpp:24-49 | the same for a push |
| Logging.PopTakesOldest | src/mpsc.hpp:51-78 | with nothing under way a pop removes the oldest pending object, or finds none and changes nothing |
| Logging.PushAppends | src/mpsc.hpp:24-49 | with nothing under way a push appends its object, or is refused and counted if N are pending |
| Logging.DrainedClean | src/logging.cpp:784-800 | a settled queue with nothing pending has `used` zero and no valid slot |
| Logging.SettledAfterRun | src/logging.cpp:737-745 | any concurrent run of any number of producers that have all returned leaves the queue settled, with the same messages pending |
| Logging.Queue.Push | src/mpsc.hpp:24-49 | the method on arrays has that effect and returns the slots in use before, or N |
| Logging.Queue.Pop | src/mpsc.hpp:51-78 | the method on arrays has that effect and returns the object it appended to the history |
| Logging.SerializeMessages | src/logging.cpp:784-800 | the drain ends, writes exactly the pending messages in ticket order, and leaves `used` zero and every slot invalid |
| TxTime.ThrowsExactly | src/tx.cpp:267-283 | the exception is thrown exactly for rates that are no integer |
| TxTime.Aligned | src/tx.cpp:274-275 | the aligned count is a multiple of the period |
| TxTime.RoundUp | src/tx.cpp:273-275 | and the least one not below the count |
| TxTime.SplitTick | src/tx.cpp:277-279 | seconds and fraction stand for exactly the sample they were made from |
| TxTime.AlignExact | src/tx.cpp:261-279 | the start time stands for a whole sample, the least multiple of the period not before now plus the delay in samples |
| TxTime.DelayKept | src/tx.cpp:268-271 | rounding the fractions down costs less than two samples of the delay, and none on the sample grid |
| TxTime.AlignTwice | src/tx.cpp:261-279 | aligning an aligned time again changes nothing |
| TxSpec.StartOnPeriod | src/tx.cpp:120-121 | the worker's truncated rate never meets the exception; every burst starts on a multiple of the period, not before the delay |
| TxSpec.StartLead | src/tx.cpp:28 | a burst starts 10 ms after the reading of the clock, at most two samples earlier and less than a period later |
| TxSpec.Coherence | src/tx.cpp:115-245 | over all bursts, whatever send() takes, whichever errors and mutes occur, the sample on the air at tick t is signal[t mod period] |
| TxSpec.NodesAgree | src/tx.cpp:259-279 | two nodes with the same signal send the same sample at every tick both are on the air |
| TxSpec.BurstProtocol | src/tx.cpp:115-187 | bursts open with one call carrying start flag and time, go on with plain calls, close with an empty end-of-burst before the next start; the gain changes only between bursts; samples_burst is what the open burst has streamed |
| TxSpec.EveryPass | src/tx.cpp:115-245 | every pass of every run offers one send of 128 frames, starting a burst exactly if none is open; it ends the burst exactly if a message other than an acknowledgement or user payload arrived, nothing has been streamed, mute is set or run is cleared, and then takes the gain to zero and back exactly if mute is still set |
| TxSpec.NextPass | src/tx.cpp:115-187 | the next sample-carrying call is a timed start of burst after a pass that ended its burst, and a plain call after any other |
| TxSpec.LeftOpenExactly | src/tx.cpp:178-187 | the exact condition under which the device is left inside a burst |
| TxSpec.BurstLeftOpen | src/tx.cpp:178-187 | a one-pass run that meets it |
| TxSpec.GainAtSamples | src/tx.cpp:229-243 | samples are offered only at the original gain, which is also the final one |
| TxSpec.GainSequence | src/tx.cpp:229-243 | every burst that ends with mute set is followed by gain zero and back; nothing else sets the gain |
| Transmitter.FillSendBuffer | src/tx.cpp:102-107 | the send buffer repeats the signal and is one period longer than a send |
| Transmitter.SendFits | src/tx.cpp:126-132 | from any offset within the period a full send stays inside the buffer and is the periodic signal from there |
| Transmitter.DrainEvents | src/tx.cpp:145-167 | the sample count falls to zero exactly if a message is anything but a burst acknowledgement or user payload, named code by code |
| Transmitter.AwaitAcks | src/tx.cpp:200-222 | waits for one acknowledgement per channel or a time-out, and reads no message beyond the last it needs |
| Transmitter.Tx.EndBurst | src/tx.cpp:182-243 | sends the end-of-burst; waits for one acknowledgement per channel or a time-out, or for none after an error on a device that sends none; zeroes the gain, polls until run is cleared or mute lifted, and restores it |
| Transmitter.Tx.Pass | src/tx.cpp:115-245 | one pass makes exactly the specified calls |
| Transmitter.Tx.Worker | src/tx.cpp:69-247 | a whole run makes exactly the specified calls, reports samples_burst, restores the gain and clears run |
| UbxFrame.SumBClosed | utils/rtk/opt/rtk/ubx_parser.py:97-101 | the running double sum is the closed form that weights byte i of n with n - i |
| UbxFrame.LowByte | utils/rtk/opt/rtk/ubx_parser.py:100-101 | masking with 0xFF keeps the residue modulo 256 |
| UbxFrame.ComputeChecksum | utils/rtk/opt/rtk/ubx_parser.py:130-134 | the loop computes both sums of the range modulo 256 |
| UbxFrame.Serialize | utils/rtk/opt/rtk/ubx_parser.py:122-140 | writes preamble, header, payload and checksum; fails exactly for payloads of 65536 bytes or more |
| UbxFrame.AckFrame | utils/rtk/opt/rtk/ubx_parser.py:122-140 | the bytes of an acknowledgement frame as the receiver sends it |
| UbxFrame.LengthBytes | utils/rtk/opt/rtk/ubx_parser.py:71 | preamble B5 62, length low byte first, then the payload |
| UbxFrame.FromByteArray | utils/rtk/opt/rtk/ubx_parser.py:80-111 | the method returns the parser function's verdict |
| UbxFrame.ParsesExactly | utils/rtk/opt/rtk/ubx_parser.py:80-140 | the parser accepts exactly the buffers that begin with a serialized frame of at most 2048 bytes payload, and returns that frame |
| UbxFrame.UndecidedExactly | utils/rtk/opt/rtk/ubx_parser.py:82-95 | the parser asks for more exactly if it has less than a header, or the beginning of header and payload of some frame of at most 2048 bytes, not yet complete; anything else is decided |
| UbxFrame.WaitsInHope | utils/rtk/opt/rtk/ubx_parser.py:93-106 | what is undecided can still become a frame exactly if its first checksum byte is not there yet or right |
| UbxFrame.WaitsInVain | utils/rtk/opt/rtk/ubx_parser.py:93-106 | a frame with a wrong first checksum byte is waited for although nothing can complete it |
| UbxFrame.TooLongRejected | utils/rtk/opt/rtk/ubx_parser.py:90-91 | longer frames are serialized but never parsed |
| UbxFrame.DecidedStays | utils/rtk/opt/rtk/ubx_parser.py:80-111 | a verdict is not changed by what arrives after it |
| UbxFrame.ChangedByteRejected | utils/rtk/opt/rtk/ubx_parser.py:97-106 | any one changed byte of class, id, payload or checksum is rejected |
| UbxFrame.SwappedBytes | utils/rtk/opt/rtk/ubx_parser.py:97-106 | two exchanged bytes of class, id and payload are rejected exactly if distance times difference is no multiple of 256 |
| UbxFrame.OddSwapRejected | utils/rtk/opt/rtk/ubx_parser.py:97-106 | so two differing bytes at odd distance cannot trade places |
| UbxStream.ScanConcat | utils/rtk/opt/rtk/ubx_parser.py:510-546 | scanning piecewise, carrying the undecided rest over, finds the frames of a one-shot scan |
| UbxStream.UbxParser.Fill | utils/rtk/opt/rtk/ubx_parser.py:513-517 | a read appends to the buffer and loses nothing of what is still to be parsed |
| UbxStream.UbxParser.Next | utils/rtk/opt/rtk/ubx_parser.py:510-546 | returns the first frame of everything still to be parsed, or ends with none left; never looks at an empty buffer; every round consumes buffer or input |
| UbxStream.ReadAll | utils/rtk/opt/rtk/ubx_parser.py:507-546 | the frames emitted before the end are those of a one-shot scan, for every split into reads |
| UbxStream.StreamRoundTrip | utils/rtk/opt/rtk/ubx_parser.py:122-140 | frames separated by anything in which the preamble does not occur, stray 0xB5 bytes included, are found, exactly these and in order |
| UbxStream.StreamReceived | utils/rtk/opt/rtk/ubx_parser.py:510-546 | and received so under any chunking |
| UbxConfig.DataLength | utils/rtk/opt/rtk/ubx_parser.py:267-282 | the first pass computes the length the items take, or names the first key of unknown type |
| UbxConfig.PackItems | utils/rtk/opt/rtk/ubx_parser.py:289-310 | the second pass fills the buffer exactly, or meets a value its size cannot hold |
| UbxConfig.Valset | utils/rtk/opt/rtk/ubx_parser.py:258-312 | the payload is header and items; which inputs fail, and how |
| UbxConfig.ValgetPolled | utils/rtk/opt/rtk/ubx_parser.py:203-237 | any byte string is read or refused as the decoder function says, without reading beyond it |
| UbxConfig.DecodeItem | utils/rtk/opt/rtk/ubx_parser.py:211-237 | an encoded item is read back and the rest is left |
| UbxConfig.DecodesExactly | utils/rtk/opt/rtk/ubx_parser.py:203-237 | the decoder accepts exactly the byte strings the encoder writes: whole items of known types with values in range |
| UbxConfig.ItemsRead | utils/rtk/opt/rtk/ubx_parser.py:211-237 | otherwise it has read whole items up to a key of unknown type, which it names, or up to a cut item |
| UbxConfig.KnownItems | utils/rtk/opt/rtk/ubx_parser.py:289-307 | the bytes of items of types 1 and 2 |
| UbxConfig.KnownWiderItems | utils/rtk/opt/rtk/ubx_parser.py:289-307 | the bytes of items of types 3 and 4 |
| UbxConfig.KnownLongItem | utils/rtk/opt/rtk/ubx_parser.py:289-307 | the bytes of an item of type 5 |
| UbxConfig.LayerBits | utils/rtk/opt/rtk/ubx_parser.py:243-287 | the header: version 1, a bit for each layer, transaction, padding |
| UbxConfig.ConfigRoundTrip | utils/rtk/opt/rtk/ubx_parser.py:203-312 | decoding what was encoded yields the dictionary, keys of type 1 as truth values |
| UbxConfig.RecoveredExactly | utils/rtk/opt/rtk/ubx_parser.py:218-221 | the dictionary comes back unchanged if and only if no key of type 1 was given a value above 1 |
| UbxConfig.FlagNotRecovered | utils/rtk/opt/rtk/ubx_parser.py:218-221 | a flag written as 2 comes back as 1 |
| UbxConfig.ValsetOnTheWire | utils/rtk/opt/rtk/ubx_parser.py:266-312 | a configuration message fits a frame and survives the serial line with its items |
| F9pRover.ReadAnswer | utils/rtk/opt/rtk/f9p_rover.py:84-96 | skips unrelated messages and stale acknowledgements up to the answer and leaves what follows |
| F9pRover.PollPage | utils/rtk/opt/rtk/f9p_rover.py:80-96 | one poll yields the page at its position or the refusal of an empty one; positions beyond 16 bits fail |
| F9pRover.CfgGet | utils/rtk/opt/rtk/f9p_rover.py:73-97 | returns the whole configuration of n items after n/64 + 1 polls, exactly if at most 64 keys are asked for and n < 65536 |
| Json.UnescapeEscaped | src/json.hpp:198-233 | section 7 of RFC 8259 inverts every escape sequence of the printer |
| Json.StringRoundTrip | src/json.hpp:192-238 | a printed string reads back and ends at its own closing quote |
| Json.NumberRoundTrip | src/json.hpp:123-131 | printed integers read back by value |
| Json.ValueRoundTrip | src/json.hpp:112-185 | every value without doubles reads back, nested to any depth, whatever follows it |
| Json.TextRoundTrip | src/json.hpp:65-70 | what dumps() returns is a JSON text that means the value |
| Json.NothingTrails | src/json.hpp:65-70 | with anything but white space behind it, a printed value is no JSON text |
| Json.EscapesWhatItMust | src/json.hpp:198-233 | exactly quotes, backslashes and control characters are escaped, in two characters where there is a short form and six otherwise |
| Json.KnownText | src/json.hpp:143-185 | a text as it appears in the log, separators included |
| Json.PrintPlain | src/json.hpp:192-238 | nothing printed contains a raw control character |
| Json.Visitor.EscapeString | src/json.hpp:192-238 | appends the quoted, escaped string to the stream |
| Json.Visitor.Visit | src/json.hpp:112-141 | appends the printed value |
| Json.Visitor.VisitElements | src/json.hpp:143-161 | the loop appends the elements with a separator between any two |
| Json.Visitor.VisitMembers | src/json.hpp:163-185 | the same for the members of an object |
| Json.Dumps | src/json.hpp:65-70 | the returned text is the printed value, reads back as it, and holds no raw control character |

## Left out

- Weak memory orderings: atomics are sequentially consistent, and no access to shared memory is torn.
- Floating point: doubles are reals; `std::round` in `get_tail`, `get_frac_secs() * rate` and the start time's fraction are exact. Printing doubles as JSON is not modelled.
- UHD, `mmap`, files, threads, priorities, signals and clocks are not part of this model; their results are scripts. `recv()` writes only the samples it reports, so that the receive worker publishes all it writes, and fills all channels alike; `send()` takes at most what it is offered; `fwrite()` reports whole samples.
- RxSpec.TickInvariant: tick and sample counts below 2^63 (`RxSpec.Proper`), because `to_ticks` returns a signed 64-bit count.
- RxSpec.CoherentExactly: in contiguous mode the worker does not look at time stamps; that an unreported gap does not occur then is an assumption about the device (`RxSpec.Faithful`).
- Writer.VisitOutcome: loads of a run of fewer than 2^63 samples, with `clob`, which is loaded later, not behind `head`.
- Progress.EveryRunHappens: that some schedule does it; threads are not assumed to be scheduled fairly.
- TxTime.AlignExact: device times of fewer than 2^63 samples.
- TxSpec.Coherence: `samples_burst` is not wrapped at 2^64; the rate is the truncated one of `src/tx.cpp:94`, so ticks are those of the device only if its rate is an integer; the signal is not empty.
- TxSpec.LeftOpenExactly: exceptions inside the transmit worker, which also leave a burst open, are not modelled.
- Capture.EndToEnd: the machine interleaves one writer with the receive worker for one channel of an any-channel configuration. What the writer shares between channels, the count a clobbered file is cut to, is an argument of its check step; Writer says what that argument is. Several writers do not disturb each other by Capture.WriterLeavesNoTrace.
- Words.PowerOfTwoExact: the static assertion also accepts N = 0, for which the queue would have no slot.
- Ring.Ringbuf.constructor: for a size that is no power of two, by Words.MaskExact nothing more than an empty ring is promised.
- Ring.Ringbuf.GetProducerSpan: indices stay below 2^64 (and Ring.Ringbuf.GetConsumerSpan takes a tail below 2^64), so the head counter itself does not wrap; the queue's counters do wrap in Mpsc.
- F9pRover.CfgGet: the receiver answers every poll with a page and an acknowledgement or with a refusal; a lost answer would block the original for ever.
- UbxStream.UbxParser.Next: frame level only; the table lookup of `parse()`, its message constructors and the NAV field getters are left out, and `AsyncUbxParser` differs only in awaiting its reads.
- `get_consumer_wait`, sleep durations, backlog statistics, log formatting, console colours, the MQTT, NTRIP, hardware monitor and oscillator clients, and configuration files: shallow logic or input and output.
- The receive worker's final discard of late packets after it stopped streaming.
- Move semantics beyond the queue: an object moved from keeps an arbitrary value in `Mpsc`.
