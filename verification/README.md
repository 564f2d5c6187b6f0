# aiorak reliability engine: a verified model

This project models the reliable-UDP engine of aiorak, a Python implementation of the
RakNet protocol, and proves what its tests and documentation promise of whole runs:
two endpoints joined by a network that may lose, duplicate and reorder every datagram.

`dafny verify dfyconfig.toml` checks everything.

## Layers

| files | what they hold |
|---|---|
| `SeqNum`, `Types` | 24-bit circular numbers and the unbounded counters behind them; delivery modes and limits |
| `Bits`, `BitSpec`, `BitStream` | the bit stream: what a list of items writes and reads, and the class over a byte buffer that does it |
| `WireFormat`, `Layouts`, `Codec` | the wire format as a function of bytes with its round trips, its bytes written out, and the encoders and decoders that produce and parse it |
| `Windows`, `Ranges`, `Ordering`, `ChannelFate`, `Splitting` | duplicate filters, ACK range lists, the ordering heap and what becomes of each message in it, fragments |
| `Congestion`, `WindowGrowth` | the congestion controller, its gap detection and its bounds; its window and timeout in numbers |
| `Tags`, `ReceiverSpec`, `SenderSpec` | receive side and send side over unbounded numbers |
| `Receiver`, `WireMaps`, `Send`, `Layer` | the two sides and the layer as classes with 24-bit fields, each method refining its unbounded counterpart |
| `SenderQueue`, `SenderBytes`, `SenderInv`, `SenderNet`, `SenderReach` | what every run of the sender keeps |
| `Timers`, `AckEffects`, `PassShape`, `PriorityOrder`, `ChannelKeys` | when frames leave again, what ACKs and NAKs tell the controller, how a tick fills its datagrams, in what order frames wait, and their keys |
| `ReceiverInv`, `ReceiverGaps`, `DeliveryInv` | what every run of the receiver keeps |
| `Application`, `Handover`, `EndToEnd` | what reaches the application, and which messages do |
| `Transport`, `FirstLap`, `Lossless` | sender, receiver and network as one state machine |
| `ConnectionSpec`, `ConnectionRuns`, `ConnectionTime`, `ConnectionTalk`, `Connection` | the connection state machine, its runs, its timeouts and messages, the two-party handshake and goodbye, and the class |

Numbers: specifications count with unbounded integers.  A class holds the 24-bit values
and a ghost copy of the unbounded state; its methods say that the copy moves as the
specification says.  What the code itself needs for that is a precondition: numbers in use
at one time span less than (half) the circle, and buffered ordering indices do not straddle
the wrap.  `SenderReach` and `FirstLap` prove these preconditions of every run until a counter
has come round; `SenderReach.DrivableExactly` says of every run, across wraps, when it can be driven.

`ReliabilityLayer` is one Python class with two halves that share only the congestion
controller.  Here the halves are the classes `SendSide` and `ReceiveSide`, and `Layer`
puts them together.

Dictionaries are maps; where their iteration order could matter (which due frame is resent
first, which of several equally old records is evicted) any order is allowed.  `heapq` is a
sequence kept in heap order.  Times and round trips are reals; every call gets the time as
an argument.

## What the code does not do

- A datagram below the 512-wide receive window is acknowledged unread (`Transport.AckedUnread`), a
  number over a million ahead is refused without a mark (`Transport.RefusedByGap`), and a frame sent
  while 4096 are tracked is not resent (`Transport.TrackFull`).  `Transport.NoReliableLoss` names
  exactly these; `Lossless.NothingLost` excludes them by caps a caller can watch.
- A wrap of the ordering index with both sides buffered stalls the channel for good
  (`Receiving.StallsForGood`; an instance is `Receiving.WrapStalls`): the heap's order is the
  intended one exactly when no wrap lies between two entries (`Receiving.PushExactly`).  Two
  messages of one slot strand one of them exactly when they are not clear of each other
  (`Ordering.StrandsExactly`), which a repeated key (`Ordering.DuplicateStrands`) and a sequencing
  index past 1048575 (`Ordering.LateSequencedStrands`) are.  The repeated key cannot happen in a run
  (`DeliveryInv.FitsInRuns`); the sequencing index is a hypothesis of `Transport.DeliveryInOrder`.
- Split identifiers come round after 65536 split messages, exactly (`FirstLap.IdentifiersOfRuns`),
  and then bytes of two messages can be joined (`Splitting.ReusedIdentifierMixes`); before that they
  never are (`FirstLap.NeverMixed`).
- A packet of more than 512 ranges is refused by its receiver; it is built exactly when the MTU is
  above 2082 (`Ranges.ReadUpTo2082`).  An ACK of more than 512 numbers acts on the first 512
  (`Sending.AckRemovesNamed`).
- The handshake may raise the MTU above the congestion window, which then is less than one MTU
  (`Congestion.NeverBelowMtu`, `Layer.ReliabilityLayer.SetMtu`).
- Below MTU 124 a fragment can exceed its datagram (`SenderBytes.FramesFitFrom124`).
- What a channel delivers and what needs no channel enters a queue of 16384; while it is full every
  message that completes is lost, reliable or not, though its datagram was acknowledged
  (`EndToEnd.AnswersOfRuns`).
- A split message whose tracker is given up, by silence or at the limit of 512, is lost for good, though
  all its fragments were acknowledged: a fragment read once is never read again
  (`EndToEnd.HandedOnExactly`, `Handover.GivenUpExactly`).
- The comment on priorities speaks of a 2:1 ratio between adjacent levels; the steps in the code are
  1, 5, 14 and 35 (`SenderQueue.WeightsGrowEvenly`).  The model follows the code.
- An empty payload ends the frame loop of the decoder: the frames behind it in the datagram are lost
  (`WireFormat.ParseBack`).  `Transport` sends only non-empty payloads.
- A connection object that is used again keeps the flag of an earlier goodbye; closing it then ends
  without a DISCONNECT signal (`ConnectionRuns.CallPairs`, `ConnectionRuns.GoodbyeLost`), and the
  case is reached (`ConnectionRuns.StaleFlagReached`).

## Model

| member | source | states |
|---|---|---|
| SeqNum.SeqGreaterIsGreater | src/aiorak/_congestion.py:17-39 | for counters less than half the circle apart the wrapped comparisons agree with `>` and `<` |
| SeqNum.SeqOrderedUnlessAntipodal | src/aiorak/_congestion.py:17-31 | two numbers are never ordered both ways, and unordered exactly when equal or 2^23 apart |
| SeqNum.SeqGreaterNotTransitive | src/aiorak/_congestion.py:17-31 | over more than half the circle the comparison is not transitive: a concrete triple |
| BitSpec.ReadBack | src/aiorak/_bitstream.py:194-411 | any sequence of writes at any alignment, read back by the matching reads in order, yields the values written |
| BitStreams.BitStream.EnsureCapacity | src/aiorak/_bitstream.py:116-120 | the buffer grows by zero bytes to exactly the length the written bits need; no written bit changes |
| BitStreams.BitStream.WriteBit | src/aiorak/_bitstream.py:122-135 | one bit is appended; the buffer stays ceil(bits / 8) long and clear past the cursor |
| BitStreams.BitStream.WriteBits | src/aiorak/_bitstream.py:137-148 | the low bits of any Python integer are appended, most significant first |
| BitStreams.BitStream.WriteBytesUnaligned | src/aiorak/_bitstream.py:154-168 | bytes are appended at the cursor without padding |
| BitStreams.BitStream.ReadBytesUnaligned | src/aiorak/_bitstream.py:170-188 | bytes at any bit position, or an error past the end, as the bit sequence says |
| BitStreams.BitStream.ReadBit | src/aiorak/_bitstream.py:194-208 | the bit under the read cursor, or an error at the end |
| BitStreams.BitStream.ReadBits | src/aiorak/_bitstream.py:210-227 | the number the next bits denote, or an error when too few are left |
| BitStreams.BitStream.AlignWriteToByte | src/aiorak/_bitstream.py:233-243 | pads with zero bits to the next byte boundary |
| BitStreams.BitStream.WriteUInt16 | src/aiorak/_bitstream.py:265-271 | aligned big-endian bytes are appended |
| BitStreams.BitStream.WriteUInt24 | src/aiorak/_bitstream.py:273-284 | aligned little-endian bytes are appended |
| BitStreams.BitStream.WriteInt64 | src/aiorak/_bitstream.py:302-308 | the big-endian two's complement of a signed number is appended |
| BitStreams.BitStream.ReadUInt24 | src/aiorak/_bitstream.py:333-341 | the little-endian number at the next byte boundary, or an error |
| BitStreams.BitStream.ReadInt64 | src/aiorak/_bitstream.py:363-371 | the signed number at the next byte boundary, or an error |
| BitStreams.BitStream.ReadBytes | src/aiorak/_bitstream.py:392-411 | whole bytes at the next byte boundary, or an error |
| BitStreams.BitStream.PadWithZeroToByteLength | src/aiorak/_bitstream.py:498-513 | zero bytes up to the target length; a longer stream is left alone |
| Codec.EncodeRangeList | src/aiorak/_wire.py:39-63 | appends exactly the bytes of the list layout: count, then single or pair form of each range |
| Codec.DecodeRangeList | src/aiorak/_wire.py:66-91 | returns exactly the list the bytes hold, and the error for more than 512 ranges or missing bytes |
| Codec.EncodeMessageFrame | src/aiorak/_wire.py:136-190 | appends exactly the frame layout its delivery mode calls for |
| Codec.DecodeMessageFrame | src/aiorak/_wire.py:193-274 | reads one frame of that layout: frame, end of frames, or error, in every case |
| Codec.EncodeAck | src/aiorak/_wire.py:311-335 | the bytes of an ACK datagram |
| Codec.EncodeNak | src/aiorak/_wire.py:338-356 | the bytes of a NAK datagram |
| Codec.EncodeDatagram | src/aiorak/_wire.py:359-399 | the bytes of a data datagram: flags, number, frames |
| Codec.DecodeDatagram | src/aiorak/_wire.py:402-458 | returns what the layout says the bytes hold, for every byte string, including all malformed ones |
| WireFormat.ParseBack | src/aiorak/_wire.py:311-458 | decoding an encoded datagram gives back number, flags, and the frames up to the first empty payload, or the range list up to its 16-bit count |
| WireFormat.DataRoundTrip | src/aiorak/_wire.py:359-458 | a data datagram of any number of in-range frames comes back whole if and only if no payload is empty; ACK_RECEIPT modes come back as their base mode |
| WireFormat.RangeRoundTrip | src/aiorak/_wire.py:39-91 | an ACK or NAK of fewer than 65536 ranges comes back whole if it has at most 512, and is refused otherwise |
| WireFormat.FrameBytesSize | src/aiorak/_reliability.py:908-919 | the estimated frame size is exactly the encoded length, for every frame |
| Layouts.AckOfOne | src/aiorak/_wire.py:54-60 | the bytes of an ACK of one number: flags, count, the tag 1, the number low byte first |
| Layouts.AckOfRange | src/aiorak/_wire.py:54-63 | the bytes of an ACK of a range: the tag 0 and both ends |
| Layouts.NakLikeAck | src/aiorak/_wire.py:338-356 | a NAK of any list differs from an ACK of it in the first byte only, which is 0xA0 |
| Layouts.AnyTagIsSingle | src/aiorak/_wire.py:84-91 | the decoder takes any tag but 0 for a single number |
| Layouts.DataHeader | src/aiorak/_wire.py:359-399 | the bytes before the frames: flags, and the number low byte first |
| Layouts.FirstBytes | src/aiorak/_wire.py:149-163 | the first byte of a frame for each of the eight modes, whole or fragment |
| Layouts.UnreliableFrame | src/aiorak/_wire.py:149-190 | every byte of an unreliable frame |
| Layouts.ReliableFrame | src/aiorak/_wire.py:149-190 | every byte of a reliable frame |
| Layouts.OrderedFrame | src/aiorak/_wire.py:149-190 | every byte of an ordered frame |
| Layouts.FragmentFrame | src/aiorak/_wire.py:149-190 | every byte of a fragment sent RELIABLE_SEQUENCED, which has all fields, in their order |
| Layouts.DecodedFramesUsable | src/aiorak/_wire.py:248-258 | whatever bytes come in, a decoded frame has a payload of its length, a channel below 32 if ordered, an index below its count if split |
| Windows.ReliableMessageWindow.CheckAndMark | src/aiorak/_reliability.py:96-129 | across wraps the deque represents a set of unbounded numbers; the result and the new set are those of marking the number |
| Windows.MarkAdds | src/aiorak/_reliability.py:96-129 | marking adds exactly the accepted number, and accepts exactly the unseen ones at most 1000000 ahead of the base |
| Windows.AcceptedOnce | src/aiorak/_reliability.py:96-129 | over any run a number is accepted at most once, never once seen, and exactly once when it arrives within reach |
| Windows.GapRefused | src/aiorak/_reliability.py:104-106 | a number 1000001 ahead is refused without being marked |
| Windows.ReceivedWindow.Contains | src/aiorak/_reliability.py:146-152 | whether the unbounded number counts as received: below the base, or remembered |
| Windows.ReceivedWindow.Add | src/aiorak/_reliability.py:154-165 | the 24-bit set represents the memory with the number recorded and the base moved as far as needed |
| Windows.RecordRemembers | src/aiorak/_reliability.py:154-165 | recording forgets nothing that counted as received and adds only the number and those a window size behind it |
| Windows.RecordedForever | src/aiorak/_reliability.py:146-165 | over any run a number once recorded stays contained |
| Windows.RecentBounded | src/aiorak/_reliability.py:132-165 | the memory never holds more than `size` numbers |
| Ranges.AddToRanges | src/aiorak/_reliability.py:895-906 | any list of proper ranges becomes sorted, disjoint and non-adjacent, and covers one number more |
| Ranges.SeparatedUnique | src/aiorak/_reliability.py:895-906 | such a list is determined by the set it covers |
| Ranges.BuildRangePackets | src/aiorak/_reliability.py:849-878 | the packets are those of the greedy cut at mtu - 28 |
| Ranges.PacketsSurvive | src/aiorak/_reliability.py:849-878 | for MTU 38 to 2082 every packet fits, decodes to its piece, and the pieces in order are the list |
| Ranges.PacketTooLong | src/aiorak/_reliability.py:849-878 | a list of more than 512 ranges that fits one packet is sent as one and refused by the decoder |
| Ranges.ReadUpTo2082 | src/aiorak/_reliability.py:849-878 | every list of received numbers gets through, packet by packet, if and only if the MTU is at most 2082 |
| Ranges.NamedCovers | src/aiorak/_reliability.py:502-526 | a packet names exactly the numbers its ranges cover |
| Congestion.CongestionController.GetAndIncrementSeq | src/aiorak/_congestion.py:92-101 | the 24-bit form of the unbounded count of datagrams, which goes up by one; nothing else changes |
| Congestion.CongestionController.TransmissionBandwidth | src/aiorak/_congestion.py:107-120 | the largest whole number of bytes that still fits the window, 0 when it is full; it is positive exactly when one byte fits |
| Congestion.CongestionController.OnGotPacket | src/aiorak/_congestion.py:153-180 | across wraps: one past the highest accepted number, and how many numbers to report missing, or refusal |
| Congestion.GapAdds | src/aiorak/_congestion.py:153-180 | a gap of d reports exactly the last min(d, 1000) numbers, none of them arrived or reported before |
| Congestion.GapRun | src/aiorak/_congestion.py:153-180 | over any run the expected number is one past the highest accepted, and no number is reported twice |
| Congestion.AckRaises | src/aiorak/_congestion.py:182-217 | an ACK raises the window by between 0 and 1.5 MTU |
| Congestion.NeverBelowMtu | src/aiorak/_congestion.py:182-238 | over any run of ACKs, resends, NAKs, sends and MTU replacements the window is at least one MTU throughout, if and only if no replacement raises the MTU above the window |
| Congestion.CutsSeparated | src/aiorak/_congestion.py:205-229 | between two cuts of the window there is a continuous-mode ACK of a datagram sent after the first |
| Congestion.SmoothedWithinSamples | src/aiorak/_congestion.py:182-260 | over any run the smoothed round trip lies within the range of the samples and the timeout in [0.03, 2] |
| WindowGrowth.OneMtuPerAck | src/aiorak/_congestion.py:205-215 | up to the threshold, or without one, a run of ACKs opens the window by exactly one MTU for each in continuous mode |
| WindowGrowth.OpensFromOne | src/aiorak/_congestion.py:205-215 | a new controller that has seen k of them has a window of (k + 1) MTU |
| WindowGrowth.LandsAtThreshold | src/aiorak/_congestion.py:212-215 | the ACK that would cross the threshold lands at threshold + mtu^2 / (the window it would have reached) |
| WindowGrowth.OneRisePerBlock | src/aiorak/_congestion.py:207-217 | above the threshold the window rises by mtu^2 / cwnd at the first ACK from beyond the block, and by nothing before or until the next block |
| WindowGrowth.StillWithinBlock | src/aiorak/_congestion.py:207-217 | within a block a run of ACKs moves nothing above the threshold |
| WindowGrowth.IdleAcksKeep | src/aiorak/_congestion.py:203-205 | ACKs of datagrams sent outside continuous mode move no window |
| WindowGrowth.ModeIsLast | src/aiorak/_congestion.py:107-205 | over any run continuous mode is what the last ACK or budget query said |
| WindowGrowth.CutToHalf | src/aiorak/_congestion.py:219-229 | after k continuous ACKs a resend cuts the window to one MTU and sets the threshold to half of it, if and only if k >= 2 in continuous mode |
| WindowGrowth.SlowStartAgain | src/aiorak/_congestion.py:205-229 | after the cut slow start runs again, one MTU per ACK up to half the old window |
| WindowGrowth.NoSecondCut | src/aiorak/_congestion.py:219-229 | until an ACK for a datagram sent after the cut, further resends change nothing |
| WindowGrowth.CutsAgain | src/aiorak/_congestion.py:207-229 | after such an ACK the next resend in continuous mode with a window above two MTU cuts again |
| WindowGrowth.NakEndsSlowStart | src/aiorak/_congestion.py:231-238 | a NAK in continuous mode halves the threshold and stops the growth within the block |
| WindowGrowth.Smoothing | src/aiorak/_congestion.py:193-201 | after one round trip of x and n of y the smoothed value is y + (x - y) * 0.95^n |
| WindowGrowth.SteadyTimeout | src/aiorak/_congestion.py:193-260 | after n + 1 equal round trips x the deviation is x * 0.95^n and the timeout min(2, 2x + 4x * 0.95^n + 0.03) |
| WindowGrowth.AcksLeaveInTime | src/aiorak/_congestion.py:140-151 | ACKs are due 10 ms after the first datagram since the last ACKs, however many came later; at once before any round trip is known |
| Congestion.CongestionController.OnAck | src/aiorak/_congestion.py:182-217 | round trip, deviation, window, threshold and block after an ACK |
| Congestion.CongestionController.OnResend | src/aiorak/_congestion.py:219-229 | the window is cut, once per block, and not otherwise |
| Congestion.CongestionController.GetRto | src/aiorak/_congestion.py:248-260 | the timeout as the smoothed values determine it |
| Congestion.CongestionController.SetMtu | src/aiorak/_connection.py:607-610 | the MTU is replaced; the window stays sound if and only if the new MTU is positive and not above it |
| Ordering.FlushKeeps | src/aiorak/_reliability.py:678-695 | flushing delivers in strictly increasing order, leaves no hole among ordered messages and only later slots in the heap |
| Ordering.AcceptKeeps | src/aiorak/_reliability.py:626-676 | after every message the heap holds only slots above the expected one, and deliveries strictly increase in (ordering index, sub-key) |
| Ordering.AcceptFrom | src/aiorak/_reliability.py:626-676 | nothing is delivered or buffered that was not handed over |
| Ordering.AcceptKept | src/aiorak/_reliability.py:626-676 | while the heap has room no ordered message is dropped: it is passed or waits |
| Ordering.ChannelOrder | src/aiorak/_reliability.py:626-695 | whatever the arrival order of messages with distinct keys, deliveries strictly increase and the ordered ones are the indices 0, 1, ... without a hole; unless the heap was full, up to the first that has not arrived |
| Ordering.DroppedExactly | src/aiorak/_reliability.py:643-650 | a message ahead of its turn is lost exactly when 8192 are buffered |
| Ordering.ClearNeverStrands | src/aiorak/_reliability.py:626-695 | if no two messages of a slot bury each other, nothing ever strands, in any order of arrival |
| Ordering.StrandsExactly | src/aiorak/_reliability.py:660-695 | the condition is exact: an ordered message and another one buffered in its slot strand one of the two if and only if they are not clear of each other |
| Ordering.StrandedForever | src/aiorak/_reliability.py:678-695 | an entry below the expected index on top of the heap blocks it for good |
| Ordering.DuplicateStrands | src/aiorak/_reliability.py:660-672 | a second buffered message with the same key is stranded |
| Ordering.LateSequencedStrands | src/aiorak/_reliability.py:45-49 | a sequenced message whose index passed 1048575 sorts behind the ordered one of its slot and is stranded |
| ChannelFate.FateExactly | src/aiorak/_reliability.py:623-673 | each message that reaches a channel is dropped without effect exactly when it is late or finds 8192 buffered, otherwise buffered ahead of its slot or delivered next in it; what was buffered stays or is delivered |
| ChannelFate.NothingVanishes | src/aiorak/_reliability.py:623-695 | after any run every message that came is delivered or buffered, unless it was dropped so when it came |
| Splitting.Fragments | src/aiorak/_reliability.py:813-819 | the fragmenting loop cuts the payload into full pieces and a last one |
| Splitting.PiecesJoin | src/aiorak/_reliability.py:813-819 | the pieces concatenate to the payload, none is empty, none too long, and their number is the rounded-up quotient |
| Splitting.GenuineStep | src/aiorak/_reliability.py:701-747 | a fragment completes its message exactly when it was the last one missing, and then yields the payload |
| Splitting.IncompleteWaits | src/aiorak/_reliability.py:701-747 | while a fragment is missing nothing completes, whatever the order, duplicates and other messages in between |
| Splitting.AnyScheduleReassembles | src/aiorak/_reliability.py:701-747 | under any schedule of up to 65536 fragments, absent eviction, the last missing one and no other completes the message with exactly the original bytes |
| Splitting.ReusedIdentifierMixes | src/aiorak/_reliability.py:701-747 | a later message with the same 16-bit identifier completes the tracker of an earlier one with bytes of both |
| Receiving.PushOnWire | src/aiorak/_reliability.py:640-648 | while buffered indices do not straddle the wrap the raw tuple comparison is the unbounded one |
| Receiving.PushExactly | src/aiorak/_reliability.py:640-648 | the raw comparison orders two buffered entries as their indices are ordered if and only if no wrap lies between them |
| Receiving.AcceptOnWire | src/aiorak/_reliability.py:626-695 | what the code does with a message in 24-bit numbers is what the unbounded channel does, while no wrap lies among the buffered indices |
| Receiving.WrapStalls | src/aiorak/_reliability.py:640-695 | across the wrap it is not: with 2^24 - 1 and 2^24 buffered the code delivers one message where three are due and waits for one it holds |
| Receiving.StallsForGood | src/aiorak/_reliability.py:640-695 | for every pair of buffered indices with a wrap between them: whatever arrives, short of another ordered message of the lower index, nothing buffered ever leaves and that index is never passed |
| Receiving.WireAcceptSorted | src/aiorak/_reliability.py:640-695 | whatever arrives, the heap stays in raw order, as that result asks |
| Receiving.ReceiveSide.FlushOrderingHeap | src/aiorak/_reliability.py:678-695 | the fields of the channel and the receive queue are those of the flushed channel; other channels keep theirs |
| Receiving.ReceiveSide.AcceptMessage | src/aiorak/_reliability.py:626-672 | ordered and sequenced branches: the channel accepts the message, and exactly its new deliveries are queued |
| Receiving.ReceiveSide.ReassembleSplit | src/aiorak/_reliability.py:701-747 | trackers and result of a fragment, stale trackers and at the limit an oldest one evicted |
| Receiving.ReceiveSide.HandleFrame | src/aiorak/_reliability.py:597-676 | duplicate filter, reassembly and routing of one frame, in 24-bit numbers, are those of its unbounded reading |
| Receiving.ReceiveSide.NoteGap | src/aiorak/_reliability.py:571-582 | the NAK list gains exactly the skipped numbers that have not been received |
| Receiving.ReceiveSide.HandleData | src/aiorak/_reliability.py:559-595 | a data datagram: counted, acknowledged, gap reported, and its frames read exactly when its number is new |
| Receiving.ReceiveSide.PollReceive | src/aiorak/_reliability.py:334-338 | the oldest completed message, or none |
| Receiving.ReceiveSide.Tick | src/aiorak/_reliability.py:353-375 | ACK packets when due, NAK packets, stale trackers gone; the lists sent are cleared |
| SenderQueue.WeightsGrowEvenly | src/aiorak/_reliability.py:243-262 | the nth weight of each priority in closed form: starts 0, 3, 10, 27 and steps 1, 5, 14, 35 |
| SenderQueue.WeightsOfRuns | src/aiorak/_reliability.py:243-262 | in every run of a new sender the next weight of a priority is start plus step times the number of its frames queued so far |
| SenderQueue.ImmediateYields | src/aiorak/_reliability.py:246-262 | IMMEDIATE does not always go first: before any LOW frame the next IMMEDIATE one is queued behind the next LOW one exactly when 28 or more were queued |
| PriorityOrder.ServedByWeight | src/aiorak/_reliability.py:243-262 | in every run frames wait in this order: left-overs of the last tick first, then by start + step * n for the nth frame of each priority |
| SenderQueue.PushSorted | src/aiorak/_reliability.py:309-313 | the heap stays sorted by (weight, counter) |
| SenderQueue.EnqueueKeeps | src/aiorak/_reliability.py:309-313 | a new frame enters the line of frames behind all of its priority; every frame stands there once |
| SenderQueue.PassMoves | src/aiorak/_reliability.py:404-496 | in any packing pass the frames carried followed by the rest are the frames it started with, in order |
| SenderQueue.FinishKeeps | src/aiorak/_reliability.py:393-426 | packing the drained queue and putting the rest back leaves the line as it was; the emitted part grows by exactly the frames of the datagrams |
| SenderQueue.RunLine | src/aiorak/_reliability.py:254-426 | in every run each queued frame is emitted once or still waits, and frames of one priority stay in send order |
| SenderQueue.NoOvertaking | src/aiorak/_reliability.py:420-426 | after a tick, whatever happens next, what was emitted and left over stands in this order before every frame queued later |
| SenderBytes.InsertConserves | src/aiorak/_reliability.py:456-470 | inserting a record keeps the byte count exact if and only if the number is not still a key |
| SenderBytes.BytesConserved | src/aiorak/_reliability.py:379-521 | every send, tick, ACK and NAK keeps the byte count equal to the sum over the history, and the history at most 4096 records |
| SenderBytes.RunsCountAndFit | src/aiorak/_reliability.py:379-521 | in every run of a new sender the byte count is exact, the history bounded, and from MTU 124 on every datagram at most mtu - 33 bytes |
| SenderBytes.AckRemovesExactly | src/aiorak/_reliability.py:502-526 | an ACK removes exactly the records it names, and exactly their messages from the resend buffer |
| SenderBytes.BudgetKept | src/aiorak/_reliability.py:418-426 | a pass over new frames leaves at most max(before, window) plus one datagram in flight |
| SenderBytes.TickBudget | src/aiorak/_reliability.py:386-426 | a whole tick leaves at most max(in flight after the resends, window) plus one datagram in flight |
| SenderBytes.EncodedSize | src/aiorak/_reliability.py:454-470 | the size on record is the exact size of the bytes sent |
| SenderBytes.FramesFitFrom124 | src/aiorak/_reliability.py:386-388 | every frame `send` can make fits a datagram if and only if the MTU is at least 124 |
| SenderBytes.TooWide | src/aiorak/_reliability.py:884-892 | below 124, 65 bytes sent RELIABLE_SEQUENCED make a frame that does not fit |
| SenderBytes.DatagramsFit | src/aiorak/_reliability.py:386-402 | from MTU 124 on every data datagram of every step is at most mtu - 33 bytes |
| SenderInv.NewMessageWellMade | src/aiorak/_reliability.py:294-307 | every message `send` makes joins back to its payload |
| SenderInv.AcceptedKeys | src/aiorak/_reliability.py:753-772 | (ordering index, sub-key) strictly increases along each channel, and ordered messages take every index |
| ChannelKeys.KeysOfRuns | src/aiorak/_reliability.py:753-772 | in every run the ordering index of a message is the number of ordered messages sent on its channel before it, the sequencing index that of the sequenced ones since the last of these |
| SenderInv.ReliableOnlyDistinct | src/aiorak/_reliability.py:440-450 | no two frames get the same reliable number |
| SenderInv.NumberSound | src/aiorak/_reliability.py:440-448 | late numbering gives each reliable frame the next number and changes nothing else |
| SenderNet.EmitNew | src/aiorak/_reliability.py:440-494 | a datagram of new frames keeps: numbers consecutive in order of first emission, no unreliable frame twice on the network, records naming what the datagram carries |
| SenderNet.ResentUnchanged | src/aiorak/_reliability.py:394-396 | a resend pass sends every due frame again, in order, with its number unchanged, and gives out no number |
| SenderNet.EmitTracked | src/aiorak/_reliability.py:472-491 | a new number is tracked for resending or known to be untracked |
| SenderNet.TickOk | src/aiorak/_reliability.py:349-402 | a whole tick keeps all of the sender's invariants |
| SenderReach.OkIsProper | src/aiorak/_reliability.py:440-491 | in every run tracked frames carry their own number and queued ones none |
| SenderReach.NumbersOfRuns | src/aiorak/_reliability.py:394-450 | in every run reliable numbers are given out consecutively, only to frames that leave, in the order they leave; tracked or sent again, a frame keeps its number |
| SenderReach.StepNarrow | src/aiorak/_reliability.py:349-553 | every send, tick, ACK and NAK leaves the span of numbers in use as narrow as before, less the frames a tick may send |
| SenderReach.RunDrivable | src/aiorak/_reliability.py:349-553 | from a span with room for the frames of a run every step of the run can be taken by the class |
| SenderReach.FirstCircle | src/aiorak/_reliability.py:349-553 | a new sender can be driven through any run whose ticks handle fewer than 2^24 frames |
| SenderReach.DrivableExactly | src/aiorak/_reliability.py:349-553 | a run of any length, across wraps, can be driven if and only if at each step the oldest outstanding number keeps within 2^24, less what the step may send |
| SenderReach.NextCircle | src/aiorak/_reliability.py:349-553 | with nothing outstanding the next 2^24 frames can be handled, whatever the counters |
| Sending.SendSide.Send | src/aiorak/_reliability.py:273-307 | counters, split and queue in 24-bit form after `send`; a channel out of range is refused and changes nothing |
| Sending.SendSide.AdvanceOrderingCounters | src/aiorak/_reliability.py:753-772 | the counters consumed and their wrapped successors |
| Sending.SendSide.EnqueueFrame | src/aiorak/_reliability.py:309-313 | weight, counter and heap after queueing |
| Sending.SendSide.SplitAndQueue | src/aiorak/_reliability.py:798-835 | every piece is queued, in order, under one split identifier and one pair of counters |
| Sending.SendSide.FillDatagram | src/aiorak/_reliability.py:428-435 | the inner packing loop takes exactly the frames that fit |
| Sending.SendSide.RecordDatagram | src/aiorak/_reliability.py:456-470 | an oldest record goes at capacity, the new one goes in, the byte count follows |
| Sending.SendSide.TrackFrames | src/aiorak/_reliability.py:472-491 | resend tracking of the datagram's frames: backoff for tracked ones, a new entry while there is room |
| Sending.SendSide.PackDatagrams | src/aiorak/_reliability.py:404-496 | the packing loop: state, bytes sent and frames put back are those of the pass, for either kind of pass |
| Sending.SendSide.EvictStaleHistory | src/aiorak/_reliability.py:379-383 | exactly the records older than the timeout go, and their bytes with them |
| Sending.SendSide.Update | src/aiorak/_reliability.py:366-402 | the sender's part of a tick under the controller's own timeout and window: due frames, then the drained queue; the controller hears of a resend first |
| Sending.SendSide.HandleAck | src/aiorak/_reliability.py:502-526 | state, window and round trip after an ACK: the first 512 numbers named, each resolved to the record it stands for, are acknowledged in order |
| Sending.SendSide.HandleNak | src/aiorak/_reliability.py:528-553 | the messages of the first 512 numbers named become due, the controller hears of each record; records stay |
| Sending.AckRemovesNamed | src/aiorak/_reliability.py:502-526 | a packet removes exactly the records whose numbers are among the first 512 it names |
| Sending.AckTrip | src/aiorak/_reliability.py:502-878 | an ACK set survives the trip: each packet is read as built and, if it names at most 512 numbers, removes exactly the records of the numbers it covers |
| Sending.AckMeans | src/aiorak/_reliability.py:514-521 | while the counters on record lie within a circle of an acknowledged one, the 24-bit number acknowledges it and nothing else |
| Timers.ResendsExactly | src/aiorak/_reliability.py:363-372 | in every run a tick sends a tracked number again, with the frame it was given to, exactly when its kth transmission at t under rto is rto * 2^min(k - 1, 5) ago, or a NAK named it since |
| Timers.ResendHeard | src/aiorak/_reliability.py:363-372 | the controller hears of a resend in exactly the ticks in which some number is due |
| Timers.NakResends | src/aiorak/_reliability.py:528-552 | after a NAK packet every tracked frame carried by a record among the first 512 numbers it names leaves in the next tick; every other frame keeps its time and nothing else changes |
| Timers.LastReliableOfRuns | src/aiorak/_reliability.py:473-476 | in every run the time of the last reliable send is that of the last tick that sent or resent a reliable frame |
| AckEffects.HeardExactly | src/aiorak/_reliability.py:509-526 | an ACK packet tells the controller of each datagram on record it names, once, in order: number, mode, and time since it left |
| AckEffects.RecordsOfRuns | src/aiorak/_reliability.py:452-471 | in every run datagrams are numbered as they leave, and each record holds the time, the reliable numbers, the mode and the encoded size of the datagram of its number |
| AckEffects.SamplesAreRoundTrips | src/aiorak/_reliability.py:509-526 | the round trips sampled from an ACK are the times since the named datagrams left, and the modes those they left in |
| AckEffects.NakHalves | src/aiorak/_reliability.py:528-552 | a NAK packet sets the threshold to half the window if it names any datagram on record in continuous mode before a cut, and changes nothing else of the window |
| PassShape.WindowUsedUp | src/aiorak/_reliability.py:418-429 | a tick leaves new frames in the queue only when the window has no room for another byte |
| PassShape.TickTight | src/aiorak/_reliability.py:431-443 | in either pass no datagram ends while the next frame would still fit |
| PassShape.TickFlags | src/aiorak/_reliability.py:452-454 | a datagram is marked continuous exactly if more of its pass, left-over frames or queued ones are to follow |
| PassShape.TickForgets | src/aiorak/_reliability.py:379-383 | a tick forgets every record older than the timeout, and no younger one unless the history reaches 4096 |
| PassShape.OldestGoes | src/aiorak/_reliability.py:456-460 | the record that makes room at 4096 is as old as any other |
| PassShape.SplitExactly | src/aiorak/_reliability.py:273-307 | a message is split exactly when longer than max(mtu - 60, 64), into pieces of that length and a last one, and its mode becomes the reliable one of its kind |
| Layer.ParsedRangesFit | src/aiorak/_wire.py:66-91 | whatever bytes come in, a decoded range list holds 24-bit numbers |
| Layer.ReliabilityLayer.OnDatagramReceived | src/aiorak/_reliability.py:319-332 | malformed bytes change nothing; ACK and NAK change the send side only, data the receive side only |
| Layer.ReliabilityLayer.SetMtu | src/aiorak/_connection.py:607-610 | the layer and its controller take the MTU of the handshake; the same if-and-only-if |
| Layer.ReliabilityLayer.Update | src/aiorak/_reliability.py:349-402 | one tick of both sides |
| ReceiverInv.FilterKeeps | src/aiorak/_reliability.py:603-606 | a frame passes the reliable-number filter only the first time; the numbers seen are exactly those of processed frames |
| ReceiverInv.FramesKeep | src/aiorak/_reliability.py:593-595 | reading a datagram processes each of its frames at most once and leaves every reliable one processed or refused |
| ReceiverInv.DataKeeps | src/aiorak/_reliability.py:559-595 | a datagram that is acknowledged leaves all its reliable frames processed or refused; unreliable ones are never processed twice |
| ReceiverGaps.MissingIsGap | src/aiorak/_reliability.py:571-582 | the skipped numbers reported are the whole gap: none of them has been received |
| ReceiverGaps.ReportsOfRuns | src/aiorak/_reliability.py:567-585 | in every run exactly the accepted numbers are acknowledged and exactly the gaps reported, each number in one NAK, and each ACK names what was accepted since the last |
| ReceiverGaps.NextGap | src/aiorak/_reliability.py:571-582 | the next gap reports exactly its last min(d, 1000) numbers, none accepted or reported before |
| ReceiverSpec.EnqueueExactly | src/aiorak/_reliability.py:664-671 | the application gets the first messages there is room for, and exactly those |
| Application.AnswersThenWaiting | src/aiorak/_reliability.py:334-343 | in a queue of at most 16384 the answers given followed by what waits are exactly the messages that found room, in order |
| EndToEnd.AnswersOfRuns | src/aiorak/_reliability.py:334-343 | in every run of the system what the polls answered followed by the receive queue is exactly what came while fewer than 16384 waited, each once, in order |
| EndToEnd.CameExactly | src/aiorak/_reliability.py:597-695 | what came is, of each channel, what it delivered, and without a channel the unordered messages handed on with the bytes handed on; the unsplit ones are the whole unordered frames processed, each once, in order |
| EndToEnd.HandedOnExactly | src/aiorak/_reliability.py:597-747 | in every reachable state a message all of whose frames have been processed has been handed on if and only if no fragment of it was given up |
| EndToEnd.UnorderedArrives | src/aiorak/_reliability.py:597-676 | an unordered message all of whose frames have been processed, none given up, came with exactly its bytes on channel 0, and has been polled or waits unless 16384 waited then |
| Handover.HandedExactly | src/aiorak/_reliability.py:701-747 | the same of the receiver alone, from what every frame keeps |
| Handover.GivenUpExactly | src/aiorak/_reliability.py:704-723 | a fragment gives up exactly the messages silent for longer than the timeout when a tracker is opened, the victim at 512 trackers, and its own beyond 65536 fragments |
| Handover.VictimIsOldest | src/aiorak/_reliability.py:714-719 | the tracker that goes at the limit has been silent for as long as any other |
| Handover.TickGivesUp | src/aiorak/_reliability.py:374-377 | a tick gives up exactly the messages silent for longer than the timeout |
| DeliveryInv.FitsInRuns | src/aiorak/_reliability.py:640-672 | in a run no buffered entry has the key of a message still to come |
| DeliveryInv.ReassembleKeeps | src/aiorak/_reliability.py:701-747 | a completed payload is that of the message, all of whose fragments have been processed |
| DeliveryInv.DataOrderly | src/aiorak/_reliability.py:559-695 | a datagram leaves every channel in order, and every message, ordered or not, handed on at most once with the bytes sent |
| Transport.StepKeeps | src/aiorak/_reliability.py:349-595 | every step of sender, receiver and network keeps the system's invariant |
| Transport.NoReliableLoss | src/aiorak/_reliability.py:404-606 | in every reachable state every reliable frame ever sent is queued, being resent, processed, or one of two stated exceptions |
| Transport.DeliveryInOrder | src/aiorak/_reliability.py:623-695 | under any loss, duplication and reordering a channel delivers a subsequence of what was sent on it, in send order, with the bytes sent; its ordered part is a prefix; no message at all is handed on twice or with other bytes |
| Transport.BytesArrive | src/aiorak/_wire.py:359-458 | the bytes of every datagram on the network decode to its number and exactly the frames the receiver is given |
| Transport.RefusedByGap | src/aiorak/_reliability.py:104-106 | the filter refuses a number without a mark exactly when it is new and over a million ahead |
| Transport.AckedUnread | src/aiorak/_reliability.py:567-591 | a datagram below the window base is acknowledged although none of its frames is read |
| Transport.TrackRoom | src/aiorak/_reliability.py:483-491 | with room in the resend buffer every number of a datagram is tracked |
| Transport.TrackFull | src/aiorak/_reliability.py:483-491 | with 4096 entries no new number is |
| Lossless.NothingLost | src/aiorak/_reliability.py:404-606 | with room in the resend buffer at each tick, at most 1000001 reliable numbers and first arrivals at or above the window base, every reliable frame ever sent is queued, being resent or processed |
| Lossless.TickRoom | src/aiorak/_reliability.py:387-491 | a tick that finds room for all that is queued leaves no number untracked; resends never do |
| FirstLap.IdentifiersOfRuns | src/aiorak/_reliability.py:808-820 | in every run identifiers tell split messages apart if and only if there are at most 65536 of them |
| FirstLap.NeverMixed | src/aiorak/_reliability.py:701-747 | while at most 65536 messages were split, no fragment ever meets the tracker of another message |
| FirstLap.FirstLapDelivery | src/aiorak/_reliability.py:623-695 | delivery in order under conditions on what was sent alone |
| FirstLap.ArrivalsReadable | src/aiorak/_reliability.py:559-676 | before any counter has passed half its circle, every datagram the network may deliver meets all hypotheses of the class that reads it |
| ConnectionRuns.RunSignals | src/aiorak/_connection.py:285-408 | over any run of calls RECEIVE is signalled only between a CONNECT and the next DISCONNECT, and CONNECTED means such a CONNECT |
| ConnectionRuns.CallPairs | src/aiorak/_connection.py:333-408 | a call keeps CONNECT and DISCONNECT alternating if and only if it does not close a connection whose object carries the flag of an earlier goodbye; connecting is called only while no connection is up |
| ConnectionRuns.RunsAlternate | src/aiorak/_connection.py:285-408 | from a new connection, over every run of such calls, CONNECT and DISCONNECT alternate and RECEIVE lies between them |
| ConnectionRuns.GoodbyeLost | src/aiorak/_connection.py:399-407 | in that case the next tick ends the connection without a DISCONNECT |
| ConnectionRuns.StaleFlagReached | src/aiorak/_connection.py:285-434 | such a state is reached: dial, goodbye before acceptance, tick, dial again, acceptance |
| ConnectionRuns.NextTry | src/aiorak/_connection.py:364-380 | a due retransmission sends the next request of the schedule, or gives up after the last; an early tick changes nothing |
| ConnectionRuns.RetrySchedule | src/aiorak/_connection.py:364-380 | the requests of an unanswered client are those of the schedule, each MTU size three times in order; it stops only when all are sent or the handshake timeout strikes |
| ConnectionRuns.ScheduleEnds | src/aiorak/_connection.py:364-380 | it keeps trying exactly as long as the timeout has not struck and the due ticks have not used up 3 * sizes less its position; then it is disconnected with one DISCONNECT |
| ConnectionRuns.DialEnds | src/aiorak/_connection.py:364-434 | from the dial on, with n due ticks, min(n + 1, 3 * sizes) requests have been sent, and it is disconnected exactly from n = 3 * sizes on, unless the timeout struck |
| ConnectionRuns.StartsSchedule | src/aiorak/_connection.py:414-434 | the first request is number 0 of the schedule |
| ConnectionTime.HeardOfRuns | src/aiorak/_connection.py:285-331 | over any run the time the peer was last heard is that of the last datagram or dial |
| ConnectionTime.TimesOutExactly | src/aiorak/_connection.py:344-359 | after any run, with the peer last heard at t > 0, a tick drops a connected or closing connection exactly if now - t exceeds the timeout, with one DISCONNECT and nothing sent; otherwise a connected one stays and a closing one ends as its goodbye asks |
| ConnectionTime.SilenceEnds | src/aiorak/_connection.py:354-359 | a connected side whose peer fell silent at t is connected after a run of ticks if and only if none came later than t + timeout; else it is down with exactly one DISCONNECT |
| ConnectionTime.PingsExactly | src/aiorak/_connection.py:379-391 | a tick in time sends a latency ping exactly if the last left over five seconds ago, before it a reliable one exactly if the last reliable send is over half the timeout ago and nothing is outstanding |
| ConnectionTalk.UserMessages | src/aiorak/_connection.py:709-759 | while connected the user gets every message that is not internal, each once, in order, and every ping is answered by a pong with its time |
| ConnectionTalk.GoodbyeCuts | src/aiorak/_connection.py:745-753 | a goodbye among the messages of a datagram: what is before it reaches the user, one DISCONNECT follows, nothing behind it does |
| ConnectionTalk.LateMessages | src/aiorak/_connection.py:709-759 | while a connection closes the user gets no message any more; pings are answered and a goodbye signals DISCONNECT |
| ConnectionTalk.DatagramWhileClosing | src/aiorak/_connection.py:285-331 | a closing connection still takes every datagram for the layer's, answers pings, and gives the user nothing but further goodbyes |
| ConnectionTalk.DatagramWhileConnected | src/aiorak/_connection.py:285-331 | an established connection takes every datagram for the layer's, whatever its bytes look like |
| ConnectionTalk.PollsOfRuns | src/aiorak/_connection.py:263-271 | in every run the signals polled followed by those pending are all signals raised, in order, each once |
| ConnectionTalk.SettledOnceUp | src/aiorak/_connection.py:285-331 | until it is down an established connection keeps the MTU and the identity agreed on, whatever arrives |
| ConnectionTalk.UserSendExactly | src/aiorak/_connection.py:236-257 | the user's message goes to the layer as it is exactly while connected |
| ConnectionTalk.RejectionEnds | src/aiorak/_connection.py:300-318 | any rejection ends a dialling client with itself as the reason of one DISCONNECT; a server or a connected side does not heed it |
| ConnectionRuns.ServerProposes | src/aiorak/_connection.py:523-570 | the server proposes the padded request's size plus 28, capped at its maximum |
| ConnectionRuns.ClientAccepts | src/aiorak/_connection.py:572-619 | the client takes the proposal exactly when it lies within its limits |
| ConnectionRuns.ExchangeAgrees | src/aiorak/_connection.py:523-703 | one clean exchange leaves both sides with the same MTU and each with the other's identity |
| ConnectionTalk.RequestAccepted | src/aiorak/_connection.py:761-799 | the server answers a connection request by an acceptance that repeats its time, and learns the identity |
| ConnectionTalk.AcceptanceConnects | src/aiorak/_connection.py:801-841 | an acceptance connects the client, which answers it with the server's time |
| ConnectionTalk.AnnouncementConnects | src/aiorak/_connection.py:843-879 | the client's announcement connects the server, which pings |
| ConnectionTalk.HandshakeCompletes | src/aiorak/_connection.py:523-879 | the seven messages of a clean handshake, each as a datagram fed to the other side, leave both sides connected, with one CONNECT each, the same MTU, and each the other's identity |
| ConnectionTalk.OfflineReaches | src/aiorak/_connection.py:483-521 | a handshake datagram reaches its handler on the side it is meant for, and is dropped on the other |
| ConnectionTalk.StampIs | src/aiorak/_connection.py:881-892 | a time travels as milliseconds in eight bytes |
| ConnectionTalk.Request1Shape | src/aiorak/_connection.py:436-463 | a first request is padded by zero bytes to the size under trial less 28 |
| ConnectionTalk.OtherProtocolRefused | src/aiorak/_connection.py:523-570 | a first request of another protocol version is told the server's and changes nothing |
| ConnectionTalk.SecuredReplyIgnored | src/aiorak/_connection.py:572-619 | a reply that asks for security is left unanswered |
| ConnectionTalk.ShortNeverConnects | src/aiorak/_connection.py:801-879 | handshake messages cut short connect nobody |
| ConnectionTalk.GoodbyeEndsBoth | src/aiorak/_connection.py:397-409 | a goodbye ends both sides: the one that says it with one DISCONNECT when its data is out, the one that hears it with one at once, and in silence when its ACKs are out |
| ConnectionRuns.ServerConnectsSecond | src/aiorak/_connection.py:709-875 | one honest client, one server, any loss, duplication and reordering: the server is CONNECTED only after the client signalled CONNECT |
| Connections.Connection.OnDatagram | src/aiorak/_connection.py:285-327 | state, signals, answers and messages after a datagram, in every state |
| Connections.Connection.HandleOpenRequest1 | src/aiorak/_connection.py:523-570 | server reply, rejection or error for a first request |
| Connections.Connection.HandleOpenReply1 | src/aiorak/_connection.py:572-619 | client reply, silence or error for a first reply; identity and MTU set as far as read |
| Connections.Connection.HandleOpenRequest2 | src/aiorak/_connection.py:621-667 | server reply, silence or error for a second request |
| Connections.Connection.HandleOpenReply2 | src/aiorak/_connection.py:669-703 | the connection request goes to the layer, or an error is raised |
| Connections.Connection.HandleConnectedMessage | src/aiorak/_connection.py:709-759 | every branch of the message dispatch |
| Connections.Connection.Update | src/aiorak/_connection.py:333-408 | timeout, retransmission, pings and the end of a disconnection |
| Connections.Connection.StartConnect | src/aiorak/_connection.py:414-434 | the fields of a fresh handshake and its first request |
| Connections.Connection.Disconnect | src/aiorak/_connection.py:919-929 | the goodbye is sent only when connected |
| Connections.BuildRequest1 | src/aiorak/_connection.py:436-456 | the bytes of a first request, padded to the MTU size less 28 |

## Left out

- `_transport.py`, `_client.py`, `_server.py`, the ping helper: sockets, tasks and dispatch.
- IPv6 and string forms of addresses (`write_address`, `read_address`) and the discovery of local
  addresses: an address is an opaque field of seven bytes.
- `_system_index` and `_port` of the connection keep their initial values 0.
- The first round-trip sample taken from the timestamps of NEW_INCOMING_CONNECTION, and wall-clock
  times beyond being an argument.
- Logging, `__repr__`, the asynchronous packet queue, exception classes: an exception is an error
  result.
- Rounding of floating-point numbers: times, windows and round trips are reals.
- `retransmission_bandwidth`, which nothing calls, and skipping or rewinding reads of the bit stream.
- Frames are values here; the code assigns the number inside a shared frame object, before that
  object is stored anywhere else.
- Agreement of the two sides' MTU when requests of different sizes are retried and one is lost: only
  the clean exchange agrees.
- Liveness: that a due frame is eventually delivered needs a network that eventually delivers.
- A keepalive ping also moves the layer's time of the last reliable send, before the ping leaves;
  here that time moves when a reliable frame leaves (`Timers.LastReliableOfRuns`).
- Transport.DeliveryInOrder: assumes that no fragment met the running tracker of another message
  with the same 16-bit identifier, and sequencing indices below 1048575; both fail in the code
  otherwise.  `FirstLap.FirstLapDelivery` has the first from the number of split messages.
- Transport.NoReliableLoss: ACK packets reach the sender as sets of numbers; their bytes and their
  24-bit form are covered by `Sending.AckTrip` and `Sending.AckMeans`.
- Connections.Connection.HandleOpenRequest2: addresses are opaque fields of seven bytes, so IPv6 and a
  malformed address family are not modelled.
- Connections.Connection.HandleOpenReply2: the same.
- Connections.Connection.HandleConnectedMessage: the same, and the first round-trip sample is left out.
- FirstLap.NeverMixed: that two messages of one identifier can mix is shown of the trackers
  (`Splitting.ReusedIdentifierMixes`), not by a run of 65537 split messages.
