# Sponge in Dafny

This project models the TCP/IP stack of the repository and proves what it
promises: sequence numbers and the reassembly of byte streams; the sender, the
receiver and the connection built from them; two connections with a network
between them; ARP, routing, the Internet checksum and TCP over IPv4.

## How it is built

Each component is described twice. A module of functions on values says what the
component does (`Reassembly`, `Receivers`, `Senders`, `Connections`,
`NetworkInterfaces`, `Routing`, `Checksums`, `NetParsers`, `TcpCodec`,
`Ipv4Codec`, `TcpOverIp`). A class with mutable fields and loops does it the way
the repository does (`ByteStream`, `StreamReassembler`, `TCPReceiver`,
`TCPSender`, `TCPConnection`, `NetworkInterface`, `Router`, `InternetChecksum`,
`NetParser`, `TCPOverIPv4Adapter`), and every method is proved to change the
state exactly as the function says. The properties are lemmas about the
functions.

- A `std::map` is a sequence sorted by key, descending for the reassembler and
  ascending for the sender. Queues keep what was put in them; the output queues
  of an endpoint and of an interface keep everything ever sent.
- The abstract value of a byte stream is its whole history and how much of it has
  been read.
- `Transfer` is one direction of a connection with any acknowledgments whatever
  coming back; what needs them genuine says so. `Duplex` puts two whole
  connections on both ends of a network that may lose, repeat and reorder.
- `OrderedTransfer`, `OrderedLaws` and `OrderedRuns` close the one direction: the
  acknowledgments are the receiver's own and arrive in order, possibly lost or
  repeated. That gives a single FIN number and no eviction.
  `OrderedDuplex` shows that the outbound direction of one of two connections is
  a run of that system when the segments coming back arrive in order.
- What an endpoint promises to do, and not only to keep, is stated over the segments
  that have left it: `Outputs` for `write` and `end_input_stream`, `Answers` for
  `segment_received`, `Retries` for `tick`, `OutputRuns` for whole runs.
  `ArpExchanges` does the same for the frames of an interface.
- Time, the network and the application are the choice of the next step; the
  initial sequence number is a parameter.

## What turns out not to hold

- Beyond the window the reassembler's count of unassembled bytes can be wrong and
  the stream can end early. `ReassemblyLimits` and `ReassemblyMarks` give such
  pushes and the exact conditions, for every push, under which the count and the
  end mark stay right.
- The window is taken from any accepted acknowledgment, and a FIN probe does not
  ask whether a FIN was sent before, so an old acknowledgment with a closed
  window makes the sender use a second FIN number. `SenderLimits` gives such a
  run and the exact condition; with acknowledgments in order it does not happen
  (`OrderedRuns.TransferIsSafe`).
- For the same reason a segment with a closed window takes an endpoint out of
  TIME-WAIT (`TimeWaitLimits.ClosedWindowLeaves`, `TimeWaits.StaysInTimeWaitIff`).
- A byte at the number of the peer's FIN makes the ended inbound stream grow and
  takes an endpoint out of TIME-WAIT; reading that byte brings it back with the
  idle time counted before, so it does not linger for the full time
  (`TimeWaitLimits.ReturnsLateAfterGrowth`, `TimeWaits.TimeWaitIsExact`).
- A datagram of up to 65555 bytes survives serializing and parsing although its
  length field overflows, because the verdict of the header's parser is dropped
  (`Ipv4Codec.OverlongRoundTrip`).

## Assumptions

- One initial sequence number per direction, and no write after the outbound
  stream has ended (as `libsponge/byte_stream.hh:8-10` documents).
- A segment delivered in `Transfer`, `Duplex`, `OrderedTransfer` and
  `OrderedDuplex` is less than 2^31 away from what the receiver expects. So is,
  in `Duplex`, its acknowledgment from the sender's next number. The ordered
  systems need no such bound on acknowledgments; they have a receive capacity of
  at most 65535 and fewer than 2^63 bytes in the direction they follow.
- `RunExactIff` and `PushExactIff`: the stream and twice the capacity are together
  shorter than 2^64 bytes.
- `connect` has something to send, and in `OutputRuns.NothingIsHeldBack` comes before
  anything else has been sent, as its documentation says. Routes lead to interfaces that
  exist by the time datagrams are routed.

## Model

| member | source | states |
|---|---|---|
| OrderedRuns.TransferIsSafe | libsponge/tcp_sender.cc:39-208 | the closed system: after every run with segments lost, repeated and reordered and acknowledgments lost and repeated but in order, what was delivered is a prefix of what was written, at most one FIN number has been used, every number from the receiver's acknowledgment up to the next unused one is still held by the sender, storage is counted exactly and within capacity, no arrival makes the receiver throw anything away, everything queued is on the wire under its number, and a finished sender means a complete, ended stream at the receiver |
| Duplex.CleanCloseMeansDelivered | libsponge/tcp_connection.cc:84-102 | two new endpoints of any capacities and a network that loses, repeats and reorders segments both ways: in every run, once an endpoint is inactive without a reset, the receiver of the other has assembled everything ever written at the inactive one and has seen its end |
| Duplex.InboundIsPrefix | libsponge/tcp_connection.cc:23-82 | in every such run what each endpoint has assembled is a prefix of what was written to the other |
| Duplex.EverythingSentIsOnTheWire | libsponge/tcp_connection.cc:23-153 | in every such run each segment an endpoint has sent can be delivered: it has an entry with the same sequence number, flags and payload under an absolute number the endpoint gave it, and every acknowledgment sent names a number the receiver has reached by now |
| OutputRuns.NothingIsHeldBack | libsponge/tcp_connection.cc:23-153 | over every run of a new connection that connects before it sends, whatever segments arrive: every number its sender has used has left it in a segment with the bytes and flags that belong to it, nothing stays queued unless it has given up, and it has sent a reset exactly if it has given up, after the ninth retransmission in a row |
| Answers.DataIsAcknowledged | libsponge/tcp_connection.cc:60-74 | every segment that uses numbers is answered at once, if the peer's SYN is known, and every segment of the answer acknowledges all that has been assembled, the end too, and tells the room left |
| Retries.ResendsLeave | libsponge/tcp_connection.cc:117-139 | with something unacknowledged and nothing queued, a run of ticks makes a copy of the probe, or else of the lowest unacknowledged segment, leave the endpoint exactly when the ticks add up to the time left |
| Retries.ExpiriesCount | libsponge/tcp_sender.cc:233-248 | while the peer holds up what was sent and says nothing, every expiry counts, under ticks of any size, and the endpoint is inactive exactly from the ninth on |
| Retries.DeadPeer | libsponge/tcp_connection.cc:117-153 | with a clock that ticks every millisecond and a peer that never answers, a new connection is given up after exactly 511 times the configured timeout |
| Answers.LingersIff | libsponge/tcp_connection.cc:53-56 | over every run of a new connection the endpoint will linger exactly if its inbound stream has at no time been ended with the outbound one still open |
| Answers.ActiveIff | libsponge/tcp_connection.cc:84-102 | over every run of a new connection it is inactive exactly if both streams are in error, or both are finished and the peer ended first at some time or the idle time has reached ten times the timeout |
| OrderedDuplex.OutboundIsSafe | libsponge/tcp_connection.cc:23-153 | two new endpoints, the segments from B arriving at A in order: in every run A uses at most one FIN number, holds every number from B's acknowledgment up to its next unused one, and no segment of A's makes B's reassembler throw anything away |
| OrderedDuplex.EverythingSentIsOnTheWire | libsponge/tcp_connection.cc:23-153 | there too each segment A has sent can be delivered under the number A gave it |
| Transfer.DeliveredIsPrefixOfWritten | libsponge/tcp_receiver.cc:14-36 | end-to-end safety under any acknowledgments at all: over every run with loss, repetition and reordering of segments less than half the number space old, the receiver's output is a prefix of what was written to the sender |
| Transfer.FinishedMeansDelivered | libsponge/tcp_sender.cc:183-208 | over every run with segments and genuine acknowledgments in any order, a sender with everything acknowledged, the FIN too, has had everything delivered and the end seen |
| Transfer.FirstTransmissionsTile | libsponge/tcp_sender.cc:39-161 | over every run first transmissions carry every number from 0 to the next unused one exactly once, in order, each with the stream byte that belongs to it |
| Transfer.AlwaysTiled | libsponge/tcp_sender.cc:30-258 | after every run, under any acknowledgments at all, the unacknowledged segments followed by the pending probe tile a contiguous range up to the next number, the payload byte at number n is stream byte n - 1, and the timer runs exactly when something is unacknowledged |
| ReassemblyRuns.RunIsPrefixOfArrivals | libsponge/stream_reassembler.cc:23-182 | after every run of reads and consistent arrivals that end inside the window of their time or start beyond it, the output is the stream up to the first byte that has not arrived inside the window, stored pieces are disjoint and lie beyond it inside the window, the count of unassembled bytes is the exact total, stored plus buffered bytes fit the capacity, and the input has ended exactly if everything arrived and an end mark came with a byte not held before |
| ReassemblyRuns.SameArrivalsSameOutput | libsponge/stream_reassembler.cc:23-182 | order and repetition of arrivals do not matter: two runs whose arrivals inside the window cover the same bytes have written the same bytes |
| ReassemblyRuns.EndsWithLastByte | libsponge/stream_reassembler.cc:155-181 | if the last byte always travels with the end mark, the input has ended exactly when every byte is written; for the empty stream exactly when, in addition, an end mark has come |
| ReassemblyLimits.RunExactIff | libsponge/stream_reassembler.cc:23-182 | after every run of reads and arrivals of one stream, however far beyond the window, the count of unassembled bytes is right exactly when no arrival cut a piece while some room seemed free, and what is stored and buffered exceeds the capacity by no more than the count is short |
| ReassemblyLimits.PushExactIff | libsponge/stream_reassembler.cc:23-182 | a whole push, also one that splits, keeps the count right exactly when none of its parts cuts a piece while some room seems free |
| ReassemblyMarks.PushEofSoundIff | libsponge/stream_reassembler.cc:23-182 | a whole push, in or out of the window and also one that splits, leaves the end mark where the stream ends exactly when no part of it moves the mark, or a later part that does not fit takes the moved mark away again |
| ConnectionLaws.BackOffBound | libsponge/tcp_sender.cc:237-247 | over every run of a connection with arbitrary segments the timeout is the configured one times two to the number of retransmissions, which never exceeds nine, and at nine the connection is no longer active |
| TimeWaits.TimeWaitIsExact | libsponge/tcp_connection.cc:84-139 | over every run of a new connection under any calls and segments: the count of idle time equals the time since TIME-WAIT was entered or the last segment was processed in it, at every moment, exactly when no read brings the endpoint back to TIME-WAIT with the count already running; and then an endpoint in TIME-WAIT that closed first and was not reset is active exactly while that time is below ten times the initial timeout |
| TimeWaits.StepOnTimeIff | libsponge/tcp_connection.cc:23-153 | one call keeps the count equal to that time exactly when it is not such a read |
| TimeWaits.LateOnlyAfterGrowth | libsponge/tcp_connection.cc:38-51 | over every run of a new connection no read is such unless a segment has made an inbound stream grow after its end |
| TimeWaitLimits.ReturnsLateAfterGrowth | libsponge/tcp_connection.cc:48-51 | a concrete run of a new connection, with one byte at the number of the peer's FIN, whose last read brings it back to TIME-WAIT with the count at its old value while the time since is zero |
| TimeWaits.InactiveIsFinal | libsponge/tcp_connection.cc:23-27 | once an endpoint is inactive no sequence of segments and ticks changes it or makes it send anything |
| TimeWaits.StaysInTimeWaitIff | libsponge/tcp_connection.cc:38-51 | a segment other than a reset leaves an endpoint in TIME-WAIT exactly when the inbound stream does not grow and, if the segment acknowledges, the window it advertises, or the last one if its number is beyond what was sent, is open |
| TimeWaits.LeavesTimeWaitIff | libsponge/tcp_connection.cc:38-51 | with nothing stored out of order, such a segment takes the endpoint out of TIME-WAIT exactly when its payload covers the next inbound byte and there is room for it, or it acknowledges with a closed window |
| TimeWaits.ClosedWindowSendsFin | libsponge/tcp_connection.cc:40-46 | a closed window makes an endpoint in TIME-WAIT send another FIN, as a probe under the next unused number |
| TimeWaitLimits.ClosedWindowLeaves | libsponge/tcp_connection.cc:40-46 | a concrete run of a new connection into TIME-WAIT and out of it again by an acknowledgment with a closed window |
| TcpStates.StatesOnlyAdvance | libsponge/tcp_helpers/tcp_state.cc:82-110 | over every run with arbitrary segments the sender's summary only advances CLOSED, SYN_SENT, SYN_ACKED, FIN_SENT, FIN_ACKED and the receiver's LISTEN, SYN_RECV, FIN_RECV, and an error is final in both |
| TcpStates.AdvanceFromStart | libsponge/tcp_helpers/tcp_state.cc:82-110 | the same between any two points of any run of a new connection |
| ArpLaws.CacheIsLatest | libsponge/network_interface.cc:111-186 | after every history the cache maps an address to a hardware address exactly when the latest processed ARP message from it said so less than 30000 ms ago, and the stored age is the time since then |
| ArpLaws.RequestsAreApart | libsponge/network_interface.cc:43-77 | over every history any two ARP requests for one address are at least 5000 ms apart, although the 32-bit request age wraps |
| ArpLaws.DatagramsAreConserved | libsponge/network_interface.cc:38-136 | datagrams are conserved: however often one was submitted, each time it was transmitted exactly once, or still waits, or was dropped because another one waits for the same hop |
| ArpExchanges.FramesAreExact | libsponge/network_interface.cc:38-186 | over every history the frames sent are those told by the history alone: a datagram to the hardware address of the latest message, a request if none is younger than 5000 ms, the waiting datagram to whoever replies, and a reply to whoever asks for this interface |
| ArpExchanges.Exchange | libsponge/network_interface.cc:38-166 | whenever one interface has to ask for another on its link, one request and one reply make each know the address of the other, and the datagram that waits is delivered |
| TcpOverIp.ArrivesIffFits | libsponge/tcp_helpers/tcp_over_ip.cc:26-90 | between mirrored endpoints a segment wrapped, serialized, parsed and unwrapped comes out with the same header fields and payload exactly if its header length fits four bits and the segment 65535 bytes |
| TcpOverIp.TransportRoundTrip | libsponge/tcp_helpers/tcp_over_ip.cc:26-90 | the segment that comes out is the one that went in with the ports filled in and the checksum computed, also at a listening endpoint when it is a SYN, which then takes over the addresses |
| TcpOverIp.OnlyWhoIsMeant | libsponge/tcp_helpers/tcp_over_ip.cc:26-90 | a segment that fits comes out exactly at the mirrored endpoint, or at one that listens on its port if it is a SYN; any other endpoint drops it and stays as it is |
| Routing.EachPortGetsItsOwn | libsponge/router.cc:73-82 | routing gives each interface exactly the datagrams routed to it, once each and in order, and touches no interface otherwise |
| Routing.LeavesIff | libsponge/router.cc:38-71 | a datagram leaves exactly when its time to live is at least two and some route matches; it then leaves unchanged but for a time to live that is one less and not zero, by the first of the longest matching routes, to that route's next hop or, if there is none, to its destination |
| WrappingIntegers.UnwrapIsClosest | libsponge/wrapping_integers.cc:29-58 | for every number, initial number and 64-bit checkpoint, the result is the 64-bit value that wraps to the number and is closest to the checkpoint, the lower one on ties |
| WrappingIntegers.ClosestIsUnique | libsponge/wrapping_integers.cc:29-58 | there is only one such value |
| WrappingIntegers.RoundTrip | libsponge/wrapping_integers.cc:17-58 | unwrapping a wrapped value gives it back exactly when it is at most half the number space away from the checkpoint, ties going to the lower value, or has no representable neighbour on the nearer side |
| WrappingIntegers.RoundTripNear | libsponge/wrapping_integers.cc:17-58 | unwrapping a wrapped value gives it back whenever it is less than 2^31 away from the checkpoint |
| WrappingIntegers.SearchIsUnimodal | libsponge/wrapping_integers.cc:35-43 | distances to the checkpoint fall and then rise along the search, so stopping at the first rise finds the minimum |
| WrappingIntegers.SearchUpward | libsponge/wrapping_integers.cc:32-43 | the first search loop, with its 64-bit wrap-around, ends within four rounds at the closest value |
| WrappingIntegers.SearchAcross | libsponge/wrapping_integers.cc:44-56 | the same for the second loop, whose candidates start one period higher |
| WrappingIntegers.UnwrapSearch | libsponge/wrapping_integers.cc:29-58 | the search agrees with the closed form for every input, in at most four rounds |
| ByteStreams.PopsAreContiguous | libsponge/byte_stream.cc:32-45 | whatever is read, in any pieces, is one contiguous run of what was written |
| ByteStreams.WritesConcatenate | libsponge/byte_stream.cc:19-26 | splitting a write does not change its effect, also at the capacity |
| ByteStreams.ByteStream.Write | libsponge/byte_stream.cc:19-26 | the stream accepts as much as it has room for and appends exactly that to its history |
| ByteStreams.ByteStream.PeekOutput | libsponge/byte_stream.cc:29-29 | the next bytes of the history, without taking them |
| ByteStreams.ByteStream.PopOutput | libsponge/byte_stream.cc:32-36 | the read position advances by as much as is buffered |
| ByteStreams.ByteStream.Read | libsponge/byte_stream.cc:41-45 | the bytes returned are the history between the old and the new read position |
| ByteStreams.ByteStream.EndInput | libsponge/byte_stream.cc:47-47 | the input is marked as ended, nothing else changes |
| ByteStreams.ByteStream.Eof | libsponge/byte_stream.cc:55-62 | at the end exactly when the input has ended and the whole history has been read |
| ByteStreams.ByteStream.RemainingCapacity | libsponge/byte_stream.cc:68-68 | capacity minus what is written and not read |
| Reassembly.Push | libsponge/stream_reassembler.cc:23-182 | terminates for every input, in or out of the window, because both halves of a split are shorter; leaves read position and capacity alone |
| Reassembly.Evict | libsponge/stream_reassembler.cc:132-151 | the eviction loop terminates for every stored size, also when the count is off |
| Reassembly.Drain | libsponge/stream_reassembler.cc:159-181 | the drain loop terminates and leaves nothing that could still go out |
| ReassemblyLaws.DedupIsSound | libsponge/stream_reassembler.cc:60-102 | the scan over stored pieces removes exactly bytes that are stored: a duplicate is covered, what is left touches no piece, a split leaves two such parts, and the end mark survives only at the true end |
| ReassemblyLaws.PushFaithful | libsponge/stream_reassembler.cc:23-182 | pushes of bytes of one stream, in or out of the window, keep the output a growing prefix of it and every stored piece a part of it |
| ReassemblyWindow.PushSettles | libsponge/stream_reassembler.cc:36-182 | one push inside the window adds exactly its bytes to what is known, writes out exactly the known prefix, keeps stored pieces disjoint and counted exactly, and records the end mark exactly when its last byte is new |
| ReassemblyWindow.WindowedNeverEvicts | libsponge/stream_reassembler.cc:113-154 | a push inside the window never reaches the eviction code |
| ReassemblyRuns.RunSettles | libsponge/stream_reassembler.cc:36-182 | over a whole run the known bytes are those known before and those that arrived |
| ReassemblyLimits.StoreExactIff | libsponge/stream_reassembler.cc:113-181 | storing new bytes never makes good what is missing from the count of stored bytes, and makes more go missing exactly when a piece is cut to make room while some room seems free |
| ReassemblyMarks.EofSoundIff | libsponge/stream_reassembler.cc:113-181 | storing the last bytes with their end mark leaves the mark at the end of the stream exactly when they fit or are dropped whole because a piece below them is the highest |
| ReassemblyMarks.StoreMarksIff | libsponge/stream_reassembler.cc:113-181 | storing new bytes, marked or not, moves the end mark exactly when they do not fit, no piece below them is the highest, and either they carry the mark or the loop that makes room ends by cutting the piece that carries it |
| ReassemblyMarks.StrayStoreIff | libsponge/stream_reassembler.cc:113-181 | new bytes below a mark that has moved take it away again exactly when they do not fit |
| ReassemblyMarks.EndsEarly | libsponge/stream_reassembler.cc:113-117 | a concrete push beyond the window after which the stream ends before its last byte |
| ReassemblyLimits.MakeSpaceLoses | libsponge/stream_reassembler.cc:113-154 | making room never makes good what is missing from the count and adds to it exactly when it cuts a piece while some room seems free; what is then stored and kept fits the capacity but for what is missing |
| ReassemblyLimits.CountGoesWrong | libsponge/stream_reassembler.cc:122-126 | a concrete push beyond the window after which the count of unassembled bytes is wrong |
| StreamReassemblers.StreamReassembler.RemoveStored | libsponge/stream_reassembler.cc:52-102 | the scan as a loop over the descending map computes the specified overlap |
| StreamReassemblers.StreamReassembler.RemoveKnown | libsponge/stream_reassembler.cc:24-102 | bytes beyond the window, written already or stored already are removed as specified |
| StreamReassemblers.StreamReassembler.PopHighest | libsponge/stream_reassembler.cc:132-151 | the loop that pops the highest pieces computes the specified eviction |
| StreamReassemblers.StreamReassembler.FreeSpace | libsponge/stream_reassembler.cc:113-154 | room is made, or the push is given up, as specified |
| StreamReassemblers.StreamReassembler.WriteInOrder | libsponge/stream_reassembler.cc:158-181 | the drain loop computes the specified draining |
| StreamReassemblers.StreamReassembler.PushSubstring | libsponge/stream_reassembler.cc:23-182 | a push changes the object's state exactly as specified, recursively for a split, and terminates |
| StreamReassemblers.StreamReassembler.EmptySize | libsponge/stream_reassembler.hh:27-30 | the free room from the 64-bit count |
| Transfer.IndexOfChunk | libsponge/tcp_receiver.cc:28-35 | a live segment is put at the stream index its sender meant |
| TcpReceivers.TCPReceiver.SegmentReceived | libsponge/tcp_receiver.cc:14-36 | the initial number is learned from a SYN and the payload pushed at the index read off its sequence number |
| TcpReceivers.TCPReceiver.Ackno | libsponge/tcp_receiver.cc:38-50 | the number after the last assembled byte, and after the FIN once the input has ended; none before a SYN |
| TcpReceivers.TCPReceiver.WindowSize | libsponge/tcp_receiver.cc:52-52 | the room left in the inbound stream |
| Receivers.WindowReachesEdge | libsponge/tcp_receiver.cc:38-52 | the window reaches from the acknowledged number to one past the last byte there is room for, and bytes from there on are not taken |
| SenderLaws.FillKeeps | libsponge/tcp_sender.cc:39-161 | unacknowledged segments and the probe go on tiling one range up to the next number, new segments take exactly the new numbers, at most 1000 bytes each, and every payload byte is the stream byte of its number |
| SenderLaws.FillRespectsWindow | libsponge/tcp_sender.cc:56-160 | after the SYN the window is never exceeded beyond what was in flight, a probe adds one number and only past a closed window, and filling stops only with nothing to send or no room, the FIN sent if there is room for it |
| Outputs.FillSendsIff | libsponge/tcp_sender.cc:39-161 | filling the window uses a number exactly when the SYN is due, or no probe is pending and there is something to say and either room for it or a closed window to probe |
| SenderLaws.AckKeeps | libsponge/tcp_sender.cc:165-208 | any acknowledgment, genuine, stale or made up, keeps the tiling, moves its lower end no further than the acknowledged number, and is ignored if it is beyond what was sent |
| SenderLaws.ReadAckIsLatest | libsponge/tcp_sender.cc:169-177 | an acknowledgment is read as the largest number up to the next unused one that it can stand for, and refused exactly when there is none |
| SenderLaws.DroppedOnlyWhenAcked | libsponge/tcp_sender.cc:183-192 | a segment is dropped exactly when the acknowledged number covers all of it |
| SenderLaws.TickKeeps | libsponge/tcp_sender.cc:211-249 | a tick keeps the tiling and queues at most a copy of the probe or of the lowest unacknowledged segment |
| SenderLaws.EmptyKeeps | libsponge/tcp_sender.cc:253-258 | an empty segment uses no number |
| SenderTimers.ExpiryResends | libsponge/tcp_sender.cc:211-249 | with something unacknowledged, a run of ticks queues an identical copy of the probe, or else of the lowest segment, exactly when the ticks add up to the time left |
| SenderTimers.TickCountsIff | libsponge/tcp_sender.cc:211-249 | a tick counts one more retransmission and doubles the timeout exactly when the time is up, no probe is pending and the window is open or the SYN unacknowledged; the timer then restarts with the new timeout, and otherwise the time passed is taken off |
| SenderTimers.TimerStarts | libsponge/tcp_sender.cc:50-54 | filling the window starts the timer with the timeout exactly when it sends something and the timer is not running, and leaves it alone otherwise |
| SenderTimers.AckForgets | libsponge/tcp_sender.cc:165-208 | an accepted acknowledgment makes the sender forget exactly what it covers and take its window; a new number ends the back-off, the last one again leaves the timer alone |
| SenderTimers.TickBacksOff | libsponge/tcp_sender.cc:237-240 | up to the limit of attempts doubling keeps the timeout exact and inside 32 bits |
| SenderTimers.AckRestores | libsponge/tcp_sender.cc:198-203 | an acknowledgment with a new number restores the initial timeout exactly |
| SenderTimers.ShiftUndoesDoubling | libsponge/tcp_sender.cc:199-199 | shifting right by the number of doublings undoes them |
| SenderLimits.SingleFinIff | libsponge/tcp_sender.cc:102-145 | filling the window uses a second FIN number exactly when the FIN has been sent, the SYN acknowledged, no probe is pending and the window is closed |
| SenderLimits.StaleWindowMakesSecondFin | libsponge/tcp_sender.cc:129-145 | a concrete sender that a repeated old acknowledgment makes use a second FIN number |
| TcpSenders.TCPSender.BytesInFlight | libsponge/tcp_sender.cc:30-37 | the total length of the unacknowledged segments |
| TcpSenders.TCPSender.SendStream | libsponge/tcp_sender.cc:74-100 | the loop that fills an open window computes the specified result |
| TcpSenders.TCPSender.SendProbe | libsponge/tcp_sender.cc:113-145 | the probe is built, remembered and queued as specified |
| TcpSenders.TCPSender.FillWindow | libsponge/tcp_sender.cc:39-161 | the object's state changes exactly as specified |
| TcpSenders.TCPSender.DropAcked | libsponge/tcp_sender.cc:183-192 | the loop with its early exit drops exactly the acknowledged segments, because they tile a range |
| TcpSenders.TCPSender.ReadAck | libsponge/tcp_sender.cc:170-177 | the acknowledged absolute number, or none for one beyond what was sent |
| TcpSenders.TCPSender.AckReceived | libsponge/tcp_sender.cc:165-208 | the object's state changes exactly as specified |
| TcpSenders.TCPSender.Tick | libsponge/tcp_sender.cc:211-249 | the object's state changes exactly as specified |
| TcpSenders.TCPSender.SendEmptySegment | libsponge/tcp_sender.cc:253-258 | an empty segment with the next number is queued |
| OrderedLaws.FillCore | libsponge/tcp_sender.cc:39-161 | filling the window stays within what the last acknowledgment heard allows and uses no second FIN |
| OrderedLaws.HearCore | libsponge/tcp_sender.cc:165-208 | an acknowledgment not older than the last is read back exactly and the sender owes the invariant to it |
| OrderedLaws.DeliverCore | libsponge/tcp_receiver.cc:14-36 | a live segment that fits the window is pushed inside or wholly beyond it, and both ends go on agreeing about the stream |
| OrderedLaws.EmitCore | libsponge/tcp_receiver.cc:38-52 | acknowledgments rise in number and in window edge, and one that covers the FIN has its window open |
| OrderedLaws.NextKeeps | libsponge/tcp_sender.cc:39-258 | every step of the closed system keeps the invariant |
| OrderedRuns.HeldUntilAcknowledged | libsponge/tcp_sender.cc:183-208 | what the receiver has not acknowledged the sender still holds |
| OrderedRuns.NothingThrownAway | libsponge/stream_reassembler.cc:113-154 | no arrival makes the receiver evict |
| OrderedRuns.FillQueuesHeld | libsponge/tcp_sender.cc:39-161 | a segment queued by filling the window is held afterwards |
| ConnectionLaws.DoKeeps | libsponge/tcp_connection.cc:23-153 | every call keeps the sender's tiling and back-off, and resets the connection before the ninth retransmission could be exceeded |
| Answers.ArriveSends | libsponge/tcp_connection.cc:37-82 | what leaves when a segment arrives is everything queued, then a first transmission of every number used, then one empty segment if the segment uses numbers and nothing else leaves, or asks for a sign of life; all of it says where the receiver stands and none of it is a reset |
| Answers.AnsweredIff | libsponge/tcp_connection.cc:58-81 | with nothing queued, something leaves exactly when a number is used, the segment uses numbers and the peer's SYN is known, or it asks for a sign of life |
| Answers.LifeIsShownIff | libsponge/tcp_connection.cc:76-81 | a segment that uses no number is answered with an empty one exactly when it names the number before the acknowledged one, and the answer acknowledges |
| Answers.AckReleases | libsponge/tcp_connection.cc:40-46 | after an acknowledgment everything the window lets through is on its way |
| Answers.ResetIff | libsponge/tcp_connection.cc:29-35 | an arriving segment leaves both streams in error exactly when it is a reset; the endpoint is then inactive and nothing is sent or lost |
| Answers.LingerStep | libsponge/tcp_connection.cc:53-56 | no call makes an endpoint linger again, and it stops exactly in the call that leaves the inbound stream ended before the outbound one |
| Outputs.WriteSends | libsponge/tcp_connection.cc:104-114 | a write is accepted up to the room there is; until both SYNs are exchanged nothing is sent; after that what leaves are exactly the numbers newly used, with their bytes, and the buffer is empty or the window full |
| Outputs.WriteSendsIff | libsponge/tcp_connection.cc:104-114 | with nothing queued, a write makes something leave exactly when both SYNs are exchanged, no probe is pending, there is something to send, and the window has room or is closed |
| Outputs.CloseSends | libsponge/tcp_connection.cc:141-145 | ending the stream sends what the window lets through, each number with what belongs to it, and the FIN among it when its number is used; before connecting, the SYN |
| Retries.ExpiryLeaves | libsponge/tcp_connection.cc:117-139 | when the timer runs out a copy of what it guards leaves, as a reset exactly if it is the ninth in a row to count; the endpoint is then inactive, and otherwise nothing stays queued |
| OutputRuns.TickSendsAll | libsponge/tcp_connection.cc:117-139 | after every run of a new connection, a tick of an active endpoint that does not reset it leaves nothing queued |
| Retries.GivesUpInTime | libsponge/tcp_connection.cc:126-132 | a silent peer is put up with for no less than the timeouts add up to, and longer only by what ticks of bounded size can be late |
| Retries.ClosedWindowIsPatient | libsponge/tcp_sender.cc:214-248 | behind a closed window, or with a probe pending, no number of ticks counts a retransmission or ends the connection |
| Emissions.DoEmits | libsponge/tcp_connection.hh:29-72 | whatever an endpoint sends in a call says where its receiver stands after the call, or is a segment without acknowledgment sent by connecting, and nothing sent before is changed |
| Duplex.Next | libsponge/tcp_connection.cc:23-153 | every call at either endpoint and every delivery keeps both directions consistent: what is on the wire are pieces of what was written, and neither sender takes as acknowledged what the other side has not received |
| OrderedDuplex.Next | libsponge/tcp_connection.cc:23-153 | with segments from B in order, every step keeps A's outbound direction a run of the closed one-way system |
| TimeWaits.HearStaysDoneIff | libsponge/tcp_connection.cc:40-46 | an acknowledgment leaves a finished sender finished exactly when the window is open afterwards, and otherwise makes it send a FIN probe |
| TcpStates.DoMoves | libsponge/tcp_helpers/tcp_state.cc:82-110 | no call moves either summary back |
| TcpStates.SenderSummaryMeans | libsponge/tcp_helpers/tcp_state.cc:96-110 | each summary of a sender holds exactly for what has been sent and acknowledged: nothing sent, SYN unacknowledged, SYN acknowledged and FIN not sent, FIN sent and something unacknowledged, everything acknowledged but for a probe |
| TcpStates.ReceiverSummaryMeans | libsponge/tcp_helpers/tcp_state.cc:82-92 | each summary of a receiver holds exactly for what it acknowledges: nothing, the bytes, or the FIN too |
| TcpConnections.TCPConnection.SendAllSegs | libsponge/tcp_connection.hh:52-57 | the loop sends everything queued, in order |
| TcpConnections.TCPConnection.SendRstSeg | libsponge/tcp_connection.hh:59-72 | a reset is sent as specified |
| TcpConnections.TCPConnection.TimeWaitState | libsponge/tcp_connection.hh:74-79 | both streams finished and everything acknowledged |
| TcpConnections.TCPConnection.ConnectionEstablish | libsponge/tcp_connection.hh:85-88 | the peer's SYN has been received and the own SYN acknowledged |
| TcpConnections.TCPConnection.Active | libsponge/tcp_connection.cc:84-102 | not reset, and not finished, or still lingering |
| TcpConnections.TCPConnection.SegmentReceived | libsponge/tcp_connection.cc:23-82 | the object's state changes exactly as specified and stays valid for every segment |
| TcpConnections.TCPConnection.Tick | libsponge/tcp_connection.cc:117-139 | the object's state changes exactly as specified |
| TcpConnections.TCPConnection.Write | libsponge/tcp_connection.cc:104-114 | the object's state changes exactly as specified; the result is how much was accepted |
| TcpConnections.TCPConnection.EndInputStream | libsponge/tcp_connection.cc:141-145 | the object's state changes exactly as specified |
| TcpConnections.TCPConnection.Connect | libsponge/tcp_connection.cc:147-153 | with something to send, the object's state changes exactly as specified |
| NetworkInterfaces.SendDatagram | libsponge/network_interface.cc:38-94 | the cache and its ages go on having the same addresses, and so do the waiting datagrams, the requests and their ages, and each kept request is the one for its address |
| NetworkInterfaces.RecvFrame | libsponge/network_interface.cc:97-166 | the same for a received frame |
| NetworkInterfaces.Tick | libsponge/network_interface.cc:169-186 | the same for a tick |
| ArpLaws.AskingIsAsking | libsponge/network_interface.cc:43-77 | a request goes out exactly when the hop is not cached and no request for it is younger than 5000 ms |
| ArpExchanges.AnswersIff | libsponge/network_interface.cc:137-158 | a reply goes out exactly for an accepted request for this interface's address, to where the request came from, and names this interface and the asker |
| ArpExchanges.WaitingIsExact | libsponge/network_interface.cc:43-94 | after every history the datagram that waits for an address, and the age of its request modulo 2^32, are those told by the history |
| ArpExchanges.ReceivedIff | libsponge/network_interface.cc:97-109 | a datagram is passed up exactly from an IPv4 frame for this interface |
| ArpExchanges.Bystander | libsponge/network_interface.cc:97-166 | any other interface on the link learns who asked and sends nothing |
| EthernetInterfaces.NetworkInterface.SendDatagram | libsponge/network_interface.cc:38-94 | the object's maps and frames change exactly as specified |
| EthernetInterfaces.NetworkInterface.RecvFrame | libsponge/network_interface.cc:97-166 | the object changes as specified and an IPv4 datagram for this interface is passed up |
| EthernetInterfaces.NetworkInterface.AgeRequests | libsponge/network_interface.cc:171-173 | the loop ages every request once |
| EthernetInterfaces.NetworkInterface.AgeCache | libsponge/network_interface.cc:176-185 | the loop that erases while it iterates ages every entry once and drops exactly the expired ones, from both maps |
| EthernetInterfaces.NetworkInterface.Tick | libsponge/network_interface.cc:169-186 | the object's maps change exactly as specified |
| EthernetInterfaces.NetworkInterface.Receive | libsponge/router.hh:29-34 | datagrams received are kept in order for the owner |
| Checksums.ChunksDoNotMatter | libsponge/util/util.cc:89-98 | the sum does not depend on how the data is cut into pieces, also of odd length |
| Checksums.CarryKeepsFold | libsponge/util/util.cc:103-105 | a round of carrying keeps the one's-complement value and makes a sum above 16 bits smaller |
| Checksums.OwnChecksumVerifies | libsponge/util/util.cc:100-108 | a sum with its own checksum added verifies to zero |
| Checksums.InsertedChecksumVerifies | libsponge/util/util.cc:89-108 | inserting the checksum of a message of at most 65535 bytes into a zero word of it makes the whole verify to zero without overflow of the 32-bit sum |
| Checksums.InternetChecksum.Add | libsponge/util/util.cc:89-98 | the loop over bytes with its parity flag computes the specified sum |
| Checksums.InternetChecksum.Value | libsponge/util/util.cc:100-108 | the folding loop ends with the complement of the one's-complement sum |
| NetParsers.NumberOfBytes | libsponge/util/parser.cc:26-60 | a number that fits its width is read back from its bytes |
| NetParsers.IntsOfEncode | libsponge/util/parser.cc:26-60 | numbers written one after the other are read back one after the other |
| NetParsers.NetParser.ParseInt | libsponge/util/parser.cc:26-43 | the loop reads a big-endian number and consumes its bytes, or fails and consumes nothing |
| NetParsers.NetParser.RemovePrefix | libsponge/util/parser.cc:45-51 | bytes are dropped, or the parser fails |
| NetParsers.UnparseInt | libsponge/util/parser.cc:53-60 | the loop pushes the bytes of the number, most significant first |
| TcpCodec.HeaderRoundTrip | libsponge/tcp_helpers/tcp_header.cc:17-78 | a header with a length that fits is read back as written, options skipped |
| TcpCodec.SegmentVerifies | libsponge/tcp_helpers/tcp_segment.cc:30-45 | the inserted checksum verifies to zero over pseudo-header, header and payload |
| TcpCodec.SegmentRoundTrip | libsponge/tcp_helpers/tcp_segment.cc:12-45 | a segment survives being written and read, up to its checksum |
| CodecErrors.DamageIsNoticed | libsponge/tcp_helpers/tcp_segment.cc:12-23 | a segment with any one byte changed on its way is refused |
| CodecErrors.SegmentTakenIff | libsponge/tcp_helpers/tcp_segment.cc:12-23 | for all bytes: a segment is taken exactly when they verify, hold a header and are as many as it claims, and the payload is what follows the options |
| TcpOverIp.UnwrapIff | libsponge/tcp_helpers/tcp_over_ip.cc:26-71 | for all datagrams: a segment is taken exactly when the datagram carries TCP that parses, the port is right, and the addresses are, or the endpoint listens and it is a SYN |
| TcpOverIp.PseudoSumIs | libsponge/tcp_helpers/ipv4_header.cc:125-131 | the sum a segment's checksum starts from is the sum over the twelve bytes of the pseudo-header |
| Ipv4Codec.IpHeaderRoundTrip | libsponge/tcp_helpers/ipv4_header.cc:23-110 | a regular header is read back as written and accepted, its checksum included |
| Ipv4Codec.DatagramRoundTrip | libsponge/tcp_helpers/ipv4_datagram.cc:11-41 | a regular datagram survives being written and read, up to its checksum |
| Ipv4Codec.OverlongRoundTrip | libsponge/tcp_helpers/ipv4_datagram.cc:11-41 | because the verdict on the header is not looked at, so does one whose length overflows the length field by less than its header |
| CodecErrors.HeaderAcceptedIff | libsponge/tcp_helpers/ipv4_header.cc:23-75 | for all bytes: a header is accepted exactly when it is of version 4, whole, long enough, verifies and tells the number of bytes |
| CodecErrors.DatagramTakenIff | libsponge/tcp_helpers/ipv4_datagram.cc:11-21 | for all bytes: a datagram is taken exactly when what follows the header is as long as the header says |
| TcpPackets.ReadHeader | libsponge/tcp_helpers/tcp_header.cc:17-48 | reading field by field gives the specified header and rest |
| TcpPackets.WriteHeader | libsponge/tcp_helpers/tcp_header.cc:51-78 | writing field by field gives the specified bytes |
| TcpPackets.ReadSegment | libsponge/tcp_helpers/tcp_segment.cc:12-23 | the checksum is checked first, then the header read |
| TcpPackets.WriteSegment | libsponge/tcp_helpers/tcp_segment.cc:30-45 | the header is written twice, the second time with the checksum of the first |
| IpPackets.ReadIpHeader | libsponge/tcp_helpers/ipv4_header.cc:23-75 | reading field by field gives the specified header, rest and verdict |
| IpPackets.WriteIpHeader | libsponge/tcp_helpers/ipv4_header.cc:78-110 | writing field by field gives the specified bytes |
| IpPackets.ReadDatagram | libsponge/tcp_helpers/ipv4_datagram.cc:11-21 | the verdict on the header is dropped, as specified |
| IpPackets.WriteDatagram | libsponge/tcp_helpers/ipv4_datagram.cc:23-41 | a payload of the wrong size is an error; otherwise the bytes with the checksum |
| IpPackets.TCPOverIPv4Adapter.WrapTcpInIp | libsponge/tcp_helpers/tcp_over_ip.cc:75-90 | the datagram and the segment with its ports filled in, as specified |
| IpPackets.TCPOverIPv4Adapter.UnwrapTcpInIp | libsponge/tcp_helpers/tcp_over_ip.cc:26-71 | segments that are not for this endpoint are dropped; a listening endpoint takes over the addresses of a SYN |
| Routing.LookupIsFirstLongest | libsponge/router.cc:43-57 | the scan settles on the first of the longest matching entries, and on none exactly if none matches |
| Routing.MatchesBlock | libsponge/router.cc:84-94 | a route matches exactly the addresses of its block of two to the power of 32 minus the prefix length |
| Routing.EachLeavesOnce | libsponge/router.cc:73-82 | the interfaces together are given as many datagrams as leave, no more than there were |
| Routers.Match | libsponge/router.cc:84-94 | the loop over the bits of a mask agrees with comparing the top bits, also for prefix lengths above 32 |
| Routers.Router.FindRoute | libsponge/router.cc:43-57 | the scan computes the specified lookup |
| Routers.Router.RouteOneDatagram | libsponge/router.cc:38-71 | one interface sends as specified, the others and all queues stay as they are |
| Routers.Router.Route | libsponge/router.cc:73-82 | all queues are emptied and each datagram is routed once, in order |

## Left out

- 64-bit counters of bytes, sequence numbers and milliseconds are unbounded; only the reassembler's stored count and the 64-bit search of `unwrap` wrap.
- Reassembly.Push: does not model the wrap of the code's 64-bit `end - 1` for an empty piece stored at index 0; `ReassemblyLaws.PushFaithful` shows that no piece is left stored there.
- TcpConnections.TCPConnection.Write: does not model a write after the outbound stream has ended, which `libsponge/byte_stream.hh:8-10` rules out for every caller and the code does not check.
- TcpConnections.TCPConnection.Connect: does not model a call with nothing to send, for which the code takes the front of an empty queue.
- Routers.Match: `x & mask` is modelled for the one-bit masks of the loop, by division.
- TcpPackets.ReadHeader: the tests of flag bits and the shifts of the header length are written as division and remainder.
- Rejection of bad headers when a datagram or a segment is parsed: the verdict of the header's parser is dropped by the code.
- Delivery of datagrams to an unresolved hop after the first one: the code drops them, and `ArpLaws.DatagramsAreConserved` counts them.
- Shared-pointer buffers are byte sequences; ARP messages and Ethernet frames are datatypes, without their fixed-layout codecs.
- The destructor's reset, the choice of a random initial number, and everything printed.
- Event loop, file descriptors, sockets, tun devices, address resolution, socket adapters, applications and build files.
