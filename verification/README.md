# Verified model of a userspace TCP stack

This project models the hard core of a userspace networking stack: a TCP engine
that owns every connection and is stepped by inbound segments, application
commands and timer ticks, together with the structures it rests on. It covers
32-bit serial arithmetic, the send buffer with its offset-indexed retransmit
queue, the reorder buffer that is re-keyed on every delivery, congestion control,
the lock-free byte ring and frame pool, the parking protocols between threads,
and the TCP and GENEVE codecs with their checksums.

## How the model is laid out

| module | content |
|---|---|
| `Types`, `Modular`, `Bytes` | machine integers, remainders, network byte order |
| `SeqNum` | serial numbers against unbounded positions |
| `Congestion`, `CongestionLaws` | window and timeout arithmetic, as functions and as the object that updates its fields, and how far and how fast it moves |
| `ByteRing`, `RingInterleaving` | the byte ring as an object, and under every interleaving of its two threads |
| `Tcb` | a connection and what every event does to it, as functions |
| `SendStream`, `Reassembly`, `WindowSafety` | the two halves of a connection against the streams they carry |
| `PeerWindow` | window updates and the zero-window probe, seen from the sender |
| `Transmission`, `Timers`, `Acknowledging` | how much the transmit loop sends, when the timers run and what they do, and when received data is acknowledged |
| `Network`, `SenderSteps`, `ReceiverSteps`, `EndToEnd` | two connections and a network between them: the relation that holds, the steps at either side, and every run |
| `Repair` | how a loss on such a run is noticed and repaired |
| `FlowControl` | runs in which the senders heed the windows they are told |
| `Handshake` | two engines opening a connection to each other |
| `Lifecycle` | what every step and every run of one connection keeps |
| `Teardown`, `KeepaliveLaws`, `Settings` | how connections end, what keepalive and the socket options do |
| `Engine` | the engine object with its loops, each proved equal to the functions |
| `EngineRuns`, `Listeners`, `Admission` | what every run of the engine keeps, who is admitted and in which order connections are handed out |
| `FramePool`, `FrameSlab` | the frame pool under every interleaving, and as an object over its slab |
| `Wakeup`, `WriterWakeup` | the blocking read and write and the engine's own wait, under every interleaving |
| `Checksum`, `UdpChecksum` | one's-complement sums |
| `Headers`, `TcpOptionsCodec`, `TcpCodec`, `Geneve`, `GeneveFrames` | frames written in place and parsed back |
| `WireFormat` | what stands at which offset, and the option lists any peer may send |

A connection is a value of type `Connection`; `Step` says what one event makes of
it and which segments leave. The methods of `Engine` carry out the same work
with loops (retaining and rebasing the retransmit queue, re-keying and draining the
reorder buffer, emptying the transmit ring in 4096-byte chunks, the transmit loop,
the two passes of a tick) and are proved to produce exactly `Step`'s result, so
every theorem about `Step` holds of them. Both rings of a connection appear as
the bytes ever accepted and the number taken out; `SpscByteRing` proves that the
wrapping buffer implements that view.

Lock-free code is modelled as a state machine whose steps are single atomic
accesses, run in every possible order. Time is a number of nanoseconds, and one
call of the engine sees one value of the clock. Initial sequence numbers are
parameters. Addresses are IPv4. A hash map is visited in an arbitrary order.

## Premises of the stream theorems

`EndToEnd.StreamStaysIntact` follows the direction from one connection to the
other through writes, reads, shutdowns, aborts, every timer, loss, repetition and
reordering, from a connection just opened until either side is removed. It needs,
of the sender of the direction:

- an arriving acknowledgment is less than 2^31 bytes behind SND.UNA;
- in CLOSE_WAIT, data in flight is not acknowledged all at once: such an
  acknowledgment empties the retransmit queue but not the send buffer
  (`CloseWaitTracksExactly` shows that this is exact, `CloseWaitResends` what leaves
  next, `CloseWaitResendsOldBytes` gives an input);
- no zero-window probe is sent, since it carries a zero byte whatever the next byte
  is (`ProbeCarriesExactly`, `ProbeIsDelivered`).

It needs of the receiver:

- an arriving payload starts less than 2^31 bytes behind RCV.NXT;
- no write into the receive ring takes a payload in part: a ring that takes all of
  it or none of it is enough (`ReceiveOnBoundaryExactly` shows that this is exactly
  when RCV.NXT stays on a segment boundary).

The last one follows from flow control. `FlowControl.HeededRunsNeverOverrun` proves it
for every run in which the sender heeds the windows it is told, from a handshake whose
windows fit the ring. `HeedsExactly` shows that heeding is exactly what keeps
SND.UNA + SND.WND within the edges advertised, and `FirstWindowFitsExactly` which
handshakes fit: the default configuration does not (`DefaultsDoNotFit`), because the
source shifts the window of a SYN by the scale.

The two directions have separate premises, and `StreamsStayIntact` joins them. That
acknowledgments land on segment boundaries (`AlignedExactlyAtBoundaries`,
`MidSegmentAckMisnumbers`) and that data comes from one fixed partition of the
stream is proved there and not assumed. `HandshakeConnects` gives the starting point
for engines whose window scale is at most 14 (section 2.3 of RFC 7323); theorems
about a single connection or engine ask the same of the scales its peers offer.

`ReassemblyIsComplete` is about one receiver: there a peer stays within some edge it
has been told, and every arrival lies within half the number space of the current
point. `EdgeRespectedExactly` says when one acknowledgment leaves the engine's own sender
within the edge it advertises, `FirstUpdateExactly` and `UpperHalfIsNotHeard` when the
handshake's leftovers keep the window from being updated, and `ClosedWindowIgnored` is
an input on which the connection goes on sending into a closed window.

## What the source does not do

Some things one would expect of a TCP stack do not hold of the code. Each is stated
exactly:

- A timeout that has been served is never forgiven (`TimeoutsAreNeverForgiven`), a
  retransmission that the receiver already has is not acknowledged
  (`RetransmissionAnsweredExactly`), and a lost SYN, SYN-ACK or FIN is not resent
  (`LostSynOrFinIsNotResent`).
- FIN_WAIT_1 delivers data without acknowledging it (`AnsweredExactly`), and after an
  acknowledgment of everything CLOSE_WAIT holds small writes back (`StallsExactly`).
- Keepalive probes are not answered (`ProbeIsNotAnswered`).
- A read may report the end of the stream before the last bytes
  (`EofOvertakesDataExactly`), and a writer may sleep beside an empty ring
  (`PassedOverExactly`).
- Connections are accepted last come first served (`LastCompletedFirstAccepted`).

Where the source's comments and its code differ, the model follows the code: a
connect on a live address pair replaces the connection (`EngineFollowsDiagram` says
exactly when), options beyond 40 bytes overflow the data offset
(`RoundTripsExactly`), and the zero-window probe does carry a byte.

## Model

| member | source | states |
|---|---|---|
| `SeqNum.AgreesWithPositions` | dpdk-stdlib-tcp/src/seq.rs:14-42 | for positions less than half the number space apart, every serial comparison and difference of their numbers agrees with the order and distance of the positions |
| `SeqNum.ComparableExactly` | dpdk-stdlib-tcp/src/seq.rs:14-30 | two different numbers are ordered if and only if their positions are not exactly half the number space apart, and never both ways |
| `SeqNum.TransitiveExactly` | dpdk-stdlib-tcp/src/seq.rs:14-30 | two comparisons compose if and only if their distances together stay below half the number space |
| `SeqNum.NotTransitive` | dpdk-stdlib-tcp/src/seq.rs:14-30 | serial order is not transitive over the whole number space: three numbers that each precede the next, and the last the first |
| `SeqNum.InRangeIsInterval` | dpdk-stdlib-tcp/src/seq.rs:46-48 | the range test is membership of a half-open interval of positions |
| `Congestion.CongestionState.constructor` | dpdk-stdlib-tcp/src/congestion.rs:33-50 | a new state has the initial window of RFC 6928, both floors and a timeout within bounds |
| `Congestion.CongestionState.UpdateRtt` | dpdk-stdlib-tcp/src/congestion.rs:56-80 | the estimator step, truncation included, leaves the timeout within 1 s and 60 s and keeps both estimates within every interval that holds the sample and held them |
| `Congestion.CongestionState.OnAck` | dpdk-stdlib-tcp/src/congestion.rs:84-98 | slow start, avoidance or nothing in recovery, with saturation: the window grows by exactly a segment in slow start, never shrinks, grows by at most one segment and keeps the floors |
| `Congestion.CongestionState.OnTripleDupAck` | dpdk-stdlib-tcp/src/congestion.rs:102-109 | threshold and inflated window of fast retransmit, without overflow, both floors restored |
| `Congestion.CongestionState.OnPartialAck` | dpdk-stdlib-tcp/src/congestion.rs:113-117 | the deflated window, which keeps its floor if and only if it deflates by no more than the excess over one segment |
| `Congestion.CongestionState.OnRecoveryExit` | dpdk-stdlib-tcp/src/congestion.rs:120-125 | the window falls to the threshold and keeps both floors |
| `Congestion.CongestionState.OnRto` | dpdk-stdlib-tcp/src/congestion.rs:138-144 | threshold from the flight, window to one segment, both floors restored |
| `Congestion.CongestionState.BackoffRto` | dpdk-stdlib-tcp/src/congestion.rs:133-135 | the timeout doubles up to the cap, stays within bounds and never falls |
| `Congestion.FloorsKeptExactly` | dpdk-stdlib-tcp/src/congestion.rs:84-144 | an event keeps window >= one segment and threshold >= two if and only if it is not a partial ACK deflating by more than the excess |
| `Congestion.FloorsHoldOnEveryRun` | dpdk-stdlib-tcp/src/congestion.rs:84-144 | both floors over every run of events |
| `Congestion.AckGrowth` | dpdk-stdlib-tcp/src/congestion.rs:84-98 | one acknowledgment opens a window of at least one segment by at most one segment, whatever the phase |
| `Congestion.AvoidanceGrowth` | dpdk-stdlib-tcp/src/congestion.rs:84-98 | n acknowledgments in congestion avoidance grow the window by at most n times the first step |
| `Congestion.OneSegmentPerWindow` | dpdk-stdlib-tcp/src/congestion.rs:84-98 | one window of acknowledgments in congestion avoidance opens the window by at most one segment (section 3.1 of RFC 5681) |
| `Congestion.TimeoutBoundedOnEveryRun` | dpdk-stdlib-tcp/src/congestion.rs:56-80 | the timeout stays within 1 s and 60 s on every run of samples, backoffs and other events |
| `Congestion.BackoffIsExponential` | dpdk-stdlib-tcp/src/congestion.rs:133-135 | k backoffs give min(60 s, 2^k * timeout) |
| `Congestion.EstimatorsTrackTheSamples` | dpdk-stdlib-tcp/src/congestion.rs:56-80 | samples within [m, M] keep the smoothed time in [m - 14, M] and the deviation at most max(M/2, M - m + 14), on every run |
| `CongestionLaws.InitialWindowIsLargestAllowed` | dpdk-stdlib-tcp/src/congestion.rs:47-50 | the initial window is the largest that RFC 6928 allows, and any larger one breaks one of its two limits |
| `CongestionLaws.AckGrowsExactly` | dpdk-stdlib-tcp/src/congestion.rs:84-98 | what one acknowledgment adds, in recovery, slow start and congestion avoidance, and what it leaves alone |
| `CongestionLaws.SlowStartGrows` | dpdk-stdlib-tcp/src/congestion.rs:84-98 | k acknowledgments in slow start add exactly k segments, as long as the window stays below the threshold |
| `CongestionLaws.SlowStartDoubles` | dpdk-stdlib-tcp/src/congestion.rs:84-98 | a window's worth of acknowledgments takes cwnd to cwnd + (cwnd / mss) * mss, up to the threshold |
| `CongestionLaws.SlowStartReachesThreshold` | dpdk-stdlib-tcp/src/congestion.rs:84-98 | from any window slow start reaches the threshold, after the number of acknowledgments the distance needs |
| `CongestionLaws.AvoidanceGrowsAtLeast` | dpdk-stdlib-tcp/src/congestion.rs:84-98 | in congestion avoidance n acknowledgments add at least n steps of the size the last window allows |
| `CongestionLaws.NearlyOneSegmentPerWindow` | dpdk-stdlib-tcp/src/congestion.rs:84-98 | a window's worth of acknowledgments in congestion avoidance adds a segment, less what truncation loses: the partner of OneSegmentPerWindow |
| `CongestionLaws.TimeoutHalvesAndRestarts` | dpdk-stdlib-tcp/src/congestion.rs:138-144 | a timeout sets the threshold to half the flight and slow start climbs back to it from one segment |
| `CongestionLaws.RecoveryKeepsThreshold` | dpdk-stdlib-tcp/src/congestion.rs:102-125 | whatever happens in recovery, leaving it sets the window to the threshold that entering it chose |
| `CongestionLaws.FastRecoveryHalves` | dpdk-stdlib-tcp/src/congestion.rs:102-125 | a whole fast recovery leaves the window at half the flight, or two segments |
| `CongestionLaws.SampleMovesEstimates` | dpdk-stdlib-tcp/src/congestion.rs:56-80 | a sample moves the smoothed time an eighth and the deviation a quarter of the way, up to truncation, and the timeout is their clamped combination |
| `CongestionLaws.LowSamplePullsDown` | dpdk-stdlib-tcp/src/congestion.rs:56-80 | a sample well below the smoothed time pulls it down, and not past the sample |
| `ByteRing.SpscByteRing.constructor` | dpdk-stdlib-tcp/src/ring.rs:22-30 | the capacity is a power of two dividing 2^64, at least the minimum and less than twice it; the ring is empty |
| `ByteRing.SpscByteRing.Write` | dpdk-stdlib-tcp/src/ring.rs:34-62 | appends as much of the data as fits to the stream, through wrapping counters and a two-chunk copy |
| `ByteRing.SpscByteRing.Read` | dpdk-stdlib-tcp/src/ring.rs:66-97 | returns and takes the oldest unread bytes |
| `ByteRing.SpscByteRing.Peek` | dpdk-stdlib-tcp/src/ring.rs:120-150 | returns the oldest unread bytes and changes nothing |
| `ByteRing.RingHoldsItsCapacity` | dpdk-stdlib-tcp/src/ring.rs:34-97 | a ring fills up to its capacity and no further, and gives back all that it holds, in order |
| `RingInterleaving.StepSafe` | dpdk-stdlib-tcp/src/ring.rs:34-97 | every load, byte copy and publish step keeps: no unread byte is overwritten, no unpublished byte is read, the counters are at most the capacity apart |
| `RingInterleaving.EveryInterleavingIsFifo` | dpdk-stdlib-tcp/src/ring.rs:34-97 | in every interleaving, counter wrap-around included, no step faults and the bytes read are a prefix of the bytes written |
| `RingInterleaving.WritesTakeWhatFits` | dpdk-stdlib-tcp/src/ring.rs:34-62 | whatever the consumer does meanwhile, a finished write has published a prefix of its bytes, at least as long as the space there was when it began |
| `RingInterleaving.ReadsTakeWhatIsThere` | dpdk-stdlib-tcp/src/ring.rs:66-97 | whatever the producer does meanwhile, a finished read has returned no more than it asked for and at least what was waiting when it began |
| `RingInterleaving.OperationsAreWaitFree` | dpdk-stdlib-tcp/src/ring.rs:34-97 | neither thread ever waits for the other: its next step is always enabled, brings it closer to the end, and nothing sets it back |
| `SendStream.AcknowledgeTracks` | dpdk-stdlib-tcp/src/engine.rs:1152-1182 | an acknowledgment of a boundary keeps the send buffer equal to the written stream from SND.UNA on and the queue a partition of the bytes in flight |
| `SendStream.AlignedExactlyAtBoundaries` | dpdk-stdlib-tcp/src/engine.rs:1154-1177 | the retransmit queue stays aligned with the send buffer if and only if the acknowledgment lands on a segment boundary |
| `SendStream.MidSegmentAckMisnumbers` | dpdk-stdlib-tcp/src/engine.rs:1161-1177 | a concrete mid-segment acknowledgment after which a retransmission carries the wrong bytes |
| `SendStream.CloseWaitResendsOldBytes` | dpdk-stdlib-tcp/src/engine.rs:1484-1509 | a concrete CLOSE_WAIT connection, its acknowledgment and the next tick: four acknowledged bytes leave again under the numbers of the four to come, and a receiver takes them as new data |
| `SendStream.CloseWaitTracksExactly` | dpdk-stdlib-tcp/src/engine.rs:1495-1506 | in CLOSE_WAIT an acknowledgment of a boundary keeps buffer, queue and numbers in step with the stream if and only if it is not an acknowledgment of SND.NXT with data in flight |
| `SendStream.CloseWaitMisnumbers` | dpdk-stdlib-tcp/src/engine.rs:1495-1506 | after that acknowledgment, for every state, the next segment carries bytes from the old start of the buffer under the number SND.NXT, and the FIN waits for bytes long acknowledged |
| `SendStream.CloseWaitResends` | dpdk-stdlib-tcp/src/engine.rs:1484-1509 | the same on the connection: the segment that the next tick sends, for every state and segment |
| `SendStream.SendAllTracks` | dpdk-stdlib-tcp/src/engine.rs:480-556 | the transmit loop extends the partition, every segment carries exactly the bytes its number names, and nothing goes past SND.UNA + min(cwnd, window) |
| `SendStream.SendAllStopsOnlyWhenBlocked` | dpdk-stdlib-tcp/src/engine.rs:480-512 | the transmit loop stops only when everything is sent, a window is full, or Nagle's rule holds a partial segment back |
| `SendStream.OldestPayloadIsFirstSegment` | dpdk-stdlib-tcp/src/engine.rs:317-331 | a retransmission repeats the oldest unacknowledged segment byte for byte |
| `SendStream.FinFollowsLastByte` | dpdk-stdlib-tcp/src/engine.rs:670-713 | the FIN takes the number right after the last byte ever written |
| `SendStream.TransmitTracks` | dpdk-stdlib-tcp/src/engine.rs:456-613 | the transmit phase with or without a FIN to send: the partition grows by exactly the segments that leave, and a FIN goes out only behind everything written |
| `SendStream.ShutdownTracks` | dpdk-stdlib-tcp/src/engine.rs:620-666 | a write shutdown sends the FIN at once if everything written has been sent, and otherwise leaves the stream in step |
| `SendStream.FinishedAcknowledged` | dpdk-stdlib-tcp/src/engine.rs:1357-1400 | once the FIN is sent, an acknowledgment of any boundary or of the FIN keeps queue and numbers in step |
| `Reassembly.DrainedSettles` | dpdk-stdlib-tcp/src/engine.rs:1222-1241 | draining after a delivery reaches exactly the end of the gapless received prefix, less a segment a full ring turns away, and re-keys the rest without underflow |
| `Reassembly.ArrivalSettles` | dpdk-stdlib-tcp/src/engine.rs:1203-1306 | an arriving segment, in order, ahead or old, keeps the delivered bytes equal to the gapless received prefix and the reorder buffer equal to the rest; only a full ring turns a segment away |
| `Reassembly.DrainOnBoundaryExactly` | dpdk-stdlib-tcp/src/engine.rs:1222-1241 | the drain loop leaves RCV.NXT on a segment boundary if and only if none of its writes is cut short |
| `Reassembly.ReceiveOnBoundaryExactly` | dpdk-stdlib-tcp/src/engine.rs:1203-1306 | the same for a whole arrival, with everything it drains |
| `WindowSafety.EdgeWithinRing` | dpdk-stdlib-tcp/src/engine.rs:1809-1823 | every advertised right edge is at most the bytes read plus the capacity |
| `WindowSafety.WindowIsLargest` | dpdk-stdlib-tcp/src/engine.rs:1809-1823 | nothing is advertised below the silly-window threshold, and above it the largest window that fits |
| `WindowSafety.EndInRoom` | dpdk-stdlib-tcp/src/engine.rs:1707-1823 | a segment within any edge advertised so far still fits the ring |
| `WindowSafety.RoomMeansCleanReceive` | dpdk-stdlib-tcp/src/engine.rs:1213-1241 | an arrival that fits the room of the ring leads to no write cut short |
| `WindowSafety.ReassemblyIsComplete` | dpdk-stdlib-tcp/src/engine.rs:1213-1280 | for every arrival order with repeats, of a peer honouring any advertised edge, the application holds exactly the longest gapless prefix and every reorder key is the nonzero distance from RCV.NXT |
| `WindowSafety.OrderDoesNotMatter` | dpdk-stdlib-tcp/src/engine.rs:1213-1280 | two runs that received the same segments delivered the same bytes and buffer the same rest |
| `PeerWindow.SenderStaysWithinEdge` | dpdk-stdlib-tcp/src/engine.rs:1152-1201 | when SND.UNA and SND.WND come from the same segment, what the transmit loop then sends ends within the edge that segment advertised and within the room of the peer's ring |
| `PeerWindow.EdgeRespectedExactly` | dpdk-stdlib-tcp/src/engine.rs:1152-1201 | after an acknowledgment of a boundary SND.UNA + SND.WND is within the edge it advertises if and only if it updates the window or leaves one in place that is no larger |
| `PeerWindow.FirstUpdateExactly` | dpdk-stdlib-tcp/src/engine.rs:1192-1200 | from SND.WL1 = SND.WL2 = 0, which the handshake leaves, exactly which segments update the window |
| `PeerWindow.UpperHalfIsNotHeard` | dpdk-stdlib-tcp/src/engine.rs:1192-1200 | segments numbered in the upper half of the number space acknowledge data and update no window |
| `PeerWindow.ClosedWindowOverrun` | dpdk-stdlib-tcp/src/engine.rs:1152-1201 | on every connection: after an acknowledgment that closes the window without updating it, the segment the next quiet tick sends lies beyond the edge |
| `PeerWindow.ClosedWindowIgnored` | dpdk-stdlib-tcp/src/engine.rs:1152-1201 | a concrete established connection, an acknowledgment that closes the window, and the next tick: two bytes leave beyond every edge advertised |
| `PeerWindow.ProbeCarriesExactly` | dpdk-stdlib-tcp/src/engine.rs:355-389 | the zero-window probe is the next byte of the stream if and only if that byte is zero |
| `PeerWindow.ProbeIsDelivered` | dpdk-stdlib-tcp/src/engine.rs:355-389 | a receiver with room takes the probe as data, its stream stays a prefix if and only if the next byte is zero, and its acknowledgment is one the sender does not accept |
| `PeerWindow.StaleUpdateExactly` | dpdk-stdlib-tcp/src/engine.rs:1192-1200 | after an update the window is the segment's, scaled; an older segment replaces it if and only if it acknowledges the same number, one of the same number if and only if it acknowledges at least as much, a newer one always |
| `Transmission.SegmentsAreFull` | dpdk-stdlib-tcp/src/engine.rs:480-556 | segments are never empty and never above the segment size, and only the last of a burst may be smaller |
| `Transmission.SegmentsFitBothEnds` | dpdk-stdlib-tcp/src/tcb.rs:193-196 | no segment is larger than either end allows |
| `Transmission.SendsExactly` | dpdk-stdlib-tcp/src/engine.rs:480-556 | without Nagle's rule the loop sends exactly what the data and the two windows allow; with it, that much or less by a part of a segment held back behind data in flight |
| `Transmission.SlidingWindowIsFilled` | dpdk-stdlib-tcp/src/engine.rs:480-556 | what has been sent reaches to SND.UNA plus the smaller of the two windows, or to the last byte written, whichever comes first |
| `Transmission.NagleHolds` | dpdk-stdlib-tcp/src/tcb.rs:213-230 | less than a segment waits while anything is in flight |
| `Transmission.SmallSegmentsOnlyAlone` | dpdk-stdlib-tcp/src/engine.rs:480-556 | with Nagle's rule a small segment leaves only alone, with nothing in flight, or into the last of the window |
| `Transmission.PersistRunsWhenBlocked` | dpdk-stdlib-tcp/src/engine.rs:558-575 | the persist timer is armed when unsent bytes face a closed window, left running while they do, and stopped when the window opens |
| `Transmission.StallsExactly` | dpdk-stdlib-tcp/src/engine.rs:456-575 | after a transmit phase bytes stay unsent with no timer to serve them if and only if Nagle's latch still says data is in flight when none is |
| `Transmission.EstablishedNeverStalls` | dpdk-stdlib-tcp/src/engine.rs:456-575 | in ESTABLISHED the latch follows the queue, so that does not happen |
| `Transmission.CloseWaitStalls` | dpdk-stdlib-tcp/src/engine.rs:1484-1509 | in CLOSE_WAIT it does: the acknowledgment of everything leaves the latch set |
| `Transmission.EverySegmentIsAddressed` | dpdk-stdlib-tcp/src/engine.rs:242-1573 | everything a connection sends goes from its own address to its peer's, without options and without SYN |
| `Transmission.TransmitLeaves` | dpdk-stdlib-tcp/src/engine.rs:456-601 | what the transmit phase leaves behind: the state after loop and persist timer, or the FIN sent exactly when one is pending and nothing is unsent |
| `Transmission.SampleStalledIsReached` | dpdk-stdlib-tcp/src/engine.rs:1484-1509 | an acknowledgment in CLOSE_WAIT leads to the stalled state |
| `Timers.SendAllArms` | dpdk-stdlib-tcp/src/engine.rs:552-555 | the transmit loop arms an idle retransmission timer exactly when it sends, for the current timeout from now, and leaves a running one alone |
| `Timers.TransmitTimers` | dpdk-stdlib-tcp/src/engine.rs:456-601 | what the whole transmit phase does to the retransmission and persist timers |
| `Timers.TimeoutRearms` | dpdk-stdlib-tcp/src/engine.rs:286-349 | a timeout that keeps the connection re-arms the timer with the doubled timeout, at most a minute, counts the retry, restarts slow start and resends the oldest segment; it ends the connection exactly when the retries are used up |
| `Timers.StepTimers` | dpdk-stdlib-tcp/src/engine.rs:242-1573 | every event keeps the timer of data in flight running, in every state that waits for acknowledgments, and both retransmission timers due within a minute |
| `Timers.DueIsServed` | dpdk-stdlib-tcp/src/engine.rs:286-349 | a tick at or past the deadline resends the oldest unacknowledged segment and re-arms the timer, or ends the connection with an error |
| `Timers.RunsStayArmed` | dpdk-stdlib-tcp/src/engine.rs:242-1573 | on every run of one connection, whatever arrives, data in flight has its timer running |
| `Timers.ResentWithinAMinute` | dpdk-stdlib-tcp/src/engine.rs:242-1573 | so after every run a tick a minute later resends the oldest segment in flight, or ends a connection whose retries are used up |
| `Timers.StepRetries` | dpdk-stdlib-tcp/src/engine.rs:286-303 | a timeout counts one retry and nothing else changes the count |
| `Timers.TimeoutsAreNeverForgiven` | dpdk-stdlib-tcp/src/engine.rs:286-303 | over every run the count is the number of timeouts served: no acknowledgment resets it, so the limit is on the timeouts of a connection's whole life |
| `Acknowledging.ArrivalIsAcknowledged` | dpdk-stdlib-tcp/src/engine.rs:1246-1303 | every new arrival is acknowledged now or by a running timer: now if out of order or second since the last acknowledgment, otherwise within 200 ms; old data draws nothing |
| `Acknowledging.OutOfOrderDrawsDuplicate` | dpdk-stdlib-tcp/src/engine.rs:1272-1303 | an arrival ahead of RCV.NXT draws one acknowledgment of RCV.NXT in the same step |
| `Acknowledging.FinWaitDelivers` | dpdk-stdlib-tcp/src/engine.rs:1388-1391 | in FIN_WAIT_1 and FIN_WAIT_2 exactly the payload that is next in order is delivered, as far as there is room, and a FIN behind it is taken exactly if it is next |
| `Acknowledging.FinWaitDeliversAll` | dpdk-stdlib-tcp/src/engine.rs:1448-1451 | with room for it, all of it |
| `Acknowledging.HalfClosedReceivesAll` | dpdk-stdlib-tcp/src/engine.rs:1357-1477 | a half-closed connection takes the rest of the peer's stream to the last byte |
| `Acknowledging.OutAcknowledges` | dpdk-stdlib-tcp/src/engine.rs:242-1573 | every segment a synchronized connection sends acknowledges RCV.NXT |
| `Acknowledging.AnsweredExactly` | dpdk-stdlib-tcp/src/engine.rs:1203-1477 | a step leaves everything received acknowledged, or a timer running for it, if and only if it is not an arrival in FIN_WAIT_1 that delivers data and brings no FIN with no such timer running |
| `Acknowledging.FinWait1LeavesUnanswered` | dpdk-stdlib-tcp/src/engine.rs:1388-1391 | such an arrival: three bytes are delivered, nothing is sent and no timer runs |
| `Acknowledging.RunsAnswer` | dpdk-stdlib-tcp/src/engine.rs:1203-1477 | on every run without that exception, whenever the last acknowledgment sent is older than RCV.NXT, the delayed-acknowledgment timer runs |
| `Acknowledging.RunsAckPromptly` | dpdk-stdlib-tcp/src/engine.rs:1266-1271 | and it is due at most 200 ms after the last event |
| `Acknowledging.AcknowledgedInTime` | dpdk-stdlib-tcp/src/engine.rs:438-453 | so a tick 200 ms later acknowledges RCV.NXT, or ends the connection |
| `Acknowledging.FirstSegmentWaits` | dpdk-stdlib-tcp/src/engine.rs:1246-1271 | the first segment since an acknowledgment, in order with nothing buffered behind it, only starts the timer |
| `SenderSteps.SenderStep` | dpdk-stdlib-tcp/src/engine.rs:242-1573 | every event at the sending side of a direction keeps its half of the relation: the partition grows only by what leaves, every segment carries the bytes its number names, the acknowledged point moves to delivered boundaries, a FIN closes the stream |
| `ReceiverSteps.ReceiverStep` | dpdk-stdlib-tcp/src/engine.rs:984-1573 | every event at the receiving side keeps its half: whole segments are delivered, and in the FIN_WAIT states by `Acknowledging.FinWaitDelivers` all that fits, the FIN is taken only behind the last byte, and every segment sent acknowledges exactly what is delivered |
| `EndToEnd.NetStepKeeps` | dpdk-stdlib-tcp/src/engine.rs:242-1573 | one step at either end, removal included, keeps the relation between both ends and everything under way |
| `EndToEnd.StreamStaysIntact` | dpdk-stdlib-tcp/src/engine.rs:242-1573 | over every run of two connected engines and a network that drops, repeats and reorders, with shutdown and teardown on both sides: the bytes received are a prefix of the bytes written; SND.UNA <= RCV.NXT <= SND.NXT and every acknowledgment under way are on the boundaries of exactly the segments sent, each carrying the bytes its number names, with the FIN as one more; a receiver that has taken the FIN has all the sender drained and end of stream set |
| `EndToEnd.SegmentsDetermineCuts` | dpdk-stdlib-tcp/src/engine.rs:480-556 | the segments ever sent determine those boundaries: no two different lists fit them |
| `EndToEnd.StreamsStayIntact` | dpdk-stdlib-tcp/src/engine.rs:242-1573 | both directions of the same run, each under its own premises |
| `EndToEnd.FinIsFlushed` | dpdk-stdlib-tcp/src/engine.rs:586-713 | in every run, the step that sends the FIN has sent everything written so far, and the FIN leaves under the number right after the last byte |
| `EndToEnd.FinMeansWholeStream` | dpdk-stdlib-tcp/src/engine.rs:1312-1477 | in every run, a receiver that has taken the FIN holds exactly the bytes the sender had written when it sent it, whatever came before and after |
| `Repair.LossIsNoticed` | dpdk-stdlib-tcp/src/engine.rs:286-349 | on every run of two connected engines: while data is unacknowledged its timer runs, and a tick at or past the deadline resends the written bytes at SND.UNA, or ends the connection with an error when the retries are used up |
| `Repair.NothingStalls` | dpdk-stdlib-tcp/src/engine.rs:456-575 | on every such run, bytes that a tick leaves unsent in ESTABLISHED have a running timer |
| `Repair.InOrderIsDelivered` | dpdk-stdlib-tcp/src/engine.rs:1213-1241 | data next in order, with room for it, is delivered at once, with whatever waited behind it |
| `Repair.RetransmissionAnsweredExactly` | dpdk-stdlib-tcp/src/engine.rs:1213-1306 | a receiver answers a retransmission if and only if it did not have the data; a lost acknowledgment is not repeated |
| `Repair.AckMovesUna` | dpdk-stdlib-tcp/src/engine.rs:1152-1190 | an acceptable acknowledgment moves SND.UNA to the number it names and opens the congestion window; any other leaves both |
| `Repair.RepairMakesProgress` | dpdk-stdlib-tcp/src/engine.rs:286-1306 | on every run, when the receiver lacks what SND.UNA names: the tick, the arrival of what it sends and the arrival of any acknowledgment of RCV.NXT move RCV.NXT and then SND.UNA past the resent bytes |
| `FlowControl.HeedsExactly` | dpdk-stdlib-tcp/src/engine.rs:1152-1201 | an acknowledgment leaves SND.UNA + SND.WND within the old limit or the edge it tells if and only if it moves SND.UNA together with the window or under one no larger, or enlarges the window only at SND.UNA itself |
| `FlowControl.StepTells` | dpdk-stdlib-tcp/src/engine.rs:1776-1823 | every segment a synchronized connection sends advertises the window of the receiver it leaves behind, or zero |
| `FlowControl.StepKeepsRoom` | dpdk-stdlib-tcp/src/engine.rs:242-1573 | a step at either end keeps everything sent, the sender's limit and every edge under way within the bytes read plus the capacity of the receiver's ring |
| `FlowControl.RunKeepsRoom` | dpdk-stdlib-tcp/src/engine.rs:242-1573 | the same over every run, from any state whose limit lies within the room, not only from a handshake |
| `FlowControl.HeededRunsNeverOverrun` | dpdk-stdlib-tcp/src/engine.rs:242-1573 | over every run in which the sender heeds what it is told, from a handshake that fits: nothing is ever sent beyond the receiver's ring, no write is cut short, and the stream stays intact |
| `Handshake.HandshakeConnects` | dpdk-stdlib-tcp/src/engine.rs:817-1134 | a connect, the SYN, the SYN-ACK and the ACK, each handed to the other engine, leave the two connections facing each other with only handshake segments under way and each sender holding its peer's window and scale |
| `Handshake.FirstWindowFitsExactly` | dpdk-stdlib-tcp/src/engine.rs:1020-1077 | the window a handshake leaves fits the peer's ring if and only if the 16-bit window shifted by the scale is at most the capacity |
| `Handshake.DefaultsDoNotFit` | dpdk-stdlib-tcp/src/engine.rs:62-73 | with the default window of 65535 and scale 7 the first window is 8388480 bytes, beyond the ring |
| `Handshake.ConnectedRunsStayIntact` | dpdk-stdlib-tcp/src/engine.rs:242-1573 | from that handshake on, every run keeps both streams intact |
| `Handshake.FittingRunsNeverOverrun` | dpdk-stdlib-tcp/src/engine.rs:242-1573 | from a handshake whose windows fit, as long as both senders heed what they are told, neither overruns the other and both streams stay intact, with no premise about writes |
| `Lifecycle.StepFollowsDiagram` | dpdk-stdlib-tcp/src/engine.rs:984-1573 | every event moves a connection only along the edges of section 3.3.2 of RFC 9293 |
| `Lifecycle.RemovalIsGracefulOrReported` | dpdk-stdlib-tcp/src/engine.rs:248-415 | a connection is removed only along an edge to CLOSED, when FIN_WAIT_2 times out, or with an error the application sees |
| `Lifecycle.ResetOnlyAtRcvNxt` | dpdk-stdlib-tcp/src/engine.rs:1582-1681 | a reset ends a synchronized connection if and only if it names RCV.NXT; elsewhere in the window it draws a challenge ACK and changes nothing |
| `Lifecycle.InWindowIsInterval` | dpdk-stdlib-tcp/src/engine.rs:1795-1802 | the window test is membership of an interval of positions |
| `Lifecycle.StepMirrored` | dpdk-stdlib-tcp/src/engine.rs:1357-1573 | the handle shows the connection's state, and TIME_WAIT and FIN_WAIT_2 always have a deadline |
| `Lifecycle.WaitingStatesExpire` | dpdk-stdlib-tcp/src/engine.rs:248-277 | the first tick at or past that deadline removes the connection |
| `Lifecycle.StepPaced` | dpdk-stdlib-tcp/src/engine.rs:1246-1303 | at most one unacknowledged segment is counted, and exactly then the delayed-ACK deadline is armed |
| `Lifecycle.DelayedAckIsSent` | dpdk-stdlib-tcp/src/engine.rs:279-453 | a tick at or past that deadline acknowledges RCV.NXT or removes the connection, whichever timer it serves first |
| `Lifecycle.SendAllSafe` | dpdk-stdlib-tcp/src/engine.rs:480-556 | under any acknowledgments whatever, the transmit loop stays within both windows |
| `Lifecycle.StepSendSafe` | dpdk-stdlib-tcp/src/engine.rs:1154-1158 | any event, whatever the segment, moves SND.UNA and SND.NXT only forward and keeps the flight within 2^30 |
| `Lifecycle.NumbersNeverRetreat` | dpdk-stdlib-tcp/src/tcb.rs:199-208 | on every run, SND.UNA <= SND.NXT as unbounded positions, neither retreats, and the flight is exactly their distance |
| `Lifecycle.StepCounts` | dpdk-stdlib-tcp/src/engine.rs:1213-1346 | RCV.NXT counts the delivered bytes, plus one once the peer's FIN is taken |
| `Lifecycle.StepMeans` | dpdk-stdlib-tcp/src/engine.rs:1312-1573 | the state is exactly what the wire has shown of both FINs and the acknowledgment of ours |
| `Lifecycle.RunsKeepMeaning` | dpdk-stdlib-tcp/src/engine.rs:1312-1573 | the same over every run from ESTABLISHED; TIME_WAIT means our FIN acknowledged and the peer's taken |
| `Lifecycle.RunsStayHealthy` | dpdk-stdlib-tcp/src/engine.rs:242-1346 | all of these invariants together on every run |
| `Lifecycle.StepBounded` | dpdk-stdlib-tcp/src/engine.rs:566-575 | retransmission and persist timeouts stay within 60 s |
| `Lifecycle.ProbesBackOffExponentially` | dpdk-stdlib-tcp/src/engine.rs:380-386 | n zero-window probes in a row wait min(60 s, 2^n * start) |
| `Teardown.LastAckExactly` | dpdk-stdlib-tcp/src/engine.rs:1512-1530 | LAST_ACK ends without an error exactly on an acknowledgment of its FIN |
| `Teardown.ClosingExactly` | dpdk-stdlib-tcp/src/engine.rs:1534-1554 | CLOSING moves to TIME_WAIT, for two minutes, exactly on an acknowledgment of its FIN |
| `Teardown.TimeWaitExactly` | dpdk-stdlib-tcp/src/engine.rs:1557-1578 | a FIN that is sent again is acknowledged again and the wait starts over |
| `Teardown.OrderlyClose` | dpdk-stdlib-tcp/src/engine.rs:620-1578 | one side closes, then the other: both learn of the end of the stream, the second is gone at once, the first after two minutes, and neither sees an error |
| `Teardown.SimultaneousClose` | dpdk-stdlib-tcp/src/engine.rs:1357-1554 | both close at once: FINs and acknowledgments cross and both wait in TIME_WAIT |
| `Teardown.AbortEndsBothExactly` | dpdk-stdlib-tcp/src/engine.rs:733-766 | an abort ends its own connection, and the other one if and only if that has received everything sent |
| `Teardown.RemovalReportsCause` | dpdk-stdlib-tcp/src/contract.rs:317-327 | a removed connection reports the first error it saw, or else what removed it |
| `Teardown.ShutdownRemembered` | dpdk-stdlib-tcp/src/engine.rs:620-657 | closing the write side sends the FIN or remembers it |
| `Teardown.PendingFinLeavesExactly` | dpdk-stdlib-tcp/src/engine.rs:586-601 | the transmit phase sends a pending FIN exactly when it leaves nothing unsent |
| `Teardown.StepClosingDown` | dpdk-stdlib-tcp/src/engine.rs:242-1573 | once asked for, the close is never forgotten |
| `Teardown.FinIsSentOnce` | dpdk-stdlib-tcp/src/engine.rs:670-713 | no event in any state behind a FIN sends another, nor a SYN |
| `Teardown.LostSynOrFinIsNotResent` | dpdk-stdlib-tcp/src/engine.rs:282-286 | so a lost SYN, SYN-ACK or FIN is never repaired: its timer is armed, but serves only the retransmit queue, and the connection stays as it is however long the peer is silent |
| `Teardown.ShutdownSendsFin` | dpdk-stdlib-tcp/src/engine.rs:640-713 | closing the write side with nothing left to send puts a FIN under SND.NXT on the wire |
| `Teardown.EstablishedTakesFin` | dpdk-stdlib-tcp/src/engine.rs:1308-1346 | a FIN that is next in order is taken and acknowledged at once, and the application sees the end of the stream |
| `Teardown.FinWait1Acknowledged` | dpdk-stdlib-tcp/src/engine.rs:1357-1433 | an acknowledgment of everything takes FIN_WAIT_1 to FIN_WAIT_2 for a minute and stops the retransmission timer |
| `Teardown.FinWait1TakesFin` | dpdk-stdlib-tcp/src/engine.rs:1357-1433 | the peer's FIN takes FIN_WAIT_1 to TIME_WAIT if it acknowledges everything and to CLOSING if not |
| `Teardown.FinWait2TakesFin` | dpdk-stdlib-tcp/src/engine.rs:1435-1477 | the peer's FIN takes FIN_WAIT_2 to TIME_WAIT for two minutes and is acknowledged |
| `KeepaliveLaws.TransmitArmsKeepalive` | dpdk-stdlib-tcp/src/engine.rs:577-584 | the idle time starts on the first transmit phase, and a running deadline is left alone |
| `KeepaliveLaws.DataResetsKeepaliveExactly` | dpdk-stdlib-tcp/src/engine.rs:1205-1211 | an arrival starts the idle time over and forgets the probes if and only if it carries data |
| `KeepaliveLaws.ProbeOrGiveUp` | dpdk-stdlib-tcp/src/engine.rs:392-436 | a probe is empty and one number before SND.UNA; the probe after the last allowed one ends the connection instead |
| `KeepaliveLaws.SilentPeerIsGivenUp` | dpdk-stdlib-tcp/src/engine.rs:392-436 | a silent peer gets exactly as many probes as configured, one per interval, and then the connection times out |
| `KeepaliveLaws.ProbeIsNotAnswered` | dpdk-stdlib-tcp/src/engine.rs:1139-1346 | a probe draws nothing from another engine, so an idle connection with keepalive on is given up although its peer is alive |
| `Settings.FreshConnection` | dpdk-stdlib-tcp/src/tcb.rs:136-190 | what a new connection starts with, either way it opens: numbers, timers, rings, window and flags |
| `Settings.UnstatedTerms` | dpdk-stdlib-tcp/src/engine.rs:1020-1077 | a peer that states no segment size is taken to accept 536 bytes and one that states no scale to use none |
| `Settings.OpensExactly` | dpdk-stdlib-tcp/src/engine.rs:1020-1108 | the active open completes exactly on a SYN-ACK of its own SYN, the passive one exactly on an acknowledgment of its SYN-ACK, and nothing else changes either |
| `Settings.NodelayTakesEffect` | dpdk-stdlib-tcp/src/engine.rs:778-780 | with nodelay on the next transmit loop sends all that the windows allow, and nothing else changes |
| `Settings.KeepaliveSwitches` | dpdk-stdlib-tcp/src/engine.rs:781-788 | turning keepalive off stops its timer for good, turning it on leaves a running one to go on |
| `Settings.RecvBufSizeNarrows` | dpdk-stdlib-tcp/src/engine.rs:794-798 | no window told after the change, scaled up, exceeds the new size, and the window never widens |
| `Settings.LocalEvents` | dpdk-stdlib-tcp/src/engine.rs:659-663 | closing the read side marks the end and tells the peer nothing, and the application's reads and writes touch only the rings |
| `Settings.OpeningSegments` | dpdk-stdlib-tcp/src/engine.rs:1685-1727 | the SYN and the SYN-ACK: numbers, unscaled window, and the 24 bytes of options |
| `Engine.Retain` | dpdk-stdlib-tcp/src/engine.rs:1161-1164 | keeps exactly the entries that end beyond SND.UNA |
| `Engine.Rebase` | dpdk-stdlib-tcp/src/engine.rs:1175-1177 | every offset lowered by the drained bytes |
| `Engine.Rekey` | dpdk-stdlib-tcp/src/engine.rs:1223-1226 | every key lowered by the delivered bytes, no payload lost or merged |
| `Engine.DrainReorder` | dpdk-stdlib-tcp/src/engine.rs:1228-1238 | the drain loop ends where the specification does, with the same count |
| `Engine.ReadAll` | dpdk-stdlib-tcp/src/engine.rs:466-473 | reading 4096 bytes at a time returns all pending bytes and empties the ring |
| `Engine.SendLoop` | dpdk-stdlib-tcp/src/engine.rs:480-556 | the transmit loop's final state and frames are those of the specification, whose amounts `Transmission` and whose timers `Timers` state |
| `Engine.HandleEstablished` | dpdk-stdlib-tcp/src/engine.rs:1139-1346 | segment processing in ESTABLISHED, with its four loops, meets the specification, whose deliveries `Reassembly` and whose acknowledgments `Acknowledging` state |
| `Engine.HandleShutdownWrite` | dpdk-stdlib-tcp/src/engine.rs:620-666 | a write shutdown drains the ring and sends the FIN at once if nothing is unsent |
| `Engine.TickConnection` | dpdk-stdlib-tcp/src/engine.rs:279-613 | one connection's share of a tick, in the order of the timers; what a due timer does, `Timers`, `KeepaliveLaws` and `Lifecycle` state |
| `Engine.QuietBeforeFirstDeadline` | dpdk-stdlib-tcp/src/engine.rs:157-178 | a tick before every armed deadline only transmits |
| `Engine.TcpEngine.constructor` | dpdk-stdlib-tcp/src/engine.rs:122-133 | a new engine has no connections and no listeners |
| `Engine.TcpEngine.CountHalfOpen` | dpdk-stdlib-tcp/src/engine.rs:1926-1930 | the count is the number of half-open connections on the port |
| `Engine.TcpEngine.HandleSyn` | dpdk-stdlib-tcp/src/engine.rs:1907-1979 | a SYN is admitted exactly under the listener, backlog and table limits, else refused with a reset |
| `Engine.TcpEngine.OnSegment` | dpdk-stdlib-tcp/src/engine.rs:1877-1904 | the whole new state and all effects of an inbound segment |
| `Engine.TcpEngine.OnCommand` | dpdk-stdlib-tcp/src/engine.rs:206-238 | the whole new state and all effects of a command |
| `Engine.TcpEngine.ExpireWaiting` | dpdk-stdlib-tcp/src/engine.rs:248-277 | exactly the connections past their waiting deadline are removed |
| `Engine.TcpEngine.OnTick` | dpdk-stdlib-tcp/src/engine.rs:242-616 | every connection takes its share once, in some order, and the frames are theirs in that order |
| `Engine.TcpEngine.NextTimerDeadline` | dpdk-stdlib-tcp/src/engine.rs:157-178 | the least deadline armed anywhere, none if and only if none is armed |
| `EngineRuns.EveryRunIsSound` | dpdk-stdlib-tcp/src/engine.rs:829-834 | in every reachable state each connection keeps all invariants under its own key and there are at most max_tcbs |
| `EngineRuns.EngineFollowsDiagram` | dpdk-stdlib-tcp/src/engine.rs:817-857 | with a listened-on pair in LISTEN, a step of the engine moves a connection along an edge of section 3.3.2 of RFC 9293 if and only if it is not a connect that replaces a live connection |
| `EngineRuns.ConnectReplacesEstablished` | dpdk-stdlib-tcp/src/engine.rs:817-857 | a second connect on the same addresses drops an established connection back to SYN_SENT |
| `Listeners.EveryRunIsExclusive` | dpdk-stdlib-tcp/src/engine.rs:886-902 | no listener ever has both a parked accept and a completed connection |
| `Listeners.StepBalancedExactly` | dpdk-stdlib-tcp/src/engine.rs:864-902 | a step keeps a listener's books balanced if and only if it does not replace the listener while something waits in it |
| `Listeners.EveryRunBalances` | dpdk-stdlib-tcp/src/engine.rs:1096-1132 | every completed handshake is handed out once or queued once, and every accept answered once or parked once |
| `Listeners.EveryRunWithinBacklog` | dpdk-stdlib-tcp/src/engine.rs:1925-1939 | with one unreplaced listener per port, half-open plus completed never exceeds the backlog, and every connection is stored under its own key |
| `Admission.ResetAnswers` | dpdk-stdlib-tcp/src/engine.rs:1729-1750 | a reset takes its number from the acknowledgment if there is one, and otherwise acknowledges every number the segment occupies |
| `Admission.RefusedExactly` | dpdk-stdlib-tcp/src/engine.rs:1582-1604 | a connection in SYN_SENT is refused by exactly the resets that acknowledge its SYN |
| `Admission.RefusalIsReported` | dpdk-stdlib-tcp/src/engine.rs:1907-1945 | a connect that the other engine does not admit leaves nothing behind there and is removed here with ConnectionRefused |
| `Admission.ConnectsExactly` | dpdk-stdlib-tcp/src/engine.rs:817-1134 | a connect succeeds if and only if the other engine admits its SYN |
| `Admission.ListenerFound` | dpdk-stdlib-tcp/src/engine.rs:1914-1924 | a listener on the very address is preferred to the wildcard of its port, and no other is considered |
| `Admission.BurstFillsBacklog` | dpdk-stdlib-tcp/src/engine.rs:1925-1939 | of a burst of SYNs exactly as many are admitted as the backlog has room for, the first ones, and the others leave no trace |
| `Admission.FreshListenerHolds` | dpdk-stdlib-tcp/src/engine.rs:864-883 | a listener opened on a quiet port holds its backlog, or the default one when it asks for none |
| `Admission.LastCompletedFirstAccepted` | dpdk-stdlib-tcp/src/engine.rs:886-902 | completed connections are handed out last come first served |
| `Admission.LastParkedFirstServed` | dpdk-stdlib-tcp/src/engine.rs:1110-1132 | and so are parked accepts |
| `Admission.StrayAnsweredExactly` | dpdk-stdlib-tcp/src/engine.rs:1877-1904 | a segment for no known connection does nothing and draws nothing, unless it is a SYN without ACK and RST; that draws a SYN-ACK if it is admitted and a reset if not |
| `Admission.HalfOpenResetExactly` | dpdk-stdlib-tcp/src/engine.rs:1606-1615 | a half-open connection is ended by exactly the resets that name RCV.NXT |
| `Admission.FreshPairIsQuiet` | dpdk-stdlib-tcp/src/engine.rs:1020-1134 | the two connections a handshake leaves can be closed in order at once |
| `FramePool.StepSafe` | dpdk-stdlib-udp/src/frame_pool.rs:163-206 | every atomic step of the allocator and of any freeing thread keeps the free list's invariant |
| `FramePool.EveryInterleavingIsSafe` | dpdk-stdlib-udp/src/frame_pool.rs:112-206 | the invariant holds in every interleaving from a new pool |
| `FramePool.ListFits` | dpdk-stdlib-udp/src/frame_pool.rs:119-124 | head and tail are never more than the pool's capacity apart |
| `FramePool.EveryFrameInOnePlace` | dpdk-stdlib-udp/src/frame_pool.rs:163-206 | every index is published, being freed, in the allocator's hand or held, exactly one of them, and has at most one holder |
| `FramePool.EmptySlotsAreClaimed` | dpdk-stdlib-udp/src/frame_pool.rs:171-184 | a slot between tail and head is empty if and only if a free of it is under way or the allocator has just taken it |
| `FramePool.SpinEnds` | dpdk-stdlib-udp/src/frame_pool.rs:178-184 | a spinning allocator waits for a free already under way and takes its index as soon as it is stored |
| `FramePool.ExhaustedMeansAllHeld` | dpdk-stdlib-udp/src/frame_pool.rs:167-169 | allocation fails only when every frame is held |
| `FramePool.HeldFramesApart` | dpdk-stdlib-udp/src/frame_pool.rs:216-220 | two holdings lie inside the buffer and share no byte |
| `FrameSlab.CapacityFor` | dpdk-stdlib-udp/src/frame_pool.rs:113 | for every request a 64-bit size can round up, the least power of two that is at least two and at least the request |
| `FrameSlab.IndicesFitExactly` | dpdk-stdlib-udp/src/frame_pool.rs:119-124 | a new pool's free list holds every index, none cut short or equal to the empty mark, if and only if at most 2^31 frames are asked for |
| `FrameSlab.FrameStore.constructor` | dpdk-stdlib-udp/src/frame_pool.rs:112-135 | for every request a 64-bit size can round up, the slab and the free list the source builds; up to 2^31 frames they are a valid pool with every frame free |
| `FrameSlab.FrameStore.Alloc` | dpdk-stdlib-udp/src/frame_pool.rs:163-188 | an undisturbed allocation is a run of the four atomic steps and hands out a frame nobody holds |
| `FrameSlab.FrameStore.Free` | dpdk-stdlib-udp/src/frame_pool.rs:199-206 | an undisturbed free is the two atomic steps and publishes the index |
| `FrameSlab.FrameStore.FrameOf` | dpdk-stdlib-udp/src/frame_pool.rs:216-233 | a held frame is its full-size slice of the buffer |
| `FrameSlab.FrameStore.AllocCopy` | dpdk-stdlib-udp/src/frame_pool.rs:239-248 | the new frame starts with the data that fits, and no other frame changes |
| `Wakeup.StepSafe` | dpdk-stdlib-tcp/src/stream.rs:266-316 | every step of reader, engine or another lock holder keeps the parking invariant |
| `Wakeup.NoLostWakeup` | dpdk-stdlib-tcp/src/stream.rs:266-316 | in every interleaving a parked reader with data, end of stream or an error finds the engine between publishing and notifying, the notification still ahead of it |
| `Wakeup.PendingNotificationReturns` | dpdk-stdlib-tcp/src/contract.rs:335-340 | that notification wakes the reader, which then returns the error, else data, else end of stream |
| `Wakeup.NoLostSignal` | dpdk-stdlib-tcp/src/contract.rs:35-49 | with any number of signallers, timeouts and wake-ups for no reason, an engine asleep with its flag set is still owed a notification |
| `Wakeup.EofOvertakesDataExactly` | dpdk-stdlib-tcp/src/stream.rs:266-283 | a read reports the end of the stream with bytes still in the ring if and only if the flag is set and data arrived since it found the ring empty |
| `Wakeup.EofOvertakesData` | dpdk-stdlib-tcp/src/stream.rs:266-283 | such an interleaving |
| `Wakeup.ReadMeans` | dpdk-stdlib-tcp/src/stream.rs:266-316 | a read returns data only if there is some, and then as much as fits, an error only if latched, the end only if set |
| `Wakeup.NonblockingNeverParks` | dpdk-stdlib-tcp/src/stream.rs:285-288 | a nonblocking read never takes the lock and never parks |
| `Wakeup.SignalsAreReportedExactly` | dpdk-stdlib-tcp/src/contract.rs:42-49 | in every interleaving a wait reports no signal if and only if none is unseen and its time has run out |
| `Wakeup.PendingSignalReturns` | dpdk-stdlib-tcp/src/contract.rs:35-49 | the notification owed to a sleeping engine wakes it, and it reports the signal |
| `WriterWakeup.StepSafe` | dpdk-stdlib-tcp/src/stream.rs:319-371 | every step of writer, engine or another lock holder keeps the parking invariant |
| `WriterWakeup.ParkedWriterIsOwedOrPassedOver` | dpdk-stdlib-tcp/src/stream.rs:319-371 | in every interleaving a parked writer with room is owed a notification, unless the ring was emptied for a shutdown, with the send window closed or with a FIN leaving; with an error it always is |
| `WriterWakeup.PassedOverExactly` | dpdk-stdlib-tcp/src/engine.rs:603-611 | a tick leaves a writer parked beside room without a notification if and only if the send window is closed or a FIN leaves |
| `WriterWakeup.WriterSleepsBesideEmptyRing` | dpdk-stdlib-tcp/src/engine.rs:603-611 | such an interleaving |
| `WriterWakeup.OpenWindowWakesWriter` | dpdk-stdlib-tcp/src/engine.rs:603-611 | a later tick with the window open wakes the writer, which then writes or returns the error |
| `WriterWakeup.WriteMeans` | dpdk-stdlib-tcp/src/stream.rs:319-371 | a write takes as much as fits and reports nothing that is not so |
| `Checksum.AddWords` | dpdk-stdlib-tcp/src/codec.rs:161-186 | the loop adds every 16-bit word, the odd byte padded, modulo 2^32 |
| `Checksum.Fold` | dpdk-stdlib-net/src/checksum.rs:16-18 | the fold loop ends at the nonzero residue modulo 65535, or at zero for zero |
| `Checksum.FoldedResidue` | dpdk-stdlib-net/src/checksum.rs:16-18 | that value is congruent to the sum modulo 65535 and zero only for zero |
| `Checksum.SumFits` | dpdk-stdlib-net/src/checksum.rs:7-14 | a bound on the sum: 65535 bytes never wrap 32 bits |
| `Checksum.Ipv4Checksum` | dpdk-stdlib-net/src/checksum.rs:4-21 | the complement of the folded word sum |
| `Checksum.TcpChecksum` | dpdk-stdlib-tcp/src/codec.rs:156-194 | the complement of the folded sum over pseudo-header and segment, whose bytes `TcpSumIsOverPseudoHeader` spells out |
| `Checksum.FilledHeaderChecks` | dpdk-stdlib-tcp/src/codec.rs:625-627 | a header with its checksum filled in has checksum zero |
| `Checksum.FilledSegmentChecks` | dpdk-stdlib-tcp/src/codec.rs:654-657 | the same for a segment under its pseudo-header, odd lengths included |
| `Checksum.TcpSumIsOverPseudoHeader` | dpdk-stdlib-tcp/src/codec.rs:156-193 | the sum is that of the bytes of the pseudo-header, protocol 6, followed by the segment |
| `Checksum.VerifiesExactly` | dpdk-stdlib-net/src/checksum.rs:16-18 | bytes verify if and only if, read as one big-endian number, they are a positive multiple of 65535 |
| `UdpChecksum.OnesComplementSum` | dpdk-stdlib-udp/src/lib.rs:473-490 | summing four bytes at a time gives the folded sum of the two-byte loop |
| `UdpChecksum.QuadSumFolds` | dpdk-stdlib-udp/src/lib.rs:468-472 | 32-bit and 16-bit word sums fold alike |
| `UdpChecksum.ChecksumUdp` | dpdk-stdlib-udp/src/lib.rs:493-534 | the checksum ignores its own field and is never zero |
| `UdpChecksum.FilledDatagramChecks` | dpdk-stdlib-udp/src/lib.rs:493-534 | a datagram with its checksum filled in verifies |
| `UdpChecksum.PseudoHeaderBytes` | dpdk-stdlib-udp/src/lib.rs:493-534 | the sum is that of the bytes of the pseudo-header, protocol 17, followed by the datagram |
| `UdpChecksum.FilledDatagramVerifies` | dpdk-stdlib-udp/src/lib.rs:493-534 | over the bytes themselves: pseudo-header, filled-in header and payload verify |
| `Headers.WriteIpv4` | dpdk-stdlib-tcp/src/codec.rs:612-627 | writes the header with a checksum that verifies and touches nothing else |
| `TcpOptionsCodec.SerializeOptions` | dpdk-stdlib-tcp/src/codec.rs:405-476 | the bytes of the options with SYN defaults, padding never needed |
| `TcpOptionsCodec.EncodedAligned` | dpdk-stdlib-tcp/src/codec.rs:470-473 | encoded options are a whole number of words |
| `TcpOptionsCodec.ParseOptions` | dpdk-stdlib-tcp/src/codec.rs:479-581 | on arbitrary bytes the loop ends, stays in bounds and reads option by option |
| `TcpOptionsCodec.OptionsRoundTrip` | dpdk-stdlib-tcp/src/codec.rs:405-581 | parsing encoded options returns them, up to the 31 SACK blocks whose length fits its byte |
| `TcpCodec.BuildTcpFrame` | dpdk-stdlib-tcp/src/codec.rs:203-233 | the frame filled in place is the specified byte string, and recomputing either checksum over it gives zero, odd payload lengths included |
| `TcpCodec.WriteTcp` | dpdk-stdlib-tcp/src/codec.rs:629-657 | the segment with its checksum, leaving the headers before it alone |
| `TcpCodec.ChecksummedParts` | dpdk-stdlib-tcp/src/codec.rs:612-657 | the bytes a receiver sums, cut out of the frame, are the ones the sender summed |
| `TcpCodec.ParseTcpPacket` | dpdk-stdlib-tcp/src/codec.rs:288-391 | on arbitrary bytes the parser stays in bounds and returns the specified segment or error |
| `TcpCodec.RoundTripsExactly` | dpdk-stdlib-tcp/src/codec.rs:203-391 | a frame within the IPv4 length limit, whatever its checksums and with any padding behind it, parses back to its fields, completed options and payload if and only if its options take at most 40 bytes |
| `TcpCodec.DataSegmentsRoundTrip` | dpdk-stdlib-tcp/src/codec.rs:367-379 | every segment without options and SYN survives the wire unchanged |
| `TcpCodec.FiveSackBlocksDoNotParse` | dpdk-stdlib-tcp/src/codec.rs:635-636 | five SACK blocks overflow the data offset and the frame is rejected |
| `Geneve.Encode` | dpdk-stdlib-udp/src/geneve.rs:164-196 | writes the base header and every option in place and touches nothing else |
| `Geneve.ParseHeader` | dpdk-stdlib-udp/src/geneve.rs:202-251 | on arbitrary bytes the loop ends, stays in bounds and returns the specified header |
| `Geneve.ParsedIsWellFormed` | dpdk-stdlib-udp/src/geneve.rs:224-240 | every accepted header is well formed; its options length is the sum of the option sizes |
| `Geneve.ParseInvertsEncodeExactly` | dpdk-stdlib-udp/src/geneve.rs:164-251 | parsing an encoding, with anything behind it, returns the header if and only if it is well formed |
| `Geneve.EncodeInvertsParseExactly` | dpdk-stdlib-udp/src/geneve.rs:164-251 | encoding an accepted header gives its bytes back if and only if the reserved bits were zero |
| `GeneveFrames.BuildGeneveFrame` | dpdk-stdlib-udp/src/geneve.rs:265-386 | in a reused buffer, for every header whose options fit its stated length, the frame is the specified byte string and its four checksums verify over the bytes that stand in it; header bytes no option fills keep the buffer's contents |
| `GeneveFrames.DecapRecovers` | dpdk-stdlib-udp/src/geneve.rs:422-521 | decapsulating a built frame, whatever its checksums, gives the header back if and only if it is well formed and port and network identifier match, and then the inner addresses and the payload too |
| `WireFormat.TcpFrameLayout` | dpdk-stdlib-tcp/src/codec.rs:586-657 | every byte of a TCP frame as a number at its offset |
| `WireFormat.ParsesExactly` | dpdk-stdlib-tcp/src/codec.rs:288-362 | a frame is taken as TCP if and only if it is long enough, says IPv4 and protocol 6, and its headers lie within it |
| `WireFormat.ParsedFieldsAre` | dpdk-stdlib-tcp/src/codec.rs:288-391 | and then every field is the number at its offset, and the payload ends where the IPv4 length or the frame does |
| `WireFormat.AnyListParses` | dpdk-stdlib-tcp/src/codec.rs:479-581 | any list of legal options parses to what it says, in any order, unknown kinds skipped, nothing after the end-of-list byte counting |
| `WireFormat.EncodedIsList` | dpdk-stdlib-tcp/src/codec.rs:405-476 | the engine's own options are such a list, with the kinds and lengths of the standards |
| `WireFormat.SynDefaults` | dpdk-stdlib-tcp/src/codec.rs:405-460 | the bytes of a SYN that states no options |
| `WireFormat.GeneveLayout` | dpdk-stdlib-udp/src/geneve.rs:164-196 | every byte of a GENEVE base header |
| `WireFormat.TlvLayout` | dpdk-stdlib-udp/src/geneve.rs:164-196 | every byte of a GENEVE option |
| `WireFormat.TunnelLayout` | dpdk-stdlib-udp/src/geneve.rs:265-386 | every field of an encapsulated frame at its offset, outer and inner |
| `WireFormat.DecapMeans` | dpdk-stdlib-udp/src/geneve.rs:422-521 | what is opened was UDP to the right port with the right identifier around IPv4 and UDP, and the result is what stands there |

## Left out

- Pending connect replies: the one-shot reply of an active open and its resource-limit error are not modelled.
- CLOSE_WAIT after an acknowledgment of SND.NXT: the stream theorems stop there; `SendStream.CloseWaitResends` says what the next segment is.
- Delivery in the end: `Repair.RepairMakesProgress` is about one repair whose segments arrive; no fairness of the network is assumed, so nothing is said of runs that go on for ever.
- GeneveFrames.BuildGeneveFrame: asks that every length fits its 16-bit field and the options the stated length; beyond that the source indexes past its buffer and panics.
- FramePool and FrameSlab: the 64-bit head and tail counters are unbounded, so their wrap-around is not modelled.
- FrameSlab.FrameStore.Alloc: the spin loop is modelled in FramePool; without a concurrent free the first swap succeeds and the object has no loop.
- Weak memory: concurrent steps are interleaved atomic accesses, as the acquire and release pairs of the source justify.
- Async wakers: the wakers that the Tokio wrappers register are not modelled.
- Socket options that only store a value (linger, TTL, send buffer size, address reuse, timeouts) are not modelled.
- MAC addresses of connections, TTL per connection and performance counters are not part of the model.
- IPv6 addresses and their error paths are not modelled.
- ISN generation, clocks and the driver loops that feed the engine are parameters of its steps.
- Device drivers, kernel rings, ARP, GUE, QUIC and the Tokio wrappers are not modelled.
