# A verified model of the userspace TCP/IP stack

This project models three parts of the stack and proves what they are for.

* **Reliable byte stream.** The ring buffer, the coalescing set of early arrivals, the receive buffer, the send buffer
  and the retransmission queue are classes (`RingBuffer.dfy`, `Intervals.dfy`, `RecvBuffer.dfy`, `SendBuffer.dfy`,
  `RetransmissionQueue.dfy`). Each method is proved equal to a function on a snapshot of the object. On those functions,
  `Sender.dfy` and `ByteStream.dfy` compose a sender, a network that loses, duplicates and reorders, and a receiver, and
  prove that in every run the bytes read are a prefix of the bytes written. `Delivery.dfy` shows for every stream a run
  that delivers all of it.
* **Connections.** `Socket.dfy` is the transition relation of the event handlers and the socket that runs it.
  `Connection.dfy` joins two endpoints with data in both directions and proves what each closing state means.
  `GracefulClose.dfy` closes any connection at rest, so that every closing state is reached. `Handshake.dfy` is the
  opening, with packets of earlier connections on the wire, and `Lifecycle.dfy` joins the two from the first SYN to the
  last FIN. `SocketTable.dfy` and `TcpStack.dfy` are the socket table: IDs, session and port maps, pending and accept
  lists, the reaper. `SocketLife.dfy` is what closing, reaping and accepting mean for the sockets in it.
* **RIP and forwarding.** `RoutingTable.dfy` is the table as a class, `RipMessage.dfy` the wire format.
  `RipNetwork.dfy` proves soundness of every asynchronous run, `RipConvergence.dfy` convergence of synchronous rounds,
  `RipRuns.dfy` that these rounds are asynchronous runs, `Forwarding.dfy` that quiescent routes are loop-free and that
  datagrams arrive, `RipQuiescence.dfy` that converged networks are quiescent. `Subnets.dfy` holds mask arithmetic.
* **Checksums.** `Checksum.dfy`: the deferred-carry loop, both folds, byte order, the TCP and IP checksums.

Each section that the code runs while it holds a mutex is one atomic step. Threads are the nondeterministic choice of
the next step, waits are guards, packets on the wire are a set from which deliveries pick freely. Clock readings,
initial sequence numbers, the retransmission timeout and the order in which a router hears its neighbors are parameters.

## What the proofs found

The code is modelled as written. Where it falls short of its documentation or of the standards, the model keeps the
behaviour and a lemma shows it.

* A duplicated segment that straddles RCV.NXT can move RCV.NXT backwards, because `onRecv` passes the segment's own
  number to `mergeRemove` (lib/include/tcp/buffers.hpp:687). `Straddle.StreamBreaks` is a run of an honest sender and
  receiver that returns a stale byte; `RecvBuffers.FaithfulExactly` gives the exact condition under which a segment is
  handled right, which every segment that does not straddle meets. `ByteStream.ReliableStream` requires it.
* The window `onRecv` returns is too large by the early bytes the segment completed (lib/include/tcp/buffers.hpp:690);
  `getAckWnd` is exact (`RecvBuffers.ReturnedWindow`).
* Bytes that are sent count twice against the window until the next acknowledgment: `sendReadyData` takes them off
  `wnd_`, and `sizeCanSendNoLock_` takes them off again as unacknowledged (lib/include/tcp/buffers.hpp:314, 482). The
  source calls this a precaution; `SendBuffers.WindowCountedTwice` says how much it costs.
* With exactly one free slot, a pass of `write` stores nothing and its loop spins (`SendBuffers.WriteProgress`).
* A SYN is retransmitted only if its number plus the window does not wrap: for an active open, whose initial window is
  the largest 32-bit number, only with initial sequence number 0 (`SendBuffers.SynEligible`). The same sum holds back
  everything else while it wraps (`SendBuffers.WrappedWindowStalls`).
* A second, different SYN-ACK that arrives while the thread in `vConnect` has not woken up is taken for the first one,
  and the two ends can disagree: `Handshake.RaceBreaksAgreement` is such a run, `Handshake.SecondSynAck` the exact
  condition.
* A FIN sent ahead of unsent data takes the number of the first unsent byte, which is then never sent (known bug 3 in
  the repository's README): `HastyFin.HastyFinLoses`; `Sender.FinKeepsExactly` is the exact condition.
* The FIN takes a number but no byte, so that in TIME_WAIT a read can return one byte nobody wrote
  (`ByteStream.ReadAfterFin`). In CLOSE_WAIT nothing can be read any more, also what was buffered before the FIN, and a
  FIN one below RCV.NXT, already passed, has the same effect (`Sockets.UnreadIsLost`).
* A socket that is aborted and reaped while it waits to be accepted leaves a dangling reference in the accept queue
  (`SocketTables.DanglingRun`); `SocketTables.AcceptQueuesIntact` says which runs do not.
* The parser adds one to a cost in 32 bits before it caps, so a cost of 2^32 - 1, and no other, is heard as 0
  (`RipMessages.CostWraps`); costs a router sends are at most 16 and do not wrap.

## Model

| member | source | states |
|---|---|---|
| RingBuffers.RingBuffer.Write | lib/include/tcp/buffers.hpp:36-75 | stores exactly the longest prefix of the data that fits the span at its positions modulo N and no other slot, on either side of the array's end; nothing for a span of one slot |
| RingBuffers.RingBuffer.Read | lib/include/tcp/buffers.hpp:87-128 | returns the bytes of the span in order, truncated to the buffer, and leaves the rest of the buffer alone |
| RingBuffers.StoredAt | lib/include/tcp/buffers.hpp:36-75 | after a write, each position of the window of N holds the new byte if it was written, else its old byte |
| RingBuffers.SpanOfStored | lib/include/tcp/buffers.hpp:87-128 | reading the span just written returns what was written, wherever it wraps |
| RingBuffers.WindowDetermines | lib/include/tcp/buffers.hpp:130-145 | the N positions of any window determine the whole ring |
| RingBuffers.SlotsDistinct | lib/include/tcp/buffers.hpp:145 | positions less than N apart never share a slot |
| Intervals.RightOpenIntervalSet.EmplaceMerge | lib/include/tcp/intervals.hpp:32-67 | the ordered-set insertion with iterator fusion leaves what the naive one-pass merge leaves, and returns the end of the component |
| Intervals.RightOpenIntervalSet.MergeRemove | lib/include/tcp/intervals.hpp:69-91 | removes exactly the members that touch the interval and returns the end of the component it forms with them |
| Intervals.FuseInserted | lib/include/tcp/intervals.hpp:44-66 | fusing the neighbors of a freshly inserted interval is the naive merge |
| Intervals.MergeSeparated | lib/include/tcp/intervals.hpp:32-67 | from a sorted set without touching members, insertion yields such a set |
| Intervals.MergeCovers | lib/include/tcp/intervals.hpp:32-67 | the merged set covers exactly the old points and those of the new interval |
| Intervals.MergeComponent | lib/include/tcp/intervals.hpp:32-67 | the value returned is the end of the member that contains the new interval |
| Intervals.UntouchedMembers | lib/include/tcp/intervals.hpp:69-91 | removal leaves exactly the members that do not touch the interval |
| Intervals.RemovalSplitsPoints | lib/include/tcp/intervals.hpp:69-91 | for an interval before all members: the points of set and interval are the removed component plus what is left, which lies strictly beyond it |
| Intervals.ComponentEndMissing | lib/include/tcp/intervals.hpp:69-91 | the end returned is covered neither by the set nor by the interval |
| RecvBuffers.OnRecvStores | lib/include/tcp/buffers.hpp:647-696 | reassembly refines the naive receiver: a faithful segment stores exactly the positions it is accepted for, the early set stays sorted, non-touching, strictly above RCV.NXT and inside the window, RCV.NXT never decreases and is the first position not stored |
| RecvBuffers.SegmentStored | lib/include/tcp/buffers.hpp:647-696 | in terms of the segment alone: a position is stored after a faithful segment if and only if it was before, or the segment carries it, it is at or after RCV.NXT and inside the window, and the window has room for two bytes there, so that any number of early segments are kept at once |
| RecvBuffers.FaithfulExactly | lib/include/tcp/buffers.hpp:647-696 | a segment stores exactly its accepted positions if and only if it is faithful: it does not straddle RCV.NXT, or adds nothing, or ends inside one early interval within reach |
| RecvBuffers.OnRecvMatches | lib/include/tcp/buffers.hpp:647-696 | a faithful segment that carries its part of the stream keeps every stored unread position at its stream byte, through slot reuse |
| RecvBuffers.ReadReturnsStream | lib/include/tcp/buffers.hpp:578-598 | a read returns the next bytes of the stream, and keeps the rest right |
| RecvBuffers.ReturnedWindow | lib/include/tcp/buffers.hpp:690 | the acknowledgment is RCV.NXT; the returned window exceeds the exact free space by the early bytes absorbed, and by nothing else |
| RecvBuffers.WindowBetween | lib/include/tcp/buffers.hpp:690 | the returned window lies between the free space after the segment and before it, and is exact where nothing was early |
| RecvBuffers.SizesExact | lib/include/tcp/buffers.hpp:698-702 | inside the window neither size wraps |
| RecvBuffers.RecvBuffer.OnRecv | lib/include/tcp/buffers.hpp:647-696 | the method on ring and interval set is the snapshot function about which the reassembly lemmas are proved |
| RecvBuffers.RecvBuffer.OnCtrl | lib/include/tcp/buffers.hpp:638-643 | a FIN is consumed only at RCV.NXT; acknowledgment and exact window are returned |
| RecvBuffers.RecvBuffer.ReadAtMostNBytes | lib/include/tcp/buffers.hpp:578-598 | returns and releases the available prefix; zero bytes always succeed; a stopped buffer refuses and changes nothing |
| RecvBuffers.RecvBuffer.GetAckWnd | lib/include/tcp/buffers.hpp:698-702 | RCV.NXT and the free space |
| RecvBuffers.RecvBuffer.SetPointersNoLock | lib/include/tcp/buffers.hpp:563-567 | both pointers move to the given number, nothing else changes |
| RetransmissionQueues.RetransmissionQueue.OnAck | lib/include/tcp/retransmission_queue.hpp:49-71 | drops the entirely acknowledged prefix, and the probe if it is acknowledged |
| RetransmissionQueues.RetransmissionQueue.EnqueuePacket | lib/include/tcp/retransmission_queue.hpp:73-85 | an in-order packet is appended with a fresh stamp and counter |
| RetransmissionQueues.RetransmissionQueue.EnqueueZwp | lib/include/tcp/retransmission_queue.hpp:87-95 | the probe entry is set where there was none |
| RetransmissionQueues.RetransmissionQueue.GetExpiredEntries | lib/include/tcp/retransmission_queue.hpp:98-149 | fails if and only if a due entry has used up its retransmissions; otherwise returns exactly the due entries in order, re-stamped and counted, then the probe on its exponential timer, and changes no other entry |
| RetransmissionQueues.UnackedSuffix | lib/include/tcp/retransmission_queue.hpp:58-64 | in an ordered queue, exactly the entries that end by the acknowledgment are dropped, and they are a prefix |
| RetransmissionQueues.AcknowledgeKeeps | lib/include/tcp/retransmission_queue.hpp:49-71 | no position at or above the acknowledgment is forgotten |
| RetransmissionQueues.SweepKeeps | lib/include/tcp/retransmission_queue.hpp:98-149 | a sweep neither adds, drops nor alters a packet |
| RetransmissionQueues.DueIsPending | lib/include/tcp/retransmission_queue.hpp:114-132 | whatever is retransmitted is an expired entry of the queue |
| RetransmissionQueues.DueComplete | lib/include/tcp/retransmission_queue.hpp:114-132 | every entry whose timer ran out inside the window is retransmitted, with this sending counted |
| RetransmissionQueues.DueOrdered | lib/include/tcp/retransmission_queue.hpp:114-132 | what is retransmitted is in sequence order without overlaps, so each entry once |
| RetransmissionQueues.CounterCounts | lib/include/tcp/retransmission_queue.hpp:114-132 | in every run of acknowledgments, new packets and sweeps: the counter of an entry that survives has gone up by exactly the number of sweeps at which it was due |
| RetransmissionQueues.SixthTimeGivesUp | lib/include/tcp/retransmission_queue.hpp:121-126 | after any such run a sweep at which the entry is due gives up if and only if it was due five times before |
| RetransmissionQueues.AtMostFive | lib/include/tcp/retransmission_queue.hpp:121-126 | in a run in which no sweep gives up no entry is due more than five times |
| RetransmissionQueues.DueAgain | lib/include/tcp/retransmission_queue.hpp:114-132 | a retransmitted entry is due again if and only if more than a whole timeout has passed since then |
| RetransmissionQueues.ProbeBacksOff | lib/include/tcp/retransmission_queue.hpp:134-143 | a probe is due a timeout after it was sent, and after each retransmission only once twice the interval before it has passed; a reset starts over |
| SendBuffers.SendBuffer.WritePass | lib/include/tcp/buffers.hpp:183-196 | one pass of the chunk loop stores a prefix after NBW and nothing over unacknowledged bytes |
| SendBuffers.SendBuffer.OnAck | lib/include/tcp/buffers.hpp:216-292 | only an acknowledgment in (una, nxt] moves una and trims the queue; window and probe state follow any acknowledgment that is not old |
| SendBuffers.SendBuffer.SendReadyData | lib/include/tcp/buffers.hpp:297-322 | hands out the next sendable bytes, moves nxt and shrinks the window by them |
| SendBuffers.SendBuffer.ZwpEndCountdown | lib/include/tcp/buffers.hpp:382-405 | the countdown ends with a one-byte probe at nxt, queued under the same lock, exactly if the window is still shut and a byte is unsent |
| SendBuffers.WrappedWindowStalls | lib/include/tcp/buffers.hpp:330-331 | the 32-bit bound is the right window edge if and only if una + wnd does not wrap; when it wraps, nothing that awaits acknowledgment is retransmitted |
| SendBuffers.FlowControl | lib/include/tcp/buffers.hpp:215-322 | in every run of writes, sends, acknowledgments and probes: una <= nxt <= nbw <= una + N, the window never underflows, and nxt passes the furthest right edge ever offered by at most one outstanding probe byte (section 3.8.6.1 of RFC 9293) |
| SendBuffers.FlowControlStep | lib/include/tcp/buffers.hpp:362-405 | every single step keeps that, and no pointer moves back |
| SendBuffers.WriteProgress | lib/include/tcp/buffers.hpp:183-196 | a pass makes progress if and only if at least two slots are free |
| SendBuffers.SendableAfterAck | lib/include/tcp/buffers.hpp:234-274 | after an acknowledgment in [una, nxt] exactly the unsent bytes left of the edge it offers may be sent; an older one changes nothing, and one beyond nxt moves no pointer |
| SendBuffers.AckedQueue | lib/include/tcp/buffers.hpp:269-292 | an acceptable acknowledgment leaves in the queue exactly the packets it does not cover entirely |
| SendBuffers.ZeroWindowRecovers | lib/include/tcp/buffers.hpp:362-405 | with the window shut the next byte goes out as a probe, and the acknowledgment of the probe ends probing and lets the sender use whatever window it offers |
| SendBuffers.NoNeedToProbe | lib/include/tcp/buffers.hpp:382-399 | with the window open again, or nothing unsent, no probe is sent and nothing else changes |
| SendBuffers.ProbeUnanswered | lib/include/tcp/buffers.hpp:250-264 | an acknowledgment that does not cover the probe leaves it pending, and resets its back-off if and only if it opens the window |
| SendBuffers.WindowCountedTwice | lib/include/tcp/buffers.hpp:314 | sending n bytes takes 2n off what may be sent, until the next acknowledgment |
| SendBuffers.SynEligible | lib/include/tcp/sockets.hpp:385-396 | an expired SYN passes the retransmission filter if and only if its number plus the window does not wrap |
| Sender.PendingOnce | lib/include/tcp/retransmission_queue.hpp:49-95 | each data byte in flight is in exactly one pending entry, regular or probe, with its stream byte |
| Sender.WriteKeeps | lib/include/tcp/buffers.hpp:172-202 | writing keeps the ring equal to the stream over [una, nbw) and the queue complete |
| Sender.TransmitKeeps | lib/include/tcp/sockets.hpp:367-383 | a turn of the sender loop sends the stream's next bytes and keeps the invariant |
| Sender.CountdownKeeps | lib/include/tcp/sockets.hpp:341-365 | a probe carries the stream's next byte and becomes the one probe entry |
| Sender.AckKeeps | lib/include/tcp/buffers.hpp:216-292 | an acknowledgment up to nxt moves una to it and forgets nothing above it |
| Sender.SweepKeepsInv | lib/include/tcp/sockets.hpp:385-396 | the retransmission thread keeps the invariant |
| Sender.FinKeepsExactly | lib/include/tcp/sockets.hpp:284-293 | after a FIN every data byte in flight is in a pending packet if and only if nothing was unsent, and then the whole sender invariant holds, be the buffer full or not |
| HastyFin.HastyFinLoses | lib/include/tcp/buffers.hpp:335-336 | from any state of a run, a FIN sent with a byte unsent takes that byte's number: the byte is in no pending packet, and in every continuation no packet ever carries it |
| HastyFin.HastyFinRun | lib/include/tcp/sockets.hpp:284-303 | such a state is one write away from the start, for any two bytes |
| ByteStream.StepKeeps | lib/include/tcp/sockets.hpp:320-383 | every step of sender, network and receiver keeps the invariant of the whole flow |
| ByteStream.ReliableStream | lib/include/tcp/buffers.hpp:578-598 | end to end: in every run with faithful deliveries, the bytes returned by all reads are a prefix of the bytes accepted by all writes |
| ByteStream.NothingForgotten | lib/include/tcp/buffers.hpp:216-292 | in every such run una <= RCV.NXT <= nxt, so acknowledged means received, and each data byte in flight is in exactly one pending entry, regular or probe, as its stream byte |
| ByteStream.QueueAssertions | lib/include/tcp/retransmission_queue.hpp:73-95 | the assertions of the ring, of enqueue and of enqueueZwp hold in every such run |
| Delivery.EveryStreamArrives | lib/include/tcp/buffers.hpp:172-405 | for every stream, and any two buffers of more than one byte, there is a faithful run that writes, sends, acknowledges and reads all of it, through probes where the window is shut; so the streams above are not empty for want of a run |
| Delivery.ByteArrives | lib/include/tcp/buffers.hpp:297-405 | from any flow in which everything written was read, one more byte can be written, sent through an open window or as a probe, read and acknowledged |
| ByteStream.ReadAfterFin | lib/include/tcp/buffers.hpp:638-643 | after the FIN is consumed, a read stays within the stream if and only if it asks for no more than the bytes left |
| Straddle.StreamBreaks | lib/include/tcp/buffers.hpp:687 | a concrete run without faithful deliveries after which the bytes read are not a prefix of those written |
| Straddle.Duplicate | lib/include/tcp/buffers.hpp:679-690 | the step of that run that moves RCV.NXT backwards |
| Sockets.NormalSocket.HandlePacket | lib/src/tcp/tcp_stack.cpp:10-342 | dispatch on state and flags, with both buffers changed in place, is the transition relation on values |
| Sockets.StateMoves | lib/src/tcp/tcp_stack.cpp:10-342 | which packet moves which state where, for all states and flags, in terms of the pointers before the packet: FIN_WAIT_1 is left for FIN_WAIT_2 exactly on a bare in-order acknowledgment of everything, FIN_WAIT_2 for TIME_WAIT exactly on a FIN at RCV.NXT or one below |
| Sockets.Answers | lib/src/tcp/tcp_stack.cpp:10-342 | which packets are answered, and that an answer carries SND.NXT, RCV.NXT after the packet, and no payload |
| Sockets.AnswerOffers | lib/src/tcp/tcp_stack.cpp:10-342 | an answer offers the free space after the packet, exactly but for data that completes early segments, and never more than was free before |
| Sockets.TakesAcks | lib/src/tcp/tcp_stack.cpp:10-342 | in which states an acknowledgment moves SND.UNA, and to where; in every other case it stays |
| Sockets.TakesData | lib/src/tcp/tcp_stack.cpp:87-102 | a payload is stored, position by position, in ESTABLISHED, FIN_WAIT_1, FIN_WAIT_2 and CLOSE_WAIT, and in no other state |
| Sockets.NormalSocket.HandleSynAck | lib/src/tcp/tcp_stack.cpp:10-43 | SYN_SENT: only a SYN-ACK that acknowledges everything sets the receive pointers and is answered |
| Sockets.NormalSocket.HandleLastHandshakeAck | lib/src/tcp/tcp_stack.cpp:46-84 | SYN_RECEIVED to ESTABLISHED exactly on an in-order acknowledgment of everything sent |
| Sockets.NormalSocket.HandlePassiveFin | lib/src/tcp/tcp_stack.cpp:126-178 | ESTABLISHED to CLOSE_WAIT on a FIN the acknowledgment passes; readers are stopped |
| Sockets.NormalSocket.HandleFinAcknowledged | lib/src/tcp/tcp_stack.cpp:221-261 | FIN_WAIT_1: data is taken, and only a bare in-order acknowledgment of everything leads to FIN_WAIT_2 |
| Sockets.NormalSocket.HandleFinPacket | lib/src/tcp/tcp_stack.cpp:200-215 | a FIN is consumed in order and always answered with RCV.NXT and the exact window |
| Sockets.FinOffers | lib/include/tcp/sockets.hpp:284-293 | a FIN offers the free space |
| Sockets.NormalSocket.CloseWithFin | lib/include/tcp/sockets.hpp:284-313 | vClose queues a FIN with the next number and goes to FIN_WAIT_1 or LAST_ACK |
| Sockets.NormalSocket.Recv | lib/include/tcp/sockets.hpp:176-191 | vRecv by state: how many bytes are returned and released, or which error and no change |
| Sockets.UnreadIsLost | lib/src/tcp/tcp_stack.cpp:126-151 | a FIN at or one below RCV.NXT leads to CLOSE_WAIT, after which no read of any buffered byte succeeds |
| Sockets.CloseKeepsReading | lib/include/tcp/sockets.hpp:176-191 | an end that has closed reads what it could read before, through FIN_WAIT_1 and FIN_WAIT_2 |
| Sockets.FinAndReading | lib/include/tcp/sockets.hpp:176-191 | the peer's FIN ends reading in ESTABLISHED, and does not in FIN_WAIT_2 |
| Connection.ConnStepKeeps | lib/src/tcp/tcp_stack.cpp:87-342 | every step at either end, with faithful deliveries and closes with nothing unsent, keeps both flows, the packets on the wire and the two states consistent |
| Connection.PacketKeeps | lib/src/tcp/tcp_stack.cpp:87-342 | in particular every faithful delivery of any packet ever sent, in any state |
| Connection.DuplexStreams | lib/src/tcp/tcp_stack.cpp:87-102 | in every run of a connection with faithful deliveries, both directions are reliable byte streams |
| Connection.FinWait2MeansReceived | lib/src/tcp/tcp_stack.cpp:221-284 | in every such run: FIN_WAIT_2 or TIME_WAIT means that the peer has consumed every byte written here and the FIN, and has acknowledged them (section 3.6 of RFC 9293) |
| Connection.CloseWaitMeansConsumed | lib/src/tcp/tcp_stack.cpp:126-151 | in every such run: CLOSE_WAIT means that the peer's FIN was consumed in order after all its data, the peer is the active closer, and no FIN was sent here |
| Connection.ClosedMeansTimeWait | lib/src/tcp/tcp_stack.cpp:325-342 | in every such run: an end that went from LAST_ACK to CLOSED has a peer in TIME_WAIT that consumed its FIN and all its data |
| GracefulClose.CanClose | lib/src/tcp/tcp_stack.cpp:126-342 | any reachable connection with nothing in flight is closed by six events: FIN, acknowledgment and FIN, acknowledgment take one end through FIN_WAIT_1 and FIN_WAIT_2 to TIME_WAIT and the other through CLOSE_WAIT and LAST_ACK to CLOSED, each with everything acknowledged |
| GracefulClose.FreshCanClose | lib/src/tcp/tcp_stack.cpp:126-342 | so there is such a run from every initial state of a connection |
| Handshake.HandshakeAgreement | lib/src/tcp/tcp_stack.cpp:10-84 | whatever packets are lost, duplicated, reordered or left over from earlier connections, data segments included, reach an end before it is established: once the server is ESTABLISHED both ends agree on both initial sequence numbers and both SYNs are acknowledged (section 3.5 of RFC 9293), if no harmful second SYN-ACK reaches a sleeping client |
| Handshake.SanityChecks | lib/include/tcp/tcp_stack.hpp:351-353 | the buffer sanity checks asserted at both transitions to ESTABLISHED hold |
| Handshake.HandshakeStartsStreams | lib/include/tcp/tcp_stack.hpp:313-359 | a finished handshake is an initial state of the byte stream in both directions, with any acknowledgments around that are not ahead of it |
| Handshake.SecondSynAck | lib/src/tcp/tcp_stack.cpp:10-43 | a second SYN-ACK taken while connect is asleep is harmless if and only if the invariant of all runs survives it, and if and only if the ends agree afterwards and after whichever packet the server takes next; harmless means: it repeats the number taken, or the server is gone, or the server is in SYN_RECEIVED and no packet on the wire can complete its handshake |
| Handshake.RaceBreaksAgreement | lib/src/tcp/tcp_stack.cpp:33-42 | with one stale SYN-ACK around, a run completes the handshake and then loses the agreement |
| Handshake.ActiveOpen | lib/include/tcp/tcp_stack.hpp:315-340 | an active open starts with its SYN outstanding and nothing else |
| Handshake.HandshakeCompletes | lib/src/tcp/tcp_stack.cpp:10-84 | for any two initial sequence numbers a run of four events takes both ends to ESTABLISHED, in agreement |
| Lifecycle.ConnectionStarts | lib/include/tcp/tcp_stack.hpp:313-359 | a finished handshake, with every packet it put on the wire still there, is an initial state of the connection |
| Lifecycle.OpenedStreams | lib/src/tcp/tcp_stack.cpp:10-102 | from the first SYN on: with one incarnation of each end and no older packets the ends agree without further condition, and every run of the connection that follows, with faithful deliveries, is a reliable byte stream in both directions |
| Lifecycle.EarlyData | lib/src/tcp/tcp_stack.cpp:46-84 | a client that is established may write and send before the server is: whichever of its packets completes the server's handshake, its payload dropped, the server becomes the other end of the connection the client is already in, and the streams stay reliable |
| SocketTables.Bookkeeping | lib/include/tcp/tcp_stack.hpp:225-263 | in every run of open, accept, close, abort and reap: free and live IDs partition 1..128, the session and port maps are bijections with the live sockets, pending lists hold at most 64, and a socket is in SYN_RECEIVED if and only if it is pending, at one place of one list |
| SocketTables.StackStepKeeps | lib/include/tcp/tcp_stack.hpp:361-445 | every step keeps that |
| SocketTables.LastAckKeeps | lib/src/tcp/tcp_stack.cpp:78-83 | leaving SYN_RECEIVED for the accept queue keeps the lists exact |
| SocketTables.ListenClosedKeeps | lib/include/tcp/sockets.hpp:66-80 | closing a listener closes all it had pending and leaves no socket in SYN_RECEIVED without a list |
| SocketTables.ReapedKeeps | lib/include/tcp/tcp_stack.hpp:225-256 | what the reaper takes is on no pending list and owns none |
| SocketTables.PendingOnce | lib/src/tcp/sockets.cpp:47-66 | SYN_RECEIVED if and only if at exactly one place of exactly one pending list |
| SocketTables.AcceptQueueDangles | lib/include/tcp/sockets.hpp:113-124 | abort and reap of a queued socket leave its reference in the queue of an open listener |
| SocketTables.DanglingRun | lib/include/tcp/tcp_stack.hpp:225-256 | listen, SYN, last acknowledgment, abort, reap: a run of a fresh stack that leaves a dead reference |
| SocketTables.QueuesStep | lib/src/tcp/sockets.cpp:82-100 | with live references in all accept queues, any of the ten events leaves a dead one if and only if it is a reaping that takes a socket queued at an open listener |
| SocketTables.AcceptQueuesIntact | lib/include/tcp/tcp_stack.hpp:234-255 | a run has live references in all accept queues in all its states if and only if none of its reapings takes a queued socket |
| SocketLife.ListenerCloses | lib/src/tcp/sockets.cpp:35-80 | closing a listener takes its pending sockets to FIN_WAIT_1, its queued ones to where their own close would, and changes no other socket |
| SocketLife.OthersKeepTheirs | lib/src/tcp/sockets.cpp:35-80 | it leaves the listener closed and empty, and every other listener its queue and all its pending sockets but those queued here |
| SocketLife.ReaperTakes | lib/include/tcp/tcp_stack.hpp:225-256 | a socket is reaped if and only if it is CLOSED, in TIME_WAIT and expired, or a closed listener; exactly then its ID, session or port is free, and every other socket is unchanged |
| SocketLife.PortIsFreed | lib/include/tcp/tcp_stack.hpp:376-403 | the port of a closed listener stays taken until the reaper has come, and can be listened on then |
| SocketLife.SessionIsFreed | lib/include/tcp/tcp_stack.hpp:406-445 | so does the session of an aborted connection |
| SocketLife.SynBecomesPending | lib/include/tcp/tcp_stack.hpp:274-311 | a SYN gets a socket of its own, last on the pending list if fewer than 64 are there, else closed and left behind; without a free ID nothing changes |
| SocketLife.AcceptedInOrder | lib/src/tcp/sockets.cpp:82-100 | in every run that does not close a listener: the sockets it returned to its callers, followed by its queue, are the queue it had followed by those that finished a handshake, in that order |
| TcpStacks.TcpStack.Listen | lib/include/tcp/tcp_stack.hpp:376-403 | a listener with the smallest free ID, or the error for a taken port before the one for no free ID |
| TcpStacks.TcpStack.CreateNormalSocket | lib/include/tcp/tcp_stack.hpp:406-445 | the same for a session |
| TcpStacks.TcpStack.NextSocketId | lib/include/tcp/tcp_stack.hpp:361-368 | the smallest free ID is taken |
| TcpStacks.TcpStack.Connect | lib/include/tcp/tcp_stack.hpp:315-340 | succeeds if and only if the session is new and an ID is free; the new socket is in SYN_SENT |
| TcpStacks.TcpStack.CreatePassiveConnection | lib/include/tcp/tcp_stack.hpp:274-311 | a SYN gets a pending socket in SYN_RECEIVED if an ID and a place are free; with the list full the new socket stays behind, closed |
| TcpStacks.TcpStack.AddPending | lib/src/tcp/sockets.cpp:49-55 | appends below the limit of 64 |
| TcpStacks.TcpStack.RemovePending | lib/src/tcp/sockets.cpp:57-66 | erases the first entry for the session and returns its socket, if there is one |
| TcpStacks.TcpStack.Establish | lib/src/tcp/tcp_stack.cpp:78-83 | the socket moves from pending list to accept queue, and the asserted lookup finds that very socket |
| TcpStacks.TcpStack.Accept | lib/src/tcp/sockets.cpp:91-100 | takes the oldest socket off the queue |
| TcpStacks.TcpStack.CloseNormal | lib/include/tcp/sockets.hpp:193-216 | new state and result of vClose in every state; a pending socket leaves its list |
| TcpStacks.CloseSucceeds | lib/include/tcp/sockets.hpp:193-216 | vClose succeeds if and only if it moves the socket; it reports CONN_NOT_EXIST for CLOSED alone, and never succeeds twice |
| TcpStacks.TcpStack.CloseListener | lib/include/tcp/sockets.hpp:66-80 | pending sockets are closed in order, then the queued ones, then the listener; the second time it reports CONN_NOT_EXIST |
| TcpStacks.TcpStack.CloseAll | lib/src/tcp/sockets.cpp:35-47 | the loop closes a list as the recursive specification does |
| TcpStacks.TcpStack.Close | lib/include/tcp/tcp_stack.hpp:139-145 | vClose by ID, with the table invariant kept |
| TcpStacks.TcpStack.Abort | lib/include/tcp/sockets.hpp:218-236 | vAbort by ID: closed at once and off the pending list |
| TcpStacks.TcpStack.AbortNormal | lib/include/tcp/sockets.hpp:218-236 | new state and result of vAbort in every state; a pending socket leaves its list |
| TcpStacks.TcpStack.PurgeClosed | lib/include/tcp/tcp_stack.hpp:233-255 | the walk that erases by session and port removes exactly the reapable sockets from table and maps and frees their IDs |
| TcpStacks.PurgeOne | lib/include/tcp/tcp_stack.hpp:236-250 | erasing by key is erasing by socket, as the maps are bijections |
| RoutingTables.RoutingTable.HandleRipEntries | lib/src/ip/routing_table.cpp:197-251 | learns as the specification does and returns the triggered update |
| RoutingTables.RoutingTable.HandleRipEntry | lib/src/ip/routing_table.cpp:206-247 | what one entry does to the table, and whether it counts as an update |
| RoutingTables.HandledAllKeeps | lib/src/ip/routing_table.cpp:197-251 | a message keeps one route per prefix, loses no prefix and never alters a local route |
| RoutingTables.HandledLookup | lib/src/ip/routing_table.cpp:197-251 | an entry acts on its own prefix only |
| RoutingTables.ReportedIffChanged | lib/src/ip/routing_table.cpp:197-251 | a prefix is reported if and only if its metric changed at some point in the message |
| RoutingTables.GatewayRefreshes | lib/src/ip/routing_table.cpp:216-231 | whatever a route's own gateway says becomes its metric, and stamps it with the time |
| RoutingTables.OthersOnlyImprove | lib/src/ip/routing_table.cpp:206-247 | any other neighbor replaces a route if and only if it is strictly better, and does not refresh it otherwise |
| RoutingTables.KeptAlive | lib/include/ip/routing_table.hpp:123-156 | a route of which its gateway has just spoken goes at a later expiry if and only if it was called unreachable or the expiration time has passed; a local one never goes |
| RoutingTables.RoutingTable.RemoveStaleRipEntries | lib/include/ip/routing_table.hpp:123-156 | terminates, leaves as a multiset exactly the local and the fresh unpoisoned routes, returns exactly the timed-out unpoisoned ones at cost 16 |
| RoutingTables.SweptKeeps | lib/include/ip/routing_table.hpp:130-153 | the swap-with-last loop removes and reports what the order-preserving filters do |
| RoutingTables.FreshMembers | lib/include/ip/routing_table.hpp:130-153 | expiry leaves exactly the local routes, and the learned ones that are reachable and not too old |
| RoutingTables.TimedOutMembers | lib/include/ip/routing_table.hpp:130-153 | it reports at cost 16 exactly the learned routes that were reachable and are too old |
| RoutingTables.RoutingTable.FindEntry | lib/src/ip/routing_table.cpp:75-83 | the first route with the masked address |
| RoutingTables.RoutingTable.GenerateRipEntries | lib/src/ip/routing_table.cpp:178-194 | every route, each with the gateway it was learned from |
| RoutingTables.RoutingTable.QueryLongestPrefixMatch | lib/src/ip/routing_table.cpp:54-65 | nothing if and only if nothing matches, else the first of the matches with the greatest mask |
| RoutingTables.BestIsLongestPrefix | lib/src/ip/routing_table.cpp:54-65 | on masks from prefix lengths that is the earliest match of greatest prefix length |
| Subnets.SubnetMaskLength | lib/include/ip/util.hpp:31-36 | the least number of shifts that empties the mask |
| Subnets.MaskLength | lib/include/ip/util.hpp:31-36 | on a mask from a prefix length that count is the prefix length |
| Subnets.MaskOrder | lib/src/ip/util.cpp:35 | masks compare numerically as their prefix lengths do |
| RipMessages.SendAndParse | lib/src/router_node.cpp:207-239 | wire round trip: the neighbor parses the same command, addresses and masks in order, each cost one higher and capped at 16, or 16 where the route was learned from it |
| RipMessages.Serialize | lib/src/router_node.cpp:207-232 | the exact bytes of the message, poisoned for the destination |
| RipMessages.Parse | lib/src/ip/rip_message.cpp:30-64 | each entry is read at its own offset, with the cost raised in 32 bits and capped |
| RipMessages.EntryRoundTrip | lib/src/ip/rip_message.cpp:48-54 | one entry's bytes parse to the entry as the neighbor should hear it |
| RipMessages.EntryLayout | lib/src/router_node.cpp:207-232 | an entry is its cost (16 towards the neighbor it was learned from), its address and its mask, each 32 bits in network order |
| RipMessages.ParsedLayout | lib/src/ip/rip_message.cpp:48-54 | the parser reads those three numbers in that order, at 12 bytes an entry behind the header, and raises and caps the cost |
| RipMessages.HeaderLayout | lib/src/router_node.cpp:207-232 | the header is 1 for a request or 2 for a response and the number of entries, 16 bits each in network order |
| RipMessages.HeardCost | lib/src/ip/rip_message.cpp:48-54 | costs up to 16 arrive between 1 and 16, raised by one or poisoned |
| RipMessages.CostWraps | lib/src/ip/rip_message.cpp:49-51 | a 32-bit cost is heard raised by one and capped if and only if it is not 2^32 - 1, and heard as 0 if and only if it is |
| RipNetwork.RipSound | lib/src/router_node.cpp:126-205 | in every asynchronous run with loss, duplication, reordering, expiry and triggered updates: metrics are at most 16, and a smaller one is the length of a walk to a router with a local route, so none beats the true distance |
| RipNetwork.NetStepSound | lib/src/router_node.cpp:160-205 | every step keeps tables and messages sound |
| RipRuns.RoundIsARun | lib/src/router_node.cpp:126-205 | whatever is on the wire, a synchronous round is a run of the asynchronous network: every router broadcasts, then every router handles its inbox |
| RipRuns.CanConverge | lib/src/router_node.cpp:126-205 | from local routes there is a run of the asynchronous network after which every router has metric d for a prefix if and only if it is at distance d, for every d below 16 |
| RipRuns.ChangeIsPassedOn | lib/src/router_node.cpp:180-190 | a delivery that changes the metric of a prefix puts news of it on the wire to every neighbor, at infinite cost to the one that brought it |
| RipRuns.ExpiryRemoves | lib/include/ip/routing_table.hpp:123-156 | an expiry takes from its router exactly the learned routes that are unreachable or too old, and nothing from any other |
| RipRuns.InterfaceHeard | lib/src/ip/routing_table.cpp:133-175 | when an interface changes every neighbor is told of its subnet, at cost 1 or 16 |
| RipNetwork.FullUpdateLookup | lib/src/ip/routing_table.cpp:197-251 | a full update acts on each prefix through the one entry it holds for it |
| RipConvergence.RipConverges | lib/src/ip/routing_table.cpp:197-251 | after k rounds of full exchange with poisoned reverse, a router has metric d for a prefix if and only if it is at hop distance d, for all d up to min(k, 15), through a gateway one hop closer, and has no other route for it (section 3.4.3 of RFC 2453) |
| RipConvergence.RoundSettles | lib/src/router_node.cpp:198-232 | a round settles one more hop and changes no settled route but for its time stamp, whatever the order of the updates |
| RipConvergence.UpdateKeeps | lib/src/ip/routing_table.cpp:197-251 | within a round each single update keeps what is known |
| RipConvergence.NotPoisoned | lib/src/router_node.cpp:223-225 | poisoned reverse hides a route only from the router one hop closer |
| RipQuiescence.RoundRefreshes | lib/src/ip/routing_table.cpp:216-231 | a round stamps every learned route that is right with its own time and changes nothing else of it, whatever the order of the updates |
| RipQuiescence.SettledIsQuiet | lib/src/ip/routing_table.cpp:197-251 | once every distance below 16 is settled, the next round triggers no update and leaves no learned route with an old time stamp |
| RipQuiescence.ConvergedIsQuiet | lib/src/ip/routing_table.cpp:197-251 | from local routes, every round after the fifteenth is quiet |
| RipQuiescence.ConvergedLeadsHome | lib/src/ip/routing_table.cpp:197-251 | from then on following gateways from a router at distance d below 16 leads to a local route in exactly d hops |
| Forwarding.QuietRoutesLeadHome | lib/src/ip/routing_table.cpp:197-251 | when a round refreshes every RIP route and reports nothing, following gateways from metric m < 16 reaches a local route in exactly m hops, each metric one less |
| Forwarding.QuietHop | lib/src/ip/routing_table.cpp:197-251 | the gateway of a route of metric m has metric m - 1 |
| Forwarding.ForwardedHome | lib/src/router_node.cpp:95-124 | on such a route a datagram is delivered, at the home router itself if the address is its own and over one more link if not, exactly when its TTL covers the links; else it expires |
| Forwarding.OriginatedArrives | lib/src/network_node.cpp:209-271 | every datagram a router originates with TTL 16 for a reachable prefix arrives |
| Forwarding.HopOfRoute | lib/src/network_node.cpp:246-271 | the two-step lookup yields the gateway of the route |
| Checksums.InetChecksum | lib/include/tcp/util.hpp:21-37 | for every buffer up to 131074 bytes, odd lengths included, the deferred-carry loop fits 32 bits and gives the complement of the one's complement sum (section 2 of RFC 1071) |
| Checksums.FoldComplement | lib/include/tcp/util.hpp:33-36 | two folds are enough for every 32-bit sum |
| Checksums.ByteOrderIndependent | lib/include/tcp/util.hpp:27-31 | summing little-endian words gives the byte swap of the big-endian sum |
| Checksums.OneWordChange | lib/include/tcp/util.hpp:21-37 | changing one aligned word goes unnoticed if and only if 0 and 65535 are exchanged beside something non-zero |
| Checksums.TcpChecksum | lib/include/tcp/util.hpp:51-90 | the filled buffer is pseudo header, header with a cleared checksum field, and payload, and its checksum is returned |
| Checksums.PseudoHeaderLayout | lib/include/tcp/util.hpp:51-90 | source, destination, 0, 6, and a length that is right if and only if the payload has at most 65515 bytes |
| Checksums.ChecksumCompletes | lib/include/tcp/util.hpp:51-90 | a segment sums to all ones if and only if its field holds that checksum, or all ones where it is 0 (section 3.1 of RFC 9293) |
| Checksums.Ipv4Checksum | lib/src/ip/util.cpp:67-92 | with options or without, the header checksum completes the sum of all other words to all ones |

## Left out

- Sequence number wrap-around is not implemented by the stack; positions stay below 2^32 - 2 wherever a method forms them. The step systems use unbounded positions.
- Intervals.RightOpenIntervalSet.EmplaceMerge: requires ends below 2^32 - 2, because the code forms end + 2; the ordered set is a sorted sequence, and its logarithmic searches are linear ones with the same result.
- Intervals.RightOpenIntervalSet.MergeRemove: requires the same.
- RecvBuffers.RecvBuffer.OnCtrl: requires RCV.NXT + 1 below 2^32.
- Sockets.NormalSocket.HandlePacket: requires the same of every number the handlers form.
- RecvBuffers.RecvBuffer.OnRecv: requires that no number formed from the segment, the window or the early set reaches 2^32 - 2, because the code compares plainly.
- ByteStream.ReliableStream: requires faithful deliveries, because without them it is false (`Straddle.StreamBreaks`); a read after the FIN stays below the FIN's number, because a larger one returns a byte that does not exist.
- ByteStream.NothingForgotten: is about data bytes, because SYN and FIN entries have length 0 and an acknowledgment of the FIN's own number drops it.
- Connection.ConnStepKeeps: requires faithful deliveries and closes with nothing unsent, because without them the results of `Connection` are false (`Straddle.StreamBreaks`, `HastyFin.HastyFinLoses`); a read after the FIN stays below the FIN's number. So do the results on runs.
- Sender.FinKeeps: requires that nothing is unsent, which `Sender.FinKeepsExactly` shows to be needed; `sendFin_` does not check it.
- Handshake.HandshakeAgreement: requires that a sleeping client takes no harmful second SYN-ACK, which `Handshake.SecondSynAck` shows to be needed; a server does not choose an initial sequence number that a packet already on the wire would complete; what an established end does with data and FINs is not part of the handshake.
- Lifecycle.OpenedStreams: starts the connection when both ends are established, without packets of earlier connections; `Lifecycle.EarlyData` covers what the client sends before that.
- Connection.ClosedMeansTimeWait: is about one incarnation of each end, without aborts and before the peer is reaped; simultaneous close is not handled by the stack.
- SocketTables.AcceptQueueDangles: a reference is the socket's ID; the memory error behind a dangling C++ reference, and ID reuse under it, are not modelled further.
- SocketTables.Bookkeeping: the steps of `vConnect` and `createPassiveConnection_` between two lock acquisitions are one step; the races the source marks with TODO are not modelled, but for the one in `Handshake.RaceBreaksAgreement`.
- TcpStacks.TcpStack.Close: the table holds the bookkeeping part of a socket as a value; the buffers of a socket are in `Sockets.NormalSocket`, and aliasing between the two is not captured.
- SendBuffers.SendBuffer.WritePass: is one pass of the loop in `write`; the loop itself may wait or spin for ever.
- SendBuffers.FlowControl: says nothing about SYN and FIN steps, which ignore the window.
- Liveness of retransmission: `wnd_` also shrinks on sending and feeds the retransmission filter, so that a lost segment may stay unsent. Safety only.
- Sending under two locks, as in `sendReadyData` followed by `enqueue` and `onAck` followed by the queue's `onAck`, is one step; so is taking the own acknowledgment for an outgoing packet.
- RipNetwork.RipSound: the topology and the local routes are fixed; an interface that goes down announces its prefix as unreachable but changes no table, as in the code.
- RipRuns.RoundIsARun: a router with an empty table broadcasts an empty message, which the code does not send and which changes nothing where it arrives.
- Delivery.EveryStreamArrives: is about one run for each stream, not about every fair one; a buffer of one byte never takes any (`SendBuffers.WriteProgress`).
- RipConvergence.RipConverges: rounds are synchronous and complete; neighbors advertise to each other and addresses are unique.
- Forwarding.OriginatedArrives: the destination lies in one prefix only, a router's own address in a directly connected one, and gateways are directly connected; where the second lookup finds no local route, `NextHop` reports the destination unreachable, while the code would use the interface of whatever it found.
- RoutingTables.HandledAllKeeps: routes are told apart by masked address, as the code does, so distinct prefixes must have distinct masked addresses.
- RoutingTables.RoutingTable.HandleRipEntries: static routes (on hosts) are not in the table.
- RipMessages.Parse: requires a payload as long as the number of entries it announces, because the code reads past a shorter one.
- Subnets.MaskOrder: the textual part of `parseCidr` is left out; the mask is a function of the prefix length.
- Round-trip-time smoothing, random numbers, clocks, thread pools, condition variables and destructors are parameters, guards or absent.
- Event dispatch by address and port, and packet parsing but for its checksum, are left out: they would only add easy members.
- UDP interfaces, lnx files, the command-line applications, file transfer and listings are not part of this model.
