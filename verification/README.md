# A TCP/IP stack over UDP links, in Dafny

This project models two parts of the stack and proves what they promise for every run.

**TCP** (`pkg/tcp`). Two TCBs, an active opener and a listener, exchange segments over a network
that loses, repeats, delays and reorders them but does not corrupt them. Every step is one
lock-held section of the handlers: a round of Write or Read, Send deciding how much to send, one
segment emitted, a tick of the zero-window probe, a timer, Close, a segment being handled. The
state keeps every segment either side has ever sent; a step may deliver any of them at any time,
so a run is just a sequence of steps. `HalfConnection.Half` is the invariant of one direction,
`Connection.Pair` of both, `Runs.Inv` of a connection from its first SYN.

**RIP and forwarding** (`pkg/ip`). Hosts joined by links exchange routing entries and forward
packets. Entries in flight on a link are a first-in first-out queue; entries of different links
interleave freely and entries may be lost. `RipNetwork.Inv` is the invariant.

| file | holds |
|---|---|
| `Ring.dfy` | the circular buffer, its in-place copies, and its meaning as an unbounded array |
| `Tcb.dfy` | the TCB as a value, and each handler as a function on it |
| `EarlyQueue.dfy`, `Endpoint.dfy` | the queue and the TCB as objects, with the loops and in-place updates of the code, proved to do what the functions of `Tcb.dfy` do |
| `HalfConnection.dfy`, `Connection.dfy`, `Runs.dfy` | the two-party state machine and its invariant |
| `Session.dfy` | two of these objects, the network and the applications: the objects go through runs of the state machine, so what holds of runs holds of them |
| `Guarantees.dfy`, `Lifecycle.dfy` | what holds in every run |
| `StepEffects.dfy` | what each step must do, in every state of every run: which segment goes out, which pointers move |
| `Recovery.dfy` | that loss can always be repaired, and exactly when it no longer can |
| `Coalescing.dfy`, `EarlyHistory.dfy`, `EarlyArrivals.dfy` | the early-arrival queue: as a value, in every run, and in runs without repeated delivery |
| `CloseFailures.dfy` | what closing can do to the rest of a connection, and exactly when |
| `FailingRuns.dfy` | runs in which the code breaks a promise |
| `CongestionControl.dfy` | Tahoe |
| `Rip.dfy`, `RipNetwork.dfy` | the routing table and RIP handler, and a network of them |
| `RipGuarantees.dfy`, `RipRounds.dfy` | soundness, loop-freedom, convergence |
| `Forwarding.dfy` | time to live, termination, delivery |

## Premises

- Sequence numbers are natural numbers: the code compares them with plain `<`, so it assumes they
  do not wrap at 2^32.
- Steps are atomic, although the code releases the TCB lock while it copies or emits, and the
  RCV.NXT and RCV.WND of a header are one snapshot. Counting the probe byte as sent and stopping
  the probe are one step.
- The TCP runs are of sockets without congestion control (CWND stays 65535, so Send's guard and
  size depend on SND.WND alone). CWND itself is treated separately.
- Close is called at most once, not while a Write is in progress. A TCB that has timed out takes no
  further steps. There is one connection, opened from one side, with no segments of an older one.
- RIP: the topology does not change, no route times out, a link joins two different hosts and
  delivers in order, and an update fits into one packet.

## Where the code and the design part

- An active closer moves RCV.NXT past the peer's FIN, and Read trusts RCV.NXT: it can hand out one
  byte nobody wrote (`FailingRuns.ReadPastTheFin`). `Guarantees.ReadStaysInTheData` says exactly
  when a call of Read does: in CLOSING or TIME_WAIT, when it asks for all there seems to be.
  `Guarantees.BytesReadAreStreamExactly` says when what has been read is the peer's stream all the
  same, and `Guarantees.ReceiveWindowConserved` that this is also exactly when the advertised
  window is truncated to 16 bits.
- In FIN_WAIT_1 a FIN is accepted whatever its sequence number, and one that acknowledges less than
  all data leads to TIME_WAIT, where retransmission stops
  (`FailingRuns.TimeWaitWithDataMissing`). `Lifecycle.TimeWaitFromFinWait1Exactly` gives the exact
  condition, `Lifecycle.TimeWaitMeansAllReceived` says that every other way into TIME_WAIT is good,
  and `Lifecycle.FinCountedEarlyExactly` when the FIN is counted while data is missing.
- A FIN so counted with data missing makes the peer acknowledge a byte it never got, and the sender
  drops the segment it was in from the retransmission queue (`FailingRuns.AckOfMissingData`).
  `CloseFailures.AcksAreHonestExactly` says that this is exactly when a side acknowledges what it does
  not hold; otherwise acknowledgements fall between segments, and the queue tiles what is outstanding
  (`Guarantees.RetransmissionIsFaithful`).
- After Close the window a sender believes in can end one past the peer's buffer
  (`FailingRuns.WindowOneTooFar`; never more, `Guarantees.WindowIsSafe`), and can move back
  (`FailingRuns.WindowTakenBack`; exactly when, `Guarantees.WindowShrinksExactly`).
- A side that remembered an early FIN and then closed goes back to CLOSE_WAIT when the missing data
  arrives (`FailingRuns.ClosedAndStuck`; exactly when, `CloseFailures.GetsStuckExactly`), and only the
  retransmission timer ever ends that (`CloseFailures.StuckUntilTimeout`).
- What is queued when the peer's FIN arrives stays queued, so the timer gives up after at most six
  firings whatever the peer has acknowledged (`CloseFailures.TimerGivesUp`,
  `FailingRuns.GivesUpThoughAcknowledged`).
- In CLOSE_WAIT acknowledgements are ignored. Written bytes may never leave
  (`FailingRuns.WrittenBytesNeverLeave`). `Lifecycle.AllCanBeSentExactly` says exactly when all that
  has been written can still be sent: when it lies in the window the side had when the FIN arrived.
- A segment delivered twice while early is queued twice; the second entry is left behind and keeps
  RCV.NXT from being the first missing byte (`FailingRuns.RepeatedEarlySegment`).
  `EarlyHistory.ArrivalIsExact` says exactly when that happens, stale entries included, and
  `EarlyHistory.StaleHeadStays` that a stale entry stays for good. No data is corrupted by it
  (`Guarantees.BytesReceivedAreStream`).
- Receive's copying loop would never end for payload that does not fit
  (`EndpointModel.CopyLoopEndsExactlyIfItFits`). No run delivers such payload
  (`Guarantees.CallsAreReady`).
- A server in SYN_RECEIVED drops segments with payload, and an ESTABLISHED client does not answer a
  repeated SYN-ACK: if the last ACK of the handshake is lost, only another segment without payload,
  such as the client's FIN, opens the connection (`Lifecycle.ServerOpensExactly`,
  `Lifecycle.SynAckIsNotAnsweredTwice`).
- The retransmission counter starts again only when an acknowledgement takes something off the queue.
  After five firings in vain the first byte outstanding is never sent again, although new data still
  may be (`Recovery.NoRepairAfterFiveTries`). Until then everything can be repaired
  (`Recovery.LossIsAlwaysRepaired`), and `Recovery.RepairableExactly` is the if-and-only-if.
- A FIN that acknowledges our own FIN in FIN_WAIT_1 is not counted and not answered; nor is an early
  one in FIN_WAIT_2 (`StepEffects.FinIsAnswered`).

## Model

| member | source | states |
|---|---|---|
| Ring.StoreAt | pkg/tcp/tcp_handler_utils.go:86-88 | within one turn of the ring, storing at a sequence number mod 65535 is an update of an unbounded array: the written range has the new bytes, everything else is kept |
| Ring.LoadStore | pkg/tcp/tcp_handler_core.go:864-881 | what was stored at any position, wrapped or not, is what is loaded back |
| Ring.LoadFrame | pkg/tcp/tcp_handler_core.go:425-438 | a store outside a range and within one turn of it does not disturb the range |
| Ring.CopyAt | pkg/tcp/tcp_handler_core.go:880 | Go's copy into a slice from an offset: the source replaces exactly that part |
| Ring.RingBuffer.CopyIn | pkg/tcp/tcp_handler_core.go:864-881 | the one- or two-piece copy into the buffer is a store in the unbounded array |
| Ring.RingBuffer.CopyOut | pkg/tcp/tcp_timeout.go:219-232 | the one- or two-piece copy out of the buffer is a load from the unbounded array |
| Ring.RingBuffer.CopyToUser | pkg/tcp/tcp_handler_core.go:292-314 | Read's copy places the bytes from LBR on at the right place of the caller's slice, also for the one byte more than the buffer that a counted FIN makes it ask for |
| EarlyQueue.EarlyArrivalQueue.Push | pkg/tcp/tcp_early_arrivals.go:48-74 | the loop inserts before the first entry that starts at or after the new entry's end |
| EarlyQueue.EarlyArrivalQueue.Pop | pkg/tcp/tcp_early_arrivals.go:41-45 | takes the first entry off, keeping the order of the rest |
| EndpointModel.BurstCarriesThePlan | pkg/tcp/tcp_handler_core.go:652-714 | a burst carries, in order and in segments of at most 1360 bytes, exactly the bytes planned |
| EndpointModel.ReadAnswerExactly | pkg/tcp/tcp_handler_core.go:252-326 | end of file exactly in CLOSE_WAIT with nothing left or less than a full read; blocking exactly outside it with too little there; otherwise a count, which is the number of bytes handed over |
| EndpointModel.CopyLoopEndsExactlyIfItFits | pkg/tcp/tcp_handler_core.go:425-447 | Receive's copying loop ends if and only if the payload fits below LBR + 65535 |
| EndpointModel.SendHalf.Write | pkg/tcp/tcp_handler_core.go:832-891 | as much of the data as there is room for is appended to the stream and to the buffer, nothing else changes |
| EndpointModel.SendHalf.PlanBurst | pkg/tcp/tcp_handler_core.go:652-653 | the burst is what fits into both the window and the data |
| EndpointModel.SendHalf.EmitOne | pkg/tcp/tcp_handler_core.go:660-704 | one segment with the bytes at NXT, queued for retransmission, NXT advanced by its length |
| EndpointModel.SendHalf.StartProbe | pkg/tcp/tcp_handler_core.go:738-742 | probing begins without moving a pointer |
| EndpointModel.SendHalf.ProbeTick | pkg/tcp/tcp_handler_core.go:747-766 | the one byte at NXT, NXT unmoved |
| EndpointModel.SendHalf.StopProbe | pkg/tcp/tcp_handler_core.go:773-785 | once the window is open the probe byte counts as sent |
| EndpointModel.SendHalf.Retransmit | pkg/tcp/tcp_timeout.go:207-243 | the head of the queue goes out again with its payload rebuilt from the buffer |
| EndpointModel.SendHalf.RemoveFromRetransmissionQueue | pkg/tcp/tcp_timeout.go:33-50 | the loop drops the leading segments below the acknowledgement and resets the counter if it dropped any |
| EndpointModel.SendHalf.OnAcknowledgement | pkg/tcp/tcp_handler_core.go:516-546 | UNA, WND and the queue become what `TcbModel.OnAck` says; StepEffects.AcksAreTakenExactly says which acknowledgements are taken |
| EndpointModel.SendHalf.SendFin | pkg/tcp/tcp_close.go:29-70 | the FIN takes the number after the last byte and is queued |
| EndpointModel.ReceiveHalf.ReadAvailable | pkg/tcp/tcp_handler_core.go:258-323 | the loop copies out the smaller of what is asked for and what is there, and frees that space |
| EndpointModel.ReceiveHalf.Read | pkg/tcp/tcp_handler_core.go:252-326 | which bytes are handed over, and the answer, which EndpointModel.ReadAnswerExactly characterises |
| EndpointModel.ReceiveHalf.UpdateAckNum | pkg/tcp/tcp_early_arrivals.go:80-90 | the loop pops entries for as long as they continue the sequence |
| EndpointModel.ReceiveHalf.CopyPayload | pkg/tcp/tcp_handler_core.go:425-447 | payload that fits is stored whole; NXT and WND move only if it is in order |
| EndpointModel.ReceiveHalf.AcceptPayload | pkg/tcp/tcp_handler_core.go:399-460 | payload in the window advances NXT over everything contiguous or is queued as early |
| EndpointModel.Endpoint.Connect | pkg/tcp/tcp_handler_core.go:79-96 | the TCB of an active opener and its SYN |
| EndpointModel.Endpoint.Listen | pkg/tcp/tcp_handler_core.go:156-184 | a TCB that listens and has sent nothing |
| EndpointModel.Endpoint.Spawn | pkg/tcp/tcp_segment_receive.go:36-80 | the TCB a listener makes for a SYN and its SYN-ACK |
| EndpointModel.Endpoint.Write | pkg/tcp/tcp_handler_core.go:810-894 | refuses on a closed, timed-out or closing connection, otherwise writes what fits and says whether it would block |
| EndpointModel.Endpoint.Read | pkg/tcp/tcp_handler_core.go:225-326 | refuses on a closed or timed-out connection, otherwise reads |
| EndpointModel.Endpoint.Timeout | pkg/tcp/tcp_timeout.go:153-287 | does what `TcbModel.OnTimeout` says; StepEffects.TimerResends and HandshakeTimerResends say what goes out and when it gives up |
| EndpointModel.Endpoint.Close | pkg/tcp/tcp_close.go:23-70 | once all is sent, the FIN goes out and the state becomes FIN_WAIT_1 or LAST_ACK |
| EndpointModel.Endpoint.PlanSend | pkg/tcp/tcp_handler_core.go:625-653 | the step of the state machine; StepEffects.PlanIsToTheLimit says when and how much |
| EndpointModel.Endpoint.SendOne | pkg/tcp/tcp_handler_core.go:660-714 | one segment of the burst, handed to the IP layer |
| EndpointModel.Endpoint.StartProbe | pkg/tcp/tcp_handler_core.go:738-742 | the probe starts exactly with a closed window and unsent data |
| EndpointModel.Endpoint.SendProbe | pkg/tcp/tcp_handler_core.go:747-766 | the probe byte is handed to the IP layer |
| EndpointModel.Endpoint.StopProbe | pkg/tcp/tcp_handler_core.go:773-785 | the probe ends exactly with an open window |
| EndpointModel.Endpoint.TimeWaitOver | pkg/tcp/tcp_segment_receive.go:255-274 | TIME_WAIT ends in CLOSED |
| EndpointModel.Endpoint.ReceiveData | pkg/tcp/tcp_handler_core.go:355-491 | payload handling with its acknowledgement and the remembered FIN |
| EndpointModel.Endpoint.Receive | pkg/tcp/tcp_handler_core.go:341-555 | payload, then acknowledgement and window |
| EndpointModel.Endpoint.ReceiveFin | pkg/tcp/tcp_handler_core.go:558-603 | an in-order FIN closes, an early one is remembered |
| EndpointModel.Endpoint.HandleStateSynSent | pkg/tcp/tcp_segment_receive.go:84-136 | the active opener's answer to SYN-ACK or SYN |
| EndpointModel.Endpoint.HandleStateSynReceived | pkg/tcp/tcp_segment_receive.go:138-188 | the passive opener becomes ESTABLISHED, keeping UNA at ISS |
| EndpointModel.Endpoint.HandleFinWait1 | pkg/tcp/tcp_segment_receive.go:199-253 | FIN_WAIT_2, CLOSING or TIME_WAIT, with the FIN counted |
| EndpointModel.Endpoint.HandleFinWait2 | pkg/tcp/tcp_segment_receive.go:276-313 | an in-order FIN leads to TIME_WAIT |
| EndpointModel.Endpoint.HandleClosing | pkg/tcp/tcp_segment_receive.go:315-325 | TIME_WAIT on the acknowledgement of the FIN |
| EndpointModel.Endpoint.HandleLastAck | pkg/tcp/tcp_segment_receive.go:376-389 | CLOSED on the acknowledgement of the FIN |
| EndpointModel.Endpoint.AnswerFin | pkg/tcp/tcp_segment_receive.go:327-374 | a repeated FIN in TIME_WAIT or CLOSE_WAIT is acknowledged again |
| EndpointModel.Endpoint.ReceivePacket | pkg/tcp/tcp_handler.go:131-220 | dispatch by state does to the object what `TcbModel.OnSegment` does to its value |
| Session.Network.constructor | pkg/tcp/tcp_handler_core.go:79-96 | a connecting and a listening TCB are the first state of every run |
| Session.Network.Write | pkg/tcp/tcp_handler_core.go:810-894 | the first min(room, length) bytes of what the application writes are appended to the stream, room being UNA + 65535 - LBW; the objects stay on a run |
| Session.Network.Read | pkg/tcp/tcp_handler_core.go:225-326 | end to end, for the caller's slice: it holds exactly the next bytes the peer's application wrote, whatever the network has done, but in CLOSING and TIME_WAIT; the count returned is the number of them, and when the call ends the file or blocks is exact |
| Session.Network.Close | pkg/tcp/tcp_close.go:23-70 | done exactly if the side may send and SND.NXT is at LBW; the objects stay on a run |
| Session.Network.SendBurst | pkg/tcp/tcp_handler_core.go:625-715 | one round of Send's loop sends everything up to the end of the window or of the data, whichever comes first: the new segments carry exactly those bytes of the stream, in order, and SND.NXT is there; the objects stay on a run |
| Session.BurstReachesTheLimit | pkg/tcp/tcp_handler_core.go:625-715 | the same of the steps of the state machine |
| Session.Network.PlanSend | pkg/tcp/tcp_handler_core.go:625-653 | Send's decision keeps the objects on a run |
| Session.Network.SendOne | pkg/tcp/tcp_handler_core.go:660-714 | so does emitting a segment |
| Session.Network.StartProbe | pkg/tcp/tcp_handler_core.go:738-742 | so does starting the probe |
| Session.Network.SendProbe | pkg/tcp/tcp_handler_core.go:747-766 | so does a tick of the probe |
| Session.Network.StopProbe | pkg/tcp/tcp_handler_core.go:773-785 | so does ending the probe |
| Session.Network.TimeWaitOver | pkg/tcp/tcp_segment_receive.go:255-274 | so does the end of TIME_WAIT |
| Session.Network.Timeout | pkg/tcp/tcp_timeout.go:153-287 | the timer keeps the objects on a run |
| Session.Network.Deliver | pkg/tcp/tcp_handler.go:131-220 | delivering any segment ever sent, first or again, keeps the objects on a run, the listener's spawned TCB included |
| Session.AlwaysReady | pkg/tcp/tcp_handler_core.go:425-447 | in any state of any run the methods may be called |
| Session.OneStep | pkg/tcp/tcp_handler.go:131-220 | a step of one side extends the run and leaves the other side alone |
| HalfConnection.WriteKeeps | pkg/tcp/tcp_handler_core.go:832-891 | writing keeps the invariant of a direction: unacknowledged bytes are not disturbed |
| HalfConnection.PlanKeeps | pkg/tcp/tcp_handler_core.go:625-653 | deciding how much to send keeps it |
| HalfConnection.EmitKeeps | pkg/tcp/tcp_handler_core.go:660-714 | emitting a segment keeps it: the segment carries the stream's bytes and the queue still tiles what is outstanding |
| HalfConnection.BeginProbeKeeps | pkg/tcp/tcp_handler_core.go:738-742 | beginning to probe keeps it |
| HalfConnection.ProbeKeeps | pkg/tcp/tcp_handler_core.go:747-766 | a probe carries the right byte and keeps it |
| HalfConnection.EndProbeKeeps | pkg/tcp/tcp_handler_core.go:773-785 | ending the probe keeps it, with nothing skipped or repeated |
| HalfConnection.RetransmitIsOriginal | pkg/tcp/tcp_timeout.go:219-232 | the rebuilt segment is one already sent, byte for byte |
| HalfConnection.SendFinKeeps | pkg/tcp/tcp_close.go:29-70 | sending the FIN keeps the invariant |
| HalfConnection.DropAckedTiles | pkg/tcp/tcp_timeout.go:33-50 | pruning at a segment boundary leaves a queue that tiles exactly from there |
| HalfConnection.OnAckKeeps | pkg/tcp/tcp_handler_core.go:516-546 | any acknowledgement ever sent, arriving at any time, keeps the invariant |
| HalfConnection.AckSent | pkg/tcp/tcp_handler_core.go:363-486 | every acknowledgement the receiver produces is one the sender can take: on a segment boundary, unless the FIN was counted with data missing; with a window inside the buffer, but for the one number of a FIN; and taking back no window but with the acknowledgement of the FIN or a window cut to 16 bits |
| HalfConnection.ArrivalFits | pkg/tcp/tcp_handler_core.go:399-447 | any payload in the window fits the buffer, so the copying loop ends and no subtraction underflows |
| HalfConnection.CoalesceHolds | pkg/tcp/tcp_early_arrivals.go:80-90 | coalescing passes only over bytes that are in the buffer and right |
| HalfConnection.AcceptKeeps | pkg/tcp/tcp_handler_core.go:399-460 | accepting any segment ever sent keeps the invariant |
| HalfConnection.ReadKeeps | pkg/tcp/tcp_handler_core.go:292-320 | reading keeps it and hands over the stream's next bytes |
| HalfConnection.FinIsEnd | pkg/tcp/tcp_handler_core.go:575-588 | an in-order FIN means that all data has arrived |
| HalfConnection.PendingFinIsEnd | pkg/tcp/tcp_handler_core.go:472-479 | so does reaching a remembered FIN |
| HalfConnection.CountFinKeeps | pkg/tcp/tcp_segment_receive.go:225-235 | counting the FIN in RCV.NXT keeps the invariant up to one number |
| Connection.PairReady | pkg/tcp/tcp_handler_core.go:399-460 | no step of a synchronised connection underflows or loops for ever |
| Connection.ArriveKeeps | pkg/tcp/tcp_handler.go:131-220 | handling any segment in any state keeps both directions |
| Connection.CloseKeeps | pkg/tcp/tcp_close.go:23-70 | so does Close |
| Connection.TimeoutKeeps | pkg/tcp/tcp_timeout.go:153-287 | so does a timer |
| Connection.PairStep | pkg/tcp/tcp_handler.go:131-220 | every step of either side keeps the two-party invariant |
| Runs.Synchronised | pkg/tcp/tcp_segment_receive.go:84-120 | the SYN-ACK, resent or not, establishes the two-party invariant |
| Runs.InvStep | pkg/tcp/tcp_handler.go:131-220 | every step from the first SYN on keeps the invariant |
| Runs.Reached | pkg/tcp/tcp_handler_core.go:31-143 | every run is defined from start to end and all its states satisfy the invariant |
| Guarantees.BytesReadArePrefix | pkg/tcp/tcp_handler_core.go:225-326 | end to end: what Read has handed out is a prefix of what Write accepted at the other end, in every run and every state but CLOSING, TIME_WAIT and the CLOSED after them |
| Guarantees.StateShowsFin | pkg/tcp/tcp_segment_receive.go:225-235 | RCV.NXT counts the peer's FIN exactly in CLOSING and TIME_WAIT |
| Guarantees.BytesReceivedAreStream | pkg/tcp/tcp_handler_core.go:341-491 | everything RCV.NXT has passed, read or not, is the beginning of the peer's stream, repeats notwithstanding |
| Guarantees.ReadStaysInTheData | pkg/tcp/tcp_handler_core.go:281-320 | a Read goes past the data if and only if the state is CLOSING or TIME_WAIT and the call asks for all there seems to be; otherwise the bytes read are still a prefix of the stream |
| Guarantees.BytesReadAreStreamExactly | pkg/tcp/tcp_segment_receive.go:225-235 | at most one byte is ever read past the data, and with it the bytes read are the stream if and only if the FIN was counted before all data had arrived and the buffer holds the right byte there |
| Guarantees.EofIsSound | pkg/tcp/tcp_handler_core.go:253-277 | in CLOSE_WAIT and LAST_ACK everything the peer wrote has arrived, and it is all read once nothing is left to read |
| Guarantees.EndOfFileMeansAllRead | pkg/tcp/tcp_handler_core.go:253-277 | Read returns end of file only when the peer has closed and everything it wrote has been handed over |
| Guarantees.CallsAreReady | pkg/tcp/tcp_handler_core.go:425-447 | what the object's methods require of their callers holds in every run, for every segment that can arrive |
| Guarantees.UnreadBytesAreKept | pkg/tcp/tcp_handler_core.go:425-438 | no arriving segment changes a byte between LBR and RCV.NXT |
| Guarantees.PointersAreOrdered | pkg/tcp/tcp_handler_core.go:516-546 | UNA <= peer NXT <= NXT (plus 1 while probing), NXT <= LBW <= UNA + 65535, peer LBR <= peer NXT <= peer LBR + 65535 |
| Guarantees.WindowIsSafe | pkg/tcp/tcp_handler_core.go:652-653 | UNA + WND never exceeds the peer's LBR + 65535, plus one once the FIN is acknowledged or counted, before and after Close; nor does any segment ever sent that the peer would accept |
| Guarantees.WindowNeverShrinks | pkg/tcp/tcp_handler_core.go:521-546 | until a side closes, no step of either side moves its UNA + WND to the left |
| Guarantees.WindowShrinksExactly | pkg/tcp/tcp_handler_core.go:516-546 | a step moves UNA + WND to the left if and only if, after Close, the FIN is acknowledged after all data was and with less window, or a new acknowledgement announces window 0 short of the edge |
| Guarantees.ReceiveWindowConserved | pkg/tcp/tcp_handler_utils.go:56-73 | RCV.WND + (NXT - LBR) is 65535, plus one in CLOSING and TIME_WAIT; the header's 16 bits lose nothing unless Read has there taken all there seems to be, and only then |
| Guarantees.ZeroProbeIsExact | pkg/tcp/tcp_handler_core.go:738-786 | with the window at 0 all that was sent is acknowledged; only UNA + 1 with an open window reopens it; Send leaves the probe with UNA = NXT |
| Guarantees.RetransmissionIsFaithful | pkg/tcp/tcp_timeout.go:207-243 | a retransmission repeats a sent segment exactly; unless the peer has counted the FIN with data missing, the queue tiles what is outstanding and every acknowledgement splits it into wholly acknowledged and wholly not |
| Guarantees.StateShowsGap | pkg/tcp/tcp_segment_receive.go:218-235 | the FIN was counted with data missing exactly if the peer is in CLOSING or TIME_WAIT and its data ends before what was written |
| Guarantees.DropAckedSplits | pkg/tcp/tcp_timeout.go:33-50 | pruning by sequence number removes exactly the fully acknowledged segments |
| Lifecycle.HandshakeSynchronises | pkg/tcp/tcp_segment_receive.go:84-188 | a side that becomes ESTABLISHED expects exactly its peer's first data byte, whatever was lost, repeated or resent |
| Lifecycle.ServerOpensExactly | pkg/tcp/tcp_segment_receive.go:138-188 | in SYN_RECEIVED a segment leads to ESTABLISHED if and only if it has an acknowledgement and no payload |
| Lifecycle.SynAckIsNotAnsweredTwice | pkg/tcp/tcp_segment_receive.go:190-197 | an ESTABLISHED side sends nothing for a repeated SYN-ACK |
| Lifecycle.StateMovesForward | pkg/tcp/tcp_segment_receive.go:138-389 | every change of state strictly raises its rank |
| Lifecycle.RunChangesStateAtMostNineTimes | pkg/tcp/tcp_handler.go:131-220 | so a side changes state at most nine times in any run |
| Lifecycle.NothingIsSentAfterClose | pkg/tcp/tcp_close.go:23-70 | after Close SND.NXT stays at LBW + 1 and the stream is fixed |
| Lifecycle.FinAckCoversEverything | pkg/tcp/tcp_segment_receive.go:207-214 | FIN_WAIT_1 to FIN_WAIT_2, CLOSING to TIME_WAIT and LAST_ACK to CLOSED by a segment mean that the peer holds every byte ever written |
| Lifecycle.TimeWaitFromFinWait1Exactly | pkg/tcp/tcp_segment_receive.go:218-235 | FIN_WAIT_1 goes straight to TIME_WAIT if and only if a FIN arrives that acknowledges less than all data |
| Lifecycle.TimeWaitMeansAllReceived | pkg/tcp/tcp_segment_receive.go:276-325 | an arrival that leads to TIME_WAIT from any state but FIN_WAIT_1 means that the peer holds every byte ever written |
| Lifecycle.FinCountedEarlyExactly | pkg/tcp/tcp_segment_receive.go:218-235 | the FIN is counted before all data has arrived if and only if it is taken in FIN_WAIT_1 out of order |
| Lifecycle.SendingStallsAfterPeerCloses | pkg/tcp/tcp_segment_receive.go:354-374 | once the peer has closed, UNA and WND never move again, and what is sent stays below the window edge of that moment |
| Lifecycle.AllCanBeSentExactly | pkg/tcp/tcp_segment_receive.go:354-374 | from CLOSE_WAIT some continuation sends everything written so far if and only if it lies in the window, or has been sent |
| Lifecycle.SendRest | pkg/tcp/tcp_handler_core.go:625-715 | the continuation that sends it |
| StepEffects.TimerResends | pkg/tcp/tcp_timeout.go:153-243 | in every run: with something queued and fewer than five firings in vain the timer sends exactly one segment, from the first byte outstanding: the FIN, or the nonempty stretch of the stream up to the next boundary; with five it sends nothing and closes |
| StepEffects.HandshakeTimerResends | pkg/tcp/tcp_timeout.go:252-287 | in SYN_SENT and SYN_RECEIVED the SYN or SYN-ACK goes out again, up to five times |
| StepEffects.AcksAreTakenExactly | pkg/tcp/tcp_handler_core.go:516-546 | in every run, exactly which acknowledgements move UNA and WND; those take exactly what they cover off the queue, and restart the counter if that is anything |
| StepEffects.NewAcksAreTaken | pkg/tcp/tcp_handler_core.go:516-546 | an ESTABLISHED side takes every new acknowledgement, but for one with window 0 that covers a probe byte |
| StepEffects.ProbeAckReopens | pkg/tcp/tcp_handler_core.go:521-546 | the acknowledgement of the probe byte with an open window reopens a closed one, and the byte then counts as sent |
| StepEffects.PlanIsToTheLimit | pkg/tcp/tcp_handler_core.go:625-653 | Send decides to send exactly up to min(LBW, UNA + WND), if it is not there and nothing is under way |
| StepEffects.SendOneCarriesTheStream | pkg/tcp/tcp_handler_core.go:660-714 | each segment carries the next at most 1360 bytes of the stream, with the current acknowledgement and window, and is queued |
| StepEffects.ProbeStarts | pkg/tcp/tcp_handler_core.go:738-742 | the probe starts exactly with a closed window, unsent data and nothing under way |
| StepEffects.ProbeTicks | pkg/tcp/tcp_handler_core.go:747-766 | each tick sends the one byte of the stream at SND.NXT and changes nothing |
| StepEffects.ProbeStops | pkg/tcp/tcp_handler_core.go:773-785 | the probe ends exactly with an open window, and its byte counts as sent |
| StepEffects.CloseSendsTheFin | pkg/tcp/tcp_close.go:23-70 | Close sends the FIN, numbered LBW, exactly if all data has been sent, and otherwise does nothing |
| StepEffects.DataIsTakenAndAnswered | pkg/tcp/tcp_handler_core.go:355-491 | in every run: payload in order moves RCV.NXT at least over itself, early payload is queued, other payload changes nothing, and each is answered by one acknowledgement of all that is there in order |
| StepEffects.BareSegmentsAreSilent | pkg/tcp/tcp_segment_receive.go:190-389 | a segment without payload and FIN, or without FIN once data is no longer taken, is not answered and leaves the receive half alone |
| StepEffects.OtherAcksAreIgnored | pkg/tcp/tcp_segment_receive.go:315-389 | an acknowledgement the state's handler does not pass on changes nothing in the send half, but that the end of LAST_ACK empties the queue |
| StepEffects.ArrivalStates | pkg/tcp/tcp_segment_receive.go:190-389 | the state after any segment in any synchronised state, exactly, CLOSING and LAST_ACK included |
| StepEffects.FinIsAnswered | pkg/tcp/tcp_handler_core.go:558-603 | exactly which FINs are answered, with which acknowledgement, and what they do to the receive half |
| StepEffects.TimeWaitEnds | pkg/tcp/tcp_segment_receive.go:255-274 | the end of the wait closes TIME_WAIT and nothing else |
| StepEffects.ListenerAnswers | pkg/tcp/tcp_segment_receive.go:14-82 | a listener answers any SYN that reaches it by the SYN-ACK for it |
| StepEffects.ClientOpens | pkg/tcp/tcp_segment_receive.go:84-120 | a client in SYN_SENT opens on any answer, synchronised, and acknowledges it |
| StepEffects.RepeatedSynIsAnswered | pkg/tcp/tcp_segment_receive.go:138-188 | in SYN_RECEIVED a repeated SYN, and nothing else, is answered by the SYN-ACK again |
| Recovery.PutSegment | pkg/tcp/tcp_handler_core.go:615-807 | an open side with data not yet acknowledged can put the segment the receiver waits for on the network, by its timer, by Send or by the probe |
| Recovery.Round | pkg/tcp/tcp_timeout.go:207-243 | one round of such a segment and its answer acknowledges at least one byte more, and the timer can try again |
| Recovery.AllAcknowledged | pkg/tcp/tcp_timeout.go:207-243 | so everything written can be acknowledged |
| Recovery.LossIsAlwaysRepaired | pkg/tcp/tcp_handler_core.go:615-807 | from every state of every run with both sides ESTABLISHED and a timer that has not given up, though all in flight be lost, some continuation makes the peer read exactly all that was written |
| Recovery.NoRepairAfterFiveTries | pkg/tcp/tcp_timeout.go:184-208 | after five firings in vain, with the first byte outstanding missing and all in flight lost, no continuation brings it: the receiver waits for it until the side is closed |
| Recovery.RepairableExactly | pkg/tcp/tcp_timeout.go:184-243 | so where that byte is missing, what was written can still be read in full if and only if the timer has not given up |
| CloseFailures.AcksAreHonestExactly | pkg/tcp/tcp_segment_receive.go:218-241 | all a side has ever acknowledged it holds, if and only if it has not counted the FIN with data missing |
| CloseFailures.GetsStuckExactly | pkg/tcp/tcp_handler_core.go:472-477 | a side that has closed enters CLOSE_WAIT if and only if data arrives in FIN_WAIT_1 or FIN_WAIT_2 that brings RCV.NXT to a remembered FIN |
| CloseFailures.StuckUntilTimeout | pkg/tcp/tcp_segment_receive.go:354-374 | along every continuation it stays there, unless its retransmission timer fires |
| CloseFailures.ClosedStays | pkg/tcp/tcp_timeout.go:184-198 | a closed TCB takes no further steps |
| CloseFailures.TimerGivesUp | pkg/tcp/tcp_timeout.go:184-208 | in CLOSE_WAIT and LAST_ACK what is queued stays queued and every firing counts, so after at most six the connection is closed |
| FailingRuns.ReadPastTheFin | pkg/tcp/tcp_segment_receive.go:290-298 | a run in which an active closer reads a byte nobody wrote |
| FailingRuns.TimeWaitWithDataMissing | pkg/tcp/tcp_segment_receive.go:218-235 | a run in which the closer stops in TIME_WAIT while the peer lacks a byte |
| FailingRuns.RepeatedEarlySegment | pkg/tcp/tcp_early_arrivals.go:48-90 | a run in which RCV.NXT stops at a byte that has arrived and a stale entry is left |
| FailingRuns.WrittenBytesNeverLeave | pkg/tcp/tcp_segment_receive.go:354-374 | a run after which no continuation ever sends the last byte written |
| FailingRuns.AckOfMissingData | pkg/tcp/tcp_segment_receive.go:222-241 | a run in which a byte the peer never got is acknowledged and dropped from the retransmission queue |
| FailingRuns.WindowOneTooFar | pkg/tcp/tcp_segment_receive.go:207-214 | a run in which UNA + WND is the peer's LBR + 65536 |
| FailingRuns.WindowTakenBack | pkg/tcp/tcp_segment_receive.go:354-374 | a run in which an arrival moves UNA + WND to the left |
| FailingRuns.ClosedAndStuck | pkg/tcp/tcp_handler_core.go:472-477 | a run after which a closed side stays in CLOSE_WAIT for as long as its timer does not fire |
| FailingRuns.GivesUpThoughAcknowledged | pkg/tcp/tcp_segment_receive.go:354-374 | a run after which six firings of the timer close the connection although the peer holds and has acknowledged everything |
| Coalescing.PushSorted | pkg/tcp/tcp_early_arrivals.go:48-74 | pushing an entry that overlaps none keeps the queue in order and disjoint |
| Coalescing.PushContents | pkg/tcp/tcp_early_arrivals.go:48-74 | it adds just that entry |
| Coalescing.CoalesceStopsAtGap | pkg/tcp/tcp_early_arrivals.go:80-90 | in an ordered queue updateAckNum stops before every entry it leaves, and every entry it takes off it has passed |
| Coalescing.CoalesceCovers | pkg/tcp/tcp_early_arrivals.go:80-90 | in any queue it passes only over bytes some entry accounts for |
| Coalescing.CoalesceKeeps | pkg/tcp/tcp_early_arrivals.go:80-90 | in any queue an entry is kept or has been passed |
| Coalescing.PushAmongRepeats | pkg/tcp/tcp_early_arrivals.go:48-74 | pushing an entry that equals or avoids every other keeps the order among repeats |
| Coalescing.LeavesStaleExactly | pkg/tcp/tcp_early_arrivals.go:80-90 | something stale is left if and only if it was there before or an entry updateAckNum comes to is repeated |
| Coalescing.StopsShortExactly | pkg/tcp/tcp_early_arrivals.go:80-90 | updateAckNum stops at a byte the queue accounts for if and only if a stale head blocks the way to it or an entry on the way is repeated and bytes follow it |
| EarlyHistory.HistoryStep | pkg/tcp/tcp_handler_core.go:399-460 | every step keeps: the queue ordered, all accepted below RCV.NXT or queued, all below RCV.NXT accepted |
| EarlyHistory.NothingAcceptedIsForgotten | pkg/tcp/tcp_handler_core.go:399-460 | in every run, repeats included, everything ever accepted lies below RCV.NXT or is queued, RCV.NXT has passed only accepted bytes, and any two entries are equal or disjoint |
| EarlyHistory.ArrivalIsExact | pkg/tcp/tcp_handler_core.go:399-460 | for an in-order arrival in any state of any run: exactly when RCV.NXT fails to become the first byte not accepted, and exactly when a stale entry is left |
| EarlyHistory.StaleHeadStays | pkg/tcp/tcp_early_arrivals.go:80-90 | along every continuation a stale head stays, with all that is queued behind it |
| EarlyArrivals.OutgoingIsNewOrOld | pkg/tcp/tcp_timeout.go:207-243 | what is sent is sent for the first time or is at or below the end of the receiver's data, unless that has counted the FIN with data missing |
| EarlyArrivals.EarlyQueueIsExact | pkg/tcp/tcp_handler_core.go:399-460 | in every run without repeated delivery RCV.NXT, less a counted FIN, is the first byte not accepted, whatever else was accepted is queued beyond it, sorted and disjoint; until the FIN is counted, retransmissions are never early |
| CongestionControl.WindowsStayBounded | pkg/tcp/tcp_handler_cc.go:31-58 | after any new ACKs and losses 1360 <= CWND <= 1849601 and 680 <= SSTHRESH <= 924800 |
| CongestionControl.GrowBounded | pkg/tcp/tcp_handler_cc.go:31-44 | a new ACK keeps the bounds and raises CWND unless it is at 1849601 |
| CongestionControl.AvoidanceGrowth | pkg/tcp/tcp_handler_cc.go:31-44 | from SSTHRESH on a new ACK adds exactly the square of a segment divided by CWND, rounded down |
| CongestionControl.LosslessLimit | pkg/tcp/tcp_handler_cc.go:31-44 | without further loss CWND reaches exactly 1849601 and stays |
| CongestionControl.SlowStartAfterLoss | pkg/tcp/tcp_handler_cc.go:31-58 | after a loss CWND grows by one segment per ACK until half of what it had been |
| CongestionControl.Window.UpdateCwndWindow | pkg/tcp/tcp_handler_cc.go:31-44 | slow start or congestion avoidance, without division by zero |
| CongestionControl.Window.AfterLoss | pkg/tcp/tcp_handler_cc.go:49-58 | half of CWND into SSTHRESH, then slow start |
| CongestionControl.Window.SetCcForSocket | pkg/tcp/tcp_handler_cc.go:21-25 | starts within the bounds |
| Rip.RoutingTable.constructor | cmd/node/node_init.go:24-31 | the loop enters every local interface, at cost 0 through itself, and nothing else |
| Rip.RoutingTable.CheckRoute | pkg/ip/routing_table.go:24-33 | finds the entry exactly if there is one |
| Rip.RoutingTable.UpdateRoute | pkg/ip/routing_table.go:36-44 | changes an existing entry only |
| Rip.RoutingTable.AddRoute | pkg/ip/routing_table.go:47-56 | enters the route |
| Rip.RoutingTable.RemoveNextHops | pkg/ip/routing_table.go:58-70 | the nested loops make exactly the routes through the given next hops unusable |
| Rip.ReceivePacket | pkg/ip/rip_handler.go:53-86 | for any table and a message of distinct addresses with costs at most 16: a new usable destination gets cost + 1, one routed through the sender gets cost + 1 up or down, any other gets the cheaper, keeping the old next hop on a tie, and all else is unchanged |
| Rip.LearnAllFollows | pkg/ip/rip_handler.go:53-86 | the same of the update rule applied to the message in order |
| Rip.GetAllEntries | pkg/ip/rip_handler.go:157-173 | each usable destination once with its cost, and nothing else, in some order |
| Rip.GetSpecificEntries | pkg/ip/rip_handler.go:175-198 | the same, but at cost 16 for exactly the routes that go through the neighbour |
| Rip.LearnAllKeeps | pkg/ip/rip_handler.go:53-86 | costs stay at most 16, a host's own addresses are never re-routed, and only the sender becomes a new next hop, whatever the message |
| RipNetwork.ShownIsSound | pkg/ip/rip_handler.go:175-198 | an advertised cost is the length of a walk and no more than one less than the receiver's cost through that link |
| RipNetwork.LearnImproves | pkg/ip/rip_handler.go:53-86 | in the network, delivering an entry does nothing or installs a new or strictly cheaper route |
| RipNetwork.InvStep | pkg/ip/rip_handler.go:53-86 | every step keeps the invariant, and no route gets longer or disappears |
| RipNetwork.MessageIsLearntWhole | pkg/ip/rip_handler.go:53-86 | delivering entries one by one comes to what the handler does with the message |
| RipGuarantees.CostsAreSound | pkg/ip/rip_handler.go:53-86 | in every state of every run a cost is at most 16 and at least the hop distance, and an address 16 or more links away is never usable |
| RipGuarantees.RouteIsLoopFree | pkg/ip/rip_handler.go:59-80 | an entry's next hop is strictly closer, so following next hops strictly descends and is a real walk |
| RipGuarantees.RoutesReachTheOwner | pkg/ip/routing_table.go:36-56 | in every state of every run next hops lead to the destination's owner, within the stored cost, meeting no host twice |
| RipGuarantees.SendInforms | pkg/ip/rip_handler.go:175-198 | an update tells the neighbour all it does not know: what is poisoned the neighbour is closer to itself |
| RipGuarantees.RoundConverges | pkg/ip/rip_handler.go:202-232 | one full round extends convergence by one link |
| RipGuarantees.RipConverges | pkg/ip/rip_handler.go:202-232 | after k full rounds, from any reachable state, every destination at distance at most min(k, 15) has exactly its distance, and next hops take exactly that many links |
| RipRounds.FullRoundExists | pkg/ip/rip_handler.go:202-232 | a full round is possible from every state |
| RipRounds.ConvergenceIsAlwaysPossible | pkg/ip/rip_handler.go:202-232 | whatever was lost before, fifteen rounds are possible that leave every host with exact distances |
| Forwarding.Handle | pkg/ip/host.go:391-428 | a packet is kept exactly at an interface of the host that is up, and leaves the host exactly if it is for another, has a time to live of at least 2 and a usable route by an interface that is up, with the time to live one less |
| Forwarding.Originate | pkg/ip/host.go:194-246 | exactly when a packet is refused, looped back, or sent, by which interface, with time to live 16 |
| Forwarding.IpHost.ReadFromLinkLayer | pkg/ip/host.go:391-428 | the decision for one packet: local, discarded or forwarded, with stopped interfaces |
| Forwarding.IpHost.SendToLinkLayer | pkg/ip/host.go:493-527 | discarded without a usable route or by a stopped interface, otherwise sent on the interface facing the next hop |
| Forwarding.IpHost.SendPacket | pkg/ip/host.go:194-246 | which error, or where the packet goes first with time to live 16 |
| Forwarding.IpHost.DownInterface | pkg/ip/host.go:578-599 | refused unless up; every route by the interface, and no other, becomes unusable |
| Forwarding.IpHost.UpInterface | pkg/ip/host.go:604-623 | refused unless down; the interface's own address is back at cost 0 |
| Forwarding.AtMostTtlHandlers | pkg/ip/host.go:391-428 | a packet with time to live t >= 1 is handled by at most t hosts whatever the tables hold and however they change |
| Forwarding.EveryPacketIsDelivered | pkg/ip/host.go:493-527 | in every state of every run, with routing going on around it, a packet for a destination of cost at most 15 is never lost and reaches the owner after as many hops as the cost |
| Forwarding.SendsExactlyTheRoutable | pkg/ip/host.go:194-246 | SendPacket refuses exactly the destinations without a usable route |
| Forwarding.ConvergedDelivery | pkg/ip/host.go:194-246 | after convergence every packet reaches a destination at distance at most 15 within that distance |

## Left out

- Goroutines, channels, locks, condition variables, UDP and wall-clock timers: they appear as steps that may happen at any time; liveness, which depends on them, is stated only as what remains possible (Recovery.LossIsAlwaysRepaired).
- Header encoding and checksums: segments and packets arrive intact or not at all.
- Simultaneous open: the branch is in the model, but no run reaches it, because only one side opens.
- Congestion control in the send path, fast retransmission and the duplicate-ACK counter: CWND is modelled on its own.
- SRTT and RTO: floating-point smoothing of timers.
- The listener's accept queue, the socket table and VTCPConn's wrappers: bookkeeping around the TCB.
- EndpointModel.ReceiveHalf.Read: a Read that waits is modelled as a call that blocks and is called again, and end of file caused by a timeout is not modelled.
- EndpointModel.Endpoint.Write: the error for a connection missing from the socket table is not modelled, and a Write that waits is a call that blocks and is called again.
- EndpointModel.Endpoint.Read: the error for a connection missing from the socket table and end of file on a timeout are not modelled.
- Guarantees.BytesReadArePrefix: excludes CLOSING, TIME_WAIT and the CLOSED after them, for which it is false; BytesReadAreStreamExactly and ReadStaysInTheData say what holds there.
- EarlyArrivals.EarlyQueueIsExact: excludes repeated delivery, for which it is false; EarlyHistory.ArrivalIsExact says exactly when it fails there.
- RIP triggered updates (their body is not written to the wire), route time-outs and refreshing of timers; interfaces go down and up at one host only, not in the network whose convergence is proved.
- Rip.ReceivePacket: excludes, for the outright rule, messages that name an address twice or carry a cost above 16, which no host sends; for those the method does what the entries do in order.
- Recovery.LossIsAlwaysRepaired: excludes sides that have left ESTABLISHED, where Lifecycle.AllCanBeSentExactly and CloseFailures.StuckUntilTimeout show that repair can be impossible.
- Guarantees.RetransmissionIsFaithful: excludes, for tiling and splitting, a FIN counted with data missing, for which they are false; CloseFailures.AcksAreHonestExactly gives the exact condition.
- Guarantees.WindowNeverShrinks: excludes sides that have closed, for which it is false; Guarantees.WindowShrinksExactly covers every state.
- RIP messages larger than one packet, and the mask and command fields, which the update rule ignores.
- Traceroute, ICMP, the test handler, the node's commands, `.lnx` parsing and the packet dissector.
