# Verification model of the TCP, RIP and TLS stacks

The Go repository builds a network node from the link up: IP forwarding with RIP routing
(`pkg/ipStack`), a TCP with retransmission, flow control and teardown (`pkg/tcpStack`), and a record
layer over it (`pkg/tlsStack`). This project models those three cores in Dafny and proves what they
promise over every run.

**TCP.** `TcpSpec` gives, as functions on values, what each critical section does to an endpoint.
`TcpSocket` holds the classes that do it in place and proves that every method computes its function;
`CircleBuffers` and `EarlyArrivalHeap` do the same for the ring buffer and the min-heap of
out-of-order segments. `TcpNetwork` turns the steps into a transition system: two endpoints, each
with a send loop, timers, a thread that writes and closes and a thread that reads, joined by a
network that loses, duplicates, delays and reorders. A packet once sent can be received any number of
times at any later moment, or never. `TcpInvariant` states the invariant, `TcpSteps` proves that each
step keeps it, and `TcpTheorems` draws the consequences for reachable states and whole runs.
`TcpRuns` names the steps of a run and turns it round, so that a theorem about side A is one about
side B; `TcpInOrder`, `TcpStuck` and `TcpClogged` treat flow control, progress and reassembly over
runs, and `TcpPaths` and `TcpWitnesses` build runs step by step.
A side's `written` and `read` are the histories of bytes taken by `VWrite` and returned by `VRead`.

**RIP and forwarding.** `Forwarding` defines what a longest-prefix lookup with recursive next-hop
resolution can return and when it ends, for every order in which Go may visit the map; `Rip` what a
response, a timeout and an update do; `RipCodec` the wire format; `IpStack` holds the class.
`RipNetwork` runs any number of routers over a lossy, reordering network.

**TLS records.** `TlsRecord` defines frames, nonces and a reader that consumes the stream byte by
byte; `TlsChannel` is one direction of a connection with every `VWrite` and `VRead` as a step;
`TlsConn` holds the classes; `TlsOverTcp` runs the channel on top of the TCP transition system.

Packets of a connection start in ESTABLISHED with agreed pointers, no handshake packet is left in the
network, and the comparisons of the protocol code are plain `<`, so a run is assumed not to exhaust
the sequence space: that assumption is the guard on `WriteStep` in `TcpNetwork`. The ring buffer alone
is proved without it, across the wrap at 2^32.

## What the code does not do

Each of these is a result of the model, with an exact condition, and with an input or a run that
shows it where the condition could be empty.

- A connection can stop for good. It can advance if and only if no segment has been cut in two by an
  ACK at the very byte the receiver waits for, and the receiver still takes data: `AdvanceExactly`.
  A cut segment is only ever resent whole, from below the receiver's nxt, so no step of either side
  helps (`StuckForever`) and the fifth timeout closes the connection (`FifthTimeoutCloses`). A window
  probe that arrives late does it: `StuckIsReachable` is such a run, both sides open.
- A send loop that waits for a window update can sleep through one: a duplicate ACK stores the new
  window and returns before signalling (pkg/tcpStack/doTcp.go:465, 556-558). `WindowWakeupIsLostExactly`
  says which ACKs do this, `WakeupIsLost` is a run. Only the retransmission timer, which then runs,
  wakes the loop.
- An early segment that arrives twice clogs the heap: once nxt is past it the drain loop never takes
  anything again, and all later data has to arrive in order. `DuplicateClogs`, `CloggedForever`;
  `CloggedIsReachable` is a run.
- spec/README-TCP.md:245 describes how an early FIN is stored and handled after the heap drains.
  `VClose` waits until everything is acknowledged before it sends the FIN, so between two of these
  stacks a FIN is never early and that code never acts: `FinIsNeverEarly`.
- In TIME_WAIT every packet is dropped, so a peer whose FIN was acknowledged by a lost ACK is not
  answered again: `ClosedSideIsSilent`. Before that every repeated FIN is: `FinIsAcked`.
- RIP responses are not validated, and unreachable destinations are added to the table. An entry is
  handled as section 3.9.2 of RFC 2453 asks if and only if it is valid and known or reachable, or
  invalid and without effect: `ResponseConformsExactly`, in every run `EveryResponseConformsExactly`.
  The departure is ordinary, since routers announce their own routes with the invalid metric 0:
  `OwnRoutesAreSentInvalid`.
- Next-hop resolution recurses without a bound. It goes on for ever if and only if a set of indirect
  routes leads only back into itself, and otherwise ends within one lookup more than there are
  routes: `EndlessExactly`, `EndsByTableSize`; `TwoRoutesLoop` is a table. Under RIP with undivided
  links it always ends within two: `EveryRouterResolves`.
- A RIP message reads back exactly unless it has more than 65535 entries or is a request with
  entries: `RoundTripExactly`. A TLS record reads back exactly if and only if its sealed length fits
  in 32 bits, which `VTLSWrite` does not check: `FrameReadsBackExactly`.
- `readSeq` of the receiving side can be one ahead of `writeSeq` of the sending side: exactly when the
  reader has taken all of a record that is sent whole but not counted yet. `RecordStream` states it,
  `ReaderOvertakesCounter` is a run.
- Seal is given the same nonce again by every `VTLSWrite` after a failed one, and by no other call:
  `SealReusesExactly`. Nothing it then seals leaves: `RefusedIsSilent`.
- Below its base the ring buffer's index is off by one, because 2^32 leaves remainder 1 modulo 65535:
  `IndexBelowBase`. This is what the retransmission of a partly acknowledged segment reads;
  `WireTruth` and `PartialRetransmitIsDropped` prove that no such byte is ever delivered.

## Model

| member | source | states |
|---|---|---|
| `TcpTheorems.StreamSafety` | pkg/tcpStack/doTcp.go:237-351 | In every reachable state the bytes returned by VRead are a prefix of the bytes the peer's VWrite has taken |
| `TcpTheorems.WireTruth` | pkg/tcpStack/doTcp.go:253-271 | Every data segment ever sent carries the written stream at its sequence number or starts below the receiver's nxt |
| `TcpTheorems.PartialRetransmitIsDropped` | pkg/tcpStack/doTcp.go:762-779 | A head of the queue that starts below una is only ever resent to a receiver already past it |
| `TcpTheorems.EofMeansComplete` | pkg/tcpStack/socketsAPI.go:242-247 | io.EOF from VRead means that all the peer wrote was read and that the peer can write no more |
| `TcpTheorems.EofIsFinal` | pkg/tcpStack/socketsAPI.go:230-265 | After io.EOF neither side's history of that direction changes for the rest of the run |
| `TcpTheorems.CompletedWriteIsExact` | pkg/tcpStack/socketsAPI.go:182-223 | A VWrite that has copied its whole argument appended exactly that argument |
| `TcpTheorems.SendBufferHoldsSuffix` | pkg/tcpStack/socketsAPI.go:182-223 | Before the FIN, base = una <= nxt <= lbw+1 = una+size, and the ring holds exactly the unacknowledged suffix of the written stream |
| `TcpTheorems.AckConsistency` | pkg/tcpStack/doTcp.go:438-462 | Every ACK in flight is at most nxt, or nxt+1 while a probe is out and nothing is in flight; the drop of other ACKs is unreachable |
| `TcpTheorems.QueueTilesFlight` | pkg/tcpStack/doTcp.go:497-529 | The queue is contiguous and covers una to nxt, is empty iff una = nxt, holds a FIN only alone; the timer runs iff it is non-empty |
| `TcpTheorems.EnabledIsSteppable` | pkg/tcpStack/doTcp.go:755-763 | No step that the source can take indexes an empty queue or slices past the caller's data |
| `TcpSpec.AckTakesCoveredEntries` | pkg/tcpStack/doTcp.go:508-513 | The pop loop removes exactly the longest front part of the queue whose entries all end at or before the ACK, and remembers the last of them |
| `TcpTheorems.KarnsAlgorithm` | pkg/tcpStack/doTcp.go:515-529 | A sample is taken from the last entry popped if it was never resent, and never otherwise; the RTO is 1.65 times SRTT where that is in range |
| `TcpTheorems.RetransmissionBounds` | pkg/tcpStack/doTcp.go:762-795 | The RTO is always within its bounds, and no entry is resent more than four times while the connection is open |
| `TcpTheorems.SrttWithinSamples` | pkg/tcpStack/doTcp.go:802-809 | A sample moves SRTT by 15% of the difference and keeps it between the old value and the sample |
| `TcpRuns.SrttAlong` | pkg/tcpStack/doTcp.go:802-809 | In every state of every run a side's SRTT is unset or within the range of the RTT samples it was given |
| `TcpTheorems.FlowControl` | pkg/tcpStack/doTcp.go:275-323 | While no ACK below una was processed, in-order segments and drained segments fit whole, so neither truncation nor the does-not-fit exit is taken |
| `TcpInOrder.FlowControlInOrder` | pkg/tcpStack/doTcp.go:275-323 | In every run in which one side takes its ACKs in the order sent, losses allowed, the other side never truncates an in-order segment and never stops draining for want of room |
| `TcpInOrder.InOrderAcksAreFresh` | pkg/tcpStack/doTcp.go:464-474 | In such a run no ACK below una is processed, and una is its first value or what some ACK taken said |
| `TcpInOrder.ActEmitsAtNxt` | pkg/tcpStack/doTcp.go:354-407 | Every packet a step sends acknowledges exactly the receive nxt that the step leaves |
| `TcpTheorems.SegmentIsMaximal` | pkg/tcpStack/doTcp.go:623-690 | A data segment starts at nxt, is not empty, and empties the buffer, fills the window or has maximum size |
| `TcpTheorems.PayloadReassembles` | pkg/tcpStack/doTcp.go:252-331 | An early segment joins the heap and changes nothing else; an old one changes nothing; one at nxt is appended as far as it fits, then contiguous heap segments, none lost; across the wrap of sequence numbers |
| `TcpTheorems.ReachableAppends` | pkg/tcpStack/doTcp.go:288-297 | In every reachable state the receiver is where these lemmas start, until it has consumed the peer's FIN |
| `TcpTheorems.DrainReassembles` | pkg/tcpStack/doTcp.go:299-331 | The drain loop appends exactly the segments it takes out, each at nxt, advances nxt by their length, and conserves the heap's multiset |
| `TcpTheorems.DrainExits` | pkg/tcpStack/doTcp.go:299-331 | The drain loop stops only with an empty heap, a minimum that is not next, or one that does not fit; the heap keeps its order |
| `TcpTheorems.PayloadIsAcked` | pkg/tcpStack/doTcp.go:343-350 | Every data segment draws a final ACK with the new nxt and the new free space |
| `TcpTheorems.PayloadLeavesSender` | pkg/tcpStack/doTcp.go:237-351 | Receiving data changes nothing of the sending half |
| `TcpTheorems.NoQuiescence` | pkg/tcpStack/doTcp.go:593-673 | While open with a byte unacknowledged, the send loop can run or the retransmission or probe timer is armed |
| `TcpTheorems.NoLostWakeup` | pkg/tcpStack/socketsAPI.go:188-250 | A blocked VWrite or VRead, or a parked send loop, whose condition has become true has a token waiting |
| `TcpTheorems.WindowWakeupIsLostExactly` | pkg/tcpStack/doTcp.go:556-578 | An ACK leaves a send loop waiting at an open window without a token iff it is a duplicate that opens the window; the retransmission timer then runs |
| `TcpWitnesses.WakeupIsLost` | pkg/tcpStack/doTcp.go:556-573 | A run to a state with the send loop waiting, no token, and an ACK in flight that opens the window and leaves the loop asleep |
| `TcpTheorems.FinIsNeverEarly` | pkg/tcpStack/closing.go:103-148 | A FIN never arrives above nxt, and handleEarlyFin never does anything |
| `TcpTheorems.CloseAgreement` | pkg/tcpStack/closing.go:150-210 | FIN_WAIT_2 means the peer consumed our FIN and all before it; CLOSE_WAIT, LAST_ACK and TIME_WAIT mean we received every byte the peer wrote |
| `TcpTheorems.LastAckAgreement` | pkg/tcpStack/doTcp.go:541-548 | LAST_ACK is left only for CLOSED and only when the peer has consumed our FIN and every byte |
| `TcpTheorems.HandleTcpRank` | pkg/tcpStack/doTcp.go:46-109 | Handling any segment keeps the state or moves it strictly up the rank |
| `TcpTheorems.RunsMoveForward` | pkg/tcpStack/closing.go:37-225 | Along every run histories only grow and no connection state is re-entered |
| `TcpRuns.SwappedIsRun` | pkg/tcpStack/doTcp.go:17-110 | A run seen from the other side is a run, so whatever is proved of side A holds of side B |
| `TcpTheorems.FinEndsStream` | pkg/tcpStack/socketsAPI.go:316-328 | After the FIN was sent the written stream is fixed for the rest of the run |
| `TcpTheorems.RefusalIsFinal` | pkg/tcpStack/socketsAPI.go:170-175 | Once VWrite and VRead refuse they always will, and nothing more is written |
| `TcpTheorems.RunInv` | pkg/tcpStack/doTcp.go:433-580 | The invariant holds in every state of every run |
| `TcpSteps.ActKeeps` | pkg/tcpStack/doTcp.go:583-731 | Every step of a side keeps both directions of the invariant, and what it sends satisfies it |
| `TcpSteps.PayloadKeeps` | pkg/tcpStack/doTcp.go:237-351 | Receiving any data segment in flight, true or stale, keeps the invariant |
| `TcpSteps.AckKeeps` | pkg/tcpStack/doTcp.go:433-580 | Processing any ACK in flight keeps the invariant |
| `TcpSteps.ProbeAckKeeps` | pkg/tcpStack/doTcp.go:438-459 | The probe branch advances una, nxt and the ring together by one byte |
| `TcpSteps.PopTiles` | pkg/tcpStack/doTcp.go:508-513 | Popping leaves a contiguous queue whose head covers the new una |
| `TcpSteps.ProbeKeeps` | pkg/tcpStack/doTcp.go:634-665 | Sending a probe keeps the invariant: the probe byte is true, though it lies past nxt |
| `TcpSteps.DataSegmentKeeps` | pkg/tcpStack/doTcp.go:676-726 | Sending the next segment keeps the invariant |
| `TcpSteps.RtoKeeps` | pkg/tcpStack/doTcp.go:750-795 | A retransmission keeps the invariant, whatever it reads from the ring |
| `TcpSteps.ClosePollKeeps` | pkg/tcpStack/closing.go:37-97 | Sending the FIN keeps the invariant |
| `TcpSteps.HandleFinKeeps` | pkg/tcpStack/closing.go:150-210 | Receiving any FIN in flight, on time or repeated, keeps the invariant |
| `TcpSteps.ReadStepKeeps` | pkg/tcpStack/socketsAPI.go:237-264 | A VRead pass keeps the invariant and returns the next bytes of the stream |
| `TcpSteps.WriteStepKeeps` | pkg/tcpStack/socketsAPI.go:182-223 | A VWrite pass keeps the invariant |
| `TcpEffects.FreshConnection` | pkg/tcpStack/doTcp.go:178-218 | A new connection has nothing sent, received or measured, windows of 65535 either way and a first timeout of one second |
| `TcpEffects.RetransmissionIsExact` | pkg/tcpStack/doTcp.go:762-793 | When the timer fires, the first four times for a head send exactly one packet with its number, FIN flag and length, and its bytes of the stream if it starts at una, mark it and double the timeout up to 5 s; the fifth sends nothing and closes |
| `TcpEffects.RetransmissionIsTaken` | pkg/tcpStack/doTcp.go:776-779 | A receiver that waits for the head and has room gains bytes from its retransmission |
| `TcpEffects.AckIsTaken` | pkg/tcpStack/doTcp.go:433-580 | Every ACK in flight that is processed stores its window, moves una and nxt exactly as far as it says and wakes the sender; a duplicate changes only the window |
| `TcpEffects.NewAckEffect` | pkg/tcpStack/doTcp.go:469-579 | An ACK of new data frees VWrite and the send loop, and starts probing iff it closes the window on unsent data |
| `TcpEffects.LoopSends` | pkg/tcpStack/doTcp.go:676-726 | With window and data the loop sends the next bytes of the stream, exactly as many as are written, allowed and fit 1360, and queues them unmarked under a running timer |
| `TcpEffects.LoopProbesOrWaits` | pkg/tcpStack/doTcp.go:629-674 | With the window used up the loop sends the next byte as a probe iff the window is zero and nothing is in flight, and otherwise only waits |
| `TcpEffects.FinIsSent` | pkg/tcpStack/socketsAPI.go:316-328 | VClose sends the FIN, one, after the last byte, queued, with its state, iff all that was written is acknowledged |
| `TcpEffects.FinAckMovesOn` | pkg/tcpStack/doTcp.go:533-548 | In FIN_WAIT_1 and LAST_ACK una is one below nxt; the ACK of the FIN leads to FIN_WAIT_2 or CLOSED, and no lower one does |
| `TcpEffects.FinIsAcked` | pkg/tcpStack/closing.go:150-210 | Every FIN that reaches an open receiver draws exactly one ACK of all received, repeated FINs too; the first moves the state on and wakes the reader |
| `TcpEffects.EarlyFinIsHandledLater` | pkg/tcpStack/closing.go:103-163 | An early FIN is only remembered, and a remembered one is handled as if it came when the data before it is there |
| `TcpEffects.ClosedSideIsSilent` | pkg/tcpStack/doTcp.go:95-97 | In TIME_WAIT and CLOSED every packet is dropped without an answer |
| `TcpEffects.OnlyAcksInLastAck` | pkg/tcpStack/doTcp.go:98-107 | In LAST_ACK data and segments without ACK are dropped |
| `TcpEffects.RefusedMeansClosing` | pkg/tcpStack/socketsAPI.go:170-175 | VWrite and VClose are open exactly until this side has sent its FIN or is closed |
| `TcpEffects.EveryPacketIsStamped` | pkg/tcpStack/doTcp.go:354-407 | Every packet sent acknowledges what its sender has received and offers 65535 less what it holds |
| `TcpEffects.WritePassAppends` | pkg/tcpStack/socketsAPI.go:182-220 | A pass of VWrite appends the next bytes of its argument, as many as fit, blocks only on a full buffer and ends only when all is copied |
| `TcpEffects.ReadPassReturns` | pkg/tcpStack/socketsAPI.go:237-264 | A pass of VRead returns the next bytes of the stream, as many as there are and fit, and reports the end iff none are left in CLOSE_WAIT |
| `TcpEffects.EofIsReported` | pkg/tcpStack/socketsAPI.go:237-247 | From every reachable state in CLOSE_WAIT VRead can return all that is buffered and then io.EOF |
| `TcpStuck.AdvanceExactly` | pkg/tcpStack/doTcp.go:264-281 | While A's side is open and B lacks a written byte, some continuation delivers a further byte iff the byte is not inside a segment cut in two and B takes data |
| `TcpStuck.StuckForever` | pkg/tcpStack/doTcp.go:265-271 | Once a segment is cut at the byte the receiver waits for, no continuation of the run delivers another byte, though more was written |
| `TcpStuck.FifthTimeoutCloses` | pkg/tcpStack/doTcp.go:762-773 | From then on the head of the queue is never popped, and the fifth timeout closes the connection with bytes undelivered |
| `TcpStuck.StuckSender` | pkg/tcpStack/doTcp.go:583-795 | No step of the sender, a retransmission included, sends a segment that begins where the receiver waits |
| `TcpWitnesses.StuckIsReachable` | pkg/tcpStack/doTcp.go:634-665 | A run of two open sides into that state: the buffer fills, a probe is held back, the window reopens, the byte is sent again in a longer segment, the probe arrives first |
| `TcpPaths.ReachableLedger` | pkg/tcpStack/doTcp.go:698-720 | In every reachable state each queued data segment has been sent, and an ACK of all that was received has been sent |
| `TcpClogged.CloggedForever` | pkg/tcpStack/doTcp.go:299-331 | Once the heap's minimum lies below nxt the drain loop takes nothing in any continuation, and the heap only grows |
| `TcpClogged.DuplicateClogs` | pkg/tcpStack/doTcp.go:252-262 | A segment stored twice is never got rid of: as soon as nxt is past it the heap is clogged |
| `TcpClogged.CloggedExactly` | pkg/tcpStack/doTcp.go:311-314 | The heap is clogged iff it holds a segment that begins below nxt |
| `TcpWitnesses.CloggedIsReachable` | pkg/tcpStack/doTcp.go:252-331 | A run of eight steps that clogs the heap |
| `TcpSocket.SocketTableEntry.constructor` | pkg/tcpStack/doTcp.go:178-218 | initBufs sets every pointer from the two initial sequence numbers and starts with empty buffers |
| `TcpSocket.SocketTableEntry.HandleTCP` | pkg/tcpStack/doTcp.go:63-107 | For an open connection the dispatch by state and flags changes the connection and sends packets as the specification says |
| `TcpSocket.SocketTableEntry.HandlePureAck` | pkg/tcpStack/doTcp.go:433-580 | The method computes the specified change for a probe ACK, a new ACK, a duplicate and an excessive one, and sends nothing |
| `TcpSocket.SocketTableEntry.FinishAck` | pkg/tcpStack/doTcp.go:533-579 | State change on an acknowledged FIN, then the wake-ups, or teardown without them |
| `TcpSocket.SocketTableEntry.ProbeAcked` | pkg/tcpStack/doTcp.go:439-458 | The probe branch sets window, una, nxt, seqNum, ring and both tokens |
| `TcpSocket.SocketTableEntry.AckNewData` | pkg/tcpStack/doTcp.go:469-531 | una, ring and retransmission queue after an ACK of new data |
| `TcpSocket.SocketTableEntry.SignalWindow` | pkg/tcpStack/doTcp.go:564-578 | Probing starts iff the window is zero with data unsent and no probe out; the window token is always set |
| `TcpSocket.RetransmissionQueue.Acknowledge` | pkg/tcpStack/doTcp.go:497-529 | The loop's popping, sampling and timer restart, as the specification says |
| `TcpSocket.RetransmissionQueue.UpdateTimeout` | pkg/tcpStack/doTcp.go:812-817 | New SRTT and clamped RTO, queue and timer untouched |
| `TcpSocket.RetransmissionQueue.ComputeNewSrtt` | pkg/tcpStack/doTcp.go:802-809 | The smoothed RTT is stored and returned |
| `TcpSocket.SocketTableEntry.HandlePayload` | pkg/tcpStack/doTcp.go:237-351 | The method computes the specified change and packets in all four cases |
| `TcpSocket.SocketTableEntry.AcceptInOrder` | pkg/tcpStack/doTcp.go:288-350 | In-order bytes, the drain, the reader's token and the final ACK, in this order |
| `TcpSocket.SocketTableEntry.DrainEarlyArrivals` | pkg/tcpStack/doTcp.go:299-331 | The drain loop ends, in the state and with the packets of its recursive specification |
| `TcpSocket.SocketTableEntry.HandleEarlyFin` | pkg/tcpStack/closing.go:103-148 | A stored FIN is consumed and acknowledged iff it is at nxt |
| `TcpSocket.SocketTableEntry.HandleFin` | pkg/tcpStack/closing.go:150-210 | An early FIN is stored, an old one re-acknowledged, one at nxt consumed with its state change |
| `TcpSocket.SocketTableEntry.SwitchOnFin` | pkg/tcpStack/closing.go:189-209 | The state switch on a consumed FIN, with the reader's token in ESTABLISHED only |
| `TcpSocket.SocketTableEntry.SendFin` | pkg/tcpStack/closing.go:37-97 | The FIN goes out at seqNum, is queued with length 0, takes one sequence number and moves the state |
| `TcpSocket.SocketTableEntry.SendLoopIteration` | pkg/tcpStack/doTcp.go:598-729 | One iteration probes, waits, parks or sends as the specification says |
| `TcpSocket.SocketTableEntry.SendNext` | pkg/tcpStack/doTcp.go:689-726 | The next bytes are sent and queued, the timer started iff the queue was empty, nxt and seqNum advanced |
| `TcpSocket.SocketTableEntry.RetransmitSegment` | pkg/tcpStack/doTcp.go:750-795 | The head is marked, resent with a doubled RTO, or the connection closed after four times |
| `TcpSocket.SocketTableEntry.SendPureAck` | pkg/tcpStack/doTcp.go:354-376 | One ACK is queued with seqNum and the free receive space; the connection is unchanged |
| `TcpSocket.SocketTableEntry.SendSegment` | pkg/tcpStack/doTcp.go:379-407 | One segment is queued with the receive nxt and free space; the connection is unchanged |
| `TcpSocket.SocketTableEntry.VWriteChunk` | pkg/tcpStack/socketsAPI.go:182-220 | One pass appends as much as fits at lbw+1 and signals, or blocks iff the buffer is full |
| `TcpSocket.SocketTableEntry.VReadPass` | pkg/tcpStack/socketsAPI.go:237-264 | One pass fills the caller's buffer from the front, or is EOF iff empty in CLOSE_WAIT, or would block |
| `TcpSocket.SocketTableEntry.VClosePoll` | pkg/tcpStack/socketsAPI.go:316-328 | The FIN is sent iff nothing is unsent or unacknowledged |
| `CircleBuffers.SliceOfLiveRange` | pkg/tcpStack/circleBuf.go:47-79 | Any live range reads back as that slice of the byte queue, across the end of the array and of the sequence space |
| `CircleBuffers.WriteAppends` | pkg/tcpStack/circleBuf.go:27-44 | Writing at base+size appends to the queue |
| `CircleBuffers.AdvanceDrops` | pkg/tcpStack/circleBuf.go:82-95 | AdvanceBase drops a prefix of the queue, clipped to its length |
| `CircleBuffers.IndexOfOffset` | pkg/tcpStack/circleBuf.go:14-17 | base+off maps to head+off modulo the capacity, for every base |
| `CircleBuffers.IndexBelowBase` | pkg/tcpStack/circleBuf.go:14-17 | A number k below the base maps to head+1-k, one off |
| `CircleBuffers.CircleBuf.constructor` | pkg/tcpStack/circleBuf.go:3-11 | An empty ring of the fixed capacity, whatever size is asked for |
| `CircleBuffers.CircleBuf.SeqNumToIndex` | pkg/tcpStack/circleBuf.go:14-17 | The index is within the array |
| `CircleBuffers.CircleBuf.WriteIntoBuf` | pkg/tcpStack/circleBuf.go:27-44 | The two copies into the array make exactly the ring after the write, whatever the free space; the ring stays valid iff the data fit it |
| `CircleBuffers.CircleBuf.ReadFromBuf` | pkg/tcpStack/circleBuf.go:47-68 | The two copies fill dest with the range asked for and leave the rest of dest alone |
| `CircleBuffers.CircleBuf.SliceFrom` | pkg/tcpStack/circleBuf.go:71-79 | A fresh copy of the range |
| `CircleBuffers.CircleBuf.AdvanceBase` | pkg/tcpStack/circleBuf.go:82-95 | Base, size and head after reclaiming space |
| `EarlyArrivalHeap.PushKeepsHeap` | pkg/tcpStack/earlyArrivals.go:8-23 | Pushing keeps the heap order and adds exactly one element |
| `EarlyArrivalHeap.PopRemovesMin` | pkg/tcpStack/earlyArrivals.go:33-38 | Popping keeps the heap order and removes exactly one element, a smallest one |
| `EarlyArrivalHeap.RootIsMin` | pkg/tcpStack/earlyArrivals.go:57-59 | In a heap the root is at most every element |
| `EarlyArrivalHeap.EarlyArrivals.Peek` | pkg/tcpStack/earlyArrivals.go:77-83 | What Peek returns is a smallest element |
| `EarlyArrivalHeap.EarlyArrivals.PushSegment` | pkg/tcpStack/earlyArrivals.go:8-23 | A non-empty segment is pushed with its range, an empty one is ignored |
| `EarlyArrivalHeap.EarlyArrivals.PopMin` | pkg/tcpStack/earlyArrivals.go:33-38 | The root is returned and removed; an empty heap gives nothing |
| `EarlyArrivalHeap.EarlyArrivals.HeapPush` | pkg/tcpStack/earlyArrivals.go:65-67 | The loop sifts up in place as the recursive form does |
| `EarlyArrivalHeap.EarlyArrivals.HeapPop` | pkg/tcpStack/earlyArrivals.go:69-75 | The loop sifts down in place as the recursive form does and cuts off the old root |
| `Prefixes.MatchesExactly` | pkg/ipStack/ipStack.go:304-304 | A prefix matches an address iff both agree after division by 2 to the power 32 - bits |
| `Prefixes.MaskedMatchesInterval` | pkg/ipStack/ipStack.go:304-304 | A masked prefix matches exactly the 2 to the power 32 - bits addresses from its own on |
| `Prefixes.DefaultAndHost` | pkg/ipStack/ipStack.go:304-304 | A prefix of 0 bits matches every address, one of 32 bits only its own |
| `Forwarding.DefaultRouteMatches` | pkg/ipStack/ipStack.go:303-311 | With a default route every lookup has a match |
| `Forwarding.HostResolves` | pkg/ipStack/ipStack.go:300-322 | A host with one link and a default route sends to its link's addresses directly and to all others through the gateway |
| `Forwarding.UnreachableIsDeadEnd` | pkg/ipStack/ipStack.go:316-320 | A lookup that arrives at a route of cost 16 or more returns nothing |
| `Forwarding.SentExactly` | pkg/ipStack/ipStack.go:264-290 | A packet is sent on an interface iff the lookup returned a local route below cost 16 over it, it is up and the next node is on it |
| `Forwarding.ResultUnique` | pkg/ipStack/ipStack.go:300-322 | With masked prefixes the result of a lookup does not depend on the map's iteration order |
| `Forwarding.BestUnique` | pkg/ipStack/ipStack.go:300-308 | Nor does the longest match |
| `Forwarding.TwoLookups` | pkg/ipStack/ipStack.go:312-321 | If usable next hops are matched best by interface routes, every lookup ends within two |
| `Forwarding.ReturnsInterfaceRoute` | pkg/ipStack/ipStack.go:312-315 | What a lookup returns is a route of the table with an interface |
| `Forwarding.EndlessExactly` | pkg/ipStack/ipStack.go:316-321 | A lookup can go on for ever iff a longest match of the destination is in a set of usable indirect routes each of whose next hops has a longest match in the set |
| `Forwarding.EndsByTableSize` | pkg/ipStack/ipStack.go:316-321 | A lookup that ends at all ends within one lookup more than there are routes |
| `Forwarding.TwoRoutesLoop` | pkg/ipStack/ipStack.go:316-321 | A table of two routes on which a lookup never ends |
| `IpStack.IPStack.LongestPrefixMatch` | pkg/ipStack/ipStack.go:300-322 | Whenever the recursion ends at all, loop and recursion return what some iteration order allows |
| `IpStack.IPStack.IpForwarding` | pkg/ipStack/ipStack.go:203-297 | Local delivery, TTL expiry and the forwarding verdict, each exactly when it applies |
| `IpStack.IPStack.ForwardAlong` | pkg/ipStack/ipStack.go:259-296 | The verdict on every lookup result: no match, offline, by route type, by link and neighbour |
| `IpStack.IPStack.InitFwdTable` | pkg/ipStack/ipStack.go:99-121 | One local route for each interface prefix; static routes win |
| `IpStack.IPStack.HandleRipResponse` | pkg/ipStack/rip.go:220-276 | The loop computes the specified table and list of changed entries |
| `IpStack.IPStack.CheckForTimeouts` | pkg/ipStack/rip.go:69-96 | Exactly the expired routes become unreachable, and each is reported once |
| `IpStack.IPStack.RoutesToSend` | pkg/ipStack/rip.go:135-153 | Every route once, with infinity for those learned from that neighbour |
| `Rip.ResponseConformsExactly` | pkg/ipStack/rip.go:228-272 | An entry of a response with distinct prefixes is handled as section 3.9.2 of RFC 2453 asks iff it is valid and known or reachable, or invalid and without effect |
| `Rip.ResponseRelaxes` | pkg/ipStack/rip.go:228-272 | Each route becomes the distance-vector relaxation of the entry, and the entry is reported iff it is new or its cost changed |
| `Rip.UnmentionedUntouched` | pkg/ipStack/rip.go:228-272 | Prefixes not in the response keep their routes |
| `Rip.ChangedAreDistinct` | pkg/ipStack/rip.go:225-276 | A triggered update repeats no prefix if the response did not |
| `Rip.ExpiryIsExact` | pkg/ipStack/rip.go:77-92 | A timeout check sets exactly the learned routes below 16 that were not confirmed in time to cost 16, and nothing else |
| `Rip.ReportMatchesTable` | pkg/ipStack/rip.go:83-95 | The report of a check names exactly the routes it changed, each at 16 |
| `Rip.UpdateListsEveryRoute` | pkg/ipStack/rip.go:135-153 | An update lists every route with its cost, and with 16 those learned from the neighbour it goes to |
| `Rip.PoisonIsNotAdopted` | pkg/ipStack/rip.go:142-147 | An entry at 15 or more gives its receiver no usable new route and lowers no cost |
| `RipNetwork.TimeoutsCleanTables` | pkg/ipStack/rip.go:69-96 | In every run, after a timeout check no learned route that was not confirmed in time has a cost below 16, all others are as they were, and the report names the changes |
| `RipNetwork.ChangesAreAnnounced` | pkg/ipStack/rip.go:167-180 | What a response or a timeout changes is sent to every neighbour, from the address it knows |
| `RipNetwork.LinkTrafficIsSent` | pkg/ipStack/ipStack.go:271-290 | In every reachable table a packet for a node on a link that is up is sent on that link to that node |
| `RipNetwork.NetRunInv` | pkg/ipStack/rip.go:206-277 | The invariant of tables and messages holds in every state of every run |
| `RipNetwork.EveryRouteIsSound` | pkg/ipStack/rip.go:206-277 | Configured routes never change; learned ones cost 1 to 16, have an originated prefix and a neighbour as next hop |
| `RipNetwork.EveryResponseConformsExactly` | pkg/ipStack/rip.go:225-276 | The same condition for every response handled in every run |
| `RipNetwork.EveryResponseRelaxes` | pkg/ipStack/rip.go:225-276 | In every run each response relaxes the routes of its entries, and its update names exactly the changed destinations |
| `RipNetwork.OwnRoutesAreSentInvalid` | pkg/ipStack/rip.go:135-153 | An update lists a route with the invalid metric 0 iff the router was configured with it |
| `RipNetwork.EveryRouterResolves` | pkg/ipStack/ipStack.go:300-322 | In every reachable table every lookup ends within two and returns a local route of cost 0 or nothing, in every iteration order |
| `RipNetwork.UnexpectedNeverHappens` | pkg/ipStack/ipStack.go:264-296 | The offline, RIP and wrong-type cases of ipForwarding are unreachable |
| `RipNetwork.OnLinkResolves` | pkg/ipStack/ipStack.go:303-315 | An address on a link is matched best by a configured local route and by no other |
| `RipNetwork.InitialTableFits` | pkg/ipStack/ipStack.go:99-121 | The table of initFwdTable meets the start condition of the network theorems |
| `RipCodec.RoundTripExactly` | pkg/ipStack/rip.go:280-373 | Deserializing a marshalled message gives it back iff its entries fit the count field and a request has none |
| `RipCodec.MessageDecodes` | pkg/ipStack/rip.go:315-373 | What deserializing a marshalled message gives, for every message |
| `RipCodec.ResponseOnTheWire` | pkg/ipStack/rip.go:280-311 | The bytes of a response with one entry: command, count, cost, address and mask, in this order |
| `RipCodec.CommandsAreKept` | pkg/ipStack/rip.go:324-328 | A message with command 2 keeps up to 65535 entries, one with command 1 has none |
| `RipCodec.TruncatedExactly` | pkg/ipStack/rip.go:315-346 | Deserializing fails iff the data ends within the command, the count or the entries it announces |
| `RipCodec.MaskLengthExactly` | pkg/ipStack/rip.go:352-355 | A mask has a length iff it is the mask of that length; any other counts as length 0 |
| `BigEndian.HighByteFirst` | pkg/ipStack/rip.go:282-308 | Integers go out with the most significant byte first |
| `RipCodec.EntryRoundTrip` | pkg/ipStack/rip.go:332-370 | Cost, address and prefix length of an entry survive |
| `RipCodec.MaskRoundTrip` | pkg/ipStack/rip.go:355-355 | The length read from the mask of a prefix length is that length, for masks of any size |
| `RipCodec.Marshal` | pkg/ipStack/rip.go:280-311 | The loop writes exactly the encoding |
| `RipCodec.DeserializeRipMessage` | pkg/ipStack/rip.go:315-373 | The loop reads exactly what decoding defines, with an error iff the data runs out |
| `BigEndian.Uint32RoundTrip` | pkg/ipStack/rip.go:303-308 | Reading back a written 32-bit integer gives it back |
| `BigEndian.PutUint64Injective` | pkg/tlsStack/doTls.go:152-156 | Different 64-bit integers have different bytes |
| `TlsRecord.NonceInjective` | pkg/tlsStack/doTls.go:152-156 | Nonces are equal iff their sequence numbers are |
| `TlsRecord.ChunkingIrrelevant` | pkg/tlsStack/doTls.go:114-130 | However the stream is cut into reads, the reader ends in the same state |
| `TlsRecord.PrefixDecodes` | pkg/tlsStack/tlsApi.go:92-125 | Reading any prefix of a stream of records opens exactly its whole records and refuses none |
| `TlsRecord.WholeStreamDecodes` | pkg/tlsStack/tlsApi.go:62-125 | A stream of whole records is opened to the last |
| `TlsRecord.FrameReadsBackExactly` | pkg/tlsStack/tlsApi.go:69-71 | A record reads back iff its sealed length fits the 32-bit field |
| `TlsRecord.NonceOnTheWire` | pkg/tlsStack/doTls.go:152-156 | A nonce is four zero bytes and the counter, most significant byte first |
| `TlsRecord.FrameOnTheWire` | pkg/tlsStack/tlsApi.go:69-71 | The length of the sealed data, 16 more than the plaintext's, precedes it |
| `TlsRecord.ShortestRecord` | pkg/tlsStack/tlsApi.go:107-109 | A length of 15 is refused at once, one of 16 is waited for |
| `TlsRecord.BadRecordIsDropped` | pkg/tlsStack/tlsApi.go:116-121 | A record that does not open is dropped whole and not counted |
| `TlsRecord.NothingIsSwallowed` | pkg/tlsStack/tlsApi.go:100-120 | Bytes read are held back in part of a record or conclude one |
| `TlsChannel.RecordStream` | pkg/tlsStack/tlsApi.go:62-125 | In every reachable state the bytes returned plus readBuf are the first readSeq plaintexts, none was refused, and readSeq exceeds writeSeq iff the reader has taken all of a record sent whole but not counted |
| `TlsChannel.NoncesNeverRepeat` | pkg/tlsStack/crypto.go:160-179 | No two records with a byte on the stream share a nonce, failed writes included |
| `TlsChannel.SealReusesExactly` | pkg/tlsStack/crypto.go:160-179 | Two calls of Seal share a nonce iff the earlier one is not among the successful ones, and then a VWrite has failed |
| `TlsChannel.RefusedIsSilent` | pkg/tlsStack/tlsApi.go:73-83 | After a failed VWrite the stream and its records stay as they are for the rest of the run |
| `TlsChannel.WholeWrite` | pkg/tlsStack/tlsApi.go:62-89 | The moves of a VTLSWrite that succeeds have the effect its contract states |
| `TlsChannel.AcceptedInPieces` | pkg/tlsStack/doTls.go:133-149 | A record taken in two pieces is taken as in one |
| `TlsChannel.ReceivedInPieces` | pkg/tlsStack/doTls.go:114-130 | Bytes returned in two pieces act as in one |
| `TlsChannel.ReaderOvertakesCounter` | pkg/tlsStack/tlsApi.go:79-86 | A run in which the peer has read a record that writeSeq does not count yet |
| `TlsChannel.ChannelRunInv` | pkg/tlsStack/tlsApi.go:62-125 | The invariant of both halves holds in every state of every run |
| `TlsConn.ReadFull` | pkg/tlsStack/doTls.go:114-130 | The buffer is filled with the next bytes whatever VRead returns at a time, or the stream ended short of it |
| `TlsConn.WriteFull` | pkg/tlsStack/doTls.go:133-149 | All of the data goes out, or a proper part of it and then nothing ever again |
| `TlsConn.VTLSConn.VTLSWrite` | pkg/tlsStack/tlsApi.go:62-89 | Success puts exactly one record on the stream and counts it; failure counts nothing and leaves at most a proper part of it |
| `TlsConn.VTLSConn.ReadRecord` | pkg/tlsStack/tlsApi.go:100-120 | Exactly one record is taken, and the outcome is that of the byte-wise reader, error by error |
| `TlsConn.VTLSConn.VTLSRead` | pkg/tlsStack/tlsApi.go:92-125 | Leftovers come first and touch nothing else; otherwise one record, split between buf and readBuf without loss |
| `TlsOverTcp.RecordsSurviveTheNetwork` | pkg/tlsStack/tlsApi.go:62-125 | At every moment of every joint run of record layers and connection, RecordStream holds of what A wrote and B read |
| `TlsOverTcp.JointIsChannelRun` | pkg/tlsStack/tlsApi.go:62-125 | Over the lossy network the record layers see exactly a run of the channel |
| `TlsOverTcp.AllRecordsByEof` | pkg/tlsStack/tlsApi.go:92-125 | When VRead has reported the end of the stream and all writes succeeded, B has opened every plaintext A wrote |

## Left out

- The handshake (`pkg/tcpStack/handshake.go`): connections start in ESTABLISHED with agreed pointers; the duplicate SYN-ACK branch (pkg/tcpStack/doTcp.go:72-78) goes with it.
- RST segments, the socket table, port choice and listeners: simple lookups.
- Sequence-number wrap in protocol comparisons: the code compares with plain `<`; the guard on `WriteStep` excludes it. Initial sequence numbers are taken to be positive.
- Races inside a critical section and double teardown: each critical section is one atomic step, an iteration of the send loop is one step, and stopping a timer cancels it.
- What goroutines do on channels closed by `teardown`: after CLOSED a side receives nothing, writes nothing and sends only what its loop already had.
- A `VWrite` concurrent with `VClose`, or two concurrent `VRead`s: one thread writes and closes, one reads.
- Blocking loops of `VWrite`, `VRead`, `VClose` and `sendLoop`: modelled pass by pass; the waits between passes are steps of `TcpNetwork`.
- Real time: timers are events that may happen whenever armed, RTT samples are parameters, and durations are reals without truncation.
- Liveness under fair scheduling: `AdvanceExactly` says when a continuation that delivers exists, not that every fair run takes it.
- Window monotonicity: not provided, because stale ACKs set the window (pkg/tcpStack/doTcp.go:465).
- `dropForRetrans`, which drops segments at random for testing: the network may lose any packet anyway.
- `TotalDataLen`: unused by the source.
- Checksums, header encoding and options, the SRC filter, the UDP link layer, REPLs, printing and configuration parsing.
- RIP hop-distance and convergence: not provided, because a triggered update forwards the cost it received.
- RIP requests: they only make their receiver send a periodic update, which a run may do at any time.
- Interface up and down commands: `up` is a field that the forwarding verdict reads.
- Go's maps are visited in an arbitrary order, and pointers to table entries are replaced by the entries themselves.
- Cryptography and key exchange: sealing and opening are an abstract pair of functions of which only inversion and the 16-byte tag are assumed; errors of the cipher constructor are not modelled.
- `TlsConn.VTCPConn.VWrite` may take part of its argument, which is more than `VWrite` of the TCP layer does; it refuses for good once it has failed, as `RefusalIsFinal` proves of that layer.
- More than 2^64 - 1 records on one key: excluded by the guard on `BeginWrite`.
- LongestPrefixMatch: assumes that the recursion ends, because otherwise the source never returns; `EndlessExactly` says when that is.
- IpForwarding: assumes that the lookup ends and that local routes name existing interfaces, where the source would dereference nil; the handler lookup for local delivery is not modelled.
- FlowControl: assumes that no ACK below `una` was processed; `FlowControlInOrder` proves that this is so when ACKs may be lost but arrive in order.
- WindowWakeupIsLostExactly: states the condition for one ACK and a send loop with no token waiting before it.
- HandleTCP: covers the states from ESTABLISHED on; LISTEN, the SYN states, RST and the duplicate SYN-ACK are left to the handshake.
- WriteIntoBuf: takes at most 65535 bytes, because the source slices out of range or overwrites what it has just copied if given more.
- AdvanceExactly: is about states in which side A is open; once A is closed only what is on the network can still arrive.
- InitialTableFits: `initRIP` sets the cost of static routes to 0, which it already is.
