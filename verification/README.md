# A verified model of a DOS IRC bot and its TCP/IP stack

The repository is an IRC bot in 8086 assembly (`code/BOT`) on a TCP/IP stack in C++ and assembly
(`code/TCPLIB`, headers in `code/TCPINC`).  This project models the parts where most can go wrong and
proves what they promise.  `dafny verify dfyconfig.toml` checks everything.

## How it is organised

Each component comes in two layers.  One defines, over values, what every routine computes: the same
branches, the same tests on wrapped 16- and 32-bit numbers, the same limits and return codes.  The
theorems about whole runs are proved there.  The other has the fields, arrays, ring indices and loops of
the source, and each of its methods is proved to compute the function of the value layer.

| files | component |
|---|---|
| `Machine`, `Counting`, `RingBuffer` | machine integers, memory copies, counting of names, circular buffers |
| `TcpModel` | the TCP engine as a state machine: segment arrives, drive, send, recv, enqueue, close, clock |
| `TcpPool` | transmit buffers and the work counters on every run |
| `TcpStream`, `TcpRuns`, `TcpTeardown` | send stream on every good run, FINs and wait states on every run whatever |
| `TcpAcks`, `TcpFlow` | when acknowledgement removes exactly what it should; flow control; what may be forgotten |
| `TcpReceive`, `TcpPackets`, `TcpWindow` | receive stream; what becomes of each packet; room in the receive buffer and the windows advertised |
| `TcpTransfers`, `TcpAnswers`, `TcpHandshakes`, `TcpSizes` | what must be sent: queued data, retransmissions, answers, probes, resets; opening and closing segment by segment; segment sizes |
| `TcpLimits`, `TcpExamples`, `TcpDrift` | where the engine departs from its comments or RFC 793, with the exact condition; runs that get there |
| `TcpSocket`, `ReceiveRing` | the socket object with its rings, pool and receive buffer, updated in place |
| `Reassembly`, `ReassemblyExact`, `FragTable` | IP reassembly: table, theorems, arrays |
| `PacketBuffers`, `Ownership` | receive buffers under interrupts, and who owns each of them |
| `Checksum` | the assembly checksum loops and the simple algorithm |
| `IrcMessage`, `IrcParser`, `Lines` | the message grammar, the parser, the line splitter |
| `DnsName` | DNS name encoding and decompression |
| `XlateTable`, `Utf8`, `Arp` | code page table, UTF-8, ARP cache |

## How to read the TCP part

`TcpModel.State` is the control block, the queues, the receive side and a `History`.  No routine reads
the history; it records what was accepted, sent and received so that theorems can speak about whole
runs.  The scalar fields of the socket are one record, `tcb`, in the class; buffers are named by index,
the last one being connectPacket.  The clock (`overdue`, `probeDue`), the answers of ARP, the arriving
packets and the user's calls are inputs of the steps, so a theorem about every run covers every timing.

`GoodHistory`, the premise of the send theorems, asks only three things of a run: ARP answers while
drivePackets2 sends once the connection is open, the peer does not open the connection at the same
moment (a SYN without ACK in SYN_SENT), and the user calls enqueue directly only before closing (after
that `DataAfterFin` says what happens).  The pool, packet
and teardown theorems do not need it.  `FairHistory`, the premise of the receive theorem, asks that the
peer's segments are slices of one stream and that reads are enabled.

The right edge of the peer's window is the acknowledgement number of the packet that carried the window,
plus the window.  The engine does not keep that number; the history does (`edge`), along with how far
behind seqNum it was (`behind`).

Where the engine does not meet a promise, the code is kept as it is, `TcpLimits`, `TcpAcks` and `TcpFlow`
say for which states that happens, and the theorems are proved around it.  One comment disagrees with the code:
the one on enqueue (code/TCPLIB/TCP.CPP:921) gives -2 for a packet that is too big, where the code returns
-5 (TCP_RC_TOO_MUCH_DATA).  The model follows the code.

## Model

| member | source | states |
|---|---|---|
| TcpRuns.SendStream | code/TCPLIB/TCP.CPP:923-986 | In every run of an active open, the bytes accepted by enqueue are, in order, those already taken off `sent`, then those on `sent`, then those on `outgoing`; every segment ever put on the wire, first time or again, is the slice of that stream its sequence number names, or empty and right beside the stream, or a reset. |
| TcpFlow.ForgottenWasAcked | code/TCPLIB/TCP.CPP:2200-2278 | On every run without a straddling ack, while the stream is open, the bytes taken off `sent` were all covered by one acceptable ack that had arrived, and that ack covered only bytes already sent. |
| TcpFlow.StepCovered | code/TCPLIB/TCP.CPP:2218-2262 | The step behind it: nothing is removed, or the arriving ack covers what is. |
| TcpRuns.SentTiles | code/TCPLIB/TCP.CPP:2588-2608 | While the connection is open the packets on `sent` tile [oldestUnackedSeq, seqNum) without gap or overlap. |
| TcpFlow.FlowControl | code/TCPLIB/TCP.CPP:2557-2582 | In every run the "violated their remote window" branch is never taken, and seqNum passes the peer's right edge (ack + window of the packet whose window was last adopted) exactly if that ack was further behind seqNum, plus our FIN, than the window left. |
| TcpFlow.EdgeKept | code/TCPLIB/TCP.CPP:1782-1803 | If no step adopts a window from a packet whose ack is behind seqNum, no byte is ever sent past ack + window; our FIN passes it only when sent on a window that is used up. |
| TcpFlow.AdoptionEdge | code/TCPLIB/TCP.CPP:1782-1803 | Adopting a window puts the right edge at seqNum plus the window if and only if the packet acknowledges all that was sent, and otherwise as far behind as its ack is. |
| TcpFlow.StaleWhen | code/TCPLIB/TCP.CPP:1703-1710 | While the stream is open, an acceptable packet brings a stale window exactly if it does not ack everything and either nothing is outstanding (then any number passes the ack test) or its ack straddles. |
| TcpFlow.UntrackedFinStale | code/TCPLIB/TCP.CPP:1762-1803 | With our FIN sent but not on `sent`, the ack of everything before it is adopted with the edge one number behind. |
| TcpExamples.EdgePassed | code/TCPLIB/TCP.CPP:1703-1803 | A run from a fresh socket in which two acks arrive in the wrong order and three bytes are sent although both acks end the window after two. |
| TcpTeardown.TeardownOnEveryRun | code/TCPLIB/TCP.CPP:1128-1156 | In every run whatever, simultaneous opens and closes at any moment included: FIN is added at most once, and has been exactly in the states after it; the peer's FIN is counted at most once, and exactly in the states that say so; FIN_WAIT_2 and TIME_WAIT are reached only after an ack of everything sent including our FIN, TIME_WAIT only after the peer's FIN. |
| TcpTeardown.StepTorn | code/TCPLIB/TCP.CPP:1843-1949 | The invariant behind it holds after every kind of step, from any state that has it. |
| TcpRuns.Teardown | code/TCPLIB/TCP.CPP:1128-1156 | In every good run our FIN stands after every byte of the stream, data queued before the close included. |
| TcpExamples.SynAckNeverSent | code/TCPLIB/TCP.CPP:1128-1156 | Why that last one needs a good run: both sides open, we close before the SYN-ACK went out, and the packet meant for it leaves with the FIN instead of the SYN, under the SYN's number. |
| TcpRuns.StepStream | code/TCPLIB/TCP.CPP:1537-1960 | The invariant behind these three theorems holds after every kind of step. |
| TcpRuns.DriveLoopStream | code/TCPLIB/TCP.CPP:2557-2615 | Sending from `outgoing` keeps the stream invariant. |
| TcpRuns.RemoveSentStream | code/TCPLIB/TCP.CPP:2200-2278 | Removing acknowledged packets keeps the stream invariant. |
| TcpRuns.SendLoopStream | code/TCPLIB/TCP.CPP:2434-2456 | The copy loop of send keeps the stream invariant and appends exactly the bytes it took. |
| TcpRuns.AcceptStream | code/TCPLIB/TCP.CPP:1762-1949 | An acceptable packet keeps the stream invariant, whatever it does to the state. |
| TcpRuns.CloseStream | code/TCPLIB/TCP.CPP:656-726 | closeLocal keeps the stream invariant in every state. |
| TcpRuns.OpenStream | code/TCPLIB/TCP.CPP:1628-1640 | The SYN-ACK of our SYN establishes the invariant for the open connection. |
| TcpAcks.AckTest | code/TCPLIB/TCP.CPP:1692-1710 | The ack test accepts exactly the acks no further ahead of oldestUnackedSeq than seqNum is, except that it accepts every ack when the two are equal. |
| TcpAcks.RemovalTest | code/TCPLIB/TCP.CPP:2239-2240 | What the removal test decides, in terms of distance around the 32-bit circle. |
| TcpAcks.AckRemovesExactly | code/TCPLIB/TCP.CPP:2200-2278 | removeSentPackets removes exactly the packets the ack covers, and no more bytes than it acknowledges, if and only if the packets on `sent` do not straddle 2^32 with the ack not past it; otherwise it removes everything. |
| TcpAcks.NoWrapNoStraddle | code/TCPLIB/TCP.CPP:2218-2240 | While the sequence numbers in flight have not wrapped, that exception cannot arise. |
| TcpReceive.ReceiveStream | code/TCPLIB/TCP.CPP:1715-1838 | After an active open, whatever is lost, duplicated (the SYN-ACK and probes one byte behind included) or reordered, the data delivered is exactly the first ackNum - (IRS+1) bytes of the peer's stream, and the peer's FIN is counted at most once and only after all of it. |
| TcpReceive.AcceptRecv | code/TCPLIB/TCP.CPP:1806-1838 | An in-sequence packet delivers its data and advances ackNum by as much, and by its FIN in the phases that count it; or, exactly if its data finds no room, none of that ("play dead"). |
| TcpReceive.FinAfterData | code/TCPLIB/TCP.CPP:1843-1920 | The peer's FIN is only counted after the data before it. |
| TcpReceive.WireSuitsReceiver | code/TCPLIB/TCP.CPP:1060-1156 | Every segment this engine sends but a reset, empty ones included, is for a receiver that took our SYN a slice of one stream or stands one number beside it; a SYN always has the first number. |
| TcpReceive.WireFromPeer | code/TCPLIB/TCP.CPP:1060-1156 | So each of them meets what the receive theorem asks of a peer's segments, as long as the stream is shorter than one circle. |
| TcpReceive.PacketDisposedOnce | code/TCPLIB/TCP.CPP:1826-2004 | Every path of process and process2 frees the packet exactly once or queues it for the user exactly once. |
| TcpPackets.StepAccounts | code/TCPLIB/TCP.CPP:2016-2116 | In every step of every kind, packets freed plus packets queued for the user grow by the arriving packet and by nothing else. |
| TcpPackets.WindowIsRoom | code/TCPLIB/TCP.CPP:1183-1218 | In every run of a socket with a receive buffer the window it would advertise never exceeds the free room (and equals it when not restricted), and data is refused exactly if it does not fit the free room. |
| TcpWindow.WindowsKept | code/TCPLIB/TCP.CPP:1183-1218 | In every run, while the socket is not CLOSED, no header ever put on the wire, first time or again, allowed more than there is room for now: its ack plus its window is at most the present ackNum plus the free room. |
| TcpPool.PoolOnEveryRun | code/TCPINC/TCP.H:248-263 | In every run every transmit buffer is in exactly one of the free stack, `outgoing`, `sent` and the user's hands, and Pending_Sent is the length of `sent`. |
| TcpPool.StepKeeps | code/TCPLIB/TCP.CPP:941-985 | Every step of every kind conserves the pool and both counters. |
| TcpPool.GateIsSafe | code/TCPINC/TCP.H:507-509 | Exactly when drivePackets skips drivePackets2, with the acks replaced by enqueue counted in; with fewer than 2^16 of them no queued work is skipped. |
| TcpDrift.AnswerSkipped | code/TCPINC/TCP.H:507-509 | A run from a fresh socket, with the gate heeded at every tick, in which after 65534 exchanges the user's answer is queued, nothing is outstanding, and drivePackets skips it. |
| TcpDrift.Exchanged | code/TCPLIB/TCP.CPP:951-961 | One exchange (the peer's data, the user's answer before the ack went out, the peer's ack) leaves the counter one further off, from any calm state. |
| TcpPool.ClearQueuesKeeps | code/TCPLIB/TCP.CPP:819-842 | clearQueues gives every queued buffer back once and empties both queues. |
| TcpAnswers.Retransmits | code/TCPLIB/TCP.CPP:2476-2547 | A packet sent once is sent again, the same header and data, at each of the next ten timeouts, and nothing else happens. |
| TcpAnswers.GivesUp | code/TCPLIB/TCP.CPP:2484-2507 | The eleventh timeout sends nothing and closes the socket with reason 4. |
| TcpTransfers.ElevenSendings | code/TCPLIB/TCP.CPP:2476-2608 | A packet that is never acknowledged is put on the wire eleven times, the same segment each time: at the first tick that may send it and at ten timeouts; the next timeout closes the socket with reason 4. |
| TcpTransfers.TickSendsAll | code/TCPLIB/TCP.CPP:2557-2615 | One tick sends all that is queued, if it fits the peer's window and the slots of `sent`: each packet once, in order, with consecutive numbers and the present ack and window; a FIN that is due goes with the last. |
| TcpTransfers.SendCuts | code/TCPLIB/TCP.CPP:2437-2456 | On an idle queue, or one with only an ack, send cuts the data into packets of the smaller of maxEnqueue and the peer's window, the last one perhaps shorter. |
| TcpTransfers.SentAtNextTick | code/TCPLIB/TCP.CPP:2420-2460 | On an idle connection the bytes send takes are, in order, exactly what the next tick puts on the wire from seqNum on. |
| TcpTransfers.ArpLate | code/TCPLIB/TCP.CPP:1035-1045 | While the hardware address is unknown nothing goes out, though the numbers are taken; once ARP has answered the packet goes out as it was made up. |
| TcpTransfers.SendTold | code/TCPLIB/TCP.CPP:2420-2460 | send answers -1 unless ESTABLISHED, otherwise the number of bytes it queued: the first ones, all of them unless the window is zero, the queue full or no buffer free. |
| TcpTransfers.EnqueueTold | code/TCPLIB/TCP.CPP:923-986 | enqueue answers 0 with the packet last on the queue and its data at the end of the stream; -5 for a packet larger than maxEnqueue; -1 in CLOSED and CLOSING, in TIME_WAIT but for connectPacket, and when four are queued. |
| TcpTransfers.RecvTold | code/TCPLIB/TCP.CPP:2346-2403 | recv answers -6 in CLOSED, SYN_SENT and SYN_RECVED, otherwise the number of bytes copied out, the first ones and as many as there are room and data for. |
| TcpTransfers.CloseSendsFin | code/TCPLIB/TCP.CPP:656-726 | close and a tick: the queued data goes out in order, and the FIN with the last of it, on a packet of its own if there was none; FIN_WAIT_1, or LAST_ACK after the peer's FIN. |
| TcpAnswers.OutOfOrderAnswered | code/TCPLIB/TCP.CPP:1956-1968 | ESTABLISHED: a segment that cannot be used and is no reset puts exactly one empty ACK on the wire, with seqNum, ackNum and the room there is. |
| TcpAnswers.OutOfOrderIgnored | code/TCPLIB/TCP.CPP:1399-1402 | In the later states such a segment is not answered, where RFC 793 wants an ACK. |
| TcpAnswers.RecvReopens | code/TCPLIB/TCP.CPP:2392-2399 | A recv from a full buffer puts exactly one empty ACK on the wire, offering the room just freed, or what the restriction leaves of it. |
| TcpAnswers.RecvQuiet | code/TCPLIB/TCP.CPP:2392-2399 | Otherwise recv sends nothing. |
| TcpAnswers.ProbeSent | code/TCPLIB/TCP.CPP:2567-2583 | A packet that does not fit the peer's window waits; each time the probe timer runs out exactly one empty ACK goes out, numbered one before seqNum. |
| TcpAnswers.ProbeAnswered | code/TCPLIB/TCP.CPP:1956-1968 | And this engine as the peer answers such a probe with its ackNum and its room. |
| TcpAnswers.WindowReopens | code/TCPLIB/TCP.CPP:1798-1803 | The user reads from a full buffer, and the peer may send that much again. |
| TcpAnswers.RestrictedAfterFive | code/TCPLIB/TCP.CPP:1974-1979 | The window is restricted from the fifth unusable segment in a row on, and not before. |
| TcpAnswers.LiftedAfterFiftyOne | code/TCPLIB/TCP.CPP:1762-1775 | The restriction is lifted by the fifty-first usable segment in a row, and not before. |
| TcpAnswers.ResetClosesPeer | code/TCPLIB/TCP.CPP:1292-1362 | A segment for a closed socket is answered with one reset, and that reset closes the peer that sent it: in SYN_SENT by its SYN, later by a segment acknowledging what it had received. |
| TcpAnswers.ResetBelieved | code/TCPLIB/TCP.CPP:1722-1758 | Exactly which resets close the socket: in SYN_SENT those that acknowledge our SYN, later those in sequence, in SYN_RECVED one behind as well; any other changes nothing. |
| TcpAnswers.WindowTakenWhen | code/TCPLIB/TCP.CPP:1798-1803 | The window of an acceptable segment is taken exactly if nothing is left outstanding. |
| TcpAnswers.ResetNotAnswered | code/TCPLIB/TCP.CPP:1294-1295 | A reset is never answered. |
| TcpAnswers.SynSentResets | code/TCPLIB/TCP.CPP:1610-1683 | In SYN_SENT everything but a SYN, and a SYN-ACK for another SYN, is answered with a reset and changes nothing. |
| TcpSizes.SegmentsFit | code/TCPLIB/TCP.CPP:923-937 | On every run no segment carries more data than maxEnqueue, nor maxEnqueue more than our own segment size. |
| TcpHandshakes.Opens | code/TCPLIB/TCP.CPP:1628-1640 | connect, for any numbers and windows: our SYN with the initial number and our MSS, the SYN-ACK, our ack; the connection is up with the peer's window and the smaller segment size, 536 without an option. |
| TcpHandshakes.ConnectsOnce | code/TCPLIB/TCP.CPP:418-456 | connect on a socket that is not closed changes nothing. |
| TcpHandshakes.SimultaneousOpens | code/TCPLIB/TCP.CPP:1648-1674 | Both ends open at once: our SYN again, as a SYN-ACK under its first number, and with its ack the connection is up. |
| TcpHandshakes.SynAckNotAcked | code/TCPLIB/TCP.CPP:1871-1888 | In SYN_RECVED an acceptable segment that does not acknowledge the SYN-ACK empties both queues and is answered with a reset. |
| TcpHandshakes.Exchange | code/TCPLIB/TCP.CPP:1806-1838 | Two of these engines, idle and in step, any numbers: data the one's user sends is delivered once to the other, acknowledged, and both are idle behind it. |
| TcpHandshakes.DataAcknowledged | code/TCPLIB/TCP.CPP:1806-1838 | Data in order is delivered (dropped if reads are shut down) and acknowledged at the next tick. |
| TcpHandshakes.DataHeard | code/TCPLIB/TCP.CPP:1806-1838 | If a packet is waiting already, the ack rides on it and nothing more is queued. |
| TcpHandshakes.CloseEnds | code/TCPLIB/TCP.CPP:656-726 | close ends the connection at once in TIME_WAIT and SYN_SENT, does nothing a second time or on a closed socket, and otherwise makes a FIN due, with the queued packets or one of its own to ride on. |
| TcpHandshakes.ActiveClose | code/TCPLIB/TCP.CPP:1903-1943 | We close first: our FIN, its ack, the peer's FIN, our ack, with the numbers of RFC 793, through FIN_WAIT_1 and FIN_WAIT_2 to TIME_WAIT. |
| TcpHandshakes.PassiveClose | code/TCPLIB/TCP.CPP:1843-1900 | The peer closes first: our ack, after our close our FIN, and with its ack the connection is CLOSED. |
| TcpHandshakes.SimultaneousClose | code/TCPLIB/TCP.CPP:1903-1949 | The FINs cross: CLOSING, and TIME_WAIT once ours is acknowledged. |
| TcpLimits.StraddleExample | code/TCPLIB/TCP.CPP:2239-2240 | A state of the stream invariant in which a duplicate ack, acknowledging nothing, empties `sent` of 22 unacknowledged bytes. |
| TcpLimits.FinHeaderOverwritten | code/TCPLIB/TCP.CPP:1993-1999 | A FIN on connectPacket still waiting on `sent` keeps its FIN bit exactly if nothing is queued when the loop runs: an ack sent from the same packet overwrites the header. |
| TcpLimits.FinTracked | code/TCPLIB/TCP.CPP:2596-2608 | The last queued packet, with data or none and whatever is on `sent`, takes the FIN along, and gets on `sent` exactly if its ack-only mark is not left over. |
| TcpLimits.FinUntracked | code/TCPLIB/TCP.CPP:2557-2608 | Two queued acks from connectPacket leave that mark, and the FIN is never retransmitted. |
| TcpExamples.UntrackedFinReached | code/TCPLIB/TCP.CPP:1843-1935 | A run from a fresh socket that ends there: LAST_ACK, one FIN sent, nothing on `sent` to send again. |
| TcpLimits.FinAckedUnlessClosing | code/TCPLIB/TCP.CPP:1903-1931 | The peer's FIN arriving in FIN_WAIT_1, with data or without, is acknowledged exactly if its data finds room and it also acknowledges ours. |
| TcpLimits.ClosingSilent | code/TCPLIB/TCP.CPP:1903-1949 | In CLOSING no packet is answered; the peer's FIN once more changes nothing but the error counts. |
| TcpExamples.ClosingReached | code/TCPLIB/TCP.CPP:1903-1931 | A run from a fresh socket in which the two FINs cross: CLOSING, the peer's FIN counted, and nothing queued or ever sent acknowledges it. |
| TcpLimits.LastAckUnchecked | code/TCPLIB/TCP.CPP:1897-1900 | LAST_ACK goes to CLOSED on exactly the acceptable packets whose data, if any, finds room; our FIN is acknowledged by then exactly if the packet acks all we sent. |
| TcpExamples.ClosedUnacked | code/TCPLIB/TCP.CPP:1897-1900 | A run that reaches CLOSED from LAST_ACK on a repeated old ack, with the FIN unacknowledged. |
| TcpLimits.DataAfterFin | code/TCPLIB/TCP.CPP:923-937 | Exactly in which states enqueue still accepts data after our FIN was sent. |
| TcpLimits.OneBehindAccepted | code/TCPLIB/TCP.CPP:1717-1721 | In SYN_RECVED the data of a segment in sequence or one byte behind is delivered, exactly if its ack is acceptable, there is room and reads are not shut down; otherwise none is. |
| TcpLimits.SendEndsUnlessSpinning | code/TCPLIB/TCP.CPP:2434-2456 | The loop of send ends if and only if the state is not a spinning one, and then in the state SendLoop gives. |
| TcpLimits.SpinsMeans | code/TCPLIB/TCP.CPP:2434-2456 | Spinning is exactly: send size zero, data left, and an empty queue with two buffers free, or one empty packet queued and a buffer free (two if that packet is connectPacket). |
| TcpLimits.ZeroSizeSendsNothing | code/TCPLIB/TCP.CPP:2434-2456 | With a send size of zero no turn of that loop queues any data. |
| TcpExamples.SpinReached | code/TCPLIB/TCP.CPP:2434-2456 | A peer that advertises an MSS of zero leads a fresh socket to a state in which send never returns. |
| TcpSockets.TcpSocket.constructor | code/TCPLIB/TCP.CPP:299-404 | A fresh socket with its pool and, for sizes from 512 to 16384, its receive ring. |
| TcpSockets.TcpSocket.GetXmitBuf | code/TCPINC/TCP.H:248-254 | Pops the free stack. |
| TcpSockets.TcpSocket.ReturnXmitBuf | code/TCPINC/TCP.H:257-263 | Pushes a pool buffer; connectPacket is left alone. |
| TcpSockets.TcpSocket.SendPacket | code/TCPLIB/TCP.CPP:1027-1280 | The whole of sendPacket: the header, the sequence numbers, SYN, FIN, window, ARP. |
| TcpSockets.TcpSocket.AddControl | code/TCPLIB/TCP.CPP:1078-1164 | Code bits, sequence numbers, state and MSS option by state. |
| TcpSockets.TcpSocket.ComputeWindow | code/TCPLIB/TCP.CPP:1183-1218 | The window it advertises. |
| TcpSockets.TcpSocket.RetryArp | code/TCPLIB/TCP.CPP:1035-1045 | A packet filled in before goes out as it was, once the address is known. |
| TcpSockets.TcpSocket.SendPureAck | code/TCPLIB/TCP.CPP:1385-1416 | One empty ack or probe, only while ESTABLISHED. |
| TcpSockets.TcpSocket.SendResetPacket | code/TCPLIB/TCP.CPP:1292-1362 | The reset it answers with, and when it does not. |
| TcpSockets.TcpSocket.ReplaceAck | code/TCPLIB/TCP.CPP:951-961 | A lone queued ack gives way to what follows it. |
| TcpSockets.TcpSocket.Enqueue | code/TCPLIB/TCP.CPP:923-986 | The new state and the return code in every case. |
| TcpSockets.TcpSocket.ClearQueues | code/TCPLIB/TCP.CPP:819-842 | All three loops: every buffer back in the pool, every packet freed, counters adjusted. |
| TcpSockets.TcpSocket.Destroy | code/TCPLIB/TCP.CPP:850-881 | Queues cleared, closed, receive buffer gone. |
| TcpSockets.TcpSocket.CloseLocal | code/TCPLIB/TCP.CPP:656-726 | The new state in every state, and a FIN packet only if nothing is queued. |
| TcpSockets.TcpSocket.Connect | code/TCPLIB/TCP.CPP:418-456 | The SYN queued, or an error on a socket that is not closed. |
| TcpSockets.TcpSocket.RemoveSentPackets | code/TCPLIB/TCP.CPP:2200-2278 | The loop computes RemoveSent, to which AckRemovesExactly applies. |
| TcpSockets.TcpSocket.FirstSent | code/TCPLIB/TCP.CPP:2588-2608 | From `outgoing` to `sent`, or back to the pool for a bare ack. |
| TcpSockets.TcpSocket.DriveOutgoing | code/TCPLIB/TCP.CPP:2557-2615 | The loop over packets waiting to be sent. |
| TcpSockets.TcpSocket.ResendPacket | code/TCPLIB/TCP.CPP:999-1017 | The same header and data again, one attempt more. |
| TcpSockets.TcpSocket.DrivePackets | code/TCPLIB/TCP.CPP:2465-2617 | Retransmission, giving up, or sending, for one socket. |
| TcpSockets.TcpSocket.ProcessPacketData | code/TCPLIB/TCP.CPP:2016-2116 | Which data is taken, which packet is kept, and when to play dead. |
| TcpSockets.TcpSocket.CreditPacket | code/TCPLIB/TCP.CPP:1762-1803 | Streak counters, removal of acknowledged packets, adoption of the window. |
| TcpSockets.TcpSocket.ChangeState | code/TCPLIB/TCP.CPP:1843-1949 | The state switch and whether it asks for a packet. |
| TcpSockets.TcpSocket.ProcessAcceptable | code/TCPLIB/TCP.CPP:1762-2004 | Everything an acceptable packet does. |
| TcpSockets.TcpSocket.ProcessSynSent | code/TCPLIB/TCP.CPP:1610-1683 | Everything a packet does in SYN_SENT. |
| TcpSockets.TcpSocket.CompleteOpen | code/TCPLIB/TCP.CPP:1628-1640 | The connection is up. |
| TcpSockets.TcpSocket.OpenSimultaneously | code/TCPLIB/TCP.CPP:1648-1674 | Both sides opened: back to the original sequence number, queues cleared, SYN-ACK queued. |
| TcpSockets.TcpSocket.SetMaxEnqueueSize | code/TCPLIB/TCP.CPP:897-912 | The smaller of the two segment sizes. |
| TcpSockets.TcpSocket.ProcessSynchronized | code/TCPLIB/TCP.CPP:1687-1989 | Acceptance tests, reset, error path. |
| TcpSockets.TcpSocket.Process | code/TCPLIB/TCP.CPP:1423-1535 | Routing to the socket or to the reset of a closed one. |
| TcpSockets.TcpSocket.Send | code/TCPLIB/TCP.CPP:2420-2460 | The number of bytes taken, and the packets they are in, from every state in which the loop ends. |
| TcpSockets.TcpSocket.SendNext | code/TCPLIB/TCP.CPP:2437-2456 | One turn of that loop. |
| TcpSockets.TcpSocket.Recv | code/TCPLIB/TCP.CPP:2346-2403 | The bytes copied out, the code returned, and the ack that reopens the window. |
| TcpSockets.TcpSocket.TakeIncoming | code/TCPINC/TCP.H:445-447 | The oldest raw packet goes to the user. |
| RingBuffers.RingBuffer.Enqueue | code/TCPINC/RINGBUF.H:71-78 | Appends, or -1 when full. |
| RingBuffers.RingBuffer.Dequeue | code/TCPINC/RINGBUF.H:80-87 | Takes the oldest, or none. |
| RingBuffers.RingBuffer.Peek | code/TCPINC/RINGBUF.H:89-96 | The oldest, or none. |
| RingBuffers.RingBuffer.HasRoom | code/TCPINC/RINGBUF.H:98 | True exactly while there is a free slot. |
| Circular.MaskIsMod | code/TCPINC/RINGBUF.H:47-50 | Masking with one less than any power of two is reduction modulo it. |
| Circular.CyclicDrop | code/TCPINC/RINGBUF.H:80-87 | Moving `first` drops from the front. |
| ReceiveRings.ReceiveRing.constructor | code/TCPLIB/TCP.CPP:372-408 | Sizes out of range, or no memory, leave the socket without a buffer. |
| ReceiveRings.ReceiveRing.AddToRcvBuf | code/TCPLIB/TCP.CPP:2286-2336 | Appends all of the data exactly if it fits the free room, across one or two copies. |
| ReceiveRings.ReceiveRing.Take | code/TCPLIB/TCP.CPP:2367-2389 | Removes from the front what is copied out; the ring stays a FIFO with last = first + entries around the ring. |
| Circular.CyclicStored | code/TCPLIB/TCP.CPP:2299-2333 | Two copies around the end of a ring append. |
| Circular.CyclicPieces | code/TCPLIB/TCP.CPP:2378-2387 | Two copies around the end of a ring read from the front. |
| Reassembly.ProcessKeeps | code/TCPLIB/IP.CPP:816-987 | For every fragment: lists stay sorted and below the slot limit, keys distinct, fragsInReassembly equal to the controls in use, and the arriving buffer is held once or freed once. |
| Reassembly.InsertPos | code/TCPLIB/IP.CPP:898-910 | The first position whose offset is not below the new one. |
| Reassembly.InsertedSorted | code/TCPLIB/IP.CPP:898-939 | Insertion there keeps the list sorted. |
| Reassembly.KillBalanced | code/TCPLIB/IP.CPP:616-627 | killFragmentControl frees exactly the buffers the list held. |
| Reassembly.PurgeKeeps | code/TCPLIB/IP.CPP:702-725 | purgeOverdue frees exactly the lists whose timers ran out. |
| ReassemblyExact.ReassemblyExactly | code/TCPLIB/IP.CPP:816-987 | Any split into 2 to 10 nonempty pieces, in any order, with duplicates, among any other traffic, timeouts of others and returned BigPackets: the datagram comes out exactly when its last missing piece arrives, with its data and total_length. |
| ReassemblyExact.DatagramTiled | code/TCPLIB/IP.CPP:733-799 | Whatever comes out is the data of fragments of its own key that follow one another without gap; it fits its BigPacket exactly if each fragment ends within one, and then they tile it and its length field is right. |
| ReassemblyExact.DatagramFits | code/TCPLIB/IP.CPP:733-799 | With fragments below 2^16 every datagram passed on fits its BigPacket. |
| ReassemblyExact.BoundedKeeps | code/TCPLIB/IP.CPP:882-888 | With offset plus length below 2^16, every fragment held ends within a BigPacket. |
| ReassemblyExact.SizeCheck | code/TCPLIB/IP.CPP:847-852 | Exactly which fragments the 16-bit size check lets by. |
| ReassemblyExact.TooLongPassedOn | code/TCPLIB/IP.CPP:847-852 | A run from the initial table: two fragments that the size check lets by, and 65536 bytes passed on in a BigPacket of 2048 with a length field of 20. |
| FragTables.CopyInside | code/TCPLIB/IP.CPP:775-781 | The copy of a complete list leaves the memory behind the BigPacket alone if and only if the datagram fits. |
| ReassemblyExact.OverlapAborts | code/TCPLIB/IP.CPP:912-926 | With room in the list and a BigPacket free, a fitting fragment that is no repetition aborts the reassembly if and only if it reaches into the fragment that follows it. |
| ReassemblyExact.OverlapUnnoticed | code/TCPLIB/IP.CPP:912-953 | A fragment that only an earlier one reaches into is not noticed: both are kept (or the list is killed as full) and nothing is passed on. |
| ReassemblyExact.UnnoticedExample | code/TCPLIB/IP.CPP:912-953 | Bytes 0-15, then 8-23 as the last fragment: both are kept and nothing comes out. |
| ReassemblyExact.OverlapNeverCompletes | code/TCPLIB/IP.CPP:921-968 | A list with an overlap never completes, whatever arrives. |
| ReassemblyExact.NotAdded | code/TCPLIB/IP.CPP:875-926 | When a further fragment is not added: past 2048 in sixteen bits or reaching into its successor the list is dropped and all of it freed; the same offset and length once more is freed alone, but its last mark counts. |
| ReassemblyExact.TenthDrops | code/TCPLIB/IP.CPP:970-983 | A list never holds ten fragments: the tenth is not kept. |
| ReassemblyExact.TouchesOwnKey | code/TCPLIB/IP.CPP:590-608 | processFragment touches no other datagram's list. |
| FragTables.FragControl.FindSlot | code/TCPLIB/IP.CPP:898-910 | The search loop finds InsertPos. |
| FragTables.FragControl.CompareAt | code/TCPLIB/IP.CPP:912-921 | Repetition and overlap are tested against the following fragment, overlap in 16 bits. |
| FragTables.FragControl.Insert | code/TCPLIB/IP.CPP:928-941 | Shifting three arrays in place inserts the fragment. |
| FragTables.FragControl.IsComplete | code/TCPLIB/IP.CPP:955-966 | The loop decides contiguity from zero. |
| FragTables.FragTable.constructor | code/TCPLIB/IP.CPP:636-666 | All controls free, all BigPackets on the stack. |
| FragTables.FragTable.FindFragControl | code/TCPLIB/IP.CPP:590-597 | The first control in use for the key. |
| FragTables.FragTable.FindOpenFragControl | code/TCPLIB/IP.CPP:602-609 | The first free control. |
| FragTables.FragTable.KillFragmentControl | code/TCPLIB/IP.CPP:616-627 | Frees the list, in place. |
| FragTables.FragTable.FillBigPacket | code/TCPLIB/IP.CPP:768-784 | The copy loop puts each fragment's data where the sum of the lengths before it, in 16 bits, says, past the end of the BigPacket if need be; data that fits lies there one after the other. The length field is the sum plus the header, in 16 bits. |
| FragTables.FragTable.MakeBigPacket | code/TCPLIB/IP.CPP:733-799 | The BigPacket it passes on holds the payload if that fits; without one the list is dropped. |
| FragTables.FragTable.AddFragment | code/TCPLIB/IP.CPP:875-983 | Everything that can happen to a further fragment. |
| FragTables.FragTable.StartReassembly | code/TCPLIB/IP.CPP:834-873 | Everything that can happen to a first fragment. |
| FragTables.FragTable.ProcessFragment | code/TCPLIB/IP.CPP:816-987 | The imperative routine computes the function the theorems are about. |
| FragTables.FragTable.PurgeOverdue | code/TCPLIB/IP.CPP:702-725 | The loop over the controls. |
| FragTables.FragTable.ReturnBigPacket | code/TCPLIB/IP.CPP:690-692 | Back on the BigPacket stack. |
| PacketBuffers.BufferPool.constructor | code/TCPLIB/PACKET.CPP:143-208 | Every buffer on the stack, none offered yet. |
| PacketBuffers.BufferPool.StartReceiving | code/TCPLIB/PACKET.CPP:219 | All buffers become available. |
| PacketBuffers.BufferPool.ReceiverOffer | code/TCPLIB/PACKET.CPP:360-379 | First upcall: a buffer, or none for a long packet or an empty stack. |
| PacketBuffers.BufferPool.ReceiverCopied | code/TCPLIB/PACKET.CPP:380-398 | Second upcall: the packet goes on the ring. |
| PacketBuffers.BufferPool.HasWork | code/TCPINC/UTILS.H:135-144 | first == next exactly if the ring is empty. |
| PacketBuffers.BufferPool.TakeNext | code/TCPLIB/PACKET.CPP:594-615 | The oldest packet leaves the ring. |
| PacketBuffers.BufferPool.BufferFree | code/TCPLIB/PACKET.CPP:227-247 | Back on the free stack. |
| Ownership.OwnershipOnEveryRun | code/TCPLIB/PACKET.CPP:227-247 | For every interleaving of the driver's upcalls with the foreground, IP, TCP, the user and the clock: every receive buffer and every BigPacket is in exactly one place, BigPackets never on the normal free stack, packets are processed in order of arrival, fragsInReassembly counts the controls in use. |
| Ownership.StepKeeps | code/TCPLIB/PACKET.CPP:360-398 | Each atomic step keeps that. |
| Ownership.RingNeverOverrun | code/TCPLIB/PACKET.CPP:380-395 | When a packet has been copied the ring always has a slot for it. |
| Ownership.FreeStackNeverOverrun | code/TCPLIB/PACKET.CPP:227-247 | Buffer_free always finds a slot on the stack it uses. |
| Ownership.FragmentBig | code/TCPLIB/IP.CPP:534-547 | A BigPacket leaves its stack exactly when a datagram is passed on in it. |
| Ownership.OfferGranted | code/TCPLIB/PACKET.CPP:360-379 | The driver gets a buffer exactly for a packet of at most 1514 bytes while one is free. |
| Ownership.PacketsFit | code/TCPLIB/PACKET.CPP:360-398 | On every run in which the driver's second call has the length of its first, no packet that ever arrives is longer than 1514 bytes. |
| Ownership.PacketThrough | code/TCPLIB/PACKET.CPP:360-398 | A packet that arrives while nothing else happens goes from the top free buffer over the ring into a handler's hands. |
| Checksum.Ipchksum | code/TCPLIB/IPASM.ASM:78-121 | The carry-chained loop computes the RFC 1071 checksum of any buffer of at least two bytes, odd lengths included. |
| Checksum.IpPChksum | code/TCPLIB/IPASM.ASM:133-254 | The unrolled loops compute the checksum of pseudo header and data, for eight bytes or more. |
| Checksum.IpPChksum2 | code/TCPLIB/IPASM.ASM:269-422 | With header and data apart, the checksum of header followed by data; data shorter than eight bytes included. |
| Checksum.PseudoHeader | code/TCPLIB/IPASM.ASM:149-179 | Addresses, protocol and swapped length add up as the pseudo header's bytes. |
| Checksum.AdcHolds | code/TCPLIB/IPASM.ASM:96-101 | The register and the carry always stand for the folded sum; 0xFFFF with carry set is unreachable. |
| Checksum.AdcZero | code/TCPLIB/IPASM.ASM:101 | The closing adc brings in the last carry and never carries itself. |
| Checksum.SimpleChecksum | code/TCPLIB/IP.CPP:145-166 | The 32-bit algorithm computes the same checksum. |
| Checksum.PseudoChecksum | code/TCPLIB/IP.CPP:173-231 | And so does its pseudo header form. |
| Checksum.FoldIs | code/TCPLIB/IP.CPP:161-163 | What folding the carries back in leaves, and that it is unique. |
| Checksum.StoredChecksumVerifies | code/TCPLIB/TCP.CPP:1237-1253 | Storing the checksum in its aligned field, zero before, makes the receiver compute zero. |
| Checksum.AcceptedIff | code/TCPLIB/TCP.CPP:1452-1464 | Exactly which packets the receiver accepts. |
| Checksum.OneWordErrorDetected | code/TCPLIB/IP.CPP:1008-1016 | After a change of one word a packet still verifies exactly if 0 and 0xFFFF were exchanged. |
| Checksum.ByteOrderDoesNotMatter | code/TCPLIB/IPASM.ASM:166-179 | The little-endian result is the byte swap of the big-endian one. |
| Checksum.RfcExample | code/TCPLIB/IPASM.ASM:96-101 | The example of RFC 1071. |
| Checksum.PseudoExample | code/TCPLIB/IPASM.ASM:149-179 | The pseudo header of RFC 793, for any protocol and length. |
| IrcMessage.ParseExactly | code/BOT/parse.nas:105-262 | doParse succeeds exactly on the printed forms of well-formed messages that fit 512 stored bytes, and its result is that message. |
| IrcMessage.ParsePrinted | code/BOT/parse.nas:244-262 | Printing, then parsing, gives every field back. |
| IrcMessage.ParsedWasPrinted | code/BOT/parse.nas:229-262 | Whatever parses was printed from a well-formed message with those fields. |
| IrcMessage.SlicesTileBuffer | code/BOT/parse.nas:175-227 | On every success tags, prefix, command and one to three parameters tile the used part of parseBuffer in order. |
| IrcMessage.PlainRoundTrip | code/BOT/parse.nas:199-227 | For ordinary messages: tags, prefix, command, up to two middle parameters and a last one with any bytes but CR all come back. |
| IrcMessage.ParseExample | code/BOT/parse.nas:244-262 | One message with tags, prefix, command and two parameters, byte by byte. |
| IrcMessage.CopyWordMakes | code/BOT/parse.nas:105-118 | copyWord stores a word up to a space or CR. |
| IrcMessage.CopyWordTakes | code/BOT/parse.nas:105-118 | And whenever it succeeds that is what it did. |
| IrcParser.Parser.Peek | code/BOT/parse.nas:27-36 | Fails exactly at the end of input. |
| IrcParser.Parser.Read | code/BOT/parse.nas:38-49 | Takes one byte. |
| IrcParser.Parser.Copy | code/BOT/parse.nas:51-67 | Moves one byte, unless input or buffer is exhausted. |
| IrcParser.Parser.CopyWord | code/BOT/parse.nas:105-118 | The loop computes CopyWord. |
| IrcParser.Parser.CopyToCR | code/BOT/parse.nas:165-173 | The loop computes CopyToCR. |
| IrcParser.Parser.SkipSpace | code/BOT/parse.nas:120-128 | The loop computes SkipSpace. |
| IrcParser.Parser.ParseWordIf | code/BOT/parse.nas:130-140 | An optional marked word. |
| IrcParser.Parser.ParseTags | code/BOT/parse.nas:175-181 | Its slice is what was stored. |
| IrcParser.Parser.ParsePrefix | code/BOT/parse.nas:183-189 | Its slice is what was stored. |
| IrcParser.Parser.ParseCmd | code/BOT/parse.nas:191-196 | Its slice is what was stored. |
| IrcParser.Parser.ParseParams | code/BOT/parse.nas:199-227 | The slice table after the loop, and its length. |
| IrcParser.Parser.ParseCRLF | code/BOT/parse.nas:151-162 | Exactly CR LF. |
| IrcParser.Parser.DoParse | code/BOT/parse.nas:240-262 | The registers and tables compute Parse. |
| IrcParser.Parser.ParamAt | code/BOT/parse.nas:264-286 | The slice of a parameter that exists, otherwise none. |
| Lines.ChunkingDoesNotMatter | code/BOT/state.nas:65-115 | However a stream is cut into packets, exactly its lines are dispatched and the unfinished one stays, if and only if all of them are at most 512 bytes. |
| Lines.SplitIsPartition | code/BOT/state.nas:79-115 | The lines and the tail are the stream, and only lines end in a line feed. |
| Lines.PacketsShort | code/BOT/state.nas:139-140 | Nothing longer than the line buffer is ever held or dispatched. |
| Lines.Collects | code/BOT/state.nas:79-92 | Bytes without a line feed wait in the buffer while there is room for them. |
| Lines.Dispatches | code/BOT/state.nas:90-91 | A line feed dispatches what has been collected, line feed included. |
| Lines.DropsRest | code/BOT/state.nas:93-99 | A full buffer is dispatched as it is, and the rest of its line in the packet is dropped. |
| Lines.Assembler.Append | code/BOT/state.nas:79-115 | The jump loops compute Packet. |
| Lines.Assembler.Skip | code/BOT/state.nas:93-99 | repne scasb stops after the line feed or at the end of the packet. |
| DnsName.DecodeName | code/TCPLIB/DNS.CPP:532-594 | What is left in the buffer and in the byte before it, and the cursor returned, for every message on which the loop ends and stays inside: it never leaves the message and never comes to pointers that only lead to each other. |
| DnsName.EndsIff | code/TCPLIB/DNS.CPP:549-585 | Some number of turns ends the loop, with every read inside the message, if and only if no turn reads outside and none reaches pointers that only lead to each other; what comes after a name is given up does not matter. |
| DnsName.SelfPointer | code/TCPLIB/DNS.CPP:562-566 | The message C0 0C: the loop never ends. |
| DnsName.GivenUpBeforeLoop | code/TCPLIB/DNS.CPP:562-576 | A message with such a pointer behind a label that no longer fits: the loop ends. |
| DnsName.DecodeMeansExpansion | code/TCPLIB/DNS.CPP:532-594 | That is the expansion of RFC 1035 and the position after the name if the name fits, otherwise "!TOO_BIG". |
| DnsName.WalkExpands | code/TCPLIB/DNS.CPP:549-585 | The loop finds exactly the expansion, if it fits the room that is left. |
| DnsName.WalkTooBig | code/TCPLIB/DNS.CPP:569-576 | It gives up exactly if no expansion fits. |
| DnsName.RootByPointer | code/TCPLIB/DNS.CPP:586-591 | The terminator goes before the buffer exactly for one or more pointers in a row that lead to a root byte. |
| DnsName.RootByPointerExample | code/TCPLIB/DNS.CPP:586-591 | A three-byte message with such a name. |
| DnsName.EncodeName | code/TCPLIB/DNS.CPP:418-448 | The loop writes each part with its length in front, and the root. |
| DnsName.EncodeDecode | code/TCPLIB/DNS.CPP:418-448 | A well-formed name of at most 126 bytes, put anywhere in a message, decodes to itself, and decoding ends right after it. |
| DnsName.ExpansionUnique | code/TCPLIB/DNS.CPP:532-594 | A name has one expansion. |
| DnsName.PointerMeans | code/TCPLIB/DNS.CPP:562-566 | The bytes C0 + o / 256 and o % 256 stand for the name at offset o of the message, for every o from 12 on that fits fourteen bits. |
| DnsName.HeaderPointerMeans | code/TCPLIB/DNS.CPP:562-566 | A pointer into the header stands for no name. |
| DnsName.LabelMeans | code/TCPLIB/DNS.CPP:549-585 | A zero byte ends a name; a byte up to 191 is followed by a label of that length, from 64 on too, where RFC 1035 reserves it. |
| DnsName.CursorGivenUp | code/TCPLIB/DNS.CPP:569-591 | A name is given up at the first label that no longer fits, and the cursor returned then stands inside it. |
| XlateTables.XlateTable.Add | code/TCPLIB/UNICODE.CPP:110-140 | The contents after an insertion: the first one for a code point stays, code point zero only uses up room, and none is made once one slot is left. |
| XlateTables.XlateTable.Find | code/TCPLIB/UNICODE.CPP:149-168 | Agrees with the map of what was inserted, and otherwise yields the tofu character. |
| XlateTables.XlateTable.Probe | code/TCPLIB/UNICODE.CPP:122-134 | The probe loop ends, at the code point or at the first hole. |
| XlateTables.XlateTable.Load | code/TCPLIB/UNICODE.CPP:73-101 | The contents after a list of insertions. |
| XlateTables.FirstWins | code/TCPLIB/UNICODE.CPP:110-140 | A code point but zero is found exactly if there was room when it first came, and with the display it first came with; zero never is. |
| XlateTables.EmptySlot | code/TCPLIB/UNICODE.CPP:114-118 | A table that is not full has an empty slot. |
| XlateTables.ZerosFill | code/TCPLIB/UNICODE.CPP:110-140 | Inserting code point zero shows nothing and uses up room each time. |
| XlateTables.NewUsesOne | code/TCPLIB/UNICODE.CPP:110-140 | Any other code point uses up room once. |
| Utf8.DecodeAll | code/TCPLIB/UNICODE.CPP:357-369 | The reading loop over the encodings of any code points gives those code points. |
| Utf8.NextOfEncoded | code/TCPLIB/UNICODE.CPP:186-244 | One encoded code point, whatever follows it, is read back and skipped exactly. |
| Utf8.ByTheTable | code/TCPLIB/UNICODE.CPP:217-244 | Every code point up to 0x10FFFF is encoded by the table of RFC 3629: the number of bytes, the range of each, and the bits in order. |
| Utf8.NoStart | code/TCPLIB/UNICODE.CPP:186-215 | A byte that cannot start a character is skipped alone, as the invalid code point. |
| Utf8.TwentyOneBits | code/TCPLIB/UNICODE.CPP:236-242 | The four-byte form works exactly for upper halves up to 0x1F. |
| Utf8.ThreeBytes | code/TCPLIB/UNICODE.CPP:198-201 | The shift by twelve that drops bits gives the right upper four. |
| ArpModel.ArpOnEveryRun | code/TCPLIB/ARP.CPP:199-451 | In every run: table addresses unique, pendingEntries the slots in use, targets distinct, at most ARP_RETRIES + 1 requests for a pending entry. |
| ArpModel.ResolvesLatest | code/TCPLIB/ARP.CPP:503-512 | resolve answers exactly for addresses learned and not thrown out since, with what was learned last. |
| ArpModel.EvictsOldest | code/TCPLIB/ARP.CPP:376-402 | What a new address drives out is the entry updated least recently, and nothing else changes. |
| ArpModel.IdleDrive | code/TCPINC/ARP.H:177-179 | While pendingEntries is zero there is nothing to drive. |
| ArpModel.ResolveAsks | code/TCPLIB/ARP.CPP:411-451 | In every run: when resolve has no answer, exactly one request goes out if none is under way and a slot is idle, and otherwise nothing changes; afterwards one is under way for the address, or both slots are taken by others. |
| ArpModel.ReplyAnswers | code/TCPLIB/ARP.CPP:263-284 | In every run: a reply from an address asked for makes resolve answer with its hardware address and ends that request alone; any other reply, or the same once more, changes nothing. |
| ArpModel.FourRequests | code/TCPLIB/ARP.CPP:311-335 | A request that is never answered is sent four times in all, at the first three timeouts again, and given up at the fourth. |
| ArpModel.NotYetRepeated | code/TCPLIB/ARP.CPP:318-331 | While its timer runs a request is left alone. |
| ArpModel.RequestTeaches | code/TCPLIB/ARP.CPP:233-243 | In every run a request for our address from somebody else makes resolve answer with his hardware address; no other request changes anything. |
| ArpModel.UpdatedStays | code/TCPLIB/ARP.CPP:344-385 | Hearing from an address again saves its entry from the next eviction. |
| ArpCaches.ArpCache.FindEth | code/TCPLIB/ARP.CPP:199-212 | The first entry for the address. |
| ArpCaches.ArpCache.UpdateEntry | code/TCPLIB/ARP.CPP:344-350 | New address and time. |
| ArpCaches.ArpCache.FindOldest | code/TCPLIB/ARP.CPP:377-385 | The scan finds the first of the oldest. |
| ArpCaches.ArpCache.UpdateOrAddCache | code/TCPLIB/ARP.CPP:358-406 | Update, append, or replace the oldest. |
| ArpCaches.ArpCache.ProcessRequest | code/TCPLIB/ARP.CPP:217-244 | Only requests for us, from others, are learned. |
| ArpCaches.ArpCache.ProcessReply | code/TCPLIB/ARP.CPP:245-286 | Only replies to pending requests are learned, and the slot is released. |
| ArpCaches.ArpCache.DriveArp | code/TCPLIB/ARP.CPP:298-339 | Release after the last retry, resend when a timer ran out. |
| ArpCaches.ArpCache.SendArpRequest | code/TCPLIB/ARP.CPP:411-451 | One slot for a new target if one is free. |
| ArpCaches.ArpCache.Resolve | code/TCPLIB/ARP.CPP:503-512 | The address, or a request on its way. |

## Left out

- TcpSockets.TcpSocket.Send: is for the states in which the loop of the source ends (`TcpLimits.SendEndsUnlessSpinning` says exactly which they are); the return value is not truncated to 16 signed bits.
- TcpRuns.SendStream: a simultaneous open, direct enqueue calls after close, and sending while the hardware address is unknown after the open are outside its premise; all three are in the model, and TcpPool.PoolOnEveryRun and TcpTeardown.TeardownOnEveryRun cover them.
- TcpReceive.ReceiveStream: assumes the peer's segments are slices of one stream or stand right beside it, less than one 32-bit circle from what has been received, and no shutdown of reads.
- TcpFlow.ForgottenWasAcked: speaks of the open stream; once our FIN is out, connectPacket's header can be overwritten (`TcpLimits.FinHeaderOverwritten`) and oldestUnackedSeq need not be the first unremoved byte.
- TcpWindow.WindowsKept: needs a receive buffer and a state other than CLOSED; a socket closed before its SYN went out still has that packet queued and no ack number to put in it.
- ReassemblyExact.BoundedKeeps: assumes offset plus length below 2^16; `ReassemblyExact.SizeCheck` says exactly what the check lets by otherwise.  The lengths come from the IP header, not from the driver.
- FragTables.FragTable.ProcessFragment: a BigPacket is followed by as much memory as the unchecked copy can reach; what that memory belongs to is not modelled.  `FragTables.CopyInside` says when it stays as it was, `ReassemblyExact.DatagramTiled` and `DatagramFits` when a datagram fits.
- DnsName.DecodeName: is for the messages on which the loop of the source ends without reading outside; `DnsName.EndsIff` says exactly which they are.  What lies outside the message is not modelled.
- TcpSockets.TcpSocket: TcpBuffer objects are slots of one array named by index, and the scalar fields are one record; aliasing of two pointers to one buffer is equality of indices.  One socket is modelled; the table of sockets and its moves are not.
- Round-trip times, timeouts and clocks: the model takes "overdue", "probe due" and "timed out" as inputs, so it covers every timing but not how the timeouts are computed.
- The MSS option is written over the data area of a SYN packet; data queued on connectPacket at that moment is not modelled (it never holds any).
- Listening sockets and ICMP are not compiled in and not modelled; nor is UDP, its fragments included.
- BigPackets keep the payload and the length field; the Ethernet header, the other IP header fields and the dropped IP options are not modelled.
- The packet driver's registration, DOS and BIOS calls, far-pointer normalisation, memory allocation beyond success or failure, tracing and statistics.
- Buffer_stopReceiving and the shutdown sequence after it: the free stack forgets its buffers there by design.
- Iterative DNS queries, the DNS cache and its pending query, the hosts file, configuration files and SNTP.
- What the bot does with a parsed message, its log, and number formatting.
- ARP: the frames themselves, the address conflict probe at start-up and the serial-line entry.
- Unicode: the file format of the code page table and the reverse table for output; the table length, the hash function and the tofu character are parameters, because unicode.h is not part of this model.
