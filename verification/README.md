# TCPSHM in Dafny

TCPSHM connects a client and a server by a persistent message queue: over TCP, where every message pushed stays in a
file until the peer has acknowledged consuming it, or over a lock-free ring in shared memory. This project models its
four pieces and proves what each is for.

**The queue and the recovery protocol.** `ptcp_queue_spec.dfy` gives the meaning of a PTCPQueue on 32-bit sequence
numbers; `ptcp_queue.dfy` is the class over its array of 8-byte blocks, with compaction in place, proved against it.
`recovery_node.dfy`, `recovery_steps.dfy` and `recovery_protocol.dfy` put a client and a server together: pushes, partial
sends, heartbeats whole and torn, deliveries in any pieces, pops, broken sockets, crashes of either process, renames of
the server, lost login replies, and logins, in any order and number. Unbounded counters and whole histories are kept
beside the machine state, only to state theorems. The invariant discharges what the source only assumes in `Ack`: no
acknowledgement ever names a message that has not been sent in full, however far 32-bit counters have turned.
`recovery_pushes.dfy` ties the histories to the users: what one pushes and what the other pops, read off the steps of the
run. `recovery_sessions.dfy` says when the two sides reset their queues, `recovery_lockout.dfy` when they can no longer log
in, `recovery_progress.dfy` that otherwise everything can be consumed.

**The receive buffer, the framer and the sender.** `framer.dfy` is a reference parser over a byte stream.
`ptcp_conn.dfy` is PTCPConnection: the buffer with its four indices, compacted and grown by `DoRecv`, scanned by
`Front`, whose headers are byte-swapped in place, and the sender's loop over what the kernel takes. The layers
are joined: `recovery_wire.dfy` shows that any number of bytes the kernel takes is a send step of the protocol and that
`Front` on any chunk of the peer's bytes is a receive step; `recovery_bytes.dfy` counts the bytes each side has read and
shows that in every run the peer's next bytes meet everything `Front` requires; `connection_steps.dfy` runs
PTCPConnection's own operations on the object and shows each to be a step of the node that describes it;
`login_steps.dfy` does the same for both sides of the login.

**The ring.** `spsc_ring.dfy` has the producer's and the consumer's programs, one shared load or store per step;
`spsc_proof.dfy` proves that every interleaving is a FIFO; `spsc_queue.dfy` is the class, whose operations are runs of
those same steps, so that every state of the class is a reachable state of the machine.

**The server's table.** `server_table.dfy` is one connection group as a value, `server_books.dfy` the ownership of
sockets, `server.dfy` the objects themselves: `HandleLogin`, `PollCtl` and `Stop` working in place.

Machine integers are in `word32.dfy`, headers and messages in `msg_header.dfy`. The byte order of the host and of the
wire are two independent parameters throughout. What the kernel, the network and the user decide are arguments.

## What the code turns out not to do

Each of these is a theorem, with the exact condition where there is one.

- A queued message whose stamp lags 2^31 or more behind, modulo 2^32, makes `SanityCheckAndGetSeq` call the file corrupt
  (`RecoverySteps.SaneExactlyInWindow`). A login passes exactly while no queued stamp does, on either side
  (`RecoveryProtocol.LoginResumes`, `RecoveryProtocol.RequestsExactlyInWindow`). A run of honest programs in which the
  client consumes 2^31 messages while one of its own is not consumed locks it out for ever
  (`RecoveryLockout.LockoutIsReachable`, `RecoveryLockout.NeverAgain`), and the mirror run locks the server out under its
  name (`RecoveryLockout.ServerLockoutIsReachable`). Nothing is delivered twice or out of order even then: it is this very
  check that keeps old stamps from being read as new. While both files are in the window, everything pushed can still be
  consumed (`RecoveryProgress.EverythingCanBeConsumed`).
- An acknowledgement that releases a message not sent in full loses bytes still to be sent
  (`PtcpQueueSpec.UnsafeAckLoses`). That none occurs on a running connection, without any bound on the counters, is
  `RecoveryProtocol.AcksNeverOutrunSends`.
- What the server pushes on a connection whose first login the client has not seen answered is dropped by the reset at
  the next login (`RecoverySessions.HalfOpenPushLost`, a run of seven steps; `RecoverySessions.AnswerKeepsPushedIff`).
  Exactly-once holds for every session that a login has completed.
- A drained ring refuses some messages that are shorter than it: at offset k it takes exactly those of at most
  max(N - k, k) blocks (`SpscProof.DrainedTakes`), and an empty ring of two blocks can refuse a message of two
  (`SpscProof.EmptyRingRefuses`).
- An acknowledgement heard between `Alloc` and `Push` moves the write index back to 0 exactly if it releases everything
  queued (`PtcpQueues.PtcpQueue.Ack`), and Push then pushes what is in the first block: in
  `PtcpQueues.WrongMessagePushed` the message already acknowledged, and not the one written.

## Model

| member | source | states |
|---|---|---|
| Word32.DiffExact | tcpshm/ptcp_queue.h:79 | the signed 32-bit difference of two wrapped counters is their true difference inside a window of 2^31 |
| Word32.StaleRecognisedIff | tcpshm/ptcp_queue.h:79 | an old acknowledgement is recognised as old if and only if it lags by at most 2^31, modulo 2^32, for any two counters |
| MsgHeaders.ReadBack | tcpshm/msg_header.h:30-38 | a header written in either byte order reads back as itself |
| MsgHeaders.WriteBack | tcpshm/msg_header.h:30-38 | eight bytes read as a header write back as themselves |
| MsgHeaders.HeaderLayout | tcpshm/msg_header.h:30-46 | the eight bytes of a header are size, type and acknowledgement in that order, each with its least or its most significant byte first |
| MsgHeaders.ConvertReads | tcpshm/msg_header.h:40-46 | converting a wire header lets the host read it, converting a host header makes a wire header, converting twice undoes it |
| MsgHeaders.BlocksAreBytes | tcpshm/ptcp_queue.h:41 | well-formed messages fill whole 8-byte blocks, at least one each |
| Framer.ParseKeepsBytes | tcpshm/ptcp_conn.h:205-222 | re-encoding the parsed messages and the leftover gives the stream back, and the leftover holds no message |
| Framer.ParseEncoded | tcpshm/ptcp_conn.h:205-222 | the encoding of well-formed messages parses to exactly these messages and shows exactly their acknowledgements |
| Framer.ParseAppend | tcpshm/ptcp_conn.h:202-222 | parsing a first piece, then its leftover with the second, is parsing the whole |
| Framer.ChunkingIrrelevant | tcpshm/ptcp_conn.h:202-222 | however a stream is cut into chunks, the messages and the leftover are those of the whole stream |
| Framer.CutStream | tcpshm/ptcp_conn.h:205-222 | a stream cut at any byte parses to the messages it holds whole and shows the acknowledgements of the headers it holds |
| Framer.AcksOfPrefix | tcpshm/ptcp_conn.h:210 | data cut short shows a prefix of the acknowledgements |
| PtcpQueueSpec.AckTwice | tcpshm/ptcp_queue.h:78-90 | hearing an acknowledgement again changes nothing |
| PtcpQueueSpec.PushExtendsUnsent | tcpshm/ptcp_queue.h:55-66 | pushing appends the stamped message's bytes to the bytes to be sent, and changes no other; the stamp changes the acknowledgement and nothing else of the message |
| PtcpQueueSpec.SafeAckKeeps | tcpshm/ptcp_queue.h:78-90 | an acknowledgement of messages sent in full keeps the index order and every byte still to be sent |
| PtcpQueueSpec.UnsafeAckLoses | tcpshm/ptcp_queue.h:80-89 | any other acknowledgement in range loses bytes still to be sent |
| PtcpQueueSpec.CheckAckExact | tcpshm/tcpshm_server.h:369-372 | for a range shorter than 2^31, any 32-bit value passes the test exactly if it is in the range modulo 2^32 |
| PtcpQueueSpec.LoginAckExact | tcpshm/ptcp_queue.h:72-90 | a value that passes drops exactly (ack - start) mod 2^32 messages, lands on a message boundary, and rewinds sending to it |
| PtcpQueues.PtcpQueue.constructor | tcpshm/ptcp_queue.h:112-120 | a queue file of zeros is the empty queue |
| PtcpQueues.PtcpQueue.Reset | tcpshm/ptcp_conn.h:143-145 | zeroing the file makes the empty queue |
| PtcpQueues.PtcpQueue.Compact | tcpshm/ptcp_queue.h:45-48 | moving the live blocks to the front keeps messages, send position and counters |
| PtcpQueues.PtcpQueue.Alloc | tcpshm/ptcp_queue.h:39-53 | succeeds exactly if the needed blocks and the unacknowledged ones fit the array, keeps the queue, and moves it only if the free tail is too short |
| PtcpQueues.PtcpQueue.Fill | tcpshm/ptcp_queue.h:50-52 | what the user writes into the place allocated is what Push will push, and touches nothing queued |
| PtcpQueues.PtcpQueue.Push | tcpshm/ptcp_queue.h:55-61 | the queue becomes the old one with the filled message at its end: same body, size and type, our acknowledgement count in its header, and in wire order |
| PtcpQueues.PtcpQueue.GetSendable | tcpshm/ptcp_queue.h:63-66 | counts the unsent blocks |
| PtcpQueues.PtcpQueue.Sendout | tcpshm/ptcp_queue.h:68-70 | removes exactly that many blocks from the front of the unsent bytes |
| PtcpQueues.PtcpQueue.Release | tcpshm/ptcp_queue.h:82-86 | the do-while ends and drops exactly the acknowledged messages, to the block |
| PtcpQueues.PtcpQueue.Ack | tcpshm/ptcp_queue.h:78-90 | for any acknowledgement in range the new queue is QAck of the old; the index order is kept whenever that is in order; a message allocated and not pushed stays in place unless everything queued is released |
| PtcpQueues.WrongMessagePushed | tcpshm/ptcp_queue.h:87-89 | Alloc, Push, Alloc, fill, Ack of the first, Push: the first message is queued again and the second is not |
| PtcpQueues.PtcpQueue.LoginAck | tcpshm/ptcp_queue.h:72-75 | afterwards everything not acknowledged is to be sent again |
| PtcpQueues.PtcpQueue.IncMyAck | tcpshm/ptcp_conn.h:234 | one more message consumed, modulo 2^32 |
| PtcpQueues.PtcpQueue.SanityCheckAndGetSeq | tcpshm/ptcp_queue.h:96-110 | terminates, accepts exactly if no queued message carries an acknowledgement newer than ours, and returns the exact range |
| PtcpConnections.RefusesOnlyFull | tcpshm/ptcp_conn.h:326-332 | nothing is asked of the kernel exactly if a buffer of the maximum size is full from its first byte |
| PtcpConnections.RoomToRearrange | tcpshm/ptcp_conn.h:364-379 | what readv may have put aside fits after compaction, or after growth within the maximum |
| PtcpConnections.PtcpConnection.DoRecv | tcpshm/ptcp_conn.h:321-385 | in every branch the unread bytes afterwards are the old unread bytes and then the new ones, with the indices in order; it reads exactly if data is ready and the buffer is not full to its maximum; it closes exactly on an error, the peer's close or a timeout; the buffer grows only when data beyond it comes while less than half is free, to twice its size or what the data needs |
| PtcpConnections.PtcpConnection.StoreBytes | tcpshm/ptcp_conn.h:362-384 | append, compact and grow all put the new bytes behind the unread ones |
| PtcpConnections.PtcpConnection.ReadNothing | tcpshm/ptcp_conn.h:345-361 | an unsuccessful recv closes an open connection exactly unless it would block and has not timed out |
| PtcpConnections.PtcpConnection.ConvertOnce | tcpshm/ptcp_conn.h:206-209 | the header at the scan position reads as the peer wrote it, whether it was completed by these bytes or long before |
| PtcpConnections.PtcpConnection.Scan | tcpshm/ptcp_conn.h:205-222 | the loop moves exactly the parsed messages to the waiting ones and gives exactly the headers' acknowledgements to the queue |
| PtcpConnections.PtcpConnection.NextBuffered | tcpshm/ptcp_conn.h:190-200 | heartbeats at the front are dropped; a message is shown exactly if one waits that was not shown since the last Pop |
| PtcpConnections.PtcpConnection.Front | tcpshm/ptcp_conn.h:185-228 | received bytes only grow, by a prefix of what was ready; the queue has heard exactly their acknowledgements; nothing is consumed; a message is found or none waits; it closes exactly on an error, the peer's close, a timeout, or a header that announces more than the largest buffer; it never wedges |
| PtcpConnections.PtcpConnection.StreamParsed | tcpshm/ptcp_conn.h:185-235 | messages consumed and waiting are exactly the parse of all bytes received on the connection |
| PtcpConnections.PtcpConnection.FrontIsNext | tcpshm/ptcp_conn.h:190-228 | the message at the front is the parser's next application message after those consumed |
| PtcpConnections.PtcpConnection.WaitingBytes | tcpshm/ptcp_conn.h:224-226 | the pointer given to the user shows that message whole, in host order, 8-byte aligned |
| PtcpConnections.PtcpConnection.NeverWedges | tcpshm/ptcp_conn.h:202-216 | a buffer that refuses to read holds a complete message |
| PtcpConnections.PtcpConnection.Pop | tcpshm/ptcp_conn.h:231-235 | consumes exactly the front message and counts it |
| PtcpConnections.SendRunBounds | tcpshm/ptcp_conn.h:261-275 | a send that does not break the connection stops at a block boundary |
| PtcpConnections.SendRunStops | tcpshm/ptcp_conn.h:261-275 | when the kernel takes k bytes, fewer than there are, and then would block or fails, the rest is left, and the connection breaks exactly on a failure or inside a block |
| PtcpConnections.SendRunTakesAll | tcpshm/ptcp_conn.h:261-275 | when the kernel takes all there is, nothing is left and the connection holds |
| PtcpConnections.StopsOrTakesAll | tcpshm/ptcp_conn.h:261-275 | whatever the kernel answers, one of these two is the case |
| PtcpConnections.OutcomeMeans | tcpshm/ptcp_conn.h:261-279 | so what the wire got, whether the connection is closed and how far the send index moved follow from the bytes taken and the first other answer |
| PtcpConnections.PtcpConnection.SendPending | tcpshm/ptcp_conn.h:255-281 | the wire gets exactly the bytes the kernel took; the connection closes exactly if a send failed or stopped inside a block; otherwise the send index moves with the wire; true exactly if something was pending and the connection is open; the heartbeat clock restarts exactly if blocks were sent |
| PtcpConnections.PtcpConnection.WireIsFrames | tcpshm/ptcp_conn.h:238-281 | after any pattern of sends the wire parses to a prefix of the frames put on it, and to all of them when nothing is pending |
| PtcpConnections.PtcpConnection.PushMore | tcpshm/ptcp_conn.h:180-182 | adds the message, as filled in and stamped, to the queue, to the frames to come and to the unsent bytes, and no byte to the wire |
| PtcpConnections.PtcpConnection.Push | tcpshm/ptcp_conn.h:175-178 | PushMore, and then everything unsent, the message last, is offered to the kernel with the outcome of SendPending |
| PtcpConnections.PtcpConnection.SendHB | tcpshm/ptcp_conn.h:238-252 | only when due: pending bytes go first and instead; else one heartbeat, whose torn bytes are on the wire and break the connection; the clock restarts exactly after blocks or a whole heartbeat |
| PtcpConnections.PtcpConnection.SendHeartbeat | tcpshm/ptcp_conn.h:245-251 | for each answer of the kernel: nothing, all eight bytes, or a first part and a broken connection |
| PtcpConnections.PtcpConnection.Open | tcpshm/ptcp_conn.h:157-169 | rewinds the queue to the peer's count, sends from there what the kernel takes, and starts with empty buffers in both directions |
| PtcpConnections.PtcpConnection.TryCloseFd | tcpshm/ptcp_conn.h:287-295 | gives back the socket of a closed connection, once, after which it can be opened again |
| RecoverySteps.ReleasedExactly | tcpshm/ptcp_queue.h:78-90 | the acknowledgement of count t releases exactly the messages of the session before t, if and only if t is ahead or lags by at most 2^31 modulo 2^32 |
| RecoverySteps.AcksKeep | tcpshm/ptcp_conn.h:205-211 | an ascending run of acknowledgements, each heeded at the start, is safe one after the other and ends at the largest |
| RecoverySteps.HeardCounts | tcpshm/ptcp_conn.h:205-211 | the acknowledgements heard carry ascending true counts of the peer's, none ahead of it, each heeded |
| RecoverySteps.OpenKeeps | tcpshm/ptcp_conn.h:157-169 | rewinding to the peer's true count leaves exactly the messages it has not consumed, the first of them next |
| RecoverySteps.SaneExactlyInWindow | tcpshm/ptcp_queue.h:96-110 | a file that agrees with its history passes SanityCheckAndGetSeq exactly while every queued stamp lags less than 2^31 modulo 2^32 |
| RecoverySteps.LoginTestPasses | tcpshm/tcpshm_server.h:337-338 | the count of an honest peer passes CheckAckInQueue |
| RecoveryProtocol.StepKeeps | tcpshm/ptcp_conn.h:157-281 | every step of either side, of a login, a crash or a rename keeps the system's invariant |
| RecoveryProtocol.ReachableInv | tcpshm/ptcp_queue.h:114-115 | the invariant holds in every reachable state |
| RecoveryProtocol.ExactlyOnceDelivery | README.md:5 | in every reachable state, each side has consumed a prefix of what the other pushed in the session, contents and order included, counts it right, and the sender's file holds the rest |
| RecoveryPushes.PushedIsDelivered | README.md:5 | in every run, the messages popped on either side of the session are, position by position, those its peer filled in and pushed, with the same body, size and type and stamped with the count of that time, and the rest is in the queue in order |
| RecoveryPushes.ActRecords | tcpshm/ptcp_conn.h:175-235 | whatever a node does, its file's history stays what its user pushed and popped |
| RecoveryPushes.ClientRecords | tcpshm/tcpshm_client.h:168-191 | over every run, the history of each of the client's files is what its user did since the last login that began the session |
| RecoveryPushes.ServerRecords | tcpshm/tcpshm_server.h:315-358 | the same of each of the server's files |
| RecoveryProtocol.AcksNeverOutrunSends | tcpshm/ptcp_queue.h:80-81 | every acknowledgement heard on a running connection names messages sent in full, or is recognised as old |
| RecoveryProtocol.EveryFileInOrder | tcpshm/ptcp_queue.h:114-115 | in every reachable state, every queue file of either side has its indices in order, and passes the sanity check exactly while its stamps are in the window |
| RecoveryProtocol.LoginResumes | tcpshm/tcpshm_server.h:315-357 | a login that names the server passes exactly while the stamps queued there are in the window; the server is then about to send exactly the first message the client has not consumed, and otherwise keeps its file |
| RecoveryProtocol.RequestsExactlyInWindow | tcpshm/tcpshm_client.h:86-91 | a disconnected client can request a login exactly while its own queued stamps are in the window |
| RecoveryProtocol.LoginCompletes | tcpshm/tcpshm_client.h:168-191 | once the client opens too, it is about to send exactly the first message the server has not consumed |
| RecoveryProgress.EverythingCanBeConsumed | README.md:5 | from every reachable state with both files in the window the two sides can go on, without a further push, until each has consumed everything the other pushed |
| RecoverySessions.BothResetOrNeither | tcpshm/tcpshm_client.h:169-190 | in every run, whenever the client completes a login, either both sides go on with all they had pushed and consumed, or both begin with nothing |
| RecoverySessions.AnswerKeepsPushedIff | tcpshm/tcpshm_server.h:321-333 | what the server has pushed survives a login exactly if the client names this server, or there is nothing |
| RecoverySessions.HalfOpenPushLost | tcpshm/tcpshm_server.h:321-325 | a run in which a message pushed on a half-open first connection is dropped |
| RecoveryLockout.LockoutIsReachable | tcpshm/ptcp_queue.h:102 | a run of honest programs, 2^31 rounds long, after which the client's own check refuses its file |
| RecoveryLockout.NeverAgain | tcpshm/tcpshm_client.h:86-91 | a client locked out stays so whatever either side does |
| RecoveryLockout.ServerLockoutIsReachable | tcpshm/tcpshm_server.h:327-332 | the mirror run: the client's own check passes, and the server's check refuses the file |
| RecoveryLockout.NeverServes | tcpshm/tcpshm_server.h:327-332 | a server so locked out refuses every login until it takes another name |
| RecoveryWire.SendPutsBytes | tcpshm/ptcp_conn.h:255-281 | a send step of the protocol puts exactly the next bytes of the queue on the wire |
| RecoveryWire.AnyCountIsSend | tcpshm/ptcp_conn.h:261-279 | every number of pending bytes the kernel may take is a send step |
| RecoveryWire.BeatPutsBytes | tcpshm/ptcp_conn.h:245-250 | a heartbeat step puts its eight bytes on the wire, a torn one its first bytes |
| RecoveryWire.ReadOn | tcpshm/ptcp_conn.h:203-222 | leftover and new bytes parse to exactly the messages that became whole, and show the acknowledgements from the leftover message on |
| RecoveryWire.ChunkIsRecv | tcpshm/ptcp_conn.h:202-222 | Front on any chunk of the peer's stream is a receive step: same messages, same acknowledgements |
| RecoveryWire.PeerKeepsProtocolAlways | tcpshm/ptcp_queue.h:80-81 | the bytes of an honest peer, torn heartbeats included, meet what Front requires: proper frames and safe acknowledgements |
| RecoveryWire.FileHears | tcpshm/ptcp_conn.h:210 | the protocol's file after a receive step is the queue after hearing the acknowledgements one by one |
| RecoveryBytes.WiredStepKeeps | tcpshm/ptcp_conn.h:157-281 | every step of the system keeps each side having received whole exactly the frames in the bytes it has read |
| RecoveryBytes.EveryChunkReadsWell | tcpshm/ptcp_conn.h:202-222 | in every run, whatever number of the peer's bytes comes next, reading them is a receive step that can be taken, with these messages and acknowledgements, and they meet what Front requires |
| ConnectionSteps.AllocStep | tcpshm/ptcp_queue.h:39-53 | Alloc, compaction included, leaves the node describing the object, and succeeds exactly if the message fits |
| ConnectionSteps.CloseStep | tcpshm/ptcp_conn.h:302-318 | a close of the object is the node's close step |
| ConnectionSteps.PushStep | tcpshm/ptcp_conn.h:180-182 | PushMore on the object is the node's push step |
| ConnectionSteps.PopStep | tcpshm/ptcp_conn.h:231-235 | Pop on the object is the node's pop step, of the same message |
| ConnectionSteps.OutcomeIsSend | tcpshm/ptcp_conn.h:255-281 | whatever the kernel answers, what SendPending does to wire and queue is a send step |
| ConnectionSteps.SendStep | tcpshm/ptcp_conn.h:255-281 | SendPending on the object is a send step of the node, or none; which one, and whether it breaks, follows from the kernel's answers |
| ConnectionSteps.BeatStep | tcpshm/ptcp_conn.h:238-252 | SendHB on the object is a send step, or the one step that the kernel's answer to the heartbeat means, or none when it is not due |
| ConnectionSteps.OpenStep | tcpshm/ptcp_conn.h:157-169 | Open on the object makes the node that the protocol opens, after a send step |
| ConnectionSteps.Reconnect | tcpshm/tcpshm_client.h:60-64 | from any connection to a new one: closed, socket given back, and opened for what the peer has consumed by then |
| ConnectionSteps.OpenTwice | tcpshm/ptcp_conn.h:156-169 | a connection made, opened, closed and opened again keeps its history and rewinds each time to the peer's count |
| ConnectionSteps.ReadingIsRecv | tcpshm/ptcp_conn.h:202-222 | what the object holds after reading on is what the node holds after a receive step |
| ConnectionSteps.FrontStep | tcpshm/ptcp_conn.h:185-228 | Front on the object, on whatever is ready of the peer's stream, is a receive step of the node, or none, and a close exactly on an error, the peer's close, a timeout or an oversized header; it finds the node's next message or none waits |
| LoginSteps.HandleLogin | tcpshm/tcpshm_server.h:315-358 | the server's own tests, reset and Open on the object are the protocol's answer step, whatever they decide; each way it can end is given its exact condition on the file and the login |
| LoginSteps.RequestLogin | tcpshm/tcpshm_client.h:75-91 | the client's own check and the values it sends are the protocol's request step |
| LoginSteps.CompleteLogin | tcpshm/tcpshm_client.h:169-190 | the client's reset, if the name has changed, and Open on the object are the protocol's completing step |
| SpscProof.IndexInStep | tcpshm/spsc_varq.h:37-38 | as the ring size is a power of 2, array indices stay in step when the 32-bit counters wrap |
| SpscProof.TestExact | tcpshm/spsc_varq.h:43-50 | the signed-difference test equals the comparison of the unbounded counters, after any number of turns |
| SpscProof.StepKeeps | tcpshm/spsc_varq.h:40-95 | every single load or store of either side keeps the ring's invariant |
| SpscProof.RingIsFifo | tcpshm/spsc_varq.h:40-95 | after every interleaving, the messages as filled in and pushed are the messages as read and popped, then those in the ring; each has the fewest blocks that hold its bytes; [read, write) is exactly messages and padding |
| SpscProof.FifoStep | tcpshm/spsc_varq.h:64-95 | only Push's store appends a message and only Pop's store removes the first |
| SpscProof.Ownership | tcpshm/spsc_varq.h:54-60 | the producer stores only into blocks outside [read_idx, write_idx), the consumer into none |
| SpscProof.FrontShowsOldest | tcpshm/spsc_varq.h:72-87 | Front gives the oldest message, whole and contiguous, never padding |
| SpscProof.HeldUnchanged | tcpshm/spsc_varq.h:72-95 | a message given out stays where and as it is through every interleaving until Pop's store, further calls of Front included |
| SpscProof.AllocatedIsContiguous | tcpshm/spsc_varq.h:54-61 | an allocated message is contiguous, in the fewest blocks that hold its bytes, outside what is in use, and holds what was filled in |
| SpscProof.RefusedIffShort | tcpshm/spsc_varq.h:48-52 | Alloc refuses exactly if space is short at its reload of read_idx |
| SpscProof.CacheIsSafe | tcpshm/spsc_varq.h:48-53 | the cached read index never admits what a fresh load would refuse |
| SpscProof.AllocRefusesIff | tcpshm/spsc_varq.h:40-53 | Alloc, from its entry and whatever its cache holds, refuses exactly if space is short |
| SpscProof.RefusesIffNoPlace | tcpshm/spsc_varq.h:40-53 | Alloc refuses exactly what no contiguous run of free blocks, wherever it starts, could hold |
| SpscProof.DrainedTakes | tcpshm/spsc_varq.h:44-53 | on a drained ring at offset k, Alloc takes exactly the messages of at most max(N - k, k) blocks |
| SpscProof.EmptyRingRefuses | tcpshm/spsc_varq.h:44-53 | a reachable empty ring of two blocks that refuses a message of two |
| SpscProof.EmptyAnswer | tcpshm/spsc_varq.h:72-85 | Front answers "nothing" only if no message lay in the ring when it loaded write_idx, whatever happened meanwhile |
| SpscProof.PaddingNeverAdjoins | tcpshm/spsc_varq.h:79-85 | two padding runs never adjoin, so one test is enough |
| SpscQueues.SpscVarQueue.constructor | tcpshm/spsc_varq.h:106-115 | zeroed indices are an empty ring, whatever the blocks hold |
| SpscQueues.SpscVarQueue.Alloc | tcpshm/spsc_varq.h:40-62 | runs the producer's Alloc steps; null exactly if padding and message do not fit; else a contiguous message of the size asked for, in blocks that hold header and payload with less than one to spare |
| SpscQueues.SpscVarQueue.Push | tcpshm/spsc_varq.h:64-70 | runs the Push steps; appends the message filled in |
| SpscQueues.SpscVarQueue.Front | tcpshm/spsc_varq.h:72-87 | runs the Front steps; null exactly if the ring holds no message; else the oldest one's blocks |
| SpscQueues.SpscVarQueue.Pop | tcpshm/spsc_varq.h:89-95 | runs the Pop steps; removes the first message |
| ServerTable.NameFindsItsOwn | tcpshm/tcpshm_server.h:290-299 | a name that has a connection finds that one, no other and no unused one |
| ServerTable.AlreadyLoggedOn | tcpshm/tcpshm_server.h:301-305 | a name that is live is turned away and nothing changes |
| ServerTable.FullIff | tcpshm/tcpshm_server.h:290-299 | the search fails exactly if no connection is unused and none has the name |
| ServerTable.AdoptsIff | tcpshm/tcpshm_server.h:289-362 | a connection goes live exactly if nothing refuses the login, the name is not live, and a connection that is not live is unused or has the name |
| ServerTable.LoginKeeps | tcpshm/tcpshm_server.h:289-366 | a login keeps the group in order and all names with their connections; it goes live with the socket exactly if Adopts, and the connection is then the last live one, holds the socket, and is open unless sending broke it; every other connection is exactly as it was |
| ServerTable.ReapKeeps | tcpshm/tcpshm_server.h:156-185 | the reaping loop, swapping as it goes, takes out exactly the broken connections and gives back their sockets; those it spares are as they were, socket included |
| ServerTable.RunKeeps | tcpshm/tcpshm_server.h:156-185 | through any logins, breaks and reaps: same connections, named prefix with distinct names, live prefix of it, no socket outside it |
| ServerTable.SameConnectionAgain | tcpshm/tcpshm_server.h:290-299 | a name comes back to the same connection after anything in between |
| ServerBooks.VisitKeeps | tcpshm/tcpshm_server.h:123-154 | visiting a slot closes its socket or hands it to exactly one connection, live on it; no other group changes |
| ServerBooks.TakenIff | tcpshm/tcpshm_server.h:123-154 | the socket is handed over exactly if a valid login that its user accepts can go live in its group and gets its reply |
| ServerBooks.EachReaped | tcpshm/tcpshm_server.h:156-185 | every group is reaped, and only SHM groups poll heartbeats first |
| ServerBooks.AcceptKeeps | tcpshm/tcpshm_server.h:111-121 | an accepted socket gets one owner, in a slot that was free |
| ServerBooks.GroupShrinks | tcpshm/tcpshm_server.h:156-185 | closing the sockets a group gives up keeps every socket with one owner |
| ServerBooks.NothingLeaks | tcpshm/tcpshm_server.h:214-240 | with slots and groups empty, no socket is open |
| Servers.Connection.Open | tcpshm/ptcp_conn.h:156-158 | opens only where no socket is held; the connection holds the socket from then on, is open on it unless sending broke it, and keeps its name |
| Servers.Connection.TryCloseFd | tcpshm/ptcp_conn.h:288-295 | closes the socket of a closed connection, once |
| Servers.Connection.Release | tcpshm/tcpshm_conn.h:162-173 | forgets the name and gives the socket back |
| Servers.ConnectionGroup.HandleLogin | tcpshm/tcpshm_server.h:289-366 | the objects in place become what Login says of the table; the connection of an adopted name is the last live one, with its socket, open unless sending broke it |
| Servers.ConnectionGroup.ReapClosed | tcpshm/tcpshm_server.h:157-169 | the objects in place become what Reap says; exactly the sockets given up are closed |
| Servers.ConnectionGroup.ReleaseAll | tcpshm/tcpshm_server.h:228-233 | no names, no sockets, each closed once |
| Servers.Server.constructor | tcpshm/tcpshm_server.h:43-62 | separate groups of the sizes given share the pool out, no connection in two of them; nothing is open and a slot is free if there are any |
| Servers.Server.AcceptOne | tcpshm/tcpshm_server.h:110-121 | accepts into a free slot only, then counts the slots as full until the scan |
| Servers.Server.Scan | tcpshm/tcpshm_server.h:122-154 | only sockets still waiting keep their slots; the index names the last free slot, and says "full" exactly if none is free |
| Servers.Server.PollCtl | tcpshm/tcpshm_server.h:109-186 | accept, scan and reap together keep every socket with one owner and all groups in order; the groups are those of the visits in order, each then reaped |
| Servers.Server.BreakOne | tcpshm/ptcp_conn.h:302-318 | a close requested at any time keeps all of this |
| Servers.Server.Stop | tcpshm/tcpshm_server.h:214-240 | every socket is closed exactly once and every name forgotten |

## Left out

- Shared memory under a connection: PTCPConnection without a queue, and TcpShmConnection's dispatch
  (`tcpshm/tcpshm_conn.h`). No claim is made about SHM messages across a login with a changed server name.
- Weak memory: the ring's steps are sequentially consistent. The relaxed store at `tcpshm/spsc_varq.h:57` is not
  justified by this model. `WaitForData` and `notify_one` are left out.
- Crashes in the middle of an operation, such as within `Alloc`'s memmove or within `Ack`: crashes fall between operations.
- The SHM probe (`tcpshm/tcpshm_server.h:385-452`, `tcpshm/tcpshm_client.h:270-319`), `tcpshm/os.h`, user callbacks,
  login user data and clocks: their results are arguments, or there are none.
- File errors. In particular `tcpshm/tcpshm_client.h:178-183` returns after the server's name was changed and before
  Reset; the runs here have no such failure.
- Two servers alive at once, between which a client alternates: there is one server process, which may change its name,
  and a server that comes back under an old name has lost its receive buffer.
- A second login of the same client under way, or an old one still unprocessed: a login not completed is discarded.
- Races between the control thread and polling threads over a group: each connection and the table are single-threaded.
- Names are strings, not buffers of NameSize.
- Sizes the source does not guard: payloads above 65527 bytes, which overflow its 16-bit size, are excluded by `requires`,
  queue arrays have less than 2^29 blocks and receive buffers less than 2^30 bytes.
- Hostile peers after the login: messages with size 0 and heartbeats with a body are excluded by `Proper`.
- A send that neither fails nor takes a byte: the kernel takes at least one byte, would block, or fails.
- RecoveryProtocol.ExactlyOnceDelivery: for sessions with a completed login; what a half-open first login loses is above.
- Front between Alloc and Push: allocating, filling and pushing a message is one step of the protocol. PtcpQueues says
  when the allocated place survives an acknowledgement.
- PtcpConnections.PtcpConnection.Front: requires that the bytes ready keep the protocol, which RecoveryBytes proves of an
  honest peer in every run.
