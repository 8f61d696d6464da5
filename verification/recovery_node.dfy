/** One end of a persistent connection: its queue file, what this session has pushed and popped, and its half of the
    current TCP connection. The steps use the queue operations of PtcpQueueSpec on 32-bit counters; the unbounded
    counters beside them are history only. */
module RecoveryNode {
  import opened Word32
  import opened MsgHeaders
  import opened PtcpQueueSpec
  import opened Framer

  /** A queue file and its session's history: hist, all messages pushed, with the acknowledgement count each was stamped
      with; popped, all messages consumed; read, the unbounded sequence number of the first unacknowledged message. */
  datatype File = File(q: QState, hist: seq<Msg>, at: seq<nat>, popped: seq<Msg>, read: nat)

  const FRESH := File(EMPTY, [], [], [], 0)

  /** One end of a TCP connection. Outgoing: done, the frames sent in full (acknowledgement counts in doneAt), starting
      with message `base` of the session; then message `next`, of which `part` bytes are sent; or, on a connection broken
      by it, `torn` bytes of a heartbeat carrying tornAck. Incoming: seen, how many of the peer's frames have been
      received whole; inbox, the messages among them not popped yet. */
  datatype Side = Side(open: bool, done: seq<Msg>, doneAt: seq<nat>, part: nat, base: nat, next: nat, torn: nat, tornAck: U32,
                       seen: nat, inbox: seq<Msg>)

  datatype Node = Node(f: File, s: Side)

  // ---- steps of one node ----

  /** Alloc found room and the user has filled the message: Push or PushMore, without the sending. */
  function PushN(x: Node, m: Msg): Node {
    x.(f := x.f.(q := QPush(x.f.q, m), hist := x.f.hist + [Stamped(m, x.f.q.ackSeq)], at := x.f.at + [|x.f.popped|]))
  }

  ghost predicate CanPushN(x: Node, cap: nat, m: Msg) {
    m.Wf() && !m.IsHeartbeat() && Fits(x.f.q, cap, m.header.size)
  }

  /** Pop. */
  function PopN(x: Node): Node
    requires x.s.inbox != []
  {
    Node(x.f.(q := QPop(x.f.q), popped := x.f.popped + [x.s.inbox[0]]), x.s.(inbox := x.s.inbox[1..]))
  }

  predicate CanPopN(x: Node) {
    x.s.inbox != []
  }

  /** SendPending: the kernel takes the rest of the current message, `whole - 1` further messages, and the first
      `part` bytes of the one after. The connection breaks inside a block, or on an error. */
  ghost predicate CanSendN(x: Node, whole: nat, part: nat, broke: bool) {
    && x.s.open && x.s.next + whole <= |x.f.hist|
    && (x.s.next + whole < |x.f.hist| ==> part < x.f.hist[x.s.next + whole].Len())
    && (x.s.next + whole == |x.f.hist| ==> part == 0)
    && (whole == 0 ==> x.s.part <= part)
    && |x.f.at| == |x.f.hist|
    && (part % 8 != 0 ==> broke)
  }

  function SentBytes(x: Node, whole: nat, part: nat): int
    requires x.s.next + whole <= |x.f.hist|
  {
    TotalLen(x.f.hist[x.s.next..x.s.next + whole]) + part - x.s.part
  }

  function SendN(x: Node, whole: nat, part: nat, broke: bool): Node
    requires x.s.next + whole <= |x.f.hist| && x.s.next + whole <= |x.f.at|
  {
    var n := x.s.next;
    var s := x.s.(done := x.s.done + x.f.hist[n..n + whole], doneAt := x.s.doneAt + x.f.at[n..n + whole],
                  part := part, next := n + whole, open := !broke);
    Node(if broke then x.f else x.f.(q := QSendout(x.f.q, SentBytes(x, whole, part) / 8)), s)
  }

  /** SendHB with nothing pending. */
  predicate CanBeatN(x: Node) {
    x.s.open && x.s.next == |x.f.hist| && x.s.part == 0
  }

  function BeatN(x: Node): Node {
    x.(s := x.s.(done := x.s.done + [Heartbeat(x.f.q.ackSeq)], doneAt := x.s.doneAt + [|x.f.popped|]))
  }

  /** The kernel takes only the first bytes of the heartbeat: that breaks the connection. */
  function TearN(x: Node, bytes: nat): Node {
    x.(s := x.s.(torn := bytes, tornAck := x.f.q.ackSeq, open := false))
  }

  predicate CanTearN(x: Node, bytes: nat) {
    CanBeatN(x) && 0 < bytes < 8
  }

  /** Front on bytes from the peer x: `whole` more frames complete, and with `header` also the header of the next. */
  predicate CanRecvN(x: Node, y: Node, whole: nat, header: bool) {
    && y.s.open
    && y.s.seen + whole <= |x.s.done| == |x.s.doneAt|
    && (header ==> y.s.seen + whole < |x.s.done| || (x.s.part >= 8 && x.s.next < |x.f.hist| == |x.f.at|))
  }

  /** The frames whose headers Front converts and acknowledges. */
  function Heard(x: Node, y: Node, whole: nat, header: bool): seq<Msg>
    requires CanRecvN(x, y, whole, header)
  {
    x.s.done[y.s.seen..y.s.seen + whole] +
    if !header then []
    else if y.s.seen + whole < |x.s.done| then [x.s.done[y.s.seen + whole]]
    else [x.f.hist[x.s.next]]
  }

  function FAck(f: File, ack: U32): File
    requires AckOk(f.q, ack)
  {
    f.(q := QAck(f.q, ack), read := f.read + Released(f.q, ack))
  }

  function FAckAll(f: File, acks: seq<U32>): File
    requires AcksSafe(f.q, acks)
    decreases |acks|
  {
    if acks == [] then f else FAckAll(FAck(f, acks[0]), acks[1..])
  }

  /** Defined as the queue defines it: were an acknowledgement unsafe, nothing would be known of the result. */
  ghost predicate RecvN(x: Node, y: Node, whole: nat, header: bool, y': Node)
    requires CanRecvN(x, y, whole, header)
  {
    var acks := AcksOf(Heard(x, y, whole, header));
    && (AcksSafe(y.f.q, acks) ==> y'.f == FAckAll(y.f, acks))
    && y'.s == y.s.(seen := y.s.seen + whole, inbox := y.s.inbox + Apps(x.s.done[y.s.seen..y.s.seen + whole]))
  }

  function CloseN(x: Node): Node {
    x.(s := x.s.(open := false))
  }

  /** A process that dies loses its receive buffer, but not its file. */
  function CrashN(x: Node): Node {
    x.(s := x.s.(open := false, inbox := []))
  }

  /** Open after a login: the queue is rewound to the peer's acknowledgement and the buffers are empty. */
  function OpenN(f: File, ack: U32): Node
    requires AckOk(f.q, ack)
  {
    var f' := f.(q := QLoginAck(f.q, ack), read := f.read + Released(f.q, ack));
    Node(f', Side(true, [], [], 0, f'.read, f'.read, 0, 0, 0, []))
  }

  // ---- invariants ----

  /** The file agrees with its history, and the indices are in order. */
  ghost predicate FileInv(f: File, cap: nat) {
    && f.read <= |f.hist| == |f.at|
    && f.q.msgs == f.hist[f.read..]
    && f.q.readSeq == Wrap(f.read) && f.q.ackSeq == Wrap(|f.popped|)
    && QValid(f.q, cap)
    && AllWf(f.hist)
    && HistInv(f)
  }

  ghost predicate HistInv(f: File)
    requires |f.hist| == |f.at|
  {
    && (forall i :: 0 <= i < |f.hist| ==> !f.hist[i].IsHeartbeat())
    && (forall i :: 0 <= i < |f.at| ==> f.at[i] <= |f.popped| && f.hist[i].header.ackSeq == Wrap(f.at[i]))
    && (forall i, j :: 0 <= i < j < |f.at| ==> f.at[i] <= f.at[j])
  }

  /** While the connection is open, the send index is exactly where the wire is. */
  ghost predicate SendInv(x: Node) {
    x.s.open ==>
      && x.f.read <= x.s.next <= |x.f.hist| && x.s.torn == 0
      && 8 * x.f.q.sent == TotalLen(x.f.hist[x.f.read..x.s.next]) + x.s.part
  }

  /** The outgoing stream: the messages of the session from base on, with heartbeats between, and a piece of the next. */
  ghost predicate Stream(x: Node) {
    && |x.s.done| == |x.s.doneAt| && |x.f.hist| == |x.f.at|
    && x.s.base <= x.s.next <= |x.f.hist|
    && Apps(x.s.done) == x.f.hist[x.s.base..x.s.next]
    && (x.s.part > 0 ==> x.s.next < |x.f.hist| && x.s.part < x.f.hist[x.s.next].Len())
    && (forall i :: 0 <= i < |x.s.done| ==> FrameOk(x, i))
    && (x.s.torn > 0 ==> x.s.part == 0 && x.s.torn < 8)
    && Ascending(x)
  }

  /** Counts only grow along the stream, up to those of the messages still to be sent. */
  ghost predicate Ascending(x: Node)
    requires |x.s.done| == |x.s.doneAt|
  {
    && (forall i, j :: 0 <= i < j < |x.s.doneAt| ==> x.s.doneAt[i] <= x.s.doneAt[j])
    && (forall i, k :: 0 <= i < |x.s.doneAt| && x.s.next <= k < |x.f.at| ==> x.s.doneAt[i] <= x.f.at[k])
  }

  ghost predicate FrameOk(x: Node, i: nat)
    requires i < |x.s.done| == |x.s.doneAt| && |x.f.hist| == |x.f.at|
  {
    && x.s.doneAt[i] <= |x.f.popped| && x.s.done[i].header.ackSeq == Wrap(x.s.doneAt[i])
    && (x.s.done[i].IsHeartbeat() ==> x.s.done[i] == Heartbeat(Wrap(x.s.doneAt[i])))
    && (!x.s.done[i].IsHeartbeat() ==>
          var k := x.s.base + |Apps(x.s.done[..i])|;
          k < x.s.next && k < |x.f.at| && x.f.at[k] == x.s.doneAt[i])
  }

  /** No loss, no duplicate, no reordering: b has consumed a prefix of what a pushed, and a still holds the rest. */
  ghost predicate Synced(a: File, b: File) {
    b.popped <= a.hist && a.read <= |b.popped|
  }

  ghost predicate InboxInv(a: File, y: Node) {
    y.f.popped + y.s.inbox <= a.hist
  }

  /** Ack takes the count t for what it is, newer than `read` or old. */
  predicate Heeds(read: nat, t: nat) {
    read <= t || Wrap(read - t) <= 0x8000_0000
  }

  /** y is reading x's stream, and takes every count still to come for what it is. */
  ghost predicate Reading(x: Node, y: Node) {
    && y.s.seen <= |x.s.done| == |x.s.doneAt|
    && |y.f.popped| + |y.s.inbox| == x.s.base + |Apps(x.s.done[..y.s.seen])|
    && HeedsRest(x, y.s.seen, y.f.read)
  }

  /** A reader at `read` takes for what they are the counts of the frames from `from` on and of all messages to follow. */
  ghost predicate HeedsRest(x: Node, from: nat, read: nat) {
    && (forall i :: from <= i < |x.s.doneAt| ==> Heeds(read, x.s.doneAt[i]))
    && (forall k :: x.s.next <= k < |x.f.at| ==> Heeds(read, x.f.at[k]))
  }

  /** x has not received more of y's messages than y has sent. */
  ghost predicate Bounded(x: Node, y: Node) {
    |x.f.popped| + |x.s.inbox| <= y.s.next
  }
}
