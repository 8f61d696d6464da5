/** PTCPConnection's operations are steps of the protocol's node: each method below runs one of them on the object, and
    the node that describes the object afterwards is the old one after the step. */
module ConnectionSteps {
  import opened Word32
  import opened MsgHeaders
  import opened PtcpQueueSpec
  import opened PtcpQueues
  import opened Framer
  import opened PtcpConnections
  import opened RecoveryNode
  import opened RecoverySteps
  import opened RecoveryProtocol
  import opened RecoveryWire
  import opened RecoveryBytes

  /** The object c is what node x says: the queue, the socket, the bytes sent, the messages received and not consumed. */
  ghost predicate Describes(x: Node, c: PtcpConnection)
    reads c, c.recvbuf, c.q, c.q.blk
  {
    && c.QueueOk() && c.RecvValid() && c.SendValid() && c.recvbuf as object != c.q.blk
    && c.q.Abs() == x.f.q && (x.s.open <==> !c.IsClosed())
    && Partial(x) && c.wireOut == OnWire(x, c.q.wire)
    && Apps(c.waiting) == x.s.inbox && |c.gone + c.waiting| == x.s.seen
  }

  /** What the protocol keeps of every node. */
  ghost predicate Sound(x: Node, cap: nat) {
    FileInv(x.f, cap) && SendInv(x) && Stream(x)
  }

  // ---- pushing ----

  lemma PushPutsNothing(x: Node, m: Msg, wire: bool)
    requires Partial(x)
    ensures Partial(PushN(x, m)) && OnWire(PushN(x, m), wire) == OnWire(x, wire)
  {
    hide EncodeAll, Encode, TotalLen;
  }

  /** Alloc, compaction included, is no step: the node goes on describing the object. */
  method AllocStep(c: PtcpConnection, ghost x: Node, payload: U16) returns (ok: bool)
    requires Describes(x, c) && payload <= 65527
    modifies c.q, c.q.blk
    ensures Describes(x, c) && (ok <==> Fits(x.f.q, c.q.blockCount, payload + 8))
    ensures ok ==> c.q.CanPush() && c.q.Pending().header.size == payload + 8
  {
    hide EncodeAll, Flat, HostTail, OnWire, Apps, Partial, FromBytes, Unsent;
    hide PtcpConnection.RecvValid, PtcpQueue.UnsentBlocks, PtcpQueue.CanPush, PtcpQueue.Pending;
    c.q.UnsentBytes();
    var at;
    ok, at := c.q.Alloc(payload);
    c.q.UnsentBytes();
  }

  /** Nor is filling in what was allocated. */
  method FillStep(c: PtcpConnection, ghost x: Node, m: Msg)
    requires Describes(x, c) && c.q.CanPush() && m.Wf() && m.header.size == c.q.Pending().header.size
    modifies c.q.blk
    ensures Describes(x, c) && c.q.CanPush() && c.q.Pending() == m
  {
    hide EncodeAll, Flat, HostTail, OnWire, Apps, Partial, FromBytes, Unsent;
    hide PtcpConnection.RecvValid, PtcpQueue.UnsentBlocks, PtcpQueue.CanPush, PtcpQueue.Pending;
    c.q.UnsentBytes();
    c.q.Fill(m);
    c.q.UnsentBytes();
  }

  /** PushMore. */
  method PushStep(c: PtcpConnection, ghost x: Node) returns (ghost x': Node)
    requires Describes(x, c) && c.q.CanPush() && !c.q.Pending().IsHeartbeat()
    modifies c`log, c.q, c.q.blk
    ensures CanPushN(x, c.q.blockCount, old(c.q.Pending())) && x' == PushN(x, old(c.q.Pending()))
    ensures Describes(x', c)
  {
    hide EncodeAll, Encode, Flat, FromBytes, HostTail, Apps, PtcpConnection.RecvValid, PtcpConnection.SendValid, OnWire;
    ghost var m := c.q.Pending();
    PendingFits(c);
    PushPutsNothing(x, m, c.q.wire);
    x' := PushN(x, m);
    c.PushMore();
  }

  lemma PendingFits(c: PtcpConnection)
    requires c.q.Valid() && c.q.CanPush()
    ensures Fits(c.q.Abs(), c.q.blockCount, c.q.Pending().header.size)
  {
    hide EncodeAll, Flat, FromBytes, TotalBlocks, BlocksFor;
    c.q.Occupied();
  }

  // ---- popping ----

  /** Pop. */
  method PopStep(c: PtcpConnection, ghost x: Node) returns (ghost x': Node)
    requires Describes(x, c) && c.waiting != [] && !c.waiting[0].IsHeartbeat()
    modifies c`readIdx, c`gone, c`waiting, c.q`ackSeqNum
    ensures CanPopN(x) && x' == PopN(x) && Describes(x', c)
    ensures x.s.inbox[0] == old(c.waiting)[0]
  {
    hide EncodeAll, Flat, HostTail, PtcpConnection.RecvValid, OnWire, Parse, TotalLen, Encode;
    c.StreamParsed();
    x' := PopN(x);
    PopPutsNothing(x, c.q.wire);
    c.Pop();
    c.StreamParsed();
  }

  lemma PopPutsNothing(x: Node, wire: bool)
    requires Partial(x) && x.s.inbox != []
    ensures Partial(PopN(x)) && OnWire(PopN(x), wire) == OnWire(x, wire)
  {
    hide EncodeAll, Encode, TotalLen;
  }

  // ---- sending ----

  /** The Send step behind what one SendPending did. */
  ghost predicate SentAs(x: Node, x': Node) {
    x' == x || exists whole: nat, part: nat, broke: bool ::
      CanSendN(x, whole, part, broke) && x' == SendN(x, whole, part, broke)
  }

  /** A send that stops at a block boundary, from one, leaves a message at one. */
  lemma StopsAtBlock(x: Node, cap: nat, whole: nat, part: nat)
    requires FileInv(x.f, cap) && SendInv(x) && x.s.open && CanSendN(x, whole, part, true)
    requires SentBytes(x, whole, part) % 8 == 0
    ensures part % 8 == 0
  {
    hide TotalLen, TotalBlocks, HistInv, Wrap;
    Runs(x.f.hist, x.f.read, x.s.next, x.s.next);
    Runs(x.f.hist, x.s.next, x.s.next + whole, x.s.next + whole);
  }

  /** What SendPending may do to the stream is a Send step, for every answer of the kernel. */
  lemma OutcomeIsSend(x: Node, cap: nat, script: seq<SendResult>, out': seq<Byte>, isClosed: bool, sent: nat, wire: bool)
    requires Sound(x, cap) && x.s.open
    requires 0 <= 8 * x.f.q.sent <= TotalLen(x.f.q.msgs) && Partial(x)
    requires SendOutcome(Unsent(x.f.q, wire), script, OnWire(x, wire), out', false, isClosed, sent)
    ensures exists x' :: SentAs(x, x') && Outgoing(x, x', out', isClosed, sent, wire)
  {
    hide FileInv, SendInv, Stream, EncodeAll, TotalLen, Unsent, OnWire, SendRun, Partial;
    var pending := Unsent(x.f.q, wire);
    if pending == [] {
      assert SentAs(x, x) && Outgoing(x, x, out', isClosed, sent, wire);
    } else {
      var (left, broke) := SendRun(script, |pending|);
      SendRunBounds(script, |pending|);
      var n := |pending| - left;
      AnyCountIsSend(x, cap, n, wire);
      var whole: nat, part: nat :| CanSendN(x, whole, part, part % 8 != 0) && SentBytes(x, whole, part) == n;
      if !broke {
        StopsAtBlock(x, cap, whole, part);
      }
      SendPutsBytes(x, cap, whole, part, broke, wire);
      SendQueue(x, whole, part, broke, sent);
      assert SentAs(x, SendN(x, whole, part, broke)) && Outgoing(x, SendN(x, whole, part, broke), out', isClosed, sent, wire);
    }
  }

  /** What changed in sending. */
  ghost predicate Outgoing(x: Node, x': Node, out': seq<Byte>, isClosed: bool, sent: nat, wire: bool) {
    && Partial(x') && OnWire(x', wire) == out' && x'.s.open == !isClosed
    && x'.f.q == QSendout(x.f.q, sent) && x'.s.inbox == x.s.inbox && x'.s.seen == x.s.seen
  }

  lemma SendQueue(x: Node, whole: nat, part: nat, broke: bool, sent: nat)
    requires CanSendN(x, whole, part, broke)
    requires if broke then sent == 0 else 8 * sent == SentBytes(x, whole, part)
    ensures var x' := SendN(x, whole, part, broke);
      x'.f.q == QSendout(x.f.q, sent) && x'.s.open == !broke && x'.s.inbox == x.s.inbox && x'.s.seen == x.s.seen
  {
    hide TotalLen;
  }

  /** SendPending. */
  method SendStep(c: PtcpConnection, ghost x: Node, script: seq<SendResult>) returns (busy: bool, ghost x': Node, ghost sent: nat)
    requires Describes(x, c) && Sound(x, c.q.blockCount)
    modifies c`sockfd, c`sendTime, c`wireOut, c.q`sendIdx
    ensures SentAs(x, x') && Describes(x', c)
    ensures !busy ==> x'.s.open ==> x' == x
    ensures !x.s.open || old(c.q.UnsentBlocks()) == [] ==> x' == x
    ensures x.s.open && old(c.q.UnsentBlocks()) != [] ==>
      SentUpTo(old(c.q.UnsentBlocks()), script, OnWire(x, c.q.wire), OnWire(x', c.q.wire), !x'.s.open, sent)
  {
    hide EncodeAll, Flat, HostTail, OnWire, Apps, Sound, Partial, TotalLen, Unsent, SendOutcome, SentUpTo;
    hide HasFrame, PartFits, PlainHeartbeats, Aligned, AllWf, PtcpConnection.SendValid, PtcpQueue.Valid, PtcpQueue.UnsentBlocks;
    c.q.UnsentBytes();
    c.q.Occupied();
    ghost var pending, out, closed := c.q.UnsentBlocks(), c.wireOut, c.IsClosed();
    x' := x;
    busy, sent := c.SendPending(script);
    if closed || pending == [] {
      NothingToSend(pending, script, out, c.wireOut, closed, c.IsClosed(), sent);
    } else {
      OutcomeIsSend(x, c.q.blockCount, script, c.wireOut, c.IsClosed(), sent, c.q.wire);
      x' :| SentAs(x, x') && Outgoing(x, x', c.wireOut, c.IsClosed(), sent, c.q.wire);
    }
  }

  // ---- heartbeats ----

  /** A Send step, or a heartbeat: whole, refused, or torn. */
  ghost predicate BeatenAs(x: Node, x': Node) {
    || SentAs(x, x')
    || (CanBeatN(x) && (x' == BeatN(x) || x' == CloseN(x)))
    || exists bytes: nat :: CanTearN(x, bytes) && x' == TearN(x, bytes)
  }

  /** With no byte pending, every message has been sent whole. */
  lemma NothingPending(x: Node, cap: nat, wire: bool)
    requires Sound(x, cap) && x.s.open
    requires 0 <= 8 * x.f.q.sent <= TotalLen(x.f.q.msgs) && Unsent(x.f.q, wire) == []
    ensures CanBeatN(x)
  {
    hide FileInv, EncodeAll, FrameOk, Ascending, Apps, Unsent;
    UnsentIsRest(x, cap, wire);
    var later := x.f.hist[x.s.next..];
    if x.s.part > 0 {
      LaterFirst(x);
    }
    NoBytesNoMessages(later, x.s.part);
  }

  lemma LaterFirst(x: Node)
    requires Stream(x) && x.s.part > 0
    ensures x.f.hist[x.s.next..] != [] && x.s.part < x.f.hist[x.s.next..][0].Len()
  {
    hide FrameOk, Ascending, Apps;
  }

  lemma NoBytesNoMessages(ms: seq<Msg>, part: nat)
    requires part == TotalLen(ms) && (part > 0 ==> ms != [] && part < ms[0].Len())
    ensures ms == [] && part == 0
  {
  }

  /** The step behind each of the kernel's answers to a heartbeat. */
  ghost function Beaten(x: Node, hb: SendResult): Node {
    match hb
    case Again => x
    case SendError => CloseN(x)
    case Taken(n) => if n < 8 then TearN(x, n) else BeatN(x)
  }

  /** What a heartbeat may do to the stream, for every answer of the kernel. */
  lemma OutcomeIsBeat(x: Node, cap: nat, hb: SendResult, out': seq<Byte>, isClosed: bool, wire: bool)
    requires Sound(x, cap) && CanBeatN(x) && Partial(x)
    requires HeartbeatOutcome(hb, Encode(Heartbeat(x.f.q.ackSeq), wire), OnWire(x, wire), out', isClosed)
    ensures BeatenAs(x, Beaten(x, hb)) && Outgoing(x, Beaten(x, hb), out', isClosed, 0, wire)
  {
    hide FileInv, Stream, Encode, OnWire, TotalLen;
    var m := Encode(Heartbeat(x.f.q.ackSeq), wire);
    BeatPutsBytes(x, if hb.Taken? && hb.n < 8 then hb.n else 1, wire);
    if hb.SendError? {
      ClosePutsNothing(x, wire);
    } else if hb.Taken? && hb.n < 8 {
      assert CanTearN(x, hb.n);
    } else if hb.Taken? {
      assert m[..8] == m;
    }
  }

  lemma ClosePutsNothing(x: Node, wire: bool)
    requires Partial(x)
    ensures Partial(CloseN(x)) && OnWire(CloseN(x), wire) == OnWire(x, wire)
  {
    hide EncodeAll, Encode, TotalLen;
  }

  /** SendHB. */
  method BeatStep(c: PtcpConnection, ghost x: Node, now: int, script: seq<SendResult>, hb: SendResult)
    returns (ghost x': Node, ghost sent: nat)
    requires Describes(x, c) && Sound(x, c.q.blockCount)
    modifies c`clock, c`sockfd, c`sendTime, c`wireOut, c`log, c.q`sendIdx
    ensures BeatenAs(x, x') && Describes(x', c)
    ensures if now - old(c.sendTime) < c.heartbeatInterval || !x.s.open then
        x' == x
      else if old(c.q.UnsentBlocks()) != [] then
        SentAs(x, x') && SentUpTo(old(c.q.UnsentBlocks()), script, OnWire(x, c.q.wire), OnWire(x', c.q.wire), !x'.s.open, sent)
      else
        CanBeatN(x) && x' == Beaten(x, hb)
  {
    hide EncodeAll, Flat, HostTail, OnWire, Apps, Sound, Partial, TotalLen, Unsent, SendOutcome, Encode, HeartbeatOutcome, SentAs;
    hide HasFrame, PartFits, PlainHeartbeats, Aligned, AllWf, PtcpConnection.SendValid, PtcpQueue.Valid, PtcpQueue.UnsentBlocks;
    hide SentUpTo, CanBeatN, Beaten;
    c.q.UnsentBytes();
    c.q.Occupied();
    ghost var pending, idle := c.q.UnsentBlocks(), now - c.sendTime < c.heartbeatInterval || c.IsClosed();
    NoStep(x);
    x' := x;
    sent := c.SendHB(now, script, hb);
    if !idle && pending != [] {
      OutcomeIsSend(x, c.q.blockCount, script, c.wireOut, c.IsClosed(), sent, c.q.wire);
      x' :| SentAs(x, x') && Outgoing(x, x', c.wireOut, c.IsClosed(), sent, c.q.wire);
    } else if !idle {
      NothingPending(x, c.q.blockCount, c.q.wire);
      OutcomeIsBeat(x, c.q.blockCount, hb, c.wireOut, c.IsClosed(), c.q.wire);
      x' := Beaten(x, hb);
    }
  }

  lemma NoStep(x: Node)
    ensures SentAs(x, x)
  {
  }

  // ---- opening ----

  lemma OpenedUnsent(f: File, cap: nat, t: nat, wire: bool)
    requires FileInv(f, cap) && cap < 0x2000_0000 && f.read <= t <= |f.hist|
    ensures AckOk(f.q, Wrap(t)) && Sound(OpenN(f, Wrap(t)), cap)
    ensures var x := OpenN(f, Wrap(t));
      && x.s.open && x.f.q == QLoginAck(f.q, Wrap(t)) && x.f.q.sent == 0
      && Partial(x) && OnWire(x, wire) == [] && Unsent(x.f.q, wire) == EncodeAll(x.f.q.msgs, wire)
      && x.s.inbox == [] && x.s.seen == 0
  {
    hide FileInv, SendInv, Stream, QLoginAck, Released, Wrap;
    OpenKeeps(f, cap, t);
    OpenedSide(f, Wrap(t));
    var m := EncodeAll(OpenN(f, Wrap(t)).f.q.msgs, wire);
    assert m[0..] == m;
  }

  /** Open, with what SendPending sends in it. */
  method OpenStep(c: PtcpConnection, ghost f: File, ghost t: nat, fd: int, remoteAck: U32, now: int, script: seq<SendResult>)
    returns (ghost x': Node)
    requires fd != INVALID && c.IsClosed() && c.fdToClose == INVALID && c.RecvValid() && c.QueueOk()
    requires c.recvbuf as object != c.q.blk && c.q.Abs() == f.q && FileInv(f, c.q.blockCount) && c.q.blockCount < 0x2000_0000
    requires f.read <= t <= |f.hist| && remoteAck == Wrap(t)
    modifies c, c.q
    ensures AckOk(f.q, remoteAck) && SentAs(OpenN(f, remoteAck), x') && Describes(x', c)
    ensures c.fdToClose == fd
  {
    hide EncodeAll, Flat, HostTail, OnWire, OpenN, Sound, Partial, TotalLen, Unsent, SendOutcome, FileInv, Wrap, QLoginAck;
    hide PtcpConnection.RecvValid, PtcpConnection.SendValid, PtcpQueue.Valid, PtcpQueue.UnsentBlocks, AckOk, SentAs;
    OpenedUnsent(f, c.q.blockCount, t, c.q.wire);
    ghost var x := OpenN(f, remoteAck);
    ghost var sent := c.Open(fd, remoteAck, now, script);
    OutcomeIsSend(x, c.q.blockCount, script, c.wireOut, c.IsClosed(), sent, c.q.wire);
    x' :| SentAs(x, x') && Outgoing(x, x', c.wireOut, c.IsClosed(), sent, c.q.wire);
    NoneWaiting();
  }

  /** RequestClose, or any Close: the node's close step. */
  method CloseStep(c: PtcpConnection, ghost x: Node)
    requires Describes(x, c)
    modifies c`sockfd
    ensures Describes(CloseN(x), c) && c.fdToClose == old(c.fdToClose)
  {
    hide EncodeAll, Flat, HostTail, OnWire, Apps, Partial, PtcpQueue.Valid, PtcpQueue.UnsentBlocks;
    hide HasFrame, PartFits, PlainHeartbeats, Aligned, AllWf;
    ClosePutsNothing(x, c.q.wire);
    c.Close();
  }

  /** The first connection over a queue file: made, and opened for the peer's count t. */
  method FirstConnection(q: PtcpQueue, init: nat, max: nat, interval: int, timeout: int, ghost f: File, ghost t: nat,
                         fd: int, remoteAck: U32, now: int, script: seq<SendResult>)
    returns (c: PtcpConnection, ghost x': Node)
    requires 8 <= init <= max < 0x4000_0000 && max % 8 == 0 && fd != INVALID
    requires q.Valid() && q.Ordered() && q.Abs() == f.q && FileInv(f, q.blockCount) && q.blockCount < 0x2000_0000
    requires f.read <= t <= |f.hist| && remoteAck == Wrap(t)
    modifies q
    ensures fresh(c) && c.q == q && AckOk(f.q, remoteAck) && SentAs(OpenN(f, remoteAck), x') && Describes(x', c)
    ensures c.fdToClose == fd
  {
    hide Describes, SentAs, OpenN, AckOk, FileInv, Wrap, PtcpQueue.Valid;
    c := new PtcpConnection(q, init, max, interval, timeout);
    x' := OpenStep(c, f, t, fd, remoteAck, now, script);
  }

  /** Over a broken or unwanted connection to a new one: close it, give the socket back, and open again for the peer's
      count t. The file goes on; everything the peer has not consumed is sent again. */
  method Reconnect(c: PtcpConnection, ghost x: Node, ghost t: nat, fd: int, remoteAck: U32, now: int, script: seq<SendResult>)
    returns (ghost x': Node)
    requires Describes(x, c) && FileInv(x.f, c.q.blockCount) && c.q.blockCount < 0x2000_0000 && fd != INVALID
    requires x.f.read <= t <= |x.f.hist| && remoteAck == Wrap(t)
    modifies c, c.q
    ensures AckOk(x.f.q, remoteAck) && SentAs(OpenN(x.f, remoteAck), x') && Describes(x', c)
    ensures c.fdToClose == fd
  {
    hide SentAs, OpenN, AckOk, FileInv, Wrap, OnWire, Apps, Partial, EncodeAll, PtcpQueue.Valid, PtcpConnection.SendValid;
    CloseStep(c, x);
    var _ := c.TryCloseFd();
    x' := OpenStep(c, x.f, t, fd, remoteAck, now, script);
  }

  lemma SentKeeps(x: Node, x': Node, cap: nat)
    requires Sound(x, cap) && SentAs(x, x')
    ensures Sound(x', cap) && x'.f.hist == x.f.hist && x'.f.read == x.f.read
  {
    hide FileInv, SendInv, Stream, SendN;
    if x' != x {
      var whole: nat, part: nat, broke: bool :| CanSendN(x, whole, part, broke) && x' == SendN(x, whole, part, broke);
      SendKeepsFile(x, cap, whole, part, broke);
      SendKeepsStream(x, cap, whole, part, broke);
      SendKeepsHistory(x, whole, part, broke);
    }
  }

  lemma SendKeepsHistory(x: Node, whole: nat, part: nat, broke: bool)
    requires CanSendN(x, whole, part, broke)
    ensures SendN(x, whole, part, broke).f.hist == x.f.hist && SendN(x, whole, part, broke).f.read == x.f.read
  {
    hide QSendout, SentBytes;
  }

  /** A connection's life: made and opened for the peer's count t, closed, and opened again for its later count u. */
  method OpenTwice(q: PtcpQueue, init: nat, max: nat, ghost f: File, ghost t: nat, ghost u: nat, ackT: U32, ackU: U32,
                   fd: int, fd2: int, now: int, script: seq<SendResult>, script2: seq<SendResult>)
    returns (c: PtcpConnection, ghost x': Node)
    requires 8 <= init <= max < 0x4000_0000 && max % 8 == 0 && fd != INVALID && fd2 != INVALID
    requires q.Valid() && q.Ordered() && q.Abs() == f.q && FileInv(f, q.blockCount) && q.blockCount < 0x2000_0000
    requires f.read <= t <= u <= |f.hist| && ackT == Wrap(t) && ackU == Wrap(u)
    modifies q
    ensures c.q == q && Describes(x', c) && c.fdToClose == fd2
    ensures x'.f.hist == f.hist && x'.f.read == u
  {
    hide Describes, SentAs, OpenN, AckOk, FileInv, Wrap, PtcpQueue.Valid, Sound;
    ghost var x: Node;
    c, x := FirstConnection(q, init, max, 0, 0, f, t, fd, ackT, now, script);
    OpenedSound(f, q.blockCount, t);
    SentKeeps(OpenN(f, ackT), x, q.blockCount);
    SoundFile(x, q.blockCount);
    x' := Reconnect(c, x, u, fd2, ackU, now, script2);
    OpenedSound(x.f, q.blockCount, u);
    SentKeeps(OpenN(x.f, ackU), x', q.blockCount);
  }

  lemma OpenedSound(f: File, cap: nat, t: nat)
    requires FileInv(f, cap) && cap < 0x2000_0000 && f.read <= t <= |f.hist|
    ensures AckOk(f.q, Wrap(t)) && Sound(OpenN(f, Wrap(t)), cap)
    ensures OpenN(f, Wrap(t)).f.hist == f.hist && OpenN(f, Wrap(t)).f.read == t
  {
    hide FileInv, SendInv, Stream, Wrap, OpenN, AckOk;
    OpenKeeps(f, cap, t);
  }

  lemma SoundFile(x: Node, cap: nat)
    requires Sound(x, cap)
    ensures FileInv(x.f, cap)
  {
  }

  lemma NoneWaiting()
    ensures Apps([]) == []
  {
  }

  // ---- receiving ----

  /** A Recv step, with what Front may have closed. */
  ghost predicate HeardAs(x: Node, y: Node, y': Node) {
    || y' == y || y' == CloseN(y)
    || exists frames: nat, header: bool, y1: Node ::
         CanRecvN(x, y, frames, header) && RecvN(x, y, frames, header, y1) && (y' == y1 || y' == CloseN(y1))
  }

  /** What the object of y holds after reading b bytes of x's stream. */
  ghost predicate Incoming(x: Node, y: Node, y': Node, b: nat, gone: seq<Msg>, waiting: seq<Msg>, q: QState, wire: bool) {
    && InStep(x, y', b) && y'.f.q == q && Apps(waiting) == y'.s.inbox && |gone + waiting| == y'.s.seen
    && y'.s.open == y.s.open && Partial(y') && Partial(y) && OnWire(y', wire) == OnWire(y, wire)
  }

  /** The parse of the bytes read is the frames received whole. */
  lemma ParsedFrames(x: Node, cap: nat, a: nat, wire: bool)
    requires FileInv(x.f, cap) && Stream(x) && Partial(x) && a <= WireLen(x)
    ensures Parse(OnWire(x, wire)[..a], wire) == Frames(x)[..WholeIn(Frames(x), a)]
  {
    hide EncodeAll, TotalLen, Encode, Parse, Acks, WholeIn, HeadersIn, FileInv, Stream, AllWf, PlainHeartbeats, AcksOf;
    FramesWf(x, cap);
    WireIsCut(x, wire);
    assert OnWire(x, wire)[..a] == EncodeAll(Frames(x), wire)[..a];
    CutStream(Frames(x), a, wire);
  }

  /** Of the messages parsed on top of those before, the application messages join those waiting. */
  lemma WaitingGrows(before: seq<Msg>, more: seq<Msg>, gone: seq<Msg>, waiting: seq<Msg>, gone': seq<Msg>, waiting': seq<Msg>)
    requires before == gone + waiting && before + more == gone' + waiting' && Apps(gone') == Apps(gone)
    ensures Apps(waiting') == Apps(waiting) + Apps(more)
  {
    hide Apps;
    AppsConcat(gone, waiting);
    AppsConcat(before, more);
    AppsConcat(gone', waiting');
    Assoc(Apps(gone), Apps(waiting), Apps(more));
    Cancel(Apps(gone), Apps(waiting'), Apps(waiting) + Apps(more));
  }

  lemma Cancel<T>(a: seq<T>, b: seq<T>, c: seq<T>)
    requires a + b == a + c
    ensures b == c
  {
    assert b == (a + b)[|a|..];
    assert c == (a + c)[|a|..];
  }

  /** Reading on from a to b is a Recv step, after which the object is as the node says. */
  lemma ReadingIsRecv(x: Node, y: Node, cap: nat, a: nat, b: nat, wire: bool, gone: seq<Msg>, waiting: seq<Msg>,
                      gone': seq<Msg>, waiting': seq<Msg>, q: QState)
    requires Shared(y, x, cap, true) && y.s.open && Partial(y) && InStep(x, y, a) && a <= b <= WireLen(x)
    requires Parse(OnWire(x, wire)[..a], wire) == gone + waiting && Apps(waiting) == y.s.inbox
    requires Acknowledged(y.f.q, Acks(Given(x, a, b, wire), wire), q)
    requires Parse(OnWire(x, wire)[..b], wire) == gone' + waiting' && Apps(gone') == Apps(gone)
    ensures exists y' :: HeardAs(x, y, y') && Incoming(x, y, y', b, gone', waiting', q, wire)
  {
    hide Parse, Acks, AcksOf, WholeIn, HeadersIn, AcksSafe, Heard, QAckAll;
    hide OnWire, Apps, Partial, FAckAll, Given, TotalLen, Shared, HeardAs, Incoming, RecvN, CanRecvN, Stream, FileInv;
    StreamOf(x, y, cap);
    var s, e, h := y.s.seen, WholeIn(Frames(x), b), HeadersIn(Frames(x), b) > WholeIn(Frames(x), b);
    GivenIsRecv(x, y, cap, a, b, wire);
    FileHears(y.f, AcksOf(Heard(x, y, e - s, h)));
    ParsedFrames(x, cap, a, wire);
    ParsedFrames(x, cap, b, wire);
    WireIsCut(x, wire);
    FramesSplit(x.s.done, Piece(x), s, e);
    WaitingGrows(Frames(x)[..s], x.s.done[s..e], gone, waiting, gone', waiting');
    Received(x, y, cap, b, e - s, h, wire, gone', waiting', q);
  }

  lemma FramesSplit<T>(done: seq<T>, more: seq<T>, s: nat, e: nat)
    requires s <= e <= |done|
    ensures (done + more)[..s] + done[s..e] == (done + more)[..e]
  {
  }

  /** The node that a Recv step makes. */
  ghost function AfterRecv(x: Node, y: Node, frames: nat, header: bool): Node
    requires CanRecvN(x, y, frames, header) && AcksSafe(y.f.q, AcksOf(Heard(x, y, frames, header)))
  {
    Node(FAckAll(y.f, AcksOf(Heard(x, y, frames, header))),
         y.s.(seen := y.s.seen + frames, inbox := y.s.inbox + Apps(x.s.done[y.s.seen..y.s.seen + frames])))
  }

  lemma Received(x: Node, y: Node, cap: nat, b: nat, frames: nat, header: bool, wire: bool,
                 gone: seq<Msg>, waiting: seq<Msg>, q: QState)
    requires Shared(y, x, cap, true) && CanRecvN(x, y, frames, header) && Partial(y) && Partial(x) && b <= WireLen(x)
    requires AcksSafe(y.f.q, AcksOf(Heard(x, y, frames, header)))
    requires q == FAckAll(y.f, AcksOf(Heard(x, y, frames, header))).q
    requires |gone + waiting| == y.s.seen + frames == WholeIn(Frames(x), b)
    requires Apps(waiting) == y.s.inbox + Apps(x.s.done[y.s.seen..y.s.seen + frames])
    ensures exists y' :: HeardAs(x, y, y') && Incoming(x, y, y', b, gone, waiting, q, wire)
  {
    hide Shared, AcksOf, AcksSafe, FAckAll, Heard, Apps, OnWire, Partial, WholeIn, Frames, WireLen;
    var y' := AfterRecv(x, y, frames, header);
    assert RecvN(x, y, frames, header, y');
    RecvPutsNothing(x, y, cap, frames, header, y', wire);
    assert HeardAs(x, y, y') && Incoming(x, y, y', b, gone, waiting, q, wire);
  }

  lemma GivenIsRecv(x: Node, y: Node, cap: nat, a: nat, b: nat, wire: bool)
    requires Shared(y, x, cap, true) && y.s.open && InStep(x, y, a) && a <= b <= WireLen(x)
    ensures var e, h := WholeIn(Frames(x), b), HeadersIn(Frames(x), b) > WholeIn(Frames(x), b);
      && y.s.seen <= e <= |x.s.done| && CanRecvN(x, y, e - y.s.seen, h)
      && Acks(Given(x, a, b, wire), wire) == AcksOf(Heard(x, y, e - y.s.seen, h))
      && AcksSafe(y.f.q, AcksOf(Heard(x, y, e - y.s.seen, h)))
  {
    hide FileInv, Stream, Half, OpenInv, Reading, Bounded, Parse, Acks, Rest, AcksOf, Proper, WholeIn, HeadersIn, AcksSafe, Heard;
    hide OnWire;
    StreamOf(x, y, cap);
    ChunkIsRecv(x, y, cap, a, b, wire);
    PeerKeepsProtocolAlways(x, y, cap, a, b, wire);
  }

  lemma RecvPutsNothing(x: Node, y: Node, cap: nat, frames: nat, header: bool, y': Node, wire: bool)
    requires Shared(y, x, cap, true) && CanRecvN(x, y, frames, header) && RecvN(x, y, frames, header, y') && Partial(y)
    ensures Partial(y') && OnWire(y', wire) == OnWire(y, wire)
  {
    hide FileInv, Stream, Half, Reading, Apps, AcksOf, AcksSafe, FAckAll, Heard, EncodeAll, TotalLen, Encode;
    RecvKeepsHist(y, x, cap, frames, header, y');
  }

  /** The node after Front: what was read, if anything, and whether the connection is closed now. */
  lemma FrontLeaves(x: Node, y: Node, cap: nat, a: nat, b: nat, wire: bool, gone: seq<Msg>, waiting: seq<Msg>,
                    gone': seq<Msg>, waiting': seq<Msg>, q: QState, closed: bool) returns (y': Node)
    requires Shared(y, x, cap, true) && Partial(y) && InStep(x, y, a) && a <= b <= WireLen(x) && (!closed ==> y.s.open)
    requires Parse(OnWire(x, wire)[..a], wire) == gone + waiting && Apps(waiting) == y.s.inbox
    requires Parse(OnWire(x, wire)[..b], wire) == gone' + waiting' && Apps(gone') == Apps(gone)
    requires |gone + waiting| == y.s.seen
    requires if a == b then q == y.f.q else y.s.open && Acknowledged(y.f.q, Acks(Given(x, a, b, wire), wire), q)
    ensures HeardAs(x, y, y') && Incoming(x, if closed then CloseN(y) else y, y', b, gone', waiting', q, wire)
    ensures OnWire(y', wire) == OnWire(y, wire)
  {
    hide FileInv, Stream, Half, OpenInv, Reading, Bounded, Shared, CanRecvN, RecvN, OnWire, Apps, Parse, Acks, Given;
    hide WireLen, Frames;
    var y1 := y;
    if a == b {
      WaitingSame(gone, waiting, gone', waiting');
    } else {
      ReadingIsRecv(x, y, cap, a, b, wire, gone, waiting, gone', waiting', q);
      y1 :| HeardAs(x, y, y1) && Incoming(x, y, y1, b, gone', waiting', q, wire);
    }
    y' := if closed then CloseN(y1) else y1;
    ClosePutsNothing(y, wire);
    ClosePutsNothing(y1, wire);
  }

  lemma WaitingSame(gone: seq<Msg>, waiting: seq<Msg>, gone': seq<Msg>, waiting': seq<Msg>)
    requires gone + waiting == gone' + waiting' && Apps(gone') == Apps(gone)
    ensures Apps(waiting') == Apps(waiting)
  {
    NoneWaiting();
    hide Apps;
    assert gone + waiting + [] == gone' + waiting';
    WaitingGrows(gone + waiting, [], gone, waiting, gone', waiting');
  }

  lemma FirstWaiting(waiting: seq<Msg>)
    ensures waiting != [] && !waiting[0].IsHeartbeat() ==> Apps(waiting) != [] && Apps(waiting)[0] == waiting[0]
    ensures waiting == [] ==> Apps(waiting) == []
  {
  }

  /** What the kernel has ready of an honest peer's stream is what Front relies on. */
  lemma ReadyKeepsProtocol(c: PtcpConnection, x: Node, y: Node, a: nat, bytes: seq<Byte>)
    requires c.QueueOk() && c.RecvValid() && c.q.Abs() == y.f.q && y.s.open
    requires Shared(y, x, c.q.blockCount, true) && InStep(x, y, a) && a + |bytes| <= WireLen(x)
    requires c.Received() == OnWire(x, c.q.wire)[..a] && bytes == OnWire(x, c.q.wire)[a..a + |bytes|]
    ensures c.PeerKeepsProtocol(bytes) && c.part + bytes == Given(x, a, a + |bytes|, c.q.wire)
  {
    hide Shared, OnWire, Parse, Rest, Acks, Proper, AcksSafe, WireLen, Frames, PtcpConnection.RecvValid, PtcpQueue.Valid;
    c.StreamParsed();
    PeerKeepsProtocolAlways(x, y, c.q.blockCount, a, a + |bytes|, c.q.wire);
  }

  /** Front, on whatever the kernel has ready of the peer's next bytes. */
  method FrontStep(c: PtcpConnection, ghost x: Node, ghost y: Node, ghost a: nat, avail: RecvResult)
    returns (found: bool, off: nat, ghost y': Node, ghost b: nat)
    requires Describes(y, c) && Shared(y, x, c.q.blockCount, true) && InStep(x, y, a)
    requires c.Received() == OnWire(x, c.q.wire)[..a]
    requires avail.Data? ==> y.s.open && a + |avail.bytes| <= WireLen(x)
    requires avail.Data? ==> avail.bytes == OnWire(x, c.q.wire)[a..a + |avail.bytes|]
    modifies c, c.recvbuf, c.q
    ensures HeardAs(x, y, y') && Describes(y', c)
    ensures InStep(x, y', b) && a <= b <= WireLen(x) && c.Received() == OnWire(x, c.q.wire)[..b]
    ensures found ==> y'.s.inbox != [] && c.waiting != [] && c.waiting[0] == y'.s.inbox[0] && off == c.readIdx
    ensures !found && y'.s.open ==> y'.s.inbox == []
    // it reads exactly when it goes to the kernel and finds data
    ensures y.s.open ==> (a < b <==> old(c.Reads()) && Brings(avail))
    // and the connection breaks by an error, the peer's close, a timeout, or a message too large for the buffer
    ensures y.s.open ==> (!y'.s.open <==>
      old(c.Reads()) && if Brings(avail) then !PartFits(c.part, c.q.wire, c.maxSize) else !old(c.StillWaits(avail)))
  {
    hide PtcpConnection.Reads, PtcpConnection.StillWaits;
    hide Shared, HeardAs, OnWire, Partial, Apps, Parse, Rest, Acks, Proper, Given, WireLen, Frames, QAckAll;
    hide EncodeAll, HostTail, HasFrame, PartFits, PlainHeartbeats, Aligned, AllWf, AcksSafe, PtcpQueue.Valid, PtcpQueue.UnsentBlocks;
    hide PtcpConnection.RecvValid, PtcpConnection.Received;
    ghost var gone, waiting, part, raw := c.gone, c.waiting, c.part, OnWire(x, c.q.wire);
    c.StreamParsed();
    if avail.Data? {
      ReadyKeepsProtocol(c, x, y, a, avail.bytes);
    }
    ghost var got;
    found, off, got := c.Front(avail);
    b := a + |got|;
    GotMore(raw, a, if avail.Data? then avail.bytes else [], got);
    c.StreamParsed();
    if got != [] {
      GivenParts(x, a, b, part, got, c.q.wire);
    }
    y' := FrontLeaves(x, y, c.q.blockCount, a, b, c.q.wire, gone, waiting, c.gone, c.waiting, c.q.Abs(), c.IsClosed());
    FirstWaiting(c.waiting);
  }

  lemma GotMore(raw: seq<Byte>, a: nat, ready: seq<Byte>, got: seq<Byte>)
    requires a + |ready| <= |raw| && ready == raw[a..a + |ready|] && got <= ready
    ensures raw[..a] + got == raw[..a + |got|] && got == raw[a..a + |got|]
  {
  }

  lemma GivenParts(x: Node, a: nat, b: nat, part: seq<Byte>, got: seq<Byte>, wire: bool)
    requires Partial(x) && a <= b <= WireLen(x)
    requires part == Rest(OnWire(x, wire)[..a], wire) && got == OnWire(x, wire)[a..b]
    ensures part + got == Given(x, a, b, wire)
  {
  }
}