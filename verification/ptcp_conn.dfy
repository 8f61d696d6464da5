/** PTCPConnection: the receive buffer and framer, and the wire sender, over one TCP connection. */
module PtcpConnections {
  import opened Word32
  import opened MsgHeaders
  import opened PtcpQueueSpec
  import opened PtcpQueues
  import opened Framer

  type pos = n: int | 0 < n witness 1

  /** What one recv or readv finds: bytes ready in the kernel, nothing yet, an error, or the peer's close. */
  datatype RecvResult = Data(bytes: seq<Byte>) | NoData | RecvError | RemoteClose

  /** What one send does: takes up to n bytes, would block, or fails. */
  datatype SendResult = Taken(n: pos) | Again | SendError

  /** Bytes a recv may ask for beyond the free tail of the buffer: the room compaction frees, and growth. */
  function ExtraSize(size: nat, write: nat, read: nat, maxSize: nat): nat
    requires write <= size <= maxSize
  {
    var writable := size - write;
    Min(0x1_0000, read + if (writable + read) * 2 < size then maxSize - size else 0)
  }

  /** Nothing is asked of the kernel exactly when a buffer of the maximum size is full from its first byte. */
  lemma RefusesOnlyFull(size: nat, write: nat, read: nat, maxSize: nat)
    requires read <= write <= size <= maxSize && 0 < size
    ensures size - write + ExtraSize(size, write, read, maxSize) == 0 <==> read == 0 && write == size == maxSize
  {
  }

  lemma GrownSizeIs(size: nat, maxSize: nat, needed: nat)
    ensures GrownSize(size, maxSize, needed) == Min(maxSize, Max(2 * size, Padded(needed)))
  {
  }

  lemma Halves<T>(a: seq<T>, b: seq<T>, k: nat)
    requires k <= |b|
    ensures a + b[..k] + b[k..] == a + b
  {
    assert b == b[..k] + b[k..];
  }

  lemma ExtraSizeIs(size: nat, write: nat, read: nat, maxSize: nat)
    requires read <= write <= size <= maxSize
    ensures ExtraSize(size, write, read, maxSize)
         == Min(0x1_0000, read + if 2 * (size - write + read) < size then maxSize - size else 0)
    ensures ExtraSize(size, write, read, maxSize) > read ==> 2 * (size - write + read) < size
  {
  }

  /** Data is ready. */
  predicate Brings(avail: RecvResult) {
    avail.Data? && avail.bytes != []
  }

  /** Twice the buffer, or all the data if that is more, within the maximum. */
  function GrownSize(size: nat, maxSize: nat, needed: nat): nat {
    Min(maxSize, Max(size * 2, Padded(needed)))
  }

  /** No copy leaves the buffer: what readv was allowed to put aside fits after compaction, or after growth. */
  lemma RoomToRearrange(size: nat, write: nat, read: nat, maxSize: nat, extra: nat)
    requires read <= write <= size <= maxSize
    requires extra <= ExtraSize(size, write, read, maxSize)
    ensures extra <= read || (size - read + extra <= GrownSize(size, maxSize, size - read + extra) <= maxSize
                              && size <= GrownSize(size, maxSize, size - read + extra))
  {
  }

  predicate Aligned(n: int) {
    n % 8 == 0
  }

  lemma AlignedSums(a: int, b: int)
    requires Aligned(a) && Aligned(b)
    ensures Aligned(a + b) && Aligned(a - b) && Aligned(0)
  {
  }

  lemma FrameLenAligned(raw: seq<Byte>, wire: bool)
    requires HasFrame(raw, wire)
    ensures Aligned(FrameLen(raw, wire)) && 8 <= FrameLen(raw, wire) <= |raw|
  {
  }

  /** A raw leftover as it lies in the buffer: its header, once complete, already in host order. */
  function HostTail(raw: seq<Byte>, host: bool, wire: bool): (r: seq<Byte>)
    ensures |r| == |raw|
  {
    if |raw| >= 8 then Convert(raw[..8], host, wire) + raw[8..] else raw
  }

  /** The header of a message not complete yet announces one that fits the largest buffer. */
  predicate PartFits(part: seq<Byte>, wire: bool, maxSize: nat): (fits: bool)
    ensures !fits <==> |part| >= 8 && FrameLen(part, wire) > maxSize
  {
    |part| >= 8 ==> FrameLen(part, wire) <= maxSize
  }

  /** memcpy of bytes behind the data in a[lo..at]. */
  method AppendBytes(a: array<Byte>, lo: nat, at: nat, bytes: seq<Byte>)
    requires lo <= at && at + |bytes| <= a.Length
    modifies a
    ensures a[lo..at + |bytes|] == old(a[lo..at]) + bytes
  {
    forall i | 0 <= i < |bytes| {
      a[at + i] := bytes[i];
    }
  }

  /** Bytes inside a[lo..hi] replaced in place. */
  method OverwriteBytes(a: array<Byte>, lo: nat, at: nat, hi: nat, bytes: seq<Byte>)
    requires lo <= at && at + |bytes| <= hi <= a.Length
    modifies a
    ensures a[lo..at] == old(a[lo..at])
    ensures a[at..hi] == bytes + old(a[at + |bytes|..hi])
  {
    forall i | 0 <= i < |bytes| {
      a[at + i] := bytes[i];
    }
  }

  /** memmove, or memcpy into another buffer. */
  method MoveBytes(source: array<Byte>, from: nat, target: array<Byte>, count: nat)
    requires from + count <= source.Length && count <= target.Length
    modifies target
    ensures target[0..count] == old(source[from..from + count])
  {
    forall i | 0 <= i < count {
      target[i] := source[from + i];
    }
  }

  method Assemble(source: array<Byte>, from: nat, target: array<Byte>, count: nat, stackbuf: seq<Byte>)
    requires from + count <= source.Length && count + |stackbuf| <= target.Length
    modifies target
    ensures target[0..count + |stackbuf|] == old(source[from..from + count]) + stackbuf
  {
    MoveBytes(source, from, target, count);
    AppendBytes(target, 0, count, stackbuf);
  }

  lemma AfterPrefix(a: array<Byte>, lo: nat, hi: nat, first: seq<Byte>, later: seq<Byte>)
    requires lo <= hi <= a.Length && a[lo..hi] == first + later
    ensures a[lo + |first|..hi] == later
  {
    assert a[lo + |first|..hi] == a[lo..hi][|first|..];
  }

  lemma BeforeSuffix(a: array<Byte>, lo: nat, hi: nat, first: seq<Byte>, later: seq<Byte>)
    requires lo <= hi <= a.Length && a[lo..hi] == first + later
    ensures a[lo..lo + |first|] == first && a[lo + |first|..hi] == later
  {
    assert a[lo..lo + |first|] == a[lo..hi][..|first|];
    AfterPrefix(a, lo, hi, first, later);
  }

  lemma Rejoin(a: array<Byte>, lo: nat, mid: nat, hi: nat)
    requires lo <= mid <= hi <= a.Length
    ensures a[lo..hi] == a[lo..mid] + a[mid..hi]
  {
  }

  lemma FrameSize(raw: seq<Byte>, wire: bool)
    requires |raw| >= 8
    ensures FrameLen(raw, wire) == Padded(HeaderOf(raw, wire).size)
    ensures HasFrame(raw, wire) <==> 8 <= FrameLen(raw, wire) <= |raw|
    ensures Proper(raw, wire) ==> 8 <= FrameLen(raw, wire)
  {
  }

  lemma ProperFirst(raw: seq<Byte>, wire: bool)
    requires HasFrame(raw, wire) && Proper(raw, wire)
    ensures FirstFrame(raw, wire).header == HeaderOf(raw, wire)
    ensures FirstFrame(raw, wire).IsHeartbeat() ==> FirstFrame(raw, wire).body == []
  {
  }

  lemma AppsOneMore(ms: seq<Msg>, m: Msg)
    ensures Apps(ms + [m]) == Apps(ms) + if m.IsHeartbeat() then [] else [m]
  {
    AppsConcat(ms, [m]);
  }

  lemma AppsFirst(ms: seq<Msg>)
    requires ms != []
    ensures if ms[0].IsHeartbeat() then Apps(ms) == Apps(ms[1..]) else Apps(ms) != []
  {
  }

  lemma NoApps()
    ensures Apps([]) == []
  {
  }

  /** The first complete header of a proper stream, and what it leaves to be done. */
  lemma NextHeader(raw: seq<Byte>, q: QState, wire: bool)
    requires |raw| >= 8 && Proper(raw, wire) && AcksSafe(q, Acks(raw, wire))
    ensures AckSafe(q, HeaderOf(raw, wire).ackSeq)
    ensures HasFrame(raw, wire) ==>
      var acked, later := QAck(q, HeaderOf(raw, wire).ackSeq), raw[FrameLen(raw, wire)..];
      && |later| < |raw|
      && Parse(raw, wire) == [FirstFrame(raw, wire)] + Parse(later, wire)
      && Rest(raw, wire) == Rest(later, wire)
      && Proper(later, wire)
      && AcksSafe(acked, Acks(later, wire))
      && QAckAll(q, Acks(raw, wire)) == QAckAll(acked, Acks(later, wire))
    ensures !HasFrame(raw, wire) ==>
      && Parse(raw, wire) == []
      && Rest(raw, wire) == raw
      && QAckAll(q, Acks(raw, wire)) == QAck(q, HeaderOf(raw, wire).ackSeq)
  {
    hide FromBytes, QAck;
    var acks := Acks(raw, wire);
    assert acks[0] == HeaderOf(raw, wire).ackSeq;
    if HasFrame(raw, wire) {
      assert acks[1..] == Acks(raw[FrameLen(raw, wire)..], wire);
    } else {
      assert acks[1..] == [];
    }
  }

  /** Nothing is left to do on a leftover without a complete header. */
  lemma ShortRest(raw: seq<Byte>, q: QState, host: bool, wire: bool, maxSize: nat)
    requires |raw| < 8
    ensures Parse(raw, wire) == [] && Rest(raw, wire) == raw && !HasFrame(raw, wire)
    ensures Acks(raw, wire) == [] && AcksSafe(q, []) && QAckAll(q, []) == q
    ensures HostTail(raw, host, wire) == raw && PartFits(raw, wire, maxSize)
  {
  }

  lemma BareHeartbeat(m: Msg)
    requires m.Wf() && m.body == []
    ensures Padded(m.header.size) == 8
  {
  }

  lemma WaitingFirst(ms: seq<Msg>, wire: bool)
    requires ms != [] && AllWf(ms)
    ensures forall tail :: EncodeAll(ms, wire) + tail == Encode(ms[0], wire) + (EncodeAll(ms[1..], wire) + tail)
    ensures TotalLen(ms) == ms[0].Len() + TotalLen(ms[1..])
    ensures ms[0].Wf() && AllWf(ms[1..]) && Aligned(ms[0].Len())
  {
  }

  ghost predicate Acknowledged(before: QState, acks: seq<U32>, after: QState) {
    AcksSafe(before, acks) && after == QAckAll(before, acks)
  }

  /** If all the data keeps the protocol, so does the part of it one read returns. */
  lemma Truncated(part: seq<Byte>, bytes: seq<Byte>, len: nat, q: QState, wire: bool)
    requires len <= |bytes| && Proper(part + bytes, wire) && AcksSafe(q, Acks(part + bytes, wire))
    ensures Proper(part + bytes[..len], wire) && AcksSafe(q, Acks(part + bytes[..len], wire))
  {
    hide Proper, Acks, AcksSafe;
    var raw, k := part + bytes, |part| + len;
    assert raw[..k] == part + bytes[..len];
    AcksOfPrefix(raw, k, wire);
    var acks, all := Acks(raw[..k], wire), Acks(raw, wire);
    assert all == acks + all[|acks|..];
    AckAllConcat(q, acks, all[|acks|..]);
  }

  /** New bytes complete at most the header of the leftover; if it was complete, it stays converted. */
  lemma TailGrows(part: seq<Byte>, got: seq<Byte>, host: bool, wire: bool)
    requires !HasFrame(part, wire) && Proper(part + got, wire)
    ensures HostTail(part, host, wire) + got
         == if |part| >= 8 then HostTail(part + got, host, wire) else part + got
    ensures |part| >= 8 ==> |part| < FrameLen(part + got, wire)
  {
    hide FromBytes, Convert;
    if |part| >= 8 {
      assert (part + got)[..8] == part[..8];
      assert (part + got)[8..] == part[8..] + got;
    }
  }

  /** Parsing moves the boundary between messages and leftover, not the bytes. */
  lemma ReceivedGrows(before: seq<Msg>, raw: seq<Byte>, wire: bool)
    ensures EncodeAll(before + Parse(raw, wire), wire) + Rest(raw, wire) == EncodeAll(before, wire) + raw
  {
    hide Parse, Rest, EncodeAll;
    ParseKeepsBytes(raw, wire);
    EncodeConcat(before, Parse(raw, wire), wire);
  }

  lemma NoneEncoded(tail: seq<Byte>, wire: bool)
    ensures EncodeAll([], wire) + tail == tail && TotalLen([]) == 0
  {
  }

  lemma OneMoreWf(ms: seq<Msg>, m: Msg)
    requires AllWf(ms) && m.Wf()
    ensures AllWf(ms + [m])
  {
  }

  lemma MoveBoundary(ms: seq<Msg>, m: Msg, later: seq<Byte>, wire: bool)
    ensures EncodeAll(ms + [m], wire) + later == EncodeAll(ms, wire) + (Encode(m, wire) + later)
    ensures TotalLen(ms + [m]) == TotalLen(ms) + m.Len()
  {
    hide EncodeAll, Encode, TotalLen, TotalBlocks;
    EncodeConcat(ms, [m], wire);
    OneEncoded(m, wire);
  }

  lemma OneEncoded(m: Msg, wire: bool)
    ensures EncodeAll([m], wire) == Encode(m, wire) && TotalLen([m]) == m.Len()
  {
    assert EncodeAll([m], wire) == Encode(m, wire) + [];
  }

  /** A complete frame with its header converted is the message in host order. */
  lemma HostFrame(raw: seq<Byte>, host: bool, wire: bool)
    requires HasFrame(raw, wire)
    ensures var n := FrameLen(raw, wire);
      HostTail(raw, host, wire) == Encode(FirstFrame(raw, wire), host) + raw[n..]
  {
    hide FromBytes, Convert, ToBytes;
    ConvertReads(raw[..8], host, wire);
    WriteBack(Convert(raw[..8], host, wire), host);
    assert raw[8..] == raw[8..FrameLen(raw, wire)] + raw[FrameLen(raw, wire)..];
  }

  /** The outcome of handing `size` bytes to the kernel: how many are left, and whether the connection broke. Stopping
      inside a block breaks it, because the queue's send index counts blocks. */
  function SendRun(script: seq<SendResult>, size: nat): (nat, bool)
    decreases |script|
  {
    if size == 0 then (0, false)
    else if script == [] || script[0].Again? then (size, size % 8 != 0)
    else if script[0].SendError? then (size, true)
    else SendRun(script[1..], size - Min(script[0].n, size))
  }

  lemma {:induction false} SendRunBounds(script: seq<SendResult>, size: nat)
    ensures SendRun(script, size).0 <= size
    ensures !SendRun(script, size).1 ==> SendRun(script, size).0 % 8 == 0
    decreases |script|
  {
    if size != 0 && script != [] && script[0].Taken? {
      SendRunBounds(script[1..], size - Min(script[0].n, size));
    }
  }

  /** The first i answers take bytes. */
  predicate AllTaken(script: seq<SendResult>, i: nat) {
    i <= |script| && forall j :: 0 <= j < i ==> script[j].Taken?
  }

  /** How many they take together. */
  function TakenSum(script: seq<SendResult>, i: nat): nat
    requires AllTaken(script, i)
  {
    if i == 0 then 0 else TakenSum(script, i - 1) + script[i - 1].n
  }

  /** The kernel takes less than `size` bytes in i answers, and then no more. */
  predicate StopsAt(script: seq<SendResult>, i: nat, size: nat) {
    AllTaken(script, i) && TakenSum(script, i) < size && (i == |script| || !script[i].Taken?)
  }

  /** The kernel takes all `size` bytes within i answers. */
  predicate TakesAll(script: seq<SendResult>, i: nat, size: nat) {
    AllTaken(script, i) && size <= TakenSum(script, i)
  }

  lemma {:induction false} TakenSumFirst(script: seq<SendResult>, i: nat)
    requires 0 < i && AllTaken(script, i)
    ensures AllTaken(script[1..], i - 1) && TakenSum(script, i) == script[0].n + TakenSum(script[1..], i - 1)
    decreases i
  {
    if i > 1 {
      TakenSumFirst(script, i - 1);
      assert script[1..][i - 2] == script[i - 1];
    }
  }

  /** The loop ends where the kernel stops: at an error broken, otherwise broken exactly if inside a block. */
  lemma {:induction false} SendRunStops(script: seq<SendResult>, i: nat, size: nat)
    requires StopsAt(script, i, size)
    ensures var left := size - TakenSum(script, i);
      SendRun(script, size) == (left, (i < |script| && script[i].SendError?) || left % 8 != 0)
    decreases i
  {
    if i > 0 {
      TakenSumFirst(script, i);
      SendRunStops(script[1..], i - 1, size - script[0].n);
    }
  }

  lemma {:induction false} SendRunTakesAll(script: seq<SendResult>, i: nat, size: nat)
    requires TakesAll(script, i, size)
    ensures SendRun(script, size) == (0, false)
    decreases i
  {
    if size > 0 {
      TakenSumFirst(script, i);
      if script[0].n < size {
        SendRunTakesAll(script[1..], i - 1, size - script[0].n);
      }
    }
  }

  /** It always ends in one of the two ways. */
  lemma {:induction false} StopsOrTakesAll(script: seq<SendResult>, i: nat, size: nat)
    requires AllTaken(script, i)
    ensures exists k: nat :: StopsAt(script, k, size) || TakesAll(script, k, size)
    decreases |script| - i
  {
    if size <= TakenSum(script, i) {
      assert TakesAll(script, i, size);
    } else if i == |script| || !script[i].Taken? {
      assert StopsAt(script, i, size);
    } else {
      StopsOrTakesAll(script, i + 1, size);
    }
  }

  /** What sending `pending` on an open connection comes to, for every point at which the kernel may stop: the bytes it
      took are on the wire; an error breaks the connection, and so does "would block" inside a block; and unless broken,
      the blocks taken count as sent. */
  ghost predicate SentUpTo(pending: seq<Byte>, script: seq<SendResult>, out: seq<Byte>, out': seq<Byte>, isClosed: bool, sent: nat) {
    && (forall i: nat :: StopsAt(script, i, |pending|) ==>
          var n := TakenSum(script, i);
          && out' == out + pending[..n]
          && (isClosed <==> (i < |script| && script[i].SendError?) || (|pending| - n) % 8 != 0)
          && if isClosed then sent == 0 else 8 * sent == n)
    && (forall i: nat :: TakesAll(script, i, |pending|) ==> out' == out + pending && !isClosed && 8 * sent == |pending|)
  }

  lemma OutcomeMeans(pending: seq<Byte>, script: seq<SendResult>, out: seq<Byte>, out': seq<Byte>, isClosed: bool, sent: nat)
    requires SendOutcome(pending, script, out, out', false, isClosed, sent) && pending != []
    ensures SentUpTo(pending, script, out, out', isClosed, sent)
  {
    hide SendRun;
    forall i: nat | StopsAt(script, i, |pending|)
      ensures var n := TakenSum(script, i);
        && out' == out + pending[..n]
        && (isClosed <==> (i < |script| && script[i].SendError?) || (|pending| - n) % 8 != 0)
        && if isClosed then sent == 0 else 8 * sent == n
    {
      SendRunStops(script, i, |pending|);
    }
    forall i: nat | TakesAll(script, i, |pending|)
      ensures out' == out + pending && !isClosed && 8 * sent == |pending|
    {
      SendRunTakesAll(script, i, |pending|);
      assert pending[..|pending|] == pending;
    }
  }

  /** What one SendPending does to the outgoing stream, given how the kernel answers. */
  ghost predicate SendOutcome(pending: seq<Byte>, script: seq<SendResult>, out: seq<Byte>, out': seq<Byte>,
                              wasClosed: bool, isClosed: bool, sent: nat)
  {
    if wasClosed || pending == [] then
      out' == out && isClosed == wasClosed && sent == 0
    else
      var (left, broke) := SendRun(script, |pending|);
      && left <= |pending| && out' == out + pending[..|pending| - left]
      && isClosed == broke
      && if broke then sent == 0 else 8 * sent == |pending| - left
  }

  lemma NothingToSend(pending: seq<Byte>, script: seq<SendResult>, out: seq<Byte>, out': seq<Byte>,
                      wasClosed: bool, isClosed: bool, sent: nat)
    requires SendOutcome(pending, script, out, out', wasClosed, isClosed, sent) && (wasClosed || pending == [])
    ensures out' == out && isClosed == wasClosed && sent == 0
  {
  }

  /** What one heartbeat does to the outgoing stream of an open connection. */
  ghost predicate HeartbeatOutcome(hb: SendResult, beat: seq<Byte>, out: seq<Byte>, out': seq<Byte>, isClosed: bool)
    requires |beat| == 8
  {
    match hb
    case Again => out' == out && !isClosed
    case SendError => out' == out && isClosed
    case Taken(n) => out' == out + beat[..Min(n, 8)] && isClosed == (n < 8)
  }

  lemma EmptyPrefix(s: seq<Byte>)
    ensures [] <= s && [] + s == s
  {
  }

  lemma WireGrows(out: seq<Byte>, pending: seq<Byte>, taken: nat)
    requires taken <= |pending|
    ensures out + pending[..taken] <= out + pending
    ensures out + pending[..taken] + pending[taken..] == out + pending
  {
  }

  lemma LogGrows(log: seq<Msg>, m: Msg, out: seq<Byte>, pending: seq<Byte>, wire: bool)
    requires m.Wf() && AllWf(log) && out <= EncodeAll(log, wire)
    ensures AllWf(log + [m]) && out <= EncodeAll(log + [m], wire)
    ensures out + pending == EncodeAll(log, wire) ==>
      out + (pending + Encode(m, wire)) == EncodeAll(log + [m], wire)
  {
    hide EncodeAll, Encode;
    var all, last := EncodeAll(log, wire), Encode(m, wire);
    MoveBoundary(log, m, [], wire);
    assert EncodeAll(log + [m], wire) + [] == EncodeAll(log + [m], wire);
    assert all + (last + []) == all + last;
    assert out + (pending + last) == out + pending + last;
  }

  lemma CountBlocks(pending: nat, left: nat)
    requires left <= pending && pending % 8 == 0 && left % 8 == 0
    ensures 8 * (pending / 8 - left / 8) == pending - left && (pending / 8 == left / 8 <==> left == pending)
  {
  }

  lemma SomeBytes(ms: seq<Msg>, wire: bool)
    ensures ms == [] <==> EncodeAll(ms, wire) == []
  {
  }

  lemma NothingParsed(wire: bool)
    ensures Parse([], wire) == []
  {
  }

  /** SendPending's do-while. A script that has run out is a kernel that takes no more for now. */
  method SendLoop(script: seq<SendResult>, size: nat) returns (left: nat, broke: bool)
    requires 0 < size
    ensures (left, broke) == SendRun(script, size)
  {
    var i := 0;
    left, broke := size, false;
    while true
      invariant 0 < left && 0 <= i <= |script|
      invariant SendRun(script[i..], left) == SendRun(script, size)
      decreases |script| - i
    {
      if i == |script| || script[i].Again? {
        return left, left % 8 != 0;
      }
      if script[i].SendError? {
        return left, true;
      }
      left := left - Min(script[i].n, left);
      assert script[i..][1..] == script[i + 1..];
      i := i + 1;
      if left == 0 {
        return left, false;
      }
    }
  }

  class PtcpConnection {
    const q: PtcpQueue
    const initSize: nat            // TcpRecvBufInitSize
    const maxSize: nat             // TcpRecvBufMaxSize
    const heartbeatInterval: int
    const connectionTimeout: int
    var sockfd: int
    var fdToClose: int
    var recvbuf: array<Byte>
    var recvbufSize: nat
    var writeIdx: nat
    var nextmsgIdx: nat
    var readIdx: nat
    var recvTime: int
    var sendTime: int
    var clock: int
    var lastMyAck: U32
    // the connection's incoming stream: messages consumed, messages complete in the buffer, raw leftover
    ghost var gone: seq<Msg>
    ghost var waiting: seq<Msg>
    ghost var part: seq<Byte>
    // its outgoing stream: every frame put on it, and the bytes the kernel has taken
    ghost var log: seq<Msg>
    ghost var wireOut: seq<Byte>

    constructor (queue: PtcpQueue, init: nat, max: nat, interval: int, timeout: int)
      requires 8 <= init <= max < 0x4000_0000 && max % 8 == 0
      ensures q == queue && initSize == init && maxSize == max
      ensures RecvValid() && IsClosed() && fdToClose == INVALID && fresh(recvbuf)
    {
      q, initSize, maxSize, heartbeatInterval, connectionTimeout := queue, init, max, interval, timeout;
      sockfd, fdToClose := INVALID, INVALID;
      recvbuf := new Byte[0];
      recvbufSize, writeIdx, nextmsgIdx, readIdx := 0, 0, 0, 0;
      recvTime, sendTime, clock, lastMyAck := 0, 0, 0, 0;
      gone, waiting, part, log, wireOut := [], [], [], [], [];
    }

    predicate IsClosed()
      reads this`sockfd
    {
      sockfd == INVALID
    }

    /** The buffer itself: not there before the first login, then between its initial and its maximum size. */
    ghost predicate Storage()
      reads this`recvbuf, this`recvbufSize
    {
      && 8 <= initSize <= maxSize < 0x4000_0000 && Aligned(maxSize)
      && recvbuf.Length == recvbufSize <= maxSize
      && (recvbufSize == 0 || initSize <= recvbufSize)
    }

    /** The four indices of the buffer, and the alignment of the offsets given to the user. */
    ghost predicate Indexed()
      reads this`recvbuf, this`recvbufSize, this`writeIdx, this`nextmsgIdx, this`readIdx, this`sockfd, recvbuf
    {
      && Storage()
      && readIdx <= nextmsgIdx <= writeIdx <= recvbufSize
      && Aligned(readIdx) && Aligned(nextmsgIdx)
      && (!IsClosed() ==> 0 < recvbufSize)
    }

    /** The unread bytes are the waiting messages with host headers, then `tail`. */
    ghost predicate Holds(tail: seq<Byte>)
      requires Indexed()
      reads this`recvbuf, this`recvbufSize, this`writeIdx, this`nextmsgIdx, this`readIdx, this`sockfd,
        this`waiting, this`gone, recvbuf
    {
      && recvbuf[readIdx..writeIdx] == EncodeAll(waiting, q.host) + tail
      && nextmsgIdx - readIdx == TotalLen(waiting)
      && AllWf(gone) && AllWf(waiting)
    }

    ghost predicate RecvValid()
      reads this`recvbuf, this`recvbufSize, this`writeIdx, this`nextmsgIdx, this`readIdx, this`sockfd,
        this`waiting, this`gone, this`part, recvbuf
    {
      && Indexed()
      && Holds(HostTail(part, q.host, q.wire))
      && !HasFrame(part, q.wire)
      && PlainHeartbeats(waiting)
      && (!IsClosed() ==> PartFits(part, q.wire, maxSize))
    }

    /** All bytes received on this connection. */
    ghost function Received(): seq<Byte>
      reads this`gone, this`waiting, this`part
    {
      EncodeAll(gone + waiting, q.wire) + part
    }

    /** The buffer is full to its maximum, from its first byte: nothing can be asked of the kernel. */
    ghost predicate Stuffed()
      reads this`readIdx, this`writeIdx, this`recvbufSize
    {
      readIdx == 0 && writeIdx == recvbufSize == maxSize
    }

    /** Nothing to read, and not for too long: the one reason to read nothing and stay open. */
    ghost predicate StillWaits(avail: RecvResult)
      reads this`clock, this`recvTime
    {
      avail.NoData? && clock - recvTime <= connectionTimeout
    }

    /** DoRecv. The caller adds the result to the write index. */
    method DoRecv(avail: RecvResult) returns (len: nat)
      requires Indexed()
      modifies this`sockfd, this`recvbuf, this`recvbufSize, this`writeIdx, this`nextmsgIdx, this`readIdx, this`recvTime, recvbuf
      ensures fresh(recvbuf) || recvbuf == old(recvbuf)
      ensures Indexed() && writeIdx + len <= recvbufSize
      ensures 0 < len ==> avail.Data? && len <= |avail.bytes| && !IsClosed()
      ensures recvbuf[readIdx..writeIdx + len]
           == old(recvbuf[readIdx..writeIdx]) + if 0 < len then avail.bytes[..len] else []
      ensures nextmsgIdx - readIdx == old(nextmsgIdx - readIdx) && writeIdx - readIdx == old(writeIdx - readIdx)
      ensures sockfd == old(sockfd) || IsClosed()
      ensures len == 0 && !IsClosed() && avail.Data? && avail.bytes != [] ==>
        readIdx == 0 && writeIdx == recvbufSize == maxSize
      // an open connection reads what is ready, unless its buffer is full to the maximum
      ensures !old(IsClosed()) ==> (0 < len <==> Brings(avail) && !old(Stuffed()))
      // and is closed exactly by an error, the peer's close, or a timeout
      ensures !old(IsClosed()) ==> (IsClosed() <==> !old(Stuffed()) && !Brings(avail) && !old(StillWaits(avail)))
      ensures old(IsClosed()) ==> IsClosed() && len == 0
      ensures recvTime == if 0 < len then clock else old(recvTime)
      // as much as is ready, or the free tail and at most 64 KiB of what compaction frees and growth may add
      ensures var size, unread := old(recvbufSize), old(writeIdx - readIdx);
        var start := if unread == 0 then 0 else old(readIdx);
        0 < len ==> len == |avail.bytes| || len == size - start - unread + Min(0x1_0000, start +
          if 2 * (size - unread) < size then maxSize - size else 0)
      // the buffer grows only for data beyond it, only if less than half of it was free, and then to twice its size or more
      ensures var size, unread := old(recvbufSize), old(writeIdx - readIdx);
        if unread + len <= size then recvbufSize == size && recvbuf == old(recvbuf)
        else 2 * (size - unread) < size && recvbufSize == Min(maxSize, Max(2 * size, Padded(unread + len)))
    {
      hide Aligned, Padded;
      RewindIfEmpty();
      len := Receive(avail);
    }

    method Receive(avail: RecvResult) returns (len: nat)
      requires Indexed()
      modifies this`sockfd, this`recvbuf, this`recvbufSize, this`writeIdx, this`nextmsgIdx, this`readIdx, this`recvTime, recvbuf
      ensures fresh(recvbuf) || recvbuf == old(recvbuf)
      ensures Indexed() && writeIdx + len <= recvbufSize
      ensures 0 < len ==> avail.Data? && len <= |avail.bytes| && !IsClosed()
      ensures recvbuf[readIdx..writeIdx + len]
           == old(recvbuf[readIdx..writeIdx]) + if 0 < len then avail.bytes[..len] else []
      ensures nextmsgIdx - readIdx == old(nextmsgIdx - readIdx) && writeIdx - readIdx == old(writeIdx - readIdx)
      ensures sockfd == old(sockfd) || IsClosed()
      ensures len == 0 && !IsClosed() && avail.Data? && avail.bytes != [] ==>
        readIdx == 0 && writeIdx == recvbufSize == maxSize
      ensures !old(IsClosed()) ==> (0 < len <==> Brings(avail) && !old(Stuffed()))
      ensures !old(IsClosed()) ==> (IsClosed() <==> !old(Stuffed()) && !Brings(avail) && !old(StillWaits(avail)))
      ensures old(IsClosed()) ==> IsClosed() && len == 0
      ensures recvTime == if 0 < len then clock else old(recvTime)
      // as much as is ready, or the free tail and at most 64 KiB of what compaction frees and growth may add
      ensures 0 < len ==> len == |avail.bytes| || len == old(recvbufSize - writeIdx) + Min(0x1_0000, old(readIdx) +
        if 2 * old(recvbufSize - writeIdx + readIdx) < old(recvbufSize) then maxSize - old(recvbufSize) else 0)
      ensures Regrown(old(recvbuf), old(recvbufSize), old(writeIdx - readIdx) + len, old(writeIdx - readIdx))
    {
      hide ExtraSize, Aligned, Regrown, Min, Max, Padded, PtcpConnection.StillWaits, PtcpConnection.Stuffed;
      var writable := recvbufSize - writeIdx;
      var extra := ExtraSize(recvbufSize, writeIdx, readIdx, maxSize);
      FullOrRoom();
      NotRegrown();
      ExtraSizeIs(recvbufSize, writeIdx, readIdx, maxSize);
      if writable + extra == 0 {
        return 0;
      }
      if IsClosed() || !avail.Data? || avail.bytes == [] {
        ReadNothing(avail);
        return 0;
      }
      len := TakeReady(avail.bytes, writable + extra);
    }

    /** A read that finds bytes. */
    method TakeReady(bytes: seq<Byte>, room: nat) returns (len: nat)
      requires Indexed() && !IsClosed() && bytes != []
      requires 0 < room == recvbufSize - writeIdx + ExtraSize(recvbufSize, writeIdx, readIdx, maxSize)
      modifies this`recvbuf, this`recvbufSize, this`writeIdx, this`nextmsgIdx, this`readIdx, this`recvTime, recvbuf
      ensures fresh(recvbuf) || recvbuf == old(recvbuf)
      ensures Indexed() && writeIdx + len <= recvbufSize && 0 < len == Min(|bytes|, room) && recvTime == clock
      ensures recvbuf[readIdx..writeIdx + len] == old(recvbuf[readIdx..writeIdx]) + bytes[..len]
      ensures nextmsgIdx - readIdx == old(nextmsgIdx - readIdx) && writeIdx - readIdx == old(writeIdx - readIdx)
      ensures Regrown(old(recvbuf), old(recvbufSize), old(writeIdx - readIdx) + len, old(writeIdx - readIdx))
    {
      hide ExtraSize, Aligned, Regrown;
      recvTime := clock;
      len := Min(|bytes|, room);
      StoreBytes(bytes[..len]);
    }

    /** What has become of the buffer once it holds `total` bytes, `unread` of them there before. */
    ghost predicate Regrown(buf: array<Byte>, size: nat, total: int, unread: int)
      reads this`recvbuf, this`recvbufSize
    {
      if total <= size then recvbufSize == size && recvbuf == buf
      else 2 * (size - unread) < size && recvbufSize == Min(maxSize, Max(2 * size, Padded(total)))
    }

    lemma FullOrRoom()
      requires Indexed()
      ensures 0 < recvbufSize ==>
        (recvbufSize - writeIdx + ExtraSize(recvbufSize, writeIdx, readIdx, maxSize) == 0 <==> Stuffed())
      ensures Stuffed() ==> readIdx == 0 && writeIdx == recvbufSize == maxSize
    {
      if 0 < recvbufSize {
        RefusesOnlyFull(recvbufSize, writeIdx, readIdx, maxSize);
      }
    }

    lemma NotRegrown()
      requires Indexed()
      ensures Regrown(recvbuf, recvbufSize, writeIdx - readIdx, writeIdx - readIdx)
    {
    }

    /** recv returned 0 or an error: an open connection stays open exactly if it would block, and has not timed out. */
    method ReadNothing(avail: RecvResult)
      modifies this`sockfd
      ensures !old(IsClosed()) ==> (IsClosed() <==> !(avail.NoData? && clock - recvTime <= connectionTimeout))
      ensures StillWaits(avail) <==> avail.NoData? && clock - recvTime <= connectionTimeout
      ensures sockfd == old(sockfd) || IsClosed()
    {
      if !avail.NoData? || clock - recvTime > connectionTimeout {
        Close();
      }
    }

    method RewindIfEmpty()
      requires Indexed()
      modifies this`writeIdx, this`nextmsgIdx, this`readIdx
      ensures Indexed() && recvbuf[readIdx..writeIdx] == old(recvbuf[readIdx..writeIdx])
      ensures nextmsgIdx - readIdx == old(nextmsgIdx - readIdx)
      ensures readIdx == if old(readIdx == writeIdx) then 0 else old(readIdx)
      ensures writeIdx - readIdx == old(writeIdx - readIdx)
    {
      if readIdx > 0 && readIdx == writeIdx {
        readIdx, nextmsgIdx, writeIdx := 0, 0, 0;
      }
    }

    /** Where readv puts what it got: the free tail first, the rest by way of the stack buffer. */
    method StoreBytes(got: seq<Byte>)
      requires Indexed() && !IsClosed()
      requires |got| <= recvbufSize - writeIdx + ExtraSize(recvbufSize, writeIdx, readIdx, maxSize)
      modifies this`recvbuf, this`recvbufSize, this`writeIdx, this`nextmsgIdx, this`readIdx, recvbuf
      ensures fresh(recvbuf) || recvbuf == old(recvbuf)
      ensures Indexed() && writeIdx + |got| <= recvbufSize
      ensures recvbuf[readIdx..writeIdx + |got|] == old(recvbuf[readIdx..writeIdx]) + got
      ensures nextmsgIdx - readIdx == old(nextmsgIdx - readIdx) && writeIdx - readIdx == old(writeIdx - readIdx)
      ensures Regrown(old(recvbuf), old(recvbufSize), old(writeIdx - readIdx) + |got|, old(writeIdx - readIdx))
    {
      hide ExtraSize, Aligned;
      if |got| <= recvbufSize - writeIdx {
        AppendBytes(recvbuf, readIdx, writeIdx, got);
      } else {
        StoreBeyond(got);
      }
    }

    /** More than the free tail holds. */
    method StoreBeyond(got: seq<Byte>)
      requires Indexed() && !IsClosed()
      requires 0 < |got| - (recvbufSize - writeIdx) <= ExtraSize(recvbufSize, writeIdx, readIdx, maxSize)
      modifies this`recvbuf, this`recvbufSize, this`writeIdx, this`nextmsgIdx, this`readIdx, recvbuf
      ensures fresh(recvbuf) || recvbuf == old(recvbuf)
      ensures Indexed() && writeIdx + |got| <= recvbufSize
      ensures recvbuf[readIdx..writeIdx + |got|] == old(recvbuf[readIdx..writeIdx]) + got
      ensures nextmsgIdx - readIdx == old(nextmsgIdx - readIdx) && writeIdx - readIdx == old(writeIdx - readIdx)
      ensures Regrown(old(recvbuf), old(recvbufSize), old(writeIdx - readIdx) + |got|, old(writeIdx - readIdx))
    {
      hide ExtraSize, GrownSize, Aligned, Padded, Min, Max;
      ExtraSizeIs(recvbufSize, writeIdx, readIdx, maxSize);
      ghost var unread, total := recvbuf[readIdx..writeIdx], writeIdx - readIdx + |got|;
      GrownSizeIs(recvbufSize, maxSize, total);
      var writable := recvbufSize - writeIdx;
      assert recvbufSize - readIdx + |got[writable..]| == total;
      AppendBytes(recvbuf, readIdx, writeIdx, got[..writable]);
      ghost var kept := recvbuf[readIdx..recvbufSize];
      assert kept == unread + got[..writable];
      Rearrange(got[writable..]);
      Halves(unread, got, writable);
      assert recvbuf[0..total] == kept + got[writable..];
    }

    /** The tail did not fit: move the unread bytes to the front of the buffer, or of a larger one, and append. */
    method Rearrange(stackbuf: seq<Byte>)
      requires Indexed() && !IsClosed()
      requires |stackbuf| <= ExtraSize(recvbufSize, writeIdx, readIdx, maxSize)
      modifies this`recvbuf, this`recvbufSize, this`writeIdx, this`nextmsgIdx, this`readIdx, recvbuf
      ensures fresh(recvbuf) || recvbuf == old(recvbuf)
      ensures Indexed() && readIdx == 0
      ensures old(recvbufSize - readIdx) + |stackbuf| <= recvbufSize
      ensures recvbuf[0..old(recvbufSize - readIdx) + |stackbuf|] == old(recvbuf[readIdx..recvbufSize]) + stackbuf
      ensures nextmsgIdx == old(nextmsgIdx - readIdx) && writeIdx == old(writeIdx - readIdx)
      ensures if |stackbuf| <= old(readIdx) then recvbufSize == old(recvbufSize) && recvbuf == old(recvbuf)
        else recvbufSize == GrownSize(old(recvbufSize), maxSize, old(recvbufSize - readIdx) + |stackbuf|)
    {
      hide ExtraSize, GrownSize, Aligned;
      RoomToRearrange(recvbufSize, writeIdx, readIdx, maxSize, |stackbuf|);
      AlignedSums(nextmsgIdx, readIdx);
      AlignedSums(readIdx, readIdx);
      var target, size := recvbuf, recvbufSize;
      if |stackbuf| > readIdx {
        size := GrownSize(recvbufSize, maxSize, recvbufSize - readIdx + |stackbuf|);
        target := new Byte[size];
      }
      ghost var count, unread := recvbufSize - readIdx + |stackbuf|, recvbuf[readIdx..recvbufSize];
      Assemble(recvbuf, readIdx, target, recvbufSize - readIdx, stackbuf);
      assert target[0..count] == unread + stackbuf;
      recvbuf, recvbufSize := target, size;
      writeIdx, nextmsgIdx, readIdx := writeIdx - readIdx, nextmsgIdx - readIdx, 0;
    }

    /** header->ConvertByteOrder() on the header at the given offset. */
    method ConvertAt(off: nat)
      requires Indexed() && readIdx <= off && off + 8 <= writeIdx
      modifies recvbuf
      ensures Indexed()
      ensures recvbuf[readIdx..off] == old(recvbuf[readIdx..off])
      ensures recvbuf[off..writeIdx] == Convert(old(recvbuf[off..off + 8]), q.host, q.wire) + old(recvbuf[off + 8..writeIdx])
    {
      hide Convert;
      var h := Convert(recvbuf[off..off + 8], q.host, q.wire);
      OverwriteBytes(recvbuf, readIdx, off, writeIdx, h);
    }

    /** The two pieces of the unread bytes. */
    lemma Pieces(tail: seq<Byte>)
      requires Indexed() && Holds(tail)
      ensures recvbuf[readIdx..nextmsgIdx] == EncodeAll(waiting, q.host)
      ensures recvbuf[nextmsgIdx..writeIdx] == tail
    {
      hide EncodeAll;
      assert recvbuf[readIdx..nextmsgIdx] == recvbuf[readIdx..writeIdx][..nextmsgIdx - readIdx];
      assert recvbuf[nextmsgIdx..writeIdx] == recvbuf[readIdx..writeIdx][nextmsgIdx - readIdx..];
    }

    ghost predicate FrontIsApp()
      reads this`waiting
    {
      waiting != [] ==> !waiting[0].IsHeartbeat()
    }

    lemma EmptyWhenNoBytes()
      requires Indexed() && AllWf(waiting) && nextmsgIdx - readIdx == TotalLen(waiting)
      ensures readIdx == nextmsgIdx <==> waiting == []
    {
    }

    /** In the scanning loop: the header at nextmsgIdx is in host order if it was complete before these bytes came. */
    ghost predicate Scanning(oldWrite: int)
      reads this, recvbuf
    {
      && Indexed()
      && Holds(if oldWrite - nextmsgIdx >= 8 then HostTail(part, q.host, q.wire) else part)
      && |part| == writeIdx - nextmsgIdx
      && PlainHeartbeats(waiting)
      && (oldWrite - nextmsgIdx >= 8 ==> |part| >= 8 && oldWrite - nextmsgIdx < FrameLen(part, q.wire))
    }

    method ConvertOnce(oldWrite: int)
      requires Scanning(oldWrite) && writeIdx - nextmsgIdx >= 8
      modifies recvbuf
      ensures Indexed() && Holds(HostTail(part, q.host, q.wire))
      ensures FromBytes(recvbuf[nextmsgIdx..nextmsgIdx + 8], q.host) == HeaderOf(part, q.wire)
    {
      hide EncodeAll, TotalLen, FromBytes, Aligned, AllWf, FrameLen, HostTail, HeaderOf;
      if oldWrite - nextmsgIdx < 8 {
        ConvertHeader();
      }
      HeaderReadable();
    }

    method ConvertHeader()
      requires Indexed() && Holds(part) && |part| == writeIdx - nextmsgIdx && 8 <= |part|
      modifies recvbuf
      ensures Indexed() && Holds(HostTail(part, q.host, q.wire))
    {
      hide EncodeAll, TotalLen, Convert, Aligned, AllWf;
      Pieces(part);
      BeforeSuffix(recvbuf, nextmsgIdx, writeIdx, part[..8], part[8..]);
      ConvertAt(nextmsgIdx);
      Rejoin(recvbuf, readIdx, nextmsgIdx, writeIdx);
    }

    /** A converted header says on the host what the peer wrote. */
    lemma HeaderReadable()
      requires Indexed() && Holds(HostTail(part, q.host, q.wire)) && |part| == writeIdx - nextmsgIdx && 8 <= |part|
      ensures FromBytes(recvbuf[nextmsgIdx..nextmsgIdx + 8], q.host) == HeaderOf(part, q.wire)
    {
      hide EncodeAll, TotalLen, Convert, FromBytes, Aligned, AllWf;
      Pieces(HostTail(part, q.host, q.wire));
      BeforeSuffix(recvbuf, nextmsgIdx, writeIdx, Convert(part[..8], q.host, q.wire), part[8..]);
      ConvertReads(part[..8], q.host, q.wire);
    }

    /** A complete heartbeat with nothing waiting before it is skipped. */
    method SkipHeartbeat(size: nat)
      requires Indexed() && Holds(HostTail(part, q.host, q.wire)) && waiting == []
      requires HasFrame(part, q.wire) && size == FrameLen(part, q.wire)
      modifies this`nextmsgIdx, this`readIdx, this`gone, this`part
      ensures Indexed() && Holds(part) && nextmsgIdx == old(nextmsgIdx) + size
      ensures part == old(part)[size..] && gone == old(gone) + [FirstFrame(old(part), q.wire)]
    {
      hide EncodeAll, TotalLen, Encode, HostTail, HasFrame, FrameLen, FirstFrame, Aligned, AllWf;
      FrameLenAligned(part, q.wire);
      AlignedSums(nextmsgIdx, size);
      HostFrame(part, q.host, q.wire);
      Pieces(HostTail(part, q.host, q.wire));
      ghost var m, later := FirstFrame(part, q.wire), part[size..];
      NoneEncoded(later, q.host);
      OneMoreWf(gone, m);
      AfterPrefix(recvbuf, nextmsgIdx, writeIdx, Encode(m, q.host), later);
      readIdx, nextmsgIdx := readIdx + size, nextmsgIdx + size;
      gone := gone + [m];
      part := later;
    }

    /** Any other complete message joins the waiting ones. */
    method KeepMessage(size: nat)
      requires Indexed() && Holds(HostTail(part, q.host, q.wire))
      requires HasFrame(part, q.wire) && size == FrameLen(part, q.wire)
      modifies this`nextmsgIdx, this`waiting, this`part
      ensures Indexed() && Holds(part) && nextmsgIdx == old(nextmsgIdx) + size
      ensures part == old(part)[size..] && waiting == old(waiting) + [FirstFrame(old(part), q.wire)]
    {
      hide EncodeAll, TotalLen, Encode, HostTail, HasFrame, FrameLen, FirstFrame, Aligned, AllWf;
      FrameLenAligned(part, q.wire);
      AlignedSums(nextmsgIdx, size);
      OneMoreWf(waiting, FirstFrame(part, q.wire));
      HostFrame(part, q.host, q.wire);
      MoveBoundary(waiting, FirstFrame(part, q.wire), part[size..], q.host);
      nextmsgIdx := nextmsgIdx + size;
      waiting := waiting + [FirstFrame(part, q.wire)];
      part := part[size..];
    }

    ghost predicate QueueOk()
      reads q, q.blk
    {
      q.Valid() && q.Ordered()
    }

    /** q_->Ack on a running connection. */
    method AckPeer(ack: U32)
      requires QueueOk() && AckSafe(q.Abs(), ack)
      modifies q
      ensures QueueOk() && q.Abs() == QAck(old(q.Abs()), ack)
      ensures q.UnsentBlocks() == old(q.UnsentBlocks())
    {
      hide QAck, AckSafe, QValid, Unsent;
      q.Occupied();
      q.UnsentBytes();
      SafeAckKeeps(q.Abs(), q.blockCount, ack, q.wire);
      SafeIsOk(q.Abs(), ack);
      q.Ack(ack);
      q.UnsentBytes();
    }

    /** One turn of the loop over the headers that are complete: convert it, acknowledge, step over a complete message. */
    method ScanOne(oldWrite: int) returns (more: bool)
      requires Scanning(oldWrite) && writeIdx - nextmsgIdx >= 8 && FrontIsApp()
      requires QueueOk() && recvbuf as object != q.blk
      requires Proper(part, q.wire) && AckSafe(q.Abs(), HeaderOf(part, q.wire).ackSeq)
      modifies this`sockfd, this`nextmsgIdx, this`readIdx, this`gone, this`waiting, this`part, recvbuf, q
      ensures QueueOk() && q.Abs() == QAck(old(q.Abs()), HeaderOf(old(part), q.wire).ackSeq)
      ensures q.UnsentBlocks() == old(q.UnsentBlocks())
      ensures sockfd == old(sockfd) || IsClosed()
      ensures !more ==> (IsClosed() <==> old(IsClosed()) || !PartFits(part, q.wire, maxSize))
      ensures FrontIsApp() && Apps(gone) == old(Apps(gone))
      ensures more ==> Scanning(oldWrite) && sockfd == old(sockfd)
      ensures more ==> HasFrame(old(part), q.wire) && part == old(part)[FrameLen(old(part), q.wire)..]
      ensures more ==> gone + waiting == old(gone + waiting) + [FirstFrame(old(part), q.wire)]
      ensures !more ==> RecvValid() && part == old(part) && gone == old(gone) && waiting == old(waiting)
    {
      hide EncodeAll, TotalLen, FromBytes, Aligned, AllWf, FrameLen, HasFrame, HeaderOf, FirstFrame, HostTail;
      hide PtcpQueue.Valid, PtcpQueue.UnsentBlocks, RecvValid, PartFits, PlainHeartbeats;
      ConvertOnce(oldWrite);
      var h := FromBytes(recvbuf[nextmsgIdx..nextmsgIdx + 8], q.host);
      AckPeer(h.ackSeq);
      FrameSize(part, q.wire);
      var msgSize := Padded(h.size);
      if msgSize > maxSize {
        Close();
        Incomplete();
        return false;
      }
      if writeIdx - nextmsgIdx < msgSize {
        Incomplete();
        return false;
      }
      StepAcross(h);
      return true;
    }

    /** A message whose end is not there yet waits as it is; one too large for any buffer only on a closed connection. */
    lemma Incomplete()
      requires Indexed() && Holds(HostTail(part, q.host, q.wire)) && PlainHeartbeats(waiting)
      requires 8 <= |part| < FrameLen(part, q.wire) && (IsClosed() || FrameLen(part, q.wire) <= maxSize)
      ensures RecvValid()
      ensures PartFits(part, q.wire, maxSize) <==> FrameLen(part, q.wire) <= maxSize
    {
      hide EncodeAll, TotalLen, FromBytes, Aligned, AllWf, FrameLen, HostTail;
      FrameSize(part, q.wire);
    }

    method StepAcross(h: Header)
      requires Indexed() && Holds(HostTail(part, q.host, q.wire)) && PlainHeartbeats(waiting) && FrontIsApp()
      requires HasFrame(part, q.wire) && Proper(part, q.wire) && h == HeaderOf(part, q.wire)
      modifies this`nextmsgIdx, this`readIdx, this`gone, this`waiting, this`part
      ensures Indexed() && Holds(part) && PlainHeartbeats(waiting) && FrontIsApp()
      ensures part == old(part)[FrameLen(old(part), q.wire)..]
      ensures gone + waiting == old(gone + waiting) + [FirstFrame(old(part), q.wire)]
      ensures Apps(gone) == old(Apps(gone))
      ensures nextmsgIdx == old(nextmsgIdx) + FrameLen(old(part), q.wire)
    {
      hide EncodeAll, TotalLen, FromBytes, Aligned, AllWf, HasFrame, HostTail, Apps;
      EmptyWhenNoBytes();
      ProperFirst(part, q.wire);
      if h.msgType == 0 && readIdx == nextmsgIdx {
        AppsOneMore(gone, FirstFrame(part, q.wire));
        SkipHeartbeat(Padded(h.size));
      } else {
        KeepMessage(Padded(h.size));
      }
    }

    /** What the scanning loop still has to achieve is what it had to achieve. */
    ghost predicate ScanTarget(all: seq<Msg>, rest: seq<Byte>, final: QState)
      requires QueueOk()
      reads this, q, q.blk
    {
      && gone + waiting + Parse(part, q.wire) == all
      && Rest(part, q.wire) == rest
      && Proper(part, q.wire)
      && AcksSafe(q.Abs(), Acks(part, q.wire))
      && QAckAll(q.Abs(), Acks(part, q.wire)) == final
    }

    method ScanTurn(oldWrite: int, ghost all: seq<Msg>, ghost rest: seq<Byte>, ghost final: QState) returns (more: bool)
      requires Scanning(oldWrite) && writeIdx - nextmsgIdx >= 8 && FrontIsApp()
      requires QueueOk() && recvbuf as object != q.blk && ScanTarget(all, rest, final)
      modifies this`sockfd, this`nextmsgIdx, this`readIdx, this`gone, this`waiting, this`part, recvbuf, q
      ensures QueueOk() && FrontIsApp() && Apps(gone) == old(Apps(gone))
      ensures q.UnsentBlocks() == old(q.UnsentBlocks())
      ensures sockfd == old(sockfd) || IsClosed()
      ensures more ==> sockfd == old(sockfd)
      ensures !more ==> (IsClosed() <==> old(IsClosed()) || !PartFits(part, q.wire, maxSize))
      ensures more ==> Scanning(oldWrite) && ScanTarget(all, rest, final) && |part| < |old(part)|
      ensures !more ==> RecvValid() && gone + waiting == all && part == rest && q.Abs() == final
    {
      hide EncodeAll, TotalLen, FromBytes, Aligned, AllWf, HasFrame, HostTail, Apps, FrameLen, HeaderOf, FirstFrame;
      hide Proper, Acks, AcksSafe, QAckAll, QAck, Parse, Rest, AckSafe, Holds, Indexed, PlainHeartbeats, PartFits;
      hide PtcpQueue.Valid, PtcpQueue.UnsentBlocks;
      ghost var before, acked := part, q.Abs();
      NextHeader(part, q.Abs(), q.wire);
      more := ScanOne(oldWrite);
    }

    /** The loop: every complete header is converted and acknowledged, every complete message stepped over. */
    method Scan(oldWrite: int)
      requires Scanning(oldWrite) && FrontIsApp()
      requires QueueOk() && recvbuf as object != q.blk
      requires Proper(part, q.wire) && AcksSafe(q.Abs(), Acks(part, q.wire))
      modifies this`sockfd, this`nextmsgIdx, this`readIdx, this`gone, this`waiting, this`part, recvbuf, q
      ensures RecvValid() && FrontIsApp() && Apps(gone) == old(Apps(gone))
      ensures gone + waiting == old(gone + waiting) + Parse(old(part), q.wire)
      ensures part == Rest(old(part), q.wire)
      ensures QueueOk() && q.Abs() == QAckAll(old(q.Abs()), Acks(old(part), q.wire))
      ensures q.UnsentBlocks() == old(q.UnsentBlocks())
      ensures sockfd == old(sockfd) || IsClosed()
      // only a message announced larger than the largest buffer closes
      ensures IsClosed() <==> old(IsClosed()) || !PartFits(part, q.wire, maxSize)
    {
      hide EncodeAll, TotalLen, FromBytes, Aligned, AllWf, HasFrame, HostTail, Apps, FrameLen, HeaderOf, FirstFrame;
      hide Proper, Acks, AcksSafe, QAckAll, QAck, Parse, Rest, AckSafe, Holds, Indexed, PlainHeartbeats, PartFits;
      hide PtcpQueue.Valid, PtcpQueue.UnsentBlocks;
      ghost var all, rest := gone + waiting + Parse(part, q.wire), Rest(part, q.wire);
      ghost var final := QAckAll(q.Abs(), Acks(part, q.wire));
      var more := true;
      while more && writeIdx - nextmsgIdx >= 8
        invariant QueueOk() && FrontIsApp() && Apps(gone) == old(Apps(gone))
        invariant q.UnsentBlocks() == old(q.UnsentBlocks())
        invariant sockfd == old(sockfd) || IsClosed()
        invariant more ==> Scanning(oldWrite) && ScanTarget(all, rest, final) && sockfd == old(sockfd)
        invariant !more ==> (IsClosed() <==> old(IsClosed()) || !PartFits(part, q.wire, maxSize))
        invariant !more ==> RecvValid() && gone + waiting == all && part == rest && q.Abs() == final
        decreases more, |part|
      {
        more := ScanTurn(oldWrite, all, rest, final);
      }
      if more {
        ShortRest(part, q.Abs(), q.host, q.wire, maxSize);
      }
    }

    /** The first loop of Front: heartbeats at the front are dropped; a message the user has not been shown since
        it last consumed one is returned at once. */
    method NextBuffered() returns (found: bool)
      requires RecvValid() && QueueOk()
      modifies this`readIdx, this`gone, this`waiting, this`lastMyAck
      ensures RecvValid() && FrontIsApp() && Received() == old(Received()) && part == old(part)
      ensures Apps(gone) == old(Apps(gone))
      ensures found <==> old(Apps(waiting) != [] && lastMyAck != q.ackSeqNum)
      ensures found ==> waiting != []
      ensures lastMyAck == if found then q.ackSeqNum else old(lastMyAck)
      ensures old(readIdx) <= readIdx && (readIdx == old(readIdx) <==> old(FrontIsApp()))
    {
      hide EncodeAll, TotalLen, FromBytes, Aligned, HostTail, Apps, HasFrame, PartFits;
      while nextmsgIdx != readIdx
        invariant RecvValid() && Received() == old(Received()) && part == old(part)
        invariant Apps(gone) == old(Apps(gone)) && lastMyAck == old(lastMyAck) && Apps(waiting) == old(Apps(waiting))
        invariant old(readIdx) <= readIdx && (readIdx == old(readIdx) ==> waiting == old(waiting))
        invariant readIdx > old(readIdx) ==> !old(FrontIsApp())
        decreases |waiting|
      {
        EmptyWhenNoBytes();
        AppsFirst(waiting);
        var h := FrontHeader();
        if h.msgType == 0 {
          BareHeartbeat(waiting[0]);
          DropFront(8);
          continue;
        }
        if lastMyAck == q.ackSeqNum {
          break;
        }
        lastMyAck := q.ackSeqNum;
        return true;
      }
      EmptyWhenNoBytes();
      NoApps();
      return false;
    }

    /** A message is buffered that the user has not been shown since it last consumed one. */
    ghost predicate Unshown()
      reads this`waiting, this`lastMyAck, q`ackSeqNum
    {
      Apps(waiting) != [] && lastMyAck != q.ackSeqNum
    }

    /** The header at readIdx, already in host order. */
    method FrontHeader() returns (h: Header)
      requires RecvValid() && waiting != []
      ensures h == waiting[0].header
    {
      hide TotalLen, Aligned, HostTail, HasFrame, PartFits, FromBytes, ToBytes;
      WaitingBytes();
      BeforeSuffix(recvbuf, readIdx, readIdx + waiting[0].Len(), ToBytes(waiting[0].header, q.host), waiting[0].body);
      ReadBack(waiting[0].header, q.host);
      h := FromBytes(recvbuf[readIdx..readIdx + 8], q.host);
    }

    /** The bytes a pointer to the front message points at: host-order header and body, whole, in place, 8-aligned. */
    lemma WaitingBytes()
      requires RecvValid() && waiting != []
      ensures Aligned(readIdx) && readIdx + waiting[0].Len() <= nextmsgIdx
      ensures recvbuf[readIdx..readIdx + waiting[0].Len()] == Encode(waiting[0], q.host)
    {
      hide HostTail, HasFrame, PartFits, ToBytes, Aligned;
      Pieces(HostTail(part, q.host, q.wire));
      BeforeSuffix(recvbuf, readIdx, nextmsgIdx, Encode(waiting[0], q.host), EncodeAll(waiting[1..], q.host));
    }

    /** Step over the front message. */
    method DropFront(size: nat)
      requires RecvValid() && waiting != [] && size == Padded(waiting[0].header.size)
      modifies this`readIdx, this`gone, this`waiting
      ensures RecvValid() && Received() == old(Received())
      ensures gone == old(gone) + [old(waiting)[0]] && waiting == old(waiting)[1..]
      ensures Apps(gone) == old(Apps(gone)) + if old(waiting)[0].IsHeartbeat() then [] else [old(waiting)[0]]
      ensures readIdx == old(readIdx) + size
    {
      hide HostTail, HasFrame, PartFits, ToBytes, Aligned, Apps, AllWf, EncodeAll, TotalLen;
      ghost var m, later, tail := waiting[0], waiting[1..], HostTail(part, q.host, q.wire);
      WaitingFirst(waiting, q.host);
      OneMoreWf(gone, m);
      AppsOneMore(gone, m);
      AlignedSums(readIdx, size);
      AfterPrefix(recvbuf, readIdx, writeIdx, Encode(m, q.host), EncodeAll(later, q.host) + tail);
      assert gone + [m] + later == gone + waiting;
      readIdx := readIdx + size;
      gone, waiting := gone + [m], later;
    }

    /** New bytes behind the leftover: scan them. */
    method Absorb(oldWrite: nat, ghost got: seq<Byte>)
      requires Indexed() && Holds(HostTail(part, q.host, q.wire) + got) && !HasFrame(part, q.wire)
      requires PlainHeartbeats(waiting) && writeIdx == oldWrite + |got| && nextmsgIdx + |part| == oldWrite
      requires QueueOk() && recvbuf as object != q.blk && FrontIsApp()
      requires Proper(part + got, q.wire) && AcksSafe(q.Abs(), Acks(part + got, q.wire))
      modifies this`sockfd, this`nextmsgIdx, this`readIdx, this`gone, this`waiting, this`part, recvbuf, q
      ensures RecvValid() && FrontIsApp() && QueueOk()
      ensures Received() == old(Received()) + got
      ensures Acknowledged(old(q.Abs()), Acks(old(part) + got, q.wire), q.Abs())
      ensures Apps(gone) == old(Apps(gone)) && q.UnsentBlocks() == old(q.UnsentBlocks())
      ensures sockfd == old(sockfd) || IsClosed()
      // only a message announced larger than the largest buffer closes
      ensures IsClosed() <==> old(IsClosed()) || !PartFits(part, q.wire, maxSize)
    {
      hide EncodeAll, TotalLen, FromBytes, Aligned, AllWf, HasFrame, HostTail, Apps, FrameLen, HeaderOf, FirstFrame;
      hide Proper, Acks, AcksSafe, QAckAll, QAck, Parse, Rest, AckSafe, PlainHeartbeats;
      hide PtcpQueue.Valid, PtcpQueue.UnsentBlocks;
      ghost var before := gone + waiting;
      TailGrows(part, got, q.host, q.wire);
      part := part + got;
      ReceivedGrows(before, part, q.wire);
      Scan(oldWrite);
    }

    /** What an incoming stream must look like from here on; the peer's half of the protocol guarantees it. */
    ghost predicate PeerKeepsProtocol(bytes: seq<Byte>)
      requires QueueOk()
      reads this, q, q.blk
    {
      Proper(part + bytes, q.wire) && AcksSafe(q.Abs(), Acks(part + bytes, q.wire))
    }

    lemma ProperLeftover(bytes: seq<Byte>)
      requires QueueOk() && PeerKeepsProtocol(bytes)
      ensures Proper(part, q.wire)
    {
      hide Proper, Acks, AcksSafe, QAckAll, PtcpQueue.Valid;
      Truncated(part, bytes, 0, q.Abs(), q.wire);
      assert part + [] == part;
    }

    /** The bytes DoRecv has put behind the data are data now. */
    method TakeIn(ghost ready: seq<Byte>, len: nat)
      requires Indexed() && writeIdx + len <= recvbufSize && 0 < len <= |ready|
      requires recvbuf[readIdx..writeIdx + len]
            == EncodeAll(waiting, q.host) + HostTail(part, q.host, q.wire) + ready[..len]
      requires nextmsgIdx - readIdx == TotalLen(waiting) && nextmsgIdx + |part| == writeIdx
      requires AllWf(gone) && AllWf(waiting) && PlainHeartbeats(waiting) && !HasFrame(part, q.wire) && FrontIsApp()
      requires QueueOk() && recvbuf as object != q.blk && PeerKeepsProtocol(ready)
      modifies this`sockfd, this`writeIdx, this`nextmsgIdx, this`readIdx, this`gone, this`waiting, this`part, recvbuf, q
      ensures RecvValid() && FrontIsApp() && QueueOk()
      ensures Received() == old(Received()) + ready[..len]
      ensures Acknowledged(old(q.Abs()), Acks(old(part) + ready[..len], q.wire), q.Abs())
      ensures Apps(gone) == old(Apps(gone)) && q.UnsentBlocks() == old(q.UnsentBlocks())
      ensures sockfd == old(sockfd) || IsClosed()
      // only a message announced larger than the largest buffer closes
      ensures IsClosed() <==> old(IsClosed()) || !PartFits(part, q.wire, maxSize)
    {
      hide EncodeAll, TotalLen, FromBytes, Aligned, AllWf, HasFrame, HostTail, Apps, FrameLen, HeaderOf, FirstFrame;
      hide Proper, Acks, AcksSafe, QAckAll, QAck, Parse, Rest, AckSafe, PlainHeartbeats, Acknowledged;
      hide PtcpQueue.Valid, PtcpQueue.UnsentBlocks, RecvValid, Received;
      ghost var got := ready[..len];
      Truncated(part, ready, len, q.Abs(), q.wire);
      writeIdx := writeIdx + len;
      assert EncodeAll(waiting, q.host) + HostTail(part, q.host, q.wire) + got
          == EncodeAll(waiting, q.host) + (HostTail(part, q.host, q.wire) + got);
      Absorb(writeIdx - len, got);
    }

    /** Front's reading part: receive, then scan what came. */
    method ReadMore(avail: RecvResult) returns (ghost got: seq<Byte>, len: nat)
      requires RecvValid() && QueueOk() && recvbuf as object != q.blk && FrontIsApp()
      requires avail.Data? ==> PeerKeepsProtocol(avail.bytes)
      modifies this`sockfd, this`recvbuf, this`recvbufSize, this`writeIdx, this`nextmsgIdx, this`readIdx,
        this`recvTime, this`gone, this`waiting, this`part, recvbuf, q
      ensures fresh(recvbuf) || recvbuf == old(recvbuf)
      ensures RecvValid() && QueueOk() && FrontIsApp()
      ensures got == if 0 < len && avail.Data? && len <= |avail.bytes| then avail.bytes[..len] else []
      ensures |got| == len
      ensures Received() == old(Received()) + got
      ensures got == [] ==> q.Abs() == old(q.Abs())
      ensures got != [] ==> Acknowledged(old(q.Abs()), Acks(old(part) + got, q.wire), q.Abs())
      ensures Apps(gone) == old(Apps(gone)) && q.UnsentBlocks() == old(q.UnsentBlocks())
      ensures sockfd == old(sockfd) || IsClosed()
      ensures !old(IsClosed()) ==> (0 < len <==> Brings(avail) && !old(Stuffed()))
      ensures !old(IsClosed()) ==> (IsClosed() <==>
        !old(Stuffed()) && if Brings(avail) then !PartFits(part, q.wire, maxSize) else !old(StillWaits(avail)))
      ensures old(IsClosed()) ==> IsClosed() && len == 0
      ensures recvTime == if 0 < len then clock else old(recvTime)
      ensures len == 0 && avail.Data? && avail.bytes != [] && !IsClosed() ==> waiting != []
    {
      hide EncodeAll, TotalLen, FromBytes, Aligned, AllWf, HasFrame, HostTail, Apps, FrameLen, HeaderOf, FirstFrame;
      hide Proper, Acks, AcksSafe, QAckAll, QAck, Parse, Rest, AckSafe, PlainHeartbeats, PartFits;
      hide PtcpQueue.Valid, PtcpQueue.UnsentBlocks;
      got := [];
      if avail.Data? {
        ProperLeftover(avail.bytes);
      }
      len := DoRecv(avail);
      if 0 < len {
        got := avail.bytes[..len];
        TakeIn(avail.bytes, len);
      } else if avail.Data? && avail.bytes != [] && !IsClosed() {
        NeverWedges();
      }
    }

    lemma NoneIffNoBytes()
      requires RecvValid()
      ensures readIdx == nextmsgIdx <==> waiting == []
    {
      EmptyWhenNoBytes();
    }

    /** Front goes to the kernel. */
    ghost predicate Reads()
      reads this`waiting, this`lastMyAck, this`readIdx, this`writeIdx, this`recvbufSize, q`ackSeqNum
    {
      !Unshown() && !(Stuffed() && FrontIsApp())
    }

    /** Front: the next application message, reading the socket unless one not yet shown is buffered. */
    method Front(avail: RecvResult) returns (found: bool, off: nat, ghost got: seq<Byte>)
      requires RecvValid() && QueueOk() && recvbuf as object != q.blk
      requires avail.Data? ==> PeerKeepsProtocol(avail.bytes)
      modifies this, recvbuf, q
      ensures RecvValid() && QueueOk() && recvbuf as object != q.blk
      ensures got != [] ==> avail.Data? && got <= avail.bytes
      ensures Received() == old(Received()) + got
      ensures got == [] ==> q.Abs() == old(q.Abs())
      ensures got != [] ==> Acknowledged(old(q.Abs()), Acks(old(part) + got, q.wire), q.Abs())
      ensures Apps(gone) == old(Apps(gone))
      ensures found ==> waiting != [] && !waiting[0].IsHeartbeat() && off == readIdx
      ensures !found && !IsClosed() ==> waiting == []
      ensures found <==> waiting != [] && !(got != [] && IsClosed())
      // it reads what is ready unless a message is still to be shown or the buffer is full
      ensures !old(IsClosed()) ==> (got != [] <==> old(Reads()) && Brings(avail))
      // and closes exactly by an error, the peer's close, a timeout, or a message announced larger than the largest buffer
      ensures !old(IsClosed()) ==> (IsClosed() <==>
        old(Reads()) && if Brings(avail) then !PartFits(part, q.wire, maxSize) else !old(StillWaits(avail)))
      ensures old(IsClosed()) ==> IsClosed() && got == []
      ensures recvTime == if got != [] then clock else old(recvTime)
      ensures lastMyAck == if old(Apps(waiting) != [] && lastMyAck != q.ackSeqNum) then q.ackSeqNum else old(lastMyAck)
      // it never wedges: with data ready on an open connection it reads, or has a message to give
      ensures !found && avail.Data? && avail.bytes != [] && got == [] ==> IsClosed()
      ensures sockfd == old(sockfd) || IsClosed()
      ensures SenderUnchanged() && q.UnsentBlocks() == old(q.UnsentBlocks())
    {
      hide EncodeAll, TotalLen, FromBytes, Aligned, AllWf, HasFrame, HostTail, Apps, FrameLen, HeaderOf, FirstFrame;
      hide Proper, Acks, AcksSafe, QAckAll, QAck, Parse, Rest, AckSafe, PlainHeartbeats, PartFits;
      hide RecvValid, PtcpConnection.StillWaits;
      hide PtcpQueue.Valid, PtcpQueue.UnsentBlocks, Acknowledged, Received, Storage;
      got := [];
      off := 0;
      found := NextBuffered();
      if found {
        return true, readIdx, [];
      }
      var len;
      got, len := ReadMore(avail);
      if 0 < len && IsClosed() {
        return false, 0, got;
      }
      NoneIffNoBytes();
      return readIdx != nextmsgIdx, readIdx, got;
    }

    /** The framer implements the parser: what was consumed and what waits are the complete messages of the bytes received,
        and the leftover is theirs, however the bytes came in chunks and moved in the buffer. */
    lemma StreamParsed()
      requires RecvValid()
      ensures Parse(Received(), q.wire) == gone + waiting && Rest(Received(), q.wire) == part
    {
      hide EncodeAll, TotalLen, Aligned, HostTail, PartFits, PlainHeartbeats;
      ParseEncoded(gone + waiting, part, q.wire);
    }

    /** The message at the front is the parser's next application message after those consumed; if none waits, there is none. */
    lemma FrontIsNext()
      requires RecvValid() && FrontIsApp()
      ensures var all := Apps(Parse(Received(), q.wire));
        && Apps(gone) <= all
        && (waiting != [] ==> |Apps(gone)| < |all| && all[|Apps(gone)|] == waiting[0])
        && (waiting == [] ==> Apps(gone) == all)
    {
      hide RecvValid;
      StreamParsed();
      AppsConcat(gone, waiting);
    }

    /** The receiver never wedges: a buffer full to its maximum from the first byte holds a complete message. */
    lemma NeverWedges()
      requires RecvValid() && !IsClosed() && readIdx == 0 && writeIdx == recvbufSize == maxSize
      requires Proper(part, q.wire)
      ensures waiting != []
    {
      hide FromBytes, Convert, Aligned;
      EmptyWhenNoBytes();
      Pieces(HostTail(part, q.host, q.wire));
    }

    twostate predicate SenderUnchanged()
      reads this
    {
      fdToClose == old(fdToClose) && log == old(log) && wireOut == old(wireOut) && sendTime == old(sendTime) && clock == old(clock)
    }

    /** The user has consumed the message Front returned. */
    method Pop()
      requires RecvValid() && waiting != [] && !waiting[0].IsHeartbeat() && q.Valid()
      modifies this`readIdx, this`gone, this`waiting, q`ackSeqNum
      ensures RecvValid() && Received() == old(Received())
      ensures Apps(gone) == old(Apps(gone)) + [old(waiting)[0]]
      ensures waiting == old(waiting)[1..] && part == old(part)
      ensures q.Valid() && q.Abs() == QPop(old(q.Abs()))
    {
      var h := FrontHeader();
      DropFront(Padded(h.size));
      q.IncMyAck();
    }

    // ---- sending ----

    /** The outgoing stream: the kernel has a prefix of the frames; while the socket is open, all but the unsent blocks. */
    ghost predicate SendValid()
      requires QueueOk()
      reads this`sockfd, this`log, this`wireOut, q, q.blk
    {
      && AllWf(log)
      && wireOut <= EncodeAll(log, q.wire)
      && (!IsClosed() ==> wireOut + q.UnsentBlocks() == EncodeAll(log, q.wire))
    }

    /** The wire is a well-formed frame stream: whatever the kernel took, it parses to whole frames put on it, in order;
        and to all of them once nothing is pending on an open connection. */
    lemma WireIsFrames()
      requires QueueOk() && SendValid()
      ensures Parse(wireOut, q.wire) <= log
      ensures !IsClosed() && q.UnsentBlocks() == [] ==> Parse(wireOut, q.wire) == log
    {
      hide EncodeAll, TotalLen, Parse, Acks, WholeIn, HeadersIn, AllWf, PtcpQueue.Valid, PtcpQueue.UnsentBlocks;
      var all := EncodeAll(log, q.wire);
      CutStream(log, |wireOut|, q.wire);
      assert wireOut == all[..|wireOut|];
      if !IsClosed() && q.UnsentBlocks() == [] {
        assert wireOut == wireOut + q.UnsentBlocks() == all;
        ParseEncoded(log, [], q.wire);
        NothingParsed(q.wire);
        assert all + [] == all && log + [] == log;
      }
    }

    /** Returns false only if there is nothing pending, or the connection is closed. */
    method SendPending(script: seq<SendResult>) returns (busy: bool, ghost sent: nat)
      requires QueueOk() && SendValid()
      modifies this`sockfd, this`sendTime, this`wireOut, q`sendIdx
      ensures QueueOk() && SendValid()
      ensures q.Abs() == QSendout(old(q.Abs()), sent)
      ensures old(wireOut) <= wireOut && (sockfd == old(sockfd) || IsClosed())
      ensures busy ==> old(q.UnsentBlocks()) != [] && !IsClosed()
      ensures !busy ==> sent == 0 && (IsClosed() || old(q.UnsentBlocks()) == [])
      ensures SendOutcome(old(q.UnsentBlocks()), script, old(wireOut), wireOut, old(IsClosed()), IsClosed(), sent)
      ensures !old(IsClosed()) && old(q.UnsentBlocks()) != [] ==>
        SentUpTo(old(q.UnsentBlocks()), script, old(wireOut), wireOut, IsClosed(), sent)
      ensures old(IsClosed()) || old(q.UnsentBlocks()) == [] ==> wireOut == old(wireOut) && sockfd == old(sockfd) && sent == 0
      ensures busy <==> !old(IsClosed()) && old(q.UnsentBlocks()) != [] && !IsClosed()
      ensures sendTime == if sent > 0 then clock else old(sendTime)
    {
      hide EncodeAll, SendRun, AllWf, PtcpQueue.Valid, PtcpQueue.UnsentBlocks, SendOutcome, SentUpTo;
      Untouched(script);
      if IsClosed() {
        return false, 0;
      }
      var blkSz := q.GetSendable();
      if blkSz == 0 {
        return false, 0;
      }
      ghost var pending, out := q.UnsentBlocks(), wireOut;
      busy, sent := Transmit(blkSz, script);
      OutcomeMeans(pending, script, out, wireOut, IsClosed(), sent);
    }

    /** A SendPending that has nothing to do. */
    lemma Untouched(script: seq<SendResult>)
      requires QueueOk()
      ensures IsClosed() || q.UnsentBlocks() == [] ==>
        SendOutcome(q.UnsentBlocks(), script, wireOut, wireOut, IsClosed(), IsClosed(), 0)
      ensures QSendout(q.Abs(), 0) == q.Abs()
    {
    }

    method Transmit(blkSz: nat, script: seq<SendResult>) returns (busy: bool, ghost sent: nat)
      requires QueueOk() && SendValid() && !IsClosed() && 0 < blkSz && |q.UnsentBlocks()| == 8 * blkSz
      modifies this`sockfd, this`sendTime, this`wireOut, q`sendIdx
      ensures QueueOk() && SendValid()
      ensures q.Abs() == QSendout(old(q.Abs()), sent)
      ensures old(wireOut) <= wireOut && (sockfd == old(sockfd) || IsClosed())
      ensures busy == !IsClosed() && (!busy ==> sent == 0)
      ensures SendOutcome(old(q.UnsentBlocks()), script, old(wireOut), wireOut, false, IsClosed(), sent)
      ensures sendTime == if sent > 0 then clock else old(sendTime)
    {
      hide EncodeAll, SendRun, AllWf, PtcpQueue.Valid, PtcpQueue.UnsentBlocks;
      Untouched(script);
      ghost var pending := q.UnsentBlocks();
      var size, broke := SendLoop(script, 8 * blkSz);
      SendRunBounds(script, |pending|);
      WireGrows(wireOut, pending, |pending| - size);
      wireOut := wireOut + pending[..|pending| - size];
      if broke {
        Close();
        return false, 0;
      }
      var sentBlk := blkSz - size / 8;
      CountBlocks(|pending|, size);
      if sentBlk > 0 {
        sendTime := clock;
        SendableFits(sentBlk);
        q.Sendout(sentBlk);
      }
      return true, sentBlk;
    }

    lemma SendableFits(blkSz: nat)
      requires QueueOk() && 8 * blkSz <= |q.UnsentBlocks()|
      ensures q.sendIdx + blkSz <= q.writeIdx
    {
    }

    /** Push into the queue without sending. */
    method PushMore()
      requires QueueOk() && SendValid() && q.CanPush()
      modifies this`log, q, q.blk
      ensures QueueOk() && SendValid()
      ensures q.Abs() == QPush(old(q.Abs()), old(q.Pending()))
      ensures log == old(log) + [Stamped(old(q.Pending()), old(q.ackSeqNum))]
      ensures Carries(log[|old(log)|], old(q.Pending()), old(q.ackSeqNum))
      ensures q.UnsentBlocks() == old(q.UnsentBlocks()) + Encode(log[|old(log)|], q.wire)
    {
      hide EncodeAll, Encode, AllWf, Unsent, QPush, PtcpQueue.Valid, PtcpQueue.UnsentBlocks, PtcpQueue.CanPush;
      ghost var m := q.Pending();
      PushGrows(m);
      LogGrows(log, Stamped(m, q.ackSeqNum), wireOut, q.UnsentBlocks(), q.wire);
      log := log + [Stamped(m, q.ackSeqNum)];
      q.Push();
      q.UnsentBytes();
    }

    lemma PushGrows(m: Msg)
      requires QueueOk() && m.Wf()
      ensures 0 <= 8 * QPush(q.Abs(), m).sent <= TotalLen(QPush(q.Abs(), m).msgs)
      ensures Unsent(QPush(q.Abs(), m), q.wire) == q.UnsentBlocks() + Encode(Stamped(m, q.ackSeqNum), q.wire)
    {
      hide EncodeAll, Encode, AllWf, Unsent, PtcpQueue.Valid, PtcpQueue.UnsentBlocks;
      q.Occupied();
      q.UnsentBytes();
      PushExtendsUnsent(q.Abs(), q.blockCount, m, q.wire);
    }

    method Push(script: seq<SendResult>) returns (ghost sent: nat)
      requires QueueOk() && SendValid() && q.CanPush()
      modifies this`log, this`sockfd, this`sendTime, this`wireOut, q, q.blk
      ensures QueueOk() && SendValid()
      ensures log == old(log) + [Stamped(old(q.Pending()), old(q.ackSeqNum))]
      ensures q.Abs() == QSendout(QPush(old(q.Abs()), old(q.Pending())), sent)
      ensures old(wireOut) <= wireOut && (sockfd == old(sockfd) || IsClosed())
      ensures Carries(log[|old(log)|], old(q.Pending()), old(q.ackSeqNum))
      // all that was pending and the new message are offered to the kernel
      ensures !old(IsClosed()) ==>
        SentUpTo(old(q.UnsentBlocks()) + Encode(log[|old(log)|], q.wire), script, old(wireOut), wireOut, IsClosed(), sent)
      ensures old(IsClosed()) ==> IsClosed() && sent == 0 && wireOut == old(wireOut)
      ensures sendTime == if sent > 0 then clock else old(sendTime)
    {
      hide EncodeAll, Encode, SendOutcome, SentUpTo, AllWf, QPush, PtcpQueue.Valid, PtcpQueue.UnsentBlocks, PtcpQueue.CanPush;
      PushMore();
      var busy;
      busy, sent := SendPending(script);
    }

    /** If a heartbeat is due: pending message bytes go first, and instead; anything but all eight bytes of a heartbeat
        breaks the connection. */
    method SendHB(now: int, script: seq<SendResult>, hb: SendResult) returns (ghost sent: nat)
      requires QueueOk() && SendValid()
      modifies this`clock, this`sockfd, this`sendTime, this`wireOut, this`log, q`sendIdx
      ensures QueueOk() && SendValid() && clock == now
      ensures sockfd == old(sockfd) || IsClosed()
      ensures q.Abs() == QSendout(old(q.Abs()), sent)
      ensures if now - old(sendTime) < heartbeatInterval || old(IsClosed()) then
          sent == 0 && wireOut == old(wireOut) && log == old(log) && sockfd == old(sockfd)
        else if old(q.UnsentBlocks()) != [] then
          log == old(log) && SendOutcome(old(q.UnsentBlocks()), script, old(wireOut), wireOut, false, IsClosed(), sent)
        else
          sent == 0 && HeartbeatOutcome(hb, Encode(Heartbeat(q.ackSeqNum), q.wire), old(wireOut), wireOut, IsClosed())
      ensures now - old(sendTime) >= heartbeatInterval && !old(IsClosed()) && old(q.UnsentBlocks()) != [] ==>
        SentUpTo(old(q.UnsentBlocks()), script, old(wireOut), wireOut, IsClosed(), sent)
      // the next heartbeat is due an interval after blocks or a whole heartbeat went out
      ensures sendTime == if sent > 0 || (now - old(sendTime) >= heartbeatInterval && !old(IsClosed())
        && old(q.UnsentBlocks()) == [] && hb.Taken? && hb.n >= 8) then now else old(sendTime)
    {
      hide EncodeAll, AllWf, SendOutcome, HeartbeatOutcome, PtcpQueue.Valid, PtcpQueue.UnsentBlocks, Encode;
      clock := now;
      sent := 0;
      Untouched(script);
      if clock - sendTime < heartbeatInterval {
        return;
      }
      ghost var pending, out, closed := q.UnsentBlocks(), wireOut, IsClosed();
      var busy;
      busy, sent := SendPending(script);
      if closed || pending == [] {
        NothingToSend(pending, script, out, wireOut, closed, IsClosed(), sent);
      }
      if busy || IsClosed() {
        return;
      }
      SendHeartbeat(hb);
    }

    method SendHeartbeat(hb: SendResult)
      requires QueueOk() && SendValid() && !IsClosed() && q.UnsentBlocks() == []
      modifies this`sockfd, this`sendTime, this`wireOut, this`log
      ensures QueueOk() && SendValid() && (sockfd == old(sockfd) || IsClosed())
      ensures log == if hb.Taken? then old(log) + [Heartbeat(q.ackSeqNum)] else old(log)
      ensures HeartbeatOutcome(hb, Encode(Heartbeat(q.ackSeqNum), q.wire), old(wireOut), wireOut, IsClosed())
      ensures IsClosed() <==> hb.SendError? || (hb.Taken? && hb.n < 8)
      ensures hb.Taken? ==> wireOut == old(wireOut) + Encode(Heartbeat(q.ackSeqNum), q.wire)[..Min(hb.n, 8)]
      ensures !hb.Taken? ==> wireOut == old(wireOut)
      ensures sendTime == if hb.Taken? && hb.n >= 8 then clock else old(sendTime)
    {
      hide EncodeAll, AllWf, Encode;
      if hb.Again? {
        return;
      }
      var sent := if hb.Taken? then Min(hb.n, 8) else 0;
      if hb.Taken? {
        ghost var m := Heartbeat(q.ackSeqNum);
        LogGrows(log, m, wireOut, [], q.wire);
        WireGrows(wireOut, Encode(m, q.wire), sent);
        log := log + [m];
        wireOut := wireOut + Encode(m, q.wire)[..sent];
      }
      if sent != 8 {
        Close();
        return;
      }
      sendTime := clock;
    }

    /** A login has succeeded: rewind the queue to what the peer has consumed and start over with empty buffers. */
    method Open(fd: int, remoteAck: U32, now: int, script: seq<SendResult>) returns (ghost sent: nat)
      requires fd != INVALID && IsClosed() && fdToClose == INVALID && RecvValid()
      requires QueueOk() && AckOk(q.Abs(), remoteAck)
      modifies this, q
      ensures RecvValid() && QueueOk() && SendValid() && FrontIsApp()
      ensures gone == waiting == [] && part == [] && (fresh(recvbuf) || recvbuf == old(recvbuf))
      ensures log == QLoginAck(old(q.Abs()), remoteAck).msgs
      ensures q.Abs() == QSendout(QLoginAck(old(q.Abs()), remoteAck), sent)
      ensures SendOutcome(EncodeAll(log, q.wire), script, [], wireOut, false, IsClosed(), sent)
      ensures log != [] ==> SentUpTo(EncodeAll(log, q.wire), script, [], wireOut, IsClosed(), sent)
      ensures log == [] ==> !IsClosed()
      ensures fdToClose == fd && (sockfd == fd || IsClosed())
      ensures sendTime == recvTime == clock == now
    {
      hide EncodeAll, AllWf, SendOutcome, SentUpTo, RecvValid, Aligned, QLoginAck, AckOk, PtcpQueue.Valid, PtcpQueue.UnsentBlocks;
      HasStorage();
      sockfd, fdToClose := fd, fd;
      sendTime, clock := now, now;
      sent := StartSending(remoteAck, script);
      StartReceiving(now);
    }

    /** The queue rewound, and what the kernel takes of it. */
    method StartSending(remoteAck: U32, script: seq<SendResult>) returns (ghost sent: nat)
      requires !IsClosed() && QueueOk() && AckOk(q.Abs(), remoteAck)
      modifies this`sockfd, this`sendTime, this`log, this`wireOut, q
      ensures QueueOk() && SendValid()
      ensures log == QLoginAck(old(q.Abs()), remoteAck).msgs
      ensures q.Abs() == QSendout(QLoginAck(old(q.Abs()), remoteAck), sent)
      ensures SendOutcome(EncodeAll(log, q.wire), script, [], wireOut, false, IsClosed(), sent)
      ensures log != [] ==> SentUpTo(EncodeAll(log, q.wire), script, [], wireOut, IsClosed(), sent)
      ensures log == [] ==> !IsClosed()
      ensures sockfd == old(sockfd) || IsClosed()
      ensures sendTime == if sent > 0 then clock else old(sendTime)
    {
      hide EncodeAll, AllWf, SendOutcome, SentUpTo, QLoginAck, AckOk, Unsent, Flat, PtcpQueue.Valid, PtcpQueue.UnsentBlocks;
      q.LoginAck(remoteAck);
      log, wireOut := q.msgs, [];
      EmptyPrefix(q.UnsentBlocks());
      var busy;
      busy, sent := SendPending(script);
      SomeBytes(log, q.wire);
      if log == [] {
        NothingToSend([], script, [], wireOut, false, IsClosed(), sent);
      }
    }

    /** An empty receive buffer, allocated at the first login. */
    method StartReceiving(now: int)
      requires Storage()
      modifies this`recvbuf, this`recvbufSize, this`writeIdx, this`nextmsgIdx, this`readIdx,
        this`recvTime, this`gone, this`waiting, this`part
      ensures RecvValid() && gone == waiting == [] && part == [] && (fresh(recvbuf) || recvbuf == old(recvbuf))
      ensures recvTime == now
    {
      hide RecvValid;
      writeIdx, readIdx, nextmsgIdx := 0, 0, 0;
      recvTime := now;
      gone, waiting, part := [], [], [];
      if recvbufSize == 0 {
        recvbufSize := initSize;
        recvbuf := new Byte[initSize];
      }
      EmptyBuffer();
    }

    lemma HasStorage()
      requires RecvValid()
      ensures Storage()
    {
    }

    lemma EmptyBuffer()
      requires Indexed() && readIdx == writeIdx && gone == waiting == [] && part == []
      ensures RecvValid()
    {
      hide EncodeAll, HostTail, HasFrame, PartFits;
      NoneEncoded([], q.host);
      ShortRest([], EMPTY, q.host, q.wire, maxSize);
    }

    /** Also RequestClose. The socket itself is given back by TryCloseFd. */
    method Close()
      modifies this`sockfd
      ensures IsClosed()
    {
      sockfd := INVALID;
    }

    /** Gives back the socket of a closed connection, once; only then can it be opened again. */
    method TryCloseFd() returns (closed: bool)
      modifies this`fdToClose
      ensures closed == (IsClosed() && old(fdToClose) != INVALID)
      ensures fdToClose == if closed then INVALID else old(fdToClose)
    {
      closed := IsClosed() && fdToClose != INVALID;
      if closed {
        fdToClose := INVALID;
      }
    }
  }
}
