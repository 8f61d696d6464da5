/** What a PTCPQueue holds, as a value: the messages not yet acknowledged and three counters. */
module PtcpQueueSpec {
  import opened Word32
  import opened MsgHeaders

  /** msgs: the unacknowledged messages; sent: blocks from the first of them to the send index (negative only
      inside a login, before the index is rewound); readSeq: sequence number of msgs[0]; ackSeq: messages consumed. */
  datatype QState = QState(msgs: seq<Msg>, sent: int, readSeq: U32, ackSeq: U32)

  const EMPTY := QState([], 0, 0, 0)

  ghost predicate QValid(q: QState, cap: nat) {
    && AllWf(q.msgs)
    && TotalBlocks(q.msgs) <= cap
    && 0 <= q.sent <= TotalBlocks(q.msgs)
  }

  /** Alloc finds room. */
  predicate Fits(q: QState, cap: nat, size: nat) {
    BlocksFor(size) + TotalBlocks(q.msgs) <= cap
  }

  /** p is the message m as it was filled in, with our acknowledgement in its header and nothing else changed. */
  predicate Carries(p: Msg, m: Msg, ack: U32) {
    && p.body == m.body && p.header.size == m.header.size && p.header.msgType == m.header.msgType
    && p.header.ackSeq == ack
  }

  function Stamped(m: Msg, ack: U32): (p: Msg)
    ensures Carries(p, m, ack)
  {
    m.(header := m.header.(ackSeq := ack))
  }

  function QPush(q: QState, m: Msg): QState {
    q.(msgs := q.msgs + [Stamped(m, q.ackSeq)])
  }

  function QSendout(q: QState, blocks: int): QState {
    q.(sent := q.sent + blocks)
  }

  function QPop(q: QState): QState {
    q.(ackSeq := NextSeq(q.ackSeq))
  }

  /** How many messages an acknowledgement releases: none unless its signed distance is positive. */
  function Released(q: QState, ack: U32): nat {
    if Diff(ack, q.readSeq) <= 0 then 0 else Diff(ack, q.readSeq)
  }

  /** The assumption the source only comments on: an acknowledgement never names a message not pushed yet. */
  predicate AckOk(q: QState, ack: U32) {
    Released(q, ack) <= |q.msgs|
  }

  /** An acknowledgement that releases the last message queued: it sets the indices back to 0. */
  predicate Empties(q: QState, ack: U32) {
    0 < Released(q, ack) == |q.msgs|
  }

  function QAck(q: QState, ack: U32): QState
    requires AckOk(q, ack)
  {
    var k := Released(q, ack);
    if k == 0 then q
    else QState(q.msgs[k..], if k == |q.msgs| then 0 else q.sent - TotalBlocks(q.msgs[..k]), ack, q.ackSeq)
  }

  function QLoginAck(q: QState, ack: U32): QState
    requires AckOk(q, ack)
  {
    QAck(q, ack).(sent := 0)
  }

  /** An acknowledgement of messages sent in full: what every one on a running connection has to be. */
  predicate AckSafe(q: QState, ack: U32) {
    AckOk(q, ack) && TotalBlocks(q.msgs[..Released(q, ack)]) <= q.sent
  }

  lemma SafeIsOk(q: QState, ack: U32)
    requires AckSafe(q, ack)
    ensures AckOk(q, ack)
  {
  }

  predicate AcksSafe(q: QState, acks: seq<U32>)
    decreases |acks|
  {
    acks == [] || (AckSafe(q, acks[0]) && AcksSafe(QAck(q, acks[0]), acks[1..]))
  }

  function QAckAll(q: QState, acks: seq<U32>): QState
    requires AcksSafe(q, acks)
    decreases |acks|
  {
    if acks == [] then q else QAckAll(QAck(q, acks[0]), acks[1..])
  }

  /** Acknowledging in two goes. */
  lemma {:induction false} AckAllConcat(q: QState, a: seq<U32>, b: seq<U32>)
    ensures AcksSafe(q, a + b) <==> AcksSafe(q, a) && AcksSafe(QAckAll(q, a), b)
    ensures AcksSafe(q, a + b) ==> QAckAll(q, a + b) == QAckAll(QAckAll(q, a), b)
    decreases |a|
  {
    if a == [] {
      assert a + b == b;
    } else {
      assert (a + b)[0] == a[0] && (a + b)[1..] == a[1..] + b;
      if AckSafe(q, a[0]) {
        AckAllConcat(QAck(q, a[0]), a[1..], b);
      }
    }
  }

  /** SanityCheckAndGetSeq's verdict: no queued message carries an acknowledgement newer than ours. */
  predicate Sane(q: QState) {
    forall i :: 0 <= i < |q.msgs| ==> Diff(q.ackSeq, q.msgs[i].header.ackSeq) >= 0
  }

  function SeqEnd(q: QState): U32 {
    Wrap(q.readSeq + |q.msgs|)
  }

  /** Acknowledging is idempotent: hearing the same value again changes nothing. */
  lemma AckTwice(q: QState, ack: U32)
    requires AckOk(q, ack)
    ensures AckOk(QAck(q, ack), ack) && QAck(QAck(q, ack), ack) == QAck(q, ack)
  {
    assert Released(QAck(q, ack), ack) == 0;
  }

  /** The queue splits at the released messages. */
  lemma ReleaseSplits(q: QState, ack: U32, wire: bool)
    requires AckOk(q, ack)
    ensures var k := Released(q, ack);
      && TotalBlocks(q.msgs) == TotalBlocks(q.msgs[..k]) + TotalBlocks(q.msgs[k..])
      && EncodeAll(q.msgs, wire) == EncodeAll(q.msgs[..k], wire) + EncodeAll(q.msgs[k..], wire)
  {
    var k := Released(q, ack);
    EncodeConcat(q.msgs[..k], q.msgs[k..], wire);
    assert q.msgs == q.msgs[..k] + q.msgs[k..];
  }

  lemma LoginAckValid(q: QState, cap: nat, ack: U32)
    requires QValid(q, cap) && AckOk(q, ack)
    ensures QValid(QLoginAck(q, ack), cap)
  {
    ReleaseSplits(q, ack, true);
  }

  /** The bytes still to be sent. */
  function Unsent(q: QState, wire: bool): seq<Byte>
    requires 0 <= 8 * q.sent <= TotalLen(q.msgs)
  {
    EncodeAll(q.msgs, wire)[8 * q.sent..]
  }

  /** Pushing appends to the bytes to be sent, and to nothing else. */
  lemma PushExtendsUnsent(q: QState, cap: nat, m: Msg, wire: bool)
    requires QValid(q, cap) && m.Wf()
    ensures TotalLen(q.msgs) == 8 * TotalBlocks(q.msgs)
    ensures 8 * q.sent <= TotalLen(QPush(q, m).msgs)
    ensures Unsent(QPush(q, m), wire) == Unsent(q, wire) + Encode(Stamped(m, q.ackSeq), wire)
  {
    var s := Stamped(m, q.ackSeq);
    EncodeConcat(q.msgs, [s], wire);
    BlocksAreBytes(q.msgs);
    assert EncodeAll([s], wire) == Encode(s, wire) + [];
  }

  /** A safe acknowledgement keeps the indices in order and does not touch a byte still to be sent. */
  lemma SafeAckKeeps(q: QState, cap: nat, ack: U32, wire: bool)
    requires QValid(q, cap) && AckSafe(q, ack)
    ensures QValid(QAck(q, ack), cap)
    ensures TotalLen(q.msgs) == 8 * TotalBlocks(q.msgs)
    ensures TotalLen(QAck(q, ack).msgs) == 8 * TotalBlocks(QAck(q, ack).msgs)
    ensures Unsent(QAck(q, ack), wire) == Unsent(q, wire)
  {
    var k := Released(q, ack);
    ReleaseSplits(q, ack, wire);
    BlocksAreBytes(q.msgs);
    BlocksAreBytes(q.msgs[k..]);
    if 0 < k {
      DropKeepsUnsent(q, k, wire);
    }
  }

  lemma DropKeepsUnsent(q: QState, k: nat, wire: bool)
    requires AllWf(q.msgs) && k <= |q.msgs| && TotalBlocks(q.msgs[..k]) <= q.sent <= TotalBlocks(q.msgs)
    ensures TotalLen(q.msgs) == 8 * TotalBlocks(q.msgs)
    ensures TotalLen(q.msgs[k..]) == 8 * TotalBlocks(q.msgs[k..]) == 8 * (TotalBlocks(q.msgs) - TotalBlocks(q.msgs[..k]))
    ensures Unsent(q, wire) == EncodeAll(q.msgs[k..], wire)[8 * (q.sent - TotalBlocks(q.msgs[..k]))..]
  {
    hide EncodeAll, TotalBlocks, TotalLen;
    var a, b := q.msgs[..k], q.msgs[k..];
    EncodeConcat(a, b, wire);
    BlocksAreBytes(q.msgs);
    BlocksAreBytes(a);
    BlocksAreBytes(b);
    assert q.msgs == a + b;
    BeyondPrefix(EncodeAll(a, wire), EncodeAll(b, wire), 8 * q.sent);
  }

  lemma BeyondPrefix<T>(a: seq<T>, b: seq<T>, i: nat)
    requires |a| <= i <= |a| + |b|
    ensures (a + b)[i..] == b[i - |a|..]
  {
  }

  /** Exactly when an acknowledgement in range keeps the unsent bytes: if it releases nothing unsent. Released
      further, the do-while drops messages the peer never had, or clears the indices under them. */
  lemma UnsafeAckLoses(q: QState, cap: nat, ack: U32, wire: bool)
    requires QValid(q, cap) && AckOk(q, ack) && !AckSafe(q, ack)
    ensures TotalLen(q.msgs) == 8 * TotalBlocks(q.msgs)
    ensures TotalLen(QAck(q, ack).msgs) < |Unsent(q, wire)|
  {
    var k := Released(q, ack);
    ReleaseSplits(q, ack, wire);
    BlocksAreBytes(q.msgs);
    BlocksAreBytes(q.msgs[k..]);
  }

  /** seq_start <= ack_seq <= seq_end with 32-bit wrap-around, the test both sides' login values must pass. */
  predicate CheckAckInQueue(ack: U32, start: U32, end: U32) {
    Diff(ack, start) >= 0 && Diff(end, ack) >= 0
  }

  /** For a queue range shorter than 2^31 the test accepts exactly the acknowledgements of the range, for any 32-bit value. */
  lemma CheckAckExact(ack: U32, start: U32, end: U32)
    requires Wrap(end - start) < 0x8000_0000
    ensures CheckAckInQueue(ack, start, end) <==> Wrap(ack - start) <= Wrap(end - start)
  {
    WrapMinus(end - start, ack - start);
    assert (end - start) - (ack - start) == end - ack;
  }

  /** A login acknowledgement that passes the test is within the queue: LoginAck drops exactly (ack - start) mod 2^32
      messages, ends on a message boundary and makes the first message still owed the next to be sent. */
  lemma LoginAckExact(q: QState, cap: nat, ack: U32)
    requires QValid(q, cap) && cap < 0x2000_0000
    requires CheckAckInQueue(ack, q.readSeq, SeqEnd(q))
    ensures Wrap(ack - q.readSeq) <= |q.msgs| && AckOk(q, ack)
    ensures QLoginAck(q, ack) == QState(q.msgs[Wrap(ack - q.readSeq)..], 0, ack, q.ackSeq)
    ensures QValid(QLoginAck(q, ack), cap)
  {
    BlocksAreBytes(q.msgs);
    RangeLength(q);
    CheckAckExact(ack, q.readSeq, SeqEnd(q));
    ReleasedInRange(q, ack);
    LoginAckValid(q, cap, ack);
  }

  lemma RangeLength(q: QState)
    requires |q.msgs| < 0x1_0000_0000
    ensures Wrap(SeqEnd(q) - q.readSeq) == |q.msgs|
  {
    var start: int := q.readSeq;
    WrapPlus(start + |q.msgs|, -start);
  }

  lemma ReleasedInRange(q: QState, ack: U32)
    requires Wrap(ack - q.readSeq) < 0x8000_0000
    ensures Released(q, ack) == Wrap(ack - q.readSeq)
    ensures Released(q, ack) == 0 ==> ack == q.readSeq
  {
  }
}
