/** The persistent send queue: a flat array of 8-byte blocks, three indices and two sequence numbers, all
    updated in place, proved to implement the bounded list of PtcpQueueSpec. */
module PtcpQueues {
  import opened Word32
  import opened MsgHeaders
  import opened PtcpQueueSpec

  type Block = b: seq<Byte> | |b| == 8 witness [0, 0, 0, 0, 0, 0, 0, 0]

  const ZERO_BLOCK: Block := [0, 0, 0, 0, 0, 0, 0, 0]

  /** The bytes of consecutive blocks. */
  function Flat(bs: seq<Block>): (r: seq<Byte>)
    ensures |r| == 8 * |bs|
  {
    if bs == [] then [] else bs[0] + Flat(bs[1..])
  }

  lemma {:induction false} FlatConcat(a: seq<Block>, b: seq<Block>)
    ensures Flat(a + b) == Flat(a) + Flat(b)
    decreases |a|
  {
    if a == [] {
      assert a + b == b;
    } else {
      assert (a + b)[1..] == a[1..] + b;
      FlatConcat(a[1..], b);
    }
  }

  lemma FlatSplit(bs: seq<Block>, k: nat)
    requires k <= |bs|
    ensures Flat(bs[..k]) == Flat(bs)[..8 * k] && Flat(bs[k..]) == Flat(bs)[8 * k..]
  {
    assert bs == bs[..k] + bs[k..];
    FlatConcat(bs[..k], bs[k..]);
  }

  /** Bytes cut into blocks. */
  function Blocks(bytes: seq<Byte>): (bs: seq<Block>)
    requires |bytes| % 8 == 0
    ensures |bytes| == 8 * |bs|
  {
    if bytes == [] then [] else [bytes[..8]] + Blocks(bytes[8..])
  }

  lemma {:induction false} FlatBlocks(bytes: seq<Byte>)
    requires |bytes| % 8 == 0
    ensures Flat(Blocks(bytes)) == bytes
    decreases |bytes|
  {
    if bytes != [] {
      FlatBlocks(bytes[8..]);
      assert Blocks(bytes)[1..] == Blocks(bytes[8..]);
      assert bytes == bytes[..8] + bytes[8..];
    }
  }

  /** A nonempty encoded run of blocks starts with the header of its first message. */
  lemma FirstMessage(bs: seq<Block>, ms: seq<Msg>, wire: bool)
    requires ms != [] && AllWf(ms) && Flat(bs) == EncodeAll(ms, wire)
    ensures 1 <= BlocksFor(ms[0].header.size) <= |bs|
    ensures FromBytes(bs[0], wire) == ms[0].header
    ensures Flat(bs[BlocksFor(ms[0].header.size)..]) == EncodeAll(ms[1..], wire)
  {
    var n := BlocksFor(ms[0].header.size);
    FlatSplit(bs, n);
    assert EncodeAll(ms, wire)[..8] == ToBytes(ms[0].header, wire);
    assert Flat(bs)[..8] == bs[0];
    ReadBack(ms[0].header, wire);
  }

  /** Appending a message's blocks appends its encoding. */
  lemma AppendMessage(live: seq<Block>, first: Block, tail: seq<Block>, ms: seq<Msg>, m: Msg, wire: bool)
    requires Flat(live) == EncodeAll(ms, wire)
    requires first == ToBytes(m.header, wire) && Flat(tail) == m.body
    ensures Flat(live + ([first] + tail)) == EncodeAll(ms + [m], wire)
  {
    FlatConcat(live, [first] + tail);
    EncodeConcat(ms, [m], wire);
    assert ([first] + tail)[1..] == tail;
    assert EncodeAll([m], wire) == Encode(m, wire);
  }

  /** A host header converted in place is the wire header. */
  lemma HeaderToWire(h: Header, host: bool, wire: bool)
    ensures Convert(ToBytes(h, host), host, wire) == ToBytes(h, wire)
  {
    var b := ToBytes(h, host);
    ConvertReads(b, host, wire);
    ReadBack(h, host);
    WriteBack(Convert(b, host, wire), wire);
  }

  class PtcpQueue {
    const blockCount: nat    // BLK_CNT
    const host: bool         // this machine is little endian
    const wire: bool         // ToLittleEndian
    const blk: array<Block>
    var writeIdx: nat
    var readIdx: nat
    var sendIdx: nat
    var readSeqNum: U32
    var ackSeqNum: U32
    ghost var msgs: seq<Msg>

    ghost predicate Valid()
      reads this, blk
    {
      && blk.Length == blockCount < 0x2000_0000
      && readIdx <= writeIdx <= blockCount
      && sendIdx <= writeIdx
      && AllWf(msgs)
      && Flat(blk[readIdx..writeIdx]) == EncodeAll(msgs, wire)
    }

    /** The invariant the source states for its indices. */
    ghost predicate Ordered()
      reads this
    {
      readIdx <= sendIdx <= writeIdx
    }

    ghost function Abs(): QState
      reads this
    {
      QState(msgs, sendIdx - readIdx, readSeqNum, ackSeqNum)
    }

    lemma Occupied()
      requires Valid()
      ensures writeIdx - readIdx == TotalBlocks(msgs)
      ensures Ordered() <==> QValid(Abs(), blockCount)
    {
      BlocksAreBytes(msgs);
    }

    /** A freshly mapped file: all zero. */
    constructor (blocks: nat, hostLittle: bool, toLittle: bool)
      requires blocks < 0x2000_0000
      ensures Valid() && Ordered() && fresh(blk)
      ensures Abs() == EMPTY && readIdx == 0
      ensures blockCount == blocks && host == hostLittle && wire == toLittle
    {
      blockCount, host, wire := blocks, hostLittle, toLittle;
      blk := new Block[blocks](_ => ZERO_BLOCK);
      writeIdx, readIdx, sendIdx, readSeqNum, ackSeqNum := 0, 0, 0, 0, 0;
      msgs := [];
    }

    /** memset of the whole file. */
    method Reset()
      requires Valid()
      modifies this, blk
      ensures Valid() && Ordered() && Abs() == EMPTY
    {
      forall i | 0 <= i < blk.Length {
        blk[i] := ZERO_BLOCK;
      }
      writeIdx, readIdx, sendIdx, readSeqNum, ackSeqNum := 0, 0, 0, 0, 0;
      msgs := [];
    }

    /** memmove of the live blocks to the front of the array. */
    method Compact()
      requires Valid() && Ordered()
      modifies this`readIdx, this`sendIdx, this`writeIdx, blk
      ensures Valid() && Ordered() && Abs() == old(Abs())
      ensures readIdx == 0 && writeIdx == old(writeIdx - readIdx)
    {
      hide EncodeAll, Flat;
      ghost var live := blk[readIdx..writeIdx];
      forall i | 0 <= i < writeIdx - readIdx {
        blk[i] := blk[readIdx + i];
      }
      assert blk[0..writeIdx - readIdx] == live;
      writeIdx, sendIdx := writeIdx - readIdx, sendIdx - readIdx;
      readIdx := 0;
    }

    method Alloc(payload: U16) returns (ok: bool, hdr: nat)
      requires Valid() && Ordered()
      requires payload <= 65527  // the whole message must fit a uint16_t
      modifies this, blk
      ensures Valid() && Ordered() && Abs() == old(Abs())
      ensures ok <==> Fits(Abs(), blockCount, payload + 8)
      ensures ok <==> BlocksFor(payload + 8) <= blockCount - (old(writeIdx) - old(readIdx))
      // the queue moves to the front only if the free tail is too short
      ensures BlocksFor(payload + 8) <= blockCount - old(writeIdx) ==> readIdx == old(readIdx) && writeIdx == old(writeIdx)
      ensures ok && BlocksFor(payload + 8) > blockCount - old(writeIdx) ==> readIdx == 0
      ensures ok ==> hdr == writeIdx && CanPush() && Pending().header.size == payload + 8
      ensures !ok ==> blk[..] == old(blk[..]) && unchanged(this)
    {
      Occupied();
      hide EncodeAll, Flat, TotalBlocks;
      var size := payload + 8;
      var blkSz := BlocksFor(size);
      var avail := blockCount - writeIdx;
      if blkSz > avail {
        if blkSz > avail + readIdx {
          return false, 0;
        }
        Compact();
      }
      ghost var live := blk[readIdx..writeIdx];
      var h := FromBytes(blk[writeIdx], host);
      blk[writeIdx] := ToBytes(h.(size := size), host);
      ReadBack(h.(size := size), host);
      assert blk[readIdx..writeIdx] == live;
      return true, writeIdx;
    }

    /** A message has been allocated at the write index and its size is in place. */
    ghost predicate CanPush()
      requires Valid()
      reads this, blk
    {
      && writeIdx < blockCount
      && 0 < BlocksFor(FromBytes(blk[writeIdx], host).size)
      && writeIdx + BlocksFor(FromBytes(blk[writeIdx], host).size) <= blockCount
    }

    /** What the user has written there: header in host order and body. */
    ghost function Pending(): (m: Msg)
      requires Valid() && CanPush()
      reads this, blk
      ensures m.Wf()
    {
      var h := FromBytes(blk[writeIdx], host);
      Msg(h, Flat(blk[writeIdx + 1..writeIdx + BlocksFor(h.size)]))
    }

    /** The user fills in the message allocated; its size is the queue's. */
    method Fill(m: Msg)
      requires Valid() && CanPush() && m.Wf() && m.header.size == Pending().header.size
      modifies blk
      ensures Valid() && Abs() == old(Abs())
      ensures CanPush() && Pending() == m
    {
      hide EncodeAll, Flat, ToBytes, FromBytes, Blocks;
      ghost var live, w := blk[readIdx..writeIdx], writeIdx;
      var blkSz := BlocksFor(m.header.size);
      var bs := Blocks(m.body);
      FlatBlocks(m.body);
      ReadBack(m.header, host);
      Overwrite([ToBytes(m.header, host)] + bs);
      assert blk[w..w + blkSz][0] == blk[w] && blk[w..w + blkSz][1..] == blk[w + 1..w + blkSz];
    }

    /** Blocks written from the write index on. */
    method Overwrite(bs: seq<Block>)
      requires readIdx <= writeIdx && writeIdx + |bs| <= blk.Length
      modifies blk
      ensures blk[readIdx..writeIdx] == old(blk[readIdx..writeIdx]) && blk[writeIdx..writeIdx + |bs|] == bs
    {
      forall i | 0 <= i < |bs| {
        blk[writeIdx + i] := bs[i];
      }
    }

    method Push()
      requires Valid() && Ordered() && CanPush()
      modifies this, blk
      ensures Valid() && Ordered()
      ensures Abs() == QPush(old(Abs()), old(Pending())) && readIdx == old(readIdx)
      // one message joins the queue: what was filled in, its stamp apart
      ensures |msgs| == |old(msgs)| + 1 && msgs[..|old(msgs)|] == old(msgs)
      ensures var p, m := msgs[|old(msgs)|], old(Pending());
        && p.body == m.body && p.header.size == m.header.size && p.header.msgType == m.header.msgType
        && p.header.ackSeq == old(ackSeqNum)
    {
      hide FromBytes, ToBytes, Convert, EncodeAll, Flat, TotalBlocks, BlocksFor;
      ghost var m := Stamped(Pending(), ackSeqNum);
      ghost var live, w := blk[readIdx..writeIdx], writeIdx;
      var h := FromBytes(blk[writeIdx], host);
      var blkSz := BlocksFor(h.size);
      ghost var tail := blk[w + 1..w + blkSz];
      HeaderToWire(m.header, host, wire);
      blk[writeIdx] := Convert(ToBytes(h.(ackSeq := ackSeqNum), host), host, wire);
      writeIdx := writeIdx + blkSz;
      assert blk[readIdx..w] == live && blk[w + 1..writeIdx] == tail;
      assert blk[readIdx..writeIdx] == blk[readIdx..w] + ([blk[w]] + blk[w + 1..writeIdx]);
      AppendMessage(live, blk[w], tail, msgs, m, wire);
      msgs := msgs + [m];
    }

    /** The blocks not sent yet. */
    method GetSendable() returns (blkSz: nat)
      requires Valid() && Ordered()
      ensures blkSz == TotalBlocks(msgs) - Abs().sent
      ensures |UnsentBlocks()| == 8 * blkSz
    {
      Occupied();
      hide EncodeAll, TotalBlocks;
      blkSz := writeIdx - sendIdx;
    }

    ghost function UnsentBlocks(): seq<Byte>
      requires Valid() && Ordered()
      reads this, blk
    {
      Flat(blk[sendIdx..writeIdx])
    }

    lemma UnsentBytes()
      requires Valid() && Ordered()
      ensures QValid(Abs(), blockCount) && TotalLen(msgs) == 8 * TotalBlocks(msgs)
      ensures UnsentBlocks() == Unsent(Abs(), wire)
    {
      Occupied();
      BlocksAreBytes(msgs);
      FlatSplit(blk[readIdx..writeIdx], sendIdx - readIdx);
      assert blk[readIdx..writeIdx][sendIdx - readIdx..] == blk[sendIdx..writeIdx];
    }

    method Sendout(blkSz: nat)
      requires Valid() && Ordered() && sendIdx + blkSz <= writeIdx
      modifies this`sendIdx
      ensures Valid() && Ordered() && Abs() == QSendout(old(Abs()), blkSz)
      ensures 8 * blkSz <= |old(UnsentBlocks())| && UnsentBlocks() == old(UnsentBlocks())[8 * blkSz..]
    {
      hide EncodeAll, Flat;
      FlatSplit(blk[sendIdx..writeIdx], blkSz);
      assert blk[sendIdx..writeIdx][blkSz..] == blk[sendIdx + blkSz..writeIdx];
      sendIdx := sendIdx + blkSz;
    }

    /** One turn of Ack's loop: step over the first message, reading its size from wire order. */
    method StepOver()
      requires Valid() && msgs != []
      modifies this`readIdx, this`readSeqNum, this`msgs
      ensures Valid() && msgs == old(msgs)[1..]
      ensures readIdx == old(readIdx) + BlocksFor(old(msgs)[0].header.size)
      ensures readSeqNum == NextSeq(old(readSeqNum))
    {
      hide FromBytes, ToBytes, Convert, EncodeAll, Flat, TotalBlocks, BlocksFor;
      FirstMessage(blk[readIdx..writeIdx], msgs, wire);
      ConvertReads(blk[readIdx], host, wire);
      var n := BlocksFor(FromBytes(Convert(blk[readIdx], host, wire), host).size);
      assert blk[readIdx..writeIdx][n..] == blk[readIdx + n..writeIdx];
      readIdx := readIdx + n;
      readSeqNum := NextSeq(readSeqNum);
      msgs := msgs[1..];
    }

    /** The loop the source runs on trust: it ends, on a message boundary, because the acknowledgement is in range. */
    method Release(ackSeq: U32)
      requires Valid() && AckOk(Abs(), ackSeq) && 0 < Released(Abs(), ackSeq)
      modifies this`readIdx, this`readSeqNum, this`msgs
      ensures Valid() && readSeqNum == ackSeq
      ensures msgs == old(msgs)[Released(old(Abs()), ackSeq)..]
      ensures readIdx == old(readIdx) + TotalBlocks(old(msgs)[..Released(old(Abs()), ackSeq)])
    {
      hide EncodeAll, Flat, TotalBlocks, BlocksFor;
      ghost var k, start, all, first := 0, readSeqNum, msgs, readIdx;
      NoneReleased(all, start, first);
      hide StepsTaken, Wrap, Diff, NextSeq;
      while true
        invariant 0 <= k < Diff(ackSeq, start) <= |all|
        invariant Valid() && StepsTaken(all, start, first, k, msgs, readSeqNum, readIdx)
        decreases Diff(ackSeq, start) - k
      {
        OneReleased(all, start, first, k, msgs, readSeqNum, readIdx);
        StepOver();
        k := k + 1;
        ReachedOnlyAtGoal(start, ackSeq, k);
        AllReleased(all, start, first, k, msgs, readSeqNum, readIdx);
        if readSeqNum == ackSeq {
          break;
        }
      }
    }

    /** Also used by LoginAck, where it may pass the send index. */
    method Ack(ackSeq: U32)
      requires Valid() && AckOk(Abs(), ackSeq)
      modifies this
      ensures Valid() && Abs() == QAck(old(Abs()), ackSeq)
      ensures old(Ordered()) && QValid(QAck(old(Abs()), ackSeq), blockCount) ==> Ordered()
      // a message allocated and not pushed yet stays allocated, unless everything pushed is released
      ensures Empties(old(Abs()), ackSeq) ==> writeIdx == 0 < old(writeIdx)
      ensures !Empties(old(Abs()), ackSeq) ==> writeIdx == old(writeIdx)
      ensures !Empties(old(Abs()), ackSeq) && old(CanPush()) ==> CanPush() && Pending() == old(Pending())
    {
      hide EncodeAll, Flat, FromBytes, BlocksFor, AllWf;
      if Diff(ackSeq, readSeqNum) <= 0 {
        return;
      }
      Occupied();
      EmptyIffNoBlocks();
      Release(ackSeq);
      Occupied();
      EmptyIffNoBlocks();
      if readIdx == writeIdx {
        NothingHeld();
        readIdx, writeIdx, sendIdx := 0, 0, 0;
      }
      Occupied();
    }

    lemma EmptyIffNoBlocks()
      requires Valid()
      ensures readIdx == writeIdx <==> msgs == []
    {
      Occupied();
      BlocksAreBytes(msgs);
    }

    lemma NothingHeld()
      requires Valid() && msgs == []
      ensures Flat(blk[0..0]) == EncodeAll(msgs, wire)
    {
    }

    method LoginAck(ackSeq: U32)
      requires Valid() && AckOk(Abs(), ackSeq)
      modifies this
      ensures Valid() && Ordered() && Abs() == QLoginAck(old(Abs()), ackSeq)
      ensures UnsentBlocks() == EncodeAll(msgs, wire) && AllWf(msgs)
    {
      hide EncodeAll, Flat, TotalBlocks, AllWf;
      Ack(ackSeq);
      sendIdx := readIdx;
    }

    method IncMyAck()
      requires Valid()
      modifies this`ackSeqNum
      ensures Valid() && Abs() == QPop(old(Abs()))
    {
      ackSeqNum := NextSeq(ackSeqNum);
    }

    /** Walks the blocks header by header; it always ends on the write index, so only a too new acknowledgement fails it. */
    method SanityCheckAndGetSeq() returns (ok: bool, seqStart: U32, seqEnd: U32)
      requires Valid()
      ensures ok <==> Sane(Abs())
      ensures ok ==> seqStart == readSeqNum && seqEnd == SeqEnd(Abs())
    {
      hide FromBytes, ToBytes, Convert, EncodeAll, Flat, TotalBlocks, BlocksFor, Diff, Wrap, NextSeq;
      ok, seqStart, seqEnd := false, 0, 0;
      var end, idx := readSeqNum, readIdx;
      ghost var k := 0;
      Occupied();
      WrapSmall(readSeqNum);
      while idx < writeIdx
        invariant 0 <= k <= |msgs| && readIdx <= idx <= writeIdx
        invariant Flat(blk[idx..writeIdx]) == EncodeAll(msgs[k..], wire)
        invariant end == Wrap(readSeqNum + k)
        invariant forall i :: 0 <= i < k ==> Diff(ackSeqNum, msgs[i].header.ackSeq) >= 0
      {
        assert msgs[k..] != [];
        FirstMessage(blk[idx..writeIdx], msgs[k..], wire);
        ConvertReads(blk[idx], host, wire);
        var h := FromBytes(Convert(blk[idx], host, wire), host);
        if Diff(ackSeqNum, h.ackSeq) < 0 {
          return;
        }
        var n := BlocksFor(h.size);
        assert blk[idx..writeIdx][n..] == blk[idx + n..writeIdx];
        assert msgs[k..][1..] == msgs[k + 1..];
        idx := idx + n;
        NextSeqWraps(readSeqNum + k);
        end := NextSeq(end);
        k := k + 1;
      }
      assert msgs[k..] == [];
      if idx != writeIdx {
        return;
      }
      ok, seqStart, seqEnd := true, readSeqNum, end;
    }
  }

  const FIRST := Msg(Header(8, 1, 0), [])
  const SECOND := Msg(Header(8, 2, 0), [])

  /** An acknowledgement between Alloc and Push that releases everything queued: Push then pushes the first message again,
      and the second, though allocated and filled in, is never queued. */
  method WrongMessagePushed() returns (q: PtcpQueue)
    ensures fresh(q) && q.Valid() && q.msgs == [FIRST]
  {
    hide EncodeAll, Flat, FromBytes, PtcpQueue.Valid, PtcpQueue.CanPush, PtcpQueue.Pending;
    q := new PtcpQueue(4, true, true);
    PushOne(q, FIRST);
    q.Occupied();
    OneBlock(FIRST);
    q.Sendout(1);
    var ok, _ := q.Alloc(0);
    q.Fill(SECOND);
    FirstStays(q);
    assert Released(q.Abs(), 1) == 1;
    q.Ack(1);
    FirstIsPending(q);
    q.Push();
  }

  method PushOne(q: PtcpQueue, m: Msg)
    requires q.Valid() && q.Ordered() && q.Abs() == EMPTY && q.readIdx == 0 && q.blockCount == 4 && OneBlockLong(m)
    modifies q, q.blk
    ensures q.Valid() && q.Ordered() && q.Abs() == QPush(EMPTY, m) && q.readIdx == 0
  {
    hide EncodeAll, Flat, FromBytes, PtcpQueue.Valid, PtcpQueue.CanPush, PtcpQueue.Pending;
    var ok, _ := q.Alloc(0);
    q.Fill(m);
    q.Push();
  }

  predicate OneBlockLong(m: Msg) {
    m.header.size == 8 && m.body == []
  }

  lemma OneBlock(m: Msg)
    requires OneBlockLong(m)
    ensures TotalBlocks([m]) == 1 && m.Wf()
  {
  }

  /** The first block of the array is the first message's header. */
  lemma FirstStays(q: PtcpQueue)
    requires q.Valid() && q.readIdx == 0 && q.msgs == [FIRST]
    ensures 0 < q.blk.Length && FromBytes(q.blk[0], q.wire) == FIRST.header
  {
    hide FromBytes, EncodeAll, Flat;
    OneBlock(FIRST);
    FirstMessage(q.blk[0..q.writeIdx], q.msgs, q.wire);
  }

  lemma FirstIsPending(q: PtcpQueue)
    requires q.Valid() && q.writeIdx == 0 < q.blk.Length && q.host == q.wire && FromBytes(q.blk[0], q.wire) == FIRST.header
    ensures q.CanPush() && q.Pending() == FIRST
  {
    hide FromBytes, EncodeAll;
  }


  /** Where Ack's loop stands after k turns over the messages `all`, first at block `first` with number `start`. */
  ghost predicate StepsTaken(all: seq<Msg>, start: U32, first: nat, k: nat, ms: seq<Msg>, seqNum: U32, idx: nat) {
    k <= |all| && ms == all[k..] && seqNum == Wrap(start + k) && idx == first + TotalBlocks(all[..k])
  }

  lemma NoneReleased(all: seq<Msg>, start: U32, first: nat)
    ensures StepsTaken(all, start, first, 0, all, start, first)
  {
    assert all[..0] == [];
  }

  lemma OneReleased(all: seq<Msg>, start: U32, first: nat, k: nat, ms: seq<Msg>, seqNum: U32, idx: nat)
    requires k < |all| && StepsTaken(all, start, first, k, ms, seqNum, idx)
    ensures ms != []
    ensures StepsTaken(all, start, first, k + 1, ms[1..], NextSeq(seqNum), idx + BlocksFor(ms[0].header.size))
  {
    EncodeConcat(all[..k], [all[k]], true);
    assert all[..k + 1] == all[..k] + [all[k]];
    NextSeqWraps(start + k);
  }

  lemma AllReleased(all: seq<Msg>, start: U32, first: nat, k: nat, ms: seq<Msg>, seqNum: U32, idx: nat)
    requires k <= |all| && StepsTaken(all, start, first, k, ms, seqNum, idx)
    ensures ms == all[k..] && idx == first + TotalBlocks(all[..k])
    ensures seqNum == Wrap(start + k)
  {
  }

  lemma ReachedOnlyAtGoal(start: U32, ack: U32, k: nat)
    requires 0 < k <= Diff(ack, start)
    ensures Wrap(start + k) == ack <==> k == Diff(ack, start)
  {
    var goal := Diff(ack, start);
    var from: int := start;
    WrapPlus(ack - from, start);
    if k < goal {
      WrapMinus(from + goal, from + k);
    }
  }
}
