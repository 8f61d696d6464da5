/** MsgHeader, its byte-order conversion, and messages as they look on the wire. */
module MsgHeaders {
  import opened Word32

  datatype Header = Header(size: U16, msgType: U16, ackSeq: U32)

  /** The eight bytes of a header on a machine (or a wire) of the given endianness. */
  function ToBytes(h: Header, little: bool): (r: seq<Byte>)
    ensures |r| == 8
  {
    Bytes16(h.size, little) + Bytes16(h.msgType, little) + Bytes32(h.ackSeq, little)
  }

  function Bytes16(x: U16, little: bool): (r: seq<Byte>)
    ensures |r| == 2
  {
    if little then [x % 0x100, x / 0x100] else [x / 0x100, x % 0x100]
  }

  function Bytes32(x: U32, little: bool): (r: seq<Byte>)
    ensures |r| == 4
  {
    if little then Bytes16(x % 0x1_0000, true) + Bytes16(x / 0x1_0000, true)
    else Bytes16(x / 0x1_0000, false) + Bytes16(x % 0x1_0000, false)
  }

  function Read16(b: seq<Byte>, little: bool): U16
    requires |b| == 2
  {
    var first: int, second: int := b[0], b[1];
    if little then first + 0x100 * second else 0x100 * first + second
  }

  function Read32(b: seq<Byte>, little: bool): U32
    requires |b| == 4
  {
    if little then Read16(b[..2], true) + 0x1_0000 * Read16(b[2..], true)
    else 0x1_0000 * Read16(b[..2], false) + Read16(b[2..], false)
  }

  function FromBytes(b: seq<Byte>, little: bool): Header
    requires |b| == 8
  {
    Header(Read16(b[..2], little), Read16(b[2..4], little), Read32(b[4..], little))
  }

  /** ConvertByteOrder: nothing when the host already has the wire's order, else every field reversed. */
  function Convert(b: seq<Byte>, host: bool, wire: bool): (r: seq<Byte>)
    requires |b| == 8
    ensures |r| == 8
  {
    if host == wire then b else [b[1], b[0], b[3], b[2], b[7], b[6], b[5], b[4]]
  }

  lemma ReadBack(h: Header, little: bool)
    ensures FromBytes(ToBytes(h, little), little) == h
  {
    var b := ToBytes(h, little);
    assert b[..2] == Bytes16(h.size, little);
    assert b[2..4] == Bytes16(h.msgType, little);
    assert b[4..] == Bytes32(h.ackSeq, little);
    assert b[4..][..2] == b[4..6] && b[4..][2..] == b[6..];
  }

  lemma WriteBack(b: seq<Byte>, little: bool)
    requires |b| == 8
    ensures ToBytes(FromBytes(b, little), little) == b
  {
    Bytes16Back(b[..2], little);
    Bytes16Back(b[2..4], little);
    Bytes32Back(b[4..], little);
    hide Bytes16, Bytes32, Read16, Read32;
    assert b == b[..2] + b[2..4] + b[4..];
  }

  lemma Bytes16Back(b: seq<Byte>, little: bool)
    requires |b| == 2
    ensures Bytes16(Read16(b, little), little) == b
  {
  }

  lemma Bytes32Back(b: seq<Byte>, little: bool)
    requires |b| == 4
    ensures Bytes32(Read32(b, little), little) == b
  {
    Bytes16Back(b[..2], little);
    Bytes16Back(b[2..], little);
    hide Bytes16, Read16;
    var x := Read32(b, little);
    if little {
      assert x % 0x1_0000 == Read16(b[..2], true) && x / 0x1_0000 == Read16(b[2..], true);
    } else {
      assert x / 0x1_0000 == Read16(b[..2], false) && x % 0x1_0000 == Read16(b[2..], false);
    }
    assert b == b[..2] + b[2..];
  }

  function ValueAt(b: seq<Byte>, i: nat): int
    requires i < |b|
  {
    b[i]
  }

  /** Where the fields of a header lie: its size in bytes 0 and 1, its type in 2 and 3, its acknowledgement in 4 to 7, the
      lowest byte of each first or last. */
  lemma HeaderLayout(h: Header, little: bool)
    ensures var b := ToBytes(h, little);
      if little then
        && h.size == ValueAt(b, 0) + 0x100 * ValueAt(b, 1) && h.msgType == ValueAt(b, 2) + 0x100 * ValueAt(b, 3)
        && h.ackSeq == ValueAt(b, 4) + 0x100 * ValueAt(b, 5) + 0x1_0000 * ValueAt(b, 6) + 0x100_0000 * ValueAt(b, 7)
      else
        && h.size == 0x100 * ValueAt(b, 0) + ValueAt(b, 1) && h.msgType == 0x100 * ValueAt(b, 2) + ValueAt(b, 3)
        && h.ackSeq == 0x100_0000 * ValueAt(b, 4) + 0x1_0000 * ValueAt(b, 5) + 0x100 * ValueAt(b, 6) + ValueAt(b, 7)
  {
    Layout16(h.size, little);
    Layout16(h.msgType, little);
    Layout32(h.ackSeq, little);
    hide Bytes16, Bytes32;
    var b := ToBytes(h, little);
    assert b[0] == Bytes16(h.size, little)[0] && b[1] == Bytes16(h.size, little)[1];
    assert b[2] == Bytes16(h.msgType, little)[0] && b[3] == Bytes16(h.msgType, little)[1];
    assert forall i :: 0 <= i < 4 ==> b[4 + i] == Bytes32(h.ackSeq, little)[i];
  }

  lemma Layout16(x: U16, little: bool)
    ensures var b := Bytes16(x, little);
      x == if little then ValueAt(b, 0) + 0x100 * ValueAt(b, 1) else 0x100 * ValueAt(b, 0) + ValueAt(b, 1)
  {
  }

  lemma Layout32(x: U32, little: bool)
    ensures var b := Bytes32(x, little);
      x == if little then ValueAt(b, 0) + 0x100 * ValueAt(b, 1) + 0x1_0000 * ValueAt(b, 2) + 0x100_0000 * ValueAt(b, 3)
                  else 0x100_0000 * ValueAt(b, 0) + 0x1_0000 * ValueAt(b, 1) + 0x100 * ValueAt(b, 2) + ValueAt(b, 3)
  {
    Layout16(x % 0x1_0000, little);
    Layout16(x / 0x1_0000, little);
  }

  /** Converting a wire header in place lets the host read it, and converting a host header in place
      puts it in wire order; converting twice restores the bytes, so it must happen exactly once. */
  lemma ConvertReads(b: seq<Byte>, host: bool, wire: bool)
    requires |b| == 8
    ensures FromBytes(Convert(b, host, wire), host) == FromBytes(b, wire)
    ensures FromBytes(Convert(b, host, wire), wire) == FromBytes(b, host)
    ensures Convert(Convert(b, host, wire), host, wire) == b
  {
    if host != wire {
      var c := Convert(b, host, wire);
      Reverse16(c[..2], b[..2]);
      Reverse16(c[2..4], b[2..4]);
      Reverse32(c[4..], b[4..]);
    }
  }

  lemma Reverse16(c: seq<Byte>, b: seq<Byte>)
    requires |b| == |c| == 2 && c == [b[1], b[0]]
    ensures Read16(c, true) == Read16(b, false) && Read16(c, false) == Read16(b, true)
  {
  }

  lemma Reverse32(c: seq<Byte>, b: seq<Byte>)
    requires |b| == |c| == 4 && c == [b[3], b[2], b[1], b[0]]
    ensures Read32(c, true) == Read32(b, false) && Read32(c, false) == Read32(b, true)
  {
    Reverse16(c[..2], b[2..]);
    Reverse16(c[2..], b[..2]);
  }

  /** (size + 7) / 8: the fewest blocks that hold so many bytes. */
  function BlocksFor(size: nat): (blocks: nat)
    ensures size <= 8 * blocks < size + 8
  {
    (size + 7) / 8
  }

  /** (size + 7) & -8: the size rounded up to whole blocks. */
  function Padded(size: nat): (n: nat)
    ensures size <= n < size + 8 && n % 8 == 0
  {
    8 * BlocksFor(size)
  }

  /** A message: its header and the bytes that follow it, rounding bytes included. */
  datatype Msg = Msg(header: Header, body: seq<Byte>) {
    /** The body fills the header's size rounded up to whole blocks; only a size of 0 is impossible. */
    predicate Wf() {
      8 + |body| == Padded(header.size)
    }

    function Len(): nat {
      8 + |body|
    }

    predicate IsHeartbeat() {
      header.msgType == 0
    }
  }

  function Heartbeat(ack: U32): Msg {
    Msg(Header(8, 0, ack), [])
  }

  /** Heartbeats are the messages of type 0. On the wire: eight bytes, the size 8 among them, type 0, and the acknowledgement. */
  lemma HeartbeatBytes(ack: U32, wire: bool)
    ensures forall m: Msg :: m.IsHeartbeat() <==> m.header.msgType == 0
    ensures Heartbeat(ack).IsHeartbeat() && Heartbeat(ack).Wf() && Heartbeat(ack).header.ackSeq == ack
    ensures var b := Encode(Heartbeat(ack), wire);
      |b| == 8 && b[..4] == if wire then [8, 0, 0, 0] else [0, 8, 0, 0]
  {
  }

  predicate AllWf(ms: seq<Msg>) {
    forall i :: 0 <= i < |ms| ==> ms[i].Wf()
  }

  /** Heartbeats are bare headers. */
  predicate PlainHeartbeats(ms: seq<Msg>) {
    forall i :: 0 <= i < |ms| && ms[i].IsHeartbeat() ==> ms[i].body == []
  }

  function Encode(m: Msg, wire: bool): (r: seq<Byte>)
    ensures |r| == m.Len()
  {
    ToBytes(m.header, wire) + m.body
  }

  function EncodeAll(ms: seq<Msg>, wire: bool): (r: seq<Byte>)
    ensures |r| == TotalLen(ms)
  {
    if ms == [] then [] else Encode(ms[0], wire) + EncodeAll(ms[1..], wire)
  }

  function TotalLen(ms: seq<Msg>): nat {
    if ms == [] then 0 else ms[0].Len() + TotalLen(ms[1..])
  }

  function TotalBlocks(ms: seq<Msg>): nat {
    if ms == [] then 0 else BlocksFor(ms[0].header.size) + TotalBlocks(ms[1..])
  }

  lemma {:induction false} EncodeConcat(a: seq<Msg>, b: seq<Msg>, wire: bool)
    ensures EncodeAll(a + b, wire) == EncodeAll(a, wire) + EncodeAll(b, wire)
    ensures TotalLen(a + b) == TotalLen(a) + TotalLen(b)
    ensures TotalBlocks(a + b) == TotalBlocks(a) + TotalBlocks(b)
    decreases |a|
  {
    if a == [] {
      assert a + b == b;
    } else {
      assert (a + b)[1..] == a[1..] + b;
      EncodeConcat(a[1..], b, wire);
    }
  }

  lemma {:induction false} BlocksAreBytes(ms: seq<Msg>)
    requires AllWf(ms)
    ensures TotalLen(ms) == 8 * TotalBlocks(ms)
    ensures |ms| <= TotalBlocks(ms)
    decreases |ms|
  {
    if ms != [] {
      BlocksAreBytes(ms[1..]);
    }
  }
}
