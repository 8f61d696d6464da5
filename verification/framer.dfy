/** The reference parser: which messages a byte stream holds, and which acknowledgements its headers carry. */
module Framer {
  import opened Word32
  import opened MsgHeaders

  function HeaderOf(raw: seq<Byte>, wire: bool): Header
    requires |raw| >= 8
  {
    FromBytes(raw[..8], wire)
  }

  function FrameLen(raw: seq<Byte>, wire: bool): nat
    requires |raw| >= 8
  {
    Padded(HeaderOf(raw, wire).size)
  }

  predicate HasFrame(raw: seq<Byte>, wire: bool) {
    |raw| >= 8 && 8 <= FrameLen(raw, wire) <= |raw|
  }

  function FirstFrame(raw: seq<Byte>, wire: bool): (m: Msg)
    requires HasFrame(raw, wire)
    ensures m.Wf() && m.Len() == FrameLen(raw, wire)
    ensures Encode(m, wire) + raw[m.Len()..] == raw
  {
    FirstFrameBytes(raw, wire);
    Msg(HeaderOf(raw, wire), raw[8..FrameLen(raw, wire)])
  }

  lemma FirstFrameBytes(raw: seq<Byte>, wire: bool)
    requires HasFrame(raw, wire)
    ensures var n := FrameLen(raw, wire);
      ToBytes(HeaderOf(raw, wire), wire) + raw[8..n] + raw[n..] == raw
  {
    hide FromBytes, ToBytes;
    WriteBack(raw[..8], wire);
    assert raw == raw[..8] + raw[8..];
  }

  /** All complete messages of a stream, in order. */
  function Parse(raw: seq<Byte>, wire: bool): (ms: seq<Msg>)
    ensures AllWf(ms)
    decreases |raw|
  {
    if HasFrame(raw, wire) then
      [FirstFrame(raw, wire)] + Parse(raw[FrameLen(raw, wire)..], wire)
    else []
  }

  /** The bytes after the last complete message. */
  function Rest(raw: seq<Byte>, wire: bool): (r: seq<Byte>)
    ensures |r| <= |raw|
    decreases |raw|
  {
    if HasFrame(raw, wire) then Rest(raw[FrameLen(raw, wire)..], wire) else raw
  }

  /** The acknowledgements of all complete headers, that of a message still missing body bytes included. */
  function Acks(raw: seq<Byte>, wire: bool): seq<U32>
    decreases |raw|
  {
    if |raw| < 8 then []
    else
      [HeaderOf(raw, wire).ackSeq] +
      (if HasFrame(raw, wire) then Acks(raw[FrameLen(raw, wire)..], wire) else [])
  }

  /** The application messages among ms, in order. */
  function Apps(ms: seq<Msg>): seq<Msg> {
    if ms == [] then []
    else (if ms[0].IsHeartbeat() then [] else [ms[0]]) + Apps(ms[1..])
  }

  lemma {:induction false} AppsConcat(a: seq<Msg>, b: seq<Msg>)
    ensures Apps(a + b) == Apps(a) + Apps(b)
    decreases |a|
  {
    if a == [] {
      assert a + b == b;
    } else {
      assert (a + b)[1..] == a[1..] + b;
      AppsConcat(a[1..], b);
    }
  }

  /** Re-encoding what was parsed gives the stream back: nothing is lost, invented or reordered. */
  lemma {:induction false} ParseKeepsBytes(raw: seq<Byte>, wire: bool)
    ensures EncodeAll(Parse(raw, wire), wire) + Rest(raw, wire) == raw
    ensures !HasFrame(Rest(raw, wire), wire)
    decreases |raw|
  {
    if HasFrame(raw, wire) {
      var n := FrameLen(raw, wire);
      ParseKeepsBytes(raw[n..], wire);
      assert Parse(raw, wire)[1..] == Parse(raw[n..], wire);
      assert EncodeAll(Parse(raw, wire), wire) + Rest(raw, wire)
          == Encode(FirstFrame(raw, wire), wire) + (EncodeAll(Parse(raw[n..], wire), wire) + Rest(raw[n..], wire));
    }
  }

  /** Bytes may arrive in any two pieces: parsing the first, then the leftover with the second, is parsing the whole. */
  lemma {:induction false} ParseAppend(a: seq<Byte>, b: seq<Byte>, wire: bool)
    ensures Parse(a + b, wire) == Parse(a, wire) + Parse(Rest(a, wire) + b, wire)
    ensures Rest(a + b, wire) == Rest(Rest(a, wire) + b, wire)
    decreases |a|
  {
    if HasFrame(a, wire) {
      AppendToFrame(a, b, wire);
      ParseAppend(a[FrameLen(a, wire)..], b, wire);
    }
  }

  lemma AppendToFrame(a: seq<Byte>, b: seq<Byte>, wire: bool)
    requires HasFrame(a, wire)
    ensures Parse(a + b, wire) == [FirstFrame(a, wire)] + Parse(a[FrameLen(a, wire)..] + b, wire)
    ensures Rest(a + b, wire) == Rest(a[FrameLen(a, wire)..] + b, wire)
  {
    hide FromBytes;
    var n := FrameLen(a, wire);
    assert (a + b)[..8] == a[..8];
    assert (a + b)[8..n] == a[8..n];
    assert (a + b)[n..] == a[n..] + b;
  }

  /** What the stream of a sender that puts the well-formed messages ms on the wire parses to. */
  lemma {:induction false} ParseEncoded(ms: seq<Msg>, tail: seq<Byte>, wire: bool)
    requires AllWf(ms)
    ensures Parse(EncodeAll(ms, wire) + tail, wire) == ms + Parse(tail, wire)
    ensures Rest(EncodeAll(ms, wire) + tail, wire) == Rest(tail, wire)
    ensures Acks(EncodeAll(ms, wire) + tail, wire) == AcksOf(ms) + Acks(tail, wire)
    decreases |ms|
  {
    if ms == [] {
      assert EncodeAll(ms, wire) + tail == tail;
    } else {
      ParseEncoded(ms[1..], tail, wire);
      PrependEncoded(ms, tail, wire);
      HeadAndRest(ms, Parse(tail, wire));
      HeadAndRest(AcksOf(ms), Acks(tail, wire));
    }
  }

  lemma HeadAndRest<T>(s: seq<T>, tail: seq<T>)
    requires s != []
    ensures s + tail == [s[0]] + (s[1..] + tail)
  {
  }

  lemma PrependEncoded(ms: seq<Msg>, tail: seq<Byte>, wire: bool)
    requires AllWf(ms) && ms != []
    ensures var raw, later := EncodeAll(ms, wire) + tail, EncodeAll(ms[1..], wire) + tail;
      && Parse(raw, wire) == [ms[0]] + Parse(later, wire)
      && Rest(raw, wire) == Rest(later, wire)
      && Acks(raw, wire) == [ms[0].header.ackSeq] + Acks(later, wire)
  {
    var later := EncodeAll(ms[1..], wire) + tail;
    assert EncodeAll(ms, wire) + tail == Encode(ms[0], wire) + later;
    EncodedFirst(ms[0], later, wire);
  }

  /** Every header announces a nonempty message, and heartbeats are bare headers. */
  predicate Proper(raw: seq<Byte>, wire: bool)
    decreases |raw|
  {
    |raw| >= 8 ==>
      && 8 <= FrameLen(raw, wire)
      && (HeaderOf(raw, wire).msgType == 0 ==> FrameLen(raw, wire) == 8)
      && (HasFrame(raw, wire) ==> Proper(raw[FrameLen(raw, wire)..], wire))
  }

  /** Data cut short shows a prefix of the acknowledgements, and stays proper. */
  lemma {:induction false} AcksOfPrefix(raw: seq<Byte>, k: nat, wire: bool)
    requires k <= |raw|
    ensures Acks(raw[..k], wire) <= Acks(raw, wire)
    ensures Proper(raw, wire) ==> Proper(raw[..k], wire)
    decreases |raw|
  {
    hide FromBytes;
    if 8 <= k {
      assert raw[..k][..8] == raw[..8];
      var n := FrameLen(raw, wire);
      if 8 <= n <= k {
        assert raw[..k][n..] == raw[n..][..k - n];
        AcksOfPrefix(raw[n..], k - n, wire);
      }
    }
  }

  function AcksOf(ms: seq<Msg>): seq<U32> {
    if ms == [] then [] else [ms[0].header.ackSeq] + AcksOf(ms[1..])
  }

  lemma EncodedFirst(m: Msg, later: seq<Byte>, wire: bool)
    requires m.Wf()
    ensures var raw := Encode(m, wire) + later;
      && Parse(raw, wire) == [m] + Parse(later, wire)
      && Rest(raw, wire) == Rest(later, wire)
      && Acks(raw, wire) == [m.header.ackSeq] + Acks(later, wire)
  {
    var raw := Encode(m, wire) + later;
    assert raw[..8] == ToBytes(m.header, wire);
    ReadBack(m.header, wire);
    assert raw[8..m.Len()] == m.body;
    assert raw[m.Len()..] == later;
    assert FirstFrame(raw, wire) == m;
  }

  /** A message cut short by the end of the data yields no message, but its acknowledgement once the header is there. */
  lemma ParseCut(m: Msg, k: nat, wire: bool)
    requires m.Wf() && k < m.Len()
    ensures var cut := Encode(m, wire)[..k];
      Parse(cut, wire) == [] && Rest(cut, wire) == cut &&
      Acks(cut, wire) == if k < 8 then [] else [m.header.ackSeq]
  {
    var cut := Encode(m, wire)[..k];
    if 8 <= k {
      assert cut[..8] == ToBytes(m.header, wire);
      ReadBack(m.header, wire);
    }
  }

  /** How many of the messages ms lie whole within the first n bytes of their encoding, and how many headers do. */
  function WholeIn(ms: seq<Msg>, n: nat): (j: nat)
    ensures j <= |ms|
    decreases |ms|
  {
    if ms == [] || n < ms[0].Len() then 0 else 1 + WholeIn(ms[1..], n - ms[0].Len())
  }

  function HeadersIn(ms: seq<Msg>, n: nat): (j: nat)
    ensures j <= |ms|
    decreases |ms|
  {
    if ms == [] || n < 8 then 0 else if n < ms[0].Len() then 1 else 1 + HeadersIn(ms[1..], n - ms[0].Len())
  }

  /** A stream cut anywhere parses to the messages it holds whole, and shows the acknowledgements of the headers it holds. */
  lemma {:induction false} CutStream(ms: seq<Msg>, n: nat, wire: bool)
    requires AllWf(ms) && n <= TotalLen(ms)
    ensures var raw := EncodeAll(ms, wire)[..n];
      && Parse(raw, wire) == ms[..WholeIn(ms, n)]
      && Acks(raw, wire) == AcksOf(ms[..HeadersIn(ms, n)])
    decreases |ms|
  {
    if ms != [] && n < ms[0].Len() {
      assert EncodeAll(ms, wire)[..n] == Encode(ms[0], wire)[..n];
      ParseCut(ms[0], n, wire);
      CutFirst(ms, n);
    } else if ms != [] {
      CutStream(ms[1..], n - ms[0].Len(), wire);
      CutLater(ms, n, wire);
    }
  }

  lemma CutFirst(ms: seq<Msg>, n: nat)
    requires ms != [] && n < ms[0].Len()
    ensures ms[..WholeIn(ms, n)] == []
    ensures AcksOf(ms[..HeadersIn(ms, n)]) == if n < 8 then [] else [ms[0].header.ackSeq]
  {
  }

  lemma CutLater(ms: seq<Msg>, n: nat, wire: bool)
    requires AllWf(ms) && ms != [] && ms[0].Len() <= n <= TotalLen(ms)
    ensures var raw, later := EncodeAll(ms, wire)[..n], EncodeAll(ms[1..], wire)[..n - ms[0].Len()];
      var j, k := WholeIn(ms[1..], n - ms[0].Len()), HeadersIn(ms[1..], n - ms[0].Len());
      && Parse(raw, wire) == [ms[0]] + Parse(later, wire)
      && Acks(raw, wire) == [ms[0].header.ackSeq] + Acks(later, wire)
      && ms[..WholeIn(ms, n)] == [ms[0]] + ms[1..][..j]
      && AcksOf(ms[..HeadersIn(ms, n)]) == [ms[0].header.ackSeq] + AcksOf(ms[1..][..k])
  {
    hide Parse, Rest, Acks, Encode, EncodeAll;
    var first := ms[0].Len();
    CutBytes(ms, n, wire);
    EncodedFirst(ms[0], EncodeAll(ms[1..], wire)[..n - first], wire);
    CutCounts(ms, n);
  }

  lemma CutBytes(ms: seq<Msg>, n: nat, wire: bool)
    requires ms != [] && ms[0].Len() <= n <= TotalLen(ms)
    ensures EncodeAll(ms, wire)[..n] == Encode(ms[0], wire) + EncodeAll(ms[1..], wire)[..n - ms[0].Len()]
  {
    hide Encode;
  }

  lemma CutCounts(ms: seq<Msg>, n: nat)
    requires ms != [] && ms[0].Len() <= n
    ensures var j, k := WholeIn(ms[1..], n - ms[0].Len()), HeadersIn(ms[1..], n - ms[0].Len());
      && ms[..WholeIn(ms, n)] == [ms[0]] + ms[1..][..j]
      && AcksOf(ms[..HeadersIn(ms, n)]) == [ms[0].header.ackSeq] + AcksOf(ms[1..][..k])
  {
    var k := HeadersIn(ms[1..], n - ms[0].Len());
    assert ms[..1 + k][1..] == ms[1..][..k];
  }

  /** Where the cut falls. */
  lemma {:induction false} CutPlace(ms: seq<Msg>, n: nat)
    requires n <= TotalLen(ms)
    ensures var j := WholeIn(ms, n);
      && TotalLen(ms[..j]) <= n
      && (if j < |ms| then n < TotalLen(ms[..j]) + ms[j].Len() else n == TotalLen(ms[..j]))
      && HeadersIn(ms, n) == j + if n - TotalLen(ms[..j]) >= 8 then 1 else 0
    decreases |ms|
  {
    if ms != [] && ms[0].Len() <= n {
      var j := WholeIn(ms[1..], n - ms[0].Len());
      CutPlace(ms[1..], n - ms[0].Len());
      assert ms[..1 + j][1..] == ms[1..][..j];
    } else {
      assert ms[..0] == [];
    }
  }

  /** A receiver that keeps only the leftover bytes between deliveries. */
  datatype Intake = Intake(done: seq<Msg>, rest: seq<Byte>)

  function Feed(s: Intake, chunk: seq<Byte>, wire: bool): Intake {
    Intake(s.done + Parse(s.rest + chunk, wire), Rest(s.rest + chunk, wire))
  }

  function FeedAll(s: Intake, chunks: seq<seq<Byte>>, wire: bool): Intake
    decreases |chunks|
  {
    if chunks == [] then s else FeedAll(Feed(s, chunks[0], wire), chunks[1..], wire)
  }

  function Glued(chunks: seq<seq<Byte>>): seq<Byte> {
    if chunks == [] then [] else chunks[0] + Glued(chunks[1..])
  }

  function Whole(raw: seq<Byte>, wire: bool): Intake {
    Intake(Parse(raw, wire), Rest(raw, wire))
  }

  lemma FeedIsParse(raw: seq<Byte>, chunk: seq<Byte>, wire: bool)
    ensures Feed(Whole(raw, wire), chunk, wire) == Whole(raw + chunk, wire)
  {
    ParseAppend(raw, chunk, wire);
  }

  /** However the stream is cut into chunks, the messages and the leftover are those of the whole stream. */
  lemma {:induction false} ChunkingIrrelevant(raw: seq<Byte>, chunks: seq<seq<Byte>>, wire: bool)
    ensures FeedAll(Whole(raw, wire), chunks, wire) == Whole(raw + Glued(chunks), wire)
    decreases |chunks|
  {
    if chunks == [] {
      assert raw + Glued(chunks) == raw;
    } else {
      FeedIsParse(raw, chunks[0], wire);
      ChunkingIrrelevant(raw + chunks[0], chunks[1..], wire);
      assert raw + chunks[0] + Glued(chunks[1..]) == raw + Glued(chunks);
    }
  }
}
