/** The protocol's frames are the connection's bytes: a send of any number of bytes is a Send step, a heartbeat a Beat or
    Tear step, and Front on any chunk of the peer's stream is a Recv step. */
module RecoveryWire {
  import opened Word32
  import opened MsgHeaders
  import opened PtcpQueueSpec
  import opened Framer
  import opened RecoveryNode
  import opened RecoverySteps
  import opened RecoveryProtocol

  // ---- streams cut anywhere ----

  /** The first j messages and a piece of the next. */
  function Cut(ms: seq<Msg>, j: nat, part: nat, wire: bool): seq<Byte>
    requires j <= |ms| && (part > 0 ==> j < |ms| && part < ms[j].Len())
  {
    EncodeAll(ms[..j], wire) + if part > 0 then Encode(ms[j], wire)[..part] else []
  }

  lemma SplitAt(ms: seq<Msg>, j: nat, wire: bool)
    requires j <= |ms|
    ensures EncodeAll(ms, wire) == EncodeAll(ms[..j], wire) + EncodeAll(ms[j..], wire)
    ensures TotalLen(ms) == TotalLen(ms[..j]) + TotalLen(ms[j..])
  {
    hide EncodeAll, TotalLen, TotalBlocks;
    assert ms == ms[..j] + ms[j..];
    EncodeConcat(ms[..j], ms[j..], wire);
  }

  lemma CutIsPrefix(ms: seq<Msg>, j: nat, part: nat, wire: bool)
    requires j <= |ms| && (part > 0 ==> j < |ms| && part < ms[j].Len())
    ensures TotalLen(ms[..j]) + part <= TotalLen(ms)
    ensures Cut(ms, j, part, wire) == EncodeAll(ms, wire)[..TotalLen(ms[..j]) + part]
  {
    hide Encode;
    SplitAt(ms, j, wire);
    if part > 0 {
      FirstBytes(ms[j..], part, wire);
    }
    hide EncodeAll, TotalLen;
    var a, b := EncodeAll(ms[..j], wire), EncodeAll(ms[j..], wire);
    assert (a + b)[..|a| + part] == a + b[..part];
  }

  lemma FirstBytes(ms: seq<Msg>, part: nat, wire: bool)
    requires ms != [] && part < ms[0].Len()
    ensures part <= TotalLen(ms) && EncodeAll(ms, wire)[..part] == Encode(ms[0], wire)[..part]
  {
    hide Encode;
  }

  /** What is left over after the whole messages of a cut stream. */
  lemma {:induction false} CutRest(ms: seq<Msg>, n: nat, wire: bool)
    requires AllWf(ms) && n <= TotalLen(ms)
    ensures var j := WholeIn(ms, n);
      && 0 <= n - TotalLen(ms[..j]) <= TotalLen(ms[j..])
      && Rest(EncodeAll(ms, wire)[..n], wire) == EncodeAll(ms[j..], wire)[..n - TotalLen(ms[..j])]
    decreases |ms|
  {
    hide Parse, Acks, Rest, Encode, HasFrame;
    if ms != [] && n < ms[0].Len() {
      assert ms[..0] == [] && ms[0..] == ms;
      CutShort(ms, n, wire);
    } else if ms != [] {
      CutRest(ms[1..], n - ms[0].Len(), wire);
      CutBytes(ms, n, wire);
      EncodedFirst(ms[0], EncodeAll(ms[1..], wire)[..n - ms[0].Len()], wire);
      var j := WholeIn(ms[1..], n - ms[0].Len());
      assert ms[..1 + j][1..] == ms[1..][..j] && ms[1 + j..] == ms[1..][j..];
    } else {
      assert ms[..0] == [] && ms[0..] == [];
      RestOfNothing(wire);
    }
  }

  lemma RestOfNothing(wire: bool)
    ensures Rest([], wire) == [] == EncodeAll([], wire)
  {
  }

  lemma CutShort(ms: seq<Msg>, n: nat, wire: bool)
    requires ms != [] && ms[0].Wf() && n < ms[0].Len() && n <= TotalLen(ms)
    ensures Rest(EncodeAll(ms, wire)[..n], wire) == EncodeAll(ms, wire)[..n]
  {
    hide Parse, Acks, Rest, Encode, HasFrame;
    FirstBytes(ms, n, wire);
    ParseCut(ms[0], n, wire);
  }

  lemma TailOfTake<T>(ms: seq<T>, j: nat)
    requires j < |ms|
    ensures ms[..1 + j][1..] == ms[1..][..j] && ms[1 + j..] == ms[1..][j..]
    ensures ms[..1 + j] != [] && ms[..1 + j][0] == ms[0]
  {
  }

  lemma TotalOfTake(ms: seq<Msg>, j: nat)
    requires j < |ms|
    ensures TotalLen(ms[..1 + j]) == ms[0].Len() + TotalLen(ms[1..][..j])
  {
    TailOfTake(ms, j);
  }

  /** Counting on from the whole messages. */
  lemma {:induction false} CountOn(ms: seq<Msg>, a: nat, b: nat)
    requires a <= b
    ensures var j := WholeIn(ms, a);
      && TotalLen(ms[..j]) <= a
      && WholeIn(ms, b) == j + WholeIn(ms[j..], b - TotalLen(ms[..j]))
      && HeadersIn(ms, b) == j + HeadersIn(ms[j..], b - TotalLen(ms[..j]))
    decreases |ms|
  {
    hide TotalLen, WholeIn, HeadersIn;
    if ms != [] && ms[0].Len() <= a {
      var j := WholeIn(ms[1..], a - ms[0].Len());
      CountOn(ms[1..], a - ms[0].Len(), b - ms[0].Len());
      CountFirst(ms, a);
      CountFirst(ms, b);
      TailOfTake(ms, j);
      TotalOfTake(ms, j);
    } else {
      CountNone(ms, a);
      NoMessages(ms, true);
      assert ms[0..] == ms;
    }
  }

  lemma CountFirst(ms: seq<Msg>, n: nat)
    requires ms != [] && ms[0].Len() <= n
    ensures WholeIn(ms, n) == 1 + WholeIn(ms[1..], n - ms[0].Len())
    ensures HeadersIn(ms, n) == 1 + HeadersIn(ms[1..], n - ms[0].Len())
  {
  }

  lemma CountNone(ms: seq<Msg>, n: nat)
    requires ms == [] || n < ms[0].Len()
    ensures WholeIn(ms, n) == 0
  {
  }

  /** Reading on: the leftover of the first a bytes with the bytes up to b parses to the messages that became whole, and
      shows the acknowledgements from the message left over on. */
  lemma ReadOn(ms: seq<Msg>, a: nat, b: nat, wire: bool)
    requires AllWf(ms) && a <= b <= TotalLen(ms)
    ensures var raw := EncodeAll(ms, wire);
      var data := Rest(raw[..a], wire) + raw[a..b];
      && WholeIn(ms, a) <= WholeIn(ms, b) <= HeadersIn(ms, b) <= |ms|
      && Parse(data, wire) == ms[WholeIn(ms, a)..WholeIn(ms, b)]
      && Acks(data, wire) == AcksOf(ms[WholeIn(ms, a)..HeadersIn(ms, b)])
      && (PlainHeartbeats(ms) ==> Proper(data, wire))
  {
    hide EncodeAll, TotalLen, Parse, Acks, Rest, AcksOf, Proper, WholeIn, HeadersIn, AllWf, PlainHeartbeats;
    var j := WholeIn(ms, a);
    LaterWf(ms, j);
    var used, later := TotalLen(ms[..j]), ms[j..];
    CutRest(ms, a, wire);
    SplitAt(ms, j, wire);
    CountOn(ms, a, b);
    CutPlace(later, b - used);
    BytesOn(EncodeAll(ms[..j], wire), EncodeAll(later, wire), a, b);
    CutStream(later, b - used, wire);
    ProperCut(later, b - used, wire);
    var k, h := WholeIn(later, b - used), HeadersIn(later, b - used);
    SliceOfSuffix(ms, j, k);
    SliceOfSuffix(ms, j, h);
  }

  lemma SliceOfSuffix<T>(s: seq<T>, j: nat, k: nat)
    requires j + k <= |s|
    ensures s[j..][..k] == s[j..j + k]
  {
  }

  lemma LaterWf(ms: seq<Msg>, j: nat)
    requires AllWf(ms) && j <= |ms|
    ensures AllWf(ms[j..]) && (PlainHeartbeats(ms) ==> PlainHeartbeats(ms[j..]))
  {
  }

  lemma BytesOn(first: seq<Byte>, later: seq<Byte>, a: nat, b: nat)
    requires |first| <= a <= b <= |first| + |later|
    ensures later[..a - |first|] + (first + later)[a..b] == later[..b - |first|]
  {
  }

  lemma {:induction false} ProperCut(ms: seq<Msg>, n: nat, wire: bool)
    requires AllWf(ms) && n <= TotalLen(ms)
    ensures PlainHeartbeats(ms) ==> Proper(EncodeAll(ms, wire)[..n], wire)
    decreases |ms|
  {
    if PlainHeartbeats(ms) && 8 <= n {
      ProperAll(ms, wire);
      AcksOfPrefix(EncodeAll(ms, wire), n, wire);
    }
  }

  lemma {:induction false} ProperAll(ms: seq<Msg>, wire: bool)
    requires AllWf(ms) && PlainHeartbeats(ms)
    ensures Proper(EncodeAll(ms, wire), wire)
    decreases |ms|
  {
    if ms != [] {
      ProperAll(ms[1..], wire);
      ProperEncoded(ms[0], EncodeAll(ms[1..], wire), wire);
    }
  }

  lemma ProperEncoded(m: Msg, later: seq<Byte>, wire: bool)
    requires m.Wf() && (m.IsHeartbeat() ==> m.Len() == 8) && Proper(later, wire)
    ensures Proper(Encode(m, wire) + later, wire)
  {
    hide FromBytes, ToBytes;
    var raw := Encode(m, wire) + later;
    assert raw[..8] == ToBytes(m.header, wire);
    ReadBack(m.header, wire);
    assert raw[m.Len()..] == later;
  }

  // ---- sending ----

  /** At most one frame is on the wire in part: a message being sent, or a heartbeat that broke the connection. */
  ghost predicate Partial(x: Node) {
    && (x.s.part > 0 ==> x.s.next < |x.f.hist| && x.s.part < x.f.hist[x.s.next].Len())
    && (x.s.torn > 0 ==> x.s.part == 0 && x.s.torn < 8)
  }

  /** That frame, if there is one, and how much of it there is. */
  function Piece(x: Node): seq<Msg>
    requires Partial(x)
  {
    if x.s.part > 0 then [x.f.hist[x.s.next]] else if x.s.torn > 0 then [Heartbeat(x.s.tornAck)] else []
  }

  function PieceLen(x: Node): (n: nat)
    requires Partial(x)
    ensures n > 0 <==> Piece(x) != []
    ensures n > 0 ==> n < Piece(x)[0].Len()
  {
    x.s.part + x.s.torn
  }

  /** The bytes node x has put on its connection. */
  function OnWire(x: Node, wire: bool): (r: seq<Byte>)
    requires Partial(x)
    ensures |r| == WireLen(x)
  {
    EncodeAll(x.s.done, wire) + if PieceLen(x) > 0 then Encode(Piece(x)[0], wire)[..PieceLen(x)] else []
  }

  function WireLen(x: Node): nat
    requires Partial(x)
  {
    TotalLen(x.s.done) + PieceLen(x)
  }

  /** The queue's unsent bytes are those of the session from the wire's position on. */
  lemma UnsentIsRest(x: Node, cap: nat, wire: bool)
    requires FileInv(x.f, cap) && SendInv(x) && Stream(x) && x.s.open
    ensures 0 <= 8 * x.f.q.sent <= TotalLen(x.f.q.msgs) && x.s.part <= TotalLen(x.f.hist[x.s.next..]) && x.s.torn == 0
    ensures Unsent(x.f.q, wire) == EncodeAll(x.f.hist[x.s.next..], wire)[x.s.part..]
  {
    hide EncodeAll, TotalLen, TotalBlocks, HistInv, Wrap, Diff, FrameOk, Apps;
    var h, r, n := x.f.hist, x.f.read, x.s.next;
    assert h[r..][n - r..] == h[n..] && h[r..][..n - r] == h[r..n];
    SplitAt(h[r..], n - r, wire);
    BlocksAreBytes(x.f.q.msgs);
    if x.s.part > 0 {
      PartBound(h[n..], x.s.part);
    }
    BeyondPrefix(EncodeAll(h[r..n], wire), EncodeAll(h[n..], wire), 8 * x.f.q.sent);
  }

  lemma PartBound(ms: seq<Msg>, part: nat)
    requires ms != [] && part < ms[0].Len()
    ensures part <= TotalLen(ms)
  {
  }

  lemma Append<T>(e: seq<T>, p: nat, n: nat)
    requires p + n <= |e|
    ensures e[..p] + e[p..][..n] == e[..p + n]
  {
  }

  /** A Send step puts exactly the next SentBytes bytes of the queue on the wire. */
  lemma SendPutsBytes(x: Node, cap: nat, whole: nat, part: nat, broke: bool, wire: bool)
    requires FileInv(x.f, cap) && SendInv(x) && Stream(x) && CanSendN(x, whole, part, broke)
    ensures 0 <= 8 * x.f.q.sent <= TotalLen(x.f.q.msgs) && 0 <= SentBytes(x, whole, part) <= |Unsent(x.f.q, wire)|
    ensures Partial(SendN(x, whole, part, broke))
    ensures OnWire(SendN(x, whole, part, broke), wire) == OnWire(x, wire) + Unsent(x.f.q, wire)[..SentBytes(x, whole, part)]
  {
    hide EncodeAll, TotalLen, TotalBlocks, FileInv, SendInv, FrameOk, Apps, Encode, AllWf, Unsent, QSendout;
    var n := x.s.next;
    var later := x.f.hist[n..];
    UnsentIsRest(x, cap, wire);
    SentForward(x, whole, part);
    assert later[..whole] == x.f.hist[n..n + whole];
    CutsOf(later, x.s.part, whole, part, SentBytes(x, whole, part), wire);
    EncodeConcat(x.s.done, later[..whole], wire);
    AfterSend(x, whole, part, broke, wire);
    Chain(EncodeAll(x.s.done, wire), Cut(later, 0, x.s.part, wire), EncodeAll(later, wire)[x.s.part..],
          SentBytes(x, whole, part), Cut(later, whole, part, wire));
  }

  lemma Chain<T>(done: seq<T>, was: seq<T>, pending: seq<T>, n: nat, now: seq<T>)
    requires n <= |pending| && was + pending[..n] == now
    ensures done + was + pending[..n] == done + now
  {
    assert done + was + pending[..n] == done + (was + pending[..n]);
  }

  lemma CutsOf(later: seq<Msg>, from: nat, whole: nat, part: nat, n: nat, wire: bool)
    requires whole <= |later| && (from > 0 ==> later != [] && from < later[0].Len())
    requires part > 0 ==> whole < |later| && part < later[whole].Len()
    requires from + n == TotalLen(later[..whole]) + part
    ensures from <= TotalLen(later) && n <= |EncodeAll(later, wire)[from..]|
    ensures Cut(later, 0, from, wire) + EncodeAll(later, wire)[from..][..n] == Cut(later, whole, part, wire)
  {
    hide EncodeAll, TotalLen, Encode, Cut;
    NoMessages(later, wire);
    CutIsPrefix(later, 0, from, wire);
    CutIsPrefix(later, whole, part, wire);
    Append(EncodeAll(later, wire), from, n);
  }

  /** The wire, before and after, as the frames done and a cut of the session's later messages. */
  lemma AfterSend(x: Node, whole: nat, part: nat, broke: bool, wire: bool)
    requires Stream(x) && CanSendN(x, whole, part, broke) && x.s.torn == 0
    ensures var later := x.f.hist[x.s.next..];
      && Partial(SendN(x, whole, part, broke))
      && OnWire(x, wire) == EncodeAll(x.s.done, wire) + Cut(later, 0, x.s.part, wire)
      && OnWire(SendN(x, whole, part, broke), wire)
         == EncodeAll(x.s.done, wire) + Cut(later, whole, part, wire)
  {
    hide EncodeAll, TotalLen, Stream, Encode, QSendout, Cut;
    StreamPartial(x);
    var n := x.s.next;
    var later := x.f.hist[n..];
    LaterRange(x.f.hist, n, whole);
    CutIs(later, 0, x.s.part, wire);
    CutIs(later, whole, part, wire);
    NoMessages(later, wire);
    EncodeConcat(x.s.done, later[..whole], wire);
    var piece := if part > 0 then Encode(later[whole], wire)[..part] else [];
    Assoc(EncodeAll(x.s.done, wire), EncodeAll(later[..whole], wire), piece);
  }

  lemma StreamPartial(x: Node)
    requires Stream(x)
    ensures Partial(x) && |x.f.hist| == |x.f.at| && x.s.next <= |x.f.hist|
  {
  }

  lemma LaterRange<T>(h: seq<T>, n: nat, whole: nat)
    requires n + whole <= |h|
    ensures h[n..][..whole] == h[n..n + whole]
    ensures n + whole < |h| ==> h[n..][whole] == h[n + whole]
    ensures n < |h| ==> h[n..][0] == h[n]
  {
  }

  lemma CutIs(ms: seq<Msg>, j: nat, part: nat, wire: bool)
    requires j <= |ms| && (part > 0 ==> j < |ms| && part < ms[j].Len())
    ensures Cut(ms, j, part, wire) == EncodeAll(ms[..j], wire) + if part > 0 then Encode(ms[j], wire)[..part] else []
  {
  }

  lemma Assoc<T>(a: seq<T>, b: seq<T>, c: seq<T>)
    ensures a + b + c == a + (b + c)
  {
  }

  lemma NoMessages(ms: seq<Msg>, wire: bool)
    ensures EncodeAll(ms[..0], wire) == [] && TotalLen(ms[..0]) == 0
  {
  }

  lemma SentForward(x: Node, whole: nat, part: nat)
    requires x.s.next + whole <= |x.f.hist| && (whole == 0 ==> x.s.part <= part)
    requires x.s.part > 0 ==> x.s.next < |x.f.hist| && x.s.part < x.f.hist[x.s.next].Len()
    ensures 0 <= SentBytes(x, whole, part)
  {
    if whole > 0 {
      assert x.f.hist[x.s.next..x.s.next + whole][0] == x.f.hist[x.s.next];
    }
  }

  /** However many of the pending bytes the kernel takes, it is a Send step. */
  lemma AnyCountIsSend(x: Node, cap: nat, n: nat, wire: bool)
    requires FileInv(x.f, cap) && SendInv(x) && Stream(x) && x.s.open
    requires 8 * x.f.q.sent <= TotalLen(x.f.q.msgs) && n <= |Unsent(x.f.q, wire)|
    ensures exists whole: nat, part: nat ::
      CanSendN(x, whole, part, part % 8 != 0) && SentBytes(x, whole, part) == n
  {
    hide EncodeAll, TotalLen, TotalBlocks, HistInv, Wrap, Diff, FrameOk, Apps, Encode, AllWf;
    UnsentIsRest(x, cap, wire);
    var later := x.f.hist[x.s.next..];
    var at := x.s.part + n;
    var whole := WholeIn(later, at);
    CutPlace(later, at);
    var part := at - TotalLen(later[..whole]);
    assert later[..whole] == x.f.hist[x.s.next..x.s.next + whole];
    NoMessages(later, wire);
    assert CanSendN(x, whole, part, part % 8 != 0) && SentBytes(x, whole, part) == n;
  }

  /** A heartbeat puts its eight bytes on the wire; a torn one its first bytes, and breaks the connection. */
  lemma BeatPutsBytes(x: Node, bytes: nat, wire: bool)
    requires Stream(x) && SendInv(x) && CanBeatN(x)
    ensures Partial(BeatN(x)) && OnWire(BeatN(x), wire) == OnWire(x, wire) + Encode(Heartbeat(x.f.q.ackSeq), wire)
    ensures CanTearN(x, bytes) ==> Partial(TearN(x, bytes))
    ensures CanTearN(x, bytes) ==>
      OnWire(TearN(x, bytes), wire) == OnWire(x, wire) + Encode(Heartbeat(x.f.q.ackSeq), wire)[..bytes]
  {
    hide Encode, FrameOk, Ascending, Apps;
    var m := Heartbeat(x.f.q.ackSeq);
    EncodeConcat(x.s.done, [m], wire);
    assert EncodeAll([m], wire) == Encode(m, wire) + [];
  }

  // ---- receiving ----

  /** All frames x has begun to send. */
  function Frames(x: Node): seq<Msg>
    requires Partial(x)
  {
    x.s.done + Piece(x)
  }

  lemma WireIsCut(x: Node, wire: bool)
    requires Partial(x)
    ensures WireLen(x) <= TotalLen(Frames(x))
    ensures OnWire(x, wire) == EncodeAll(Frames(x), wire)[..WireLen(x)]
    ensures x.s.done == Frames(x)[..|x.s.done|]
  {
    hide EncodeAll, TotalLen, Encode;
    assert Frames(x)[..|x.s.done|] == x.s.done;
    CutIsPrefix(Frames(x), |x.s.done|, PieceLen(x), wire);
  }

  lemma FramesWf(x: Node, cap: nat)
    requires FileInv(x.f, cap) && Stream(x)
    ensures AllWf(Frames(x)) && PlainHeartbeats(Frames(x))
  {
    hide Apps, Wrap, QValid, Ascending;
    forall i | 0 <= i < |x.s.done|
      ensures x.s.done[i].Wf() && (x.s.done[i].IsHeartbeat() ==> x.s.done[i].Len() == 8)
    {
      assert FrameOk(x, i);
      if !x.s.done[i].IsHeartbeat() {
        AppsHas(x.s.done, i);
      }
    }
  }

  lemma {:induction false} AppsHas(ms: seq<Msg>, i: nat)
    requires i < |ms| && !ms[i].IsHeartbeat()
    ensures ms[i] in Apps(ms)
    decreases |ms|
  {
    if i > 0 {
      AppsHas(ms[1..], i - 1);
    }
  }

  /** Front on the bytes [a, b) of the peer's stream, the first a of which were read before: the messages it completes and
      the acknowledgements it hears are those of a Recv step. */
  lemma ChunkIsRecv(x: Node, y: Node, cap: nat, a: nat, b: nat, wire: bool)
    requires FileInv(x.f, cap) && Stream(x) && y.s.open
    requires Partial(x) && a <= b <= WireLen(x) && y.s.seen == WholeIn(Frames(x), a)
    ensures var raw := OnWire(x, wire);
      var data := Rest(raw[..a], wire) + raw[a..b];
      var whole, header := WholeIn(Frames(x), b) - y.s.seen, HeadersIn(Frames(x), b) > WholeIn(Frames(x), b);
      && whole >= 0 && CanRecvN(x, y, whole, header)
      && Parse(data, wire) == x.s.done[y.s.seen..y.s.seen + whole]
      && Acks(data, wire) == AcksOf(Heard(x, y, whole, header))
      && Proper(data, wire)
  {
    hide EncodeAll, TotalLen, FrameOk, Apps, Encode, Parse, Acks, Rest, AcksOf, Proper, WholeIn, HeadersIn, AllWf, PlainHeartbeats;
    var frames, raw := Frames(x), OnWire(x, wire);
    FramesWf(x, cap);
    WireIsCut(x, wire);
    var all := EncodeAll(frames, wire);
    SameSlices(raw, all, a, b);
    ReadOn(frames, a, b, wire);
    CutInDone(x, b);
    var s, e, h := y.s.seen, WholeIn(frames, b), HeadersIn(frames, b);
    HeardIsRange(x, y, s, e, h);
  }

  lemma SameSlices<T>(raw: seq<T>, all: seq<T>, a: nat, b: nat)
    requires a <= b <= |raw| <= |all| && raw == all[..|raw|]
    ensures raw[..a] == all[..a] && raw[a..b] == all[a..b]
  {
  }

  /** The frames heard are a range of those begun. */
  lemma HeardIsRange(x: Node, y: Node, s: nat, e: nat, h: nat)
    requires Partial(x) && y.s.seen == s <= e <= |x.s.done| && (h == e || h == e + 1)
    requires h == e + 1 ==> e < |Frames(x)| && (e < |x.s.done| || x.s.part >= 8)
    requires CanRecvN(x, y, e - s, h > e)
    ensures h <= |Frames(x)| && Frames(x)[s..e] == x.s.done[s..e] && Heard(x, y, e - s, h > e) == Frames(x)[s..h]
  {
    RangeAcross(x.s.done, Piece(x), s, e);
  }

  lemma RangeAcross<T>(done: seq<T>, more: seq<T>, s: nat, e: nat)
    requires s <= e <= |done|
    ensures (done + more)[s..e] == done[s..e]
    ensures e < |done + more| ==> (done + more)[s..e + 1] == done[s..e] + [(done + more)[e]]
  {
  }

  /** A cut of the stream has whole messages among the done ones only. */
  lemma CutInDone(x: Node, b: nat)
    requires Partial(x) && b <= WireLen(x)
    ensures var e, h := WholeIn(Frames(x), b), HeadersIn(Frames(x), b);
      && e <= |x.s.done| && (h == e || h == e + 1)
      && (h == e + 1 ==> e < |Frames(x)| && (e < |x.s.done| || x.s.part >= 8))
  {
    hide TotalLen;
    var frames := Frames(x);
    var d := |x.s.done|;
    assert frames[..d] == x.s.done;
    FramesLen(x);
    CutPlace(frames, b);
    if PieceLen(x) > 0 {
      assert frames[..d + 1] == frames;
    }
  }

  lemma FramesLen(x: Node)
    requires Partial(x)
    ensures TotalLen(Frames(x)) == TotalLen(x.s.done) + if PieceLen(x) > 0 then Piece(x)[0].Len() else 0
  {
    EncodeConcat(x.s.done, Piece(x), true);
    if PieceLen(x) > 0 {
      assert Piece(x)[1..] == [];
    }
  }

  /** A running connection of an honest peer meets everything Front requires of its bytes. */
  lemma PeerKeepsProtocolAlways(x: Node, y: Node, cap: nat, a: nat, b: nat, wire: bool)
    requires Shared(y, x, cap, true) && y.s.open
    requires Partial(x) && a <= b <= WireLen(x) && y.s.seen == WholeIn(Frames(x), a)
    ensures var raw := OnWire(x, wire);
      var data := Rest(raw[..a], wire) + raw[a..b];
      Proper(data, wire) && AcksSafe(y.f.q, Acks(data, wire))
  {
    hide FileInv, Stream, Reading, Bounded, Half, OpenInv, EncodeAll, Parse, Acks, Rest, AcksOf, Proper, WholeIn, HeadersIn, AcksSafe;
    StreamOf(x, y, cap);
    ChunkIsRecv(x, y, cap, a, b, wire);
    HeardSafe(y, x, cap, WholeIn(Frames(x), b) - y.s.seen, HeadersIn(Frames(x), b) > WholeIn(Frames(x), b));
  }

  lemma StreamOf(x: Node, y: Node, cap: nat)
    requires Shared(y, x, cap, true)
    ensures Stream(x) && FileInv(x.f, cap)
  {
    hide FileInv, FrameOk;
  }

  /** The queue after a Recv step is the queue after hearing the acknowledgements one by one. */
  lemma {:induction false} FileHears(f: File, acks: seq<U32>)
    requires AcksSafe(f.q, acks)
    ensures FAckAll(f, acks).q == QAckAll(f.q, acks)
    decreases |acks|
  {
    if acks != [] {
      FileHears(FAck(f, acks[0]), acks[1..]);
    }
  }
}
