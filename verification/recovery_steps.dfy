/** Every step of a node keeps the node's invariants, and those it shares with its peer. */
module RecoverySteps {
  import opened Word32
  import opened MsgHeaders
  import opened PtcpQueueSpec
  import opened Framer
  import opened RecoveryNode

  // ---- push ----

  lemma PushKeepsFile(x: Node, cap: nat, m: Msg)
    requires FileInv(x.f, cap) && CanPushN(x, cap, m)
    ensures FileInv(PushN(x, m).f, cap)
  {
    hide TotalBlocks, TotalLen, Wrap, HistInv, Diff;
    var s := Stamped(m, x.f.q.ackSeq);
    var f' := PushN(x, m).f;
    EncodeConcat(x.f.q.msgs, [s], true);
    OneBlockCount(s);
    assert f'.q.msgs == f'.hist[f'.read..];
    PushKeepsHist(x, m);
  }

  lemma PushKeepsHist(x: Node, m: Msg)
    requires |x.f.hist| == |x.f.at| && HistInv(x.f) && !m.IsHeartbeat() && x.f.q.ackSeq == Wrap(|x.f.popped|)
    ensures HistInv(PushN(x, m).f)
  {
    hide Wrap;
  }

  lemma OneBlockCount(m: Msg)
    ensures TotalBlocks([m]) == BlocksFor(m.header.size)
  {
  }

  lemma PushKeepsStream(x: Node, m: Msg)
    ensures SendInv(x) ==> SendInv(PushN(x, m))
    ensures Stream(x) ==> Stream(PushN(x, m))
  {
    hide Apps, TotalLen;
    var x' := PushN(x, m);
    if SendInv(x) && x.s.open {
      assert x'.f.hist[x.f.read..x.s.next] == x.f.hist[x.f.read..x.s.next];
    }
    if Stream(x) {
      assert x'.f.hist[x.s.base..x.s.next] == x.f.hist[x.s.base..x.s.next];
      forall i | 0 <= i < |x.s.done|
        ensures FrameOk(x', i) && x.s.doneAt[i] <= |x.f.popped|
      {
        assert FrameOk(x, i);
      }
    }
  }

  /** The new message is stamped with our count, which the peer has not overtaken. */
  lemma PushKeepsReading(x: Node, y: Node, m: Msg)
    requires |x.f.hist| == |x.f.at| && y.f.read <= |x.f.popped|
    ensures Reading(x, y) ==> Reading(PushN(x, m), y)
  {
    hide Apps, Wrap;
  }

  // ---- pop ----

  lemma PopKeepsFile(x: Node, cap: nat)
    requires FileInv(x.f, cap) && CanPopN(x)
    ensures FileInv(PopN(x).f, cap)
  {
    hide TotalBlocks, Wrap, Diff;
    NextSeqWraps(|x.f.popped|);
  }

  lemma PopKeepsStream(x: Node)
    requires x.s.inbox != []
    ensures SendInv(x) ==> SendInv(PopN(x))
    ensures Stream(x) ==> Stream(PopN(x))
  {
    hide Apps, TotalLen;
    if Stream(x) {
      forall i | 0 <= i < |x.s.done|
        ensures FrameOk(PopN(x), i)
      {
        assert FrameOk(x, i);
      }
    }
  }

  lemma PopKeepsShared(x: Node, y: Node)
    requires x.s.inbox != []
    ensures InboxInv(y.f, x) ==> InboxInv(y.f, PopN(x)) && PopN(x).f.popped <= y.f.hist
    ensures |PopN(x).f.popped| + |PopN(x).s.inbox| == |x.f.popped| + |x.s.inbox|
  {
    var x' := PopN(x);
    assert x'.f.popped + x'.s.inbox == x.f.popped + x.s.inbox;
    if InboxInv(y.f, x) {
      PrefixOfPrefix(x'.f.popped, x'.s.inbox, y.f.hist);
    }
  }

  lemma PrefixOfPrefix<T>(a: seq<T>, b: seq<T>, c: seq<T>)
    requires a + b <= c
    ensures a <= c
  {
    assert a <= a + b;
  }

  // ---- send ----

  /** Lengths of adjacent runs of messages. */
  lemma Runs(ms: seq<Msg>, a: nat, b: nat, c: nat)
    requires a <= b <= c <= |ms| && AllWf(ms)
    ensures TotalLen(ms[a..c]) == TotalLen(ms[a..b]) + TotalLen(ms[b..c])
    ensures TotalLen(ms[a..b]) == 8 * TotalBlocks(ms[a..b])
    ensures TotalBlocks(ms[a..c]) == TotalBlocks(ms[a..b]) + TotalBlocks(ms[b..c])
  {
    hide TotalLen, TotalBlocks;
    assert ms[a..c] == ms[a..b] + ms[b..c];
    EncodeConcat(ms[a..b], ms[b..c], true);
    BlocksAreBytes(ms[a..b]);
  }

  lemma PieceFits(ms: seq<Msg>, a: nat, b: nat, part: nat)
    requires a <= b <= |ms| && AllWf(ms)
    requires if b < |ms| then part < ms[b].Len() else part == 0
    ensures TotalLen(ms[a..b]) + part <= 8 * TotalBlocks(ms[a..])
  {
    hide TotalBlocks;
    Runs(ms, a, b, |ms|);
    Runs(ms, a, |ms|, |ms|);
    assert ms[a..] == ms[a..|ms|];
    if b < |ms| {
      assert TotalLen(ms[b..|ms|]) >= ms[b].Len();
    }
  }

  lemma SendKeepsFile(x: Node, cap: nat, whole: nat, part: nat, broke: bool)
    requires FileInv(x.f, cap) && SendInv(x) && CanSendN(x, whole, part, broke)
    ensures FileInv(SendN(x, whole, part, broke).f, cap)
    ensures SendInv(SendN(x, whole, part, broke))
  {
    hide TotalBlocks, TotalLen, Wrap, Diff, HistInv;
    var h, r, n := x.f.hist, x.f.read, x.s.next;
    Runs(h, r, n, n + whole);
    Runs(h, n, n + whole, n + whole);
    PieceFits(h, r, n + whole, part);
    if !broke {
      var sent := x.f.q.sent + SentBytes(x, whole, part) / 8;
      assert 8 * sent == TotalLen(h[r..n + whole]) + part;
      HistIgnoresSent(x.f, sent);
    }
  }

  lemma HistIgnoresSent(f: File, sent: int)
    requires |f.hist| == |f.at| && HistInv(f)
    ensures HistInv(f.(q := f.q.(sent := sent)))
  {
  }

  lemma {:induction false} AllApps(ms: seq<Msg>)
    requires forall i :: 0 <= i < |ms| ==> !ms[i].IsHeartbeat()
    ensures Apps(ms) == ms
    decreases |ms|
  {
    if ms != [] {
      AllApps(ms[1..]);
    }
  }

  /** Which message of the session frame i of the grown stream is. */
  lemma GrownPrefix(x: Node, i: nat, whole: nat)
    requires Stream(x) && x.s.next + whole <= |x.f.hist|
    requires forall j :: 0 <= j < |x.f.hist| ==> !x.f.hist[j].IsHeartbeat()
    requires i <= |x.s.done| + whole
    ensures var done' := x.s.done + x.f.hist[x.s.next..x.s.next + whole];
      if i <= |x.s.done| then Apps(done'[..i]) == Apps(x.s.done[..i])
      else Apps(done'[..i]) == x.f.hist[x.s.base..x.s.next + (i - |x.s.done|)]
  {
    hide Apps;
    var h, n := x.f.hist, x.s.next;
    var done' := x.s.done + h[n..n + whole];
    if i <= |x.s.done| {
      assert done'[..i] == x.s.done[..i];
    } else {
      var d := i - |x.s.done|;
      TakeAcross(x.s.done, h, n, whole, i);
      AppsConcat(x.s.done, h[n..n + d]);
      AllApps(h[n..n + d]);
      assert h[x.s.base..n] + h[n..n + d] == h[x.s.base..n + d];
    }
  }

  lemma TakeAcross<T>(a: seq<T>, h: seq<T>, n: nat, whole: nat, i: nat)
    requires n + whole <= |h| && |a| <= i <= |a| + whole
    ensures (a + h[n..n + whole])[..i] == a + h[n..n + (i - |a|)]
  {
  }

  lemma SendKeepsStream(x: Node, cap: nat, whole: nat, part: nat, broke: bool)
    requires FileInv(x.f, cap) && SendInv(x) && Stream(x) && CanSendN(x, whole, part, broke)
    ensures Stream(SendN(x, whole, part, broke))
  {
    hide Apps, Wrap, TotalLen, TotalBlocks, AllWf, QValid;
    var x' := SendN(x, whole, part, broke);
    GrownPrefix(x, |x'.s.done|, whole);
    assert x'.s.done[..|x'.s.done|] == x'.s.done && x.s.done[..|x.s.done|] == x.s.done;
    SendAscends(x, whole, part, broke);
    forall i | 0 <= i < |x'.s.done|
      ensures FrameOk(x', i)
    {
      SendKeepsFrame(x, cap, whole, part, broke, i);
    }
  }

  lemma SendAscends(x: Node, whole: nat, part: nat, broke: bool)
    requires |x.f.hist| == |x.f.at| && HistInv(x.f) && |x.s.done| == |x.s.doneAt| && Ascending(x)
    requires CanSendN(x, whole, part, broke)
    ensures Ascending(SendN(x, whole, part, broke))
  {
    hide TotalLen, QSendout, Wrap;
  }

  lemma SendKeepsFrame(x: Node, cap: nat, whole: nat, part: nat, broke: bool, i: nat)
    requires FileInv(x.f, cap) && Stream(x) && CanSendN(x, whole, part, broke)
    requires i < |x.s.done| + whole
    ensures FrameOk(SendN(x, whole, part, broke), i)
  {
    hide Apps, Wrap, TotalLen, TotalBlocks, AllWf, QValid;
    GrownPrefix(x, i, whole);
    assert x.s.done[..|x.s.done|] == x.s.done;
    if i < |x.s.done| {
      assert FrameOk(x, i);
    }
  }

  lemma SendKeepsShared(x: Node, y: Node, cap: nat, whole: nat, part: nat, broke: bool)
    requires FileInv(x.f, cap) && Stream(x) && CanSendN(x, whole, part, broke)
    ensures Reading(x, y) ==> Reading(SendN(x, whole, part, broke), y)
    ensures Bounded(y, x) ==> Bounded(y, SendN(x, whole, part, broke))
  {
    hide Apps, Wrap, TotalLen, TotalBlocks, AllWf, QValid;
    if Reading(x, y) {
      GrownPrefix(x, y.s.seen, whole);
    }
  }

  // ---- heartbeat ----

  lemma BeatKeeps(x: Node, cap: nat)
    requires FileInv(x.f, cap) && Stream(x) && CanBeatN(x)
    ensures FileInv(BeatN(x).f, cap) && Stream(BeatN(x))
    ensures SendInv(x) ==> SendInv(BeatN(x))
  {
    hide Apps, Wrap, TotalLen, TotalBlocks, QValid, AllWf;
    var x' := BeatN(x);
    AppsConcat(x.s.done, [Heartbeat(x.f.q.ackSeq)]);
    NoApp(Heartbeat(x.f.q.ackSeq));
    forall i | 0 <= i < |x'.s.done|
      ensures FrameOk(x', i)
    {
      assert x'.s.done[..i] == x.s.done[..i];
      if i < |x.s.done| {
        assert FrameOk(x, i);
      }
    }
    forall i | 0 <= i < |x.s.done|
      ensures x'.s.doneAt[i] <= |x.f.popped|
    {
      assert FrameOk(x, i);
    }
  }

  lemma TearKeeps(x: Node, y: Node, bytes: nat)
    requires CanTearN(x, bytes)
    ensures Stream(x) ==> Stream(TearN(x, bytes))
    ensures Reading(x, y) ==> Reading(TearN(x, bytes), y)
    ensures Reading(y, x) ==> Reading(y, TearN(x, bytes))
  {
    hide Apps, Wrap;
    if Stream(x) {
      forall i | 0 <= i < |x.s.done|
        ensures FrameOk(TearN(x, bytes), i)
      {
        assert FrameOk(x, i);
      }
    }
  }

  lemma NoApp(m: Msg)
    requires m.IsHeartbeat()
    ensures Apps([m]) == []
  {
  }

  lemma BeatKeepsShared(x: Node, y: Node)
    requires |x.s.done| == |x.s.doneAt| && y.f.read <= |x.f.popped|
    ensures Reading(x, y) ==> Reading(BeatN(x), y)
  {
    hide Apps;
    if Reading(x, y) {
      assert BeatN(x).s.done[..y.s.seen] == x.s.done[..y.s.seen];
    }
  }

  // ---- receive: acknowledgements ----

  function MaxAll(a: nat, ts: seq<nat>): nat
    decreases |ts|
  {
    if ts == [] then a else MaxAll(Max(a, ts[0]), ts[1..])
  }

  lemma {:induction false} MaxAllBounds(a: nat, ts: seq<nat>, bound: nat)
    ensures a <= MaxAll(a, ts)
    ensures a <= bound && (forall i :: 0 <= i < |ts| ==> ts[i] <= bound) ==> MaxAll(a, ts) <= bound
    decreases |ts|
  {
    if ts != [] {
      MaxAllBounds(Max(a, ts[0]), ts[1..], bound);
    }
  }

  /** What an acknowledgement count t releases, in unbounded terms: what it should, exactly if it is heeded. */
  lemma ReleasedExactly(f: File, cap: nat, t: nat)
    requires FileInv(f, cap) && cap < 0x2000_0000 && t <= |f.hist|
    ensures Heeds(f.read, t) <==> Released(f.q, Wrap(t)) == if t <= f.read then 0 else t - f.read
    ensures Heeds(f.read, t) ==>
      var ack := Wrap(t);
      && AckOk(f.q, ack) && FAck(f, ack).read == Max(f.read, t)
      && FAck(f, ack).q.msgs == f.hist[Max(f.read, t)..]
      && FAck(f, ack).q.readSeq == Wrap(Max(f.read, t)) && FAck(f, ack).q.ackSeq == f.q.ackSeq
  {
    hide TotalBlocks, TotalLen, HistInv, Wrap, Diff;
    BlocksAreBytes(f.q.msgs);
    if f.read < t {
      DiffExact(t, f.read);
      assert f.hist[f.read..][t - f.read..] == f.hist[t..];
    } else {
      StaleRecognisedIff(f.read, t);
      WrapMinus(f.read, t);
      SameWrap(f.read, t);
    }
  }

  lemma SameWrap(a: int, b: int)
    ensures Wrap(a - b) == 0 <==> Wrap(a) == Wrap(b)
  {
    WrapMinus(a, b);
  }

  /** A count the peer can have reached releases only messages sent in full, and keeps every invariant of the node. */
  lemma AckKeeps(y: Node, cap: nat, t: nat)
    requires FileInv(y.f, cap) && cap < 0x2000_0000 && SendInv(y) && y.s.open
    requires t <= y.s.next && Heeds(y.f.read, t)
    ensures AckSafe(y.f.q, Wrap(t))
    ensures FileInv(FAck(y.f, Wrap(t)), cap) && SendInv(Node(FAck(y.f, Wrap(t)), y.s))
    ensures FAck(y.f, Wrap(t)).read == Max(y.f.read, t)
  {
    hide TotalBlocks, TotalLen, HistInv, Wrap, Diff, Released, QAck, QValid;
    ReleasedExactly(y.f, cap, t);
    SafeInTerms(y, cap, t);
    SafeAckKeeps(y.f.q, cap, Wrap(t), true);
    AckSent(y, cap, t);
    HistKept(y.f, FAck(y.f, Wrap(t)));
  }

  lemma SafeInTerms(y: Node, cap: nat, t: nat)
    requires FileInv(y.f, cap) && SendInv(y) && y.s.open && t <= y.s.next
    requires AckOk(y.f.q, Wrap(t)) && Released(y.f.q, Wrap(t)) == if t <= y.f.read then 0 else t - y.f.read
    ensures AckSafe(y.f.q, Wrap(t))
  {
    hide TotalLen, HistInv, Wrap, Diff, Released, QValid;
    var h, r, n := y.f.hist, y.f.read, y.s.next;
    if r < t {
      Runs(h, r, t, n);
      Runs(h, t, n, n);
      assert y.f.q.msgs[..t - r] == h[r..t];
    } else {
      assert y.f.q.msgs[..0] == [];
      assert TotalLen(h[r..n]) >= 0;
    }
  }

  lemma AckSent(y: Node, cap: nat, t: nat)
    requires FileInv(y.f, cap) && SendInv(y) && y.s.open && t <= y.s.next
    requires AckOk(y.f.q, Wrap(t)) && Released(y.f.q, Wrap(t)) == if t <= y.f.read then 0 else t - y.f.read
    requires QValid(QAck(y.f.q, Wrap(t)), cap)
    ensures SendInv(Node(FAck(y.f, Wrap(t)), y.s))
  {
    hide TotalLen, TotalBlocks, HistInv, Wrap, Diff, Released, QValid;
    var h, r, n := y.f.hist, y.f.read, y.s.next;
    if r < t {
      Runs(h, r, t, n);
      Runs(h, t, n, n);
      assert y.f.q.msgs[..t - r] == h[r..t];
      if t == |h| {
        PieceNone(h, t);
        AllSent(y, cap);
      }
    }
  }

  lemma PieceNone(h: seq<Msg>, t: nat)
    requires t <= |h|
    ensures TotalLen(h[t..t]) == 0
  {
  }

  /** With every message sent whole there is no piece. */
  lemma AllSent(y: Node, cap: nat)
    requires FileInv(y.f, cap) && SendInv(y) && y.s.open && y.s.next == |y.f.hist|
    ensures y.s.part == 0
  {
    hide TotalLen, TotalBlocks, HistInv, Wrap;
    var h, r, n := y.f.hist, y.f.read, y.s.next;
    Runs(h, r, n, n);
    assert h[r..] == h[r..n];
  }

  lemma HistKept(f: File, f': File)
    requires |f.hist| == |f.at| && HistInv(f)
    requires f'.hist == f.hist && f'.at == f.at && f'.popped == f.popped && f.read <= f'.read
    ensures HistInv(f')
  {
  }

  /** True counts behind a run of acknowledgements: ascending, none above the peer's count `top`, and each heeded. */
  ghost predicate Counts(ts: seq<nat>, acks: seq<U32>, read: nat, top: nat) {
    && |ts| == |acks| && read <= top
    && (forall i :: 0 <= i < |ts| ==> acks[i] == Wrap(ts[i]) && ts[i] <= top && Heeds(read, ts[i]))
    && (forall i, j :: 0 <= i < j < |ts| ==> ts[i] <= ts[j])
  }

  lemma CountsRest(ts: seq<nat>, acks: seq<U32>, read: nat, top: nat)
    requires Counts(ts, acks, read, top) && ts != []
    ensures Heeds(read, ts[0])
    ensures Counts(ts[1..], acks[1..], Max(read, ts[0]), top)
  {
    hide Wrap;
  }

  /** Acknowledgements never outrun sends: a whole run of them is safe, one after the other. */
  lemma {:induction false} AcksKeep(y: Node, cap: nat, ts: seq<nat>, acks: seq<U32>, top: nat)
    requires FileInv(y.f, cap) && cap < 0x2000_0000 && SendInv(y) && y.s.open
    requires Counts(ts, acks, y.f.read, top) && top <= y.s.next
    ensures AcksSafe(y.f.q, acks)
    ensures var f' := FAckAll(y.f, acks);
      && FileInv(f', cap) && SendInv(Node(f', y.s)) && f'.read == MaxAll(y.f.read, ts)
      && f'.hist == y.f.hist && f'.at == y.f.at && f'.popped == y.f.popped
    decreases |ts|
  {
    hide FileInv, SendInv, Wrap, QAck, Released, AckSafe;
    if ts != [] {
      CountsRest(ts, acks, y.f.read, top);
      AckKeeps(y, cap, ts[0]);
      SafeIsOk(y.f.q, acks[0]);
      var next := Node(FAck(y.f, acks[0]), y.s);
      AcksKeep(next, cap, ts[1..], acks[1..], top);
    }
  }

  // ---- receive: messages ----

  /** What x's stream and y's reading of it share with the files: everything a receive step relies on. */
  ghost predicate Connected(x: Node, y: Node, cap: nat) {
    && FileInv(x.f, cap) && FileInv(y.f, cap) && cap < 0x2000_0000
    && Stream(x) && Reading(x, y)
    && Synced(x.f, y.f) && Synced(y.f, x.f)
    && InboxInv(x.f, y)
  }

  /** The true counts behind the acknowledgements heard. */
  ghost function HeardAt(x: Node, y: Node, whole: nat, header: bool): seq<nat>
    requires CanRecvN(x, y, whole, header)
  {
    x.s.doneAt[y.s.seen..y.s.seen + whole] +
    if !header then []
    else if y.s.seen + whole < |x.s.done| then [x.s.doneAt[y.s.seen + whole]]
    else [x.f.at[x.s.next]]
  }

  lemma {:induction false} AcksOfAt(ms: seq<Msg>, i: nat)
    requires i < |ms|
    ensures |AcksOf(ms)| == |ms| && AcksOf(ms)[i] == ms[i].header.ackSeq
    decreases |ms|
  {
    if |ms| > 1 {
      if 0 < i {
        AcksOfAt(ms[1..], i - 1);
      } else {
        AcksOfAt(ms[1..], 0);
      }
    }
  }

  lemma AppsGrow(ms: seq<Msg>, a: nat, b: nat)
    requires a <= b <= |ms|
    ensures Apps(ms[..b]) == Apps(ms[..a]) + Apps(ms[a..b])
  {
    hide Apps;
    assert ms[..b] == ms[..a] + ms[a..b];
    AppsConcat(ms[..a], ms[a..b]);
  }

  /** Every frame not yet received whole carries a count that is heeded, and at most the sender's. */
  lemma FrameLag(x: Node, y: Node, i: nat)
    requires Stream(x) && Reading(x, y) && y.s.seen <= i < |x.s.done|
    ensures x.s.doneAt[i] <= |x.f.popped| && x.s.done[i].header.ackSeq == Wrap(x.s.doneAt[i])
    ensures Heeds(y.f.read, x.s.doneAt[i])
    ensures forall j :: 0 <= j < i ==> x.s.doneAt[j] <= x.s.doneAt[i]
  {
    hide Apps, Wrap;
    assert FrameOk(x, i);
  }

  /** So does the message being sent. */
  lemma PieceLag(x: Node, y: Node, cap: nat)
    requires FileInv(x.f, cap) && Stream(x) && Reading(x, y) && x.s.next < |x.f.hist|
    ensures x.f.at[x.s.next] <= |x.f.popped| && x.f.hist[x.s.next].header.ackSeq == Wrap(x.f.at[x.s.next])
    ensures Heeds(y.f.read, x.f.at[x.s.next])
    ensures forall j :: 0 <= j < |x.s.doneAt| ==> x.s.doneAt[j] <= x.f.at[x.s.next]
  {
    hide Apps, Wrap, TotalLen, TotalBlocks, QValid, FrameOk;
  }

  lemma HeardCounts(x: Node, y: Node, cap: nat, whole: nat, header: bool)
    requires Connected(x, y, cap) && CanRecvN(x, y, whole, header)
    ensures Counts(HeardAt(x, y, whole, header), AcksOf(Heard(x, y, whole, header)), y.f.read, |x.f.popped|)
  {
    hide Apps, Wrap, AcksOf, FileInv, FrameOk, Synced, InboxInv, Heeds, Stream, Reading;
    var ts, ms, top := HeardAt(x, y, whole, header), Heard(x, y, whole, header), |x.f.popped|;
    assert y.f.read <= top by {
      SyncedReads(y.f, x.f);
    }
    if ms != [] {
      AcksOfAt(ms, 0);
    } else {
      NoAcks();
    }
    forall i | 0 <= i < |ts|
      ensures AcksOf(ms)[i] == Wrap(ts[i]) && ts[i] <= top && Heeds(y.f.read, ts[i])
      ensures forall j :: 0 <= j < i ==> ts[j] <= ts[i]
    {
      AcksOfAt(ms, i);
      assert forall j :: 0 <= j < i ==> ts[j] == x.s.doneAt[y.s.seen + j];
      if y.s.seen + i < |x.s.done| {
        FrameLag(x, y, y.s.seen + i);
      } else {
        PieceLag(x, y, cap);
      }
    }
  }

  lemma SyncedReads(a: File, b: File)
    requires Synced(a, b)
    ensures a.read <= |b.popped| <= |a.hist|
  {
  }

  lemma NoAcks()
    ensures AcksOf([]) == []
  {
  }

  /** Every acknowledgement that Front hands to the queue on a running connection is safe, and the node's invariants hold after. */
  lemma RecvKeepsFile(x: Node, y: Node, cap: nat, whole: nat, header: bool, y': Node)
    requires Connected(x, y, cap) && SendInv(y) && Bounded(x, y)
    requires CanRecvN(x, y, whole, header) && RecvN(x, y, whole, header, y')
    ensures AcksSafe(y.f.q, AcksOf(Heard(x, y, whole, header)))
    ensures FileInv(y'.f, cap) && SendInv(y')
    ensures y'.f.hist == y.f.hist && y'.f.at == y.f.at && y'.f.popped == y.f.popped
    ensures y'.f.read == MaxAll(y.f.read, HeardAt(x, y, whole, header))
    ensures y.f.read <= y'.f.read <= |x.f.popped|
  {
    hide FileInv, Stream, Reading, Synced, InboxInv, AcksOf, Apps, QAck;
    var ts, acks := HeardAt(x, y, whole, header), AcksOf(Heard(x, y, whole, header));
    HeardCounts(x, y, cap, whole, header);
    AcksKeep(y, cap, ts, acks, |x.f.popped|);
    MaxAllBounds(y.f.read, ts, |x.f.popped|);
  }

  lemma RecvKeepsReading(x: Node, y: Node, cap: nat, whole: nat, header: bool, y': Node)
    requires Connected(x, y, cap) && SendInv(y) && Bounded(x, y)
    requires CanRecvN(x, y, whole, header) && RecvN(x, y, whole, header, y')
    ensures Reading(x, y')
  {
    hide FileInv, Synced, InboxInv, AcksOf, Apps, QAck, SendInv, FrameOk, AcksSafe, HeedsRest;
    RecvKeepsFile(x, y, cap, whole, header, y');
    AppsGrow(x.s.done, y.s.seen, y.s.seen + whole);
    HeardAscends(x, y, cap, whole, header);
    HeedsOn(x, y.s.seen, y'.s.seen, y.f.read, HeardAt(x, y, whole, header));
  }

  /** Frames and messages after those heard carry counts at least as large. */
  lemma HeardAscends(x: Node, y: Node, cap: nat, whole: nat, header: bool)
    requires FileInv(x.f, cap) && Stream(x) && CanRecvN(x, y, whole, header)
    ensures var ts, from := HeardAt(x, y, whole, header), y.s.seen + whole;
      && (forall j, i :: 0 <= j < |ts| && from <= i < |x.s.doneAt| ==> ts[j] <= x.s.doneAt[i])
      && (forall j, k :: 0 <= j < |ts| && x.s.next <= k < |x.f.at| ==> ts[j] <= x.f.at[k])
  {
    hide Apps, Wrap, FrameOk, QValid, AllWf;
    assert HistInv(x.f);
  }

  /** Whatever the reader's count has become by hearing `ts`, it heeds what follows. */
  lemma HeedsOn(x: Node, from: nat, from': nat, read: nat, ts: seq<nat>)
    requires from <= from' && HeedsRest(x, from, read)
    requires forall j, i :: 0 <= j < |ts| && from' <= i < |x.s.doneAt| ==> ts[j] <= x.s.doneAt[i]
    requires forall j, k :: 0 <= j < |ts| && x.s.next <= k < |x.f.at| ==> ts[j] <= x.f.at[k]
    ensures HeedsRest(x, from', MaxAll(read, ts))
  {
    hide Wrap;
    forall i | from' <= i < |x.s.doneAt|
      ensures Heeds(MaxAll(read, ts), x.s.doneAt[i])
    {
      HeedsMax(read, ts, x.s.doneAt[i]);
    }
    forall k | x.s.next <= k < |x.f.at|
      ensures Heeds(MaxAll(read, ts), x.f.at[k])
    {
      HeedsMax(read, ts, x.f.at[k]);
    }
  }

  lemma HeedsMax(read: nat, ts: seq<nat>, t: nat)
    requires Heeds(read, t) && forall j :: 0 <= j < |ts| ==> ts[j] <= t
    ensures Heeds(MaxAll(read, ts), t)
  {
    hide Wrap;
    if read <= t {
      MaxAllBounds(read, ts, t);
    } else {
      MaxAllBounds(read, ts, read);
    }
  }

  lemma RecvKeepsInbox(x: Node, y: Node, cap: nat, whole: nat, header: bool, y': Node)
    requires Connected(x, y, cap) && SendInv(y) && Bounded(x, y)
    requires CanRecvN(x, y, whole, header) && RecvN(x, y, whole, header, y')
    ensures InboxInv(x.f, y') && Bounded(y', x)
  {
    hide FileInv, AcksOf, Apps, QAck, SendInv, FrameOk, AcksSafe;
    RecvKeepsFile(x, y, cap, whole, header, y');
    var s, e := y.s.seen, y.s.seen + whole;
    AppsGrow(x.s.done, s, e);
    AppsGrow(x.s.done, e, |x.s.done|);
    assert x.s.done[..|x.s.done|] == x.s.done;
    SplicePrefix(x.f.hist, x.s.base, x.s.next, Apps(x.s.done[..s]), Apps(x.s.done[s..e]), Apps(x.s.done[e..]),
                 y.f.popped + y.s.inbox);
    assert y'.f.popped + y'.s.inbox == y.f.popped + y.s.inbox + Apps(x.s.done[s..e]);
  }

  /** Reading on where one stopped in a run of messages keeps what was read a prefix of them all. */
  lemma SplicePrefix<T>(h: seq<T>, base: nat, next: nat, a: seq<T>, b: seq<T>, c: seq<T>, got: seq<T>)
    requires base <= next <= |h| && a + b + c == h[base..next]
    requires got <= h && |got| == base + |a|
    ensures got + b <= h && |got + b| <= next
  {
    var all := a + b + c;
    forall i | 0 <= i < |b|
      ensures b[i] == h[|got| + i]
    {
      assert all[|a| + i] == b[i];
      assert all[|a| + i] == h[base + (|a| + i)];
    }
  }

  // ---- login ----

  /** Rewinding to the peer's true count leaves exactly the messages it has not consumed, the first of them next to send. */
  lemma OpenKeeps(f: File, cap: nat, t: nat)
    requires FileInv(f, cap) && cap < 0x2000_0000 && f.read <= t <= |f.hist|
    ensures AckOk(f.q, Wrap(t))
    ensures var x := OpenN(f, Wrap(t));
      && FileInv(x.f, cap) && SendInv(x) && Stream(x)
      && x.f.read == x.s.base == x.s.next == t && x.f.q.msgs == f.hist[t..] && x.f.q.sent == 0
      && x.f.hist == f.hist && x.f.at == f.at && x.f.popped == f.popped
  {
    hide TotalBlocks, TotalLen, HistInv, Wrap, Diff, Released, QAck, QValid;
    ReleasedExactly(f, cap, t);
    LoginAckValid(f.q, cap, Wrap(t));
    HistKept(f, OpenN(f, Wrap(t)).f);
    PieceNone(f.hist, t);
    NoFrames();
  }

  lemma NoFrames()
    ensures Apps([]) == []
  {
  }

  /** Every queued message's stamp is old in 32 bits. */
  ghost predicate InWindow(f: File)
    requires |f.hist| == |f.at|
  {
    forall i :: f.read <= i < |f.at| ==> Wrap(|f.popped| - f.at[i]) < 0x8000_0000
  }

  /** SanityCheckAndGetSeq accepts a file that agrees with its history exactly while all stamps are in the window. */
  lemma SaneExactlyInWindow(f: File, cap: nat)
    requires FileInv(f, cap)
    ensures Sane(f.q) <==> InWindow(f)
  {
    hide TotalBlocks, Wrap, Diff, QValid, AllWf;
    forall k | 0 <= k < |f.q.msgs|
      ensures Diff(f.q.ackSeq, f.q.msgs[k].header.ackSeq) >= 0 <==> Wrap(|f.popped| - f.at[f.read + k]) < 0x8000_0000
    {
      assert f.q.msgs[k] == f.hist[f.read + k];
      LagSeen(|f.popped|, f.at[f.read + k]);
    }
    forall i | f.read <= i < |f.at|
      ensures Sane(f.q) ==> Wrap(|f.popped| - f.at[i]) < 0x8000_0000
    {
      assert i == f.read + (i - f.read);
    }
  }

  lemma LagSeen(now: int, stamp: int)
    ensures Diff(Wrap(now), Wrap(stamp)) >= 0 <==> Wrap(now - stamp) < 0x8000_0000
  {
    WrapMinus(now, stamp);
  }

  /** The peer's acknowledgement of an honest session passes the login test. */
  lemma LoginTestPasses(a: File, b: File, cap: nat)
    requires FileInv(a, cap) && FileInv(b, cap) && cap < 0x2000_0000 && Synced(a, b)
    ensures CheckAckInQueue(b.q.ackSeq, a.q.readSeq, SeqEnd(a.q))
  {
    hide TotalBlocks, TotalLen, HistInv, Wrap, Diff;
    BlocksAreBytes(a.q.msgs);
    DiffExact(|b.popped|, a.read);
    WrapPlus(a.read, |a.q.msgs|);
    DiffExact(|a.hist|, |b.popped|);
  }
}
