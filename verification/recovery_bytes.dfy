/** Runs of the two nodes with the bytes each has read counted: in all of them, whatever chunk of the peer's stream a
    node reads next, it is a Recv step, and keeps the protocol that Front relies on. */
module RecoveryBytes {
  import opened Word32
  import opened MsgHeaders
  import opened PtcpQueueSpec
  import opened Framer
  import opened RecoveryNode
  import opened RecoverySteps
  import opened RecoveryProtocol
  import opened RecoveryWire

  /** The system, and how many bytes of the current connection each side has read. */
  datatype Wired = Wired(s: State, cgot: nat, sgot: nat)

  /** A Recv step of y that reads x's bytes from a to b. */
  ghost predicate Chunk(x: Node, y: Node, a: nat, b: nat, frames: nat, header: bool) {
    && Partial(x) && a <= b <= WireLen(x)
    && y.s.seen + frames == WholeIn(Frames(x), b)
    && header == (HeadersIn(Frames(x), b) > WholeIn(Frames(x), b))
  }

  ghost predicate WiredNext(w: Wired, step: Step, w': Wired) {
    && Next(w.s, step, w'.s)
    && if step.ClientAct? && step.act.Recv? then
         Chunk(Peer(w.s), Client(w.s), w.cgot, w'.cgot, step.act.frames, step.act.header) && w'.sgot == w.sgot
       else if step.ServerAct? && step.act.Recv? then
         Chunk(Client(w.s), Server(w.s), w.sgot, w'.sgot, step.act.frames, step.act.header) && w'.cgot == w.cgot
       else if step.Complete? then
         w'.cgot == w'.sgot == 0
       else
         w'.cgot == w.cgot && w'.sgot == w.sgot
  }

  /** y has received whole exactly the frames that lie whole in the a bytes it has read of x's stream. */
  ghost predicate InStep(x: Node, y: Node, a: nat) {
    Partial(x) && a <= WireLen(x) && y.s.seen == WholeIn(Frames(x), a)
  }

  ghost predicate WiredInv(w: Wired) {
    && Inv(w.s)
    && (w.s.linked ==> InStep(Peer(w.s), Client(w.s), w.cgot) && InStep(Client(w.s), Peer(w.s), w.sgot))
  }

  /** x' has put more bytes on the wire than x, or as many; those of x are unchanged. */
  ghost predicate Grows(x: Node, x': Node) {
    Partial(x) && Partial(x') && Frames(x) <= Frames(x') && WireLen(x) <= WireLen(x')
  }

  lemma {:induction false} WholeInMore(ms: seq<Msg>, more: seq<Msg>, a: nat)
    requires a <= TotalLen(ms)
    ensures WholeIn(ms + more, a) == WholeIn(ms, a)
    decreases |ms|
  {
    if ms == [] {
      NoneIn(more);
      assert ms + more == more;
    } else if ms[0].Len() <= a {
      assert (ms + more)[1..] == ms[1..] + more;
      WholeInMore(ms[1..], more, a - ms[0].Len());
    }
  }

  lemma NoneIn(ms: seq<Msg>)
    ensures WholeIn(ms, 0) == 0
  {
  }

  lemma InStepGrows(x: Node, x': Node, y: Node, y': Node, a: nat)
    requires InStep(x, y, a) && Grows(x, x') && y'.s.seen == y.s.seen
    ensures InStep(x', y', a)
  {
    hide WholeIn, TotalLen;
    WireIsCut(x, true);
    var more := Frames(x')[|Frames(x)|..];
    assert Frames(x') == Frames(x) + more;
    WholeInMore(Frames(x), more, a);
  }

  // ---- every step ----

  lemma SameSideGrows(x: Node, x': Node)
    requires Partial(x) && x.f.hist <= x'.f.hist
    requires x'.s.done == x.s.done && x'.s.part == x.s.part && x'.s.next == x.s.next
    requires x'.s.torn == x.s.torn && x'.s.tornAck == x.s.tornAck
    ensures Grows(x, x')
  {
  }

  lemma SendGrows(x: Node, cap: nat, whole: nat, part: nat, broke: bool)
    requires FileInv(x.f, cap) && SendInv(x) && Stream(x) && CanSendN(x, whole, part, broke)
    ensures Grows(x, SendN(x, whole, part, broke))
  {
    hide FileInv, SendInv, EncodeAll, Encode, TotalLen, FrameOk, Ascending, Apps, QSendout, Unsent;
    SendPutsBytes(x, cap, whole, part, broke, true);
    UnsentIsRest(x, cap, true);
    var x' := SendN(x, whole, part, broke);
    if whole > 0 && x.s.part > 0 {
      assert Frames(x')[|x.s.done|] == x.f.hist[x.s.next];
    }
  }

  lemma BeatGrows(x: Node)
    requires Stream(x) && SendInv(x) && CanBeatN(x)
    ensures Grows(x, BeatN(x))
  {
    hide EncodeAll, Encode, TotalLen, FrameOk, Ascending, Apps;
    BeatPutsBytes(x, 1, true);
  }

  lemma TearGrows(x: Node, bytes: nat)
    requires SendInv(x) && CanTearN(x, bytes)
    ensures Grows(x, TearN(x, bytes))
  {
    hide TotalLen;
  }

  /** Whatever a node does, its stream only grows, and unless it reads it has read what it had. */
  lemma ActGrows(x: Node, y: Node, cap: nat, linked: bool, act: Act, x': Node)
    requires Shared(x, y, cap, linked) && Stream(x) && NodeStep(x, y, linked, cap, act, x')
    ensures Grows(x, x')
    ensures !act.Recv? ==> x'.s.seen == x.s.seen
    ensures act.Recv? ==> x'.s.seen == x.s.seen + act.frames
  {
    hide FileInv, SendInv, Stream, Grows, CanPushN, CanSendN, FAckAll, Heard;
    StreamPartial(x);
    OpenSends(x);
    match act
    case Push(m) => SameSideGrows(x, x');
    case Pop => SameSideGrows(x, x');
    case Send(whole, part, broke) => SendGrows(x, cap, whole, part, broke);
    case Beat => BeatGrows(x);
    case Tear(bytes) => TearGrows(x, bytes);
    case Recv(frames, header) =>
      RecvKeepsHist(x, y, cap, frames, header, x');
      SameSideGrows(x, x');
    case Close => SameSideGrows(x, x');
  }

  lemma OpenSends(x: Node)
    requires OpenInv(x)
    ensures SendInv(x)
  {
  }

  lemma RecvKeepsHist(x: Node, y: Node, cap: nat, frames: nat, header: bool, x': Node)
    requires Shared(x, y, cap, true) && CanRecvN(y, x, frames, header) && RecvN(y, x, frames, header, x')
    ensures x'.f.hist == x.f.hist
  {
    hide FileInv, SendInv, Apps, AcksSafe, FAckAll, AcksOf;
    RecvKeepsFile(y, x, cap, frames, header, x');
  }

  lemma LinkedShares(s: State)
    requires Inv(s) && s.linked
    ensures Shared(Client(s), Peer(s), s.cap, true) && Stream(Client(s)) && Stream(Peer(s)) && s.last != ""
    ensures s.name == s.last ==> Shared(Peer(s), Client(s), s.cap, true) && Peer(s) == Server(s)
    ensures s.server.open ==> s.name == s.last
  {
    hide FileInv, FilesInv, Stream, Half, NetInv;
    FilesHold(s.cfiles, s.cap, s.last);
    FilesHold(s.sfiles, s.cap, s.last);
  }

  lemma ClientActInStep(w: Wired, act: Act, w': Wired)
    requires WiredInv(w) && w.s.linked && WiredNext(w, ClientAct(act), w')
    ensures w'.s.linked ==> InStep(Peer(w'.s), Client(w'.s), w'.cgot) && InStep(Client(w'.s), Peer(w'.s), w'.sgot)
  {
    hide Inv, NodeStep, Shared, Stream, Grows, InStep;
    var x :| NodeStep(Client(w.s), Peer(w.s), w.s.linked, w.s.cap, act, x) && w'.s == SetClient(w.s, x);
    LinkedShares(w.s);
    ActGrows(Client(w.s), Peer(w.s), w.s.cap, true, act, x);
    assert Client(w'.s) == x && Peer(w'.s) == Peer(w.s);
    InStepGrows(Client(w.s), x, Peer(w.s), Peer(w.s), w.sgot);
    ReadsOn(Peer(w.s), Client(w.s), x, w.cgot, act, w'.cgot);
  }

  lemma ReadsOn(x: Node, y: Node, y': Node, a: nat, act: Act, b: nat)
    requires InStep(x, y, a)
    requires if act.Recv? then Chunk(x, y, a, b, act.frames, act.header) && y'.s.seen == y.s.seen + act.frames
             else a == b && y'.s.seen == y.s.seen
    ensures InStep(x, y', b)
  {
  }

  lemma ServerActInStep(w: Wired, act: Act, w': Wired)
    requires WiredInv(w) && w.s.linked && WiredNext(w, ServerAct(act), w')
    ensures w'.s.linked ==> InStep(Peer(w'.s), Client(w'.s), w'.cgot) && InStep(Client(w'.s), Peer(w'.s), w'.sgot)
  {
    hide Inv, NodeStep, Shared, Stream, Grows, InStep, Chunk;
    var x :| NodeStep(Server(w.s), Client(w.s), w.s.linked, w.s.cap, act, x) && w'.s == SetServer(w.s, x);
    LinkedShares(w.s);
    if w.s.name == w.s.last {
      ActGrows(Server(w.s), Client(w.s), w.s.cap, true, act, x);
      assert Client(w'.s) == Client(w.s) && Peer(w'.s) == x;
      InStepGrows(Peer(w.s), x, Client(w.s), Client(w.s), w.cgot);
      ReadsOn(Client(w.s), Peer(w.s), x, w.sgot, act, w'.sgot);
    } else {
      IdleServer(w.s, act, x);
      assert Client(w'.s) == Client(w.s) && Peer(w'.s) == Peer(w.s);
    }
  }

  /** A linked server that has taken another name is closed, with nothing in hand: its half of the connection stays. */
  lemma IdleServer(s: State, act: Act, x: Node)
    requires Inv(s) && s.linked && s.name != s.last && NodeStep(Server(s), Client(s), true, s.cap, act, x)
    ensures x.s == s.server && !act.Recv?
  {
    hide FileInv, FilesInv, OpenInv, Half, Joined, Stream, NetInv, RecvN, CanPushN;
    StartsAlone(s);
  }

  /** Crashes, renames and logins that do not make a new connection. */
  lemma OtherInStep(s: State, step: Step, s': State)
    requires Inv(s) && Next(s, step, s') && s'.linked && !step.ClientAct? && !step.ServerAct? && !step.Complete?
    ensures s.linked && Stream(Client(s)) && Stream(Peer(s))
    ensures Client(s').s.seen == s.client.seen && Peer(s').s.seen == s.server.seen
    ensures Grows(Client(s), Client(s')) && Grows(Peer(s), Peer(s'))
  {
    hide FileInv, FilesInv, OpenInv, Half, Stream, LoginPasses, Opened, Grows;
    StillLinked(s, step, s');
    StreamPartial(Client(s));
    StreamPartial(Peer(s));
    SameSideGrows(Client(s), Client(s'));
    SameSideGrows(Peer(s), Peer(s'));
  }

  lemma StillLinked(s: State, step: Step, s': State)
    requires Inv(s) && Next(s, step, s') && s'.linked && !step.ClientAct? && !step.ServerAct? && !step.Complete?
    ensures s.linked && s'.client == s.client.(open := s'.client.open, inbox := s'.client.inbox)
    ensures s'.server == s.server.(open := s'.server.open, inbox := s'.server.inbox)
    ensures s'.last == s.last && Client(s').f == Client(s).f && Peer(s').f == Peer(s).f
    ensures Stream(Client(s)) && Stream(Peer(s))
  {
    hide FileInv, FilesInv, OpenInv, Half, Stream, LoginPasses, Opened;
  }

  /** Open on both sides: nothing has been read. */
  lemma CompleteInStep(w: Wired, w': Wired)
    requires WiredInv(w) && WiredNext(w, Complete, w')
    ensures InStep(Peer(w'.s), Client(w'.s), 0) && InStep(Client(w'.s), Peer(w'.s), 0)
  {
    hide FilesInv, Half, OpenInv, Stream, HeedsRest, Opened, TotalLen, WholeIn;
    var s, s' := w.s, w'.s;
    var x :| Opened(CompleteFile(s), s.net.ack, x)
      && s' == s.(last := s.net.server, client := x.s, cfiles := s.cfiles[s.net.server := x.f], net := Quiet, linked := true);
    CompleteKeeps(s, x);
    CompletedSides(s, x);
    LinkedShares(s');
    StreamPartial(Client(s'));
    StreamPartial(Peer(s'));
    NoneIn(Frames(Peer(s')));
    NoneIn(Frames(Client(s')));
  }

  lemma CompletedSides(s: State, x: Node)
    requires Inv(s) && s.net.Answered? && Opened(CompleteFile(s), s.net.ack, x)
    ensures x.s.seen == 0 && s.server.seen == 0
  {
    hide FilesInv, Half, Joined, OpenInv, Stream, HeedsRest, OpenN, AckOk, HistInv, QValid, Sane, Wrap;
    FilesHold(s.cfiles, s.cap, s.last);
    FreshFile(s.cap);
    var p := Node(FileOf(s.sfiles, s.net.server), s.server);
    FilesHold(s.sfiles, s.cap, s.net.server);
    OpenKeeps(CompleteFile(s), s.cap, |p.f.popped|);
    OpenedSide(CompleteFile(s), s.net.ack);
  }

  lemma WiredStepKeeps(w: Wired, step: Step, w': Wired)
    requires WiredInv(w) && WiredNext(w, step, w')
    ensures WiredInv(w')
  {
    hide Inv, Next, InStep, Chunk, Grows;
    StepKeeps(w.s, step, w'.s);
    if w'.s.linked {
      if step.Complete? {
        CompleteInStep(w, w');
      } else if step.ClientAct? || step.ServerAct? {
        ActLinked(w.s, step, w'.s);
        if step.ClientAct? {
          ClientActInStep(w, step.act, w');
        } else {
          ServerActInStep(w, step.act, w');
        }
      } else {
        OtherInStep(w.s, step, w'.s);
        InStepGrows(Peer(w.s), Peer(w'.s), Client(w.s), Client(w'.s), w.cgot);
        InStepGrows(Client(w.s), Client(w'.s), Peer(w.s), Peer(w'.s), w.sgot);
      }
    }
  }

  lemma ActLinked(s: State, step: Step, s': State)
    requires Next(s, step, s') && (step.ClientAct? || step.ServerAct?)
    ensures s'.linked == s.linked
  {
    hide NodeStep;
  }

  // ---- runs ----

  ghost predicate WiredRun(ws: seq<Wired>, steps: seq<Step>) {
    && |ws| == |steps| + 1
    && Init(ws[0].s) && ws[0].cgot == ws[0].sgot == 0
    && forall i :: 0 <= i < |steps| ==> WiredNext(ws[i], steps[i], ws[i + 1])
  }

  lemma {:induction false} WiredRunKeeps(ws: seq<Wired>, steps: seq<Step>, i: nat)
    requires WiredRun(ws, steps) && i <= |steps|
    ensures WiredInv(ws[i])
    decreases i
  {
    hide WiredNext, Inv, InStep;
    if i == 0 {
      InitHolds(ws[0].s);
      NotLinkedYet(ws[0].s);
    } else {
      WiredRunKeeps(ws, steps, i - 1);
      assert WiredNext(ws[i - 1], steps[i - 1], ws[i - 1 + 1]);
      WiredStepKeeps(ws[i - 1], steps[i - 1], ws[i]);
    }
  }

  lemma NotLinkedYet(s: State)
    requires Init(s)
    ensures !s.linked
  {
  }

  /** What node y is given to read next of x's stream: its leftover of the first a bytes, and those up to b. */
  ghost function Given(x: Node, a: nat, b: nat, wire: bool): seq<Byte>
    requires Partial(x) && a <= b <= WireLen(x)
  {
    var raw := OnWire(x, wire);
    Rest(raw[..a], wire) + raw[a..b]
  }

  /** Reading up to b is a Recv step that can be taken, with exactly these messages and acknowledgements; and the bytes
      are what Front relies on. */
  ghost predicate ReadsWell(x: Node, y: Node, a: nat, b: nat, wire: bool)
    requires Partial(x) && a <= b <= WireLen(x)
  {
    var data := Given(x, a, b, wire);
    && Proper(data, wire) && AcksSafe(y.f.q, Acks(data, wire))
    && exists frames: nat, header: bool ::
         Chunk(x, y, a, b, frames, header) && CanRecvN(x, y, frames, header)
         && Parse(data, wire) == x.s.done[y.s.seen..y.s.seen + frames]
         && Acks(data, wire) == AcksOf(Heard(x, y, frames, header))
  }

  lemma NodeReadsWell(x: Node, y: Node, cap: nat, a: nat, b: nat, wire: bool)
    requires Shared(y, x, cap, true) && y.s.open && InStep(x, y, a) && a <= b <= WireLen(x)
    ensures ReadsWell(x, y, a, b, wire)
  {
    hide FileInv, Stream, Half, OpenInv, Reading, Bounded, Parse, Acks, Rest, AcksOf, Proper, WholeIn, HeadersIn, AcksSafe, Heard;
    hide OnWire;
    StreamOf(x, y, cap);
    ChunkIsRecv(x, y, cap, a, b, wire);
    PeerKeepsProtocolAlways(x, y, cap, a, b, wire);
    var frames := WholeIn(Frames(x), b) - y.s.seen;
    assert Chunk(x, y, a, b, frames, HeadersIn(Frames(x), b) > WholeIn(Frames(x), b));
  }

  /** In every run, at every moment, each side of a running connection reads well whatever comes next, of any length. */
  lemma EveryChunkReadsWell(ws: seq<Wired>, steps: seq<Step>, i: nat, b: nat, wire: bool)
    requires WiredRun(ws, steps) && i <= |steps| && ws[i].s.linked
    ensures var s := ws[i].s;
      && Partial(Client(s)) && Partial(Peer(s))
      && (s.client.open && ws[i].cgot <= b <= WireLen(Peer(s)) ==> ReadsWell(Peer(s), Client(s), ws[i].cgot, b, wire))
      && (s.server.open && ws[i].sgot <= b <= WireLen(Client(s)) ==> ReadsWell(Client(s), Peer(s), ws[i].sgot, b, wire))
  {
    hide WiredNext, Inv, ReadsWell, Shared, Stream, WireLen;
    WiredRunKeeps(ws, steps, i);
    var s := ws[i].s;
    LinkedShares(s);
    StreamPartial(Client(s));
    StreamPartial(Peer(s));
    if s.client.open && ws[i].cgot <= b <= WireLen(Peer(s)) {
      NodeReadsWell(Peer(s), Client(s), s.cap, ws[i].cgot, b, wire);
    }
    if s.server.open && ws[i].sgot <= b <= WireLen(Client(s)) {
      NodeReadsWell(Client(s), Peer(s), s.cap, ws[i].sgot, b, wire);
    }
  }
}
