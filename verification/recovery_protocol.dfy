/** Client and server as one system: messages, sends, receives, crashes, cuts, renames of the server and logins, in any
    order. Each pair of names has its own queue file on either side; a login with another server name starts a session. */
module RecoveryProtocol {
  import opened Word32
  import opened MsgHeaders
  import opened PtcpQueueSpec
  import opened Framer
  import opened RecoveryNode
  import opened RecoverySteps

  type Name = string

  datatype Login = Login(last: Name, ack: U32, start: U32, end: U32)

  /** The login under way, while the client blocks in Connect. */
  datatype Net = Quiet | Requested(login: Login) | Answered(server: Name, ack: U32)

  /** last: the server name the client keeps in its .lastserver file; name: the server's own name now; linked: the two
      sides' streams are the two directions of the same TCP connection. */
  datatype State = State(cap: nat, client: Side, server: Side, last: Name, name: Name,
                         cfiles: map<Name, File>, sfiles: map<Name, File>, net: Net, linked: bool)

  /** A file that does not exist yet is mapped as zeros. */
  function FileOf(m: map<Name, File>, n: Name): File {
    if n in m then m[n] else FRESH
  }

  function Client(s: State): Node {
    Node(FileOf(s.cfiles, s.last), s.client)
  }

  function Server(s: State): Node {
    Node(FileOf(s.sfiles, s.name), s.server)
  }

  /** The server's end of the client's current session, whatever the server is called now. */
  function Peer(s: State): Node {
    Node(FileOf(s.sfiles, s.last), s.server)
  }

  function SetClient(s: State, x: Node): State {
    s.(client := x.s, cfiles := s.cfiles[s.last := x.f])
  }

  function SetServer(s: State, x: Node): State {
    s.(server := x.s, sfiles := s.sfiles[s.name := x.f])
  }

  datatype Act =
    | Push(m: Msg)
    | Pop
    | Send(whole: nat, part: nat, broke: bool)
    | Beat
    | Tear(bytes: nat)
    | Recv(frames: nat, header: bool)
    | Close

  datatype Step =
    | ClientAct(act: Act)
    | ServerAct(act: Act)
    | ClientCrash
    | ServerRestart(newName: Name)
    | Request
    | GiveUp
    | Answer(delivered: bool)
    | Complete

  ghost predicate NodeStep(x: Node, y: Node, linked: bool, cap: nat, act: Act, x': Node) {
    match act
    case Push(m) => CanPushN(x, cap, m) && x' == PushN(x, m)
    case Pop => CanPopN(x) && x' == PopN(x)
    case Send(whole, part, broke) => CanSendN(x, whole, part, broke) && x' == SendN(x, whole, part, broke)
    case Beat => CanBeatN(x) && x' == BeatN(x)
    case Tear(bytes) => CanTearN(x, bytes) && x' == TearN(x, bytes)
    case Recv(frames, header) => linked && CanRecvN(y, x, frames, header) && RecvN(y, x, frames, header, x')
    case Close => x' == CloseN(x)
  }

  /** LoginAck and the emptying of the buffers; defined as the queue defines it. */
  ghost predicate Opened(f: File, ack: U32, x: Node) {
    AckOk(f.q, ack) ==> x == OpenN(f, ack)
  }

  function LoginOf(s: State): Login {
    var q := Client(s).f.q;
    if s.last == "" then Login("", 0, 0, 0) else Login(s.last, q.ackSeq, q.readSeq, SeqEnd(q))
  }

  /** HandleLogin's view of its own file: kept if the client names this server, otherwise reset. */
  function LoginFile(s: State, login: Login): File {
    if login.last == s.name then FileOf(s.sfiles, s.name) else FRESH
  }

  /** HandleLogin's verdict, on the 32-bit values of both sides. */
  ghost predicate LoginPasses(s: State, login: Login) {
    var q := LoginFile(s, login).q;
    if login.last == s.name then
      Sane(q) && CheckAckInQueue(login.ack, q.readSeq, SeqEnd(q)) && CheckAckInQueue(q.ackSeq, login.start, login.end)
    else
      CheckAckInQueue(0, 0, 0)
  }

  /** The client's acknowledgement as the server uses it. */
  function LoginAckOf(s: State, login: Login): U32 {
    if login.last == s.name then login.ack else 0
  }

  ghost predicate AnswerStep(s: State, delivered: bool, s': State)
    requires s.net.Requested?
  {
    var login := s.net.login;
    var f := LoginFile(s, login);
    && !s.server.open
    && if !LoginPasses(s, login) || !delivered then
         s' == s.(sfiles := s.sfiles[s.name := f], net := Quiet)
       else
         exists x :: Opened(f, LoginAckOf(s, login), x)
           && s' == SetServer(s, x).(net := Answered(s.name, f.q.ackSeq), linked := false)
  }

  /** Connect's view of its own file: reset if the server's name has changed. */
  function CompleteFile(s: State): File
    requires s.net.Answered?
  {
    if s.net.server == s.last then Client(s).f else FRESH
  }

  ghost predicate CompleteStep(s: State, s': State)
    requires s.net.Answered?
  {
    exists x :: Opened(CompleteFile(s), s.net.ack, x)
      && s' == s.(last := s.net.server, client := x.s, cfiles := s.cfiles[s.net.server := x.f], net := Quiet, linked := true)
  }

  ghost predicate Next(s: State, step: Step, s': State) {
    match step
    case ClientAct(act) =>
      s.net.Quiet? && s.last != "" &&
      exists x :: NodeStep(Client(s), Peer(s), s.linked, s.cap, act, x) && s' == SetClient(s, x)
    case ServerAct(act) =>
      exists x :: NodeStep(Server(s), Client(s), s.linked, s.cap, act, x) && s' == SetServer(s, x)
    case ClientCrash => s' == s.(client := CrashN(Client(s)).s, net := Quiet)
    case ServerRestart(n) => n != "" && s' == s.(server := CrashN(Server(s)).s, name := n)
    case Request =>
      s.net.Quiet? && !s.client.open && (s.last != "" ==> Sane(Client(s).f.q)) && s' == s.(net := Requested(LoginOf(s)))
    case GiveUp => s' == s.(net := Quiet)
    case Answer(delivered) => s.net.Requested? && AnswerStep(s, delivered, s')
    case Complete => s.net.Answered? && CompleteStep(s, s')
  }

  const IDLE := Side(false, [], [], 0, 0, 0, 0, 0, 0, [])

  ghost predicate Init(s: State) {
    && s.cap < 0x2000_0000 && s.name != ""
    && s == State(s.cap, IDLE, IDLE, "", s.name, map[], map[], Quiet, false)
  }

  // ---- the invariant ----

  ghost predicate FilesInv(m: map<Name, File>, cap: nat) {
    forall n :: n in m ==> FileInv(m[n], cap)
  }

  /** a sends, y reads: y has consumed, and holds, a prefix of what a pushed, and a still has the rest. */
  ghost predicate Half(x: Node, y: Node) {
    Synced(x.f, y.f) && InboxInv(x.f, y)
  }

  /** One direction of a running connection. */
  ghost predicate Joined(x: Node, y: Node) {
    Stream(x) && (y.s.open ==> Reading(x, y) && Bounded(x, y))
  }

  ghost predicate OpenInv(x: Node) {
    x.s.open ==> SendInv(x) && Stream(x)
  }

  ghost predicate SessionInv(s: State) {
    && (s.last != "" ==> Half(Client(s), Peer(s)) && Half(Peer(s), Client(s)))
    && (s.server.inbox != [] ==> s.name == s.last)
    && (s.last == "" ==> !s.client.open)
  }

  ghost predicate LinkInv(s: State) {
    s.linked ==>
      && s.last != "" && !s.net.Answered?
      && Joined(Client(s), Peer(s)) && Joined(Peer(s), Client(s))
      && (s.server.open ==> s.name == s.last)
  }

  /** Between the server's answer and the client's Open: what the client's Open will find. */
  ghost predicate AnsweredInv(s: State)
    requires s.net.Answered?
  {
    var n := s.net.server;
    var c, p := CompleteFile(s), Node(FileOf(s.sfiles, n), s.server);
    && n != "" && !s.linked
    && Synced(c, p.f) && Synced(p.f, c) && s.net.ack == p.f.q.ackSeq
    && Stream(p) && p.s.base == p.f.read == |c.popped| && p.s.seen == 0 && p.s.inbox == []
    && HeedsRest(p, 0, |p.f.popped|) && Sane(c.q)
    && (p.s.open ==> s.name == n)
  }

  ghost predicate NetInv(s: State) {
    match s.net
    case Quiet => true
    case Requested(login) => !s.client.open && login == LoginOf(s) && (s.last != "" ==> Sane(Client(s).f.q))
    case Answered(_, _) => !s.client.open && AnsweredInv(s)
  }

  ghost predicate Inv(s: State) {
    && s.cap < 0x2000_0000 && s.name != ""
    && FilesInv(s.cfiles, s.cap) && FilesInv(s.sfiles, s.cap)
    && OpenInv(Client(s)) && OpenInv(Server(s))
    && SessionInv(s) && LinkInv(s) && NetInv(s)
  }

  lemma FilesHold(m: map<Name, File>, cap: nat, n: Name)
    requires FilesInv(m, cap)
    ensures FileInv(FileOf(m, n), cap)
  {
    FreshFile(cap);
  }

  lemma FreshFile(cap: nat)
    ensures FileInv(FRESH, cap)
  {
  }

  lemma InitHolds(s: State)
    requires Init(s)
    ensures Inv(s)
  {
  }

  /** What an acting node x has, and shares with its peer y. */
  ghost predicate Shared(x: Node, y: Node, cap: nat, linked: bool) {
    && FileInv(x.f, cap) && FileInv(y.f, cap) && cap < 0x2000_0000
    && Half(x, y) && Half(y, x) && OpenInv(x)
    && (linked ==> Joined(x, y) && Joined(y, x))
  }

  lemma PushShared(x: Node, y: Node, cap: nat, linked: bool, m: Msg)
    requires Shared(x, y, cap, linked) && CanPushN(x, cap, m)
    ensures Shared(PushN(x, m), y, cap, linked)
    ensures Stream(x) ==> Stream(PushN(x, m))
  {
    hide FileInv, Stream, SendInv, Apps, QPush, Fits;
    PushKeepsFile(x, cap, m);
    PushKeepsStream(x, m);
    PushShares(x, y, cap, m);
  }

  lemma PushShares(x: Node, y: Node, cap: nat, m: Msg)
    requires FileInv(x.f, cap) && Half(y, x)
    ensures Reading(x, y) ==> Reading(PushN(x, m), y)
    ensures Reading(y, x) ==> Reading(y, PushN(x, m))
  {
    hide Apps, Wrap, QValid, HistInv, HeedsRest;
    PushKeepsReading(x, y, m);
  }

  lemma PopShared(x: Node, y: Node, cap: nat, linked: bool)
    requires Shared(x, y, cap, linked) && CanPopN(x)
    ensures Shared(PopN(x), y, cap, linked)
    ensures Stream(x) ==> Stream(PopN(x))
  {
    hide FileInv, Stream, SendInv, Apps, QPop;
    PopKeepsFile(x, cap);
    PopKeepsStream(x);
    PopKeepsShared(x, y);
  }

  lemma SendShared(x: Node, y: Node, cap: nat, linked: bool, whole: nat, part: nat, broke: bool)
    requires Shared(x, y, cap, linked) && CanSendN(x, whole, part, broke)
    ensures Shared(SendN(x, whole, part, broke), y, cap, linked)
    ensures Stream(SendN(x, whole, part, broke))
  {
    hide FileInv, Stream, SendInv, Apps, SentBytes, TotalLen;
    SendKeepsFile(x, cap, whole, part, broke);
    SendKeepsStream(x, cap, whole, part, broke);
    SendKeepsShared(x, y, cap, whole, part, broke);
  }

  lemma BeatShared(x: Node, y: Node, cap: nat, linked: bool)
    requires Shared(x, y, cap, linked) && CanBeatN(x)
    ensures Shared(BeatN(x), y, cap, linked)
    ensures Stream(BeatN(x))
  {
    hide FileInv, SendInv, Apps, FrameOk;
    BeatKeeps(x, cap);
    BeatKeepsShared(x, y);
  }

  lemma TearShared(x: Node, y: Node, cap: nat, linked: bool, bytes: nat)
    requires Shared(x, y, cap, linked) && CanTearN(x, bytes)
    ensures Shared(TearN(x, bytes), y, cap, linked)
    ensures Stream(TearN(x, bytes))
  {
    hide FileInv, Apps, Stream, Reading;
    TearKeeps(x, y, bytes);
  }

  lemma RecvShared(x: Node, y: Node, cap: nat, frames: nat, header: bool, x': Node)
    requires Shared(x, y, cap, true) && CanRecvN(y, x, frames, header) && RecvN(y, x, frames, header, x')
    ensures Shared(x', y, cap, true)
    ensures AcksSafe(x.f.q, AcksOf(Heard(y, x, frames, header)))
    ensures Stream(x) ==> Stream(x')
  {
    hide FileInv, SendInv, Apps, AcksSafe, FAckAll, AcksOf;
    RecvKeepsFile(y, x, cap, frames, header, x');
    RecvKeepsReading(y, x, cap, frames, header, x');
    RecvKeepsInbox(y, x, cap, frames, header, x');
    SyncedReads(y.f, x.f);
    StreamIgnoresQueue(x, x');
  }

  /** The outgoing stream does not depend on the acknowledged part, the incoming half, or the socket being open. */
  lemma StreamIgnoresQueue(x: Node, x': Node)
    requires x'.f.hist == x.f.hist && x'.f.at == x.f.at && x'.f.popped == x.f.popped
    requires x'.s.done == x.s.done && x'.s.doneAt == x.s.doneAt && x'.s.part == x.s.part
    requires x'.s.base == x.s.base && x'.s.next == x.s.next && x'.s.torn == x.s.torn
    ensures Stream(x) ==> Stream(x')
  {
    hide Apps;
    if Stream(x) {
      forall i | 0 <= i < |x'.s.done|
        ensures FrameOk(x', i)
      {
        assert FrameOk(x, i);
      }
    }
  }

  lemma CloseShared(x: Node, y: Node, cap: nat, linked: bool)
    requires Shared(x, y, cap, linked)
    ensures Shared(CloseN(x), y, cap, linked)
    ensures Stream(x) ==> Stream(CloseN(x))
  {
    hide FileInv, SendInv, Apps, FrameOk;
    StreamIgnoresQueue(x, CloseN(x));
  }

  /** One step of either node keeps everything it shares with the other. */
  lemma ActKeeps(x: Node, y: Node, cap: nat, linked: bool, act: Act, x': Node)
    requires Shared(x, y, cap, linked) && NodeStep(x, y, linked, cap, act, x')
    ensures Shared(x', y, cap, linked)
    ensures Stream(x) ==> Stream(x')
  {
    hide Shared, Stream, CanPushN, CanPopN, CanSendN, CanBeatN, CanTearN, CanRecvN, RecvN;
    match act
    case Push(m) => PushShared(x, y, cap, linked, m);
    case Pop => PopShared(x, y, cap, linked);
    case Send(whole, part, broke) => SendShared(x, y, cap, linked, whole, part, broke);
    case Beat => BeatShared(x, y, cap, linked);
    case Tear(bytes) => TearShared(x, y, cap, linked, bytes);
    case Recv(frames, header) => RecvShared(x, y, cap, frames, header, x');
    case Close => CloseShared(x, y, cap, linked);
  }

  /** A server whose client is not on its connection keeps its own half in order. */
  ghost predicate Alone(x: Node, cap: nat) {
    FileInv(x.f, cap) && cap < 0x2000_0000 && OpenInv(x) && x.s.inbox == []
  }

  /** What a step of such a server leaves as it was. */
  ghost predicate AloneSame(x: Node, x': Node) {
    && x'.f.popped == x.f.popped && x'.f.read == x.f.read && x.f.hist <= x'.f.hist
    && x'.f.q.ackSeq == x.f.q.ackSeq
    && x'.s.base == x.s.base && x'.s.seen == x.s.seen
    && (x'.s.open ==> x.s.open) && (!x.s.open ==> x'.s == x.s)
  }

  lemma AloneKeeps(x: Node, y: Node, cap: nat, linked: bool, act: Act, x': Node)
    requires Alone(x, cap) && (linked ==> !x.s.open) && NodeStep(x, y, linked, cap, act, x')
    ensures Alone(x', cap) && AloneSame(x, x')
    ensures Stream(x) ==> Stream(x') && Heeding(x, x')
  {
    hide FileInv, Stream, SendInv, Apps, FrameOk, SentBytes, TotalLen, HeedsRest;
    match act
    case Push(m) =>
      PushKeepsFile(x, cap, m);
      PushKeepsStream(x, m);
      AddsRecent(x, x', cap);
    case Send(whole, part, broke) =>
      SendKeepsFile(x, cap, whole, part, broke);
      SendKeepsStream(x, cap, whole, part, broke);
      SendHeeds(x, cap, whole, part, broke);
    case Beat =>
      BeatKeeps(x, cap);
      AddsRecent(x, x', cap);
    case Tear(bytes) =>
      TearKeeps(x, y, bytes);
      AddsRecent(x, x', cap);
    case Close =>
      StreamIgnoresQueue(x, CloseN(x));
      AddsRecent(x, x', cap);
    case Pop =>
    case Recv(_, _) =>
  }

  /** A peer that has heard of all that x consumed still takes for what they are the counts to come. */
  ghost predicate Heeding(x: Node, x': Node) {
    HeedsRest(x, 0, |x.f.popped|) ==> HeedsRest(x', 0, |x.f.popped|)
  }

  /** What x adds to its stream and its queue carries its present count. */
  lemma AddsRecent(x: Node, x': Node, cap: nat)
    requires x.s.doneAt <= x'.s.doneAt && x.f.at <= x'.f.at && x'.s.next == x.s.next
    requires forall i :: |x.s.doneAt| <= i < |x'.s.doneAt| ==> x'.s.doneAt[i] == |x.f.popped|
    requires forall k :: |x.f.at| <= k < |x'.f.at| ==> x'.f.at[k] == |x.f.popped|
    ensures Heeding(x, x')
  {
    hide Wrap;
  }

  lemma SendHeeds(x: Node, cap: nat, whole: nat, part: nat, broke: bool)
    requires CanSendN(x, whole, part, broke)
    ensures Heeding(x, SendN(x, whole, part, broke))
  {
    hide TotalBlocks, TotalLen, Wrap, QSendout;
  }

  // ---- every step keeps the invariant ----

  lemma FilesUpdate(m: map<Name, File>, cap: nat, n: Name, f: File)
    requires FilesInv(m, cap) && FileInv(f, cap)
    ensures FilesInv(m[n := f], cap) && FileOf(m[n := f], n) == f
    ensures forall k :: k != n ==> FileOf(m[n := f], k) == FileOf(m, k)
  {
    hide FileInv;
  }

  lemma ClientActKeeps(s: State, act: Act, x: Node)
    requires Inv(s) && s.net.Quiet? && s.last != ""
    requires NodeStep(Client(s), Peer(s), s.linked, s.cap, act, x)
    ensures Inv(SetClient(s, x))
  {
    hide FileInv, FilesInv, Half, Joined, OpenInv, NodeStep, Stream;
    FilesHold(s.cfiles, s.cap, s.last);
    FilesHold(s.sfiles, s.cap, s.last);
    ActKeeps(Client(s), Peer(s), s.cap, s.linked, act, x);
    FilesUpdate(s.cfiles, s.cap, s.last, x.f);
    var s' := SetClient(s, x);
    assert Client(s') == x && Peer(s') == Peer(s) && Server(s') == Server(s);
  }

  lemma ServerActKeeps(s: State, act: Act, x: Node)
    requires Inv(s) && NodeStep(Server(s), Client(s), s.linked, s.cap, act, x)
    ensures Inv(SetServer(s, x))
  {
    hide FileInv, FilesInv, OpenInv, NodeStep, Stream, Alone, AloneSame, Heeding, HeedsRest, AnsweredInv;
    FilesHold(s.cfiles, s.cap, s.last);
    FilesHold(s.sfiles, s.cap, s.name);
    var s' := SetServer(s, x);
    if s.name == s.last {
      ActKeeps(Server(s), Client(s), s.cap, s.linked, act, x);
      FilesUpdate(s.sfiles, s.cap, s.name, x.f);
      assert Client(s') == Client(s) && Peer(s') == x && Server(s') == x;
    } else {
      StartsAlone(s);
      AloneKeeps(Server(s), Client(s), s.cap, s.linked, act, x);
      AloneMeans(Server(s), x, s.cap);
      FilesUpdate(s.sfiles, s.cap, s.name, x.f);
      assert Client(s') == Client(s) && Server(s') == x && Peer(s') == Node(Peer(s).f, x.s);
      OtherPeer(s, x);
    }
    if s.net.Answered? {
      ServerActAnswered(s, act, x);
    }
  }

  /** Away from the client's session, the server has nothing waiting, and if linked is closed. */
  lemma StartsAlone(s: State)
    requires Inv(s) && (s.name != s.last || s.net.Answered?)
    ensures Alone(Server(s), s.cap) && (s.linked ==> !s.server.open)
  {
    hide FileInv, FilesInv, OpenInv, Stream, Half, Joined;
    FilesHold(s.sfiles, s.cap, s.name);
  }

  lemma AloneMeans(x: Node, x': Node, cap: nat)
    requires Alone(x', cap) && AloneSame(x, x')
    ensures FileInv(x'.f, cap) && OpenInv(x') && x'.s.inbox == []
    ensures !x.s.open ==> x'.s == x.s
  {
    hide FileInv, OpenInv;
  }

  lemma OtherPeer(s: State, x: Node)
    requires Inv(s) && s.name != s.last && x.s.inbox == [] && (!s.server.open ==> x.s == s.server)
    ensures SessionInv(SetServer(s, x)) && LinkInv(SetServer(s, x))
  {
    hide FileInv, FilesInv, OpenInv, Stream, Joined, NetInv;
    var s' := SetServer(s, x);
    assert Client(s') == Client(s) && Peer(s') == Node(Peer(s).f, x.s);
  }

  lemma ServerActAnswered(s: State, act: Act, x: Node)
    requires Inv(s) && s.net.Answered? && NodeStep(Server(s), Client(s), s.linked, s.cap, act, x)
    ensures AnsweredInv(SetServer(s, x))
  {
    hide FileInv, FilesInv, OpenInv, NodeStep, Stream, Half, Joined, HeedsRest;
    StartsAlone(s);
    AloneKeeps(Server(s), Client(s), s.cap, s.linked, act, x);
    AloneMeans(Server(s), x, s.cap);
    var s' := SetServer(s, x);
    assert CompleteFile(s') == CompleteFile(s);
    if s.net.server == s.name {
      assert Node(FileOf(s'.sfiles, s.name), s'.server) == x;
      assert Node(FileOf(s.sfiles, s.name), s.server) == Server(s);
    } else {
      assert x.s == s.server;
      assert FileOf(s'.sfiles, s.net.server) == FileOf(s.sfiles, s.net.server);
    }
  }

  /** Losing the receive buffer and the socket keeps what the two sides share. */
  lemma CrashShared(x: Node, y: Node)
    requires Half(x, y) && Half(y, x)
    ensures Half(CrashN(x), y) && Half(y, CrashN(x)) && OpenInv(CrashN(x))
    ensures Joined(x, y) ==> Joined(CrashN(x), y)
    ensures Joined(y, x) ==> Joined(y, CrashN(x))
    ensures Stream(x) ==> Stream(CrashN(x))
  {
    hide Apps, FrameOk, TotalLen;
    StreamIgnoresQueue(x, CrashN(x));
    assert x.f.popped + [] == x.f.popped;
  }

  lemma CrashKeeps(s: State)
    requires Inv(s)
    ensures Inv(s.(client := CrashN(Client(s)).s, net := Quiet))
  {
    hide FileInv, FilesInv, Half, Joined, Stream, OpenInv, AnsweredInv;
    var s' := s.(client := CrashN(Client(s)).s, net := Quiet);
    assert Client(s') == CrashN(Client(s)) && Peer(s') == Peer(s) && Server(s') == Server(s);
    ClosedIsOpenInv(CrashN(Client(s)));
    if s.last != "" {
      CrashShared(Client(s), Peer(s));
    }
  }

  lemma ClosedIsOpenInv(x: Node)
    requires !x.s.open
    ensures OpenInv(x)
  {
  }

  lemma RestartKeeps(s: State, newName: Name)
    requires Inv(s) && newName != ""
    ensures Inv(s.(server := CrashN(Server(s)).s, name := newName))
  {
    hide FileInv, FilesInv, Half, Joined, Stream, OpenInv, HeedsRest;
    var s' := s.(server := CrashN(Server(s)).s, name := newName);
    assert Client(s') == Client(s) && Peer(s') == CrashN(Peer(s));
    ClosedIsOpenInv(Server(s'));
    if s.last != "" {
      CrashShared(Peer(s), Client(s));
    }
    if s.net.Answered? {
      assert CompleteFile(s') == CompleteFile(s);
      var p := Node(FileOf(s.sfiles, s.net.server), s.server);
      StreamIgnoresQueue(p, CrashN(p));
      HeedsIgnoresCrash(p, |p.f.popped|);
    }
  }

  lemma HeedsIgnoresCrash(x: Node, read: nat)
    requires HeedsRest(x, 0, read)
    ensures HeedsRest(CrashN(x), 0, read)
  {
  }

  lemma NetChangeKeeps(s: State, net: Net)
    requires Inv(s)
    requires net == Quiet
      || (net == Requested(LoginOf(s)) && !s.client.open && (s.last != "" ==> Sane(Client(s).f.q)))
    ensures Inv(s.(net := net))
  {
    hide FileInv, FilesInv, Half, Joined, Stream, OpenInv, AnsweredInv;
    var s' := s.(net := net);
    assert Client(s') == Client(s) && Peer(s') == Peer(s) && Server(s') == Server(s);
  }

  /** The client names this server: both kept their files, the tests pass exactly if the server's file is in the window,
      and then the server rewinds to the client's count. */
  lemma ResumeAnswer(s: State)
    requires Inv(s) && s.net.Requested? && !s.server.open && s.net.login.last == s.name
    ensures s.last == s.name && LoginFile(s, s.net.login) == Server(s).f == Peer(s).f
    ensures LoginPasses(s, s.net.login) <==> Sane(Server(s).f.q)
    ensures LoginAckOf(s, s.net.login) == Wrap(|Client(s).f.popped|)
    ensures Server(s).f.read <= |Client(s).f.popped| <= |Server(s).f.hist|
  {
    hide FilesInv, Joined, Stream, OpenInv, HistInv, QValid, Diff, Wrap, Sane;
    FilesHold(s.cfiles, s.cap, s.last);
    FilesHold(s.sfiles, s.cap, s.name);
    LoginTestPasses(Server(s).f, Client(s).f, s.cap);
    LoginTestPasses(Client(s).f, Server(s).f, s.cap);
  }

  /** A file in the window, rewound: its peer, at our count, heeds all that will come. */
  lemma OpenedHeeds(f: File, cap: nat, t: nat)
    requires FileInv(f, cap) && cap < 0x2000_0000 && f.read <= t <= |f.hist| && Sane(f.q) && AckOk(f.q, Wrap(t))
    ensures HeedsRest(OpenN(f, Wrap(t)), 0, |f.popped|)
  {
    hide Wrap, Released, QLoginAck, QValid, Sane, AllWf;
    SaneExactlyInWindow(f, cap);
    OpenKeeps(f, cap, t);
    hide FileInv, HistInv;
  }

  lemma ResumeAnswerKeeps(s: State, x: Node)
    requires Inv(s) && s.net.Requested? && !s.server.open && s.net.login.last == s.name
    requires Opened(Server(s).f, LoginAckOf(s, s.net.login), x) && Sane(Server(s).f.q)
    ensures Inv(SetServer(s, x).(net := Answered(s.name, Server(s).f.q.ackSeq), linked := false))
  {
    hide FilesInv, Joined, HistInv, QValid, Diff, Wrap, Apps, FrameOk, OpenN, AckOk, LoginFile, LoginPasses, TotalLen;
    hide HeedsRest, Sane, Ascending;
    ResumeAnswer(s);
    FilesHold(s.cfiles, s.cap, s.last);
    FilesHold(s.sfiles, s.cap, s.name);
    OpenKeeps(Server(s).f, s.cap, |Client(s).f.popped|);
    OpenedHeeds(Server(s).f, s.cap, |Client(s).f.popped|);
    OpenedSide(Server(s).f, Wrap(|Client(s).f.popped|));
    FilesUpdate(s.sfiles, s.cap, s.name, x.f);
    OpenAckSame(Server(s).f, Wrap(|Client(s).f.popped|));
    var s' := SetServer(s, x).(net := Answered(s.name, Server(s).f.q.ackSeq), linked := false);
    assert Client(s') == Client(s) && Peer(s') == x && Server(s') == x;
    assert CompleteFile(s') == Client(s).f;
    assert x.f.popped + [] == x.f.popped;
  }

  lemma OpenedSide(f: File, ack: U32)
    requires AckOk(f.q, ack)
    ensures var x := OpenN(f, ack);
      x.s.open && x.s.done == [] && x.s.doneAt == [] && x.s.seen == 0 && x.s.inbox == [] && x.s.part == 0
  {
  }

  lemma OpenAckSame(f: File, ack: U32)
    requires AckOk(f.q, ack)
    ensures OpenN(f, ack).f.q.ackSeq == f.q.ackSeq
  {
    hide Released, TotalBlocks;
  }

  /** Any other login resets the server's file; nothing of the client's session is touched. */
  lemma ResetKeeps(s: State)
    requires Inv(s) && s.net.Requested? && !s.server.open && s.net.login.last != s.name
    ensures s.last != s.name && s.server.inbox == []
    ensures Inv(s.(sfiles := s.sfiles[s.name := FRESH], net := Quiet))
  {
    hide FileInv, FilesInv, Half, Joined, Stream, OpenInv;
    var s' := s.(sfiles := s.sfiles[s.name := FRESH], net := Quiet);
    FreshFile(s.cap);
    FilesUpdate(s.sfiles, s.cap, s.name, FRESH);
    assert Client(s') == Client(s) && Peer(s') == Peer(s);
    ClosedIsOpenInv(Server(s'));
  }

  lemma FreshSane()
    ensures Sane(FRESH.q)
  {
  }

  /** A server that starts a session afresh. */
  lemma FreshOpened(cap: nat, x: Node)
    requires cap < 0x2000_0000 && Opened(FRESH, 0, x)
    ensures FileInv(x.f, cap) && SendInv(x) && Stream(x) && HeedsRest(x, 0, 0)
    ensures x.s.base == x.f.read == 0 && x.f.popped == [] && x.f.hist == [] && x.f.q.ackSeq == 0
    ensures x.s.open && x.s.seen == 0 && x.s.inbox == []
  {
    hide HistInv, QValid, Diff, Apps, FrameOk, OpenN, AckOk, TotalLen, HeedsRest, Sane, Ascending;
    FreshFile(cap);
    FreshSane();
    OpenKeeps(FRESH, cap, 0);
    OpenedHeeds(FRESH, cap, 0);
    OpenedSide(FRESH, 0);
    OpenAckSame(FRESH, 0);
  }

  /** The server's file under its own name is x's now; nothing else is touched. */
  lemma ServerTakes(s: State, x: Node, net: Net)
    ensures var s' := SetServer(s, x).(net := net, linked := false);
      && Client(s') == Client(s) && Server(s') == x && FileOf(s'.sfiles, s.name) == x.f
      && (s.last != s.name ==> Peer(s') == Node(Peer(s).f, x.s))
  {
  }

  lemma ResetAnswerSession(s: State, x: Node)
    requires Inv(s) && s.net.Requested? && s.last != s.name && x.s.inbox == []
    ensures SessionInv(SetServer(s, x).(net := Answered(s.name, 0), linked := false))
  {
    hide FilesInv, OpenInv, LinkInv;
    ServerTakes(s, x, Answered(s.name, 0));
    hide Client, Server, SetServer;
    assert Peer(s).f.popped + [] == Peer(s).f.popped;
  }

  lemma ResetAnswerNet(s: State, x: Node)
    requires Inv(s) && s.last != s.name && Opened(FRESH, 0, x)
    ensures AnsweredInv(SetServer(s, x).(net := Answered(s.name, 0), linked := false))
  {
    hide FileInv, FilesInv, OpenInv, SessionInv, LinkInv, NetInv, Stream, SendInv, Opened, HeedsRest, Sane;
    FreshSane();
    FreshOpened(s.cap, x);
    ServerTakes(s, x, Answered(s.name, 0));
  }

  lemma ResetAnswerKeeps(s: State, x: Node)
    requires Inv(s) && s.net.Requested? && !s.server.open && s.net.login.last != s.name
    requires Opened(FRESH, 0, x)
    ensures Inv(SetServer(s, x).(net := Answered(s.name, 0), linked := false))
  {
    hide FileInv, FilesInv, Stream, SendInv, Opened, HeedsRest, SessionInv, AnsweredInv;
    ResetKeeps(s);
    FreshOpened(s.cap, x);
    FilesUpdate(s.sfiles, s.cap, s.name, x.f);
    ServerTakes(s, x, Answered(s.name, 0));
    ResetAnswerSession(s, x);
    ResetAnswerNet(s, x);
  }

  lemma AnswerKeeps(s: State, delivered: bool, s': State)
    requires Inv(s) && s.net.Requested? && AnswerStep(s, delivered, s')
    ensures Inv(s')
  {
    hide Inv, Opened, LoginPasses;
    var login := s.net.login;
    if login.last == s.name {
      ResumeAnswer(s);
      if !LoginPasses(s, login) || !delivered {
        UnansweredKeeps(s);
      } else {
        var x :| Opened(Server(s).f, LoginAckOf(s, login), x)
          && s' == SetServer(s, x).(net := Answered(s.name, Server(s).f.q.ackSeq), linked := false);
        ResumeAnswerKeeps(s, x);
      }
    } else {
      ResetKeeps(s);
      if LoginPasses(s, login) && delivered {
        var x :| Opened(FRESH, 0, x) && s' == SetServer(s, x).(net := Answered(s.name, 0), linked := false);
        ResetAnswerKeeps(s, x);
      }
    }
  }

  lemma UnansweredKeeps(s: State)
    requires Inv(s)
    ensures Inv(s.(sfiles := s.sfiles[s.name := FileOf(s.sfiles, s.name)], net := Quiet))
  {
    hide FileInv, FilesInv, Half, Joined, OpenInv, Stream, AnsweredInv;
    FilesHold(s.sfiles, s.cap, s.name);
    FilesUpdate(s.sfiles, s.cap, s.name, FileOf(s.sfiles, s.name));
    var s' := s.(sfiles := s.sfiles[s.name := FileOf(s.sfiles, s.name)], net := Quiet);
    assert Client(s') == Client(s) && Peer(s') == Peer(s) && Server(s') == Server(s);
  }

  /** Once the client opens, both are on one connection and everything holds that a running connection needs. */
  lemma CompleteJoins(c: File, p: Node, cap: nat, x: Node)
    requires FileInv(c, cap) && FileInv(p.f, cap) && cap < 0x2000_0000
    requires Synced(c, p.f) && Synced(p.f, c) && Stream(p) && HeedsRest(p, 0, |p.f.popped|) && Sane(c.q)
    requires p.s.base == p.f.read == |c.popped| && p.s.seen == 0 && p.s.inbox == []
    requires Opened(c, p.f.q.ackSeq, x)
    ensures FileInv(x.f, cap) && OpenInv(x)
    ensures Half(x, p) && Half(p, x) && Joined(x, p) && Joined(p, x)
    ensures x.s.next == |p.f.popped| && x.f.hist == c.hist
  {
    hide HistInv, QValid, Diff, Wrap, Apps, FrameOk, OpenN, AckOk, TotalLen, HeedsRest, Sane, Ascending;
    OpenKeeps(c, cap, |p.f.popped|);
    OpenedHeeds(c, cap, |p.f.popped|);
    OpenedSide(c, Wrap(|p.f.popped|));
    NoFrames();
    assert p.s.done[..0] == [] && x.s.done[..0] == [];
    assert x.f.popped + [] == x.f.popped && p.f.popped + [] == p.f.popped;
  }

  lemma CompleteKeeps(s: State, x: Node)
    requires Inv(s) && s.net.Answered? && Opened(CompleteFile(s), s.net.ack, x)
    ensures var s' := s.(last := s.net.server, client := x.s, cfiles := s.cfiles[s.net.server := x.f], net := Quiet, linked := true);
      Inv(s') && Client(s') == x && x.s.next == |Peer(s').f.popped|
  {
    hide FilesInv, Half, Joined, Stream, OpenInv, Opened, HeedsRest, HistInv, QValid, Synced, Sane;
    FreshSane();
    var n := s.net.server;
    var s' := s.(last := n, client := x.s, cfiles := s.cfiles[n := x.f], net := Quiet, linked := true);
    var p := Node(FileOf(s.sfiles, n), s.server);
    FilesHold(s.cfiles, s.cap, s.last);
    FilesHold(s.sfiles, s.cap, n);
    FreshFile(s.cap);
    CompleteJoins(CompleteFile(s), p, s.cap, x);
    FilesUpdate(s.cfiles, s.cap, n, x.f);
    assert Client(s') == x && Peer(s') == p && Server(s') == Server(s);
  }

  lemma StepKeeps(s: State, step: Step, s': State)
    requires Inv(s) && Next(s, step, s')
    ensures Inv(s')
  {
    hide Inv, NodeStep, Opened, AnswerStep;
    match step
    case ClientAct(act) =>
      var x :| NodeStep(Client(s), Peer(s), s.linked, s.cap, act, x) && s' == SetClient(s, x);
      ClientActKeeps(s, act, x);
    case ServerAct(act) =>
      var x :| NodeStep(Server(s), Client(s), s.linked, s.cap, act, x) && s' == SetServer(s, x);
      ServerActKeeps(s, act, x);
    case ClientCrash => CrashKeeps(s);
    case ServerRestart(n) => RestartKeeps(s, n);
    case Request => NetChangeKeeps(s, Requested(LoginOf(s)));
    case GiveUp => NetChangeKeeps(s, Quiet);
    case Answer(delivered) => AnswerKeeps(s, delivered, s');
    case Complete =>
      var x :| Opened(CompleteFile(s), s.net.ack, x)
        && s' == s.(last := s.net.server, client := x.s, cfiles := s.cfiles[s.net.server := x.f], net := Quiet, linked := true);
      CompleteKeeps(s, x);
  }

  // ---- runs, and what holds in all of them ----

  ghost predicate Run(states: seq<State>, steps: seq<Step>) {
    && |states| == |steps| + 1
    && Init(states[0])
    && forall i :: 0 <= i < |steps| ==> Next(states[i], steps[i], states[i + 1])
  }

  ghost predicate Reachable(s: State) {
    exists states, steps :: Run(states, steps) && states[|steps|] == s
  }

  lemma {:induction false} RunKeeps(states: seq<State>, steps: seq<Step>, i: nat)
    requires Run(states, steps) && i <= |steps|
    ensures Inv(states[i])
    decreases i
  {
    hide Inv, Next, Init;
    if i == 0 {
      InitHolds(states[0]);
    } else {
      RunKeeps(states, steps, i - 1);
      assert Next(states[i - 1], steps[i - 1], states[i - 1 + 1]);
      StepKeeps(states[i - 1], steps[i - 1], states[i]);
    }
  }

  lemma ReachableInv(s: State)
    requires Reachable(s)
    ensures Inv(s)
  {
    hide Inv, Next, Init;
    var states, steps :| Run(states, steps) && states[|steps|] == s;
    RunKeeps(states, steps, |steps|);
  }

  /** One direction of the guarantee: `to` has consumed exactly a prefix of what `from` pushed, contents and order
      included; its counter is that prefix's length; and the rest is still in the sender's queue. */
  ghost predicate ExactlyOnce(from: File, to: File) {
    && to.popped <= from.hist
    && to.q.ackSeq == Wrap(|to.popped|)
    && from.read <= |to.popped| <= |from.hist|
    && from.q.msgs == from.hist[from.read..]
    && from.q.readSeq == Wrap(from.read)
  }

  /** The headline: in every reachable state, over any number of cuts, crashes, retransmissions and logins of a session. */
  lemma ExactlyOnceDelivery(s: State)
    requires Reachable(s) && s.last != ""
    ensures ExactlyOnce(Client(s).f, Peer(s).f) && ExactlyOnce(Peer(s).f, Client(s).f)
  {
    hide Reachable, FilesInv, HistInv, QValid, Joined;
    ReachableInv(s);
    FilesHold(s.cfiles, s.cap, s.last);
    FilesHold(s.sfiles, s.cap, s.last);
  }

  /** Discharges what the queue's Ack assumes: every acknowledgement either side hears names a message boundary within
      what it has sent, or is recognised as old, so the do-while ends and the indices stay ordered. */
  lemma AcksNeverOutrunSends(s: State, frames: nat, header: bool)
    requires Reachable(s) && s.linked
    ensures s.net.Quiet? && CanRecvN(Peer(s), Client(s), frames, header) ==>
      AcksSafe(Client(s).f.q, AcksOf(Heard(Peer(s), Client(s), frames, header)))
    ensures CanRecvN(Client(s), Server(s), frames, header) ==>
      AcksSafe(Server(s).f.q, AcksOf(Heard(Client(s), Server(s), frames, header)))
  {
    hide Reachable, FilesInv, FileInv, Half, Joined, Stream, OpenInv, AcksSafe, AcksOf, Heard;
    ReachableInv(s);
    FilesHold(s.cfiles, s.cap, s.last);
    FilesHold(s.sfiles, s.cap, s.last);
    if CanRecvN(Peer(s), Client(s), frames, header) {
      HeardSafe(Client(s), Peer(s), s.cap, frames, header);
    }
    if CanRecvN(Client(s), Server(s), frames, header) {
      HeardSafe(Server(s), Client(s), s.cap, frames, header);
    }
  }

  lemma HeardSafe(x: Node, y: Node, cap: nat, frames: nat, header: bool)
    requires Shared(x, y, cap, true) && CanRecvN(y, x, frames, header)
    ensures AcksSafe(x.f.q, AcksOf(Heard(y, x, frames, header)))
  {
    hide FileInv, Stream, Reading, Synced, InboxInv, AcksOf, AcksSafe, SendInv;
    HeardCounts(y, x, cap, frames, header);
    AcksKeep(x, cap, HeardAt(y, x, frames, header), AcksOf(Heard(y, x, frames, header)), |y.f.popped|);
  }

  /** The index invariant of every queue file, on both sides, in every reachable state; and exactly when
      SanityCheckAndGetSeq accepts it. */
  lemma EveryFileInOrder(s: State, n: Name)
    requires Reachable(s)
    ensures n in s.cfiles ==> FileInOrder(s.cfiles[n], s.cap)
    ensures n in s.sfiles ==> FileInOrder(s.sfiles[n], s.cap)
  {
    hide Reachable, Sane, QValid, HistInv, InWindow;
    ReachableInv(s);
    if n in s.cfiles {
      SaneExactlyInWindow(s.cfiles[n], s.cap);
    }
    if n in s.sfiles {
      SaneExactlyInWindow(s.sfiles[n], s.cap);
    }
  }

  ghost predicate FileInOrder(f: File, cap: nat) {
    QValid(f.q, cap) && |f.hist| == |f.at| && (Sane(f.q) <==> InWindow(f))
  }

  /** The queue is rewound to message t of the session, and nothing after it has been sent. */
  ghost predicate ResendsFrom(x: Node, t: nat) {
    && x.s.open && x.s.next == t <= |x.f.hist| && x.f.q.msgs == x.f.hist[t..] && x.f.q.sent == 0 && x.s.done == [] && x.s.part == 0
  }

  /** Login resynchronises honest peers: whatever the run, a login that names a server which is not live passes exactly
      if the stamps queued there are in the window; it then leaves the server about to send exactly the first message the
      client has not consumed, and otherwise leaves the server's file alone. */
  lemma LoginResumes(s: State, s': State)
    requires Reachable(s) && s.net.Requested? && s.net.login.last == s.name && AnswerStep(s, true, s')
    ensures |Server(s).f.hist| == |Server(s).f.at|
    ensures LoginPasses(s, s.net.login) <==> InWindow(Server(s).f)
    ensures InWindow(Server(s).f) ==> s'.net.Answered? && ResendsFrom(Server(s'), |Client(s).f.popped|)
    ensures InWindow(Server(s).f) ==> Server(s').f.hist == Server(s).f.hist
    ensures !InWindow(Server(s).f) ==> s'.net.Quiet? && Server(s') == Server(s)
  {
    hide Reachable, Inv, LoginPasses, FilesInv, Released, OpenN, AckOk, Sane, InWindow;
    ReachableInv(s);
    ResumeAnswer(s);
    InvFiles(s);
    SaneExactlyInWindow(Server(s).f, s.cap);
    if LoginPasses(s, s.net.login) {
      var x :| Opened(Server(s).f, LoginAckOf(s, s.net.login), x)
        && s' == SetServer(s, x).(net := Answered(s.name, Server(s).f.q.ackSeq), linked := false);
      OpenKeeps(Server(s).f, s.cap, |Client(s).f.popped|);
      OpenedSide(Server(s).f, Wrap(|Client(s).f.popped|));
      assert Server(s') == x;
    }
  }

  /** The client's own check, before it even connects. */
  lemma RequestsExactlyInWindow(s: State)
    requires Reachable(s) && s.net.Quiet? && !s.client.open && s.last != ""
    ensures |Client(s).f.hist| == |Client(s).f.at|
    ensures (exists s' :: Next(s, Request, s')) <==> InWindow(Client(s).f)
  {
    hide Reachable, Inv, FilesInv, Sane, InWindow;
    ReachableInv(s);
    InvFiles(s);
    SaneExactlyInWindow(Client(s).f, s.cap);
    if Sane(Client(s).f.q) {
      assert Next(s, Request, s.(net := Requested(LoginOf(s))));
    }
  }

  lemma InvFiles(s: State)
    requires Inv(s)
    ensures FileInv(Client(s).f, s.cap) && FileInv(Server(s).f, s.cap) && FileInv(Peer(s).f, s.cap)
    ensures s.cap < 0x2000_0000
  {
    hide FileInv, SessionInv, LinkInv, NetInv;
    FilesHold(s.cfiles, s.cap, s.last);
    FilesHold(s.sfiles, s.cap, s.name);
    FilesHold(s.sfiles, s.cap, s.last);
  }

  /** And when the client has opened too, it is about to send exactly the first message the server has not consumed. */
  lemma LoginCompletes(s: State, s': State)
    requires Reachable(s) && s.net.Answered? && CompleteStep(s, s')
    ensures s'.linked && s'.last == s.net.server
    ensures ResendsFrom(Client(s'), |Peer(s').f.popped|) && Peer(s').s.base == |Client(s').f.popped|
  {
    hide Reachable, FilesInv, Joined, Stream, OpenInv, HeedsRest, HistInv, QValid, OpenN, AckOk, Sane;
    ReachableInv(s);
    var x :| Opened(CompleteFile(s), s.net.ack, x)
      && s' == s.(last := s.net.server, client := x.s, cfiles := s.cfiles[s.net.server := x.f], net := Quiet, linked := true);
    CompleteKeeps(s, x);
    FilesHold(s.cfiles, s.cap, s.last);
    FilesHold(s.sfiles, s.cap, s.net.server);
    FreshFile(s.cap);
    var p := Node(FileOf(s.sfiles, s.net.server), s.server);
    OpenKeeps(CompleteFile(s), s.cap, |p.f.popped|);
    OpenedSide(CompleteFile(s), Wrap(|p.f.popped|));
    assert Client(s') == x && Peer(s') == p;
  }
}
