/** The login itself, on the objects: what the server and the client do with their PTCPConnection from the login message
    on. Each method runs the code's own tests and calls, and is the Request, Answer or Complete step of the protocol. */
module LoginSteps {
  import opened Word32
  import opened MsgHeaders
  import opened PtcpQueueSpec
  import opened PtcpQueues
  import opened PtcpConnections
  import opened RecoveryNode
  import opened RecoverySteps
  import opened RecoveryProtocol
  import opened RecoverySessions
  import opened ConnectionSteps

  /** A connection without a socket, over a mapped queue file. */
  ghost predicate Idle(c: PtcpConnection)
    reads c, c.recvbuf, c.q, c.q.blk
  {
    c.IsClosed() && c.fdToClose == INVALID && c.RecvValid() && c.QueueOk() && c.recvbuf as object != c.q.blk
  }

  ghost predicate AtRest(f: File, c: PtcpConnection)
    reads c, c.recvbuf, c.q, c.q.blk
  {
    Idle(c) && c.q.Abs() == f.q
  }

  /** How the server's handling of a login ends. */
  datatype Status = LoggedOn | SeqMismatch | SystemError | ReplyLost

  // ---- the server ----

  /** The count behind the acknowledgement the server opens for. */
  ghost function CountOf(s: State): nat
    requires s.net.Requested?
  {
    if s.net.login.last == s.name then |Client(s).f.popped| else 0
  }

  lemma AnswerCounts(s: State)
    requires Inv(s) && s.net.Requested? && !s.server.open
    ensures var f := LoginFile(s, s.net.login);
      && FileInv(f, s.cap) && s.cap < 0x2000_0000
      && f.read <= CountOf(s) <= |f.hist| && LoginAckOf(s, s.net.login) == Wrap(CountOf(s))
      && (s.net.login.last == s.name ==> f == Server(s).f)
      && (s.net.login.last != s.name ==> f == FRESH)
  {
    hide Inv, FileInv, Wrap, LoginPasses;
    InvFiles(s);
    FreshFile(s.cap);
    if s.net.login.last == s.name {
      ResumeAnswer(s);
    }
    WrapSmall(0);
  }

  /** The login is refused, or its reply lost: the file is kept, or reset, and the connection stays closed. */
  function Unanswered(s: State): State
    requires s.net.Requested?
  {
    s.(sfiles := s.sfiles[s.name := LoginFile(s, s.net.login)], net := Quiet)
  }

  function Answering(s: State, x: Node): State
    requires s.net.Requested?
  {
    SetServer(s, x).(net := Answered(s.name, LoginFile(s, s.net.login).q.ackSeq), linked := false)
  }

  lemma RefusalIsAnswer(s: State, delivered: bool)
    requires s.net.Requested? && !s.server.open && (!LoginPasses(s, s.net.login) || !delivered)
    ensures Next(s, Answer(delivered), Unanswered(s))
    ensures Server(Unanswered(s)).f == LoginFile(s, s.net.login)
  {
    hide LoginPasses;
  }

  lemma OpeningIsAnswer(s: State)
    requires s.net.Requested? && !s.server.open && LoginPasses(s, s.net.login)
    requires AckOk(LoginFile(s, s.net.login).q, LoginAckOf(s, s.net.login))
    ensures var x := OpenN(LoginFile(s, s.net.login), LoginAckOf(s, s.net.login));
      Next(s, Answer(true), Answering(s, x)) && Server(Answering(s, x)) == x
  {
    hide LoginPasses, OpenN, AckOk, LoginFile, LoginAckOf;
    var f, ack := LoginFile(s, s.net.login), LoginAckOf(s, s.net.login);
    var x := OpenN(f, ack);
    assert Opened(f, ack, x);
  }

  /** Each side's count lies in the other's queue. */
  predicate CountsAgree(q: QState, login: Login) {
    CheckAckInQueue(login.ack, q.readSeq, SeqEnd(q)) && CheckAckInQueue(q.ackSeq, login.start, login.end)
  }

  lemma ResetAgrees()
    ensures CheckAckInQueue(0, 0, 0)
  {
  }

  /** HandleLogin, once the client's name has found its connection and the files are mapped. */
  method HandleLogin(c: PtcpConnection, login: Login, serverName: Name, fd: int, delivered: bool, now: int,
                     script: seq<SendResult>, ghost s: State)
    returns (status: Status, localAck: U32, ghost s1: State, ghost x': Node)
    requires Inv(s) && s.net == Requested(login) && s.name == serverName && !s.server.open
    requires AtRest(Server(s).f, c) && c.q.blockCount == s.cap && fd != INVALID
    modifies c, c.q, c.q.blk
    ensures Next(s, Answer(delivered), s1)
    ensures status.LoggedOn? ==>
      s1.net == Answered(serverName, localAck) && SentAs(Server(s1), x') && Describes(x', c) && c.fdToClose == fd
    ensures !status.LoggedOn? ==> s1.net.Quiet? && AtRest(Server(s1).f, c)
    ensures status.LoggedOn? <==> LoginPasses(s, login) && delivered
    // a login that names another server as its last is never refused: the file is reset, and 0 tested against 0
    ensures status.SystemError? <==> login.last == serverName && !Sane(Server(s).f.q)
    ensures status.SeqMismatch? <==> login.last == serverName && Sane(Server(s).f.q) && !CountsAgree(Server(s).f.q, login)
    ensures status.ReplyLost? <==> LoginPasses(s, login) && !delivered
  {
    hide Inv, FileInv, Wrap, SentAs, Describes, OpenN, AckOk, Next, SetServer, CheckAckInQueue, Sane;
    hide PtcpConnection.RecvValid, PtcpQueue.Valid;
    AnswerCounts(s);
    ResetAgrees();
    x' := Server(s);
    s1 := Unanswered(s);
    var start, end;
    var remoteAck, remoteStart, remoteEnd := login.ack, login.start, login.end;
    localAck, start, end := 0, 0, 0;
    if login.last != serverName {
      c.q.Reset();
      remoteAck, remoteStart, remoteEnd := 0, 0, 0;
    } else {
      localAck := c.q.ackSeqNum;
      var sane;
      sane, start, end := c.q.SanityCheckAndGetSeq();
      if !sane {
        RefusalIsAnswer(s, delivered);
        return SystemError, localAck, s1, x';
      }
    }
    if !CheckAckInQueue(remoteAck, start, end) || !CheckAckInQueue(localAck, remoteStart, remoteEnd) {
      RefusalIsAnswer(s, delivered);
      return SeqMismatch, localAck, s1, x';
    }
    if !delivered {
      RefusalIsAnswer(s, delivered);
      return ReplyLost, localAck, s1, x';
    }
    x' := OpenStep(c, LoginFile(s, login), CountOf(s), fd, remoteAck, now, script);
    OpeningIsAnswer(s);
    s1 := Answering(s, OpenN(LoginFile(s, login), remoteAck));
    status := LoggedOn;
  }

  // ---- the client ----

  /** Connect up to its login message: the client's own check, and the values it sends. */
  method RequestLogin(c: PtcpConnection, last: Name, ghost s: State) returns (ok: bool, login: Login)
    requires s.net.Quiet? && !s.client.open && s.last == last && (last != "" ==> AtRest(Client(s).f, c))
    ensures ok <==> last == "" || Sane(Client(s).f.q)
    ensures ok ==> login == LoginOf(s) && Next(s, Request, s.(net := Requested(login)))
  {
    hide Sane, PtcpConnection.RecvValid, PtcpQueue.Valid;
    if last == "" {
      return true, Login("", 0, 0, 0);
    }
    var start, end;
    ok, start, end := c.q.SanityCheckAndGetSeq();
    login := Login(last, c.q.ackSeqNum, start, end);
  }

  lemma CompleteCounts(s: State)
    requires Inv(s) && s.net.Answered?
    ensures FileInv(CompleteFile(s), s.cap) && s.cap < 0x2000_0000
    ensures var n := |FileOf(s.sfiles, s.net.server).popped|;
      s.net.ack == Wrap(n) && CompleteFile(s).read <= n <= |CompleteFile(s).hist|
  {
    hide Inv, FileInv, Wrap;
    InvFiles(s);
    FreshFile(s.cap);
    AckIsCount(s);
  }

  function Completed(s: State, x: Node): State
    requires s.net.Answered?
  {
    s.(last := s.net.server, client := x.s, cfiles := s.cfiles[s.net.server := x.f], net := Quiet, linked := true)
  }

  lemma OpeningIsComplete(s: State)
    requires s.net.Answered? && AckOk(CompleteFile(s).q, s.net.ack)
    ensures var x := OpenN(CompleteFile(s), s.net.ack);
      Next(s, Complete, Completed(s, x)) && Client(Completed(s, x)) == x
  {
    hide OpenN, AckOk;
    assert Opened(CompleteFile(s), s.net.ack, OpenN(CompleteFile(s), s.net.ack));
  }

  /** Connect from a successful answer on. A changed server name means another queue file, mapped in c, and reset. */
  method CompleteLogin(c: PtcpConnection, last: Name, server: Name, ack: U32, fd: int, now: int, script: seq<SendResult>,
                       ghost s: State)
    returns (ghost s1: State, ghost x': Node)
    requires Inv(s) && s.net == Answered(server, ack) && s.last == last && c.q.blockCount == s.cap && fd != INVALID
    requires Idle(c) && (server == last ==> AtRest(Client(s).f, c))
    modifies c, c.q, c.q.blk
    ensures Next(s, Complete, s1) && SentAs(Client(s1), x') && Describes(x', c) && c.fdToClose == fd
  {
    hide Inv, FileInv, Wrap, SentAs, Describes, OpenN, AckOk, Next, PtcpConnection.RecvValid, PtcpQueue.Valid;
    CompleteCounts(s);
    if server != last {
      c.q.Reset();
    }
    x' := OpenStep(c, CompleteFile(s), |FileOf(s.sfiles, server).popped|, fd, ack, now, script);
    OpeningIsComplete(s);
    s1 := Completed(s, OpenN(CompleteFile(s), ack));
  }
}
