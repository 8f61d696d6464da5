/** Sessions: when the two sides reset their queues, and what a reset costs. */
module RecoverySessions {
  import opened Word32
  import opened MsgHeaders
  import opened PtcpQueueSpec
  import opened RecoveryNode
  import opened RecoverySteps
  import opened RecoveryProtocol

  /** A login that goes on with the file it finds: everything pushed and consumed so far is still there. */
  ghost predicate Keeps(f: File, f': File) {
    f'.hist == f.hist && f'.popped == f.popped
  }

  /** A login that begins a session: nothing has been pushed or consumed. */
  ghost predicate Begins(f: File) {
    f.hist == [] && f.popped == []
  }

  /** Step i of the run answers the login that is answered, and not yet completed or given up, in state k. */
  ghost predicate AnsweredAt(states: seq<State>, steps: seq<Step>, i: nat, k: nat) {
    && i < k < |states| && |states| == |steps| + 1
    && steps[i] == Answer(true) && states[i].net.Requested?
    && (forall j :: i < j <= k ==> states[j].net.Answered?)
    && states[k].net.server == states[i].name && states[k].last == states[i].net.login.last
  }

  /** An answered login stays what it is until it is completed, given up or lost in a crash. */
  lemma AnsweredStays(s: State, step: Step, s': State)
    requires Inv(s) && Next(s, step, s') && s'.net.Answered?
    ensures s.net.Requested? || s.net.Answered?
    ensures s.net.Answered? ==> s'.net == s.net && s'.last == s.last
    ensures s.net.Requested? ==> step == Answer(true) && s'.net.server == s.name && s'.last == s.last == s.net.login.last
  {
    hide NodeStep, Opened, FilesInv, OpenInv, SessionInv, LinkInv, AnsweredInv, LoginPasses;
  }

  /** The answer behind a login that the client is about to complete. */
  lemma {:induction false} AnswerBefore(states: seq<State>, steps: seq<Step>, k: nat)
    requires Run(states, steps) && k <= |steps| && states[k].net.Answered?
    ensures exists i: nat :: AnsweredAt(states, steps, i, k)
    decreases k
  {
    hide Inv, Next;
    RunKeeps(states, steps, k - 1);
    assert Next(states[k - 1], steps[k - 1], states[k - 1 + 1]);
    AnsweredStays(states[k - 1], steps[k - 1], states[k]);
    if states[k - 1].net.Answered? {
      AnswerBefore(states, steps, k - 1);
      var i: nat :| AnsweredAt(states, steps, i, k - 1);
      assert AnsweredAt(states, steps, i, k);
    } else {
      assert AnsweredAt(states, steps, k - 1, k);
    }
  }

  /** What the server's Open finds: its file as it was, or an empty one. */
  lemma AnswerEffect(s: State, s': State)
    requires Inv(s) && s.net.Requested? && AnswerStep(s, true, s') && s'.net.Answered?
    ensures if s.net.login.last == s.name then Keeps(Server(s).f, Server(s').f) else Begins(Server(s').f)
  {
    hide FilesInv, OpenInv, SessionInv, LinkInv, AnsweredInv, LoginPasses, QLoginAck, QAck, Released;
    if s.net.login.last == s.name {
      ResumeAnswerOk(s);
    } else {
      FreshAckOk();
    }
  }

  /** What the client's Open finds. */
  lemma CompleteEffect(s: State, s': State)
    requires Inv(s) && s.net.Answered? && CompleteStep(s, s')
    ensures if s.net.server == s.last then Keeps(Client(s).f, Client(s').f) else Begins(Client(s').f)
  {
    hide FilesInv, OpenInv, SessionInv, LinkInv, AnsweredInv, HeedsRest, Stream, Sane, FileInv, OpenN, Opened;
    var x :| Opened(CompleteFile(s), s.net.ack, x)
      && s' == s.(last := s.net.server, client := x.s, cfiles := s.cfiles[s.net.server := x.f], net := Quiet, linked := true);
    assert Client(s') == x;
    CompleteKeepsFile(s, x);
  }

  lemma CompleteKeepsFile(s: State, x: Node)
    requires Inv(s) && s.net.Answered? && Opened(CompleteFile(s), s.net.ack, x)
    ensures Keeps(CompleteFile(s), x.f)
  {
    hide FilesInv, OpenInv, SessionInv, LinkInv, HeedsRest, Stream, Sane, FileInv, OpenN, AckOk, Wrap;
    FilesHold(s.cfiles, s.cap, s.last);
    FilesHold(s.sfiles, s.cap, s.net.server);
    FreshFile(s.cap);
    AckIsCount(s);
    OpenKeeps(CompleteFile(s), s.cap, |FileOf(s.sfiles, s.net.server).popped|);
  }

  lemma AckIsCount(s: State)
    requires Inv(s) && s.net.Answered?
    ensures var n := |FileOf(s.sfiles, s.net.server).popped|;
      s.net.ack == Wrap(n) && CompleteFile(s).read <= n <= |CompleteFile(s).hist|
  {
    hide FilesInv, OpenInv, SessionInv, LinkInv, HeedsRest, Stream, Sane, HistInv, QValid;
    FilesHold(s.sfiles, s.cap, s.net.server);
  }

  ghost predicate SameKind(states: seq<State>, i: nat, k: nat)
    requires i < k < |states| - 1
  {
    || (Keeps(Server(states[i]).f, Server(states[i + 1]).f) && Keeps(Client(states[k]).f, Client(states[k + 1]).f))
    || (Begins(Server(states[i + 1]).f) && Begins(Client(states[k + 1]).f))
  }

  /** Session agreement: in every run, with any renames of the server, lost replies and crashes, whenever the client
      completes a login, either both sides go on with all they had pushed and consumed when they opened for it, or both
      begin with nothing. */
  lemma BothResetOrNeither(states: seq<State>, steps: seq<Step>, k: nat)
    requires Run(states, steps) && k < |steps| && steps[k] == Complete
    ensures exists i: nat :: AnsweredAt(states, steps, i, k) && SameKind(states, i, k)
  {
    hide Inv, AnswerStep, CompleteStep, Keeps, Begins;
    assert Next(states[k], steps[k], states[k + 1]);
    AnswerBefore(states, steps, k);
    var i: nat :| AnsweredAt(states, steps, i, k);
    RunKeeps(states, steps, i);
    RunKeeps(states, steps, k);
    assert Next(states[i], steps[i], states[i + 1]);
    AnswerEffect(states[i], states[i + 1]);
    CompleteEffect(states[k], states[k + 1]);
  }

  /** What answering a login does to the messages the server has pushed for this client: they survive exactly if the
      client names this server as its last one, or there are none. */
  lemma AnswerKeepsPushedIff(s: State, delivered: bool, s': State)
    requires Inv(s) && s.net.Requested? && AnswerStep(s, delivered, s')
    ensures Server(s').f.hist == Server(s).f.hist <==> s.net.login.last == s.name || Server(s).f.hist == []
  {
    hide FilesInv, OpenInv, SessionInv, LinkInv, AnsweredInv, LoginPasses, QLoginAck, QAck, Released;
    if s.net.login.last == s.name {
      ResumeAnswerOk(s);
    } else {
      FreshAckOk();
    }
  }

  lemma ResumeAnswerOk(s: State)
    requires Inv(s) && s.net.Requested? && !s.server.open && s.net.login.last == s.name
    ensures AckOk(Server(s).f.q, LoginAckOf(s, s.net.login))
  {
    hide Inv, FilesInv, Released, LoginPasses, LoginFile;
    InvFiles(s);
    ResumeAnswer(s);
    OpenKeeps(Server(s).f, s.cap, |Client(s).f.popped|);
  }

  lemma FreshAckOk()
    ensures AckOk(FRESH.q, 0)
  {
  }

  const ONE := Msg(Header(8, 1, 0), [])

  /** A client's first login whose answer it does not see: what the server pushes meanwhile is dropped at the next. */
  function Start(): State {
    State(4, IDLE, IDLE, "", "s", map[], map[], Quiet, false)
  }

  function HalfOpen(): State {
    var x := OpenN(FRESH, 0);
    Start().(server := x.s, sfiles := map["s" := x.f], net := Answered("s", 0))
  }

  function HalfOpenPushed(): State {
    SetServer(HalfOpen(), PushN(Server(HalfOpen()), ONE))
  }

  function Abandoned(): State {
    var s := HalfOpenPushed().(net := Quiet);
    SetServer(s, CloseN(Server(s)))
  }

  lemma NothingReleased()
    ensures Released(EMPTY, 0) == 0 && AckOk(EMPTY, 0) && QLoginAck(EMPTY, 0) == EMPTY
  {
  }

  lemma FirstLogin()
    ensures Next(Start(), Request, Start().(net := Requested(Login("", 0, 0, 0))))
    ensures Next(Start().(net := Requested(Login("", 0, 0, 0))), Answer(true), HalfOpen())
  {
    hide Released, QLoginAck, OpenN;
    NothingReleased();
    var s, x := Start().(net := Requested(Login("", 0, 0, 0))), OpenN(FRESH, 0);
    assert Opened(FRESH, 0, x);
    assert LoginPasses(s, s.net.login);
    assert HalfOpen() == SetServer(s, x).(net := Answered(s.name, 0), linked := false);
  }

  lemma PushWhileHalfOpen()
    ensures Server(HalfOpenPushed()).f.hist == [ONE]
    ensures Next(HalfOpen(), ServerAct(Push(ONE)), HalfOpenPushed())
    ensures Next(HalfOpenPushed(), GiveUp, HalfOpenPushed().(net := Quiet))
    ensures Next(HalfOpenPushed().(net := Quiet), ServerAct(Close), Abandoned())
  {
    hide Released, QLoginAck;
    NothingReleased();
    var s := HalfOpen();
    assert NodeStep(Server(s), Client(s), s.linked, s.cap, Push(ONE), PushN(Server(s), ONE));
    var s2 := HalfOpenPushed().(net := Quiet);
    assert NodeStep(Server(s2), Client(s2), s2.linked, s2.cap, Close, CloseN(Server(s2)));
  }

  lemma SecondLogin()
    ensures var s := Abandoned().(net := Requested(Login("", 0, 0, 0)));
      var s' := s.(sfiles := s.sfiles["s" := FRESH], net := Quiet);
      && Next(Abandoned(), Request, s) && Next(s, Answer(false), s')
      && Server(s').f.hist == []
  {
    hide Released, QLoginAck;
  }

  /** Exactly-once does not reach back before the first completed login: a message the server pushes on a connection
      whose login the client has not seen answered is dropped at the next login. */
  lemma HalfOpenPushLost()
    ensures exists states, steps ::
      && Run(states, steps) && |steps| == 7
      && steps[2] == ServerAct(Push(ONE)) && Server(states[3]).f.hist == [ONE] && Server(states[7]).f.hist == []
  {
    hide Next, SetServer, HalfOpenPushed, Abandoned, HalfOpen;
    FirstLogin();
    PushWhileHalfOpen();
    SecondLogin();
    var r := Abandoned().(net := Requested(Login("", 0, 0, 0)));
    var states := [Start(), Start().(net := Requested(Login("", 0, 0, 0))), HalfOpen(), HalfOpenPushed(),
                   HalfOpenPushed().(net := Quiet), Abandoned(), r, r.(sfiles := r.sfiles["s" := FRESH], net := Quiet)];
    var steps := [Request, Answer(true), ServerAct(Push(ONE)), GiveUp, ServerAct(Close), Request, Answer(false)];
    assert Run(states, steps);
  }
}
