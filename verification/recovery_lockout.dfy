/** What the 32-bit sanity check costs: runs in which one side, the holder, consumes 2^31 messages of the other, the feeder,
    while one message of its own stays unacknowledged. Its file is then refused by its own check: a client so locked out
    never logs in again, a server so locked out refuses every login under its name. */
module RecoveryLockout {
  import opened Word32
  import opened MsgHeaders
  import opened PtcpQueueSpec
  import opened Framer
  import opened RecoveryNode
  import opened RecoverySteps
  import opened RecoveryProtocol
  import opened RecoverySessions

  // ---- reachable states ----

  lemma StepReaches(s: State, step: Step, s': State)
    requires Reachable(s) && Next(s, step, s')
    ensures Reachable(s')
  {
    hide Next, Init;
    var states, steps :| Run(states, steps) && states[|steps|] == s;
    var states', steps' := states + [s'], steps + [step];
    forall i | 0 <= i < |steps'|
      ensures Next(states'[i], steps'[i], states'[i + 1])
    {
      if i < |steps| {
        assert Next(states[i], steps[i], states[i + 1]);
      }
    }
    assert Run(states', steps') && states'[|steps'|] == s';
  }

  lemma StartReached(s: State)
    requires Init(s)
    ensures Reachable(s)
  {
    hide Init;
    assert Run([s], []);
  }

  // ---- both sides after n rounds ----

  function Ones(n: nat): (r: seq<Msg>)
    ensures |r| == n
  {
    if n == 0 then [] else Ones(n - 1) + [ONE]
  }

  function Zeros(n: nat): (r: seq<nat>)
    ensures |r| == n
  {
    if n == 0 then [] else Zeros(n - 1) + [0]
  }

  /** The holder's one message, and then the heartbeats by which the feeder learns what has been consumed. */
  function Beats(n: nat): (r: seq<Msg>)
    ensures |r| == n + 1
  {
    if n == 0 then [ONE] else Beats(n - 1) + [Heartbeat(Wrap(n))]
  }

  function BeatsAt(n: nat): (r: seq<nat>)
    ensures |r| == n + 1
  {
    if n == 0 then [0] else BeatsAt(n - 1) + [n]
  }

  /** The holder has pushed one message, at the start, and consumed n; the feeder has received it, but not consumed it. */
  function HolderAfter(n: nat): Node {
    Node(File(QState([ONE], 1, 0, Wrap(n)), [ONE], [0], Ones(n), 0),
         Side(true, Beats(n), BeatsAt(n), 0, 0, 1, 0, 0, n, []))
  }

  function FeederAfter(n: nat): Node {
    Node(File(QState([], 0, Wrap(n), 0), Ones(n), Zeros(n), [], n),
         Side(true, Ones(n), Zeros(n), 0, 0, n, 0, 0, n + 1, [ONE]))
  }

  function Both(x: Node, y: Node): State {
    State(4, x.s, y.s, "s", "s", map["s" := x.f], map["s" := y.f], Quiet, true)
  }

  function Round(n: nat): State {
    Both(HolderAfter(n), FeederAfter(n))
  }

  lemma ClientMoves(x: Node, y: Node, act: Act, x': Node)
    requires Reachable(Both(x, y)) && NodeStep(x, y, true, 4, act, x')
    ensures Reachable(Both(x', y))
  {
    hide Reachable, NodeStep;
    var s := Both(x, y);
    assert Client(s) == x && Peer(s) == y;
    assert SetClient(s, x') == Both(x', y);
    StepReaches(s, ClientAct(act), Both(x', y));
  }

  lemma ServerMoves(x: Node, y: Node, act: Act, y': Node)
    requires Reachable(Both(x, y)) && NodeStep(y, x, true, 4, act, y')
    ensures Reachable(Both(x, y'))
  {
    hide Reachable, NodeStep;
    var s := Both(x, y);
    assert Client(s) == x && Server(s) == y;
    assert SetServer(s, y') == Both(x, y');
    StepReaches(s, ServerAct(act), Both(x, y'));
  }

  lemma OneStamped()
    ensures Stamped(ONE, 0) == ONE && ONE.Wf() && !ONE.IsHeartbeat() && ONE.Len() == 8
    ensures TotalLen([ONE]) == 8 && TotalBlocks([ONE]) == 1 && Apps([ONE]) == [ONE] && AcksOf([ONE]) == [0]
  {
    assert [ONE][1..] == [];
  }

  /** Sending one message, the last, whole. */
  lemma SendsOne(x: Node, y: Node)
    requires x.s.open && x.s.part == 0 && |x.f.hist| == |x.f.at| == x.s.next + 1 && x.f.hist[x.s.next] == ONE
    ensures NodeStep(x, y, true, 4, Send(1, 0, false),
      Node(x.f.(q := x.f.q.(sent := x.f.q.sent + 1)),
           x.s.(done := x.s.done + [ONE], doneAt := x.s.doneAt + [x.f.at[x.s.next]], next := x.s.next + 1)))
  {
    hide TotalLen;
    OneStamped();
    var n := x.s.next;
    assert x.f.hist[n..n + 1] == [ONE] && x.f.at[n..n + 1] == [x.f.at[n]];
  }

  lemma JustOne<T>(s: seq<T>, i: nat)
    requires i < |s|
    ensures s[i..i + 1] == [s[i]] && s[i..i + 1] + [] == [s[i]]
  {
  }

  /** Receiving one frame, the last. */
  lemma ReceivesOne(x: Node, y: Node, f': File)
    requires y.s.open && y.s.seen + 1 == |x.s.done| == |x.s.doneAt|
    requires var acks := AcksOf([x.s.done[y.s.seen]]); AcksSafe(y.f.q, acks) ==> f' == FAckAll(y.f, acks)
    ensures NodeStep(y, x, true, 4, Recv(1, false),
      Node(f', y.s.(seen := y.s.seen + 1, inbox := y.s.inbox + Apps([x.s.done[y.s.seen]]))))
  {
    hide AcksOf, Apps, AcksSafe, FAckAll;
    var m := x.s.done[y.s.seen];
    JustOne(x.s.done, y.s.seen);
    assert Heard(x, y, 1, false) == x.s.done[y.s.seen..y.s.seen + 1] + [];
  }

  // ---- one round: the feeder's message ----

  function FeederPushed(n: nat): Node {
    var y := FeederAfter(n);
    Node(File(QState([ONE], 0, Wrap(n), 0), Ones(n + 1), Zeros(n + 1), [], n), y.s)
  }

  function FeederSent(n: nat): Node {
    Node(File(QState([ONE], 1, Wrap(n), 0), Ones(n + 1), Zeros(n + 1), [], n),
         Side(true, Ones(n + 1), Zeros(n + 1), 0, 0, n + 1, 0, 0, n + 1, [ONE]))
  }

  lemma FeederPushes(n: nat)
    ensures NodeStep(FeederAfter(n), HolderAfter(n), true, 4, Push(ONE), FeederPushed(n))
  {
    hide Wrap;
    OneStamped();
    assert [] + [ONE] == [ONE];
  }

  lemma FeederSends(n: nat)
    ensures NodeStep(FeederPushed(n), HolderAfter(n), true, 4, Send(1, 0, false), FeederSent(n))
  {
    hide Wrap, NodeStep;
    SendsOne(FeederPushed(n), HolderAfter(n));
  }

  // ---- the holder consumes it and says so ----

  function HolderGot(n: nat): Node {
    var x := HolderAfter(n);
    x.(s := x.s.(seen := n + 1, inbox := [ONE]))
  }

  function HolderPopped(n: nat): Node {
    Node(File(QState([ONE], 1, 0, Wrap(n + 1)), [ONE], [0], Ones(n + 1), 0),
         Side(true, Beats(n), BeatsAt(n), 0, 0, 1, 0, 0, n + 1, []))
  }

  lemma HolderReceives(n: nat)
    ensures NodeStep(HolderAfter(n), FeederSent(n), true, 4, Recv(1, false), HolderGot(n))
  {
    hide Wrap, NodeStep, Released;
    OneStamped();
    OldIsOld(HolderAfter(n).f);
    ReceivesOne(FeederSent(n), HolderAfter(n), HolderAfter(n).f);
    assert [] + [ONE] == [ONE];
  }

  /** Hearing a count of 0 changes nothing. */
  lemma OldIsOld(f: File)
    requires f.q.readSeq == 0
    ensures AcksSafe(f.q, [0]) ==> FAckAll(f, [0]) == f
  {
    if AcksSafe(f.q, [0]) {
      assert Released(f.q, 0) == 0;
      assert [0][1..] == [];
    }
  }

  lemma HolderPops(n: nat)
    ensures NodeStep(HolderGot(n), FeederSent(n), true, 4, Pop, HolderPopped(n))
  {
    NextSeqWraps(n);
    hide Wrap, NextSeq;
  }

  lemma HolderBeats(n: nat)
    ensures NodeStep(HolderPopped(n), FeederSent(n), true, 4, Beat, HolderAfter(n + 1))
  {
    hide Wrap;
  }

  lemma FeederHears(n: nat)
    ensures NodeStep(FeederSent(n), HolderAfter(n + 1), true, 4, Recv(1, false), FeederAfter(n + 1))
  {
    hide Wrap, NodeStep, Released;
    NewIsNew(n, FeederSent(n).f);
    OneBeat(Heartbeat(Wrap(n + 1)));
    ReceivesOne(HolderAfter(n + 1), FeederSent(n), FeederAfter(n + 1).f);
    assert [ONE] + [] == [ONE];
  }

  lemma OneBeat(m: Msg)
    requires m.IsHeartbeat()
    ensures Apps([m]) == [] && AcksOf([m]) == [m.header.ackSeq]
  {
    assert [m][1..] == [];
  }

  /** Hearing the next count releases the one message queued. */
  lemma NewIsNew(n: nat, f: File)
    requires f == FeederSent(n).f
    ensures AckOk(f.q, Wrap(n + 1)) && FAck(f, Wrap(n + 1)) == FeederAfter(n + 1).f
    ensures AcksSafe(f.q, [Wrap(n + 1)]) ==> FAckAll(f, [Wrap(n + 1)]) == FeederAfter(n + 1).f
  {
    DiffExact(n + 1, n);
    hide Wrap, Diff;
    assert [ONE][1..] == [];
    assert [Wrap(n + 1)][1..] == [];
  }

  lemma NextRound(n: nat)
    requires Reachable(Round(n))
    ensures Reachable(Round(n + 1))
  {
    hide Reachable, NodeStep, Both, HolderAfter, FeederAfter, FeederPushed, FeederSent, HolderGot, HolderPopped;
    FeederPushes(n);
    ServerMoves(HolderAfter(n), FeederAfter(n), Push(ONE), FeederPushed(n));
    FeederSends(n);
    ServerMoves(HolderAfter(n), FeederPushed(n), Send(1, 0, false), FeederSent(n));
    HolderReceives(n);
    ClientMoves(HolderAfter(n), FeederSent(n), Recv(1, false), HolderGot(n));
    HolderPops(n);
    ClientMoves(HolderGot(n), FeederSent(n), Pop, HolderPopped(n));
    HolderBeats(n);
    ClientMoves(HolderPopped(n), FeederSent(n), Beat, HolderAfter(n + 1));
    FeederHears(n);
    ServerMoves(HolderAfter(n + 1), FeederSent(n), Recv(1, false), FeederAfter(n + 1));
  }

  // ---- the beginning: a first login, and the holder's one message ----

  function Opened0(): Node {
    Node(FRESH, Side(true, [], [], 0, 0, 0, 0, 0, 0, []))
  }

  function HolderPushed0(): Node {
    Node(File(QState([ONE], 0, 0, 0), [ONE], [0], [], 0), Opened0().s)
  }

  lemma FreshOpens()
    ensures AckOk(FRESH.q, 0) && OpenN(FRESH, 0) == Opened0()
  {
  }

  lemma FirstLoginReached()
    ensures Reachable(Both(Opened0(), Opened0()))
  {
    hide Reachable, OpenN, Next, Released;
    StartReached(Start());
    FirstLogin();
    StepReaches(Start(), Request, Start().(net := Requested(Login("", 0, 0, 0))));
    StepReaches(Start().(net := Requested(Login("", 0, 0, 0))), Answer(true), HalfOpen());
    FreshOpens();
    Completes();
    StepReaches(HalfOpen(), Complete, Both(Opened0(), Opened0()));
  }

  lemma Completes()
    ensures Next(HalfOpen(), Complete, Both(Opened0(), Opened0()))
  {
    FreshOpens();
    hide OpenN, Released;
    var s, x := HalfOpen(), Opened0();
    assert Opened(CompleteFile(s), s.net.ack, x);
    assert Both(x, x)
        == s.(last := s.net.server, client := x.s, cfiles := s.cfiles[s.net.server := x.f], net := Quiet, linked := true);
  }

  lemma HolderPushes()
    ensures NodeStep(Opened0(), Opened0(), true, 4, Push(ONE), HolderPushed0())
  {
    OneStamped();
    assert [] + [ONE] == [ONE];
  }

  lemma HolderSends()
    ensures NodeStep(HolderPushed0(), Opened0(), true, 4, Send(1, 0, false), HolderAfter(0))
  {
    hide NodeStep;
    SendsOne(HolderPushed0(), Opened0());
    assert [] + [ONE] == [ONE] && [] + [0] == [0];
  }

  lemma FeederReceives()
    ensures NodeStep(Opened0(), HolderAfter(0), true, 4, Recv(1, false), FeederAfter(0))
  {
    hide NodeStep, Released;
    OneStamped();
    OldIsOld(FRESH);
    ReceivesOne(HolderAfter(0), Opened0(), FRESH);
    assert [] + [ONE] == [ONE];
  }

  lemma FirstRound()
    ensures Reachable(Round(0))
  {
    hide Reachable, NodeStep, Both, HolderAfter, FeederAfter, Opened0, HolderPushed0;
    FirstLoginReached();
    HolderPushes();
    HolderSends();
    FeederReceives();
    ClientMoves(Opened0(), Opened0(), Push(ONE), HolderPushed0());
    ClientMoves(HolderPushed0(), Opened0(), Send(1, 0, false), HolderAfter(0));
    ServerMoves(HolderAfter(0), Opened0(), Recv(1, false), FeederAfter(0));
  }

  lemma {:induction false} EveryRound(n: nat)
    ensures Reachable(Round(n))
  {
    hide Reachable, Round;
    if n == 0 {
      FirstRound();
    } else {
      EveryRound(n - 1);
      NextRound(n - 1);
    }
  }

  // ---- a client locked out ----

  /** The client is disconnected, and its own check refuses its file. */
  ghost predicate LockedOut(s: State) {
    s.net.Quiet? && !s.client.open && s.client.inbox == [] && s.last != "" && !Sane(Client(s).f.q)
  }

  lemma LockedOutStays(s: State, step: Step, s': State)
    requires LockedOut(s) && Next(s, step, s')
    ensures LockedOut(s') && step != Request
  {
    hide RecvN, CanPushN, Fits, Diff, AnswerStep, CompleteStep, QPush;
    match step
    case ClientAct(act) =>
      var x :| NodeStep(Client(s), Peer(s), s.linked, s.cap, act, x) && s' == SetClient(s, x);
      assert Client(s') == x;
      if act.Push? {
        PushStaysInsane(Client(s), act.m);
      }
    case ServerAct(act) =>
      assert Client(s') == Client(s);
    case ClientCrash => assert Client(s').f == Client(s).f;
    case ServerRestart(_) => assert Client(s').f == Client(s).f;
    case GiveUp => assert Client(s').f == Client(s).f;
    case Request =>
    case Answer(_) =>
    case Complete =>
  }

  lemma PushStaysInsane(x: Node, m: Msg)
    requires !Sane(x.f.q)
    ensures !Sane(PushN(x, m).f.q)
  {
    hide Diff;
    var q' := PushN(x, m).f.q;
    forall i | 0 <= i < |x.f.q.msgs|
      ensures q'.msgs[i] == x.f.q.msgs[i]
    {
    }
  }

  /** Once locked out, for ever, whatever either side does. */
  lemma {:induction false} NeverAgain(states: seq<State>, steps: seq<Step>, i: nat, k: nat)
    requires Run(states, steps) && i <= k <= |steps| && LockedOut(states[i])
    ensures LockedOut(states[k]) && (k < |steps| ==> steps[k] != Request)
    decreases k
  {
    hide Next, LockedOut, Init;
    if i < k {
      NeverAgain(states, steps, i, k - 1);
      assert Next(states[k - 1], steps[k - 1], states[k - 1 + 1]);
      LockedOutStays(states[k - 1], steps[k - 1], states[k]);
    }
    if k < |steps| {
      assert Next(states[k], steps[k], states[k + 1]);
      LockedOutStays(states[k], steps[k], states[k + 1]);
    }
  }

  lemma HolderCloses(n: nat)
    ensures NodeStep(HolderAfter(n), FeederAfter(n), true, 4, Close, CloseN(HolderAfter(n)))
  {
  }

  lemma InsaneAt2To31(n: nat)
    requires n == 0x8000_0000
    ensures !Sane(HolderAfter(n).f.q)
  {
    var q := HolderAfter(n).f.q;
    assert q.msgs[0] == ONE && Diff(q.ackSeq, 0) < 0;
  }

  /** A client that has consumed 2^31 messages with one of its own not consumed can be locked out: a run of honest
      programs leads there. */
  lemma LockoutIsReachable()
    ensures exists s :: Reachable(s) && LockedOut(s)
  {
    hide Reachable, Sane, NodeStep;
    var n := 0x8000_0000;
    EveryRound(n);
    HolderCloses(n);
    ClientMoves(HolderAfter(n), FeederAfter(n), Close, CloseN(HolderAfter(n)));
    InsaneAt2To31(n);
    var s := Both(CloseN(HolderAfter(n)), FeederAfter(n));
    assert Client(s) == CloseN(HolderAfter(n));
    assert LockedOut(s);
  }

  // ---- a server locked out ----

  lemma NextRoundMirrored(n: nat)
    requires Reachable(Both(FeederAfter(n), HolderAfter(n)))
    ensures Reachable(Both(FeederAfter(n + 1), HolderAfter(n + 1)))
  {
    hide Reachable, NodeStep, Both, HolderAfter, FeederAfter, FeederPushed, FeederSent, HolderGot, HolderPopped;
    FeederPushes(n);
    ClientMoves(FeederAfter(n), HolderAfter(n), Push(ONE), FeederPushed(n));
    FeederSends(n);
    ClientMoves(FeederPushed(n), HolderAfter(n), Send(1, 0, false), FeederSent(n));
    HolderReceives(n);
    ServerMoves(FeederSent(n), HolderAfter(n), Recv(1, false), HolderGot(n));
    HolderPops(n);
    ServerMoves(FeederSent(n), HolderGot(n), Pop, HolderPopped(n));
    HolderBeats(n);
    ServerMoves(FeederSent(n), HolderPopped(n), Beat, HolderAfter(n + 1));
    FeederHears(n);
    ClientMoves(FeederSent(n), HolderAfter(n + 1), Recv(1, false), FeederAfter(n + 1));
  }

  lemma {:induction false} EveryRoundMirrored(n: nat)
    ensures Reachable(Both(FeederAfter(n), HolderAfter(n)))
  {
    hide Reachable, Both, NodeStep, HolderAfter, FeederAfter, Opened0, HolderPushed0;
    if n == 0 {
      FirstLoginReached();
      HolderPushes();
      HolderSends();
      FeederReceives();
      ServerMoves(Opened0(), Opened0(), Push(ONE), HolderPushed0());
      ServerMoves(Opened0(), HolderPushed0(), Send(1, 0, false), HolderAfter(0));
      ClientMoves(Opened0(), HolderAfter(0), Recv(1, false), FeederAfter(0));
    } else {
      EveryRoundMirrored(n - 1);
      NextRoundMirrored(n - 1);
    }
  }

  /** The client's session is with this server, they are not connected, and the server's check refuses its file. */
  ghost predicate ServerLockedOut(s: State) {
    && s.last == s.name && s.last != "" && !s.net.Answered? && !s.client.open && !s.server.open
    && s.server.inbox == [] && !Sane(Server(s).f.q)
  }

  /** As long as the server keeps its name, no step ends this. */
  lemma ServerLockedOutStays(s: State, step: Step, s': State)
    requires Inv(s) && ServerLockedOut(s) && Next(s, step, s') && (step.ServerRestart? ==> step.newName == s.name)
    ensures ServerLockedOut(s')
  {
    hide FilesInv, OpenInv, SessionInv, LinkInv, RecvN, CanPushN, Fits, Diff, CompleteStep, QPush, Opened;
    match step
    case ClientAct(act) => assert Server(s') == Server(s);
    case ServerAct(act) =>
      var x :| NodeStep(Server(s), Client(s), s.linked, s.cap, act, x) && s' == SetServer(s, x);
      assert Server(s') == x;
      if act.Push? {
        PushStaysInsane(Server(s), act.m);
      }
    case ClientCrash => assert Server(s').f == Server(s).f;
    case ServerRestart(_) => assert Server(s').f == Server(s).f;
    case Request => assert Server(s').f == Server(s).f;
    case GiveUp => assert Server(s').f == Server(s).f;
    case Answer(_) => assert !LoginPasses(s, s.net.login);
    case Complete =>
  }

  lemma {:induction false} NeverServes(states: seq<State>, steps: seq<Step>, i: nat, k: nat)
    requires Run(states, steps) && i <= k <= |steps| && ServerLockedOut(states[i])
    requires forall j :: i <= j < k && steps[j].ServerRestart? ==> steps[j].newName == states[j].name
    ensures ServerLockedOut(states[k])
    decreases k
  {
    hide Inv, Next, ServerLockedOut, Init;
    if i < k {
      NeverServes(states, steps, i, k - 1);
      RunKeeps(states, steps, k - 1);
      assert Next(states[k - 1], steps[k - 1], states[k - 1 + 1]);
      ServerLockedOutStays(states[k - 1], steps[k - 1], states[k]);
    }
  }

  lemma FeederSane(n: nat)
    ensures Sane(FeederAfter(n).f.q)
    ensures NodeStep(FeederAfter(n), CloseN(HolderAfter(n)), true, 4, Close, CloseN(FeederAfter(n)))
  {
  }

  /** A server can be locked out just so, with the client's own check passed and its login asked for. */
  lemma ServerLockoutIsReachable()
    ensures exists s :: Reachable(s) && ServerLockedOut(s) && s.net.Requested? && s.net.login.last == s.name
  {
    hide Reachable, Sane, NodeStep;
    var n := 0x8000_0000;
    EveryRoundMirrored(n);
    HolderCloses(n);
    ServerMoves(FeederAfter(n), HolderAfter(n), Close, CloseN(HolderAfter(n)));
    FeederSane(n);
    ClientMoves(FeederAfter(n), CloseN(HolderAfter(n)), Close, CloseN(FeederAfter(n)));
    InsaneAt2To31(n);
    var s := Both(CloseN(FeederAfter(n)), CloseN(HolderAfter(n)));
    assert Client(s) == CloseN(FeederAfter(n)) && Server(s) == CloseN(HolderAfter(n));
    var s' := s.(net := Requested(LoginOf(s)));
    assert Next(s, Request, s');
    StepReaches(s, Request, s');
    assert ServerLockedOut(s');
  }
}
