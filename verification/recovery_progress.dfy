/** Nothing is stuck: from every reachable state in which both files of the session are in the window, the two sides can
    still consume everything that has been pushed, by honest steps alone. */
module RecoveryProgress {
  import opened Word32
  import opened MsgHeaders
  import opened PtcpQueueSpec
  import opened Framer
  import opened RecoveryNode
  import opened RecoverySteps
  import opened RecoveryProtocol
  import opened RecoveryBytes
  import opened RecoverySessions

  // ---- continuations ----

  ghost predicate Leads(s: State, steps: seq<Step>, s': State)
    decreases |steps|
  {
    if steps == [] then s' == s else exists m :: Next(s, steps[0], m) && Leads(m, steps[1..], s')
  }

  ghost predicate CanLead(s: State, s': State) {
    exists steps :: Leads(s, steps, s')
  }

  lemma {:induction false} LeadsOn(s: State, first: seq<Step>, m: State, second: seq<Step>, s': State)
    requires Leads(s, first, m) && Leads(m, second, s')
    ensures Leads(s, first + second, s')
    decreases |first|
  {
    hide Next;
    if first == [] {
      assert first + second == second;
    } else {
      var n :| Next(s, first[0], n) && Leads(n, first[1..], m);
      LeadsOn(n, first[1..], m, second, s');
      assert (first + second)[0] == first[0] && (first + second)[1..] == first[1..] + second;
    }
  }

  lemma Via(s: State, m: State, s': State)
    requires CanLead(s, m) && CanLead(m, s')
    ensures CanLead(s, s')
  {
    hide Leads;
    var first :| Leads(s, first, m);
    var second :| Leads(m, second, s');
    LeadsOn(s, first, m, second, s');
  }

  lemma OneStep(s: State, step: Step, s': State)
    requires Next(s, step, s')
    ensures CanLead(s, s')
  {
    hide Next;
    assert Leads(s', [], s');
    assert [step][1..] == [];
    assert Leads(s, [step], s');
  }

  lemma NoStep(s: State)
    ensures CanLead(s, s)
  {
    assert Leads(s, [], s);
  }

  lemma {:induction false} LeadsKeeps(s: State, steps: seq<Step>, s': State)
    requires Inv(s) && Leads(s, steps, s')
    ensures Inv(s')
    decreases |steps|
  {
    hide Inv, Next;
    if steps != [] {
      var m :| Next(s, steps[0], m) && Leads(m, steps[1..], s');
      StepKeeps(s, steps[0], m);
      LeadsKeeps(m, steps[1..], s');
    }
  }

  // ---- a running connection ----

  ghost predicate Up(s: State) {
    s.net.Quiet? && s.linked && s.client.open && s.server.open && s.last == s.name && s.last != ""
  }

  /** The two sides have pushed what they had. */
  ghost predicate SamePushed(s: State, s': State) {
    Client(s').f.hist == Client(s).f.hist && Peer(s').f.hist == Peer(s).f.hist
  }

  lemma ClientMove(s: State, act: Act, x: Node)
    requires Inv(s) && Up(s) && NodeStep(Client(s), Peer(s), true, s.cap, act, x) && x.s.open
    ensures var s' := SetClient(s, x);
      CanLead(s, s') && Inv(s') && Up(s') && Client(s') == x && Peer(s') == Peer(s) && s'.cap == s.cap
  {
    hide Inv, NodeStep, CanLead;
    var s' := SetClient(s, x);
    assert Next(s, ClientAct(act), s');
    OneStep(s, ClientAct(act), s');
    StepKeeps(s, ClientAct(act), s');
  }

  lemma ServerMove(s: State, act: Act, x: Node)
    requires Inv(s) && Up(s) && NodeStep(Peer(s), Client(s), true, s.cap, act, x) && x.s.open
    ensures var s' := SetServer(s, x);
      CanLead(s, s') && Inv(s') && Up(s') && Client(s') == Client(s) && Peer(s') == x && s'.cap == s.cap
  {
    hide Inv, NodeStep, CanLead;
    var s' := SetServer(s, x);
    assert Server(s) == Peer(s);
    assert Next(s, ServerAct(act), s');
    OneStep(s, ServerAct(act), s');
    StepKeeps(s, ServerAct(act), s');
  }

  lemma UpShares(s: State)
    requires Inv(s) && Up(s)
    ensures Shared(Client(s), Peer(s), s.cap, true) && Shared(Peer(s), Client(s), s.cap, true)
    ensures Client(s).s.open && Peer(s).s.open
  {
    hide Inv, Shared, Stream;
    LinkedShares(s);
  }

  // ---- everything sent ----

  /** All that is left to send, taken by the kernel at once. */
  function SentAll(x: Node): Node
    requires x.s.next <= |x.f.hist| == |x.f.at|
  {
    SendN(x, |x.f.hist| - x.s.next, 0, false)
  }

  lemma CanSendAll(x: Node, y: Node, cap: nat)
    requires Shared(x, y, cap, true) && x.s.open
    ensures x.s.next <= |x.f.hist| == |x.f.at|
    ensures NodeStep(x, y, true, cap, Send(|x.f.hist| - x.s.next, 0, false), SentAll(x))
    ensures var x' := SentAll(x);
      x'.s.open && x'.f.hist == x.f.hist && x'.f.popped == x.f.popped && x'.s.next == |x.f.hist|
  {
    hide FileInv, SendInv, Half, FrameOk, Ascending, Apps, SentBytes, QSendout, Reading, Bounded;
  }

  // ---- everything received ----

  function ReceivedAll(x: Node, y: Node): Node
    requires y.s.seen <= |x.s.done| && CanRecvN(x, y, |x.s.done| - y.s.seen, false)
    requires AcksSafe(y.f.q, AcksOf(Heard(x, y, |x.s.done| - y.s.seen, false)))
  {
    Node(FAckAll(y.f, AcksOf(Heard(x, y, |x.s.done| - y.s.seen, false))),
         y.s.(seen := |x.s.done|, inbox := y.s.inbox + Apps(x.s.done[y.s.seen..|x.s.done|])))
  }

  lemma CanReceiveAll(x: Node, y: Node, cap: nat)
    requires Shared(y, x, cap, true) && y.s.open
    ensures y.s.seen <= |x.s.done| && CanRecvN(x, y, |x.s.done| - y.s.seen, false)
    ensures AcksSafe(y.f.q, AcksOf(Heard(x, y, |x.s.done| - y.s.seen, false)))
    ensures NodeStep(y, x, true, cap, Recv(|x.s.done| - y.s.seen, false), ReceivedAll(x, y))
    ensures var y' := ReceivedAll(x, y);
      y'.s.open && y'.f.hist == y.f.hist && y'.f.popped == y.f.popped && y'.s.seen == |x.s.done|
  {
    hide FileInv, SendInv, Half, FrameOk, Ascending, Apps, AcksOf, AcksSafe, FAckAll, HeedsRest;
    HeardSafe(y, x, cap, |x.s.done| - y.s.seen, false);
    var y' := ReceivedAll(x, y);
    assert RecvN(x, y, |x.s.done| - y.s.seen, false, y');
    RecvKeepsPopped(y, x, cap, |x.s.done| - y.s.seen, y');
  }

  lemma RecvKeepsPopped(y: Node, x: Node, cap: nat, frames: nat, y': Node)
    requires Shared(y, x, cap, true) && CanRecvN(x, y, frames, false) && RecvN(x, y, frames, false, y')
    ensures y'.f.hist == y.f.hist && y'.f.popped == y.f.popped
  {
    hide FileInv, SendInv, Apps, AcksSafe, FAckAll, AcksOf;
    RecvKeepsFile(x, y, cap, frames, false, y');
  }

  /** A reader that has received every frame, of a sender that has sent every message, holds or has consumed them all. */
  lemma AllInHand(x: Node, y: Node, cap: nat)
    requires Shared(y, x, cap, true) && y.s.open && y.s.seen == |x.s.done| && x.s.next == |x.f.hist|
    ensures y.f.popped + y.s.inbox == x.f.hist
  {
    hide FileInv, SendInv, FrameOk, Ascending, Apps, HeedsRest;
    assert x.s.done[..|x.s.done|] == x.s.done;
    SameLength(y.f.popped + y.s.inbox, x.f.hist);
  }

  lemma SameLength<T>(a: seq<T>, b: seq<T>)
    requires a <= b
    ensures |a| == |b| ==> a == b
  {
  }

  // ---- everything consumed ----

  lemma {:induction false} ServerPopsAll(s: State) returns (s': State)
    requires Inv(s) && Up(s)
    ensures CanLead(s, s') && Inv(s') && Up(s') && Client(s') == Client(s) && Peer(s').f.hist == Peer(s).f.hist
    ensures Peer(s').f.popped == Peer(s).f.popped + Peer(s).s.inbox
    decreases |s.server.inbox|
  {
    hide Inv, CanLead;
    if s.server.inbox == [] {
      NoStep(s);
      s' := s;
    } else {
      var y := Peer(s);
      ServerMove(s, Pop, PopN(y));
      var m := SetServer(s, PopN(y));
      s' := ServerPopsAll(m);
      Via(s, m, s');
      OneMore(y.f.popped, y.s.inbox);
    }
  }

  lemma {:induction false} ClientPopsAll(s: State) returns (s': State)
    requires Inv(s) && Up(s)
    ensures CanLead(s, s') && Inv(s') && Up(s') && Peer(s') == Peer(s) && Client(s').f.hist == Client(s).f.hist
    ensures Client(s').f.popped == Client(s).f.popped + Client(s).s.inbox
    decreases |s.client.inbox|
  {
    hide Inv, CanLead;
    if s.client.inbox == [] {
      NoStep(s);
      s' := s;
    } else {
      var x := Client(s);
      ClientMove(s, Pop, PopN(x));
      var m := SetClient(s, PopN(x));
      s' := ClientPopsAll(m);
      Via(s, m, s');
      OneMore(x.f.popped, x.s.inbox);
    }
  }

  lemma OneMore<T>(a: seq<T>, b: seq<T>)
    requires b != []
    ensures a + [b[0]] + b[1..] == a + b
  {
  }

  /** Everything the client has pushed reaches the server, and is consumed. */
  lemma ToServer(s: State) returns (s': State)
    requires Inv(s) && Up(s)
    ensures CanLead(s, s') && Inv(s') && Up(s') && SamePushed(s, s')
    ensures Peer(s').f.popped == Client(s').f.hist && Client(s').f.popped == Client(s).f.popped
  {
    hide Inv, CanLead, Shared, NodeStep, SentAll, ReceivedAll;
    UpShares(s);
    CanSendAll(Client(s), Peer(s), s.cap);
    ClientMove(s, Send(|Client(s).f.hist| - s.client.next, 0, false), SentAll(Client(s)));
    var s1 := SetClient(s, SentAll(Client(s)));
    UpShares(s1);
    var x, y := Client(s1), Peer(s1);
    CanReceiveAll(x, y, s1.cap);
    ServerMove(s1, Recv(|x.s.done| - y.s.seen, false), ReceivedAll(x, y));
    var s2 := SetServer(s1, ReceivedAll(x, y));
    UpShares(s2);
    AllInHand(Client(s2), Peer(s2), s2.cap);
    s' := ServerPopsAll(s2);
    Via(s, s1, s2);
    Via(s, s2, s');
  }

  lemma ToClient(s: State) returns (s': State)
    requires Inv(s) && Up(s)
    ensures CanLead(s, s') && Inv(s') && Up(s') && SamePushed(s, s')
    ensures Client(s').f.popped == Peer(s').f.hist && Peer(s').f.popped == Peer(s).f.popped
  {
    hide Inv, CanLead, Shared, NodeStep, SentAll, ReceivedAll;
    UpShares(s);
    CanSendAll(Peer(s), Client(s), s.cap);
    ServerMove(s, Send(|Peer(s).f.hist| - s.server.next, 0, false), SentAll(Peer(s)));
    var s1 := SetServer(s, SentAll(Peer(s)));
    UpShares(s1);
    var x, y := Peer(s1), Client(s1);
    CanReceiveAll(x, y, s1.cap);
    ClientMove(s1, Recv(|x.s.done| - y.s.seen, false), ReceivedAll(x, y));
    var s2 := SetClient(s1, ReceivedAll(x, y));
    UpShares(s2);
    AllInHand(Peer(s2), Client(s2), s2.cap);
    s' := ClientPopsAll(s2);
    Via(s, s1, s2);
    Via(s, s2, s');
  }

  // ---- logging in again ----

  /** Both sides stop; the server comes back under the name of the session. */
  function Stopped(s: State): State {
    s.(client := CrashN(Client(s)).s, server := CrashN(Server(s)).s, name := s.last, net := Quiet)
  }

  lemma StopBoth(s: State)
    requires Inv(s) && s.last != ""
    ensures CanLead(s, Stopped(s)) && Inv(Stopped(s))
    ensures Client(Stopped(s)).f == Client(s).f && Peer(Stopped(s)).f == Peer(s).f == Server(Stopped(s)).f
  {
    hide Inv, CanLead;
    var m := s.(client := CrashN(Client(s)).s, net := Quiet);
    OneStep(s, ClientCrash, m);
    StepKeeps(s, ClientCrash, m);
    OneStep(m, ServerRestart(s.last), Stopped(s));
    StepKeeps(m, ServerRestart(s.last), Stopped(s));
    Via(s, m, Stopped(s));
  }

  lemma AnswerOpens(s: State) returns (s': State)
    requires Inv(s) && s.net.Requested? && !s.server.open && s.net.login.last == s.name && Sane(Server(s).f.q)
    ensures Next(s, Answer(true), s') && Inv(s') && s'.net.Answered? && s'.net.server == s.name == s'.last == s'.name
    ensures s'.server.open && Client(s') == Client(s) && Peer(s').f.hist == Peer(s).f.hist && s'.cap == s.cap
  {
    hide Inv, OpenN, LoginPasses, Released, Sane;
    ResumeAnswer(s);
    ResumeAnswerOk(s);
    var ack := LoginAckOf(s, s.net.login);
    var x := OpenN(Server(s).f, ack);
    s' := SetServer(s, x).(net := Answered(s.name, Server(s).f.q.ackSeq), linked := false);
    assert Opened(Server(s).f, ack, x);
    StepKeeps(s, Answer(true), s');
    OpenedSide(Server(s).f, ack);
    OpenedHist(Server(s).f, ack);
  }

  lemma OpenedHist(f: File, ack: U32)
    requires AckOk(f.q, ack)
    ensures OpenN(f, ack).f.hist == f.hist
  {
  }

  lemma CompleteOpens(s: State) returns (s': State)
    requires Inv(s) && s.net.Answered? && s.net.server == s.last == s.name && s.server.open && s.last != ""
    ensures Next(s, Complete, s') && Inv(s') && Up(s') && SamePushed(s, s')
  {
    hide Inv, OpenN, Released;
    CompleteAckOk(s);
    var x := OpenN(CompleteFile(s), s.net.ack);
    s' := s.(last := s.net.server, client := x.s, cfiles := s.cfiles[s.net.server := x.f], net := Quiet, linked := true);
    assert Opened(CompleteFile(s), s.net.ack, x);
    StepKeeps(s, Complete, s');
    OpenedSide(CompleteFile(s), s.net.ack);
    OpenedHist(CompleteFile(s), s.net.ack);
  }

  lemma CompleteAckOk(s: State)
    requires Inv(s) && s.net.Answered?
    ensures AckOk(CompleteFile(s).q, s.net.ack)
  {
    hide FilesInv, OpenInv, SessionInv, LinkInv, AnsweredInv, FileInv, Wrap, AckOk;
    FilesHold(s.cfiles, s.cap, s.last);
    FreshFile(s.cap);
    AckIsCount(s);
    OpenKeeps(CompleteFile(s), s.cap, |FileOf(s.sfiles, s.net.server).popped|);
  }

  lemma InWindowSane(s: State)
    requires Inv(s)
    ensures |Client(s).f.hist| == |Client(s).f.at| && |Peer(s).f.hist| == |Peer(s).f.at|
    ensures InWindow(Client(s).f) <==> Sane(Client(s).f.q)
    ensures InWindow(Peer(s).f) <==> Sane(Peer(s).f.q)
  {
    hide Inv, Sane, InWindow;
    InvFiles(s);
    SaneExactlyInWindow(Client(s).f, s.cap);
    SaneExactlyInWindow(Peer(s).f, s.cap);
  }

  lemma LogInAgain(s: State) returns (s': State)
    requires Inv(s) && s.last != "" && Sane(Client(s).f.q) && Sane(Peer(s).f.q)
    ensures CanLead(s, s') && Inv(s') && Up(s') && SamePushed(s, s')
  {
    hide Inv, CanLead, Sane, AnswerStep, CompleteStep;
    StopBoth(s);
    var s1 := Stopped(s);
    var s2 := s1.(net := Requested(LoginOf(s1)));
    assert Next(s1, Request, s2);
    OneStep(s1, Request, s2);
    StepKeeps(s1, Request, s2);
    assert Client(s2) == Client(s1) && Server(s2) == Server(s1) && Peer(s2) == Peer(s1);
    var s3 := AnswerOpens(s2);
    OneStep(s2, Answer(true), s3);
    s' := CompleteOpens(s3);
    OneStep(s3, Complete, s');
    Via(s, s1, s2);
    Via(s, s2, s3);
    Via(s, s3, s');
  }

  /** From every reachable state with both files of the session in the window there is a continuation, without a further
      message pushed, after which each side has consumed everything the other pushed. */
  lemma EverythingCanBeConsumed(s: State)
    requires Reachable(s) && s.last != ""
    ensures |Client(s).f.hist| == |Client(s).f.at| && |Peer(s).f.hist| == |Peer(s).f.at|
    ensures InWindow(Client(s).f) && InWindow(Peer(s).f) ==> exists s' ::
      CanLead(s, s') && SamePushed(s, s') && Client(s').f.popped == Peer(s).f.hist && Peer(s').f.popped == Client(s).f.hist
  {
    hide Reachable, Inv, CanLead, Sane, InWindow;
    ReachableInv(s);
    InWindowSane(s);
    if InWindow(Client(s).f) && InWindow(Peer(s).f) {
      var s1 := LogInAgain(s);
      var s2 := ToServer(s1);
      var s' := ToClient(s2);
      Via(s, s1, s2);
      Via(s, s2, s');
    }
  }
}
