/** Exactly-once delivery of what the users pushed. The histories in the files hold messages as they were queued; here
    what each side was given to push, and what it was shown and popped, is read off the steps of the run. */
module RecoveryPushes {
  import opened Word32
  import opened MsgHeaders
  import opened PtcpQueueSpec
  import opened Framer
  import opened RecoveryNode
  import opened RecoverySteps
  import opened RecoveryProtocol
  import opened RecoveryBytes
  import opened RecoverySessions

  /** One side's user in a session: the messages it filled in and pushed, in order, with how many it had popped by each
      push; and the messages it was shown and popped, in order. */
  datatype Told = Told(gave: seq<Msg>, counts: seq<nat>, took: seq<Msg>)

  const BLANK := Told([], [], [])

  /** What an act of the node x adds. */
  function Telling(t: Told, act: Act, x: Node): Told {
    match act
    case Push(m) => t.(gave := t.gave + [m], counts := t.counts + [|t.took|])
    case Pop => if x.s.inbox == [] then t else t.(took := t.took + [x.s.inbox[0]])
    case _ => t
  }

  /** The client's user in the session with server n, over the first k steps. A login completed with another server than
      the last begins a session. */
  ghost function ClientTold(states: seq<State>, steps: seq<Step>, k: nat, n: Name): Told
    requires |states| == |steps| + 1 && k <= |steps|
  {
    if k == 0 then BLANK else
      var s, t := states[k - 1], ClientTold(states, steps, k - 1, n);
      match steps[k - 1]
      case ClientAct(act) => if s.last == n then Telling(t, act, Client(s)) else t
      case Complete => if s.net.Answered? && s.net.server == n != s.last then BLANK else t
      case _ => t
  }

  /** The user of the server called n. A login from a client whose last server was another begins a session. */
  ghost function ServerTold(states: seq<State>, steps: seq<Step>, k: nat, n: Name): Told
    requires |states| == |steps| + 1 && k <= |steps|
  {
    if k == 0 then BLANK else
      var s, t := states[k - 1], ServerTold(states, steps, k - 1, n);
      match steps[k - 1]
      case ServerAct(act) => if s.name == n then Telling(t, act, Server(s)) else t
      case Answer(_) => if s.net.Requested? && s.name == n != s.net.login.last then BLANK else t
      case _ => t
  }

  /** Each of the messages queued carries the one given, stamped with the count of its time. */
  ghost predicate CarriesAll(queued: seq<Msg>, gave: seq<Msg>, counts: seq<nat>) {
    && |queued| == |gave| == |counts|
    && forall i :: 0 <= i < |queued| ==> Carries(queued[i], gave[i], Wrap(counts[i]))
  }

  /** The file's history is what its user did. */
  ghost predicate Records(f: File, t: Told) {
    CarriesAll(f.hist, t.gave, t.counts) && f.popped == t.took
  }

  lemma BlankRecords()
    ensures Records(FRESH, BLANK)
  {
  }

  lemma PushRecords(x: Node, m: Msg, t: Told)
    requires Records(x.f, t) && x.f.q.ackSeq == Wrap(|x.f.popped|)
    ensures Records(PushN(x, m).f, Telling(t, Push(m), x))
  {
    hide Wrap, QPush;
  }

  lemma PopRecords(x: Node, t: Told)
    requires Records(x.f, t) && CanPopN(x)
    ensures Records(PopN(x).f, Telling(t, Pop, x))
  {
  }

  /** Whatever a node does, its history follows its user. */
  lemma ActRecords(x: Node, y: Node, cap: nat, linked: bool, act: Act, x': Node, t: Told)
    requires FileInv(x.f, cap) && NodeStep(x, y, linked, cap, act, x') && Records(x.f, t)
    requires linked && x.s.open ==> Shared(x, y, cap, true)
    ensures Records(x'.f, Telling(t, act, x))
  {
    hide Records, CanSendN, CanRecvN, RecvN, HistInv, QValid, Shared, PushN, PopN, Wrap, TotalLen, Telling;
    SameTold(t, act, x);
    match act
    case Push(m) => PushRecords(x, m, t);
    case Pop => PopRecords(x, t);
    case Send(whole, part, broke) =>
      assert x'.f.hist == x.f.hist && x'.f.popped == x.f.popped;
      SameRecords(x.f, x'.f, t);
    case Recv(frames, header) =>
      ReceivesOpen(x, y, frames, header);
      RecvKeepsUser(x, y, cap, frames, header, x');
      SameRecords(x.f, x'.f, t);
    case _ =>
  }

  lemma SameTold(t: Told, act: Act, x: Node)
    ensures !act.Push? && !act.Pop? ==> Telling(t, act, x) == t
  {
  }

  lemma ReceivesOpen(x: Node, y: Node, frames: nat, header: bool)
    requires CanRecvN(y, x, frames, header)
    ensures x.s.open
  {
  }

  lemma SameRecords(f: File, f': File, t: Told)
    requires Records(f, t) && f'.hist == f.hist && f'.popped == f.popped
    ensures Records(f', t)
  {
  }

  lemma RecvKeepsUser(x: Node, y: Node, cap: nat, frames: nat, header: bool, x': Node)
    requires Shared(x, y, cap, true) && CanRecvN(y, x, frames, header) && RecvN(y, x, frames, header, x')
    ensures x'.f.hist == x.f.hist && x'.f.popped == x.f.popped
  {
    hide FileInv, SendInv, Apps, AcksSafe, FAckAll, AcksOf;
    RecvKeepsFile(y, x, cap, frames, header, x');
  }

  // ---- the client's file ----

  lemma ClientStepRecords(s: State, step: Step, s': State, n: Name, t: Told)
    requires Inv(s) && Next(s, step, s') && Records(FileOf(s.cfiles, n), t)
    ensures Records(FileOf(s'.cfiles, n),
      match step
      case ClientAct(act) => if s.last == n then Telling(t, act, Client(s)) else t
      case Complete => if s.net.Answered? && s.net.server == n != s.last then BLANK else t
      case _ => t)
  {
    hide Inv, NodeStep, Records, Opened, Telling;
    match step
    case ClientAct(act) =>
      var x :| NodeStep(Client(s), Peer(s), s.linked, s.cap, act, x) && s' == SetClient(s, x);
      if s.last == n {
        InvFiles(s);
        if s.linked {
          LinkedShares(s);
        }
        ActRecords(Client(s), Peer(s), s.cap, s.linked, act, x, t);
      }
    case ServerAct(act) =>
    case Answer(delivered) => AnswerLeavesClient(s, delivered, s');
    case Complete =>
      if s.net.server == n {
        var x :| Opened(CompleteFile(s), s.net.ack, x)
          && s' == s.(last := s.net.server, client := x.s, cfiles := s.cfiles[s.net.server := x.f], net := Quiet, linked := true);
        CompleteKeepsFile(s, x);
        BlankRecords();
        KeepsRecords(CompleteFile(s), x.f, if n == s.last then t else BLANK);
      }
    case _ =>
  }

  lemma AnswerLeavesClient(s: State, delivered: bool, s': State)
    requires s.net.Requested? && AnswerStep(s, delivered, s')
    ensures s'.cfiles == s.cfiles
  {
    hide LoginPasses, Opened;
  }

  lemma KeepsRecords(f: File, f': File, t: Told)
    requires Records(f, t) && Keeps(f, f')
    ensures Records(f', t)
  {
  }

  lemma {:induction false} ClientRecords(states: seq<State>, steps: seq<Step>, k: nat, n: Name)
    requires Run(states, steps) && k <= |steps|
    ensures Records(FileOf(states[k].cfiles, n), ClientTold(states, steps, k, n))
    decreases k
  {
    hide Inv, Next, Records, Telling;
    if k == 0 {
      BlankRecords();
    } else {
      ClientRecords(states, steps, k - 1, n);
      RunKeeps(states, steps, k - 1);
      assert Next(states[k - 1], steps[k - 1], states[k - 1 + 1]);
      ClientStepRecords(states[k - 1], steps[k - 1], states[k], n, ClientTold(states, steps, k - 1, n));
    }
  }

  // ---- the server's file ----

  lemma AnswerRecords(s: State, delivered: bool, s': State, t: Told)
    requires Inv(s) && s.net.Requested? && AnswerStep(s, delivered, s') && Records(FileOf(s.sfiles, s.name), t)
    ensures Records(FileOf(s'.sfiles, s.name), if s.net.login.last == s.name then t else BLANK)
    ensures forall n :: n != s.name ==> FileOf(s'.sfiles, n) == FileOf(s.sfiles, n)
  {
    hide Inv, Records, LoginPasses, AckOk, OpenN;
    var login := s.net.login;
    BlankRecords();
    if LoginPasses(s, login) && delivered {
      var f := LoginFile(s, login);
      var x :| Opened(f, LoginAckOf(s, login), x)
        && s' == SetServer(s, x).(net := Answered(s.name, f.q.ackSeq), linked := false);
      if login.last == s.name {
        ResumeAnswerOk(s);
      } else {
        FreshAckOk();
      }
      OpenKeepsUser(f, LoginAckOf(s, login));
      KeepsRecords(f, x.f, if login.last == s.name then t else BLANK);
    }
  }

  lemma OpenKeepsUser(f: File, ack: U32)
    requires AckOk(f.q, ack)
    ensures Keeps(f, OpenN(f, ack).f)
  {
    hide QLoginAck, Released;
  }

  lemma ServerStepRecords(s: State, step: Step, s': State, n: Name, t: Told)
    requires Inv(s) && Next(s, step, s') && Records(FileOf(s.sfiles, n), t)
    ensures Records(FileOf(s'.sfiles, n),
      match step
      case ServerAct(act) => if s.name == n then Telling(t, act, Server(s)) else t
      case Answer(_) => if s.net.Requested? && s.name == n != s.net.login.last then BLANK else t
      case _ => t)
  {
    hide Inv, NodeStep, Records, Opened, Telling, AnswerStep;
    match step
    case ServerAct(act) =>
      var x :| NodeStep(Server(s), Client(s), s.linked, s.cap, act, x) && s' == SetServer(s, x);
      if s.name == n {
        InvFiles(s);
        if s.linked {
          LinkedShares(s);
        }
        ActRecords(Server(s), Client(s), s.cap, s.linked, act, x, t);
      }
    case Answer(delivered) =>
      if s.name == n {
        AnswerRecords(s, delivered, s', t);
      } else {
        AnswerElsewhere(s, delivered, s', n);
      }
    case _ =>
  }

  lemma AnswerElsewhere(s: State, delivered: bool, s': State, n: Name)
    requires s.net.Requested? && AnswerStep(s, delivered, s') && n != s.name
    ensures FileOf(s'.sfiles, n) == FileOf(s.sfiles, n)
  {
    hide LoginPasses, Opened;
  }

  lemma {:induction false} ServerRecords(states: seq<State>, steps: seq<Step>, k: nat, n: Name)
    requires Run(states, steps) && k <= |steps|
    ensures Records(FileOf(states[k].sfiles, n), ServerTold(states, steps, k, n))
    decreases k
  {
    hide Inv, Next, Records, Telling;
    if k == 0 {
      BlankRecords();
    } else {
      ServerRecords(states, steps, k - 1, n);
      RunKeeps(states, steps, k - 1);
      assert Next(states[k - 1], steps[k - 1], states[k - 1 + 1]);
      ServerStepRecords(states[k - 1], steps[k - 1], states[k], n, ServerTold(states, steps, k - 1, n));
    }
  }

  // ---- what the users get ----

  /** One direction: what `to` was shown and popped is, message by message, the first of what `from` gave to push, with
      `from`'s count of that time in each header; and the rest is in `from`'s queue, in order. */
  ghost predicate Delivered(from: Told, to: Told, queue: seq<Msg>) {
    && |from.counts| == |from.gave|
    && |to.took| <= |from.gave| <= |to.took| + |queue|
    && CarriesAll(to.took, from.gave[..|to.took|], from.counts[..|to.took|])
    && |queue| <= |from.gave|
    && var read := |from.gave| - |queue|;
       CarriesAll(queue, from.gave[read..], from.counts[read..])
  }

  lemma DeliveredFrom(from: File, to: File, a: Told, b: Told)
    requires Records(from, a) && Records(to, b) && ExactlyOnce(from, to)
    ensures Delivered(a, b, from.q.msgs)
  {
    hide Carries, Wrap;
  }

  /** The headline, over what the users did: in every run, the messages popped on either side of the session are the
      messages pushed on the other, each once, in order, with the body, size and type they were filled in with. */
  lemma PushedIsDelivered(states: seq<State>, steps: seq<Step>)
    requires Run(states, steps) && states[|steps|].last != ""
    ensures var s, k := states[|steps|], |steps|;
      && Delivered(ClientTold(states, steps, k, s.last), ServerTold(states, steps, k, s.last), Client(s).f.q.msgs)
      && Delivered(ServerTold(states, steps, k, s.last), ClientTold(states, steps, k, s.last), Peer(s).f.q.msgs)
  {
    hide Next, Init, Inv, Records, ExactlyOnce, Delivered;
    var s, k := states[|steps|], |steps|;
    assert Reachable(s);
    ExactlyOnceDelivery(s);
    ClientRecords(states, steps, k, s.last);
    ServerRecords(states, steps, k, s.last);
    DeliveredFrom(Client(s).f, Peer(s).f, ClientTold(states, steps, k, s.last), ServerTold(states, steps, k, s.last));
    DeliveredFrom(Peer(s).f, Client(s).f, ServerTold(states, steps, k, s.last), ClientTold(states, steps, k, s.last));
  }
}
