/** The server's connection control: accepting, logging in, reaping and stopping, in place. */
module Servers {
  import opened Word32
  import opened ServerTable
  import opened ServerBooks

  /** The accepted sockets the system holds open for the server. Closing one that is not open would be an error. */
  class OpenSockets {
    ghost var open: set<int>

    constructor ()
      ensures open == {}
    {
      open := {};
    }

    method Accepted(fd: int)
      requires fd !in open
      modifies this
      ensures open == old(open) + {fd}
    {
      open := open + {fd};
    }

    method CloseFd(fd: int)
      requires fd in open
      modifies this
      ensures open == old(open) - {fd}
    {
      open := open - {fd};
    }
  }

  class Connection {
    const id: nat
    var name: string
    var sockfd: int
    var fdToClose: int

    constructor (id: nat)
      ensures this.id == id && Seen() == Slot(id, "", INVALID, INVALID)
    {
      this.id, name, sockfd, fdToClose := id, "", INVALID, INVALID;
    }

    function Seen(): Slot
      reads this
    {
      Slot(id, name, sockfd, fdToClose)
    }

    /** A socket is opened only where none is held. */
    method Open(fd: int, broke: bool)
      requires sockfd == fdToClose == INVALID
      modifies this
      ensures Seen() == Opened(old(Seen()), fd, broke)
      ensures fdToClose == fd && name == old(name) && sockfd == if broke then INVALID else fd
    {
      sockfd, fdToClose := fd, fd;
      if broke {
        Close();
      }
    }

    method Close()
      modifies this`sockfd
      ensures sockfd == INVALID
    {
      sockfd := INVALID;
    }

    method TryCloseFd(os: OpenSockets) returns (closed: bool)
      requires fdToClose == INVALID || fdToClose in os.open
      modifies this`fdToClose, os
      ensures closed == old(Seen().Dead())
      ensures closed ==> fdToClose == INVALID && os.open == old(os.open) - {old(fdToClose)}
      ensures !closed ==> fdToClose == old(fdToClose) && os.open == old(os.open)
    {
      closed := sockfd == INVALID && fdToClose != INVALID;
      if closed {
        os.CloseFd(fdToClose);
        fdToClose := INVALID;
      }
    }

    method Release(os: OpenSockets)
      requires fdToClose == INVALID || fdToClose in os.open
      modifies this, os
      ensures Seen() == Slot(id, "", INVALID, INVALID)
      ensures os.open == if old(fdToClose) == INVALID then old(os.open) else old(os.open) - {old(fdToClose)}
    {
      name := "";
      Close();
      var _ := TryCloseFd(os);
    }
  }

  class ConnectionGroup {
    const conns: array<Connection>
    var liveCnt: nat
    ghost const objs: set<Connection>
    ghost var tab: Table

    /** All connections of the group are its slice of the pool, unused. */
    constructor (first: nat, count: nat)
      ensures Valid() && conns.Length == count && fresh(conns) && fresh(objs)
      ensures |tab.slots| == count && forall i :: 0 <= i < count ==> tab.slots[i] == Slot(first + i, "", INVALID, INVALID)
      ensures Forgotten(tab)
    {
      var pool: seq<Connection> := [];
      for i := 0 to count
        invariant |pool| == i && fresh(set c | c in pool)
        invariant forall j :: 0 <= j < i ==> pool[j].Seen() == Slot(first + j, "", INVALID, INVALID)
      {
        var c := new Connection(first + i);
        pool := pool + [c];
      }
      var slots := seq(count, (i: nat) => Slot(first + i, "", INVALID, INVALID));
      conns := new Connection[count](i requires 0 <= i < |pool| => pool[i]);
      objs := set c | c in pool;
      liveCnt := 0;
      tab := Table(slots, 0);
    }

    /** The array and the objects are what the table says. */
    ghost predicate Mirrors()
      reads this, conns, objs
    {
      && liveCnt == tab.live && conns.Length == |tab.slots|
      && forall i :: 0 <= i < conns.Length ==> conns[i] in objs && conns[i].Seen() == tab.slots[i]
    }

    ghost predicate Valid()
      reads this, conns, objs
    {
      Mirrors() && TableInv(tab)
    }

    /** HandleLogin from its search on. */
    method HandleLogin(name: string, fd: int, verdict: Verdict) returns (adopted: bool)
      requires Valid() && name != "" && fd != INVALID && fd !in Fds(tab)
      modifies this, conns, objs
      ensures Valid() && tab == Login(old(tab), name, fd, verdict)
      ensures adopted == Adopts(old(tab), name, verdict)
      ensures liveCnt == old(liveCnt) + if adopted then 1 else 0
      ensures adopted ==> verdict.Accepted? && 0 < liveCnt <= conns.Length
      ensures adopted ==>
        var c := conns[liveCnt - 1];
        c in objs && c.name == name && c.fdToClose == fd && c.sockfd == if verdict.broke then INVALID else fd
    {
      hide TableInv, Fds, OthersSame;
      LoginKeeps(tab, name, fd, verdict);
      LastLive(Login(tab, name, fd, verdict));
      LiveBound(tab);
      var i := 0;
      while i < conns.Length
        invariant 0 <= i <= conns.Length && Find(tab.slots, name, i) == Find(tab.slots, name, 0)
        invariant Valid() && tab == old(tab)
      {
        var cur := conns[i];
        assert cur.Seen() == tab.slots[i];
        if cur.name == "" || cur.name == name {
          adopted := Match(i, name, fd, verdict);
          return;
        }
        i := i + 1;
      }
      return false;
    }

    /** The slot is found: name it, and go live unless something is against it. */
    method Match(i: nat, name: string, fd: int, verdict: Verdict) returns (adopted: bool)
      requires Valid() && name != "" && i == Find(tab.slots, name, 0) < conns.Length
      modifies this, conns, objs
      ensures Mirrors() && tab == Login(old(tab), name, fd, verdict)
      ensures adopted == Adopts(old(tab), name, verdict)
    {
      hide Fds, Find, Names, Swap;
      var cur := conns[i];
      assert cur.Seen() == tab.slots[i];
      SetName(i, name);
      if i < liveCnt {
        return false;
      }
      if verdict.Refused? {
        return false;
      }
      GoLive(i, fd, verdict.broke);
      return true;
    }

    method SetName(i: nat, name: string)
      requires Valid() && i < conns.Length
      modifies this`tab, objs
      ensures Mirrors() && tab == old(tab).(slots := old(tab).slots[i := old(tab).slots[i].(name := name)])
    {
      hide Names, Sockets;
      OneObject();
      var cur := conns[i];
      cur.name := name;
      tab := tab.(slots := tab.slots[i := tab.slots[i].(name := name)]);
    }

    method GoLive(i: nat, fd: int, broke: bool)
      requires Mirrors() && DistinctIds(tab.slots) && liveCnt <= i < conns.Length
      requires tab.slots[i].sock == tab.slots[i].toClose == INVALID
      modifies this, conns, objs
      ensures Mirrors()
      ensures tab == Table(Swap(old(tab).slots[i := Opened(old(tab).slots[i], fd, broke)], i, old(tab).live), old(tab).live + 1)
    {
      OneObject();
      var cur := conns[i];
      assert cur.Seen() == tab.slots[i];
      cur.Open(fd, broke);
      tab := tab.(slots := tab.slots[i := Opened(tab.slots[i], fd, broke)]);
      assert Mirrors();
      tab := Table(Swap(tab.slots, i, liveCnt), liveCnt + 1);
      conns[i], conns[liveCnt] := conns[liveCnt], conns[i];
      liveCnt := liveCnt + 1;
    }

    /** Distinct ids mean distinct objects. */
    lemma OneObject()
      requires Mirrors() && DistinctIds(tab.slots)
      ensures forall i, j :: 0 <= i < j < conns.Length ==> conns[i] != conns[j]
    {
      forall i, j | 0 <= i < j < conns.Length
        ensures conns[i] != conns[j]
      {
        assert conns[i].Seen() == tab.slots[i] && conns[j].Seen() == tab.slots[j];
      }
    }

    /** PollCtl's loop over the live connections; on a group of SHM connections it polls each one's heartbeats first. */
    method ReapClosed(os: OpenSockets, breaks: set<nat>)
      requires Valid() && Fds(tab) <= os.open
      modifies this, conns, objs, os
      ensures Valid() && tab == Reap(old(tab), 0, breaks)
      ensures os.open == old(os.open) - (old(Fds(tab)) - Fds(tab)) && Fds(tab) <= old(Fds(tab))
    {
      hide TableInv, Fds;
      var i := 0;
      while i < liveCnt
        invariant Valid() && Reap(tab, i, breaks) == Reap(old(tab), 0, breaks)
        invariant Fds(tab) <= old(Fds(tab)) <= old(os.open)
        invariant os.open == old(os.open) - (old(Fds(tab)) - Fds(tab))
        decreases liveCnt - i
      {
        LiveBound(tab);
        ghost var before := tab;
        var cur := conns[i];
        assert cur.Seen() == tab.slots[i];
        if cur.id in breaks {
          Break(i);
        }
        var retired := TryRetire(i, os);
        if !retired {
          i := i + 1;
        }
      }
    }

    method Break(i: nat)
      requires Valid() && i < conns.Length
      modifies this`tab, objs
      ensures Valid() && tab == Broken(old(tab), i) && Fds(tab) == old(Fds(tab))
    {
      hide Names, Sockets, Fds;
      OneObject();
      BrokenKeeps(tab, i);
      var cur := conns[i];
      assert cur.Seen() == tab.slots[i];
      cur.Close();
      tab := Broken(tab, i);
    }

    /** TryCloseFd, and the swap that takes a closed connection out of the live ones. */
    method TryRetire(i: nat, os: OpenSockets) returns (retired: bool)
      requires Valid() && i < liveCnt && Fds(tab) <= os.open
      modifies this, conns, objs, os
      ensures Valid() && retired == old(i < |tab.slots| && tab.slots[i].Dead())
      ensures i < old(tab).live <= |old(tab).slots| && tab == if retired then Retired(old(tab), i) else old(tab)
      ensures os.open == old(os.open) - (old(Fds(tab)) - Fds(tab)) && Fds(tab) <= old(Fds(tab))
    {
      hide Names, Sockets, Fds, Swap;
      OneObject();
      HeldOpen(tab, i);
      var cur := conns[i];
      assert cur.Seen() == tab.slots[i];
      retired := cur.TryCloseFd(os);
      if retired {
        RetiredKeeps(tab, i);
        SwapOut(i);
      }
    }

    method SwapOut(i: nat)
      requires liveCnt == tab.live <= conns.Length == |tab.slots| && i < liveCnt
      requires forall j :: 0 <= j < conns.Length ==> conns[j] in objs
      requires forall j :: 0 <= j < conns.Length ==>
        conns[j].Seen() == (if j == i then tab.slots[i].(toClose := INVALID) else tab.slots[j])
      modifies this, conns
      ensures Mirrors() && tab == Retired(old(tab), i)
    {
      tab := Retired(tab, i);
      liveCnt := liveCnt - 1;
      conns[i], conns[liveCnt] := conns[liveCnt], conns[i];
    }

    /** Stop's part for one group. */
    method ReleaseAll(os: OpenSockets)
      requires Valid() && Fds(tab) <= os.open
      modifies this, objs, os
      ensures Valid() && tab == ServerTable.Released(old(tab), |old(tab).slots|).(live := 0)
      ensures os.open == old(os.open) - old(Fds(tab)) && Fds(tab) == {}
    {
      hide Fds, TableInv;
      ReleasedAll(tab);
      ghost var all := tab;
      var i := 0;
      ReleasedNone(tab);
      FdsBelowAll(tab);
      while i < conns.Length
        invariant 0 <= i <= conns.Length == |all.slots| && tab == ServerTable.Released(all, i) && Mirrors()
        invariant os.open == old(os.open) - FdsBelow(all, i)
      {
        FdsBelowNext(all, i);
        ReleaseOne(i, os, all);
        i := i + 1;
      }
      liveCnt := 0;
      tab := tab.(live := 0);
    }

    method ReleaseOne(i: nat, os: OpenSockets, ghost all: Table)
      requires Mirrors() && i < conns.Length == |all.slots| && tab == ServerTable.Released(all, i) && TableInv(all)
      requires all.slots[i].toClose == INVALID || all.slots[i].toClose in os.open
      modifies this`tab, objs, os
      ensures Mirrors() && tab == ServerTable.Released(all, i + 1)
      ensures os.open == old(os.open) - (if all.slots[i].toClose == INVALID then {} else {all.slots[i].toClose})
    {
      hide Names, Sockets;
      assert DistinctIds(tab.slots);
      OneObject();
      ReleasedNext(all, i);
      var cur := conns[i];
      assert cur.Seen() == tab.slots[i] == all.slots[i];
      cur.Release(os);
      tab := ServerTable.Released(all, i + 1);
    }
  }

  class Server {
    const os: OpenSockets
    const newConns: array<int>
    const groups: seq<ConnectionGroup>  // those for SHM first
    const shmCnt: nat
    var listening: bool
    var availIdx: nat
    ghost const repr: set<object>
    ghost var tabs: seq<Table>

    /** The groups are separate objects, over separate connections. */
    ghost predicate Apart() {
      && (forall g :: 0 <= g < |groups| ==> groups[g] in repr && groups[g].conns in repr && groups[g].objs <= repr)
      && (forall g, h :: 0 <= g < h < |groups| ==>
            groups[g] != groups[h] && groups[g].conns != groups[h].conns && groups[g].objs !! groups[h].objs)
      && this !in repr && os !in repr && newConns !in repr && shmCnt <= |groups|
    }

    ghost predicate Shape()
      reads this`tabs, repr
    {
      && Apart() && |tabs| == |groups|
      && forall g :: 0 <= g < |groups| ==> groups[g].Valid() && groups[g].tab == tabs[g]
    }

    /** Every socket has one owner. */
    ghost predicate Balanced()
      reads this`tabs, os, newConns
    {
      Owned(newConns[..], tabs, os.open)
    }

    /** avail_idx_ names a free slot, or says that there is none. */
    ghost predicate Indexed()
      reads this`availIdx, newConns
    {
      if availIdx < newConns.Length then newConns[availIdx] == INVALID
      else availIdx == newConns.Length && INVALID !in newConns[..]
    }

    ghost predicate Valid()
      reads this`tabs, this`availIdx, repr, os, newConns
    {
      Shape() && Balanced() && Indexed()
    }

    /** Groups of the given sizes share the pool of connections out among themselves, in order. */
    constructor (sizes: seq<nat>, shmCount: nat, maxNew: nat)
      requires shmCount <= |sizes|
      ensures Valid() && fresh(repr) && fresh(os) && fresh(newConns) && os.open == {}
      ensures |tabs| == |sizes| && newConns.Length == maxNew && shmCnt == shmCount
      ensures forall g :: 0 <= g < |tabs| ==> |tabs[g].slots| == sizes[g] && Forgotten(tabs[g])
      ensures OneId(tabs)
    {
      hide TableInv, Fds, ConnectionGroup.Mirrors, OneId, IdsBelow;
      var made: seq<ConnectionGroup> := [];
      ghost var owned: set<object> := {};
      ghost var books: seq<Table> := [];
      var first := 0;
      NoIds();
      for g := 0 to |sizes|
        invariant |made| == |books| == g && fresh(owned)
        invariant forall i :: 0 <= i < g ==> made[i] in owned && made[i].conns in owned && made[i].objs <= owned
        invariant forall i :: 0 <= i < g ==> made[i].Valid() && made[i].tab == books[i] && Fds(books[i]) == {}
        invariant forall i, j :: 0 <= i < j < g ==>
          made[i] != made[j] && made[i].conns != made[j].conns && made[i].objs !! made[j].objs
        invariant forall i :: 0 <= i < g ==> |books[i].slots| == sizes[i] && Forgotten(books[i])
        invariant OneId(books) && IdsBelow(books, first)
      {
        var group := new ConnectionGroup(first, sizes[g]);
        NextIds(books, first, group.tab);
        made := made + [group];
        books := books + [group.tab];
        owned := owned + {group, group.conns} + group.objs;
        first := first + sizes[g];
      }
      groups, shmCnt, listening, availIdx, tabs, repr := made, shmCount, true, 0, books, owned;
      os := new OpenSockets();
      newConns := new int[maxNew](_ => INVALID);
    }

    /** The first part of PollCtl: accept one connection if a slot is known to be free. */
    method AcceptOne(accepted: int) returns (took: bool)
      requires Valid() && (accepted == INVALID || accepted !in os.open)
      modifies this`availIdx, newConns, os
      ensures Shape() && Balanced() && tabs == old(tabs)
      ensures took == (old(availIdx) != newConns.Length && accepted != INVALID)
      ensures newConns[..] == if took then old(newConns[..])[old(availIdx) := accepted] else old(newConns[..])
      ensures os.open == old(os.open) + if took then {accepted} else {}
      ensures availIdx == (if took then newConns.Length else old(availIdx))
    {
      took := availIdx != newConns.Length && accepted != INVALID;
      if took {
        AcceptKeeps(newConns[..], tabs, os.open, availIdx, accepted);
        os.Accepted(accepted);
        newConns[availIdx] := accepted;
        availIdx := newConns.Length;
      }
    }

    method LoginTo(g: nat, name: string, fd: int, verdict: Verdict) returns (adopted: bool)
      requires Shape() && g < |groups| && name != "" && fd != INVALID && fd !in Fds(tabs[g])
      modifies this`tabs, repr
      ensures Shape() && tabs == old(tabs)[g := Login(old(tabs)[g], name, fd, verdict)]
      ensures adopted == Adopts(old(tabs)[g], name, verdict)
    {
      hide TableInv, Fds, ConnectionGroup.Mirrors;
      adopted := groups[g].HandleLogin(name, fd, verdict);
      tabs := tabs[g := Login(tabs[g], name, fd, verdict)];
    }

    /** One slot of PollCtl's visit. */
    method ScanOne(i: nat, e: Event)
      requires Shape() && Balanced() && i < newConns.Length && Fitting(e, |groups|)
      modifies this`availIdx, this`tabs, newConns, os, repr
      ensures Shape() && Balanced()
      ensures tabs == AfterSlot(old(tabs), old(newConns[i]), e)
      ensures newConns[..] == old(newConns[..])[i := if e.Waits? then old(newConns[i]) else INVALID]
      ensures availIdx == if newConns[i] == INVALID then i else old(availIdx)
      ensures os.open == if old(newConns[i]) == INVALID || e.Waits? || Taken(old(tabs), old(newConns[i]), e)
        then old(os.open) else old(os.open) - {old(newConns[i])}
    {
      hide Shape, Owned, Taken;
      Sound();
      if newConns[i] == INVALID {
        availIdx := i;
        return;
      }
      if e.Waits? {
        return;
      }
      Settle(i, e);
      availIdx := i;
    }

    /** A socket that no connection takes over is closed. */
    method Settle(i: nat, e: Event)
      requires Shape() && Balanced() && i < newConns.Length && Fitting(e, |groups|) && newConns[i] != INVALID && !e.Waits?
      modifies this`tabs, newConns, os, repr
      ensures Shape() && Balanced()
      ensures tabs == AfterSlot(old(tabs), old(newConns[i]), e)
      ensures newConns[..] == old(newConns[..])[i := INVALID]
      ensures os.open == if Taken(old(tabs), old(newConns[i]), e) then old(os.open) else old(os.open) - {old(newConns[i])}
    {
      hide Shape, Owned, Adopts, Login, Fds;
      Sound();
      var fd := newConns[i];
      VisitKeeps(newConns[..], tabs, os.open, i, e);
      var adopted := false;
      if e.Logs? && e.name != "" && 0 <= e.grp {
        adopted := LoginTo(e.grp, e.name, fd, e.verdict);
      }
      if !adopted {
        os.CloseFd(fd);
      }
      newConns[i] := INVALID;
    }

    lemma Sound()
      requires Shape()
      ensures TablesInv(tabs) && |tabs| == |groups| && os !in repr && newConns !in repr && this !in repr
    {
    }

    /** The whole visit: afterwards the index names the last free slot, or says that there is none. */
    method Scan(events: seq<Event>)
      requires Shape() && Balanced() && |events| == newConns.Length && forall e :: e in events ==> Fitting(e, |groups|)
      requires availIdx == newConns.Length || (availIdx < newConns.Length && newConns[availIdx] == INVALID)
      modifies this`availIdx, this`tabs, newConns, os, repr
      ensures Valid()
      ensures tabs == AfterSlots(old(tabs), old(newConns[..]), events, 0)
      ensures newConns[..] == Waiting(old(newConns[..]), events, newConns.Length)
      ensures forall i :: 0 <= i < newConns.Length ==> newConns[i] == if events[i].Waits? then old(newConns[i]) else INVALID
      ensures forall i :: availIdx < i < newConns.Length ==> newConns[i] != INVALID
    {
      hide Shape, Owned, Taken, AfterSlot, Fds;
      ghost var slots := newConns[..];
      ghost var first := availIdx;
      WaitingNone(slots, events);
      Sound();
      for i := 0 to newConns.Length
        invariant Shape() && Balanced() && |tabs| == |groups|
        invariant AfterSlots(tabs, slots, events, i) == AfterSlots(old(tabs), slots, events, 0)
        invariant newConns[..] == Waiting(slots, events, i)
        invariant availIdx == newConns.Length || (availIdx < newConns.Length && newConns[availIdx] == INVALID)
        invariant forall j :: 0 <= j < i && newConns[j] == INVALID ==> j <= availIdx < newConns.Length
      {
        WaitingNext(slots, events, i);
        ScanOne(i, events[i]);
        Sound();
      }
    }

    /** PollCtl's last part. SHM groups poll heartbeats on the way; `breaks` says which connections that breaks. */
    method ReapGroups(breaks: set<nat>)
      requires Valid()
      modifies this`tabs, os, repr
      ensures Valid() && tabs == AllReaped(old(tabs), shmCnt, breaks, 0)
      ensures |tabs| == |old(tabs)| && forall g :: 0 <= g < |tabs| ==>
        tabs[g] == Reap(old(tabs)[g], 0, if g < shmCnt then breaks else {})
    {
      hide Shape, Owned, TableInv, Fds, Indexed, AllReaped, Reap;
      EachReaped(tabs, shmCnt, breaks, 0);
      Sound();
      for g := 0 to |groups|
        invariant Valid() && |tabs| == |groups|
        invariant AllReaped(tabs, shmCnt, breaks, g) == AllReaped(old(tabs), shmCnt, breaks, 0)
      {
        ReapedNext(tabs, shmCnt, breaks, g);
        ReapGroup(g, if g < shmCnt then breaks else {});
        Sound();
      }
      ReapedNext(tabs, shmCnt, breaks, |groups|);
    }

    method ReapGroup(g: nat, breaks: set<nat>)
      requires Shape() && Balanced() && g < |groups|
      modifies this`tabs, os, repr
      ensures Shape() && Balanced() && g < |old(tabs)| && tabs == old(tabs)[g := Reap(old(tabs)[g], 0, breaks)]
    {
      hide TableInv, Fds, ConnectionGroup.Mirrors;
      ReapKeeps(tabs[g], 0, breaks);
      groups[g].ReapClosed(os, breaks);
      ghost var t := Reap(tabs[g], 0, breaks);
      GroupShrinks(newConns[..], tabs, old(os.open), g, t);
      tabs := tabs[g := t];
    }

    method PollCtl(accepted: int, events: seq<Event>, breaks: set<nat>)
      requires Valid() && (accepted == INVALID || accepted !in os.open)
      requires |events| == newConns.Length && forall e :: e in events ==> Fitting(e, |groups|)
      modifies this`availIdx, this`tabs, newConns, os, repr
      ensures Valid()
      ensures var slots := if old(availIdx) == newConns.Length || accepted == INVALID then old(newConns[..])
          else old(newConns[..])[old(availIdx) := accepted];
        && newConns[..] == Waiting(slots, events, newConns.Length)
        && tabs == AllReaped(AfterSlots(old(tabs), slots, events, 0), shmCnt, breaks, 0)
    {
      hide Shape, Owned, AfterSlots, AllReaped, Waiting;
      var took := AcceptOne(accepted);
      Scan(events);
      Sound();
      ReapGroups(breaks);
    }

    /** RequestClose, or an error while a connection is polled for messages. */
    method BreakOne(g: nat, i: nat)
      requires Valid() && g < |groups| && i < |tabs[g].slots|
      modifies this`tabs, repr
      ensures Valid() && g < |old(tabs)| && i < |old(tabs)[g].slots| && tabs == old(tabs)[g := Broken(old(tabs)[g], i)]
    {
      hide TableInv, Fds;
      BrokenKeeps(tabs[g], i);
      groups[g].Break(i);
      ghost var t := Broken(tabs[g], i);
      GroupShrinks(newConns[..], tabs, os.open, g, t);
      assert os.open - (Fds(tabs[g]) - Fds(t)) == os.open;
      tabs := tabs[g := t];
    }

    /** Stop: every socket is given back, and every name forgotten. */
    method Stop()
      requires Valid()
      modifies this`listening, this`availIdx, this`tabs, newConns, os, repr
      ensures !listening && Valid()
      ensures old(listening) ==> os.open == {}
      ensures old(listening) ==> forall g :: 0 <= g < |tabs| ==> Forgotten(tabs[g])
      ensures !old(listening) ==> os.open == old(os.open) && tabs == old(tabs) && newConns[..] == old(newConns[..])
    {
      hide Shape, Owned, TableInv, Fds;
      Sound();
      if !listening {
        return;
      }
      listening := false;
      CloseNew();
      availIdx := 0;
      Sound();
      ReleaseGroups();
      NothingLeaks(newConns[..], tabs, os.open);
    }

    method CloseNew()
      requires Shape() && Balanced()
      modifies newConns, os
      ensures Shape() && Balanced() && forall i :: 0 <= i < newConns.Length ==> newConns[i] == INVALID
    {
      hide Shape, Owned, TableInv, Fds;
      Sound();
      for i := 0 to newConns.Length
        invariant Shape() && Balanced() && forall j :: 0 <= j < i ==> newConns[j] == INVALID
      {
        if newConns[i] != INVALID {
          SlotClosed(newConns[..], tabs, os.open, i);
          os.CloseFd(newConns[i]);
          ghost var slots := newConns[..];
          newConns[i] := INVALID;
          assert newConns[..] == slots[i := INVALID];
        }
      }
    }

    method ReleaseGroups()
      requires Shape() && Balanced()
      modifies this`tabs, os, repr
      ensures Shape() && Balanced() && forall g :: 0 <= g < |tabs| ==> Forgotten(tabs[g])
    {
      hide Shape, Owned, TableInv, Forgotten;
      Sound();
      for g := 0 to |groups|
        invariant Shape() && Balanced() && |tabs| == |groups|
        invariant forall h :: 0 <= h < g ==> Forgotten(tabs[h])
      {
        ReleaseGroup(g);
        Sound();
      }
    }

    method ReleaseGroup(g: nat)
      requires Shape() && Balanced() && g < |groups|
      modifies this`tabs, os, repr
      ensures Shape() && Balanced() && |tabs| == |old(tabs)| && Forgotten(tabs[g])
      ensures forall h :: 0 <= h < |tabs| && h != g ==> tabs[h] == old(tabs)[h]
    {
      hide TableInv, Fds, ConnectionGroup.Mirrors;
      ghost var t := ServerTable.Released(tabs[g], |tabs[g].slots|).(live := 0);
      groups[g].ReleaseAll(os);
      GroupShrinks(newConns[..], tabs, old(os.open), g, t);
      tabs := tabs[g := t];
    }
  }
}
