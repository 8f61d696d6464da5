/** Who owns which socket: the server's slots for connections not logged in yet, its groups' connections, or nobody. */
module ServerBooks {
  import opened Word32
  import opened ServerTable

  /** What the scan finds at an accepted socket: no login message yet; no valid one, or too late; or a login, which the
      user has put into group grp or rejected (grp < 0). */
  datatype Event = Waits | Drops | Logs(name: string, grp: int, verdict: Verdict)

  predicate Fitting(e: Event, groups: nat) {
    e.Logs? ==> e.grp < groups
  }

  /** Every open socket is in exactly one place, and every place holds an open socket or none. */
  ghost predicate Owned(slots: seq<int>, tabs: seq<Table>, open: set<int>) {
    && INVALID !in open
    && (forall i :: 0 <= i < |slots| && slots[i] != INVALID ==> slots[i] in open)
    && (forall g :: 0 <= g < |tabs| ==> Fds(tabs[g]) <= open)
    && (forall i, j :: 0 <= i < j < |slots| && slots[i] != INVALID ==> slots[i] != slots[j])
    && (forall i, g :: 0 <= i < |slots| && 0 <= g < |tabs| ==> slots[i] !in Fds(tabs[g]))
    && (forall g, h :: 0 <= g < h < |tabs| ==> Fds(tabs[g]) !! Fds(tabs[h]))
    && (forall fd :: fd in open ==> fd in slots || exists g :: 0 <= g < |tabs| && fd in Fds(tabs[g]))
  }

  ghost predicate TablesInv(tabs: seq<Table>) {
    forall g :: 0 <= g < |tabs| ==> TableInv(tabs[g])
  }

  /** No connection of the pool is in two groups. */
  ghost predicate OneId(tabs: seq<Table>) {
    forall g, h, i, k :: 0 <= g < h < |tabs| && 0 <= i < |tabs[g].slots| && 0 <= k < |tabs[h].slots| ==>
      tabs[g].slots[i].id != tabs[h].slots[k].id
  }

  ghost predicate IdsBelow(tabs: seq<Table>, first: nat) {
    forall g, i :: 0 <= g < |tabs| && 0 <= i < |tabs[g].slots| ==> tabs[g].slots[i].id < first
  }

  /** The next group has the next slice of the pool. */
  lemma NextIds(tabs: seq<Table>, first: nat, t: Table)
    requires OneId(tabs) && IdsBelow(tabs, first)
    requires forall i :: 0 <= i < |t.slots| ==> t.slots[i].id == first + i
    ensures OneId(tabs + [t]) && IdsBelow(tabs + [t], first + |t.slots|)
  {
  }

  lemma NoIds()
    ensures OneId([]) && IdsBelow([], 0)
  {
  }

  /** The groups after one slot of the scan. */
  function AfterSlot(tabs: seq<Table>, fd: int, e: Event): seq<Table> {
    if fd == INVALID || !e.Logs? || e.name == "" || e.grp < 0 || e.grp >= |tabs| then tabs
    else tabs[e.grp := Login(tabs[e.grp], e.name, fd, e.verdict)]
  }

  /** HandleLogin has taken the slot's socket over. */
  predicate Taken(tabs: seq<Table>, fd: int, e: Event) {
    fd != INVALID && e.Logs? && e.name != "" && 0 <= e.grp < |tabs| && Adopts(tabs[e.grp], e.name, e.verdict)
  }

  /** The groups after the scan from slot i on. */
  function AfterSlots(tabs: seq<Table>, slots: seq<int>, events: seq<Event>, i: nat): seq<Table>
    requires |events| == |slots|
    decreases |slots| - i
  {
    if i >= |slots| then tabs else AfterSlots(AfterSlot(tabs, slots[i], events[i]), slots, events, i + 1)
  }

  /** The slots once the first n have been visited: only those with no login message yet are kept. */
  function Waiting(slots: seq<int>, events: seq<Event>, n: nat): seq<int>
    requires |events| == |slots|
  {
    seq(|slots|, (i: nat) requires i < |slots| => if i < n && !events[i].Waits? then INVALID else slots[i])
  }

  lemma WaitingNone(slots: seq<int>, events: seq<Event>)
    requires |events| == |slots|
    ensures Waiting(slots, events, 0) == slots
  {
  }

  lemma WaitingNext(slots: seq<int>, events: seq<Event>, n: nat)
    requires |events| == |slots| && n < |slots|
    ensures Waiting(slots, events, n)[n] == slots[n]
    ensures Waiting(slots, events, n + 1)
         == Waiting(slots, events, n)[n := if events[n].Waits? then slots[n] else INVALID]
  {
  }

  /** The groups after reaping from group g on; only SHM groups poll. */
  function AllReaped(tabs: seq<Table>, shmCnt: nat, breaks: set<nat>, g: nat): seq<Table>
    decreases |tabs| - g
  {
    if g >= |tabs| then tabs
    else AllReaped(tabs[g := Reap(tabs[g], 0, if g < shmCnt then breaks else {})], shmCnt, breaks, g + 1)
  }

  /** Each group is reaped once, the TCP groups without polling. */
  lemma {:induction false} EachReaped(tabs: seq<Table>, shmCnt: nat, breaks: set<nat>, g: nat)
    ensures var tabs' := AllReaped(tabs, shmCnt, breaks, g);
      |tabs'| == |tabs| && forall h :: 0 <= h < |tabs| ==>
        tabs'[h] == if h < g then tabs[h] else Reap(tabs[h], 0, if h < shmCnt then breaks else {})
    decreases |tabs| - g
  {
    hide Reap;
    if g < |tabs| {
      EachReaped(tabs[g := Reap(tabs[g], 0, if g < shmCnt then breaks else {})], shmCnt, breaks, g + 1);
    }
  }

  lemma ReapedNext(tabs: seq<Table>, shmCnt: nat, breaks: set<nat>, g: nat)
    ensures g < |tabs| ==>
      var tabs' := tabs[g := Reap(tabs[g], 0, if g < shmCnt then breaks else {})];
      AllReaped(tabs, shmCnt, breaks, g) == AllReaped(tabs', shmCnt, breaks, g + 1)
    ensures g == |tabs| ==> AllReaped(tabs, shmCnt, breaks, g) == tabs
  {
  }

  lemma AcceptKeeps(slots: seq<int>, tabs: seq<Table>, open: set<int>, i: nat, fd: int)
    requires Owned(slots, tabs, open) && i < |slots| && slots[i] == INVALID
    requires fd != INVALID && fd !in open
    ensures Owned(slots[i := fd], tabs, open + {fd})
  {
    var slots' := slots[i := fd];
    assert slots'[i] == fd;
    forall x | x in open && x in slots
      ensures x in slots'
    {
      var k :| 0 <= k < |slots| && slots[k] == x;
      assert slots'[k] == x;
    }
  }

  lemma SlotClosed(slots: seq<int>, tabs: seq<Table>, open: set<int>, i: nat)
    requires Owned(slots, tabs, open) && i < |slots| && slots[i] != INVALID
    ensures Owned(slots[i := INVALID], tabs, open - {slots[i]}) && slots[i] in open
    ensures forall g :: 0 <= g < |tabs| ==> slots[i] !in Fds(tabs[g])
  {
    OthersStay(slots, i);
    forall g | 0 <= g < |tabs|
      ensures INVALID !in Fds(tabs[g])
    {
    }
  }

  lemma OthersStay(slots: seq<int>, i: nat)
    requires i < |slots|
    ensures forall x :: x in slots && x != slots[i] ==> x in slots[i := INVALID]
  {
    forall x | x in slots && x != slots[i]
      ensures x in slots[i := INVALID]
    {
      var k :| 0 <= k < |slots| && slots[k] == x;
      assert slots[i := INVALID][k] == x;
    }
  }

  /** A socket moves from slot i to a connection of group g. */
  lemma SlotMoved(slots: seq<int>, tabs: seq<Table>, open: set<int>, i: nat, g: nat, t: Table)
    requires Owned(slots, tabs, open) && i < |slots| && slots[i] != INVALID && g < |tabs|
    requires Fds(t) == Fds(tabs[g]) + {slots[i]}
    ensures Owned(slots[i := INVALID], tabs[g := t], open)
  {
    hide Fds;
    OthersStay(slots, i);
    NoInvalid(tabs, open);
    var slots', tabs' := slots[i := INVALID], tabs[g := t];
    forall h | 0 <= h < |tabs| && h != g
      ensures tabs'[h] == tabs[h] && slots[i] !in Fds(tabs[h])
    {
    }
    assert tabs'[g] == t;
    forall fd | fd in open && fd !in slots'
      ensures exists h :: 0 <= h < |tabs'| && fd in Fds(tabs'[h])
    {
      if fd == slots[i] {
        assert fd in Fds(tabs'[g]);
      } else {
        var h :| 0 <= h < |tabs| && fd in Fds(tabs[h]);
        assert fd in Fds(tabs'[h]);
      }
    }
  }

  lemma NoInvalid(tabs: seq<Table>, open: set<int>)
    requires INVALID !in open && forall g :: 0 <= g < |tabs| ==> Fds(tabs[g]) <= open
    ensures forall g :: 0 <= g < |tabs| ==> INVALID !in Fds(tabs[g])
  {
    hide Fds;
  }

  /** Group g changes and gives back the sockets it does not hold any more. */
  lemma GroupShrinks(slots: seq<int>, tabs: seq<Table>, open: set<int>, g: nat, t: Table)
    requires Owned(slots, tabs, open) && g < |tabs| && Fds(t) <= Fds(tabs[g])
    ensures Owned(slots, tabs[g := t], open - (Fds(tabs[g]) - Fds(t)))
  {
    hide Fds;
    var tabs', open' := tabs[g := t], open - (Fds(tabs[g]) - Fds(t));
    forall h | 0 <= h < |tabs| && h != g
      ensures tabs'[h] == tabs[h] && Fds(tabs[h]) !! Fds(tabs[g])
    {
    }
    assert tabs'[g] == t;
    forall fd | fd in open' && fd !in slots
      ensures exists h :: 0 <= h < |tabs'| && fd in Fds(tabs'[h])
    {
      var h :| 0 <= h < |tabs| && fd in Fds(tabs[h]);
      assert fd in Fds(tabs'[h]);
    }
  }

  /** HandleLogin takes a socket over exactly if a valid login has come on it that the user puts into a group, the group
      can make the name's connection live, and the reply goes out. */
  lemma TakenIff(tabs: seq<Table>, fd: int, e: Event)
    requires TablesInv(tabs)
    ensures Taken(tabs, fd, e) <==>
      && fd != INVALID && e.Logs? && e.name != "" && 0 <= e.grp < |tabs| && e.verdict.Accepted?
      && var t := tabs[e.grp];
         && (forall i :: 0 <= i < t.live && i < |t.slots| ==> t.slots[i].name != e.name)
         && exists i :: t.live <= i < |t.slots| && (t.slots[i].name == "" || t.slots[i].name == e.name)
  {
    if e.Logs? && e.name != "" && 0 <= e.grp < |tabs| {
      AdoptsIff(tabs[e.grp], e.name, e.verdict);
    }
  }

  /** What a visit leaves alone: every group but the login's, and without a login that names a client and a group, all. */
  ghost predicate GroupsSpared(tabs: seq<Table>, tabs': seq<Table>, e: Event) {
    && |tabs'| == |tabs|
    && forall g :: 0 <= g < |tabs| && !(e.Logs? && e.name != "" && e.grp == g) ==> tabs'[g] == tabs[g]
  }

  /** One slot of the scan: its socket is closed, or handed to exactly one connection, which is live and holds it. */
  lemma VisitKeeps(slots: seq<int>, tabs: seq<Table>, open: set<int>, i: nat, e: Event)
    requires Owned(slots, tabs, open) && TablesInv(tabs) && i < |slots| && slots[i] != INVALID && Fitting(e, |tabs|)
    ensures Owned(slots[i := INVALID], AfterSlot(tabs, slots[i], e),
      if Taken(tabs, slots[i], e) then open else open - {slots[i]})
    ensures TablesInv(AfterSlot(tabs, slots[i], e)) && |AfterSlot(tabs, slots[i], e)| == |tabs|
    ensures slots[i] in open && forall g :: 0 <= g < |tabs| ==> slots[i] !in Fds(tabs[g])
    ensures GroupsSpared(tabs, AfterSlot(tabs, slots[i], e), e)
    ensures Taken(tabs, slots[i], e) ==>
      GoesLive(tabs[e.grp], AfterSlot(tabs, slots[i], e)[e.grp], e.name, slots[i], e.verdict.broke)
  {
    hide TableInv, Fds, Login, Adopts, Owned, GoesLive, OthersSame;
    SlotClosed(slots, tabs, open, i);
    if e.Logs? && e.name != "" && 0 <= e.grp {
      var t := Login(tabs[e.grp], e.name, slots[i], e.verdict);
      LoginKeeps(tabs[e.grp], e.name, slots[i], e.verdict);
      if Adopts(tabs[e.grp], e.name, e.verdict) {
        SlotMoved(slots, tabs, open, i, e.grp, t);
      } else {
        var left := open - {slots[i]};
        GroupShrinks(slots[i := INVALID], tabs, left, e.grp, t);
        assert left - (Fds(tabs[e.grp]) - Fds(t)) == left;
      }
    }
  }

  /** With every slot empty and every group without sockets, no socket is left open. */
  lemma NothingLeaks(slots: seq<int>, tabs: seq<Table>, open: set<int>)
    requires Owned(slots, tabs, open)
    requires forall i :: 0 <= i < |slots| ==> slots[i] == INVALID
    requires forall g :: 0 <= g < |tabs| ==> Fds(tabs[g]) == {}
    ensures open == {}
  {
    hide Fds;
    forall fd
      ensures fd !in open
    {
      assert fd in slots ==> fd == INVALID;
      assert forall g :: 0 <= g < |tabs| ==> fd !in Fds(tabs[g]);
    }
  }
}
