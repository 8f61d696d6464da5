/** One group of the server's connection table, as a value: which client names own which connections, which are live,
    and which sockets they hold. */
module ServerTable {
  import opened Word32

  /** A Connection, as the table sees it. id: which object of the pool it is. */
  datatype Slot = Slot(id: nat, name: string, sock: int, toClose: int) {
    /** Closed, but its socket not yet given back: what TryCloseFd looks for. */
    predicate Dead() {
      sock == INVALID && toClose != INVALID
    }
  }

  /** ConnectionGroup: conns, and live_cnt. */
  datatype Table = Table(slots: seq<Slot>, live: nat)

  /** How a login that found its connection ends: some refusal, its reply lost included, or Open, in which sending what
      is pending may break the connection at once. */
  datatype Verdict = Refused | Accepted(broke: bool)

  function Swap(s: seq<Slot>, i: nat, j: nat): (r: seq<Slot>)
    requires i < |s| && j < |s|
    ensures |r| == |s|
  {
    s[i := s[j]][j := s[i]]
  }

  /** The first slot that is unused or has this name. */
  function Find(slots: seq<Slot>, name: string, i: nat): (k: nat)
    requires i <= |slots|
    ensures i <= k <= |slots|
    ensures k < |slots| ==> slots[k].name == "" || slots[k].name == name
    ensures forall j :: i <= j < k ==> slots[j].name != "" && slots[j].name != name
    decreases |slots| - i
  {
    if i == |slots| || slots[i].name == "" || slots[i].name == name then i else Find(slots, name, i + 1)
  }

  /** The login makes a connection live: its name has or finds a slot, is not logged on, and nothing refuses it. */
  predicate Adopts(t: Table, name: string, verdict: Verdict) {
    var k := Find(t.slots, name, 0);
    k < |t.slots| && t.live <= k && verdict.Accepted?
  }

  /** HandleLogin from its search on. A name keeps its slot even if the login is then refused. */
  function Login(t: Table, name: string, fd: int, verdict: Verdict): Table {
    var k := Find(t.slots, name, 0);
    if k == |t.slots| then t
    else
      var named := t.slots[k := t.slots[k].(name := name)];
      if !Adopts(t, name, verdict) then Table(named, t.live)
      else Table(Swap(named[k := Opened(named[k], fd, verdict.broke)], k, t.live), t.live + 1)
  }

  /** A connection holds the socket it was opened on, and is open unless sending what was pending broke it. */
  function Opened(c: Slot, fd: int, broke: bool): (r: Slot)
    ensures r.id == c.id && r.name == c.name && r.toClose == fd
    ensures fd != INVALID ==> (r.sock == fd <==> !broke) && (r.Dead() <==> broke)
  {
    c.(sock := if broke then INVALID else fd, toClose := fd)
  }

  /** Close on a connection: by its user, by an error, by the peer. */
  function Broken(t: Table, i: nat): Table
    requires i < |t.slots|
  {
    t.(slots := t.slots[i := t.slots[i].(sock := INVALID)])
  }

  /** PollCtl's loop over the live connections from index i on. `breaks`: those a heartbeat poll finds broken. */
  function Reap(t: Table, i: nat, breaks: set<nat>): Table
    decreases t.live - i
  {
    if i >= t.live || t.live > |t.slots| then t
    else
      var polled := if t.slots[i].id in breaks then Broken(t, i) else t;
      if polled.slots[i].Dead() then Reap(Retired(polled, i), i, breaks) else Reap(polled, i + 1, breaks)
  }

  /** The socket given back, and the last live connection swapped into the hole. */
  function Retired(t: Table, i: nat): Table
    requires i < t.live <= |t.slots|
  {
    Table(Swap(t.slots[i := t.slots[i].(toClose := INVALID)], i, t.live - 1), t.live - 1)
  }

  // ---- the invariant ----

  ghost predicate Names(t: Table)
    requires t.live <= |t.slots|
  {
    && (forall i, j :: 0 <= i < j < |t.slots| && t.slots[j].name != "" ==> t.slots[i].name != "")
    && (forall i, j :: 0 <= i < j < |t.slots| && t.slots[j].name != "" ==> t.slots[i].name != t.slots[j].name)
    && (forall i :: 0 <= i < t.live ==> t.slots[i].name != "")
  }

  ghost predicate Sockets(t: Table)
    requires t.live <= |t.slots|
  {
    && (forall i :: t.live <= i < |t.slots| ==> t.slots[i].sock == INVALID && t.slots[i].toClose == INVALID)
    && (forall i :: 0 <= i < t.live ==>
          t.slots[i].toClose != INVALID && (t.slots[i].sock == INVALID || t.slots[i].sock == t.slots[i].toClose))
    && (forall i, j :: 0 <= i < j < t.live ==> t.slots[i].toClose != t.slots[j].toClose)
  }

  ghost predicate DistinctIds(slots: seq<Slot>) {
    forall i, j :: 0 <= i < j < |slots| ==> slots[i].id != slots[j].id
  }

  /** Named slots form a prefix, live ones a prefix of that; names, connections and sockets are distinct; whatever is not
      live has no socket. */
  ghost predicate TableInv(t: Table) {
    t.live <= |t.slots| && DistinctIds(t.slots) && Names(t) && Sockets(t)
  }

  ghost function Ids(t: Table): set<nat> {
    set i | 0 <= i < |t.slots| :: t.slots[i].id
  }

  ghost function Fds(t: Table): set<int> {
    set i | 0 <= i < |t.slots| && t.slots[i].toClose != INVALID :: t.slots[i].toClose
  }

  ghost predicate Holds(t: Table, name: string, id: nat) {
    exists i :: 0 <= i < |t.slots| && t.slots[i].name == name && t.slots[i].id == id
  }

  /** t' has the same connections as t, and every name of t still has its connection. */
  ghost predicate Continues(t: Table, t': Table) {
    && Ids(t') == Ids(t) && |t'.slots| == |t.slots|
    && forall name, id :: name != "" && Holds(t, name, id) ==> Holds(t', name, id)
  }

  // ---- one operation ----

  lemma SwapKeeps(t: Table, i: nat, j: nat)
    requires i < |t.slots| && j < |t.slots|
    ensures var t' := Table(Swap(t.slots, i, j), t.live);
      && Ids(t') == Ids(t) && Fds(t') == Fds(t)
      && forall name, id :: Holds(t, name, id) ==> Holds(t', name, id)
  {
    hide Ids, Fds, Holds, Has, Swap;
    var t' := Table(Swap(t.slots, i, j), t.live);
    forall k | 0 <= k < |t.slots|
      ensures Has(t', t.slots[k]) && Has(t, t'.slots[k])
    {
      SwapHas(t, i, j, k);
    }
    SameSlots(t, t');
    SameSlots(t', t);
  }

  ghost predicate Has(t: Table, c: Slot) {
    exists m :: 0 <= m < |t.slots| && t.slots[m] == c
  }

  lemma SwapHas(t: Table, i: nat, j: nat, k: nat)
    requires i < |t.slots| && j < |t.slots| && k < |t.slots|
    ensures var t' := Table(Swap(t.slots, i, j), t.live);
      Has(t', t.slots[k]) && Has(t, t'.slots[k])
  {
    var t', m := Table(Swap(t.slots, i, j), t.live), if k == i then j else if k == j then i else k;
    assert t'.slots[m] == t.slots[k] && t'.slots[k] == t.slots[m];
  }

  lemma SameSlots(t: Table, t': Table)
    requires forall k :: 0 <= k < |t.slots| ==> Has(t', t.slots[k])
    ensures Ids(t) <= Ids(t') && Fds(t) <= Fds(t')
    ensures forall name, id :: Holds(t, name, id) ==> Holds(t', name, id)
  {
  }

  lemma ContinuesOn(a: Table, b: Table, c: Table)
    requires Continues(a, b) && Continues(b, c)
    ensures Continues(a, c)
  {
    hide Holds, Ids;
  }

  lemma ContinuesSame(t: Table)
    ensures Continues(t, t)
  {
  }

  /** A change of one slot that keeps its connection, and its name if it has one. */
  lemma UpdateContinues(t: Table, i: nat, c: Slot)
    requires i < |t.slots| && c.id == t.slots[i].id && (t.slots[i].name != "" ==> c.name == t.slots[i].name)
    ensures Continues(t, t.(slots := t.slots[i := c]))
    ensures Holds(t.(slots := t.slots[i := c]), c.name, c.id)
  {
    var t' := t.(slots := t.slots[i := c]);
    assert t'.slots[i] == c;
    forall k | 0 <= k < |t.slots|
      ensures t'.slots[k].id == t.slots[k].id
    {
    }
    forall name, id | name != "" && Holds(t, name, id)
      ensures Holds(t', name, id)
    {
      var k :| 0 <= k < |t.slots| && t.slots[k].name == name && t.slots[k].id == id;
      assert t'.slots[k].name == name && t'.slots[k].id == id;
    }
  }

  lemma UpdateFds(t: Table, i: nat, c: Slot)
    requires i < |t.slots|
    ensures var fds := Fds(t.(slots := t.slots[i := c]));
      && (c.toClose == t.slots[i].toClose ==> fds == Fds(t))
      && (t.slots[i].toClose == INVALID && c.toClose != INVALID ==> fds == Fds(t) + {c.toClose})
      && (c.toClose == INVALID ==> fds <= Fds(t))
  {
    var t' := t.(slots := t.slots[i := c]);
    forall k | 0 <= k < |t.slots| && k != i
      ensures t'.slots[k] == t.slots[k]
    {
    }
    assert t'.slots[i] == c;
  }

  /** A name that has a connection in the group finds that connection, no other and no unused one. */
  lemma NameFindsItsOwn(t: Table, name: string, id: nat)
    requires TableInv(t) && name != "" && Holds(t, name, id)
    ensures var k := Find(t.slots, name, 0);
      k < |t.slots| && t.slots[k].name == name && t.slots[k].id == id
  {
    var i :| 0 <= i < |t.slots| && t.slots[i].name == name && t.slots[i].id == id;
    var k := Find(t.slots, name, 0);
    assert k <= i;
  }

  /** A name that is logged on already is turned away, and nothing in the group changes. */
  lemma AlreadyLoggedOn(t: Table, i: nat, fd: int, verdict: Verdict)
    requires TableInv(t) && i < t.live
    ensures !Adopts(t, t.slots[i].name, verdict) && Login(t, t.slots[i].name, fd, verdict) == t
  {
    assert Holds(t, t.slots[i].name, t.slots[i].id);
    NameFindsItsOwn(t, t.slots[i].name, t.slots[i].id);
    var k := Find(t.slots, t.slots[i].name, 0);
    assert k == i;
    assert t.slots[k := t.slots[k].(name := t.slots[i].name)] == t.slots;
  }

  /** Naming keeps the invariant: the slot found is the first unused one, if it is not the name's own. */
  lemma NamingKeeps(t: Table, name: string)
    requires TableInv(t) && name != "" && Find(t.slots, name, 0) < |t.slots|
    ensures var k := Find(t.slots, name, 0);
      var t' := t.(slots := t.slots[k := t.slots[k].(name := name)]);
      TableInv(t') && Continues(t, t') && Fds(t') == Fds(t) && Holds(t', name, t.slots[k].id)
  {
    var k := Find(t.slots, name, 0);
    UpdateContinues(t, k, t.slots[k].(name := name));
    UpdateFds(t, k, t.slots[k].(name := name));
    NamingNames(t, name);
  }

  lemma NamingNames(t: Table, name: string)
    requires t.live <= |t.slots| && Names(t) && name != "" && Find(t.slots, name, 0) < |t.slots|
    ensures var k := Find(t.slots, name, 0);
      Names(t.(slots := t.slots[k := t.slots[k].(name := name)]))
  {
    var k := Find(t.slots, name, 0);
    var t' := t.(slots := t.slots[k := t.slots[k].(name := name)]);
    if t.slots[k].name == "" {
      forall j | k < j < |t.slots|
        ensures t'.slots[j].name == ""
      {
        assert t.slots[j].name == "";
      }
    }
  }

  /** Going live: the connection just opened is swapped to the end of the live ones. */
  lemma GoLiveKeeps(t: Table, k: nat, fd: int, broke: bool)
    requires TableInv(t) && t.live <= k < |t.slots| && t.slots[k].name != ""
    requires fd != INVALID && fd !in Fds(t)
    ensures var t' := Table(Swap(t.slots[k := Opened(t.slots[k], fd, broke)], k, t.live), t.live + 1);
      TableInv(t') && Continues(t, t') && Fds(t') == Fds(t) + {fd}
  {
    hide TableInv, Fds, Holds, Ids, Swap;
    var c := Opened(t.slots[k], fd, broke);
    var t1 := t.(slots := t.slots[k := c]);
    GoLiveInv(t, k, fd, broke);
    SparesLive(t, k);
    UpdateContinues(t, k, c);
    UpdateFds(t, k, c);
    SwapKeeps(t1, k, t.live);
    SameButLive(Table(Swap(t1.slots, k, t.live), t.live), Table(Swap(t1.slots, k, t.live), t.live + 1));
  }

  lemma SparesLive(t: Table, k: nat)
    requires TableInv(t) && t.live <= k < |t.slots|
    ensures t.slots[k].sock == t.slots[k].toClose == INVALID
  {
  }

  lemma GoLiveInv(t: Table, k: nat, fd: int, broke: bool)
    requires TableInv(t) && t.live <= k < |t.slots| && t.slots[k].name != ""
    requires fd != INVALID && fd !in Fds(t)
    ensures TableInv(Table(Swap(t.slots[k := Opened(t.slots[k], fd, broke)], k, t.live), t.live + 1))
  {
    var t' := Table(Swap(t.slots[k := Opened(t.slots[k], fd, broke)], k, t.live), t.live + 1);
    forall i | 0 <= i < t.live
      ensures t.slots[i].toClose in Fds(t)
    {
    }
    SwapIds(t.slots[k := Opened(t.slots[k], fd, broke)], k, t.live);
    GoLiveNames(t, k, fd, broke);
    hide Fds, Names, DistinctIds;
    assert Sockets(t');
  }

  lemma GoLiveNames(t: Table, k: nat, fd: int, broke: bool)
    requires t.live <= k < |t.slots| && Names(t) && t.slots[k].name != ""
    ensures Names(Table(Swap(t.slots[k := Opened(t.slots[k], fd, broke)], k, t.live), t.live + 1))
  {
  }

  lemma SameButLive(t: Table, t': Table)
    requires t.slots == t'.slots
    ensures Ids(t) == Ids(t') && Fds(t) == Fds(t') && forall name, id :: Holds(t, name, id) <==> Holds(t', name, id)
  {
  }

  /** What a login that goes live makes of the name's connection, now the last live one: it holds the socket, and is open
      unless sending broke it. */
  ghost predicate GoesLive(t: Table, t': Table, name: string, fd: int, broke: bool) {
    && t'.live == t.live + 1 && t.live < |t'.slots|
    && t'.slots[t.live].name == name && t'.slots[t.live].toClose == fd
    && (t'.slots[t.live].sock == fd <==> !broke)
  }

  /** Every connection but id is exactly as it was, perhaps elsewhere in the array. */
  ghost predicate OthersSame(t: Table, t': Table, id: nat) {
    && (forall i :: 0 <= i < |t'.slots| && t'.slots[i].id != id ==> Has(t, t'.slots[i]))
    && (forall i :: 0 <= i < |t.slots| && t.slots[i].id != id ==> Has(t', t.slots[i]))
  }

  lemma SwappedOthers(t: Table, k: nat, c: Slot, j: nat, live: nat)
    requires k < |t.slots| && j < |t.slots| && c.id == t.slots[k].id
    ensures OthersSame(t, Table(Swap(t.slots[k := c], k, j), live), c.id)
  {
    hide Has, Swap;
    var t1, t' := t.(slots := t.slots[k := c]), Table(Swap(t.slots[k := c], k, j), t.live);
    UpdatedOthers(t, k, c, t.live);
    forall i | 0 <= i < |t.slots|
      ensures Has(t', t1.slots[i]) && Has(t1, t'.slots[i])
    {
      SwapHas(t1, k, j, i);
    }
    Via(t, t1, t', c.id, live);
  }

  lemma UpdatedOthers(t: Table, k: nat, c: Slot, live: nat)
    requires k < |t.slots| && c.id == t.slots[k].id
    ensures OthersSame(t, Table(t.slots[k := c], live), c.id)
  {
    var t' := Table(t.slots[k := c], live);
    forall i | 0 <= i < |t.slots| && i != k
      ensures Has(t, t'.slots[i]) && Has(t', t.slots[i])
    {
      assert t'.slots[i] == t.slots[i];
    }
  }

  lemma Via(t: Table, t1: Table, t': Table, id: nat, live: nat)
    requires OthersSame(t, t1, id)
    requires forall i :: 0 <= i < |t1.slots| ==> Has(t', t1.slots[i])
    requires forall i :: 0 <= i < |t'.slots| ==> Has(t1, t'.slots[i])
    ensures OthersSame(t, Table(t'.slots, live), id)
  {
    forall i | 0 <= i < |t'.slots| && t'.slots[i].id != id
      ensures Has(t, t'.slots[i])
    {
      var m :| 0 <= m < |t1.slots| && t1.slots[m] == t'.slots[i];
      assert Has(t, t1.slots[m]);
    }
    forall i | 0 <= i < |t.slots| && t.slots[i].id != id
      ensures Has(Table(t'.slots, live), t.slots[i])
    {
      var m :| 0 <= m < |t1.slots| && t1.slots[m] == t.slots[i];
      assert Has(t', t1.slots[m]);
    }
  }

  /** The last live connection. */
  lemma LastLive(t: Table)
    requires TableInv(t)
    ensures t.live <= |t.slots|
    ensures 0 < t.live ==>
      var c := t.slots[t.live - 1];
      c.toClose != INVALID && (c.sock == INVALID || c.sock == c.toClose)
  {
  }

  /** Which connections a login leaves alone. */
  lemma LoginSpares(t: Table, name: string, fd: int, verdict: Verdict)
    requires TableInv(t) && name != "" && fd != INVALID && Find(t.slots, name, 0) < |t.slots|
    ensures OthersSame(t, Login(t, name, fd, verdict), t.slots[Find(t.slots, name, 0)].id)
    ensures Adopts(t, name, verdict) ==> GoesLive(t, Login(t, name, fd, verdict), name, fd, verdict.broke)
    ensures !Adopts(t, name, verdict) ==>
      var t', k := Login(t, name, fd, verdict), Find(t.slots, name, 0);
      t'.live == t.live && t'.slots == t.slots[k := t.slots[k].(name := name)]
  {
    hide OthersSame;
    var k := Find(t.slots, name, 0);
    var c := t.slots[k].(name := name);
    if Adopts(t, name, verdict) {
      var o := Opened(c, fd, verdict.broke);
      assert t.slots[k := c][k := o] == t.slots[k := o];
      SwappedOthers(t, k, o, t.live, t.live + 1);
    } else {
      UpdatedOthers(t, k, c, t.live);
    }
  }

  /** A login keeps the group in order; the name has its connection from now on; the socket is the group's exactly if the
      connection went live, and then that connection holds it, open unless sending broke it; and no other connection is
      touched. */
  lemma LoginKeeps(t: Table, name: string, fd: int, verdict: Verdict)
    requires TableInv(t) && name != "" && fd != INVALID && fd !in Fds(t)
    ensures var t', k := Login(t, name, fd, verdict), Find(t.slots, name, 0);
      && TableInv(t') && Continues(t, t')
      && Fds(t') == (if Adopts(t, name, verdict) then Fds(t) + {fd} else Fds(t))
      && (k < |t.slots| ==> Holds(t', name, t.slots[k].id) && OthersSame(t, t', t.slots[k].id))
      && (k == |t.slots| ==> t' == t)
      && t'.live == (t.live + if Adopts(t, name, verdict) then 1 else 0)
      && (Adopts(t, name, verdict) ==> GoesLive(t, t', name, fd, verdict.broke))
  {
    hide TableInv, Fds, Holds, Swap, OthersSame, GoesLive;
    var k := Find(t.slots, name, 0);
    if k == |t.slots| {
      ContinuesSame(t);
    } else {
      NamingKeeps(t, name);
      LoginSpares(t, name, fd, verdict);
      var named := t.(slots := t.slots[k := t.slots[k].(name := name)]);
      if Adopts(t, name, verdict) {
        GoLiveKeeps(named, k, fd, verdict.broke);
        ContinuesOn(t, named, Login(t, name, fd, verdict));
      }
    }
  }

  /** A login makes a connection live exactly if nothing refuses it, the name is not logged on, and among the connections
      that are not live one is unused or the name's own. */
  lemma AdoptsIff(t: Table, name: string, verdict: Verdict)
    requires TableInv(t) && name != ""
    ensures Adopts(t, name, verdict) <==>
      && verdict.Accepted?
      && (forall i :: 0 <= i < t.live ==> t.slots[i].name != name)
      && exists i :: t.live <= i < |t.slots| && (t.slots[i].name == "" || t.slots[i].name == name)
  {
    var k := Find(t.slots, name, 0);
    if k < t.live {
      assert t.slots[k].name == name;
    }
  }

  /** A login is turned away for want of space exactly if the group has no unused connection and does not know the name. */
  lemma FullIff(t: Table, name: string)
    requires TableInv(t) && name != ""
    ensures Find(t.slots, name, 0) == |t.slots| <==>
      forall i :: 0 <= i < |t.slots| ==> t.slots[i].name != "" && t.slots[i].name != name
  {
  }

  lemma BrokenKeeps(t: Table, i: nat)
    requires TableInv(t) && i < |t.slots|
    ensures TableInv(Broken(t, i)) && Continues(t, Broken(t, i)) && Fds(Broken(t, i)) == Fds(t)
    ensures OthersSame(t, Broken(t, i), t.slots[i].id) && Broken(t, i).slots[i].sock == INVALID
  {
    hide OthersSame;
    UpdatedOthers(t, i, t.slots[i].(sock := INVALID), t.live);
    UpdateContinues(t, i, t.slots[i].(sock := INVALID));
    UpdateFds(t, i, t.slots[i].(sock := INVALID));
  }

  lemma FdTaken(t: Table, i: nat)
    requires TableInv(t) && i < t.live
    ensures var c := t.slots[i].(toClose := INVALID);
      Fds(t.(slots := t.slots[i := c])) == Fds(t) - {t.slots[i].toClose} && t.slots[i].toClose in Fds(t)
  {
    var t' := t.(slots := t.slots[i := t.slots[i].(toClose := INVALID)]);
    forall k | 0 <= k < |t.slots| && k != i
      ensures t'.slots[k] == t.slots[k] && t.slots[k].toClose != t.slots[i].toClose
    {
    }
  }

  lemma RetiredKeeps(t: Table, i: nat)
    requires TableInv(t) && i < t.live && t.slots[i].Dead()
    ensures TableInv(Retired(t, i)) && Continues(t, Retired(t, i))
    ensures Fds(Retired(t, i)) == Fds(t) - {t.slots[i].toClose} && t.slots[i].toClose in Fds(t)
  {
    hide TableInv, Fds, Holds, Ids, Swap;
    LiveBound(t);
    RetiredInv(t, i);
    var c := t.slots[i].(toClose := INVALID);
    var t1 := t.(slots := t.slots[i := c]);
    UpdateContinues(t, i, c);
    FdTaken(t, i);
    SwapKeeps(t1, i, t.live - 1);
    SameButLive(Table(Swap(t1.slots, i, t.live - 1), t.live), Retired(t, i));
  }

  lemma RetiredInv(t: Table, i: nat)
    requires TableInv(t) && i < t.live && t.slots[i].Dead()
    ensures TableInv(Retired(t, i))
  {
    SwapIds(t.slots[i := t.slots[i].(toClose := INVALID)], i, t.live - 1);
    RetiredNames(t, i);
    hide Names, DistinctIds;
  }

  lemma RetiredNames(t: Table, i: nat)
    requires i < t.live <= |t.slots| && Names(t)
    ensures Names(Retired(t, i))
  {
  }

  lemma SwapIds(slots: seq<Slot>, i: nat, j: nat)
    requires i < |slots| && j < |slots| && DistinctIds(slots)
    ensures DistinctIds(Swap(slots, i, j))
  {
  }

  /** The connections that the loop from index i on leaves live: those before i, and those that are not broken. */
  ghost function Spared(t: Table, i: nat, breaks: set<nat>): set<Slot>
    requires t.live <= |t.slots|
  {
    set j: nat | j < t.live && Spares(t, i, breaks, j) :: t.slots[j]
  }

  ghost function Live(t: Table): set<Slot>
    requires t.live <= |t.slots|
  {
    set j: nat | j < t.live :: t.slots[j]
  }

  /** The sockets that some connections hold. */
  ghost function HeldBy(cs: set<Slot>): set<int> {
    set c | c in cs :: c.toClose
  }

  /** Where each connection goes when one is retired. */
  lemma RetiredPlace(t: Table, i: nat, j: nat)
    requires i < t.live <= |t.slots| && j < t.live && j != i
    ensures var m := if j == t.live - 1 then i else j;
      m < Retired(t, i).live && Retired(t, i).slots[m] == t.slots[j]
  {
  }

  ghost predicate Spares(t: Table, i: nat, breaks: set<nat>, j: nat)
    requires j < t.live <= |t.slots|
  {
    j < i || (t.slots[j].sock != INVALID && t.slots[j].id !in breaks)
  }

  lemma RetiredSpares(t: Table, i: nat, breaks: set<nat>)
    requires TableInv(t) && i < t.live && (t.slots[i].sock == INVALID || t.slots[i].id in breaks)
    ensures Spared(Retired(t, i), i, breaks) == Spared(t, i, breaks)
  {
    hide TableInv, Retired;
    LiveBound(t);
    RetiredLive(t, i);
    var t' := Retired(t, i);
    forall c | c in Spared(t, i, breaks)
      ensures c in Spared(t', i, breaks)
    {
      var j :| 0 <= j < t.live && Spares(t, i, breaks, j) && t.slots[j] == c;
      RetiredPlace(t, i, j);
    }
    forall c | c in Spared(t', i, breaks)
      ensures c in Spared(t, i, breaks)
    {
      var m :| 0 <= m < t'.live && Spares(t', i, breaks, m) && t'.slots[m] == c;
      RetiredPlace(t, i, if m == i then t.live - 1 else m);
    }
  }

  lemma BrokenSpares(t: Table, i: nat, breaks: set<nat>)
    requires TableInv(t) && i < t.live && t.slots[i].id in breaks
    ensures Spared(Broken(t, i), i, breaks) == Spared(t, i, breaks)
  {
    var t' := Broken(t, i);
    forall j | 0 <= j < t.live
      ensures t'.slots[j].toClose == t.slots[j].toClose && t'.slots[j].id == t.slots[j].id
      ensures j != i ==> t'.slots[j] == t.slots[j]
    {
    }
  }

  lemma AllSpared(t: Table, i: nat, breaks: set<nat>)
    requires TableInv(t) && t.live <= i
    ensures t.live <= |t.slots| && Spared(t, i, breaks) == Live(t)
  {
  }

  lemma LiveHold(t: Table)
    requires TableInv(t)
    ensures t.live <= |t.slots| && Fds(t) == HeldBy(Live(t))
  {
    forall i | 0 <= i < t.live
      ensures t.slots[i] in Live(t)
    {
    }
  }

  /** The reaping loop keeps the group in order and takes out exactly the broken connections, though it swaps unvisited
      connections into visited places while it goes: those left live are as they were, socket included, and the group
      holds their sockets and no others. */
  lemma {:induction false} ReapKeeps(t: Table, i: nat, breaks: set<nat>)
    requires TableInv(t)
    ensures var t' := Reap(t, i, breaks);
      && TableInv(t') && Continues(t, t')
      && t'.live <= t.live <= |t.slots| == |t'.slots|
      && Live(t') == Spared(t, i, breaks) && Fds(t') == HeldBy(Live(t'))
    decreases t.live - i
  {
    hide TableInv, Fds, Spared, Retired, Live, HeldBy;
    assert t.live <= |t.slots| by {
      LiveBound(t);
    }
    if i >= t.live {
      AllSpared(t, i, breaks);
      LiveHold(t);
      ContinuesSame(t);
    } else {
      ContinuesSame(t);
      var polled := if t.slots[i].id in breaks then Broken(t, i) else t;
      if t.slots[i].id in breaks {
        BrokenKeeps(t, i);
        BrokenSpares(t, i, breaks);
      }
      if polled.slots[i].Dead() {
        RetiredKeeps(polled, i);
        RetiredSpares(polled, i, breaks);
        RetiredLive(polled, i);
        ReapKeeps(Retired(polled, i), i, breaks);
        ContinuesOn(t, polled, Retired(polled, i));
        ContinuesOn(t, Retired(polled, i), Reap(t, i, breaks));
      } else {
        SparedNext(polled, i, breaks);
        ReapKeeps(polled, i + 1, breaks);
        ContinuesOn(t, polled, Reap(t, i, breaks));
      }
    }
  }

  lemma LiveBound(t: Table)
    requires TableInv(t)
    ensures t.live <= |t.slots|
  {
  }

  lemma RetiredLive(t: Table, i: nat)
    requires i < t.live <= |t.slots|
    ensures Retired(t, i).live == t.live - 1 && |Retired(t, i).slots| == |t.slots|
  {
  }

  lemma SparedNext(t: Table, i: nat, breaks: set<nat>)
    requires TableInv(t) && i < t.live && !t.slots[i].Dead() && (t.slots[i].id in breaks ==> t.slots[i].sock == INVALID)
    ensures Spared(t, i + 1, breaks) == Spared(t, i, breaks)
  {
  }

  // ---- Stop ----

  ghost predicate Forgotten(t: Table) {
    && t.live == 0 && Fds(t) == {}
    && forall i :: 0 <= i < |t.slots| ==> t.slots[i].name == ""
  }

  /** Release on every connection of the first n: no name, no socket. */
  function Released(t: Table, n: nat): Table
    requires n <= |t.slots|
  {
    t.(slots := seq(|t.slots|, i requires 0 <= i < |t.slots| =>
      if i < n then Slot(t.slots[i].id, "", INVALID, INVALID) else t.slots[i]))
  }

  lemma ReleasedNext(t: Table, n: nat)
    requires n < |t.slots|
    ensures Released(t, n + 1).slots == Released(t, n).slots[n := Slot(t.slots[n].id, "", INVALID, INVALID)]
  {
  }

  lemma ReleasedNone(t: Table)
    ensures Released(t, 0) == t
  {
    assert Released(t, 0).slots == t.slots;
  }

  ghost function FdsBelow(t: Table, n: nat): set<int>
    requires n <= |t.slots|
  {
    set i | 0 <= i < n && t.slots[i].toClose != INVALID :: t.slots[i].toClose
  }

  lemma FdsBelowNext(t: Table, n: nat)
    requires TableInv(t) && n < |t.slots|
    ensures FdsBelow(t, n + 1) == FdsBelow(t, n) + if t.slots[n].toClose == INVALID then {} else {t.slots[n].toClose}
    ensures t.slots[n].toClose != INVALID ==> t.slots[n].toClose in Fds(t) - FdsBelow(t, n)
  {
  }

  lemma FdsBelowAll(t: Table)
    ensures FdsBelow(t, 0) == {} && FdsBelow(t, |t.slots|) == Fds(t)
  {
  }

  /** A live connection's socket is one of the group's. */
  lemma HeldOpen(t: Table, i: nat)
    requires TableInv(t) && i < t.live
    ensures t.slots[i].toClose != INVALID && t.slots[i].toClose in Fds(t)
  {
  }

  lemma ReleasedAll(t: Table)
    requires TableInv(t)
    ensures var t' := Released(t, |t.slots|).(live := 0);
      TableInv(t') && Ids(t') == Ids(t) && Fds(t') == {}
  {
    var t' := Released(t, |t.slots|).(live := 0);
    forall i | 0 <= i < |t.slots|
      ensures t'.slots[i].id == t.slots[i].id
    {
    }
  }

  // ---- any number of operations ----

  datatype Op =
    | LogsOn(name: string, fd: int, verdict: Verdict)
    | Breaks(i: nat)
    | Reaps(breaks: set<nat>)

  /** The socket of a login is a new one, and its client has a name. */
  ghost predicate CanDo(t: Table, op: Op) {
    match op
    case LogsOn(name, fd, verdict) => name != "" && fd != INVALID && fd !in Fds(t)
    case Breaks(i) => i < |t.slots|
    case Reaps(breaks) => true
  }

  function Done(t: Table, op: Op): Table {
    match op
    case LogsOn(name, fd, verdict) => Login(t, name, fd, verdict)
    case Breaks(i) => if i < |t.slots| then Broken(t, i) else t
    case Reaps(breaks) => Reap(t, 0, breaks)
  }

  ghost predicate CanDoAll(t: Table, ops: seq<Op>)
    decreases |ops|
  {
    ops == [] || (CanDo(t, ops[0]) && CanDoAll(Done(t, ops[0]), ops[1..]))
  }

  function AllDone(t: Table, ops: seq<Op>): Table
    decreases |ops|
  {
    if ops == [] then t else AllDone(Done(t, ops[0]), ops[1..])
  }

  lemma {:induction false} RunKeeps(t: Table, ops: seq<Op>)
    requires TableInv(t) && CanDoAll(t, ops)
    ensures TableInv(AllDone(t, ops)) && Continues(t, AllDone(t, ops))
    decreases |ops|
  {
    hide TableInv, Holds, Ids, Fds, Login, Reap, Broken;
    ContinuesSame(t);
    if ops != [] {
      match ops[0] {
        case LogsOn(name, fd, verdict) => LoginKeeps(t, name, fd, verdict);
        case Breaks(i) => BrokenKeeps(t, i);
        case Reaps(breaks) => ReapKeeps(t, 0, breaks);
      }
      RunKeeps(Done(t, ops[0]), ops[1..]);
      ContinuesOn(t, Done(t, ops[0]), AllDone(t, ops));
    }
  }

  /** Once a name has logged on it comes back to the same connection, whatever happens in the group in between. */
  lemma SameConnectionAgain(t: Table, name: string, fd: int, verdict: Verdict, ops: seq<Op>)
    requires TableInv(t) && CanDo(t, LogsOn(name, fd, verdict)) && Find(t.slots, name, 0) < |t.slots|
    requires CanDoAll(Login(t, name, fd, verdict), ops)
    ensures var k, later := Find(t.slots, name, 0), AllDone(Login(t, name, fd, verdict), ops);
      var k' := Find(later.slots, name, 0);
      k' < |later.slots| && later.slots[k'].id == t.slots[k].id
  {
    hide TableInv, Fds, Login;
    LoginKeeps(t, name, fd, verdict);
    RunKeeps(Login(t, name, fd, verdict), ops);
    NameFindsItsOwn(AllDone(Login(t, name, fd, verdict), ops), name, t.slots[Find(t.slots, name, 0)].id);
  }
}
