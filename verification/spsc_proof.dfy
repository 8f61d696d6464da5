/** SPSCVarQueue refines a FIFO under every interleaving of its two programs. */
module SpscProof {
  import opened Word32
  import opened SpscRing

  // ---- indices and their wrap-around ----

  lemma Multiples(d: int, n: int)
    requires 0 < n
    ensures d > 0 ==> d * n >= n
    ensures d < 0 ==> d * n <= -n
  {
    if d > 0 {
      assert d * n == n + (d - 1) * n;
    }
  }

  lemma ModUnique(x: int, q: int, r: int, n: int)
    requires 0 <= r < n && x == q * n + r
    ensures x % n == r
  {
    var d := x / n - q;
    assert x == (x / n) * n + x % n;
    assert d * n == r - x % n;
    Multiples(d, n);
  }

  /** Inside one turn of the ring, indices advance with the counter. */
  lemma ModStep(x: nat, j: nat, n: nat)
    requires 0 < n && x % n + j < n
    ensures (x + j) % n == x % n + j
  {
    ModUnique(x + j, x / n, x % n + j, n);
  }

  lemma TurnEnds(x: nat, n: nat)
    requires 0 < n
    ensures (x + (n - x % n)) % n == 0
  {
    ModUnique(x + (n - x % n), x / n + 1, 0, n);
  }

  /** Counters less than one turn apart have different indices. */
  lemma ModDistinct(x: nat, y: nat, n: nat)
    requires 0 < n && x < y < x + n
    ensures x % n != y % n
  {
    var d := y / n - x / n;
    assert y - x == d * n + (y % n - x % n);
    Multiples(d, n);
  }

  lemma {:induction false} Pow2Sum(a: nat, b: nat)
    ensures Pow2(a) * Pow2(b) == Pow2(a + b) && Pow2(a) > 0
    decreases a
  {
    if a != 0 {
      Pow2Sum(a - 1, b);
    }
  }

  lemma {:induction false} Pow2Grows(a: nat, b: nat)
    requires a <= b
    ensures Pow2(a) <= Pow2(b)
    decreases b - a
  {
    if a < b {
      Pow2Grows(a + 1, b);
    }
  }

  lemma Pow2Of32()
    ensures Pow2(25) == 0x200_0000 && Pow2(32) == 0x1_0000_0000
  {
    assert Pow2(8) == 0x100;
    assert Pow2(16) == 0x1_0000;
    assert Pow2(24) == 0x100_0000;
  }

  /** A ring size divides 2^32, so array indices stay in step across the wrap of the machine counters. */
  lemma IndexInStep(x: nat, n: nat)
    requires RingSize(n)
    ensures 0 < n <= 0x200_0000
    ensures Wrap(x) % n == x % n
  {
    var k: nat :| k <= 25 && n == Pow2(k);
    Pow2Of32();
    Pow2Sum(k, 32 - k);
    Pow2Grows(k, 25);
    StepOfDivisor(x, n, Pow2(32 - k));
  }

  lemma StepOfDivisor(x: nat, n: nat, m: nat)
    requires n * m == 0x1_0000_0000
    ensures 0 < n && Wrap(x) % n == x % n
  {
    assert 0 < n;
    var q := x / 0x1_0000_0000;
    assert Wrap(x) == x - q * (n * m);
    Regroup(q, n, m);
    assert x == (x / n) * n + x % n;
    assert Wrap(x) == (x / n - q * m) * n + x % n;
    ModUnique(Wrap(x), x / n - q * m, x % n, n);
  }

  lemma Regroup(q: int, n: int, m: int)
    ensures q * (n * m) == (q * m) * n
  {
  }

  lemma WrapInjective(x: nat, y: nat)
    requires x <= y < x + 0x1_0000_0000
    ensures Wrap(x) == Wrap(y) <==> x == y
  {
  }

  // ---- layout ----

  lemma SpanPositive(blk: seq<Blk>, x: nat, item: Item)
    requires 0 < |blk| && ItemAt(blk, x, item)
    ensures 0 < Span(|blk|, x, item) && x % |blk| + Span(|blk|, x, item) <= |blk|
  {
  }

  lemma {:induction false} LayoutEnds(blk: seq<Blk>, x: nat, items: seq<Item>, end: nat)
    requires 0 < |blk| && Layout(blk, x, items, end)
    ensures x <= end && (x == end <==> items == [])
    decreases |items|
  {
    if items != [] {
      SpanPositive(blk, x, items[0]);
      LayoutEnds(blk, x + Span(|blk|, x, items[0]), items[1..], end);
    }
  }

  lemma {:induction false} LayoutAppend(blk: seq<Blk>, x: nat, items: seq<Item>, end: nat, last: Item)
    requires 0 < |blk| && Layout(blk, x, items, end) && ItemAt(blk, end, last)
    ensures Layout(blk, x, items + [last], end + Span(|blk|, end, last))
    decreases |items|
  {
    var all := items + [last];
    if items == [] {
      assert all[1..] == [];
    } else {
      LayoutAppend(blk, x + Span(|blk|, x, items[0]), items[1..], end, last);
      assert all[1..] == items[1..] + [last];
    }
  }

  /** Every block of the counters [x, end) is the same in both arrays. */
  ghost predicate SameBetween(blk: seq<Blk>, blk': seq<Blk>, x: nat, end: nat) {
    0 < |blk| == |blk'| && forall y: nat {:trigger y % |blk|} :: x <= y < end ==> blk'[y % |blk|] == blk[y % |blk|]
  }

  lemma SameItem(blk: seq<Blk>, blk': seq<Blk>, x: nat, item: Item)
    requires 0 < |blk| == |blk'| && ItemAt(blk, x, item)
    requires SameBetween(blk, blk', x, x + Span(|blk|, x, item))
    ensures ItemAt(blk', x, item)
  {
    var n := |blk|;
    if item.Padding? {
      assert blk'[x % n] == blk[x % n];
    } else {
      var at := x % n;
      forall j | 0 <= j < |item.blocks|
        ensures blk'[at..at + |item.blocks|][j] == item.blocks[j]
      {
        ModStep(x, j, n);
        assert blk'[(x + j) % n] == blk[(x + j) % n];
        assert blk[at..at + |item.blocks|][j] == item.blocks[j];
      }
    }
  }

  /** What lies between two counters depends on the blocks between them only. */
  lemma {:induction false} LayoutFrame(blk: seq<Blk>, blk': seq<Blk>, x: nat, items: seq<Item>, end: nat)
    requires 0 < |blk| && Layout(blk, x, items, end) && SameBetween(blk, blk', x, end)
    ensures Layout(blk', x, items, end)
    decreases |items|
  {
    hide ItemAt;
    if items != [] {
      var next := x + Span(|blk|, x, items[0]);
      LayoutEnds(blk, next, items[1..], end);
      SameItem(blk, blk', x, items[0]);
      LayoutFrame(blk, blk', next, items[1..], end);
    }
  }

  lemma {:induction false} MessagesAppend(items: seq<Item>, last: Item)
    ensures Messages(items + [last]) == Messages(items) + if last.Padding? then [] else [last.blocks]
    decreases |items|
  {
    var all, tail := items + [last], if last.Padding? then [] else [last.blocks];
    if items == [] {
      assert all == [last] && all[1..] == [];
    } else {
      MessagesAppend(items[1..], last);
      HeadAndRest(items, last);
      Grouped(if items[0].Padding? then [] else [items[0].blocks], Messages(items[1..]), tail);
    }
  }

  lemma HeadAndRest<T>(items: seq<T>, last: T)
    requires items != []
    ensures (items + [last])[0] == items[0] && (items + [last])[1..] == items[1..] + [last]
  {
  }

  lemma Grouped<T>(a: seq<T>, b: seq<T>, c: seq<T>)
    ensures a + b + c == a + (b + c)
  {
  }

  // ---- the size tests ----

  /** The producer's test on wrapped counters is the comparison of the unbounded ones, for any number of turns. */
  lemma TestExact(n: nat, c: nat, w: nat, total: U16)
    requires RingSize(n) && c <= w <= c + n && 8 <= total
    ensures 0 < n && Cut(n, Wrap(w)) == n - w % n
    ensures Short(n, Wrap(c), Wrap(w), total) <==> c + n < w + Need(n, w, total)
    ensures Rewind(n, Wrap(w), total) <==> BlocksOf(total) > n - w % n
  {
    IndexInStep(w, n);
    var d := Need(n, w, total) - n;
    WrapPlus(w, d);
    assert MinRead(n, Wrap(w), total) == Wrap(w + d);
    DiffExact(c, w + d);
  }

  /** What Alloc goes on with once the test has passed. */
  lemma RoomFound(s: State, total: U16)
    requires Inv(s) && 8 <= total && s.draft == []
    requires s.w + Need(|s.blk|, s.w, total) <= s.c + |s.blk|
    ensures var s' := s.(prod := AfterRoom(|s.blk|, s.write, total)); ProdInv(s')
  {
    hide Layout, Messages, ConsInv, RingSize;
    TestExact(|s.blk|, s.c, s.w, total);
  }

  lemma InitHolds(s: State)
    requires Init(s)
    ensures Inv(s)
  {
    IndexInStep(0, |s.blk|);
  }

  // ---- the producer's steps ----

  /** The consumer's part of the invariant survives everything the producer does. */
  lemma ConsStays(s: State, s': State)
    requires Inv(s) && SameBetween(s.blk, s'.blk, s.r, s.w)
    requires s'.cons == s.cons && s'.r == s.r && s'.l == s.l && s'.seen == s.seen && s'.read == s.read
    requires s.items <= s'.items && s.w <= s'.w
    ensures ConsInv(s')
  {
    hide Layout, ItemAt, Counters, ProdInv, Messages;
    if s.cons.FrontRead? || s.cons.FrontSize? || s.cons.FrontSkip? {
      LayoutFrame(s.blk, s'.blk, s.r, s.items[..s.seen], s.l);
      assert s'.items[..s.seen] == s.items[..s.seen];
    }
  }

  /** A store into a block behind write_idx, in front of the consumer's next turn, touches nothing in use. */
  lemma StoreOutside(s: State, y: nat, b: Blk)
    requires Inv(s) && s.w <= y < s.c + |s.blk|
    ensures SameBetween(s.blk, s.blk[y % |s.blk| := b], s.r, s.w)
    ensures Layout(s.blk[y % |s.blk| := b], s.r, s.items, s.w)
  {
    hide Layout, ProdInv, ConsInv, Messages, RingSize;
    var n, blk' := |s.blk|, s.blk[y % |s.blk| := b];
    forall x: nat {:trigger x % n} | s.r <= x < s.w
      ensures blk'[x % n] == s.blk[x % n]
    {
      ModDistinct(x, y, n);
    }
    LayoutFrame(s.blk, blk', s.r, s.items, s.w);
  }

  lemma StoreKeeps(s: State, s': State, y: nat, b: Blk)
    requires Inv(s) && s.w <= y < s.c + |s.blk|
    requires s' == s.(blk := s.blk[y % |s.blk| := b], prod := s'.prod, draft := s'.draft)
    requires ProdInv(s')
    ensures Inv(s') && SameBetween(s.blk, s'.blk, s.r, s.w)
  {
    hide Layout, ProdInv, ConsInv, Messages, RingSize;
    StoreOutside(s, y, b);
    ConsStays(s, s');
  }

  lemma AllocKeeps(s: State, total: U16)
    requires Inv(s) && s.prod.Ready? && 8 <= total
    ensures Inv(DoAlloc(s, total))
  {
    hide Layout, Messages, RingSize, Rewind, Need, Turning, Roomy;
    TestExact(|s.blk|, s.c, s.w, total);
    var s1, s' := s.(draft := []), DoAlloc(s, total);
    ConsStays(s, s1);
    ConsStays(s, s');
    if !s'.prod.Reload? {
      RoomFound(s1, total);
    }
  }

  lemma FillKeeps(s: State, j: nat, b: Blk)
    requires Inv(s) && Enabled(s, Fill(j, b))
    ensures Inv(Do(s, Fill(j, b))) && SameBetween(s.blk, Do(s, Fill(j, b)).blk, s.r, s.w)
  {
    hide Layout, ConsInv, Messages, RingSize, Inv, ProdInv, Drafted, Roomy;
    var n, s' := |s.blk|, Do(s, Fill(j, b));
    DraftPlace(s, j);
    assert s'.blk == s.blk[(s.w + j) % n := b];
    FillDrafted(s, j, b);
    StoreKeeps(s, s', s.w + j, b);
  }

  /** Where block j of the draft is. */
  lemma DraftPlace(s: State, j: nat)
    requires Inv(s) && s.prod.Ready? && j < |s.draft|
    ensures 0 < |s.blk| && s.write % |s.blk| + j < |s.blk| && (s.w + j) % |s.blk| == s.write % |s.blk| + j
    ensures s.w + j < s.c + |s.blk| && Drafted(s)
  {
    hide Layout, ConsInv, Messages, RingSize;
    IndexInStep(s.w, |s.blk|);
    ModStep(s.w, j, |s.blk|);
  }

  lemma FillDrafted(s: State, j: nat, b: Blk)
    requires Inv(s) && Enabled(s, Fill(j, b))
    ensures ProdInv(Do(s, Fill(j, b)))
  {
    hide Layout, ConsInv, Messages, RingSize, Inv;
    DraftPlace(s, j);
    var s', at := Do(s, Fill(j, b)), s.w % |s.blk|;
    IndexAt(s);
    assert s'.blk[at..at + |s.draft|] == s.blk[at..at + |s.draft|][j := b];
  }

  lemma IndexAt(s: State)
    requires Inv(s)
    ensures 0 < |s.blk| && s.write % |s.blk| == s.w % |s.blk|
  {
    hide Layout, ConsInv, ProdInv, Messages, RingSize;
    IndexInStep(s.w, |s.blk|);
  }

  lemma ReloadKeeps(s: State)
    requires Inv(s) && s.prod.Reload?
    ensures Inv(DoProducer(s))
  {
    hide Layout, Messages, RingSize, Rewind, Need, Turning, Roomy, ConsInv;
    var total, s' := s.prod.total, DoProducer(s);
    var s1 := s.(cache := s.read, c := s.r);
    TestExact(|s.blk|, s.r, s.w, total);
    ConsStays(s, s1);
    ConsStays(s, s');
    if !s'.prod.Ready? {
      RoomFound(s1, total);
    }
  }

  lemma PadSizeKeeps(s: State)
    requires Inv(s) && s.prod.PadSize?
    ensures Inv(DoProducer(s)) && SameBetween(s.blk, DoProducer(s).blk, s.r, s.w)
  {
    hide Layout, ConsInv, Messages, RingSize;
    IndexInStep(s.w, |s.blk|);
    StoreKeeps(s, DoProducer(s), s.w, s.blk[s.w % |s.blk|].(size := 0));
  }

  lemma PadIdxKeeps(s: State)
    requires Inv(s) && s.prod.PadIdx?
    ensures Inv(DoProducer(s))
  {
    hide Layout, ConsInv, Messages, RingSize;
    var n, s' := |s.blk|, DoProducer(s);
    IndexInStep(s.w, n);
    TurnEnds(s.w, n);
    WrapPlus(s.w, n - s.w % n);
    LayoutAppend(s.blk, s.r, s.items, s.w, Padding);
    MessagesAppend(s.items, Padding);
    ConsStays(s, s');
  }

  lemma HeaderSizeKeeps(s: State)
    requires Inv(s) && s.prod.HeaderSize?
    ensures Inv(DoProducer(s)) && SameBetween(s.blk, DoProducer(s).blk, s.r, s.w)
    ensures 0 < |DoProducer(s).draft| == BlocksOf(s.prod.total) && DoProducer(s).draft[0].size == s.prod.total
  {
    hide Layout, ConsInv, Messages, RingSize;
    IndexInStep(s.w, |s.blk|);
    StoreKeeps(s, DoProducer(s), s.w, s.blk[s.w % |s.blk|].(size := s.prod.total));
  }

  lemma PushSizeKeeps(s: State)
    requires Inv(s) && s.prod.PushSize?
    ensures Inv(DoProducer(s))
  {
    hide Layout, ConsInv, Messages, RingSize;
    IndexInStep(s.w, |s.blk|);
    ConsStays(s, DoProducer(s));
  }

  lemma PushIdxKeeps(s: State)
    requires Inv(s) && s.prod.PushIdx?
    ensures Inv(DoProducer(s)) && DoProducer(s).items == s.items + [Message(s.draft)]
  {
    hide Layout, ConsInv, Messages, RingSize;
    var n, s' := |s.blk|, DoProducer(s);
    IndexInStep(s.w, n);
    WrapPlus(s.w, |s.draft|);
    LayoutAppend(s.blk, s.r, s.items, s.w, Message(s.draft));
    MessagesAppend(s.items, Message(s.draft));
    ConsStays(s, s');
  }

  // ---- the consumer's steps ----

  lemma HeadOf(s: State)
    requires Inv(s) && s.items != []
    ensures var span := Span(|s.blk|, s.r, s.items[0]);
      && ItemAt(s.blk, s.r, s.items[0]) && 0 < span <= |s.blk| && s.r + span <= s.w
      && Layout(s.blk, s.r + span, s.items[1..], s.w)
  {
    hide ItemAt, ProdInv, ConsInv, Messages, RingSize;
    SpanPositive(s.blk, s.r, s.items[0]);
    LayoutEnds(s.blk, s.r + Span(|s.blk|, s.r, s.items[0]), s.items[1..], s.w);
  }

  lemma FrontKeeps(s: State)
    requires Inv(s) && Enabled(s, Front)
    ensures Inv(Do(s, Front))
  {
    hide Layout, ProdInv, Messages, RingSize;
    assert s.items[..|s.items|] == s.items;
    ProdStays(s, Do(s, Front));
  }

  /** Nothing the producer relies on is changed by the consumer. */
  lemma ProdStays(s: State, s': State)
    requires Inv(s)
    requires s'.blk == s.blk && s'.prod == s.prod && s'.draft == s.draft && s'.write == s.write && s'.w == s.w && s'.c == s.c
    ensures ProdInv(s')
  {
    hide Layout, ConsInv, Messages, RingSize;
  }

  lemma FrontReadKeeps(s: State)
    requires Inv(s) && s.cons.FrontRead?
    ensures Inv(DoConsumer(s))
    ensures DoConsumer(s).cons.Free? <==> s.seen == 0
  {
    hide ItemAt, ProdInv, Messages;
    IndexInStep(0, |s.blk|);
    ProdStays(s, DoConsumer(s));
    LayoutEnds(s.blk, s.r, s.items[..s.seen], s.l);
    WrapInjective(s.r, s.l);
  }

  lemma FrontSizeKeeps(s: State)
    requires Inv(s) && s.cons.FrontSize?
    ensures Inv(DoConsumer(s))
  {
    hide Layout, ProdInv, Messages, RingSize;
    var n := |s.blk|;
    IndexInStep(s.r, n);
    WrapPlus(s.r, n - s.r % n);
    ProdStays(s, DoConsumer(s));
    HeadOf(s);
  }

  lemma FrontSkipKeeps(s: State)
    requires Inv(s) && s.cons.FrontSkip?
    ensures Inv(DoConsumer(s))
    ensures DoConsumer(s).cons.Free? <==> s.seen == 1
  {
    hide ProdInv;
    var n, s' := |s.blk|, DoConsumer(s);
    IndexInStep(0, n);
    TurnEnds(s.r, n);
    HeadOf(s);
    ProdStays(s, s');
    assert s'.items[..s'.seen] == s.items[..s.seen][1..];
    LayoutEnds(s.blk, s'.r, s'.items[..s'.seen], s.l);
    WrapInjective(s'.r, s.l);
  }

  lemma PopKeeps(s: State)
    requires Inv(s) && Enabled(s, Pop)
    ensures Inv(Do(s, Pop))
  {
    hide Layout, ProdInv, Messages, RingSize;
    ProdStays(s, Do(s, Pop));
  }

  lemma PopSizeKeeps(s: State)
    requires Inv(s) && s.cons.PopSize?
    ensures Inv(DoConsumer(s))
  {
    hide Layout, ProdInv, Messages, RingSize;
    IndexInStep(s.r, |s.blk|);
    HeadOf(s);
    ProdStays(s, DoConsumer(s));
  }

  lemma PopIdxKeeps(s: State)
    requires Inv(s) && s.cons.PopIdx?
    ensures Inv(DoConsumer(s))
    ensures Messages(s.items) != [] && DoConsumer(s).popped == s.popped + [Messages(s.items)[0]]
    ensures Messages(DoConsumer(s).items) == Messages(s.items)[1..]
  {
    hide Layout, ProdInv, RingSize;
    IndexInStep(s.r, |s.blk|);
    WrapPlus(s.r, |s.items[0].blocks|);
    HeadOf(s);
    ProdStays(s, DoConsumer(s));
  }

  // ---- every interleaving ----

  lemma StepKeeps(s: State, step: Step)
    requires Inv(s) && Enabled(s, step)
    ensures Inv(Do(s, step))
  {
    hide Inv, DoAlloc;
    match step
    case Alloc(size) => AllocKeeps(s, size + 8);
    case Fill(j, b) => FillKeeps(s, j, b);
    case Push => PushKeeps(s);
    case Producer => ProducerKeeps(s);
    case Front => FrontKeeps(s);
    case Pop => PopKeeps(s);
    case Consumer => ConsumerKeeps(s);
  }

  lemma PushKeeps(s: State)
    requires Inv(s) && Enabled(s, Push)
    ensures Inv(Do(s, Push))
  {
    hide Layout, ConsInv, Messages, RingSize;
    ConsStays(s, Do(s, Push));
  }

  lemma ProducerKeeps(s: State)
    requires Inv(s) && Enabled(s, Producer)
    ensures Inv(DoProducer(s))
  {
    hide Inv, DoProducer;
    match s.prod
    case Reload(total, lw) => ReloadKeeps(s);
    case PadSize(total, lw) => PadSizeKeeps(s);
    case PadIdx(total, lw) => PadIdxKeeps(s);
    case HeaderSize(total, lw) => HeaderSizeKeeps(s);
    case PushSize(lw) => PushSizeKeeps(s);
    case PushIdx(lw, count) => PushIdxKeeps(s);
  }

  lemma ConsumerKeeps(s: State)
    requires Inv(s) && Enabled(s, Consumer)
    ensures Inv(DoConsumer(s))
  {
    hide Inv, DoConsumer;
    match s.cons
    case FrontRead(lw) => FrontReadKeeps(s);
    case FrontSize(lw, lr) => FrontSizeKeeps(s);
    case FrontSkip(lw, lr) => FrontSkipKeeps(s);
    case PopSize(lr) => PopSizeKeeps(s);
    case PopIdx(lr, count) => PopIdxKeeps(s);
  }

  ghost predicate CanRun(s: State, steps: seq<Step>)
    decreases |steps|
  {
    steps == [] || (Enabled(s, steps[0]) && CanRun(Do(s, steps[0]), steps[1..]))
  }

  /** The state after an interleaving. */
  ghost function After(s: State, steps: seq<Step>): State
    requires CanRun(s, steps)
    decreases |steps|
  {
    if steps == [] then s else After(Do(s, steps[0]), steps[1..])
  }

  lemma {:induction false} RunKeeps(s: State, steps: seq<Step>)
    requires Inv(s) && CanRun(s, steps)
    ensures Inv(After(s, steps))
    decreases |steps|
  {
    hide Inv, Enabled, Do;
    if steps != [] {
      StepKeeps(s, steps[0]);
      RunKeeps(Do(s, steps[0]), steps[1..]);
    }
  }

  /** A state that some interleaving of the two programs leads to. */
  ghost predicate Reachable(s: State) {
    exists s0, steps :: Init(s0) && CanRun(s0, steps) && After(s0, steps) == s
  }

  lemma ReachableInv(s: State)
    requires Reachable(s)
    ensures Inv(s) && 0 < |s.blk|
  {
    hide Inv, Init, CanRun, After;
    var s0, steps :| Init(s0) && CanRun(s0, steps) && After(s0, steps) == s;
    InitHolds(s0);
    RunKeeps(s0, steps);
    NotEmptyRing(s);
  }

  lemma {:induction false} OneMoreStep(s0: State, steps: seq<Step>, step: Step)
    requires CanRun(s0, steps) && Enabled(After(s0, steps), step)
    ensures CanRun(s0, steps + [step]) && After(s0, steps + [step]) == Do(After(s0, steps), step)
    decreases |steps|
  {
    hide Enabled, Do;
    var all := steps + [step];
    if steps == [] {
      assert all[1..] == [];
    } else {
      OneMoreStep(Do(s0, steps[0]), steps[1..], step);
      assert all[1..] == steps[1..] + [step];
    }
  }

  lemma StepReaches(s: State, step: Step)
    requires Reachable(s) && Enabled(s, step)
    ensures Reachable(Do(s, step))
  {
    hide Init, CanRun, After, Enabled, Do;
    var s0, steps :| Init(s0) && CanRun(s0, steps) && After(s0, steps) == s;
    OneMoreStep(s0, steps, step);
  }

  lemma InitReached(s: State)
    requires Init(s)
    ensures Reachable(s)
  {
    hide Init;
    assert CanRun(s, []) && After(s, []) == s;
  }

  /** First in, first out, nothing lost, invented or changed: after every interleaving of the two programs' loads and
      stores, and any number of turns and wrap-arounds, the messages pushed, as their writer filled them, are the
      messages popped, as their reader found them in the ring, followed by those that lie in [read, write). */
  lemma RingIsFifo(s: State, steps: seq<Step>)
    requires Init(s) && CanRun(s, steps)
    ensures var s' := After(s, steps);
      && s'.pushed == s'.popped + Messages(s'.items)
      && 0 < |s'.blk| && Layout(s'.blk, s'.r, s'.items, s'.w)
      && s'.w - s'.r <= |s'.blk| && s'.write == Wrap(s'.w) && s'.read == Wrap(s'.r)
      && AllFilled(s'.pushed) && AllFilled(Messages(s'.items))
  {
    hide Init, Layout, Messages, ProdInv, ConsInv, RingSize, CanRun, After;
    InitHolds(s);
    RunKeeps(s, steps);
    FilledRest(After(s, steps).popped, Messages(After(s, steps).items));
  }

  lemma FilledRest(before: seq<seq<Blk>>, rest: seq<seq<Blk>>)
    requires AllFilled(before + rest)
    ensures AllFilled(rest)
  {
    forall i | 0 <= i < |rest|
      ensures Filled(rest[i])
    {
      assert (before + rest)[|before| + i] == rest[i];
    }
  }

  // ---- what each step does to the FIFO, and to memory ----

  /** The messages in the ring change at two steps only: Push's store of write_idx appends the draft, Pop's store of
      read_idx removes the first; padding comes and goes unseen. */
  lemma FifoStep(s: State, step: Step)
    requires Reachable(s) && Enabled(s, step)
    ensures var q, q' := Messages(s.items), Messages(Do(s, step).items);
      if step.Producer? && s.prod.PushIdx? then q' == q + [s.draft]
      else if step.Consumer? && s.cons.PopIdx? then q != [] && q' == q[1..]
      else q' == q
  {
    hide Reachable, Layout, ItemAt, RingSize, Counters;
    ReachableInv(s);
    if step.Producer? && s.prod.PushIdx? {
      PushIdxKeeps(s);
      MessagesAppend(s.items, Message(s.draft));
    } else if step.Producer? && s.prod.PadIdx? {
      MessagesAppend(s.items, Padding);
    } else if step.Consumer? && s.cons.FrontSkip? {
      assert s.items[0].Padding?;
      assert Messages(s.items) == [] + Messages(s.items[1..]);
    } else if step.Consumer? && s.cons.PopIdx? {
      assert s.items[0].Message?;
      assert Messages(s.items)[1..] == Messages(s.items[1..]);
    }
  }

  predicate ByProducer(step: Step) {
    step.Alloc? || step.Fill? || step.Push? || step.Producer?
  }

  /** Ownership: the producer stores only into blocks outside [read_idx, write_idx), the consumer into none; write_idx
      and the cache are the producer's to change, read_idx the consumer's. */
  lemma Ownership(s: State, step: Step)
    requires Reachable(s) && Enabled(s, step)
    ensures ByProducer(step) ==> Do(s, step).read == s.read && SameBetween(s.blk, Do(s, step).blk, s.r, s.w)
    ensures !ByProducer(step) ==>
      Do(s, step).blk == s.blk && Do(s, step).write == s.write && Do(s, step).cache == s.cache
  {
    hide Reachable, Inv, Counters, Layout, ProdInv, ConsInv, Messages;
    ReachableInv(s);
    if step.Fill? {
      FillKeeps(s, step.j, step.b);
    } else if step.Producer? && s.prod.PadSize? {
      PadSizeKeeps(s);
    } else if step.Producer? && s.prod.HeaderSize? {
      HeaderSizeKeeps(s);
    } else {
      NotEmptyRing(s);
    }
  }

  lemma NotEmptyRing(s: State)
    requires Inv(s)
    ensures 0 < |s.blk|
  {
  }

  /** The consumer has a message in its hands, from Front to the end of Pop. */
  predicate InHands(c: Cons) {
    c.Holding? || c.PopSize? || c.PopIdx?
  }

  /** What Front's pointer shows. */
  ghost predicate Shows(s: State, m: seq<Blk>)
    requires 0 < |s.blk|
  {
    var at := s.read % |s.blk|;
    at + |m| <= |s.blk| && s.blk[at..at + |m|] == m
  }

  /** Front returns the oldest message pushed and not popped, whole and contiguous, and never padding. */
  lemma FrontShowsOldest(s: State)
    requires 0 < |s.blk| && Reachable(s) && InHands(s.cons)
    ensures Messages(s.items) != [] && Messages(s.items)[0] != [] && Shows(s, Messages(s.items)[0])
  {
    hide Reachable, Layout, ProdInv, RingSize;
    ReachableInv(s);
    IndexInStep(s.r, |s.blk|);
    HeadOf(s);
  }

  /** Pop's store of read_idx, by which the consumer gives a message up. */
  predicate GivesUp(s: State, step: Step) {
    step.Consumer? && s.cons.PopIdx?
  }

  ghost predicate NeverGivesUp(s: State, steps: seq<Step>)
    requires CanRun(s, steps)
    decreases |steps|
  {
    steps == [] || (!GivesUp(s, steps[0]) && NeverGivesUp(Do(s, steps[0]), steps[1..]))
  }

  /** And until its Pop ends, whatever the producer does meanwhile, and however often the consumer asks for the front
      again, the message stays where it is and as it is. */
  lemma HeldUnchanged(s: State, steps: seq<Step>)
    requires 0 < |s.blk| && Reachable(s) && InHands(s.cons) && CanRun(s, steps) && NeverGivesUp(s, steps)
    ensures var s' := After(s, steps);
      && s'.read == s.read && |s'.blk| == |s.blk| && InHand(s) && InHand(s') && s'.items[0] == s.items[0]
      && Shows(s, s.items[0].blocks) && Shows(s', s.items[0].blocks)
  {
    hide Reachable, Shows, CanRun, NeverGivesUp, After, Layout, ProdInv, RingSize;
    ReachableInv(s);
    HeldOnwards(s, steps);
  }

  lemma {:induction false} HeldOnwards(s: State, steps: seq<Step>)
    requires 0 < |s.blk| && Reachable(s) && InHand(s) && CanRun(s, steps) && NeverGivesUp(s, steps)
    ensures var s' := After(s, steps);
      && s'.read == s.read && |s'.blk| == |s.blk| && InHand(s') && s'.items[0] == s.items[0]
      && Shows(s, s.items[0].blocks) && Shows(s', s.items[0].blocks)
    decreases |steps|
  {
    hide Reachable, Shows, Enabled, Do;
    HandShown(s);
    if steps != [] {
      HeldOn(s, steps[0]);
      HeldOnwards(Do(s, steps[0]), steps[1..]);
    }
  }

  lemma HandShown(s: State)
    requires 0 < |s.blk| && Reachable(s) && InHand(s)
    ensures Shows(s, s.items[0].blocks) && Messages(s.items) != [] && Messages(s.items)[0] == s.items[0].blocks
  {
    hide Reachable, Layout, ProdInv, ConsInv, RingSize;
    ReachableInv(s);
    IndexInStep(s.r, |s.blk|);
    HeadOf(s);
  }

  lemma HeldOn(s: State, step: Step)
    requires 0 < |s.blk| && Reachable(s) && InHand(s) && Enabled(s, step) && !GivesUp(s, step)
    ensures var s' := Do(s, step);
      Reachable(s') && s'.read == s.read && |s'.blk| == |s.blk| && InHand(s') && s'.items[0] == s.items[0]
  {
    hide Reachable, Layout, RingSize, Messages;
    ReachableInv(s);
    StepReaches(s, step);
  }

  /** An allocated message is contiguous and has as many blocks as its size takes; they are outside [read_idx, write_idx),
      and they hold what was filled in. */
  lemma AllocatedIsContiguous(s: State)
    requires 0 < |s.blk| && Reachable(s) && s.prod.Ready? && s.draft != []
    ensures var at := s.write % |s.blk|;
      at + |s.draft| <= |s.blk| && s.blk[at..at + |s.draft|] == s.draft && s.w + |s.draft| <= s.r + |s.blk|
      && Filled(s.draft)
  {
    hide Reachable, Layout, ConsInv, RingSize;
    ReachableInv(s);
    IndexInStep(s.w, |s.blk|);
  }

  /** Alloc refuses only where space is short at its reload, and then exactly where it is. */
  lemma RefusedIffShort(s: State)
    requires 0 < |s.blk| && Reachable(s) && s.prod.Reload?
    ensures DoProducer(s).prod.Ready? <==> s.r + |s.blk| < s.w + Need(|s.blk|, s.w, s.prod.total)
  {
    hide Reachable, Layout, ConsInv, RingSize, Need;
    ReachableInv(s);
    TestExact(|s.blk|, s.r, s.w, s.prod.total);
  }

  /** The cached read index never admits an allocation that a fresh load would refuse. */
  lemma CacheIsSafe(s: State, size: nat)
    requires Reachable(s) && Enabled(s, Alloc(size)) && !Do(s, Alloc(size)).prod.Reload?
    ensures s.w + Need(|s.blk|, s.w, size + 8) <= s.r + |s.blk|
    ensures !Short(|s.blk|, s.read, s.write, size + 8)
  {
    hide Reachable, Layout, ConsInv, RingSize, Need, Rewind, Short;
    ReachableInv(s);
    TestExact(|s.blk|, s.c, s.w, size + 8);
    TestExact(|s.blk|, s.r, s.w, size + 8);
  }

  /** Whether Alloc, once entered, refuses: at its first look, if the cache shows room, it does not; else its reload decides. */
  predicate Refuses(s: State)
    requires 0 < |s.blk|
  {
    s.prod.Reload? && DoProducer(s).prod.Ready?
  }

  /** Alloc, from its entry, refuses exactly if space is short, whatever the cache holds. */
  lemma AllocRefusesIff(s: State, size: nat)
    requires 0 < |s.blk| && Reachable(s) && Enabled(s, Alloc(size))
    ensures Refuses(Do(s, Alloc(size))) <==> s.r + |s.blk| < s.w + Need(|s.blk|, s.w, size + 8)
  {
    hide Reachable, Need, Rewind, Short, DoProducer, Inv;
    ReachableInv(s);
    StepReaches(s, Alloc(size));
    if Do(s, Alloc(size)).prod.Reload? {
      RefusedIffShort(Do(s, Alloc(size)));
    } else {
      CacheIsSafe(s, size);
    }
  }

  /** So many contiguous blocks of the array, at counter p or later, are free. */
  ghost predicate PlaceAt(s: State, blocks: nat, p: nat) {
    0 < |s.blk| && s.w <= p && p % |s.blk| + blocks <= |s.blk| && p + blocks <= s.r + |s.blk|
  }

  ghost predicate HasPlace(s: State, blocks: nat) {
    exists p: nat :: PlaceAt(s, blocks, p)
  }

  /** Alloc refuses only what no place in the ring could take: no contiguous run of free blocks, wherever it starts, is
      long enough. */
  lemma RefusesIffNoPlace(s: State, size: nat)
    requires 0 < |s.blk| && Reachable(s) && Enabled(s, Alloc(size))
    ensures Refuses(Do(s, Alloc(size))) <==> !HasPlace(s, BlocksOf(size + 8))
  {
    hide Reachable, Refuses, Do, Enabled, Inv;
    AllocRefusesIff(s, size);
    ReachableInv(s);
    ReadBehind(s);
    var n, blocks, k := |s.blk|, BlocksOf(size + 8), s.w % |s.blk|;
    if s.w + Need(n, s.w, size + 8) <= s.r + n {
      var p := if blocks > n - k then s.w + (n - k) else s.w;
      TurnEnds(s.w, n);
      assert PlaceAt(s, blocks, p);
    }
    forall p: nat | PlaceAt(s, blocks, p)
      ensures s.w + Need(n, s.w, size + 8) <= s.r + n
    {
      if blocks > n - k && p < s.w + (n - k) {
        ModStep(s.w, p - s.w, n);
      }
    }
  }

  lemma ReadBehind(s: State)
    requires Inv(s)
    ensures s.r <= s.w
  {
    hide Layout, ProdInv, ConsInv, RingSize, Messages;
  }

  /** The half-ring bound: on a drained ring at offset k, Alloc takes exactly the messages of at most max(N - k, k)
      blocks, so every message of half a ring, and at k == N / 2 no longer one. */
  lemma DrainedTakes(s: State, size: nat)
    requires 0 < |s.blk| && Reachable(s) && Enabled(s, Alloc(size)) && s.r == s.w
    ensures var n, blocks, k := |s.blk|, BlocksOf(size + 8), s.w % |s.blk|;
      && (!Refuses(Do(s, Alloc(size))) <==> blocks <= Max(n - k, k))
      && (2 * blocks <= n ==> !Refuses(Do(s, Alloc(size))))
      && (2 * k == n && 2 * blocks > n ==> Refuses(Do(s, Alloc(size))))
  {
    hide Reachable, Refuses, Do, Enabled;
    AllocRefusesIff(s, size);
  }

  const BARE := Blk(8, [])

  /** A ring of two blocks: empty, then holding one bare header, then drained again at offset 1. */
  function Pristine(): State {
    State([Blk(0, []), Blk(0, [])], 0, 0, 0, Ready, Free, 0, 0, 0, 0, 0, [], [], [], [])
  }

  function OnePushed(): State {
    State([BARE, Blk(0, [])], 1, 0, 0, Ready, Free, 1, 0, 0, 0, 0, [Message([BARE])], [], [[BARE]], [])
  }

  function DrainedAtOne(): State {
    State([BARE, Blk(0, [])], 1, 1, 0, Ready, Free, 1, 1, 0, 1, 1, [], [], [[BARE]], [[BARE]])
  }

  lemma PristineReached()
    ensures Reachable(Pristine())
  {
    assert Pow2(1) == 2;
    InitReached(Pristine());
  }

  lemma OnePushedReached()
    ensures Reachable(OnePushed())
  {
    hide Reachable;
    PristineReached();
    var s := Pristine();
    StepReaches(s, Alloc(0));
    var s1 := s.(prod := HeaderSize(8, 0));
    assert Do(s, Alloc(0)) == s1;
    StepReaches(s1, Producer);
    var s2 := s.(blk := [BARE, Blk(0, [])], draft := [BARE]);
    assert Do(s1, Producer) == s2;
    StepReaches(s2, Push);
    StepReaches(s2.(prod := PushSize(0)), Producer);
    StepReaches(s2.(prod := PushIdx(0, 1)), Producer);
    assert s2.blk[0..1] == [BARE] && [] + [[BARE]] == [[BARE]];
    assert Do(s2.(prod := PushIdx(0, 1)), Producer) == OnePushed();
  }

  function OneInHand(): State {
    OnePushed().(l := 1, seen := 1, cons := Holding)
  }

  lemma OneInHandReached()
    ensures Reachable(OneInHand())
  {
    hide Reachable;
    OnePushedReached();
    var s := OnePushed();
    StepReaches(s, Front);
    var s1 := s.(l := 1, seen := 1);
    StepReaches(s1.(cons := FrontRead(1)), Consumer);
    StepReaches(s1.(cons := FrontSize(1, 0)), Consumer);
  }

  lemma DrainedAtOneReached()
    ensures Reachable(DrainedAtOne())
  {
    hide Reachable;
    OneInHandReached();
    var s := OneInHand();
    StepReaches(s, Pop);
    StepReaches(s.(cons := PopSize(0)), Consumer);
    StepReaches(s.(cons := PopIdx(0, 1)), Consumer);
    OnePopped();
  }

  lemma OnePopped()
    ensures var s := OneInHand().(cons := PopIdx(0, 1)); Enabled(s, Consumer) && Do(s, Consumer) == DrainedAtOne()
  {
    var s := OneInHand().(cons := PopIdx(0, 1));
    assert s.blk[0..1] == [BARE] && [] + [[BARE]] == [[BARE]] && s.items[1..] == [];
  }

  /** The bound bites: an empty ring of two blocks refuses a message of two. */
  lemma EmptyRingRefuses()
    ensures exists s: State ::
      && Reachable(s) && |s.blk| == 2 && s.items == [] && BlocksOf(57 + 8) == 2
      && Enabled(s, Alloc(57)) && Refuses(Do(s, Alloc(57)))
  {
    hide Reachable, Refuses, Do;
    DrainedAtOneReached();
    DrainedTakes(DrainedAtOne(), 57);
  }

  /** Front finds nothing, at either of its two returns, only if no message lay in the ring when it loaded write_idx. */
  lemma NothingSeen(s: State)
    requires Inv(s) && (s.cons.FrontRead? || s.cons.FrontSkip?) && DoConsumer(s).cons.Free?
    ensures s.seen <= |s.items| && Messages(s.items[..s.seen]) == []
  {
    hide Layout, ProdInv, RingSize, DoConsumer;
    if s.cons.FrontRead? {
      FrontReadKeeps(s);
    } else {
      FrontSkipKeeps(s);
      assert s.items[..1] == [s.items[0]];
      assert s.items[..1][1..] == [];
    }
  }

  predicate Looking(c: Cons) {
    c.FrontRead? || c.FrontSize? || c.FrontSkip?
  }

  predicate WithinFront(steps: seq<Step>) {
    forall i :: 0 <= i < |steps| ==> !steps[i].Front? && !steps[i].Pop?
  }

  lemma LookingStep(s: State, step: Step)
    requires Inv(s) && Enabled(s, step) && Looking(s.cons) && !step.Front? && !step.Pop?
    ensures var s' := Do(s, step);
      && (s'.cons.Free? ==> s.seen <= |s.items| && Messages(s.items[..s.seen]) == [])
      && (Looking(s'.cons) ==> s'.seen == s.seen <= |s.items| && s'.items[..s.seen] == s.items[..s.seen])
      && (s'.cons.Free? || Looking(s'.cons) || s'.cons.Holding?)
  {
    hide Layout, ProdInv, RingSize, Messages, ItemAt;
    if step.Consumer? && !s.cons.FrontSize? && DoConsumer(s).cons.Free? {
      NothingSeen(s);
    }
  }

  lemma {:induction false} LookingRun(s: State, steps: seq<Step>)
    requires Inv(s) && CanRun(s, steps) && WithinFront(steps)
    requires After(s, steps).cons.Free?
    ensures !s.cons.Holding?
    ensures Looking(s.cons) ==> s.seen <= |s.items| && Messages(s.items[..s.seen]) == []
    decreases |steps|
  {
    hide Inv, Messages;
    if steps != [] {
      StepKeeps(s, steps[0]);
      LookingRun(Do(s, steps[0]), steps[1..]);
      if Looking(s.cons) {
        LookingStep(s, steps[0]);
      }
    }
  }

  /** Front answers "nothing", at either of its two returns and whatever the producer did meanwhile, only if no message
      lay in the ring when it loaded write_idx. */
  lemma EmptyAnswer(s: State, steps: seq<Step>)
    requires Reachable(s) && Enabled(s, Front) && CanRun(Do(s, Front), steps) && WithinFront(steps)
    requires After(Do(s, Front), steps).cons.Free?
    ensures Messages(s.items) == []
  {
    hide Reachable, Inv, Messages, CanRun, After;
    ReachableInv(s);
    FrontKeeps(s);
    LookingRun(Do(s, Front), steps);
    assert s.items[..|s.items|] == s.items;
  }

  /** Two padding runs never adjoin, so one test for padding is enough. */
  lemma {:induction false} PaddingNeverAdjoins(blk: seq<Blk>, x: nat, items: seq<Item>, end: nat, i: nat)
    requires 0 < |blk| && Layout(blk, x, items, end) && i + 1 < |items|
    ensures !(items[i].Padding? && items[i + 1].Padding?)
    decreases i
  {
    if i == 0 {
      assert items[1..][0] == items[1];
      if items[0].Padding? {
        TurnEnds(x, |blk|);
      }
    } else {
      PaddingNeverAdjoins(blk, x + Span(|blk|, x, items[0]), items[1..], end, i - 1);
    }
  }
}
