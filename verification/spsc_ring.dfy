/** SPSCVarQueue: how messages and padding lie in the ring, and the producer's and the consumer's programs, one shared
    load or store per step. */
module SpscRing {
  import opened Word32

  type Bytes = seq<Byte>

  /** A block of 64 bytes: the size field of the MsgHeader it may begin with, and the rest. */
  datatype Blk = Blk(size: U16, rest: Bytes)

  function Pow2(k: nat): nat {
    if k == 0 then 1 else 2 * Pow2(k - 1)
  }

  /** BLK_CNT is a power of 2, and a uint32_t counts its bytes. */
  ghost predicate RingSize(n: nat) {
    exists k: nat :: k <= 25 && n == Pow2(k)
  }

  /** The fewest blocks that hold so many bytes. */
  function BlocksOf(size: nat): (blocks: nat)
    ensures size <= 64 * blocks < size + 64
  {
    (size + 63) / 64
  }

  /** The message fills its blocks, the last one perhaps in part: no byte lies outside, and no block is idle. */
  predicate Filled(m: seq<Blk>) {
    m != [] && m[0].size <= 64 * |m| < m[0].size + 64
  }

  /** What a stretch of the ring is: a message, or the unused blocks up to the end of the array. */
  datatype Item = Message(blocks: seq<Blk>) | Padding

  function Span(n: nat, x: nat, item: Item): nat
    requires 0 < n
  {
    if item.Padding? then n - x % n else |item.blocks|
  }

  /** The item lies at counter x, a message in contiguous blocks of the array. */
  ghost predicate ItemAt(blk: seq<Blk>, x: nat, item: Item)
    requires 0 < |blk|
  {
    var at := x % |blk|;
    if item.Padding? then at != 0 && blk[at].size == 0
    else
      && 0 < |item.blocks| == BlocksOf(item.blocks[0].size)
      && at + |item.blocks| <= |blk|
      && blk[at..at + |item.blocks|] == item.blocks
  }

  /** The blocks from counter x to counter end are exactly these items. */
  ghost predicate Layout(blk: seq<Blk>, x: nat, items: seq<Item>, end: nat)
    requires 0 < |blk|
    decreases |items|
  {
    if items == [] then x == end
    else ItemAt(blk, x, items[0]) && Layout(blk, x + Span(|blk|, x, items[0]), items[1..], end)
  }

  function Messages(items: seq<Item>): seq<seq<Blk>> {
    if items == [] then []
    else (if items[0].Padding? then [] else [items[0].blocks]) + Messages(items[1..])
  }

  // ---- the two programs ----

  /** Where the producer is: the shared access it makes next, with the locals it needs for it. */
  datatype Prod =
    | Ready                               // outside Alloc and Push
    | Reload(total: U16, lw: U32)         // Alloc: load read_idx
    | PadSize(total: U16, lw: U32)        // Alloc: store size 0 in the padding's first block
    | PadIdx(total: U16, lw: U32)         // Alloc: store write_idx past the padding
    | HeaderSize(total: U16, lw: U32)     // Alloc: store the message's size
    | PushSize(lw: U32)                   // Push: load the size back
    | PushIdx(lw: U32, count: nat)        // Push: store write_idx

  datatype Cons =
    | Free                                // outside Front and Pop, no message in hand
    | Holding                             // outside Front and Pop, Front has returned a message
    | FrontRead(lw: U32)                  // Front: load read_idx
    | FrontSize(lw: U32, lr: U32)         // Front: load the size
    | FrontSkip(lw: U32, lr: U32)         // Front: store read_idx past the padding
    | PopSize(lr: U32)                    // Pop: load the size
    | PopIdx(lr: U32, count: nat)         // Pop: store read_idx

  /** blk, write, read are shared; cache is the producer's. The rest is history. The counters without the wrap: w, r,
      c, and l for the consumer's last load of write_idx, at which `seen` items lay in the ring. draft: the message
      allocated and not pushed yet, as the user fills it; pushed: all drafts pushed; popped: what was in the blocks of
      the messages popped. */
  datatype State = State(
    blk: seq<Blk>, write: U32, read: U32, cache: U32, prod: Prod, cons: Cons,
    w: nat, r: nat, c: nat, l: nat, seen: nat,
    items: seq<Item>, draft: seq<Blk>, pushed: seq<seq<Blk>>, popped: seq<seq<Blk>>)

  function Cut(n: nat, idx: U32): nat
    requires 0 < n
  {
    n - idx % n
  }

  function Rewind(n: nat, lw: U32, total: U16): bool
    requires 0 < n
  {
    BlocksOf(total) > Cut(n, lw)
  }

  /** min_read_idx, as a uint32_t. */
  function MinRead(n: nat, lw: U32, total: U16): U32
    requires 0 < n
  {
    Wrap(lw + BlocksOf(total) + (if Rewind(n, lw, total) then Cut(n, lw) else 0) - n)
  }

  function Short(n: nat, cache: U32, lw: U32, total: U16): bool
    requires 0 < n
  {
    Diff(cache, MinRead(n, lw, total)) < 0
  }

  function AfterRoom(n: nat, lw: U32, total: U16): Prod
    requires 0 < n
  {
    if Rewind(n, lw, total) then PadSize(total, lw) else HeaderSize(total, lw)
  }

  datatype Step =
    | Alloc(size: nat)                    // enter Alloc: load write_idx, look at the cache
    | Fill(j: nat, b: Blk)                // the user writes block j of the message allocated
    | Push                                // enter Push: load write_idx
    | Producer                            // the producer's next access
    | Front                               // enter Front: load write_idx
    | Pop                                 // enter Pop: load read_idx
    | Consumer                            // the consumer's next access

  /** What the two users may do: one operation at a time each, Push after Alloc, Pop after Front; a header's size field
      is the queue's. A payload of more than 65527 bytes overflows the 16-bit size. */
  predicate Enabled(s: State, step: Step) {
    0 < |s.blk| &&
    match step
    case Alloc(size) => s.prod.Ready? && size <= 65527
    case Fill(j, b) => s.prod.Ready? && j < |s.draft| && (j == 0 ==> b.size == s.draft[0].size)
    case Push => s.prod.Ready? && s.draft != []
    case Producer => !s.prod.Ready?
    case Front => s.cons.Free? || s.cons.Holding?
    case Pop => s.cons.Holding?
    case Consumer => !s.cons.Free? && !s.cons.Holding?
  }

  function SizeStored(blk: seq<Blk>, idx: U32, size: U16): seq<Blk>
    requires 0 < |blk|
  {
    blk[idx % |blk| := blk[idx % |blk|].(size := size)]
  }

  /** The blocks from an index on, as far as the array goes. */
  function Slice(blk: seq<Blk>, idx: U32, count: nat): seq<Blk>
    requires 0 < |blk|
  {
    var at := idx % |blk|;
    if at + count <= |blk| then blk[at..at + count] else blk[at..]
  }

  function Do(s: State, step: Step): State
    requires Enabled(s, step)
  {
    match step
    case Alloc(size) => DoAlloc(s, size + 8)
    case Fill(j, b) =>
      var k := s.write % |s.blk| + j;
      s.(blk := if k < |s.blk| then s.blk[k := b] else s.blk, draft := s.draft[j := b])
    case Push => s.(prod := PushSize(s.write))
    case Producer => DoProducer(s)
    case Front => s.(cons := FrontRead(s.write), l := s.w, seen := |s.items|)
    case Pop => s.(cons := PopSize(s.read))
    case Consumer => DoConsumer(s)
  }

  function DoAlloc(s: State, total: U16): State
    requires 0 < |s.blk|
  {
    s.(draft := [],
       prod := if Short(|s.blk|, s.cache, s.write, total) then Reload(total, s.write)
               else AfterRoom(|s.blk|, s.write, total))
  }

  function DoProducer(s: State): State
    requires 0 < |s.blk|
  {
    var n := |s.blk|;
    match s.prod
    case Ready => s
    case Reload(total, lw) =>
      s.(cache := s.read, c := s.r,
         prod := if Short(n, s.read, lw, total) then Ready else AfterRoom(n, lw, total))
    case PadSize(total, lw) => s.(blk := SizeStored(s.blk, lw, 0), prod := PadIdx(total, lw))
    case PadIdx(total, lw) =>
      var lw' := Wrap(lw + Cut(n, lw));
      s.(write := lw', prod := HeaderSize(total, lw'), w := s.w + Cut(n, lw), items := s.items + [Padding])
    case HeaderSize(total, lw) =>
      var blk' := SizeStored(s.blk, lw, total);
      s.(blk := blk', prod := Ready, draft := Slice(blk', lw, BlocksOf(total)))
    case PushSize(lw) => s.(prod := PushIdx(lw, BlocksOf(s.blk[lw % n].size)))
    case PushIdx(lw, count) =>
      s.(write := Wrap(lw + count), prod := Ready, w := s.w + count,
         items := s.items + [Message(Slice(s.blk, lw, count))], pushed := s.pushed + [s.draft], draft := [])
  }

  function DoConsumer(s: State): State
    requires 0 < |s.blk|
  {
    var n := |s.blk|;
    match s.cons
    case Free => s
    case Holding => s
    case FrontRead(lw) => s.(cons := if s.read == lw then Free else FrontSize(lw, s.read))
    case FrontSize(lw, lr) =>
      s.(cons := if s.blk[lr % n].size == 0 then FrontSkip(lw, Wrap(lr + Cut(n, lr))) else Holding)
    case FrontSkip(lw, lr) =>
      s.(read := lr, cons := if lr == lw then Free else Holding, r := s.r + (n - s.r % n),
         items := if s.items == [] then [] else s.items[1..], seen := if s.seen == 0 then 0 else s.seen - 1)
    case PopSize(lr) => s.(cons := PopIdx(lr, BlocksOf(s.blk[lr % n].size)))
    case PopIdx(lr, count) =>
      s.(read := Wrap(lr + count), cons := Free, r := s.r + count,
         items := if s.items == [] then [] else s.items[1..], popped := s.popped + [Slice(s.blk, lr, count)])
  }

  /** An empty ring; the memory holds anything. */
  ghost predicate Init(s: State) {
    && RingSize(|s.blk|)
    && s == State(s.blk, 0, 0, 0, Ready, Free, 0, 0, 0, 0, 0, [], [], [], [])
  }

  // ---- the invariant ----

  /** Blocks a message of `total` bytes needs from counter w on, padding included. */
  function Need(n: nat, w: nat, total: nat): nat
    requires 0 < n
  {
    var cut := n - w % n;
    BlocksOf(total) + if BlocksOf(total) > cut then cut else 0
  }

  ghost predicate Counters(s: State) {
    && RingSize(|s.blk|)
    && s.write == Wrap(s.w) && s.read == Wrap(s.r) && s.cache == Wrap(s.c)
    && s.c <= s.r <= s.w <= s.c + |s.blk|
  }

  /** A message of `total` bytes fits in front of the last read index known, without a turn. */
  ghost predicate Roomy(s: State, total: nat)
    requires 0 < |s.blk|
  {
    && 8 <= total < 0x1_0000
    && s.w + BlocksOf(total) <= s.c + |s.blk|
    && s.w % |s.blk| + BlocksOf(total) <= |s.blk|
  }

  /** The draft is in the blocks behind write_idx. */
  ghost predicate Drafted(s: State)
    requires 0 < |s.blk|
  {
    && s.draft != [] && Roomy(s, s.draft[0].size) && |s.draft| == BlocksOf(s.draft[0].size)
    && s.blk[s.w % |s.blk|..s.w % |s.blk| + |s.draft|] == s.draft
  }

  ghost predicate ProdInv(s: State)
    requires 0 < |s.blk|
  {
    var n := |s.blk|;
    match s.prod
    case Ready => s.draft != [] ==> Drafted(s)
    case Reload(total, lw) => lw == s.write && 8 <= total && s.draft == []
    case PadSize(total, lw) => lw == s.write && Turning(s, total)
    case PadIdx(total, lw) => lw == s.write && Turning(s, total) && s.blk[s.w % n].size == 0
    case HeaderSize(total, lw) => lw == s.write && Roomy(s, total) && s.draft == []
    case PushSize(lw) => lw == s.write && Drafted(s)
    case PushIdx(lw, count) => lw == s.write && Drafted(s) && count == |s.draft|
  }

  /** There is room for the padding and, from the start of the array, for the message. */
  ghost predicate Turning(s: State, total: nat)
    requires 0 < |s.blk|
  {
    var n := |s.blk|;
    && s.draft == [] && 8 <= total < 0x1_0000 && s.w % n != 0
    && s.w + (n - s.w % n) + BlocksOf(total) <= s.c + n
  }

  /** The consumer's view of [r, l) at its last load of write_idx. */
  ghost predicate Visible(s: State, lw: U32)
    requires 0 < |s.blk|
  {
    lw == Wrap(s.l) && s.l <= s.w && s.seen <= |s.items| && Layout(s.blk, s.r, s.items[..s.seen], s.l)
  }

  ghost predicate InHand(s: State) {
    s.items != [] && s.items[0].Message?
  }

  ghost predicate ConsInv(s: State)
    requires 0 < |s.blk|
  {
    match s.cons
    case Free => true
    case Holding => InHand(s)
    case FrontRead(lw) => Visible(s, lw)
    case FrontSize(lw, lr) => Visible(s, lw) && lr == s.read && s.seen != 0
    case FrontSkip(lw, lr) =>
      Visible(s, lw) && s.seen != 0 && s.items[0].Padding? && lr == Wrap(s.r + (|s.blk| - s.r % |s.blk|))
    case PopSize(lr) => lr == s.read && InHand(s)
    case PopIdx(lr, count) => lr == s.read && InHand(s) && count == |s.items[0].blocks|
  }

  predicate AllFilled(ms: seq<seq<Blk>>) {
    forall i :: 0 <= i < |ms| ==> Filled(ms[i])
  }

  ghost predicate Inv(s: State) {
    && 0 < |s.blk| && Counters(s)
    && Layout(s.blk, s.r, s.items, s.w)
    && ProdInv(s) && ConsInv(s)
    && s.pushed == s.popped + Messages(s.items)
    && AllFilled(s.pushed)
  }
}
