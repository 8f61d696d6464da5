/** The class SPSCVarQueue, its operations as the source writes them. Each runs the steps of the machine of SpscRing
    one after the other, which ties what is proved there about every interleaving to this code. */
module SpscQueues {
  import opened Word32
  import opened SpscRing
  import opened SpscProof

  function Proceed(s: State): State {
    if 0 < |s.blk| then DoProducer(s) else s
  }

  function ProceedCons(s: State): State {
    if 0 < |s.blk| then DoConsumer(s) else s
  }

  /** Alloc, Push, Front and Pop without interruption. */
  function AllocRun(s: State, size: nat): State
    requires Enabled(s, Alloc(size))
  {
    Proceed(Proceed(Proceed(Proceed(Do(s, Alloc(size))))))
  }

  function PushRun(s: State): State
    requires Enabled(s, Push)
  {
    Proceed(Proceed(Do(s, Push)))
  }

  function FrontRun(s: State): State
    requires Enabled(s, Front)
  {
    ProceedCons(ProceedCons(ProceedCons(Do(s, Front))))
  }

  function PopRun(s: State): State
    requires Enabled(s, Pop)
  {
    ProceedCons(ProceedCons(Do(s, Pop)))
  }

  class SpscVarQueue {
    const blk: array<Blk>
    var writeIdx: U32
    var readIdxCach: U32
    var readIdx: U32
    ghost var st: State

    constructor (blockCount: nat)
      requires RingSize(blockCount)
      ensures Valid() && fresh(blk) && blk.Length == blockCount && Messages(st.items) == []
      ensures st.pushed == st.popped == [] && st.cons.Free?
    {
      writeIdx, readIdxCach, readIdx := 0, 0, 0;
      blk := new Blk[blockCount];
      new;
      st := State(blk[..], 0, 0, 0, Ready, Cons.Free, 0, 0, 0, 0, 0, [], [], [], []);
      InitHolds(st);
      InitReached(st);
    }

    /** The fields are those of the machine's state. */
    ghost predicate Mirrors()
      reads this, blk
    {
      && st.blk == blk[..] && st.write == writeIdx && st.read == readIdx && st.cache == readIdxCach
      && Inv(st) && Reachable(st)
    }

    /** No operation is under way. */
    ghost predicate Valid()
      reads this, blk
    {
      Mirrors() && st.prod.Ready? && (st.cons.Free? || st.cons.Holding?)
    }

    /** A message's header, at its index in the array, or -1 where the ring is short of space. */
    method Alloc(size: nat) returns (pos: int)
      requires Valid() && size <= 65527
      modifies this`readIdxCach, this`writeIdx, this`st, blk
      ensures Valid() && st == AllocRun(old(st), size)
      ensures pos == -1 <==> old(st.r) + blk.Length < old(st.w) + Need(blk.Length, old(st.w), size + 8)
      ensures pos != -1 ==>
        && 0 <= pos == writeIdx % blk.Length && pos + BlocksOf(size + 8) <= blk.Length
        && |st.draft| == BlocksOf(size + 8) && st.draft[0].size == size + 8
        && size + 8 <= 64 * |st.draft| < size + 8 + 64
        && blk[pos..pos + BlocksOf(size + 8)] == st.draft
      ensures Messages(st.items) == old(Messages(st.items)) && readIdx == old(readIdx)
    {
      hide Reachable, Inv, Messages, Need, Short, Diff, Rewind;
      NotEmptyRing(st);
      ghost var s0, s1 := st, Do(st, SpscRing.Alloc(size));
      StepKeeps(s0, SpscRing.Alloc(size));
      StepReaches(s0, SpscRing.Alloc(size));
      FifoStep(s0, SpscRing.Alloc(size));
      var n, total, localWrite := blk.Length, size + 8, writeIdx;
      if Short(n, readIdxCach, localWrite, total) {
        readIdxCach := readIdx;
        RefusedIffShort(s1);
        ReloadKeeps(s1);
        FifoStep(s1, Producer);
        StepReaches(s1, Producer);
        st := DoProducer(s1);
        if Short(n, readIdxCach, localWrite, total) {
          return -1;
        }
      } else {
        CacheIsSafe(s0, size);
        st := s1;
      }
      pos := Place(total);
    }

    /** Alloc once room is found: step over the end of the array if need be, and set the size. */
    method Place(total: U16) returns (pos: int)
      requires Mirrors() && 0 < blk.Length && st.prod == AfterRoom(blk.Length, writeIdx, total)
      requires st.cons.Free? || st.cons.Holding?
      modifies this`writeIdx, this`st, blk
      ensures Valid() && st == Proceed(Proceed(Proceed(old(st))))
      ensures 0 <= pos == writeIdx % blk.Length && pos + BlocksOf(total) <= blk.Length
      ensures |st.draft| == BlocksOf(total) && st.draft[0].size == total && blk[pos..pos + BlocksOf(total)] == st.draft
      ensures Messages(st.items) == old(Messages(st.items))
    {
      hide Reachable, Inv, Messages, BlocksOf, Rewind, DoProducer;
      if Rewind(blk.Length, writeIdx, total) {
        Turn(total);
      }
      pos := SetSize(total);
    }

    method Turn(total: U16)
      requires Mirrors() && 0 < blk.Length && st.prod == PadSize(total, writeIdx)
      modifies this`writeIdx, this`st, blk
      ensures Mirrors() && st == Proceed(Proceed(old(st))) && st.prod == HeaderSize(total, writeIdx)
      ensures Messages(st.items) == old(Messages(st.items)) && st.cons == old(st.cons)
    {
      hide Reachable, Inv, Messages, BlocksOf, Rewind;
      PadSizeKeeps(st);
      FifoStep(st, Producer);
      StepReaches(st, Producer);
      st := DoProducer(st);
      blk[writeIdx % blk.Length] := blk[writeIdx % blk.Length].(size := 0);
      PadIdxKeeps(st);
      FifoStep(st, Producer);
      StepReaches(st, Producer);
      st := DoProducer(st);
      writeIdx := Wrap(writeIdx + Cut(blk.Length, writeIdx));
    }

    method SetSize(total: U16) returns (pos: int)
      requires Mirrors() && 0 < blk.Length && st.prod == HeaderSize(total, writeIdx)
      modifies this`st, blk
      ensures Mirrors() && st == Proceed(old(st)) && st.prod.Ready? && st.cons == old(st.cons)
      ensures 0 <= pos == writeIdx % blk.Length && pos + BlocksOf(total) <= blk.Length
      ensures |st.draft| == BlocksOf(total) && st.draft[0].size == total && blk[pos..pos + BlocksOf(total)] == st.draft
      ensures Messages(st.items) == old(Messages(st.items))
      ensures Proceed(st) == st
    {
      hide Reachable, Inv, Messages, BlocksOf, Rewind;
      HeaderSizeKeeps(st);
      FifoStep(st, Producer);
      StepReaches(st, Producer);
      st := DoProducer(st);
      AllocatedIsContiguous(st);
      pos := writeIdx % blk.Length;
      blk[pos] := blk[pos].(size := total);
    }

    /** The user writes one block of the message allocated. */
    method Fill(j: nat, b: Blk)
      requires Valid() && j < |st.draft| && (j == 0 ==> b.size == st.draft[0].size)
      modifies this`st, blk
      ensures Valid() && st == Do(old(st), SpscRing.Fill(j, b)) && st.draft == old(st.draft)[j := b]
    {
      hide Reachable, Inv;
      NotEmptyRing(st);
      AllocatedIsContiguous(st);
      FillKeeps(st, j, b);
      StepReaches(st, SpscRing.Fill(j, b));
      st := Do(st, SpscRing.Fill(j, b));
      blk[writeIdx % blk.Length + j] := b;
    }

    method Push()
      requires Valid() && st.draft != []
      modifies this`writeIdx, this`st
      ensures Valid() && old(Valid()) && old(Enabled(st, SpscRing.Push)) && st == PushRun(old(st))
      ensures Messages(st.items) == old(Messages(st.items)) + [old(st.draft)]
    {
      hide Reachable, Inv, Messages, BlocksOf;
      NotEmptyRing(st);
      PushKeeps(st);
      StepReaches(st, SpscRing.Push);
      st := Do(st, SpscRing.Push);
      var localWrite := writeIdx;
      var count := BlocksOf(blk[localWrite % blk.Length].size);
      PushSizeKeeps(st);
      StepReaches(st, Producer);
      st := DoProducer(st);
      PushIdxKeeps(st);
      FifoStep(st, Producer);
      StepReaches(st, Producer);
      st := DoProducer(st);
      writeIdx := Wrap(localWrite + count);
    }

    /** The oldest message, at its index in the array, or -1 where there is none. */
    method Front() returns (pos: int)
      requires Valid()
      modifies this`readIdx, this`st
      ensures Valid() && st == FrontRun(old(st))
      ensures Messages(st.items) == old(Messages(st.items))
      ensures pos == -1 <==> Messages(st.items) == []
      ensures pos != -1 ==>
        && 0 <= pos == readIdx % blk.Length && st.cons.Holding? && Messages(st.items) != []
        && pos + |Messages(st.items)[0]| <= blk.Length
        && blk[pos..pos + |Messages(st.items)[0]|] == Messages(st.items)[0]
    {
      hide Reachable, Inv, Messages;
      NotEmptyRing(st);
      FrontKeeps(st);
      FifoStep(st, SpscRing.Front);
      StepReaches(st, SpscRing.Front);
      st := Do(st, SpscRing.Front);
      var localWrite, localRead := writeIdx, readIdx;
      FrontReadKeeps(st);
      FifoStep(st, Consumer);
      AllSeen(st);
      StepReaches(st, Consumer);
      st := DoConsumer(st);
      if localRead == localWrite {
        return -1;
      }
      FrontSizeKeeps(st);
      FifoStep(st, Consumer);
      AllSeen(st);
      StepReaches(st, Consumer);
      st := DoConsumer(st);
      if blk[localRead % blk.Length].size == 0 {
        localRead := Wrap(localRead + Cut(blk.Length, localRead));
        readIdx := localRead;
        FrontSkipKeeps(st);
        FifoStep(st, Consumer);
        AllSeen(st);
        StepReaches(st, Consumer);
        st := DoConsumer(st);
        if localRead == localWrite {
          return -1;
        }
      }
      FrontShowsOldest(st);
      return localRead % blk.Length;
    }

    method Pop()
      requires Valid() && st.cons.Holding?
      modifies this`readIdx, this`st
      ensures Valid() && st == PopRun(old(st)) && st.cons.Free?
      ensures old(Messages(st.items)) != [] && Messages(st.items) == old(Messages(st.items))[1..]
      ensures st.popped == old(st.popped) + [old(Messages(st.items))[0]]
    {
      hide Reachable, Inv, Messages, BlocksOf;
      NotEmptyRing(st);
      FrontShowsOldest(st);
      PopKeeps(st);
      StepReaches(st, SpscRing.Pop);
      st := Do(st, SpscRing.Pop);
      var localRead := readIdx;
      var count := BlocksOf(blk[localRead % blk.Length].size);
      PopSizeKeeps(st);
      StepReaches(st, Consumer);
      st := DoConsumer(st);
      PopIdxKeeps(st);
      FifoStep(st, Consumer);
      StepReaches(st, Consumer);
      st := DoConsumer(st);
      readIdx := Wrap(localRead + count);
    }
  }

  /** Alone, the consumer sees everything: an answer of "nothing" means the ring holds no message. */
  lemma AllSeen(s: State)
    requires Inv(s) && Looking(s.cons) && s.seen == |s.items|
    ensures DoConsumer(s).cons.Free? ==> Messages(s.items) == []
    ensures Looking(DoConsumer(s).cons) ==> DoConsumer(s).seen == |DoConsumer(s).items|
  {
    hide Layout, ProdInv, RingSize, Messages;
    if DoConsumer(s).cons.Free? {
      LookingStep(s, Consumer);
      assert s.items[..|s.items|] == s.items;
    }
  }
}
