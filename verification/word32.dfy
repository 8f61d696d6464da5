/** Machine integers of the source: unsigned bytes, 16- and 32-bit words, and the
    signed difference `(int)(a - b)` by which sequence numbers and ring indices are compared. */
module Word32 {

  type Byte = x: int | 0 <= x < 0x100
  type U16 = x: int | 0 <= x < 0x1_0000
  type U32 = x: int | 0 <= x < 0x1_0000_0000

  /** The uint32_t that an unbounded counter is stored as. */
  function Wrap(x: int): U32 {
    x % 0x1_0000_0000
  }

  /** `++` on a uint32_t. */
  function NextSeq(x: U32): U32 {
    if x == 0xFFFF_FFFF then 0 else x + 1
  }

  lemma NextSeqWraps(x: int)
    ensures NextSeq(Wrap(x)) == Wrap(x + 1)
  {
  }

  /** `(int)(a - b)` on two uint32_t operands. */
  function Diff(a: U32, b: U32): int {
    var d := Wrap(a - b);
    if d < 0x8000_0000 then d else d - 0x1_0000_0000
  }

  /** Inside a window of 2^31 the signed difference is the difference of the unbounded counters. */
  lemma DiffExact(x: int, y: int)
    requires -0x8000_0000 <= x - y < 0x8000_0000
    ensures Diff(Wrap(x), Wrap(y)) == x - y
  {
    WrapMinus(x, y);
    if x < y {
      assert (x - y) % 0x1_0000_0000 == x - y + 0x1_0000_0000;
    }
  }

  lemma WrapMinus(x: int, y: int)
    ensures Wrap(Wrap(x) - Wrap(y)) == Wrap(x - y)
  {
    var p, q := x / 0x1_0000_0000, y / 0x1_0000_0000;
    assert x - y == (Wrap(x) - Wrap(y)) + (p - q) * 0x1_0000_0000;
    ModShift(Wrap(x) - Wrap(y), p - q);
  }

  lemma WrapPlus(x: int, y: int)
    ensures Wrap(Wrap(x) + y) == Wrap(x + y)
  {
    var p := x / 0x1_0000_0000;
    assert x + y == (Wrap(x) + y) + p * 0x1_0000_0000;
    ModShift(Wrap(x) + y, p);
  }

  lemma ModShift(a: int, k: int)
    ensures (a + k * 0x1_0000_0000) % 0x1_0000_0000 == a % 0x1_0000_0000
  {
  }

  lemma WrapSmall(x: int)
    requires 0 <= x < 0x1_0000_0000
    ensures Wrap(x) == x
  {
  }

  /** Exactly which acknowledgements read as "not newer": a count `stale` behind `now` is recognised as old if and only if
      it lags by at most 2^31, modulo 2^32. */
  lemma StaleRecognisedIff(now: int, stale: int)
    ensures Diff(Wrap(stale), Wrap(now)) <= 0 <==> Wrap(now - stale) <= 0x8000_0000
  {
    WrapMinus(stale, now);
    WrapNegated(now - stale);
  }

  lemma WrapNegated(x: int)
    ensures Wrap(-x) == if Wrap(x) == 0 then 0 else 0x1_0000_0000 - Wrap(x)
  {
    var r: int, q := Wrap(x), x / 0x1_0000_0000;
    assert -x == -r + (-q) * 0x1_0000_0000;
    ModShift(-r, -q);
  }

  function Min(a: int, b: int): (r: int)
    ensures r <= a && r <= b && (r == a || r == b)
  {
    if a < b then a else b
  }

  function Max(a: int, b: int): (r: int)
    ensures a <= r && b <= r && (r == a || r == b)
  {
    if a < b then b else a
  }

  /** INVALID_TCP_SOCKET: no socket. */
  const INVALID := -1
}
