/** The ready mask: one bit per lane, and the count-leading-zeros lookup of the highest bit. */
module Bitmask {
  import opened PriorityLanes

  const PQ_BITMASK_BITS := 32

  predicate HasBit(mask: bv32, k: nat)
    requires k < PQ_BITMASK_BITS
  {
    mask & (1 << k) != 0
  }

  function SetBit(mask: bv32, p: Priority): bv32
  {
    mask | (1 << p)
  }

  function ClearBit(mask: bv32, p: Priority): bv32
  {
    mask & !(1 << p)
  }

  /** Zero bits from bit n - 1 downwards. */
  function ZerosBelow(mask: bv32, n: nat): (zeros: nat)
    requires n <= PQ_BITMASK_BITS
    ensures zeros <= n && forall k :: n - zeros <= k < n ==> !HasBit(mask, k)
    ensures zeros < n ==> HasBit(mask, n - 1 - zeros)
  {
    if n == 0 || HasBit(mask, n - 1) then 0 else 1 + ZerosBelow(mask, n - 1)
  }

  /** `__builtin_clz` of a 32-bit word: zero bits from the top. */
  function CountLeadingZeros(mask: bv32): nat
  {
    ZerosBelow(mask, PQ_BITMASK_BITS)
  }

  function HighestPriority(mask: bv32): int
    requires mask != 0
  {
    PQ_BITMASK_BITS - CountLeadingZeros(mask) - 1
  }

  lemma SetBitSetsOne(mask: bv32, p: Priority, r: Priority)
    requires mask < 8
    ensures SetBit(mask, p) < 8
    ensures HasBit(SetBit(mask, p), r) <==> r == p || HasBit(mask, r)
  {
    BitValue(p);
    BitValue(r);
  }

  lemma ClearBitClearsOne(mask: bv32, p: Priority, r: Priority)
    requires mask < 8
    ensures ClearBit(mask, p) < 8
    ensures HasBit(ClearBit(mask, p), r) <==> r != p && HasBit(mask, r)
  {
    BitValue(p);
    BitValue(r);
  }

  lemma BitValue(p: Priority)
    ensures (1 as bv32) << p == if p == LOW then 1 else if p == MEDIUM then 2 else 4
  {
  }

  /** The mask is zero exactly when no lane is ready. */
  lemma ZeroMask(mask: bv32)
    requires mask < 8
    ensures mask == 0 <==> !HasBit(mask, LOW) && !HasBit(mask, MEDIUM) && !HasBit(mask, HIGH)
  {
    BitValue(LOW);
    BitValue(MEDIUM);
    BitValue(HIGH);
  }

  lemma NextBit(k: nat)
    requires k + 1 < PQ_BITMASK_BITS
    ensures var b: bv32 := 1 << k; (1 << (k + 1)) - 1 == (b - 1) | b
  {
  }

  /** The word has no bit below bit k. */
  predicate NothingBelow(mask: bv32, k: nat)
    requires k < PQ_BITMASK_BITS
  {
    mask & ((1 << k) - 1) == 0
  }

  lemma NothingBelowNext(mask: bv32, k: nat)
    requires k + 1 < PQ_BITMASK_BITS && NothingBelow(mask, k) && !HasBit(mask, k)
    ensures NothingBelow(mask, k + 1)
  {
    NextBit(k);
  }

  lemma {:induction false} ZerosLeaveNothing(mask: bv32, k: nat)
    requires k < PQ_BITMASK_BITS && forall j: nat :: j < k ==> !HasBit(mask, j)
    ensures NothingBelow(mask, k)
  {
    if k == 0 {
      assert NothingBelow(mask, 0);
    } else {
      ZerosLeaveNothing(mask, k - 1);
      NothingBelowNext(mask, k - 1);
    }
  }

  /** For every non-zero word the lookup finds its highest set bit. */
  lemma HighestPriorityIsTopBit(mask: bv32)
    requires mask != 0
    ensures var p := HighestPriority(mask);
            0 <= p < PQ_BITMASK_BITS && HasBit(mask, p) && forall k: nat :: p < k < PQ_BITMASK_BITS ==> !HasBit(mask, k)
  {
    if CountLeadingZeros(mask) == PQ_BITMASK_BITS {
      ZerosLeaveNothing(mask, PQ_BITMASK_BITS - 1);
      assert false;
    }
  }

  /** A word with the three lane bits only has none above. */
  lemma HighestPriorityIsLane(mask: bv32)
    requires 0 < mask < 8
    ensures 0 <= HighestPriority(mask) < NUM_PRIORITIES
  {
    HighestPriorityIsTopBit(mask);
    if HighestPriority(mask) >= NUM_PRIORITIES {
      NoLaneAbove(mask, HighestPriority(mask));
    }
  }

  lemma NoLaneAbove(mask: bv32, k: nat)
    requires mask < 8 && NUM_PRIORITIES <= k < PQ_BITMASK_BITS
    ensures !HasBit(mask, k)
  {
  }
}
