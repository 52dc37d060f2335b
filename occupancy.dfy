/**
 * `set_occupancy`: the blocker pattern number `index` over the squares of
 * an attack mask.  Bit k of the index decides whether the k-th lowest
 * square of the mask is occupied.
 */
module Occupancy {
  import opened Bits

  /** The lowest square of a non-empty word, as `get_ls1b_index` returns it. */
  function LowSq(m: Bitboard): (s: Square)
    requires m != 0
    ensures Bit(m, s)
  {
    LowestSpec(m);
    Lowest(m)
  }

  /** The non-negative index shifted right by c bits. */
  function Shift(index: nat, c: nat): nat
  {
    if c == 0 then index else Shift(index / 2, c - 1)
  }

  /**
   * The test `index & (1 << count)` of a non-negative C `int` index, for a
   * count below 31: bit count of the index is set.
   */
  predicate IndexBit(index: nat, count: nat)
  {
    Shift(index, count) % 2 == 1
  }

  lemma {:induction false} ShiftStep(index: nat, c: nat)
    ensures Shift(index, c + 1) == Shift(index, c) / 2
  {
    if c > 0 {
      ShiftStep(index / 2, c - 1);
    }
  }

  /**
   * Square t is chosen by the low k bits of index among the squares of m,
   * taken from the lowest up.
   */
  predicate Picked(index: nat, m: Bitboard, k: nat, t: Square)
    decreases k
  {
    k > 0 && m != 0 &&
    ((index % 2 == 1 && t == LowSq(m)) || Picked(index / 2, PopBitClear(m, LowSq(m)), k - 1, t))
  }

  /**
   * The loop state of `set_occupancy`: what is already in occ and what the
   * remaining k rounds over mask, reading the index bits rest, will add make
   * up the whole pattern.
   */
  ghost predicate OccInv(index: nat, m0: Bitboard, n: nat, occ: Bitboard, rest: nat, m: Bitboard, k: nat)
  {
    forall t: Square :: Bit(occ, t) || Picked(rest, m, k, t) <==> Picked(index, m0, n, t)
  }

  lemma PickedAt(index: nat, m: Bitboard, k: nat, t: Square)
    requires k > 0 && m != 0
    ensures Picked(index, m, k, t) <==>
      (index % 2 == 1 && t == LowSq(m)) || Picked(index / 2, PopBitClear(m, LowSq(m)), k - 1, t)
  {
  }

  lemma OccStepInv(index: nat, m0: Bitboard, n: nat, occ: Bitboard, rest: nat, m: Bitboard, k: nat,
                   sq: Square, m1: Bitboard, hit: bool, occ1: Bitboard)
    requires k > 0 && m != 0
    requires OccInv(index, m0, n, occ, rest, m, k)
    requires sq == LowSq(m) && m1 == PopBitClear(m, sq)
    requires hit == (rest % 2 == 1)
    requires occ1 == if hit then SetBit(occ, sq) else occ
    ensures OccInv(index, m0, n, occ1, rest / 2, m1, k - 1)
  {
    forall t: Square ensures Bit(occ1, t) || Picked(rest / 2, m1, k - 1, t) <==> Picked(index, m0, n, t) {
      PickedAt(rest, m, k, t);
    }
  }

  /** Everything the loop of `set_occupancy` keeps after count rounds. */
  ghost predicate OccLoop(index: nat, m0: Bitboard, n: nat, occ: Bitboard, mask: Bitboard, count: nat, rest: nat)
  {
    count <= n && rest == Shift(index, count) &&
    PopCount(mask) == PopCount(m0) - count && n <= PopCount(m0) &&
    OccInv(index, m0, n, occ, rest, mask, n - count)
  }

  /** One round of `set_occupancy`. */
  method OccStep(index: nat, occupancy: Bitboard, mask: Bitboard, count: nat,
                 ghost m0: Bitboard, ghost n: nat, ghost rest: nat)
    returns (occ1: Bitboard, mask1: Bitboard)
    requires count < n && OccLoop(index, m0, n, occupancy, mask, count, rest)
    ensures OccLoop(index, m0, n, occ1, mask1, count + 1, rest / 2)
  {
    PopCountZero(mask);
    var square := LowSq(mask);
    mask1 := PopBitToggle(mask, square);
    PopBitVariantsAgree(mask, square);
    var hit := IndexBit(index, count);
    occ1 := occupancy;
    if hit {
      occ1 := SetBit(occ1, square);
    }
    OccLoopStep(index, m0, n, occupancy, mask, count, rest, square, mask1, hit, occ1);
  }

  lemma OccLoopStep(index: nat, m0: Bitboard, n: nat, occ: Bitboard, mask: Bitboard, count: nat, rest: nat,
                    sq: Square, mask1: Bitboard, hit: bool, occ1: Bitboard)
    requires count < n && OccLoop(index, m0, n, occ, mask, count, rest) && mask != 0
    requires sq == LowSq(mask) && mask1 == PopBitClear(mask, sq)
    requires hit == IndexBit(index, count)
    requires occ1 == if hit then SetBit(occ, sq) else occ
    ensures OccLoop(index, m0, n, occ1, mask1, count + 1, rest / 2)
  {
    PopCountClear(mask, sq);
    ShiftStep(index, count);
    OccStepInv(index, m0, n, occ, rest, mask, n - count, sq, mask1, hit, occ1);
  }

  /**
   * `set_occupancy(index, bits_in_mask, attack_mask)`.  The C code needs
   * bits_in_mask to be at most the number of squares in the mask (else
   * `get_ls1b_index` returns -1 and the shift by it is undefined).
   */
  method SetOccupancy(index: nat, bitsInMask: nat, attackMask: Bitboard) returns (occupancy: Bitboard)
    requires bitsInMask <= PopCount(attackMask)
    ensures forall t: Square :: Bit(occupancy, t) <==> Picked(index, attackMask, bitsInMask, t)
  {
    occupancy := 0;
    var mask := attackMask;
    var count := 0;
    ghost var rest := index;
    OccStart(index, attackMask, bitsInMask);
    while count < bitsInMask
      invariant OccLoop(index, attackMask, bitsInMask, occupancy, mask, count, rest)
      decreases bitsInMask - count
    {
      occupancy, mask := OccStep(index, occupancy, mask, count, attackMask, bitsInMask, rest);
      count, rest := count + 1, rest / 2;
    }
    OccEnd(index, attackMask, bitsInMask, occupancy, mask, count, rest);
  }

  lemma OccStart(index: nat, m0: Bitboard, n: nat)
    requires n <= PopCount(m0)
    ensures OccLoop(index, m0, n, 0, m0, 0, index)
  {
    forall t: Square ensures Bit(0, t) || Picked(index, m0, n, t) <==> Picked(index, m0, n, t) {
      NotBit(0, t);
    }
  }

  lemma OccEnd(index: nat, m0: Bitboard, n: nat, occ: Bitboard, m: Bitboard, count: nat, rest: nat)
    requires OccLoop(index, m0, n, occ, m, count, rest) && !(count < n)
    ensures forall t: Square :: Bit(occ, t) <==> Picked(index, m0, n, t)
  {
  }

  // ---------------------------------------------------------------------
  // What a pattern is
  // ---------------------------------------------------------------------

  /** A pattern only holds squares of the mask. */
  lemma {:induction false} PickedInMask(index: nat, m: Bitboard, k: nat, t: Square)
    ensures Picked(index, m, k, t) ==> Bit(m, t)
    decreases k
  {
    if k > 0 && m != 0 {
      PickedInMask(index / 2, PopBitClear(m, LowSq(m)), k - 1, t);
    }
  }

  /** The mask m without its j lowest squares. */
  function Drop(m: Bitboard, j: nat): Bitboard
    decreases j
  {
    if j == 0 || m == 0 then m else Drop(PopBitClear(m, LowSq(m)), j - 1)
  }

  /** Square t is the j-th lowest square of m, counting from 0. */
  predicate KthLowest(m: Bitboard, j: nat, t: Square)
  {
    Drop(m, j) != 0 && t == LowSq(Drop(m, j))
  }

  /** Each square of a pattern is the j-th lowest square of the mask for some set bit j of the index. */
  lemma {:induction false} PickedIsKth(index: nat, m: Bitboard, k: nat, t: Square) returns (j: nat)
    requires Picked(index, m, k, t)
    ensures j < k && IndexBit(index, j) && KthLowest(m, j, t)
    decreases k
  {
    if index % 2 == 1 && t == LowSq(m) {
      j := 0;
    } else {
      var m1 := PopBitClear(m, LowSq(m));
      var j1 := PickedIsKth(index / 2, m1, k - 1, t);
      j := j1 + 1;
      assert Drop(m, j) == Drop(m1, j1);
    }
  }

  /** The j-th lowest square of the mask is in the pattern when bit j of the index is set and j < k. */
  lemma {:induction false} KthIsPicked(index: nat, m: Bitboard, k: nat, t: Square, j: nat)
    requires j < k && IndexBit(index, j) && KthLowest(m, j, t)
    ensures Picked(index, m, k, t)
    decreases k
  {
    if j > 0 {
      var m1 := PopBitClear(m, LowSq(m));
      assert Drop(m, j) == Drop(m1, j - 1);
      KthIsPicked(index / 2, m1, k - 1, t, j - 1);
    }
  }

  lemma LowBitDiffers(i: nat, j: nat, m: Bitboard, k: nat)
    requires m != 0 && k > 0 && i % 2 != j % 2
    ensures Picked(i, m, k, LowSq(m)) != Picked(j, m, k, LowSq(m))
  {
    var l := LowSq(m);
    var m1 := PopBitClear(m, l);
    PickedInMask(i / 2, m1, k - 1, l);
    PickedInMask(j / 2, m1, k - 1, l);
    PickedAt(i, m, k, l);
    PickedAt(j, m, k, l);
  }

  lemma HighBitsDiffer(i: nat, j: nat, m: Bitboard, k: nat, t: Square)
    requires m != 0 && k > 0
    requires Picked(i / 2, PopBitClear(m, LowSq(m)), k - 1, t) != Picked(j / 2, PopBitClear(m, LowSq(m)), k - 1, t)
    ensures Picked(i, m, k, t) != Picked(j, m, k, t)
  {
    var l := LowSq(m);
    var m1 := PopBitClear(m, l);
    PickedInMask(i / 2, m1, k - 1, t);
    PickedInMask(j / 2, m1, k - 1, t);
    PickedAt(i, m, k, t);
    PickedAt(j, m, k, t);
  }

  /** 2 to the power k. */
  function Pow2(k: nat): (p: nat)
    ensures p >= 1
  {
    if k == 0 then 1 else 2 * Pow2(k - 1)
  }

  /**
   * With k at most the number of squares in m, different indices below 2^k
   * give different patterns: the returned square is in one and not the other.
   */
  lemma {:induction false} PatternsDistinct(i: nat, j: nat, m: Bitboard, k: nat) returns (t: Square)
    requires i != j && i < Pow2(k) && j < Pow2(k) && k <= PopCount(m)
    ensures Picked(i, m, k, t) != Picked(j, m, k, t)
    decreases k
  {
    PopCountZero(m);
    var l := LowSq(m);
    var m1 := PopBitClear(m, l);
    PopCountClear(m, l);
    if i % 2 != j % 2 {
      t := l;
      LowBitDiffers(i, j, m, k);
    } else {
      assert i / 2 != j / 2;
      t := PatternsDistinct(i / 2, j / 2, m1, k - 1);
      HighBitsDiffer(i, j, m, k, t);
    }
  }

  /**
   * The index whose variant is the part of sub inside m: bit j of it is
   * set when sub holds the j-th lowest square of m.
   */
  function IndexOf(sub: Bitboard, m: Bitboard, k: nat): nat
    decreases k
  {
    if k == 0 || m == 0 then 0
    else (if Bit(sub, LowSq(m)) then 1 else 0) + 2 * IndexOf(sub, PopBitClear(m, LowSq(m)), k - 1)
  }

  /** IndexOf names one of the first 2^k variants. */
  lemma {:induction false} IndexOfBound(sub: Bitboard, m: Bitboard, k: nat)
    ensures IndexOf(sub, m, k) < Pow2(k)
    decreases k
  {
    if k > 0 && m != 0 {
      IndexOfBound(sub, PopBitClear(m, LowSq(m)), k - 1);
    }
  }

  /**
   * Every subset of a mask with k = popcount(mask) squares is one of the
   * variants: variant IndexOf(sub, m, k) is exactly sub within m.
   */
  lemma {:induction false} IndexOfPicks(sub: Bitboard, m: Bitboard, k: nat, t: Square)
    requires k == PopCount(m)
    ensures Picked(IndexOf(sub, m, k), m, k, t) <==> Bit(sub, t) && Bit(m, t)
    decreases k
  {
    PopCountZero(m);
    if k == 0 || m == 0 {
      ZeroHasNone(m, t);
    } else {
      var low := LowSq(m);
      var rest := PopBitClear(m, low);
      PopCountClear(m, low);
      IndexOfPicks(sub, rest, k - 1, t);
      IndexOfStep(sub, m, k, t, low, rest, IndexOf(sub, rest, k - 1));
    }
  }

  lemma ZeroHasNone(m: Bitboard, t: Square)
    requires m == 0
    ensures !Bit(m, t)
  {
  }

  lemma IndexOfStep(sub: Bitboard, m: Bitboard, k: nat, t: Square, low: Square, rest: Bitboard, j: nat)
    requires k > 0 && m != 0 && low == LowSq(m) && rest == PopBitClear(m, low)
    requires j == IndexOf(sub, rest, k - 1)
    requires Picked(j, rest, k - 1, t) <==> Bit(sub, t) && Bit(rest, t)
    ensures Picked(IndexOf(sub, m, k), m, k, t) <==> Bit(sub, t) && Bit(m, t)
  {
    var i := IndexOf(sub, m, k);
    assert i == (if Bit(sub, low) then 1 else 0) + 2 * j;
    assert i % 2 == (if Bit(sub, low) then 1 else 0) && i / 2 == j;
    PickedAt(i, m, k, t);
  }
}
