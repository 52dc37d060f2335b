/**
 * 64-bit square sets ("bitboards") and the bit primitives the engine is
 * built on: get/set/pop of one square, the population count and the index
 * of the lowest set square.
 *
 * Square s (0 = a8 … 63 = h1) is bit s of the word, and Single(s) is the
 * word `1ULL << s`.  Squares are 8-bit values below 64, so every fact about
 * one square is a fact about fixed-width words.  The set-level statements
 * (`forall t: Square :: Bit(r, t) <==> …`) are proved square by square and
 * lifted with `forall` statements.
 */
module Bits {

  type Bitboard = bv64

  /** A board square 0 .. 63. */
  type Square = s: bv8 | s < 64

  /** The word `1ULL << s`. */
  function Single(s: Square): Bitboard { (1 as Bitboard) << s }

  /** Square s belongs to b, i.e. `get_bit(b, s)` is nonzero. */
  predicate Bit(b: Bitboard, s: Square) { b & Single(s) != 0 }

  // ---------------------------------------------------------------------
  // Boolean operations, square by square
  // ---------------------------------------------------------------------

  /** Distinct squares occupy distinct bits. */
  lemma SingleBit(s: Square, t: Square)
    ensures Bit(Single(s), t) <==> s == t
  {
  }

  lemma AndBit(a: Bitboard, b: Bitboard, s: Square)
    ensures Bit(a & b, s) <==> Bit(a, s) && Bit(b, s)
  {
  }

  lemma OrDist(a: Bitboard, b: Bitboard, m: Bitboard)
    ensures (a | b) & m == (a & m) | (b & m)
  {
  }

  lemma OrNone(x: Bitboard, y: Bitboard)
    ensures x | y == 0 <==> x == 0 && y == 0
  {
  }

  lemma OrBit(a: Bitboard, b: Bitboard, s: Square)
    ensures Bit(a | b, s) <==> Bit(a, s) || Bit(b, s)
  {
    OrDist(a, b, Single(s));
    OrNone(a & Single(s), b & Single(s));
  }

  lemma AndNotBit(a: Bitboard, b: Bitboard, s: Square)
    ensures Bit(a & !b, s) <==> Bit(a, s) && !Bit(b, s)
  {
    AndBit(a, !b, s);
    NotBit(b, s);
  }

  lemma XorBit(a: Bitboard, b: Bitboard, s: Square)
    ensures Bit(a ^ b, s) <==> Bit(a, s) != Bit(b, s)
  {
  }

  lemma NotBit(a: Bitboard, s: Square)
    ensures Bit(!a, s) <==> !Bit(a, s)
  {
  }

  // ---------------------------------------------------------------------
  // The squares below n; extensionality
  // ---------------------------------------------------------------------

  /** `(1ULL << n) - 1`: the squares 0 .. n-1 (all ones for n = 64). */
  function LowMask(n: bv8): Bitboard
    requires n <= 64
  {
    ((1 as Bitboard) << n) - 1
  }

  lemma LowMaskBit(n: bv8, s: Square)
    requires n <= 64
    ensures Bit(LowMask(n), s) <==> s < n
  {
  }

  /** b has none of the squares 0 .. n-1. */
  predicate NoneBelow(b: Bitboard, n: bv8)
    requires n <= 64
    decreases n
  {
    n == 0 || (NoneBelow(b, n - 1) && !Bit(b, n - 1))
  }

  lemma LowStep(b: Bitboard, n: bv8)
    requires 0 < n <= 64 && b & LowMask(n - 1) == 0 && !Bit(b, n - 1)
    ensures b & LowMask(n) == 0
  {
  }

  lemma LowStepBack(b: Bitboard, n: bv8)
    requires 0 < n <= 64 && b & LowMask(n) == 0
    ensures b & LowMask(n - 1) == 0 && !Bit(b, n - 1)
  {
  }

  /** NoneBelow is the word test `b & ((1ULL << n) - 1) == 0`. */
  lemma {:induction false} NoneBelowMask(b: Bitboard, n: bv8)
    requires n <= 64
    ensures NoneBelow(b, n) <==> b & LowMask(n) == 0
    decreases n
  {
    if n > 0 {
      NoneBelowMask(b, n - 1);
      if NoneBelow(b, n) {
        LowStep(b, n);
      } else if b & LowMask(n) == 0 {
        LowStepBack(b, n);
      }
    }
  }

  lemma NoneBelowAll(b: Bitboard)
    ensures b & LowMask(64) == 0 <==> b == 0
  {
  }

  /** NoneBelow, square by square. */
  lemma {:induction false} NoneBelowAt(b: Bitboard, n: bv8, t: Square)
    requires n <= 64 && NoneBelow(b, n) && t < n
    ensures !Bit(b, t)
    decreases n
  {
    if t != n - 1 {
      NoneBelowAt(b, n - 1, t);
    }
  }

  lemma {:induction false} AllClearBelow(b: Bitboard, n: bv8)
    requires n <= 64
    requires forall s: Square :: !Bit(b, s)
    ensures NoneBelow(b, n)
    decreases n
  {
    if n > 0 {
      AllClearBelow(b, n - 1);
    }
  }

  /** No square at all: the empty set. */
  lemma NoneBelowEmpty(b: Bitboard)
    ensures NoneBelow(b, 64) <==> b == 0
  {
    NoneBelowMask(b, 64);
    NoneBelowAll(b);
  }

  /** A word with no square in it is zero. */
  lemma ZeroExt(b: Bitboard)
    requires forall s: Square :: !Bit(b, s)
    ensures b == 0
  {
    AllClearBelow(b, 64);
    NoneBelowEmpty(b);
  }

  /** Two words with the same squares are equal. */
  lemma Extensionality(a: Bitboard, b: Bitboard)
    requires forall s: Square :: Bit(a, s) <==> Bit(b, s)
    ensures a == b
  {
    var x := a ^ b;
    forall s: Square
      ensures !Bit(x, s)
    {
      XorBit(a, b, s);
    }
    ZeroExt(x);
  }

  // ---------------------------------------------------------------------
  // get_bit / set_bit / pop_bit
  // ---------------------------------------------------------------------

  /** `get_bit(b, s)`: the masked bit itself (0 or `1ULL << s`), not 0/1. */
  function GetBit(b: Bitboard, s: Square): (r: Bitboard)
    ensures r == 0 || r == Single(s)
    ensures r != 0 <==> Bit(b, s)
  {
    b & Single(s)
  }

  lemma SetBitAt(b: Bitboard, s: Square, t: Square)
    ensures Bit(b | Single(s), t) <==> t == s || Bit(b, t)
  {
    OrBit(b, Single(s), t);
    SingleBit(s, t);
  }

  lemma SetBitAll(b: Bitboard, s: Square, r: Bitboard)
    requires r == b | Single(s)
    ensures forall t: Square :: Bit(r, t) <==> t == s || Bit(b, t)
  {
    forall t: Square
      ensures Bit(r, t) <==> t == s || Bit(b, t)
    {
      SetBitAt(b, s, t);
    }
  }

  /** `set_bit(b, s)`: the word with square s added and no other change. */
  function SetBit(b: Bitboard, s: Square): (r: Bitboard)
    ensures forall t: Square :: Bit(r, t) <==> t == s || Bit(b, t)
  {
    SetBitAll(b, s, b | Single(s));
    b | Single(s)
  }

  lemma ClearAt(b: Bitboard, s: Square, t: Square)
    ensures Bit(b & !Single(s), t) <==> t != s && Bit(b, t)
  {
  }

  lemma ClearAll(b: Bitboard, s: Square, r: Bitboard)
    requires r == b & !Single(s)
    ensures forall t: Square :: Bit(r, t) <==> t != s && Bit(b, t)
  {
    forall t: Square
      ensures Bit(r, t) <==> t != s && Bit(b, t)
    {
      ClearAt(b, s, t);
    }
  }

  /**
   * `pop_bit` of the modular headers, `b &= ~(1ULL << s)`: square s is
   * cleared whether or not it was set.
   */
  function PopBitClear(b: Bitboard, s: Square): (r: Bitboard)
    ensures forall t: Square :: Bit(r, t) <==> t != s && Bit(b, t)
  {
    ClearAll(b, s, b & !Single(s));
    b & !Single(s)
  }

  lemma ToggleAt(b: Bitboard, s: Square, t: Square)
    requires Bit(b, s)
    ensures Bit(b ^ Single(s), t) <==> t != s && Bit(b, t)
  {
  }

  lemma ToggleAll(b: Bitboard, s: Square, r: Bitboard)
    requires Bit(b, s) && r == b ^ Single(s)
    ensures forall t: Square :: Bit(r, t) <==> t != s && Bit(b, t)
  {
    forall t: Square
      ensures Bit(r, t) <==> t != s && Bit(b, t)
    {
      ToggleAt(b, s, t);
    }
  }

  /**
   * `pop_bit` of src/types.h, `get_bit(b, s) ? (b ^= 1ULL << s) : 0`: the
   * bit is toggled only when it is set, so an absent square leaves b as is.
   */
  function PopBitToggle(b: Bitboard, s: Square): (r: Bitboard)
    ensures forall t: Square :: Bit(r, t) <==> t != s && Bit(b, t)
    ensures !Bit(b, s) ==> r == b
  {
    if GetBit(b, s) != 0 then
      ToggleAll(b, s, b ^ Single(s));
      b ^ Single(s)
    else
      b
  }

  /** The two pop_bit macros compute the same word. */
  lemma PopBitVariantsAgree(b: Bitboard, s: Square)
    ensures PopBitToggle(b, s) == PopBitClear(b, s)
  {
    Extensionality(PopBitToggle(b, s), PopBitClear(b, s));
  }

  // ---------------------------------------------------------------------
  // Population count
  // ---------------------------------------------------------------------

  /** Number of squares of b below n. */
  function CountBelow(b: Bitboard, n: bv8): nat
    requires n <= 64
    decreases n
  {
    if n == 0 then 0 else CountBelow(b, n - 1) + (if Bit(b, n - 1) then 1 else 0)
  }

  /** Number of squares of b. */
  function PopCount(b: Bitboard): nat
  {
    CountBelow(b, 64)
  }

  lemma {:induction false} CountBelowBound(b: Bitboard, n: bv8)
    requires n <= 64
    ensures CountBelow(b, n) <= n as int
    decreases n
  {
    if n > 0 {
      CountBelowBound(b, n - 1);
    }
  }

  /** Below n, r and b differ at most at s, where b has the square and r has not. */
  predicate DiffOnlyAt(b: Bitboard, r: Bitboard, s: Square, n: bv8)
    requires n <= 64
    decreases n
  {
    n == 0 ||
    (DiffOnlyAt(b, r, s, n - 1) &&
     if n - 1 == s then Bit(b, s) && !Bit(r, s) else (Bit(r, n - 1) <==> Bit(b, n - 1)))
  }

  lemma {:induction false} CountDiff(b: Bitboard, r: Bitboard, s: Square, n: bv8)
    requires n <= 64 && DiffOnlyAt(b, r, s, n)
    ensures CountBelow(r, n) + (if s < n then 1 else 0) == CountBelow(b, n)
    decreases n
  {
    if n > 0 {
      CountDiff(b, r, s, n - 1);
    }
  }

  lemma {:induction false} ClearDiff(b: Bitboard, r: Bitboard, s: Square, n: bv8)
    requires n <= 64 && Bit(b, s)
    requires forall t: Square :: Bit(r, t) <==> t != s && Bit(b, t)
    ensures DiffOnlyAt(b, r, s, n)
    decreases n
  {
    if n > 0 {
      ClearDiff(b, r, s, n - 1);
    }
  }

  /** Clearing a set square lowers the count by one. */
  lemma PopCountClear(b: Bitboard, s: Square)
    requires Bit(b, s)
    ensures PopCount(PopBitClear(b, s)) == PopCount(b) - 1
  {
    var r := PopBitClear(b, s);
    ClearDiff(b, r, s, 64);
    CountDiff(b, r, s, 64);
  }

  lemma {:induction false} CountBelowZero(b: Bitboard, n: bv8)
    requires n <= 64
    ensures CountBelow(b, n) == 0 <==> NoneBelow(b, n)
    decreases n
  {
    if n > 0 {
      CountBelowZero(b, n - 1);
    }
  }

  /** The count is zero exactly for the empty set. */
  lemma PopCountZero(b: Bitboard)
    ensures PopCount(b) == 0 <==> b == 0
  {
    CountBelowZero(b, 64);
    NoneBelowEmpty(b);
  }

  lemma {:induction false} CountLowMask(n: bv8, k: bv8)
    requires n <= 64 && k <= 64
    ensures CountBelow(LowMask(n), k) == if k < n then k as int else n as int
    decreases k
  {
    if k > 0 {
      CountLowMask(n, k - 1);
      LowMaskBit(n, k - 1);
    }
  }

  // ---------------------------------------------------------------------
  // Lowest set square
  // ---------------------------------------------------------------------

  /** The lowest square of b below n, or 64 if b has none there. */
  function LowestBelow(b: Bitboard, n: bv8): bv8
    requires n <= 64
    decreases n
  {
    if n == 0 then 64
    else if LowestBelow(b, n - 1) < 64 then LowestBelow(b, n - 1)
    else if Bit(b, n - 1) then n - 1
    else 64
  }

  /** The lowest square of b, or 64 for the empty set. */
  function Lowest(b: Bitboard): bv8
  {
    LowestBelow(b, 64)
  }

  lemma {:induction false} LowestBelowNone(b: Bitboard, n: bv8)
    requires n <= 64
    ensures LowestBelow(b, n) == 64 <==> NoneBelow(b, n)
    decreases n
  {
    if n > 0 {
      LowestBelowNone(b, n - 1);
    }
  }
  lemma {:induction false} LowestBelowRange(b: Bitboard, n: bv8)
    requires n <= 64
    ensures LowestBelow(b, n) < n || LowestBelow(b, n) == 64
    decreases n
  {
    if n > 0 {
      LowestBelowRange(b, n - 1);
    }
  }
  lemma {:induction false} LowestBelowIn(b: Bitboard, n: bv8)
    requires n <= 64
    ensures LowestBelow(b, n) < 64 ==> Bit(b, LowestBelow(b, n))
    decreases n
  {
    if n > 0 {
      LowestBelowIn(b, n - 1);
    }
  }
  lemma {:induction false} LowestBelowFirst(b: Bitboard, n: bv8)
    requires n <= 64
    ensures LowestBelow(b, n) < 64 ==> NoneBelow(b, LowestBelow(b, n))
    decreases n
  {
    if n > 0 {
      LowestBelowFirst(b, n - 1);
      LowestBelowNone(b, n - 1);
    }
  }
  lemma LowestBelowSpec(b: Bitboard, n: bv8)
    requires n <= 64
    ensures LowestBelow(b, n) == 64 <==> NoneBelow(b, n)
    ensures LowestBelow(b, n) < n || LowestBelow(b, n) == 64
    ensures LowestBelow(b, n) < 64 ==> Bit(b, LowestBelow(b, n)) && NoneBelow(b, LowestBelow(b, n))
  {
    LowestBelowNone(b, n);
    LowestBelowRange(b, n);
    LowestBelowIn(b, n);
    LowestBelowFirst(b, n);
  }

  /** Lowest(b) is 64 exactly for the empty set; otherwise it is in b and nothing of b is below it. */
  lemma LowestSpec(b: Bitboard)
    ensures Lowest(b) <= 64
    ensures Lowest(b) == 64 <==> b == 0
    ensures Lowest(b) < 64 ==> Bit(b, Lowest(b))
    ensures NoneBelow(b, Lowest(b))
  {
    LowestBelowSpec(b, 64);
    NoneBelowEmpty(b);
  }

  // ---------------------------------------------------------------------
  // count_bits and get_ls1b_index
  // ---------------------------------------------------------------------

  /** `bitboard & (bitboard - 1)`: Kernighan's step. */
  function ClearLowest(b: Bitboard): Bitboard { b & (b - 1) }

  /** `bitboard & -bitboard`: the lowest set bit on its own. */
  function IsolateLowest(b: Bitboard): Bitboard { b & (0 - b) }

  lemma BorrowMask(b: Bitboard, m: Bitboard)
    requires m & (m - 1) == 0 && b & m != 0 && b & (m - 1) == 0
    ensures b - 1 == (b ^ m) | (m - 1)
  {
  }

  lemma ClearLowestMask(b: Bitboard, m: Bitboard)
    requires m & (m - 1) == 0 && b & m != 0 && b & (m - 1) == 0
    ensures b & (b - 1) == b & !m
  {
    BorrowMask(b, m);
  }

  lemma IsolateLowestMask(b: Bitboard, m: Bitboard)
    requires m & (m - 1) == 0 && b & m != 0 && b & (m - 1) == 0
    ensures b & (0 - b) == m
  {
  }

  lemma SingleOneBit(s: Square)
    ensures Single(s) & (Single(s) - 1) == 0
  {
  }

  lemma LowMaskSingle(b: Bitboard, l: Square)
    requires b & LowMask(l) == 0
    ensures b & (Single(l) - 1) == 0
  {
  }

  lemma ClearLowestAt(b: Bitboard, l: Square)
    requires Bit(b, l) && b & (Single(l) - 1) == 0
    ensures ClearLowest(b) == b & !Single(l)
  {
    SingleOneBit(l);
    ClearLowestMask(b, Single(l));
  }

  lemma IsolateLowestAt(b: Bitboard, l: Square)
    requires Bit(b, l) && b & (Single(l) - 1) == 0
    ensures IsolateLowest(b) == Single(l)
  {
    SingleOneBit(l);
    IsolateLowestMask(b, Single(l));
  }

  /** The two word tricks at a set square with nothing below it. */
  lemma KernighanAt(b: Bitboard, l: Square)
    requires Bit(b, l) && NoneBelow(b, l)
    ensures ClearLowest(b) == b & !Single(l)
    ensures IsolateLowest(b) == Single(l)
  {
    NoneBelowMask(b, l);
    LowMaskSingle(b, l);
    ClearLowestAt(b, l);
    IsolateLowestAt(b, l);
  }

  /** Both tricks act on the lowest set square. */
  lemma KernighanStep(b: Bitboard)
    requires b != 0
    ensures Lowest(b) < 64
    ensures ClearLowest(b) == PopBitClear(b, Lowest(b))
    ensures IsolateLowest(b) == Single(Lowest(b))
  {
    LowestSpec(b);
    KernighanAt(b, Lowest(b));
  }

  /** One round of Kernighan's loop removes exactly one square. */
  lemma ClearLowestCount(b: Bitboard)
    requires b != 0
    ensures PopCount(ClearLowest(b)) == PopCount(b) - 1
  {
    KernighanStep(b);
    LowestSpec(b);
    PopCountClear(b, Lowest(b));
  }

  /** `count_bits`: Kernighan's loop clears one set bit per iteration. */
  method CountBits(bitboard: Bitboard) returns (count: int)
    ensures count == PopCount(bitboard)
    ensures 0 <= count <= 64
  {
    CountBelowBound(bitboard, 64);
    count := 0;
    var b := bitboard;
    while b != 0
      invariant count + PopCount(b) == PopCount(bitboard)
      decreases PopCount(b)
    {
      ClearLowestCount(b);
      count := count + 1;
      b := ClearLowest(b);
    }
    PopCountZero(b);
  }

  /**
   * `get_ls1b_index`: -1 for the empty set, else the number of bits below
   * the isolated lowest bit, which is the index of the lowest square.
   */
  method GetLs1bIndex(bitboard: Bitboard) returns (index: int)
    ensures index == -1 <==> bitboard == 0
    ensures index != -1 ==> 0 <= index < 64 && index == Lowest(bitboard) as int
  {
    LowestSpec(bitboard);
    if bitboard == 0 {
      return -1;
    }
    KernighanStep(bitboard);
    var l := Lowest(bitboard);
    CountLowMask(l, 64);
    index := CountBits(IsolateLowest(bitboard) - 1);
  }
}
