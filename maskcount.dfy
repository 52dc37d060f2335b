/**
 * How many relevant-occupancy squares a slider has.  The tables of the
 * magic lookup give a bishop 512 slots per square and a rook 4096, so
 * each mask may hold at most 9 and 12 squares; this module counts the
 * squares of every mask walk and shows that a bishop mask holds 5 to 9
 * squares and a rook mask 10 to 12.
 */
module MaskCount {
  import opened Bits
  import opened Squares
  import opened Sliders

  // ---------------------------------------------------------------------
  // Counting squares
  // ---------------------------------------------------------------------

  /** The number of squares below n on which p holds. */
  function CountWhere(p: Square -> bool, n: bv8): nat
    requires n <= 64
    decreases n
  {
    if n == 0 then 0 else CountWhere(p, n - 1) + (if p(n - 1) then 1 else 0)
  }

  /** A bitboard's population count counts the squares it holds. */
  lemma {:induction false} CountBelowIsCount(b: Bitboard, p: Square -> bool, n: bv8)
    requires n <= 64 && forall t: Square :: Bit(b, t) == p(t)
    ensures CountBelow(b, n) == CountWhere(p, n)
    decreases n
  {
    if n > 0 {
      CountBelowIsCount(b, p, n - 1);
    }
  }

  /** Counting a disjoint union adds the counts. */
  lemma {:induction false} CountUnion(u: Square -> bool, p: Square -> bool, q: Square -> bool, n: bv8)
    requires n <= 64
    requires forall t: Square :: u(t) == (p(t) || q(t)) && !(p(t) && q(t))
    ensures CountWhere(u, n) == CountWhere(p, n) + CountWhere(q, n)
    decreases n
  {
    if n > 0 {
      CountUnion(u, p, q, n - 1);
    }
  }

  /** Adding one square x that q misses adds one to the count once x is below n. */
  lemma {:induction false} CountAddOne(p: Square -> bool, q: Square -> bool, x: Square, n: bv8)
    requires n <= 64
    requires forall t: Square :: p(t) == (t == x || q(t))
    requires !q(x)
    ensures CountWhere(p, n) == CountWhere(q, n) + (if x < n then 1 else 0)
    decreases n
  {
    if n > 0 {
      CountAddOne(p, q, x, n - 1);
      assert p(n - 1) == (n - 1 == x || q(n - 1));
    }
  }

  /** A predicate that holds nowhere counts nothing. */
  lemma {:induction false} CountNone(p: Square -> bool, n: bv8)
    requires n <= 64 && forall t: Square :: !p(t)
    ensures CountWhere(p, n) == 0
    decreases n
  {
    if n > 0 {
      CountNone(p, n - 1);
    }
  }

  // ---------------------------------------------------------------------
  // The length of a mask walk
  // ---------------------------------------------------------------------

  /** The number of squares a mask walk from (r, f) in direction (dr, df) visits. */
  function MaskLen(r: bv8, f: bv8, dr: bv8, df: bv8): nat
    requires ValidDir(dr, df)
    decreases Remaining(r, f, dr, df)
  {
    if MaskGuard(r, f, dr, df) then 1 + MaskLen(r + dr, f + df, dr, df) else 0
  }

  /** How many inner steps one coordinate allows: 8 (no limit on the board) for a fixed coordinate. */
  function CoordLen(x: bv8, dx: bv8): (n: int)
    ensures 0 <= n <= 8 && (dx != 0 ==> n <= 6)
    ensures n == 0 <==> !(x < 8 && Inner(x, dx))
  {
    if dx == 0 then (if x < 8 then 8 else 0)
    else if !(1 <= x <= 6) then 0
    else if dx == 1 then 7 - x as int
    else x as int
  }

  function Min(a: int, b: int): int
  {
    if a <= b then a else b
  }

  /** A mask walk stops at the first coordinate that leaves the inner squares. */
  lemma {:induction false} MaskLenIs(r: bv8, f: bv8, dr: bv8, df: bv8)
    requires ValidDir(dr, df)
    ensures MaskLen(r, f, dr, df) == Min(CoordLen(r, dr), CoordLen(f, df))
    decreases Remaining(r, f, dr, df)
  {
    if MaskGuard(r, f, dr, df) {
      RemainingDecreases(r, f, dr, df);
      MaskLenIs(r + dr, f + df, dr, df);
      CoordStep(r, dr);
      CoordStep(f, df);
      assert MaskLen(r, f, dr, df) == 1 + MaskLen(r + dr, f + df, dr, df);
    } else {
      assert CoordLen(r, dr) == 0 || CoordLen(f, df) == 0;
    }
  }

  /** One step of an inner coordinate uses up one of its steps. */
  lemma CoordStep(x: bv8, dx: bv8)
    requires Unit(dx) && x < 8 && Inner(x, dx)
    ensures dx != 0 ==> CoordLen(x + dx, dx) == CoordLen(x, dx) - 1
    ensures dx == 0 ==> CoordLen(x + dx, dx) == 8
  {
  }

  /** Where a mask walk goes: its start is on the board and every square it visits lies ahead of the start. */
  predicate Ahead(x: bv8, dx: bv8, y: bv8)
  {
    (dx == 0 ==> y == x) && (dx == 1 ==> y >= x) && (dx == 0xFF ==> y <= x)
  }

  lemma {:induction false} MaskReachesAhead(r: bv8, f: bv8, dr: bv8, df: bv8, t: Square)
    requires ValidDir(dr, df)
    ensures MaskReaches(r, f, dr, df, t) ==> r < 8 && f < 8 && Ahead(r, dr, Rank(t)) && Ahead(f, df, File(t))
    decreases Remaining(r, f, dr, df)
  {
    if MaskGuard(r, f, dr, df) {
      RemainingDecreases(r, f, dr, df);
      MaskReachesAhead(r + dr, f + df, dr, df, t);
      RankFileAt(r, f);
      MaskReachesAt(r, f, dr, df, t);
      if t != At(r, f) && MaskReaches(r, f, dr, df, t) {
        AheadStep(r, dr, Rank(t));
        AheadStep(f, df, File(t));
      }
    }
  }

  /** The squares a mask walk visits, as a predicate. */
  function Walk(r: bv8, f: bv8, dr: bv8, df: bv8): Square -> bool
    requires ValidDir(dr, df)
  {
    (t: Square) => MaskReaches(r, f, dr, df, t)
  }

  /** What lies ahead of the next inner coordinate lies ahead of this one. */
  lemma AheadStep(x: bv8, dx: bv8, y: bv8)
    requires Unit(dx) && x < 8 && Inner(x, dx) && Ahead(x + dx, dx, y)
    ensures Ahead(x, dx, y)
  {
  }

  /** A mask walk visits as many distinct squares as its length. */
  lemma {:induction false} WalkCount(r: bv8, f: bv8, dr: bv8, df: bv8)
    requires ValidDir(dr, df)
    ensures CountWhere(Walk(r, f, dr, df), 64) == MaskLen(r, f, dr, df)
    decreases Remaining(r, f, dr, df)
  {
    if MaskGuard(r, f, dr, df) {
      RemainingDecreases(r, f, dr, df);
      WalkCount(r + dr, f + df, dr, df);
      WalkHead(r, f, dr, df);
      CountAddOne(Walk(r, f, dr, df), Walk(r + dr, f + df, dr, df), At(r, f), 64);
    } else {
      CountNone(Walk(r, f, dr, df), 64);
    }
  }

  /** A walk never returns to the square it started from. */
  lemma NoWayBack(r: bv8, f: bv8, dr: bv8, df: bv8)
    requires ValidDir(dr, df) && MaskGuard(r, f, dr, df)
    ensures !MaskReaches(r + dr, f + df, dr, df, At(r, f))
  {
    RankFileAt(r, f);
    MaskReachesAhead(r + dr, f + df, dr, df, At(r, f));
    if dr == 0 {
      assert Ahead(f + df, df, f) ==> false;
    } else {
      assert Ahead(r + dr, dr, r) ==> false;
    }
  }

  /** A walk that passes its test visits its square, then the walk from the next one, which never comes back. */
  lemma WalkHead(r: bv8, f: bv8, dr: bv8, df: bv8)
    requires ValidDir(dr, df) && MaskGuard(r, f, dr, df)
    ensures forall t: Square :: Walk(r, f, dr, df)(t) == (t == At(r, f) || Walk(r + dr, f + df, dr, df)(t))
    ensures !Walk(r + dr, f + df, dr, df)(At(r, f))
  {
    WalkSplits(r, f, dr, df);
    NoWayBack(r, f, dr, df);
    WalkAt(r + dr, f + df, dr, df, At(r, f));
  }

  lemma WalkSplits(r: bv8, f: bv8, dr: bv8, df: bv8)
    requires ValidDir(dr, df) && MaskGuard(r, f, dr, df)
    ensures forall t: Square :: Walk(r, f, dr, df)(t) == (t == At(r, f) || Walk(r + dr, f + df, dr, df)(t))
  {
    forall t: Square
      ensures Walk(r, f, dr, df)(t) == (t == At(r, f) || Walk(r + dr, f + df, dr, df)(t))
    {
      WalkAt(r, f, dr, df, t);
      WalkAt(r + dr, f + df, dr, df, t);
      MaskReachesAt(r, f, dr, df, t);
    }
  }

  /** A walk, applied to a square, is the mask walk predicate. */
  lemma WalkAt(r: bv8, f: bv8, dr: bv8, df: bv8, t: Square)
    requires ValidDir(dr, df)
    ensures Walk(r, f, dr, df)(t) == MaskReaches(r, f, dr, df, t)
  {
  }

  // ---------------------------------------------------------------------
  // The masks
  // ---------------------------------------------------------------------

  /** The squares the mask ray of s in direction (dr, df) visits. */
  function Ray(s: Square, dr: bv8, df: bv8): Square -> bool
    requires ValidDir(dr, df)
  {
    Walk(Rank(s) + dr, File(s) + df, dr, df)
  }

  /** The relevant squares of the slider kind chosen by bishop, as a predicate. */
  function MaskSet(bishop: bool, s: Square): Square -> bool
  {
    (t: Square) => if bishop then BishopMask(s, t) else RookMask(s, t)
  }

  /** The squares a mask ray of s visits number as its walk length. */
  lemma RayCount(s: Square, dr: bv8, df: bv8)
    requires ValidDir(dr, df)
    ensures CountWhere(Ray(s, dr, df), 64) == Min(CoordLen(Rank(s) + dr, dr), CoordLen(File(s) + df, df))
  {
    WalkCount(Rank(s) + dr, File(s) + df, dr, df);
    MaskLenIs(Rank(s) + dr, File(s) + df, dr, df);
  }

  /** Where a ray of a slider on s goes, relative to s. */
  lemma RaySide(s: Square, dr: bv8, df: bv8, t: Square)
    requires ValidDir(dr, df)
    ensures Ray(s, dr, df)(t) ==>
      (dr == 0 ==> Rank(t) == Rank(s)) && (dr == 1 ==> Rank(t) > Rank(s)) && (dr == 0xFF ==> Rank(t) < Rank(s)) &&
      (df == 0 ==> File(t) == File(s)) && (df == 1 ==> File(t) > File(s)) && (df == 0xFF ==> File(t) < File(s))
  {
    if Ray(s, dr, df)(t) {
      assert MaskReaches(Rank(s) + dr, File(s) + df, dr, df, t);
      MaskReachesAhead(Rank(s) + dr, File(s) + df, dr, df, t);
      Beyond(Rank(s), dr, Rank(t));
      Beyond(File(s), df, File(t));
    }
  }

  /** A coordinate ahead of the first step from x lies beyond x. */
  lemma Beyond(x: bv8, dx: bv8, y: bv8)
    requires Unit(dx) && x < 8 && x + dx < 8 && Ahead(x + dx, dx, y)
    ensures (dx == 0 ==> y == x) && (dx == 1 ==> y > x) && (dx == 0xFF ==> y < x)
  {
  }

  /** mask holds exactly where one of a, b, c, d holds. */
  ghost predicate Union4(mask: Square -> bool, a: Square -> bool, b: Square -> bool, c: Square -> bool, d: Square -> bool)
  {
    forall t: Square :: mask(t) == (a(t) || b(t) || c(t) || d(t))
  }

  /** No two of a, b, c, d hold on the same square. */
  ghost predicate Apart4(a: Square -> bool, b: Square -> bool, c: Square -> bool, d: Square -> bool)
  {
    forall t: Square :: !(a(t) && b(t)) && !(a(t) && c(t)) && !(a(t) && d(t)) &&
      !(b(t) && c(t)) && !(b(t) && d(t)) && !(c(t) && d(t))
  }

  /** The count of a mask made of four disjoint rays. */
  lemma FourRays(mask: Square -> bool, a: Square -> bool, b: Square -> bool, c: Square -> bool, d: Square -> bool)
    requires Union4(mask, a, b, c, d) && Apart4(a, b, c, d)
    ensures CountWhere(mask, 64) == CountWhere(a, 64) + CountWhere(b, 64) + CountWhere(c, 64) + CountWhere(d, 64)
  {
    var ab := (t: Square) => a(t) || b(t);
    var abc := (t: Square) => a(t) || b(t) || c(t);
    CountUnion(ab, a, b, 64);
    CountUnion(abc, ab, c, 64);
    CountUnion(mask, abc, d, 64);
  }

  /** A ray, applied to a square, is the mask walk predicate. */
  lemma RayAt(s: Square, dr: bv8, df: bv8, t: Square)
    requires ValidDir(dr, df)
    ensures Ray(s, dr, df)(t) == MaskRayReaches(s, dr, df, t)
  {
  }

  /** A bishop mask is its four diagonal rays. */
  lemma BishopUnion(s: Square)
    ensures Union4(MaskSet(true, s), Ray(s, 1, 1), Ray(s, 1, 0xFF), Ray(s, 0xFF, 1), Ray(s, 0xFF, 0xFF))
  {
    forall t: Square
      ensures MaskSet(true, s)(t) == (Ray(s, 1, 1)(t) || Ray(s, 1, 0xFF)(t) || Ray(s, 0xFF, 1)(t) || Ray(s, 0xFF, 0xFF)(t))
    {
      assert MaskSet(true, s)(t) == BishopMask(s, t);
      RayAt(s, 1, 1, t);
      RayAt(s, 1, 0xFF, t);
      RayAt(s, 0xFF, 1, t);
      RayAt(s, 0xFF, 0xFF, t);
    }
  }

  /** The four rays of a bishop share no square. */
  lemma BishopApart(s: Square)
    ensures Apart4(Ray(s, 1, 1), Ray(s, 1, 0xFF), Ray(s, 0xFF, 1), Ray(s, 0xFF, 0xFF))
  {
    forall t: Square
      ensures !(Ray(s, 1, 1)(t) && Ray(s, 1, 0xFF)(t)) && !(Ray(s, 1, 1)(t) && Ray(s, 0xFF, 1)(t))
      ensures !(Ray(s, 1, 1)(t) && Ray(s, 0xFF, 0xFF)(t)) && !(Ray(s, 1, 0xFF)(t) && Ray(s, 0xFF, 1)(t))
      ensures !(Ray(s, 1, 0xFF)(t) && Ray(s, 0xFF, 0xFF)(t)) && !(Ray(s, 0xFF, 1)(t) && Ray(s, 0xFF, 0xFF)(t))
    {
      RaySide(s, 1, 1, t);
      RaySide(s, 1, 0xFF, t);
      RaySide(s, 0xFF, 1, t);
      RaySide(s, 0xFF, 0xFF, t);
    }
  }

  /** A rook mask is its four orthogonal rays. */
  lemma RookUnion(s: Square)
    ensures Union4(MaskSet(false, s), Ray(s, 1, 0), Ray(s, 0xFF, 0), Ray(s, 0, 1), Ray(s, 0, 0xFF))
  {
    forall t: Square
      ensures MaskSet(false, s)(t) == (Ray(s, 1, 0)(t) || Ray(s, 0xFF, 0)(t) || Ray(s, 0, 1)(t) || Ray(s, 0, 0xFF)(t))
    {
      assert MaskSet(false, s)(t) == RookMask(s, t);
      RayAt(s, 1, 0, t);
      RayAt(s, 0xFF, 0, t);
      RayAt(s, 0, 1, t);
      RayAt(s, 0, 0xFF, t);
    }
  }

  /** The four rays of a rook share no square. */
  lemma RookApart(s: Square)
    ensures Apart4(Ray(s, 1, 0), Ray(s, 0xFF, 0), Ray(s, 0, 1), Ray(s, 0, 0xFF))
  {
    forall t: Square
      ensures !(Ray(s, 1, 0)(t) && Ray(s, 0xFF, 0)(t)) && !(Ray(s, 1, 0)(t) && Ray(s, 0, 1)(t))
      ensures !(Ray(s, 1, 0)(t) && Ray(s, 0, 0xFF)(t)) && !(Ray(s, 0xFF, 0)(t) && Ray(s, 0, 1)(t))
      ensures !(Ray(s, 0xFF, 0)(t) && Ray(s, 0, 0xFF)(t)) && !(Ray(s, 0, 1)(t) && Ray(s, 0, 0xFF)(t))
    {
      RaySide(s, 1, 0, t);
      RaySide(s, 0xFF, 0, t);
      RaySide(s, 0, 1, t);
      RaySide(s, 0, 0xFF, t);
    }
  }

  /** The inner squares above coordinate x (towards 7), and below it (towards 0). */
  function Up(x: int): int { if x <= 5 then 6 - x else 0 }

  function Down(x: int): int { if x >= 2 then x - 1 else 0 }

  /** The steps a walk from coordinate x in direction dx has before that coordinate leaves the inner squares. */
  function Side(x: int, dx: bv8): int
  {
    if dx == 0 then 8 else if dx == 1 then Up(x) else Down(x)
  }

  /** From coordinate x the inner steps upwards and downwards; a fixed coordinate never stops a walk. */
  lemma SidesOf(x: bv8, dx: bv8)
    requires x < 8 && Unit(dx)
    ensures CoordLen(x + dx, dx) == Side(x as int, dx)
  {
  }

  /** The squares of a ray of s, counted from the rank and file of s. */
  lemma RayLen(s: Square, dr: bv8, df: bv8)
    requires ValidDir(dr, df)
    ensures CountWhere(Ray(s, dr, df), 64) == Min(Side(Rank(s) as int, dr), Side(File(s) as int, df))
  {
    RayCount(s, dr, df);
    SidesOf(Rank(s), dr);
    SidesOf(File(s), df);
  }

  /** A bishop on s has 5 to 9 relevant squares. */
  lemma BishopMaskCount(s: Square)
    ensures 5 <= CountWhere(MaskSet(true, s), 64) <= 9
  {
    BishopUnion(s);
    BishopApart(s);
    FourRays(MaskSet(true, s), Ray(s, 1, 1), Ray(s, 1, 0xFF), Ray(s, 0xFF, 1), Ray(s, 0xFF, 0xFF));
    RayLen(s, 1, 1);
    RayLen(s, 1, 0xFF);
    RayLen(s, 0xFF, 1);
    RayLen(s, 0xFF, 0xFF);
    DiagonalSum(Rank(s) as int, File(s) as int);
  }

  /** The four diagonal walk lengths from rank r and file f add up to 5..9. */
  lemma DiagonalSum(r: int, f: int)
    requires 0 <= r < 8 && 0 <= f < 8
    ensures 5 <= Min(Side(r, 1), Side(f, 1)) + Min(Side(r, 1), Side(f, 0xFF)) +
                 Min(Side(r, 0xFF), Side(f, 1)) + Min(Side(r, 0xFF), Side(f, 0xFF)) <= 9
  {
  }

  /** The four straight walk lengths from rank r and file f add up to 10..12. */
  lemma StraightSum(r: int, f: int)
    requires 0 <= r < 8 && 0 <= f < 8
    ensures 10 <= Min(Side(r, 1), Side(f, 0)) + Min(Side(r, 0xFF), Side(f, 0)) +
                  Min(Side(r, 0), Side(f, 1)) + Min(Side(r, 0), Side(f, 0xFF)) <= 12
  {
  }

  /** A rook on s has 10 to 12 relevant squares. */
  lemma RookMaskCount(s: Square)
    ensures 10 <= CountWhere(MaskSet(false, s), 64) <= 12
  {
    RookUnion(s);
    RookApart(s);
    FourRays(MaskSet(false, s), Ray(s, 1, 0), Ray(s, 0xFF, 0), Ray(s, 0, 1), Ray(s, 0, 0xFF));
    RayLen(s, 1, 0);
    RayLen(s, 0xFF, 0);
    RayLen(s, 0, 1);
    RayLen(s, 0, 0xFF);
    StraightSum(Rank(s) as int, File(s) as int);
  }

  /** Any bitboard holding exactly the relevant squares of a slider counts 5..9 for a bishop and 10..12 for a rook. */
  lemma MaskPopCount(bishop: bool, s: Square, m: Bitboard)
    requires forall t: Square :: Bit(m, t) <==> (if bishop then BishopMask(s, t) else RookMask(s, t))
    ensures bishop ==> 5 <= PopCount(m) <= 9
    ensures !bishop ==> 10 <= PopCount(m) <= 12
  {
    forall t: Square
      ensures Bit(m, t) == MaskSet(bishop, s)(t)
    {
    }
    CountBelowIsCount(m, MaskSet(bishop, s), 64);
    if bishop {
      BishopMaskCount(s);
    } else {
      RookMaskCount(s);
    }
  }
}
