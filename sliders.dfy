/**
 * The sliding pieces: ray walks, relevant-occupancy masks, occupancy
 * variants and magic lookup.
 *
 * A ray starts next to its square and steps one rank and/or one file at a
 * time.  Rank and file counters are bytes, so the C test `r >= 0` on a
 * counter that has stepped below zero is the byte test `r < 8`.
 */
module Sliders {
  import opened Bits
  import opened Squares

  /**
   * A direction is a rank step dr and a file step df, each 0, 1 or 0xFF
   * (minus one), not both 0.
   */
  predicate Unit(x: bv8)
  {
    x == 0 || x == 1 || x == 0xFF
  }

  predicate ValidDir(dr: bv8, df: bv8)
  {
    Unit(dr) && Unit(df) && (dr != 0 || df != 0)
  }

  /** The square at rank index r and file index f. */
  function At(r: bv8, f: bv8): Square
    requires r < 8 && f < 8
  {
    r * 8 + f
  }

  /** How many more squares a walk from (r, f) in direction d can visit. */
  function Remaining(r: bv8, f: bv8, dr: bv8, df: bv8): bv8
    requires ValidDir(dr, df)
  {
    if r >= 8 || f >= 8 then 0
    else if dr == 1 then 8 - r
    else if dr == 0xFF then r + 1
    else if df == 1 then 8 - f
    else f + 1
  }

  /** The squares from (r, f) to the board edge in direction d, on an empty board. */
  function Line(r: bv8, f: bv8, dr: bv8, df: bv8): seq<Square>
    requires ValidDir(dr, df)
    decreases Remaining(r, f, dr, df)
  {
    if r >= 8 || f >= 8 then []
    else [At(r, f)] + Line(r + dr, f + df, dr, df)
  }

  /** A line cut after its first blocked square. */
  function Reach(line: seq<Square>, block: Bitboard): seq<Square>
  {
    if line == [] then []
    else if Bit(block, line[0]) then [line[0]]
    else [line[0]] + Reach(line[1..], block)
  }

  lemma RemainingDecreases(r: bv8, f: bv8, dr: bv8, df: bv8)
    requires ValidDir(dr, df) && r < 8 && f < 8
    ensures Remaining(r + dr, f + df, dr, df) < Remaining(r, f, dr, df)
  {
  }

  lemma ReachStep(sq: Square, rest: seq<Square>, block: Bitboard)
    ensures Reach([sq] + rest, block) == if Bit(block, sq) then [sq] else [sq] + Reach(rest, block)
  {
    assert ([sq] + rest)[1..] == rest;
  }

  /** `attacks |= 1ULL << sq`. */
  function AddSquare(attacks: Bitboard, sq: Square): (r: Bitboard)
    ensures forall t: Square :: Bit(r, t) <==> t == sq || Bit(attacks, t)
  {
    SetBit(attacks, sq)
  }

  /**
   * t is reached by a walk from (r, f) in direction (dr, df) that stops
   * after the first square in block.
   */
  predicate Reaches(r: bv8, f: bv8, dr: bv8, df: bv8, block: Bitboard, t: Square)
    requires ValidDir(dr, df)
    decreases Remaining(r, f, dr, df)
  {
    r < 8 && f < 8 &&
    (t == At(r, f) || (!Bit(block, At(r, f)) && Reaches(r + dr, f + df, dr, df, block, t)))
  }

  /** t lies on the ray of s in direction (dr, df), up to and including the first square in block. */
  predicate RayReaches(s: Square, dr: bv8, df: bv8, block: Bitboard, t: Square)
    requires ValidDir(dr, df)
  {
    Reaches(Rank(s) + dr, File(s) + df, dr, df, block, t)
  }

  /** The word a is the word a0 with the walk of s in direction (dr, df) added. */
  ghost predicate Covers(a: Bitboard, a0: Bitboard, r0: bv8, f0: bv8, dr: bv8, df: bv8, block: Bitboard)
    requires ValidDir(dr, df)
  {
    forall t: Square :: Bit(a, t) <==> Bit(a0, t) || Reaches(r0, f0, dr, df, block, t)
  }

  /**
   * The walk of s adds to attacks0 what the word attacks and the rest of
   * the walk from (r, f) add together.
   */
  ghost predicate WalkInv(attacks0: Bitboard, r0: bv8, f0: bv8, attacks: Bitboard, r: bv8, f: bv8, dr: bv8, df: bv8,
                          block: Bitboard)
    requires ValidDir(dr, df)
  {
    forall t: Square :: Bit(attacks, t) || Reaches(r, f, dr, df, block, t) <==>
                        Bit(attacks0, t) || Reaches(r0, f0, dr, df, block, t)
  }

  /**
   * The body of a ray loop: `attacks |= 1ULL << (r * 8 + f)`, then the test
   * of that square against block.
   */
  method RayStep(attacks: Bitboard, r: bv8, f: bv8, dr: bv8, df: bv8, block: Bitboard,
                 ghost attacks0: Bitboard, ghost r0: bv8, ghost f0: bv8)
    returns (a: Bitboard, hit: bool)
    requires ValidDir(dr, df) && r < 8 && f < 8
    requires WalkInv(attacks0, r0, f0, attacks, r, f, dr, df, block)
    ensures hit == Bit(block, At(r, f))
    ensures hit ==> Covers(a, attacks0, r0, f0, dr, df, block)
    ensures !hit ==> WalkInv(attacks0, r0, f0, a, r + dr, f + df, dr, df, block)
    ensures Remaining(r + dr, f + df, dr, df) < Remaining(r, f, dr, df)
  {
    var sq := At(r, f);
    a := AddSquare(attacks, sq);
    hit := Bit(block, sq);
    RemainingDecreases(r, f, dr, df);
    StepInv(attacks0, r0, f0, attacks, a, sq, hit, r, f, dr, df, block);
  }

  lemma ReachesUnfold(r: bv8, f: bv8, dr: bv8, df: bv8, block: Bitboard)
    requires ValidDir(dr, df) && r < 8 && f < 8
    ensures forall t: Square :: Reaches(r, f, dr, df, block, t) <==>
      t == At(r, f) || (!Bit(block, At(r, f)) && Reaches(r + dr, f + df, dr, df, block, t))
  {
  }

  /** The invariant of a ray loop survives one iteration. */
  lemma StepInv(attacks0: Bitboard, r0: bv8, f0: bv8, attacks: Bitboard, a: Bitboard, sq: Square, hit: bool,
                r: bv8, f: bv8, dr: bv8, df: bv8, block: Bitboard)
    requires ValidDir(dr, df) && r < 8 && f < 8
    requires WalkInv(attacks0, r0, f0, attacks, r, f, dr, df, block)
    requires sq == At(r, f) && a == AddSquare(attacks, sq) && hit == Bit(block, sq)
    ensures hit ==> Covers(a, attacks0, r0, f0, dr, df, block)
    ensures !hit ==> WalkInv(attacks0, r0, f0, a, r + dr, f + df, dr, df, block)
  {
    ReachesUnfold(r, f, dr, df, block);
  }

  /**
   * One ray loop of `get_bishop_attacks` / `get_rook_attacks`: add each
   * square in direction (dr, df), and stop after the first one in block.
   */
  method WalkRay(s: Square, dr: bv8, df: bv8, block: Bitboard, attacks0: Bitboard) returns (attacks: Bitboard)
    requires ValidDir(dr, df)
    ensures Covers(attacks, attacks0, Rank(s) + dr, File(s) + df, dr, df, block)
  {
    var r, f := Rank(s) + dr, File(s) + df;
    ghost var r0, f0 := r, f;
    attacks := attacks0;
    while r < 8 && f < 8
      invariant WalkInv(attacks0, r0, f0, attacks, r, f, dr, df, block)
      decreases Remaining(r, f, dr, df)
    {
      var hit;
      attacks, hit := RayStep(attacks, r, f, dr, df, block, attacks0, r0, f0);
      if hit {
        return;
      }
      r, f := r + dr, f + df;
    }
    WalkEnd(attacks0, r0, f0, attacks, r, f, dr, df, block);
  }

  /** Off the board the walk adds nothing more. */
  lemma WalkEnd(attacks0: Bitboard, r0: bv8, f0: bv8, attacks: Bitboard, r: bv8, f: bv8, dr: bv8, df: bv8,
                block: Bitboard)
    requires ValidDir(dr, df) && !(r < 8 && f < 8)
    requires WalkInv(attacks0, r0, f0, attacks, r, f, dr, df, block)
    ensures Covers(attacks, attacks0, r0, f0, dr, df, block)
  {
  }

  /** A bishop on s attacks t through the blockers in block. */
  predicate BishopAttack(s: Square, block: Bitboard, t: Square)
  {
    RayReaches(s, 1, 1, block, t) || RayReaches(s, 0xFF, 1, block, t) ||
    RayReaches(s, 1, 0xFF, block, t) || RayReaches(s, 0xFF, 0xFF, block, t)
  }

  /** A rook on s attacks t through the blockers in block. */
  predicate RookAttack(s: Square, block: Bitboard, t: Square)
  {
    RayReaches(s, 1, 0, block, t) || RayReaches(s, 0xFF, 0, block, t) ||
    RayReaches(s, 0, 1, block, t) || RayReaches(s, 0, 0xFF, block, t)
  }

  /** `get_bishop_attacks`: the four diagonal walks in source order. */
  method GetBishopAttacks(s: Square, block: Bitboard) returns (attacks: Bitboard)
    ensures forall t: Square :: Bit(attacks, t) <==> BishopAttack(s, block, t)
  {
    var a0: Bitboard := 0;
    var a1 := WalkRay(s, 1, 1, block, a0);
    var a2 := WalkRay(s, 0xFF, 1, block, a1);
    var a3 := WalkRay(s, 1, 0xFF, block, a2);
    attacks := WalkRay(s, 0xFF, 0xFF, block, a3);
    BishopCombine(s, block, a0, a1, a2, a3, attacks);
  }

  lemma BishopCombineAt(s: Square, block: Bitboard, a0: Bitboard, a1: Bitboard, a2: Bitboard, a3: Bitboard,
                    a4: Bitboard, t: Square)
    requires a0 == 0
    requires Bit(a1, t) <==> Bit(a0, t) || Reaches(Rank(s) + 1, File(s) + 1, 1, 1, block, t)
    requires Bit(a2, t) <==> Bit(a1, t) || Reaches(Rank(s) + 0xFF, File(s) + 1, 0xFF, 1, block, t)
    requires Bit(a3, t) <==> Bit(a2, t) || Reaches(Rank(s) + 1, File(s) + 0xFF, 1, 0xFF, block, t)
    requires Bit(a4, t) <==> Bit(a3, t) || Reaches(Rank(s) + 0xFF, File(s) + 0xFF, 0xFF, 0xFF, block, t)
    ensures Bit(a4, t) <==> BishopAttack(s, block, t)
  {
    NotBit(0, t);
  }

  lemma BishopCombine(s: Square, block: Bitboard, a0: Bitboard, a1: Bitboard, a2: Bitboard, a3: Bitboard,
                      a4: Bitboard)
    requires a0 == 0
    requires Covers(a1, a0, Rank(s) + 1, File(s) + 1, 1, 1, block) && Covers(a2, a1, Rank(s) + 0xFF, File(s) + 1, 0xFF, 1, block)
    requires Covers(a3, a2, Rank(s) + 1, File(s) + 0xFF, 1, 0xFF, block) && Covers(a4, a3, Rank(s) + 0xFF, File(s) + 0xFF, 0xFF, 0xFF, block)
    ensures forall t: Square :: Bit(a4, t) <==> BishopAttack(s, block, t)
  {
    forall t: Square ensures Bit(a4, t) <==> BishopAttack(s, block, t) {
      BishopCombineAt(s, block, a0, a1, a2, a3, a4, t);
    }
  }

  /** `get_rook_attacks`: the four straight walks in source order. */
  method GetRookAttacks(s: Square, block: Bitboard) returns (attacks: Bitboard)
    ensures forall t: Square :: Bit(attacks, t) <==> RookAttack(s, block, t)
  {
    var a0: Bitboard := 0;
    var a1 := WalkRay(s, 1, 0, block, a0);
    var a2 := WalkRay(s, 0xFF, 0, block, a1);
    var a3 := WalkRay(s, 0, 1, block, a2);
    attacks := WalkRay(s, 0, 0xFF, block, a3);
    RookCombine(s, block, a0, a1, a2, a3, attacks);
  }

  lemma RookCombineAt(s: Square, block: Bitboard, a0: Bitboard, a1: Bitboard, a2: Bitboard, a3: Bitboard,
                    a4: Bitboard, t: Square)
    requires a0 == 0
    requires Bit(a1, t) <==> Bit(a0, t) || Reaches(Rank(s) + 1, File(s) + 0, 1, 0, block, t)
    requires Bit(a2, t) <==> Bit(a1, t) || Reaches(Rank(s) + 0xFF, File(s) + 0, 0xFF, 0, block, t)
    requires Bit(a3, t) <==> Bit(a2, t) || Reaches(Rank(s) + 0, File(s) + 1, 0, 1, block, t)
    requires Bit(a4, t) <==> Bit(a3, t) || Reaches(Rank(s) + 0, File(s) + 0xFF, 0, 0xFF, block, t)
    ensures Bit(a4, t) <==> RookAttack(s, block, t)
  {
    NotBit(0, t);
  }

  lemma RookCombine(s: Square, block: Bitboard, a0: Bitboard, a1: Bitboard, a2: Bitboard, a3: Bitboard,
                    a4: Bitboard)
    requires a0 == 0
    requires Covers(a1, a0, Rank(s) + 1, File(s) + 0, 1, 0, block) && Covers(a2, a1, Rank(s) + 0xFF, File(s) + 0, 0xFF, 0, block)
    requires Covers(a3, a2, Rank(s) + 0, File(s) + 1, 0, 1, block) && Covers(a4, a3, Rank(s) + 0, File(s) + 0xFF, 0, 0xFF, block)
    ensures forall t: Square :: Bit(a4, t) <==> RookAttack(s, block, t)
  {
    forall t: Square ensures Bit(a4, t) <==> RookAttack(s, block, t) {
      RookCombineAt(s, block, a0, a1, a2, a3, a4, t);
    }
  }

  /** `get_queen_attacks`: the union of the bishop and rook attacks. */
  method GetQueenAttacks(s: Square, block: Bitboard) returns (attacks: Bitboard)
    ensures forall t: Square :: Bit(attacks, t) <==> BishopAttack(s, block, t) || RookAttack(s, block, t)
  {
    var b := GetBishopAttacks(s, block);
    var r := GetRookAttacks(s, block);
    attacks := b | r;
    forall t: Square ensures Bit(attacks, t) <==> BishopAttack(s, block, t) || RookAttack(s, block, t) {
      OrBit(b, r, t);
    }
  }

  /**
   * The walk predicate is membership in the line cut after its first
   * blocker: every square up to and including the first blocked one, and
   * nothing beyond.
   */
  lemma {:induction false} ReachesLine(r: bv8, f: bv8, dr: bv8, df: bv8, block: Bitboard, t: Square)
    requires ValidDir(dr, df)
    ensures Reaches(r, f, dr, df, block, t) <==> t in Reach(Line(r, f, dr, df), block)
    decreases Remaining(r, f, dr, df)
  {
    if r < 8 && f < 8 {
      RemainingDecreases(r, f, dr, df);
      ReachesLine(r + dr, f + df, dr, df, block, t);
      ReachStep(At(r, f), Line(r + dr, f + df, dr, df), block);
    }
  }

  /** The cut line is a prefix of the line. */
  lemma {:induction false} ReachPrefix(line: seq<Square>, block: Bitboard)
    ensures Reach(line, block) <= line
  {
    if line != [] && !Bit(block, line[0]) {
      ReachPrefix(line[1..], block);
    }
  }

  /** Every square of the cut line before its last one is free. */
  lemma {:induction false} ReachFree(line: seq<Square>, block: Bitboard, i: int)
    requires 0 <= i < |Reach(line, block)| - 1
    ensures !Bit(block, Reach(line, block)[i])
  {
    if i > 0 {
      ReachFree(line[1..], block, i - 1);
    }
  }

  /** The cut line stops before the edge only at a blocked square. */
  lemma {:induction false} ReachStops(line: seq<Square>, block: Bitboard)
    ensures var cut := Reach(line, block);
      |cut| < |line| ==> |cut| > 0 && Bit(block, cut[|cut| - 1])
  {
    if line != [] && !Bit(block, line[0]) {
      ReachStops(line[1..], block);
    }
  }

  /** Distinct coordinates name distinct squares. */
  lemma AtInjective(r: bv8, f: bv8, r0: bv8, f0: bv8)
    requires r < 8 && f < 8 && r0 < 8 && f0 < 8
    ensures At(r, f) == At(r0, f0) ==> r == r0 && f == f0
  {
  }

  /** The square s has coordinates (Rank(s), File(s)). */
  lemma AtRankFile(s: Square)
    ensures At(Rank(s), File(s)) == s
  {
  }

  /** Coordinate x lies strictly ahead of x0 along step dx (or level with it for a zero step). */
  predicate Ahead(x: bv8, x0: bv8, dx: bv8)
  {
    (dx == 0 && x == x0) || (dx == 1 && x0 < x) || (dx == 0xFF && x < x0)
  }

  /** A walk that starts ahead of (r0, f0) never comes back to it. */
  lemma {:induction false} WalkAhead(r: bv8, f: bv8, dr: bv8, df: bv8, block: Bitboard, r0: bv8, f0: bv8,
                                     t: Square)
    requires ValidDir(dr, df) && r0 < 8 && f0 < 8 && t == At(r0, f0)
    requires r < 8 && f < 8 ==> Ahead(r, r0, dr) && Ahead(f, f0, df)
    ensures !Reaches(r, f, dr, df, block, t)
    decreases Remaining(r, f, dr, df)
  {
    if r < 8 && f < 8 {
      AheadDiffers(r, f, dr, df, r0, f0);
      AheadNext(r, r0, dr);
      AheadNext(f, f0, df);
      RemainingDecreases(r, f, dr, df);
      WalkAhead(r + dr, f + df, dr, df, block, r0, f0, t);
      ReachesAt(r, f, dr, df, block, t);
    }
  }

  lemma ReachesAt(r: bv8, f: bv8, dr: bv8, df: bv8, block: Bitboard, t: Square)
    requires ValidDir(dr, df) && r < 8 && f < 8
    ensures Reaches(r, f, dr, df, block, t) <==>
      t == At(r, f) || (!Bit(block, At(r, f)) && Reaches(r + dr, f + df, dr, df, block, t))
  {
  }

  lemma AheadNext(x: bv8, x0: bv8, dx: bv8)
    requires x < 8 && Ahead(x, x0, dx)
    ensures x + dx < 8 ==> Ahead(x + dx, x0, dx)
  {
  }

  lemma AheadDiffers(r: bv8, f: bv8, dr: bv8, df: bv8, r0: bv8, f0: bv8)
    requires ValidDir(dr, df) && r < 8 && f < 8 && r0 < 8 && f0 < 8
    requires Ahead(r, r0, dr) && Ahead(f, f0, df)
    ensures At(r, f) != At(r0, f0)
  {
    AtInjective(r, f, r0, f0);
  }

  /** No ray contains its own origin. */
  lemma RayExcludesOrigin(s: Square, dr: bv8, df: bv8, block: Bitboard)
    requires ValidDir(dr, df)
    ensures !RayReaches(s, dr, df, block, s)
  {
    AtRankFile(s);
    WalkAhead(Rank(s) + dr, File(s) + df, dr, df, block, Rank(s), File(s), s);
  }

  /** Bishop, rook and queen attacks never include the attacker's own square. */
  lemma SliderExcludesOrigin(s: Square, block: Bitboard)
    ensures !BishopAttack(s, block, s) && !RookAttack(s, block, s)
  {
    RayExcludesOrigin(s, 1, 1, block);
    RayExcludesOrigin(s, 0xFF, 1, block);
    RayExcludesOrigin(s, 1, 0xFF, block);
    RayExcludesOrigin(s, 0xFF, 0xFF, block);
    RayExcludesOrigin(s, 1, 0, block);
    RayExcludesOrigin(s, 0xFF, 0, block);
    RayExcludesOrigin(s, 0, 1, block);
    RayExcludesOrigin(s, 0, 0xFF, block);
  }

  // ---------------------------------------------------------------------
  // Relevant-occupancy masks
  // ---------------------------------------------------------------------

  /**
   * The loop test of the mask builders on one coordinate: `r < 7` on a
   * rising counter and `r > 0` on a falling one.  A counter that starts at
   * 1 .. 8 and rises, or at -1 .. 6 and falls, passes these tests exactly
   * when it lies in 1 .. 6; a fixed coordinate (step 0) is not tested.
   */
  predicate Inner(x: bv8, dx: bv8)
  {
    dx == 0 || (0 < x && x < 7)
  }

  /** The full loop test of a mask walk at (r, f). */
  predicate MaskGuard(r: bv8, f: bv8, dr: bv8, df: bv8)
  {
    r < 8 && f < 8 && Inner(r, dr) && Inner(f, df)
  }

  /** t is visited by a mask walk from (r, f) in direction (dr, df). */
  predicate MaskReaches(r: bv8, f: bv8, dr: bv8, df: bv8, t: Square)
    requires ValidDir(dr, df)
    decreases Remaining(r, f, dr, df)
  {
    MaskGuard(r, f, dr, df) && (t == At(r, f) || MaskReaches(r + dr, f + df, dr, df, t))
  }

  predicate MaskRayReaches(s: Square, dr: bv8, df: bv8, t: Square)
    requires ValidDir(dr, df)
  {
    MaskReaches(Rank(s) + dr, File(s) + df, dr, df, t)
  }

  /** The word a is a0 with the mask walk of s in direction (dr, df) added. */
  ghost predicate MaskCovers(a: Bitboard, a0: Bitboard, r0: bv8, f0: bv8, dr: bv8, df: bv8)
    requires ValidDir(dr, df)
  {
    forall t: Square :: Bit(a, t) <==> Bit(a0, t) || MaskReaches(r0, f0, dr, df, t)
  }

  ghost predicate MaskInv(a0: Bitboard, r0: bv8, f0: bv8, a: Bitboard, r: bv8, f: bv8, dr: bv8, df: bv8)
    requires ValidDir(dr, df)
  {
    forall t: Square :: Bit(a, t) || MaskReaches(r, f, dr, df, t) <==> Bit(a0, t) || MaskReaches(r0, f0, dr, df, t)
  }

  lemma MaskReachesAt(r: bv8, f: bv8, dr: bv8, df: bv8, t: Square)
    requires ValidDir(dr, df) && MaskGuard(r, f, dr, df)
    ensures MaskReaches(r, f, dr, df, t) <==> t == At(r, f) || MaskReaches(r + dr, f + df, dr, df, t)
  {
  }

  lemma MaskStepInv(a0: Bitboard, r0: bv8, f0: bv8, attacks: Bitboard, a: Bitboard, sq: Square,
                    r: bv8, f: bv8, dr: bv8, df: bv8)
    requires ValidDir(dr, df) && MaskGuard(r, f, dr, df)
    requires MaskInv(a0, r0, f0, attacks, r, f, dr, df)
    requires sq == At(r, f) && a == AddSquare(attacks, sq)
    ensures MaskInv(a0, r0, f0, a, r + dr, f + df, dr, df)
  {
    forall t: Square ensures Bit(a, t) || MaskReaches(r + dr, f + df, dr, df, t) <==>
                             Bit(a0, t) || MaskReaches(r0, f0, dr, df, t) {
      MaskReachesAt(r, f, dr, df, t);
    }
  }

  /** One iteration of a mask loop: `attacks |= 1ULL << (r * 8 + f)`. */
  method MaskStep(attacks: Bitboard, r: bv8, f: bv8, dr: bv8, df: bv8, ghost a0: Bitboard, ghost r0: bv8, ghost f0: bv8)
    returns (a: Bitboard)
    requires ValidDir(dr, df) && MaskGuard(r, f, dr, df)
    requires MaskInv(a0, r0, f0, attacks, r, f, dr, df)
    ensures MaskInv(a0, r0, f0, a, r + dr, f + df, dr, df)
    ensures Remaining(r + dr, f + df, dr, df) < Remaining(r, f, dr, df)
  {
    var sq := At(r, f);
    a := AddSquare(attacks, sq);
    RemainingDecreases(r, f, dr, df);
    MaskStepInv(a0, r0, f0, attacks, a, sq, r, f, dr, df);
  }

  lemma MaskEnd(a0: Bitboard, r0: bv8, f0: bv8, a: Bitboard, r: bv8, f: bv8, dr: bv8, df: bv8)
    requires ValidDir(dr, df) && !MaskGuard(r, f, dr, df)
    requires MaskInv(a0, r0, f0, a, r, f, dr, df)
    ensures MaskCovers(a, a0, r0, f0, dr, df)
  {
  }

  /** One loop of the occupancy-mask builders. */
  method MaskRay(s: Square, dr: bv8, df: bv8, a0: Bitboard) returns (attacks: Bitboard)
    requires ValidDir(dr, df)
    ensures MaskCovers(attacks, a0, Rank(s) + dr, File(s) + df, dr, df)
  {
    var r, f := Rank(s) + dr, File(s) + df;
    ghost var r0, f0 := r, f;
    attacks := a0;
    while MaskGuard(r, f, dr, df)
      invariant MaskInv(a0, r0, f0, attacks, r, f, dr, df)
      decreases Remaining(r, f, dr, df)
    {
      attacks := MaskStep(attacks, r, f, dr, df, a0, r0, f0);
      r, f := r + dr, f + df;
    }
    MaskEnd(a0, r0, f0, attacks, r, f, dr, df);
  }

  /** The relevant squares for a bishop on s. */
  predicate BishopMask(s: Square, t: Square)
  {
    MaskRayReaches(s, 1, 1, t) || MaskRayReaches(s, 0xFF, 1, t) ||
    MaskRayReaches(s, 1, 0xFF, t) || MaskRayReaches(s, 0xFF, 0xFF, t)
  }

  /** The relevant squares for a rook on s. */
  predicate RookMask(s: Square, t: Square)
  {
    MaskRayReaches(s, 1, 0, t) || MaskRayReaches(s, 0xFF, 0, t) ||
    MaskRayReaches(s, 0, 1, t) || MaskRayReaches(s, 0, 0xFF, t)
  }

  /** `mask_bishop_attacks_occupancy`. */
  method MaskBishopOccupancy(s: Square) returns (attacks: Bitboard)
    ensures forall t: Square :: Bit(attacks, t) <==> BishopMask(s, t)
  {
    var a0: Bitboard := 0;
    var a1 := MaskRay(s, 1, 1, a0);
    var a2 := MaskRay(s, 0xFF, 1, a1);
    var a3 := MaskRay(s, 1, 0xFF, a2);
    attacks := MaskRay(s, 0xFF, 0xFF, a3);
    BishopMaskCombine(s, a0, a1, a2, a3, attacks);
  }

  lemma BishopMaskCombine(s: Square, a0: Bitboard, a1: Bitboard, a2: Bitboard, a3: Bitboard, a4: Bitboard)
    requires a0 == 0
    requires MaskCovers(a1, a0, Rank(s) + 1, File(s) + 1, 1, 1) && MaskCovers(a2, a1, Rank(s) + 0xFF, File(s) + 1, 0xFF, 1)
    requires MaskCovers(a3, a2, Rank(s) + 1, File(s) + 0xFF, 1, 0xFF) && MaskCovers(a4, a3, Rank(s) + 0xFF, File(s) + 0xFF, 0xFF, 0xFF)
    ensures forall t: Square :: Bit(a4, t) <==> BishopMask(s, t)
  {
    forall t: Square ensures Bit(a4, t) <==> BishopMask(s, t) {
      NotBit(0, t);
    }
  }

  /** `mask_rook_attacks_occupancy`. */
  method MaskRookOccupancy(s: Square) returns (attacks: Bitboard)
    ensures forall t: Square :: Bit(attacks, t) <==> RookMask(s, t)
  {
    var a0: Bitboard := 0;
    var a1 := MaskRay(s, 1, 0, a0);
    var a2 := MaskRay(s, 0xFF, 0, a1);
    var a3 := MaskRay(s, 0, 1, a2);
    attacks := MaskRay(s, 0, 0xFF, a3);
    RookMaskCombine(s, a0, a1, a2, a3, attacks);
  }

  lemma RookMaskCombine(s: Square, a0: Bitboard, a1: Bitboard, a2: Bitboard, a3: Bitboard, a4: Bitboard)
    requires a0 == 0
    requires MaskCovers(a1, a0, Rank(s) + 1, File(s) + 0, 1, 0) && MaskCovers(a2, a1, Rank(s) + 0xFF, File(s) + 0, 0xFF, 0)
    requires MaskCovers(a3, a2, Rank(s) + 0, File(s) + 1, 0, 1) && MaskCovers(a4, a3, Rank(s) + 0, File(s) + 0xFF, 0, 0xFF)
    ensures forall t: Square :: Bit(a4, t) <==> RookMask(s, t)
  {
    forall t: Square ensures Bit(a4, t) <==> RookMask(s, t) {
      NotBit(0, t);
    }
  }

  // ---------------------------------------------------------------------
  // What the masks mean
  // ---------------------------------------------------------------------

  /**
   * Coordinate x was reached by stepping dx from a square on the board: a
   * rising counter is at least 1, a falling one at most 6 (or off the board).
   */
  predicate Entered(x: bv8, dx: bv8)
  {
    (dx == 1 ==> 1 <= x) && (dx == 0xFF ==> x <= 6 || 8 <= x)
  }

  lemma EnteredStart(x: bv8)
    requires x < 8
    ensures Entered(x + 1, 1) && Entered(x + 0xFF, 0xFF) && Entered(x + 0, 0)
  {
  }

  lemma EnteredNext(x: bv8, dx: bv8)
    requires Unit(dx) && x < 8 && Entered(x, dx)
    ensures Entered(x + dx, dx)
  {
  }

  /** A coordinate that passes the mask test has a next coordinate on the board. */
  lemma InnerNext(x: bv8, dx: bv8)
    requires Unit(dx) && x < 8 && Inner(x, dx)
    ensures x + dx < 8
  {
  }

  /** A coordinate on the board that was entered but fails the mask test is the last one. */
  lemma OuterLast(x: bv8, dx: bv8)
    requires Unit(dx) && x < 8 && Entered(x, dx) && !Inner(x, dx)
    ensures x + dx >= 8
  {
  }

  lemma RankFileAt(r: bv8, f: bv8)
    requires r < 8 && f < 8
    ensures Rank(At(r, f)) == r && File(At(r, f)) == f
  {
  }

  /** The square after t in direction (dr, df) is on the board. */
  predicate HasNext(t: Square, dr: bv8, df: bv8)
  {
    Rank(t) + dr < 8 && File(t) + df < 8
  }

  /** A walk that has left the board reaches nothing. */
  lemma OffBoard(r: bv8, f: bv8, dr: bv8, df: bv8, block: Bitboard, t: Square)
    requires ValidDir(dr, df) && !(r < 8 && f < 8)
    ensures !Reaches(r, f, dr, df, block, t) && !MaskReaches(r, f, dr, df, t)
  {
  }

  /** The square a walk stands on has a next square exactly when the walk passes the mask test there. */
  lemma HasNextAt(r: bv8, f: bv8, dr: bv8, df: bv8)
    requires ValidDir(dr, df) && r < 8 && f < 8 && Entered(r, dr) && Entered(f, df)
    ensures HasNext(At(r, f), dr, df) <==> MaskGuard(r, f, dr, df)
  {
    RankFileAt(r, f);
    if MaskGuard(r, f, dr, df) {
      InnerNext(r, dr);
      InnerNext(f, df);
    } else if !Inner(r, dr) {
      OuterLast(r, dr);
    } else {
      OuterLast(f, df);
    }
  }

  /**
   * A mask walk visits exactly the squares of the empty-board walk that
   * are not its last, board-edge square.
   */
  lemma {:induction false} MaskIsLineWithoutEdge(r: bv8, f: bv8, dr: bv8, df: bv8, t: Square)
    requires ValidDir(dr, df) && Entered(r, dr) && Entered(f, df)
    ensures MaskReaches(r, f, dr, df, t) <==> Reaches(r, f, dr, df, 0, t) && HasNext(t, dr, df)
    decreases Remaining(r, f, dr, df)
  {
    if r < 8 && f < 8 {
      if MaskGuard(r, f, dr, df) {
        RemainingDecreases(r, f, dr, df);
        EnteredNext(r, dr);
        EnteredNext(f, df);
        MaskIsLineWithoutEdge(r + dr, f + df, dr, df, t);
        MaskEdgeInner(r, f, dr, df, t);
      } else {
        MaskEdgeLast(r, f, dr, df, t);
      }
    } else {
      OffBoard(r, f, dr, df, 0, t);
    }
  }

  lemma MaskEdgeInner(r: bv8, f: bv8, dr: bv8, df: bv8, t: Square)
    requires ValidDir(dr, df) && MaskGuard(r, f, dr, df) && Entered(r, dr) && Entered(f, df)
    requires MaskReaches(r + dr, f + df, dr, df, t) <==> Reaches(r + dr, f + df, dr, df, 0, t) && HasNext(t, dr, df)
    ensures MaskReaches(r, f, dr, df, t) <==> Reaches(r, f, dr, df, 0, t) && HasNext(t, dr, df)
  {
    HasNextAt(r, f, dr, df);
    NotBit(0, At(r, f));
    ReachesAt(r, f, dr, df, 0, t);
    MaskReachesAt(r, f, dr, df, t);
  }

  lemma MaskEdgeLast(r: bv8, f: bv8, dr: bv8, df: bv8, t: Square)
    requires ValidDir(dr, df) && r < 8 && f < 8 && !MaskGuard(r, f, dr, df) && Entered(r, dr) && Entered(f, df)
    ensures !MaskReaches(r, f, dr, df, t)
    ensures !(Reaches(r, f, dr, df, 0, t) && HasNext(t, dr, df))
  {
    HasNextAt(r, f, dr, df);
    if !Inner(r, dr) { OuterLast(r, dr); } else { OuterLast(f, df); }
    OffBoard(r + dr, f + df, dr, df, 0, t);
    ReachesAt(r, f, dr, df, 0, t);
  }

  /** Blockers b1 and b2 agree on every square of the mask walk from (r, f). */
  ghost predicate AgreeOnMask(r: bv8, f: bv8, dr: bv8, df: bv8, b1: Bitboard, b2: Bitboard)
    requires ValidDir(dr, df)
  {
    forall u: Square :: MaskReaches(r, f, dr, df, u) ==> (Bit(b1, u) <==> Bit(b2, u))
  }

  lemma AgreeNext(r: bv8, f: bv8, dr: bv8, df: bv8, b1: Bitboard, b2: Bitboard)
    requires ValidDir(dr, df) && MaskGuard(r, f, dr, df) && AgreeOnMask(r, f, dr, df, b1, b2)
    ensures AgreeOnMask(r + dr, f + df, dr, df, b1, b2)
    ensures Bit(b1, At(r, f)) <==> Bit(b2, At(r, f))
  {
    forall u: Square | MaskReaches(r + dr, f + df, dr, df, u) ensures Bit(b1, u) <==> Bit(b2, u) {
      MaskReachesAt(r, f, dr, df, u);
    }
    MaskReachesAt(r, f, dr, df, At(r, f));
  }

  /**
   * A ray walk depends on the blockers only through the squares of its
   * mask walk: the last square is added whether or not it is blocked.
   */
  lemma {:induction false} WalkRelevant(r: bv8, f: bv8, dr: bv8, df: bv8, b1: Bitboard, b2: Bitboard, t: Square)
    requires ValidDir(dr, df) && Entered(r, dr) && Entered(f, df)
    requires AgreeOnMask(r, f, dr, df, b1, b2)
    ensures Reaches(r, f, dr, df, b1, t) <==> Reaches(r, f, dr, df, b2, t)
    decreases Remaining(r, f, dr, df)
  {
    if r < 8 && f < 8 {
      ReachesAt(r, f, dr, df, b1, t);
      ReachesAt(r, f, dr, df, b2, t);
      if MaskGuard(r, f, dr, df) {
        RemainingDecreases(r, f, dr, df);
        EnteredNext(r, dr);
        EnteredNext(f, df);
        AgreeNext(r, f, dr, df, b1, b2);
        WalkRelevant(r + dr, f + df, dr, df, b1, b2, t);
      } else {
        if !Inner(r, dr) { OuterLast(r, dr); } else { OuterLast(f, df); }
        OffBoard(r + dr, f + df, dr, df, b1, t);
        OffBoard(r + dr, f + df, dr, df, b2, t);
      }
    }
  }
}
