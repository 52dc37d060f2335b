/**
 * The leaper attack masks: pawn, knight and king.
 *
 * Each builder sets the bit of its square in an empty word, shifts it by
 * every offset of the piece, and keeps a shifted word only when it meets an
 * edge mask, so that a step off the a- or h-file does not reappear on the
 * far side of the board.  Both engine variants use the same statements.
 */
module Leapers {
  import opened Bits
  import opened Squares

  /** A mask that keeps every square: the king's straight steps test the word itself. */
  const AllSquares: Bitboard := 0xFFFF_FFFF_FFFF_FFFF

  /** The word x when it meets m, and nothing otherwise. */
  function Guard(x: Bitboard, m: Bitboard): (g: Bitboard)
    ensures g == 0 || g == x
    ensures g == x <==> x == 0 || x & m != 0
  {
    if x & m != 0 then x else 0
  }

  lemma GuardStep(a: Bitboard, x: Bitboard, m: Bitboard, r: Bitboard)
    requires r == if x & m != 0 then a | x else a
    ensures forall t: Square :: Bit(r, t) <==> Bit(a, t) || Bit(Guard(x, m), t)
  {
    var g := Guard(x, m);
    assert r == a | g;
    forall t: Square ensures Bit(r, t) <==> Bit(a, t) || Bit(g, t) {
      OrBit(a, g, t);
    }
  }

  /** One guarded `if ((bitboard OP n) & mask) attacks |= bitboard OP n;`. */
  method GuardedOr(attacks: Bitboard, x: Bitboard, m: Bitboard) returns (r: Bitboard)
    ensures forall t: Square :: Bit(r, t) <==> Bit(attacks, t) || Bit(Guard(x, m), t)
  {
    r := attacks;
    if x & m != 0 {
      r := r | x;
    }
    GuardStep(attacks, x, m, r);
  }

  // ---------------------------------------------------------------------
  // Geometry of the three leapers
  // ---------------------------------------------------------------------

  /** t is one rank ahead of s (towards rank index 0 for white, 7 for black) and one file aside. */
  predicate PawnCapture(side: int, s: Square, t: Square)
  {
    Dist(File(s), File(t)) == 1 &&
    if side == White then Rank(t) + 1 == Rank(s) else Rank(s) + 1 == Rank(t)
  }

  /** t is a knight's jump from s: one and two, or two and one, ranks and files away. */
  predicate KnightJump(s: Square, t: Square)
  {
    (Dist(Rank(s), Rank(t)) == 1 && Dist(File(s), File(t)) == 2) ||
    (Dist(Rank(s), Rank(t)) == 2 && Dist(File(s), File(t)) == 1)
  }

  /** t is a king's step from s: a different square at most one rank and one file away. */
  predicate KingStep(s: Square, t: Square)
  {
    s != t && Dist(Rank(s), Rank(t)) <= 1 && Dist(File(s), File(t)) <= 1
  }

  lemma KnightTerm0(s: Square, t: Square)
    ensures Bit(Guard(Single(s) >> 17, NotHFile), t) <==> s as int - 17 == t as int && File(t) != 7
  {
  }

  lemma KnightTerm1(s: Square, t: Square)
    ensures Bit(Guard(Single(s) >> 15, NotAFile), t) <==> s as int - 15 == t as int && File(t) != 0
  {
  }

  lemma KnightTerm2(s: Square, t: Square)
    ensures Bit(Guard(Single(s) >> 10, NotGHFile), t) <==> s as int - 10 == t as int && File(t) < 6
  {
  }

  lemma KnightTerm3(s: Square, t: Square)
    ensures Bit(Guard(Single(s) >> 6, NotABFile), t) <==> s as int - 6 == t as int && File(t) > 1
  {
  }

  lemma KnightTerm4(s: Square, t: Square)
    ensures Bit(Guard(Single(s) << 17, NotAFile), t) <==> s as int + 17 == t as int && File(t) != 0
  {
  }

  lemma KnightTerm5(s: Square, t: Square)
    ensures Bit(Guard(Single(s) << 15, NotHFile), t) <==> s as int + 15 == t as int && File(t) != 7
  {
  }

  lemma KnightTerm6(s: Square, t: Square)
    ensures Bit(Guard(Single(s) << 10, NotABFile), t) <==> s as int + 10 == t as int && File(t) > 1
  {
  }

  lemma KnightTerm7(s: Square, t: Square)
    ensures Bit(Guard(Single(s) << 6, NotGHFile), t) <==> s as int + 6 == t as int && File(t) < 6
  {
  }

  lemma KnightFwd(s: Square, t: Square)
    requires KnightJump(s, t)
    ensures (s as int - 17 == t as int && File(t) != 7) ||
      (s as int - 15 == t as int && File(t) != 0) ||
      (s as int - 10 == t as int && File(t) < 6) ||
      (s as int - 6 == t as int && File(t) > 1) ||
      (s as int + 17 == t as int && File(t) != 0) ||
      (s as int + 15 == t as int && File(t) != 7) ||
      (s as int + 10 == t as int && File(t) > 1) ||
      (s as int + 6 == t as int && File(t) < 6)
  {
  }

  lemma KnightBack(s: Square, t: Square)
    requires (s as int - 17 == t as int && File(t) != 7) ||
      (s as int - 15 == t as int && File(t) != 0) ||
      (s as int - 10 == t as int && File(t) < 6) ||
      (s as int - 6 == t as int && File(t) > 1) ||
      (s as int + 17 == t as int && File(t) != 0) ||
      (s as int + 15 == t as int && File(t) != 7) ||
      (s as int + 10 == t as int && File(t) > 1) ||
      (s as int + 6 == t as int && File(t) < 6)
    ensures KnightJump(s, t)
  {
  }

  lemma KingTerm0(s: Square, t: Square)
    ensures Bit(Guard(Single(s) >> 8, AllSquares), t) <==> s as int - 8 == t as int
  {
  }

  lemma KingTerm1(s: Square, t: Square)
    ensures Bit(Guard(Single(s) >> 9, NotHFile), t) <==> s as int - 9 == t as int && File(t) != 7
  {
  }

  lemma KingTerm2(s: Square, t: Square)
    ensures Bit(Guard(Single(s) >> 7, NotAFile), t) <==> s as int - 7 == t as int && File(t) != 0
  {
  }

  lemma KingTerm3(s: Square, t: Square)
    ensures Bit(Guard(Single(s) >> 1, NotHFile), t) <==> s as int - 1 == t as int && File(t) != 7
  {
  }

  lemma KingTerm4(s: Square, t: Square)
    ensures Bit(Guard(Single(s) << 8, AllSquares), t) <==> s as int + 8 == t as int
  {
  }

  lemma KingTerm5(s: Square, t: Square)
    ensures Bit(Guard(Single(s) << 9, NotAFile), t) <==> s as int + 9 == t as int && File(t) != 0
  {
  }

  lemma KingTerm6(s: Square, t: Square)
    ensures Bit(Guard(Single(s) << 7, NotHFile), t) <==> s as int + 7 == t as int && File(t) != 7
  {
  }

  lemma KingTerm7(s: Square, t: Square)
    ensures Bit(Guard(Single(s) << 1, NotAFile), t) <==> s as int + 1 == t as int && File(t) != 0
  {
  }

  lemma KingFwd(s: Square, t: Square)
    requires KingStep(s, t)
    ensures (s as int - 8 == t as int) ||
      (s as int - 9 == t as int && File(t) != 7) ||
      (s as int - 7 == t as int && File(t) != 0) ||
      (s as int - 1 == t as int && File(t) != 7) ||
      (s as int + 8 == t as int) ||
      (s as int + 9 == t as int && File(t) != 0) ||
      (s as int + 7 == t as int && File(t) != 7) ||
      (s as int + 1 == t as int && File(t) != 0)
  {
  }

  lemma KingBack(s: Square, t: Square)
    requires (s as int - 8 == t as int) ||
      (s as int - 9 == t as int && File(t) != 7) ||
      (s as int - 7 == t as int && File(t) != 0) ||
      (s as int - 1 == t as int && File(t) != 7) ||
      (s as int + 8 == t as int) ||
      (s as int + 9 == t as int && File(t) != 0) ||
      (s as int + 7 == t as int && File(t) != 7) ||
      (s as int + 1 == t as int && File(t) != 0)
    ensures KingStep(s, t)
  {
  }

  lemma WhitePawnTerm0(s: Square, t: Square)
    ensures Bit(Guard(Single(s) >> 7, NotAFile), t) <==> s as int - 7 == t as int && File(t) != 0
  {
  }

  lemma WhitePawnTerm1(s: Square, t: Square)
    ensures Bit(Guard(Single(s) >> 9, NotHFile), t) <==> s as int - 9 == t as int && File(t) != 7
  {
  }

  lemma WhitePawnFwd(s: Square, t: Square)
    requires PawnCapture(White, s, t)
    ensures (s as int - 7 == t as int && File(t) != 0) ||
      (s as int - 9 == t as int && File(t) != 7)
  {
  }

  lemma WhitePawnBack(s: Square, t: Square)
    requires (s as int - 7 == t as int && File(t) != 0) ||
      (s as int - 9 == t as int && File(t) != 7)
    ensures PawnCapture(White, s, t)
  {
  }

  lemma BlackPawnTerm0(s: Square, t: Square)
    ensures Bit(Guard(Single(s) << 9, NotAFile), t) <==> s as int + 9 == t as int && File(t) != 0
  {
  }

  lemma BlackPawnTerm1(s: Square, t: Square)
    ensures Bit(Guard(Single(s) << 7, NotHFile), t) <==> s as int + 7 == t as int && File(t) != 7
  {
  }

  lemma BlackPawnFwd(s: Square, t: Square)
    requires PawnCapture(Black, s, t)
    ensures (s as int + 9 == t as int && File(t) != 0) ||
      (s as int + 7 == t as int && File(t) != 7)
  {
  }

  lemma BlackPawnBack(s: Square, t: Square)
    requires (s as int + 9 == t as int && File(t) != 0) ||
      (s as int + 7 == t as int && File(t) != 7)
    ensures PawnCapture(Black, s, t)
  {
  }

  lemma KnightAt(s: Square, t: Square)
    ensures (Bit(Guard(Single(s) >> 17, NotHFile), t) || Bit(Guard(Single(s) >> 15, NotAFile), t) || Bit(Guard(Single(s) >> 10, NotGHFile), t) || Bit(Guard(Single(s) >> 6, NotABFile), t) || Bit(Guard(Single(s) << 17, NotAFile), t) || Bit(Guard(Single(s) << 15, NotHFile), t) || Bit(Guard(Single(s) << 10, NotABFile), t) || Bit(Guard(Single(s) << 6, NotGHFile), t)) <==> KnightJump(s, t)
  {
    KnightTerm0(s, t); KnightTerm1(s, t); KnightTerm2(s, t); KnightTerm3(s, t); KnightTerm4(s, t); KnightTerm5(s, t); KnightTerm6(s, t); KnightTerm7(s, t);
    if KnightJump(s, t) {
      KnightFwd(s, t);
    } else if (s as int - 17 == t as int && File(t) != 7) ||
        (s as int - 15 == t as int && File(t) != 0) ||
        (s as int - 10 == t as int && File(t) < 6) ||
        (s as int - 6 == t as int && File(t) > 1) ||
        (s as int + 17 == t as int && File(t) != 0) ||
        (s as int + 15 == t as int && File(t) != 7) ||
        (s as int + 10 == t as int && File(t) > 1) ||
        (s as int + 6 == t as int && File(t) < 6) {
      KnightBack(s, t);
    }
  }

  lemma KingAt(s: Square, t: Square)
    ensures (Bit(Guard(Single(s) >> 8, AllSquares), t) || Bit(Guard(Single(s) >> 9, NotHFile), t) || Bit(Guard(Single(s) >> 7, NotAFile), t) || Bit(Guard(Single(s) >> 1, NotHFile), t) || Bit(Guard(Single(s) << 8, AllSquares), t) || Bit(Guard(Single(s) << 9, NotAFile), t) || Bit(Guard(Single(s) << 7, NotHFile), t) || Bit(Guard(Single(s) << 1, NotAFile), t)) <==> KingStep(s, t)
  {
    KingTerm0(s, t); KingTerm1(s, t); KingTerm2(s, t); KingTerm3(s, t); KingTerm4(s, t); KingTerm5(s, t); KingTerm6(s, t); KingTerm7(s, t);
    if KingStep(s, t) {
      KingFwd(s, t);
    } else if (s as int - 8 == t as int) ||
        (s as int - 9 == t as int && File(t) != 7) ||
        (s as int - 7 == t as int && File(t) != 0) ||
        (s as int - 1 == t as int && File(t) != 7) ||
        (s as int + 8 == t as int) ||
        (s as int + 9 == t as int && File(t) != 0) ||
        (s as int + 7 == t as int && File(t) != 7) ||
        (s as int + 1 == t as int && File(t) != 0) {
      KingBack(s, t);
    }
  }

  lemma WhitePawnAt(s: Square, t: Square)
    ensures (Bit(Guard(Single(s) >> 7, NotAFile), t) || Bit(Guard(Single(s) >> 9, NotHFile), t)) <==> PawnCapture(White, s, t)
  {
    WhitePawnTerm0(s, t); WhitePawnTerm1(s, t);
    if PawnCapture(White, s, t) {
      WhitePawnFwd(s, t);
    } else if (s as int - 7 == t as int && File(t) != 0) ||
        (s as int - 9 == t as int && File(t) != 7) {
      WhitePawnBack(s, t);
    }
  }

  lemma BlackPawnAt(s: Square, t: Square)
    ensures (Bit(Guard(Single(s) << 9, NotAFile), t) || Bit(Guard(Single(s) << 7, NotHFile), t)) <==> PawnCapture(Black, s, t)
  {
    BlackPawnTerm0(s, t); BlackPawnTerm1(s, t);
    if PawnCapture(Black, s, t) {
      BlackPawnFwd(s, t);
    } else if (s as int + 9 == t as int && File(t) != 0) ||
        (s as int + 7 == t as int && File(t) != 7) {
      BlackPawnBack(s, t);
    }
  }

  /** `mask_knight_attacks`: exactly the knight's jumps that stay on the board. */
  method MaskKnightAttacks(s: Square) returns (attacks: Bitboard)
    ensures forall t: Square :: Bit(attacks, t) <==> KnightJump(s, t)
  {
    var bitboard := SetBit(0, s);
    assert bitboard == Single(s);
    attacks := 0;
    attacks := GuardedOr(attacks, bitboard >> 17, NotHFile);
    attacks := GuardedOr(attacks, bitboard >> 15, NotAFile);
    attacks := GuardedOr(attacks, bitboard >> 10, NotGHFile);
    attacks := GuardedOr(attacks, bitboard >> 6, NotABFile);
    attacks := GuardedOr(attacks, bitboard << 17, NotAFile);
    attacks := GuardedOr(attacks, bitboard << 15, NotHFile);
    attacks := GuardedOr(attacks, bitboard << 10, NotABFile);
    attacks := GuardedOr(attacks, bitboard << 6, NotGHFile);
    forall t: Square ensures Bit(attacks, t) <==> KnightJump(s, t) {
      NotBit(0, t);
      KnightAt(s, t);
    }
  }

  /** `mask_king_attacks`: exactly the king's steps that stay on the board. */
  method MaskKingAttacks(s: Square) returns (attacks: Bitboard)
    ensures forall t: Square :: Bit(attacks, t) <==> KingStep(s, t)
  {
    var bitboard := SetBit(0, s);
    assert bitboard == Single(s);
    attacks := 0;
    attacks := GuardedOr(attacks, bitboard >> 8, AllSquares);
    attacks := GuardedOr(attacks, bitboard >> 9, NotHFile);
    attacks := GuardedOr(attacks, bitboard >> 7, NotAFile);
    attacks := GuardedOr(attacks, bitboard >> 1, NotHFile);
    attacks := GuardedOr(attacks, bitboard << 8, AllSquares);
    attacks := GuardedOr(attacks, bitboard << 9, NotAFile);
    attacks := GuardedOr(attacks, bitboard << 7, NotHFile);
    attacks := GuardedOr(attacks, bitboard << 1, NotAFile);
    forall t: Square ensures Bit(attacks, t) <==> KingStep(s, t) {
      NotBit(0, t);
      KingAt(s, t);
    }
  }

  /**
   * `mask_pawn_attacks`: the two diagonal squares one rank ahead, as far as
   * they are on the board.  Side 0 is white; any other side is black.
   */
  method MaskPawnAttacks(side: int, s: Square) returns (attacks: Bitboard)
    ensures forall t: Square :: Bit(attacks, t) <==> PawnCapture(side, s, t)
  {
    var bitboard := SetBit(0, s);
    assert bitboard == Single(s);
    attacks := 0;
    if side == White {
      attacks := GuardedOr(attacks, bitboard >> 7, NotAFile);
      attacks := GuardedOr(attacks, bitboard >> 9, NotHFile);
      forall t: Square ensures Bit(attacks, t) <==> PawnCapture(side, s, t) {
        NotBit(0, t);
        WhitePawnAt(s, t);
      }
    } else {
      attacks := GuardedOr(attacks, bitboard << 9, NotAFile);
      attacks := GuardedOr(attacks, bitboard << 7, NotHFile);
      forall t: Square ensures Bit(attacks, t) <==> PawnCapture(side, s, t) {
        NotBit(0, t);
        BlackPawnAt(s, t);
      }
    }
  }
}
