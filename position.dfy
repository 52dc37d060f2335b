/**
 * The position: twelve piece boards, three occupancy boards, the side to
 * move, the en-passant square, the castling rights, the Zobrist key and
 * the fifty-move counter, as the engine keeps them in globals.
 *
 * This module holds the value-level facts (occupancy unions, the
 * castling-rights table, the attack test) and the board operations that
 * do not play a move; making a move is in module Boards.
 */
module Position {
  import opened Bits
  import opened Squares
  import opened Leapers
  import opened Sliders
  import opened XorFold
  import opened Zobrist

  // Piece boards by kind: pawn 0, knight 1, bishop 2, rook 3, queen 4, king 5, plus 6 for black.
  function PieceOf(kind: int, side: int): (p: Piece)
    requires 0 <= kind < 6 && (side == White || side == Black)
    ensures SideOf(p) == side
  {
    kind + 6 * side
  }

  // Squares named by the castling code.
  const A8: Square := 0
  const B8: Square := 1
  const C8: Square := 2
  const D8: Square := 3
  const E8: Square := 4
  const F8: Square := 5
  const G8: Square := 6
  const H8: Square := 7
  const A1: Square := 56
  const B1: Square := 57
  const C1: Square := 58
  const D1: Square := 59
  const E1: Square := 60
  const F1: Square := 61
  const G1: Square := 62
  const H1: Square := 63

  // ---------------------------------------------------------------------
  // Occupancies
  // ---------------------------------------------------------------------

  /** The union of the boards in xs, or-ed in order. */
  function UnionOf(xs: seq<Bitboard>): Bitboard
  {
    if |xs| == 0 then 0 else UnionOf(xs[..|xs| - 1]) | xs[|xs| - 1]
  }

  /** A square is in the union exactly when one of the boards has it. */
  lemma {:induction false} UnionBit(xs: seq<Bitboard>, t: Square)
    ensures Bit(UnionOf(xs), t) <==> exists q :: 0 <= q < |xs| && Bit(xs[q], t)
  {
    if |xs| == 0 {
      assert !Bit(0, t);
    } else {
      var init := xs[..|xs| - 1];
      UnionBit(init, t);
      OrBit(UnionOf(init), xs[|xs| - 1], t);
      assert forall q :: 0 <= q < |init| ==> init[q] == xs[q];
    }
  }

  /** The three occupancies the engine derives from the twelve piece boards. */
  function Occupancies(bitboards: seq<Bitboard>): (occ: seq<Bitboard>)
    requires |bitboards| == 12
    ensures |occ| == 3
  {
    var white := UnionOf(bitboards[..6]);
    var black := UnionOf(bitboards[6..]);
    [white, black, white | black]
  }

  /** A square is occupied by a side exactly when one of that side's piece boards has it. */
  lemma OccupanciesBit(bitboards: seq<Bitboard>, t: Square)
    requires |bitboards| == 12
    ensures Bit(Occupancies(bitboards)[White], t) <==> exists q :: 0 <= q < 6 && Bit(bitboards[q], t)
    ensures Bit(Occupancies(bitboards)[Black], t) <==> exists q :: 6 <= q < 12 && Bit(bitboards[q], t)
    ensures Bit(Occupancies(bitboards)[Both], t) <==> exists q :: 0 <= q < 12 && Bit(bitboards[q], t)
  {
    var white := bitboards[..6];
    var black := bitboards[6..];
    UnionBit(white, t);
    UnionBit(black, t);
    OrBit(UnionOf(white), UnionOf(black), t);
    assert forall q :: 0 <= q < 6 ==> white[q] == bitboards[q] && black[q] == bitboards[q + 6];
  }

  // ---------------------------------------------------------------------
  // Castling rights
  // ---------------------------------------------------------------------

  const WhiteKingside: Rights := 1
  const WhiteQueenside: Rights := 2
  const BlackKingside: Rights := 4
  const BlackQueenside: Rights := 8

  /** `castling_rights`: the mask a move from or to each square leaves on the rights. */
  const CastlingRights: seq<Rights> :=
    [7, 15, 15, 15, 3, 15, 15, 11] +
    [15, 15, 15, 15, 15, 15, 15, 15] +
    [15, 15, 15, 15, 15, 15, 15, 15] +
    [15, 15, 15, 15, 15, 15, 15, 15] +
    [15, 15, 15, 15, 15, 15, 15, 15] +
    [15, 15, 15, 15, 15, 15, 15, 15] +
    [15, 15, 15, 15, 15, 15, 15, 15] +
    [13, 15, 15, 15, 12, 15, 15, 14]

  /** The rights that die when a piece leaves or reaches square i. */
  function TiedRights(i: int): Rights
  {
    if i == A8 as int then BlackQueenside
    else if i == E8 as int then BlackKingside | BlackQueenside
    else if i == H8 as int then BlackKingside
    else if i == A1 as int then WhiteQueenside
    else if i == E1 as int then WhiteKingside | WhiteQueenside
    else if i == H1 as int then WhiteKingside
    else 0
  }

  lemma CastlingRow0(f: int)
    requires 0 <= f < 8
    ensures CastlingRights[f] == 15 - TiedRights(f)
  {
  }

  lemma CastlingRowMid(i: int)
    requires 8 <= i < 56
    ensures CastlingRights[i] == 15
  {
  }

  lemma CastlingRow7(f: int)
    requires 0 <= f < 8
    ensures CastlingRights[56 + f] == 15 - TiedRights(56 + f)
  {
  }

  /** Every entry of the table is the full mask less the rights tied to its square. */
  lemma CastlingRightsTable(i: int)
    requires 0 <= i < 64
    ensures CastlingRights[i] == 15 - TiedRights(i)
  {
    if i < 8 {
      CastlingRow0(i);
    } else if i < 56 {
      CastlingRowMid(i);
    } else {
      CastlingRow7(i - 56);
    }
  }

  lemma MaskRights(c: Rights, d: Rights, r: Rights)
    requires r == 1 || r == 2 || r == 4 || r == 8
    ensures (c & (15 - d)) & r != 0 <==> c & r != 0 && d & r == 0
  {
  }

  /**
   * `castle &= castling_rights[sq]` keeps exactly the rights the position
   * had that are not tied to sq: moving from or to a king or rook home
   * square removes its rights and nothing else.
   */
  lemma CastlingUpdate(c: Rights, i: int, r: Rights)
    requires 0 <= i < 64 && (r == 1 || r == 2 || r == 4 || r == 8)
    ensures (c & CastlingRights[i]) & r != 0 <==> c & r != 0 && TiedRights(i) & r == 0
  {
    CastlingRightsTable(i);
    MaskRights(c, TiedRights(i), r);
  }

  // ---------------------------------------------------------------------
  // The attack test
  // ---------------------------------------------------------------------

  /** Some square is in both words exactly when their AND is nonzero. */
  lemma Hits(x: Bitboard, y: Bitboard)
    ensures x & y != 0 <==> exists t: Square :: Bit(x, t) && Bit(y, t)
  {
    if x & y != 0 {
      var z := x & y;
      if forall t: Square :: !Bit(z, t) {
        ZeroExt(z);
      }
      var t: Square :| Bit(z, t);
      AndBit(x, y, t);
    } else {
      forall t: Square
        ensures !(Bit(x, t) && Bit(y, t))
      {
        AndBit(x, y, t);
      }
    }
  }

  /** A pawn of one side attacks exactly the squares the other side's pawns are attacked from. */
  lemma PawnCaptureSwap(side: int, s: Square, t: Square)
    requires side == White || side == Black
    ensures PawnCapture(1 - side, s, t) <==> PawnCapture(side, t, s)
  {
  }

  /** A pawn of the side on some square attacks sq. */
  ghost predicate PawnAttacks(bitboards: seq<Bitboard>, sq: Square, side: int)
    requires |bitboards| == 12 && (side == White || side == Black)
  {
    exists t: Square :: Bit(bitboards[PieceOf(0, side)], t) && PawnCapture(side, t, sq)
  }

  /** A knight of the side is a knight's jump away from sq. */
  ghost predicate KnightAttacks(bitboards: seq<Bitboard>, sq: Square, side: int)
    requires |bitboards| == 12 && (side == White || side == Black)
  {
    exists t: Square :: Bit(bitboards[PieceOf(1, side)], t) && KnightJump(sq, t)
  }

  /** The side's king is a king's step away from sq. */
  ghost predicate KingAttacks(bitboards: seq<Bitboard>, sq: Square, side: int)
    requires |bitboards| == 12 && (side == White || side == Black)
  {
    exists t: Square :: Bit(bitboards[PieceOf(5, side)], t) && KingStep(sq, t)
  }

  /** A bishop or queen of the side sees sq along a diagonal through the blockers. */
  ghost predicate DiagonalAttacks(bitboards: seq<Bitboard>, block: Bitboard, sq: Square, side: int)
    requires |bitboards| == 12 && (side == White || side == Black)
  {
    exists t: Square :: (Bit(bitboards[PieceOf(2, side)], t) || Bit(bitboards[PieceOf(4, side)], t)) &&
                        BishopAttack(sq, block, t)
  }

  /** A rook or queen of the side sees sq along a rank or file through the blockers. */
  ghost predicate StraightAttacks(bitboards: seq<Bitboard>, block: Bitboard, sq: Square, side: int)
    requires |bitboards| == 12 && (side == White || side == Black)
  {
    exists t: Square :: (Bit(bitboards[PieceOf(3, side)], t) || Bit(bitboards[PieceOf(4, side)], t)) &&
                        RookAttack(sq, block, t)
  }

  /**
   * The spec of `is_square_attacked`: some piece of the given side attacks
   * sq, sliders through the blockers in block.
   */
  ghost predicate Attacked(bitboards: seq<Bitboard>, block: Bitboard, sq: Square, side: int)
    requires |bitboards| == 12 && (side == White || side == Black)
  {
    PawnAttacks(bitboards, sq, side) || KnightAttacks(bitboards, sq, side) || KingAttacks(bitboards, sq, side) ||
    DiagonalAttacks(bitboards, block, sq, side) || StraightAttacks(bitboards, block, sq, side)
  }

  /** A common square makes the AND nonzero. */
  lemma HitAt(x: Bitboard, y: Bitboard, t: Square)
    requires Bit(x, t) && Bit(y, t)
    ensures x & y != 0
  {
    AndBit(x, y, t);
  }

  /** A nonzero AND has a common square. */
  lemma HitSome(x: Bitboard, y: Bitboard) returns (t: Square)
    requires x & y != 0
    ensures Bit(x, t) && Bit(y, t)
  {
    Hits(x, y);
    t :| Bit(x, t) && Bit(y, t);
  }

  lemma PairHitAt(mask: Bitboard, a: Bitboard, b: Bitboard, t: Square)
    requires Bit(mask, t) && (Bit(a, t) || Bit(b, t))
    ensures mask & (a | b) != 0
  {
    OrBit(a, b, t);
    HitAt(mask, a | b, t);
  }

  lemma PawnHitsFwd(bitboards: seq<Bitboard>, mask: Bitboard, side: int, sq: Square)
    requires |bitboards| == 12 && (side == White || side == Black)
    requires forall t: Square :: Bit(mask, t) <==> PawnCapture(1 - side, sq, t)
    requires mask & bitboards[PieceOf(0, side)] != 0
    ensures PawnAttacks(bitboards, sq, side)
  {
    var t := HitSome(mask, bitboards[PieceOf(0, side)]);
    PawnCaptureSwap(side, sq, t);
  }

  lemma PawnHitsBack(bitboards: seq<Bitboard>, mask: Bitboard, side: int, sq: Square)
    requires |bitboards| == 12 && (side == White || side == Black)
    requires forall t: Square :: Bit(mask, t) <==> PawnCapture(1 - side, sq, t)
    requires PawnAttacks(bitboards, sq, side)
    ensures mask & bitboards[PieceOf(0, side)] != 0
  {
    var t: Square :| Bit(bitboards[PieceOf(0, side)], t) && PawnCapture(side, t, sq);
    PawnCaptureSwap(side, sq, t);
    HitAt(mask, bitboards[PieceOf(0, side)], t);
  }

  lemma PawnHits(bitboards: seq<Bitboard>, mask: Bitboard, side: int, sq: Square)
    requires |bitboards| == 12 && (side == White || side == Black)
    requires forall t: Square :: Bit(mask, t) <==> PawnCapture(1 - side, sq, t)
    ensures mask & bitboards[PieceOf(0, side)] != 0 <==> PawnAttacks(bitboards, sq, side)
  {
    if mask & bitboards[PieceOf(0, side)] != 0 {
      PawnHitsFwd(bitboards, mask, side, sq);
    } else if PawnAttacks(bitboards, sq, side) {
      PawnHitsBack(bitboards, mask, side, sq);
    }
  }

  lemma KnightHitsFwd(bitboards: seq<Bitboard>, mask: Bitboard, side: int, sq: Square)
    requires |bitboards| == 12 && (side == White || side == Black)
    requires forall t: Square :: Bit(mask, t) <==> KnightJump(sq, t)
    requires mask & bitboards[PieceOf(1, side)] != 0
    ensures KnightAttacks(bitboards, sq, side)
  {
    var t := HitSome(mask, bitboards[PieceOf(1, side)]);
  }

  lemma KnightHitsBack(bitboards: seq<Bitboard>, mask: Bitboard, side: int, sq: Square)
    requires |bitboards| == 12 && (side == White || side == Black)
    requires forall t: Square :: Bit(mask, t) <==> KnightJump(sq, t)
    requires KnightAttacks(bitboards, sq, side)
    ensures mask & bitboards[PieceOf(1, side)] != 0
  {
    var t: Square :| Bit(bitboards[PieceOf(1, side)], t) && KnightJump(sq, t);
    HitAt(mask, bitboards[PieceOf(1, side)], t);
  }

  lemma KnightHits(bitboards: seq<Bitboard>, mask: Bitboard, side: int, sq: Square)
    requires |bitboards| == 12 && (side == White || side == Black)
    requires forall t: Square :: Bit(mask, t) <==> KnightJump(sq, t)
    ensures mask & bitboards[PieceOf(1, side)] != 0 <==> KnightAttacks(bitboards, sq, side)
  {
    if mask & bitboards[PieceOf(1, side)] != 0 {
      KnightHitsFwd(bitboards, mask, side, sq);
    } else if KnightAttacks(bitboards, sq, side) {
      KnightHitsBack(bitboards, mask, side, sq);
    }
  }

  lemma KingHitsFwd(bitboards: seq<Bitboard>, mask: Bitboard, side: int, sq: Square)
    requires |bitboards| == 12 && (side == White || side == Black)
    requires forall t: Square :: Bit(mask, t) <==> KingStep(sq, t)
    requires mask & bitboards[PieceOf(5, side)] != 0
    ensures KingAttacks(bitboards, sq, side)
  {
    var t := HitSome(mask, bitboards[PieceOf(5, side)]);
  }

  lemma KingHitsBack(bitboards: seq<Bitboard>, mask: Bitboard, side: int, sq: Square)
    requires |bitboards| == 12 && (side == White || side == Black)
    requires forall t: Square :: Bit(mask, t) <==> KingStep(sq, t)
    requires KingAttacks(bitboards, sq, side)
    ensures mask & bitboards[PieceOf(5, side)] != 0
  {
    var t: Square :| Bit(bitboards[PieceOf(5, side)], t) && KingStep(sq, t);
    HitAt(mask, bitboards[PieceOf(5, side)], t);
  }

  lemma KingHits(bitboards: seq<Bitboard>, mask: Bitboard, side: int, sq: Square)
    requires |bitboards| == 12 && (side == White || side == Black)
    requires forall t: Square :: Bit(mask, t) <==> KingStep(sq, t)
    ensures mask & bitboards[PieceOf(5, side)] != 0 <==> KingAttacks(bitboards, sq, side)
  {
    if mask & bitboards[PieceOf(5, side)] != 0 {
      KingHitsFwd(bitboards, mask, side, sq);
    } else if KingAttacks(bitboards, sq, side) {
      KingHitsBack(bitboards, mask, side, sq);
    }
  }

  lemma DiagonalHitsFwd(bitboards: seq<Bitboard>, mask: Bitboard, block: Bitboard, side: int, sq: Square)
    requires |bitboards| == 12 && (side == White || side == Black)
    requires forall t: Square :: Bit(mask, t) <==> BishopAttack(sq, block, t)
    requires mask & (bitboards[PieceOf(2, side)] | bitboards[PieceOf(4, side)]) != 0
    ensures DiagonalAttacks(bitboards, block, sq, side)
  {
    var a := bitboards[PieceOf(2, side)];
    var b := bitboards[PieceOf(4, side)];
    var t := HitSome(mask, a | b);
    OrBit(a, b, t);
  }

  lemma DiagonalHitsBack(bitboards: seq<Bitboard>, mask: Bitboard, block: Bitboard, side: int, sq: Square)
    requires |bitboards| == 12 && (side == White || side == Black)
    requires forall t: Square :: Bit(mask, t) <==> BishopAttack(sq, block, t)
    requires DiagonalAttacks(bitboards, block, sq, side)
    ensures mask & (bitboards[PieceOf(2, side)] | bitboards[PieceOf(4, side)]) != 0
  {
    var t: Square :| (Bit(bitboards[PieceOf(2, side)], t) || Bit(bitboards[PieceOf(4, side)], t)) && BishopAttack(sq, block, t);
    PairHitAt(mask, bitboards[PieceOf(2, side)], bitboards[PieceOf(4, side)], t);
  }

  lemma DiagonalHits(bitboards: seq<Bitboard>, mask: Bitboard, block: Bitboard, side: int, sq: Square)
    requires |bitboards| == 12 && (side == White || side == Black)
    requires forall t: Square :: Bit(mask, t) <==> BishopAttack(sq, block, t)
    ensures mask & (bitboards[PieceOf(2, side)] | bitboards[PieceOf(4, side)]) != 0 <==> DiagonalAttacks(bitboards, block, sq, side)
  {
    if mask & (bitboards[PieceOf(2, side)] | bitboards[PieceOf(4, side)]) != 0 {
      DiagonalHitsFwd(bitboards, mask, block, side, sq);
    } else if DiagonalAttacks(bitboards, block, sq, side) {
      DiagonalHitsBack(bitboards, mask, block, side, sq);
    }
  }

  lemma StraightHitsFwd(bitboards: seq<Bitboard>, mask: Bitboard, block: Bitboard, side: int, sq: Square)
    requires |bitboards| == 12 && (side == White || side == Black)
    requires forall t: Square :: Bit(mask, t) <==> RookAttack(sq, block, t)
    requires mask & (bitboards[PieceOf(3, side)] | bitboards[PieceOf(4, side)]) != 0
    ensures StraightAttacks(bitboards, block, sq, side)
  {
    var a := bitboards[PieceOf(3, side)];
    var b := bitboards[PieceOf(4, side)];
    var t := HitSome(mask, a | b);
    OrBit(a, b, t);
  }

  lemma StraightHitsBack(bitboards: seq<Bitboard>, mask: Bitboard, block: Bitboard, side: int, sq: Square)
    requires |bitboards| == 12 && (side == White || side == Black)
    requires forall t: Square :: Bit(mask, t) <==> RookAttack(sq, block, t)
    requires StraightAttacks(bitboards, block, sq, side)
    ensures mask & (bitboards[PieceOf(3, side)] | bitboards[PieceOf(4, side)]) != 0
  {
    var t: Square :| (Bit(bitboards[PieceOf(3, side)], t) || Bit(bitboards[PieceOf(4, side)], t)) && RookAttack(sq, block, t);
    PairHitAt(mask, bitboards[PieceOf(3, side)], bitboards[PieceOf(4, side)], t);
  }

  lemma StraightHits(bitboards: seq<Bitboard>, mask: Bitboard, block: Bitboard, side: int, sq: Square)
    requires |bitboards| == 12 && (side == White || side == Black)
    requires forall t: Square :: Bit(mask, t) <==> RookAttack(sq, block, t)
    ensures mask & (bitboards[PieceOf(3, side)] | bitboards[PieceOf(4, side)]) != 0 <==> StraightAttacks(bitboards, block, sq, side)
  {
    if mask & (bitboards[PieceOf(3, side)] | bitboards[PieceOf(4, side)]) != 0 {
      StraightHitsFwd(bitboards, mask, block, side, sq);
    } else if StraightAttacks(bitboards, block, sq, side) {
      StraightHitsBack(bitboards, mask, block, side, sq);
    }
  }

  /**
   * `is_square_attacked(sq, side)` over the given piece boards and
   * blockers: the leaper masks and the slider walks (which the magic
   * lookup reproduces) are intersected with the attacking side's pieces.
   */
  method IsSquareAttacked(bitboards: seq<Bitboard>, block: Bitboard, sq: Square, side: int) returns (r: bool)
    requires |bitboards| == 12 && (side == White || side == Black)
    ensures r <==> Attacked(bitboards, block, sq, side)
  {
    var pawnMask := MaskPawnAttacks(1 - side, sq);
    PawnHits(bitboards, pawnMask, side, sq);
    if pawnMask & bitboards[PieceOf(0, side)] != 0 {
      return true;
    }
    var knightMask := MaskKnightAttacks(sq);
    KnightHits(bitboards, knightMask, side, sq);
    if knightMask & bitboards[PieceOf(1, side)] != 0 {
      return true;
    }
    var kingMask := MaskKingAttacks(sq);
    KingHits(bitboards, kingMask, side, sq);
    if kingMask & bitboards[PieceOf(5, side)] != 0 {
      return true;
    }
    var diagonal := GetBishopAttacks(sq, block);
    DiagonalHits(bitboards, diagonal, block, side, sq);
    if diagonal & (bitboards[PieceOf(2, side)] | bitboards[PieceOf(4, side)]) != 0 {
      return true;
    }
    var straight := GetRookAttacks(sq, block);
    StraightHits(bitboards, straight, block, side, sq);
    r := straight & (bitboards[PieceOf(3, side)] | bitboards[PieceOf(4, side)]) != 0;
  }
}
