/**
 * Questions asked of the position without changing it: whether the side
 * to move is in check, which piece stands on a square, and whether the
 * game is drawn by the fifty-move rule, by repetition or by insufficient
 * material.
 */
module Queries {
  import opened Bits
  import opened Squares
  import opened Position
  import opened Occupancy
  import opened Boards

  // ---------------------------------------------------------------------
  // The piece on a square
  // ---------------------------------------------------------------------

  /** The first piece board, white pawn to black king, holding t; -1 when none does. */
  function PieceAt(bb: seq<Bitboard>, t: Square): int
    requires |bb| == 12
  {
    var q := FirstHolder(bb, t, 0, 12);
    if q < 12 then q else -1
  }

  /**
   * `get_piece_at_square` answers -1 exactly for an empty square, and
   * otherwise a piece whose board holds the square and no board before it.
   */
  lemma PieceAtSpec(bb: seq<Bitboard>, t: Square)
    requires |bb| == 12
    ensures PieceAt(bb, t) == -1 <==> forall q :: 0 <= q < 12 ==> !Bit(bb[q], t)
    ensures PieceAt(bb, t) != -1 ==> 0 <= PieceAt(bb, t) < 12 && Bit(bb[PieceAt(bb, t)], t)
    ensures forall q :: 0 <= q < 12 && q < PieceAt(bb, t) ==> !Bit(bb[q], t)
  {
  }

  /** On boards that do not overlap, the answer is the one board holding the square. */
  lemma PieceAtUnique(bb: seq<Bitboard>, t: Square, p: Piece)
    requires |bb| == 12 && Bit(bb[p], t)
    requires forall q :: 0 <= q < 12 && q != p ==> !Bit(bb[q], t)
    ensures PieceAt(bb, t) == p
  {
    PieceAtSpec(bb, t);
  }

  /** `get_piece_at_square`: the scan over the twelve boards. */
  method GetPieceAtSquare(b: Board, square: Square) returns (piece: int)
    requires b.Valid()
    ensures piece == PieceAt(b.bitboards, square)
  {
    piece := 0;
    while piece < 12
      invariant 0 <= piece <= 12
      invariant FirstHolder(b.bitboards, square, 0, 12) == FirstHolder(b.bitboards, square, piece, 12)
    {
      if GetBit(b.bitboards[piece], square) != 0 {
        return;
      }
      piece := piece + 1;
    }
    piece := -1;
  }

  // ---------------------------------------------------------------------
  // Check
  // ---------------------------------------------------------------------

  /**
   * `in_check`: the side to move's king is attacked by the other side.
   * The engine looks up the king's square with `get_ls1b_index` and would
   * pass -1 on for a missing king; the model asks for the king.
   */
  method InCheck(b: Board) returns (check: bool)
    requires b.Valid() && b.bitboards[PieceOf(5, b.side)] != 0
    ensures check <==> Attacked(b.bitboards, b.occupancies[Both], KingSquare(b.bitboards, b.side), 1 - b.side)
  {
    var king := KingSquare(b.bitboards, b.side);
    check := IsSquareAttacked(b.bitboards, b.occupancies[Both], king, 1 - b.side);
  }

  // ---------------------------------------------------------------------
  // Repetition
  // ---------------------------------------------------------------------

  /**
   * The key occurs earlier in the history at an even distance from
   * `index`, that is, with the same side to move.
   */
  ghost predicate Repeated(table: seq<bv64>, index: int, key: bv64)
    requires index - 2 < |table|
  {
    exists i :: 0 <= i <= index - 2 && (index - i) % 2 == 0 && table[i] == key
  }

  /** `is_repetition`: every second entry back from `index - 2`. */
  method IsRepetition(table: seq<bv64>, index: int, key: bv64) returns (repeated: bool)
    requires index - 2 < |table|
    ensures repeated <==> Repeated(table, index, key)
  {
    var i := index - 2;
    while i >= 0
      invariant i <= index - 2 && (index - i) % 2 == 0
      invariant forall j :: 0 <= j && i < j <= index - 2 && (index - j) % 2 == 0 ==> table[j] != key
      decreases i
    {
      if table[i] == key {
        return true;
      }
      i := i - 2;
    }
    return false;
  }

  /** The position just played (one ply back) never counts: it had the other side to move. */
  lemma RepetitionSkipsOtherSide(table: seq<bv64>, index: int, key: bv64)
    requires 1 <= index <= |table| && index - 2 < |table|
    requires forall i :: 0 <= i < index && i != index - 1 ==> table[i] != key
    ensures !Repeated(table, index, key)
  {
  }

  // ---------------------------------------------------------------------
  // Insufficient material
  // ---------------------------------------------------------------------

  /** The colour of the square numbered i: (rank + file) mod 2. */
  function SquareColour(i: int): (c: int)
    requires 0 <= i < 64
    ensures c == 0 || c == 1
  {
    (i / 8 + i % 8) % 2
  }

  /** Division by 8 read off a rank-and-file decomposition. */
  lemma DivEight(i: int, r: int, f: int)
    requires i == 8 * r + f && 0 <= f < 8
    ensures i / 8 == r && i % 8 == f
  {
  }

  /** Neighbours along a rank have opposite colours. */
  lemma ColourAlternatesOnRank(i: int)
    requires 0 <= i < 64 && i % 8 < 7
    ensures SquareColour(i + 1) != SquareColour(i)
  {
    DivEight(i + 1, i / 8, i % 8 + 1);
  }

  /** Neighbours along a file have opposite colours. */
  lemma ColourAlternatesOnFile(i: int)
    requires 0 <= i < 56
    ensures SquareColour(i + 8) != SquareColour(i)
  {
    DivEight(i + 8, i / 8 + 1, i % 8);
  }

  /** A single bishop's square, as `get_ls1b_index` finds it. */
  function BishopSquare(b: Bitboard): (i: int)
    ensures 0 <= i < 64 || (i == 64 && b == 0)
  {
    LowestSpec(b);
    Lowest(b) as int
  }

  /**
   * The material rule of `is_insufficient_material`, read from the
   * counts: two pieces on the board; three with a lone bishop or a lone
   * knight on either side; four with one bishop each, standing on squares
   * of the same colour.
   */
  predicate Insufficient(bb: seq<Bitboard>, all: Bitboard)
    requires |bb| == 12
  {
    var n := PopCount(all);
    n == 2 ||
    (n == 3 && (PopCount(bb[WhiteBishop]) == 1 || PopCount(bb[BlackBishop]) == 1 ||
                PopCount(bb[WhiteKnight]) == 1 || PopCount(bb[BlackKnight]) == 1)) ||
    (n == 4 && PopCount(bb[WhiteBishop]) == 1 && PopCount(bb[BlackBishop]) == 1 &&
     bb[WhiteBishop] != 0 && bb[BlackBishop] != 0 &&
     SquareColour(BishopSquare(bb[WhiteBishop])) == SquareColour(BishopSquare(bb[BlackBishop])))
  }

  /** The position with the colours exchanged: black's boards become white's and back. */
  function ColourSwapped(bb: seq<Bitboard>): (r: seq<Bitboard>)
    requires |bb| == 12
    ensures |r| == 12 && forall p :: 0 <= p < 12 ==> r[p] == bb[(p + 6) % 12]
  {
    bb[6..] + bb[..6]
  }

  /** The rule treats the two colours alike. */
  lemma InsufficientColourBlind(bb: seq<Bitboard>, all: Bitboard)
    requires |bb| == 12
    ensures Insufficient(ColourSwapped(bb), all) <==> Insufficient(bb, all)
  {
    var r := ColourSwapped(bb);
    assert r[WhiteBishop] == bb[BlackBishop] && r[BlackBishop] == bb[WhiteBishop];
    assert r[WhiteKnight] == bb[BlackKnight] && r[BlackKnight] == bb[WhiteKnight];
  }

  /** Bare kings are always a draw, whatever stands where. */
  lemma BareKings(bb: seq<Bitboard>, all: Bitboard)
    requires |bb| == 12 && PopCount(all) == 2
    ensures Insufficient(bb, all)
  {
  }

  /** Five or more men on the board are never insufficient under this rule. */
  lemma ManyMen(bb: seq<Bitboard>, all: Bitboard)
    requires |bb| == 12 && PopCount(all) >= 5
    ensures !Insufficient(bb, all)
  {
  }

  /** The bishops' squares found by `get_ls1b_index` have the same colour. */
  method SameColourBishops(white: Bitboard, black: Bitboard) returns (same: bool)
    requires PopCount(white) == 1 && PopCount(black) == 1
    ensures same <==> white != 0 && black != 0 && SquareColour(BishopSquare(white)) == SquareColour(BishopSquare(black))
  {
    PopCountZero(white);
    PopCountZero(black);
    var whiteSquare := GetLs1bIndex(white);
    var blackSquare := GetLs1bIndex(black);
    same := SquareColour(whiteSquare) == SquareColour(blackSquare);
  }

  /** `is_insufficient_material`, with the counts taken by `count_bits`. */
  method IsInsufficientMaterial(b: Board) returns (insufficient: bool)
    requires b.Valid()
    ensures insufficient <==> Insufficient(b.bitboards, b.occupancies[Both])
  {
    var total := CountBits(b.occupancies[Both]);
    if total == 2 {
      return true;
    }
    var whiteBishops := CountBits(b.bitboards[WhiteBishop]);
    var blackBishops := CountBits(b.bitboards[BlackBishop]);
    if total == 3 {
      var whiteKnights := CountBits(b.bitboards[WhiteKnight]);
      var blackKnights := CountBits(b.bitboards[BlackKnight]);
      return whiteBishops == 1 || blackBishops == 1 || whiteKnights == 1 || blackKnights == 1;
    }
    if total == 4 && whiteBishops == 1 && blackBishops == 1 {
      insufficient := SameColourBishops(b.bitboards[WhiteBishop], b.bitboards[BlackBishop]);
      return;
    }
    return false;
  }

  // ---------------------------------------------------------------------
  // Draws
  // ---------------------------------------------------------------------

  /** A draw by the fifty-move rule, by repetition, or by material. */
  ghost predicate Drawn(b: Board, table: seq<bv64>, index: int)
    reads b
    requires b.Valid() && index - 2 < |table|
  {
    b.fiftyMove >= 100 || Repeated(table, index, b.hashKey) || Insufficient(b.bitboards, b.occupancies[Both])
  }

  /** `is_draw`: the three tests in order, against the repetition history. */
  method IsDraw(b: Board, table: seq<bv64>, index: int) returns (draw: bool)
    requires b.Valid() && index - 2 < |table|
    ensures draw <==> Drawn(b, table, index)
  {
    if b.fiftyMove >= 100 {
      return true;
    }
    var repeated := IsRepetition(table, index, b.hashKey);
    if repeated {
      return true;
    }
    draw := IsInsufficientMaterial(b);
  }
}
