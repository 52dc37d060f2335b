/**
 * Squares, pieces, and the constant square tables.
 *
 * Squares are numbered a8 = 0, b8 = 1, ..., h1 = 63, with `no_sq` = 64, so
 * the rank index `sq / 8` counts down the board from the eighth rank and the
 * file index `sq % 8` counts from the a-file.
 */
module Squares {
  import opened Bits

  /** `no_sq`: the square value meaning "none". */
  const NoSquare := 64

  /** Rank index: 0 for the eighth rank, 7 for the first. */
  function Rank(s: Square): (r: bv8)
    ensures r < 8
  {
    s / 8
  }

  /** File index: 0 for the a-file, 7 for the h-file. */
  function File(s: Square): (f: bv8)
    ensures f < 8
  {
    s % 8
  }

  /** Every square is its rank and file recombined. */
  lemma RankFile(s: Square)
    ensures s as int == 8 * Rank(s) as int + File(s) as int
  {
  }

  /** The distance between two rank or file indices. */
  function Dist(a: bv8, b: bv8): bv8
  {
    if a < b then b - a else a - b
  }

  // Pieces: P, N, B, R, Q, K are 0 .. 5 and p, n, b, r, q, k are 6 .. 11.
  type Piece = p: int | 0 <= p < 12
  const WhitePawn: Piece := 0
  const WhiteKnight: Piece := 1
  const WhiteBishop: Piece := 2
  const WhiteRook: Piece := 3
  const WhiteQueen: Piece := 4
  const WhiteKing: Piece := 5
  const BlackPawn: Piece := 6
  const BlackKnight: Piece := 7
  const BlackBishop: Piece := 8
  const BlackRook: Piece := 9
  const BlackQueen: Piece := 10
  const BlackKing: Piece := 11

  // Sides: white 0, black 1, both 2 (the third occupancy).
  const White := 0
  const Black := 1
  const Both := 2

  /** The side that owns a piece. */
  function SideOf(p: Piece): (side: int)
    ensures side == White || side == Black
    ensures side == Black <==> p >= 6
  {
    if p < 6 then White else Black
  }

  // ---------------------------------------------------------------------
  // Edge masks
  // ---------------------------------------------------------------------

  const NotAFile: Bitboard := 0xFEFEFEFEFEFEFEFE
  const NotHFile: Bitboard := 0x7F7F7F7F7F7F7F7F
  const NotABFile: Bitboard := 0xFCFCFCFCFCFCFCFC
  const NotGHFile: Bitboard := 0x3F3F3F3F3F3F3F3F

  /** The same four masks as the decimal literals of the single-file engine. */
  lemma DecimalMasks()
    ensures NotAFile == 18374403900871474942 && NotHFile == 9187201950435737471
    ensures NotABFile == 18229723555195321596 && NotGHFile == 4557430888798830399
  {
  }

  lemma NotFileBits(s: Square)
    ensures Bit(NotAFile, s) <==> File(s) != 0
    ensures Bit(NotHFile, s) <==> File(s) != 7
    ensures Bit(NotABFile, s) <==> File(s) > 1
    ensures Bit(NotGHFile, s) <==> File(s) < 6
  {
  }

  /** `file_masks`, index 0 the a-file. */
  const FileMasks: seq<Bitboard> := [
    0x0101010101010101, 0x0202020202020202, 0x0404040404040404, 0x0808080808080808,
    0x1010101010101010, 0x2020202020202020, 0x4040404040404040, 0x8080808080808080]

  /**
   * `rank_masks`.  Entry 0 is bits 56 .. 63, which under a8 = 0 are the
   * squares of the first rank, although it is labelled the eighth.
   */
  const RankMasks: seq<Bitboard> := [
    0xFF00000000000000, 0x00FF000000000000, 0x0000FF0000000000, 0x000000FF00000000,
    0x00000000FF000000, 0x0000000000FF0000, 0x000000000000FF00, 0x00000000000000FF]

  /** A square lies in `file_masks[f]` exactly when its file is f. */
  lemma FileMaskBit(f: int, s: Square)
    requires 0 <= f < 8
    ensures Bit(FileMasks[f], s) <==> File(s) as int == f
  {
  }

  /** A square lies in `rank_masks[i]` exactly when its rank index is 7 - i. */
  lemma RankMaskBit(i: int, s: Square)
    requires 0 <= i < 8
    ensures Bit(RankMasks[i], s) <==> Rank(s) as int == 7 - i
  {
  }

  /** The edge masks are the complements of the file masks. */
  lemma NotFileComplements()
    ensures NotAFile == !FileMasks[0] && NotHFile == !FileMasks[7]
    ensures NotABFile == !(FileMasks[0] | FileMasks[1])
    ensures NotGHFile == !(FileMasks[6] | FileMasks[7])
  {
  }

  /** The file masks partition the board: each square is in exactly one. */
  lemma FileMasksPartition(s: Square)
    ensures Bit(FileMasks[File(s)], s)
    ensures forall f :: 0 <= f < 8 && f != File(s) as int ==> !Bit(FileMasks[f], s)
  {
    forall f | 0 <= f < 8
      ensures Bit(FileMasks[f], s) <==> File(s) as int == f
    {
      FileMaskBit(f, s);
    }
  }

  /** The rank masks partition the board: each square is in exactly one. */
  lemma RankMasksPartition(s: Square)
    ensures Bit(RankMasks[7 - Rank(s) as int], s)
    ensures forall i :: 0 <= i < 8 && i != 7 - Rank(s) as int ==> !Bit(RankMasks[i], s)
  {
    forall i | 0 <= i < 8
      ensures Bit(RankMasks[i], s) <==> Rank(s) as int == 7 - i
    {
      RankMaskBit(i, s);
    }
  }

  // ---------------------------------------------------------------------
  // Coordinates
  // ---------------------------------------------------------------------

  /** The algebraic name of a square: file letter, then rank digit. */
  function Coord(s: Square): (c: string)
    ensures |c| == 2 && 'a' <= c[0] <= 'h' && '1' <= c[1] <= '8'
  {
    [(('a' as int) + File(s) as int) as char, (('8' as int) - Rank(s) as int) as char]
  }

  /** Distinct squares have distinct names. */
  lemma CoordInjective(s: Square, t: Square)
    requires Coord(s) == Coord(t)
    ensures s == t
  {
    assert File(s) == File(t) && Rank(s) == Rank(t);
    RankFile(s);
    RankFile(t);
  }

  /** `square_to_coord`, one rank per row. */
  const SquareToCoord: seq<string> :=
    ["a8", "b8", "c8", "d8", "e8", "f8", "g8", "h8"] +
    ["a7", "b7", "c7", "d7", "e7", "f7", "g7", "h7"] +
    ["a6", "b6", "c6", "d6", "e6", "f6", "g6", "h6"] +
    ["a5", "b5", "c5", "d5", "e5", "f5", "g5", "h5"] +
    ["a4", "b4", "c4", "d4", "e4", "f4", "g4", "h4"] +
    ["a3", "b3", "c3", "d3", "e3", "f3", "g3", "h3"] +
    ["a2", "b2", "c2", "d2", "e2", "f2", "g2", "h2"] +
    ["a1", "b1", "c1", "d1", "e1", "f1", "g1", "h1"] +
    ["-"]

  /** The name of square index i, in integer arithmetic. */
  function CoordOf(i: int): (c: string)
    requires 0 <= i < 64
    ensures |c| == 2
  {
    [(('a' as int) + i % 8) as char, (('8' as int) - i / 8) as char]
  }

  lemma CoordOfSquare(s: Square)
    ensures Coord(s) == CoordOf(s as int)
  {
  }

  lemma CoordRow0(f: int)
    requires 0 <= f < 8
    ensures SquareToCoord[0 + f] == CoordOf(0 + f)
  {
  }

  lemma CoordRow1(f: int)
    requires 0 <= f < 8
    ensures SquareToCoord[8 + f] == CoordOf(8 + f)
  {
  }

  lemma CoordRow2(f: int)
    requires 0 <= f < 8
    ensures SquareToCoord[16 + f] == CoordOf(16 + f)
  {
  }

  lemma CoordRow3(f: int)
    requires 0 <= f < 8
    ensures SquareToCoord[24 + f] == CoordOf(24 + f)
  {
  }

  lemma CoordRow4(f: int)
    requires 0 <= f < 8
    ensures SquareToCoord[32 + f] == CoordOf(32 + f)
  {
  }

  lemma CoordRow5(f: int)
    requires 0 <= f < 8
    ensures SquareToCoord[40 + f] == CoordOf(40 + f)
  {
  }

  lemma CoordRow6(f: int)
    requires 0 <= f < 8
    ensures SquareToCoord[48 + f] == CoordOf(48 + f)
  {
  }

  lemma CoordRow7(f: int)
    requires 0 <= f < 8
    ensures SquareToCoord[56 + f] == CoordOf(56 + f)
  {
  }

  /** `square_to_coord[sq]` names square sq, and entry 64 is "-". */
  lemma SquareToCoordSpec(s: Square)
    ensures SquareToCoord[s] == Coord(s)
    ensures SquareToCoord[NoSquare] == "-"
  {
    var i := s as int;
    CoordOfSquare(s);
    if i < 8 { CoordRow0(i - 0); }
    else if i < 16 { CoordRow1(i - 8); }
    else if i < 24 { CoordRow2(i - 16); }
    else if i < 32 { CoordRow3(i - 24); }
    else if i < 40 { CoordRow4(i - 32); }
    else if i < 48 { CoordRow5(i - 40); }
    else if i < 56 { CoordRow6(i - 48); }
    else if i < 64 { CoordRow7(i - 56); }
  }
}
