/**
 * The evaluation of the modular build: material and piece-square terms
 * summed over a mailbox, the game phase and the tapered blend, the pawn
 * structure, passed-pawn and king-safety terms, and the final sign.
 * Squares run a8 = 0 .. h1 = 63; pieces are the engine's codes, white
 * P N B R Q K = 0..5, black p n b r q k = 6..11, and -1 for an empty square.
 */
module ModularEvaluation {
  import opened CArith
  import opened Evaluation

  // ---------------------------------------------------------------------
  // The mirror table
  // ---------------------------------------------------------------------

  /** `mirror_sq` as written: the square names a8 .. h1 in enum order, one rank per row. */
  const MirrorSqRows: seq<seq<int>> := [
    [0, 1, 2, 3, 4, 5, 6, 7],
    [8, 9, 10, 11, 12, 13, 14, 15],
    [16, 17, 18, 19, 20, 21, 22, 23],
    [24, 25, 26, 27, 28, 29, 30, 31],
    [32, 33, 34, 35, 36, 37, 38, 39],
    [40, 41, 42, 43, 44, 45, 46, 47],
    [48, 49, 50, 51, 52, 53, 54, 55],
    [56, 57, 58, 59, 60, 61, 62, 63]]

  const MirrorSq: seq<int> := seq(64, sq requires 0 <= sq < 64 => MirrorSqRows[sq / 8][sq % 8])

  /** The table maps every square to itself: black's lookups are not mirrored at all. */
  lemma MirrorSqIsIdentity(sq: int)
    requires 0 <= sq < 64
    ensures MirrorSq[sq] == sq
  {
    var f := sq % 8;
    if f == 0 {} else if f == 1 {} else if f == 2 {} else if f == 3 {}
    else if f == 4 {} else if f == 5 {} else if f == 6 {} else {}
  }

  /** The rank flip a colour-mirrored lookup needs: same file, rank 8 - r. */
  function FlipSq(sq: int): (m: int)
    requires 0 <= sq < 64
    ensures 0 <= m < 64 && m % 8 == sq % 8 && m / 8 == 7 - sq / 8
  {
    (7 - sq / 8) * 8 + sq % 8
  }

  /** The flip is an involution, and it moves every square (no rank is its own mirror). */
  lemma FlipInvolution(sq: int)
    requires 0 <= sq < 64
    ensures FlipSq(FlipSq(sq)) == sq
    ensures FlipSq(sq) != sq
  {
  }

  /** The corrected table. */
  const FlippedSq: seq<int> := seq(64, sq requires 0 <= sq < 64 => FlipSq(sq))

  // ---------------------------------------------------------------------
  // Material and piece-square sum
  // ---------------------------------------------------------------------

  type Piece = c: int | -1 <= c < 12

  type Mailbox = b: seq<Piece> | |b| == 64 witness seq(64, _ => -1)

  /** Six tables of 64 entries, indexed by the piece type P N B R Q K. */
  predicate Tables(pst: seq<seq<int>>)
  {
    |pst| == 6 && forall t :: 0 <= t < 6 ==> |pst[t]| == 64
  }

  predicate SquareTable(m: seq<int>)
  {
    |m| == 64 && forall sq :: 0 <= sq < 64 ==> 0 <= m[sq] < 64
  }

  const PieceValuesMg: seq<int> := [82, 337, 365, 477, 1025, 0, 82, 337, 365, 477, 1025, 0]
  const PieceValuesEg: seq<int> := [94, 281, 297, 512, 936, 0, 94, 281, 297, 512, 936, 0]

  /** A value table that gives a black piece the value of the white one. */
  predicate ColourBlind(values: seq<int>)
  {
    |values| == 12 && forall t :: 0 <= t < 6 ==> values[t + 6] == values[t]
  }

  lemma ValueTablesColourBlind()
    ensures ColourBlind(PieceValuesMg) && ColourBlind(PieceValuesEg)
  {
  }

  /** One square's share from white's view: value plus table entry, black's looked up through the mirror. */
  function Term(b: Mailbox, sq: int, values: seq<int>, pst: seq<seq<int>>, mirror: seq<int>): int
    requires 0 <= sq < 64 && |values| == 12 && Tables(pst) && SquareTable(mirror)
  {
    var c := b[sq];
    if c < 0 then 0
    else if c < 6 then values[c] + pst[c][sq]
    else -(values[c] + pst[c - 6][mirror[sq]])
  }

  /** The first n squares of rank index r. */
  function RowScore(b: Mailbox, r: int, n: nat, values: seq<int>, pst: seq<seq<int>>, mirror: seq<int>): int
    requires 0 <= r < 8 && n <= 8 && |values| == 12 && Tables(pst) && SquareTable(mirror)
  {
    if n == 0 then 0 else RowScore(b, r, n - 1, values, pst, mirror) + Term(b, r * 8 + n - 1, values, pst, mirror)
  }

  /** The rank indices lo .. hi - 1. */
  function Rows(b: Mailbox, lo: int, hi: int, values: seq<int>, pst: seq<seq<int>>, mirror: seq<int>): int
    requires 0 <= lo <= hi <= 8 && |values| == 12 && Tables(pst) && SquareTable(mirror)
    decreases hi - lo
  {
    if lo == hi then 0 else RowScore(b, lo, 8, values, pst, mirror) + Rows(b, lo + 1, hi, values, pst, mirror)
  }

  /** `score_mg` or `score_eg` after the twelve piece loops of `evaluate`: the sum over every square. */
  function MaterialScore(b: Mailbox, values: seq<int>, pst: seq<seq<int>>, mirror: seq<int>): int
    requires |values| == 12 && Tables(pst) && SquareTable(mirror)
  {
    Rows(b, 0, 8, values, pst, mirror)
  }

  /** The same position with colours exchanged and the board turned over. */
  function SwapColour(c: Piece): Piece
  {
    if c < 0 then c else if c < 6 then c + 6 else c - 6
  }

  function ColourFlipped(b: Mailbox): (f: Mailbox)
  {
    seq(64, sq requires 0 <= sq < 64 => SwapColour(b[FlipSq(sq)]))
  }

  /** With the rank flip as the mirror, a square of the flipped board is worth minus its partner. */
  lemma TermFlips(b: Mailbox, r: int, f: int, values: seq<int>, pst: seq<seq<int>>)
    requires 0 <= r < 8 && 0 <= f < 8 && ColourBlind(values) && Tables(pst) && SquareTable(FlippedSq)
    ensures Term(ColourFlipped(b), r * 8 + f, values, pst, FlippedSq) == -Term(b, (7 - r) * 8 + f, values, pst, FlippedSq)
  {
    var sq, partner := r * 8 + f, (7 - r) * 8 + f;
    FlipOf(r, f);
    FlipOf(7 - r, f);
    assert FlippedSq[sq] == partner && FlippedSq[partner] == sq;
    assert ColourFlipped(b)[sq] == SwapColour(b[partner]);
    var c := b[partner];
    if c >= 6 {
      assert values[c] == values[c - 6];
    } else if c >= 0 {
      assert values[c + 6] == values[c];
    }
  }

  /** The square on rank index r and file f flips to rank index 7 - r, same file. */
  lemma FlipOf(r: int, f: int)
    requires 0 <= r < 8 && 0 <= f < 8
    ensures FlipSq(r * 8 + f) == (7 - r) * 8 + f
  {
    assert (r * 8 + f) / 8 == r && (r * 8 + f) % 8 == f;
  }

  lemma {:induction false} RowFlips(b: Mailbox, r: int, n: nat, values: seq<int>, pst: seq<seq<int>>)
    requires 0 <= r < 8 && n <= 8 && ColourBlind(values) && Tables(pst) && SquareTable(FlippedSq)
    ensures RowScore(ColourFlipped(b), r, n, values, pst, FlippedSq) == -RowScore(b, 7 - r, n, values, pst, FlippedSq)
  {
    if n > 0 {
      RowFlips(b, r, n - 1, values, pst);
      TermFlips(b, r, n - 1, values, pst);
    }
  }

  /** Peeling the last rank off a range of ranks. */
  lemma {:induction false} RowsLast(b: Mailbox, lo: int, hi: int, values: seq<int>, pst: seq<seq<int>>, mirror: seq<int>)
    requires 0 <= lo < hi <= 8 && |values| == 12 && Tables(pst) && SquareTable(mirror)
    ensures Rows(b, lo, hi, values, pst, mirror) == Rows(b, lo, hi - 1, values, pst, mirror) + RowScore(b, hi - 1, 8, values, pst, mirror)
    decreases hi - lo
  {
    if lo + 1 < hi {
      RowsLast(b, lo + 1, hi, values, pst, mirror);
    }
  }

  lemma {:induction false} RowsFlip(b: Mailbox, lo: int, hi: int, values: seq<int>, pst: seq<seq<int>>)
    requires 0 <= lo <= hi <= 8 && ColourBlind(values) && Tables(pst) && SquareTable(FlippedSq)
    ensures Rows(ColourFlipped(b), lo, hi, values, pst, FlippedSq) == -Rows(b, 8 - hi, 8 - lo, values, pst, FlippedSq)
    decreases hi - lo
  {
    if lo < hi {
      RowsFlip(b, lo + 1, hi, values, pst);
      RowFlips(b, lo, 8, values, pst);
      RowsLast(b, 8 - hi, 8 - lo, values, pst, FlippedSq);
    }
  }

  lemma FlippedSqIsSquareTable()
    ensures SquareTable(FlippedSq)
  {
  }

  /**
   * With the rank flip as the mirror, the material and table sum is
   * antisymmetric: the colour-flipped position scores exactly the negation.
   */
  lemma CorrectedMaterialAntisymmetric(b: Mailbox, values: seq<int>, pst: seq<seq<int>>)
    requires ColourBlind(values) && Tables(pst)
    ensures SquareTable(FlippedSq)
    ensures MaterialScore(ColourFlipped(b), values, pst, FlippedSq) == -MaterialScore(b, values, pst, FlippedSq)
  {
    FlippedSqIsSquareTable();
    RowsFlip(b, 0, 8, values, pst);
  }

  /** `pawn_mg` and `pawn_eg`, rank a8 .. h8 first. */
  const PawnMgRows: seq<seq<int>> := [
    [0, 0, 0, 0, 0, 0, 0, 0],
    [98, 134, 61, 95, 68, 126, 34, -11],
    [-6, 7, 26, 31, 65, 56, 25, -20],
    [-14, 13, 6, 21, 23, 12, 17, -23],
    [-27, -2, -5, 12, 17, 6, 10, -25],
    [-26, -4, -4, -10, 3, 3, 33, -12],
    [-35, -1, -20, -23, -15, 24, 38, -22],
    [0, 0, 0, 0, 0, 0, 0, 0]]

  const PawnEgRows: seq<seq<int>> := [
    [0, 0, 0, 0, 0, 0, 0, 0],
    [178, 173, 158, 134, 147, 132, 165, 187],
    [94, 100, 85, 67, 56, 53, 82, 84],
    [32, 24, 13, 5, -2, 4, 17, 17],
    [13, 9, -3, -7, -7, -8, 3, -1],
    [4, 7, -6, 1, 0, -5, -1, -8],
    [13, 8, 8, 10, 13, 0, 2, -7],
    [0, 0, 0, 0, 0, 0, 0, 0]]

  const PawnMg: seq<int> := seq(64, sq requires 0 <= sq < 64 => PawnMgRows[sq / 8][sq % 8])
  const PawnEg: seq<int> := seq(64, sq requires 0 <= sq < 64 => PawnEgRows[sq / 8][sq % 8])

  /** A white pawn on e2 and a black pawn on e7, nothing else: the position is its own colour flip. */
  const PawnsOnE2E7: Mailbox := seq(64, sq requires 0 <= sq < 64 => if sq == 52 then 0 else if sq == 12 then 6 else -1)

  /** The piece on rank index r, file f. */
  function SquareOf(b: Mailbox, r: int, f: int): Piece
    requires 0 <= r < 8 && 0 <= f < 8
  {
    b[r * 8 + f]
  }

  lemma {:induction false} EmptyRow(b: Mailbox, r: int, n: nat, values: seq<int>, pst: seq<seq<int>>, mirror: seq<int>)
    requires 0 <= r < 8 && n <= 8 && |values| == 12 && Tables(pst) && SquareTable(mirror)
    requires forall f :: 0 <= f < n ==> SquareOf(b, r, f) == -1
    ensures RowScore(b, r, n, values, pst, mirror) == 0
  {
    if n > 0 {
      EmptyRow(b, r, n - 1, values, pst, mirror);
      assert SquareOf(b, r, n - 1) == -1;
    }
  }

  lemma {:induction false} RowWithOnePiece(b: Mailbox, r: int, f0: int, n: nat, values: seq<int>, pst: seq<seq<int>>, mirror: seq<int>)
    requires 0 <= r < 8 && 0 <= f0 < n <= 8 && |values| == 12 && Tables(pst) && SquareTable(mirror)
    requires forall f :: 0 <= f < 8 && f != f0 ==> SquareOf(b, r, f) == -1
    ensures RowScore(b, r, n, values, pst, mirror) == Term(b, r * 8 + f0, values, pst, mirror)
  {
    if n - 1 == f0 {
      EmptyRow(b, r, f0, values, pst, mirror);
    } else {
      RowWithOnePiece(b, r, f0, n - 1, values, pst, mirror);
      assert SquareOf(b, r, n - 1) == -1;
    }
  }

  /** The score of the e2/e7 position is the white pawn's term plus the black pawn's. */
  lemma E2E7Score(values: seq<int>, pst: seq<seq<int>>, mirror: seq<int>)
    requires |values| == 12 && Tables(pst) && SquareTable(mirror)
    ensures MaterialScore(PawnsOnE2E7, values, pst, mirror) == Term(PawnsOnE2E7, 12, values, pst, mirror) + Term(PawnsOnE2E7, 52, values, pst, mirror)
  {
    var b := PawnsOnE2E7;
    forall r | 0 <= r < 8 && r != 1 && r != 6
      ensures RowScore(b, r, 8, values, pst, mirror) == 0
    {
      EmptyRow(b, r, 8, values, pst, mirror);
    }
    RowWithOnePiece(b, 1, 4, 8, values, pst, mirror);
    RowWithOnePiece(b, 6, 4, 8, values, pst, mirror);
  }

  /**
   * As written, the e2/e7 position, which is its own colour flip and so
   * should score 0, scores -83 in the middlegame and -134 in the endgame
   * sum: black's e7 pawn is read from white's e7 entry, not from e2's.
   */
  lemma MirrorAsWrittenSkewsSymmetricPosition(pst: seq<seq<int>>)
    requires Tables(pst) && pst[0] == PawnMg
    ensures ColourFlipped(PawnsOnE2E7) == PawnsOnE2E7
    ensures SquareTable(MirrorSq)
    ensures MaterialScore(PawnsOnE2E7, PieceValuesMg, pst, MirrorSq) == -83
    ensures MaterialScore(PawnsOnE2E7, PieceValuesMg, pst, FlippedSq) == 0
  {
    var b := PawnsOnE2E7;
    forall sq | 0 <= sq < 64
      ensures ColourFlipped(b)[sq] == b[sq]
    {
      var m := FlipSq(sq);
      assert m == 52 <==> sq == 12;
      assert m == 12 <==> sq == 52;
    }
    forall sq | 0 <= sq < 64
      ensures 0 <= MirrorSq[sq] < 64
    {
      MirrorSqIsIdentity(sq);
    }
    MirrorSqIsIdentity(12);
    E2E7Score(PieceValuesMg, pst, MirrorSq);
    assert PawnMg[12] == 68 && PawnMg[52] == -15;
    FlippedSqIsSquareTable();
    E2E7Score(PieceValuesMg, pst, FlippedSq);
    assert FlippedSq[12] == 52;
  }

  /** The same position in the endgame sum. */
  lemma MirrorAsWrittenSkewsEndgame(pst: seq<seq<int>>)
    requires Tables(pst) && pst[0] == PawnEg
    ensures SquareTable(MirrorSq)
    ensures MaterialScore(PawnsOnE2E7, PieceValuesEg, pst, MirrorSq) == -134
  {
    forall sq | 0 <= sq < 64
      ensures 0 <= MirrorSq[sq] < 64
    {
      MirrorSqIsIdentity(sq);
    }
    MirrorSqIsIdentity(12);
    E2E7Score(PieceValuesEg, pst, MirrorSq);
    assert PawnEg[12] == 147 && PawnEg[52] == 13;
  }

  // ---------------------------------------------------------------------
  // Phase and taper
  // ---------------------------------------------------------------------

  /**
   * `get_game_phase`: 256 * (24 - units) / 24 with C division, clamped to
   * [0, 256]; 0 with all non-pawn material on the board, 256 with none.
   */
  function GamePhase(units: nat): (phase: int)
    ensures 0 <= phase <= 256
    ensures units >= 24 ==> phase == 0
    ensures units == 0 ==> phase == 256
  {
    var p := CDiv(256 * (24 - units), 24);
    if p < 0 then 0 else if p > 256 then 256 else p
  }

  /** Trading pieces never moves the phase back toward the opening. */
  lemma GamePhaseFallsWithMaterial(u: nat, v: nat)
    requires u <= v
    ensures GamePhase(v) <= GamePhase(u)
  {
    CDivMonotone(256 * (24 - v), 256 * (24 - u), 24);
  }

  /** The endgame side of the engine's phase scale: at most 12 units (a mop-up phase) is at least 128 here. */
  lemma GamePhaseAgainstEngineScale(units: nat)
    requires units <= 24
    ensures units <= 12 <==> GamePhase(units) >= 128
  {
  }

  /** `(mg * (256 - phase) + eg * phase) / 256`, the blend used for the piece sum and for piece activity. */
  function Taper(mg: int, eg: int, phase: int): (s: int)
    requires 0 <= phase <= 256
    ensures phase == 0 ==> s == mg
    ensures phase == 256 ==> s == eg
    ensures (if mg <= eg then mg else eg) <= s <= (if mg <= eg then eg else mg)
  {
    var num := mg * (256 - phase) + eg * phase;
    TaperBetween(mg, eg, phase);
    CDivMonotone(256 * (if mg <= eg then mg else eg), num, 256);
    CDivMonotone(num, 256 * (if mg <= eg then eg else mg), 256);
    CDivExact(if mg <= eg then mg else eg);
    CDivExact(if mg <= eg then eg else mg);
    CDiv(num, 256)
  }

  lemma TaperBetween(mg: int, eg: int, phase: int)
    requires 0 <= phase <= 256
    ensures 256 * (if mg <= eg then mg else eg) <= mg * (256 - phase) + eg * phase <= 256 * (if mg <= eg then eg else mg)
  {
    var lo, hi := if mg <= eg then mg else eg, if mg <= eg then eg else mg;
    assert mg * (256 - phase) + eg * phase == lo * 256 + (if mg <= eg then (eg - mg) * phase else (mg - eg) * (256 - phase));
    assert mg * (256 - phase) + eg * phase == hi * 256 - (if mg <= eg then (eg - mg) * (256 - phase) else (mg - eg) * phase);
  }

  lemma CDivExact(m: int)
    ensures CDiv(256 * m, 256) == m
  {
    if m < 0 {
      CDivNegate(256 * -m, 256);
    }
  }

  /** C division truncates toward zero, so the blend of negated scores is the negated blend. */
  lemma TaperAntisymmetric(mg: int, eg: int, phase: int)
    requires 0 <= phase <= 256
    ensures Taper(-mg, -eg, phase) == -Taper(mg, eg, phase)
  {
    assert (-mg) * (256 - phase) + (-eg) * phase == -(mg * (256 - phase) + eg * phase);
    CDivNegate(mg * (256 - phase) + eg * phase, 256);
  }

  // ---------------------------------------------------------------------
  // Pawn structure
  // ---------------------------------------------------------------------

  const PawnChainBonus := 12
  const PawnDuoBonus := 8
  const IsolatedPenalty := 15
  const DoubledPenalty := 10

  /** How many own pawns stand on file f among the first n rank indices. */
  function FileCount(own: Pawns, f: int, n: nat): (c: nat)
    requires 0 <= f < 8 && n <= 8
    ensures c <= n
  {
    if n == 0 then 0 else FileCount(own, f, n - 1) + (if own[(n - 1) * 8 + f] then 1 else 0)
  }

  /** Some own pawn on file f. */
  predicate FileOccupied(own: Pawns, f: int)
  {
    0 <= f < 8 && FileCount(own, f, 8) > 0
  }

  /** The defenders counted for the pawn on sq: sq + 7 and sq + 9 for white, sq - 9 and sq - 7 for black. */
  function Defenders(own: Pawns, sq: int, white: bool): (n: int)
    requires 0 <= sq < 64
    ensures 0 <= n <= 2
    ensures n > 0 <==> Defended(own, sq, white)
  {
    var r, f := sq / 8, sq % 8;
    var behind := if white then r + 1 else r - 1;
    (if PawnAt(own, behind, f - 1) then 1 else 0) + (if PawnAt(own, behind, f + 1) then 1 else 0)
  }

  /** One pawn's share of `evaluate_pawn_structure`. */
  function PawnTerm(own: Pawns, sq: int, white: bool): int
    requires 0 <= sq < 64
  {
    var f := sq % 8;
    var onFile := FileCount(own, f, 8);
    PawnChainBonus * Defenders(own, sq, white)
    + (if PawnAt(own, sq / 8, f + 1) then PawnDuoBonus else 0)
    - (if !FileOccupied(own, f - 1) && !FileOccupied(own, f + 1) then IsolatedPenalty else 0)
    - (if onFile > 1 then DoubledPenalty * (onFile - 1) else 0)
  }

  /** An isolated pawn has no neighbour on either side, so it earns neither chain nor duo bonus. */
  lemma {:induction false} IsolatedEarnsNoBonus(own: Pawns, sq: int, white: bool)
    requires 0 <= sq < 64
    requires !FileOccupied(own, sq % 8 - 1) && !FileOccupied(own, sq % 8 + 1)
    ensures Defenders(own, sq, white) == 0 && !PawnAt(own, sq / 8, sq % 8 + 1)
    ensures PawnTerm(own, sq, white) <= -IsolatedPenalty
  {
    var r, f := sq / 8, sq % 8;
    forall g, rr | (g == f - 1 || g == f + 1) && 0 <= rr < 8
      ensures !PawnAt(own, rr, g)
    {
      if 0 <= g < 8 && own[rr * 8 + g] {
        FileCountSees(own, g, rr, 8);
      }
    }
  }

  lemma {:induction false} FileCountSees(own: Pawns, f: int, r: int, n: nat)
    requires 0 <= f < 8 && 0 <= r < n <= 8 && own[r * 8 + f]
    ensures FileCount(own, f, n) > 0
  {
    if r < n - 1 {
      FileCountSees(own, f, r, n - 1);
    }
  }

  /** A pawn's structure term lies between -85 (isolated and eight on a file) and +32 (two defenders and a duo). */
  lemma PawnTermBounds(own: Pawns, sq: int, white: bool)
    requires 0 <= sq < 64
    ensures -IsolatedPenalty - 7 * DoubledPenalty <= PawnTerm(own, sq, white) <= 2 * PawnChainBonus + PawnDuoBonus
  {
  }

  /** The sum over the own pawns on the first n squares. */
  function StructureScore(own: Pawns, white: bool, n: nat): int
    requires n <= 64
  {
    if n == 0 then 0 else StructureScore(own, white, n - 1) + (if own[n - 1] then PawnTerm(own, n - 1, white) else 0)
  }

  /** The body of the pawn loop: chain, duo, isolated and doubled tests in the engine's order. */
  method PawnStructureTerm(own: Pawns, sq: int, white: bool) returns (score: int)
    requires 0 <= sq < 64
    ensures score == PawnTerm(own, sq, white)
  {
    score := 0;
    var file := sq % 8;
    var rank := sq / 8;
    var behind := if white then rank + 1 else rank - 1;
    if file > 0 && PawnAt(own, behind, file - 1) {
      score := score + PawnChainBonus;
    }
    if file < 7 && PawnAt(own, behind, file + 1) {
      score := score + PawnChainBonus;
    }
    if file < 7 && own[sq + 1] {
      score := score + PawnDuoBonus;
    }
    if !FileOccupied(own, file - 1) && !FileOccupied(own, file + 1) {
      score := score - IsolatedPenalty;
    }
    var onFile := FileCount(own, file, 8);
    if onFile > 1 {
      score := score - DoubledPenalty * (onFile - 1);
    }
  }

  /** `evaluate_pawn_structure`: one pass over the pawns. */
  method EvaluatePawnStructure(own: Pawns, white: bool) returns (score: int)
    ensures score == StructureScore(own, white, 64)
  {
    score := 0;
    var sq := 0;
    while sq < 64
      invariant 0 <= sq <= 64 && score == StructureScore(own, white, sq)
    {
      if own[sq] {
        var term := PawnStructureTerm(own, sq, white);
        score := score + term;
      }
      sq := sq + 1;
    }
  }

  // ---------------------------------------------------------------------
  // Passed pawns
  // ---------------------------------------------------------------------

  const PassedPawnBonus: seq<int> := [0, 10, 17, 35, 55, 90, 140, 0]
  const PassedPawnKingDistance := 5

  /** The front span: the pawn's file and the neighbouring files, on every rank index ahead. */
  predicate InFrontSpan(sq: int, white: bool, s: int)
    requires 0 <= sq < 64 && 0 <= s < 64
  {
    Ahead(white, sq / 8, s / 8) && sq % 8 - 1 <= s % 8 <= sq % 8 + 1
  }

  /** The span loops of `evaluate_passed_pawns`: the own file, then the left and right files when they exist. */
  method FrontSpan(sq: int, white: bool) returns (span: Pawns)
    requires 0 <= sq < 64
    ensures forall s :: 0 <= s < 64 ==> (span[s] <==> InFrontSpan(sq, white, s))
  {
    var file := sq % 8;
    span := seq(64, _ => false);
    var df := -1;
    while df <= 1
      invariant -1 <= df <= 2
      invariant forall s :: 0 <= s < 64 ==> (span[s] <==> InFrontSpan(sq, white, s) && s % 8 < file + df)
    {
      if 0 <= file + df <= 7 {
        span := AddFileAhead(span, sq, white, file + df);
      }
      df := df + 1;
    }
  }

  /** One of the span loops: set the squares of file f on every rank index ahead. */
  method AddFileAhead(span: Pawns, sq: int, white: bool, f: int) returns (out: Pawns)
    requires 0 <= sq < 64 && 0 <= f < 8
    ensures forall s :: 0 <= s < 64 ==> (out[s] <==> span[s] || (s % 8 == f && Ahead(white, sq / 8, s / 8)))
  {
    out := span;
    var r := if white then sq / 8 - 1 else sq / 8 + 1;
    while if white then r >= 0 else r < 8
      invariant if white then -1 <= r < sq / 8 else sq / 8 < r <= 8
      invariant forall s :: 0 <= s < 64 ==> (out[s] <==> span[s] || (s % 8 == f && Ahead(white, sq / 8, s / 8) && (if white then r < s / 8 else s / 8 < r)))
      decreases if white then r + 1 else 8 - r
    {
      out := out[r * 8 + f := true];
      r := if white then r - 1 else r + 1;
    }
  }

  /** The span test and the engine's `is_passed_pawn` scan agree on every pawn. */
  lemma FrontSpanMatchesEngine(enemy: Pawns, sq: int, white: bool)
    requires 0 <= sq < 64
    ensures (forall s :: 0 <= s < 64 && InFrontSpan(sq, white, s) ==> !enemy[s]) <==> Passed(enemy, sq, white)
  {
    if forall s :: 0 <= s < 64 && InFrontSpan(sq, white, s) ==> !enemy[s] {
      forall r, f | Ahead(white, sq / 8, r) && sq % 8 - 1 <= f <= sq % 8 + 1
        ensures !PawnAt(enemy, r, f)
      {
        if 0 <= f < 8 {
          var s := r * 8 + f;
          assert s / 8 == r && s % 8 == f;
          assert InFrontSpan(sq, white, s);
        }
      }
    }
    if Passed(enemy, sq, white) {
      forall s | 0 <= s < 64 && InFrontSpan(sq, white, s)
        ensures !enemy[s]
      {
        assert s == s / 8 * 8 + s % 8;
        assert !PawnAt(enemy, s / 8, s % 8);
      }
    }
  }

  /** Rank and file steps between two squares. */
  function Manhattan(a: int, b: int): (d: nat)
    requires 0 <= a < 64 && 0 <= b < 64
    ensures d <= 14
  {
    Abs(a % 8 - b % 8) + Abs(a / 8 - b / 8)
  }

  /**
   * The bonus for a passed pawn: the table entry for its rank counted from
   * its own side, plus five per step the enemy king is farther from the
   * promotion square than the own king once the phase passes 128.
   */
  function PassedBonus(sq: int, white: bool, ownKing: int, enemyKing: int, phase: int): (bonus: int)
    requires 0 <= sq < 64 && 0 <= ownKing < 64 && 0 <= enemyKing < 64
    ensures phase <= 128 ==> bonus == PassedPawnBonus[if white then 7 - sq / 8 else sq / 8]
    ensures phase > 128 ==>
              (bonus - PassedPawnBonus[if white then 7 - sq / 8 else sq / 8] ==
               PassedPawnKingDistance * (Manhattan(enemyKing, PromotionSquare(sq, white)) - Manhattan(ownKing, PromotionSquare(sq, white))))
  {
    var rank := if white then 7 - sq / 8 else sq / 8;
    var promo := PromotionSquare(sq, white);
    var enemyDist := Manhattan(enemyKing, promo);
    var ownDist := Manhattan(ownKing, promo);
    PassedPawnBonus[rank] + (if phase > 128 then (enemyDist - ownDist) * PassedPawnKingDistance else 0)
  }

  /** The square the pawn promotes on: rank index 0 for white, 7 for black, same file. */
  function PromotionSquare(sq: int, white: bool): (p: int)
    requires 0 <= sq < 64
    ensures 0 <= p < 64 && p % 8 == sq % 8 && p / 8 == (if white then 0 else 7)
  {
    if white then sq % 8 else 56 + sq % 8
  }

  /** The table grows with every step toward promotion from the second rank to the seventh. */
  lemma PassedBonusGrowsWithRank(i: int, j: int)
    requires 1 <= i < j <= 6
    ensures PassedPawnBonus[i] < PassedPawnBonus[j]
  {
  }

  /** In the endgame, bringing the own king closer to the promotion square never lowers the bonus. */
  lemma PassedBonusRewardsKing(sq: int, white: bool, k1: int, k2: int, enemyKing: int, phase: int)
    requires 0 <= sq < 64 && 0 <= k1 < 64 && 0 <= k2 < 64 && 0 <= enemyKing < 64
    requires Manhattan(k1, PromotionSquare(sq, white)) <= Manhattan(k2, PromotionSquare(sq, white))
    ensures PassedBonus(sq, white, k1, enemyKing, phase) >= PassedBonus(sq, white, k2, enemyKing, phase)
  {
  }

  /** The passed-pawn sum over the own pawns on the first n squares. */
  ghost function PassedScore(own: Pawns, enemy: Pawns, white: bool, ownKing: int, enemyKing: int, phase: int, n: nat): int
    requires n <= 64 && 0 <= ownKing < 64 && 0 <= enemyKing < 64
  {
    if n == 0 then 0
    else PassedScore(own, enemy, white, ownKing, enemyKing, phase, n - 1) +
         (if own[n - 1] && Passed(enemy, n - 1, white) then PassedBonus(n - 1, white, ownKing, enemyKing, phase) else 0)
  }

  /** The passed test of `evaluate_passed_pawns`: no enemy pawn inside the front span. */
  method IsPassed(enemy: Pawns, sq: int, white: bool) returns (passed: bool)
    requires 0 <= sq < 64
    ensures passed <==> Passed(enemy, sq, white)
  {
    var span := FrontSpan(sq, white);
    passed := !exists s :: 0 <= s < 64 && span[s] && enemy[s];
    FrontSpanMatchesEngine(enemy, sq, white);
  }

  /** `evaluate_passed_pawns`: for each own pawn, build the span, test it against the enemy pawns, add the bonus. */
  method EvaluatePassedPawns(own: Pawns, enemy: Pawns, white: bool, ownKing: int, enemyKing: int, phase: int) returns (score: int)
    requires 0 <= ownKing < 64 && 0 <= enemyKing < 64
    ensures score == PassedScore(own, enemy, white, ownKing, enemyKing, phase, 64)
  {
    score := 0;
    var sq := 0;
    while sq < 64
      invariant 0 <= sq <= 64 && score == PassedScore(own, enemy, white, ownKing, enemyKing, phase, sq)
    {
      if own[sq] {
        var passed := IsPassed(enemy, sq, white);
        if passed {
          score := score + PassedBonus(sq, white, ownKing, enemyKing, phase);
        }
      }
      sq := sq + 1;
    }
  }

  // ---------------------------------------------------------------------
  // King safety
  // ---------------------------------------------------------------------

  const PawnShieldBonus: seq<int> := [35, 20, 8, 0]

  /** The shield for one file next to the king: 35 for a pawn one rank ahead, else 20 for one two ranks ahead. */
  function ShieldFile(own: Pawns, kingRank: int, f: int, white: bool): (s: int)
    ensures 0 <= s <= 35
  {
    var step := if white then -1 else 1;
    if !(0 <= kingRank + step < 8) || !(0 <= f < 8) then 0
    else if PawnAt(own, kingRank + step, f) then PawnShieldBonus[0]
    else if PawnAt(own, kingRank + 2 * step, f) then PawnShieldBonus[1]
    else 0
  }

  /** The file penalty next to the king: -20 with no own pawn on it, -35 with no pawn of either colour. */
  function OpenFile(own: Pawns, enemy: Pawns, f: int): (s: int)
    ensures -35 <= s <= 0
  {
    if !(0 <= f < 8) || FileOccupied(own, f) then 0
    else if FileOccupied(enemy, f) then -20
    else -35
  }

  /** `evaluate_king_safety`: nothing past phase 200, else the shield and open-file terms on the king's file and its neighbours. */
  function KingSafety(own: Pawns, enemy: Pawns, king: int, white: bool, phase: int): (s: int)
    requires 0 <= king < 64
    ensures phase > 200 ==> s == 0
    ensures -105 <= s <= 105
  {
    if phase > 200 then 0
    else
      var r, f := king / 8, king % 8;
      ShieldFile(own, r, f - 1, white) + ShieldFile(own, r, f, white) + ShieldFile(own, r, f + 1, white)
      + OpenFile(own, enemy, f - 1) + OpenFile(own, enemy, f) + OpenFile(own, enemy, f + 1)
  }

  /** A king on the edge file has only two neighbouring files to be judged on: the third is worth nothing either way. */
  lemma KingSafetyAtEdge(own: Pawns, enemy: Pawns, king: int, white: bool, phase: int)
    requires 0 <= king < 64 && king % 8 == 0 && phase <= 200
    ensures KingSafety(own, enemy, king, white, phase) ==
              ShieldFile(own, king / 8, 0, white) + ShieldFile(own, king / 8, 1, white) + OpenFile(own, enemy, 0) + OpenFile(own, enemy, 1)
  {
  }

  // ---------------------------------------------------------------------
  // The side-to-move sign
  // ---------------------------------------------------------------------

  /** As written: 15 is added to white's view before the sign, so black to move loses it. */
  function ModularFinishAsWritten(score: int, white: bool): int
  {
    var s := score + 15;
    if white then s else -s
  }

  /** With black to move the bonus turns into a 15-point penalty, and a position and its colour flip differ by 30. */
  lemma TempoPenalisesBlack(score: int)
    ensures ModularFinishAsWritten(score, false) == -score - 15
    ensures ModularFinishAsWritten(score, true) - ModularFinishAsWritten(-score, false) == 30
  {
  }

  /** Corrected: the bonus is added for the side to move, as the engine's `evaluate` does. */
  function ModularFinish(score: int, white: bool): (r: int)
    ensures r == (if white then score else -score) + 15
  {
    var s := score + (if white then 15 else -15);
    if white then s else -s
  }

  /** The corrected finish scores a position and its colour flip alike. */
  lemma TempoForSideToMove(score: int)
    ensures ModularFinish(score, true) == ModularFinish(-score, false)
  {
  }
}
