/**
 * The integer helpers of the engine's hand-crafted evaluation: square
 * distances, the mop-up term, the passed-pawn and outpost tests, the pawn
 * chain and restriction sums, the phase scale and the final sign.  A
 * pawn bitboard is given by its membership, a 64-entry sequence indexed
 * by square (a8 = 0 .. h1 = 63, rank index `sq / 8`, file `sq % 8`).
 */
module Evaluation {

  /** A pawn set: which of the 64 squares hold a pawn of one colour. */
  type Pawns = s: seq<bool> | |s| == 64 witness seq(64, _ => false)

  /** `get_bit(pawns, r * 8 + f)`, false off the board. */
  function PawnAt(b: Pawns, r: int, f: int): bool
  {
    if 0 <= r < 8 && 0 <= f < 8 then b[r * 8 + f] else false
  }

  function Abs(x: int): nat
  {
    if x < 0 then -x else x
  }

  // ---------------------------------------------------------------------
  // Distances and mop-up
  // ---------------------------------------------------------------------

  /** `square_distance` (and `mop_up_square_distance`, its copy): the larger of the rank and file differences. */
  function SquareDistance(a: int, b: int): (d: int)
    requires 0 <= a < 64 && 0 <= b < 64
    ensures 0 <= d <= 7
    ensures d == 0 <==> a == b
  {
    KingSteps(a / 8, a % 8, b / 8, b % 8)
  }

  /** The distance is the number of king steps: it is symmetric and obeys the triangle inequality. */
  lemma DistanceMetric(a: int, b: int, c: int)
    requires 0 <= a < 64 && 0 <= b < 64 && 0 <= c < 64
    ensures SquareDistance(a, b) == SquareDistance(b, a)
    ensures SquareDistance(a, c) <= SquareDistance(a, b) + SquareDistance(b, c)
  {
    KingStepsTriangle(a / 8, a % 8, b / 8, b % 8, c / 8, c % 8);
  }

  /** The larger of two coordinate differences, on any rank and file indices. */
  function KingSteps(ra: int, fa: int, rb: int, fb: int): int
  {
    var dr, df := Abs(ra - rb), Abs(fa - fb);
    if dr > df then dr else df
  }

  lemma KingStepsTriangle(ra: int, fa: int, rb: int, fb: int, rc: int, fc: int)
    ensures KingSteps(ra, fa, rb, fb) == KingSteps(rb, fb, ra, fa)
    ensures KingSteps(ra, fa, rc, fc) <= KingSteps(ra, fa, rb, fb) + KingSteps(rb, fb, rc, fc)
  {
  }

  /**
   * `center_manhattan_distance`: moves a king needs to reach the central
   * four squares, laid out as the engine writes it, one rank per row.
   */
  const CenterManhattanRows: seq<seq<int>> := [
    [6, 5, 4, 3, 3, 4, 5, 6],
    [5, 4, 3, 2, 2, 3, 4, 5],
    [4, 3, 2, 1, 1, 2, 3, 4],
    [3, 2, 1, 0, 0, 1, 2, 3],
    [3, 2, 1, 0, 0, 1, 2, 3],
    [4, 3, 2, 1, 1, 2, 3, 4],
    [5, 4, 3, 2, 2, 3, 4, 5],
    [6, 5, 4, 3, 3, 4, 5, 6]]

  /** `center_manhattan_distance[sq]`. */
  function CenterManhattan(sq: int): int
    requires 0 <= sq < 64
  {
    CenterManhattanRows[sq / 8][sq % 8]
  }

  /** The steps from a rank or file index to the nearer of the two central ones. */
  function ToCentre(x: int): int
  {
    if x <= 3 then 3 - x else x - 4
  }

  /** The table is the sum of the rank and file distances to the centre, so it lies in [0, 6] and is symmetric under both flips. */
  lemma CenterManhattanFormula(sq: int)
    requires 0 <= sq < 64
    ensures CenterManhattan(sq) == ToCentre(sq / 8) + ToCentre(sq % 8)
    ensures 0 <= CenterManhattan(sq) <= 6
    ensures CenterManhattan(sq) == CenterManhattan((7 - sq / 8) * 8 + sq % 8)
    ensures CenterManhattan(sq) == CenterManhattan(sq / 8 * 8 + 7 - sq % 8)
  {
    var r, f := sq / 8, sq % 8;
    var rankFlip, fileFlip := (7 - r) * 8 + f, r * 8 + 7 - f;
    assert rankFlip / 8 == 7 - r && rankFlip % 8 == f;
    assert fileFlip / 8 == r && fileFlip % 8 == 7 - f;
    TableEntry(sq);
    TableEntry(rankFlip);
    TableEntry(fileFlip);
  }

  lemma TableEntry(sq: int)
    requires 0 <= sq < 64
    ensures CenterManhattan(sq) == ToCentre(sq / 8) + ToCentre(sq % 8)
  {
    var f := sq % 8;
    if f == 0 {} else if f == 1 {} else if f == 2 {} else if f == 3 {}
    else if f == 4 {} else if f == 5 {} else if f == 6 {} else {}
  }

  /**
   * `mop_up_eval`: ten per step the losing king stands from the centre,
   * plus four per step the winning king is closer than 14; the winning
   * side's colour is not used.
   */
  function MopUpEval(losingKing: int, winningKing: int): (score: int)
    requires 0 <= losingKing < 64 && 0 <= winningKing < 64
    ensures 28 <= score <= 116
  {
    CenterManhattanFormula(losingKing);
    CenterManhattan(losingKing) * 10 + (14 - SquareDistance(winningKing, losingKing)) * 4
  }

  /** Driving the losing king outwards and bringing the winning king closer both raise the score. */
  lemma MopUpRewardsPressure(losing: int, w1: int, w2: int, losing2: int)
    requires 0 <= losing < 64 && 0 <= w1 < 64 && 0 <= w2 < 64 && 0 <= losing2 < 64
    requires SquareDistance(w1, losing) < SquareDistance(w2, losing)
    ensures MopUpEval(losing, w1) > MopUpEval(losing, w2)
    ensures CenterManhattan(losing2) > CenterManhattan(losing) && SquareDistance(w1, losing2) == SquareDistance(w1, losing) ==>
              MopUpEval(losing2, w1) > MopUpEval(losing, w1)
  {
  }

  // ---------------------------------------------------------------------
  // Pawn tests
  // ---------------------------------------------------------------------

  /** The rank indices ahead of a pawn: toward 0 for white, toward 7 for black. */
  predicate Ahead(white: bool, rank: int, r: int)
  {
    if white then 0 <= r < rank else rank < r < 8
  }

  /** No enemy pawn on the pawn's file or a neighbouring file anywhere ahead of it. */
  ghost predicate Passed(enemy: Pawns, sq: int, white: bool)
    requires 0 <= sq < 64
  {
    forall r, f :: Ahead(white, sq / 8, r) && sq % 8 - 1 <= f <= sq % 8 + 1 ==> !PawnAt(enemy, r, f)
  }

  /** `is_passed_pawn`: the nested scans of the ranks ahead and the three files. */
  method IsPassedPawn(enemy: Pawns, sq: int, white: bool) returns (passed: bool)
    requires 0 <= sq < 64
    ensures passed <==> Passed(enemy, sq, white)
  {
    var file, rank := sq % 8, sq / 8;
    if white {
      var r := rank - 1;
      while r >= 0
        invariant -1 <= r < rank
        invariant forall r', f :: r < r' < rank && file - 1 <= f <= file + 1 ==> !PawnAt(enemy, r', f)
      {
        var f := file - 1;
        while f <= file + 1
          invariant file - 1 <= f <= file + 2
          invariant forall f' :: file - 1 <= f' < f ==> !PawnAt(enemy, r, f')
        {
          if 0 <= f <= 7 && enemy[r * 8 + f] {
            assert PawnAt(enemy, r, f) && Ahead(white, rank, r);
            return false;
          }
          f := f + 1;
        }
        r := r - 1;
      }
      return true;
    } else {
      var r := rank + 1;
      while r <= 7
        invariant rank < r <= 8
        invariant forall r', f :: rank < r' < r && file - 1 <= f <= file + 1 ==> !PawnAt(enemy, r', f)
      {
        var f := file - 1;
        while f <= file + 1
          invariant file - 1 <= f <= file + 2
          invariant forall f' :: file - 1 <= f' < f ==> !PawnAt(enemy, r, f')
        {
          if 0 <= f <= 7 && enemy[r * 8 + f] {
            assert PawnAt(enemy, r, f) && Ahead(white, rank, r);
            return false;
          }
          f := f + 1;
        }
        r := r + 1;
      }
      return true;
    }
  }

  /**
   * Defended by an own pawn: `pawn_attacks[opponent][sq] & own`, the
   * squares diagonally behind sq (one rank toward the pawn's own side).
   */
  predicate Defended(own: Pawns, sq: int, white: bool)
    requires 0 <= sq < 64
  {
    var behind := if white then sq / 8 + 1 else sq / 8 - 1;
    PawnAt(own, behind, sq % 8 - 1) || PawnAt(own, behind, sq % 8 + 1)
  }

  /**
   * An outpost: in the opponent's half (rank index at most 3 for white, at
   * least 4 for black), defended by an own pawn, and no enemy pawn on
   * either neighbouring file ahead that could ever chase the piece away.
   */
  ghost predicate Outpost(own: Pawns, enemy: Pawns, sq: int, white: bool)
    requires 0 <= sq < 64
  {
    (if white then sq / 8 <= 3 else sq / 8 >= 4) && Defended(own, sq, white) &&
    forall r, f :: Ahead(white, sq / 8, r) && (f == sq % 8 - 1 || f == sq % 8 + 1) ==> !PawnAt(enemy, r, f)
  }

  /** `is_outpost`: the half test, the defender test, then the scan of the two neighbouring files ahead. */
  method IsOutpost(own: Pawns, enemy: Pawns, sq: int, white: bool) returns (outpost: bool)
    requires 0 <= sq < 64
    ensures outpost <==> Outpost(own, enemy, sq, white)
  {
    var file, rank := sq % 8, sq / 8;
    if white && rank > 3 {
      return false;
    }
    if !white && rank < 4 {
      return false;
    }
    if !Defended(own, sq, white) {
      return false;
    }
    var r := if white then rank - 1 else rank + 1;
    while if white then r >= 0 else r <= 7
      invariant if white then -1 <= r < rank else rank < r <= 8
      invariant forall r', f :: Ahead(white, rank, r') && (if white then r < r' else r' < r) && (f == file - 1 || f == file + 1) ==> !PawnAt(enemy, r', f)
      decreases if white then r + 1 else 8 - r
    {
      var f := file - 1;
      while f <= file + 1
        invariant f == file - 1 || f == file + 1 || f == file + 3
        invariant forall f' :: (f' == file - 1 || f' == file + 1) && f' < f ==> !PawnAt(enemy, r, f')
      {
        if 0 <= f <= 7 && enemy[r * 8 + f] {
          assert PawnAt(enemy, r, f) && Ahead(white, rank, r);
          return false;
        }
        f := f + 2;
      }
      r := if white then r - 1 else r + 1;
    }
    return true;
  }

  /** Every outpost of white's is a square no black pawn can ever attack: no black pawn stands ahead on a neighbouring file. */
  lemma OutpostSafeFromPawns(own: Pawns, enemy: Pawns, sq: int, r: int)
    requires 0 <= sq < 64 && Outpost(own, enemy, sq, true) && 0 <= r < sq / 8
    ensures !PawnAt(enemy, r, sq % 8 - 1) && !PawnAt(enemy, r, sq % 8 + 1)
  {
  }

  // ---------------------------------------------------------------------
  // Pawn chain and restriction
  // ---------------------------------------------------------------------

  const PawnChainBonus := 10

  /** How many of the pawns on the first n squares are defended by another pawn of theirs. */
  function DefendedCount(pawns: Pawns, white: bool, n: nat): (c: nat)
    requires n <= 64
    ensures c <= n
  {
    if n == 0 then 0
    else DefendedCount(pawns, white, n - 1) + (if pawns[n - 1] && Defended(pawns, n - 1, white) then 1 else 0)
  }

  /** How many pawns stand on the first n squares. */
  function PawnCount(pawns: Pawns, n: nat): (c: nat)
    requires n <= 64
    ensures c <= n
  {
    if n == 0 then 0 else PawnCount(pawns, n - 1) + (if pawns[n - 1] then 1 else 0)
  }

  /** Only pawns are counted, so the chain count never exceeds the pawns. */
  lemma {:induction false} DefendedAtMostPawns(pawns: Pawns, white: bool, n: nat)
    requires n <= 64
    ensures DefendedCount(pawns, white, n) <= PawnCount(pawns, n)
  {
    if n > 0 {
      DefendedAtMostPawns(pawns, white, n - 1);
    }
  }

  /** `calculate_pawn_chain`: visits the pawns from the lowest square up and adds the bonus for each defended one. */
  method CalculatePawnChain(pawns: Pawns, white: bool) returns (bonus: int)
    ensures bonus == PawnChainBonus * DefendedCount(pawns, white, 64)
    ensures 0 <= bonus <= PawnChainBonus * PawnCount(pawns, 64)
  {
    bonus := 0;
    var sq := 0;
    while sq < 64
      invariant 0 <= sq <= 64
      invariant bonus == PawnChainBonus * DefendedCount(pawns, white, sq)
    {
      if pawns[sq] && Defended(pawns, sq, white) {
        bonus := bonus + PawnChainBonus;
      }
      sq := sq + 1;
    }
    DefendedAtMostPawns(pawns, white, 64);
  }

  const RestrictedPiecePenalty := 8

  /** The penalty for one piece: 8 per square of mobility below the average. */
  function Shortfall(mobility: int, average: int): (p: int)
    ensures p >= 0
    ensures mobility >= average ==> p == 0
  {
    if mobility < average then (average - mobility) * RestrictedPiecePenalty else 0
  }

  /** The penalties of the first n pieces. */
  function Shortfalls(ms: seq<int>, average: int, n: nat): (total: int)
    requires n <= |ms|
    ensures total >= 0
  {
    if n == 0 then 0 else Shortfalls(ms, average, n - 1) + Shortfall(ms[n - 1], average)
  }

  /** A piece with no legal square costs the most: with mobilities never negative, each piece adds at most `average * 8`. */
  lemma {:induction false} ShortfallsBound(ms: seq<int>, average: int, n: nat)
    requires n <= |ms| && average >= 0
    requires forall i :: 0 <= i < |ms| ==> ms[i] >= 0
    ensures Shortfalls(ms, average, n) <= n * average * RestrictedPiecePenalty
  {
    if n > 0 {
      ShortfallsBound(ms, average, n - 1);
    }
  }

  /**
   * `calculate_restriction`: over the opponent's knights (average 5) and
   * bishops (average 7), given each one's count of reachable squares
   * not held by its own side.
   */
  method CalculateRestriction(knights: seq<int>, bishops: seq<int>) returns (restriction: int)
    ensures restriction == Shortfalls(knights, 5, |knights|) + Shortfalls(bishops, 7, |bishops|)
    ensures restriction >= 0
  {
    restriction := 0;
    var i := 0;
    while i < |knights|
      invariant 0 <= i <= |knights| && restriction == Shortfalls(knights, 5, i)
    {
      if knights[i] < 5 {
        restriction := restriction + (5 - knights[i]) * RestrictedPiecePenalty;
      }
      i := i + 1;
    }
    var j := 0;
    while j < |bishops|
      invariant 0 <= j <= |bishops| && restriction == Shortfalls(knights, 5, |knights|) + Shortfalls(bishops, 7, j)
    {
      if bishops[j] < 7 {
        restriction := restriction + (7 - bishops[j]) * RestrictedPiecePenalty;
      }
      j := j + 1;
    }
  }

  // ---------------------------------------------------------------------
  // Phase and sign
  // ---------------------------------------------------------------------

  /** The phase units: one per minor piece, two per rook, four per queen. */
  function PhaseUnits(minors: nat, rooks: nat, queens: nat): nat
  {
    minors + 2 * rooks + 4 * queens
  }

  /** `(phase * 256 + 12) / 24`: the units scaled to 256 at full material, rounded to nearest. */
  function PhaseScore(phase: nat): (s: int)
    ensures phase <= 24 ==> 0 <= s <= 256
    ensures phase == 24 ==> s == 256
    ensures phase == 0 ==> s == 0
    ensures 24 * s <= phase * 256 + 12 < 24 * s + 24
  {
    (phase * 256 + 12) / 24
  }

  /** More material never lowers the phase score. */
  lemma PhaseScoreMonotone(p: nat, q: nat)
    requires p <= q
    ensures PhaseScore(p) <= PhaseScore(q)
  {
  }

  /** Mop-up applies at a phase score of 128 or less, that is, with at most 12 units left. */
  lemma MopUpPhase(phase: nat)
    ensures PhaseScore(phase) <= 128 <==> phase <= 12
  {
  }

  /** The end of `evaluate`: ten for the side to move added from white's view, then the sign of the side to move. */
  function EngineFinish(score: int, white: bool): int
  {
    var s := score + (if white then 10 else -10);
    if white then s else -s
  }

  /**
   * The side to move always gets the tempo: the result is its own view of
   * the score plus 10, the same for white to move as for black to move in
   * the colour-flipped position.
   */
  lemma EngineTempoForSideToMove(score: int, white: bool)
    ensures EngineFinish(score, white) == (if white then score else -score) + 10
    ensures EngineFinish(score, true) == EngineFinish(-score, false)
  {
  }
}
