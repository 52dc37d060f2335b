/**
 * The arithmetic around the alpha-beta search of both engines: the
 * null-move reduction, the late-move reduction and its clamps, mate
 * distance pruning, the score of a node without legal moves, the
 * aspiration windows of iterative deepening, how a score is reported as
 * "mate n", and the perft leaf count.  The searches themselves are
 * parameters: a window goes in, a score comes out.
 */
module SearchBounds {
  import opened CArith
  import opened Limits
  import opened Bits
  import opened Squares
  import opened Position
  import opened Moves
  import opened Exchange

  // ---------------------------------------------------------------------
  // Null move pruning
  // ---------------------------------------------------------------------

  /** The engine tries a null move at depth 3 or more, out of check, below the root, with two or more pieces. */
  predicate NullMoveTried(depth: int, inCheck: bool, ply: int, nonPawn: int)
  {
    depth >= 3 && !inCheck && ply > 0 && nonPawn > 1
  }

  /** The engine's adaptive reduction `3 + depth/3 + (depth > 6)`, capped at `depth - 1`. */
  function NullReduction(depth: int): (r: int)
    requires depth >= 3
    ensures 2 <= r <= depth - 1
    ensures depth <= 7 <==> r == depth - 1
  {
    var r := 3 + depth / 3 + (if depth > 6 then 1 else 0);
    if r > depth - 1 then depth - 1 else r
  }

  /** The depth of the engine's null-move search. */
  function NullDepth(depth: int): (d: int)
    requires depth >= 3
    ensures 0 <= d < depth
    ensures d == 0 <==> depth <= 7
  {
    depth - 1 - NullReduction(depth)
  }

  /** A deeper node never searches its null move shallower. */
  lemma NullDepthMonotone(d1: int, d2: int)
    requires 3 <= d1 <= d2
    ensures NullDepth(d1) <= NullDepth(d2)
    ensures d1 >= 8 ==> NullDepth(d1) == d1 - 5 - d1 / 3
  {
    assert d1 / 3 <= d2 / 3;
  }

  /**
   * The engine's verdict after a null-move search: a fail-high returns the
   * score, except that a score of `MATE - 100` or more is replaced by beta
   * because no mate was proved.
   */
  function NullCutoff(score: int, beta: int): (r: Cut)
    ensures r.CutWith? <==> score >= beta
    ensures r.CutWith? ==> beta <= r.value <= score
    ensures r.CutWith? ==> r.value < Mate - 100 || r.value == beta
  {
    if score >= beta then CutWith(if score >= Mate - 100 then beta else score) else NoCut
  }

  /** Whether a node returns early, and with which value. */
  datatype Cut = NoCut | CutWith(value: int)

  /** The backup engine's reduction `min(3 + depth/6, 4)`. */
  function ModularNullReduction(depth: int): (r: int)
    requires depth >= 3
    ensures 3 <= r <= 4
    ensures r == 3 <==> depth < 6
  {
    var r := 3 + depth / 6;
    if r > 4 then 4 else r
  }

  /** The backup engine's null-move depth `depth - R - 1`: one below zero at depth 3, quiescence up to depth 4. */
  lemma ModularNullDepth(depth: int)
    requires depth >= 3
    ensures -1 <= depth - ModularNullReduction(depth) - 1 <= depth - 4
    ensures depth - ModularNullReduction(depth) - 1 <= 0 <==> depth <= 4
  {
  }

  /**
   * The backup engine's verdict: a fail-high returns beta at once below
   * depth 12, and from depth 12 on only when a verification search at the
   * same reduced depth fails high as well.
   */
  function ModularNullCutoff(depth: int, score: int, verified: int, beta: int): (r: Cut)
    ensures r.CutWith? ==> r.value == beta
    ensures r.CutWith? <==> score >= beta && (depth < 12 || verified >= beta)
  {
    if score >= beta && (depth < 12 || verified >= beta) then CutWith(beta) else NoCut
  }

  // ---------------------------------------------------------------------
  // Late move reductions
  // ---------------------------------------------------------------------

  /** The cap on a reduction, then the floor at zero: the engine's order. */
  function ClampUpperThenLower(x: int, hi: int): (r: int)
    ensures hi >= 0 ==> 0 <= r <= hi
    ensures 0 <= x <= hi ==> r == x
  {
    var c := if x > hi then hi else x;
    if c < 0 then 0 else c
  }

  /** The floor at zero, then the cap: the backup engine's order. */
  function ClampLowerThenUpper(x: int, hi: int): (r: int)
    ensures r <= hi
    ensures hi >= 0 ==> 0 <= r
    ensures 0 <= x <= hi ==> r == x
  {
    var c := if x < 0 then 0 else x;
    if c > hi then hi else c
  }

  /** The two orders agree whenever the cap is not negative, as it is from depth 2 on. */
  lemma ClampsAgree(x: int, hi: int)
    requires hi >= 0
    ensures ClampUpperThenLower(x, hi) == ClampLowerThenUpper(x, hi)
  {
  }

  /** Below depth 2 they differ: only the engine's order keeps a reduction from going negative. */
  lemma ClampsDifferBelowDepthTwo()
    ensures ClampUpperThenLower(5, -1) == 0
    ensures ClampLowerThenUpper(5, -1) == -1
  {
  }

  /** What the engine knows about a late quiet move when it adjusts the table's reduction. */
  datatype LateMove = LateMove(
    pvNode: bool, killer: bool, counter: bool, history: int, deepNonPv: bool,
    movesSearched: int, improving: bool, nonPawn: int, capture: bool)

  /** Subtracting or adding one for a condition. */
  function Step(c: bool): int
  {
    if c then 1 else 0
  }

  /**
   * The engine's adjustments to the table value: one less at PV nodes, for
   * killers, for the counter move and when improving; `history / 5000` less
   * (truncating, so a bad history adds); one more at non-PV nodes deeper
   * than 8, after 12 moves, with more than four pieces at non-PV nodes,
   * and for a capture at a non-PV node (a term the quiet-move gate makes
   * dead).
   */
  function EngineAdjusted(base: int, f: LateMove): (r: int)
    ensures base - 4 - CDiv(f.history, 5000) <= r <= base + 4 - CDiv(f.history, 5000)
    ensures f.pvNode ==> r <= base + 1 - CDiv(f.history, 5000)
  {
    base - Step(f.pvNode) - Step(f.killer) - Step(f.counter) - CDiv(f.history, 5000)
      + Step(f.deepNonPv) + Step(f.movesSearched > 12) - Step(f.improving)
      + Step(!f.pvNode && f.nonPawn > 4) + Step(f.capture && !f.pvNode)
  }

  /** The engine's late-move reduction for a quiet move at depth 3 or more. */
  function EngineReduction(base: int, depth: int, f: LateMove): (r: int)
    requires depth >= 3
    ensures 0 <= r <= depth - 2
    ensures 0 <= EngineAdjusted(base, f) <= depth - 2 ==> r == EngineAdjusted(base, f)
  {
    ClampUpperThenLower(EngineAdjusted(base, f), depth - 2)
  }

  /** A reduced search still looks at least one ply deep: it never drops straight into quiescence. */
  lemma ReducedDepthPositive(base: int, depth: int, f: LateMove, extension: int)
    requires depth >= 3 && extension >= 0
    ensures 1 <= depth - 1 - EngineReduction(base, depth, f) + extension <= depth - 1 + extension
  {
  }

  /** A better history never reduces more. */
  lemma ReductionFallsWithHistory(base: int, depth: int, f: LateMove, better: int)
    requires depth >= 3 && better >= f.history
    ensures EngineReduction(base, depth, f.(history := better)) <= EngineReduction(base, depth, f)
  {
    CDivMonotone(f.history, better, 5000);
  }

  /** The engine's table cell: depth and move count clamped into `lmr_table[MAX_PLY][64]`. */
  function EngineLmrCell(depth: nat, moves: nat): (c: (nat, nat))
    ensures c.0 < MaxPly && c.1 < 64
    ensures depth < MaxPly && moves < 64 ==> c == (depth, moves)
  {
    (if depth < MaxPly then depth else MaxPly - 1, if moves < 64 then moves else 63)
  }

  /** The engine's reduction for a late capture at a non-PV node: one, or two deeper than 8, when the exchange loses. */
  function CaptureReduction(see: int, depth: int): (r: int)
    ensures 0 <= r <= 2
    ensures r > 0 <==> see < 0
  {
    if see < 0 then 1 + (if depth > 8 then 1 else 0) else 0
  }

  /**
   * With the engine's exchange evaluation as written, which never scores a
   * capture below its victim, the capture reduction never applies.
   */
  lemma CaptureReductionNeverApplies(bb: seq<Bitboard>, side: int, m: Move, them: int, us: int, depth: int)
    requires |bb| == 12 && (side == White || side == Black)
    requires GetCapture(m) != 0
    ensures CaptureReduction(EngineSee(bb, side, m, them, us), depth) == 0
  {
    var victim := VictimValue(bb, GetTarget(m) as Square, side);
    AsWrittenNeverBelowVictim(victim, PieceValue(SeeValues, GetPiece(m) as int), StaleAttackers(them, us));
  }

  /** The backup engine's reduction: one less for a killer and for a history above 1000, then floored and capped. */
  function ModularReduction(base: int, depth: int, killer: bool, goodHistory: bool): (r: int)
    requires depth >= 3
    ensures 0 <= r <= depth - 2
    ensures r == EngineReductionOrder(base - Step(killer) - Step(goodHistory), depth)
  {
    ClampsAgree(base - Step(killer) - Step(goodHistory), depth - 2);
    ClampLowerThenUpper(base - Step(killer) - Step(goodHistory), depth - 2)
  }

  /** The same adjusted value clamped in the engine's order. */
  function EngineReductionOrder(x: int, depth: int): int
  {
    ClampUpperThenLower(x, depth - 2)
  }

  /** The backup engine's table is `int lmr_table[64][64]`, read at the flat cell `depth * 64 + moves`. */
  const ModularLmrSize := 64 * 64

  /** The backup engine's cell as written: neither index is clamped. */
  function ModularLmrCellAsWritten(depth: int, moves: int): int
  {
    depth * 64 + moves
  }

  /**
   * With more than 64 legal moves the 65th move at depth d reads row d + 1,
   * and at depth 63 it reads past the table.
   */
  lemma ModularLmrCellOverruns()
    ensures ModularLmrCellAsWritten(3, 64) == ModularLmrCellAsWritten(4, 0)
    ensures ModularLmrCellAsWritten(63, 64) >= ModularLmrSize
    ensures ModularLmrCellAsWritten(64, 3) >= ModularLmrSize
  {
  }

  /** The backup engine's cell with both indices clamped as the engine clamps them. */
  function ModularLmrCell(depth: nat, moves: nat): (c: nat)
    ensures c < ModularLmrSize
    ensures depth < 64 && moves < 64 ==> c == ModularLmrCellAsWritten(depth, moves)
  {
    var d := if depth < 64 then depth else 63;
    var m := if moves < 64 then moves else 63;
    d * 64 + m
  }

  /** Distinct in-range pairs get distinct cells. */
  lemma ModularLmrCellInjective(d1: nat, m1: nat, d2: nat, m2: nat)
    requires d1 < 64 && m1 < 64 && d2 < 64 && m2 < 64
    requires ModularLmrCell(d1, m1) == ModularLmrCell(d2, m2)
    ensures d1 == d2 && m1 == m2
  {
  }

  // ---------------------------------------------------------------------
  // Mate distance pruning and nodes without moves
  // ---------------------------------------------------------------------

  /**
   * The engine's mate distance pruning below the root: the window narrowed
   * to the scores a node at this ply can produce, `[-MATE + ply, MATE - ply - 1]`;
   * when nothing is left, the node returns the narrowed alpha.
   */
  function EngineMateDistance(alpha: int, beta: int, ply: int): (r: Cut)
    ensures r.CutWith? ==> ply > 0 && r.value >= alpha && r.value >= -Mate + ply
  {
    if ply > 0 then
      var ra := if alpha > -Mate + ply then alpha else -Mate + ply;
      var rb := if beta < Mate - ply - 1 then beta else Mate - ply - 1;
      if ra >= rb then CutWith(ra) else NoCut
    else NoCut
  }

  /** When the engine cuts, no score the node can produce lies strictly inside the window. */
  lemma EngineMateDistanceSound(alpha: int, beta: int, ply: int, s: int)
    requires EngineMateDistance(alpha, beta, ply).CutWith?
    requires -Mate + ply <= s <= Mate - ply - 1
    ensures s <= alpha || s >= beta
  {
  }

  /** The backup engine's version: alpha and beta themselves are narrowed, to `[-MATE + ply, MATE - ply]`. */
  datatype Narrowing = Pruned(value: int) | Window(alpha: int, beta: int)

  function ModularMateDistance(alpha: int, beta: int, ply: int): (r: Narrowing)
    ensures r.Window? ==> alpha <= r.alpha && r.beta <= beta
    ensures r.Window? && ply > 0 ==> r.alpha < r.beta
    ensures r.Window? && ply == 0 ==> r == Window(alpha, beta)
    ensures r.Pruned? ==> ply > 0 && r.value >= alpha
  {
    if ply > 0 then
      var a := if alpha > -Mate + ply then alpha else -Mate + ply;
      var b := if beta < Mate - ply then beta else Mate - ply;
      if a >= b then Pruned(a) else Window(a, b)
    else Window(alpha, beta)
  }

  /** When the backup engine cuts, no score it can produce below the maximum ply lies strictly inside the window. */
  lemma ModularMateDistanceSound(alpha: int, beta: int, ply: int, s: int)
    requires 0 < ply < MaxPly
    requires ModularMateDistance(alpha, beta, ply).Pruned?
    requires -Mate + ply <= s <= Mate - ply
    ensures s <= alpha || s >= beta
  {
  }

  /** A node where every move is illegal: mated in `ply`, or stalemate at the contempt score. */
  function NoMoveScore(inCheck: bool, ply: int, contempt: int): (s: int)
    ensures inCheck ==> s + Mate == ply
    ensures !inCheck ==> s == contempt
  {
    if inCheck then -Mate + ply else contempt
  }

  /**
   * A mate found below ply 100 is at least `MATE - 100` away from zero and
   * outside every window mate distance pruning leaves at a shallower ply.
   */
  lemma MatedScoreInRange(ply: int, shallower: int)
    requires 0 <= shallower < ply < 100
    ensures NoMoveScore(true, ply, 0) < -Mate + 100
    ensures NoMoveScore(true, ply, 0) > -Mate + shallower
  {
  }

  // ---------------------------------------------------------------------
  // Aspiration windows
  // ---------------------------------------------------------------------

  /**
   * The engine's aspiration search from depth 5: a window of 25 around the
   * previous score; on a fail-low alpha widens to 100 below it (at most to
   * -INF), on a fail-high beta widens to 100 above it (at most to INF),
   * and a score still outside its window is searched again with the full
   * window.  `search(alpha, beta)` is one root search.
   */
  method EngineAspiration(prev: int, search: (int, int) -> int) returns (score: int, alpha: int, beta: int)
    ensures score == search(alpha, beta)
    ensures alpha < score < beta || (alpha == -Inf && beta == Inf)
    ensures (alpha <= prev - 25 || alpha == -Inf) && (prev + 25 <= beta || beta == Inf)
    ensures prev - 25 < search(prev - 25, prev + 25) < prev + 25 ==>
              alpha == prev - 25 && beta == prev + 25
  {
    alpha := prev - 25;
    beta := prev + 25;
    score := search(alpha, beta);
    if score <= alpha {
      alpha := prev - 100;
      if alpha < -Inf {
        alpha := -Inf;
      }
      score := search(alpha, beta);
    }
    if score >= beta {
      beta := prev + 100;
      if beta > Inf {
        beta := Inf;
      }
      score := search(alpha, beta);
    }
    if score <= alpha || score >= beta {
      alpha, beta := -Inf, Inf;
      score := search(alpha, beta);
    }
  }

  /**
   * The backup engine's aspiration loop from depth 4: a window of 25
   * around the previous score, widened by 100 on the failing side (clamped
   * at INF) until the score falls inside.  It ends because every root
   * score lies strictly between -INF and INF.
   */
  method ModularAspiration(prev: int, search: (int, int) -> int) returns (score: int, alpha: int, beta: int)
    requires forall a, b :: -Inf < search(a, b) < Inf
    ensures score == search(alpha, beta)
    ensures alpha < score < beta
    ensures alpha <= prev - 25 && prev + 25 <= beta
  {
    alpha := prev - 25;
    beta := prev + 25;
    score := search(alpha, beta);
    while score <= alpha || score >= beta
      invariant score == search(alpha, beta)
      invariant alpha <= prev - 25 && prev + 25 <= beta
      decreases (if alpha > -Inf then alpha + Inf else 0) + (if beta < Inf then Inf - beta else 0)
    {
      if score <= alpha {
        alpha := alpha - 100;
        if alpha < -Inf {
          alpha := -Inf;
        }
      } else {
        beta := beta + 100;
        if beta > Inf {
          beta := Inf;
        }
      }
      score := search(alpha, beta);
    }
  }

  // ---------------------------------------------------------------------
  // Reporting a score
  // ---------------------------------------------------------------------

  /** A score as the `info` line prints it. */
  datatype Report = MateIn(moves: int) | Centipawns(cp: int)

  /** The engine: beyond `MATE - 100` either way the score is a mate in `(MATE - score + 1) / 2` moves, negated when losing. */
  function EngineReport(score: int): (r: Report)
    ensures r.Centipawns? <==> -Mate + 100 <= score <= Mate - 100
    ensures r.Centipawns? ==> r.cp == score
  {
    if score > Mate - 100 then MateIn(CDiv(Mate - score + 1, 2))
    else if score < -Mate + 100 then MateIn(CDiv(-(Mate + score + 1), 2))
    else Centipawns(score)
  }

  /** The backup engine: beyond `MATE - MAX_PLY`, and the losing side counts `-(MATE + score) / 2`. */
  function ModularReport(score: int): (r: Report)
    ensures r.Centipawns? <==> -Mate + MaxPly <= score <= Mate - MaxPly
    ensures r.Centipawns? ==> r.cp == score
  {
    if score > Mate - MaxPly then MateIn(CDiv(Mate - score + 1, 2))
    else if score < -Mate + MaxPly then MateIn(CDiv(-(Mate + score), 2))
    else Centipawns(score)
  }

  /**
   * A mate delivered at ply p (odd: the root side moves last) is reported as
   * mate in `(p + 1) / 2` moves, one being mated at ply p (even) as minus
   * `p / 2` moves, and the two engines agree on both.
   */
  lemma {:induction false} ReportsCountMoves(p: int)
    requires 0 < p < 100
    ensures EngineReport(Mate - p) == MateIn((p + 1) / 2)
    ensures ModularReport(Mate - p) == MateIn((p + 1) / 2)
    ensures p % 2 == 0 ==> EngineReport(-Mate + p) == MateIn(-(p / 2))
    ensures p % 2 == 0 ==> ModularReport(-Mate + p) == MateIn(-(p / 2))
  {
    assert CDiv(p + 1, 2) == (p + 1) / 2;
    if p % 2 == 0 {
      CDivNegate(p + 1, 2);
      CDivNegate(p, 2);
      assert (p + 1) / 2 == p / 2;
    }
  }

  // ---------------------------------------------------------------------
  // Perft
  // ---------------------------------------------------------------------

  /**
   * The number of leaves `depth` plies below p, counting only successors
   * that `legal` accepts (`make_move` refuses a move that leaves the king
   * in check).
   */
  function Perft<P>(p: P, depth: nat, moves: P -> seq<P>, legal: P -> bool): nat
    decreases depth, 0
  {
    if depth == 0 then 1 else Leaves(moves(p), depth - 1, moves, legal)
  }

  /** The leaves below the legal members of cs. */
  function Leaves<P>(cs: seq<P>, depth: nat, moves: P -> seq<P>, legal: P -> bool): nat
    decreases depth, 1, |cs|
  {
    if |cs| == 0 then 0
    else
      var last := cs[|cs| - 1];
      Leaves(cs[..|cs| - 1], depth, moves, legal) + (if legal(last) then Perft(last, depth, moves, legal) else 0)
  }

  /** How many members of cs are legal. */
  function LegalCount<P>(cs: seq<P>, legal: P -> bool): (n: nat)
    ensures n <= |cs|
  {
    if |cs| == 0 then 0 else LegalCount(cs[..|cs| - 1], legal) + (if legal(cs[|cs| - 1]) then 1 else 0)
  }

  /** `perft_driver`: the recursive count of leaves over the legal moves. */
  method PerftDriver<P>(p: P, depth: nat, moves: P -> seq<P>, legal: P -> bool) returns (nodes: nat)
    ensures nodes == Perft(p, depth, moves, legal)
    decreases depth
  {
    if depth == 0 {
      return 1;
    }
    var cs := moves(p);
    nodes := 0;
    var i := 0;
    while i < |cs|
      invariant 0 <= i <= |cs|
      invariant nodes == Leaves(cs[..i], depth - 1, moves, legal)
    {
      assert cs[..i + 1][..i] == cs[..i];
      if legal(cs[i]) {
        var below := PerftDriver(cs[i], depth - 1, moves, legal);
        nodes := nodes + below;
      }
      i := i + 1;
    }
    assert cs[..|cs|] == cs;
  }

  /** Perft at depth 1 counts the legal moves. */
  lemma {:induction false} PerftOneCountsLegalMoves<P>(p: P, moves: P -> seq<P>, legal: P -> bool)
    ensures Perft(p, 1, moves, legal) == LegalCount(moves(p), legal)
  {
    LeavesAtZero(moves(p), moves, legal);
  }

  lemma {:induction false} LeavesAtZero<P>(cs: seq<P>, moves: P -> seq<P>, legal: P -> bool)
    ensures Leaves(cs, 0, moves, legal) == LegalCount(cs, legal)
    decreases |cs|
  {
    if |cs| > 0 {
      LeavesAtZero(cs[..|cs| - 1], moves, legal);
    }
  }

  /** The divided count: the leaves below a list of moves split at any point into the two parts' leaves. */
  lemma {:induction false} LeavesSplit<P>(cs: seq<P>, ds: seq<P>, depth: nat, moves: P -> seq<P>, legal: P -> bool)
    ensures Leaves(cs + ds, depth, moves, legal) == Leaves(cs, depth, moves, legal) + Leaves(ds, depth, moves, legal)
    decreases |ds|
  {
    if |ds| > 0 {
      assert (cs + ds)[..|cs + ds| - 1] == cs + ds[..|ds| - 1];
      LeavesSplit(cs, ds[..|ds| - 1], depth, moves, legal);
    } else {
      assert cs + ds == cs;
    }
  }
}
