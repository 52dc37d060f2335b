/**
 * Move ordering: the score each engine gives a move before searching it,
 * and the selection steps that bring the best-scored move to the front of
 * a move list.
 */
module MoveOrdering {
  import opened CArith
  import opened Bits
  import opened Squares
  import opened Position
  import opened Moves
  import opened History

  // ---------------------------------------------------------------------
  // Most valuable victim, least valuable attacker
  // ---------------------------------------------------------------------

  /**
   * `mvv_lva_scores[attacker][victim]` (and the modular `mvv_lva`): a
   * hundred per victim kind, pawn 100 up to king 600, plus five minus the
   * attacker's kind.
   */
  function MvvLva(attacker: int, victim: int): (score: int)
    requires 0 <= attacker < 12 && 0 <= victim < 12
    ensures 100 <= score <= 605
  {
    100 * (victim % 6 + 1) + 5 - attacker % 6
  }

  /**
   * The victim decides first: a more valuable victim scores higher whoever
   * captures it; for the same victim a cheaper attacker scores higher.
   */
  lemma MvvLvaOrder(a: int, v: int, b: int, w: int)
    requires 0 <= a < 12 && 0 <= v < 12 && 0 <= b < 12 && 0 <= w < 12
    ensures v % 6 > w % 6 ==> MvvLva(a, v) > MvvLva(b, w)
    ensures v % 6 == w % 6 ==> (MvvLva(a, v) > MvvLva(b, w) <==> a % 6 < b % 6)
  {
  }

  // ---------------------------------------------------------------------
  // The main engine's score
  // ---------------------------------------------------------------------

  /** What `score_move` reads besides the move: the history tables and the killer and counter moves of the ply. */
  datatype Lookup = Lookup(
    history: seq<int>, butterfly: seq<int>, capture: seq<int>, counter: seq<Move>,
    killer1: Move, killer2: Move, ply: int, lastMove: Move)

  /** Tables of the sizes the engine declares, each within `history_max`. */
  predicate LookupOk(look: Lookup)
  {
    |look.history| == 12 * 64 && |look.butterfly| == 2 * 64 * 64 && |look.capture| == 12 * 64 * 6 &&
    |look.counter| == 12 * 64 && GetPiece(look.lastMove) < 12 &&
    Bounded(look.history) && Bounded(look.butterfly) && Bounded(look.capture)
  }

  /** The previous move has a counter move and it is m. */
  predicate IsCounter(look: Lookup, m: Move)
    requires LookupOk(look)
  {
    look.ply > 0 && look.lastMove != 0 && look.counter[CellOf(look.lastMove)] == m
  }

  /**
   * `score_move`: the move from the transposition table first, then
   * captures by victim, attacker, capture history and whether the exchange
   * wins (`see_ge(move, 0)`, the parameter goodExchange), then the two
   * killers, the counter move, and the remaining quiet moves by history
   * plus half the butterfly history.  Divisions truncate toward zero.
   */
  function ScoreMove(bb: seq<Bitboard>, side: int, m: Move, pvMove: Move, look: Lookup, goodExchange: bool): int
    requires |bb| == 12 && (side == White || side == Black) && LookupOk(look) && GetPiece(m) < 12
  {
    if m == pvMove then 2000000
    else if GetCapture(m) != 0 then
      var kind := VictimKind(bb, TargetSquare(m), side);
      1000000 + MvvLva(PieceNum(m), kind) + CDiv(look.capture[CaptureCellOf(bb, side, m)], 10) +
        (if goodExchange then 50000 else -50000)
    else if look.killer1 == m then 900000
    else if look.killer2 == m then 800000
    else if IsCounter(look, m) then 700000
    else
      look.history[CellOf(m)] + CDiv(look.butterfly[ButterflyIndex(side, SourceNum(m), TargetNum(m))], 2)
  }

  /** The bands `score_move` sorts moves into, best first. */
  datatype Tier = PvMove | GoodCapture | BadCapture | FirstKiller | SecondKiller | CounterMove | Quiet

  function Rank(t: Tier): nat
  {
    match t
    case PvMove => 0
    case GoodCapture => 1
    case BadCapture => 2
    case FirstKiller => 3
    case SecondKiller => 4
    case CounterMove => 5
    case Quiet => 6
  }

  /** The band of a move, by the same tests in the same order as `score_move`. */
  function TierOf(m: Move, pvMove: Move, look: Lookup, goodExchange: bool): Tier
    requires LookupOk(look)
  {
    if m == pvMove then PvMove
    else if GetCapture(m) != 0 then (if goodExchange then GoodCapture else BadCapture)
    else if look.killer1 == m then FirstKiller
    else if look.killer2 == m then SecondKiller
    else if IsCounter(look, m) then CounterMove
    else Quiet
  }

  /** The score interval of each band; the intervals do not overlap and descend with the bands. */
  function Low(t: Tier): int
  {
    match t
    case PvMove => 2000000
    case GoodCapture => 1046824
    case BadCapture => 946824
    case FirstKiller => 900000
    case SecondKiller => 800000
    case CounterMove => 700000
    case Quiet => -49152
  }

  function High(t: Tier): int
  {
    match t
    case PvMove => 2000000
    case GoodCapture => 1053881
    case BadCapture => 953881
    case FirstKiller => 900000
    case SecondKiller => 800000
    case CounterMove => 700000
    case Quiet => 49152
  }

  /** Every score lies in its band's interval. */
  lemma ScoreInTier(bb: seq<Bitboard>, side: int, m: Move, pvMove: Move, look: Lookup, goodExchange: bool)
    requires |bb| == 12 && (side == White || side == Black) && LookupOk(look) && GetPiece(m) < 12
    ensures var t := TierOf(m, pvMove, look, goodExchange);
      Low(t) <= ScoreMove(bb, side, m, pvMove, look, goodExchange) <= High(t)
  {
    if m != pvMove {
      if GetCapture(m) != 0 {
        CaptureBand(bb, side, m, look);
      } else if look.killer1 != m && look.killer2 != m && !IsCounter(look, m) {
        QuietBand(side, m, look);
      }
    }
  }

  /** A capture's score, before the exchange bonus or penalty, lies within 3881 of a million. */
  lemma CaptureBand(bb: seq<Bitboard>, side: int, m: Move, look: Lookup)
    requires |bb| == 12 && (side == White || side == Black) && LookupOk(look) && GetPiece(m) < 12
    ensures var base := MvvLva(PieceNum(m), VictimKind(bb, TargetSquare(m), side)) +
                        CDiv(look.capture[CaptureCellOf(bb, side, m)], 10);
      -3176 <= base <= 3881
  {
    var c := CaptureCellOf(bb, side, m);
    assert -HistoryMax <= look.capture[c] <= HistoryMax;
    CDivBound(look.capture[c], 10, HistoryMax);
  }

  /** A quiet move's score lies within 49152 of zero. */
  lemma QuietBand(side: int, m: Move, look: Lookup)
    requires (side == White || side == Black) && LookupOk(look) && GetPiece(m) < 12
    ensures var r := look.history[CellOf(m)] +
                     CDiv(look.butterfly[ButterflyIndex(side, SourceNum(m), TargetNum(m))], 2);
      -49152 <= r <= 49152
  {
    var b := ButterflyIndex(side, SourceNum(m), TargetNum(m));
    var c := CellOf(m);
    var half := look.butterfly[b];
    assert -HistoryMax <= half <= HistoryMax;
    assert -HistoryMax <= look.history[c] <= HistoryMax;
    CDivBound(half, 2, HistoryMax);
    assert -16384 <= CDiv(half, 2) <= 16384;
  }

  /** A truncated quotient of a value within bound lies within the truncated quotient of bound. */
  lemma CDivBound(a: int, b: int, bound: int)
    requires b > 0 && bound >= 0 && -bound <= a <= bound
    ensures -(bound / b) <= CDiv(a, b) <= bound / b
  {
    if a >= 0 {
      assert CDiv(a, b) * b <= a <= bound;
      DivMonotone(CDiv(a, b), b, bound);
    } else {
      CDivNegate(-a, b);
      assert CDiv(-a, b) * b <= -a <= bound;
      DivMonotone(CDiv(-a, b), b, bound);
    }
  }

  /** A non-negative q with q * b <= n is at most n / b. */
  lemma DivMonotone(q: int, b: int, n: int)
    requires b > 0 && q >= 0 && n >= 0 && q * b <= n
    ensures q <= n / b
  {
    assert (n / b + 1) * b == n / b * b + b;
    CancelFactor(q, n / b + 1, b);
  }

  /** A better band always scores higher, whatever the tables hold. */
  lemma TiersOrdered(bb: seq<Bitboard>, side: int, m: Move, n: Move, pvMove: Move, look: Lookup, goodM: bool, goodN: bool)
    requires |bb| == 12 && (side == White || side == Black) && LookupOk(look) && GetPiece(m) < 12 && GetPiece(n) < 12
    requires Rank(TierOf(m, pvMove, look, goodM)) < Rank(TierOf(n, pvMove, look, goodN))
    ensures ScoreMove(bb, side, m, pvMove, look, goodM) > ScoreMove(bb, side, n, pvMove, look, goodN)
  {
    ScoreInTier(bb, side, m, pvMove, look, goodM);
    ScoreInTier(bb, side, n, pvMove, look, goodN);
    BandsDescend(TierOf(m, pvMove, look, goodM), TierOf(n, pvMove, look, goodN));
  }

  /** The intervals of the bands descend with their rank. */
  lemma BandsDescend(s: Tier, t: Tier)
    requires Rank(s) < Rank(t)
    ensures Low(s) > High(t)
  {
  }

  // ---------------------------------------------------------------------
  // The modular engine's score
  // ---------------------------------------------------------------------

  /** A score and whether the PV bonus is still to be given. */
  datatype Scored = Scored(score: int, scorePv: bool)

  /**
   * The modular `score_move`: while `score_pv` is set, the PV move of the
   * ply scores 20000 and clears the flag; captures score 10000 plus
   * MVV-LVA; then the two killers; the other quiet moves their history.
   */
  function ModularScore(bb: seq<Bitboard>, side: int, m: Move, scorePv: bool, pvMove: Move,
                        killer1: Move, killer2: Move, history: seq<int>): (r: Scored)
    requires |bb| == 12 && (side == White || side == Black) && |history| == 12 * 64 && GetPiece(m) < 12
    ensures r.scorePv == (scorePv && m != pvMove)
  {
    if scorePv && m == pvMove then Scored(20000, false)
    else if !NoCapture(m) then Scored(CaptureScore(bb, side, m), scorePv)
    else if killer1 == m then Scored(9000, scorePv)
    else if killer2 == m then Scored(8000, scorePv)
    else Scored(HistoryScore(history, m), scorePv)
  }

  /** The modular capture score: 10000 plus the MVV-LVA of the move's piece and its victim. */
  function CaptureScore(bb: seq<Bitboard>, side: int, m: Move): (s: int)
    requires |bb| == 12 && (side == White || side == Black) && GetPiece(m) < 12
    ensures 10100 <= s <= 10605
  {
    MvvLva(PieceNum(m), VictimKind(bb, TargetSquare(m), side)) + 10000
  }

  /** The history score of a quiet move: the entry of its piece and target. */
  function HistoryScore(history: seq<int>, m: Move): (s: int)
    requires |history| == 12 * 64 && GetPiece(m) < 12
    ensures s == history[HistIndex(PieceNum(m), TargetNum(m))]
  {
    history[CellOf(m)]
  }

  /**
   * The PV bonus is given once: a second scoring of the PV move, after the
   * flag is cleared, scores it like any other move.
   */
  lemma PvBonusOnce(bb: seq<Bitboard>, side: int, m: Move, killer1: Move, killer2: Move, history: seq<int>)
    requires |bb| == 12 && (side == White || side == Black) && |history| == 12 * 64 && GetPiece(m) < 12
    requires forall i :: 0 <= i < |history| ==> history[i] < 20000
    ensures var first := ModularScore(bb, side, m, true, m, killer1, killer2, history);
      first.score == 20000 && !first.scorePv &&
      ModularScore(bb, side, m, first.scorePv, m, killer1, killer2, history).score < 20000
  {
  }

  /**
   * While no quiet history entry reaches 8000 the modular bands are
   * ordered: captures, then the first killer, then the second, then the
   * rest.
   */
  lemma ModularBands(bb: seq<Bitboard>, side: int, m: Move, pvMove: Move, killer1: Move, killer2: Move, history: seq<int>)
    requires |bb| == 12 && (side == White || side == Black) && |history| == 12 * 64 && GetPiece(m) < 12
    requires forall i :: 0 <= i < |history| ==> history[i] < 8000
    ensures var r := ModularScore(bb, side, m, false, pvMove, killer1, killer2, history).score;
      (GetCapture(m) != 0 ==> 10100 <= r <= 10605) &&
      (GetCapture(m) == 0 && killer1 == m ==> r == 9000) &&
      (GetCapture(m) == 0 && killer1 != m && killer2 == m ==> r == 8000) &&
      (GetCapture(m) == 0 && killer1 != m && killer2 != m ==> r < 8000)
  {
  }

  // ---------------------------------------------------------------------
  // Selection
  // ---------------------------------------------------------------------

  /** The scan `if (scores[j] > scores[best]) best = j` from j to hi, starting from best. */
  function Scan<T>(s: seq<T>, key: T -> int, best: nat, j: nat, hi: nat): (r: nat)
    requires best < j <= hi <= |s|
    ensures best <= r < hi && (r == best || j <= r)
    decreases hi - j
  {
    if j == hi then best
    else Scan(s, key, if key(s[j]) > key(s[best]) then j else best, j + 1, hi)
  }

  /** The first index of [lo, hi) whose key is largest: what selection brings to the front. */
  function FirstMax<T>(s: seq<T>, key: T -> int, lo: nat, hi: nat): (r: nat)
    requires lo < hi <= |s|
    ensures lo <= r < hi
  {
    Scan(s, key, lo, lo + 1, hi)
  }

  /** Best is a first maximum of [lo, j). */
  ghost predicate FirstMaxOf<T>(s: seq<T>, key: T -> int, lo: nat, best: nat, j: nat)
    requires lo <= best < j <= |s|
  {
    (forall k :: lo <= k < j ==> key(s[k]) <= key(s[best])) &&
    (forall k :: lo <= k < best ==> key(s[k]) < key(s[best]))
  }

  lemma {:induction false} ScanSpec<T>(s: seq<T>, key: T -> int, lo: nat, best: nat, j: nat, hi: nat)
    requires lo <= best < j <= hi <= |s| && FirstMaxOf(s, key, lo, best, j)
    ensures FirstMaxOf(s, key, lo, Scan(s, key, best, j, hi), hi)
    decreases hi - j
  {
    if j < hi {
      var next := if key(s[j]) > key(s[best]) then j else best;
      ScanSpec(s, key, lo, next, j + 1, hi);
    }
  }

  /** FirstMax is the first of the largest keys: no key from lo to hi is larger, and none before it is as large. */
  lemma FirstMaxSpec<T>(s: seq<T>, key: T -> int, lo: nat, hi: nat)
    requires lo < hi <= |s|
    ensures var r := FirstMax(s, key, lo, hi);
      (forall k :: lo <= k < hi ==> key(s[k]) <= key(s[r])) &&
      (forall k :: lo <= k < r ==> key(s[k]) < key(s[r]))
  {
    ScanSpec(s, key, lo, lo, lo + 1, hi);
  }

  /** Elements i and j exchanged. */
  function Swap<T>(s: seq<T>, i: nat, j: nat): (r: seq<T>)
    requires i < |s| && j < |s|
    ensures |r| == |s| && r[i] == s[j] && r[j] == s[i]
    ensures forall k :: 0 <= k < |s| && k != i && k != j ==> r[k] == s[k]
  {
    s[i := s[j]][j := s[i]]
  }

  /** An exchange keeps the elements. */
  lemma SwapPermutes<T>(s: seq<T>, i: nat, j: nat)
    requires i < |s| && j < |s|
    ensures multiset(Swap(s, i, j)) == multiset(s)
  {
    var t := s[i := s[j]];
    assert multiset(t) == multiset(s) - multiset{s[i]} + multiset{s[j]};
    assert multiset(t[j := s[i]]) == multiset(t) - multiset{t[j]} + multiset{s[i]};
  }

  /** Moves paired with their scores: the two arrays are swapped together, so the pairs are what is permuted. */
  function Pairs(ms: seq<Move>, ss: seq<int>): (ps: seq<(Move, int)>)
    requires |ms| == |ss|
    ensures |ps| == |ms| && forall k :: 0 <= k < |ps| ==> ps[k] == (ms[k], ss[k])
  {
    seq(|ms|, k requires 0 <= k < |ms| => (ms[k], ss[k]))
  }

  /** Swapping both arrays swaps the pairs, so it keeps the multiset of pairs. */
  lemma PairsSwap(ms: seq<Move>, ss: seq<int>, i: nat, j: nat)
    requires |ms| == |ss| && i < |ms| && j < |ms|
    ensures Pairs(Swap(ms, i, j), Swap(ss, i, j)) == Swap(Pairs(ms, ss), i, j)
    ensures multiset(Pairs(Swap(ms, i, j), Swap(ss, i, j))) == multiset(Pairs(ms, ss))
  {
    SwapPermutes(Pairs(ms, ss), i, j);
  }

  function Id(x: int): int
  {
    x
  }

  /**
   * One selection step over a list and its scores: the first best-scored
   * entry from i to the end of the list is swapped, with its score, to
   * index i.  The main engine does this before searching each move; the
   * modular `sort_moves` repeats it over the whole list.
   */
  method SelectBest(list: MoveList, scores: array<int>, i: int) returns (best: nat)
    requires list.Valid() && scores.Length == MaxMoves && 0 <= i < list.count
    requires list.moves as object != scores
    modifies list.moves, scores
    ensures list.Valid() && list.count == old(list.count) && list.moves == old(list.moves)
    ensures best == FirstMax(old(scores[..list.count]), Id, i, list.count)
    ensures list.moves[..] == Swap(old(list.moves[..]), i, best)
    ensures scores[..] == Swap(old(scores[..]), i, best)
  {
    best := i;
    var next := i + 1;
    while next < list.count
      invariant i + 1 <= next <= list.count && i <= best < next
      invariant Scan(scores[..list.count], Id, best, next, list.count) == FirstMax(scores[..list.count], Id, i, list.count)
    {
      if scores[next] > scores[best] {
        best := next;
      }
      next := next + 1;
    }
    if best != i {
      var tempMove := list.moves[i];
      list.moves[i] := list.moves[best];
      list.moves[best] := tempMove;
      var tempScore := scores[i];
      scores[i] := scores[best];
      scores[best] := tempScore;
    }
  }

  /** The scores from 0 to n never increase. */
  ghost predicate Descending(ss: seq<int>, n: nat)
    requires n <= |ss|
  {
    forall a, b :: 0 <= a < b < n ==> ss[a] >= ss[b]
  }

  /**
   * The modular `sort_moves` after scoring: selection at every index but
   * the last.  The scores end up in descending order, and the moves and
   * scores are a permutation of what they were, each move keeping its
   * score; nothing past the list changes.
   */
  method SortMoves(list: MoveList, scores: array<int>)
    requires list.Valid() && scores.Length == MaxMoves && list.moves as object != scores
    modifies list.moves, scores
    ensures list.Valid() && list.count == old(list.count) && list.moves == old(list.moves)
    ensures Descending(scores[..], list.count)
    ensures multiset(Pairs(list.moves[..], scores[..])) == multiset(Pairs(old(list.moves[..]), old(scores[..])))
    ensures list.moves[list.count..] == old(list.moves[list.count..])
  {
    var i := 0;
    while i < list.count - 1
      invariant list.Valid() && list.count == old(list.count) && list.moves == old(list.moves)
      invariant 0 <= i <= list.count && SelectedUpTo(scores[..], i, list.count)
      invariant multiset(Pairs(list.moves[..], scores[..])) == multiset(Pairs(old(list.moves[..]), old(scores[..])))
      invariant list.moves[list.count..] == old(list.moves[list.count..])
    {
      ghost var ms := list.moves[..];
      ghost var ss := scores[..];
      var best := SelectBest(list, scores, i);
      SelectionStep(ss, i, list.count);
      PairsSwap(ms, ss, i, best);
      i := i + 1;
    }
    SelectedAll(scores[..], i, list.count);
  }

  /** The first i scores are in place: descending, and none smaller than a score still to be selected. */
  ghost predicate SelectedUpTo(ss: seq<int>, i: nat, n: nat)
    requires i <= n <= |ss|
  {
    Descending(ss, i) && forall a, k :: 0 <= a < i <= k < n ==> ss[a] >= ss[k]
  }

  /** A selection step at i puts one more score in place. */
  lemma SelectionStep(ss: seq<int>, i: nat, n: nat)
    requires i < n <= |ss| && SelectedUpTo(ss, i, n)
    ensures SelectedUpTo(Swap(ss, i, FirstMax(ss[..n], Id, i, n)), i + 1, n)
  {
    var b := FirstMax(ss[..n], Id, i, n);
    FirstMaxSpec(ss[..n], Id, i, n);
    assert forall k :: i <= k < n ==> ss[..n][k] == ss[k];
  }

  /** With all but the last score in place, all are. */
  lemma SelectedAll(ss: seq<int>, i: nat, n: nat)
    requires i <= n <= |ss| && SelectedUpTo(ss, i, n) && (n == 0 || i >= n - 1)
    ensures Descending(ss, n)
  {
  }

  /**
   * The modular `pick_move`: score every move from start on and swap the
   * first best one to start.  The score function stands for `score_move`
   * with the PV bonus already spent.
   */
  method PickMove(list: MoveList, start: int, score: Move -> int) returns (best: nat)
    requires list.Valid() && 0 <= start < list.count
    modifies list.moves
    ensures list.Valid() && list.count == old(list.count)
    ensures best == FirstMax(old(list.moves[..list.count]), score, start, list.count)
    ensures list.moves[..] == Swap(old(list.moves[..]), start, best)
  {
    best := start;
    var bestScore := score(list.moves[start]);
    var i := start + 1;
    while i < list.count
      invariant start + 1 <= i <= list.count && start <= best < i && bestScore == score(list.moves[best])
      invariant Scan(list.moves[..list.count], score, best, i, list.count) == FirstMax(list.moves[..list.count], score, start, list.count)
    {
      var s := score(list.moves[i]);
      if s > bestScore {
        bestScore := s;
        best := i;
      }
      i := i + 1;
    }
    if best != start {
      var temp := list.moves[start];
      list.moves[start] := list.moves[best];
      list.moves[best] := temp;
    }
  }

  /** After a pick, the move at start scores at least as well as every later move of the list, and no earlier-listed equal move was passed over. */
  lemma PickedIsBest(ms: seq<Move>, score: Move -> int, start: nat, n: nat)
    requires start < n <= |ms|
    ensures var b := FirstMax(ms[..n], score, start, n);
      var picked := Swap(ms, start, b);
      (forall k :: start <= k < n ==> score(picked[start]) >= score(picked[k])) &&
      multiset(picked) == multiset(ms)
  {
    var b := FirstMax(ms[..n], score, start, n);
    FirstMaxSpec(ms[..n], score, start, n);
    SwapPermutes(ms, start, b);
    assert forall k :: start <= k < n ==> ms[..n][k] == ms[k];
  }
}
