/**
 * The move-ordering statistics both searches keep between nodes: the
 * history, butterfly, capture-history and counter-move tables of the main
 * engine with their clamped rewards and penalties, the killer slots, and
 * the modular engine's gravity-style history with its bonus curve, its
 * ageing and its clearing.
 *
 * C lays a table `int t[a][b][c]` out row by row; each table here is that
 * layout as one array, entry (i, j, k) at index (i * b + j) * c + k, and a
 * nest of loops over every entry is one loop over the array.
 */
module History {
  import opened CArith
  import opened Moves
  import opened Limits
  import opened Bits
  import opened Squares
  import opened Position
  import opened Boards

  /** `history_max`: no table of the main engine leaves [-history_max, history_max]. */
  const HistoryMax := 32768

  /** Every entry lies within `history_max` of zero. */
  predicate Bounded(s: seq<int>)
  {
    forall i :: 0 <= i < |s| ==> -HistoryMax <= s[i] <= HistoryMax
  }

  /** The reward of a beta cutoff at the given depth: depth squared, capped at 400. */
  function CutoffBonus(depth: int): (bonus: int)
    ensures 0 <= bonus <= 400
    ensures bonus <= depth * depth
    ensures -20 <= depth <= 20 ==> bonus == depth * depth
  {
    if depth * depth > 400 then 400 else depth * depth
  }

  /** `entry += amount` followed by the cap at `history_max`. */
  function Raise(entry: int, amount: int): (r: int)
    requires amount >= 0
    ensures r <= HistoryMax
    ensures r == entry + amount || r == HistoryMax
    ensures entry <= HistoryMax ==> entry <= r
  {
    if entry + amount > HistoryMax then HistoryMax else entry + amount
  }

  /** `entry -= amount` followed by the floor at `-history_max`. */
  function Lower(entry: int, amount: int): (r: int)
    requires amount >= 0
    ensures r >= -HistoryMax
    ensures r == entry - amount || r == -HistoryMax
    ensures entry >= -HistoryMax ==> r <= entry
  {
    if entry - amount < -HistoryMax then -HistoryMax else entry - amount
  }

  /** Rewards and penalties keep an entry within `history_max` of zero. */
  lemma RaiseLowerBounded(entry: int, amount: int)
    requires -HistoryMax <= entry <= HistoryMax && amount >= 0
    ensures -HistoryMax <= Raise(entry, amount) <= HistoryMax
    ensures -HistoryMax <= Lower(entry, amount) <= HistoryMax
  {
  }

  /** `history_moves[piece][target]`. */
  function HistIndex(piece: int, target: int): (i: int)
    requires 0 <= piece < 12 && 0 <= target < 64
    ensures 0 <= i < 12 * 64
  {
    piece * 64 + target
  }

  /** `butterfly_history[side][from][to]`. */
  function ButterflyIndex(side: int, from: int, to: int): (i: int)
    requires 0 <= side < 2 && 0 <= from < 64 && 0 <= to < 64
    ensures 0 <= i < 2 * 64 * 64
  {
    (side * 64 + from) * 64 + to
  }

  /** `capture_history[piece][target][kind]`. */
  function CaptureIndex(piece: int, target: int, kind: int): (i: int)
    requires 0 <= piece < 12 && 0 <= target < 64 && 0 <= kind < 6
    ensures 0 <= i < 12 * 64 * 6
  {
    (piece * 64 + target) * 6 + kind
  }

  /**
   * The kind (0 pawn .. 5 king) of the piece a capture on t takes: the
   * first of the opponent's boards holding t, and a pawn when none does.
   */
  function VictimKind(bb: seq<Bitboard>, t: Square, side: int): (kind: int)
    requires |bb| == 12 && (side == White || side == Black)
    ensures 0 <= kind < 6
    ensures var q := FirstHolder(bb, t, OpponentBase(side), OpponentBase(side) + 6);
      (q < OpponentBase(side) + 6 ==> kind == q - OpponentBase(side) && Bit(bb[q], t))
    ensures (forall r :: OpponentBase(side) <= r < OpponentBase(side) + 6 ==> !Bit(bb[r], t)) ==> kind == 0
  {
    var lo := OpponentBase(side);
    var q := FirstHolder(bb, t, lo, lo + 6);
    if q < lo + 6 then KindOfBoard(q, lo); q % 6 else 0
  }

  /** Boards lo..lo+5 of a side hold the kinds 0..5 in order. */
  lemma KindOfBoard(q: int, lo: int)
    requires (lo == 0 || lo == 6) && lo <= q < lo + 6
    ensures q % 6 == q - lo
  {
  }

  /** Distinct cells of a table have distinct indices. */
  lemma HistIndexInjective(p: int, t: int, q: int, u: int)
    requires 0 <= p < 12 && 0 <= t < 64 && 0 <= q < 12 && 0 <= u < 64
    ensures HistIndex(p, t) == HistIndex(q, u) <==> p == q && t == u
  {
  }

  /** The penalty of one move searched before the cutoff move: quiet moves other than it lose amount. */
  function PenaltyOf(h: seq<int>, bad: Move, move: Move, amount: int): (r: seq<int>)
    requires |h| == 12 * 64 && GetPiece(bad) < 12 && amount >= 0
    ensures |r| == |h|
  {
    if NoCapture(bad) && bad != move then LowerAt(h, CellOf(bad), amount) else h
  }

  /** Entry i of a table lowered by amount, the others kept. */
  function LowerAt(h: seq<int>, i: int, amount: int): (r: seq<int>)
    requires 0 <= i < |h| && amount >= 0
    ensures |r| == |h| && r[i] == Lower(h[i], amount)
    ensures forall j :: 0 <= j < |h| && j != i ==> r[j] == h[j]
  {
    h[i := Lower(h[i], amount)]
  }

  /** The pieces of a list of moves are pieces. */
  predicate PiecesOk(ms: seq<Move>)
  {
    forall i :: 0 <= i < |ms| ==> GetPiece(ms[i]) < 12
  }

  /** The penalties of the moves searched before the cutoff, applied in order. */
  function Penalized(h: seq<int>, ms: seq<Move>, move: Move, amount: int): (r: seq<int>)
    requires |h| == 12 * 64 && PiecesOk(ms) && amount >= 0
    ensures |r| == |h|
    decreases |ms|
  {
    if ms == [] then h
    else PenaltyOf(Penalized(h, ms[..|ms| - 1], move, amount), ms[|ms| - 1], move, amount)
  }

  lemma PenalizedStep(h: seq<int>, ms: seq<Move>, i: int, move: Move, amount: int)
    requires |h| == 12 * 64 && PiecesOk(ms) && amount >= 0 && 0 <= i < |ms|
    ensures PiecesOk(ms[..i]) && PiecesOk(ms[..i + 1])
    ensures Penalized(h, ms[..i + 1], move, amount) == PenaltyOf(Penalized(h, ms[..i], move, amount), ms[i], move, amount)
  {
    assert ms[..i + 1][..i] == ms[..i];
  }

  /** Storing a value within `history_max` keeps a table bounded. */
  lemma BoundedSet(s: seq<int>, k: int, v: int)
    requires Bounded(s) && 0 <= k < |s| && -HistoryMax <= v <= HistoryMax
    ensures Bounded(s[k := v])
  {
  }

  /** Some quiet move of ms other than the cutoff move has history cell i. */
  predicate Names(ms: seq<Move>, move: Move, i: int)
    requires PiecesOk(ms)
  {
    exists j :: 0 <= j < |ms| && GetCapture(ms[j]) == 0 && ms[j] != move &&
      HistIndex(PieceNum(ms[j]), TargetNum(ms[j])) == i
  }

  /**
   * Penalties keep the table within bounds, never raise an entry, and
   * leave untouched every cell that no penalised quiet move names; the
   * cutoff move itself is never penalised.
   */
  lemma {:induction false} PenalizedSpec(h: seq<int>, ms: seq<Move>, move: Move, amount: int)
    requires |h| == 12 * 64 && PiecesOk(ms) && amount >= 0 && Bounded(h)
    ensures Bounded(Penalized(h, ms, move, amount))
    ensures forall i :: 0 <= i < |h| ==> Penalized(h, ms, move, amount)[i] <= h[i]
    ensures forall i :: 0 <= i < |h| && !Names(ms, move, i) ==> Penalized(h, ms, move, amount)[i] == h[i]
    decreases |ms|
  {
    if ms != [] {
      var pre, last := ms[..|ms| - 1], ms[|ms| - 1];
      PenalizedSpec(h, pre, move, amount);
      PenaltyKeeps(Penalized(h, pre, move, amount), last, move, amount);
    }
  }

  /** One penalty keeps the table bounded, raises no entry and changes only the cell of a penalised move. */
  lemma PenaltyKeeps(h: seq<int>, bad: Move, move: Move, amount: int)
    requires |h| == 12 * 64 && GetPiece(bad) < 12 && amount >= 0 && Bounded(h)
    ensures var r := PenaltyOf(h, bad, move, amount);
      Bounded(r) && (forall i :: 0 <= i < |h| ==> r[i] <= h[i]) &&
      forall i :: 0 <= i < |h| && !(NoCapture(bad) && bad != move && CellOf(bad) == i) ==> r[i] == h[i]
  {
  }

  /** The tables the main engine orders moves by. */
  class OrderingTables {
    var history: array<int>
    var butterfly: array<int>
    var capture: array<int>
    var counter: array<Move>

    ghost predicate Valid()
      reads this, history, butterfly, capture
    {
      history.Length == 12 * 64 && butterfly.Length == 2 * 64 * 64 && capture.Length == 12 * 64 * 6 &&
      counter.Length == 12 * 64 &&
      history as object != counter && butterfly as object != counter && capture as object != counter &&
      history != butterfly && history != capture && butterfly != capture &&
      Bounded(history[..]) && Bounded(butterfly[..]) && Bounded(capture[..])
    }

    /** The zeroed tables a fresh process starts with. */
    constructor ()
      ensures Valid() && fresh(history) && fresh(butterfly) && fresh(capture) && fresh(counter)
      ensures forall i :: 0 <= i < history.Length ==> history[i] == 0
      ensures forall i :: 0 <= i < counter.Length ==> counter[i] == 0
    {
      history := new int[12 * 64](_ => 0);
      butterfly := new int[2 * 64 * 64](_ => 0);
      capture := new int[12 * 64 * 6](_ => 0);
      counter := new Move[12 * 64](_ => 0);
    }

    /**
     * A capture that caused a beta cutoff: the capture-history cell of its
     * piece, target and victim kind gains four times the bonus.
     */
    method RewardCapture(bb: seq<Bitboard>, side: int, move: Move, depth: int)
      requires Valid() && |bb| == 12 && (side == White || side == Black) && GetPiece(move) < 12
      modifies capture
      ensures Valid()
      ensures var c := CaptureCellOf(bb, side, move);
        capture[..] == old(capture[..])[c := Raise(old(capture[c]), 4 * CutoffBonus(depth))]
    {
      var c := CaptureCellOf(bb, side, move);
      RaiseLowerBounded(capture[c], 4 * CutoffBonus(depth));
      capture[c] := Raise(capture[c], 4 * CutoffBonus(depth));
    }

    /** A quiet move that caused a beta cutoff: its history and butterfly cells gain the bonus. */
    method RewardQuiet(side: int, piece: int, from: int, target: int, depth: int)
      requires Valid() && 0 <= side < 2 && 0 <= piece < 12 && 0 <= from < 64 && 0 <= target < 64
      modifies history, butterfly
      ensures Valid()
      ensures history[..] == old(history[..])[HistIndex(piece, target) :=
                Raise(old(history[HistIndex(piece, target)]), CutoffBonus(depth))]
      ensures butterfly[..] == old(butterfly[..])[ButterflyIndex(side, from, target) :=
                Raise(old(butterfly[ButterflyIndex(side, from, target)]), CutoffBonus(depth))]
    {
      var bonus := CutoffBonus(depth);
      var h := HistIndex(piece, target);
      RaiseLowerBounded(history[h], bonus);
      history[h] := Raise(history[h], bonus);
      var b := ButterflyIndex(side, from, target);
      RaiseLowerBounded(butterfly[b], bonus);
      butterfly[b] := Raise(butterfly[b], bonus);
    }

    /** The quiet cutoff move becomes the counter move of the previous move's piece and target. */
    method RecordCounter(lastPiece: int, lastTarget: int, move: Move)
      requires Valid() && 0 <= lastPiece < 12 && 0 <= lastTarget < 64
      modifies counter
      ensures Valid()
      ensures counter[..] == old(counter[..])[HistIndex(lastPiece, lastTarget) := move]
    {
      counter[HistIndex(lastPiece, lastTarget)] := move;
    }

    /**
     * The moves searched before a quiet cutoff move: every quiet one other
     * than it loses half the bonus in the history table, floored at
     * `-history_max`.
     */
    method PenalizeQuiets(ms: seq<Move>, count: int, move: Move, depth: int)
      requires Valid() && 0 <= count <= |ms| && PiecesOk(ms)
      modifies history
      ensures Valid()
      ensures history[..] == Penalized(old(history[..]), ms[..count], move, CutoffBonus(depth) / 2)
    {
      var amount := CutoffBonus(depth) / 2;
      var i := 0;
      while i < count
        invariant 0 <= i <= count && Valid()
        invariant history[..] == Penalized(old(history[..]), ms[..i], move, amount)
      {
        var bad := ms[i];
        ghost var before := history[..];
        PenalizedStep(old(history[..]), ms, i, move, amount);
        if GetCapture(bad) == 0 && bad != move {
          var h := CellOf(bad);
          RaiseLowerBounded(history[h], amount);
          BoundedSet(before, h, Lower(before[h], amount));
          history[h] := Lower(history[h], amount);
          assert history[..] == before[h := Lower(before[h], amount)];
        }
        i := i + 1;
      }
      assert ms[..count] == ms[..i];
    }

    /** The ageing before each search: every history, capture-history and butterfly entry halved, truncating toward zero. */
    method Age()
      requires Valid()
      modifies history, butterfly, capture
      ensures Valid()
      ensures forall i :: 0 <= i < history.Length ==> history[i] == CDiv(old(history[i]), 2)
      ensures forall i :: 0 <= i < capture.Length ==> capture[i] == CDiv(old(capture[i]), 2)
      ensures forall i :: 0 <= i < butterfly.Length ==> butterfly[i] == CDiv(old(butterfly[i]), 2)
    {
      DivideAll(history, 2);
      DivideAll(capture, 2);
      DivideAll(butterfly, 2);
    }
  }

  /**
   * The bookkeeping of a beta cutoff by a quiet move in the main engine: the
   * killers of the ply take the move, its history and butterfly cells are
   * rewarded, it becomes the counter move of the previous move (when there
   * is one), and the quiet moves searched before it are penalised.  (A
   * capture only rewards its capture-history cell: `RewardCapture`.)
   */
  method QuietCutoff(t: OrderingTables, killers: KillerTable, side: int,
                     ms: seq<Move>, count: int, ply: int, lastMove: Move, depth: int)
    requires t.Valid() && killers.Valid() && (side == White || side == Black)
    requires 0 <= count < |ms| && PiecesOk(ms) && 0 <= ply < MaxPly && GetPiece(lastMove) < 12
    modifies t.history, t.butterfly, t.counter, killers.first, killers.second
    ensures t.Valid() && killers.Valid()
    ensures var h := CellOf(ms[count]);
      var rewarded := old(t.history[..])[h := Raise(old(t.history[h]), CutoffBonus(depth))];
      t.history[..] == Penalized(rewarded, ms[..count], ms[count], CutoffBonus(depth) / 2) &&
      killers.first[ply] == ms[count] &&
      t.counter[..] == (if ply > 0 && lastMove != 0 then old(t.counter[..])[CellOf(lastMove) := ms[count]]
                        else old(t.counter[..]))
    ensures var b := ButterflyIndex(side, SourceNum(ms[count]), TargetNum(ms[count]));
      t.butterfly[..] == old(t.butterfly[..])[b := Raise(old(t.butterfly[b]), CutoffBonus(depth))]
    ensures old(killers.first[ply]) != ms[count] ==> killers.second[ply] == old(killers.first[ply])
    ensures old(killers.first[ply]) == ms[count] ==> killers.second[ply] == old(killers.second[ply])
    ensures forall p :: 0 <= p < MaxPly && p != ply ==>
      killers.first[p] == old(killers.first[p]) && killers.second[p] == old(killers.second[p])
  {
    var move := ms[count];
    killers.Update(ply, move);
    t.RewardQuiet(side, PieceNum(move), SourceNum(move), TargetNum(move), depth);
    if ply > 0 && lastMove != 0 {
      t.RecordCounter(PieceNum(lastMove), TargetNum(lastMove), move);
    }
    t.PenalizeQuiets(ms, count, move, depth);
  }

  /** The target field as a board square. */
  function TargetSquare(m: Move): (t: Square)
    ensures t as int == TargetNum(m)
  {
    GetTarget(m) as Square
  }

  /** The history (and counter-move) cell of a move: its piece and target. */
  function CellOf(m: Move): (i: int)
    requires GetPiece(m) < 12
    ensures 0 <= i < 12 * 64
  {
    HistIndex(PieceNum(m), TargetNum(m))
  }

  /** The capture-history cell of a capture: its piece, target and victim kind. */
  function CaptureCellOf(bb: seq<Bitboard>, side: int, m: Move): (i: int)
    requires |bb| == 12 && (side == White || side == Black) && GetPiece(m) < 12
    ensures 0 <= i < 12 * 64 * 6
  {
    CaptureIndex(PieceNum(m), TargetNum(m), VictimKind(bb, TargetSquare(m), side))
  }

  /** `ucinewgame`: killers, history, counter moves and butterfly history cleared; capture history is kept. */
  method NewGame(t: OrderingTables, killers: KillerTable)
    requires t.Valid() && killers.Valid()
    modifies t.history, t.butterfly, t.counter, killers.first, killers.second
    ensures t.Valid() && killers.Valid() && killers.Distinct()
    ensures forall i :: 0 <= i < t.history.Length ==> t.history[i] == 0
    ensures forall i :: 0 <= i < t.butterfly.Length ==> t.butterfly[i] == 0
    ensures forall i :: 0 <= i < t.counter.Length ==> t.counter[i] == 0
    ensures t.capture[..] == old(t.capture[..])
  {
    ZeroAll(t.history);
    ZeroAll(t.butterfly);
    ZeroMoves(t.counter);
    killers.Clear();
    assert Bounded(t.history[..]) && Bounded(t.butterfly[..]);
  }

  /** Every move slot set to zero. */
  method ZeroMoves(a: array<Move>)
    modifies a
    ensures forall i :: 0 <= i < a.Length ==> a[i] == 0
  {
    var i := 0;
    while i < a.Length
      invariant 0 <= i <= a.Length
      invariant forall j :: 0 <= j < i ==> a[j] == 0
    {
      a[i] := 0;
      i := i + 1;
    }
  }

  /** Every entry divided by d in place, truncating toward zero; bounds are kept. */
  method DivideAll(a: array<int>, d: int)
    requires d > 0
    modifies a
    ensures forall i :: 0 <= i < a.Length ==> a[i] == CDiv(old(a[i]), d)
    ensures Bounded(old(a[..])) ==> Bounded(a[..])
  {
    var i := 0;
    while i < a.Length
      invariant 0 <= i <= a.Length
      invariant forall j :: 0 <= j < i ==> a[j] == CDiv(old(a[j]), d)
      invariant forall j :: i <= j < a.Length ==> a[j] == old(a[j])
    {
      CDivShrinks(a[i], d);
      a[i] := CDiv(a[i], d);
      i := i + 1;
    }
  }

  /** Every entry set to zero (`memset` to 0). */
  method ZeroAll(a: array<int>)
    modifies a
    ensures forall i :: 0 <= i < a.Length ==> a[i] == 0
  {
    var i := 0;
    while i < a.Length
      invariant 0 <= i <= a.Length
      invariant forall j :: 0 <= j < i ==> a[j] == 0
    {
      a[i] := 0;
      i := i + 1;
    }
  }

  // ---------------------------------------------------------------------
  // Killer moves
  // ---------------------------------------------------------------------

  /** The plies the main engine's `killer_moves[2][64]` has room for. */
  const KillerWidth := 64

  /** Negamax goes on searching at a ply (rather than returning the static evaluation) below `MAX_PLY - 1`. */
  predicate SearchesAt(ply: int)
  {
    0 <= ply < MaxPly - 1
  }

  /**
   * Where `killer_moves[row][ply]` lands in the 128 ints the main engine
   * declares: C does not check the column, so the address is row * 64 + ply.
   */
  function EngineKillerCell(row: int, ply: int): (cell: int)
    requires 0 <= row < 2 && ply >= 0
    ensures row == 0 && ply < KillerWidth ==> cell < KillerWidth
  {
    row * KillerWidth + ply
  }

  /**
   * The table is too narrow for the plies negamax searches at: from ply 64
   * on, the first killer of a ply is the second killer of ply - 64, and
   * the second killer lies past the end of the table.
   */
  lemma KillerTableTooNarrow()
    ensures SearchesAt(64)
    ensures EngineKillerCell(0, 64) == EngineKillerCell(1, 0)
    ensures forall ply :: KillerWidth <= ply < MaxPly - 1 ==> EngineKillerCell(1, ply) >= 2 * KillerWidth
  {
  }

  /**
   * Two quiet moves per ply that caused cutoffs, one row per slot, with a
   * column for every ply negamax can search at (`killer_moves[2][MAX_PLY]`,
   * the width the modular engine declares).
   */
  class KillerTable {
    var first: array<Move>
    var second: array<Move>

    ghost predicate Valid()
      reads this
    {
      first.Length == MaxPly && second.Length == MaxPly && first != second
    }

    /** The two slots of a ply never hold the same move, unless both are empty. */
    ghost predicate Distinct()
      reads this, first, second
      requires Valid()
    {
      forall p :: 0 <= p < MaxPly ==> first[p] != second[p] || second[p] == 0
    }

    /** Every slot empty (`memset` to 0). */
    method Clear()
      requires Valid()
      modifies first, second
      ensures Valid() && Distinct()
      ensures forall p :: 0 <= p < MaxPly ==> first[p] == 0 && second[p] == 0
    {
      var p := 0;
      while p < MaxPly
        invariant 0 <= p <= MaxPly
        invariant forall q :: 0 <= q < p ==> first[q] == 0 && second[q] == 0
      {
        first[p] := 0;
        second[p] := 0;
        p := p + 1;
      }
    }

    constructor ()
      ensures Valid() && Distinct() && fresh(first) && fresh(second)
    {
      first := new Move[MaxPly](_ => 0);
      second := new Move[MaxPly](_ => 0);
    }

    /**
     * The main engine's update on a quiet cutoff: a new move takes the
     * first slot and pushes the old first into the second; the move
     * already first changes nothing.  Distinct slots stay distinct.
     */
    method Update(ply: int, move: Move)
      requires Valid() && 0 <= ply < MaxPly
      modifies first, second
      ensures Valid() && first[ply] == move
      ensures old(first[ply]) != move ==> second[ply] == old(first[ply])
      ensures old(first[ply]) == move ==> second[ply] == old(second[ply])
      ensures forall p :: 0 <= p < MaxPly && p != ply ==> first[p] == old(first[p]) && second[p] == old(second[p])
      ensures old(Distinct()) ==> Distinct()
    {
      if move != first[ply] {
        second[ply] := first[ply];
        first[ply] := move;
      }
    }

    /**
     * The modular engine's update: the old first always moves to the second
     * slot, so a move that causes two cutoffs in a row fills both slots.
     */
    method UpdateModular(ply: int, move: Move)
      requires Valid() && 0 <= ply < MaxPly
      modifies first, second
      ensures Valid() && first[ply] == move && second[ply] == old(first[ply])
      ensures forall p :: 0 <= p < MaxPly && p != ply ==> first[p] == old(first[p]) && second[p] == old(second[p])
    {
      second[ply] := first[ply];
      first[ply] := move;
    }
  }

  /** Two modular updates with one move leave it in both slots, where the main engine keeps the earlier killer. */
  method KillerUpdatesDiffer(move: Move, earlier: Move) returns (same: bool, kept: bool)
    requires move != earlier && move != 0
    ensures same && kept
  {
    var modular := new KillerTable();
    modular.UpdateModular(0, move);
    modular.UpdateModular(0, move);
    same := modular.first[0] == modular.second[0];
    var engine := new KillerTable();
    engine.Update(0, earlier);
    engine.Update(0, move);
    engine.Update(0, move);
    kept := engine.second[0] == earlier && engine.first[0] != engine.second[0];
  }

  // ---------------------------------------------------------------------
  // The modular engine's history
  // ---------------------------------------------------------------------

  /**
   * The modular search's quiet history: a quiet move that raises alpha
   * gains depth squared in its piece-and-target cell, without a cap.
   */
  method RaiseModularHistory(history: array<int>, move: Move, depth: int)
    requires history.Length == 12 * 64 && GetPiece(move) < 12
    modifies history
    ensures GetCapture(move) != 0 ==> history[..] == old(history[..])
    ensures GetCapture(move) == 0 ==>
      var i := HistIndex(PieceNum(move), TargetNum(move));
      history[..] == old(history[..])[i := old(history[i]) + depth * depth]
  {
    if GetCapture(move) == 0 {
      var i := HistIndex(PieceNum(move), TargetNum(move));
      history[i] := history[i] + depth * depth;
    }
  }

  /**
   * `search_position` and `new_game` of the modular engine: killers and
   * quiet history start from zero at every search.
   */
  method ModularSearchReset(history: array<int>, killers: KillerTable)
    requires killers.Valid() && history as object != killers.first && history as object != killers.second
    modifies history, killers.first, killers.second
    ensures killers.Valid() && killers.Distinct()
    ensures forall i :: 0 <= i < history.Length ==> history[i] == 0
  {
    ZeroAll(history);
    killers.Clear();
  }

  /** The gravity divisor of `update_history`. */
  const Gravity := 16384

  /** `history_bonus`: 16 d^2 + 32 d up to depth 13, then a flat 32. */
  function HistoryBonus(depth: int): (bonus: int)
    ensures depth > 13 ==> bonus == 32
    ensures 0 <= depth <= 13 ==> 0 <= bonus <= 3120
  {
    if depth > 13 then 32 else 16 * depth * depth + 32 * depth
  }

  /** The bonus grows with depth up to 13 and then drops to 32. */
  lemma HistoryBonusShape(d: int, e: int)
    requires 0 <= d <= e <= 13
    ensures HistoryBonus(d) <= HistoryBonus(e)
    ensures HistoryBonus(13) == 3120 && HistoryBonus(14) == 32
  {
    ProductBelow(d, d, e);
    ProductBelow(d, e, e);
  }

  /** `update_history`: the entry moves toward the bonus, by less the closer it already is to the limit. */
  function UpdatedEntry(entry: int, bonus: int): int
  {
    entry + bonus - CDiv(entry * Abs(bonus), Gravity)
  }

  function Abs(x: int): (a: int)
    ensures a >= 0 && (a == x || a == -x)
  {
    if x < 0 then -x else x
  }

  /** A zero bonus leaves the entry as it was. */
  lemma UpdatedEntryZero(entry: int)
    ensures UpdatedEntry(entry, 0) == entry
  {
    assert entry * Abs(0) == 0;
  }

  /** Two non-negative differences have a non-negative product, written out. */
  lemma ProductExpands(x: int, y: int, m: int, e: int, b: int)
    requires x == m - e && y == m - b && x >= 0 && y >= 0
    ensures m * m - m * e - m * b + e * b >= 0
  {
    assert x * y >= 0;
    assert x * y == m * m - m * e - m * b + e * b;
  }

  /** Of two non-negative factors, the one at most m gives a product at most m times the other. */
  lemma ProductBelow(e: int, b: int, m: int)
    requires 0 <= e <= m && 0 <= b
    ensures e * b <= m * b
  {
    var x := m - e;
    assert x * b >= 0;
    assert x * b == m * b - e * b;
  }

  /** The product of two entries within the divisor of its bound. */
  lemma GravityProduct(e: int, b: int)
    requires -Gravity <= e <= Gravity && 0 <= b <= Gravity
    ensures e * b >= Gravity * (e + b - Gravity)
    ensures e >= 0 ==> e * b <= Gravity * b
  {
    var M := Gravity;
    ProductExpands(M - e, M - b, M, e, b);
    if e >= 0 {
      ProductBelow(e, b, M);
    }
  }

  /** For a non-negative bonus up to the divisor, the update keeps an entry within the divisor of zero. */
  lemma GravityBoundUp(e: int, b: int)
    requires -Gravity <= e <= Gravity && 0 <= b <= Gravity
    ensures -Gravity <= UpdatedEntry(e, b) <= Gravity
  {
    var M := Gravity;
    var p := e * b;
    var q := CDiv(p, M);
    assert Abs(b) == b;
    GravityProduct(e, b);
    assert (e + b - M - 1) * M == M * (e + b - M) - M;
    CancelFactor(e + b - M - 1, q, M);
    if e >= 0 {
      assert q * M < (b + 1) * M;
      CancelFactor(q, b + 1, M);
    }
  }

  /** The update keeps an entry within the gravity divisor of zero whenever the bonus is within it too. */
  lemma GravityBound(e: int, b: int)
    requires -Gravity <= e <= Gravity && -Gravity <= b <= Gravity
    ensures -Gravity <= UpdatedEntry(e, b) <= Gravity
  {
    if b >= 0 {
      GravityBoundUp(e, b);
    } else {
      GravityBoundUp(-e, -b);
      assert -e * Abs(-b) == -(e * Abs(b));
      CDivNegate(e * Abs(b), Gravity);
    }
  }

  /** `update_history` writing through its pointer: only the given entry changes. */
  method UpdateHistory(table: array<int>, i: int, bonus: int)
    requires 0 <= i < table.Length
    modifies table
    ensures table[..] == old(table[..])[i := UpdatedEntry(old(table[i]), bonus)]
    ensures -Gravity <= old(table[i]) <= Gravity && -Gravity <= bonus <= Gravity ==> -Gravity <= table[i] <= Gravity
  {
    if -Gravity <= table[i] <= Gravity && -Gravity <= bonus <= Gravity {
      GravityBound(table[i], bonus);
    }
    table[i] := table[i] + bonus - CDiv(table[i] * Abs(bonus), Gravity);
  }

  /** The three history tables of the modular engine. */
  class ModularHistory {
    var quiet: array<int>
    var capture: array<int>
    var counter: array<int>

    ghost predicate Valid()
      reads this
    {
      quiet.Length == 2 * 64 * 64 && capture.Length == 12 * 64 * 6 && counter.Length == 12 * 64 * 12 * 64 &&
      quiet != capture && quiet != counter && capture != counter
    }

    constructor ()
      ensures Valid() && fresh(quiet) && fresh(capture) && fresh(counter)
    {
      quiet := new int[2 * 64 * 64](_ => 0);
      capture := new int[12 * 64 * 6](_ => 0);
      counter := new int[12 * 64 * 12 * 64](_ => 0);
    }

    /** `clear_history`: all three tables zeroed. */
    method Clear()
      requires Valid()
      modifies quiet, capture, counter
      ensures Valid()
      ensures forall i :: 0 <= i < quiet.Length ==> quiet[i] == 0
      ensures forall i :: 0 <= i < capture.Length ==> capture[i] == 0
      ensures forall i :: 0 <= i < counter.Length ==> counter[i] == 0
    {
      ZeroAll(quiet);
      ZeroAll(capture);
      ZeroAll(counter);
    }

    /** `age_history`: quiet and capture histories divided by 8, truncating toward zero; counter history untouched. */
    method Age()
      requires Valid()
      modifies quiet, capture
      ensures Valid()
      ensures forall i :: 0 <= i < quiet.Length ==> quiet[i] == CDiv(old(quiet[i]), 8)
      ensures forall i :: 0 <= i < capture.Length ==> capture[i] == CDiv(old(capture[i]), 8)
      ensures counter[..] == old(counter[..])
    {
      DivideAll(quiet, 8);
      DivideAll(capture, 8);
    }
  }

  // ---------------------------------------------------------------------
  // Reduction and pruning tables
  // ---------------------------------------------------------------------

  /**
   * `init_reductions`: every entry of rows and columns 1..63 is the
   * formula's value capped at depth - 1; row and column 0 are left alone.
   * The formula (a logarithm in floating point) is the parameter.
   */
  method InitReductions(table: array2<int>, formula: (int, int) -> int)
    requires table.Length0 == 64 && table.Length1 == 64
    modifies table
    ensures forall d, m :: 1 <= d < 64 && 1 <= m < 64 ==>
              table[d, m] <= d - 1 && (formula(d, m) <= d - 1 ==> table[d, m] == formula(d, m))
    ensures forall d, m :: 0 <= d < 64 && 0 <= m < 64 && (d == 0 || m == 0) ==> table[d, m] == old(table[d, m])
  {
    var depth := 1;
    while depth < 64
      invariant 1 <= depth <= 64
      invariant forall d, m :: 1 <= d < depth && 1 <= m < 64 ==>
                  table[d, m] <= d - 1 && (formula(d, m) <= d - 1 ==> table[d, m] == formula(d, m))
      invariant forall d, m :: 0 <= d < 64 && 0 <= m < 64 && (d == 0 || m == 0 || d >= depth) ==> table[d, m] == old(table[d, m])
    {
      var moves := 1;
      while moves < 64
        invariant 1 <= moves <= 64
        invariant forall d, m :: 1 <= d < depth && 1 <= m < 64 ==>
                    table[d, m] <= d - 1 && (formula(d, m) <= d - 1 ==> table[d, m] == formula(d, m))
        invariant forall m :: 1 <= m < moves ==>
                    table[depth, m] <= depth - 1 && (formula(depth, m) <= depth - 1 ==> table[depth, m] == formula(depth, m))
        invariant forall d, m :: 0 <= d < 64 && 0 <= m < 64 && (d == 0 || m == 0 || d > depth || (d == depth && m >= moves)) ==>
                    table[d, m] == old(table[d, m])
      {
        table[depth, moves] := formula(depth, moves);
        if table[depth, moves] > depth - 1 {
          table[depth, moves] := depth - 1;
        }
        moves := moves + 1;
      }
      depth := depth + 1;
    }
  }

  /** `lmp_margin[improving][depth]`: how many quiet moves late-move pruning lets through. */
  const LmpMargin: seq<seq<int>> := [[0, 3, 4, 6, 10, 14, 19, 25, 32], [0, 5, 7, 11, 17, 24, 32, 41, 51]]

  /** The improving row allows at least as many moves as the other, and both grow with depth. */
  lemma LmpMarginShape(d: int)
    requires 0 <= d < 9
    ensures |LmpMargin| == 2 && |LmpMargin[0]| == 9 && |LmpMargin[1]| == 9
    ensures LmpMargin[1][d] >= LmpMargin[0][d]
    ensures d + 1 < 9 ==> LmpMargin[0][d] <= LmpMargin[0][d + 1] && LmpMargin[1][d] <= LmpMargin[1][d + 1]
  {
  }
}
