/**
 * The game-analysis script: the phase of a position, the outcome of a game
 * from the bot's side, the walk over a game's moves that records blunders
 * and counts the phases of lost games, and the choice of the worst
 * blunders for the report. A move's effect on the board is modelled as
 * python-chess applies it: the piece leaves its square, lands (or is
 * promoted) on the target, an en-passant victim or a castling rook moves
 * with it.
 */
module GameAnalysis {
  import opened ModularEvaluation
  import opened ScriptBoards
  import opened Options

  // ---------------------------------------------------------------------
  // Phases
  // ---------------------------------------------------------------------

  datatype Phase = Opening | Middlegame | Endgame

  /** Knights, bishops, rooks and queens of either colour: the pieces `get_position_type` counts. */
  predicate Officer(c: Piece)
  {
    c >= 0 && 1 <= c % 6 <= 4
  }

  function OfficersUpTo(b: Mailbox, n: nat): (k: nat)
    requires n <= 64
    ensures k <= n
  {
    if n == 0 then 0 else OfficersUpTo(b, n - 1) + (if Officer(b[n - 1]) then 1 else 0)
  }

  /** The phase a count of officers names: 12 or more the opening, 6 or more the middlegame. */
  function PhaseOf(count: nat): Phase
  {
    if count >= 12 then Opening else if count >= 6 then Middlegame else Endgame
  }

  function PositionType(b: Mailbox): Phase
  {
    PhaseOf(OfficersUpTo(b, 64))
  }

  /** `get_position_type`: one pass counting the officers, then the thresholds. */
  method GetPositionType(b: Mailbox) returns (phase: Phase)
    ensures phase == PositionType(b)
  {
    var count := 0;
    var square := 0;
    while square < 64
      invariant 0 <= square <= 64
      invariant count == OfficersUpTo(b, square)
    {
      var piece := b[square];
      if piece >= 0 && piece % 6 != 0 && piece % 6 != 5 {
        count := count + 1;
      }
      square := square + 1;
    }
    if count >= 12 {
      phase := Opening;
    } else if count >= 6 {
      phase := Middlegame;
    } else {
      phase := Endgame;
    }
  }

  function PhaseRank(p: Phase): nat
  {
    match p
    case Opening => 0
    case Middlegame => 1
    case Endgame => 2
  }

  /** Fewer officers never mean an earlier phase, and each phase is reached by some count. */
  lemma PhaseMonotone(fewer: nat, more: nat)
    requires fewer <= more
    ensures PhaseRank(PhaseOf(more)) <= PhaseRank(PhaseOf(fewer))
    ensures PhaseOf(12) == Opening && PhaseOf(11) == Middlegame && PhaseOf(6) == Middlegame && PhaseOf(5) == Endgame
  {
  }

  /** Removing an officer from a square can only move the phase on. */
  lemma {:induction false} CaptureAdvancesPhase(b: Mailbox, sq: int, n: nat)
    requires 0 <= sq < 64 && n <= 64
    ensures OfficersUpTo(b[sq := -1], n) <= OfficersUpTo(b, n)
  {
    if n > 0 {
      CaptureAdvancesPhase(b, sq, n - 1);
    }
  }

  // ---------------------------------------------------------------------
  // Outcome
  // ---------------------------------------------------------------------

  datatype GameResult = Unknown | Win | Loss | Draw

  /** The bot's result from the `winner` field: a missing winner is a draw. */
  function Outcome(winner: Option<string>, isBotWhite: bool): (bool, GameResult)
  {
    if winner == Some("white") then (isBotWhite, if isBotWhite then Win else Loss)
    else if winner == Some("black") then (!isBotWhite, if !isBotWhite then Win else Loss)
    else (false, Draw)
  }

  /** `won` is set exactly for a win; a decided game is a win for one colour and a loss for the other. */
  lemma OutcomeConsistent(winner: Option<string>, isBotWhite: bool)
    ensures Outcome(winner, isBotWhite).0 <==> Outcome(winner, isBotWhite).1 == Win
    ensures Outcome(winner, isBotWhite).1 != Unknown
    ensures Outcome(winner, isBotWhite).1 == Win <==> Outcome(winner, !isBotWhite).1 == Loss
  {
  }

  // ---------------------------------------------------------------------
  // Moves and material
  // ---------------------------------------------------------------------

  type Sq = s: int | 0 <= s < 64

  /**
   * What a move does to the board: the piece on `from` lands on `to`
   * (as `promotion` when that is a piece), an en-passant victim on
   * `enPassant` is removed, a castling rook goes from `rookFrom` to
   * `rookTo`; -1 marks what does not apply.
   */
  datatype PlyEffect = PlyEffect(from: Sq, to: Sq, promotion: Piece, enPassant: int, rookFrom: int, rookTo: int)

  function Play(b: Mailbox, m: PlyEffect): Mailbox
  {
    var b1 := if 0 <= m.enPassant < 64 then b[m.enPassant := -1] else b;
    var placed := if m.promotion >= 0 then m.promotion else b[m.from];
    var b3 := b1[m.to := placed][m.from := -1];
    if 0 <= m.rookFrom < 64 && 0 <= m.rookTo < 64 then b3[m.rookTo := b3[m.rookFrom]][m.rookFrom := -1] else b3
  }

  predicate Own(c: Piece, white: bool)
  {
    if white then 0 <= c < 6 else 6 <= c < 12
  }

  predicate Opponent(c: Piece, white: bool)
  {
    Own(c, !white)
  }

  /** The shape of a legal chess move for the side `white` names. */
  predicate LegalShape(b: Mailbox, m: PlyEffect, white: bool)
  {
    m.from != m.to && Own(b[m.from], white)
    && (b[m.to] == -1 || Opponent(b[m.to], white))
    && (m.promotion == -1 || (b[m.from] % 6 == 0 && Own(m.promotion, white) && 1 <= m.promotion % 6 <= 4))
    && (m.enPassant == -1
        || (0 <= m.enPassant < 64 && m.enPassant != m.from && m.enPassant != m.to && b[m.to] == -1
            && b[m.from] % 6 == 0 && Opponent(b[m.enPassant], white) && b[m.enPassant] % 6 == 0))
    && ((m.rookFrom == -1 && m.rookTo == -1)
        || (0 <= m.rookFrom < 64 && 0 <= m.rookTo < 64 && m.rookFrom != m.rookTo
            && m.rookFrom != m.from && m.rookFrom != m.to && m.rookTo != m.from && m.rookTo != m.to
            && b[m.from] % 6 == 5 && Own(b[m.rookFrom], white) && b[m.rookFrom] % 6 == 3
            && b[m.rookTo] == -1 && b[m.to] == -1 && m.promotion == -1 && m.enPassant == -1))
  }

  /** A piece's value, whatever its colour. */
  function Worth(c: Piece, values: seq<int>): int
    requires |values| == 6
  {
    if c < 0 then 0 else values[c % 6]
  }

  /** What a move wins: the pieces it captures and what a promotion adds to the pawn. */
  function CaptureGain(b: Mailbox, m: PlyEffect, values: seq<int>): int
    requires |values| == 6
  {
    Worth(b[m.to], values)
    + (if 0 <= m.enPassant < 64 then Worth(b[m.enPassant], values) else 0)
    + (if m.promotion >= 0 then Worth(m.promotion, values) - Worth(b[m.from], values) else 0)
  }

  /** A balance seen from one side: white's as it is, black's negated. */
  function View(score: int, white: bool): int
  {
    if white then score else -score
  }

  lemma SignedOwn(c: Piece, white: bool, values: seq<int>)
    requires |values| == 6 && c >= 0
    ensures View(Signed(c, values), white) == (if Own(c, white) then Worth(c, values) else -Worth(c, values))
  {
  }

  /** The material a move changes, from the mover's side, is exactly what it captures and promotes. */
  lemma PlayGain(b: Mailbox, m: PlyEffect, white: bool, values: seq<int>)
    requires |values| == 6 && LegalShape(b, m, white)
    ensures View(Material(Play(b, m), values) - Material(b, values), white) == CaptureGain(b, m, values)
  {
    var b1 := if 0 <= m.enPassant < 64 then b[m.enPassant := -1] else b;
    var placed := if m.promotion >= 0 then m.promotion else b[m.from];
    var b2 := b1[m.to := placed];
    var b3 := b2[m.from := -1];
    if 0 <= m.enPassant < 64 {
      MaterialUpdate(b, m.enPassant, -1, values);
      SignedOwn(b[m.enPassant], white, values);
    }
    assert b1[m.to] == b[m.to] && b1[m.from] == b[m.from];
    MaterialUpdate(b1, m.to, placed, values);
    MaterialUpdate(b2, m.from, -1, values);
    SignedOwn(b[m.from], white, values);
    if placed != b[m.from] {
      SignedOwn(placed, white, values);
    }
    if b[m.to] >= 0 {
      SignedOwn(b[m.to], white, values);
    }
    if 0 <= m.rookFrom < 64 && 0 <= m.rookTo < 64 {
      var b4 := b3[m.rookTo := b3[m.rookFrom]];
      MaterialUpdate(b3, m.rookTo, b3[m.rookFrom], values);
      MaterialUpdate(b4, m.rookFrom, -1, values);
    }
  }

  /** Every value is non-negative and each promotion piece is worth at least a pawn. */
  predicate PromotionGains(values: seq<int>)
  {
    |values| == 6 && (forall t :: 0 <= t < 6 ==> values[t] >= 0) && forall t :: 1 <= t <= 4 ==> values[t] >= values[0]
  }

  lemma ScriptValuesPromotionGains()
    ensures PromotionGains(ScriptValues)
  {
  }

  /** A move never costs its own side material. */
  lemma OwnMoveNeverLosesMaterial(b: Mailbox, m: PlyEffect, white: bool, values: seq<int>)
    requires PromotionGains(values) && LegalShape(b, m, white)
    ensures View(Material(Play(b, m), values) - Material(b, values), white) >= 0
  {
    PlayGain(b, m, white, values);
  }

  // ---------------------------------------------------------------------
  // Walking a game
  // ---------------------------------------------------------------------

  /** The index of the first move that does not parse, or the number of moves. */
  function FirstUnparsed(plies: seq<Option<PlyEffect>>): (k: nat)
    ensures k <= |plies|
    ensures forall i :: 0 <= i < k ==> plies[i].Some?
    ensures k < |plies| ==> plies[k].None?
  {
    if plies == [] then 0 else if plies[0].None? then 0 else 1 + FirstUnparsed(plies[1..])
  }

  /** The board after the first n moves. */
  function BoardAt(start: Mailbox, plies: seq<Option<PlyEffect>>, n: nat): Mailbox
    requires n <= FirstUnparsed(plies)
  {
    if n == 0 then start else Play(BoardAt(start, plies, n - 1), plies[n - 1].value)
  }

  /** White moves at even plies; ply i is the bot's when its colour is the bot's. */
  predicate IsBotMove(i: nat, isBotWhite: bool)
  {
    (i % 2 == 0) == isBotWhite
  }

  /** The material change of move i from the bot's side. */
  function Swing(start: Mailbox, plies: seq<Option<PlyEffect>>, i: nat, isBotWhite: bool): int
    requires i < FirstUnparsed(plies)
  {
    View(Material(BoardAt(start, plies, i + 1), ScriptValues) - Material(BoardAt(start, plies, i), ScriptValues), isBotWhite)
  }

  /** One recorded blunder: the ply, the phase before it, white's material before and after. */
  datatype Blunder = Blunder(ply: nat, positionType: Phase, materialBefore: int, materialAfter: int, result: GameResult)

  /** The test `analyze_game` applies to ply i: a bot move whose own material change is below -100. */
  predicate AsWrittenFlag(start: Mailbox, plies: seq<Option<PlyEffect>>, i: nat, isBotWhite: bool)
    requires i < FirstUnparsed(plies)
  {
    IsBotMove(i, isBotWhite) && Swing(start, plies, i, isBotWhite) < -100
  }

  function BlundersUpTo(start: Mailbox, plies: seq<Option<PlyEffect>>, n: nat, isBotWhite: bool, result: GameResult): seq<Blunder>
    requires n <= FirstUnparsed(plies)
  {
    if n == 0 then []
    else
      var i := n - 1;
      BlundersUpTo(start, plies, i, isBotWhite, result)
        + (if AsWrittenFlag(start, plies, i, isBotWhite) then [Record(start, plies, i, result)] else [])
  }

  /** The record of move i: its ply, the phase before it, white's material before and after. */
  function Record(start: Mailbox, plies: seq<Option<PlyEffect>>, i: nat, result: GameResult): (r: Blunder)
    requires i < FirstUnparsed(plies)
    ensures r.ply == i
  {
    Blunder(i, PositionType(BoardAt(start, plies, i)), Material(BoardAt(start, plies, i), ScriptValues),
            Material(BoardAt(start, plies, i + 1), ScriptValues), result)
  }

  /** How many of the first n positions (each taken before its move) are in the phase. */
  function PhaseTally(start: Mailbox, plies: seq<Option<PlyEffect>>, n: nat, phase: Phase): nat
    requires n <= FirstUnparsed(plies)
  {
    if n == 0 then 0
    else PhaseTally(start, plies, n - 1, phase) + (if PositionType(BoardAt(start, plies, n - 1)) == phase then 1 else 0)
  }

  lemma TallyStep(start: Mailbox, plies: seq<Option<PlyEffect>>, i: nat, phase: Phase)
    requires i < FirstUnparsed(plies) && phase == PositionType(BoardAt(start, plies, i))
    ensures PhaseTally(start, plies, i + 1, phase) == PhaseTally(start, plies, i, phase) + 1
    ensures forall other :: other != phase ==> PhaseTally(start, plies, i + 1, other) == PhaseTally(start, plies, i, other)
  {
  }

  // ---------------------------------------------------------------------
  // str.split()
  // ---------------------------------------------------------------------

  /** The characters Python's `str.isspace` accepts, which `str.split()` with no separator splits on. */
  predicate PySpace(c: char)
  {
    var n := c as int;
    (9 <= n <= 13) || (28 <= n <= 32) || n == 0x85 || n == 0xA0 || n == 0x1680
    || (0x2000 <= n <= 0x200A) || n == 0x2028 || n == 0x2029 || n == 0x202F || n == 0x205F || n == 0x3000
  }

  /** The length of the run of non-space characters at the start of `s`. */
  function WordLength(s: string): (n: nat)
    ensures n <= |s|
    ensures forall i :: 0 <= i < n ==> !PySpace(s[i])
    ensures n < |s| ==> PySpace(s[n])
    ensures |s| > 0 && !PySpace(s[0]) ==> n > 0
  {
    if |s| == 0 || PySpace(s[0]) then 0 else 1 + WordLength(s[1..])
  }

  /** `s.split()`: the maximal runs of non-space characters, in order. */
  function Words(s: string): (r: seq<string>)
    ensures forall w :: w in r ==> |w| > 0
    ensures forall w :: w in r ==> forall c :: c in w ==> !PySpace(c)
    decreases |s|
  {
    if |s| == 0 then []
    else if PySpace(s[0]) then Words(s[1..])
    else
      var n := WordLength(s);
      [s[..n]] + Words(s[n..])
  }

  /** A string of white space only, empty or not, splits into no words. */
  lemma {:induction false} BlankHasNoWords(s: string)
    requires forall i :: 0 <= i < |s| ==> PySpace(s[i])
    ensures Words(s) == []
    decreases |s|
  {
    if |s| > 0 {
      BlankHasNoWords(s[1..]);
    }
  }

  /** A string with a character that is not white space has at least one word. */
  lemma {:induction false} NonBlankHasWords(s: string, i: nat)
    requires i < |s| && !PySpace(s[i])
    ensures Words(s) != []
    decreases |s|
  {
    if PySpace(s[0]) {
      NonBlankHasWords(s[1..], i - 1);
    }
  }

  datatype Analysis = Analysis(blunders: seq<Blunder>, won: bool, opening: nat, middlegame: nat, endgame: nat, result: GameResult)

  /**
   * `analyze_game`: `moves` is the game's `moves` field (None when it is
   * missing), `plies[i]` the effect of its i-th word or None when that word
   * does not parse, `start` the initial position. Only a missing or empty
   * field leaves the game `unknown`: a field of white space alone still
   * decides `won` and `result` from the winner, and then splits into no
   * words.
   */
  method AnalyzeGame(moves: Option<string>, winner: Option<string>, isBotWhite: bool, start: Mailbox,
                     plies: seq<Option<PlyEffect>>) returns (a: Analysis)
    requires moves.Some? ==> |plies| == |Words(moves.value)|
    ensures moves.None? || moves.value == "" ==> a == Analysis([], false, 0, 0, 0, Unknown)
    ensures moves.Some? && moves.value != "" ==>
      var k := FirstUnparsed(plies);
      var lost := Outcome(winner, isBotWhite).1 == Loss;
      (a.won, a.result) == Outcome(winner, isBotWhite)
      && a.blunders == BlundersUpTo(start, plies, k, isBotWhite, a.result)
      && a.opening == (if lost then PhaseTally(start, plies, k, Opening) else 0)
      && a.middlegame == (if lost then PhaseTally(start, plies, k, Middlegame) else 0)
      && a.endgame == (if lost then PhaseTally(start, plies, k, Endgame) else 0)
    ensures moves.Some? && moves.value != "" && Words(moves.value) == [] ==>
      a == Analysis([], Outcome(winner, isBotWhite).0, 0, 0, 0, Outcome(winner, isBotWhite).1)
  {
    a := Analysis([], false, 0, 0, 0, Unknown);
    if moves.None? || moves.value == "" {
      return;
    }
    var (won, result) := Outcome(winner, isBotWhite);
    var blunders: seq<Blunder> := [];
    var opening, middlegame, endgame := 0, 0, 0;
    var board := start;
    var prevMaterial := CountMaterial(board, ScriptValues);
    var i := 0;
    while i < |plies|
      invariant Analysed(start, plies, isBotWhite, result, i, board, prevMaterial, blunders, opening, middlegame, endgame)
    {
      var isBotMove := (i % 2 == 0) == isBotWhite;
      var posType := GetPositionType(board);
      if plies[i].None? {
        break;
      }
      ghost var prior := board;
      board := Play(board, plies[i].value);
      var currentMaterial := CountMaterial(board, ScriptValues);
      var materialDiff := currentMaterial - prevMaterial;
      if !isBotWhite {
        materialDiff := -materialDiff;
      }
      AnalyseStep(start, plies, isBotWhite, result, i, prior, prevMaterial, blunders, opening, middlegame, endgame,
                  posType, board, currentMaterial);
      assert isBotMove == IsBotMove(i, isBotWhite) && materialDiff == View(currentMaterial - prevMaterial, isBotWhite);
      if result == Loss {
        opening, middlegame, endgame := CountPhase(opening, middlegame, endgame, posType);
      }
      if isBotMove && materialDiff < -100 {
        blunders := blunders + [Blunder(i, posType, prevMaterial, currentMaterial, result)];
      }
      prevMaterial := currentMaterial;
      i := i + 1;
    }
    assert i == FirstUnparsed(plies);
    a := Analysis(blunders, won, opening, middlegame, endgame, result);
  }

  /** `position_types[pos_type] += 1`: one more position of the phase, the other counts unchanged. */
  method CountPhase(opening: int, middlegame: int, endgame: int, phase: Phase) returns (o: int, m: int, e: int)
    ensures o == opening + (if phase == Opening then 1 else 0)
    ensures m == middlegame + (if phase == Middlegame then 1 else 0)
    ensures e == endgame + (if phase == Endgame then 1 else 0)
  {
    o, m, e := opening, middlegame, endgame;
    match phase
    case Opening => o := o + 1;
    case Middlegame => m := m + 1;
    case Endgame => e := e + 1;
  }

  /** The state of the move loop of `analyze_game` after the first i moves. */
  ghost predicate Analysed(start: Mailbox, plies: seq<Option<PlyEffect>>, isBotWhite: bool, result: GameResult, i: nat,
                           board: Mailbox, prevMaterial: int, blunders: seq<Blunder>, opening: int, middlegame: int, endgame: int)
  {
    i <= FirstUnparsed(plies) && board == BoardAt(start, plies, i) && prevMaterial == Material(board, ScriptValues)
    && blunders == BlundersUpTo(start, plies, i, isBotWhite, result)
    && opening == (if result == Loss then PhaseTally(start, plies, i, Opening) else 0)
    && middlegame == (if result == Loss then PhaseTally(start, plies, i, Middlegame) else 0)
    && endgame == (if result == Loss then PhaseTally(start, plies, i, Endgame) else 0)
  }

  /** One parsed move: the board advances, the phase of the position before it is counted, and a loss on the bot's move is recorded. */
  lemma AnalyseStep(start: Mailbox, plies: seq<Option<PlyEffect>>, isBotWhite: bool, result: GameResult, i: nat,
                    board: Mailbox, prevMaterial: int, blunders: seq<Blunder>, opening: int, middlegame: int, endgame: int,
                    posType: Phase, next: Mailbox, currentMaterial: int)
    requires Analysed(start, plies, isBotWhite, result, i, board, prevMaterial, blunders, opening, middlegame, endgame)
    requires i < |plies| && plies[i].Some?
    requires posType == PositionType(board) && next == Play(board, plies[i].value) && currentMaterial == Material(next, ScriptValues)
    ensures Analysed(start, plies, isBotWhite, result, i + 1, next, currentMaterial,
                     blunders + (if IsBotMove(i, isBotWhite) && View(currentMaterial - prevMaterial, isBotWhite) < -100
                                 then [Blunder(i, posType, prevMaterial, currentMaterial, result)] else []),
                     opening + (if result == Loss && posType == Opening then 1 else 0),
                     middlegame + (if result == Loss && posType == Middlegame then 1 else 0),
                     endgame + (if result == Loss && posType == Endgame then 1 else 0))
  {
    assert i < FirstUnparsed(plies);
    assert next == BoardAt(start, plies, i + 1);
    TallyStep(start, plies, i, posType);
    BlundersStep(start, plies, i, isBotWhite, result);
    assert Record(start, plies, i, result) == Blunder(i, posType, prevMaterial, currentMaterial, result);
  }

  lemma BlundersStep(start: Mailbox, plies: seq<Option<PlyEffect>>, i: nat, isBotWhite: bool, result: GameResult)
    requires i < FirstUnparsed(plies)
    ensures BlundersUpTo(start, plies, i + 1, isBotWhite, result)
      == BlundersUpTo(start, plies, i, isBotWhite, result)
         + (if AsWrittenFlag(start, plies, i, isBotWhite) then [Record(start, plies, i, result)] else [])
  {
  }

  /** The plies of a list of blunders. */
  function PliesOf(xs: seq<Blunder>): (r: seq<nat>)
    ensures |r| == |xs|
  {
    seq(|xs|, j requires 0 <= j < |xs| => xs[j].ply)
  }

  /** A ply is recorded exactly when it is the bot's move and loses more than a pawn on that move alone. */
  lemma {:induction false} BlunderPlyExact(start: Mailbox, plies: seq<Option<PlyEffect>>, n: nat, isBotWhite: bool,
                                          result: GameResult, i: nat)
    requires n <= FirstUnparsed(plies)
    ensures i in PliesOf(BlundersUpTo(start, plies, n, isBotWhite, result))
        <==> i < n && AsWrittenFlag(start, plies, i, isBotWhite)
  {
    if n > 0 {
      BlunderPlyExact(start, plies, n - 1, isBotWhite, result, i);
      var prev := BlundersUpTo(start, plies, n - 1, isBotWhite, result);
      var all := BlundersUpTo(start, plies, n, isBotWhite, result);
      BlundersStep(start, plies, n - 1, isBotWhite, result);
      var flagged := AsWrittenFlag(start, plies, n - 1, isBotWhite);
      if flagged {
        var b := Record(start, plies, n - 1, result);
        assert b.ply == n - 1;
        PliesSnoc(prev, b);
        assert (i in PliesOf(all)) == (i in PliesOf(prev) || i == n - 1);
      } else {
        assert all == prev;
      }
      if i == n - 1 {
        assert (i in PliesOf(all)) == flagged;
      } else {
        assert (i in PliesOf(all)) == (i in PliesOf(prev));
      }
    }
  }

  lemma PliesSnoc(xs: seq<Blunder>, b: Blunder)
    ensures PliesOf(xs + [b]) == PliesOf(xs) + [b.ply]
  {
  }

  /** Players move alternately, white first: each move has the shape of a legal move for its side. */
  predicate LegalGame(start: Mailbox, plies: seq<Option<PlyEffect>>)
  {
    forall i :: 0 <= i < FirstUnparsed(plies) ==> LegalShape(BoardAt(start, plies, i), plies[i].value, i % 2 == 0)
  }

  /**
   * The test compares the material on both sides of the bot's own move,
   * which never loses material, so a game of legal moves never records
   * a blunder.
   */
  lemma {:induction false} AsWrittenRecordsNoBlunders(start: Mailbox, plies: seq<Option<PlyEffect>>, n: nat,
                                                      isBotWhite: bool, result: GameResult)
    requires n <= FirstUnparsed(plies) && LegalGame(start, plies)
    ensures BlundersUpTo(start, plies, n, isBotWhite, result) == []
  {
    if n > 0 {
      AsWrittenRecordsNoBlunders(start, plies, n - 1, isBotWhite, result);
      var i := n - 1;
      if IsBotMove(i, isBotWhite) {
        ScriptValuesPromotionGains();
        OwnMoveNeverLosesMaterial(BoardAt(start, plies, i), plies[i].value, i % 2 == 0, ScriptValues);
      }
    }
  }

  lemma NextPly(i: nat)
    ensures ((i + 1) % 2 == 0) == !(i % 2 == 0)
  {
  }

  /** The test as evidently meant: the bot's move and the reply together lose more than a pawn. */
  predicate CorrectedFlag(start: Mailbox, plies: seq<Option<PlyEffect>>, i: nat, isBotWhite: bool)
    requires i + 1 < FirstUnparsed(plies)
  {
    IsBotMove(i, isBotWhite)
    && View(Material(BoardAt(start, plies, i + 2), ScriptValues) - Material(BoardAt(start, plies, i), ScriptValues), isBotWhite) < -100
  }

  /**
   * In a legal game the corrected test flags the bot's move exactly when
   * the reply captures (or promotes) more than a pawn beyond what the
   * bot's move itself took.
   */
  lemma CorrectedFlagIsNetLoss(start: Mailbox, plies: seq<Option<PlyEffect>>, i: nat, isBotWhite: bool)
    requires i + 1 < FirstUnparsed(plies) && LegalGame(start, plies) && IsBotMove(i, isBotWhite)
    ensures CorrectedFlag(start, plies, i, isBotWhite) <==>
      CaptureGain(BoardAt(start, plies, i), plies[i].value, ScriptValues)
        - CaptureGain(BoardAt(start, plies, i + 1), plies[i + 1].value, ScriptValues) < -100
  {
    var b0, b1, b2 := BoardAt(start, plies, i), BoardAt(start, plies, i + 1), BoardAt(start, plies, i + 2);
    assert b1 == Play(b0, plies[i].value) && b2 == Play(b1, plies[i + 1].value);
    assert LegalShape(b0, plies[i].value, i % 2 == 0);
    assert LegalShape(b1, plies[i + 1].value, (i + 1) % 2 == 0);
    NextPly(i);
    PlayGain(b0, plies[i].value, isBotWhite, ScriptValues);
    PlayGain(b1, plies[i + 1].value, !isBotWhite, ScriptValues);
    var m0, m1, m2 := Material(b0, ScriptValues), Material(b1, ScriptValues), Material(b2, ScriptValues);
    assert View(m2 - m0, isBotWhite) == View(m1 - m0, isBotWhite) - View(m2 - m1, !isBotWhite);
  }

  /** 1. Nf3 e5 2. Ng5 Qxg5: g1-f3, e7-e5, f3-g5, d8xg5, none of them special. */
  const KnightLoss: seq<Option<PlyEffect>> :=
    [Some(PlyEffect(62, 45, -1, -1, -1, -1)), Some(PlyEffect(12, 28, -1, -1, -1, -1)),
     Some(PlyEffect(45, 30, -1, -1, -1, -1)), Some(PlyEffect(3, 30, -1, -1, -1, -1))]

  /**
   * From any position with a white knight on g1, a black pawn on e7, the
   * black queen on d8 and f3, e5 and g5 empty, the bot playing white:
   * 2. Ng5 itself changes no material, so the test as written passes
   * every move by, while the corrected test sees the knight lost to the
   * reply.
   */
  lemma KnightLostToReply(start: Mailbox)
    requires start[62] == 1 && start[12] == 6 && start[3] == 10
    requires start[45] == -1 && start[28] == -1 && start[30] == -1
    ensures FirstUnparsed(KnightLoss) == 4 && LegalGame(start, KnightLoss)
    ensures forall i :: 0 <= i < 4 ==> !AsWrittenFlag(start, KnightLoss, i, true)
    ensures CorrectedFlag(start, KnightLoss, 2, true)
  {
    var plies := KnightLoss;
    assert FirstUnparsed(plies[4..]) == 0;
    assert FirstUnparsed(plies[3..]) == 1 by { assert plies[3..][1..] == plies[4..]; }
    assert FirstUnparsed(plies[2..]) == 2 by { assert plies[2..][1..] == plies[3..]; }
    assert FirstUnparsed(plies[1..]) == 3 by { assert plies[1..][1..] == plies[2..]; }
    var b0, b1, b2 := BoardAt(start, plies, 0), BoardAt(start, plies, 1), BoardAt(start, plies, 2);
    var b3, b4 := BoardAt(start, plies, 3), BoardAt(start, plies, 4);
    assert b1 == start[45 := 1][62 := -1];
    assert b2 == b1[28 := 6][12 := -1];
    assert b3 == b2[30 := 1][45 := -1];
    assert b4 == b3[30 := 10][3 := -1];
    PlayGain(b0, plies[0].value, true, ScriptValues);
    PlayGain(b1, plies[1].value, false, ScriptValues);
    PlayGain(b2, plies[2].value, true, ScriptValues);
    PlayGain(b3, plies[3].value, false, ScriptValues);
    assert LegalGame(start, plies) by {
      forall i | 0 <= i < 4
        ensures LegalShape(BoardAt(start, plies, i), plies[i].value, i % 2 == 0)
      {
      }
    }
  }

  // ---------------------------------------------------------------------
  // The report's worst blunders
  // ---------------------------------------------------------------------

  /** The sort key of the report: white's material change across the blunder. */
  function Change(b: Blunder): int
  {
    b.materialAfter - b.materialBefore
  }

  function InsertByChange(x: Blunder, xs: seq<Blunder>): seq<Blunder>
  {
    if xs == [] || Change(x) <= Change(xs[0]) then [x] + xs else [xs[0]] + InsertByChange(x, xs[1..])
  }

  /** `sorted(..., key=...)`: ascending by the key, equal keys in their original order. */
  function SortByChange(xs: seq<Blunder>): seq<Blunder>
  {
    if xs == [] then [] else InsertByChange(xs[0], SortByChange(xs[1..]))
  }

  predicate ChangeAscending(xs: seq<Blunder>)
  {
    forall i, j :: 0 <= i < j < |xs| ==> Change(xs[i]) <= Change(xs[j])
  }

  lemma {:induction false} InsertByChangePermutes(x: Blunder, xs: seq<Blunder>)
    ensures multiset(InsertByChange(x, xs)) == multiset(xs) + multiset{x}
  {
    if xs != [] && Change(x) > Change(xs[0]) {
      InsertByChangePermutes(x, xs[1..]);
      assert xs == [xs[0]] + xs[1..];
    }
  }

  lemma {:induction false} InsertByChangeSorted(x: Blunder, xs: seq<Blunder>)
    requires ChangeAscending(xs)
    ensures ChangeAscending(InsertByChange(x, xs))
  {
    if xs != [] && Change(x) > Change(xs[0]) {
      InsertByChangeSorted(x, xs[1..]);
      var r := InsertByChange(x, xs[1..]);
      InsertByChangePermutes(x, xs[1..]);
      forall j | 0 <= j < |r|
        ensures Change(xs[0]) <= Change(r[j])
      {
        assert r[j] in multiset(r);
        if r[j] != x {
          assert r[j] in multiset(xs[1..]);
          var m :| 0 <= m < |xs[1..]| && xs[1..][m] == r[j];
          assert xs[m + 1] == r[j];
        }
      }
    }
  }

  lemma {:induction false} SortByChangeCorrect(xs: seq<Blunder>)
    ensures multiset(SortByChange(xs)) == multiset(xs)
    ensures ChangeAscending(SortByChange(xs))
  {
    if xs != [] {
      SortByChangeCorrect(xs[1..]);
      InsertByChangePermutes(xs[0], SortByChange(xs[1..]));
      InsertByChangeSorted(xs[0], SortByChange(xs[1..]));
      assert xs == [xs[0]] + xs[1..];
    }
  }

  /** The blunders with one material change, in order. */
  function WithChange(xs: seq<Blunder>, c: int): seq<Blunder>
  {
    if xs == [] then [] else SelChange(xs[0], c) + WithChange(xs[1..], c)
  }

  /** The blunder itself when its change is c, otherwise nothing. */
  function SelChange(x: Blunder, c: int): seq<Blunder>
  {
    if Change(x) == c then [x] else []
  }

  lemma WithChangeCons(x: Blunder, xs: seq<Blunder>, c: int)
    ensures WithChange([x] + xs, c) == SelChange(x, c) + WithChange(xs, c)
  {
    assert ([x] + xs)[0] == x && ([x] + xs)[1..] == xs;
  }

  lemma ChangeAscendingTail(xs: seq<Blunder>)
    requires xs != [] && ChangeAscending(xs)
    ensures ChangeAscending(xs[1..])
  {
    forall i, j | 0 <= i < j < |xs| - 1
      ensures Change(xs[1..][i]) <= Change(xs[1..][j])
    {
      assert xs[1..][i] == xs[i + 1] && xs[1..][j] == xs[j + 1];
    }
  }

  /** Two selections of which one is empty can be taken in either order. */
  lemma SelectionsCommute(a: seq<Blunder>, b: seq<Blunder>, w: seq<Blunder>)
    requires a == [] || b == []
    ensures a + (b + w) == b + (a + w)
  {
    if a == [] {
      assert a + (b + w) == b + w == b + (a + w);
    } else {
      assert a + (b + w) == a + w == b + (a + w);
    }
  }

  /** Inserting x before the first larger key keeps it ahead of the entries with its own key. */
  lemma {:induction false} InsertByChangeKeepsOrder(x: Blunder, xs: seq<Blunder>, c: int)
    requires ChangeAscending(xs)
    ensures WithChange(InsertByChange(x, xs), c) == WithChange([x] + xs, c)
  {
    if xs != [] && Change(x) > Change(xs[0]) {
      var rest := xs[1..];
      ChangeAscendingTail(xs);
      InsertByChangeKeepsOrder(x, rest, c);
      var r := InsertByChange(x, rest);
      assert InsertByChange(x, xs) == [xs[0]] + r;
      WithChangeCons(xs[0], r, c);
      WithChangeCons(x, rest, c);
      WithChangeCons(x, xs, c);
      assert xs == [xs[0]] + rest;
      WithChangeCons(xs[0], rest, c);
      SelectionsCommute(SelChange(xs[0], c), SelChange(x, c), WithChange(rest, c));
    }
  }

  /** The sort is stable: the blunders with any one change keep their order. */
  lemma {:induction false} SortByChangeStable(xs: seq<Blunder>, c: int)
    ensures WithChange(SortByChange(xs), c) == WithChange(xs, c)
  {
    if xs != [] {
      SortByChangeStable(xs[1..], c);
      SortByChangeCorrect(xs[1..]);
      InsertByChangeKeepsOrder(xs[0], SortByChange(xs[1..]), c);
      WithChangeCons(xs[0], SortByChange(xs[1..]), c);
      WithChangeCons(xs[0], xs[1..], c);
      assert xs == [xs[0]] + xs[1..];
    }
  }

  /** `worst_blunders`: the five with the lowest key. */
  function WorstBlunders(all: seq<Blunder>): seq<Blunder>
  {
    var sorted := SortByChange(all);
    if |sorted| <= 5 then sorted else sorted[..5]
  }

  /** The report shows min(5, n) of the blunders, each one of them, in ascending order of the key. */
  lemma WorstBlundersShape(all: seq<Blunder>)
    ensures |WorstBlunders(all)| == if |all| < 5 then |all| else 5
    ensures multiset(WorstBlunders(all)) <= multiset(all)
    ensures ChangeAscending(WorstBlunders(all))
  {
    var sorted := SortByChange(all);
    SortByChangeCorrect(all);
    assert |multiset(sorted)| == |multiset(all)|;
    if |sorted| > 5 {
      assert sorted == sorted[..5] + sorted[5..];
      assert multiset(sorted) == multiset(sorted[..5]) + multiset(sorted[5..]);
    }
  }

  /** No blunder left out of the report has a lower key than one shown. */
  lemma WorstBlundersAreLowest(all: seq<Blunder>, x: Blunder, y: Blunder)
    requires x in WorstBlunders(all) && y in multiset(all) - multiset(WorstBlunders(all))
    ensures Change(x) <= Change(y)
  {
    var sorted := SortByChange(all);
    SortByChangeCorrect(all);
    var shown, rest := sorted[..5], sorted[5..];
    assert sorted == shown + rest;
    assert multiset(sorted) == multiset(shown) + multiset(rest);
    assert y in multiset(rest);
    var p :| 0 <= p < 5 && shown[p] == x;
    var q :| 0 <= q < |rest| && rest[q] == y;
    assert sorted[p] == x && sorted[5 + q] == y;
  }
}
