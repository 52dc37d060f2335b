/**
 * The UCI `position` command: set up the start position or a FEN, then
 * play the listed moves one by one, recording hash keys for repetition
 * detection.  The engine's `parse_position` records the key after each
 * move (the first entry is the set-up position); the modular front end's
 * `cmd_position` records the key before each move, after whatever the
 * table already held.
 */
module PositionCommand {
  import opened Bits
  import opened Squares
  import opened Moves
  import opened Position
  import opened Boards
  import opened MoveGen
  import opened Placement
  import opened Tokens
  import opened MoveNotation
  import Fen
  import Chains
  import Queries
  import opened Zobrist

  /** The start position both front ends set up. */
  const StartPosition: string := "rnbqkbnr/pppppppp/8/8/8/8/PPPPPPPP/RNBQKBNR w KQkq - 0 1"

  /** A saved state with boards, occupancies, side and en-passant square of the right shape. */
  ghost predicate StateOk(s: Snapshot, k: Keys)
  {
    SnapshotOk(s, k) && |s.occupancies| == 3
  }

  /**
   * The list `parse_move` generated for the text str in state s: every
   * move follows the rules, and, when the text is long enough for the
   * moves to be generated at all, every move the rules allow is there.
   */
  ghost predicate GeneratedFor(ms: seq<Move>, s: Snapshot, k: Keys, str: string)
    requires StateOk(s, k)
  {
    Sound(ms, s.bitboards, s.occupancies, s.side, s.enPassant, s.castle) &&
    (Strlen(str) >= 4 ==> AllDone(ms, s.bitboards, s.occupancies, s.side, s.enPassant, 6))
  }

  /** The state `make_move(move, all_moves)` leaves: the move played, or s again when the mover's king is then attacked. */
  ghost function Made(s: Snapshot, d: Fields, k: Keys): Snapshot
    requires SnapshotOk(s, k) && InRange(d, s.side) && s.bitboards[PieceOf(5, s.side)] != 0
  {
    KingSurvives(s.bitboards, d, s.side);
    var n := Next(s, d, k);
    if Attacked(n.bitboards, n.occupancies[Both], KingSquare(n.bitboards, s.side), n.side) then s else n
  }

  /**
   * Where the next move's text starts: past the current word, then one
   * character further in the engine, and past the blanks in the modular
   * front end.
   */
  function Advance(cmd: string, p: nat, d: Dialect): nat
  {
    var j := WordEnd(cmd, p, false);
    if d == Engine then j + 1 else SkipWs(cmd, j)
  }

  /** One move of the list: the text at p parses, against the generated list ms, to m, and playing m takes s to s'. */
  ghost predicate MoveStep(cmd: string, p: nat, s: Snapshot, ms: seq<Move>, m: Move, s': Snapshot, k: Keys)
  {
    StateOk(s, k) && At(cmd, p) != '\0' && GeneratedFor(ms, s, k, Drop(cmd, p)) &&
    m != 0 && m == Parsed(ms, Drop(cmd, p)) &&
    s.bitboards[PieceOf(5, s.side)] != 0 && Decodable(m) && InRange(Decode(m), s.side) &&
    s' == Made(s, Decode(m), k)
  }

  /**
   * Why the list ends at p in state s: the text is over, or the word at p
   * names no generated move, or the side to move has no king to play
   * with.
   */
  ghost predicate Stopped(cmd: string, p: nat, s: Snapshot, ms: seq<Move>, k: Keys)
  {
    StateOk(s, k) &&
    (At(cmd, p) == '\0' ||
     (GeneratedFor(ms, s, k, Drop(cmd, p)) && (Parsed(ms, Drop(cmd, p)) == 0 || s.bitboards[PieceOf(5, s.side)] == 0)))
  }

  /**
   * A point of the replay: where the next move's text starts, the state
   * there, and the list and move that led into it (empty and 0 at the
   * start).
   */
  datatype Stage = Stage(at: nat, state: Snapshot, list: seq<Move>, move: Move)

  /** The move text at a's position parses to b's move, which takes a's state to b's, and b's text follows a's. */
  ghost predicate Linked(cmd: string, d: Dialect, k: Keys, a: Stage, b: Stage)
  {
    b.at == Advance(cmd, a.at, d) && MoveStep(cmd, a.at, a.state, b.list, b.move, b.state, k)
  }

  /** `Linked` for one command line, dialect and key set. */
  ghost function LinkFor(cmd: string, d: Dialect, k: Keys): (Stage, Stage) -> bool
  {
    (a: Stage, b: Stage) => Linked(cmd, d, k, a, b)
  }

  /** The key recorded for the i-th move: the state's after it in the engine, before it in the modular front end. */
  function KeyFor(stages: seq<Stage>, i: nat, d: Dialect): bv64
    requires i + 1 < |stages|
  {
    if d == Engine then stages[i + 1].state.hashKey else stages[i].state.hashKey
  }

  /** One key recorded per move played. */
  ghost predicate Recorded(keys: seq<bv64>, stages: seq<Stage>, d: Dialect)
  {
    |keys| + 1 == |stages| && forall i :: 0 <= i < |keys| ==> keys[i] == KeyFor(stages, i, d)
  }

  /** One more stage extends the recorded keys. */
  lemma RecordedExtend(keys: seq<bv64>, stages: seq<Stage>, d: Dialect, x: Stage)
    requires Recorded(keys, stages, d)
    ensures Recorded(keys + [KeyFor(stages + [x], |keys|, d)], stages + [x], d)
  {
    var keys', stages' := keys + [KeyFor(stages + [x], |keys|, d)], stages + [x];
    forall i | 0 <= i < |keys'|
      ensures keys'[i] == KeyFor(stages', i, d)
    {
      if i < |keys| {
        assert keys'[i] == keys[i] && stages'[i] == stages[i] && stages'[i + 1] == stages[i + 1];
      }
    }
  }

  /** `Stopped` for one command line and key set, at a stage. */
  ghost function StopFor(cmd: string, k: Keys): (Stage, seq<Move>) -> bool
  {
    (a: Stage, ms: seq<Move>) => Stopped(cmd, a.at, a.state, ms, k)
  }

  /** The next word starts after the current one, and at most one past the end of the line. */
  lemma AdvanceBounds(cmd: string, p: nat, d: Dialect)
    requires At(cmd, p) != '\0'
    ensures p < Advance(cmd, p, d) <= |cmd| + 1
  {
  }

  /** `Advance` computed as the loops do. */
  method NextWord(cmd: string, p: nat, d: Dialect) returns (next: nat)
    ensures next == Advance(cmd, p, d)
  {
    var end := SkipWord(cmd, p, false);
    if d == Engine {
      next := end + 1;
    } else {
      next := SkipWhitespace(cmd, end);
    }
  }

  /** A step played from a stage links it to the stage after. */
  lemma StepLinks(cmd: string, d: Dialect, k: Keys, here: Stage, ms: seq<Move>, m: Move, s': Snapshot)
    requires MoveStep(cmd, here.at, here.state, ms, m, s', k)
    ensures LinkFor(cmd, d, k)(here, Stage(Advance(cmd, here.at, d), s', ms, m))
  {
    var after := Stage(Advance(cmd, here.at, d), s', ms, m);
    assert MoveStep(cmd, here.at, here.state, after.list, after.move, after.state, k);
  }

  /** A stop found at a stage is that stage's. */
  lemma StopsAt(cmd: string, k: Keys, here: Stage, ms: seq<Move>)
    requires Stopped(cmd, here.at, here.state, ms, k)
    ensures StopFor(cmd, k)(here, ms)
  {
  }

  /**
   * One pass of the move loop: parse the word at p and, when it names a
   * move and the king is there, play it with `make_move(move, all_moves)`
   * and step to the next word.  A zero answer leaves the board as it was.
   */
  method PlayNext(b: Board, cmd: string, p: nat, d: Dialect, ghost here: Stage) returns (m: Move, next: nat, ghost ms: seq<Move>)
    requires b.Valid() && At(cmd, p) != '\0'
    requires here.at == p && here.state == b.Save()
    modifies b
    ensures b.Valid()
    ensures m == 0 ==> b.Save() == old(b.Save()) && StopFor(cmd, b.keys)(here, ms)
    ensures m != 0 ==> LinkFor(cmd, d, b.keys)(here, Stage(next, b.Save(), ms, m)) && p < next <= |cmd| + 1
  {
    m, ms := PlayWord(b, cmd, p);
    next := NextWord(cmd, p, d);
    if m == 0 {
      StopsAt(cmd, b.keys, here, ms);
    } else {
      StepLinks(cmd, d, b.keys, here, ms, m, b.Save());
      AdvanceBounds(cmd, p, d);
    }
  }

  /** Parse the word at p and, when it names a move and the king is there, play it. */
  method PlayWord(b: Board, cmd: string, p: nat) returns (m: Move, ghost ms: seq<Move>)
    requires b.Valid() && At(cmd, p) != '\0'
    modifies b
    ensures b.Valid()
    ensures m == 0 ==> b.Save() == old(b.Save()) && Stopped(cmd, p, old(b.Save()), ms, b.keys)
    ensures m != 0 ==> MoveStep(cmd, p, old(b.Save()), ms, m, b.Save(), b.keys)
  {
    ghost var s := b.Save();
    var move, list := ParseMove(b, Drop(cmd, p));
    ms := list;
    assert StateOk(s, b.keys) && GeneratedFor(ms, s, b.keys, Drop(cmd, p));
    if move == 0 || b.bitboards[PieceOf(5, b.side)] == 0 {
      return 0, ms;
    }
    RuleInRange(b.bitboards, b.occupancies, b.side, b.enPassant, b.castle, Decode(move));
    Play(b, move);
    m := move;
  }

  /** `make_move(move, all_moves)` on a move the rules allow, its answer ignored as both front ends do. */
  method Play(b: Board, move: Move)
    requires b.Valid() && Decodable(move) && InRange(Decode(move), b.side) && b.bitboards[PieceOf(5, b.side)] != 0
    modifies b
    ensures b.Valid() && b.Save() == Made(old(b.Save()), Decode(move), b.keys)
  {
    var legal := b.MakeMove(move, false);
  }

  /** The replay so far: a chain of stages from the start, one key recorded per move. */
  ghost predicate Progress(cmd: string, d: Dialect, k: Keys, start: nat, s0: Snapshot, stages: seq<Stage>, keys: seq<bv64>)
  {
    Chains.Chain(stages, LinkFor(cmd, d, k)) && |stages| > 0 && stages[0] == Stage(start, s0, [], 0) &&
    Recorded(keys, stages, d)
  }

  /** A replay starts with one stage and no key. */
  lemma ProgressStart(cmd: string, d: Dialect, k: Keys, start: nat, s0: Snapshot)
    ensures Progress(cmd, d, k, start, s0, [Stage(start, s0, [], 0)], [])
  {
  }

  /** The replay stops where the text is over. */
  lemma EndStops(cmd: string, a: Stage, k: Keys)
    requires StateOk(a.state, k) && At(cmd, a.at) == '\0'
    ensures StopFor(cmd, k)(a, [])
  {
  }

  /** One pass of the move loop, with the replay so far carried along. */
  method ReplayStep(b: Board, cmd: string, p: nat, d: Dialect, ghost start: nat, ghost s0: Snapshot,
                    ghost stages: seq<Stage>, keys: seq<bv64>)
    returns (m: Move, next: nat, ghost stages': seq<Stage>, keys': seq<bv64>, ghost ms: seq<Move>)
    requires b.Valid() && At(cmd, p) != '\0'
    requires Progress(cmd, d, b.keys, start, s0, stages, keys)
    requires stages[|stages| - 1].at == p && stages[|stages| - 1].state == b.Save()
    modifies b
    ensures b.Valid()
    ensures m == 0 ==> b.Save() == old(b.Save()) && stages' == stages && keys' == keys &&
                       StopFor(cmd, b.keys)(stages[|stages| - 1], ms)
    ensures m != 0 ==> Progress(cmd, d, b.keys, start, s0, stages', keys') &&
                       stages'[|stages'| - 1].at == next && stages'[|stages'| - 1].state == b.Save() && p < next <= |cmd| + 1
  {
    ghost var here := stages[|stages| - 1];
    var before := b.hashKey;
    m, next, ms := PlayNext(b, cmd, p, d, here);
    stages', keys' := stages, keys;
    if m != 0 {
      ghost var after := Stage(next, b.Save(), ms, m);
      Chains.ChainExtend(stages, after, LinkFor(cmd, d, b.keys));
      RecordedExtend(keys, stages, d, after);
      keys' := keys + [if d == Engine then b.hashKey else before];
      stages' := stages + [after];
    }
  }

  /**
   * The move loop from position `start`: moves are played until the text
   * ends or a word fails to parse (`last` is the list generated for the
   * word that failed).  `keys` holds, per move, the key after it (engine)
   * or before it (modular front end).
   */
  method Replay(b: Board, cmd: string, start: nat, d: Dialect)
    returns (keys: seq<bv64>, ghost stages: seq<Stage>, ghost last: seq<Move>)
    requires b.Valid()
    modifies b
    ensures b.Valid()
    ensures Progress(cmd, d, b.keys, start, old(b.Save()), stages, keys) && stages[|stages| - 1].state == b.Save()
    ensures StopFor(cmd, b.keys)(stages[|stages| - 1], last)
  {
    var p := start;
    stages, keys := [Stage(start, b.Save(), [], 0)], [];
    ProgressStart(cmd, d, b.keys, start, b.Save());
    while At(cmd, p) != '\0'
      invariant b.Valid()
      invariant Progress(cmd, d, b.keys, start, old(b.Save()), stages, keys)
      invariant stages[|stages| - 1].at == p && stages[|stages| - 1].state == b.Save() && (p == start || p <= |cmd| + 1)
      decreases |cmd| + 1 - p
    {
      var m, q;
      ghost var ms;
      m, q, stages, keys, ms := ReplayStep(b, cmd, p, d, start, old(b.Save()), stages, keys);
      if m == 0 {
        last := ms;
        return;
      }
      p := q;
    }
    last := [];
    EndStops(cmd, stages[|stages| - 1], b.keys);
  }

  // ---------------------------------------------------------------------
  // The whole command
  // ---------------------------------------------------------------------

  /** State s is what `parse_fen` sets up from fen, with its key the position's Zobrist key. */
  ghost predicate SetUp(s: Snapshot, fen: string, d: Dialect, fifty: int, k: Keys)
  {
    var r := Fen.ReadFen(fen, d, fifty);
    StateOk(s, k) && s.bitboards == r.bb && s.side == r.side && s.castle == r.castle &&
    s.enPassant == r.enPassant && s.fiftyMove == r.fiftyMove && KeyOk(s, k)
  }

  /**
   * The moves of a command replayed: with no move list (start -1) the
   * set-up state alone; otherwise a chain of moves from start that ends
   * where the next word is not a move of the position reached.
   */
  ghost predicate Replayed(cmd: string, d: Dialect, k: Keys, start: int, stages: seq<Stage>, last: seq<Move>)
  {
    |stages| > 0 && Chains.Chain(stages, LinkFor(cmd, d, k)) &&
    (start == -1 ==> |stages| == 1) &&
    (start != -1 ==> stages[0].at == start && StopFor(cmd, k)(stages[|stages| - 1], last))
  }

  /** The move loop, skipped when there is no move list. */
  method ReplayFrom(b: Board, cmd: string, start: int, d: Dialect)
    returns (keys: seq<bv64>, ghost stages: seq<Stage>, ghost last: seq<Move>)
    requires b.Valid() && start >= -1
    modifies b
    ensures b.Valid() && Replayed(cmd, d, b.keys, start, stages, last)
    ensures stages[0].state == old(b.Save()) && stages[|stages| - 1].state == b.Save()
    ensures Recorded(keys, stages, d)
  {
    if start == -1 {
      keys, stages, last := [], [Stage(0, b.Save(), [], 0)], [];
      return;
    }
    keys, stages, last := Replay(b, cmd, start, d);
  }

  /**
   * The position `parse_position` sets up: "startpos" right after
   * "position ", else the text four past the first "fen", else the start
   * position.
   */
  function EngineSetup(cmd: string): string
  {
    if Occurs(cmd, "startpos", 9) then StartPosition
    else
      var f := Find(cmd, "fen", 9);
      if f == -1 then StartPosition else Drop(cmd, f + 4)
  }

  /** Where `parse_position`'s move list starts: six past the first "moves", or -1 when there is none. */
  function EngineMoves(cmd: string): (start: int)
    ensures start >= -1
  {
    var m := Find(cmd, "moves", 9);
    if m == -1 then -1 else m + 6
  }

  /** Every state of the replay has its key in the table, set-up position first. */
  lemma EngineTable(keys: seq<bv64>, stages: seq<Stage>)
    requires Recorded(keys, stages, Engine)
    ensures var table := [stages[0].state.hashKey] + keys;
      |table| == |stages| && forall i :: 0 <= i < |table| ==> table[i] == stages[i].state.hashKey
  {
    var table := [stages[0].state.hashKey] + keys;
    forall i | 0 < i < |table|
      ensures table[i] == stages[i].state.hashKey
    {
      assert table[i] == keys[i - 1] == KeyFor(stages, i - 1, Engine);
    }
  }

  /** `parse_fen` on a board, its result seen as a saved state. */
  method SetUpBoard(b: Board, fen: string, d: Dialect)
    requires b.Valid()
    modifies b
    ensures b.Valid() && SetUp(b.Save(), fen, d, old(b.fiftyMove), b.keys)
  {
    var fullMoves := Fen.ParseFen(b, fen, d);
  }

  /**
   * `parse_position`: set up the position, record its key as the first
   * entry of the table, then replay the moves after "moves", recording
   * the key after each.
   */
  method ParsePosition(b: Board, cmd: string) returns (table: seq<bv64>, ghost stages: seq<Stage>, ghost last: seq<Move>)
    requires b.Valid()
    modifies b
    ensures b.Valid() && |stages| > 0 && stages[|stages| - 1].state == b.Save()
    ensures SetUp(stages[0].state, EngineSetup(cmd), Engine, old(b.fiftyMove), b.keys)
    ensures Replayed(cmd, Engine, b.keys, EngineMoves(cmd), stages, last)
    ensures |table| == |stages| && forall i :: 0 <= i < |table| ==> table[i] == stages[i].state.hashKey
  {
    SetUpBoard(b, EngineSetup(cmd), Engine);
    var setUpKey := b.hashKey;
    var keys;
    keys, stages, last := ReplayFrom(b, cmd, EngineMoves(cmd), Engine);
    table := [setUpKey] + keys;
    EngineTable(keys, stages);
  }

  /** Where `cmd_position` sets up from, and where it then looks for "moves". */
  datatype Opening = Opening(parses: bool, fen: string, from: nat)

  /**
   * The set-up of `cmd_position`: after "position" and blanks, either
   * "startpos", or "fen" with the FEN cut off one before "moves" when
   * there is a move list; anything else sets up nothing.
   */
  function ModularSetup(cmd: string): Opening
  {
    var i := SkipWs(cmd, 8);
    if Occurs(cmd, "startpos", i) then Opening(true, StartPosition, SkipWs(cmd, i + 8))
    else if Occurs(cmd, "fen", i) then
      var j := SkipWs(cmd, i + 3);
      var mp := Find(cmd, "moves", j);
      if mp == -1 then Opening(true, Drop(cmd, j), j)
      else if mp - 1 >= j then Opening(true, cmd[j..mp - 1], mp)
      else Opening(true, Drop(cmd, j), mp)
    else Opening(false, "", i)
  }

  /** Where `cmd_position`'s move list starts: past "moves" and the blanks after it, or -1 when there is none. */
  function ModularMoves(cmd: string): (start: int)
    ensures start >= -1
  {
    var m := Find(cmd, "moves", ModularSetup(cmd).from);
    if m == -1 then -1 else SkipWs(cmd, m + 5)
  }

  /**
   * `cmd_position` as written: set up, then replay the moves, appending the
   * key before each move to the history it finds.  The history is never
   * cleared, neither here nor by `ucinewgame`.
   */
  method CmdPosition(b: Board, cmd: string, history: seq<bv64>)
    returns (table: seq<bv64>, ghost stages: seq<Stage>, ghost last: seq<Move>)
    requires b.Valid()
    modifies b
    ensures b.Valid() && |stages| > 0 && stages[|stages| - 1].state == b.Save()
    ensures ModularSetup(cmd).parses ==> SetUp(stages[0].state, ModularSetup(cmd).fen, Modular, old(b.fiftyMove), b.keys)
    ensures !ModularSetup(cmd).parses ==> stages[0].state == old(b.Save())
    ensures Replayed(cmd, Modular, b.keys, ModularMoves(cmd), stages, last)
    ensures |table| == |history| + |stages| - 1 && table[..|history|] == history
    ensures forall i :: 0 <= i < |stages| - 1 ==> table[|history| + i] == stages[i].state.hashKey
  {
    var keys;
    keys, stages, last := SetUpAndReplay(b, cmd);
    table := history + keys;
  }

  /**
   * `cmd_position` with the history cleared first, as a new `position`
   * command (which lists the whole game) evidently intends: the table then
   * holds exactly the keys of the positions the command's moves started from.
   */
  method CmdPositionFresh(b: Board, cmd: string)
    returns (table: seq<bv64>, ghost stages: seq<Stage>, ghost last: seq<Move>)
    requires b.Valid()
    modifies b
    ensures b.Valid() && |stages| > 0 && stages[|stages| - 1].state == b.Save()
    ensures ModularSetup(cmd).parses ==> SetUp(stages[0].state, ModularSetup(cmd).fen, Modular, old(b.fiftyMove), b.keys)
    ensures !ModularSetup(cmd).parses ==> stages[0].state == old(b.Save())
    ensures Replayed(cmd, Modular, b.keys, ModularMoves(cmd), stages, last)
    ensures |table| + 1 == |stages| && forall i :: 0 <= i < |table| ==> table[i] == stages[i].state.hashKey
    ensures 4 * |table| <= |cmd| && (|cmd| < InputSize ==> |table| < MaxGameMoves)
  {
    table, stages, last := SetUpAndReplay(b, cmd);
  }

  /** The set-up and move loop shared by both forms of `cmd_position`; `keys` holds the key before each move. */
  method SetUpAndReplay(b: Board, cmd: string) returns (keys: seq<bv64>, ghost stages: seq<Stage>, ghost last: seq<Move>)
    requires b.Valid()
    modifies b
    ensures b.Valid() && |stages| > 0 && stages[|stages| - 1].state == b.Save()
    ensures ModularSetup(cmd).parses ==> SetUp(stages[0].state, ModularSetup(cmd).fen, Modular, old(b.fiftyMove), b.keys)
    ensures !ModularSetup(cmd).parses ==> stages[0].state == old(b.Save())
    ensures Replayed(cmd, Modular, b.keys, ModularMoves(cmd), stages, last)
    ensures |keys| + 1 == |stages| && forall i :: 0 <= i < |keys| ==> keys[i] == stages[i].state.hashKey
    ensures 4 * |keys| <= |cmd|
  {
    var opening := ModularSetup(cmd);
    if opening.parses {
      SetUpBoard(b, opening.fen, Modular);
    }
    keys, stages, last := ReplayFrom(b, cmd, ModularMoves(cmd), Modular);
    ModularKeys(cmd, b.keys, keys, stages);
  }

  /** The modular keys are the states' before each move, one per four characters of the line at most. */
  lemma ModularKeys(cmd: string, k: Keys, keys: seq<bv64>, stages: seq<Stage>)
    requires Recorded(keys, stages, Modular) && Chains.Chain(stages, LinkFor(cmd, Modular, k))
    ensures |keys| + 1 == |stages| && forall i :: 0 <= i < |keys| ==> keys[i] == stages[i].state.hashKey
    ensures 4 * |keys| <= |cmd|
  {
    ReplayLength(cmd, Modular, k, stages);
    forall i | 0 <= i < |keys|
      ensures keys[i] == stages[i].state.hashKey
    {
      assert keys[i] == KeyFor(stages, i, Modular);
    }
  }

  // ---------------------------------------------------------------------
  // How many moves a line can hold
  // ---------------------------------------------------------------------

  /** A text `parse_move` accepts starts with four characters that are neither NUL nor a space, so the word is at least four long. */
  lemma MoveWordLong(cmd: string, p: nat, ms: seq<Move>)
    requires Parsed(ms, Drop(cmd, p)) != 0
    ensures p + 4 <= |cmd| && WordEnd(cmd, p, false) >= p + 4
  {
    var str := Drop(cmd, p);
    assert SquareAt(str, 0) >= 0 && SquareAt(str, 2) >= 0;
    assert At(str, 0) == At(cmd, p) && At(str, 1) == At(cmd, p + 1);
    assert At(str, 2) == At(cmd, p + 2) && At(str, 3) == At(cmd, p + 3);
  }

  /** Each replayed move moves the pointer on by at least four characters of the line. */
  lemma StepFar(cmd: string, d: Dialect, k: Keys, a: Stage, b: Stage)
    requires LinkFor(cmd, d, k)(a, b)
    ensures a.at + 4 <= |cmd| && b.at >= a.at + 4
  {
    assert Linked(cmd, d, k, a, b);
    MoveWordLong(cmd, a.at, b.list);
  }

  /** A line of n characters replays at most n / 4 moves. */
  lemma ReplayLength(cmd: string, d: Dialect, k: Keys, stages: seq<Stage>)
    requires Chains.Chain(stages, LinkFor(cmd, d, k)) && |stages| > 0
    ensures 4 * (|stages| - 1) <= |cmd|
  {
    if |stages| > 1 {
      forall a, b | LinkFor(cmd, d, k)(a, b)
        ensures b.at >= a.at + 4 && a.at + 4 <= |cmd|
      {
        StepFar(cmd, d, k, a, b);
      }
      Chains.ChainBound(stages, LinkFor(cmd, d, k), (s: Stage) => s.at as int, 4, |cmd|);
    }
  }

  // ---------------------------------------------------------------------
  // The history `cmd_position` keeps
  // ---------------------------------------------------------------------

  /** `MAX_GAME_MOVES`, the size of the repetition table. */
  const MaxGameMoves := 2048

  /** The size of the line buffer the modular command loop reads into. */
  const InputSize := 8192

  /**
   * A key recorded by an earlier `position` command (an earlier game, say)
   * is reported as a repetition: after a history [c], a command whose one
   * move leaves a position of key a records [c, a], and a position of key c
   * then counts as repeated, although this game has not seen it.
   */
  lemma StaleKeyRepeats(c: bv64, a: bv64)
    ensures Queries.Repeated([c] + [a], 2, c)
    ensures a != c ==> !Queries.Repeated([a], 1, c)
  {
    assert ([c] + [a])[0] == c;
  }

  /** The history after the k-th `position` command of a game that lists 2 j moves at its j-th, as a GUI sends after each engine move. */
  function SessionHistory(k: nat): nat
  {
    if k == 0 then 0 else SessionHistory(k - 1) + 2 * k
  }

  /** The history grows quadratically with the game's length. */
  lemma {:induction false} SessionHistoryGrows(k: nat)
    ensures SessionHistory(k) == k * (k + 1)
  {
    if k > 0 {
      SessionHistoryGrows(k - 1);
    }
  }

  /** As written, the history of one game outgrows the table at the 45th such command, 90 plies into the game. */
  lemma SessionOverflows()
    ensures SessionHistory(44) < MaxGameMoves < SessionHistory(45)
  {
    SessionHistoryGrows(44);
    SessionHistoryGrows(45);
  }

  /** With the history cleared, every repetition found is of a position of this command's game. */
  lemma FreshRepetitionInGame(table: seq<bv64>, stages: seq<Stage>, key: bv64)
    requires |table| + 1 == |stages| && forall i :: 0 <= i < |table| ==> table[i] == stages[i].state.hashKey
    requires Queries.Repeated(table, |table|, key)
    ensures exists i :: 0 <= i < |stages| - 1 && (|stages| - 1 - i) % 2 == 0 && stages[i].state.hashKey == key
  {
    var i :| 0 <= i <= |table| - 2 && (|table| - i) % 2 == 0 && table[i] == key;
    assert stages[i].state.hashKey == key;
  }
}
