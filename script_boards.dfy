/**
 * The boards the Python training and analysis scripts look at. python-chess
 * numbers squares a1 = 0 .. h8 = 63 (the engine's mailbox runs a8 = 0 ..
 * h1 = 63); pieces use the engine's codes, white P N B R Q K = 0..5, black
 * 6..11, -1 for an empty square. The scripts weigh material with a table by
 * piece type in which the king is worth nothing.
 */
module ScriptBoards {
  import opened ModularEvaluation

  /** The same board read in the engine's square order. */
  function EngineMailbox(b: Mailbox): (e: Mailbox)
    ensures forall sq :: 0 <= sq < 64 ==> e[sq] == b[FlipSq(sq)]
  {
    seq(64, sq requires 0 <= sq < 64 => b[FlipSq(sq)])
  }

  /** A table of values by piece type P N B R Q K, the king worth nothing. */
  predicate ValueTable(values: seq<int>)
  {
    |values| == 6 && values[5] == 0
  }

  /** The values of `simple_material_eval` in the NNUE trainer. */
  const TrainerValues: seq<int> := [100, 337, 365, 477, 1025, 0]

  /** The values of the Lichess trainer and of the game analysis. */
  const ScriptValues: seq<int> := [100, 320, 330, 500, 900, 0]

  lemma ScriptTablesAreValueTables()
    ensures ValueTable(TrainerValues) && ValueTable(ScriptValues)
  {
  }

  /** One square's share, from white's point of view. */
  function Signed(c: Piece, values: seq<int>): int
    requires |values| == 6
  {
    if c < 0 then 0 else if c < 6 then values[c] else -values[c - 6]
  }

  /** The material balance of squares 0 .. n - 1. */
  function MaterialUpTo(b: Mailbox, values: seq<int>, n: nat): int
    requires |values| == 6 && n <= 64
  {
    if n == 0 then 0 else MaterialUpTo(b, values, n - 1) + Signed(b[n - 1], values)
  }

  function Material(b: Mailbox, values: seq<int>): int
    requires |values| == 6
  {
    MaterialUpTo(b, values, 64)
  }

  /** The scripts' material count: one pass over the squares, white adding and black subtracting. */
  method CountMaterial(b: Mailbox, values: seq<int>) returns (score: int)
    requires |values| == 6
    ensures score == Material(b, values)
  {
    score := 0;
    var square := 0;
    while square < 64
      invariant 0 <= square <= 64
      invariant score == MaterialUpTo(b, values, square)
    {
      var piece := b[square];
      if piece >= 0 {
        if piece < 6 {
          score := score + values[piece];
        } else {
          score := score - values[piece - 6];
        }
      }
      square := square + 1;
    }
  }

  /** Every piece with its colour exchanged, on the same square. */
  function ColoursSwapped(b: Mailbox): (s: Mailbox)
  {
    seq(64, sq requires 0 <= sq < 64 => SwapColour(b[sq]))
  }

  lemma {:induction false} SwapNegatesUpTo(b: Mailbox, values: seq<int>, n: nat)
    requires |values| == 6 && n <= 64
    ensures MaterialUpTo(ColoursSwapped(b), values, n) == -MaterialUpTo(b, values, n)
  {
    if n > 0 {
      SwapNegatesUpTo(b, values, n - 1);
    }
  }

  /** Exchanging the colours negates the balance. */
  lemma MaterialColourSwap(b: Mailbox, values: seq<int>)
    requires |values| == 6
    ensures Material(ColoursSwapped(b), values) == -Material(b, values)
  {
    SwapNegatesUpTo(b, values, 64);
  }

  lemma {:induction false} UpdateUpTo(b: Mailbox, sq: int, c: Piece, values: seq<int>, n: nat)
    requires |values| == 6 && 0 <= sq < 64 && n <= 64
    ensures MaterialUpTo(b[sq := c], values, n)
         == MaterialUpTo(b, values, n) + (if sq < n then Signed(c, values) - Signed(b[sq], values) else 0)
  {
    if n > 0 {
      UpdateUpTo(b, sq, c, values, n - 1);
    }
  }

  /** Changing one square changes the balance by exactly that square's difference. */
  lemma MaterialUpdate(b: Mailbox, sq: int, c: Piece, values: seq<int>)
    requires |values| == 6 && 0 <= sq < 64
    ensures Material(b[sq := c], values) == Material(b, values) + Signed(c, values) - Signed(b[sq], values)
  {
    UpdateUpTo(b, sq, c, values, 64);
  }

  /** Kings weigh nothing: placing one on an empty square leaves the balance as it was. */
  lemma KingsWeighNothing(b: Mailbox, sq: int, values: seq<int>)
    requires ValueTable(values) && 0 <= sq < 64 && b[sq] == -1
    ensures Material(b[sq := 5], values) == Material(b, values)
    ensures Material(b[sq := 11], values) == Material(b, values)
  {
    MaterialUpdate(b, sq, 5, values);
    MaterialUpdate(b, sq, 11, values);
  }
}
