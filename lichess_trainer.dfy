/**
 * The Lichess training script: the positions it takes from a downloaded
 * game, the target it gives each of them, its input vector, the batch
 * update of the network and the batching of an epoch. Its weight file is
 * read and written by the same code as the NNUE trainer's.
 */
module LichessTrainer {
  import opened ModularEvaluation
  import opened ScriptBoards
  import opened Nnue
  import opened NnueTrainer
  import opened Options

  // ---------------------------------------------------------------------
  // Positions from a game
  // ---------------------------------------------------------------------

  /** The game's result from the bot's side: 1 for a win, -1 for a loss, 0 otherwise. */
  function BotScore(winner: string, isBotWhite: bool): real
  {
    if winner == "white" then (if isBotWhite then 1.0 else -1.0)
    else if winner == "black" then (if isBotWhite then -1.0 else 1.0)
    else 0.0
  }

  /** The bot's score is its colour's result: the two colours score opposite in a decided game. */
  lemma BotScoreSides(winner: string)
    ensures BotScore(winner, true) == -BotScore(winner, false)
    ensures BotScore(winner, true) == 1.0 <==> winner == "white"
    ensures BotScore(winner, false) == 1.0 <==> winner == "black"
  {
  }

  /** One training position: its ply, the bot's score and whether the bot is to move. */
  datatype Sample = Sample(ply: nat, result: real, isBotTurn: bool)

  /** The index of the first move that does not parse, or the number of moves. */
  function FirstIllegal(legal: seq<bool>): (k: nat)
    ensures k <= |legal|
    ensures forall i :: 0 <= i < k ==> legal[i]
    ensures k < |legal| ==> !legal[k]
  {
    if legal == [] then 0 else if !legal[0] then 0 else 1 + FirstIllegal(legal[1..])
  }

  /**
   * `extract_positions_from_game`: the moves in order until the first one
   * that does not parse; every position from ply 20 on is kept, taken
   * before its move is played. `legal[i]` says whether move i parses in
   * the position it is played from; a game without moves yields nothing.
   */
  method ExtractPositionsFromGame(moves: Option<seq<string>>, winner: string, isBotWhite: bool, legal: seq<bool>)
    returns (positions: seq<Sample>)
    requires moves.Some? ==> |legal| == |moves.value|
    ensures moves.None? ==> positions == []
    ensures moves.Some? ==>
      |positions| == (if FirstIllegal(legal) > 20 then FirstIllegal(legal) - 20 else 0)
      && forall k :: 0 <= k < |positions| ==>
        positions[k] == Sample(20 + k, BotScore(winner, isBotWhite), ((20 + k) % 2 == 0) == isBotWhite)
  {
    positions := [];
    if moves.None? {
      return;
    }
    var tokens := moves.value;
    if |tokens| == 0 {
      return;
    }
    var botScore := BotScore(winner, isBotWhite);
    var whiteToMove := true;
    var i := 0;
    while i < |tokens|
      invariant 0 <= i <= FirstIllegal(legal)
      invariant whiteToMove == (i % 2 == 0)
      invariant |positions| == (if i > 20 then i - 20 else 0)
      invariant forall k :: 0 <= k < |positions| ==>
        positions[k] == Sample(20 + k, botScore, ((20 + k) % 2 == 0) == isBotWhite)
    {
      if !legal[i] {
        break;
      }
      if i >= 20 {
        positions := positions + [Sample(i, botScore, whiteToMove == isBotWhite)];
      }
      whiteToMove := !whiteToMove;
      i := i + 1;
    }
  }

  // ---------------------------------------------------------------------
  // Targets
  // ---------------------------------------------------------------------

  /** `min(0.8, ply / 100)`: the weight of the result grows with the ply, up to 0.8. */
  function ResultWeight(ply: nat): real
  {
    var w := ply as real / 100.0;
    if w < 0.8 then w else 0.8
  }

  lemma ResultWeightGrows(a: nat, b: nat)
    requires a <= b
    ensures 0.0 <= ResultWeight(a) <= ResultWeight(b) <= 0.8
    ensures b >= 80 ==> ResultWeight(b) == 0.8
  {
  }

  /** `calculate_target_eval`: the material blended towards 300 times the result. */
  function TargetEval(result: real, ply: nat, material: int): real
  {
    var w := ResultWeight(ply);
    (1.0 - w) * material as real + w * (result * 300.0)
  }

  /** The target lies between the material count and the scaled result, and at ply 0 it is the material. */
  lemma TargetBetween(result: real, ply: nat, material: int)
    ensures TargetEval(result, ply, material) == Blend(ResultWeight(ply), material as real, result * 300.0)
    ensures material as real <= result * 300.0 ==>
      material as real <= TargetEval(result, ply, material) <= result * 300.0
    ensures result * 300.0 <= material as real ==>
      result * 300.0 <= TargetEval(result, ply, material) <= material as real
    ensures ply == 0 ==> TargetEval(result, ply, material) == material as real
  {
    ResultWeightGrows(ply, ply);
    BlendBetween(ResultWeight(ply), material as real, result * 300.0);
  }

  /** The stored target: the blend, negated when black is to move (odd plies, as each position precedes its move). */
  function TrainingTarget(s: Sample, material: int): real
  {
    var t := TargetEval(s.result, s.ply, material);
    if s.ply % 2 == 1 then -t else t
  }

  /**
   * The result term is the bot's score while the material term is
   * white's: in a game the bot won with black, a level position with white
   * to move at ply 80 gets the target +240, as if white stood better.
   */
  lemma BotPerspectiveTargetFavoursLoser()
    ensures BotScore("black", false) == 1.0
    ensures TrainingTarget(Sample(80, BotScore("black", false), false), 0) == 240.0
  {
  }

  /** White's result: 1 when white won, -1 when black won, 0 for a draw. */
  function WhiteScore(winner: string): real
  {
    if winner == "white" then 1.0 else if winner == "black" then -1.0 else 0.0
  }

  /** The target with both terms from white's side before the flip for the side to move. */
  function CorrectedTarget(ply: nat, winner: string, material: int): real
  {
    var t := TargetEval(WhiteScore(winner), ply, material);
    if ply % 2 == 1 then -t else t
  }

  /**
   * With level material and a decided game, the corrected target favours
   * the side to move exactly when that side won, whichever side the bot played.
   */
  lemma CorrectedTargetFavoursWinner(ply: nat, winner: string)
    requires ply > 0 && (winner == "white" || winner == "black")
    ensures CorrectedTarget(ply, winner, 0) > 0.0 <==> (winner == "white") == (ply % 2 == 0)
  {
    var w := ResultWeight(ply);
    assert w > 0.0;
    assert TargetEval(WhiteScore(winner), ply, 0) == w * (WhiteScore(winner) * 300.0);
    if winner == "white" {
      MulPositive(w, 300.0);
    } else {
      MulPositive(w, 300.0);
      assert w * (-1.0 * 300.0) == -(w * 300.0);
    }
  }

  lemma MulPositive(x: real, y: real)
    requires x > 0.0 && y > 0.0
    ensures x * y > 0.0
  {
  }

  // ---------------------------------------------------------------------
  // The input vector
  // ---------------------------------------------------------------------

  /** The Lichess trainer's input: piece p on python-chess square s (a1 = 0) at p * 64 + s. */
  predicate InputOf(input: seq<int>, b: Mailbox)
  {
    |input| == InputSize
    && forall p, s :: 0 <= p < 12 && 0 <= s < 64 ==>
      input[FeatureOf(p, s)] == if b[s] == p then 1 else 0
  }

  /** `board_to_input`: one pass over the squares, as written with the square number unconverted. */
  method BoardToInput(b: Mailbox) returns (input: seq<int>)
    ensures InputOf(input, b)
  {
    var a := new int[InputSize](_ => 0);
    forall p, s | 0 <= p < 12 && 0 <= s < 64
      ensures 0 <= FeatureOf(p, s) < InputSize && a[FeatureOf(p, s)] == 0
    {
      FeatureIndex(p, s, 0, 0);
    }
    var square := 0;
    while square < 64
      invariant 0 <= square <= 64
      invariant forall p, s :: 0 <= p < 12 && 0 <= s < 64 ==>
        a[FeatureOf(p, s)] == if s < square && b[s] == p then 1 else 0
    {
      var piece: int := b[square];
      if piece >= 0 {
        FeatureIndex(piece, square, 0, 0);
        var idx: int := piece * 64 + square;
        forall p, s | 0 <= p < 12 && 0 <= s < 64
          ensures FeatureOf(p, s) == idx <==> p == piece && s == square
        {
          FeatureIndex(p, s, piece, square);
        }
        a[idx] := 1;
      }
      square := square + 1;
    }
    input := a[..];
    forall p, s | 0 <= p < 12 && 0 <= s < 64
      ensures input[FeatureOf(p, s)] == if b[s] == p then 1 else 0
    {
      FeatureIndex(p, s, 0, 0);
      assert input[FeatureOf(p, s)] == a[FeatureOf(p, s)];
    }
  }

  /**
   * The Lichess input of a board is the engine's feature vector of that
   * board turned upside down: the network trained on it sees every piece
   * on the mirrored rank.
   */
  lemma InputIsRankFlipped(input: seq<int>, b: Mailbox)
    requires InputOf(input, b)
    ensures Lights(input, EngineMailbox(b))
  {
    forall p, e | 0 <= p < 12 && 0 <= e < 64
      ensures input[FeatureOf(p, e)] == if EngineMailbox(EngineMailbox(b))[e] == p then 1 else 0
    {
      FlipAgain(e);
    }
  }

  /** A lone white pawn on e2, python-chess square 12. */
  const PawnOnE2: Mailbox := seq(64, s requires 0 <= s < 64 => if s == 12 then 0 else -1)

  /** The pawn on e2 lights input 12, which the engine reads as a pawn on e7; the engine's own feature is 52. */
  lemma E2PawnReadsAsE7(input: seq<int>, features: seq<int>)
    requires InputOf(input, PawnOnE2) && Lights(features, PawnOnE2)
    ensures input[12] == 1 && features[12] == 0 && features[52] == 1
  {
    assert PawnOnE2[12] == 0 && PawnOnE2[52] == -1;
    assert FlipSq(12) == 52 && FlipSq(52) == 12;
    assert EngineMailbox(PawnOnE2)[12] == -1 && EngineMailbox(PawnOnE2)[52] == 0;
    assert input[FeatureOf(0, 12)] == 1;
    assert features[FeatureOf(0, 12)] == 0;
    assert features[FeatureOf(0, 52)] == 1;
  }

  // ---------------------------------------------------------------------
  // The batch update
  // ---------------------------------------------------------------------

  /** A vector of zeros. */
  function Zeros(n: nat): (z: seq<real>)
    ensures |z| == n
  {
    seq(n, _ => 0.0)
  }

  /** `acc + x * d`, the outer-product row of an input entry x. */
  function AddScaled(acc: seq<real>, x: int, d: seq<real>): (r: seq<real>)
    requires |acc| == |d|
    ensures |r| == |acc|
  {
    seq(|acc|, j requires 0 <= j < |acc| => acc[j] + x as real * d[j])
  }

  predicate BatchShapes(inputs: seq<seq<int>>, dHidden1: seq<seq<real>>)
  {
    |inputs| == |dHidden1|
    && (forall s :: 0 <= s < |inputs| ==> |inputs[s]| == InputSize)
    && (forall s :: 0 <= s < |dHidden1| ==> |dHidden1[s]| == Hidden1Size)
  }

  /** The accumulated input-weight gradient of the first n samples: the sum of their outer products. */
  function InputGrad(inputs: seq<seq<int>>, dHidden1: seq<seq<real>>, n: nat): (g: seq<seq<real>>)
    requires BatchShapes(inputs, dHidden1) && n <= |inputs|
    ensures Shaped(g, InputSize, Hidden1Size)
  {
    if n == 0 then seq(InputSize, _ => Zeros(Hidden1Size))
    else
      var g := InputGrad(inputs, dHidden1, n - 1);
      seq(InputSize, r requires 0 <= r < InputSize => AddScaled(g[r], inputs[n - 1][r], dHidden1[n - 1]))
  }

  /** The output-bias gradient of the first n samples: the sum of `2 * error / batch_size`. */
  function OutputGrad(errors: seq<real>, n: nat, batchSize: real): real
    requires n <= |errors| && batchSize > 0.0
  {
    if n == 0 then 0.0 else OutputGrad(errors, n - 1, batchSize) + 2.0 * errors[n - 1] / batchSize
  }

  /** Each sample's error against its target scaled by 400. */
  function Errors(outputs: seq<real>, targets: seq<real>): (e: seq<real>)
    requires |outputs| == |targets|
    ensures |e| == |outputs|
  {
    seq(|outputs|, s requires 0 <= s < |outputs| => outputs[s] - targets[s] / 400.0)
  }

  function SumSquares(errors: seq<real>, n: nat): real
    requires n <= |errors|
  {
    if n == 0 then 0.0 else SumSquares(errors, n - 1) + errors[n - 1] * errors[n - 1]
  }

  /** The gradient of the input row of a piece-square no sample of the batch has stays zero. */
  lemma {:induction false} UnseenRowGradZero(inputs: seq<seq<int>>, dHidden1: seq<seq<real>>, n: nat, r: int)
    requires BatchShapes(inputs, dHidden1) && n <= |inputs| && 0 <= r < InputSize
    requires forall s :: 0 <= s < n ==> inputs[s][r] == 0
    ensures InputGrad(inputs, dHidden1, n)[r] == Zeros(Hidden1Size)
  {
    if n > 0 {
      UnseenRowGradZero(inputs, dHidden1, n - 1, r);
    }
  }

  /** A step by a zero gradient leaves a row as it was. */
  lemma MovedByZero(row: seq<real>, lr: real)
    ensures Moved(row, Zeros(|row|), lr) == row
  {
  }

  /** The rest of a layer after a gradient step. */
  function MovedRows(rows: seq<seq<real>>, grad: seq<seq<real>>, lr: real): (m: seq<seq<real>>)
    ensures |m| == |rows|
  {
    seq(|rows|, r requires 0 <= r < |rows| => Moved(rows[r], if r < |grad| then grad[r] else [], lr))
  }

  /**
   * `train_batch`: the per-sample errors and hidden-layer gradients come
   * from the float forward and backward passes; the method accumulates
   * the loss, the output-bias gradient and the input-weight outer
   * products over the batch and then makes one step on every layer.
   */
  method TrainBatch(net: TrainerNetwork, inputs: seq<seq<int>>, outputs: seq<real>, targets: seq<real>,
                    dHidden1: seq<seq<real>>, gradHidden1Bias: seq<real>, gradHidden1Weights: seq<seq<real>>,
                    gradHidden2Bias: seq<real>, gradHidden2Weights: seq<real>, lr: real)
    returns (loss: real)
    requires BatchShapes(inputs, dHidden1) && |inputs| > 0
    requires |outputs| == |targets| == |inputs|
    requires net.Valid()
    modifies net
    ensures loss == SumSquares(Errors(outputs, targets), |inputs|) / |inputs| as real
    ensures net.outputBias == old(net.outputBias) - lr * OutputGrad(Errors(outputs, targets), |inputs|, |inputs| as real)
    ensures |net.inputWeights| == InputSize
    ensures forall r :: 0 <= r < InputSize ==>
      net.inputWeights[r] == Moved(old(net.inputWeights[r]), InputGrad(inputs, dHidden1, |inputs|)[r], lr)
    ensures net.hidden1Bias == Moved(old(net.hidden1Bias), gradHidden1Bias, lr)
    ensures net.hidden1Weights == MovedRows(old(net.hidden1Weights), gradHidden1Weights, lr)
    ensures net.hidden2Bias == Moved(old(net.hidden2Bias), gradHidden2Bias, lr)
    ensures net.hidden2Weights == Moved(old(net.hidden2Weights), gradHidden2Weights, lr)
    ensures net.inputRowsWritable == old(net.inputRowsWritable)
  {
    ghost var errors := Errors(outputs, targets);
    var batchSize := |inputs| as real;
    var totalLoss := 0.0;
    var gradOutputBias := 0.0;
    var gradInput := InputGrad(inputs, dHidden1, 0);
    var s := 0;
    while s < |inputs|
      invariant 0 <= s <= |inputs|
      invariant totalLoss == SumSquares(errors, s)
      invariant gradOutputBias == OutputGrad(errors, s, batchSize)
      invariant gradInput == InputGrad(inputs, dHidden1, s)
    {
      var error := outputs[s] - targets[s] / 400.0;
      assert error == errors[s];
      totalLoss := totalLoss + error * error;
      gradOutputBias := gradOutputBias + 2.0 * error / batchSize;
      var input := inputs[s];
      var d := dHidden1[s];
      gradInput := seq(InputSize, r requires 0 <= r < InputSize => AddScaled(gradInput[r], input[r], d));
      s := s + 1;
    }
    var rows := net.inputWeights;
    net.inputWeights := seq(InputSize, r requires 0 <= r < InputSize => Moved(rows[r], gradInput[r], lr));
    net.hidden1Bias := Moved(net.hidden1Bias, gradHidden1Bias, lr);
    net.hidden1Weights := MovedRows(net.hidden1Weights, gradHidden1Weights, lr);
    net.hidden2Bias := Moved(net.hidden2Bias, gradHidden2Bias, lr);
    net.hidden2Weights := Moved(net.hidden2Weights, gradHidden2Weights, lr);
    net.outputBias := net.outputBias - lr * gradOutputBias;
    loss := totalLoss / batchSize;
  }

  /** After a batch, the input row of a piece-square absent from every sample is unchanged. */
  lemma UnseenRowsKept(inputs: seq<seq<int>>, dHidden1: seq<seq<real>>, row: seq<real>, r: int, lr: real)
    requires BatchShapes(inputs, dHidden1) && 0 <= r < InputSize && |row| == Hidden1Size
    requires forall s :: 0 <= s < |inputs| ==> inputs[s][r] == 0
    ensures Moved(row, InputGrad(inputs, dHidden1, |inputs|)[r], lr) == row
  {
    UnseenRowGradZero(inputs, dHidden1, |inputs|, r);
    MovedByZero(row, lr);
  }

  // ---------------------------------------------------------------------
  // An epoch
  // ---------------------------------------------------------------------

  /**
   * The batches of an epoch: runs of `batchSize` samples, the last one
   * shorter; a batch under half the size is skipped, which can only be
   * the last. Returns the batches trained and the samples they hold and drop.
   */
  method EpochBatches(n: nat, batchSize: nat) returns (numBatches: nat, trained: nat, dropped: nat)
    requires batchSize > 0
    ensures trained + dropped == n
    ensures dropped == (if n % batchSize < batchSize / 2 then n % batchSize else 0)
    ensures numBatches == n / batchSize + (if n % batchSize != 0 && n % batchSize >= batchSize / 2 then 1 else 0)
  {
    numBatches, trained, dropped := 0, 0, 0;
    var i := 0;
    ghost var k := 0;
    while i < n
      invariant i == k * batchSize && k >= 0
      invariant i <= n ==> trained == i && dropped == 0 && numBatches == k
      invariant i > n ==> Batched(n, batchSize, numBatches, trained, dropped)
      decreases n - i
    {
      var len := if i + batchSize <= n then batchSize else n - i;
      if i + batchSize > n {
        DivSplit(n, batchSize, k);
      }
      if len < batchSize / 2 {
        dropped := dropped + len;
      } else {
        trained := trained + len;
        numBatches := numBatches + 1;
      }
      assert (k + 1) * batchSize == k * batchSize + batchSize;
      i := i + batchSize;
      k := k + 1;
    }
    if i == n {
      DivSplit(n, batchSize, k);
    }
  }

  /** The counts an epoch ends with. */
  predicate Batched(n: nat, batchSize: nat, numBatches: nat, trained: nat, dropped: nat)
    requires batchSize > 0
  {
    trained + dropped == n
    && dropped == (if n % batchSize < batchSize / 2 then n % batchSize else 0)
    && numBatches == n / batchSize + (if n % batchSize != 0 && n % batchSize >= batchSize / 2 then 1 else 0)
  }

  lemma {:induction false} MulAtLeast(e: nat, d: nat)
    requires e >= 1
    ensures e * d >= d
  {
    if e > 1 {
      MulAtLeast(e - 1, d);
      assert e * d == (e - 1) * d + d;
    }
  }
  lemma MulMono(a: int, b: int, d: nat)
    requires a < b
    ensures a * d + d <= b * d
  {
    MulAtLeast(b - a, d);
    assert (b - a) * d == b * d - a * d;
  }
  lemma DivSplit(n: nat, d: nat, k: nat)
    requires d > 0 && k * d <= n < k * d + d
    ensures n / d == k && n % d == n - k * d
  {
    var q, r := n / d, n % d;
    assert n == q * d + r && 0 <= r < d;
    if q < k {
      MulMono(q, k, d);
      assert false;
    } else if q > k {
      MulMono(k, q, d);
      assert false;
    }
  }

  /**
   * `epoch_loss / max(num_batches, 1)`: the mean loss per batch, so that the
   * batches' count times the mean gives back the total; an epoch without
   * batches reports its total unchanged.
   */
  function AverageLoss(total: real, numBatches: nat): (r: real)
    ensures r * (if numBatches > 1 then numBatches else 1) as real == total
    ensures numBatches <= 1 ==> r == total
    ensures 0.0 <= total ==> 0.0 <= r <= total
  {
    total / (if numBatches > 1 then numBatches as real else 1.0)
  }
}
