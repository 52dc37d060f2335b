/**
 * Static exchange evaluation: what a capture wins once every recapture on
 * its target square has been played out, cheapest attacker first.
 *
 * The main engine's `see` fills a `gain` array forward, one recapture per
 * entry, and then folds it backward.  Who recaptures next is the answer of
 * `get_smallest_attacker`, a scan of the board for the cheapest piece of a
 * side attacking the square; here those answers are a sequence of values,
 * 0 meaning "no attacker", and the scan itself is a parameter.
 */
module Exchange {
  import opened Bits
  import opened Squares
  import opened Position
  import opened Boards
  import opened Moves

  /** `see_piece_values` of the main engine, pawn to king. */
  const SeeValues: seq<int> := [100, 337, 365, 477, 1025, 20000]

  /** `see_piece_values` of the modular engine, pawn to king. */
  const ModularSeeValues: seq<int> := [100, 320, 330, 500, 900, 20000]

  /** The exchange value of a piece code: its kind's entry. */
  function PieceValue(values: seq<int>, piece: int): (v: int)
    requires |values| == 6 && piece >= 0
    ensures v == values[piece % 6]
  {
    values[piece % 6]
  }

  /** Every exchange value is positive. */
  lemma ValuesPositive(piece: int)
    requires piece >= 0
    ensures PieceValue(SeeValues, piece) >= 100 && PieceValue(ModularSeeValues, piece) >= 100
  {
  }

  /**
   * The value of the piece a capture on t takes: the first of the
   * opponent's boards holding t, and 0 when none does.
   */
  function VictimValue(bb: seq<Bitboard>, t: Square, side: int): (v: int)
    requires |bb| == 12 && (side == White || side == Black)
    ensures v == 0 || v >= 100
    ensures (exists r :: OpponentBase(side) <= r < OpponentBase(side) + 6 && Bit(bb[r], t)) ==> v >= 100
    ensures (forall r :: OpponentBase(side) <= r < OpponentBase(side) + 6 ==> !Bit(bb[r], t)) ==> v == 0
  {
    var lo := OpponentBase(side);
    var q := FirstHolder(bb, t, lo, lo + 6);
    if q < lo + 6 then PieceValue(SeeValues, q) else 0
  }

  // ---------------------------------------------------------------------
  // The gain array
  // ---------------------------------------------------------------------

  /** The answer of the j-th call to the attacker scan; 0 past the end. */
  function NextAttacker(xs: seq<int>, j: nat): int
  {
    if j < |xs| then xs[j] else 0
  }

  /** The value of the piece captured by the d-th recapture: the first capturer, then each recapturer in turn. */
  function SwapValue(attacker: int, xs: seq<int>, d: nat): int
    requires d >= 1
  {
    if d == 1 then attacker else NextAttacker(xs, d - 2)
  }

  /** `gain[d]`: what the side making the d-th capture has won if the exchange stops there. */
  function Gain(victim: int, attacker: int, xs: seq<int>, d: nat): int
  {
    if d == 0 then victim else SwapValue(attacker, xs, d) - Gain(victim, attacker, xs, d - 1)
  }

  /** Gains alternate: each is the piece just taken minus the previous gain. */
  lemma GainStep(victim: int, attacker: int, xs: seq<int>, d: nat)
    requires d >= 2
    ensures Gain(victim, attacker, xs, d) + Gain(victim, attacker, xs, d - 1) == NextAttacker(xs, d - 2)
  {
  }

  /**
   * The last gain the backward fold reads: the number of recaptures before
   * the scan first answers 0, but never more than 29 (the forward loop
   * stops after writing `gain[30]`, which the fold skips).
   */
  function Depth(xs: seq<int>, d: nat): (top: nat)
    requires d <= 29
    ensures d <= top <= 29
    ensures top < 29 ==> NextAttacker(xs, top) == 0
    ensures forall j :: d <= j < top ==> NextAttacker(xs, j) != 0
    decreases 29 - d
  {
    if d == 29 || NextAttacker(xs, d) == 0 then d else Depth(xs, d + 1)
  }

  /**
   * One step of the backward fold, `gain[d-1] = -(gain[d] > -gain[d-1] ?
   * -gain[d-1] : gain[d])` as the main engine writes it (asWritten), or
   * the usual `-max(-gain[d-1], gain[d])`.
   */
  function Combine(g: int, h: int, asWritten: bool): (r: int)
    ensures asWritten ==> r == (if g >= -h then g else -h)
    ensures !asWritten ==> r == (if g <= -h then g else -h)
  {
    if asWritten then -(if h > -g then -g else h)
    else -(if h > -g then h else -g)
  }

  /** The folded value at d: the side to recapture there either stops or recaptures, whichever the fold picks. */
  function Resolve(victim: int, attacker: int, xs: seq<int>, d: nat, top: nat, asWritten: bool): int
    requires d <= top
    decreases top - d
  {
    if d == top then Gain(victim, attacker, xs, d)
    else Combine(Gain(victim, attacker, xs, d), Resolve(victim, attacker, xs, d + 1, top, asWritten), asWritten)
  }

  /** The exchange value: the fold of the gains down to `gain[0]`. */
  function ExchangeValue(victim: int, attacker: int, xs: seq<int>, asWritten: bool): int
  {
    Resolve(victim, attacker, xs, 0, Depth(xs, 0), asWritten)
  }

  /**
   * `see` over its `gain` array: the forward loop records a gain per
   * recapture, the backward loop folds them into `gain[0]`.
   */
  method See(victim: int, attacker: int, xs: seq<int>, asWritten: bool) returns (value: int)
    ensures value == ExchangeValue(victim, attacker, xs, asWritten)
  {
    var gain := new int[32];
    var top := RecordGains(gain, victim, attacker, xs);
    value := FoldGains(gain, victim, attacker, xs, top, asWritten);
  }

  /**
   * The forward loop of `see`: a gain per recapture until the scan answers
   * 0 or `gain[30]` is written.  What the fold goes on to read, gain[0] to
   * gain[top], holds the gains, and top is `Depth`.
   */
  method RecordGains(gain: array<int>, victim: int, attacker: int, xs: seq<int>) returns (top: nat)
    requires gain.Length == 32
    modifies gain
    ensures top == Depth(xs, 0)
    ensures forall j :: 0 <= j <= top ==> gain[j] == Gain(victim, attacker, xs, j)
  {
    var d := 0;
    gain[0] := victim;
    var current := attacker;
    while true
      invariant 0 <= d <= 29
      invariant forall j :: 0 <= j <= d ==> gain[j] == Gain(victim, attacker, xs, j)
      invariant current == SwapValue(attacker, xs, d + 1)
      invariant forall j :: 0 <= j < d ==> NextAttacker(xs, j) != 0
      decreases 29 - d
    {
      d := d + 1;
      var next := NextAttacker(xs, d - 1);
      if next == 0 {
        break;
      }
      gain[d] := current - gain[d - 1];
      current := next;
      if d >= 30 {
        break;
      }
    }
    // `while (--d > 0)` starts from the last gain the fold reads, gain[d - 1].
    top := d - 1;
    DepthIs(xs, 0, top);
  }

  /** The backward loop of `see`: gain[0] ends as the fold of gain[0] to gain[top]. */
  method FoldGains(gain: array<int>, victim: int, attacker: int, xs: seq<int>, top: nat, asWritten: bool) returns (value: int)
    requires gain.Length == 32 && top <= 29
    requires forall j :: 0 <= j <= top ==> gain[j] == Gain(victim, attacker, xs, j)
    modifies gain
    ensures value == Resolve(victim, attacker, xs, 0, top, asWritten)
  {
    var d := top;
    while d > 0
      invariant 0 <= d <= top
      invariant forall j :: 0 <= j < d ==> gain[j] == Gain(victim, attacker, xs, j)
      invariant gain[d] == Resolve(victim, attacker, xs, d, top, asWritten)
    {
      gain[d - 1] := Combine(gain[d - 1], gain[d], asWritten);
      d := d - 1;
    }
    value := gain[0];
  }

  /** Depth is the first index from d on where the scan answers 0, capped at 29. */
  lemma {:induction false} DepthIs(xs: seq<int>, d: nat, top: nat)
    requires d <= top <= 29
    requires forall j :: d <= j < top ==> NextAttacker(xs, j) != 0
    requires top < 29 ==> NextAttacker(xs, top) == 0
    ensures Depth(xs, d) == top
    decreases top - d
  {
    if d < top {
      DepthIs(xs, d + 1, top);
    }
  }

  // ---------------------------------------------------------------------
  // What the fold promises
  // ---------------------------------------------------------------------

  /** An undefended capture wins its victim, whichever fold is used. */
  lemma UndefendedWinsVictim(victim: int, attacker: int, xs: seq<int>, asWritten: bool)
    requires NextAttacker(xs, 0) == 0
    ensures ExchangeValue(victim, attacker, xs, asWritten) == victim
  {
  }

  /** With the usual fold, a value read past the last gain never exceeds the gain it folds into. */
  lemma ResolveBelowGain(victim: int, attacker: int, xs: seq<int>, d: nat, top: nat)
    requires d <= top
    ensures Resolve(victim, attacker, xs, d, top, false) <= Gain(victim, attacker, xs, d)
  {
  }

  /**
   * With the usual fold a capture wins at most its victim, and loses at
   * most its capturer: the opponent may stop the exchange at any point.
   */
  lemma ExchangeBounds(victim: int, attacker: int, xs: seq<int>)
    requires attacker >= 0
    ensures victim - attacker <= ExchangeValue(victim, attacker, xs, false) <= victim
  {
    var top := Depth(xs, 0);
    if top > 0 {
      ResolveBelowGain(victim, attacker, xs, 1, top);
    }
  }

  /** The main engine's fold keeps the larger of the two values at each step, so no capture is ever worth less than its victim. */
  lemma AsWrittenNeverBelowVictim(victim: int, attacker: int, xs: seq<int>)
    ensures ExchangeValue(victim, attacker, xs, true) >= victim
  {
  }

  // ---------------------------------------------------------------------
  // The attacker scans
  // ---------------------------------------------------------------------

  /**
   * What the main engine's loop sees: `get_smallest_attacker` reads the
   * board's own bitboards and occupancy rather than the local `occ` the
   * loop pops captured pieces from, so every call for a side answers the
   * same value.  The scan alternates between the opponent's answer and
   * the mover's, thirty calls long.
   */
  function StaleAttackers(them: int, us: int): (xs: seq<int>)
    ensures |xs| == 30
    ensures forall j :: 0 <= j < 30 ==> xs[j] == (if j % 2 == 0 then them else us)
  {
    seq(30, j => if j % 2 == 0 then them else us)
  }

  /**
   * What the scan should answer: each side's attackers cheapest first,
   * each used once, the opponent's first; the exchange stops when the side
   * to recapture has none left.
   */
  function Interleaved(them: seq<int>, us: seq<int>): (xs: seq<int>)
    ensures |xs| <= 2 * |them|
    decreases |them|
  {
    if them == [] then []
    else if us == [] then [them[0]]
    else [them[0], us[0]] + Interleaved(them[1..], us[1..])
  }

  /** Each attacker of the interleaving recaptures once: the opponent's at even calls, the mover's at odd ones. */
  lemma {:induction false} InterleavedAt(them: seq<int>, us: seq<int>, j: nat)
    ensures j % 2 == 0 && j / 2 < |them| && (j == 0 || (j - 1) / 2 < |us|) ==> NextAttacker(Interleaved(them, us), j) == them[j / 2]
    ensures j % 2 == 1 && j / 2 < |us| && j / 2 < |them| ==> NextAttacker(Interleaved(them, us), j) == us[j / 2]
    decreases j
  {
    if j >= 2 && them != [] && us != [] {
      InterleavedAt(them[1..], us[1..], j - 2);
      assert Interleaved(them, us) == [them[0], us[0]] + Interleaved(them[1..], us[1..]);
    }
  }

  /** The main engine's `see`: the victim found on the board (0 for a non-capture), the mover's value, the stale scan, its own fold. */
  function EngineSee(bb: seq<Bitboard>, side: int, m: Move, them: int, us: int): int
    requires |bb| == 12 && (side == White || side == Black)
  {
    var victim := if GetCapture(m) != 0 then VictimValue(bb, GetTarget(m) as Square, side) else 0;
    ExchangeValue(victim, PieceValue(SeeValues, GetPiece(m) as int), StaleAttackers(them, us), true)
  }

  /**
   * `see_ge`: a non-capture is worth 0; a capture of a piece worth at least
   * its capturer is worth the difference; only the rest go through `see`.
   */
  predicate EngineSeeGe(bb: seq<Bitboard>, side: int, m: Move, threshold: int, them: int, us: int)
    requires |bb| == 12 && (side == White || side == Black)
  {
    if GetCapture(m) == 0 then 0 >= threshold
    else
      var victim := VictimValue(bb, GetTarget(m) as Square, side);
      var attacker := PieceValue(SeeValues, GetPiece(m) as int);
      if victim >= attacker then victim - attacker >= threshold
      else EngineSee(bb, side, m, them, us) >= threshold
  }

  /**
   * As written, `see_ge(move, t)` holds for every capture and every t <= 0,
   * whatever defends the target: the pruning of losing captures in
   * quiescence and the SEE tiers of move ordering never see a loss.
   */
  lemma EngineSeeGeNeverFails(bb: seq<Bitboard>, side: int, m: Move, threshold: int, them: int, us: int)
    requires |bb| == 12 && (side == White || side == Black)
    requires GetCapture(m) != 0 && threshold <= 0
    ensures EngineSeeGe(bb, side, m, threshold, them, us)
  {
    var victim := VictimValue(bb, GetTarget(m) as Square, side);
    var attacker := PieceValue(SeeValues, GetPiece(m) as int);
    var xs := StaleAttackers(them, us);
    AsWrittenNeverBelowVictim(victim, attacker, xs);
    assert EngineSee(bb, side, m, them, us) == ExchangeValue(victim, attacker, xs, true);
  }

  /** The exchange value with each attacker used once and the usual fold. */
  function CorrectedSee(victim: int, attacker: int, them: seq<int>, us: seq<int>): (value: int)
    requires attacker >= 0
    ensures victim - attacker <= value <= victim
    ensures them == [] ==> value == victim
  {
    ExchangeBounds(victim, attacker, Interleaved(them, us));
    ExchangeValue(victim, attacker, Interleaved(them, us), false)
  }

  /** `see_ge` over the corrected exchange value. */
  predicate CorrectedSeeGe(isCapture: bool, victim: int, attacker: int, threshold: int, them: seq<int>, us: seq<int>)
    requires attacker >= 0
  {
    if !isCapture then 0 >= threshold
    else if victim >= attacker then victim - attacker >= threshold
    else CorrectedSee(victim, attacker, them, us) >= threshold
  }

  /**
   * A knight takes a pawn that a bishop defends, and no other piece
   * attacks the square.  The stale scan finds the knight again after the
   * bishop has taken it and the fold keeps the pawn: the main engine
   * values the capture at a pawn, and `see_ge(move, 0)` holds.  Played
   * out, the knight is lost for the pawn.
   */
  lemma KnightForPawnExample()
    ensures ExchangeValue(SeeValues[0], SeeValues[1], StaleAttackers(SeeValues[2], SeeValues[1]), true) >= SeeValues[0]
    ensures CorrectedSee(SeeValues[0], SeeValues[1], [SeeValues[2]], []) == SeeValues[0] - SeeValues[1] == -237
    ensures !CorrectedSeeGe(true, SeeValues[0], SeeValues[1], 0, [SeeValues[2]], [])
  {
    AsWrittenNeverBelowVictim(SeeValues[0], SeeValues[1], StaleAttackers(SeeValues[2], SeeValues[1]));
    var xs := Interleaved([SeeValues[2]], []);
    assert xs == [365];
    assert Depth(xs, 1) == 1;
    assert Depth(xs, 0) == 1;
  }

  // ---------------------------------------------------------------------
  // The modular engine's SEE
  // ---------------------------------------------------------------------

  /**
   * The piece the modular `see` takes as captured: an opponent's pawn for
   * an en-passant capture, else the first opponent board holding the
   * target; -1 when there is none.
   */
  function ModularCaptured(bb: seq<Bitboard>, side: int, m: Move): (captured: int)
    requires |bb| == 12 && (side == White || side == Black)
    ensures captured == -1 || (OpponentBase(side) <= captured < OpponentBase(side) + 6)
    ensures GetEnPassant(m) != 0 ==> captured == OpponentBase(side)
    ensures GetEnPassant(m) == 0 && captured != -1 ==> Bit(bb[captured], GetTarget(m) as Square)
  {
    var lo := OpponentBase(side);
    var q := FirstHolder(bb, GetTarget(m) as Square, lo, lo + 6);
    if GetEnPassant(m) != 0 then PieceOf(0, 1 - side) else if q < lo + 6 then q else -1
  }

  /**
   * The modular `see`: the captured piece (an en-passant capture takes a
   * pawn), nothing for a non-capture; an undefended victim is won, and a
   * defended one costs the capturer when the capturer is worth more.
   * Whether the opponent defends the square is the scan's answer.
   */
  function ModularSee(bb: seq<Bitboard>, side: int, m: Move, defended: bool): (value: int)
    requires |bb| == 12 && (side == White || side == Black)
  {
    var captured := ModularCaptured(bb, side, m);
    if captured == -1 then 0
    else
      var victim := PieceValue(ModularSeeValues, captured);
      var attacker := PieceValue(ModularSeeValues, GetPiece(m) as int);
      if !defended then victim
      else if attacker > victim then victim - attacker
      else victim
  }

  /**
   * The modular SEE agrees in sign with a one-recapture exchange: a
   * capture is losing exactly when the target is defended and the capturer
   * is worth more than its victim, and it never wins more than the victim.
   */
  lemma ModularSeeSign(bb: seq<Bitboard>, side: int, m: Move, defended: bool, defender: int)
    requires |bb| == 12 && (side == White || side == Black) && defender > 0
    ensures var captured := ModularCaptured(bb, side, m);
      var victim := if captured == -1 then 0 else PieceValue(ModularSeeValues, captured);
      var attacker := PieceValue(ModularSeeValues, GetPiece(m) as int);
      var value := ModularSee(bb, side, m, defended);
      (captured == -1 ==> value == 0) &&
      (captured != -1 ==>
        value <= victim &&
        (value < 0 <==> CorrectedSee(victim, attacker, if defended then [defender] else [], []) < 0))
  {
    var captured := ModularCaptured(bb, side, m);
    if captured != -1 {
      var victim := PieceValue(ModularSeeValues, captured);
      var attacker := PieceValue(ModularSeeValues, GetPiece(m) as int);
      ValuesPositive(captured);
      ValuesPositive(GetPiece(m) as int);
      if defended {
        var xs := Interleaved([defender], []);
        assert xs == [defender];
        assert Depth(xs, 1) == 1;
        assert Depth(xs, 0) == 1;
      }
    }
  }
}
