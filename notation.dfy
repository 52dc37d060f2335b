/**
 * Moves in the coordinate notation of UCI: `move_to_string` (and the
 * engine's `print_move`) write source, target and a promotion letter;
 * `parse_move` finds the generated move such a text names.
 */
module MoveNotation {
  import opened Bits
  import opened Squares
  import opened Moves
  import opened Position
  import opened Boards
  import opened MoveGen
  import opened Placement
  import opened Tokens
  import Zobrist

  /** The letter `move_to_string` writes for a promoted piece: either colour's queen, rook, bishop or knight, and 'q' for any other code. */
  function PromotionLetter(promoted: int): char
  {
    if promoted == 4 || promoted == 10 then 'q'
    else if promoted == 3 || promoted == 9 then 'r'
    else if promoted == 2 || promoted == 8 then 'b'
    else if promoted == 1 || promoted == 7 then 'n'
    else 'q'
  }

  /** Whether `parse_move` takes the fifth character c for the promoted piece. */
  predicate PromotionMatches(promoted: int, c: char)
  {
    ((promoted == 4 || promoted == 10) && c == 'q') || ((promoted == 3 || promoted == 9) && c == 'r') ||
    ((promoted == 2 || promoted == 8) && c == 'b') || ((promoted == 1 || promoted == 7) && c == 'n')
  }

  /** A promotion code one of the four pieces of either colour. */
  predicate RealPromotion(promoted: int)
  {
    promoted in {1, 2, 3, 4, 7, 8, 9, 10}
  }

  /** The letter written for a promotion is the one read for it, and only for it. */
  lemma PromotionLetterMatches(promoted: int, c: char)
    ensures RealPromotion(promoted) ==> PromotionMatches(promoted, PromotionLetter(promoted))
    ensures PromotionMatches(promoted, c) ==> c == PromotionLetter(promoted) && RealPromotion(promoted)
  {
  }

  /** `move_to_string`: the source's and target's names, then the promotion letter when there is one. */
  function MoveText(m: Move): (s: string)
    ensures |s| == (if GetPromoted(m) == 0 then 4 else 5) && Strlen(s) == |s|
  {
    var coords := CoordOf(GetSource(m) as int) + CoordOf(GetTarget(m) as int);
    if GetPromoted(m) == 0 then coords else coords + [PromotionLetter(GetPromoted(m) as int)]
  }

  /**
   * The square named by the characters at k and k + 1, computed as
   * `parse_move` does; -1 when the file or the rank is off the board.
   */
  function SquareAt(str: string, k: nat): (sq: int)
    ensures -1 <= sq < 64
  {
    var file := At(str, k) as int - 'a' as int;
    var rank := 8 - DigitValue(At(str, k + 1));
    if 0 <= file <= 7 && 0 <= rank <= 7 then rank * 8 + file else -1
  }

  /** Each square's name reads back as the square. */
  lemma SquareAtName(i: int, rest: string)
    requires 0 <= i < 64
    ensures SquareAt(CoordOf(i) + rest, 0) == i
  {
  }

  /**
   * Move m answers the text: same source and target, and either no
   * promotion, or a text of at least five characters whose fifth names
   * the promoted piece.
   */
  predicate Selects(str: string, source: int, target: int, m: Move)
  {
    GetSource(m) as int == source && GetTarget(m) as int == target &&
    (GetPromoted(m) == 0 || (Strlen(str) >= 5 && PromotionMatches(GetPromoted(m) as int, At(str, 4))))
  }

  /** The first move from k on that the text selects; 0 when none does. */
  function FirstMatch(ms: seq<Move>, str: string, source: int, target: int, k: nat): (r: Move)
    requires k <= |ms|
    decreases |ms| - k
  {
    if k == |ms| then 0
    else if Selects(str, source, target, ms[k]) then ms[k]
    else FirstMatch(ms, str, source, target, k + 1)
  }

  /** `FirstMatch` answers the first selected move, or 0 when no move from k on is selected. */
  lemma {:induction false} FirstMatchSpec(ms: seq<Move>, str: string, source: int, target: int, k: nat, j: nat)
    requires k <= |ms|
    ensures (forall i :: k <= i < |ms| ==> !Selects(str, source, target, ms[i])) ==> FirstMatch(ms, str, source, target, k) == 0
    ensures k <= j < |ms| && Selects(str, source, target, ms[j]) &&
            (forall i :: k <= i < j ==> !Selects(str, source, target, ms[i])) ==>
              FirstMatch(ms, str, source, target, k) == ms[j]
    decreases |ms| - k
  {
    if k < |ms| {
      FirstMatchSpec(ms, str, source, target, k + 1, j);
    }
  }

  /** A nonzero answer is one of the moves, and selected by the text. */
  lemma {:induction false} FirstMatchIn(ms: seq<Move>, str: string, source: int, target: int, k: nat)
    requires k <= |ms|
    ensures var r := FirstMatch(ms, str, source, target, k);
      r != 0 ==> exists i :: k <= i < |ms| && ms[i] == r && Selects(str, source, target, r)
    decreases |ms| - k
  {
    if k < |ms| && !Selects(str, source, target, ms[k]) {
      FirstMatchIn(ms, str, source, target, k + 1);
    }
  }

  /** What `parse_move` answers against the list ms: 0 for a text shorter than four or naming a square off the board. */
  function Parsed(ms: seq<Move>, str: string): Move
  {
    if Strlen(str) < 4 then 0
    else
      var source := SquareAt(str, 0);
      var target := SquareAt(str, 2);
      if source < 0 || target < 0 then 0 else FirstMatch(ms, str, source, target, 0)
  }

  /** Two moves between the same squares. */
  predicate SameSquares(m: Move, n: Move)
  {
    GetSource(m) == GetSource(n) && GetTarget(m) == GetTarget(n)
  }

  /** The text of a move names its squares, and carries the promotion letter as its fifth character. */
  lemma MoveTextReads(m: Move)
    ensures var str := MoveText(m);
      SquareAt(str, 0) == GetSource(m) as int && SquareAt(str, 2) == GetTarget(m) as int &&
      (GetPromoted(m) != 0 ==> At(str, 4) == PromotionLetter(GetPromoted(m) as int))
  {
    var str := MoveText(m);
    var s := GetSource(m) as int;
    var t := GetTarget(m) as int;
    SquareAtName(s, str[2..]);
    assert str == CoordOf(s) + str[2..];
    SquareAtName(t, str[4..]);
    assert str[2..] == CoordOf(t) + str[4..];
    assert SquareAt(str, 2) == SquareAt(str[2..], 0);
  }

  /** A move's text selects a move between the same squares only if it is that move's text too. */
  lemma SelectsSameText(m: Move, n: Move)
    requires (GetPromoted(m) == 0 || RealPromotion(GetPromoted(m) as int))
    requires Selects(MoveText(m), GetSource(m) as int, GetTarget(m) as int, n)
    ensures Selects(MoveText(m), GetSource(m) as int, GetTarget(m) as int, m)
    ensures GetPromoted(n) == 0 || MoveText(n) == MoveText(m)
  {
    MoveTextReads(m);
    PromotionLetterMatches(GetPromoted(m) as int, ' ');
    if GetPromoted(n) != 0 {
      PromotionLetterMatches(GetPromoted(n) as int, At(MoveText(m), 4));
    }
  }

  /** No move before the k-th that is not shadowed by it answers the k-th move's text. */
  lemma EarlierNotSelected(ms: seq<Move>, k: nat)
    requires k < |ms| && (GetPromoted(ms[k]) == 0 || RealPromotion(GetPromoted(ms[k]) as int))
    requires forall j :: 0 <= j < k && SameSquares(ms[j], ms[k]) ==>
               GetPromoted(ms[j]) != 0 && MoveText(ms[j]) != MoveText(ms[k])
    ensures forall j :: 0 <= j < k ==> !Selects(MoveText(ms[k]), GetSource(ms[k]) as int, GetTarget(ms[k]) as int, ms[j])
  {
    forall j | 0 <= j < k
      ensures !Selects(MoveText(ms[k]), GetSource(ms[k]) as int, GetTarget(ms[k]) as int, ms[j])
    {
      if Selects(MoveText(ms[k]), GetSource(ms[k]) as int, GetTarget(ms[k]) as int, ms[j]) {
        SelectsSameText(ms[k], ms[j]);
      }
    }
  }

  /**
   * `parse_move` inverts `move_to_string`: the text of the k-th move of a
   * list selects it, provided no earlier move between the same squares has
   * the same text or lacks a promotion.
   */
  lemma MoveTextRoundTrip(ms: seq<Move>, k: nat)
    requires k < |ms| && (GetPromoted(ms[k]) == 0 || RealPromotion(GetPromoted(ms[k]) as int))
    requires forall j :: 0 <= j < k && SameSquares(ms[j], ms[k]) ==>
               GetPromoted(ms[j]) != 0 && MoveText(ms[j]) != MoveText(ms[k])
    ensures Parsed(ms, MoveText(ms[k])) == ms[k]
  {
    var m := ms[k];
    var str := MoveText(m);
    MoveTextReads(m);
    SelectsSameText(m, m);
    EarlierNotSelected(ms, k);
    FirstMatchSpec(ms, str, GetSource(m) as int, GetTarget(m) as int, 0, k);
  }

  /** The loop of `parse_move` over the generated list. */
  method FindMove(ms: seq<Move>, str: string, source: int, target: int) returns (move: Move)
    ensures move == FirstMatch(ms, str, source, target, 0)
  {
    var count := 0;
    while count < |ms|
      invariant count <= |ms|
      invariant FirstMatch(ms, str, source, target, count) == FirstMatch(ms, str, source, target, 0)
    {
      move := ms[count];
      if GetSource(move) as int == source && GetTarget(move) as int == target {
        var promoted := GetPromoted(move) as int;
        if promoted == 0 {
          return;
        }
        if Strlen(str) >= 5 && PromotionMatches(promoted, At(str, 4)) {
          return;
        }
      }
      count := count + 1;
    }
    move := 0;
  }

  /**
   * `parse_move`: reject a short text, generate the moves, reject squares
   * off the board, and answer the first generated move the text selects.
   * `ms` is the list generated.  A nonzero answer is a move the rules
   * allow in the position.
   */
  method ParseMove(b: Board, str: string) returns (move: Move, ms: seq<Move>)
    requires b.Valid()
    ensures move == Parsed(ms, str)
    ensures Sound(ms, b.bitboards, b.occupancies, b.side, b.enPassant, b.castle)
    ensures Strlen(str) >= 4 ==> AllDone(ms, b.bitboards, b.occupancies, b.side, b.enPassant, 6)
    ensures move != 0 ==> Decodable(move) && MoveRule(b.bitboards, b.occupancies, b.side, b.enPassant, b.castle, Decode(move))
  {
    ms := [];
    if Strlen(str) < 4 {
      return 0, ms;
    }
    ms := GenerateMoves(b);
    var source := SquareAt(str, 0);
    var target := SquareAt(str, 2);
    if source < 0 || target < 0 {
      return 0, ms;
    }
    move := FindMove(ms, str, source, target);
    FirstMatchIn(ms, str, source, target, 0);
  }

  /** Double pushes and en-passant captures the rules allow have a square behind their target, as `make_move` needs. */
  lemma RuleInRange(bb: seq<Bitboard>, occ: seq<Bitboard>, side: int, ep: int, castle: Zobrist.Rights, f: Fields)
    requires |bb| == 12 && |occ| == 3 && (side == White || side == Black) && 0 <= ep <= NoSquare
    requires MoveRule(bb, occ, side, ep, castle, f)
    ensures InRange(f, side)
  {
    if !CastleRule(bb, occ, side, castle, f) {
      var kind := f.piece - 6 * side;
      if kind == 0 && (f.enPassant || f.double) {
        RankFile(f.source);
        RankFile(f.target);
      }
    }
  }
}
