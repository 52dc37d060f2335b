/**
 * Pseudo-legal move generation (`generate_moves`).
 *
 * The generator walks the side to move's pawns, then tries the two
 * castling moves, then walks its knights, bishops, rooks, queens and king,
 * emitting one move word per target.  Each part is a method returning the
 * words it emits; each is proved to emit only moves that obey the rules of
 * its kind (predicates PushRule .. CastleRule below), and the counting and
 * promotion structure is stated where `generate_moves` fixes it.
 *
 * The attack tables `generate_moves` reads (`pawn_attacks`, `knight_attacks`,
 * `king_attacks` and the magic slider lookups) are read here through the
 * mask and ray-walk methods that fill them, whose contracts give the
 * table contents.
 */
module MoveGen {
  import opened Bits
  import opened Squares
  import opened Moves
  import opened Leapers
  import opened Sliders
  import opened Position
  import opened Occupancy
  import opened Boards
  import Zobrist

  // ---------------------------------------------------------------------
  // Move words from fields
  // ---------------------------------------------------------------------

  /** A small number as a four-bit field. */
  function Nibble(p: int): (x: Field4)
    requires 0 <= p < 16
    ensures x as int == p
  {
    if p == 0 then 0 else Nibble(p - 1) + 1
  }

  /** A flag as the bit `encode_move` takes. */
  function FlagOf(b: bool): (x: Flag)
    ensures x == 1 <==> b
  {
    if b then 1 else 0
  }

  /** `encode_move` applied to decoded fields. */
  function Word(f: Fields): (m: Move)
    requires 0 <= f.promoted < 12
    ensures GetPiece(m) < 12 && GetPromoted(m) < 12 && Decode(m) == f
  {
    var m := EncodeMove(f.source as bv32, f.target as bv32, Nibble(f.piece), Nibble(f.promoted),
                        FlagOf(f.capture), FlagOf(f.double), FlagOf(f.enPassant), FlagOf(f.castling));
    EncodeDecode(f.source as bv32, f.target as bv32, Nibble(f.piece), Nibble(f.promoted),
                 FlagOf(f.capture), FlagOf(f.double), FlagOf(f.enPassant), FlagOf(f.castling));
    m
  }

  /** A word whose piece fields name boards, so that it decodes. */
  predicate Decodable(m: Move)
  {
    GetPiece(m) < 12 && GetPromoted(m) < 12
  }

  // ---------------------------------------------------------------------
  // Emitting one move per target
  // ---------------------------------------------------------------------

  /**
   * A plain (non-pawn) move of `piece` from `source` to one of `targets`,
   * flagged as a capture exactly when the target is in `opponents`.
   */
  predicate TargetMove(m: Move, piece: Piece, source: Square, targets: Bitboard, opponents: Bitboard)
  {
    Decodable(m) &&
    var f := Decode(m);
    f.source == source && f.piece == piece && f.promoted == 0 && Bit(targets, f.target) &&
    (f.capture <==> Bit(opponents, f.target)) && !f.double && !f.enPassant && !f.castling
  }

  /** Some move in ms goes to t and promotes to p (0: no promotion). */
  predicate CoveredWith(ms: seq<Move>, t: Square, p: int)
  {
    exists i :: 0 <= i < |ms| && Decodable(ms[i]) && Decode(ms[i]).target == t && Decode(ms[i]).promoted == p
  }

  /** The emission loop's invariant: rest is what is left of targets, and the rest is done. */
  ghost predicate EmitInv(ms: seq<Move>, piece: Piece, source: Square, targets: Bitboard, opponents: Bitboard,
                          rest: Bitboard)
  {
    (forall t: Square :: Bit(rest, t) ==> Bit(targets, t)) &&
    |ms| + PopCount(rest) == PopCount(targets) &&
    (forall i :: 0 <= i < |ms| ==> TargetMove(ms[i], piece, source, targets, opponents)) &&
    (forall t: Square :: Bit(targets, t) && !Bit(rest, t) ==> CoveredWith(ms, t, 0))
  }

  /** Appending keeps the earlier targets covered and covers the new one. */
  lemma CoveredStep(ms: seq<Move>, m: Move, targets: Bitboard, rest: Bitboard, rest': Bitboard, target: Square)
    requires Decodable(m) && Decode(m).target == target && Decode(m).promoted == 0
    requires forall t: Square :: Bit(rest', t) <==> t != target && Bit(rest, t)
    requires forall t: Square :: Bit(targets, t) && !Bit(rest, t) ==> CoveredWith(ms, t, 0)
    ensures forall t: Square :: Bit(targets, t) && !Bit(rest', t) ==> CoveredWith(ms + [m], t, 0)
  {
    var ms' := ms + [m];
    assert ms'[|ms|] == m;
    forall t: Square | Bit(targets, t) && !Bit(rest', t)
      ensures CoveredWith(ms', t, 0)
    {
      if t != target {
        var i :| 0 <= i < |ms| && Decodable(ms[i]) && Decode(ms[i]).target == t && Decode(ms[i]).promoted == 0;
        assert ms'[i] == ms[i];
      }
    }
  }

  /** `encode_move` for one target, the capture flag read from the opponent's occupancy. */
  method TargetWord(piece: Piece, source: Square, target: Square, targets: Bitboard, opponents: Bitboard)
    returns (m: Move)
    requires Bit(targets, target)
    ensures TargetMove(m, piece, source, targets, opponents) && Decode(m).target == target
  {
    var capture := GetBit(opponents, target) != 0;
    m := Word(Fields(source, target, piece, 0, capture, false, false, false));
  }

  /** The invariant after one emission. */
  lemma EmitInvStep(ms: seq<Move>, m: Move, piece: Piece, source: Square, targets: Bitboard, opponents: Bitboard,
                    rest: Bitboard, rest': Bitboard, target: Square)
    requires EmitInv(ms, piece, source, targets, opponents, rest)
    requires TargetMove(m, piece, source, targets, opponents) && Decode(m).target == target
    requires forall t: Square :: Bit(rest', t) <==> t != target && Bit(rest, t)
    requires PopCount(rest') == PopCount(rest) - 1
    ensures EmitInv(ms + [m], piece, source, targets, opponents, rest')
  {
    CoveredStep(ms, m, targets, rest, rest', target);
    var ms' := ms + [m];
    assert forall i :: 0 <= i < |ms| ==> ms'[i] == ms[i];
  }

  /** One turn of the loop: emit the lowest target, then pop it. */
  method EmitStep(ms: seq<Move>, piece: Piece, source: Square, targets: Bitboard, opponents: Bitboard,
                  rest: Bitboard) returns (ms': seq<Move>, rest': Bitboard)
    requires rest != 0 && EmitInv(ms, piece, source, targets, opponents, rest)
    ensures EmitInv(ms', piece, source, targets, opponents, rest') && PopCount(rest') < PopCount(rest)
  {
    var target := LowSq(rest);
    var m := TargetWord(piece, source, target, targets, opponents);
    ms' := ms + [m];
    rest' := PopBitToggle(rest, target);
    PopBitVariantsAgree(rest, target);
    PopCountClear(rest, target);
    EmitInvStep(ms, m, piece, source, targets, opponents, rest, rest', target);
  }

  /**
   * The inner loop of the piece moves: one move per square of `targets`,
   * lowest square first, the capture flag read from the opponent's
   * occupancy.
   */
  method EmitTargets(piece: Piece, source: Square, targets: Bitboard, opponents: Bitboard) returns (ms: seq<Move>)
    ensures |ms| == PopCount(targets)
    ensures forall i :: 0 <= i < |ms| ==> TargetMove(ms[i], piece, source, targets, opponents)
    ensures forall t: Square :: Bit(targets, t) ==> CoveredWith(ms, t, 0)
  {
    ms := [];
    var rest := targets;
    while rest != 0
      invariant EmitInv(ms, piece, source, targets, opponents, rest)
      decreases PopCount(rest)
    {
      ms, rest := EmitStep(ms, piece, source, targets, opponents, rest);
    }
    PopCountZero(rest);
  }

  // ---------------------------------------------------------------------
  // Knight, bishop, rook, queen and king moves
  // ---------------------------------------------------------------------

  /** The squares a piece of kind 1 .. 5 (knight .. king) on s attacks through block. */
  predicate Reaches(kind: int, s: Square, block: Bitboard, t: Square)
  {
    if kind == 1 then KnightJump(s, t)
    else if kind == 2 then BishopAttack(s, block, t)
    else if kind == 3 then RookAttack(s, block, t)
    else if kind == 4 then BishopAttack(s, block, t) || RookAttack(s, block, t)
    else KingStep(s, t)
  }

  /**
   * The rule for the piece moves: the piece goes from its square to a
   * square it attacks that the mover does not occupy, and the move is a
   * capture exactly when the opponent occupies the target.
   */
  predicate PieceRule(occ: seq<Bitboard>, side: int, kind: int, source: Square, f: Fields)
    requires |occ| == 3 && (side == White || side == Black) && 1 <= kind < 6
  {
    f.source == source && f.piece == PieceOf(kind, side) && Reaches(kind, source, occ[Both], f.target) &&
    !Bit(occ[side], f.target) && (f.capture <==> Bit(occ[1 - side], f.target)) &&
    f.promoted == 0 && !f.double && !f.enPassant && !f.castling
  }

  /** The attack set of a piece, as the generator looks it up. */
  method AttacksOf(kind: int, s: Square, block: Bitboard) returns (attacks: Bitboard)
    requires 1 <= kind < 6
    ensures forall t: Square :: Bit(attacks, t) <==> Reaches(kind, s, block, t)
  {
    if kind == 1 {
      attacks := MaskKnightAttacks(s);
    } else if kind == 2 {
      attacks := GetBishopAttacks(s, block);
    } else if kind == 3 {
      attacks := GetRookAttacks(s, block);
    } else if kind == 4 {
      attacks := GetQueenAttacks(s, block);
    } else {
      attacks := MaskKingAttacks(s);
    }
  }

  lemma WithoutAll(attacks: Bitboard, own: Bitboard, r: Bitboard)
    requires r == attacks & !own
    ensures forall t: Square :: Bit(r, t) <==> Bit(attacks, t) && !Bit(own, t)
  {
    forall t: Square
      ensures Bit(r, t) <==> Bit(attacks, t) && !Bit(own, t)
    {
      AndNotBit(attacks, own, t);
    }
  }

  /** A word with the mover's own squares masked out. */
  function Without(attacks: Bitboard, own: Bitboard): (r: Bitboard)
    ensures forall t: Square :: Bit(r, t) <==> Bit(attacks, t) && !Bit(own, t)
  {
    WithoutAll(attacks, own, attacks & !own);
    attacks & !own
  }

  /**
   * The moves of one knight, bishop, rook, queen or king: every attacked
   * square not held by the mover, and only those, each once.
   */
  method PieceMoves(occ: seq<Bitboard>, side: int, kind: int, source: Square) returns (ms: seq<Move>)
    requires |occ| == 3 && (side == White || side == Black) && 1 <= kind < 6
    ensures forall i :: 0 <= i < |ms| ==> Decodable(ms[i]) && PieceRule(occ, side, kind, source, Decode(ms[i]))
    ensures forall t: Square :: Reaches(kind, source, occ[Both], t) && !Bit(occ[side], t) ==> CoveredWith(ms, t, 0)
  {
    var attacks := AttacksOf(kind, source, occ[Both]);
    var targets := Without(attacks, occ[side]);
    ms := EmitTargets(PieceOf(kind, side), source, targets, occ[1 - side]);
    PieceRuleOfTargets(ms, occ, side, kind, source, targets);
  }

  /** Target moves over the attacked squares the mover does not hold obey the piece rule. */
  lemma PieceRuleOfTargets(ms: seq<Move>, occ: seq<Bitboard>, side: int, kind: int, source: Square, targets: Bitboard)
    requires |occ| == 3 && (side == White || side == Black) && 1 <= kind < 6
    requires forall t: Square :: Bit(targets, t) <==> Reaches(kind, source, occ[Both], t) && !Bit(occ[side], t)
    requires forall i :: 0 <= i < |ms| ==> TargetMove(ms[i], PieceOf(kind, side), source, targets, occ[1 - side])
    ensures forall i :: 0 <= i < |ms| ==> Decodable(ms[i]) && PieceRule(occ, side, kind, source, Decode(ms[i]))
  {
  }

  // ---------------------------------------------------------------------
  // Pawn moves
  // ---------------------------------------------------------------------

  /** The pawn has a square in front of it (rank index down for white, up for black). */
  predicate HasAhead(side: int, s: Square)
  {
    if side == White then s >= 8 else s < 56
  }

  /** The square in front of a pawn. */
  function Ahead(side: int, s: Square): (t: Square)
    requires HasAhead(side, s)
    ensures t as int == (if side == White then s as int - 8 else s as int + 8)
  {
    if side == White then s - 8 else s + 8
  }

  /** A pawn one step from promotion: on the seventh rank for white (a7 .. h7), the second for black. */
  predicate PromotionRank(side: int, s: Square)
  {
    if side == White then 8 <= s < 16 else 48 <= s < 56
  }

  /** A pawn on its starting rank: a2 .. h2 for white, a7 .. h7 for black. */
  predicate StartRank(side: int, s: Square)
  {
    if side == White then 48 <= s < 56 else 8 <= s < 16
  }

  /** A piece a pawn of the side may promote to: its queen, rook, bishop or knight. */
  predicate PromotionPiece(side: int, p: int)
    requires side == White || side == Black
  {
    p == PieceOf(4, side) || p == PieceOf(3, side) || p == PieceOf(2, side) || p == PieceOf(1, side)
  }

  /** A pawn move promotes exactly when it starts one step from promotion. */
  predicate PromotionRule(side: int, source: Square, promoted: int)
    requires side == White || side == Black
  {
    if PromotionRank(side, source) then PromotionPiece(side, promoted) else promoted == 0
  }

  /**
   * The rule for pawn pushes: one step to an empty square, promoting from
   * the last rank but one; or two steps from the starting rank over two
   * empty squares, flagged as a double push.
   */
  predicate PushRule(occ: seq<Bitboard>, side: int, source: Square, f: Fields)
    requires |occ| == 3 && (side == White || side == Black)
  {
    f.source == source && f.piece == PieceOf(0, side) && !f.capture && !f.enPassant && !f.castling &&
    HasAhead(side, source) && !Bit(occ[Both], Ahead(side, source)) &&
    ((!f.double && f.target == Ahead(side, source) && PromotionRule(side, source, f.promoted)) ||
     (f.double && StartRank(side, source) && f.promoted == 0 &&
      f.target == Ahead(side, Ahead(side, source)) && !Bit(occ[Both], f.target)))
  }

  /** The rule for pawn captures: diagonally forward onto an opponent's piece. */
  predicate CaptureRule(occ: seq<Bitboard>, side: int, source: Square, f: Fields)
    requires |occ| == 3 && (side == White || side == Black)
  {
    f.source == source && f.piece == PieceOf(0, side) && f.capture && !f.enPassant && !f.castling && !f.double &&
    PawnCapture(side, source, f.target) && Bit(occ[1 - side], f.target) && PromotionRule(side, source, f.promoted)
  }

  /** The rule for en passant: diagonally forward onto the en-passant square. */
  predicate EnPassantRule(side: int, ep: int, source: Square, f: Fields)
    requires side == White || side == Black
  {
    f.source == source && f.piece == PieceOf(0, side) && f.capture && f.enPassant && !f.castling && !f.double &&
    f.promoted == 0 && f.target as int == ep && PawnCapture(side, source, f.target)
  }

  /** ms holds the move to t with each of the four promotions. */
  predicate AllPromotions(ms: seq<Move>, side: int, t: Square)
    requires side == White || side == Black
  {
    CoveredWith(ms, t, PieceOf(4, side)) && CoveredWith(ms, t, PieceOf(3, side)) &&
    CoveredWith(ms, t, PieceOf(2, side)) && CoveredWith(ms, t, PieceOf(1, side))
  }

  /** A promoting pawn move to one of targets. */
  predicate PromotionMove(m: Move, side: int, source: Square, targets: Bitboard, capture: bool)
    requires side == White || side == Black
  {
    Decodable(m) &&
    var f := Decode(m);
    f.source == source && f.piece == PieceOf(0, side) && Bit(targets, f.target) && f.capture == capture &&
    PromotionPiece(side, f.promoted) && !f.double && !f.enPassant && !f.castling
  }

  /** Word i of a promotion group: the pawn move to target promoting to the (4 - i)-th kind, queen first. */
  predicate PromotionAt(ms: seq<Move>, i: int, side: int, source: Square, target: Square, capture: bool)
    requires 0 <= i < 4 && |ms| == 4 && (side == White || side == Black)
  {
    Decodable(ms[i]) &&
    Decode(ms[i]) == Fields(source, target, PieceOf(0, side), PieceOf(4 - i, side), capture, false, false, false)
  }

  /** A promoting pawn move from source to target. */
  predicate PromotionTo(m: Move, side: int, source: Square, target: Square, capture: bool)
    requires side == White || side == Black
  {
    Decodable(m) &&
    var f := Decode(m);
    f.source == source && f.piece == PieceOf(0, side) && f.target == target && f.capture == capture &&
    PromotionPiece(side, f.promoted) && !f.double && !f.enPassant && !f.castling
  }

  /** One promotion word: the pawn move to target promoting to the piece of the given kind. */
  method PromotionWord(side: int, source: Square, target: Square, capture: bool, kind: int) returns (m: Move)
    requires (side == White || side == Black) && 1 <= kind <= 4
    ensures Decodable(m) &&
      Decode(m) == Fields(source, target, PieceOf(0, side), PieceOf(kind, side), capture, false, false, false)
  {
    m := Word(Fields(source, target, PieceOf(0, side), PieceOf(kind, side), capture, false, false, false));
  }

  /**
   * The four promotions of one pawn move, in the generator's order: queen,
   * rook, bishop, knight.
   */
  method PromotionWords(side: int, source: Square, target: Square, capture: bool) returns (ms: seq<Move>)
    requires side == White || side == Black
    ensures |ms| == 4
    ensures forall i :: 0 <= i < 4 ==> PromotionAt(ms, i, side, source, target, capture)
  {
    var queen := PromotionWord(side, source, target, capture, 4);
    var rook := PromotionWord(side, source, target, capture, 3);
    var bishop := PromotionWord(side, source, target, capture, 2);
    var knight := PromotionWord(side, source, target, capture, 1);
    ms := [queen, rook, bishop, knight];
    forall i | 0 <= i < 4
      ensures PromotionAt(ms, i, side, source, target, capture)
    {
      if i == 0 {
        assert ms[i] == queen;
      } else if i == 1 {
        assert ms[i] == rook;
      } else if i == 2 {
        assert ms[i] == bishop;
      } else {
        assert ms[i] == knight;
      }
    }
  }

  /** Word i of a promotion group is a promoting move to its target. */
  lemma PromotionAtTo(ms: seq<Move>, i: int, side: int, source: Square, target: Square, capture: bool)
    requires 0 <= i < 4 && |ms| == 4 && (side == White || side == Black)
    requires PromotionAt(ms, i, side, source, target, capture)
    ensures PromotionTo(ms[i], side, source, target, capture)
  {
  }

  /** Word i of a promotion group covers its promotion. */
  lemma PromotionAtCovers(ms: seq<Move>, i: int, side: int, source: Square, target: Square, capture: bool)
    requires 0 <= i < 4 && |ms| == 4 && (side == White || side == Black)
    requires PromotionAt(ms, i, side, source, target, capture)
    ensures CoveredWith(ms, target, PieceOf(4 - i, side))
  {
  }

  /** The four promotion words cover every promotion to their target. */
  lemma PromotionWordsCover(ms: seq<Move>, side: int, source: Square, target: Square, capture: bool)
    requires side == White || side == Black
    requires |ms| == 4
    requires forall i :: 0 <= i < 4 ==> PromotionAt(ms, i, side, source, target, capture)
    ensures AllPromotions(ms, side, target)
    ensures forall i :: 0 <= i < 4 ==> PromotionTo(ms[i], side, source, target, capture)
  {
    forall i | 0 <= i < 4
      ensures PromotionTo(ms[i], side, source, target, capture)
    {
      PromotionAtTo(ms, i, side, source, target, capture);
    }
    PromotionAtCovers(ms, 0, side, source, target, capture);
    PromotionAtCovers(ms, 1, side, source, target, capture);
    PromotionAtCovers(ms, 2, side, source, target, capture);
    PromotionAtCovers(ms, 3, side, source, target, capture);
  }

  /** A pawn push word, single or double. */
  method PushWord(side: int, source: Square, target: Square, double: bool) returns (m: Move)
    requires side == White || side == Black
    ensures Decodable(m) && Decode(m) == Fields(source, target, PieceOf(0, side), 0, false, double, false, false)
  {
    m := Word(Fields(source, target, PieceOf(0, side), 0, false, double, false, false));
  }

  /**
   * The pushes of one pawn: none when the square in front is off the board
   * or occupied; the four promotions from the last rank but one; otherwise
   * the single push, and the double push from the starting rank when the
   * second square is empty too.
   */
  method PawnPushes(occ: seq<Bitboard>, side: int, source: Square) returns (ms: seq<Move>)
    requires |occ| == 3 && (side == White || side == Black)
    ensures forall i :: 0 <= i < |ms| ==> Decodable(ms[i]) && PushRule(occ, side, source, Decode(ms[i]))
    ensures |ms| > 0 <==> HasAhead(side, source) && !Bit(occ[Both], Ahead(side, source))
    ensures |ms| > 0 && PromotionRank(side, source) ==> |ms| == 4 && AllPromotions(ms, side, Ahead(side, source))
    ensures |ms| > 0 && !PromotionRank(side, source) ==> CoveredWith(ms, Ahead(side, source), 0) && |ms| <= 2
    ensures |ms| > 0 && !PromotionRank(side, source) ==>
      (|ms| == 2 <==> StartRank(side, source) && !Bit(occ[Both], Ahead(side, Ahead(side, source))))
    ensures |ms| > 0 && StartRank(side, source) && !Bit(occ[Both], Ahead(side, Ahead(side, source))) ==>
      CoveredWith(ms, Ahead(side, Ahead(side, source)), 0)
  {
    ms := [];
    if HasAhead(side, source) {
      var target := Ahead(side, source);
      if GetBit(occ[Both], target) == 0 {
        if PromotionRank(side, source) {
          ms := PromotionWords(side, source, target, false);
          PromotionWordsCover(ms, side, source, target, false);
        } else {
          var single := PushWord(side, source, target, false);
          ms := [single];
          assert Decode(ms[0]).target == target;
          if StartRank(side, source) {
            var two := Ahead(side, target);
            if GetBit(occ[Both], two) == 0 {
              var double := PushWord(side, source, two, true);
              ms := ms + [double];
              assert Decode(ms[0]).target == target;
              assert Decode(ms[1]).target == two;
            }
          }
        }
      }
    }
  }

  /** Coverage survives appending, and the appended part's coverage carries over. */
  lemma CoveredWithAppend(ms: seq<Move>, g: seq<Move>, t: Square, p: int)
    ensures CoveredWith(ms, t, p) || CoveredWith(g, t, p) ==> CoveredWith(ms + g, t, p)
  {
    var all := ms + g;
    if CoveredWith(ms, t, p) {
      var i :| 0 <= i < |ms| && Decodable(ms[i]) && Decode(ms[i]).target == t && Decode(ms[i]).promoted == p;
      assert all[i] == ms[i];
    } else if CoveredWith(g, t, p) {
      var i :| 0 <= i < |g| && Decodable(g[i]) && Decode(g[i]).target == t && Decode(g[i]).promoted == p;
      assert all[|ms| + i] == g[i];
    }
  }

  lemma AllPromotionsAppend(ms: seq<Move>, g: seq<Move>, side: int, t: Square)
    requires side == White || side == Black
    requires AllPromotions(ms, side, t) || AllPromotions(g, side, t)
    ensures AllPromotions(ms + g, side, t)
  {
    CoveredWithAppend(ms, g, t, PieceOf(4, side));
    CoveredWithAppend(ms, g, t, PieceOf(3, side));
    CoveredWithAppend(ms, g, t, PieceOf(2, side));
    CoveredWithAppend(ms, g, t, PieceOf(1, side));
  }

  /** The promotion-capture loop's invariant. */
  ghost predicate PromoInv(ms: seq<Move>, side: int, source: Square, targets: Bitboard, rest: Bitboard)
    requires side == White || side == Black
  {
    (forall t: Square :: Bit(rest, t) ==> Bit(targets, t)) &&
    |ms| + 4 * PopCount(rest) == 4 * PopCount(targets) &&
    (forall i :: 0 <= i < |ms| ==> PromotionMove(ms[i], side, source, targets, true)) &&
    (forall t: Square :: Bit(targets, t) && !Bit(rest, t) ==> AllPromotions(ms, side, t))
  }

  lemma PromoMovesStep(ms: seq<Move>, g: seq<Move>, side: int, source: Square, targets: Bitboard, target: Square)
    requires side == White || side == Black
    requires Bit(targets, target) && |g| == 4
    requires forall i :: 0 <= i < |ms| ==> PromotionMove(ms[i], side, source, targets, true)
    requires forall i :: 0 <= i < 4 ==> PromotionTo(g[i], side, source, target, true)
    ensures forall i :: 0 <= i < |ms + g| ==> PromotionMove((ms + g)[i], side, source, targets, true)
  {
    var all := ms + g;
    forall i | 0 <= i < |all|
      ensures PromotionMove(all[i], side, source, targets, true)
    {
      if i >= |ms| {
        assert all[i] == g[i - |ms|];
        assert PromotionTo(g[i - |ms|], side, source, target, true);
      } else {
        assert all[i] == ms[i];
      }
    }
  }

  lemma PromoCoverStep(ms: seq<Move>, g: seq<Move>, side: int, targets: Bitboard, rest: Bitboard, rest': Bitboard,
                       target: Square)
    requires side == White || side == Black
    requires AllPromotions(g, side, target)
    requires forall t: Square :: Bit(rest', t) <==> t != target && Bit(rest, t)
    requires forall t: Square :: Bit(targets, t) && !Bit(rest, t) ==> AllPromotions(ms, side, t)
    ensures forall t: Square :: Bit(targets, t) && !Bit(rest', t) ==> AllPromotions(ms + g, side, t)
  {
    forall t: Square | Bit(targets, t) && !Bit(rest', t)
      ensures AllPromotions(ms + g, side, t)
    {
      AllPromotionsAppend(ms, g, side, t);
    }
  }

  /** One turn of the promotion-capture loop: the four promotions to the lowest target. */
  method PromoStep(ms: seq<Move>, side: int, source: Square, targets: Bitboard, rest: Bitboard)
    returns (ms': seq<Move>, rest': Bitboard)
    requires side == White || side == Black
    requires rest != 0 && PromoInv(ms, side, source, targets, rest)
    ensures PromoInv(ms', side, source, targets, rest') && PopCount(rest') < PopCount(rest)
  {
    var target := LowSq(rest);
    var g := PromotionWords(side, source, target, true);
    PromotionWordsCover(g, side, source, target, true);
    ms' := ms + g;
    rest' := PopBitToggle(rest, target);
    PopBitVariantsAgree(rest, target);
    PopCountClear(rest, target);
    PromoMovesStep(ms, g, side, source, targets, target);
    PromoCoverStep(ms, g, side, targets, rest, rest', target);
  }

  /** The promotion captures of a pawn: the four promotions to every target, lowest target first. */
  method PromotionCaptures(side: int, source: Square, targets: Bitboard) returns (ms: seq<Move>)
    requires side == White || side == Black
    ensures |ms| == 4 * PopCount(targets)
    ensures forall i :: 0 <= i < |ms| ==> PromotionMove(ms[i], side, source, targets, true)
    ensures forall t: Square :: Bit(targets, t) ==> AllPromotions(ms, side, t)
  {
    ms := [];
    var rest := targets;
    while rest != 0
      invariant PromoInv(ms, side, source, targets, rest)
      decreases PopCount(rest)
    {
      ms, rest := PromoStep(ms, side, source, targets, rest);
    }
    PopCountZero(rest);
  }

  /** The attacked squares that the opponent occupies. */
  function Within(attacks: Bitboard, opponents: Bitboard): (r: Bitboard)
    ensures forall t: Square :: Bit(r, t) <==> Bit(attacks, t) && Bit(opponents, t)
  {
    WithinAll(attacks, opponents, attacks & opponents);
    attacks & opponents
  }

  lemma WithinAll(attacks: Bitboard, opponents: Bitboard, r: Bitboard)
    requires r == attacks & opponents
    ensures forall t: Square :: Bit(r, t) <==> Bit(attacks, t) && Bit(opponents, t)
  {
    forall t: Square
      ensures Bit(r, t) <==> Bit(attacks, t) && Bit(opponents, t)
    {
      AndBit(attacks, opponents, t);
    }
  }

  /**
   * The captures of one pawn: every diagonal square ahead that an opponent
   * occupies, with the four promotions from the last rank but one.
   */
  method PawnCaptures(occ: seq<Bitboard>, side: int, source: Square) returns (ms: seq<Move>)
    requires |occ| == 3 && (side == White || side == Black)
    ensures forall i :: 0 <= i < |ms| ==> Decodable(ms[i]) && CaptureRule(occ, side, source, Decode(ms[i]))
    ensures forall t: Square :: PawnCapture(side, source, t) && Bit(occ[1 - side], t) ==>
      if PromotionRank(side, source) then AllPromotions(ms, side, t) else CoveredWith(ms, t, 0)
  {
    var attacks := MaskPawnAttacks(side, source);
    var targets := Within(attacks, occ[1 - side]);
    if PromotionRank(side, source) {
      ms := PromotionCaptures(side, source, targets);
    } else {
      ms := EmitTargets(PieceOf(0, side), source, targets, occ[1 - side]);
    }
    CaptureRuleOf(ms, occ, side, source, targets);
  }

  lemma CaptureRuleOf(ms: seq<Move>, occ: seq<Bitboard>, side: int, source: Square, targets: Bitboard)
    requires |occ| == 3 && (side == White || side == Black)
    requires forall t: Square :: Bit(targets, t) <==> PawnCapture(side, source, t) && Bit(occ[1 - side], t)
    requires PromotionRank(side, source) ==> forall i :: 0 <= i < |ms| ==> PromotionMove(ms[i], side, source, targets, true)
    requires !PromotionRank(side, source) ==>
      forall i :: 0 <= i < |ms| ==> TargetMove(ms[i], PieceOf(0, side), source, targets, occ[1 - side])
    ensures forall i :: 0 <= i < |ms| ==> Decodable(ms[i]) && CaptureRule(occ, side, source, Decode(ms[i]))
  {
  }

  /** The square numbered i. */
  function SquareOf(i: int): (s: Square)
    requires 0 <= i < 64
    ensures s as int == i
  {
    Zobrist.IndexRoundTrip(i);
    i as bv8
  }

  /** The en-passant capture word. */
  method EnPassantWord(side: int, source: Square, target: Square) returns (m: Move)
    requires side == White || side == Black
    ensures Decodable(m) && Decode(m) == Fields(source, target, PieceOf(0, side), 0, true, false, true, false)
  {
    m := Word(Fields(source, target, PieceOf(0, side), 0, true, false, true, false));
  }

  /**
   * The en-passant capture of one pawn: present exactly when there is an
   * en-passant square and the pawn attacks it.  `generate_moves` finds the
   * target as the lowest square of `pawn_attacks & (1 << en_passant)`,
   * which is the en-passant square itself.
   */
  method EnPassantCapture(side: int, ep: int, source: Square) returns (ms: seq<Move>)
    requires (side == White || side == Black) && 0 <= ep <= NoSquare
    ensures |ms| <= 1
    ensures |ms| == 1 <==> ep != NoSquare && PawnCapture(side, source, SquareOf(ep))
    ensures forall i :: 0 <= i < |ms| ==> Decodable(ms[i]) && EnPassantRule(side, ep, source, Decode(ms[i]))
  {
    ms := [];
    if ep != NoSquare {
      var target := SquareOf(ep);
      var attacks := MaskPawnAttacks(side, source);
      if GetBit(attacks, target) != 0 {
        var m := EnPassantWord(side, source, target);
        ms := [m];
      }
    }
  }

  // ---------------------------------------------------------------------
  // Castling
  // ---------------------------------------------------------------------

  /**
   * One castling move: the right it needs, the king's start and landing
   * squares, the squares that must be empty, and the squares that must not
   * be attacked (start, transit and landing).
   */
  datatype Lane = Lane(right: Zobrist.Rights, source: Square, target: Square, empty: seq<Square>, safe: seq<Square>)

  function CastleLane(side: int, kingside: bool): (l: Lane)
    ensures 2 <= |l.empty| <= 3 && |l.safe| == 3
  {
    if side == White then
      if kingside then Lane(WhiteKingside, E1, G1, [F1, G1], [E1, F1, G1])
      else Lane(WhiteQueenside, E1, C1, [D1, C1, B1], [E1, D1, C1])
    else
      if kingside then Lane(BlackKingside, E8, G8, [F8, G8], [E8, F8, G8])
      else Lane(BlackQueenside, E8, C8, [D8, C8, B8], [E8, D8, C8])
  }

  /** The castling move's fields. */
  function CastleFields(side: int, kingside: bool): Fields
    requires side == White || side == Black
  {
    var l := CastleLane(side, kingside);
    Fields(l.source, l.target, PieceOf(5, side), 0, false, false, false, true)
  }

  /** Castling this way is allowed: the right is held, the path is empty and not attacked. */
  ghost predicate CastleAllowed(bb: seq<Bitboard>, occ: seq<Bitboard>, side: int, castle: Zobrist.Rights, kingside: bool)
    requires |bb| == 12 && |occ| == 3 && (side == White || side == Black)
  {
    var l := CastleLane(side, kingside);
    castle & l.right != 0 &&
    (forall i :: 0 <= i < |l.empty| ==> !Bit(occ[Both], l.empty[i])) &&
    (forall i :: 0 <= i < |l.safe| ==> !Attacked(bb, occ[Both], l.safe[i], 1 - side))
  }

  /** The rule for castling moves: one of the two allowed castlings. */
  ghost predicate CastleRule(bb: seq<Bitboard>, occ: seq<Bitboard>, side: int, castle: Zobrist.Rights, f: Fields)
    requires |bb| == 12 && |occ| == 3 && (side == White || side == Black)
  {
    (f == CastleFields(side, true) && CastleAllowed(bb, occ, side, castle, true)) ||
    (f == CastleFields(side, false) && CastleAllowed(bb, occ, side, castle, false))
  }

  method CastleWord(side: int, kingside: bool) returns (m: Move)
    requires side == White || side == Black
    ensures Decodable(m) && Decode(m) == CastleFields(side, kingside)
  {
    m := Word(CastleFields(side, kingside));
  }

  /** The path squares are empty, tested one by one as `generate_moves` does. */
  method PathEmpty(block: Bitboard, empty: seq<Square>) returns (free: bool)
    requires 2 <= |empty| <= 3
    ensures free <==> forall i :: 0 <= i < |empty| ==> !Bit(block, empty[i])
  {
    free := GetBit(block, empty[0]) == 0 && GetBit(block, empty[1]) == 0 &&
            (|empty| == 2 || GetBit(block, empty[2]) == 0);
  }

  /** None of the three king squares is attacked, tested one by one as `generate_moves` does. */
  method PathSafe(bb: seq<Bitboard>, block: Bitboard, safe: seq<Square>, attacker: int) returns (ok: bool)
    requires |bb| == 12 && (attacker == White || attacker == Black) && |safe| == 3
    ensures ok <==> forall i :: 0 <= i < |safe| ==> !Attacked(bb, block, safe[i], attacker)
  {
    var a0 := IsSquareAttacked(bb, block, safe[0], attacker);
    ok := false;
    if !a0 {
      var a1 := IsSquareAttacked(bb, block, safe[1], attacker);
      if !a1 {
        var a2 := IsSquareAttacked(bb, block, safe[2], attacker);
        ok := !a2;
      }
    }
  }

  /** One castling move, emitted exactly when it is allowed. */
  method LaneMove(bb: seq<Bitboard>, occ: seq<Bitboard>, side: int, castle: Zobrist.Rights, kingside: bool)
    returns (ms: seq<Move>)
    requires |bb| == 12 && |occ| == 3 && (side == White || side == Black)
    ensures |ms| <= 1 && (|ms| == 1 <==> CastleAllowed(bb, occ, side, castle, kingside))
    ensures forall i :: 0 <= i < |ms| ==> Decodable(ms[i]) && Decode(ms[i]) == CastleFields(side, kingside)
  {
    var l := CastleLane(side, kingside);
    ms := [];
    if castle & l.right != 0 {
      var free := PathEmpty(occ[Both], l.empty);
      if free {
        var safe := PathSafe(bb, occ[Both], l.safe, 1 - side);
        if safe {
          var m := CastleWord(side, kingside);
          ms := [m];
        }
      }
    }
  }

  /**
   * The castling moves: king side then queen side, each present exactly
   * when its right is held, the squares between king and rook are empty,
   * and the king's start, transit and landing squares are not attacked.
   */
  method CastlingMoves(bb: seq<Bitboard>, occ: seq<Bitboard>, side: int, castle: Zobrist.Rights) returns (ms: seq<Move>)
    requires |bb| == 12 && |occ| == 3 && (side == White || side == Black)
    ensures forall i :: 0 <= i < |ms| ==> Decodable(ms[i]) && CastleRule(bb, occ, side, castle, Decode(ms[i]))
    ensures CastleAllowed(bb, occ, side, castle, true) <==> exists i :: 0 <= i < |ms| && Decodable(ms[i]) && Decode(ms[i]) == CastleFields(side, true)
    ensures CastleAllowed(bb, occ, side, castle, false) <==> exists i :: 0 <= i < |ms| && Decodable(ms[i]) && Decode(ms[i]) == CastleFields(side, false)
    ensures |ms| <= 2
  {
    var king := LaneMove(bb, occ, side, castle, true);
    var queen := LaneMove(bb, occ, side, castle, false);
    ms := king + queen;
    assert CastleFields(side, true) != CastleFields(side, false);
    assert forall i :: 0 <= i < |king| ==> ms[i] == king[i];
    assert forall i :: 0 <= i < |queen| ==> ms[|king| + i] == queen[i];
    if |king| == 1 {
      assert Decode(ms[0]) == CastleFields(side, true);
    }
    if |queen| == 1 {
      assert Decode(ms[|king|]) == CastleFields(side, false);
    }
  }

  // ---------------------------------------------------------------------
  // All moves of the side to move
  // ---------------------------------------------------------------------

  /** ms holds a move of `piece` from s to t promoting to `promoted` (0: none). */
  predicate HasMove(ms: seq<Move>, piece: Piece, s: Square, t: Square, promoted: int)
  {
    exists i :: 0 <= i < |ms| && Decodable(ms[i]) && Decode(ms[i]).piece == piece &&
      Decode(ms[i]).source == s && Decode(ms[i]).target == t && Decode(ms[i]).promoted == promoted
  }

  /** A listed move stays listed when more are appended, before or after. */
  lemma HasMoveAppend(ms: seq<Move>, g: seq<Move>, piece: Piece, s: Square, t: Square, p: int)
    ensures HasMove(ms, piece, s, t, p) || HasMove(g, piece, s, t, p) ==> HasMove(ms + g, piece, s, t, p)
  {
    if HasMove(ms, piece, s, t, p) {
      var i :| 0 <= i < |ms| && Decodable(ms[i]) && Decode(ms[i]).piece == piece &&
        Decode(ms[i]).source == s && Decode(ms[i]).target == t && Decode(ms[i]).promoted == p;
      assert (ms + g)[i] == ms[i];
    } else if HasMove(g, piece, s, t, p) {
      var i :| 0 <= i < |g| && Decodable(g[i]) && Decode(g[i]).piece == piece &&
        Decode(g[i]).source == s && Decode(g[i]).target == t && Decode(g[i]).promoted == p;
      assert (ms + g)[|ms| + i] == g[i];
    }
  }

  /** Every move of g is a move of `piece` from s. */
  predicate FromSource(g: seq<Move>, piece: Piece, s: Square)
  {
    forall i :: 0 <= i < |g| ==> Decodable(g[i]) && Decode(g[i]).piece == piece && Decode(g[i]).source == s
  }

  /** When every move comes from s, reaching t is having the move from s to t. */
  lemma CoveredFrom(g: seq<Move>, piece: Piece, s: Square, t: Square, p: int)
    requires FromSource(g, piece, s) && CoveredWith(g, t, p)
    ensures HasMove(g, piece, s, t, p)
  {
    var i :| 0 <= i < |g| && Decodable(g[i]) && Decode(g[i]).target == t && Decode(g[i]).promoted == p;
    assert Decode(g[i]).piece == piece && Decode(g[i]).source == s;
  }

  /** The pawn moves from s to t: the four promotions from the last rank but one, else the plain move. */
  predicate PawnTo(ms: seq<Move>, side: int, s: Square, t: Square)
    requires side == White || side == Black
  {
    var pawn := PieceOf(0, side);
    if PromotionRank(side, s) then
      HasMove(ms, pawn, s, t, PieceOf(4, side)) && HasMove(ms, pawn, s, t, PieceOf(3, side)) &&
      HasMove(ms, pawn, s, t, PieceOf(2, side)) && HasMove(ms, pawn, s, t, PieceOf(1, side))
    else HasMove(ms, pawn, s, t, 0)
  }

  lemma PawnToOf(g: seq<Move>, side: int, s: Square, t: Square)
    requires side == White || side == Black
    requires FromSource(g, PieceOf(0, side), s)
    requires if PromotionRank(side, s) then AllPromotions(g, side, t) else CoveredWith(g, t, 0)
    ensures PawnTo(g, side, s, t)
  {
    var pawn := PieceOf(0, side);
    if PromotionRank(side, s) {
      CoveredFrom(g, pawn, s, t, PieceOf(4, side));
      CoveredFrom(g, pawn, s, t, PieceOf(3, side));
      CoveredFrom(g, pawn, s, t, PieceOf(2, side));
      CoveredFrom(g, pawn, s, t, PieceOf(1, side));
    } else {
      CoveredFrom(g, pawn, s, t, 0);
    }
  }

  lemma PawnToAppend(ms: seq<Move>, g: seq<Move>, side: int, s: Square, t: Square)
    requires side == White || side == Black
    ensures PawnTo(ms, side, s, t) || PawnTo(g, side, s, t) ==> PawnTo(ms + g, side, s, t)
  {
    var pawn := PieceOf(0, side);
    if PromotionRank(side, s) {
      HasMoveAppend(ms, g, pawn, s, t, PieceOf(4, side));
      HasMoveAppend(ms, g, pawn, s, t, PieceOf(3, side));
      HasMoveAppend(ms, g, pawn, s, t, PieceOf(2, side));
      HasMoveAppend(ms, g, pawn, s, t, PieceOf(1, side));
    } else {
      HasMoveAppend(ms, g, pawn, s, t, 0);
    }
  }

  /** The single push from s, or its four promotions, is listed when the square ahead is empty. */
  predicate PushDone(ms: seq<Move>, occ: seq<Bitboard>, side: int, s: Square)
    requires |occ| == 3 && (side == White || side == Black)
  {
    HasAhead(side, s) && !Bit(occ[Both], Ahead(side, s)) ==> PawnTo(ms, side, s, Ahead(side, s))
  }

  /** The double push from the starting rank is listed when both squares ahead are empty. */
  predicate DoubleDone(ms: seq<Move>, occ: seq<Bitboard>, side: int, s: Square)
    requires |occ| == 3 && (side == White || side == Black)
  {
    StartRank(side, s) && !Bit(occ[Both], Ahead(side, s)) && !Bit(occ[Both], Ahead(side, Ahead(side, s))) ==>
      HasMove(ms, PieceOf(0, side), s, Ahead(side, Ahead(side, s)), 0)
  }

  /** Every capture of an opponent's piece from s is listed, with its promotions. */
  ghost predicate CapturesDone(ms: seq<Move>, occ: seq<Bitboard>, side: int, s: Square)
    requires |occ| == 3 && (side == White || side == Black)
  {
    forall t: Square :: PawnCapture(side, s, t) && Bit(occ[1 - side], t) ==> PawnTo(ms, side, s, t)
  }

  /** The en-passant capture from s is listed when s attacks the en-passant square. */
  predicate PassantDone(ms: seq<Move>, side: int, ep: int, s: Square)
    requires (side == White || side == Black) && 0 <= ep <= NoSquare
  {
    ep != NoSquare && PawnCapture(side, s, SquareOf(ep)) ==> HasMove(ms, PieceOf(0, side), s, SquareOf(ep), 0)
  }

  /** Every pawn move from s is in ms: pushes, the double push, captures and en passant. */
  ghost predicate PawnDone(ms: seq<Move>, occ: seq<Bitboard>, side: int, ep: int, s: Square)
    requires |occ| == 3 && (side == White || side == Black) && 0 <= ep <= NoSquare
  {
    PushDone(ms, occ, side, s) && DoubleDone(ms, occ, side, s) && CapturesDone(ms, occ, side, s) &&
    PassantDone(ms, side, ep, s)
  }

  lemma CapturesDoneAppend(ms: seq<Move>, g: seq<Move>, occ: seq<Bitboard>, side: int, s: Square)
    requires |occ| == 3 && (side == White || side == Black)
    ensures CapturesDone(ms, occ, side, s) || CapturesDone(g, occ, side, s) ==> CapturesDone(ms + g, occ, side, s)
  {
    forall t: Square
      ensures PawnTo(ms, side, s, t) || PawnTo(g, side, s, t) ==> PawnTo(ms + g, side, s, t)
    {
      PawnToAppend(ms, g, side, s, t);
    }
  }

  lemma PushDoneAppend(ms: seq<Move>, g: seq<Move>, occ: seq<Bitboard>, side: int, s: Square)
    requires |occ| == 3 && (side == White || side == Black)
    ensures PushDone(ms, occ, side, s) || PushDone(g, occ, side, s) ==> PushDone(ms + g, occ, side, s)
    ensures DoubleDone(ms, occ, side, s) || DoubleDone(g, occ, side, s) ==> DoubleDone(ms + g, occ, side, s)
  {
    if HasAhead(side, s) {
      PawnToAppend(ms, g, side, s, Ahead(side, s));
    }
    if StartRank(side, s) {
      HasMoveAppend(ms, g, PieceOf(0, side), s, Ahead(side, Ahead(side, s)), 0);
    }
  }

  lemma PassantDoneAppend(ms: seq<Move>, g: seq<Move>, side: int, ep: int, s: Square)
    requires (side == White || side == Black) && 0 <= ep <= NoSquare
    ensures PassantDone(ms, side, ep, s) || PassantDone(g, side, ep, s) ==> PassantDone(ms + g, side, ep, s)
  {
    if ep != NoSquare {
      HasMoveAppend(ms, g, PieceOf(0, side), s, SquareOf(ep), 0);
    }
  }

  lemma PawnDoneAppend(ms: seq<Move>, g: seq<Move>, occ: seq<Bitboard>, side: int, ep: int, s: Square)
    requires |occ| == 3 && (side == White || side == Black) && 0 <= ep <= NoSquare
    ensures PawnDone(ms, occ, side, ep, s) || PawnDone(g, occ, side, ep, s) ==> PawnDone(ms + g, occ, side, ep, s)
  {
    PushDoneAppend(ms, g, occ, side, s);
    CapturesDoneAppend(ms, g, occ, side, s);
    PassantDoneAppend(ms, g, side, ep, s);
  }

  /** Every move of the piece of this kind on s is in ms. */
  ghost predicate PieceDone(ms: seq<Move>, occ: seq<Bitboard>, side: int, kind: int, s: Square)
    requires |occ| == 3 && (side == White || side == Black) && 1 <= kind < 6
  {
    forall t: Square :: Reaches(kind, s, occ[Both], t) && !Bit(occ[side], t) ==> HasMove(ms, PieceOf(kind, side), s, t, 0)
  }

  lemma PieceDoneAppend(ms: seq<Move>, g: seq<Move>, occ: seq<Bitboard>, side: int, kind: int, s: Square)
    requires |occ| == 3 && (side == White || side == Black) && 1 <= kind < 6
    ensures PieceDone(ms, occ, side, kind, s) || PieceDone(g, occ, side, kind, s) ==> PieceDone(ms + g, occ, side, kind, s)
  {
    forall t: Square
      ensures HasMove(ms, PieceOf(kind, side), s, t, 0) || HasMove(g, PieceOf(kind, side), s, t, 0) ==>
                HasMove(ms + g, PieceOf(kind, side), s, t, 0)
    {
      HasMoveAppend(ms, g, PieceOf(kind, side), s, t, 0);
    }
  }

  /** Every move of the piece of this kind on s is in ms. */
  ghost predicate Done(ms: seq<Move>, occ: seq<Bitboard>, side: int, ep: int, kind: int, s: Square)
    requires |occ| == 3 && (side == White || side == Black) && 0 <= ep <= NoSquare && 0 <= kind < 6
  {
    if kind == 0 then PawnDone(ms, occ, side, ep, s) else PieceDone(ms, occ, side, kind, s)
  }

  lemma DoneAppend(ms: seq<Move>, g: seq<Move>, occ: seq<Bitboard>, side: int, ep: int, kind: int, s: Square)
    requires |occ| == 3 && (side == White || side == Black) && 0 <= ep <= NoSquare && 0 <= kind < 6
    ensures Done(ms, occ, side, ep, kind, s) || Done(g, occ, side, ep, kind, s) ==> Done(ms + g, occ, side, ep, kind, s)
  {
    if kind == 0 {
      PawnDoneAppend(ms, g, occ, side, ep, s);
    } else {
      PieceDoneAppend(ms, g, occ, side, kind, s);
    }
  }

  /** The pawn rule: a push, a capture or an en-passant capture. */
  predicate PawnRule(occ: seq<Bitboard>, side: int, ep: int, source: Square, f: Fields)
    requires |occ| == 3 && (side == White || side == Black)
  {
    PushRule(occ, side, source, f) || CaptureRule(occ, side, source, f) || EnPassantRule(side, ep, source, f)
  }

  /** The rule for a move of a piece of this kind from its source square. */
  predicate KindRule(occ: seq<Bitboard>, side: int, ep: int, kind: int, f: Fields)
    requires |occ| == 3 && (side == White || side == Black) && 0 <= kind < 6
  {
    if kind == 0 then PawnRule(occ, side, ep, f.source, f) else PieceRule(occ, side, kind, f.source, f)
  }

  /** A move under a kind's rule is that kind's piece of the mover, and not a castling. */
  lemma KindRulePiece(occ: seq<Bitboard>, side: int, ep: int, kind: int, f: Fields)
    requires |occ| == 3 && (side == White || side == Black) && 0 <= kind < 6
    requires KindRule(occ, side, ep, kind, f)
    ensures f.piece == PieceOf(kind, side) && !f.castling
  {
  }

  /** Every move of ms is a move from `source` under the rule for its kind. */
  predicate FromRule(ms: seq<Move>, occ: seq<Bitboard>, side: int, ep: int, kind: int, source: Square)
    requires |occ| == 3 && (side == White || side == Black) && 0 <= kind < 6
  {
    forall i :: 0 <= i < |ms| ==> Decodable(ms[i]) && Decode(ms[i]).source == source && KindRule(occ, side, ep, kind, Decode(ms[i]))
  }

  /** The pushes cover the push clauses. */
  lemma PushesDone(pushes: seq<Move>, occ: seq<Bitboard>, side: int, source: Square)
    requires |occ| == 3 && (side == White || side == Black)
    requires forall i :: 0 <= i < |pushes| ==> Decodable(pushes[i]) && PushRule(occ, side, source, Decode(pushes[i]))
    requires |pushes| > 0 <==> HasAhead(side, source) && !Bit(occ[Both], Ahead(side, source))
    requires |pushes| > 0 && PromotionRank(side, source) ==> AllPromotions(pushes, side, Ahead(side, source))
    requires |pushes| > 0 && !PromotionRank(side, source) ==> CoveredWith(pushes, Ahead(side, source), 0)
    requires |pushes| > 0 && StartRank(side, source) && !Bit(occ[Both], Ahead(side, Ahead(side, source))) ==>
      CoveredWith(pushes, Ahead(side, Ahead(side, source)), 0)
    ensures PushDone(pushes, occ, side, source) && DoubleDone(pushes, occ, side, source)
  {
    assert FromSource(pushes, PieceOf(0, side), source);
    if HasAhead(side, source) && !Bit(occ[Both], Ahead(side, source)) {
      PawnToOf(pushes, side, source, Ahead(side, source));
      if StartRank(side, source) && !Bit(occ[Both], Ahead(side, Ahead(side, source))) {
        CoveredFrom(pushes, PieceOf(0, side), source, Ahead(side, Ahead(side, source)), 0);
      }
    }
  }

  /** The captures cover the capture clause. */
  lemma CapturesDoneOf(captures: seq<Move>, occ: seq<Bitboard>, side: int, source: Square)
    requires |occ| == 3 && (side == White || side == Black)
    requires forall i :: 0 <= i < |captures| ==> Decodable(captures[i]) && CaptureRule(occ, side, source, Decode(captures[i]))
    requires forall t: Square :: PawnCapture(side, source, t) && Bit(occ[1 - side], t) ==>
      if PromotionRank(side, source) then AllPromotions(captures, side, t) else CoveredWith(captures, t, 0)
    ensures CapturesDone(captures, occ, side, source)
  {
    assert FromSource(captures, PieceOf(0, side), source);
    forall t: Square | PawnCapture(side, source, t) && Bit(occ[1 - side], t)
      ensures PawnTo(captures, side, source, t)
    {
      PawnToOf(captures, side, source, t);
    }
  }

  /** The en-passant list covers the en-passant clause. */
  lemma PassantDoneOf(passant: seq<Move>, side: int, ep: int, source: Square)
    requires (side == White || side == Black) && 0 <= ep <= NoSquare
    requires forall i :: 0 <= i < |passant| ==> Decodable(passant[i]) && EnPassantRule(side, ep, source, Decode(passant[i]))
    requires |passant| == 1 <==> ep != NoSquare && PawnCapture(side, source, SquareOf(ep))
    ensures PassantDone(passant, side, ep, source)
  {
    if ep != NoSquare && PawnCapture(side, source, SquareOf(ep)) {
      assert Decode(passant[0]).target == SquareOf(ep);
    }
  }

  lemma PawnMovesSound(pushes: seq<Move>, captures: seq<Move>, passant: seq<Move>, occ: seq<Bitboard>,
                       side: int, ep: int, source: Square)
    requires |occ| == 3 && (side == White || side == Black) && 0 <= ep <= NoSquare
    requires forall i :: 0 <= i < |pushes| ==> Decodable(pushes[i]) && PushRule(occ, side, source, Decode(pushes[i]))
    requires forall i :: 0 <= i < |captures| ==> Decodable(captures[i]) && CaptureRule(occ, side, source, Decode(captures[i]))
    requires forall i :: 0 <= i < |passant| ==> Decodable(passant[i]) && EnPassantRule(side, ep, source, Decode(passant[i]))
    ensures FromRule(pushes + captures + passant, occ, side, ep, 0, source)
  {
    var ms := pushes + captures + passant;
    forall i | 0 <= i < |ms|
      ensures Decodable(ms[i]) && Decode(ms[i]).source == source && KindRule(occ, side, ep, 0, Decode(ms[i]))
    {
      if i < |pushes| {
        assert ms[i] == pushes[i];
      } else if i < |pushes| + |captures| {
        assert ms[i] == captures[i - |pushes|];
      } else {
        assert ms[i] == passant[i - |pushes| - |captures|];
      }
    }
  }

  /** The pawn moves of one pawn, in the order of `generate_moves`: pushes, captures, en passant. */
  method PawnMovesFrom(occ: seq<Bitboard>, side: int, ep: int, source: Square) returns (ms: seq<Move>)
    requires |occ| == 3 && (side == White || side == Black) && 0 <= ep <= NoSquare
    ensures FromRule(ms, occ, side, ep, 0, source)
    ensures PawnDone(ms, occ, side, ep, source)
  {
    var pushes := PawnPushes(occ, side, source);
    var captures := PawnCaptures(occ, side, source);
    var passant := EnPassantCapture(side, ep, source);
    ms := pushes + captures + passant;
    PawnMovesSound(pushes, captures, passant, occ, side, ep, source);
    PushesDone(pushes, occ, side, source);
    CapturesDoneOf(captures, occ, side, source);
    PassantDoneOf(passant, side, ep, source);
    PushDoneAppend(pushes, captures, occ, side, source);
    PushDoneAppend(pushes + captures, passant, occ, side, source);
    CapturesDoneAppend(pushes, captures, occ, side, source);
    CapturesDoneAppend(pushes + captures, passant, occ, side, source);
    PassantDoneAppend(pushes + captures, passant, side, ep, source);
  }

  /** Every piece move from the square is generated, and each follows the piece's rule. */
  lemma PieceDoneOf(g: seq<Move>, occ: seq<Bitboard>, side: int, ep: int, kind: int, source: Square)
    requires |occ| == 3 && (side == White || side == Black) && 1 <= kind < 6
    requires forall i :: 0 <= i < |g| ==> Decodable(g[i]) && PieceRule(occ, side, kind, source, Decode(g[i]))
    requires forall t: Square :: Reaches(kind, source, occ[Both], t) && !Bit(occ[side], t) ==> CoveredWith(g, t, 0)
    ensures FromRule(g, occ, side, ep, kind, source) && PieceDone(g, occ, side, kind, source)
  {
    assert FromSource(g, PieceOf(kind, side), source);
    forall t: Square | Reaches(kind, source, occ[Both], t) && !Bit(occ[side], t)
      ensures HasMove(g, PieceOf(kind, side), source, t, 0)
    {
      CoveredFrom(g, PieceOf(kind, side), source, t, 0);
    }
  }

  /** The moves of the piece of this kind on `source`: the pawn moves, or the piece's targets. */
  method MovesFrom(occ: seq<Bitboard>, side: int, ep: int, kind: int, source: Square) returns (g: seq<Move>)
    requires |occ| == 3 && (side == White || side == Black) && 0 <= ep <= NoSquare && 0 <= kind < 6
    ensures FromRule(g, occ, side, ep, kind, source) && Done(g, occ, side, ep, kind, source)
  {
    if kind == 0 {
      g := PawnMovesFrom(occ, side, ep, source);
    } else {
      g := PieceMoves(occ, side, kind, source);
      PieceDoneOf(g, occ, side, ep, kind, source);
    }
  }

  /** Every move of ms is made by a piece of this kind standing on its source square. */
  predicate KindSound(ms: seq<Move>, bb: seq<Bitboard>, occ: seq<Bitboard>, side: int, ep: int, kind: int)
    requires |bb| == 12 && |occ| == 3 && (side == White || side == Black) && 0 <= kind < 6
  {
    forall i :: 0 <= i < |ms| ==>
      Decodable(ms[i]) && Bit(bb[PieceOf(kind, side)], Decode(ms[i]).source) && KindRule(occ, side, ep, kind, Decode(ms[i]))
  }

  /** The sweep over one piece board: rest is what is left of it, and every square already left is done. */
  ghost predicate SweepInv(ms: seq<Move>, bb: seq<Bitboard>, occ: seq<Bitboard>, side: int, ep: int, kind: int,
                           rest: Bitboard)
    requires |bb| == 12 && |occ| == 3 && (side == White || side == Black) && 0 <= ep <= NoSquare && 0 <= kind < 6
  {
    (forall s: Square :: Bit(rest, s) ==> Bit(bb[PieceOf(kind, side)], s)) &&
    KindSound(ms, bb, occ, side, ep, kind) &&
    (forall s: Square :: Bit(bb[PieceOf(kind, side)], s) && !Bit(rest, s) ==> Done(ms, occ, side, ep, kind, s))
  }

  lemma KindSoundStep(ms: seq<Move>, g: seq<Move>, bb: seq<Bitboard>, occ: seq<Bitboard>, side: int, ep: int,
                      kind: int, source: Square)
    requires |bb| == 12 && |occ| == 3 && (side == White || side == Black) && 0 <= ep <= NoSquare && 0 <= kind < 6
    requires KindSound(ms, bb, occ, side, ep, kind) && FromRule(g, occ, side, ep, kind, source)
    requires Bit(bb[PieceOf(kind, side)], source)
    ensures KindSound(ms + g, bb, occ, side, ep, kind)
  {
    var all := ms + g;
    forall i | 0 <= i < |all|
      ensures Decodable(all[i]) && Bit(bb[PieceOf(kind, side)], Decode(all[i]).source) &&
              KindRule(occ, side, ep, kind, Decode(all[i]))
    {
      if i < |ms| {
        assert all[i] == ms[i];
      } else {
        assert all[i] == g[i - |ms|];
      }
    }
  }

  lemma SweepDoneStep(ms: seq<Move>, g: seq<Move>, bb: seq<Bitboard>, occ: seq<Bitboard>, side: int, ep: int,
                      kind: int, rest: Bitboard, rest': Bitboard, source: Square)
    requires |bb| == 12 && |occ| == 3 && (side == White || side == Black) && 0 <= ep <= NoSquare && 0 <= kind < 6
    requires forall s: Square :: Bit(bb[PieceOf(kind, side)], s) && !Bit(rest, s) ==> Done(ms, occ, side, ep, kind, s)
    requires Done(g, occ, side, ep, kind, source)
    requires forall s: Square :: Bit(rest', s) <==> s != source && Bit(rest, s)
    ensures forall s: Square :: Bit(bb[PieceOf(kind, side)], s) && !Bit(rest', s) ==> Done(ms + g, occ, side, ep, kind, s)
  {
    forall s: Square | Bit(bb[PieceOf(kind, side)], s) && !Bit(rest', s)
      ensures Done(ms + g, occ, side, ep, kind, s)
    {
      DoneAppend(ms, g, occ, side, ep, kind, s);
    }
  }

  /** One turn of the sweep: the moves of the piece on the lowest square left, then pop it. */
  method SweepStep(ms: seq<Move>, bb: seq<Bitboard>, occ: seq<Bitboard>, side: int, ep: int, kind: int,
                   rest: Bitboard) returns (ms': seq<Move>, rest': Bitboard)
    requires |bb| == 12 && |occ| == 3 && (side == White || side == Black) && 0 <= ep <= NoSquare && 0 <= kind < 6
    requires rest != 0 && SweepInv(ms, bb, occ, side, ep, kind, rest)
    ensures SweepInv(ms', bb, occ, side, ep, kind, rest') && PopCount(rest') < PopCount(rest)
  {
    var source := LowSq(rest);
    var g := MovesFrom(occ, side, ep, kind, source);
    ms' := ms + g;
    rest' := PopBitToggle(rest, source);
    PopBitVariantsAgree(rest, source);
    PopCountClear(rest, source);
    KindSoundStep(ms, g, bb, occ, side, ep, kind, source);
    SweepDoneStep(ms, g, bb, occ, side, ep, kind, rest, rest', source);
  }

  /** The loop over the pieces of one kind, lowest square first. */
  method Sweep(bb: seq<Bitboard>, occ: seq<Bitboard>, side: int, ep: int, kind: int) returns (ms: seq<Move>)
    requires |bb| == 12 && |occ| == 3 && (side == White || side == Black) && 0 <= ep <= NoSquare && 0 <= kind < 6
    ensures KindSound(ms, bb, occ, side, ep, kind)
    ensures forall s: Square :: Bit(bb[PieceOf(kind, side)], s) ==> Done(ms, occ, side, ep, kind, s)
  {
    ms := [];
    var rest := bb[PieceOf(kind, side)];
    while rest != 0
      invariant SweepInv(ms, bb, occ, side, ep, kind, rest)
      decreases PopCount(rest)
    {
      ms, rest := SweepStep(ms, bb, occ, side, ep, kind, rest);
    }
  }

  /**
   * The rule every generated move follows: an allowed castling, or a move
   * of one of the mover's pieces from the square it stands on under the
   * rule for its kind.
   */
  ghost predicate MoveRule(bb: seq<Bitboard>, occ: seq<Bitboard>, side: int, ep: int, castle: Zobrist.Rights, f: Fields)
    requires |bb| == 12 && |occ| == 3 && (side == White || side == Black) && 0 <= ep <= NoSquare
  {
    CastleRule(bb, occ, side, castle, f) ||
    (0 <= f.piece - 6 * side < 6 && Bit(bb[f.piece], f.source) && KindRule(occ, side, ep, f.piece - 6 * side, f))
  }

  ghost predicate Sound(ms: seq<Move>, bb: seq<Bitboard>, occ: seq<Bitboard>, side: int, ep: int, castle: Zobrist.Rights)
    requires |bb| == 12 && |occ| == 3 && (side == White || side == Black) && 0 <= ep <= NoSquare
  {
    forall i :: 0 <= i < |ms| ==> Decodable(ms[i]) && MoveRule(bb, occ, side, ep, castle, Decode(ms[i]))
  }

  /** Every move of every piece of the kinds below `upto` is generated. */
  ghost predicate AllDone(ms: seq<Move>, bb: seq<Bitboard>, occ: seq<Bitboard>, side: int, ep: int, upto: int)
    requires |bb| == 12 && |occ| == 3 && (side == White || side == Black) && 0 <= ep <= NoSquare
  {
    forall kind, s: Square :: 0 <= kind < upto && kind < 6 && Bit(bb[PieceOf(kind, side)], s) ==>
      Done(ms, occ, side, ep, kind, s)
  }

  /** m is the castling move of this side. */
  predicate IsCastle(m: Move, side: int, kingside: bool)
    requires side == White || side == Black
  {
    Decodable(m) && Decode(m) == CastleFields(side, kingside)
  }

  /** ms holds the castling move of this side. */
  predicate HasCastle(ms: seq<Move>, side: int, kingside: bool)
    requires side == White || side == Black
  {
    exists i :: 0 <= i < |ms| && IsCastle(ms[i], side, kingside)
  }

  /** Each castling move is generated exactly when it is allowed. */
  ghost predicate CastlesExact(ms: seq<Move>, bb: seq<Bitboard>, occ: seq<Bitboard>, side: int, castle: Zobrist.Rights)
    requires |bb| == 12 && |occ| == 3 && (side == White || side == Black)
  {
    (CastleAllowed(bb, occ, side, castle, true) <==> HasCastle(ms, side, true)) &&
    (CastleAllowed(bb, occ, side, castle, false) <==> HasCastle(ms, side, false))
  }

  lemma KindSoundIsSound(g: seq<Move>, bb: seq<Bitboard>, occ: seq<Bitboard>, side: int, ep: int, kind: int,
                         castle: Zobrist.Rights)
    requires |bb| == 12 && |occ| == 3 && (side == White || side == Black) && 0 <= ep <= NoSquare && 0 <= kind < 6
    requires KindSound(g, bb, occ, side, ep, kind)
    ensures Sound(g, bb, occ, side, ep, castle)
    ensures !HasCastle(g, side, true) && !HasCastle(g, side, false)
  {
    forall i | 0 <= i < |g|
      ensures MoveRule(bb, occ, side, ep, castle, Decode(g[i])) && !Decode(g[i]).castling
    {
      KindRulePiece(occ, side, ep, kind, Decode(g[i]));
    }
  }

  lemma SoundAppend(ms: seq<Move>, g: seq<Move>, bb: seq<Bitboard>, occ: seq<Bitboard>, side: int, ep: int,
                    castle: Zobrist.Rights)
    requires |bb| == 12 && |occ| == 3 && (side == White || side == Black) && 0 <= ep <= NoSquare
    requires Sound(ms, bb, occ, side, ep, castle) && Sound(g, bb, occ, side, ep, castle)
    ensures Sound(ms + g, bb, occ, side, ep, castle)
  {
    var all := ms + g;
    forall i | 0 <= i < |all|
      ensures Decodable(all[i]) && MoveRule(bb, occ, side, ep, castle, Decode(all[i]))
    {
      if i < |ms| {
        assert all[i] == ms[i];
      } else {
        assert all[i] == g[i - |ms|];
      }
    }
  }

  lemma HasCastleAppend(ms: seq<Move>, g: seq<Move>, side: int, kingside: bool)
    requires side == White || side == Black
    ensures HasCastle(ms + g, side, kingside) <==> HasCastle(ms, side, kingside) || HasCastle(g, side, kingside)
  {
    var all := ms + g;
    if HasCastle(all, side, kingside) {
      var i :| 0 <= i < |all| && IsCastle(all[i], side, kingside);
      if i < |ms| {
        assert all[i] == ms[i];
      } else {
        assert all[i] == g[i - |ms|];
      }
    }
    if HasCastle(ms, side, kingside) {
      var i :| 0 <= i < |ms| && IsCastle(ms[i], side, kingside);
      assert all[i] == ms[i];
    }
    if HasCastle(g, side, kingside) {
      var i :| 0 <= i < |g| && IsCastle(g[i], side, kingside);
      assert all[|ms| + i] == g[i];
    }
  }

  lemma AllDoneStep(ms: seq<Move>, g: seq<Move>, bb: seq<Bitboard>, occ: seq<Bitboard>, side: int, ep: int, kind: int)
    requires |bb| == 12 && |occ| == 3 && (side == White || side == Black) && 0 <= ep <= NoSquare && 0 <= kind < 6
    requires AllDone(ms, bb, occ, side, ep, kind)
    requires forall s: Square :: Bit(bb[PieceOf(kind, side)], s) ==> Done(g, occ, side, ep, kind, s)
    ensures AllDone(ms + g, bb, occ, side, ep, kind + 1)
  {
    forall k, s: Square | 0 <= k < kind + 1 && k < 6 && Bit(bb[PieceOf(k, side)], s)
      ensures Done(ms + g, occ, side, ep, k, s)
    {
      DoneAppend(ms, g, occ, side, ep, k, s);
    }
  }

  lemma AllDoneAppend(ms: seq<Move>, g: seq<Move>, bb: seq<Bitboard>, occ: seq<Bitboard>, side: int, ep: int, upto: int)
    requires |bb| == 12 && |occ| == 3 && (side == White || side == Black) && 0 <= ep <= NoSquare
    requires AllDone(ms, bb, occ, side, ep, upto)
    ensures AllDone(ms + g, bb, occ, side, ep, upto)
  {
    forall k, s: Square | 0 <= k < upto && k < 6 && Bit(bb[PieceOf(k, side)], s)
      ensures Done(ms + g, occ, side, ep, k, s)
    {
      DoneAppend(ms, g, occ, side, ep, k, s);
    }
  }

  /** What `generate_moves` has produced once the kinds below `kind` are swept. */
  ghost predicate GenInv(ms: seq<Move>, bb: seq<Bitboard>, occ: seq<Bitboard>, side: int, ep: int,
                         castle: Zobrist.Rights, kind: int)
    requires |bb| == 12 && |occ| == 3 && (side == White || side == Black) && 0 <= ep <= NoSquare
  {
    Sound(ms, bb, occ, side, ep, castle) && AllDone(ms, bb, occ, side, ep, kind) &&
    CastlesExact(ms, bb, occ, side, castle)
  }

  /** One kind of piece swept and appended. */
  method GenStep(ms: seq<Move>, bb: seq<Bitboard>, occ: seq<Bitboard>, side: int, ep: int, castle: Zobrist.Rights,
                 kind: int) returns (ms': seq<Move>)
    requires |bb| == 12 && |occ| == 3 && (side == White || side == Black) && 0 <= ep <= NoSquare && 0 <= kind < 6
    requires GenInv(ms, bb, occ, side, ep, castle, kind)
    ensures GenInv(ms', bb, occ, side, ep, castle, kind + 1)
  {
    var g := Sweep(bb, occ, side, ep, kind);
    ms' := ms + g;
    KindSoundIsSound(g, bb, occ, side, ep, kind, castle);
    SoundAppend(ms, g, bb, occ, side, ep, castle);
    AllDoneStep(ms, g, bb, occ, side, ep, kind);
    HasCastleAppend(ms, g, side, true);
    HasCastleAppend(ms, g, side, false);
  }

  /** The castling moves come after the pawn moves. */
  method CastleStep(ms: seq<Move>, bb: seq<Bitboard>, occ: seq<Bitboard>, side: int, ep: int, castle: Zobrist.Rights)
    returns (ms': seq<Move>)
    requires |bb| == 12 && |occ| == 3 && (side == White || side == Black) && 0 <= ep <= NoSquare
    requires Sound(ms, bb, occ, side, ep, castle) && AllDone(ms, bb, occ, side, ep, 1)
    requires !HasCastle(ms, side, true) && !HasCastle(ms, side, false)
    ensures GenInv(ms', bb, occ, side, ep, castle, 1)
  {
    var castles := CastlingMoves(bb, occ, side, castle);
    ms' := ms + castles;
    assert Sound(castles, bb, occ, side, ep, castle);
    SoundAppend(ms, castles, bb, occ, side, ep, castle);
    AllDoneAppend(ms, castles, bb, occ, side, ep, 1);
    HasCastleAppend(ms, castles, side, true);
    HasCastleAppend(ms, castles, side, false);
  }

  /**
   * `generate_moves`: the pawn moves, then the castling moves, then the
   * knight, bishop, rook, queen and king moves of the side to move.  Every
   * move follows its piece's rule from a square that piece stands on,
   * every such move is generated, and each castling move is generated
   * exactly when it is allowed.  Whether the mover's king is left in check
   * is not looked at here.
   */
  method GenerateMoves(b: Board) returns (ms: seq<Move>)
    requires b.Valid()
    ensures Sound(ms, b.bitboards, b.occupancies, b.side, b.enPassant, b.castle)
    ensures AllDone(ms, b.bitboards, b.occupancies, b.side, b.enPassant, 6)
    ensures CastlesExact(ms, b.bitboards, b.occupancies, b.side, b.castle)
  {
    var bb, occ, side, ep, castle := b.bitboards, b.occupancies, b.side, b.enPassant, b.castle;
    var pawns := Sweep(bb, occ, side, ep, 0);
    KindSoundIsSound(pawns, bb, occ, side, ep, 0, castle);
    AllDoneStep([], pawns, bb, occ, side, ep, 0);
    assert [] + pawns == pawns;
    ms := CastleStep(pawns, bb, occ, side, ep, castle);
    var kind := 1;
    while kind < 6
      invariant 1 <= kind <= 6 && GenInv(ms, bb, occ, side, ep, castle, kind)
    {
      ms := GenStep(ms, bb, occ, side, ep, castle, kind);
      kind := kind + 1;
    }
  }
}
