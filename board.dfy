/**
 * The engine's global position as a class, and `make_move`.
 *
 * `make_move` copies the state (`copy_board`), moves the piece, removes a
 * captured piece, promotes, removes an en-passant victim, moves the rook
 * of a castling move, updates the en-passant square, the castling rights,
 * the occupancies and the side to move, XOR-ing every change into
 * `hash_key` as it goes; if the mover's king is then attacked it restores
 * the copy (`take_back`) and reports the move illegal.
 *
 * Both engines' versions are modelled by one method: they agree step for
 * step, the modular one also maintains `fifty_move`, and their two
 * `pop_bit` macros compute the same word (Bits.PopBitVariantsAgree).
 */
module Boards {
  import opened Bits
  import opened Squares
  import opened Moves
  import opened XorFold
  import opened Zobrist
  import opened Position
  import opened Occupancy

  /** What `copy_board` saves and `take_back` restores. */
  datatype Snapshot = Snapshot(bitboards: seq<Bitboard>, occupancies: seq<Bitboard>, side: int,
                               enPassant: int, castle: Rights, fiftyMove: int, hashKey: bv64)

  /** A six-bit square field as a square. */
  function ToSquare(x: Field6): Square
  {
    x as bv8
  }


  /** The fields of a move word, as `make_move` reads them into locals. */
  datatype Fields = Fields(source: Square, target: Square, piece: Piece, promoted: int,
                           capture: bool, double: bool, enPassant: bool, castling: bool)

  /** The move word decoded; its piece fields must name boards. */
  function Decode(m: Move): (d: Fields)
    requires GetPiece(m) < 12 && GetPromoted(m) < 12
    ensures 0 <= d.promoted < 12
    ensures d.piece == GetPiece(m) as int && d.promoted == GetPromoted(m) as int
    ensures d.source == ToSquare(GetSource(m)) && d.target == ToSquare(GetTarget(m))
    ensures d.capture == (GetCapture(m) != 0) && d.double == (GetDouble(m) != 0)
    ensures d.enPassant == (GetEnPassant(m) != 0) && d.castling == (GetCastling(m) != 0)
  {
    Fields(ToSquare(GetSource(m)), ToSquare(GetTarget(m)), GetPiece(m) as int, GetPromoted(m) as int,
           GetCapture(m) != 0, GetDouble(m) != 0, GetEnPassant(m) != 0, GetCastling(m) != 0)
  }

  /**
   * The en-passant and double-push targets have a square behind them
   * (`make_move` indexes `target ± 8` without a check).
   */
  predicate InRange(d: Fields, side: int)
  {
    0 <= d.promoted < 12 &&
    (d.enPassant || d.double ==> (side == White ==> d.target < 56) && (side != White ==> d.target >= 8))
  }

  // ---------------------------------------------------------------------
  // The piece boards after a move, step by step
  // ---------------------------------------------------------------------

  /** Piece p lifted from `from` and put on `to`. */
  function Relocated(bb: seq<Bitboard>, p: int, from: Square, to: Square): (r: seq<Bitboard>)
    requires 0 <= p < |bb|
    ensures |r| == |bb|
  {
    bb[p := SetBit(PopBitToggle(bb[p], from), to)]
  }

  /** The first board in [lo, hi) that has square t, or hi when there is none. */
  function FirstHolder(bb: seq<Bitboard>, t: Square, lo: int, hi: int): (q: int)
    requires 0 <= lo <= hi <= |bb|
    ensures lo <= q <= hi
    ensures q < hi ==> Bit(bb[q], t)
    ensures forall r :: lo <= r < q ==> !Bit(bb[r], t)
    decreases hi - lo
  {
    if lo == hi then hi else if Bit(bb[lo], t) then lo else FirstHolder(bb, t, lo + 1, hi)
  }

  /** The first board of the side's opponent. */
  function OpponentBase(side: int): (lo: int)
    requires side == White || side == Black
    ensures lo == 6 * (1 - side) && 0 <= lo <= 6
  {
    PieceOf(0, 1 - side)
  }

  /** The captured piece: the first opponent board holding t loses it. */
  function Captured(bb: seq<Bitboard>, t: Square, side: int): (r: seq<Bitboard>)
    requires |bb| == 12 && (side == White || side == Black)
    ensures |r| == 12
  {
    var lo := OpponentBase(side);
    var q := FirstHolder(bb, t, lo, lo + 6);
    if q < lo + 6 then bb[q := PopBitToggle(bb[q], t)] else bb
  }

  /** The mover's pawn on t replaced by the promoted piece. */
  function Promoted(bb: seq<Bitboard>, side: int, promoted: int, t: Square): (r: seq<Bitboard>)
    requires |bb| == 12 && (side == White || side == Black) && 0 <= promoted < 12
    ensures |r| == 12
  {
    var pawn := PieceOf(0, side);
    var b := bb[pawn := PopBitToggle(bb[pawn], t)];
    b[promoted := SetBit(b[promoted], t)]
  }

  /** The square behind t from the mover's point of view (`target ± 8`). */
  function Behind(side: int, t: Square): Square
    requires side == White ==> t < 56
    requires side != White ==> t >= 8
  {
    if side == White then t + 8 else t - 8
  }

  /** The opponent pawn behind the en-passant target removed. */
  function TakenEnPassant(bb: seq<Bitboard>, side: int, t: Square): (r: seq<Bitboard>)
    requires |bb| == 12 && (side == White || side == Black)
    requires side == White ==> t < 56
    requires side != White ==> t >= 8
    ensures |r| == 12
  {
    var pawn := PieceOf(0, 1 - side);
    bb[pawn := PopBitToggle(bb[pawn], Behind(side, t))]
  }

  /** The rook move that goes with a king landing on g1, c1, g8 or c8. */
  function CastledRook(bb: seq<Bitboard>, t: Square): (r: seq<Bitboard>)
    requires |bb| == 12
    ensures |r| == 12
  {
    if t == G1 then Relocated(bb, WhiteRook, H1, F1)
    else if t == C1 then Relocated(bb, WhiteRook, A1, D1)
    else if t == G8 then Relocated(bb, BlackRook, H8, F8)
    else if t == C8 then Relocated(bb, BlackRook, A8, D8)
    else bb
  }

  // The boards after each step of the move.
  function AfterMove(bb: seq<Bitboard>, d: Fields): (r: seq<Bitboard>)
    requires |bb| == 12
    ensures |r| == 12
  {
    Relocated(bb, d.piece, d.source, d.target)
  }

  function AfterCapture(bb: seq<Bitboard>, d: Fields, side: int): (r: seq<Bitboard>)
    requires |bb| == 12 && (side == White || side == Black)
    ensures |r| == 12
  {
    var b := AfterMove(bb, d);
    if d.capture then Captured(b, d.target, side) else b
  }

  function AfterPromotion(bb: seq<Bitboard>, d: Fields, side: int): (r: seq<Bitboard>)
    requires |bb| == 12 && (side == White || side == Black) && InRange(d, side)
    ensures |r| == 12
  {
    var b := AfterCapture(bb, d, side);
    if d.promoted != 0 then Promoted(b, side, d.promoted, d.target) else b
  }

  function AfterEnPassant(bb: seq<Bitboard>, d: Fields, side: int): (r: seq<Bitboard>)
    requires |bb| == 12 && (side == White || side == Black) && InRange(d, side)
    ensures |r| == 12
  {
    var b := AfterPromotion(bb, d, side);
    if d.enPassant then TakenEnPassant(b, side, d.target) else b
  }

  /** The piece boards after the move, before the legality check. */
  function Played(bb: seq<Bitboard>, d: Fields, side: int): (r: seq<Bitboard>)
    requires |bb| == 12 && (side == White || side == Black) && InRange(d, side)
    ensures |r| == 12
  {
    var b := AfterEnPassant(bb, d, side);
    if d.castling then CastledRook(b, d.target) else b
  }

  // ---------------------------------------------------------------------
  // Moves that agree with the board
  // ---------------------------------------------------------------------

  /** The mover's piece stands on the source and not already on the target. */
  predicate MoverOk(bb: seq<Bitboard>, d: Fields, side: int)
    requires |bb| == 12
  {
    SideOf(d.piece) == side && Bit(bb[d.piece], d.source) && (d.source == d.target || !Bit(bb[d.piece], d.target))
  }

  /** A promotion is a pawn move to a piece of the mover's colour not already on the target. */
  predicate PromotionOk(bb: seq<Bitboard>, d: Fields, side: int)
    requires |bb| == 12 && (side == White || side == Black) && 0 <= d.promoted < 12
  {
    d.promoted != 0 ==>
      d.piece == PieceOf(0, side) && SideOf(d.promoted) == side && d.promoted != d.piece && !Bit(bb[d.promoted], d.target)
  }

  /** An en-passant capture has an opponent pawn behind the target. */
  predicate EnPassantOk(bb: seq<Bitboard>, d: Fields, side: int)
    requires |bb| == 12 && (side == White || side == Black) && InRange(d, side)
  {
    d.enPassant ==> Bit(bb[PieceOf(0, 1 - side)], Behind(side, d.target))
  }

  /** The rook a castling move to t moves is at home and its landing square is free of rooks. */
  predicate RookReady(bb: seq<Bitboard>, t: Square)
    requires |bb| == 12
  {
    (t == G1 ==> Bit(bb[WhiteRook], H1) && !Bit(bb[WhiteRook], F1)) &&
    (t == C1 ==> Bit(bb[WhiteRook], A1) && !Bit(bb[WhiteRook], D1)) &&
    (t == G8 ==> Bit(bb[BlackRook], H8) && !Bit(bb[BlackRook], F8)) &&
    (t == C8 ==> Bit(bb[BlackRook], A8) && !Bit(bb[BlackRook], D8))
  }

  /** A castling move is a king move whose rook is ready. */
  predicate CastlingOk(bb: seq<Bitboard>, d: Fields, side: int)
    requires |bb| == 12 && (side == White || side == Black)
  {
    d.castling ==> d.piece == PieceOf(5, side) && RookReady(bb, d.target)
  }

  /**
   * The move agrees with the board, as every move the generator emits
   * does; under it `make_move` keeps `hash_key` equal to the position's
   * Zobrist key.
   */
  predicate Fits(bb: seq<Bitboard>, d: Fields, side: int)
    requires |bb| == 12 && (side == White || side == Black) && InRange(d, side)
  {
    MoverOk(bb, d, side) && PromotionOk(bb, d, side) && EnPassantOk(bb, d, side) && CastlingOk(bb, d, side)
  }

  // ---------------------------------------------------------------------
  // What each step leaves for the next
  // ---------------------------------------------------------------------

  lemma PopOther(b: Bitboard, s: Square, u: Square)
    requires s != u
    ensures Bit(PopBitToggle(b, s), u) <==> Bit(b, u)
  {
  }

  lemma SetOther(b: Bitboard, s: Square, u: Square)
    requires s != u
    ensures Bit(SetBit(b, s), u) <==> Bit(b, u)
  {
  }

  lemma RelocatedAt(bb: seq<Bitboard>, p: int, f: Square, t: Square)
    requires 0 <= p < |bb|
    ensures Bit(Relocated(bb, p, f, t)[p], t)
    ensures Relocated(bb, p, f, t)[p] != 0
  {
    assert !Bit(0, t);
  }

  /** A capture only touches opponent boards. */
  lemma CapturedOwn(bb: seq<Bitboard>, t: Square, side: int, r: int)
    requires |bb| == 12 && (side == White || side == Black) && 0 <= r < 12 && SideOf(r) == side
    ensures Captured(bb, t, side)[r] == bb[r]
  {
  }

  /** A capture touches no square but t. */
  lemma CapturedElsewhere(bb: seq<Bitboard>, t: Square, side: int, r: int, u: Square)
    requires |bb| == 12 && (side == White || side == Black) && 0 <= r < 12 && u != t
    ensures Bit(Captured(bb, t, side)[r], u) <==> Bit(bb[r], u)
  {
    var lo := OpponentBase(side);
    var q := FirstHolder(bb, t, lo, lo + 6);
    if q < lo + 6 && q == r {
      PopOther(bb[r], t, u);
    }
  }

  /** A promotion only touches the mover's boards. */
  lemma PromotedOther(bb: seq<Bitboard>, side: int, q: int, t: Square, r: int)
    requires |bb| == 12 && (side == White || side == Black) && 0 <= q < 12 && 0 <= r < 12
    requires SideOf(q) == side && SideOf(r) != side
    ensures Promoted(bb, side, q, t)[r] == bb[r]
  {
  }

  /** A promotion touches no square but t. */
  lemma PromotedElsewhere(bb: seq<Bitboard>, side: int, q: int, t: Square, r: int, u: Square)
    requires |bb| == 12 && (side == White || side == Black) && 0 <= q < 12 && 0 <= r < 12 && u != t
    ensures Bit(Promoted(bb, side, q, t)[r], u) <==> Bit(bb[r], u)
  {
    var pawn := PieceOf(0, side);
    var b := bb[pawn := PopBitToggle(bb[pawn], t)];
    PopOther(bb[pawn], t, u);
    SetOther(b[q], t, u);
  }

  /** After the piece moves and any capture, the promotion's conditions still hold at the target. */
  lemma FitsPromotion(bb: seq<Bitboard>, d: Fields, side: int)
    requires |bb| == 12 && (side == White || side == Black) && InRange(d, side)
    requires MoverOk(bb, d, side) && PromotionOk(bb, d, side) && d.promoted != 0
    ensures var b := AfterCapture(bb, d, side);
            Bit(b[PieceOf(0, side)], d.target) && d.promoted != PieceOf(0, side) && !Bit(b[d.promoted], d.target)
  {
    var b1 := AfterMove(bb, d);
    RelocatedAt(bb, d.piece, d.source, d.target);
    assert b1[d.promoted] == bb[d.promoted];
    if d.capture {
      CapturedOwn(b1, d.target, side, d.piece);
      CapturedOwn(b1, d.target, side, d.promoted);
    }
  }

  /** The opponent pawn behind the target survives the earlier steps. */
  lemma FitsEnPassant(bb: seq<Bitboard>, d: Fields, side: int)
    requires |bb| == 12 && (side == White || side == Black) && InRange(d, side)
    requires MoverOk(bb, d, side) && PromotionOk(bb, d, side) && EnPassantOk(bb, d, side) && d.enPassant
    ensures Bit(AfterPromotion(bb, d, side)[PieceOf(0, 1 - side)], Behind(side, d.target))
  {
    var v := PieceOf(0, 1 - side);
    var u := Behind(side, d.target);
    var b1 := AfterMove(bb, d);
    assert b1[v] == bb[v];
    var b2 := AfterCapture(bb, d, side);
    if d.capture {
      CapturedElsewhere(b1, d.target, side, v, u);
    }
    if d.promoted != 0 {
      PromotedOther(b2, side, d.promoted, d.target, v);
    }
  }

  /** Rook boards that agree off t keep a rook ready for a move to t. */
  lemma RookReadyKept(b: seq<Bitboard>, b': seq<Bitboard>, t: Square)
    requires |b| == 12 && |b'| == 12 && RookReady(b, t)
    requires forall u: Square :: u != t ==> (Bit(b'[WhiteRook], u) <==> Bit(b[WhiteRook], u))
    requires forall u: Square :: u != t ==> (Bit(b'[BlackRook], u) <==> Bit(b[BlackRook], u))
    ensures RookReady(b', t)
  {
  }

  /** A capture keeps a rook ready. */
  lemma CapturedRookReady(b: seq<Bitboard>, t: Square, side: int)
    requires |b| == 12 && (side == White || side == Black) && RookReady(b, t)
    ensures RookReady(Captured(b, t, side), t)
  {
    var b' := Captured(b, t, side);
    forall u: Square | u != t
      ensures Bit(b'[WhiteRook], u) <==> Bit(b[WhiteRook], u)
    {
      CapturedElsewhere(b, t, side, WhiteRook, u);
    }
    forall u: Square | u != t
      ensures Bit(b'[BlackRook], u) <==> Bit(b[BlackRook], u)
    {
      CapturedElsewhere(b, t, side, BlackRook, u);
    }
    RookReadyKept(b, b', t);
  }

  /** The rook of a castling move is still ready when its turn comes. */
  lemma FitsCastling(bb: seq<Bitboard>, d: Fields, side: int)
    requires |bb| == 12 && (side == White || side == Black) && InRange(d, side)
    requires PromotionOk(bb, d, side) && CastlingOk(bb, d, side) && d.castling
    ensures RookReady(AfterEnPassant(bb, d, side), d.target)
  {
    var b1 := AfterMove(bb, d);
    assert b1[WhiteRook] == bb[WhiteRook] && b1[BlackRook] == bb[BlackRook];
    assert RookReady(b1, d.target);
    var b2 := AfterCapture(bb, d, side);
    if d.capture {
      CapturedRookReady(b1, d.target, side);
    }
    assert AfterPromotion(bb, d, side) == b2;
    if d.enPassant {
      var b4 := TakenEnPassant(b2, side, d.target);
      assert b4[WhiteRook] == b2[WhiteRook] && b4[BlackRook] == b2[BlackRook];
    }
  }

  /** A nonempty board stays nonempty through every step of a move. */
  lemma NonEmptyAfterMove(bb: seq<Bitboard>, d: Fields, r: int)
    requires |bb| == 12 && 0 <= r < 12 && bb[r] != 0
    ensures AfterMove(bb, d)[r] != 0
  {
    if r == d.piece {
      RelocatedAt(bb, d.piece, d.source, d.target);
    }
  }

  lemma NonEmptyAfterCapture(bb: seq<Bitboard>, d: Fields, side: int, r: int)
    requires |bb| == 12 && (side == White || side == Black) && 0 <= r < 12 && SideOf(r) == side
    requires AfterMove(bb, d)[r] != 0
    ensures AfterCapture(bb, d, side)[r] != 0
  {
    if d.capture {
      CapturedOwn(AfterMove(bb, d), d.target, side, r);
    }
  }

  lemma NonEmptyPromoted(b: seq<Bitboard>, side: int, q: int, t: Square, r: int)
    requires |b| == 12 && (side == White || side == Black) && 0 <= q < 12 && 0 <= r < 12
    requires r != PieceOf(0, side) && b[r] != 0
    ensures Promoted(b, side, q, t)[r] != 0
  {
    if r == q {
      assert Bit(Promoted(b, side, q, t)[r], t);
      assert !Bit(0, t);
    }
  }

  /** The mover's king survives the move: no step takes it off the board. */
  lemma KingSurvives(bb: seq<Bitboard>, d: Fields, side: int)
    requires |bb| == 12 && (side == White || side == Black) && InRange(d, side)
    requires bb[PieceOf(5, side)] != 0
    ensures Played(bb, d, side)[PieceOf(5, side)] != 0
  {
    var k := PieceOf(5, side);
    NonEmptyAfterMove(bb, d, k);
    NonEmptyAfterCapture(bb, d, side, k);
    if d.promoted != 0 {
      NonEmptyPromoted(AfterCapture(bb, d, side), side, d.promoted, d.target, k);
    }
    assert AfterEnPassant(bb, d, side)[k] == AfterPromotion(bb, d, side)[k];
  }

  // ---------------------------------------------------------------------
  // What each step does to the Zobrist key
  // ---------------------------------------------------------------------

  /** The key of piece p on square s. */
  function PieceKey(k: Keys, p: int, s: Square): bv64
    requires WellSized(k) && 0 <= p < 12
  {
    k.piece[64 * p + s as int]
  }

  // The key `make_move` has computed after each step, from the key h it started with.
  function HashAfterMove(h: bv64, k: Keys, d: Fields): bv64
    requires WellSized(k)
  {
    Xor(Xor(h, PieceKey(k, d.piece, d.source)), PieceKey(k, d.piece, d.target))
  }

  function HashCaptured(h: bv64, k: Keys, b: seq<Bitboard>, t: Square, side: int): bv64
    requires WellSized(k) && |b| == 12 && (side == White || side == Black)
  {
    var lo := OpponentBase(side);
    var q := FirstHolder(b, t, lo, lo + 6);
    if q < lo + 6 then Xor(h, PieceKey(k, q, t)) else h
  }

  function HashAfterCapture(h: bv64, k: Keys, bb: seq<Bitboard>, d: Fields, side: int): bv64
    requires WellSized(k) && |bb| == 12 && (side == White || side == Black)
  {
    var h1 := HashAfterMove(h, k, d);
    if d.capture then HashCaptured(h1, k, AfterMove(bb, d), d.target, side) else h1
  }

  function HashAfterPromotion(h: bv64, k: Keys, bb: seq<Bitboard>, d: Fields, side: int): bv64
    requires WellSized(k) && |bb| == 12 && (side == White || side == Black) && InRange(d, side)
  {
    var h2 := HashAfterCapture(h, k, bb, d, side);
    if d.promoted != 0 then Xor(Xor(h2, PieceKey(k, PieceOf(0, side), d.target)), PieceKey(k, d.promoted, d.target))
    else h2
  }

  function HashAfterEnPassant(h: bv64, k: Keys, bb: seq<Bitboard>, d: Fields, side: int): bv64
    requires WellSized(k) && |bb| == 12 && (side == White || side == Black) && InRange(d, side)
  {
    var h3 := HashAfterPromotion(h, k, bb, d, side);
    if d.enPassant then Xor(h3, PieceKey(k, PieceOf(0, 1 - side), Behind(side, d.target))) else h3
  }

  function HashCastledRook(h: bv64, k: Keys, t: Square): bv64
    requires WellSized(k)
  {
    if t == G1 then Xor(Xor(h, PieceKey(k, WhiteRook, H1)), PieceKey(k, WhiteRook, F1))
    else if t == C1 then Xor(Xor(h, PieceKey(k, WhiteRook, A1)), PieceKey(k, WhiteRook, D1))
    else if t == G8 then Xor(Xor(h, PieceKey(k, BlackRook, H8)), PieceKey(k, BlackRook, F8))
    else if t == C8 then Xor(Xor(h, PieceKey(k, BlackRook, A8)), PieceKey(k, BlackRook, D8))
    else h
  }

  function HashPlayed(h: bv64, k: Keys, bb: seq<Bitboard>, d: Fields, side: int): bv64
    requires WellSized(k) && |bb| == 12 && (side == White || side == Black) && InRange(d, side)
  {
    var h4 := HashAfterEnPassant(h, k, bb, d, side);
    if d.castling then HashCastledRook(h4, k, d.target) else h4
  }

  /** Taking a piece off its square XORs its key into the position key. */
  lemma PopKey(k: Keys, bb: seq<Bitboard>, p: int, s: Square, side: int, ep: int, c: Rights)
    requires WellSized(k) && |bb| == 12 && 0 <= ep <= NoSquare && 0 <= p < 12 && Bit(bb[p], s)
    ensures PositionKey(k, bb[p := PopBitToggle(bb[p], s)], side, ep, c) ==
            Xor(PositionKey(k, bb, side, ep, c), PieceKey(k, p, s))
  {
    PopBitVariantsAgree(bb[p], s);
    PositionKeyPop(k, bb, p, s, side, ep, c);
  }

  /** Moving a piece XORs the keys of both its squares into the position key. */
  lemma RelocateKey(k: Keys, bb: seq<Bitboard>, p: int, f: Square, t: Square, side: int, ep: int, c: Rights)
    requires WellSized(k) && |bb| == 12 && 0 <= ep <= NoSquare && 0 <= p < 12
    requires Bit(bb[p], f) && (f == t || !Bit(bb[p], t))
    ensures PositionKey(k, Relocated(bb, p, f, t), side, ep, c) ==
            Xor(Xor(PositionKey(k, bb, side, ep, c), PieceKey(k, p, f)), PieceKey(k, p, t))
  {
    PopKey(k, bb, p, f, side, ep, c);
    PopOtherOrSame(bb[p], f, t);
    SetKey(k, bb[p := PopBitToggle(bb[p], f)], p, t, side, ep, c);
    RelocatedTwoSteps(bb, p, f, t);
  }

  /** Putting a piece on a free square XORs its key into the position key. */
  lemma SetKey(k: Keys, bb: seq<Bitboard>, p: int, s: Square, side: int, ep: int, c: Rights)
    requires WellSized(k) && |bb| == 12 && 0 <= ep <= NoSquare && 0 <= p < 12 && !Bit(bb[p], s)
    ensures PositionKey(k, bb[p := SetBit(bb[p], s)], side, ep, c) ==
            Xor(PositionKey(k, bb, side, ep, c), PieceKey(k, p, s))
  {
    PositionKeySet(k, bb, p, s, side, ep, c);
  }

  /** `Relocated` is the pop followed by the set. */
  lemma RelocatedTwoSteps(bb: seq<Bitboard>, p: int, f: Square, t: Square)
    requires 0 <= p < |bb|
    ensures var b1 := bb[p := PopBitToggle(bb[p], f)]; Relocated(bb, p, f, t) == b1[p := SetBit(b1[p], t)]
  {
    var b1 := bb[p := PopBitToggle(bb[p], f)];
    assert b1[p := SetBit(b1[p], t)] == Relocated(bb, p, f, t);
  }

  lemma PopOtherOrSame(b: Bitboard, f: Square, t: Square)
    requires f == t || !Bit(b, t)
    ensures !Bit(PopBitToggle(b, f), t)
  {
  }

  /** The capture step XORs the captured piece's key, if any, into the position key. */
  lemma CapturedKey(k: Keys, b: seq<Bitboard>, t: Square, side: int, ep: int, c: Rights)
    requires WellSized(k) && |b| == 12 && 0 <= ep <= NoSquare && (side == White || side == Black)
    ensures PositionKey(k, Captured(b, t, side), side, ep, c) == HashCaptured(PositionKey(k, b, side, ep, c), k, b, t, side)
  {
    var lo := OpponentBase(side);
    var q := FirstHolder(b, t, lo, lo + 6);
    if q < lo + 6 {
      PopKey(k, b, q, t, side, ep, c);
    }
  }

  /** A promotion XORs the pawn's key and the new piece's key at the target into the position key. */
  lemma PromoteKey(k: Keys, bb: seq<Bitboard>, side: int, q: int, t: Square, ep: int, c: Rights)
    requires WellSized(k) && |bb| == 12 && 0 <= ep <= NoSquare && (side == White || side == Black) && 0 <= q < 12
    requires Bit(bb[PieceOf(0, side)], t) && q != PieceOf(0, side) && !Bit(bb[q], t)
    ensures PositionKey(k, Promoted(bb, side, q, t), side, ep, c) ==
            Xor(Xor(PositionKey(k, bb, side, ep, c), PieceKey(k, PieceOf(0, side), t)), PieceKey(k, q, t))
  {
    var pawn := PieceOf(0, side);
    PopKey(k, bb, pawn, t, side, ep, c);
    var b1 := bb[pawn := PopBitToggle(bb[pawn], t)];
    assert b1[q] == bb[q];
    PositionKeySet(k, b1, q, t, side, ep, c);
  }

  /** The rook move of a castling move XORs the rook's two keys into the position key. */
  lemma CastledRookKey(k: Keys, b: seq<Bitboard>, t: Square, side: int, ep: int, c: Rights)
    requires WellSized(k) && |b| == 12 && 0 <= ep <= NoSquare && RookReady(b, t)
    ensures PositionKey(k, CastledRook(b, t), side, ep, c) == HashCastledRook(PositionKey(k, b, side, ep, c), k, t)
  {
    if t == G1 {
      RelocateKey(k, b, WhiteRook, H1, F1, side, ep, c);
    } else if t == C1 {
      RelocateKey(k, b, WhiteRook, A1, D1, side, ep, c);
    } else if t == G8 {
      RelocateKey(k, b, BlackRook, H8, F8, side, ep, c);
    } else if t == C8 {
      RelocateKey(k, b, BlackRook, A8, D8, side, ep, c);
    }
  }

  /** The first two steps keep the key: moving the piece and removing a capture. */
  lemma KeyAfterCapture(k: Keys, bb: seq<Bitboard>, d: Fields, side: int, ep: int, c: Rights)
    requires WellSized(k) && |bb| == 12 && 0 <= ep <= NoSquare && (side == White || side == Black)
    requires MoverOk(bb, d, side)
    ensures PositionKey(k, AfterCapture(bb, d, side), side, ep, c) ==
            HashAfterCapture(PositionKey(k, bb, side, ep, c), k, bb, d, side)
  {
    RelocateKey(k, bb, d.piece, d.source, d.target, side, ep, c);
    if d.capture {
      CapturedKey(k, AfterMove(bb, d), d.target, side, ep, c);
    }
  }

  /** The promotion step keeps the key. */
  lemma KeyAfterPromotion(k: Keys, bb: seq<Bitboard>, d: Fields, side: int, ep: int, c: Rights)
    requires WellSized(k) && |bb| == 12 && 0 <= ep <= NoSquare && (side == White || side == Black) && InRange(d, side)
    requires MoverOk(bb, d, side) && PromotionOk(bb, d, side)
    ensures PositionKey(k, AfterPromotion(bb, d, side), side, ep, c) ==
            HashAfterPromotion(PositionKey(k, bb, side, ep, c), k, bb, d, side)
  {
    KeyAfterCapture(k, bb, d, side, ep, c);
    if d.promoted != 0 {
      FitsPromotion(bb, d, side);
      PromoteKey(k, AfterCapture(bb, d, side), side, d.promoted, d.target, ep, c);
    }
  }

  /** The en-passant step keeps the key. */
  lemma KeyAfterEnPassant(k: Keys, bb: seq<Bitboard>, d: Fields, side: int, ep: int, c: Rights)
    requires WellSized(k) && |bb| == 12 && 0 <= ep <= NoSquare && (side == White || side == Black) && InRange(d, side)
    requires MoverOk(bb, d, side) && PromotionOk(bb, d, side) && EnPassantOk(bb, d, side)
    ensures PositionKey(k, AfterEnPassant(bb, d, side), side, ep, c) ==
            HashAfterEnPassant(PositionKey(k, bb, side, ep, c), k, bb, d, side)
  {
    KeyAfterPromotion(k, bb, d, side, ep, c);
    if d.enPassant {
      FitsEnPassant(bb, d, side);
      PopKey(k, AfterPromotion(bb, d, side), PieceOf(0, 1 - side), Behind(side, d.target), side, ep, c);
    }
  }

  /**
   * For a move that fits the board, the key `make_move` computes
   * step by step is the key of the position its steps produce.
   */
  lemma PlayedKey(k: Keys, bb: seq<Bitboard>, d: Fields, side: int, ep: int, c: Rights)
    requires WellSized(k) && |bb| == 12 && 0 <= ep <= NoSquare && (side == White || side == Black) && InRange(d, side)
    requires Fits(bb, d, side)
    ensures PositionKey(k, Played(bb, d, side), side, ep, c) == HashPlayed(PositionKey(k, bb, side, ep, c), k, bb, d, side)
  {
    KeyAfterEnPassant(k, bb, d, side, ep, c);
    if d.castling {
      FitsCastling(bb, d, side);
      CastledRookKey(k, AfterEnPassant(bb, d, side), d.target, side, ep, c);
    }
  }

  // ---------------------------------------------------------------------
  // The rest of the state after a move
  // ---------------------------------------------------------------------

  /** The en-passant square after the move: behind a double-pushed pawn, else none. */
  function NewEnPassant(d: Fields, side: int): (e: int)
    requires (side == White || side == Black) && InRange(d, side)
    ensures 0 <= e <= NoSquare
    ensures e != NoSquare <==> d.double
  {
    if d.double then Behind(side, d.target) as int else NoSquare
  }

  /** `castle &= castling_rights[source]; castle &= castling_rights[target]`. */
  function NewRights(c: Rights, d: Fields): Rights
  {
    c & CastlingRights[d.source as int] & CastlingRights[d.target as int]
  }

  /** The fifty-move counter restarts on a pawn move or a capture and counts up otherwise. */
  function NewFifty(d: Fields, fifty: int): int
  {
    if d.piece == WhitePawn || d.piece == BlackPawn || d.capture then 0 else fifty + 1
  }

  /** The key of the castling rights c. */
  function CastleKey(k: Keys, c: Rights): bv64
    requires WellSized(k)
  {
    k.castle[c as int]
  }

  /** The key after the en-passant square changes from e to e'. */
  function EnPassantHash(h: bv64, k: Keys, e: int, e': int): bv64
    requires WellSized(k) && 0 <= e <= NoSquare && 0 <= e' <= NoSquare
  {
    var h1 := if e != NoSquare then Xor(h, k.enPassant[e]) else h;
    if e' != NoSquare then Xor(h1, k.enPassant[e']) else h1
  }

  /** A saved state is well formed. */
  ghost predicate SnapshotOk(s: Snapshot, k: Keys)
  {
    |s.bitboards| == 12 && (s.side == White || s.side == Black) && 0 <= s.enPassant <= NoSquare && WellSized(k)
  }

  /**
   * The key after the en-passant capture step, through the remaining
   * steps: the en-passant square, the castling rook, the rights and the
   * side to move.
   */
  function TailHash(h4: bv64, k: Keys, d: Fields, e: int, e': int, c: Rights, c': Rights): bv64
    requires WellSized(k) && 0 <= e <= NoSquare && 0 <= e' <= NoSquare
  {
    var h5 := EnPassantHash(h4, k, e, e');
    var h6 := if d.castling then HashCastledRook(h5, k, d.target) else h5;
    Xor(Xor(Xor(h6, CastleKey(k, c)), CastleKey(k, c')), k.side)
  }

  /**
   * The state after `make_move` has played d on s, before the legality
   * check; every field is as `make_move` assigns it.
   */
  ghost function Next(s: Snapshot, d: Fields, k: Keys): (n: Snapshot)
    requires SnapshotOk(s, k) && InRange(d, s.side)
    ensures SnapshotOk(n, k)
  {
    Snapshot(Played(s.bitboards, d, s.side), Occupancies(Played(s.bitboards, d, s.side)), 1 - s.side,
             NewEnPassant(d, s.side), NewRights(s.castle, d), NewFifty(d, s.fiftyMove),
             TailHash(HashAfterEnPassant(s.hashKey, k, s.bitboards, d, s.side), k, d,
                      s.enPassant, NewEnPassant(d, s.side), s.castle, NewRights(s.castle, d)))
  }

  /** The key of a saved state is the Zobrist key of its position. */
  ghost predicate KeyOk(s: Snapshot, k: Keys)
    requires SnapshotOk(s, k)
  {
    s.hashKey == PositionKey(k, s.bitboards, s.side, s.enPassant, s.castle)
  }

  /** Changing the en-passant square as `make_move` does keeps the key. */
  lemma EnPassantKeyStep(k: Keys, bb: seq<Bitboard>, side: int, e: int, e': int, c: Rights)
    requires WellSized(k) && |bb| == 12 && 0 <= e <= NoSquare && 0 <= e' <= NoSquare
    ensures PositionKey(k, bb, side, e', c) == EnPassantHash(PositionKey(k, bb, side, e, c), k, e, e')
  {
    PositionKeyEnPassant(k, bb, side, e, e', c);
    var h := PositionKey(k, bb, side, e, c);
    XorZero(h);
    XorZero(Xor(h, EnPassantKey(k, e)));
  }

  /** The steps after the en-passant capture keep the key. */
  lemma TailKey(k: Keys, b4: seq<Bitboard>, d: Fields, side: int, e: int, e': int, c: Rights, c': Rights)
    requires WellSized(k) && |b4| == 12 && 0 <= e <= NoSquare && 0 <= e' <= NoSquare
    requires side == White || side == Black
    requires d.castling ==> RookReady(b4, d.target)
    ensures PositionKey(k, if d.castling then CastledRook(b4, d.target) else b4, 1 - side, e', c') ==
            TailHash(PositionKey(k, b4, side, e, c), k, d, e, e', c, c')
  {
    EnPassantKeyStep(k, b4, side, e, e', c);
    if d.castling {
      CastledRookKey(k, b4, d.target, side, e', c);
    }
    var played := if d.castling then CastledRook(b4, d.target) else b4;
    PositionKeyRights(k, played, side, e', c, c');
    PositionKeySide(k, played, side, e', c');
  }

  /** The key of the played boards, from the key before the move. */
  lemma PlayedTailKey(k: Keys, bb: seq<Bitboard>, d: Fields, side: int, e: int, e': int, c: Rights, c': Rights, h: bv64)
    requires WellSized(k) && |bb| == 12 && 0 <= e <= NoSquare && 0 <= e' <= NoSquare
    requires (side == White || side == Black) && InRange(d, side) && Fits(bb, d, side)
    requires h == PositionKey(k, bb, side, e, c)
    ensures PositionKey(k, Played(bb, d, side), 1 - side, e', c') ==
            TailHash(HashAfterEnPassant(h, k, bb, d, side), k, d, e, e', c, c')
  {
    KeyAfterEnPassant(k, bb, d, side, e, c);
    if d.castling {
      FitsCastling(bb, d, side);
    }
    TailKey(k, AfterEnPassant(bb, d, side), d, side, e, e', c, c');
  }

  /**
   * The incremental key is right: from a state whose key is its Zobrist
   * key, a move that fits the board leads to a state whose key is the
   * Zobrist key of the boards, side, en-passant square and rights that
   * `Next` gives it.
   */
  lemma NextKeyOk(s: Snapshot, d: Fields, k: Keys)
    requires SnapshotOk(s, k) && InRange(d, s.side) && KeyOk(s, k) && Fits(s.bitboards, d, s.side)
    ensures Next(s, d, k).hashKey ==
            PositionKey(k, Played(s.bitboards, d, s.side), 1 - s.side, NewEnPassant(d, s.side), NewRights(s.castle, d))
  {
    PlayedTailKey(k, s.bitboards, d, s.side, s.enPassant, NewEnPassant(d, s.side), s.castle, NewRights(s.castle, d), s.hashKey);
  }

  /** Each field of `Next`, as a term of its own. */
  lemma NextFields(s: Snapshot, d: Fields, k: Keys)
    requires SnapshotOk(s, k) && InRange(d, s.side)
    ensures var n := Next(s, d, k);
      n.bitboards == Played(s.bitboards, d, s.side) && n.occupancies == Occupancies(n.bitboards) &&
      n.side == 1 - s.side && n.enPassant == NewEnPassant(d, s.side) && n.castle == NewRights(s.castle, d) &&
      n.fiftyMove == NewFifty(d, s.fiftyMove) &&
      n.hashKey == TailHash(HashAfterEnPassant(s.hashKey, k, s.bitboards, d, s.side), k, d, s.enPassant, n.enPassant, s.castle, n.castle)
  {
  }

  /** A castling right survives a move iff it was held and neither the source nor the target is tied to it. */
  lemma NewRightsKeep(c: Rights, d: Fields, r: Rights)
    requires r == WhiteKingside || r == WhiteQueenside || r == BlackKingside || r == BlackQueenside
    ensures NewRights(c, d) & r != 0 <==>
            c & r != 0 && TiedRights(d.source as int) & r == 0 && TiedRights(d.target as int) & r == 0
  {
    CastlingUpdate(c, d.source as int, r);
    CastlingUpdate(c & CastlingRights[d.source as int], d.target as int, r);
  }

  /** The mover's king square, `get_ls1b_index` of its board. */
  function KingSquare(bb: seq<Bitboard>, side: int): (sq: Square)
    requires |bb| == 12 && (side == White || side == Black) && bb[PieceOf(5, side)] != 0
    ensures Bit(bb[PieceOf(5, side)], sq)
  {
    LowSq(bb[PieceOf(5, side)])
  }

  // ---------------------------------------------------------------------
  // Null moves
  // ---------------------------------------------------------------------

  /** The key after `make_null_move`: the en-passant key out, the side key in. */
  function NullHash(h: bv64, k: Keys, ep: int): bv64
    requires WellSized(k) && 0 <= ep <= NoSquare
  {
    Xor(EnPassantHash(h, k, ep, NoSquare), k.side)
  }

  /**
   * A null move keeps the incremental key right: it is the Zobrist key of
   * the same boards with the other side to move and no en-passant square.
   */
  lemma NullMoveKey(k: Keys, bb: seq<Bitboard>, side: int, ep: int, c: Rights)
    requires WellSized(k) && |bb| == 12 && 0 <= ep <= NoSquare && (side == White || side == Black)
    ensures PositionKey(k, bb, 1 - side, NoSquare, c) == NullHash(PositionKey(k, bb, side, ep, c), k, ep)
  {
    EnPassantKeyStep(k, bb, side, ep, NoSquare, c);
    PositionKeySide(k, bb, side, NoSquare, c);
  }

  /**
   * `unmake_null_move` after `make_null_move` flips the side key back but
   * not the en-passant key: the key comes back only when there was no
   * en-passant square, and otherwise differs by that square's key.
   */
  lemma NullRoundTrip(h: bv64, k: Keys, ep: int)
    requires WellSized(k) && 0 <= ep <= NoSquare
    ensures Xor(NullHash(h, k, ep), k.side) == if ep == NoSquare then h else Xor(h, k.enPassant[ep])
  {
    XorTwice(EnPassantHash(h, k, ep, NoSquare), k.side);
  }

  // ---------------------------------------------------------------------
  // The position
  // ---------------------------------------------------------------------

  class Board {
    var bitboards: seq<Bitboard>
    var occupancies: seq<Bitboard>
    var side: int
    var enPassant: int
    var castle: Rights
    var fiftyMove: int
    var hashKey: bv64
    /** The Zobrist key tables, filled once by `init_hash_keys`. */
    const keys: Keys

    ghost predicate Valid()
      reads this
    {
      |bitboards| == 12 && |occupancies| == 3 && (side == White || side == Black) &&
      0 <= enPassant <= NoSquare && WellSized(keys)
    }

    /** `hash_key` is the Zobrist key of the position. */
    ghost predicate HashOk()
      reads this
      requires Valid()
    {
      hashKey == PositionKey(keys, bitboards, side, enPassant, castle)
    }

    /** `copy_board`: the saved state. */
    function Save(): Snapshot
      reads this
    {
      Snapshot(bitboards, occupancies, side, enPassant, castle, fiftyMove, hashKey)
    }

    /** An empty board with the given key tables. */
    constructor (keys: Keys)
      requires WellSized(keys)
      ensures Valid() && this.keys == keys
      ensures bitboards == seq(12, _ => 0) && occupancies == [0, 0, 0]
      ensures side == White && enPassant == NoSquare && castle == 0 && fiftyMove == 0 && hashKey == 0
    {
      this.keys := keys;
      bitboards := seq(12, _ => 0);
      occupancies := [0, 0, 0];
      side := White;
      enPassant := NoSquare;
      castle := 0;
      fiftyMove := 0;
      hashKey := 0;
    }

    /** `take_back`: restore every saved field. */
    method TakeBack(s: Snapshot)
      modifies this
      ensures Save() == s
    {
      bitboards := s.bitboards;
      occupancies := s.occupancies;
      side := s.side;
      enPassant := s.enPassant;
      castle := s.castle;
      fiftyMove := s.fiftyMove;
      hashKey := s.hashKey;
    }

    /** Lift piece p from `from`, put it on `to`, and XOR both piece-square keys. */
    method MovePiece(p: int, from: Square, to: Square)
      requires Valid() && 0 <= p < 12
      modifies this
      ensures occupancies == old(occupancies) && side == old(side) && enPassant == old(enPassant)
      ensures castle == old(castle) && fiftyMove == old(fiftyMove) && Valid()
      ensures bitboards == Relocated(old(bitboards), p, from, to)
      ensures hashKey == Xor(Xor(old(hashKey), PieceKey(keys, p, from)), PieceKey(keys, p, to))
    {
      var lifted := PopBitToggle(bitboards[p], from);
      bitboards := bitboards[p := SetBit(lifted, to)];
      hashKey := Xor(hashKey, PieceKey(keys, p, from));
      hashKey := Xor(hashKey, PieceKey(keys, p, to));
    }

    /**
     * The capture loop's search: the first opponent board, from pawn to
     * king, that has the target, or the end of the opponent's range.
     */
    method FindCaptured(t: Square) returns (victim: int)
      requires Valid()
      ensures victim == FirstHolder(bitboards, t, OpponentBase(side), OpponentBase(side) + 6)
    {
      var lo := OpponentBase(side);
      victim := lo;
      while victim < lo + 6
        invariant lo <= victim <= lo + 6
        invariant FirstHolder(bitboards, t, lo, lo + 6) == FirstHolder(bitboards, t, victim, lo + 6)
      {
        if GetBit(bitboards[victim], t) != 0 {
          return;
        }
        victim := victim + 1;
      }
    }

    /** The capture loop: the piece found on the target is popped and its key XOR-ed out. */
    method RemoveCaptured(t: Square)
      requires Valid()
      modifies this
      ensures occupancies == old(occupancies) && side == old(side) && enPassant == old(enPassant)
      ensures castle == old(castle) && fiftyMove == old(fiftyMove) && Valid()
      ensures bitboards == Captured(old(bitboards), t, side)
      ensures hashKey == HashCaptured(old(hashKey), keys, old(bitboards), t, side)
    {
      var victim := FindCaptured(t);
      if victim < OpponentBase(side) + 6 {
        PopPiece(victim, t);
      }
    }

    /** `pop_bit` of piece p on s, with its key XOR-ed into `hash_key`. */
    method PopPiece(p: int, s: Square)
      requires Valid() && 0 <= p < 12
      modifies this
      ensures occupancies == old(occupancies) && side == old(side) && enPassant == old(enPassant)
      ensures castle == old(castle) && fiftyMove == old(fiftyMove) && Valid()
      ensures bitboards == old(bitboards)[p := PopBitToggle(old(bitboards)[p], s)]
      ensures hashKey == Xor(old(hashKey), PieceKey(keys, p, s))
    {
      bitboards := bitboards[p := PopBitToggle(bitboards[p], s)];
      hashKey := Xor(hashKey, PieceKey(keys, p, s));
    }

    /** The promotion: the mover's pawn on t becomes the promoted piece. */
    method Promote(promoted: int, t: Square)
      requires Valid() && 0 <= promoted < 12
      modifies this
      ensures occupancies == old(occupancies) && side == old(side) && enPassant == old(enPassant)
      ensures castle == old(castle) && fiftyMove == old(fiftyMove) && Valid()
      ensures bitboards == Promoted(old(bitboards), side, promoted, t)
      ensures hashKey == Xor(Xor(old(hashKey), PieceKey(keys, PieceOf(0, side), t)), PieceKey(keys, promoted, t))
    {
      var pawn := PieceOf(0, side);
      bitboards := bitboards[pawn := PopBitToggle(bitboards[pawn], t)];
      bitboards := bitboards[promoted := SetBit(bitboards[promoted], t)];
      hashKey := Xor(hashKey, PieceKey(keys, pawn, t));
      hashKey := Xor(hashKey, PieceKey(keys, promoted, t));
    }

    /** The en-passant capture: the opponent pawn behind the target is removed. */
    method RemoveEnPassant(t: Square)
      requires Valid()
      requires side == White ==> t < 56
      requires side != White ==> t >= 8
      modifies this
      ensures occupancies == old(occupancies) && side == old(side) && enPassant == old(enPassant)
      ensures castle == old(castle) && fiftyMove == old(fiftyMove) && Valid()
      ensures bitboards == TakenEnPassant(old(bitboards), side, t)
      ensures hashKey == Xor(old(hashKey), PieceKey(keys, PieceOf(0, 1 - side), Behind(side, t)))
    {
      PopPiece(PieceOf(0, 1 - side), Behind(side, t));
    }

    /** The rook half of a castling move, chosen by the king's target. */
    method MoveCastlingRook(t: Square)
      requires Valid()
      modifies this
      ensures occupancies == old(occupancies) && side == old(side) && enPassant == old(enPassant)
      ensures castle == old(castle) && fiftyMove == old(fiftyMove) && Valid()
      ensures bitboards == CastledRook(old(bitboards), t)
      ensures hashKey == HashCastledRook(old(hashKey), keys, t)
    {
      if t == G1 {
        MovePiece(WhiteRook, H1, F1);
      } else if t == C1 {
        MovePiece(WhiteRook, A1, D1);
      } else if t == G8 {
        MovePiece(BlackRook, H8, F8);
      } else if t == C8 {
        MovePiece(BlackRook, A8, D8);
      }
    }

    // The steps of `make_move` after the piece has moved, each stated
    // against the board b0 and the key h0 the move started from.

    /** The capture step: the loop runs when the move's capture flag is set. */
    method CaptureStep(d: Fields, ghost b0: seq<Bitboard>, ghost h0: bv64)
      requires Valid() && |b0| == 12
      requires bitboards == AfterMove(b0, d) && hashKey == HashAfterMove(h0, keys, d)
      modifies this
      ensures occupancies == old(occupancies) && side == old(side) && enPassant == old(enPassant)
      ensures castle == old(castle) && fiftyMove == old(fiftyMove) && Valid()
      ensures bitboards == AfterCapture(b0, d, side) && hashKey == HashAfterCapture(h0, keys, b0, d, side)
    {
      if d.capture {
        RemoveCaptured(d.target);
      }
    }

    /** The promotion step, when the move names a promoted piece. */
    method PromotionStep(d: Fields, ghost b0: seq<Bitboard>, ghost h0: bv64)
      requires Valid() && |b0| == 12 && InRange(d, side)
      requires bitboards == AfterCapture(b0, d, side) && hashKey == HashAfterCapture(h0, keys, b0, d, side)
      modifies this
      ensures occupancies == old(occupancies) && side == old(side) && enPassant == old(enPassant)
      ensures castle == old(castle) && fiftyMove == old(fiftyMove) && Valid()
      ensures bitboards == AfterPromotion(b0, d, side) && hashKey == HashAfterPromotion(h0, keys, b0, d, side)
    {
      if d.promoted != 0 {
        Promote(d.promoted, d.target);
      }
    }

    /** The en-passant capture step, when the move's en-passant flag is set. */
    method EnPassantStep(d: Fields, ghost b0: seq<Bitboard>, ghost h0: bv64)
      requires Valid() && |b0| == 12 && InRange(d, side)
      requires bitboards == AfterPromotion(b0, d, side) && hashKey == HashAfterPromotion(h0, keys, b0, d, side)
      modifies this
      ensures occupancies == old(occupancies) && side == old(side) && enPassant == old(enPassant)
      ensures castle == old(castle) && fiftyMove == old(fiftyMove) && Valid()
      ensures bitboards == AfterEnPassant(b0, d, side) && hashKey == HashAfterEnPassant(h0, keys, b0, d, side)
    {
      if d.enPassant {
        assert (side == White ==> d.target < 56) && (side != White ==> d.target >= 8);
        RemoveEnPassant(d.target);
        assert bitboards == TakenEnPassant(AfterPromotion(b0, d, side), side, d.target);
      }
    }

    /** The castling step, when the move's castling flag is set. */
    method CastlingStep(d: Fields, ghost b0: seq<Bitboard>, ghost h0: bv64, ghost side0: int)
      requires Valid() && |b0| == 12 && (side0 == White || side0 == Black) && InRange(d, side0)
      requires bitboards == AfterEnPassant(b0, d, side0)
      modifies this
      ensures occupancies == old(occupancies) && side == old(side) && enPassant == old(enPassant)
      ensures castle == old(castle) && fiftyMove == old(fiftyMove) && Valid()
      ensures bitboards == Played(b0, d, side0)
      ensures hashKey == if d.castling then HashCastledRook(old(hashKey), keys, d.target) else old(hashKey)
    {
      if d.castling {
        MoveCastlingRook(d.target);
      }
    }

    /** The en-passant bookkeeping: the old square's key out, the new square's key in. */
    method UpdateEnPassant(d: Fields)
      requires Valid() && InRange(d, side)
      modifies this
      ensures bitboards == old(bitboards) && occupancies == old(occupancies) && side == old(side)
      ensures castle == old(castle) && fiftyMove == old(fiftyMove) && Valid()
      ensures enPassant == NewEnPassant(d, side)
      ensures hashKey == EnPassantHash(old(hashKey), keys, old(enPassant), enPassant)
    {
      ClearEnPassant();
      if d.double {
        SetEnPassant(Behind(side, d.target));
      }
    }

    /** The old en-passant square, if any, cleared and its key XOR-ed out. */
    method ClearEnPassant()
      requires Valid()
      modifies this
      ensures bitboards == old(bitboards) && occupancies == old(occupancies) && side == old(side)
      ensures castle == old(castle) && fiftyMove == old(fiftyMove) && Valid()
      ensures enPassant == NoSquare
      ensures hashKey == EnPassantHash(old(hashKey), keys, old(enPassant), NoSquare)
    {
      if enPassant != NoSquare {
        hashKey := Xor(hashKey, keys.enPassant[enPassant]);
      }
      enPassant := NoSquare;
    }

    /** A new en-passant square set and its key XOR-ed in. */
    method SetEnPassant(e: Square)
      requires Valid() && enPassant == NoSquare
      modifies this
      ensures bitboards == old(bitboards) && occupancies == old(occupancies) && side == old(side)
      ensures castle == old(castle) && fiftyMove == old(fiftyMove) && Valid()
      ensures enPassant == e as int && hashKey == Xor(old(hashKey), keys.enPassant[e as int])
    {
      enPassant := e as int;
      hashKey := Xor(hashKey, keys.enPassant[enPassant]);
    }

    /** The castling-rights update, with the old and new rights' keys XOR-ed. */
    method UpdateRights(d: Fields)
      requires Valid()
      modifies this
      ensures bitboards == old(bitboards) && occupancies == old(occupancies) && side == old(side)
      ensures enPassant == old(enPassant) && fiftyMove == old(fiftyMove) && Valid()
      ensures castle == NewRights(old(castle), d)
      ensures hashKey == Xor(Xor(old(hashKey), CastleKey(keys, old(castle))), CastleKey(keys, castle))
    {
      var c := castle;
      var h := Xor(hashKey, CastleKey(keys, c));
      c := c & CastlingRights[d.source as int];
      c := c & CastlingRights[d.target as int];
      hashKey := Xor(h, CastleKey(keys, c));
      castle := c;
    }

    /** The OR of the boards in xs, accumulated in order as the occupancy loop does. */
    static method OrBoards(xs: seq<Bitboard>) returns (u: Bitboard)
      ensures u == UnionOf(xs)
    {
      u := 0;
      for p := 0 to |xs|
        invariant u == UnionOf(xs[..p])
      {
        assert xs[..p + 1][..p] == xs[..p];
        u := u | xs[p];
      }
      assert xs[..|xs|] == xs;
    }

    /** The occupancy update: each side's pieces OR-ed together, then both sides. */
    method UpdateOccupancies()
      requires Valid()
      modifies this
      ensures bitboards == old(bitboards) && side == old(side) && enPassant == old(enPassant)
      ensures castle == old(castle) && fiftyMove == old(fiftyMove) && hashKey == old(hashKey) && Valid()
      ensures occupancies == Occupancies(bitboards)
    {
      var white := OrBoards(bitboards[..6]);
      var black := OrBoards(bitboards[6..]);
      ghost var o := Occupancies(bitboards);
      assert o[White] == white && o[Black] == black && o[Both] == white | black;
      occupancies := [white, black, white | black];
    }

    /** `side ^= 1; hash_key ^= side_key`. */
    method FlipSide()
      requires Valid()
      modifies this
      ensures bitboards == old(bitboards) && occupancies == old(occupancies) && enPassant == old(enPassant)
      ensures castle == old(castle) && fiftyMove == old(fiftyMove) && Valid()
      ensures side == 1 - old(side)
      ensures hashKey == Xor(old(hashKey), keys.side)
    {
      side := 1 - side;
      hashKey := Xor(hashKey, keys.side);
    }

    /** `make_null_move`: the turn passes, and the en-passant square is cleared with its key. */
    method MakeNullMove()
      requires Valid()
      modifies this
      ensures bitboards == old(bitboards) && occupancies == old(occupancies)
      ensures castle == old(castle) && fiftyMove == old(fiftyMove) && Valid()
      ensures side == 1 - old(side) && enPassant == NoSquare
      ensures hashKey == NullHash(old(hashKey), keys, old(enPassant))
    {
      ClearEnPassant();
      FlipSide();
    }

    /** `unmake_null_move`: only the side and its key are flipped back. */
    method UnmakeNullMove()
      requires Valid()
      modifies this
      ensures bitboards == old(bitboards) && occupancies == old(occupancies) && enPassant == old(enPassant)
      ensures castle == old(castle) && fiftyMove == old(fiftyMove) && Valid()
      ensures side == 1 - old(side) && hashKey == Xor(old(hashKey), keys.side)
    {
      FlipSide();
    }

    /** The piece-board steps of `make_move`: the move itself and the captures and promotion it brings. */
    method PlayPieces(d: Fields)
      requires Valid() && InRange(d, side)
      modifies this
      ensures occupancies == old(occupancies) && side == old(side) && enPassant == old(enPassant)
      ensures castle == old(castle) && fiftyMove == old(fiftyMove) && Valid()
      ensures bitboards == AfterEnPassant(old(bitboards), d, side)
      ensures hashKey == HashAfterEnPassant(old(hashKey), keys, old(bitboards), d, side)
    {
      ghost var b0, h0 := bitboards, hashKey;
      MovePiece(d.piece, d.source, d.target);
      CaptureStep(d, b0, h0);
      PromotionStep(d, b0, h0);
      EnPassantStep(d, b0, h0);
    }

    /** The bookkeeping steps of `make_move` after the pieces have moved, stated against the start state s0. */
    method PlayBookkeeping(d: Fields, ghost s0: Snapshot)
      requires Valid() && SnapshotOk(s0, keys) && InRange(d, s0.side)
      requires bitboards == AfterEnPassant(s0.bitboards, d, s0.side) && side == s0.side && enPassant == s0.enPassant
      requires castle == s0.castle && hashKey == HashAfterEnPassant(s0.hashKey, keys, s0.bitboards, d, s0.side)
      modifies this
      ensures Valid() && fiftyMove == old(fiftyMove)
      ensures bitboards == Played(s0.bitboards, d, s0.side) && occupancies == Occupancies(bitboards)
      ensures side == 1 - s0.side && enPassant == NewEnPassant(d, s0.side) && castle == NewRights(s0.castle, d)
      ensures hashKey == TailHash(old(hashKey), keys, d, s0.enPassant, enPassant, s0.castle, castle)
    {
      UpdateEnPassant(d);
      CastlingStep(d, s0.bitboards, s0.hashKey, s0.side);
      UpdateRights(d);
      UpdateOccupancies();
      FlipSide();
    }

    /** Every step of `make_move` up to the legality check. */
    method PlayMove(d: Fields)
      requires Valid() && InRange(d, side)
      modifies this
      ensures Valid() && Save() == Next(old(Save()), d, keys)
    {
      ghost var s0 := Save();
      NextFields(s0, d, keys);
      fiftyMove := NewFifty(d, fiftyMove);
      PlayPieces(d);
      PlayBookkeeping(d, s0);
      assert bitboards == Next(s0, d, keys).bitboards;
      assert occupancies == Next(s0, d, keys).occupancies;
    }

    /** Whether the king of `mover` is attacked by the side to move. */
    method KingAttacked(mover: int) returns (attacked: bool)
      requires Valid() && (mover == White || mover == Black) && bitboards[PieceOf(5, mover)] != 0
      ensures attacked <==> Attacked(bitboards, occupancies[Both], KingSquare(bitboards, mover), side)
    {
      var king := KingSquare(bitboards, mover);
      attacked := IsSquareAttacked(bitboards, occupancies[Both], king, side);
    }

    /** The move played, and whether the mover's king is then attacked. */
    method PlayAndCheck(d: Fields, ghost n: Snapshot) returns (attacked: bool)
      requires Valid() && InRange(d, side) && bitboards[PieceOf(5, side)] != 0
      requires n == Next(Save(), d, keys)
      modifies this
      ensures Valid() && Save() == n && n.bitboards[PieceOf(5, old(side))] != 0
      ensures attacked <==> Attacked(n.bitboards, n.occupancies[Both], KingSquare(n.bitboards, old(side)), n.side)
    {
      var mover := side;
      KingSurvives(bitboards, d, side);
      PlayMove(d);
      assert bitboards == n.bitboards && occupancies == n.occupancies && side == n.side;
      attacked := KingAttacked(mover);
    }

    /**
     * The move played, then kept exactly when the mover's king is not
     * attacked afterwards, and rolled back to the saved copy when it is.
     */
    method TryMove(d: Fields, ghost n: Snapshot) returns (legal: bool)
      requires Valid() && InRange(d, side) && bitboards[PieceOf(5, side)] != 0
      requires n == Next(Save(), d, keys)
      modifies this
      ensures Valid() && n.bitboards[PieceOf(5, old(side))] != 0
      ensures legal <==> !Attacked(n.bitboards, n.occupancies[Both], KingSquare(n.bitboards, old(side)), n.side)
      ensures Save() == if legal then n else old(Save())
    {
      var saved := Save();
      var attacked := PlayAndCheck(d, n);
      legal := !attacked;
      if attacked {
        TakeBack(saved);
      }
    }

    /**
     * `make_move`: a quiet move when only captures are wanted is refused
     * untouched; any other move is tried as `TryMove` does.
     */
    method MakeMove(move: Move, onlyCaptures: bool) returns (legal: bool)
      requires Valid() && GetPiece(move) < 12 && GetPromoted(move) < 12 && InRange(Decode(move), side)
      requires bitboards[PieceOf(5, side)] != 0
      modifies this
      ensures Valid()
      ensures onlyCaptures && GetCapture(move) == 0 ==> !legal && Save() == old(Save())
      ensures !(onlyCaptures && GetCapture(move) == 0) ==>
                var n := Next(old(Save()), Decode(move), keys);
                n.bitboards[PieceOf(5, old(side))] != 0 &&
                (legal <==> !Attacked(n.bitboards, n.occupancies[Both], KingSquare(n.bitboards, old(side)), n.side)) &&
                Save() == if legal then n else old(Save())
    {
      if onlyCaptures && GetCapture(move) == 0 {
        return false;
      }
      legal := TryMove(Decode(move), Next(Save(), Decode(move), keys));
    }
  }
}
