/**
 * The 24-bit move word and the bounded move list.
 *
 * A move is a C `int` whose low 24 bits hold, from bit 0 upwards: source
 * square (6 bits), target square (6), moving piece (4), promoted piece (4,
 * 0 for none) and the capture, double-push, en-passant and castling flags
 * (one bit each).  Both macro families of the engine (the bare one of
 * src/types.h and the parenthesised one of the modular headers) compute the
 * same words from the same values; they are modelled once, as functions on
 * 32-bit words.
 */
module Moves {

  type Move = bv32

  /** A six-bit square field, 0 .. 63. */
  type Field6 = x: bv32 | x < 64
  /** A four-bit piece field, 0 .. 15. */
  type Field4 = x: bv32 | x < 16
  /** A one-bit flag, 0 or 1. */
  type Flag = x: bv32 | x < 2

  const SourceMask: bv32 := 0x3f
  const TargetMask: bv32 := 0xfc0
  const PieceMask: bv32 := 0xf000
  const PromotedMask: bv32 := 0xf0000
  const CaptureBit: bv32 := 0x100000
  const DoubleBit: bv32 := 0x200000
  const EnPassantBit: bv32 := 0x400000
  const CastlingBit: bv32 := 0x800000

  /** `encode_move`: the fields or-ed together at their offsets. */
  function EncodeMove(source: Field6, target: Field6, piece: Field4, promoted: Field4,
                      capture: Flag, doublePush: Flag, enPassant: Flag, castling: Flag): Move
  {
    source | (target << 6) | (piece << 12) | (promoted << 16) |
    (capture << 20) | (doublePush << 21) | (enPassant << 22) | (castling << 23)
  }

  /** `get_move_source`. */
  function GetSource(m: Move): (r: Field6)
  {
    m & SourceMask
  }

  /** `get_move_target`. */
  function GetTarget(m: Move): (r: Field6)
  {
    (m & TargetMask) >> 6
  }

  /** `get_move_piece`. */
  function GetPiece(m: Move): (r: Field4)
  {
    (m & PieceMask) >> 12
  }

  /** `get_move_promoted`. */
  function GetPromoted(m: Move): (r: Field4)
  {
    (m & PromotedMask) >> 16
  }

  /** The piece field as a number, for indexing tables. */
  function PieceNum(m: Move): (p: int)
    ensures 0 <= p < 16 && (GetPiece(m) < 12 ==> p < 12)
  {
    GetPiece(m) as int
  }

  /** The source field as a square number. */
  function SourceNum(m: Move): (s: int)
    ensures 0 <= s < 64
  {
    GetSource(m) as int
  }

  /** The target field as a square number. */
  function TargetNum(m: Move): (t: int)
    ensures 0 <= t < 64
  {
    GetTarget(m) as int
  }

  /** A move with its capture flag clear. */
  predicate NoCapture(m: Move)
  {
    GetCapture(m) == 0
  }

  /** The flag getters return the masked bit itself, not 0 or 1. */
  function GetCapture(m: Move): (r: Move)
    ensures r == 0 || r == CaptureBit
  {
    m & CaptureBit
  }

  function GetDouble(m: Move): (r: Move)
    ensures r == 0 || r == DoubleBit
  {
    m & DoubleBit
  }

  function GetEnPassant(m: Move): (r: Move)
    ensures r == 0 || r == EnPassantBit
  {
    m & EnPassantBit
  }

  function GetCastling(m: Move): (r: Move)
    ensures r == 0 || r == CastlingBit
  {
    m & CastlingBit
  }

  /** The eight documented fields occupy pairwise disjoint bits and nothing above bit 23. */
  lemma FieldMasksDisjoint()
    ensures SourceMask & TargetMask == 0 && TargetMask & PieceMask == 0
    ensures PieceMask & PromotedMask == 0 && PromotedMask & CaptureBit == 0
    ensures CaptureBit & DoubleBit == 0 && DoubleBit & EnPassantBit == 0
    ensures EnPassantBit & CastlingBit == 0
    ensures SourceMask | TargetMask | PieceMask | PromotedMask | CaptureBit | DoubleBit
            | EnPassantBit | CastlingBit == 0xffffff
  {
  }

  lemma SourceRoundTrip(s: Field6, t: Field6, p: Field4, q: Field4, c: Flag, d: Flag, e: Flag, k: Flag)
    ensures GetSource(EncodeMove(s, t, p, q, c, d, e, k)) == s
  {
  }

  lemma TargetRoundTrip(s: Field6, t: Field6, p: Field4, q: Field4, c: Flag, d: Flag, e: Flag, k: Flag)
    ensures GetTarget(EncodeMove(s, t, p, q, c, d, e, k)) == t
  {
  }

  lemma PieceRoundTrip(s: Field6, t: Field6, p: Field4, q: Field4, c: Flag, d: Flag, e: Flag, k: Flag)
    ensures GetPiece(EncodeMove(s, t, p, q, c, d, e, k)) == p
  {
  }

  lemma PromotedRoundTrip(s: Field6, t: Field6, p: Field4, q: Field4, c: Flag, d: Flag, e: Flag, k: Flag)
    ensures GetPromoted(EncodeMove(s, t, p, q, c, d, e, k)) == q
  {
  }

  lemma FlagsRoundTrip(s: Field6, t: Field6, p: Field4, q: Field4, c: Flag, d: Flag, e: Flag, k: Flag)
    ensures GetCapture(EncodeMove(s, t, p, q, c, d, e, k)) != 0 <==> c == 1
    ensures GetDouble(EncodeMove(s, t, p, q, c, d, e, k)) != 0 <==> d == 1
    ensures GetEnPassant(EncodeMove(s, t, p, q, c, d, e, k)) != 0 <==> e == 1
    ensures GetCastling(EncodeMove(s, t, p, q, c, d, e, k)) != 0 <==> k == 1
  {
  }

  /** Every getter returns its own field of `encode_move`, for in-range fields. */
  lemma EncodeDecode(s: Field6, t: Field6, p: Field4, q: Field4, c: Flag, d: Flag, e: Flag, k: Flag)
    ensures var m := EncodeMove(s, t, p, q, c, d, e, k);
      GetSource(m) == s && GetTarget(m) == t && GetPiece(m) == p && GetPromoted(m) == q &&
      (GetCapture(m) != 0 <==> c == 1) && (GetDouble(m) != 0 <==> d == 1) &&
      (GetEnPassant(m) != 0 <==> e == 1) && (GetCastling(m) != 0 <==> k == 1)
  {
    SourceRoundTrip(s, t, p, q, c, d, e, k);
    TargetRoundTrip(s, t, p, q, c, d, e, k);
    PieceRoundTrip(s, t, p, q, c, d, e, k);
    PromotedRoundTrip(s, t, p, q, c, d, e, k);
    FlagsRoundTrip(s, t, p, q, c, d, e, k);
  }

  /** A word using only the low 24 bits is rebuilt from its decoded fields. */
  lemma DecodeEncode(m: Move)
    requires m < 0x1000000
    ensures EncodeMove(GetSource(m), GetTarget(m), GetPiece(m), GetPromoted(m),
                       GetCapture(m) >> 20, GetDouble(m) >> 21,
                       GetEnPassant(m) >> 22, GetCastling(m) >> 23) == m
  {
  }

  /** `is_quiet`: neither a capture nor a promotion. */
  predicate IsQuiet(m: Move)
  {
    GetCapture(m) == 0 && GetPromoted(m) == 0
  }

  /** `is_tactical`: a capture or a promotion. */
  predicate IsTactical(m: Move)
  {
    GetCapture(m) != 0 || GetPromoted(m) != 0
  }

  lemma TacticalIsNotQuiet(m: Move)
    ensures IsTactical(m) <==> !IsQuiet(m)
  {
  }

  /** On an encoded move, quietness is read off the capture flag and the promoted piece. */
  lemma QuietEncoded(s: Field6, t: Field6, p: Field4, q: Field4, c: Flag, d: Flag, e: Flag, k: Flag)
    ensures IsQuiet(EncodeMove(s, t, p, q, c, d, e, k)) <==> c == 0 && q == 0
  {
    PromotedRoundTrip(s, t, p, q, c, d, e, k);
    FlagsRoundTrip(s, t, p, q, c, d, e, k);
  }

  // ---------------------------------------------------------------------
  // The move list
  // ---------------------------------------------------------------------

  /** `MAX_MOVES`: the capacity of a move list. */
  const MaxMoves := 256

  /** A move list: a fixed buffer of `MAX_MOVES` words and a fill count. */
  class MoveList {
    var moves: array<Move>
    var count: int

    ghost predicate Valid()
      reads this
    {
      moves.Length == MaxMoves && 0 <= count <= MaxMoves
    }

    /** The moves added so far, in order. */
    ghost function Contents(): seq<Move>
      reads this, moves
      requires Valid()
    {
      moves[..count]
    }

    /** A list as `generate_moves` starts it: count reset to 0. */
    constructor ()
      ensures Valid() && Contents() == []
      ensures fresh(moves)
    {
      moves := new Move[MaxMoves];
      count := 0;
    }

    /** `generate_moves` begins by resetting the count. */
    method Clear()
      requires Valid()
      modifies this
      ensures Valid() && Contents() == [] && moves == old(moves)
    {
      count := 0;
    }

    /**
     * `add_move`: store at index count and increment count.  The C code
     * does not check the capacity; a full list is the caller's to avoid.
     */
    method AddMove(move: Move)
      requires Valid() && count < MaxMoves
      modifies this, moves
      ensures Valid() && moves == old(moves)
      ensures Contents() == old(Contents()) + [move]
    {
      moves[count] := move;
      count := count + 1;
    }
  }
}
