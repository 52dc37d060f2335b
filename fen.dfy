/**
 * The rest of `parse_fen` (side, castling, en passant and, in the
 * modular reader, the two clocks), the whole reader as one method on the
 * board, and a writer whose output both readers read back.
 */
module Fen {
  import opened Bits
  import opened Squares
  import opened Position
  import opened Boards
  import opened MoveGen
  import opened Placement
  import Zobrist

  // ---------------------------------------------------------------------
  // The remaining fields
  // ---------------------------------------------------------------------

  /** The right a castling letter grants; other characters grant none. */
  function RightOfLetter(c: char): Zobrist.Rights
  {
    match c
    case 'K' => WhiteKingside case 'Q' => WhiteQueenside
    case 'k' => BlackKingside case 'q' => BlackQueenside
    case _ => 0
  }

  /** The castling field: the rights its letters grant, OR-ed into acc, and the text from the space or end after it. */
  function Castling(t: string, acc: Zobrist.Rights): (r: (Zobrist.Rights, string))
    ensures |r.1| <= |t|
    decreases |t|
  {
    if Head(t) == '\0' || Head(t) == ' ' then (acc, t) else Castling(t[1..], acc | RightOfLetter(t[0]))
  }

  /** The castling field ends at a space or at the end, and holds neither. */
  lemma {:induction false} CastlingEnds(t: string, acc: Zobrist.Rights)
    ensures var rest := Castling(t, acc).1;
      t == t[..|t| - |rest|] + rest && (Head(rest) == ' ' || Head(rest) == '\0') && Plain(t[..|t| - |rest|])
    decreases |t|
  {
    if Head(t) != '\0' && Head(t) != ' ' {
      CastlingEnds(t[1..], acc | RightOfLetter(t[0]));
      var rest := Castling(t, acc).1;
      assert t[..|t| - |rest|] == [t[0]] + t[1..][..|t| - 1 - |rest|];
    }
  }

  /** A letter's right is one of the four bits, and only its own letter grants it. */
  lemma LetterBit(x: char, c: char, acc: Zobrist.Rights)
    requires c in "KQkq"
    ensures (acc | RightOfLetter(x)) & RightOfLetter(c) != 0 <==> acc & RightOfLetter(c) != 0 || x == c
  {
  }

  /**
   * The rights read hold one of the four rights exactly when acc held it or
   * its letter occurs in the field, which runs up to the first space or the end.
   */
  lemma {:induction false} CastlingSpec(t: string, acc: Zobrist.Rights, c: char)
    requires c in "KQkq"
    ensures var r := Castling(t, acc).0; var field := t[..|t| - |Castling(t, acc).1|];
      Plain(field) && (r & RightOfLetter(c) != 0 <==> acc & RightOfLetter(c) != 0 || c in field)
    decreases |t|
  {
    CastlingEnds(t, acc);
    if Head(t) != '\0' && Head(t) != ' ' {
      var next := acc | RightOfLetter(t[0]);
      CastlingSpec(t[1..], next, c);
      LetterBit(t[0], c, acc);
      var rest := Castling(t, acc).1;
      assert t[..|t| - |rest|] == [t[0]] + t[1..][..|t| - 1 - |rest|];
    }
  }

  /** `parse_fen`'s castling loop, from index i of the FEN text. */
  method ReadCastling(fen: string, i: nat) returns (castle: Zobrist.Rights, j: nat)
    requires i <= |fen|
    ensures i <= j <= |fen| && (castle, fen[j..]) == Castling(fen[i..], 0)
  {
    castle := 0;
    j := i;
    while j < |fen| && fen[j] != '\0' && fen[j] != ' '
      invariant i <= j <= |fen|
      invariant Castling(fen[j..], castle) == Castling(fen[i..], 0)
    {
      assert fen[j..][1..] == fen[j + 1..];
      castle := castle | RightOfLetter(fen[j]);
      j := j + 1;
    }
  }

  /**
   * The en-passant square named by a file and a rank character, computed
   * as the engine does, `(8 - (rank - '0')) * 8 + (file - 'a')`; a value
   * off the board is read as no square.
   */
  function EnPassantOf(file: char, rank: char): (sq: int)
    ensures 0 <= sq <= NoSquare
  {
    var v := (8 - DigitValue(rank)) * 8 + (file as int - 'a' as int);
    if 0 <= v <= NoSquare then v else NoSquare
  }

  /** Every square's name reads back as that square. */
  lemma EnPassantRoundTrip(i: int)
    requires 0 <= i < 64
    ensures EnPassantOf(CoordOf(i)[0], CoordOf(i)[1]) == i
  {
  }

  /** The en-passant field: '-' for none, otherwise its first two characters. */
  function EnPassantField(t: string): (sq: int)
    ensures 0 <= sq <= NoSquare
  {
    if Head(t) != '-' then EnPassantOf(Head(t), Head(Tail(t))) else NoSquare
  }

  /** `atoi` on text that starts with a digit: the value of its leading digits, after acc. */
  function Atoi(t: string, acc: int): int
    decreases |t|
  {
    if IsDigit(Head(t)) then Atoi(t[1..], acc * 10 + DigitValue(t[0])) else acc
  }

  /** Skip to the next space or the end. */
  function SkipToSpace(t: string): (r: string)
    ensures |r| <= |t|
    decreases |t|
  {
    if Head(t) == '\0' || Head(t) == ' ' then t else SkipToSpace(t[1..])
  }

  /** The modular reader's two clocks after the en-passant field: the halfmove clock (0 when absent) and the move number (1 when absent). */
  function Clocks(t: string): (int, int)
  {
    var t1 := Tail(t);
    var fifty := if IsDigit(Head(t1)) then Atoi(t1, 0) else 0;
    var t2 := Tail(if IsDigit(Head(t1)) then SkipToSpace(t1) else t1);
    (fifty, if IsDigit(Head(t2)) then Atoi(t2, 0) else 1)
  }

  /** What `parse_fen` sets up. */
  datatype Setup = Setup(bb: seq<Bitboard>, side: int, castle: Zobrist.Rights, enPassant: int,
                         fiftyMove: int, fullMoves: int)

  /**
   * The fields after the placement, from the character the walk stopped
   * on: skip it, read the side ('w' for white, anything else black), skip
   * two, read the castling field, skip one, read the en-passant square.
   * The modular reader goes on to the clocks; the engine keeps no
   * move number and leaves the halfmove clock as it was.
   */
  function ReadFields(t: string, d: Dialect, fifty: int, bb: seq<Bitboard>): (r: Setup)
    ensures r.bb == bb && (r.side == White || r.side == Black) && 0 <= r.enPassant <= NoSquare
  {
    var t1 := Tail(t);
    var side := if Head(t1) == 'w' then White else Black;
    var castling := Castling(Tail(Tail(t1)), 0);
    var t4 := Tail(castling.1);
    var ep := EnPassantField(t4);
    if d == Engine then Setup(bb, side, castling.0, ep, fifty, 1)
    else
      var t5 := if Head(t4) != '\0' && Head(t4) != '-' then Tail(Tail(t4)) else Tail(t4);
      var clocks := Clocks(t5);
      Setup(bb, side, castling.0, ep, clocks.0, clocks.1)
  }

  /** `parse_fen`, the halfmove clock standing at `fifty` before. */
  function ReadFen(fen: string, d: Dialect, fifty: int): (r: Setup)
    ensures |r.bb| == 12 && (r.side == White || r.side == Black) && 0 <= r.enPassant <= NoSquare
  {
    var placed := Place(fen, d, Walk(0, 0, Empty()));
    ReadFields(fen[|fen| - placed.0..], d, fifty, placed.1.bb)
  }

  // ---------------------------------------------------------------------
  // parse_fen
  // ---------------------------------------------------------------------

  /** The pointer's index moved one on, except at the end. */
  method Advance(fen: string, i: nat) returns (j: nat)
    requires i <= |fen|
    ensures j <= |fen| && fen[j..] == Tail(fen[i..])
  {
    j := if i < |fen| && fen[i] != '\0' then i + 1 else i;
  }

  /** `atoi` at index i, digit by digit. */
  method ReadNumber(fen: string, i: nat) returns (n: int)
    requires i <= |fen|
    ensures n == Atoi(fen[i..], 0)
  {
    n := 0;
    var j := i;
    while j < |fen| && IsDigit(fen[j])
      invariant i <= j <= |fen|
      invariant Atoi(fen[j..], n) == Atoi(fen[i..], 0)
    {
      assert fen[j..][1..] == fen[j + 1..];
      n := n * 10 + DigitValue(fen[j]);
      j := j + 1;
    }
  }

  /** `while (*fen && *fen != ' ') fen++`. */
  method SkipField(fen: string, i: nat) returns (j: nat)
    requires i <= |fen|
    ensures i <= j <= |fen| && fen[j..] == SkipToSpace(fen[i..])
  {
    j := i;
    while j < |fen| && fen[j] != '\0' && fen[j] != ' '
      invariant i <= j <= |fen| && SkipToSpace(fen[j..]) == SkipToSpace(fen[i..])
    {
      assert fen[j..][1..] == fen[j + 1..];
      j := j + 1;
    }
  }

  /** The modular reader's clocks, from index i. */
  method ReadClocks(fen: string, i: nat) returns (fifty: int, fullMoves: int)
    requires i <= |fen|
    ensures (fifty, fullMoves) == Clocks(fen[i..])
  {
    var j := Advance(fen, i);
    fifty := 0;
    fullMoves := 1;
    if j < |fen| && IsDigit(fen[j]) {
      fifty := ReadNumber(fen, j);
      j := SkipField(fen, j);
    }
    j := Advance(fen, j);
    if j < |fen| && IsDigit(fen[j]) {
      fullMoves := ReadNumber(fen, j);
    }
  }

  /** The en-passant field at index i, and where the modular reader goes on from. */
  method ReadEnPassant(fen: string, i: nat) returns (ep: int, j: nat)
    requires i <= |fen|
    ensures ep == EnPassantField(fen[i..])
    ensures j <= |fen| && fen[j..] == if Head(fen[i..]) != '\0' && Head(fen[i..]) != '-' then Tail(Tail(fen[i..])) else Tail(fen[i..])
  {
    var c := At(fen, i);
    assert c == Head(fen[i..]);
    if c != '\0' && c != '-' {
      var k := Advance(fen, i);
      ep := EnPassantOf(c, At(fen, k));
      j := Advance(fen, k);
    } else {
      ep := NoSquare;
      j := Advance(fen, i);
    }
  }

  /** The fields after the placement, read from index i on. */
  method ReadRest(fen: string, i: nat, d: Dialect, fifty: int, bb: seq<Bitboard>) returns (r: Setup)
    requires i <= |fen|
    ensures r == ReadFields(fen[i..], d, fifty, bb)
  {
    var j := Advance(fen, i);
    var side := if At(fen, j) == 'w' then White else Black;
    j := Advance(fen, j);
    j := Advance(fen, j);
    var castle;
    castle, j := ReadCastling(fen, j);
    j := Advance(fen, j);
    var ep;
    ep, j := ReadEnPassant(fen, j);
    r := Setup(bb, side, castle, ep, fifty, 1);
    if d == Modular {
      var f, n := ReadClocks(fen, j);
      r := Setup(bb, side, castle, ep, f, n);
    }
  }

  /** The whole FEN text, the halfmove clock standing at `fifty` before. */
  method ReadSetup(fen: string, d: Dialect, fifty: int) returns (r: Setup)
    ensures r == ReadFen(fen, d, fifty)
  {
    var i, w := PlacePieces(fen, d);
    assert fen[i..] == fen[|fen| - (|fen| - i)..];
    r := ReadRest(fen, i, d, fifty, w.bb);
  }

  /**
   * `parse_fen`: clear the position, read the FEN text, derive the
   * occupancies and compute the Zobrist key from scratch.  It returns the
   * move number (always 1 for the engine, which keeps none).
   */
  method ParseFen(b: Board, fen: string, d: Dialect) returns (fullMoves: int)
    requires b.Valid()
    modifies b
    ensures var r := ReadFen(fen, d, old(b.fiftyMove));
      b.bitboards == r.bb && b.side == r.side && b.castle == r.castle && b.enPassant == r.enPassant &&
      b.fiftyMove == r.fiftyMove && fullMoves == r.fullMoves
    ensures b.Valid() && b.HashOk() && b.occupancies == Occupancies(b.bitboards)
  {
    var r := ReadSetup(fen, d, b.fiftyMove);
    Load(b, r);
    fullMoves := r.fullMoves;
  }

  /** The end of `parse_fen`: store what was read, derive the occupancies, compute the key. */
  method Load(b: Board, r: Setup)
    requires b.Valid() && |r.bb| == 12 && (r.side == White || r.side == Black) && 0 <= r.enPassant <= NoSquare
    modifies b
    ensures b.bitboards == r.bb && b.side == r.side && b.castle == r.castle && b.enPassant == r.enPassant
    ensures b.fiftyMove == r.fiftyMove
    ensures b.Valid() && b.HashOk() && b.occupancies == Occupancies(b.bitboards)
  {
    b.bitboards := r.bb;
    b.side := r.side;
    b.castle := r.castle;
    b.enPassant := r.enPassant;
    b.fiftyMove := r.fiftyMove;
    b.UpdateOccupancies();
    SetHashKey(b);
  }

  /** `hash_key = generate_hash_key()`: the key of the position from scratch. */
  method SetHashKey(b: Board)
    requires b.Valid()
    modifies b
    ensures b.bitboards == old(b.bitboards) && b.occupancies == old(b.occupancies) && b.side == old(b.side)
    ensures b.enPassant == old(b.enPassant) && b.castle == old(b.castle) && b.fiftyMove == old(b.fiftyMove)
    ensures b.Valid() && b.HashOk()
  {
    b.hashKey := Zobrist.PositionKey(b.keys, b.bitboards, b.side, b.enPassant, b.castle);
  }

  // ---------------------------------------------------------------------
  // Writing a FEN text, and reading it back
  // ---------------------------------------------------------------------

  function SideText(side: int): string
  {
    if side == White then "w" else "b"
  }

  /** The letter of one right, when c holds it. */
  function RightText(c: Zobrist.Rights, right: Zobrist.Rights, letter: char): string
  {
    if c & right != 0 then [letter] else []
  }

  /** The castling field: the letters KQkq of the rights held, or '-' for none. */
  function CastleText(c: Zobrist.Rights): string
  {
    if c == 0 then "-"
    else RightText(c, WhiteKingside, 'K') + RightText(c, WhiteQueenside, 'Q') +
         RightText(c, BlackKingside, 'k') + RightText(c, BlackQueenside, 'q')
  }

  /** The en-passant field: the square's name, or '-' for none. */
  function EnPassantText(ep: int): string
    requires 0 <= ep <= NoSquare
  {
    if ep == NoSquare then "-" else CoordOf(ep)
  }

  /** n in decimal, without leading zeros. */
  function DecimalText(n: nat): (r: string)
    ensures |r| > 0 && forall k :: 0 <= k < |r| ==> IsDigit(r[k])
    decreases n
  {
    if n < 10 then [Digit(n)] else DecimalText(n / 10) + [Digit(n % 10)]
  }

  function ClocksText(fifty: nat, full: nat): string
  {
    " " + (DecimalText(fifty) + (" " + DecimalText(full)))
  }

  function EnPassantTail(ep: int, fifty: nat, full: nat): string
    requires 0 <= ep <= NoSquare
  {
    " " + (EnPassantText(ep) + ClocksText(fifty, full))
  }

  function CastleTail(castle: Zobrist.Rights, ep: int, fifty: nat, full: nat): string
    requires 0 <= ep <= NoSquare
  {
    " " + (CastleText(castle) + EnPassantTail(ep, fifty, full))
  }

  /** The five fields after the placement, each after a space. */
  function FieldsText(side: int, castle: Zobrist.Rights, ep: int, fifty: nat, full: nat): string
    requires 0 <= ep <= NoSquare
  {
    " " + (SideText(side) + CastleTail(castle, ep, fifty, full))
  }

  /** A FEN text for a mailbox position. */
  function WriteFen(m: seq<int>, side: int, castle: Zobrist.Rights, ep: int, fifty: nat, full: nat): string
    requires |m| == 64 && Mailbox(m) && 0 <= ep <= NoSquare
  {
    Rows(m, 0) + FieldsText(side, castle, ep, fifty, full)
  }

  lemma {:induction false} AtoiAppend(a: string, b: string, acc: int)
    requires forall k :: 0 <= k < |a| ==> IsDigit(a[k])
    ensures Atoi(a + b, acc) == Atoi(b, Atoi(a, acc))
    decreases |a|
  {
    if |a| == 0 {
      assert a + b == b;
    } else {
      assert (a + b)[1..] == a[1..] + b;
      AtoiAppend(a[1..], b, acc * 10 + DigitValue(a[0]));
    }
  }

  /** `atoi` reads back the decimal text of n. */
  lemma {:induction false} AtoiDecimal(n: nat)
    ensures Atoi(DecimalText(n), 0) == n
    decreases n
  {
    if n >= 10 {
      AtoiDecimal(n / 10);
      var last := [Digit(n % 10)];
      AtoiAppend(DecimalText(n / 10), last, 0);
      assert Atoi(last[1..], n / 10 * 10 + n % 10) == n;
    }
  }

  lemma AtoiDecimalThen(n: nat, rest: string)
    requires !IsDigit(Head(rest))
    ensures Atoi(DecimalText(n) + rest, 0) == n
  {
    AtoiAppend(DecimalText(n), rest, 0);
    AtoiDecimal(n);
  }

  lemma {:induction false} SkipDigits(a: string, rest: string)
    requires forall k :: 0 <= k < |a| ==> IsDigit(a[k])
    ensures SkipToSpace(a + rest) == SkipToSpace(rest)
    decreases |a|
  {
    if |a| == 0 {
      assert a + rest == rest;
    } else {
      assert (a + rest)[1..] == a[1..] + rest;
      SkipDigits(a[1..], rest);
    }
  }

  lemma {:induction false} CastlingAppend(a: string, b: string, acc: Zobrist.Rights)
    requires Plain(a)
    ensures Castling(a + b, acc) == Castling(b, Castling(a, acc).0)
    decreases |a|
  {
    if |a| == 0 {
      assert a + b == b;
    } else {
      assert (a + b)[1..] == a[1..] + b;
      CastlingAppend(a[1..], b, acc | RightOfLetter(a[0]));
    }
  }

  lemma RightTextRead(c: Zobrist.Rights, right: Zobrist.Rights, letter: char, acc: Zobrist.Rights)
    requires RightOfLetter(letter) == right && letter != ' ' && letter != '\0'
    ensures Plain(RightText(c, right, letter))
    ensures Castling(RightText(c, right, letter), acc).0 == acc | (c & right)
  {
    if c & right != 0 {
      assert Castling([letter][1..], acc | right) == (acc | right, []);
    }
  }

  /** The letters of the rights held read back as those rights. */
  lemma LettersRead(c: Zobrist.Rights)
    requires c != 0
    ensures var text := CastleText(c); Plain(text) && Castling(text, 0).0 == c
  {
    var k := RightText(c, WhiteKingside, 'K');
    var q := RightText(c, WhiteQueenside, 'Q');
    var k' := RightText(c, BlackKingside, 'k');
    var q' := RightText(c, BlackQueenside, 'q');
    RightTextRead(c, WhiteKingside, 'K', 0);
    var a1 := 0 | (c & WhiteKingside);
    RightTextRead(c, WhiteQueenside, 'Q', a1);
    var a2 := a1 | (c & WhiteQueenside);
    RightTextRead(c, BlackKingside, 'k', a2);
    var a3 := a2 | (c & BlackKingside);
    RightTextRead(c, BlackQueenside, 'q', a3);
    CastlingAppend(k, q, 0);
    CastlingAppend(k + q, k', 0);
    CastlingAppend(k + q + k', q', 0);
    assert a3 | (c & BlackQueenside) == c;
  }

  /** The castling field written for c reads back as c. */
  lemma CastleTextRead(c: Zobrist.Rights, rest: string)
    requires Head(rest) == ' '
    ensures Castling(CastleText(c) + rest, 0) == (c, rest)
  {
    if c == 0 {
      TailCons('-', rest);
      assert ("-" + rest)[1..] == rest;
    } else {
      LettersRead(c);
      CastlingAppend(CastleText(c), rest, 0);
    }
  }

  /** The pointer on a character other than NUL moves past it. */
  lemma TailCons(c: char, rest: string)
    ensures Head([c] + rest) == c && (c != '\0' ==> Tail([c] + rest) == rest)
  {
    assert ([c] + rest)[1..] == rest;
  }

  lemma ClocksRead(fifty: nat, full: nat)
    ensures Clocks(ClocksText(fifty, full)) == (fifty, full)
  {
    var f := DecimalText(fifty);
    var n := DecimalText(full);
    var rest := " " + n;
    TailCons(' ', f + rest);
    AtoiDecimalThen(fifty, rest);
    SkipDigits(f, rest);
    TailCons(' ', n);
    AtoiDecimalThen(full, []);
    assert n + [] == n;
  }

  lemma EnPassantRead(ep: int, fifty: nat, full: nat)
    requires 0 <= ep <= NoSquare
    ensures var t := EnPassantText(ep) + ClocksText(fifty, full);
      EnPassantField(t) == ep &&
      (if Head(t) != '\0' && Head(t) != '-' then Tail(Tail(t)) else Tail(t)) == ClocksText(fifty, full)
  {
    var c := ClocksText(fifty, full);
    if ep == NoSquare {
      TailCons('-', c);
    } else {
      var name := CoordOf(ep);
      assert name + c == [name[0]] + ([name[1]] + c);
      TailCons(name[0], [name[1]] + c);
      TailCons(name[1], c);
      EnPassantRoundTrip(ep);
    }
  }

  /** Side and castling fields written after a placement read back, up to the en-passant field. */
  lemma SideCastleRead(side: int, castle: Zobrist.Rights, ep: int, fifty: nat, full: nat)
    requires (side == White || side == Black) && 0 <= ep <= NoSquare
    ensures var t1 := Tail(FieldsText(side, castle, ep, fifty, full));
      (Head(t1) == 'w' <==> side == White) &&
      Castling(Tail(Tail(t1)), 0) == (castle, EnPassantTail(ep, fifty, full))
  {
    var ct := CastleTail(castle, ep, fifty, full);
    var et := EnPassantTail(ep, fifty, full);
    TailCons(' ', SideText(side) + ct);
    TailCons(if side == White then 'w' else 'b', ct);
    TailCons(' ', CastleText(castle) + et);
    TailCons(' ', EnPassantText(ep) + ClocksText(fifty, full));
    CastleTextRead(castle, et);
  }

  /** The fields written after a placement read back. */
  lemma FieldsRead(side: int, castle: Zobrist.Rights, ep: int, fifty: nat, full: nat, d: Dialect, clock: int,
                   bb: seq<Bitboard>)
    requires (side == White || side == Black) && 0 <= ep <= NoSquare
    ensures ReadFields(FieldsText(side, castle, ep, fifty, full), d, clock, bb) ==
            if d == Engine then Setup(bb, side, castle, ep, clock, 1) else Setup(bb, side, castle, ep, fifty, full)
  {
    SideCastleRead(side, castle, ep, fifty, full);
    TailCons(' ', EnPassantText(ep) + ClocksText(fifty, full));
    EnPassantRead(ep, fifty, full);
    ClocksRead(fifty, full);
  }

  /**
   * Both readers read back a written FEN text: the piece boards hold
   * exactly the mailbox's pieces, and side, castling rights and
   * en-passant square are those written; the modular reader also reads
   * both clocks, while the engine leaves its halfmove clock alone.
   */
  lemma FenRoundTrip(m: seq<int>, side: int, castle: Zobrist.Rights, ep: int, fifty: nat, full: nat, d: Dialect,
                     clock: int)
    requires |m| == 64 && Mailbox(m) && (side == White || side == Black) && 0 <= ep <= NoSquare
    ensures var r := ReadFen(WriteFen(m, side, castle, ep, fifty, full), d, clock);
      (forall p: Piece, i | 0 <= i < 64 :: Bit(r.bb[p], SquareOf(i)) <==> m[i] == p) &&
      r.side == side && r.castle == castle && r.enPassant == ep &&
      r.fiftyMove == (if d == Engine then clock else fifty) && r.fullMoves == (if d == Engine then 1 else full)
  {
    var tail := FieldsText(side, castle, ep, fifty, full);
    var fen := WriteFen(m, side, castle, ep, fifty, full);
    PlacementRoundTrip(m, tail, d);
    PlacementStops(m, tail, d);
    assert fen[|fen| - |tail|..] == tail;
    FieldsRead(side, castle, ep, fifty, full, d, clock, PutRows(Empty(), m, 0));
  }
}
