/**
 * The piece-placement field of Forsyth-Edwards Notation (section 16.1 of
 * the PGN standard): the walk `parse_fen` makes over it, and a writer
 * whose output the walk reads back.
 *
 * The engine has two readers: `parse_fen` in src/movegen.c (the
 * `Engine` dialect) and the one in src/modular_backup/board.c (the
 * `Modular` dialect).  They walk a C string with a pointer; here the
 * string is a sequence of characters and `At` reads it as C does, with
 * the terminating NUL after the last one.
 */
module Placement {
  import opened Bits
  import opened Squares
  import opened Position
  import opened Boards
  import opened MoveGen
  import Zobrist

  /** The character at i of a C string: its characters, then NUL. */
  function At(s: string, i: int): char
  {
    if 0 <= i < |s| then s[i] else '\0'
  }

  datatype Dialect = Engine | Modular

  // ---------------------------------------------------------------------
  // Piece letters
  // ---------------------------------------------------------------------

  /** `ascii_pieces`: the letter of each piece, white in upper case. */
  const Letters: string := "PNBRQKpnbrqk"

  /** The piece a FEN letter names, -1 for any other character. */
  function PieceOfLetter(c: char): (p: int)
    ensures -1 <= p < 12
  {
    match c
    case 'P' => 0 case 'N' => 1 case 'B' => 2 case 'R' => 3 case 'Q' => 4 case 'K' => 5
    case 'p' => 6 case 'n' => 7 case 'b' => 8 case 'r' => 9 case 'q' => 10 case 'k' => 11
    case _ => -1
  }

  /** Reading a piece's letter gives the piece back, and the letter is one the walk takes as a piece. */
  lemma LetterRoundTrip(p: Piece)
    ensures PieceOfLetter(Letters[p]) == p && IsLetter(Letters[p])
  {
  }

  /** Only the twelve letters name pieces. */
  lemma LetterOnly(c: char)
    requires PieceOfLetter(c) != -1
    ensures Letters[PieceOfLetter(c)] == c
  {
  }

  // ---------------------------------------------------------------------
  // The placement field
  // ---------------------------------------------------------------------

  predicate IsLetter(c: char)
  {
    'a' <= c <= 'z' || 'A' <= c <= 'Z'
  }

  /** The characters read as a count of empty files: '0'-'9' in the engine, '1'-'8' in the modular reader. */
  predicate IsSkip(c: char, d: Dialect)
  {
    if d == Engine then '0' <= c <= '9' else '1' <= c <= '8'
  }

  /** Where the walk stands: rank and file, and the piece boards so far. */
  datatype Walk = Walk(rank: int, file: int, bb: seq<Bitboard>)

  /**
   * Set piece p's bit on the square, when p is a piece and the square is
   * on the board.  The modular `parse_fen` tests `square < 64`; the
   * engine's `parse_fen` shifts by the square unchecked, which this model
   * does not follow: it drops a piece beyond square 63 in both dialects.
   */
  function Mark(bb: seq<Bitboard>, p: int, square: int): (r: seq<Bitboard>)
    requires |bb| == 12 && -1 <= p < 12
    ensures |r| == 12
  {
    if p != -1 && 0 <= square < 64 then bb[p := SetBit(bb[p], SquareOf(square))] else bb
  }

  /** One character of the placement field. */
  function Step(c: char, d: Dialect, w: Walk): (r: Walk)
    requires |w.bb| == 12
    ensures |r.bb| == 12 && r.rank >= w.rank
  {
    if IsLetter(c) then Walk(w.rank, w.file + 1, Mark(w.bb, PieceOfLetter(c), w.rank * 8 + w.file))
    else if IsSkip(c, d) then Walk(w.rank, w.file + (c as int - '0' as int), w.bb)
    else if c == '/' then Walk(w.rank + 1, 0, w.bb)
    else w
  }

  /** The walk stops after the eighth rank, at a space, or at the end of the string. */
  predicate Stops(c: char, w: Walk)
  {
    w.rank >= 8 || c == '\0' || c == ' '
  }

  /** The placement walk over s: how many characters are left where it stops, and the walk then. */
  function Place(s: string, d: Dialect, w: Walk): (r: (nat, Walk))
    requires |w.bb| == 12
    ensures r.0 <= |s| && |r.1.bb| == 12
    decreases |s|
  {
    if |s| == 0 || Stops(s[0], w) then (|s|, w) else Place(s[1..], d, Step(s[0], d, w))
  }

  /** The empty position. */
  function Empty(): (e: seq<Bitboard>)
    ensures |e| == 12 && forall p :: 0 <= p < 12 ==> e[p] == 0
  {
    seq(12, _ => 0)
  }

  /** The placement loop of `parse_fen`, from the first character with an empty board. */
  method PlacePieces(fen: string, d: Dialect) returns (i: nat, w: Walk)
    ensures i <= |fen| && (|fen| - i, w) == Place(fen, d, Walk(0, 0, Empty()))
  {
    i := 0;
    w := Walk(0, 0, Empty());
    while i < |fen| && !Stops(fen[i], w)
      invariant i <= |fen| && |w.bb| == 12
      invariant Place(fen[i..], d, w) == Place(fen, d, Walk(0, 0, Empty()))
    {
      assert fen[i..][1..] == fen[i + 1..];
      w := Step(fen[i], d, w);
      i := i + 1;
    }
  }

  // ---------------------------------------------------------------------
  // Writing a placement, and reading it back
  // ---------------------------------------------------------------------

  /** A mailbox: the piece on each square, -1 for none. */
  predicate Mailbox(row: seq<int>)
  {
    forall k :: 0 <= k < |row| ==> -1 <= row[k] < 12
  }

  predicate IsDigit(c: char)
  {
    '0' <= c <= '9'
  }

  function DigitValue(c: char): int
  {
    c as int - '0' as int
  }

  /** The character under a C pointer to the suffix t: NUL at the end. */
  function Head(t: string): char
  {
    if |t| > 0 then t[0] else '\0'
  }

  /** The pointer moved one character on, staying on the terminating NUL. */
  function Tail(t: string): (r: string)
    ensures |r| <= |t|
  {
    if Head(t) != '\0' then t[1..] else t
  }

  /** The decimal digit for n. */
  function Digit(n: int): (c: char)
    requires 0 <= n <= 9
  {
    ('0' as int + n) as char
  }

  /** One rank in FEN, with `run` empty files pending before it. */
  function RowText(row: seq<int>, run: nat): string
    requires Mailbox(row) && run + |row| <= 8
    decreases |row|
  {
    if |row| == 0 then Pending(run)
    else if row[0] == -1 then RowText(row[1..], run + 1)
    else Pending(run) + [Letters[row[0]]] + RowText(row[1..], 0)
  }

  /** The count of empty files written before a piece or the end of a rank; nothing for none. */
  function Pending(run: nat): string
    requires run <= 8
  {
    if run == 0 then [] else [Digit(run)]
  }

  /** The placement field for ranks r .. 7 of a 64-square mailbox (rank 0 is the eighth rank, a8 first). */
  function Rows(m: seq<int>, r: nat): string
    requires |m| == 64 && Mailbox(m) && r < 8
    decreases 8 - r
  {
    var row := RowText(RankOf(m, r), 0);
    if r == 7 then row else row + "/" + Rows(m, r + 1)
  }

  /** Rank r of the mailbox, a8 side first. */
  function RankOf(m: seq<int>, r: nat): (row: seq<int>)
    requires |m| == 64 && Mailbox(m) && r < 8
    ensures |row| == 8 && Mailbox(row)
    ensures forall k :: 0 <= k < 8 ==> row[k] == m[8 * r + k]
  {
    m[8 * r..8 * r + 8]
  }

  /** The row's pieces put on the squares from sq on. */
  function PutRow(bb: seq<Bitboard>, row: seq<int>, sq: int): (r: seq<Bitboard>)
    requires |bb| == 12 && Mailbox(row)
    ensures |r| == 12
    decreases |row|
  {
    if |row| == 0 then bb else PutRow(Mark(bb, row[0], sq), row[1..], sq + 1)
  }

  /** The pieces of ranks r .. 7. */
  function PutRows(bb: seq<Bitboard>, m: seq<int>, r: nat): (b: seq<Bitboard>)
    requires |bb| == 12 && |m| == 64 && Mailbox(m) && r < 8
    ensures |b| == 12
    decreases 8 - r
  {
    var next := PutRow(bb, RankOf(m, r), 8 * r);
    if r == 7 then next else PutRows(next, m, r + 1)
  }

  /** The walk over a string with no stopping character. */
  function Run(a: string, d: Dialect, w: Walk): (r: Walk)
    requires |w.bb| == 12
    ensures |r.bb| == 12 && r.rank >= w.rank
    decreases |a|
  {
    if |a| == 0 then w else Run(a[1..], d, Step(a[0], d, w))
  }

  lemma {:induction false} RunConcat(a: string, b: string, d: Dialect, w: Walk)
    requires |w.bb| == 12
    ensures Run(a + b, d, w) == Run(b, d, Run(a, d, w))
    decreases |a|
  {
    if |a| == 0 {
      assert a + b == b;
    } else {
      assert (a + b)[1..] == a[1..] + b;
      RunConcat(a[1..], b, d, Step(a[0], d, w));
    }
  }

  /** No space and no NUL. */
  predicate Plain(a: string)
  {
    forall k :: 0 <= k < |a| ==> a[k] != ' ' && a[k] != '\0'
  }

  /** Over plain text that ends short of the ninth rank, the walk does not stop. */
  lemma {:induction false} PlaceConcat(a: string, b: string, d: Dialect, w: Walk)
    requires |w.bb| == 12 && Plain(a) && Run(a, d, w).rank < 8
    ensures Place(a + b, d, w) == Place(b, d, Run(a, d, w))
    decreases |a|
  {
    if |a| == 0 {
      assert a + b == b;
    } else {
      assert (a + b)[0] == a[0];
      assert (a + b)[1..] == a[1..] + b;
      PlaceConcat(a[1..], b, d, Step(a[0], d, w));
    }
  }

  /** Reading one written rank puts its pieces in place and ends past its last file. */
  lemma {:induction false} RowRun(row: seq<int>, run: nat, d: Dialect, w: Walk)
    requires Mailbox(row) && run + |row| <= 8 && |w.bb| == 12
    ensures Run(RowText(row, run), d, w) ==
            Walk(w.rank, w.file + run + |row|, PutRow(w.bb, row, w.rank * 8 + w.file + run))
    decreases |row|, 1
  {
    if |row| == 0 {
      PendingRun(run, d, w);
    } else if row[0] == -1 {
      RowRun(row[1..], run + 1, d, w);
    } else {
      LetterFirstRun(row, run, d, w);
    }
  }

  /** `RowRun` when the rank's next square holds a piece. */
  lemma {:induction false} LetterFirstRun(row: seq<int>, run: nat, d: Dialect, w: Walk)
    requires Mailbox(row) && run + |row| <= 8 && |w.bb| == 12 && |row| > 0 && row[0] != -1
    ensures Run(RowText(row, run), d, w) ==
            Walk(w.rank, w.file + run + |row|, PutRow(w.bb, row, w.rank * 8 + w.file + run))
    decreases |row|, 0
  {
    var p := row[0];
    var base := w.rank * 8 + w.file + run;
    var placed := Walk(w.rank, w.file + run + 1, Mark(w.bb, p, base));
    var rest := RowText(row[1..], 0);
    PendingRun(run, d, w);
    LetterRun(p, d, Walk(w.rank, w.file + run, w.bb));
    RunConcat(Pending(run), [Letters[p]], d, w);
    assert Run(Pending(run) + [Letters[p]], d, w) == placed;
    RunConcat(Pending(run) + [Letters[p]], rest, d, w);
    assert RowText(row, run) == Pending(run) + [Letters[p]] + rest;
    RowRun(row[1..], 0, d, placed);
    assert PutRow(w.bb, row, base) == PutRow(placed.bb, row[1..], base + 1);
  }

  lemma PendingRun(run: nat, d: Dialect, w: Walk)
    requires run <= 8 && |w.bb| == 12
    ensures Run(Pending(run), d, w) == Walk(w.rank, w.file + run, w.bb)
  {
    if run != 0 {
      var skipped := Walk(w.rank, w.file + run, w.bb);
      assert Run(Pending(run)[1..], d, skipped) == skipped;
    }
  }

  lemma LetterRun(p: Piece, d: Dialect, w: Walk)
    requires |w.bb| == 12
    ensures Run([Letters[p]], d, w) == Walk(w.rank, w.file + 1, Mark(w.bb, p, w.rank * 8 + w.file))
  {
    LetterRoundTrip(p);
    var placed := Walk(w.rank, w.file + 1, Mark(w.bb, p, w.rank * 8 + w.file));
    assert Run([Letters[p]][1..], d, placed) == placed;
  }

  lemma {:induction false} RowTextPlain(row: seq<int>, run: nat)
    requires Mailbox(row) && run + |row| <= 8
    ensures Plain(RowText(row, run)) && forall k :: 0 <= k < |RowText(row, run)| ==> RowText(row, run)[k] != '/'
    decreases |row|
  {
    if |row| > 0 {
      if row[0] == -1 {
        RowTextPlain(row[1..], run + 1);
      } else {
        RowTextPlain(row[1..], 0);
      }
    }
  }

  lemma {:induction false} RowsPlain(m: seq<int>, r: nat)
    requires |m| == 64 && Mailbox(m) && r < 8
    ensures Plain(Rows(m, r))
    decreases 8 - r
  {
    RowTextPlain(m[8 * r..8 * r + 8], 0);
    if r < 7 {
      RowsPlain(m, r + 1);
    }
  }

  /** Reading the written ranks r .. 7 from the start of rank r ends after h1 with all their pieces placed. */
  lemma {:induction false} RowsRun(m: seq<int>, r: nat, d: Dialect, bb: seq<Bitboard>)
    requires |m| == 64 && Mailbox(m) && r < 8 && |bb| == 12
    ensures Run(Rows(m, r), d, Walk(r, 0, bb)) == Walk(7, 8, PutRows(bb, m, r))
    decreases 8 - r, 1
  {
    if r == 7 {
      RowRun(RankOf(m, r), 0, d, Walk(r, 0, bb));
    } else {
      RowsRunNext(m, r, d, bb);
    }
  }

  /** `RowsRun` for a rank followed by a '/' and further ranks. */
  lemma {:induction false} RowsRunNext(m: seq<int>, r: nat, d: Dialect, bb: seq<Bitboard>)
    requires |m| == 64 && Mailbox(m) && r < 7 && |bb| == 12
    ensures Run(Rows(m, r), d, Walk(r, 0, bb)) == Walk(7, 8, PutRows(bb, m, r))
    decreases 8 - r, 0
  {
    var row := RankOf(m, r);
    var text := RowText(row, 0);
    var next := PutRow(bb, row, 8 * r);
    var w := Walk(r, 0, bb);
    var rest := Rows(m, r + 1);
    RowRun(row, 0, d, w);
    assert Run(text, d, w) == Walk(r, 8, next);
    RunConcat(text, "/", d, w);
    SlashRun(d, r, next);
    assert Run(text + "/", d, w) == Walk(r + 1, 0, next);
    RunConcat(text + "/", rest, d, w);
    RowsRun(m, r + 1, d, next);
    assert Rows(m, r) == text + "/" + rest;
    assert PutRows(bb, m, r) == PutRows(next, m, r + 1);
  }

  lemma SlashRun(d: Dialect, r: int, bb: seq<Bitboard>)
    requires |bb| == 12
    ensures Run("/", d, Walk(r, 8, bb)) == Walk(r + 1, 0, bb)
  {
    assert Run("/"[1..], d, Walk(r + 1, 0, bb)) == Walk(r + 1, 0, bb);
  }

  /** Square i after putting the row's pieces on the squares from sq on. */
  lemma {:induction false} PutRowBits(bb: seq<Bitboard>, row: seq<int>, sq: int, p: Piece, i: int)
    requires |bb| == 12 && Mailbox(row) && 0 <= sq && sq + |row| <= 64 && 0 <= i < 64
    ensures Bit(PutRow(bb, row, sq)[p], SquareOf(i)) <==>
            Bit(bb[p], SquareOf(i)) || (sq <= i < sq + |row| && row[i - sq] == p)
    decreases |row|
  {
    if |row| > 0 {
      MarkBit(bb, row[0], sq, p, i);
      PutRowBits(Mark(bb, row[0], sq), row[1..], sq + 1, p, i);
    }
  }

  lemma MarkBit(bb: seq<Bitboard>, q: int, sq: int, p: Piece, i: int)
    requires |bb| == 12 && -1 <= q < 12 && 0 <= sq < 64 && 0 <= i < 64
    ensures Bit(Mark(bb, q, sq)[p], SquareOf(i)) <==> Bit(bb[p], SquareOf(i)) || (i == sq && q == p)
  {
    if q != -1 {
      assert SquareOf(i) == SquareOf(sq) <==> i == sq;
    }
  }

  lemma {:induction false} PutRowsBits(bb: seq<Bitboard>, m: seq<int>, r: nat, p: Piece, i: int)
    requires |bb| == 12 && |m| == 64 && Mailbox(m) && r < 8 && 0 <= i < 64
    ensures Bit(PutRows(bb, m, r)[p], SquareOf(i)) <==> Bit(bb[p], SquareOf(i)) || (8 * r <= i && m[i] == p)
    decreases 8 - r
  {
    RankBits(bb, m, r, p, i);
    if r < 7 {
      PutRowsBits(PutRow(bb, RankOf(m, r), 8 * r), m, r + 1, p, i);
    }
  }

  lemma RankBits(bb: seq<Bitboard>, m: seq<int>, r: nat, p: Piece, i: int)
    requires |bb| == 12 && |m| == 64 && Mailbox(m) && r < 8 && 0 <= i < 64
    ensures Bit(PutRow(bb, RankOf(m, r), 8 * r)[p], SquareOf(i)) <==>
            Bit(bb[p], SquareOf(i)) || (8 * r <= i < 8 * r + 8 && m[i] == p)
  {
    var row := RankOf(m, r);
    var base := 8 * r;
    PutRowBits(bb, row, base, p, i);
    if base <= i < base + 8 {
      assert row[i - base] == m[base + (i - base)];
    }
  }

  /** The pieces of a whole mailbox put on the empty position. */
  lemma MailboxBits(m: seq<int>, p: Piece, i: int)
    requires |m| == 64 && Mailbox(m) && 0 <= i < 64
    ensures Bit(PutRows(Empty(), m, 0)[p], SquareOf(i)) <==> m[i] == p
  {
    PutRowsBits(Empty(), m, 0, p, i);
    assert Empty()[p] == 0;
  }

  /** The walk over a written placement stops on the space or the end after it. */
  lemma PlacementStops(m: seq<int>, tail: string, d: Dialect)
    requires |m| == 64 && Mailbox(m)
    requires |tail| == 0 || tail[0] == ' '
    ensures Place(Rows(m, 0) + tail, d, Walk(0, 0, Empty())) == (|tail|, Walk(7, 8, PutRows(Empty(), m, 0)))
  {
    RowsPlain(m, 0);
    RowsRun(m, 0, d, Empty());
    PlaceConcat(Rows(m, 0), tail, d, Walk(0, 0, Empty()));
  }

  /**
   * The placement walk reads back any position written in FEN: after the
   * placement field of a mailbox, followed by a space or the end, each
   * piece board holds exactly the squares where the mailbox has that
   * piece.  This holds for both readers.
   */
  lemma PlacementRoundTrip(m: seq<int>, tail: string, d: Dialect)
    requires |m| == 64 && Mailbox(m)
    requires |tail| == 0 || tail[0] == ' '
    ensures var r := Place(Rows(m, 0) + tail, d, Walk(0, 0, Empty()));
      r.0 == |tail| && forall p: Piece, i | 0 <= i < 64 :: Bit(r.1.bb[p], SquareOf(i)) <==> m[i] == p
  {
    PlacementStops(m, tail, d);
    forall p: Piece, i | 0 <= i < 64
      ensures Bit(PutRows(Empty(), m, 0)[p], SquareOf(i)) <==> m[i] == p
    {
      MailboxBits(m, p, i);
    }
  }
}
