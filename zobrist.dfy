/**
 * Zobrist hashing: the xorshift generator, the key tables `init_hash_keys`
 * fills from it, the from-scratch key of `generate_hash_key`, and the
 * castling-rights mask table.
 *
 * The 12 x 64 table `piece_keys` is held row-major in one array of 768
 * words, the layout the C compiler gives the two-dimensional array.
 */
module Zobrist {
  import opened Bits
  import opened Squares
  import opened Occupancy
  import opened XorFold

  /** The fixed seed `init_hash_keys` (and the start-up state) uses. */
  const Seed: bv32 := 1804289383

  const PieceKeyCount := 768

  /** `number ^= number << 13`. */
  function Step13(x: bv32): bv32 { x ^ (x << 13) }
  /** `number ^= number >> 17`. */
  function Step17(x: bv32): bv32 { x ^ (x >> 17) }
  /** `number ^= number << 5`. */
  function Step5(x: bv32): bv32 { x ^ (x << 5) }

  /** One step of the 32-bit xorshift generator. */
  function Xorshift(x: bv32): bv32
  {
    Step5(Step17(Step13(x)))
  }

  /** The generator state after n steps from seed. */
  function StateAfter(seed: bv32, n: nat): bv32
    decreases n
  {
    if n == 0 then seed else Xorshift(StateAfter(seed, n - 1))
  }

  lemma {:induction false} StateAfterAdd(seed: bv32, m: nat, n: nat)
    ensures StateAfter(StateAfter(seed, m), n) == StateAfter(seed, m + n)
    decreases n
  {
    if n > 0 {
      StateAfterAdd(seed, m, n - 1);
    }
  }

  /** `(U64)x & 0xFFFF`. */
  function Low16(x: bv32): bv64
  {
    (x as bv64) & 0xFFFF
  }

  /** `n1 | (n2 << 16) | (n3 << 32) | (n4 << 48)` of `get_random_U64_number`. */
  function Join(a: bv32, b: bv32, c: bv32, d: bv32): bv64
  {
    Low16(a) | (Low16(b) << 16) | (Low16(c) << 32) | (Low16(d) << 48)
  }

  /** The four 16-bit fields of a joined word are the low halves of the four draws, in order. */
  lemma JoinFields(a: bv32, b: bv32, c: bv32, d: bv32)
    ensures Join(a, b, c, d) & 0xFFFF == Low16(a)
    ensures (Join(a, b, c, d) >> 16) & 0xFFFF == Low16(b)
    ensures (Join(a, b, c, d) >> 32) & 0xFFFF == Low16(c)
    ensures Join(a, b, c, d) >> 48 == Low16(d)
  {
  }

  /** The j-th 64-bit number drawn from seed. */
  function Draw(seed: bv32, j: nat): bv64
  {
    Join(StateAfter(seed, 4 * j + 1), StateAfter(seed, 4 * j + 2),
         StateAfter(seed, 4 * j + 3), StateAfter(seed, 4 * j + 4))
  }

  /** Drawing from a state reached after 4j steps continues the sequence from the seed. */
  lemma DrawShift(seed: bv32, j: nat)
    ensures Draw(StateAfter(seed, 4 * j), 0) == Draw(seed, j)
  {
    StateAfterAdd(seed, 4 * j, 1);
    StateAfterAdd(seed, 4 * j, 2);
    StateAfterAdd(seed, 4 * j, 3);
    StateAfterAdd(seed, 4 * j, 4);
  }

  /** The generator state `random_state`. */
  class Random {
    var state: bv32

    constructor (seed: bv32)
      ensures state == seed
    {
      state := seed;
    }

    /** `get_random_U32_number`. */
    method NextU32() returns (r: bv32)
      modifies this
      ensures state == Xorshift(old(state)) && r == state
    {
      var number := state;
      number := Step13(number);
      number := Step17(number);
      number := Step5(number);
      state := number;
      r := number;
    }

    /** `get_random_U64_number`: four draws, low 16 bits each. */
    method NextU64() returns (r: bv64)
      modifies this
      ensures r == Draw(old(state), 0)
      ensures state == StateAfter(old(state), 4)
    {
      var n1 := NextU32();
      var n2 := NextU32();
      var n3 := NextU32();
      var n4 := NextU32();
      r := Join(n1, n2, n3, n4);
    }

    /**
     * `generate_magic_candidate`: three 64-bit numbers drawn one after the
     * other, and-ed together.
     */
    method MagicCandidate() returns (r: bv64)
      modifies this
      ensures r == And3(Draw(old(state), 0), Draw(StateAfter(old(state), 4), 0),
                        Draw(StateAfter(StateAfter(old(state), 4), 4), 0))
      ensures state == StateAfter(StateAfter(StateAfter(old(state), 4), 4), 4)
    {
      var a := NextU64();
      var b := NextU64();
      var c := NextU64();
      r := And3(a, b, c);
    }
  }

  /** `a & b & c`: the and of three draws, which keeps a bit only where all three have it. */
  function And3(a: bv64, b: bv64, c: bv64): bv64 { a & b & c }

  /** The three draws of a magic candidate are draws 0, 1 and 2 of the sequence, and 12 steps are used. */
  lemma CandidateDraws(seed: bv32)
    ensures Draw(StateAfter(seed, 4), 0) == Draw(seed, 1)
    ensures Draw(StateAfter(StateAfter(seed, 4), 4), 0) == Draw(seed, 2)
    ensures StateAfter(StateAfter(StateAfter(seed, 4), 4), 4) == StateAfter(seed, 12)
  {
    StateAfterAdd(seed, 4, 4);
    StateAfterAdd(seed, 8, 4);
    DrawShift(seed, 1);
    DrawShift(seed, 2);
  }

  // ---------------------------------------------------------------------
  // Key tables
  // ---------------------------------------------------------------------

  /** The contents of the four key tables. */
  datatype Keys = Keys(piece: seq<bv64>, side: bv64, castle: seq<bv64>, enPassant: seq<bv64>)

  ghost predicate WellSized(k: Keys)
  {
    |k.piece| == PieceKeyCount && |k.castle| == 16 && |k.enPassant| == 64
  }

  /**
   * The tables `init_hash_keys` produces: the piece keys, the side key, the
   * castle keys and the en-passant keys are consecutive draws from Seed.
   */
  ghost function Generated(): (k: Keys)
    ensures WellSized(k)
  {
    Keys(Draws(0, PieceKeyCount), Draw(Seed, PieceKeyCount),
         Draws(PieceKeyCount + 1, 16), Draws(PieceKeyCount + 17, 64))
  }

  /** Draws number start, start + 1, ..., start + n - 1. */
  function Draws(start: nat, n: nat): (r: seq<bv64>)
    ensures |r| == n && forall i :: 0 <= i < n ==> r[i] == Draw(Seed, start + i)
  {
    seq(n, i requires 0 <= i => Draw(Seed, start + i))
  }

  /** A table whose entries are the draws from start on is Draws(start, its length). */
  lemma DrawsTable(s: seq<bv64>, start: nat)
    requires forall i :: 0 <= i < |s| ==> s[i] == Draw(Seed, start + i)
    ensures s == Draws(start, |s|)
  {
  }

  /** `piece_keys`, `side_key`, `castle_keys` and `enpassant_keys`. */
  class KeyTables {
    const piece: array<bv64>
    const castle: array<bv64>
    const enPassant: array<bv64>
    var side: bv64

    ghost predicate Valid()
      reads this
    {
      piece.Length == PieceKeyCount && castle.Length == 16 && enPassant.Length == 64 &&
      piece != castle && piece != enPassant && castle != enPassant
    }

    ghost function Current(): (k: Keys)
      requires Valid()
      reads this, piece, castle, enPassant
      ensures WellSized(k)
    {
      Keys(piece[..], side, castle[..], enPassant[..])
    }

    constructor ()
      ensures Valid() && fresh(piece) && fresh(castle) && fresh(enPassant)
    {
      piece := new bv64[PieceKeyCount];
      castle := new bv64[16];
      enPassant := new bv64[64];
      side := 0;
    }

    /**
     * `init_hash_keys`: reseed, then fill the tables in declaration order.
     * The result depends on nothing but the seed.
     */
    method InitHashKeys(rng: Random)
      requires Valid()
      modifies this, piece, castle, enPassant, rng
      ensures Valid() && Current() == Generated()
      ensures rng.state == StateAfter(Seed, 4 * (PieceKeyCount + 81))
    {
      rng.state := Seed;
      InitPieceKeys(rng);
      side := NextDraw(rng, PieceKeyCount);
      FillTable(rng, castle, PieceKeyCount + 1);
      FillTable(rng, enPassant, PieceKeyCount + 17);
    }

    /** The nested loops of `init_hash_keys` over pieces and squares. */
    method InitPieceKeys(rng: Random)
      requires Valid() && rng.state == Seed
      modifies piece, rng
      ensures piece[..] == Draws(0, PieceKeyCount)
      ensures rng.state == StateAfter(Seed, 4 * PieceKeyCount)
    {
      for p := 0 to 12
        invariant rng.state == StateAfter(Seed, 4 * (64 * p))
        invariant forall i :: 0 <= i < 64 * p ==> piece[i] == Draw(Seed, i)
      {
        FillKeys(rng, piece, 64 * p, 64 * p + 64, 64 * p);
      }
      DrawsTable(piece[..], 0);
    }


    /**
     * `generate_hash_key` for the position given by the 12 piece boards,
     * side, en-passant square and castling rights: every piece-square key
     * of the position, the side key when black is to move, the en-passant
     * key when there is a square, and the castle key.
     */
    method GenerateHashKey(bitboards: seq<Bitboard>, sideToMove: int, enPassantSq: int, rights: Rights)
      returns (key: bv64)
      requires Valid() && |bitboards| == 12 && 0 <= enPassantSq <= NoSquare
      ensures key == PositionKey(Current(), bitboards, sideToMove, enPassantSq, rights)
    {
      key := XorPieces(piece[..], bitboards);
      key := XorState(key, sideToMove, enPassantSq, rights);
    }


    /** The tail of `generate_hash_key`: the side, en-passant and castling keys. */
    method XorState(h: bv64, sideToMove: int, enPassantSq: int, rights: Rights) returns (key: bv64)
      requires Valid() && 0 <= enPassantSq <= NoSquare
      ensures key == Xor(Xor(Xor(h, SideKey(Current(), sideToMove)), EnPassantKey(Current(), enPassantSq)),
                         Current().castle[rights as int])
    {
      key := h;
      XorZero(key);
      if sideToMove == Black {
        key := Xor(key, side);
      }
      XorZero(key);
      if enPassantSq != NoSquare {
        key := Xor(key, enPassant[enPassantSq]);
      }
      key := Xor(key, castle[rights as int]);
    }
  }

  /**
   * The inner loop of `generate_hash_key`: XOR in keys[base + s] for every
   * square s of one board, lowest square first.
   */
  method XorBoard(keys: seq<bv64>, key: bv64, bitboard: Bitboard, base: int) returns (r: bv64)
    requires 0 <= base && base + 64 <= |keys|
    ensures r == Xor(key, BoardHash(bitboard, keys, base))
  {
    r := key;
    var rest := bitboard;
    while rest != 0
      invariant Xor(r, BoardHash(rest, keys, base)) == Xor(key, BoardHash(bitboard, keys, base))
      decreases PopCount(rest)
    {
      var sq := LowSq(rest);
      PopCountClear(rest, sq);
      HashStep(r, rest, keys, base);
      r := Xor(r, keys[base + sq as int]);
      rest := PopBitClear(rest, sq);
    }
    XorZero(r);
  }

  /** The piece part of `generate_hash_key`: every board in piece order. */
  method XorPieces(keys: seq<bv64>, bitboards: seq<Bitboard>) returns (key: bv64)
    requires |keys| == PieceKeyCount && |bitboards| == 12
    ensures key == PiecesHash(keys, bitboards, |bitboards|)
  {
    key := 0;
    for p := 0 to 12
      invariant key == PiecesHash(keys, bitboards, p)
    {
      PiecesHashStep(keys, bitboards, p);
      key := XorBoard(keys, key, bitboards[p], 64 * p);
    }
  }

  /**
   * One run of `get_random_U64_number` calls storing into a[lo .. hi): the
   * key at a[i] is draw number start + (i - lo), and nothing else in a
   * changes.
   */
  method FillKeys(rng: Random, a: array<bv64>, lo: int, hi: int, start: nat)
    requires 0 <= lo <= hi <= a.Length
    requires rng.state == StateAfter(Seed, 4 * start)
    modifies rng, a
    ensures forall i :: lo <= i < hi ==> a[i] == Draw(Seed, start + (i - lo))
    ensures forall i :: 0 <= i < a.Length && !(lo <= i < hi) ==> a[i] == old(a[i])
    ensures rng.state == StateAfter(Seed, 4 * (start + (hi - lo)))
  {
    for j := lo to hi
      invariant rng.state == StateAfter(Seed, 4 * (start + (j - lo)))
      invariant forall i :: lo <= i < j ==> a[i] == Draw(Seed, start + (i - lo))
      invariant forall i :: 0 <= i < a.Length && !(lo <= i < j) ==> a[i] == old(a[i])
    {
      a[j] := NextDraw(rng, start + (j - lo));
    }
  }

  /** One loop of `init_hash_keys` over a whole table. */
  method FillTable(rng: Random, a: array<bv64>, start: nat)
    requires rng.state == StateAfter(Seed, 4 * start)
    modifies rng, a
    ensures a[..] == Draws(start, a.Length)
    ensures rng.state == StateAfter(Seed, 4 * (start + a.Length))
  {
    FillKeys(rng, a, 0, a.Length, start);
    DrawsTable(a[..], start);
  }

  /** One 64-bit draw, stored as key number `count` of the sequence. */
  method NextDraw(rng: Random, ghost count: nat) returns (r: bv64)
    requires rng.state == StateAfter(Seed, 4 * count)
    modifies rng
    ensures r == Draw(Seed, count)
    ensures rng.state == StateAfter(Seed, 4 * (count + 1))
  {
    r := rng.NextU64();
    DrawShift(Seed, count);
    StateAfterAdd(Seed, 4 * count, 4);
  }

  // ---------------------------------------------------------------------
  // The key of a position
  // ---------------------------------------------------------------------

  /** Square i, given as an index, belongs to b. */
  predicate BitAt(b: Bitboard, i: int)
    requires 0 <= i < 64
  {
    Bit(b, i as bv8)
  }

  /** The squares of a bitboard as 64 flags. */
  function Mask(b: Bitboard): (m: seq<bool>)
    ensures |m| == 64
  {
    seq(64, i requires 0 <= i < 64 => BitAt(b, i))
  }

  lemma IndexRoundTrip(i: int)
    requires 0 <= i < 64
    ensures (i as bv8) as int == i
  {
  }

  lemma SquareRoundTrip(s: Square)
    ensures (s as int) as bv8 == s
  {
  }

  lemma IndexSquare(i: int, s: Square)
    requires 0 <= i < 64
    ensures (i as bv8 == s) <==> (i == s as int)
  {
    IndexRoundTrip(i);
    SquareRoundTrip(s);
  }

  lemma MaskClearAt(b: Bitboard, s: Square, i: int)
    requires 0 <= i < 64
    ensures Mask(PopBitClear(b, s))[i] == (i != s as int && Mask(b)[i])
  {
    IndexSquare(i, s);
    assert BitAt(PopBitClear(b, s), i) == (i != s as int && BitAt(b, i));
  }

  lemma MaskClear(b: Bitboard, s: Square)
    ensures Mask(PopBitClear(b, s)) == Mask(b)[s as int := false]
  {
    forall i | 0 <= i < 64
      ensures Mask(PopBitClear(b, s))[i] == Mask(b)[s as int := false][i]
    {
      MaskClearAt(b, s, i);
    }
  }

  /** The XOR of keys[base + s] over the squares s of b, as a set. */
  function SquaresHash(b: Bitboard, keys: seq<bv64>, base: int): bv64
    requires 0 <= base && base + 64 <= |keys|
  {
    Fold(Mask(b), keys, base, 64, Xor, 0)
  }

  lemma SquaresHashEmpty(keys: seq<bv64>, base: int)
    requires 0 <= base && base + 64 <= |keys|
    ensures SquaresHash(0, keys, base) == 0
  {
    forall t | 0 <= t < 64
      ensures !Mask(0)[t]
    {
      assert !Bit(0, t as bv8);
    }
    FoldNone(Mask(0), keys, base, 64, Xor, 0);
  }

  /** Removing any square from a board removes exactly its key from the board's hash. */
  lemma SquaresHashClear(b: Bitboard, s: Square, keys: seq<bv64>, base: int)
    requires Bit(b, s) && 0 <= base && base + 64 <= |keys|
    ensures Xor(SquaresHash(PopBitClear(b, s), keys, base), keys[base + s as int]) == SquaresHash(b, keys, base)
  {
    MaskClear(b, s);
    XorGroup();
    FoldClear(Mask(b), keys, base, 64, s as int, Xor, 0);
  }

  /**
   * The XOR of keys[base + s] over the squares s of b in the order
   * `generate_hash_key` visits them: lowest square first, each popped
   * before the next is found.
   */
  function BoardHash(b: Bitboard, keys: seq<bv64>, base: int): bv64
    requires 0 <= base && base + 64 <= |keys|
    decreases PopCount(b)
  {
    if b == 0 then 0
    else
      PopCountClear(b, LowSq(b));
      Xor(BoardHash(PopBitClear(b, LowSq(b)), keys, base), keys[base + LowSq(b) as int])
  }

  /** The order the loop visits the squares in does not matter: it hashes the set. */
  lemma {:induction false} BoardHashIsSquaresHash(b: Bitboard, keys: seq<bv64>, base: int)
    requires 0 <= base && base + 64 <= |keys|
    ensures BoardHash(b, keys, base) == SquaresHash(b, keys, base)
    decreases PopCount(b)
  {
    if b == 0 {
      SquaresHashEmpty(keys, base);
    } else {
      var s := LowSq(b);
      PopCountClear(b, s);
      BoardHashIsSquaresHash(PopBitClear(b, s), keys, base);
      SquaresHashClear(b, s, keys, base);
    }
  }

  /** Popping the lowest square and XOR-ing its key into key keeps the sum of key and the board's hash. */
  lemma HashStep(key: bv64, b: Bitboard, keys: seq<bv64>, base: int)
    requires b != 0 && 0 <= base && base + 64 <= |keys|
    ensures Xor(Xor(key, keys[base + LowSq(b) as int]), BoardHash(PopBitClear(b, LowSq(b)), keys, base)) ==
            Xor(key, BoardHash(b, keys, base))
  {
    XorGroup();
    MoveKey(Xor, key, keys[base + LowSq(b) as int], BoardHash(PopBitClear(b, LowSq(b)), keys, base));
  }

  /** The XOR of the piece-square keys of the first p piece boards. */
  function PiecesHash(keys: seq<bv64>, bitboards: seq<Bitboard>, p: int): bv64
    requires |keys| == PieceKeyCount && |bitboards| == 12 && 0 <= p <= 12
    decreases p
  {
    if p == 0 then 0
    else Xor(PiecesHash(keys, bitboards, p - 1), BoardHash(bitboards[p - 1], keys, 64 * (p - 1)))
  }

  lemma PiecesHashStep(keys: seq<bv64>, bitboards: seq<Bitboard>, p: int)
    requires |keys| == PieceKeyCount && |bitboards| == 12 && 0 <= p < 12
    ensures PiecesHash(keys, bitboards, p + 1) == Xor(PiecesHash(keys, bitboards, p), BoardHash(bitboards[p], keys, 64 * p))
  {
  }

  /** Castling rights: `wk` 1, `wq` 2, `bk` 4, `bq` 8. */
  type Rights = c: bv8 | c < 16

  /** The side key when black is to move, else nothing. */
  function SideKey(k: Keys, sideToMove: int): bv64
  {
    if sideToMove == Black then k.side else 0
  }

  /** The en-passant key of the square when there is one, else nothing. */
  function EnPassantKey(k: Keys, enPassantSq: int): bv64
    requires WellSized(k) && 0 <= enPassantSq <= NoSquare
  {
    if enPassantSq != NoSquare then k.enPassant[enPassantSq] else 0
  }

  /** The Zobrist key of a position. */
  function PositionKey(k: Keys, bitboards: seq<Bitboard>, sideToMove: int, enPassantSq: int, rights: Rights): bv64
    requires WellSized(k) && |bitboards| == 12 && 0 <= enPassantSq <= NoSquare
  {
    Xor(Xor(Xor(PiecesHash(k.piece, bitboards, |bitboards|), SideKey(k, sideToMove)),
            EnPassantKey(k, enPassantSq)),
        k.castle[rights as int])
  }

  // ---------------------------------------------------------------------
  // Incremental updates: what `make_move` XORs into `hash_key`
  // ---------------------------------------------------------------------

  /** Taking a square off a board XORs its key into the board's hash. */
  lemma BoardHashPop(b: Bitboard, s: Square, keys: seq<bv64>, base: int)
    requires Bit(b, s) && 0 <= base && base + 64 <= |keys|
    ensures BoardHash(PopBitClear(b, s), keys, base) == Xor(BoardHash(b, keys, base), keys[base + s as int])
  {
    BoardHashIsSquaresHash(b, keys, base);
    BoardHashIsSquaresHash(PopBitClear(b, s), keys, base);
    SquaresHashClear(b, s, keys, base);
    XorTwice(SquaresHash(PopBitClear(b, s), keys, base), keys[base + s as int]);
  }

  lemma SetThenClear(b: Bitboard, s: Square)
    requires !Bit(b, s)
    ensures PopBitClear(SetBit(b, s), s) == b && Bit(SetBit(b, s), s)
  {
    Extensionality(PopBitClear(SetBit(b, s), s), b);
  }

  /** Putting a square on a board XORs its key into the board's hash. */
  lemma BoardHashSet(b: Bitboard, s: Square, keys: seq<bv64>, base: int)
    requires !Bit(b, s) && 0 <= base && base + 64 <= |keys|
    ensures BoardHash(SetBit(b, s), keys, base) == Xor(BoardHash(b, keys, base), keys[base + s as int])
  {
    SetThenClear(b, s);
    BoardHashIsSquaresHash(b, keys, base);
    BoardHashIsSquaresHash(SetBit(b, s), keys, base);
    SquaresHashClear(SetBit(b, s), s, keys, base);
  }

  /** The hash of each of the twelve piece boards. */
  function BoardHashes(keys: seq<bv64>, bitboards: seq<Bitboard>): (r: seq<bv64>)
    requires |keys| == PieceKeyCount && |bitboards| == 12
    ensures |r| == 12
  {
    seq(12, p requires 0 <= p < 12 => BoardHash(bitboards[p], keys, 64 * p))
  }

  lemma {:induction false} PiecesHashCombine(keys: seq<bv64>, bitboards: seq<Bitboard>, n: int)
    requires |keys| == PieceKeyCount && |bitboards| == 12 && 0 <= n <= 12
    ensures PiecesHash(keys, bitboards, n) == Combine(BoardHashes(keys, bitboards), n, Xor, 0)
    decreases n
  {
    if n > 0 {
      PiecesHashCombine(keys, bitboards, n - 1);
    }
  }

  lemma BoardHashesUpdate(keys: seq<bv64>, bitboards: seq<Bitboard>, p: int, b: Bitboard, key: bv64)
    requires |keys| == PieceKeyCount && |bitboards| == 12 && 0 <= p < 12
    requires BoardHash(b, keys, 64 * p) == Xor(BoardHash(bitboards[p], keys, 64 * p), key)
    ensures BoardHashes(keys, bitboards[p := b]) ==
            BoardHashes(keys, bitboards)[p := Xor(BoardHashes(keys, bitboards)[p], key)]
  {
  }

  /** Changing one piece board by a key changes the pieces' hash by that key. */
  lemma PiecesHashDelta(keys: seq<bv64>, bitboards: seq<Bitboard>, p: int, b: Bitboard, key: bv64)
    requires |keys| == PieceKeyCount && |bitboards| == 12 && 0 <= p < 12
    requires BoardHash(b, keys, 64 * p) == Xor(BoardHash(bitboards[p], keys, 64 * p), key)
    ensures PiecesHash(keys, bitboards[p := b], |bitboards[p := b]|) == Xor(PiecesHash(keys, bitboards, |bitboards|), key)
  {
    BoardHashesUpdate(keys, bitboards, p, b, key);
    PiecesHashCombine(keys, bitboards, |bitboards|);
    PiecesHashCombine(keys, bitboards[p := b], |bitboards|);
    CombineXor(BoardHashes(keys, bitboards), p, key);
  }

  /** XOR-ing key into one of the twelve hashes XORs key into their XOR. */
  lemma CombineXor(xs: seq<bv64>, p: int, key: bv64)
    requires 0 <= p < |xs| == 12
    ensures Combine(xs[p := Xor(xs[p], key)], |xs|, Xor, 0) == Xor(Combine(xs, |xs|, Xor, 0), key)
  {
    XorGroup();
    CombineDelta(xs, p, key, |xs|, Xor, 0);
  }

  /** A position key with one of its four parts changed by d is the old key changed by d. */
  lemma KeyParts(a: bv64, b: bv64, c: bv64, e: bv64, d: bv64)
    ensures Xor(Xor(Xor(Xor(a, d), b), c), e) == Xor(Xor(Xor(Xor(a, b), c), e), d)
    ensures Xor(Xor(Xor(a, Xor(b, d)), c), e) == Xor(Xor(Xor(Xor(a, b), c), e), d)
    ensures Xor(Xor(Xor(a, b), Xor(c, d)), e) == Xor(Xor(Xor(Xor(a, b), c), e), d)
    ensures Xor(Xor(Xor(a, b), c), Xor(e, d)) == Xor(Xor(Xor(Xor(a, b), c), e), d)
  {
    XorGroup();
    Quad(Xor, a, b, c, e, d);
  }

  /** A change of the pieces' hash by a key changes the position key by that key. */
  lemma PositionKeyPieces(k: Keys, bitboards: seq<Bitboard>, bitboards': seq<Bitboard>, sideToMove: int, ep: int,
                          rights: Rights, key: bv64)
    requires WellSized(k) && |bitboards| == 12 && |bitboards'| == 12 && 0 <= ep <= NoSquare
    requires PiecesHash(k.piece, bitboards', |bitboards'|) == Xor(PiecesHash(k.piece, bitboards, |bitboards|), key)
    ensures PositionKey(k, bitboards', sideToMove, ep, rights) == Xor(PositionKey(k, bitboards, sideToMove, ep, rights), key)
  {
    KeyParts(PiecesHash(k.piece, bitboards, |bitboards|), SideKey(k, sideToMove), EnPassantKey(k, ep), k.castle[rights as int], key);
  }

  /** `pop_bit` of a piece that is there, with its key XOR-ed in, keeps the key of the position. */
  lemma PositionKeyPop(k: Keys, bitboards: seq<Bitboard>, p: int, s: Square, sideToMove: int, ep: int, rights: Rights)
    requires WellSized(k) && |bitboards| == 12 && 0 <= ep <= NoSquare && 0 <= p < 12 && Bit(bitboards[p], s)
    ensures PositionKey(k, bitboards[p := PopBitClear(bitboards[p], s)], sideToMove, ep, rights) ==
            Xor(PositionKey(k, bitboards, sideToMove, ep, rights), k.piece[64 * p + s as int])
  {
    var key := k.piece[64 * p + s as int];
    BoardHashPop(bitboards[p], s, k.piece, 64 * p);
    PiecesHashDelta(k.piece, bitboards, p, PopBitClear(bitboards[p], s), key);
    PositionKeyPieces(k, bitboards, bitboards[p := PopBitClear(bitboards[p], s)], sideToMove, ep, rights, key);
  }

  /** `set_bit` of a piece that is not there, with its key XOR-ed in, keeps the key of the position. */
  lemma PositionKeySet(k: Keys, bitboards: seq<Bitboard>, p: int, s: Square, sideToMove: int, ep: int, rights: Rights)
    requires WellSized(k) && |bitboards| == 12 && 0 <= ep <= NoSquare && 0 <= p < 12 && !Bit(bitboards[p], s)
    ensures PositionKey(k, bitboards[p := SetBit(bitboards[p], s)], sideToMove, ep, rights) ==
            Xor(PositionKey(k, bitboards, sideToMove, ep, rights), k.piece[64 * p + s as int])
  {
    var key := k.piece[64 * p + s as int];
    BoardHashSet(bitboards[p], s, k.piece, 64 * p);
    PiecesHashDelta(k.piece, bitboards, p, SetBit(bitboards[p], s), key);
    PositionKeyPieces(k, bitboards, bitboards[p := SetBit(bitboards[p], s)], sideToMove, ep, rights, key);
  }

  lemma SideKeyFlip(k: Keys, sideToMove: int)
    requires sideToMove == White || sideToMove == Black
    ensures SideKey(k, 1 - sideToMove) == Xor(SideKey(k, sideToMove), k.side)
  {
    if sideToMove == White {
      ZeroXor(k.side);
    } else {
      XorSelf(k.side);
    }
  }

  /** Passing the move to the other side XORs the side key. */
  lemma PositionKeySide(k: Keys, bitboards: seq<Bitboard>, sideToMove: int, ep: int, rights: Rights)
    requires WellSized(k) && |bitboards| == 12 && 0 <= ep <= NoSquare && (sideToMove == White || sideToMove == Black)
    ensures PositionKey(k, bitboards, 1 - sideToMove, ep, rights) == Xor(PositionKey(k, bitboards, sideToMove, ep, rights), k.side)
  {
    SideKeyFlip(k, sideToMove);
    KeyParts(PiecesHash(k.piece, bitboards, |bitboards|), SideKey(k, sideToMove), EnPassantKey(k, ep), k.castle[rights as int], k.side);
  }

  /** Changing the en-passant square XORs out the old square's key and XORs in the new one's. */
  lemma PositionKeyEnPassant(k: Keys, bitboards: seq<Bitboard>, sideToMove: int, ep: int, ep': int, rights: Rights)
    requires WellSized(k) && |bitboards| == 12 && 0 <= ep <= NoSquare && 0 <= ep' <= NoSquare
    ensures PositionKey(k, bitboards, sideToMove, ep', rights) ==
            Xor(Xor(PositionKey(k, bitboards, sideToMove, ep, rights), EnPassantKey(k, ep)), EnPassantKey(k, ep'))
  {
    var e := EnPassantKey(k, ep);
    var e' := EnPassantKey(k, ep');
    var d := Xor(e, e');
    XorAssocLaw();
    XorSelf(e);
    ZeroXor(e');
    assert Xor(e, d) == e';
    KeyParts(PiecesHash(k.piece, bitboards, |bitboards|), SideKey(k, sideToMove), e, k.castle[rights as int], d);
  }

  /** Changing the castling rights XORs out the old rights' key and XORs in the new one's. */
  lemma PositionKeyRights(k: Keys, bitboards: seq<Bitboard>, sideToMove: int, ep: int, rights: Rights, rights': Rights)
    requires WellSized(k) && |bitboards| == 12 && 0 <= ep <= NoSquare
    ensures PositionKey(k, bitboards, sideToMove, ep, rights') ==
            Xor(Xor(PositionKey(k, bitboards, sideToMove, ep, rights), k.castle[rights as int]), k.castle[rights' as int])
  {
    var c := k.castle[rights as int];
    var c' := k.castle[rights' as int];
    var d := Xor(c, c');
    XorAssocLaw();
    XorSelf(c);
    ZeroXor(c');
    assert Xor(c, d) == c';
    KeyParts(PiecesHash(k.piece, bitboards, |bitboards|), SideKey(k, sideToMove), EnPassantKey(k, ep), c, d);
  }
}
