# Fe64 core, modelled in Dafny

Fe64 is a bitboard chess engine written in C. It has two builds: the main engine under `src/` and a modular variant under `src/modular_backup/`. Python scripts around it train its NNUE evaluation network, build Polyglot opening books and analyse the games it played. This project models the integer and bit-level core of all of them and proves what each part promises.

The modules follow the engine's own structure:

- `Bits`, `Squares`, `Moves`, `CArith`: 64-bit square sets ("bitboards") and their get/set/pop, population count and lowest-bit primitives, the square and mask tables, the 24-bit move word with its getters, the bounded move list, and C's truncating division and 32-bit wrap-around.
- `Leapers`, `Sliders`, `Occupancy`, `MaskCount`, `Magic`: the pawn, knight and king attack masks, the bishop and rook ray walks, the relevant-occupancy masks, `set_occupancy`, and the magic-number check and table fill. The magic lookup is proved equal to the ray walk.
- `Position`, `Zobrist`, `XorFold`, `Boards`, `MoveGen`, `Queries`, `Placement`, `Fen`: the position and its occupancies, the xorshift generator and the Zobrist keys, `make_move` with its copy-and-restore rollback, the null move, pseudo-legal move generation, the check, repetition and draw tests, and FEN parsing and writing. The incrementally updated key is proved equal to the key computed from scratch.
- `TransTable`, `AgedTable`: the main engine's depth-preferring transposition table and the modular engine's aged one, each with its mate-score adjustment.
- `History`, `MoveOrdering`, `Exchange`, `SearchBounds`, `Limits`: the killer, history, butterfly, capture-history and counter-move tables, move scoring and selection, static exchange evaluation, and the arithmetic around the search: reductions, mate-distance bounds, aspiration windows, mate reporting and perft.
- `Tokens`, `MoveNotation`, `Chains`, `PositionCommand`, `Uci`: the UCI front ends' tokenizers, move text, the `position` command's replay and repetition table, `setoption` clamps and the time each `go` allows.
- `Evaluation`, `ModularEvaluation`: the integer helpers of both hand-written evaluations.
- `Polyglot`, `BookBuilder`: the engine's Polyglot book reader and the script that builds books.
- `Nnue`, `NnueTrainer`, `LichessTrainer`, `ScriptBoards`, `GameAnalysis`: NNUE feature indices, the weight files and their load/save round trips, the trainers' discrete steps (features, active rows, targets, batching, schedules), and the game-analysis script.

Imperative code stays imperative. Classes with `modifies` clauses model the board, the tables, the book shelf and the networks. Loops are methods with invariants, proved against specification functions.

## Model

| member | source | states |
|---|---|---|
| CArith.Wrap32 | src/modular_backup/hash.c:151 | the result lies in the signed 32-bit range and differs from the exact value by a multiple of 2^32, as a C int product does |
| CArith.CDiv | src/modular_backup/evaluate.c:251 | C division truncates toward zero: the quotient carries the dividend's sign and its multiple of the divisor lies within one divisor of the dividend on the zero side |
| CArith.CDivNegate | src/modular_backup/evaluate.c:830 | dividing a negated value gives the negated quotient |
| CArith.CDivShrinks | src/modular_backup/evaluate.c:830 | dividing by a positive divisor never moves a value away from zero |
| CArith.CDivMonotone | src/modular_backup/evaluate.c:251 | dividing by a positive divisor keeps the order of the dividends |
| Bits.GetBit | src/types.h:184 | the masked bit is 0 or the square's own bit, and nonzero exactly when the square is in the set |
| Bits.SetBit | src/types.h:185 | the result holds exactly the old squares plus the given one |
| Bits.PopBitToggle | src/types.h:186 | the result holds exactly the old squares minus the given one, and an absent square leaves the word unchanged |
| Bits.PopBitClear | src/modular_backup/include/types.h:407 | the result holds exactly the old squares minus the given one |
| Bits.PopBitVariantsAgree | src/modular_backup/include/types.h:407 | the toggling and the clearing `pop_bit` macros compute the same word on every input |
| Bits.PopCountZero | src/types.h:353-362 | the population count is zero exactly for the empty word |
| Bits.LowestSpec | src/types.h:365-370 | the lowest index is 64 exactly for the empty word, otherwise a member with no member below it |
| Bits.ClearLowestCount | src/types.h:356-360 | one round of `bitboard &= bitboard - 1` removes exactly the lowest square |
| Bits.CountBits | src/types.h:353-362 | returns the population count of the word, at most 64 |
| Bits.GetLs1bIndex | src/types.h:365-370 | -1 exactly for the empty word, otherwise the index of the lowest set bit |
| Squares.DecimalMasks | src/bitboard.c:175-178 | the four edge masks equal the decimal literals of the single-file engine |
| Squares.NotFileBits | src/modular_backup/types.c:20-23 | each edge mask holds exactly the squares off its file or files |
| Squares.FileMaskBit | src/modular_backup/types.c:26-35 | `file_masks[f]` holds exactly the squares of file f |
| Squares.RankMaskBit | src/modular_backup/types.c:38-47 | `rank_masks[i]` holds exactly the squares of rank index 7 - i (rank index 0 holds a8..h8), so entry 0, 0xFF00000000000000, is the first rank a1..h1 although its comment names the eighth |
| Squares.NotFileComplements | src/modular_backup/types.c:20-35 | the edge masks are the complements of the outer file masks |
| Squares.FileMasksPartition | src/modular_backup/types.c:26-35 | every square lies in exactly one file mask |
| Squares.RankMasksPartition | src/modular_backup/types.c:38-47 | every square lies in exactly one rank mask |
| Squares.CoordInjective | src/modular_backup/types.c:62-72 | distinct squares have distinct two-character names |
| Squares.SquareToCoordSpec | src/modular_backup/types.c:62-72 | `square_to_coord[s]` is the file letter and rank digit of s, and entry 64 is "-" |
| Squares.SideOf | src/types.h:121-135 | a piece belongs to black exactly when its code is at least 6 |
| Moves.FieldMasksDisjoint | src/types.h:204-221 | the eight move fields occupy pairwise disjoint bits below bit 24 |
| Moves.SourceRoundTrip | src/types.h:204-214 | the source getter returns the source given to `encode_move` |
| Moves.TargetRoundTrip | src/types.h:204-215 | the target getter returns the target given to `encode_move` |
| Moves.PieceRoundTrip | src/types.h:204-216 | the piece getter returns the piece given to `encode_move` |
| Moves.PromotedRoundTrip | src/types.h:204-217 | the promoted getter returns the promoted piece given to `encode_move` |
| Moves.FlagsRoundTrip | src/types.h:204-221 | each flag getter is nonzero exactly when its flag was set by `encode_move` |
| Moves.EncodeDecode | src/types.h:203-220 | every getter returns its own field of an in-range encoded move |
| Moves.DecodeEncode | src/types.h:204-221 | a word using only the low 24 bits is rebuilt exactly from its decoded fields |
| Moves.QuietEncoded | src/types.h:204-221 | an encoded move is quiet exactly when its capture flag and promoted piece are zero |
| Moves.MoveList.Clear | src/movegen.c:66-68 | the list is emptied and keeps its buffer |
| Moves.MoveList.AddMove | src/movegen.c:18-22 | the move is appended at index `count` and nothing else in the list changes |
| Tokens.SkipWs | src/modular_backup/uci.c:77-82 | the first position at or after i that is not a space or tab, with every position between them blank |
| Tokens.SkipWhitespace | src/modular_backup/uci.c:77-82 | the loop returns the position `SkipWs` names |
| Tokens.SkipWord | src/modular_backup/uci.c:87-92 | the loop stops at the first NUL, space or tab at or after i |
| Tokens.NextToken | src/modular_backup/uci.c:87-92 | the position past the word and the blanks after it, never before i |
| Tokens.Find | src/uci.c:218-230 | `strstr`: -1 when the pattern does not occur from i on, otherwise the first index at or after i where it occurs |
| Leapers.MaskKnightAttacks | src/attacks.c:42-66 | the mask holds exactly the on-board knight jumps from the square |
| Leapers.MaskKingAttacks | src/attacks.c:68-92 | the mask holds exactly the on-board squares one king step away |
| Leapers.MaskPawnAttacks | src/attacks.c:19-40 | the mask holds exactly the two forward-diagonal squares of the side's pawn that stay on the board |
| Leapers.KnightAt | src/attacks.c:42-66 | the eight guarded shifts with their edge masks together hit a square exactly when it is a knight jump away |
| Leapers.KingAt | src/attacks.c:68-92 | the eight guarded shifts together hit a square exactly when it is one king step away |
| Leapers.WhitePawnAt | src/attacks.c:25-31 | the white shifts by 7 and 9 hit a square exactly when a white pawn captures onto it |
| Leapers.BlackPawnAt | src/attacks.c:32-38 | the black shifts by 7 and 9 hit a square exactly when a black pawn captures onto it |
| Sliders.WalkRay | src/attacks.c:116-121 | one ray loop adds exactly the squares along the direction up to and including the first blocker |
| Sliders.GetBishopAttacks | src/attacks.c:109-141 | the attack set is exactly the union of the four diagonal rays, each stopping at and including its first blocker |
| Sliders.GetRookAttacks | src/attacks.c:143-175 | the attack set is exactly the union of the four orthogonal rays, each stopping at and including its first blocker |
| Sliders.GetQueenAttacks | src/attacks.c:177-180 | the queen attack set is exactly the union of the bishop and rook attack sets |
| Sliders.ReachesLine | src/attacks.c:117-140 | the recursive ray predicate agrees with the prefix of the ray's square list cut at the first blocker |
| Sliders.ReachStops | src/attacks.c:117-140 | a ray cut short of the board's edge is non-empty and ends on an occupied square |
| Sliders.ReachFree | src/attacks.c:117-140 | every square of a ray before its last one is empty |
| Sliders.SliderExcludesOrigin | src/attacks.c:109-175 | a bishop or rook never attacks its own square |
| Sliders.MaskRay | src/attacks.c:192-193 | one mask loop adds exactly the squares of the direction that have a further square beyond them |
| Sliders.MaskBishopOccupancy | src/attacks.c:186-203 | the relevant-occupancy mask holds exactly the diagonal squares that are not the last of their ray |
| Sliders.MaskRookOccupancy | src/attacks.c:205-222 | the relevant-occupancy mask holds exactly the orthogonal squares that are not the last of their ray |
| Sliders.MaskIsLineWithoutEdge | src/attacks.c:186-222 | a mask ray is the unblocked attack ray with its edge square removed |
| Sliders.WalkRelevant | src/attacks.c:109-175 | two blocker sets that agree on the mask of a ray give the same attack ray |
| Occupancy.SetOccupancy | src/attacks.c:224-237 | the occupancy holds exactly the squares the recursive `Picked` selection takes: the k-th lowest mask square whenever bit k of the index is set, for k below `bits_in_mask` |
| Occupancy.PickedInMask | src/attacks.c:224-237 | every picked square lies in the attack mask |
| Occupancy.PickedIsKth | src/attacks.c:224-237 | a picked square is the j-th lowest square of the mask for some set index bit j below the bit count |
| Occupancy.KthIsPicked | src/attacks.c:224-237 | conversely the j-th lowest mask square is picked whenever bit j of the index is set and j is below the bit count |
| Occupancy.PatternsDistinct | src/attacks.c:247-252 | two different indices below 2^bits give different occupancies, so the variant table has no duplicates |
| Occupancy.IndexOfPicks | src/attacks.c:322-330 | every subset of a full mask is the occupancy of some index, so the magic lookup's masked occupancy is always one of the variants |
| Magic.MaskFor | src/attacks.c:245 | the mask is the bishop or rook relevant-occupancy mask of the square |
| Magic.AttacksFor | src/attacks.c:251-252 | the attack set is the bishop or rook slider attack set of the square for that blocker set |
| Magic.Variants | src/attacks.c:248-253 | every one of the 2^bits entries holds the index's occupancy and its slider attack set, and 2^bits fits the 4096-entry arrays |
| Magic.Index | src/attacks.c:265 | the magic index is below 2^bits, so below 4096, and below 512 when bits is at most 9 |
| Magic.CheckMagic | src/attacks.c:258-275 | a pass means no two variants with different attack sets share a slot; a failure means two such variants collide |
| Magic.CollidesIffNotFree | src/attacks.c:258-275 | with non-empty attack sets, the check fails exactly when the candidate is not collision free |
| Magic.SearchCandidates | src/attacks.c:255-280 | the result is the first collision-free candidate within the attempt limit, or 0 when every one tried collides |
| Magic.FindMagicNumber | src/attacks.c:239-281 | builds the mask and all variants of the square and returns the first passing candidate, or 0 |
| Magic.FailedSearch | src/attacks.c:278-280 | a search whose result is not collision free returned 0 |
| Magic.CheckMagicModular | src/modular_backup/bitboard.c:350-373 | a candidate is accepted exactly when the top byte of mask times magic has at least 6 bits and it is collision free |
| Magic.SliderRelevant | src/attacks.c:322-330 | a slider's attack set depends only on the blockers inside its relevant mask |
| Magic.AllBitsFit | src/bitboard.c:17-18 | every relevant-occupancy count is 1..9 for a bishop and 1..12 for a rook, so each row fits `[512]` and `[4096]` |
| Magic.MaskBits | src/attacks.c:289-290 | `count_bits` of a relevant mask is the square's relevant bit count, between 1 and the table's bit limit |
| Magic.RowLookup | src/attacks.c:322-330 | a filled row gives the slider attack set of the masked occupancy at its magic index |
| Magic.SliderTables.constructor | src/bitboard.c:15-20 | the tables start valid: 64 masks, 64 magics and 64 rows sized 512 for bishops or 4096 for rooks |
| Magic.SliderTables.InitSquare | src/attacks.c:285-315 | stores the square's mask and magic; when a magic was found the row answers every lookup, otherwise the magic is 0; other squares are untouched |
| Magic.SliderTables.Init | src/attacks.c:283-316 | after the loop every square either answers lookups correctly or has magic 0 |
| Magic.SliderTables.LookupCorrect | src/attacks.c:322-330 | for an initialised square the magic lookup returns exactly the slider attack set for any occupancy |
| MaskCount.BishopMaskCount | src/attacks.c:186-203 | the bishop relevant mask of every square holds 5 to 9 squares |
| MaskCount.RookMaskCount | src/attacks.c:205-222 | the rook relevant mask of every square holds 10 to 12 squares |
| MaskCount.MaskPopCount | src/attacks.c:287-288 | `count_bits` of a bishop mask is 5..9 and of a rook mask 10..12 |
| MaskCount.WalkCount | src/attacks.c:192-193 | a mask loop adds as many squares as the shorter of its rank and file runs before the edge |
| Zobrist.Random.NextU32 | src/bitboard.c:186-194 | the state advances by one xorshift round (13, 17, 5) and the new state is returned |
| Zobrist.Random.NextU64 | src/bitboard.c:196-203 | four 32-bit draws, 16 low bits each, joined low draw first; the state advances by four rounds |
| Zobrist.JoinFields | src/bitboard.c:196-203 | each 16-bit field of the joined word is the low 16 bits of its own draw |
| Zobrist.Random.MagicCandidate | src/bitboard.c:205-208 | the AND of three consecutive 64-bit draws; the state advances by twelve rounds |
| Zobrist.CandidateDraws | src/bitboard.c:205-208 | the three draws of a candidate are draws 0, 1 and 2 of the sequence from the current state |
| Zobrist.KeyTables.InitHashKeys | src/bitboard.c:214-225 | from the fixed seed the piece, side, castling and en-passant keys, in that order, are exactly the successive draws `Generated` names, and the generator has advanced past all of them |
| Zobrist.KeyTables.InitPieceKeys | src/bitboard.c:217-219 | the 768 piece keys are the first 768 draws, in piece-major order |
| Zobrist.FillTable | src/bitboard.c:221-224 | a key array is filled with consecutive draws from a given start |
| Zobrist.KeyTables.GenerateHashKey | src/bitboard.c:227-246 | the key is `PositionKey`: the XOR of the keys of every occupied piece square, the en-passant key when a square is set, the castling key of the rights and the side key when black moves |
| Zobrist.XorPieces | src/bitboard.c:230-239 | the loop over the twelve boards gives the XOR of each board's square keys |
| Zobrist.XorBoard | src/bitboard.c:232-238 | popping the lowest square until the board is empty XORs in exactly the keys of its squares |
| Zobrist.BoardHashIsSquaresHash | src/bitboard.c:232-238 | the lowest-first pop loop's hash equals the order-free fold over the board's set squares |
| Zobrist.BoardHashPop | src/movegen.c:318-322 | removing a piece from a square changes the board hash by that square's key |
| Zobrist.BoardHashSet | src/movegen.c:318-322 | adding a piece to an empty square changes the board hash by that square's key |
| Zobrist.PositionKeyPop | src/movegen.c:319-321 | removing a piece XORs its key out of the full position key |
| Zobrist.PositionKeySet | src/movegen.c:320-322 | adding a piece XORs its key into the full position key |
| Zobrist.PositionKeySide | src/movegen.c:430-432 | flipping the side to move XORs the side key into the position key |
| Zobrist.PositionKeyEnPassant | src/movegen.c:364-381 | changing the en-passant square swaps the old en-passant key for the new one |
| Zobrist.PositionKeyRights | src/movegen.c:415-419 | changing the castling rights swaps the old rights key for the new one |
| XorFold.XorTwice | src/movegen.c:321-322 | XORing the same key twice restores the hash |
| XorFold.FoldClear | src/bitboard.c:232-238 | removing one set entry from the fold removes exactly its key, in any order |
| Boards.Decode | src/movegen.c:309-316 | the decoded fields are exactly the getters' values of the move word |
| Boards.FirstHolder | src/movegen.c:327-336 | the first opposing board from the low end that holds the target square, or the end of the range when none does |
| Boards.NewEnPassant | src/movegen.c:364-381 | the new en-passant square is set exactly when the move is a double push |
| Boards.NewRightsKeep | src/movegen.c:415-419 | a castling right survives a move exactly when it was held and neither the source nor the target square is tied to it in `castling_rights` |
| Boards.KingSurvives | src/movegen.c:318-413 | no step of a move removes the mover's own king |
| Boards.PlayedKey | src/movegen.c:318-413 | the incrementally updated hash of the piece steps equals the full position key of the new boards |
| Boards.NextKeyOk | src/movegen.c:318-432 | after a move the incrementally updated key equals `generate_hash_key` of the new position, side, en-passant square and rights |
| Boards.NullMoveKey | src/modular_backup/move.c:760-770 | the null move's key is the full position key with the side flipped and no en-passant square |
| Boards.NullRoundTrip | src/modular_backup/move.c:775-780 | unmaking a null move restores the key exactly when there was no en-passant square, otherwise it differs by that square's key |
| Boards.Board.constructor | src/bitboard.c:23-34 | an empty board: no pieces, white to move, no en-passant square, no rights and key 0 |
| Boards.Board.TakeBack | src/types.h:238-244 | every saved field is restored |
| Boards.Board.MovePiece | src/movegen.c:318-322 | the piece moves from source to target and both piece keys are XORed into the hash; nothing else changes |
| Boards.Board.FindCaptured | src/movegen.c:327-336 | the victim is the first opposing board that holds the target square |
| Boards.Board.RemoveCaptured | src/movegen.c:324-338 | the victim is removed from the target and its key XORed out; other fields unchanged |
| Boards.Board.Promote | src/movegen.c:340-347 | the mover's pawn on the target becomes the promoted piece, with both keys updated |
| Boards.Board.RemoveEnPassant | src/movegen.c:349-362 | the opposing pawn behind the target is removed with its key |
| Boards.Board.MoveCastlingRook | src/movegen.c:383-413 | the rook of the castling target moves to its castled square with both keys updated |
| Boards.Board.UpdateEnPassant | src/movegen.c:364-381 | the old en-passant key is removed, the new square is the double push's passed square or none, and its key is added |
| Boards.Board.UpdateRights | src/movegen.c:415-419 | the rights are masked by the source and target entries of `castling_rights`, with the old and new rights keys swapped |
| Boards.Board.UpdateOccupancies | src/movegen.c:421-428 | the white, black and both occupancies are the unions of the corresponding piece boards |
| Boards.Board.FlipSide | src/movegen.c:430-432 | the side flips and the side key is XORed in |
| Boards.Board.MakeNullMove | src/modular_backup/move.c:760-770 | the turn passes and the en-passant square is cleared with its key; the pieces stay |
| Boards.Board.UnmakeNullMove | src/modular_backup/move.c:775-780 | only the side and its key are flipped back |
| Boards.Board.PlayMove | src/movegen.c:307-432 | the new state is `Next` of the old: the played boards, their occupancies, the flipped side, the new en-passant square and rights, and the updated key |
| Boards.Board.TryMove | src/movegen.c:434-440 | the move is legal exactly when the mover's king is not attacked afterwards; a legal move leaves the played position, an illegal one the old position |
| Boards.Board.MakeMove | src/movegen.c:299-441 | a non-capture under `only_captures` is refused with nothing changed; any other move is kept exactly when it leaves the mover's king unattacked, and the board is restored otherwise |
| Position.OccupanciesBit | src/movegen.c:421-428 | a square is in a side's occupancy exactly when one of that side's six piece boards holds it, and in the both-sides occupancy when any board does |
| Position.CastlingRightsTable | src/bitboard.c:86-94 | every entry of `castling_rights` is 15 less the rights tied to its square (a1, e1, h1, a8, e8, h8) |
| Position.CastlingUpdate | src/movegen.c:415-419 | masking by a square's entry keeps a right exactly when it was held and is not tied to that square |
| Position.PawnHits | src/attacks.c:338-342 | the reverse pawn-attack mask meets the side's pawns exactly when one of them captures onto the square |
| Position.KnightHits | src/attacks.c:344-346 | the knight mask meets the side's knights exactly when one is a knight jump away |
| Position.KingHits | src/attacks.c:348-350 | the king mask meets the side's king exactly when it is one step away |
| Position.DiagonalHits | src/attacks.c:352-355 | the bishop attack set meets the side's bishops and queens exactly when one sees the square along a diagonal through the blockers |
| Position.StraightHits | src/attacks.c:357-360 | the rook attack set meets the side's rooks and queens exactly when one sees the square along a rank or file through the blockers |
| Position.IsSquareAttacked | src/attacks.c:336-363 | true exactly when some pawn, knight, king, bishop, rook or queen of the attacking side attacks the square, blockers counted |
| Queries.PieceAtSpec | src/modular_backup/board.c:111-119 | -1 exactly when no board holds the square, otherwise the lowest-numbered board that holds it |
| Queries.PieceAtUnique | src/modular_backup/board.c:111-119 | on non-overlapping boards the answer is the one board holding the square |
| Queries.GetPieceAtSquare | src/modular_backup/board.c:111-119 | the scan over the twelve boards returns `PieceAt` |
| Queries.InCheck | src/modular_backup/board.c:102-106 | true exactly when the side to move's king square is attacked by the other side |
| Queries.IsRepetition | src/modular_backup/board.c:128-136 | true exactly when the key occurs at index - 2, index - 4, ... down to 0 |
| Queries.RepetitionSkipsOtherSide | src/modular_backup/board.c:130 | a key found only one ply back never counts as a repetition |
| Queries.ColourAlternatesOnRank | src/modular_backup/board.c:166 | the square colour `(rank + file) % 2` differs between rank neighbours |
| Queries.ColourAlternatesOnFile | src/modular_backup/board.c:166 | the square colour differs between file neighbours |
| Queries.InsufficientColourBlind | src/modular_backup/board.c:145-174 | the insufficient-material rule gives the same answer with the colours swapped |
| Queries.BareKings | src/modular_backup/board.c:148-149 | two men on the board are always insufficient |
| Queries.ManyMen | src/modular_backup/board.c:145-174 | five or more men are never insufficient under this rule |
| Queries.SameColourBishops | src/modular_backup/board.c:161-167 | true exactly when both single bishops stand on squares of the same colour |
| Queries.IsInsufficientMaterial | src/modular_backup/board.c:145-174 | true exactly for two men, three men with a single minor piece on a side, or four men with one bishop each on same-coloured squares |
| Queries.IsDraw | src/modular_backup/board.c:179-194 | true exactly when the fifty-move counter is at least 100, the position repeats, or material is insufficient |
| MoveGen.Word | src/types.h:204-212 | the encoded word decodes back to exactly the given fields |
| MoveGen.EmitTargets | src/movegen.c:283-289 | one move per target square, each a move of the piece from the source with the capture flag set exactly when the opponent holds the target, and every target covered |
| MoveGen.AttacksOf | src/movegen.c:254-281 | the attack set looked up for a knight, bishop, rook, queen or king is exactly the squares that piece reaches through the blockers |
| MoveGen.PieceMoves | src/movegen.c:250-291 | every emitted move obeys the piece rule, and every reached square the mover does not hold is covered |
| MoveGen.PawnPushes | src/movegen.c:80-101 | a push exists exactly when the square ahead is empty; from the seventh rank it is the four promotions queen first, otherwise the single push, plus the double push from the starting rank when both squares are empty |
| MoveGen.PromotionWords | src/movegen.c:87-90 | four words to the same target promoting to queen, rook, bishop and knight in that order |
| MoveGen.PromotionCaptures | src/movegen.c:105-120 | four promotion captures per target, lowest target first, covering every promotion to every target |
| MoveGen.PawnCaptures | src/movegen.c:103-120 | every diagonal capture onto an opponent's piece is emitted, with its four promotions from the seventh rank, and each emitted move is such a capture |
| MoveGen.EnPassantCapture | src/movegen.c:122-132 | at most one move, present exactly when there is an en-passant square the pawn attacks, flagged capture and en passant |
| MoveGen.PathEmpty | src/movegen.c:199 | true exactly when every listed path square is empty |
| MoveGen.PathSafe | src/movegen.c:201 | true exactly when no listed king square is attacked by the opponent |
| MoveGen.LaneMove | src/movegen.c:197-206 | the castling move is emitted exactly when the right is held, the path is empty and the king's squares are not attacked |
| MoveGen.CastlingMoves | src/movegen.c:194-240 | each of the two castlings is present exactly when it is allowed, and nothing else is emitted |
| MoveGen.PawnMovesFrom | src/movegen.c:76-135 | every move of the pawn follows the pawn rule, and every push, double push, capture and en-passant capture open to it is listed |
| MoveGen.MovesFrom | src/movegen.c:73-291 | the moves of one piece follow its kind's rule and include every move that rule allows |
| MoveGen.Sweep | src/movegen.c:246-291 | the loop over a piece board lists only moves of pieces on that board and every move of each of them |
| MoveGen.GenerateMoves | src/movegen.c:66-293 | every generated move obeys the rules of chess movement as the engine defines them (pseudo-legal), every such pawn and piece move is generated, and each castling is generated exactly when allowed |
| Fen.Castling | src/modular_backup/board.c:348-366 | the castling field is read up to the first space or the end, never growing the text |
| Fen.CastlingEnds | src/modular_backup/board.c:348-366 | the field read is a prefix of the text free of spaces and NULs, and what is left starts at a space or the end |
| Fen.LetterBit | src/movegen.c:531-545 | a castling letter adds exactly its own right, so a right is held after a letter exactly when it was held before or the letter is its own |
| Fen.CastlingSpec | src/movegen.c:529-547 | after the castling field a right is held exactly when it was held before or its letter occurs in the field |
| Fen.ReadCastling | src/modular_backup/board.c:347-366 | the castling loop over the FEN text stops inside the text and yields the rights and the remainder the field's specification gives |
| Fen.EnPassantOf | src/movegen.c:550-555 | the en-passant square computed from a file and rank character is always a square or "no square" |
| Fen.EnPassantRoundTrip | src/movegen.c:552-554 | the name of every square reads back as that square |
| Fen.EnPassantField | src/modular_backup/board.c:372-385 | "-" gives no square; otherwise the result is a square or "no square" |
| Fen.SkipToSpace | src/modular_backup/board.c:395-396 | skipping a field never lengthens the text |
| Fen.ReadFields | src/movegen.c:525-555 | the fields after the placement keep the piece boards, and always yield a valid side and a valid en-passant value |
| Fen.ReadFen | src/movegen.c:447-564 | reading a FEN text always yields twelve piece boards, a valid side and a valid en-passant value |
| Fen.Advance | src/modular_backup/board.c:336-337 | advancing the read position moves one character on, except at the end of the text |
| Fen.ReadNumber | src/modular_backup/board.c:394 | the digit loop computes the value `atoi` gives |
| Fen.SkipField | src/modular_backup/board.c:395-396 | the skip stops at the next space or the end |
| Fen.ReadClocks | src/modular_backup/board.c:387-407 | the two clock fields are read as the halfmove count (0 when absent) and the move number (1 when absent) |
| Fen.ReadEnPassant | src/modular_backup/board.c:372-385 | the en-passant field is read and the read position moves past two characters for a square, one for "-", none at the end |
| Fen.ReadRest | src/movegen.c:525-555 | the fields after the placement are read as their specification gives |
| Fen.ReadSetup | src/movegen.c:447-555 | the whole FEN text is read as its specification gives |
| Fen.ParseFen | src/movegen.c:447-564 | the board afterwards holds exactly what the text specifies, its occupancies are the unions of the piece boards, and its key is the key of that position |
| Fen.Load | src/movegen.c:557-563 | the read fields are stored, the occupancies derived from the piece boards, and the key recomputed from scratch |
| Fen.SetHashKey | src/movegen.c:563 | only the key changes, and it becomes the position's key |
| Fen.DecimalText | src/modular_backup/board.c:392-407 | the decimal text of a number is non-empty and all digits |
| Fen.AtoiAppend | src/modular_backup/board.c:394 | reading digits followed by more text continues from the value of the digits |
| Fen.AtoiDecimal | src/modular_backup/board.c:394 | `atoi` reads back the decimal text of every number |
| Fen.AtoiDecimalThen | src/modular_backup/board.c:394 | `atoi` stops at the first non-digit after a number's text |
| Fen.SkipDigits | src/modular_backup/board.c:395-396 | skipping a field skips a whole run of digits |
| Fen.CastlingAppend | src/movegen.c:529-547 | reading the castling field over two plain pieces of text reads the first, then the second |
| Fen.RightTextRead | src/movegen.c:531-545 | the letter written for one right reads back as that right |
| Fen.LettersRead | src/movegen.c:529-547 | the letters of a nonzero set of rights read back as that set |
| Fen.CastleTextRead | src/movegen.c:529-547 | the castling field written for any rights, "-" for none, reads back as those rights and leaves the following space |
| Fen.TailCons | src/modular_backup/board.c:336-337 | the read position stands on the first character and moves past it unless it is NUL |
| Fen.ClocksRead | src/modular_backup/board.c:387-407 | the clocks written read back as the same two numbers |
| Fen.EnPassantRead | src/modular_backup/board.c:372-389 | the en-passant field written reads back as the same square and leaves the clocks |
| Fen.SideCastleRead | src/movegen.c:525-549 | the side and castling fields written read back |
| Fen.FieldsRead | src/movegen.c:525-555 | the written fields read back: side, rights and en-passant square in both readers, the clocks in the modular reader, the unchanged halfmove clock and move number 1 in the engine |
| Fen.FenRoundTrip | src/movegen.c:447-555 | a FEN written for any position reads back as that position: every piece on its square, the side, the rights, the en-passant square, and the clocks as each reader keeps them |
| Placement.PieceOfLetter | src/movegen.c:463-502 | a character names one of the twelve pieces or none |
| Placement.LetterRoundTrip | src/movegen.c:463-502 | each piece's letter reads back as that piece |
| Placement.LetterOnly | src/movegen.c:463-502 | only the twelve letters name pieces, each its own |
| Placement.Mark | src/movegen.c:503-504 | placing a piece keeps twelve boards; a square beyond 63 is dropped, which the engine dialect does not do (admitted under "## Left out") |
| Placement.Step | src/movegen.c:458-523 | one character never moves the walk back a rank |
| Placement.Place | src/movegen.c:457-523 | the walk stops within the text with twelve boards |
| Placement.Empty | src/movegen.c:449-450 | the cleared position has twelve empty boards |
| Placement.PlacePieces | src/movegen.c:457-523 | the placement loop stops where the walk's specification stops and with its boards |
| Placement.Tail | src/modular_backup/board.c:336-337 | moving the read position never lengthens the text |
| Placement.RankOf | src/movegen.c:457-523 | a rank of the mailbox is its eight squares in file order |
| Placement.PutRow | src/movegen.c:503-504 | placing a rank keeps twelve boards |
| Placement.PutRows | src/movegen.c:503-504 | placing ranks keeps twelve boards |
| Placement.Run | src/movegen.c:458-523 | a walk over text without a stop never moves back a rank |
| Placement.RunConcat | src/movegen.c:458-523 | walking two texts is walking the first, then the second |
| Placement.PlaceConcat | src/movegen.c:458-523 | over plain text that ends before the ninth rank the walk does not stop |
| Placement.RowRun | src/movegen.c:461-512 | reading one written rank puts its pieces on their squares and ends past its last file |
| Placement.LetterFirstRun | src/movegen.c:461-507 | the same when the rank's next square holds a piece |
| Placement.PendingRun | src/movegen.c:508-512 | a count of empty files moves the walk on by that many files |
| Placement.LetterRun | src/movegen.c:503-506 | a piece letter places that piece and moves one file on |
| Placement.SlashRun | src/movegen.c:513-518 | a '/' starts the next rank at the first file |
| Placement.RowTextPlain | src/movegen.c:458 | a written rank has no space, NUL or '/' |
| Placement.RowsPlain | src/movegen.c:458 | written ranks have no space or NUL |
| Placement.RowsRun | src/movegen.c:458-523 | reading ranks r to 8 ends after h1 with all their pieces placed |
| Placement.RowsRunNext | src/movegen.c:458-523 | the same for a rank followed by further ranks |
| Placement.PutRowBits | src/movegen.c:503-504 | after placing a rank a square holds a piece exactly when it did before or the rank puts it there |
| Placement.MarkBit | src/movegen.c:503-504 | after placing one piece a square holds a piece exactly when it did before or it is the placed one |
| Placement.PutRowsBits | src/movegen.c:503-504 | after placing ranks r to 8 a square holds a piece exactly when it did before or the mailbox puts it there |
| Placement.RankBits | src/movegen.c:503-504 | the same for one rank of the mailbox |
| Placement.MailboxBits | src/movegen.c:449-523 | the placed position holds a piece on a square exactly when the mailbox does |
| Placement.PlacementStops | src/movegen.c:458 | the walk over a written placement stops on the space or end after it, after h1 |
| Placement.PlacementRoundTrip | src/movegen.c:447-523 | a written placement reads back as the mailbox it was written from, piece by piece and square by square |
| MoveNotation.PromotionLetterMatches | src/modular_backup/move.c:110-131 | the letter written for a real promotion is one the parser accepts for it, and a letter the parser accepts is the one written |
| MoveNotation.MoveText | src/modular_backup/move.c:99-134 | the text is four characters, five with a promotion, and holds no NUL |
| MoveNotation.SquareAt | src/movegen.c:574-581 | two characters name a square or none |
| MoveNotation.SquareAtName | src/movegen.c:574-584 | every square's name reads back as that square |
| MoveNotation.FirstMatchSpec | src/movegen.c:586-609 | the answer is 0 when no listed move is selected, and otherwise the first selected move |
| MoveNotation.FirstMatchIn | src/movegen.c:586-609 | a nonzero answer is one of the listed moves and is selected by the text |
| MoveNotation.MoveTextReads | src/modular_backup/move.c:99-134 | a move's text names its squares and carries its promotion letter fifth |
| MoveNotation.SelectsSameText | src/movegen.c:589-606 | a move's text selects another move between the same squares only if that move has the same text |
| MoveNotation.EarlierNotSelected | src/movegen.c:586-607 | no earlier listed move answers a move's text unless it shadows that move |
| MoveNotation.MoveTextRoundTrip | src/movegen.c:566-610 | parsing the text of a listed move, with no earlier move shadowing it, gives back that move |
| MoveNotation.FindMove | src/movegen.c:586-609 | the loop returns the first move the text selects, 0 when none |
| MoveNotation.ParseMove | src/movegen.c:566-610 | the answer is what the text selects from the generated list; every generated move obeys the rules; a nonzero answer is a legal-by-rule move of the position |
| MoveNotation.RuleInRange | src/movegen.c:95-131 | double pushes and en-passant captures have a square behind their target |
| TransTable.MateRoundTrip | src/bitboard.c:306-309 | a score stored at a ply and read back at the same ply is the score stored, mate scores included |
| TransTable.StoredKeepsClass | src/bitboard.c:371-375 | a stored mate score stays beyond the mate bound on its own side, and every other score is stored unchanged |
| TransTable.ProbeEntry | src/bitboard.c:301-318 | no hit for another key or a shallower entry; an exact entry gives its score; an upper bound gives alpha only when its score is at most alpha; a lower bound gives beta only when its score is at least beta |
| TransTable.ExactWriteReads | src/bitboard.c:357-382 | an exact entry written for a key is read back as the written score by every probe at its depth or shallower |
| TransTable.AlphaWriteReads | src/bitboard.c:357-382 | an upper-bound entry at or below alpha is read back as alpha |
| TransTable.SameKeyReplaces | src/bitboard.c:364-367 | a write to an empty slot or to the slot of the same key always replaces it |
| TransTable.EntryCount | src/bitboard.c:267-270 | the entry count is at least 1024, and for 1 to 4096 megabytes it is the megabytes' bytes divided by the entry size |
| TransTable.TranspositionTable.Slot | src/bitboard.c:300 | the slot of a key lies inside the table |
| TransTable.TranspositionTable.Init | src/bitboard.c:262-282 | the table has the computed entry count, or the default count when allocation fails, every entry empty and the generation 0 |
| TransTable.TranspositionTable.Clear | src/bitboard.c:289-294 | every entry becomes empty and the generation 0 |
| TransTable.TranspositionTable.Read | src/bitboard.c:296-319 | an empty table never hits |
| TransTable.TranspositionTable.GetMove | src/bitboard.c:321-329 | a nonzero move comes only from a slot that holds the key |
| TransTable.TranspositionTable.ReadRaw | src/bitboard.c:332-355 | for the key's own slot: the root-relative score, depth and flags; otherwise no hit with depth and flags 0 |
| TransTable.TranspositionTable.Write | src/bitboard.c:357-382 | only the key's slot can change; it takes the new entry exactly when the replacement rule allows; after an exact write that replaces, every probe at that depth or shallower reads the written score |
| AgedTable.MateRoundTrip | src/modular_backup/hash.c:227-231 | a score stored and probed at the same ply is read back unchanged |
| AgedTable.KeepsOnlyDeeperCurrent | src/modular_backup/hash.c:256-265 | the old entry is kept exactly when it holds another position, is of the current generation and is strictly deeper |
| AgedTable.ProbeScore | src/modular_backup/hash.c:219-242 | no hit for another key or a shallower entry; bounds answer alpha or beta only when the stored score lies beyond them |
| AgedTable.ExactStoreReads | src/modular_backup/hash.c:248-283 | an exact store is read back unchanged by every probe at its depth or shallower |
| AgedTable.OverflowGivesEmptyTable | src/modular_backup/hash.c:151 | with 4096 or 8192 megabytes the 32-bit product makes the entry count 0, and with 2048 negative |
| AgedTable.TableSize | src/modular_backup/hash.c:150-151 | the intended count is the megabytes times 32768 entries of 32 bytes, never below 32768 |
| AgedTable.AgedTranspositionTable.Slot | src/modular_backup/hash.c:215 | the slot of a key lies inside the table |
| AgedTable.AgedTranspositionTable.Init | src/modular_backup/hash.c:140-171 | the table is present when either allocation succeeds, every entry empty and the generation 0; sized with the intended `TableSize` of the requested or the fallback megabytes (admitted under "## Left out": the C code overflows from 2048 MB on) |
| AgedTable.AgedTranspositionTable.Clear | src/modular_backup/hash.c:176-183 | a present table is emptied and an absent one left alone; the generation becomes 0 |
| AgedTable.AgedTranspositionTable.Age | src/modular_backup/hash.c:200-205 | the generation advances by one, wrapping from 255 to 0 |
| AgedTable.AgedTranspositionTable.Probe | src/modular_backup/hash.c:210-243 | an absent table gives no hit and leaves the caller's move as it was; otherwise the score of the key's slot and its move when the slot holds the key |
| AgedTable.AgedTranspositionTable.Store | src/modular_backup/hash.c:248-283 | only the key's slot can change, and it takes the new entry, stamped with the current generation, exactly when the replacement rule allows |
| AgedTable.AgedTranspositionTable.GetMove | src/modular_backup/hash.c:288-299 | a nonzero move comes only from a present table whose slot holds the key |
| AgedTable.AgedTranspositionTable.Usage | src/modular_backup/hash.c:315-330 | the usage is the permille of used entries among the first min(size, 1000), between 0 and 1000, and 0 for an absent table |
| AgedTable.UsedBound | src/modular_backup/hash.c:320-327 | the used count never exceeds the sample |
| AgedTable.PermilleBound | src/modular_backup/hash.c:329 | a count out of a positive sample, in permille, lies between 0 and 1000 |
| PositionCommand.RecordedExtend | src/movegen.c:648-649 | one more replayed move records one more key, the key of the new state |
| PositionCommand.AdvanceBounds | src/movegen.c:650-652 | the next word starts after the current one and at most one past the end of the line |
| PositionCommand.NextWord | src/modular_backup/uci.c:343-345 | the read position moves past the word and the blanks after it as specified |
| PositionCommand.StepLinks | src/movegen.c:642-653 | a move parsed and played links the stage to the next |
| PositionCommand.StopsAt | src/movegen.c:644-646 | a text that does not parse stops the replay there |
| PositionCommand.PlayNext | src/movegen.c:642-653 | one pass of the loop either stops, leaving the board as it was, or plays the parsed move and links the stages |
| PositionCommand.PlayWord | src/movegen.c:644-647 | the word parses to no move, leaving the board alone, or to a move that is then played |
| PositionCommand.Play | src/movegen.c:647 | the board becomes the state the move leaves, or stays when the mover's king is then attacked |
| PositionCommand.ProgressStart | src/movegen.c:636 | a replay starts from the set-up position with no move and no key |
| PositionCommand.EndStops | src/movegen.c:642 | the replay stops at the end of the line |
| PositionCommand.ReplayStep | src/movegen.c:642-653 | one pass keeps the chain of stages and records one key per move played |
| PositionCommand.Replay | src/movegen.c:638-654 | the board ends at the last stage of a chain of parsed and played moves that runs until a text fails to parse or the line ends |
| PositionCommand.ReplayFrom | src/movegen.c:638-654 | with no move list nothing is played; otherwise the replay chain, with one key recorded per move |
| PositionCommand.EngineMoves | src/movegen.c:638-641 | the move list starts six past "moves", or there is none |
| PositionCommand.EngineTable | src/movegen.c:636-649 | the repetition table holds the set-up position's key, then the key after each replayed move |
| PositionCommand.SetUpBoard | src/movegen.c:618-634 | the board holds what `parse_fen` reads from the text |
| PositionCommand.ParsePosition | src/movegen.c:612-655 | the board is set up from "startpos" or the text after "fen", the listed moves are replayed in order until one fails to parse, and the table holds every key of the game so far, the set-up position's first |
| PositionCommand.ModularMoves | src/modular_backup/uci.c:321-326 | the move list starts past "moves" and the blanks after it, or there is none |
| PositionCommand.CmdPosition | src/modular_backup/uci.c:289-348 | the board is set up, or kept when neither form parses, the moves are replayed, and the key before each move is appended to the history it already held |
| PositionCommand.CmdPositionFresh | src/modular_backup/uci.c:289-348 | with the history cleared first the table holds exactly the keys before each move of this game, fewer than the table's size for any line the loop can read |
| PositionCommand.SetUpAndReplay | src/modular_backup/uci.c:291-347 | set-up and move loop: the chain of stages, and the key before each move, at most one per four characters |
| PositionCommand.ModularKeys | src/modular_backup/uci.c:337-340 | the keys recorded are the states' before each move, at most one per four characters of the line |
| PositionCommand.MoveWordLong | src/movegen.c:566-569 | a word that parses to a move is at least four characters long |
| PositionCommand.StepFar | src/modular_backup/uci.c:327-346 | each replayed move moves the read position on by at least four characters |
| PositionCommand.ReplayLength | src/modular_backup/uci.c:327-346 | a line of n characters replays at most n / 4 moves |
| PositionCommand.StaleKeyRepeats | src/modular_backup/uci.c:338 | a key left over from an earlier command counts as a repetition of a position of the current game |
| PositionCommand.SessionHistoryGrows | src/modular_backup/uci.c:338 | when every command relists the game, the history after k commands is k(k+1) keys |
| PositionCommand.SessionOverflows | src/modular_backup/uci.c:338 | that history outgrows the repetition table at the 45th command |
| PositionCommand.FreshRepetitionInGame | src/modular_backup/board.c:128-136 | with the history cleared, every repetition found is a position of this game an even number of plies back |
| Polyglot.BigEndian | src/modular_backup/book.c:177-179 | the number a run of bytes spells is below 256 to the power of its length |
| Polyglot.DecodeEntry | src/modular_backup/book.c:176-183 | a decoded record's key fits 64 bits, its move and weight 16 bits and its learn field 32 bits |
| Polyglot.ReadEntry | src/modular_backup/book.c:169-186 | the read succeeds exactly when 16 bytes remain, and then yields the big-endian decoding of those bytes |
| Polyglot.LearnIsBigEndian | src/modular_backup/book.c:183 | the shifted learn field equals the big-endian value of its four bytes |
| Polyglot.ReadRecord | src/modular_backup/book.c:332-335 | seeking to a record and reading it succeeds exactly for the records the file holds, and yields that record |
| Polyglot.RecordsInFile | src/modular_backup/book.c:255-259 | a record lies wholly inside the file exactly when its index is below the record count `size / 16` |
| Polyglot.Fields | src/modular_backup/book.c:194-198 | each of the five fields of a move word is between 0 and 7 |
| Polyglot.EngineSquare | src/modular_backup/book.c:200-201 | the row and file give a square whose rank, counted from the eighth, is 7 minus the row and whose file is the file |
| Polyglot.PolyglotToMove | src/modular_backup/book.c:191-234 | the answer is the first generated move with the word's squares and promotion, and none exactly when no generated move matches |
| Polyglot.CastleWordNamesRookCorner | src/modular_backup/book.c:212-218 | the standard short-castle word e1-h1 matches only a move from e1 to h1, so the engine's castling move e1-g1 never matches it |
| Polyglot.ScaledWeight | src/modular_backup/book.c:368-370 | a scaled weight is always between 1 and 65535 |
| Polyglot.ScaledWeightExact | src/modular_backup/book.c:368 | a product that fits the 16-bit field and is not 0 is kept as computed, rounded toward zero |
| Polyglot.DefaultWeightKeepsEntry | src/modular_backup/book.c:368-370 | at the default book weight 100 a weight passes through, except that 0 becomes 1 |
| Polyglot.Scale | src/modular_backup/book.c:367-370 | scaling changes only the weight, which ends between 1 and 65535 |
| Polyglot.FirstMatches | src/modular_backup/book.c:316-380 | the reference answer has at most the room given, and every entry carries the key and a weight between 1 and 65535 |
| Polyglot.NoMatchesBeyond | src/modular_backup/book.c:342-345 | in a sorted book nothing with the key lies from a record with a larger key on |
| Polyglot.RunIsFirstMatches | src/modular_backup/book.c:360-373 | in a sorted book the run read forward from the first record with the key is every record with the key |
| Polyglot.SkipSmaller | src/modular_backup/book.c:338-341 | records whose key differs before the first candidate contribute nothing |
| Polyglot.WalkBack | src/modular_backup/book.c:351-358 | the walk stops on a record with the key whose predecessor, if any, has another key |
| Polyglot.ReadRun | src/modular_backup/book.c:360-373 | the forward read returns the run of records with the key from the start, at most the room given, each weight scaled |
| Polyglot.RunEntries | src/modular_backup/book.c:362-372 | every entry of a run carries the key and a weight between 1 and 65535 |
| Polyglot.KeysBelow | src/modular_backup/book.c:338-341 | in a sorted book every record up to a smaller key has a smaller key |
| Polyglot.KeysAbove | src/modular_backup/book.c:342-345 | in a sorted book every record from a larger key on has a larger key |
| Polyglot.ProbeSingleBook | src/modular_backup/book.c:316-380 | an inactive or closed book gives nothing; every entry carries the key and a weight of at least 1; in a sorted book the answer is the first records with the key, at most the room given |
| Polyglot.FoundRunIsAnswer | src/modular_backup/book.c:346-375 | in a sorted book the run from the first record with the key is the whole answer |
| Polyglot.Collected | src/modular_backup/book.c:397-401 | the books' answers together stay within the room and every entry carries the key |
| Polyglot.CollectEntries | src/modular_backup/book.c:394-401 | at most 256 entries are gathered, each with the key and a weight of at least 1, and over sorted books they are the books' answers in order |
| Polyglot.FirstHeaviest | src/modular_backup/book.c:411-418 | the index of an entry no other outweighs, and no earlier entry weighs as much |
| Polyglot.SelectBest | src/modular_backup/book.c:411-418 | mode 0 picks an entry no other outweighs, the first such, which is FirstHeaviest |
| Polyglot.WeightedPickBrackets | src/modular_backup/book.c:420-440 | for a draw below the total, the first entry whose running sum passes it is the one whose span of running sums holds the draw |
| Polyglot.SelectWeighted | src/modular_backup/book.c:420-440 | mode 1 picks WeightedPick of the draw modulo the positive total: the entry whose running weight sum first passes it |
| Polyglot.PolyPiece | src/modular_backup/book.c:33-36 | white pieces get the odd codes 1 to 11, black ones the even codes 0 to 10 |
| Polyglot.PolyPieceTable | src/modular_backup/book.c:33-36 | the piece table holds exactly those codes |
| Polyglot.PieceWordsDistinct | src/modular_backup/book.c:100-101 | every piece on every square uses its own random word, below the castling words at 768 |
| Polyglot.PieceWordsStep | src/modular_backup/book.c:95-104 | a square holding the piece folds its word into the key, any other square leaves the key alone |
| Polyglot.ScanPiece | src/modular_backup/book.c:94-104 | the loop over one piece's squares folds in exactly that piece's words |
| Polyglot.HasEpCapture | src/modular_backup/book.c:123-138 | the en-passant test finds a pawn of the side to move on a capturing square exactly when the reference says one is there |
| Polyglot.ScanPieces | src/modular_backup/book.c:92-105 | the piece loop folds in the words of every piece on every square |
| Polyglot.AddCastling | src/modular_backup/book.c:108-115 | one castling word is folded in per right held |
| Polyglot.PolyglotKey | src/modular_backup/book.c:85-149 | the key is the XOR of the piece-square words, the castling words of the rights held, the en-passant file word when a capture is possible, and the side word for white |
| Polyglot.XorToggles | src/modular_backup/book.c:101 | folding a word in twice cancels it, and a word leaves the key alone only when it is 0 |
| Polyglot.SideWordToggles | src/modular_backup/book.c:145-146 | with no en-passant word counting for either side, the keys for white and black to move differ by the side word |
| Polyglot.EpWordNeedsCapture | src/modular_backup/book.c:118-142 | an en-passant square changes the key only when the side to move can take, and then by its file's word |
| Polyglot.BookShelf.Add | src/modular_backup/book.c:239-273 | a book is added exactly when fewer than ten are loaded and the file opens, and is appended active and open with its weight |
| Polyglot.BookShelf.Clear | src/modular_backup/book.c:278-289 | all books are forgotten and the settings kept |
| Polyglot.BookShelf.SetVariety | src/modular_backup/book.c:294-298 | only the variety mode changes |
| Polyglot.BookShelf.SetEnabled | src/modular_backup/book.c:303-307 | only the enabled flag changes |
| Polyglot.BookShelf.Probe | src/modular_backup/book.c:386-462 | nothing when disabled, with no books, with no entry for the key or an unknown mode; over sorted books mode 0 chooses the first heaviest gathered entry, mode 1 the weighted pick for `rand % total`, mode 2 the entry at `rand % count`; the move is the first generated move matching the chosen word, or none when none matches |
| BookBuilder.SideWeights | scripts/build_book.py:44-56 | the two sides' weights sum to 2; white's is 0 exactly for "0-1" and black's exactly for "1-0" |
| BookBuilder.EloMultiplier | scripts/build_book.py:58-67 | the multiplier is 3 exactly when the average rating is above 2600, at least 2 exactly when above 2400, and 1 otherwise |
| BookBuilder.EloMultiplierMonotone | scripts/build_book.py:58-67 | a stronger pairing never earns a smaller multiplier |
| BookBuilder.Word | scripts/build_book.py:87-89 | the standard move word fits in 15 bits |
| BookBuilder.CastleWord | scripts/build_book.py:91-100 | the castling words name the king's square and the rook's corner, and fit in 12 bits |
| BookBuilder.PlyWord | scripts/build_book.py:78-100 | a move's word, castling or not, fits in 15 bits; it is the standard word, not the one the script writes (admitted under "## Left out") |
| BookBuilder.WordFieldsRoundTrip | scripts/build_book.py:87-89 | reading the standard word back gives its target file and rank, source file and rank, and promotion |
| BookBuilder.WordMatchesEngineMove | scripts/build_book.py:87-89 | the engine reads a standard word as exactly the move between the same squares in its own numbering, with the same promotion |
| BookBuilder.WordAsWrittenMatchesMirror | scripts/build_book.py:88-89 | the script's word is read by the engine as exactly the move mirrored top to bottom |
| BookBuilder.E2E4ReadsAsE7E5 | scripts/build_book.py:88-89 | 1. e4 is written so that the engine reads it as e7-e5, never as e2-e4, while the standard word reads as e2-e4 |
| BookBuilder.Credit | scripts/build_book.py:102-103 | a move earns between 0 and 6, and 0 exactly when its side's result weight is 0 |
| BookBuilder.Contribution | scripts/build_book.py:76-104 | each move adds to its own position key and corrected move word a weight between 0 and 6 (the script's own word is admitted under "## Left out") |
| BookBuilder.Counted | scripts/build_book.py:72-74 | at most `max_moves` moves of a game count, all of them when the game is shorter |
| BookBuilder.IndexOf | scripts/build_book.py:104 | the index found is the first tally of the pair, or the end when it is absent |
| BookBuilder.AddTo | scripts/build_book.py:104 | adding a contribution keeps the number of tallies or adds one |
| BookBuilder.AddToPairs | scripts/build_book.py:104 | adding keeps every tally's pair in place, changes only the pair's own tally, and puts a new pair last |
| BookBuilder.GroupAbsent | scripts/build_book.py:104 | a pair missing from the tallies was never contributed |
| BookBuilder.GroupDistinct | scripts/build_book.py:104 | each pair has exactly one tally |
| BookBuilder.GroupWeight | scripts/build_book.py:104 | each tally is the sum of every contribution to its pair |
| BookBuilder.GroupSnoc | scripts/build_book.py:104 | tallying one more contribution adds it to the tallies so far |
| BookBuilder.Accumulate | scripts/build_book.py:24-110 | the loops over the games and their first moves leave the tallies of all the games' contributions, with corrected move words (admitted under "## Left out") |
| BookBuilder.AccumulateGame | scripts/build_book.py:72-107 | the move loop of one game adds the contributions of its counted moves, with corrected move words (admitted under "## Left out") |
| BookBuilder.AccumulateStep | scripts/build_book.py:102-107 | one more move adds its contribution, with the corrected move word (admitted under "## Left out") |
| BookBuilder.CountedAt | scripts/build_book.py:73-74 | the move loop stops at the counted number of moves |
| BookBuilder.Kept | scripts/build_book.py:118-122 | the kept pairs are exactly the tallies of at least the minimum weight |
| BookBuilder.InsertPermutes | scripts/build_book.py:125 | inserting adds exactly the one entry |
| BookBuilder.SortByKeyPermutes | scripts/build_book.py:125 | sorting neither adds nor drops an entry |
| BookBuilder.InsertSorted | scripts/build_book.py:125 | inserting into a key-ordered list keeps it in key order |
| BookBuilder.InsertKeepsKeyOrder | scripts/build_book.py:125 | inserting keeps the order of the entries that share a key |
| BookBuilder.SortByKeyCorrect | scripts/build_book.py:125 | the sorted entries are in key order and keep the order of the entries sharing a key, as a stable sort does |
| BookBuilder.ToBytes | scripts/build_book.py:129 | n bytes are written |
| BookBuilder.BytesRoundTrip | scripts/build_book.py:129 | the bytes written for a value that fits read back as the value |
| BookBuilder.Pack | scripts/build_book.py:129 | a record is 16 bytes |
| BookBuilder.PackRoundTrip | scripts/build_book.py:129 | the engine reads a packed record back as its key, word and weight capped at 65535, with learn 0 |
| BookBuilder.WriteBook | scripts/build_book.py:127-129 | the file holds 16 bytes per entry |
| BookBuilder.WrittenBytes | scripts/build_book.py:127-129 | the bytes of record i are the packed entry i |
| BookBuilder.WrittenRecords | scripts/build_book.py:127-129 | the engine counts one record per entry and reads record i as entry i, weight capped |
| BookBuilder.WrittenBookSorted | scripts/build_book.py:125-129 | a book written in key order is sorted for the engine's binary search |
| BookBuilder.ContributionsPackable | scripts/build_book.py:76-104 | every contribution's key fits 64 bits, its word 16 bits, and its weight is not negative |
| BookBuilder.GroupPackable | scripts/build_book.py:104 | the tallies stay packable |
| BookBuilder.BuildBook | scripts/build_book.py:16-132 | the file is the tallies of the games, filtered by the minimum weight, sorted by key and packed, and the engine's reader sees it as sorted; the words are the corrected ones, not the script's (admitted under "## Left out") |
| BookBuilder.LoserOnlyMovesLeftOut | scripts/build_book.py:102-122 | with minimum weight 1, a pair that only ever earned 0, a move only the losing side played, is not in the book |
| ScriptBoards.ScriptTablesAreValueTables | training/analyze_games.py:80-81 | both scripts' value tables have six entries with the king worth nothing |
| ScriptBoards.CountMaterial | training/analyze_games.py:78-89 | the loop over the squares computes the material balance: white's values minus black's |
| ScriptBoards.MaterialColourSwap | training/train_from_lichess.py:301-322 | exchanging the colours negates the balance |
| ScriptBoards.MaterialUpdate | training/train_from_lichess.py:312-320 | changing one square changes the balance by exactly that square's difference |
| ScriptBoards.KingsWeighNothing | training/train_from_lichess.py:309 | placing a king on an empty square leaves the balance unchanged |
| Nnue.Index | src/nnue.c:174-175 | a square's number lies in 0 to 63 |
| Nnue.IndexOrder | src/nnue.c:174 | the numbering keeps the order of squares and tells them apart |
| Nnue.SquaresOf | src/nnue.c:172-179 | the loop visits as many squares as the board holds, each of them on the board |
| Nnue.SquaresOfMember | src/nnue.c:172-179 | a square is visited exactly when the board holds it |
| Nnue.SquaresOfDistinct | src/nnue.c:172-179 | no square is visited twice |
| Nnue.PieceFeatures | src/nnue.c:175 | one piece's indices are piece times 64 plus each square |
| Nnue.PieceFeaturesMember | src/nnue.c:175 | an index names exactly one piece and one square |
| Nnue.Take | src/nnue.c:176-177 | the kept indices are a prefix of at most 32, all of them when there are fewer |
| Nnue.TakeSnoc | src/nnue.c:176-177 | one more index is kept exactly while there is room |
| Nnue.PieceFeaturesDistinct | src/nnue.c:175 | one piece's indices stay in its block of 64 and repeat no square |
| Nnue.FeaturesOrdered | src/nnue.c:169-180 | the indices of the first p boards lie below 64 p and none repeats |
| Nnue.FeaturesExact | src/nnue.c:169-180 | an index is collected exactly when its piece's board holds its square |
| Nnue.FeatureStep | src/nnue.c:174-178 | one step takes the lowest square's index and goes on with a board of fewer squares |
| Nnue.ActiveIndices | src/nnue.c:165-180 | the collection loop keeps the first 32 indices in piece order, each board's squares lowest first |
| Nnue.ActiveIndicesSound | src/nnue.c:165-180 | the network sees at most 32 indices below 768, none twice, each an occupied piece-square |
| Nnue.ActiveIndicesComplete | src/nnue.c:165-180 | with at most 32 pieces on the board every occupied piece-square is seen |
| Nnue.Crelu | src/nnue.c:62-69 | the clipped value lies in 0 to 1, is the input inside that range, 0 below it and 1 above it |
| Nnue.CreluIdempotentMonotone | src/nnue.c:62-69 | clipping twice is clipping once, and clipping keeps the order of its inputs |
| Nnue.TruncateTowardZero | src/nnue.c:221 | the conversion drops the fraction toward zero |
| Nnue.TruncateOdd | src/nnue.c:221 | truncation commutes with negation |
| Nnue.NnueScoreSides | src/nnue.c:160-163 | the two sides to move get opposite scores; without weights the score is 0; a non-negative output scores between 0 and 400 times the output |
| Nnue.DispatchFallsBack | src/evaluate.c:393-395 | with the network switched on but no weights loaded the hand-written evaluation answers; otherwise the network answers exactly when weights are loaded |
| Nnue.LayoutSizes | src/nnue.c:15-19 | the engine's weight file holds 205121 floats, while the backup's larger layers would need 426625, so the two layouts differ and `load_nnue`, which checks no size, would misread the other engine's file |
| Nnue.Next | src/nnue.c:85-90 | each read goes on from within the data |
| Nnue.Fread | src/nnue.c:85-90 | a read keeps the size of its array |
| Nnue.Overlay | src/nnue.c:84-90 | what a file leaves: its values over the front of the old contents, the old values after its end |
| Nnue.FreadPieces | src/nnue.c:84-90 | the six reads in turn overlay the file on the six arrays in file order |
| Nnue.ReadAllLayout | src/nnue.c:84-90 | reading a file over old weights leaves the file laid over the front of the old layout |
| Nnue.NnueWeights.Load | src/nnue.c:75-97 | the load fails exactly when the file cannot be opened, leaving the weights alone; otherwise the file is laid over the weights in file order and they count as loaded, whatever the file's length |
| Nnue.NnueWeights.Save | src/nnue.c:99-114 | the save fails exactly when the file cannot be created; otherwise the file holds the weights in layout order, 205121 values |
| Nnue.NnueWeights.InitRandom | src/nnue.c:120-147 | every weight is its draw, in loop order, times its layer's scale, every bias 0, and the weights count as loaded |
| Nnue.NnueWeights.Evaluate | src/nnue.c:160-223 | 0 without weights; otherwise the network's output over the active indices, scaled by 400, truncated and given from the side to move's view |
| Nnue.SaveLoadRoundTrip | src/nnue.c:75-114 | loading the file saved from some weights, over any old weights, gives back exactly those weights |
| Nnue.SavedInjective | src/nnue.c:99-114 | two weight sets saved to the same file are the same |
| Nnue.ShortFileKeepsOldWeights | src/nnue.c:84-94 | a file that ends inside the input weights still counts as loaded, yet every later weight keeps its old value |
| NnueTrainer.FeatureIndex | training/train_nnue.py:85-89 | the feature of a piece code and an engine square lies below 768, and two features are equal exactly when piece and square are |
| NnueTrainer.LightStep | training/train_nnue.py:84-90 | one square of the pass lights exactly the entry of the piece standing there and changes nothing else |
| NnueTrainer.BoardToFeatures | training/train_nnue.py:69-91 | the vector lights exactly the entries of the pieces on the board, each at its square in the engine's numbering |
| NnueTrainer.FeaturesLightPieces | training/train_nnue.py:69-91 | an entry is lit exactly when its piece stands on its square, and no square lights two pieces |
| NnueTrainer.Active | training/train_nnue.py:97 | every active index names an entry of the vector |
| NnueTrainer.ActiveExact | training/train_nnue.py:97 | an index is active exactly when its entry is positive |
| NnueTrainer.ActiveAscending | training/train_nnue.py:97 | the active indices come in ascending order |
| NnueTrainer.ConcatShaped | training/train_nnue.py:45-46 | flattening n rows of one width gives n times that many values, and reshaping them gives the rows back |
| NnueTrainer.ReshapeShaped | training/train_nnue.py:45-50 | reshaping a whole number of rows gives rows of that width, which flatten back to the values |
| NnueTrainer.Chunk | training/train_nnue.py:45-55 | a read yields at most the asked number of values, exactly that many when the file holds them |
| NnueTrainer.FlatSize | training/train_nnue.py:58-67 | a well-shaped network writes exactly the parameter count of its layer sizes |
| NnueTrainer.SaveLoadRoundTrip | training/train_nnue.py:42-67 | loading what save wrote gives the saved network back and succeeds, whatever follows in the file |
| NnueTrainer.LoadSucceedsIffComplete | training/train_nnue.py:42-56 | a load succeeds exactly when the file holds every parameter, and then the arrays are the file's front in their shapes |
| NnueTrainer.TruncatedLoadReplacesInputRows | training/train_nnue.py:45-55 | a file that holds the input rows but stops short fails only after the input rows have been replaced |
| NnueTrainer.ShortLoadChangesNothing | training/train_nnue.py:45-46 | a file too short for the input rows fails before changing anything |
| NnueTrainer.Moved | training/train_nnue.py:165-166 | a row moved by a gradient step keeps its length |
| NnueTrainer.TrainerNetwork.Valid | training/train_nnue.py:30-40 | the network is valid exactly when its arrays have the layer shapes |
| NnueTrainer.TrainerNetwork.Load | training/train_nnue.py:42-56 | the new arrays are what the file gives over the old ones, the load succeeds exactly when the file is complete, and the input rows become read-only once the file replaces them |
| NnueTrainer.TrainerNetwork.ReadArrays | training/train_nnue.py:44-55 | the assignments of `load` leave what the file gives over the old arrays, and succeed exactly when the file is complete |
| NnueTrainer.TrainerNetwork.LoadCopy | training/train_nnue.py:42-56 | the same arrays as `load`, and the input rows stay writable once the file replaces them |
| NnueTrainer.TrainerNetwork.LoadOrKeep | training/train_nnue.py:42-56 | a load that checks the length first and copies the arrays succeeds exactly on a complete file, keeps the network on a short one, and otherwise leaves a valid network holding the file's front with writable input rows |
| NnueTrainer.TrainerNetwork.Save | training/train_nnue.py:58-67 | the file is the arrays in write order, of the full parameter count when the network is valid |
| NnueTrainer.TrainerNetwork.UpdateActiveRows | training/train_nnue.py:163-166 | on writable input rows each active row moves by the step; on read-only rows with an active index the update fails; in every case every other row and the hidden layer stay as they were, and the network stays valid |
| NnueTrainer.ResumeAsWritten | training/train_nnue.py:296-300 | resuming from a file that holds the input rows makes the first update of a sample with any piece fail, while a file too short to replace them leaves training possible |
| NnueTrainer.ResumeCopied | training/train_nnue.py:296-300 | resuming with copied arrays from a complete file loads it, and the first update moves exactly the active rows away from the file's rows |
| NnueTrainer.ReshapeRow | training/train_nnue.py:45-46 | row r of a reshaped array is the r-th run of `width` values |
| NnueTrainer.LoadedRows | training/train_nnue.py:45-46 | the input rows of a complete load are the file's first runs of 256 values |
| NnueTrainer.UntouchedRowsAreAbsentPieces | training/train_nnue.py:97 | an input row is updated exactly when the board has that piece on that square |
| NnueTrainer.CreluMask | training/train_nnue.py:152-153 | the mask is 0 or 1 |
| NnueTrainer.CreluMaskIsSlope | training/train_nnue.py:144-154 | the mask is 1 exactly strictly between 0 and 1 and is the slope of the clipped activation between points on the same side of a kink |
| NnueTrainer.ResultScoreSymmetric | training/train_nnue.py:200-210 | only an unfinished game has no score, every score lies in 0 to 1, and swapping the colours turns s into 1 - s |
| NnueTrainer.Progress | training/train_nnue.py:244 | how far into the game a ply lies is between 0 and 1 |
| NnueTrainer.BlendBetween | training/train_nnue.py:244-246 | the target lies between the material score and the result score, and is the material score at progress 0 |
| NnueTrainer.DrawsUsed | training/train_nnue.py:219-224 | the plies before n consume at most n random draws |
| NnueTrainer.SelectPlies | training/train_nnue.py:215-224 | the loop keeps the plies the selection rule keeps |
| NnueTrainer.SelectedExact | training/train_nnue.py:219-224 | a ply is kept exactly when it is past the sixth, not in check, and its draw is at most 0.4 |
| NnueTrainer.SelectedAscending | training/train_nnue.py:215-224 | the kept plies are game plies in game order |
| NnueTrainer.Counted | training/train_nnue.py:250 | no more games are counted than were read |
| NnueTrainer.CollectPositions | training/train_nnue.py:192-256 | games are read until the input ends or the limit is reached; the limit is checked only between games, so the last game can overshoot it by less than its own positions |
| NnueTrainer.HalvedShrinks | training/train_nnue.py:352-353 | the learning rate stays positive and never grows as it is halved |
| NnueTrainer.Checkpoints | training/train_nnue.py:357-358 | one checkpoint is written per ten epochs |
| NnueTrainer.TrainSchedule | training/train_nnue.py:323-361 | every epoch trains on every position once, the rate is halved once per twenty epochs, and the saves are the checkpoints followed by the final save |
| NnueTrainer.ScheduleFacts | training/train_nnue.py:351-361 | the final rate is positive and at most the first, and with a multiple of ten epochs the last checkpoint and the final save are of the same epoch |
| LichessTrainer.BotScoreSides | training/train_from_lichess.py:244-251 | in a decided game the two colours score opposite, and the bot scores 1 exactly when its colour won |
| LichessTrainer.FirstIllegal | training/train_from_lichess.py:257-274 | the index is the first move that does not parse, or the move count when all parse |
| LichessTrainer.ExtractPositionsFromGame | training/train_from_lichess.py:228-276 | a game without moves gives nothing; otherwise every position from ply 20 up to the first unparsable move is kept, in order, before its move is played |
| LichessTrainer.ResultWeightGrows | training/train_from_lichess.py:292 | the result's weight grows with the ply from 0 and stops at 0.8 from ply 80 on |
| LichessTrainer.TargetBetween | training/train_from_lichess.py:279-298 | the target lies between the material count and 300 times the result, and is the material at ply 0 |
| LichessTrainer.BotPerspectiveTargetFavoursLoser | training/train_from_lichess.py:244-296 | a level position at ply 80 with white to move in a game the bot won with black gets a target of +240 for white, the losing side |
| LichessTrainer.CorrectedTargetFavoursWinner | training/train_from_lichess.py:279-298 | with level material the corrected target favours the side to move exactly when that side won |
| LichessTrainer.BoardToInput | training/train_from_lichess.py:104-122 | the input lights exactly the entries of piece code times 64 plus the python-chess square of every piece |
| LichessTrainer.InputIsRankFlipped | training/train_from_lichess.py:104-122 | the input is the engine's feature vector of the board turned upside down |
| LichessTrainer.E2PawnReadsAsE7 | training/train_from_lichess.py:119 | a white pawn on e2 lights input 12, which the engine reads as a pawn on e7; the engine's own feature is 52 |
| LichessTrainer.Zeros | training/train_from_lichess.py:141-146 | a zero vector has the asked length |
| LichessTrainer.AddScaled | training/train_from_lichess.py:175-177 | adding a scaled row keeps the row's length |
| LichessTrainer.InputGrad | training/train_from_lichess.py:164-177 | the accumulated input gradient has one row per input and one column per hidden unit |
| LichessTrainer.Errors | training/train_from_lichess.py:158-161 | there is one error per output |
| LichessTrainer.UnseenRowGradZero | training/train_from_lichess.py:164-177 | the gradient row of an input no sample lights stays zero |
| LichessTrainer.MovedByZero | training/train_from_lichess.py:179-191 | a step by a zero gradient leaves a row as it was |
| LichessTrainer.MovedRows | training/train_from_lichess.py:179-191 | a stepped layer keeps its number of rows |
| LichessTrainer.TrainBatch | training/train_from_lichess.py:136-193 | the loss is the mean squared error, the output bias moves by the rate times its accumulated gradient, and each input row moves by its own accumulated gradient |
| LichessTrainer.UnseenRowsKept | training/train_from_lichess.py:164-191 | after a batch the input row of a piece-square absent from every sample is unchanged |
| LichessTrainer.EpochBatches | training/train_from_lichess.py:397-407 | the batches cover the samples except a last batch under half the size, and the batch count is the full batches plus a last one of at least half the size |
| LichessTrainer.AverageLoss | training/train_from_lichess.py:409 | the reported loss is the mean per batch: times `max(num_batches, 1)` it gives back the epoch total, it equals the total with at most one batch, and a non-negative total gives a mean between 0 and the total |
| History.CutoffBonus | src/search.c:923-925 | the reward lies in 0 to 400, never exceeds depth squared, and is depth squared up to depth 20 |
| History.Raise | src/search.c:952-954 | a raised entry never exceeds the cap, is the sum or the cap, and never falls below a capped entry |
| History.Lower | src/search.c:971-973 | a lowered entry never falls below the floor, is the difference or the floor, and never rises above a floored entry |
| History.RaiseLowerBounded | src/search.c:952-973 | rewards and penalties leave an entry within the cap of zero |
| History.HistIndex | src/types.h:293 | the piece-and-target cell lies inside the 12 by 64 table |
| History.ButterflyIndex | src/types.h:295 | the side-from-target cell lies inside the 2 by 64 by 64 table |
| History.CaptureIndex | src/types.h:296 | the piece-target-kind cell lies inside the 12 by 64 by 6 table |
| History.VictimKind | src/search.c:929-939 | the kind is that of the first opponent board holding the target, and a pawn when none holds it |
| History.HistIndexInjective | src/types.h:293 | two cells share an index exactly when piece and target agree |
| History.LowerAt | src/search.c:971-973 | one entry is lowered and floored, every other kept |
| History.PenalizedSpec | src/search.c:966-975 | the penalties keep the table bounded, raise no entry, and change no cell that no penalised quiet move names |
| History.PenaltyKeeps | src/search.c:968-974 | one penalty keeps the table bounded, raises no entry, and changes only the cell of a quiet move other than the cutoff move |
| History.OrderingTables.RewardCapture | src/search.c:927-943 | only the capture's cell of piece, target and victim kind changes, raised by four times the bonus and capped |
| History.OrderingTables.RewardQuiet | src/search.c:952-958 | only the move's history cell and butterfly cell change, each raised by the bonus and capped |
| History.OrderingTables.RecordCounter | src/search.c:960-964 | the counter-move cell of the previous move's piece and target becomes the cutoff move, nothing else changes |
| History.OrderingTables.PenalizeQuiets | src/search.c:966-975 | the history table becomes the penalties of the earlier moves applied in order |
| History.OrderingTables.Age | src/uci.c:317-330 | every history, capture-history and butterfly entry is halved toward zero |
| History.QuietCutoff | src/search.c:944-975 | the move becomes the first killer of its ply, the old first moving to the second slot unless it was the move itself, other plies keeping both killers; its history cell is rewarded and then every earlier quiet move penalised; its butterfly cell is rewarded and no other butterfly cell changes; and the counter move is recorded |
| History.TargetSquare | src/search.c:920 | the target field read as a board square keeps its number |
| History.CellOf | src/search.c:952 | a move's history cell lies inside the table |
| History.CaptureCellOf | src/search.c:940 | a capture's cell lies inside the capture table |
| History.NewGame | src/uci.c:174-181 | killers, history, counter moves and butterfly history are all zero afterwards, and capture history is unchanged |
| History.ZeroMoves | src/uci.c:180 | every counter-move slot is zero afterwards |
| History.DivideAll | src/uci.c:318-330 | every entry is divided toward zero, and a bounded table stays bounded |
| History.ZeroAll | src/uci.c:178-181 | every entry is zero afterwards |
| History.EngineKillerCell | src/types.h:292 | the first killers of plies below 64 stay within the first row |
| History.KillerTableTooNarrow | src/search.c:946-949 | negamax searches at ply 64, whose first killer is the same int as ply 0's second killer, and from ply 64 on the second killer lies past the table |
| History.KillerTable.Clear | src/uci.c:178 | every slot is empty afterwards |
| History.KillerTable.Update | src/search.c:946-950 | the move becomes first; a new move pushes the old first to second, the move already first leaves second alone; other plies keep their slots; distinct slots stay distinct |
| History.KillerTable.UpdateModular | src/modular_backup/search.c:605-610 | the move becomes first and the old first becomes second, even when they are the same move; other plies keep their slots |
| History.KillerUpdatesDiffer | src/modular_backup/search.c:605-610 | two modular updates with one move fill both slots with it, while the engine's update keeps the earlier killer second |
| History.RaiseModularHistory | src/modular_backup/search.c:595-598 | a quiet move's piece-and-target cell gains depth squared without a cap; a capture changes nothing |
| History.ModularSearchReset | src/modular_backup/search.c:651-653 | killers and quiet history are zero at the start of every search |
| History.HistoryBonus | src/modular_backup/include/advanced.h:70-73 | the bonus is 32 beyond depth 13 and lies in 0 to 3120 up to it |
| History.HistoryBonusShape | src/modular_backup/include/advanced.h:70-73 | the bonus grows with depth up to 13, where it is 3120, and drops to 32 at depth 14 |
| History.UpdatedEntryZero | src/modular_backup/include/advanced.h:76-79 | a zero bonus leaves the entry as it was |
| History.GravityBoundUp | src/modular_backup/include/advanced.h:76-79 | a non-negative bonus up to 16384 keeps an entry within 16384 of zero |
| History.GravityBound | src/modular_backup/include/advanced.h:76-79 | an entry and a bonus within 16384 of zero give an updated entry within 16384 of zero |
| History.UpdateHistory | src/modular_backup/include/advanced.h:76-79 | only the given entry changes, to its updated value, which stays within 16384 of zero when entry and bonus are |
| History.ModularHistory.Clear | src/modular_backup/advanced.c:74-79 | quiet, capture and counter histories are all zero afterwards |
| History.ModularHistory.Age | src/modular_backup/advanced.c:84-95 | quiet and capture entries are divided by 8 toward zero, the counter history is unchanged |
| History.InitReductions | src/modular_backup/advanced.c:43-58 | every entry of rows and columns 1 to 63 is at most depth - 1 and is the formula's value when that is no more, and row and column 0 keep their contents |
| History.LmpMarginShape | src/modular_backup/advanced.c:22-25 | the improving row allows at least as many moves as the other, and both rows grow with depth |
| MoveOrdering.MvvLva | src/search.c:29-42 | every table entry lies in 100 to 605 |
| MoveOrdering.MvvLvaOrder | src/search.c:29-42 | a more valuable victim scores higher whoever captures it, and for one victim the cheaper attacker scores higher |
| MoveOrdering.ScoreInTier | src/search.c:303-367 | every score lies in the interval of the band its move falls into |
| MoveOrdering.CaptureBand | src/search.c:328-341 | a capture's score before the exchange term lies between -3176 and 3881 of a million |
| MoveOrdering.QuietBand | src/search.c:358-366 | a quiet move's history-and-butterfly score lies within 49152 of zero |
| MoveOrdering.TiersOrdered | src/search.c:303-367 | a move of a better band always scores higher than one of a worse band, whatever the tables hold |
| MoveOrdering.BandsDescend | src/search.c:303-367 | the band intervals descend with their rank and do not overlap |
| MoveOrdering.ModularScore | src/modular_backup/search.c:183-229 | the PV flag stays set only while the scored move is not the PV move |
| MoveOrdering.CaptureScore | src/modular_backup/search.c:196-216 | a capture scores between 10100 and 10605 |
| MoveOrdering.HistoryScore | src/modular_backup/search.c:228 | a quiet move scores its piece-and-target history entry |
| MoveOrdering.PvBonusOnce | src/modular_backup/search.c:186-190 | the PV move scores 20000 once and clears the flag, and scored again it falls below 20000 |
| MoveOrdering.ModularBands | src/modular_backup/search.c:183-229 | while history stays below 8000, captures score 10100 to 10605, the first killer 9000, the second 8000, and the rest below 8000 |
| MoveOrdering.Scan | src/modular_backup/search.c:248-252 | the scan ends at the start or at a later index, within the range |
| MoveOrdering.ScanSpec | src/modular_backup/search.c:247-252 | the scan finds the first index of the largest score |
| MoveOrdering.FirstMax | src/modular_backup/search.c:247-252 | the chosen index lies in the scanned range |
| MoveOrdering.FirstMaxSpec | src/modular_backup/search.c:247-252 | no score of the range beats the chosen one and every earlier one is smaller |
| MoveOrdering.Swap | src/modular_backup/search.c:253-264 | the two positions exchange their elements and every other keeps its own |
| MoveOrdering.SwapPermutes | src/modular_backup/search.c:253-264 | an exchange keeps the elements |
| MoveOrdering.Pairs | src/modular_backup/search.c:255-263 | each move is paired with the score at its index |
| MoveOrdering.PairsSwap | src/modular_backup/search.c:255-263 | swapping moves and scores together swaps the pairs and keeps their multiset |
| MoveOrdering.SelectBest | src/modular_backup/search.c:247-264 | the first best-scored entry from the index on is swapped with its score to the index, nothing else changes |
| MoveOrdering.SortMoves | src/modular_backup/search.c:234-266 | the scores end descending, the move-and-score pairs are a permutation of the old ones, and the slots past the count are untouched |
| MoveOrdering.SelectionStep | src/modular_backup/search.c:245-265 | one selection step puts one more score in its final place |
| MoveOrdering.SelectedAll | src/modular_backup/search.c:245 | with all but the last score in place the whole list is descending |
| MoveOrdering.PickMove | src/modular_backup/search.c:271-292 | the first best-scored move from the start on is swapped to the start, nothing else changes |
| MoveOrdering.PickedIsBest | src/modular_backup/search.c:271-292 | after a pick the move at the start scores at least as well as every later move, and the list is a permutation of the old one |
| Exchange.PieceValue | src/bitboard.c:96-99 | a piece code's exchange value is its kind's entry |
| Exchange.ValuesPositive | src/bitboard.c:96-99 | every exchange value is positive |
| Exchange.VictimValue | src/search.c:139-173 | the victim is worth at least a pawn when an opponent board holds the target, and 0 when none does |
| Exchange.GainStep | src/search.c:197 | each recorded gain is the piece just taken minus the previous gain |
| Exchange.Depth | src/search.c:187-208 | the fold starts at the last recapture before the scan first answers 0, never beyond 29 |
| Exchange.DepthIs | src/search.c:187-208 | the fold's start is the first index where the scan answers 0, capped at 29 |
| Exchange.Combine | src/search.c:213 | as written a fold step keeps the larger of the gain and the negated earlier gain; the usual step keeps the smaller |
| Exchange.See | src/search.c:107-217 | the value returned is the fold of the recorded gains |
| Exchange.RecordGains | src/search.c:176-208 | the forward loop stops where the depth says and records, for every index up to it, the alternating gain |
| Exchange.FoldGains | src/search.c:210-216 | the backward loop leaves in gain 0 the fold of gains 0 to the top |
| Exchange.UndefendedWinsVictim | src/search.c:183-194 | a capture nobody answers wins its victim, with either fold |
| Exchange.ResolveBelowGain | src/search.c:210-214 | with the usual fold a folded value never exceeds the gain it folds into |
| Exchange.ExchangeBounds | src/search.c:107-217 | with the usual fold a capture wins at most its victim and loses at most its capturer |
| Exchange.AsWrittenNeverBelowVictim | src/search.c:211-214 | with the fold as written no capture is worth less than its victim |
| Exchange.StaleAttackers | src/search.c:49-104 | the scan reads the unchanged board, so it answers the same smallest attacker for each side at all 30 steps |
| Exchange.Interleaved | src/search.c:187-208 | each side's attackers are used at most once, so there are at most twice the opponent's count |
| Exchange.InterleavedAt | src/search.c:187-208 | the opponent's attackers answer the even calls and the mover's the odd ones, each once, cheapest first |
| Exchange.EngineSeeGeNeverFails | src/search.c:220-297 | as written the test holds for every capture and every threshold up to 0, whatever defends the target |
| Exchange.CorrectedSee | src/search.c:107-217 | a capture wins at most its victim and loses at most its capturer, and an undefended one wins its victim |
| Exchange.KnightForPawnExample | src/search.c:187-214 | a knight taking a bishop-defended pawn is valued at least a pawn as written, while the corrected value is -237 and fails the test at 0 |
| Exchange.ModularCaptured | src/modular_backup/move.c:276-292 | the captured piece is an opponent piece standing on the target, an opponent pawn for en passant, or -1 |
| Exchange.ModularSeeSign | src/modular_backup/move.c:270-316 | a non-capture scores 0; a capture never wins more than its victim and is losing exactly when the one-recapture exchange is |
| SearchBounds.NullReduction | src/search.c:557-560 | the reduction lies in 2 to depth - 1 and equals depth - 1 exactly up to depth 7 |
| SearchBounds.NullDepth | src/search.c:557-562 | the null-move search is shallower than the node, and drops to depth 0 exactly up to depth 7 |
| SearchBounds.NullDepthMonotone | src/search.c:557-562 | a deeper node never searches its null move shallower, and from depth 8 the null search goes depth - 5 - depth/3 deep |
| SearchBounds.NullCutoff | src/search.c:569-575 | the node cuts exactly on a fail-high, with a value between beta and the score that is either beta or below the mate band |
| SearchBounds.ModularNullReduction | src/modular_backup/search.c:452-454 | the reduction is 3 or 4, and 3 exactly below depth 6 |
| SearchBounds.ModularNullDepth | src/modular_backup/search.c:452-456 | the null search goes at least -1 and at most depth - 4 deep, and into quiescence exactly up to depth 4 |
| SearchBounds.ModularNullCutoff | src/modular_backup/search.c:464-477 | the node cuts, returning beta, exactly on a fail-high below depth 12 or a verified fail-high from depth 12 on |
| SearchBounds.ClampUpperThenLower | src/search.c:876-879 | with a non-negative cap the result lies in 0 to the cap, and a value already inside is kept |
| SearchBounds.ClampLowerThenUpper | src/modular_backup/search.c:548-551 | the result never exceeds the cap, is non-negative when the cap is, and a value already inside is kept |
| SearchBounds.ClampsAgree | src/search.c:876-879 | the two clamping orders agree whenever the cap is non-negative |
| SearchBounds.ClampsDifferBelowDepthTwo | src/modular_backup/search.c:548-551 | with a cap of -1 the engine's order gives 0 and the backup engine's gives -1 |
| SearchBounds.EngineAdjusted | src/search.c:835-874 | the adjustments move the table value by at most four either way besides the history term, and a PV node gains at most one |
| SearchBounds.EngineReduction | src/search.c:831-880 | the reduction lies in 0 to depth - 2 and is the adjusted value whenever that lies inside |
| SearchBounds.ReducedDepthPositive | src/search.c:889 | a reduced search is at least one ply deep and no deeper than the unreduced one |
| SearchBounds.ReductionFallsWithHistory | src/search.c:853-854 | a better history never reduces more |
| SearchBounds.EngineLmrCell | src/search.c:833 | the cell lies inside the table and is the plain pair when both are in range |
| SearchBounds.CaptureReduction | src/search.c:882-887 | the reduction lies in 0 to 2 and is positive exactly when the exchange loses |
| SearchBounds.CaptureReductionNeverApplies | src/search.c:882-887 | with the exchange evaluation as written no late capture is ever reduced |
| SearchBounds.ModularReduction | src/modular_backup/search.c:535-552 | the reduction lies in 0 to depth - 2 and is the table value less one per killer and good history, then clamped |
| SearchBounds.ModularLmrCellOverruns | src/modular_backup/search.c:539 | the 65th move at depth 3 reads the cell of depth 4 move 0, and depth 63 or 64 reads past the table |
| SearchBounds.ModularLmrCell | src/modular_backup/search.c:539 | the clamped cell lies inside the table and is the written cell when both indices are in range |
| SearchBounds.ModularLmrCellInjective | src/modular_backup/search.c:53 | distinct in-range pairs get distinct cells |
| SearchBounds.EngineMateDistance | src/search.c:480-487 | a cut happens only below the root, with a value at least alpha and at least the mated-here score |
| SearchBounds.EngineMateDistanceSound | src/search.c:480-487 | when the engine cuts no score the node can produce lies strictly inside the window |
| SearchBounds.ModularMateDistance | src/modular_backup/search.c:390-397 | the narrowed window lies inside the old one and stays non-empty below the root, the root is unchanged, and a cut returns at least alpha |
| SearchBounds.ModularMateDistanceSound | src/modular_backup/search.c:390-397 | when the backup engine cuts no score it can produce lies strictly inside the window |
| SearchBounds.NoMoveScore | src/search.c:995-1002 | with no legal move the score is mated-at-this-ply in check and the contempt score otherwise |
| SearchBounds.MatedScoreInRange | src/search.c:995-1002 | a mate below ply 100 scores inside the mate band and outside every window pruned at a shallower ply |
| SearchBounds.EngineAspiration | src/uci.c:346-371 | the final score is the search of the final window, lies strictly inside it unless the window is full, and the window contains the first one |
| SearchBounds.ModularAspiration | src/modular_backup/search.c:670-702 | the loop ends with the score strictly inside a window that contains the first one, and the score is that window's search |
| SearchBounds.EngineReport | src/uci.c:389-394 | centipawns are reported exactly inside 100 of the mate scores, and then the score itself |
| SearchBounds.ModularReport | src/modular_backup/search.c:721-730 | centipawns are reported exactly inside MAX_PLY of the mate scores, and then the score itself |
| SearchBounds.ReportsCountMoves | src/uci.c:389-392 | a mate delivered at ply p is reported as mate in (p + 1) / 2 by both engines, and being mated at an even ply p as minus p / 2 |
| SearchBounds.LegalCount | src/search.c:1026-1031 | no more moves are legal than were generated |
| SearchBounds.PerftDriver | src/search.c:1015-1036 | the driver counts the leaves of the legal-move tree to the given depth |
| SearchBounds.PerftOneCountsLegalMoves | src/search.c:1015-1036 | perft at depth 1 counts the legal moves |
| SearchBounds.LeavesAtZero | src/search.c:1017-1020 | at depth 0 below a list each legal move is one leaf |
| SearchBounds.LeavesSplit | src/search.c:1038-1060 | the leaves below a list of moves are the sum over any split of the list |
| Uci.SkipSpaces | src/modular_backup/uci.c:97-100 | the white space `atoi` skips in `parse_int`: what is left is no longer than the text and does not start with an `isspace` character |
| Uci.Decimal | src/uci.c:138 | a number's decimal text is non-empty and made of digits |
| Uci.DecimalValue | src/uci.c:138 | reading a number's decimal text gives the number back |
| Uci.CAtoiReadsText | src/modular_backup/uci.c:97-100 | reading a number written in decimal gives it back, whatever non-digit follows |
| Uci.Clamp | src/uci.c:139-142 | the value is brought into the range, kept when already inside, and otherwise set to a bound |
| Uci.EngineSetOption | src/uci.c:74-166 | valid options stay valid; Hash, MultiPV and Contempt keep their values when the line never names them; the network is switched on only by a UseNNUE line with weights ready or by an NNUEFile line with a value whose file loads, and off only by a UseNNUE line; an NNUEFile line reached in the chain switches it on exactly when its file loads |
| Uci.ModularHashOption | src/modular_backup/uci.c:194-215 | the size is set exactly when the line has a name of Hash and a value, and then it lies in 1 to 8192 |
| Uci.ModularHashReadsValue | src/modular_backup/uci.c:201-212 | a number written after the value keyword is read back and clamped into 1 to 8192 |
| Uci.ParseEngineGo | src/uci.c:209-241 | each field keeps its default when its word is absent, and the search is infinite exactly when the line says infinite or ponder |
| Uci.SearchDepth | src/uci.c:307-310 | an unset depth searches to MAX_PLY - 1, a given depth to itself |
| Uci.ExpectedMoves | src/uci.c:258-270 | the moves to last are positive: movestogo when given, else between 15 and 50 |
| Uci.MaxTime | src/uci.c:279-287 | the cap on one move lies between 0 and a fifth of the clock |
| Uci.Safety | src/uci.c:292-296 | the margin is 5, 10 or 30 milliseconds |
| Uci.EngineTimeForMove | src/uci.c:244-305 | a given movetime less 50 with a floor of 10; with a clock at least 10 and otherwise within the cap less the margin; no limit exactly when neither movetime nor a finite clock is given |
| Uci.ClockShareBounded | src/uci.c:272-300 | with a clock of at least 50 ms one move never gets more than a fifth of it |
| Uci.GoWord | src/modular_backup/uci.c:369-421 | a pass consumes at least one character and changes only the field of the keyword found at its position |
| Uci.CmdGo | src/modular_backup/uci.c:353-421 | the loop's fields are the parse of the whole line |
| Uci.ClockFieldsKept | src/modular_backup/uci.c:369-421 | the clock fields keep their values when the rest of the line names none of them |
| Uci.DepthKept | src/modular_backup/uci.c:371-375 | the depth keeps its value when the rest of the line never says depth |
| Uci.InfiniteKept | src/modular_backup/uci.c:406-411 | the infinite flag stays off when the rest of the line never says infinite |
| Uci.TimeLimit | src/modular_backup/search.c:130-152 | the limit lies in 100 to 60000, within a third of the clock when that is at least 100, and is the clock's share plus the increment less 50 when that is inside every bound |
| Uci.CalculateTime | src/modular_backup/search.c:130-152 | the assignments compute the time limit |
| Uci.CQuot | src/modular_backup/search.c:139-142 | C division truncates toward zero for a divisor of either sign |
| Uci.ModularLimit | src/modular_backup/uci.c:125-139 | a positive movetime is the limit, an infinite search has none, and otherwise the clock gives 100 to 60000 |
| Uci.ModularTimeLimit | src/modular_backup/uci.c:125-139 | the thread's statements compute the limit |
| Uci.DepthOnlyGoIsTimed | src/modular_backup/uci.c:363-364 | a go without clock words or infinite is limited to 100 ms |
| Uci.ModularLimitFixed | src/modular_backup/uci.c:125-139 | a positive movetime is the limit, and a real clock for the side to move gives 100 to 60000 |
| Uci.DepthOnlyGoUntimedFixed | src/modular_backup/uci.c:363-421 | with the fix every go without clock words searches without a time limit |
| Uci.StripLineEndings | src/modular_backup/uci.c:580-584 | a line without NUL, CR or LF comes back unchanged from its CRLF, LF or bare form |
| Uci.StrlenOf | src/modular_backup/uci.c:580 | the length of a text without NUL is its size |
| Uci.StripLineCutsAfterCarriageReturn | src/modular_backup/uci.c:583-584 | a carriage return next to the end costs the line its last character even without a newline |
| Evaluation.SquareDistance | src/evaluate.c:82-89 | the distance lies in 0 to 7 and is 0 exactly for the same square |
| Evaluation.DistanceMetric | src/evaluate.c:64-89 | the distance is symmetric and obeys the triangle inequality |
| Evaluation.KingStepsTriangle | src/evaluate.c:84-88 | the rank-and-file step count is symmetric and obeys the triangle inequality |
| Evaluation.CenterManhattanFormula | src/evaluate.c:50-58 | each entry is the rank distance plus the file distance to the centre, lies in 0 to 6, and is unchanged by either flip of the board |
| Evaluation.TableEntry | src/evaluate.c:50-58 | one entry of the table is the formula's value |
| Evaluation.MopUpEval | src/evaluate.c:73-80 | the mop-up score lies in 28 to 116 |
| Evaluation.MopUpRewardsPressure | src/evaluate.c:73-80 | bringing the winning king closer and pushing the losing king away from the centre both raise the score |
| Evaluation.IsPassedPawn | src/evaluate.c:349-384 | the scan answers passed exactly when no enemy pawn stands ahead on the pawn's file or a neighbouring one |
| Evaluation.IsOutpost | src/evaluate.c:241-271 | the tests answer outpost exactly when the square lies in the side's half, a pawn of its own defends it, and no enemy pawn stands ahead on a neighbouring file |
| Evaluation.OutpostSafeFromPawns | src/evaluate.c:257-269 | no black pawn stands ahead of a white outpost on a neighbouring file, so none can ever attack it |
| Evaluation.DefendedCount | src/evaluate.c:279-286 | no more pawns are counted defended than squares visited |
| Evaluation.PawnCount | src/evaluate.c:279-286 | no more pawns are counted than squares visited |
| Evaluation.DefendedAtMostPawns | src/evaluate.c:279-286 | the defended pawns never outnumber the pawns |
| Evaluation.CalculatePawnChain | src/evaluate.c:273-288 | the bonus is 10 per pawn another pawn of its side defends, and at most 10 per pawn |
| Evaluation.Shortfall | src/evaluate.c:199-200 | a piece's penalty is never negative and is 0 at or above the average mobility |
| Evaluation.Shortfalls | src/evaluate.c:195-211 | the summed penalties are never negative |
| Evaluation.ShortfallsBound | src/evaluate.c:195-211 | each piece adds at most the average times 8 |
| Evaluation.CalculateRestriction | src/evaluate.c:186-235 | the restriction is the knights' shortfalls below 5 plus the bishops' below 7, 8 per square, and never negative |
| Evaluation.PhaseScore | src/evaluate.c:403-409 | the score lies in 0 to 256 for at most 24 units, is 256 at 24 and 0 at 0, and is the units scaled to 256 rounded to nearest |
| Evaluation.PhaseScoreMonotone | src/evaluate.c:409 | more material never lowers the phase score |
| Evaluation.MopUpPhase | src/evaluate.c:576 | mop-up applies exactly when at most 12 phase units are left |
| Evaluation.EngineTempoForSideToMove | src/evaluate.c:588-591 | the side to move gets its own view of the score plus 10, whichever colour it is |
| ModularEvaluation.MirrorSqIsIdentity | src/modular_backup/evaluate.c:27-35 | the mirror table maps every square to itself, so black's table lookups are not mirrored at all |
| ModularEvaluation.FlipSq | src/modular_backup/evaluate.c:27-35 | the rank flip a mirrored lookup needs keeps the file and turns rank index r into 7 - r |
| ModularEvaluation.FlipInvolution | src/modular_backup/evaluate.c:27-35 | flipping twice gives the square back, and no square is its own flip |
| ModularEvaluation.ValueTablesColourBlind | src/modular_backup/evaluate.c:46-52 | both value tables give a white piece and its black partner the same value |
| ModularEvaluation.TermFlips | src/modular_backup/evaluate.c:730-826 | with the rank flip as mirror, a square of the colour-flipped board is worth minus its partner square |
| ModularEvaluation.RowFlips | src/modular_backup/evaluate.c:730-826 | a rank of the colour-flipped board sums to minus the partner rank |
| ModularEvaluation.RowsFlip | src/modular_backup/evaluate.c:730-826 | a range of ranks of the colour-flipped board sums to minus the mirrored range |
| ModularEvaluation.CorrectedMaterialAntisymmetric | src/modular_backup/evaluate.c:730-826 | with the rank flip as mirror, the material and table sum of the colour-flipped position is exactly the negation |
| ModularEvaluation.E2E7Score | src/modular_backup/evaluate.c:730-826 | the e2/e7 position scores the white pawn's term plus the black pawn's |
| ModularEvaluation.MirrorAsWrittenSkewsSymmetricPosition | src/modular_backup/evaluate.c:782-786 | the e2/e7 position is its own colour flip yet scores -83 in the middlegame sum as written, and 0 with the rank flip |
| ModularEvaluation.MirrorAsWrittenSkewsEndgame | src/modular_backup/evaluate.c:782-786 | the same position scores -134 in the endgame sum as written |
| ModularEvaluation.GamePhase | src/modular_backup/evaluate.c:238-258 | the phase lies in 0 to 256, is 0 with 24 or more units on the board and 256 with none |
| ModularEvaluation.GamePhaseFallsWithMaterial | src/modular_backup/evaluate.c:251 | more material never gives a higher phase |
| ModularEvaluation.GamePhaseAgainstEngineScale | src/modular_backup/evaluate.c:251 | the phase is at least 128 exactly when at most 12 units are left, the engine's mop-up threshold |
| ModularEvaluation.Taper | src/modular_backup/evaluate.c:830 | the blend is the middlegame score at phase 0, the endgame score at 256, and always between the two |
| ModularEvaluation.TaperAntisymmetric | src/modular_backup/evaluate.c:830 | because C division truncates toward zero, blending negated scores gives the negated blend |
| ModularEvaluation.FileCount | src/modular_backup/evaluate.c:429 | the count of pawns on a file is at most the ranks looked at |
| ModularEvaluation.Defenders | src/modular_backup/evaluate.c:396-409 | a pawn has 0 to 2 defenders, and at least one exactly when a pawn of its side defends it |
| ModularEvaluation.IsolatedEarnsNoBonus | src/modular_backup/evaluate.c:396-426 | an isolated pawn has no defender and no duo neighbour, and its term is at most minus the isolated penalty |
| ModularEvaluation.PawnTermBounds | src/modular_backup/evaluate.c:396-431 | a pawn's structure term lies between -85 and +32 |
| ModularEvaluation.PawnStructureTerm | src/modular_backup/evaluate.c:396-431 | the loop body adds the chain, duo, isolated and doubled terms of the pawn |
| ModularEvaluation.EvaluatePawnStructure | src/modular_backup/evaluate.c:384-439 | the pass over the pawns returns the sum of every own pawn's structure term |
| ModularEvaluation.FrontSpan | src/modular_backup/evaluate.c:460-483 | the span holds exactly the squares ahead of the pawn on its own and neighbouring files |
| ModularEvaluation.AddFileAhead | src/modular_backup/evaluate.c:464-465 | one span loop adds exactly the squares of one file ahead of the pawn |
| ModularEvaluation.FrontSpanMatchesEngine | src/modular_backup/evaluate.c:460-485 | no enemy pawn in the span exactly when the engine's passed-pawn scan says passed |
| ModularEvaluation.Manhattan | src/modular_backup/evaluate.c:495-498 | the rank-and-file distance is at most 14 |
| ModularEvaluation.PassedBonus | src/modular_backup/evaluate.c:488-505 | the bonus is the table entry for the pawn's rank, plus 5 per step the enemy king is farther from the promotion square than the own king when the phase is above 128 |
| ModularEvaluation.PromotionSquare | src/modular_backup/evaluate.c:491 | the promotion square keeps the file and sits on the far rank |
| ModularEvaluation.PassedBonusGrowsWithRank | src/modular_backup/evaluate.c:225 | the bonus table grows with every step from the second rank to the seventh |
| ModularEvaluation.PassedBonusRewardsKing | src/modular_backup/evaluate.c:501-504 | in the endgame, bringing the own king closer to the promotion square never lowers the bonus |
| ModularEvaluation.IsPassed | src/modular_backup/evaluate.c:485 | the test answers passed exactly when no enemy pawn stands in the front span |
| ModularEvaluation.EvaluatePassedPawns | src/modular_backup/evaluate.c:445-513 | the pass over the pawns returns the sum of the bonuses of the passed pawns |
| ModularEvaluation.ShieldFile | src/modular_backup/evaluate.c:530-558 | one shield file is worth 0 to 35 |
| ModularEvaluation.OpenFile | src/modular_backup/evaluate.c:560-575 | one file next to the king costs 0 to 35 |
| ModularEvaluation.KingSafety | src/modular_backup/evaluate.c:518-578 | past phase 200 king safety is 0, and it always lies in -105 to 105 |
| ModularEvaluation.KingSafetyAtEdge | src/modular_backup/evaluate.c:530-575 | a king on the edge file is judged on its own file and its one neighbour only |
| ModularEvaluation.TempoPenalisesBlack | src/modular_backup/evaluate.c:855-860 | as written, with black to move the tempo bonus becomes a 15-point penalty, and a position and its colour flip differ by 30 |
| ModularEvaluation.ModularFinish | src/modular_backup/evaluate.c:855-860 | corrected: the side to move gets its own view of the score plus 15 |
| ModularEvaluation.TempoForSideToMove | src/modular_backup/evaluate.c:855-860 | the corrected finish scores a position and its colour flip alike |
| GameAnalysis.OfficersUpTo | training/analyze_games.py:95-99 | the officers counted never outnumber the squares looked at |
| GameAnalysis.GetPositionType | training/analyze_games.py:92-106 | the loop's answer is the phase the officer count gives: opening from 12, middlegame from 6, endgame below |
| GameAnalysis.PhaseMonotone | training/analyze_games.py:101-106 | fewer officers never mean an earlier phase, and the thresholds fall at 12 and 6 |
| GameAnalysis.CaptureAdvancesPhase | training/analyze_games.py:95-99 | emptying a square never raises the officer count |
| GameAnalysis.OutcomeConsistent | training/analyze_games.py:131-139 | won is set exactly for a win, a game always gets a result, and a decided game is a win for one side exactly when a loss for the other |
| GameAnalysis.SignedOwn | training/analyze_games.py:78-89 | seen from a side, a piece counts its value for that side and minus its value for the other |
| GameAnalysis.PlayGain | training/analyze_games.py:78-89 | the material a move changes, from the mover's side, is exactly what it captures and promotes |
| GameAnalysis.OwnMoveNeverLosesMaterial | training/analyze_games.py:155-160 | a move never costs its own side material |
| GameAnalysis.FirstUnparsed | training/analyze_games.py:146-183 | every move before the index parses and the move at it does not |
| GameAnalysis.WordLength | training/analyze_games.py:143 | the length of the leading run of non-space characters: every character before it is not white space and the one at it is |
| GameAnalysis.Words | training/analyze_games.py:143 | `str.split()`: every word is non-empty and holds no white space |
| GameAnalysis.BlankHasNoWords | training/analyze_games.py:143 | a string of white space alone, empty or not, splits into no words |
| GameAnalysis.NonBlankHasWords | training/analyze_games.py:143 | a string holding a non-space character splits into at least one word |
| GameAnalysis.AnalyzeGame | training/analyze_games.py:109-185 | only a missing or empty moves field gives the empty `unknown` analysis; any other field, white space alone included, sets `won` and `result` from the winner; the analysis stops at the first unparsed word, counts the phases of a lost game, and records exactly the bot moves that lose more than a pawn as written |
| GameAnalysis.CountPhase | training/analyze_games.py:162-163 | one more position of the phase, the other counts unchanged |
| GameAnalysis.AnalyseStep | training/analyze_games.py:147-181 | one parsed move advances the board, counts the phase of a lost game and records a loss of more than a pawn on the bot's move |
| GameAnalysis.TallyStep | training/analyze_games.py:162-163 | a move adds one to its phase's count and nothing to the others |
| GameAnalysis.BlundersStep | training/analyze_games.py:166-178 | a move appends its record to the blunders exactly when the test flags it |
| GameAnalysis.BlunderPlyExact | training/analyze_games.py:166-178 | a ply is recorded exactly when it is the bot's move and loses more than a pawn on that move alone |
| GameAnalysis.AsWrittenRecordsNoBlunders | training/analyze_games.py:155-166 | the test compares material on both sides of the bot's own move, which never loses material, so a game of legal moves records no blunder |
| GameAnalysis.KnightLostToReply | training/analyze_games.py:155-166 | from any position with the pieces of 1. Nf3 e5 2. Ng5 Qxg5 in place and the bot as white, the moves form a legal game, the test as written flags no move, and the corrected test flags 2. Ng5 |
| GameAnalysis.CorrectedFlagIsNetLoss | training/analyze_games.py:166 | corrected: the bot's move is flagged exactly when the reply gains more than a pawn beyond what the bot's move gained |
| GameAnalysis.SortByChangeCorrect | training/analyze_games.py:243-244 | the sort is a permutation in ascending order of the material change |
| GameAnalysis.SortByChangeStable | training/analyze_games.py:243-244 | the sort is stable: the blunders with any one change come out in their original order |
| GameAnalysis.WorstBlundersShape | training/analyze_games.py:243-244 | the report shows min(5, n) of the blunders, each one of them, in ascending order of the change |
| GameAnalysis.WorstBlundersAreLowest | training/analyze_games.py:243-244 | no blunder left out of the report has a lower change than one shown |
| Moves.GetCapture | src/types.h:218 | the capture getter yields the masked bit itself, 0 or the capture bit |
| Moves.GetDouble | src/types.h:219 | the double-push getter yields 0 or the double-push bit |
| Moves.GetEnPassant | src/types.h:220 | the en-passant getter yields 0 or the en-passant bit |
| Moves.GetCastling | src/types.h:221 | the castling getter yields 0 or the castling bit |
| Moves.TacticalIsNotQuiet | src/modular_backup/include/move.h:69-70 | a move is tactical exactly when it is not quiet |
| Boards.Board.CaptureStep | src/movegen.c:324-338 | with the capture flag set the victim on the target is removed and its key XORed out; nothing else changes |
| Boards.Board.PromotionStep | src/movegen.c:340-347 | with a promoted piece named the pawn on the target is replaced and both keys XORed; nothing else changes |
| Boards.Board.EnPassantStep | src/movegen.c:349-362 | with the en-passant flag set the pawn behind the target is removed and its key XORed out |
| Boards.Board.CastlingStep | src/movegen.c:383-413 | with the castling flag set the rook of the target corner moves and its keys are XORed |
| Boards.Board.ClearEnPassant | src/movegen.c:364-367 | the old en-passant square is cleared and its key XORed out |
| Boards.Board.SetEnPassant | src/movegen.c:369-381 | the square behind a double push becomes the en-passant square and its key is XORed in |
| Boards.Board.PlayPieces | src/movegen.c:318-362 | the piece boards and key after the move, its capture, promotion and en-passant victim |
| Boards.Board.PlayBookkeeping | src/movegen.c:364-432 | the castling rook, en-passant square, rights, occupancies and side after the move, with the key updated for each |
| Boards.Board.KingAttacked | src/movegen.c:435 | the answer is whether the mover's king square is attacked by the side now to move |
| Boards.Board.PlayAndCheck | src/movegen.c:307-435 | the state after the move, the mover's king still on the board, and whether it is attacked |
| Zobrist.NextDraw | src/bitboard.c:196-203 | one 64-bit draw is the next number of the seeded sequence and the generator state advances by four rounds |
| Zobrist.FillKeys | src/bitboard.c:217-224 | a run of draws fills the slice with consecutive numbers of the sequence and leaves the rest of the array alone |
| Zobrist.KeyTables.XorState | src/bitboard.c:240-245 | the side key for black, the en-passant key when a square is set and the castling key are XORed in |
| Tokens.Strlen | src/modular_backup/uci.c:580 | the length is the number of characters before the first NUL |
| Squares.Coord | src/modular_backup/types.c:62-72 | a square's name is a file letter a to h followed by a rank digit 1 to 8 |
| Queries.SquareColour | src/modular_backup/board.c:168 | a square's colour is 0 or 1 |

## Left out

- Fen.EnPassantOf: a square outside 0..64 is clamped to `no_sq`. The modular `parse_fen` (src/modular_backup/board.c:375-377) stores `rank * 8 + file` unchecked, so a malformed field would write an arbitrary value.
- Moves.MoveList.AddMove: requires `count < 256`. C `add_move` has no capacity check, so here the caller must show there is room, and a write past the 256 slots is not modelled.
- MoveGen.GenerateMoves: returns an unbounded sequence of moves instead of writing into the 256-slot list, so overflow of the C buffer is not modelled.
- Fen.ReadCastling: in the main engine's dialect the castling loop stops at the end of the string. C reads past the terminating NUL there.
- Fen.ParseFen: in the main engine's dialect the fifty-move counter is left as it was and the full-move number is reported as 1, because that reader ignores both clock fields.
- PositionCommand.Replay: the replay stops when the side to move has no king. At that point C would call `make_move`, and `get_ls1b_index(0) == -1` leads to undefined behaviour.
- MoveGen.CastlingMoves: the king is not checked to stand on e1/e8. The C generator relies on the castling rights to imply that, and so does the model.
- The knight outposts of the modular evaluation (white only, no defender test), `evaluate_pieces` (mobility, bishop pair, rook files, connected rooks) and the space term of the modular `evaluate` are not modelled, nor is the full sum of its terms.
- Nnue.NnueWeights.Load: modelled as an overlay of the file on the old weights, so a short file leaves the old values in place. C `fread` has the same effect, but partial reads of a single 4-byte float are not modelled.
- Magic.FindMagicNumber: the candidate numbers are a parameter, not the engine's random generator. Only the test a candidate must pass and the postcondition of the search are modelled, not that the brute force terminates.
- Nnue.NnueWeights.Evaluate: the float layers of the forward pass are a parameter; only the feature collection, the scaling and the sign are modelled.
- Nnue.NnueWeights.InitRandom: the random draws are a parameter (`rand()` in the C code).
- LichessTrainer.TrainBatch: the float forward pass and the hidden-layer gradients are inputs; only the accumulation, the averaging and the frame of the untouched rows are modelled.
- NnueTrainer.TrainerNetwork.UpdateActiveRows: the gradient values are inputs, and only the rows they touch are modelled. Xavier/He initialisation, the sigmoid and the Stockfish evaluation calls are left out.
- NnueTrainer.TrainerNetwork.Load: the file is a sequence of reals. A file whose length is not a multiple of 4 bytes, which `np.frombuffer` refuses, is not modelled. Only the input rows carry a read-only flag; that the other replaced arrays are read-only too, so that `backward` raises already at `self.hidden2_weights -=`, is not modelled.
- Placement.Mark: a piece letter beyond square 63 is dropped in both dialects. The engine's `parse_fen` (src/movegen.c:503-504) calls `set_bit` with no bound check, so a malformed placement would shift by 64 or more, which is undefined in C.
- AgedTable.AgedTranspositionTable.Init: the table is sized with the intended `TableSize`. src/modular_backup/hash.c:150-151 computes the entry count in a 32-bit `int`, so from 2048 MB on it is negative or 0 (the Findings row, `AgedTable.OverflowGivesEmptyTable`); the allocation outcome that follows is not modelled.
- BookBuilder.PlyWord: builds the standard Polyglot word (`Word`), not the rank-flipped word scripts/build_book.py:88-89 writes (`PlyWordAsWritten`, the Findings row).
- BookBuilder.Contribution: carries the corrected word of `PlyWord`, not the script's word.
- BookBuilder.AccumulateStep: adds a contribution with the corrected word, not the script's word.
- BookBuilder.AccumulateGame: the tallies of one game use the corrected word, not the script's word.
- BookBuilder.Accumulate: the tallies of all games use the corrected word, not the script's word.
- NnueTrainer.SelectPlies: `random.shuffle` and the random sampling are arbitrary inputs.
- LichessTrainer.ExtractPositionsFromGame: SAN parsing is an input (a flag per move saying whether it parses).
- GameAnalysis.AnalyzeGame: SAN parsing is an input (the effect of each move, or None when it does not parse), and the report's printing is left out.
- BookBuilder.BuildBook: the games arrive parsed and the position keys come from the chess library's Polyglot hash, so both are inputs. The book is packed from the corrected words, so it is the file the script means to write, not the one it writes.
- The UCI read loops, the `communicate` polling, the clocks (`get_time_ms`, `time_over`) and the printing are left out. Only the arithmetic and the tokenizing the loops call are modelled (module `Uci`).
- The recursive negamax and quiescence searches are left out. Their helpers are modelled, and a search call is a parameter that takes a window and returns a score.
- The logarithmic late-move-reduction tables are floating-point and left out. Their clamps and indices are modelled.
- Polyglot.PolyglotKey: the 781 key words are a parameter. The engine fills them in `init_polyglot_keys` (src/modular_backup/book.c:68-80) from a 64-bit linear congruential generator seeded with 0x12345678. Those are not the standard Polyglot Random64 words behind `chess.polyglot.zobrist_hash`, which gives the keys of the books scripts/build_book.py:76 writes. So, despite the comment at book.c:28, the engine finds no position of such a book. Neither table's values are modelled.
- SearchBounds.ModularMateDistance: `MATE_VALUE` (src/modular_backup/search.c:393-394, 622, 721-727) is defined in none of the backup's files. The model takes it to be `MATE`, 49000 (src/modular_backup/include/types.h:104).
- SearchBounds.ModularReport: uses the same assumed `MATE_VALUE` of 49000.
- SearchBounds.ReportsCountMoves: its backup half uses the same assumed `MATE_VALUE` of 49000.
- Polyglot.ProbeSingleBook: a book file is its bytes, so `read_entry` fails only past the last whole record. A read error inside the file is not modelled.
- The pthread search thread, the pondering flags and the search mutex are left out.
- File I/O is modelled as byte or record sequences: book files, NNUE weight files and the trainers' weight files.

## Findings

| source | as written | input that shows it | evidently intended | confidence | as-written member | corrected member |
|---|---|---|---|---|---|---|
| src/modular_backup/hash.c:151 | `size_mb * 1024 * 1024` is a 32-bit `int` product | `setoption name Hash value 4096` gives 0 entries; 2048 gives a negative size | a table of `size_mb` megabytes, as the Hash option up to 8192 promises | not executed | AgedTable.OverflowGivesEmptyTable | AgedTable.TableSize |
| src/types.h:292 | `killer_moves[2][64]` is indexed by ply up to `MAX_PLY - 2` | a quiet cutoff at ply 64 writes `killer_moves[1][64]`, past the table, and the first killer of ply 64 aliases the second of ply 0 | one column per ply the search reaches, as the modular engine declares | not executed | History.KillerTableTooNarrow | History.KillerTable.Update |
| src/search.c:187-214 | the fold keeps the larger of the two values at every step, so a capture is never worth less than its victim | knight takes a pawn defended by a bishop: as written at least 100, with each attacker used once 100 - 337 = -237 | the exchange value, where the side to move may stop the exchange | not executed | Exchange.KnightForPawnExample | Exchange.CorrectedSee |
| src/search.c:220-297 | `see_ge` with a threshold of 0 or below holds for every capture | any capture of a defended piece by a more valuable one | losing captures fail `see_ge(move, 0)` | not executed | Exchange.EngineSeeGeNeverFails | Exchange.ExchangeBounds |
| src/search.c:882-887 | the capture reduction tests `see(move) < 0`, which never holds as written | every capture at every depth | losing captures are reduced | not executed | SearchBounds.CaptureReductionNeverApplies | Exchange.CorrectedSee |
| src/modular_backup/search.c:539 | `lmr_table[depth][moves_searched]` is indexed without a clamp | the 65th move at depth 3 reads the cell of depth 4, move 0; at depth 63 it reads past the table | both indices clamped to 63 | not executed | SearchBounds.ModularLmrCellOverruns | SearchBounds.ModularLmrCell |
| src/modular_backup/uci.c:363-364 | a `go` without clock words keeps a zero clock, which `calculate_time` turns into 100 ms | `go depth 20` | a depth-only `go` searches without a time limit | not executed | Uci.DepthOnlyGoIsTimed | Uci.DepthOnlyGoUntimedFixed |
| src/modular_backup/evaluate.c:855-860 | the tempo bonus is added before the sign is set for the side to move | any position with black to move: the bonus becomes a 15-point penalty | the side to move gets the bonus, as src/evaluate.c does | not executed | ModularEvaluation.TempoPenalisesBlack | ModularEvaluation.TempoForSideToMove |
| src/modular_backup/evaluate.c:27-35 | `mirror_sq` is the identity, so black's piece-square lookups are not mirrored | white pawn e2, black pawn e7: a position that is its own colour flip scores -83 (middlegame) and -134 (endgame) | black's tables read on the rank-flipped square, so that a colour-flipped position scores the negation | not executed | ModularEvaluation.MirrorAsWrittenSkewsSymmetricPosition | ModularEvaluation.CorrectedMaterialAntisymmetric |
| scripts/build_book.py:88-89 | ranks are flipped when the move word is built, and the engine's reader flips them again | 1. e4 is stored so that the engine plays it as e7-e5 | the standard Polyglot word, which the engine reads as the same move | not executed | BookBuilder.E2E4ReadsAsE7E5 | BookBuilder.WordMatchesEngineMove |
| training/train_from_lichess.py:119 | the input index uses python-chess squares (a1 = 0) | a white pawn on e2 lights input 12, which the engine reads as a pawn on e7 | the engine's feature numbering (a8 = 0), as training/train_nnue.py uses | not executed | LichessTrainer.E2PawnReadsAsE7 | NnueTrainer.BoardToFeatures |
| training/train_nnue.py:45-55 | `load` replaces the input rows before it finds that the file is short | a file that holds the input rows but stops before the end | a failed load leaves the network unchanged | not executed | NnueTrainer.TruncatedLoadReplacesInputRows | NnueTrainer.TrainerNetwork.LoadOrKeep |
| training/train_nnue.py:157-166 | `load` (lines 45-55) binds every array to `np.frombuffer` over the `bytes` read, a read-only view, and `backward` updates the arrays in place with `-=` | resuming `train_nnue` from an existing output file: the first sample's update raises ValueError, which nothing catches | the loaded arrays are writable copies (`.copy()`), so training continues from the checkpoint | not executed | NnueTrainer.ResumeAsWritten | NnueTrainer.ResumeCopied |
| training/train_from_lichess.py:279-298 | the result term is the bot's score but the material term is white's | a game the bot won with black: a level position at ply 80 with white to move gets the target +240 | both terms from the side to move's view | not executed | LichessTrainer.BotPerspectiveTargetFavoursLoser | LichessTrainer.CorrectedTargetFavoursWinner |
| training/analyze_games.py:155-166 | the blunder test compares material before and after the bot's own move, which never loses material | 1. Nf3 e5 2. Ng5 Qxg5 with the bot as white: the knight is lost to the reply but no blunder is recorded | the bot's move and the reply together lose more than a pawn | not executed | GameAnalysis.AsWrittenRecordsNoBlunders | GameAnalysis.CorrectedFlagIsNetLoss |
| src/modular_backup/uci.c:338 | `cmd_position` appends to the repetition table without resetting it | a key recorded by an earlier `position` command counts as a repetition; the table overflows at the 45th command of one game | each `position` command, which lists the whole game, starts a fresh table | not executed | PositionCommand.StaleKeyRepeats | PositionCommand.CmdPositionFresh |
