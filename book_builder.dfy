/**
 * The opening-book builder script: it replays the first moves of each
 * game, credits every (position key, move word) pair with a weight from
 * the game's result and the players' ratings, drops pairs below a minimum
 * weight, sorts by key and writes 16-byte Polyglot records. The games
 * arrive already parsed; the position keys come from the chess library's
 * Polyglot hash, so they are inputs here. Squares are the library's,
 * a1 = 0 .. h8 = 63.
 */
module BookBuilder {
  import opened Polyglot
  import opened ModularEvaluation

  const KeyLimit := 0x1_0000_0000_0000_0000

  type Key = k: int | 0 <= k < KeyLimit

  /** One main-line move: the key of the position before it, its squares, promotion code 0..4, and whether it castles. */
  datatype Ply = Ply(key: Key, from: int, to: int, promotion: int, castling: bool, whiteToMove: bool)

  predicate ValidPly(p: Ply)
  {
    0 <= p.from < 64 && 0 <= p.to < 64 && 0 <= p.promotion <= 4
  }

  datatype Game = Game(result: string, whiteElo: int, blackElo: int, plies: seq<Ply>)

  ghost predicate ValidGames(games: seq<Game>)
  {
    forall g, p :: g in games && p in g.plies ==> ValidPly(p)
  }

  // ---------------------------------------------------------------------
  // Weights
  // ---------------------------------------------------------------------

  /** The weight each side's moves earn from the result: the winner 2 and the loser 0, otherwise 1 each. */
  function SideWeights(result: string): (w: (int, int))
    ensures w.0 + w.1 == 2 && 0 <= w.0 <= 2
    ensures w.0 == 0 <==> result == "0-1"
    ensures w.1 == 0 <==> result == "1-0"
  {
    if result == "1-0" then (2, 0)
    else if result == "0-1" then (0, 2)
    else (1, 1)
  }

  /** The rating multiplier: an average above 2600 triples, above 2400 doubles. */
  function EloMultiplier(whiteElo: int, blackElo: int): (m: int)
    ensures 1 <= m <= 3
    ensures m == 3 <==> whiteElo + blackElo > 5200
    ensures m >= 2 <==> whiteElo + blackElo > 4800
  {
    if whiteElo + blackElo > 5200 then 3
    else if whiteElo + blackElo > 4800 then 2
    else 1
  }

  /** A stronger pairing never earns a smaller multiplier. */
  lemma EloMultiplierMonotone(w1: int, b1: int, w2: int, b2: int)
    requires w1 + b1 <= w2 + b2
    ensures EloMultiplier(w1, b1) <= EloMultiplier(w2, b2)
  {
  }

  // ---------------------------------------------------------------------
  // Move words
  // ---------------------------------------------------------------------

  /**
   * The word as the script writes an ordinary move: the row fields hold
   * `7 - rank`. The five fields occupy disjoint bits, so the script's
   * bitwise or is this sum.
   */
  function WordAsWritten(from: int, to: int, promotion: int): int
    requires 0 <= from < 64 && 0 <= to < 64 && 0 <= promotion <= 4
  {
    (from % 8) * 64 + (7 - from / 8) * 512 + to % 8 + (7 - to / 8) * 8 + promotion * 4096
  }

  /** The standard word: the row fields hold the rank itself, 0 for the first. */
  function Word(from: int, to: int, promotion: int): (w: int)
    requires 0 <= from < 64 && 0 <= to < 64 && 0 <= promotion <= 4
    ensures 0 <= w < 0x5000
  {
    (from % 8) * 64 + (from / 8) * 512 + to % 8 + (to / 8) * 8 + promotion * 4096
  }

  /** The castling words: the king's square to the rook's corner, e1-h1, e1-a1, e8-h8 and e8-a8. */
  function CastleWord(to: int): (w: int)
    ensures 0 <= w < 0x1000
  {
    if to == 6 then 4 * 64 + 7
    else if to == 2 then 4 * 64
    else if to == 62 then 4 * 64 + 7 * 512 + 7 + 7 * 8
    else 4 * 64 + 7 * 512 + 7 * 8
  }

  predicate CastlesToStandardSquare(p: Ply)
  {
    p.castling && (p.to == 6 || p.to == 2 || p.to == 62 || p.to == 58)
  }

  function PlyWordAsWritten(p: Ply): int
    requires ValidPly(p)
  {
    if CastlesToStandardSquare(p) then CastleWord(p.to) else WordAsWritten(p.from, p.to, p.promotion)
  }

  /**
   * The word the model's book pipeline stores for a move: the standard
   * (corrected) word, not the rank-flipped `PlyWordAsWritten` that
   * `build_book.py` writes.
   */
  function PlyWord(p: Ply): (w: int)
    requires ValidPly(p)
    ensures 0 <= w < 0x5000
  {
    if CastlesToStandardSquare(p) then CastleWord(p.to) else Word(p.from, p.to, p.promotion)
  }

  /** Reading a standard word back gives its fields: the round trip of the encoding. */
  lemma WordFieldsRoundTrip(from: int, to: int, promotion: int)
    requires 0 <= from < 64 && 0 <= to < 64 && 0 <= promotion <= 4
    ensures Fields(Word(from, to, promotion)) == WordFields(to % 8, to / 8, from % 8, from / 8, promotion)
  {
    var w := Word(from, to, promotion);
    var q3 := from / 8 + 8 * promotion;
    var q2 := from % 8 + 8 * q3;
    var q1 := to / 8 + 8 * q2;
    assert w == to % 8 + 8 * q1;
    assert w / 8 == q1 && w % 8 == to % 8;
    assert w / 64 == q2 && q1 % 8 == to / 8;
    assert w / 512 == q3 && q2 % 8 == from % 8;
    assert w / 4096 == promotion && q3 % 8 == from / 8;
  }

  /** The engine reads a standard word as the move between the same squares in its own numbering (a8 = 0). */
  lemma WordMatchesEngineMove(from: int, to: int, promotion: int, c: Candidate)
    requires 0 <= from < 64 && 0 <= to < 64 && 0 <= promotion <= 4
    ensures MatchesWord(c, Word(from, to, promotion)) <==>
      c.source == FlipSq(from) && c.target == FlipSq(to) && PromotionMatches(promotion, c.promoted)
  {
    WordFieldsRoundTrip(from, to, promotion);
  }

  /** The script's word, read by the engine, names the move mirrored top to bottom: the engine square with the library's number. */
  lemma WordAsWrittenMatchesMirror(from: int, to: int, promotion: int, c: Candidate)
    requires 0 <= from < 64 && 0 <= to < 64 && 0 <= promotion <= 4
    ensures MatchesWord(c, WordAsWritten(from, to, promotion)) <==>
      c.source == from && c.target == to && PromotionMatches(promotion, c.promoted)
  {
    var mirrored := Word(FlipSq(from), FlipSq(to), promotion);
    assert WordAsWritten(from, to, promotion) == mirrored;
    WordMatchesEngineMove(FlipSq(from), FlipSq(to), promotion, c);
    FlipInvolution(from);
    FlipInvolution(to);
  }

  /** 1. e4 (library squares 12 to 28) is written so that the engine plays it as e7-e5 (its squares 12 to 28), never e2-e4 (52 to 36). */
  lemma E2E4ReadsAsE7E5()
    ensures MatchesWord(Candidate(12, 28, 0), WordAsWritten(12, 28, 0))
    ensures !MatchesWord(Candidate(52, 36, 0), WordAsWritten(12, 28, 0))
    ensures MatchesWord(Candidate(52, 36, 0), Word(12, 28, 0))
  {
    WordAsWrittenMatchesMirror(12, 28, 0, Candidate(12, 28, 0));
    WordAsWrittenMatchesMirror(12, 28, 0, Candidate(52, 36, 0));
    WordMatchesEngineMove(12, 28, 0, Candidate(52, 36, 0));
  }

  // ---------------------------------------------------------------------
  // Tallying the games
  // ---------------------------------------------------------------------

  /** A (key, move word) pair and the weight credited to it. */
  datatype Tally = Tally(key: Key, move: int, weight: int)

  /** The mover's result weight times the rating multiplier. */
  function Credit(side: int, mult: int): (c: int)
    requires 0 <= side <= 2 && 1 <= mult <= 3
    ensures 0 <= c <= 6
    ensures c == 0 <==> side == 0
  {
    CreditBounds(side, mult);
    side * mult
  }

  lemma CreditBounds(side: int, mult: int)
    requires 0 <= side <= 2 && 1 <= mult <= 3
    ensures 0 <= side * mult <= 6 && (side * mult == 0 <==> side == 0)
  {
    if side == 0 {
    } else if side == 1 {
    } else {
      assert side * mult == mult + mult;
    }
  }

  /** What one move of a game adds to its pair. */
  function Contribution(g: Game, p: Ply): (t: Tally)
    requires ValidPly(p)
    ensures t.key == p.key && t.move == PlyWord(p) && 0 <= t.weight <= 6
  {
    var w := SideWeights(g.result);
    Tally(p.key, PlyWord(p), Credit(if p.whiteToMove then w.0 else w.1, EloMultiplier(g.whiteElo, g.blackElo)))
  }

  /** How many of a game's moves count: at most `maxMoves`. */
  function Counted(g: Game, maxMoves: int): (n: nat)
    ensures n <= |g.plies| && (maxMoves >= 0 ==> n <= maxMoves)
    ensures n == |g.plies| || n == maxMoves || (n == 0 && maxMoves < 0)
  {
    if maxMoves <= 0 then 0 else if |g.plies| < maxMoves then |g.plies| else maxMoves
  }

  /** The contributions of a game's first n moves. */
  function GameContributions(g: Game, n: nat): seq<Tally>
    requires n <= |g.plies| && forall p :: p in g.plies ==> ValidPly(p)
  {
    if n == 0 then [] else GameContributions(g, n - 1) + [Contribution(g, g.plies[n - 1])]
  }

  /** The contributions of all games, in play order. */
  function Contributions(games: seq<Game>, maxMoves: int): seq<Tally>
    requires ValidGames(games)
  {
    if games == [] then []
    else
      var g := games[|games| - 1];
      Contributions(games[..|games| - 1], maxMoves) + GameContributions(g, Counted(g, maxMoves))
  }

  predicate SamePair(t: Tally, key: int, move: int)
  {
    t.key == key && t.move == move
  }

  /** The position of the pair in the tallies, or their length when it is absent. */
  function IndexOf(ts: seq<Tally>, key: int, move: int): (i: nat)
    ensures i <= |ts|
    ensures i < |ts| ==> SamePair(ts[i], key, move)
    ensures forall j :: 0 <= j < i ==> !SamePair(ts[j], key, move)
  {
    if ts == [] then 0
    else if SamePair(ts[0], key, move) then 0
    else 1 + IndexOf(ts[1..], key, move)
  }

  /** `book_data[key][move] += weight`: add to the pair's tally, or start one after the others. */
  function AddTo(ts: seq<Tally>, c: Tally): (r: seq<Tally>)
    ensures |r| == |ts| || |r| == |ts| + 1
  {
    var i := IndexOf(ts, c.key, c.move);
    if i < |ts| then ts[i := ts[i].(weight := ts[i].weight + c.weight)] else ts + [c]
  }

  /**
   * `book_data` after the contributions, flattened to one tally per (key,
   * move) pair, listed in the order each pair first gets weight. The
   * script's dict of dicts lists keys by first insertion and moves within
   * a key by first insertion, which can differ from this order, but both
   * give the same order among the tallies of any one key. The stable sort
   * by key keeps exactly that order, so the file comes out the same.
   */
  function Group(cs: seq<Tally>): seq<Tally>
  {
    if cs == [] then [] else AddTo(Group(cs[..|cs| - 1]), cs[|cs| - 1])
  }

  /** The reference total: every contribution to the pair, summed. */
  function SumFor(cs: seq<Tally>, key: int, move: int): int
  {
    if cs == [] then 0
    else SumFor(cs[..|cs| - 1], key, move) + (if SamePair(cs[|cs| - 1], key, move) then cs[|cs| - 1].weight else 0)
  }

  predicate Present(ts: seq<Tally>, key: int, move: int)
  {
    IndexOf(ts, key, move) < |ts|
  }

  ghost predicate DistinctPairs(ts: seq<Tally>)
  {
    forall i, j :: 0 <= i < j < |ts| ==> !SamePair(ts[j], ts[i].key, ts[i].move)
  }

  lemma IndexFinds(ts: seq<Tally>, j: int, key: int, move: int)
    requires 0 <= j < |ts| && SamePair(ts[j], key, move)
    ensures IndexOf(ts, key, move) <= j
  {
  }

  /** AddTo keeps every tally's pair where it was and puts a new pair last. */
  lemma AddToPairs(ts: seq<Tally>, c: Tally, i: int)
    requires 0 <= i < |AddTo(ts, c)|
    ensures i < |ts| ==> SamePair(AddTo(ts, c)[i], ts[i].key, ts[i].move)
    ensures i < |ts| && !SamePair(c, ts[i].key, ts[i].move) ==> AddTo(ts, c)[i] == ts[i]
    ensures i == |ts| ==> !Present(ts, c.key, c.move) && AddTo(ts, c)[i] == c
  {
  }

  /** A pair absent after the contributions was never contributed, so its total is 0. */
  lemma {:induction false} GroupAbsent(cs: seq<Tally>, key: int, move: int)
    requires !Present(Group(cs), key, move)
    ensures SumFor(cs, key, move) == 0
    ensures forall c :: c in cs ==> !SamePair(c, key, move)
  {
    if cs != [] {
      var prefix, c := cs[..|cs| - 1], cs[|cs| - 1];
      var ts := Group(prefix);
      var r := AddTo(ts, c);
      assert Group(cs) == r;
      var k := IndexOf(ts, c.key, c.move);
      var j := if k < |ts| then k else |ts|;
      AddToPairs(ts, c, j);
      if SamePair(c, key, move) {
        IndexFinds(r, j, key, move);
        assert false;
      }
      if Present(ts, key, move) {
        var m := IndexOf(ts, key, move);
        AddToPairs(ts, c, m);
        IndexFinds(r, m, key, move);
        assert false;
      }
      GroupAbsent(prefix, key, move);
      assert forall d :: d in cs ==> d in prefix || d == c;
    }
  }

  /** Each pair has one tally. */
  lemma {:induction false} GroupDistinct(cs: seq<Tally>)
    ensures DistinctPairs(Group(cs))
  {
    if cs != [] {
      var prefix, c := cs[..|cs| - 1], cs[|cs| - 1];
      GroupDistinct(prefix);
      var ts := Group(prefix);
      var r := AddTo(ts, c);
      assert Group(cs) == r;
      forall i, j | 0 <= i < j < |r|
        ensures !SamePair(r[j], r[i].key, r[i].move)
      {
        AddToPairs(ts, c, i);
        AddToPairs(ts, c, j);
        if j == |ts| {
          if SamePair(r[j], r[i].key, r[i].move) {
            IndexFinds(ts, i, c.key, c.move);
          }
        }
      }
    }
  }

  /** Each tally's weight is the sum of every contribution to its pair. */
  lemma {:induction false} GroupWeight(cs: seq<Tally>, i: int)
    requires 0 <= i < |Group(cs)|
    ensures Group(cs)[i].weight == SumFor(cs, Group(cs)[i].key, Group(cs)[i].move)
  {
    var prefix, c := cs[..|cs| - 1], cs[|cs| - 1];
    var ts := Group(prefix);
    var r := AddTo(ts, c);
    assert Group(cs) == r;
    AddToPairs(ts, c, i);
    var key, move := r[i].key, r[i].move;
    assert SumFor(cs, key, move) == SumFor(prefix, key, move) + (if SamePair(c, key, move) then c.weight else 0);
    if i < |ts| {
      GroupWeight(prefix, i);
      if SamePair(c, key, move) {
        var k := IndexOf(ts, c.key, c.move);
        GroupDistinct(prefix);
        assert k == i;
      }
    } else {
      GroupAbsent(prefix, key, move);
    }
  }

  lemma GroupSnoc(xs: seq<Tally>, c: Tally)
    ensures Group(xs + [c]) == AddTo(Group(xs), c)
  {
    assert (xs + [c])[..|xs|] == xs;
  }

  lemma ContributionsSnoc(games: seq<Game>, i: int, maxMoves: int)
    requires ValidGames(games) && 0 <= i < |games|
    ensures ValidGames(games[..i]) && ValidGames(games[..i + 1])
    ensures Contributions(games[..i + 1], maxMoves) == Contributions(games[..i], maxMoves) + GameContributions(games[i], Counted(games[i], maxMoves))
  {
    assert games[..i + 1][..i] == games[..i];
  }

  /** The loops of `build_polyglot_book` over the games and their first moves. */
  method Accumulate(games: seq<Game>, maxMoves: int) returns (tallies: seq<Tally>)
    requires ValidGames(games)
    ensures tallies == Group(Contributions(games, maxMoves))
  {
    tallies := [];
    var i := 0;
    while i < |games|
      invariant 0 <= i <= |games| && ValidGames(games[..i])
      invariant tallies == Group(Contributions(games[..i], maxMoves))
    {
      var g := games[i];
      ContributionsSnoc(games, i, maxMoves);
      tallies := AccumulateGame(tallies, g, maxMoves, Contributions(games[..i], maxMoves));
      i := i + 1;
    }
    assert games[..i] == games;
  }

  lemma GameContributionsSnoc(before: seq<Tally>, g: Game, n: nat)
    requires n < |g.plies| && forall p :: p in g.plies ==> ValidPly(p)
    ensures before + GameContributions(g, n + 1) == (before + GameContributions(g, n)) + [Contribution(g, g.plies[n])]
  {
    var xs := GameContributions(g, n);
    var c := Contribution(g, g.plies[n]);
    assert GameContributions(g, n + 1) == xs + [c];
    assert before + (xs + [c]) == (before + xs) + [c];
  }

  /** The move loop for one game: stop after `maxMoves` moves. */
  method AccumulateGame(tallies0: seq<Tally>, g: Game, maxMoves: int, ghost before: seq<Tally>) returns (tallies: seq<Tally>)
    requires forall p :: p in g.plies ==> ValidPly(p)
    requires tallies0 == Group(before)
    ensures tallies == Group(before + GameContributions(g, Counted(g, maxMoves)))
  {
    tallies := tallies0;
    var moveCount := 0;
    assert before + GameContributions(g, 0) == before;
    while moveCount < |g.plies|
      invariant 0 <= moveCount <= Counted(g, maxMoves)
      invariant tallies == Group(before + GameContributions(g, moveCount))
    {
      if moveCount >= maxMoves {
        break;
      }
      var c := Contribution(g, g.plies[moveCount]);
      AccumulateStep(before, g, moveCount, tallies);
      tallies := AddTo(tallies, c);
      moveCount := moveCount + 1;
    }
    CountedAt(g, maxMoves, moveCount);
  }

  /** One more move of the game adds its contribution to the tallies. */
  lemma AccumulateStep(before: seq<Tally>, g: Game, k: nat, tallies: seq<Tally>)
    requires k < |g.plies| && forall p :: p in g.plies ==> ValidPly(p)
    requires tallies == Group(before + GameContributions(g, k))
    ensures AddTo(tallies, Contribution(g, g.plies[k])) == Group(before + GameContributions(g, k + 1))
  {
    GroupSnoc(before + GameContributions(g, k), Contribution(g, g.plies[k]));
    GameContributionsSnoc(before, g, k);
  }

  /** The move loop stops at the counted number of moves. */
  lemma CountedAt(g: Game, maxMoves: int, k: nat)
    requires k <= Counted(g, maxMoves) && (k >= |g.plies| || k >= maxMoves)
    ensures k == Counted(g, maxMoves)
  {
  }

  // ---------------------------------------------------------------------
  // Writing the book
  // ---------------------------------------------------------------------

  /** The pairs that reach the minimum weight, in order. */
  function Kept(ts: seq<Tally>, minWeight: int): (r: seq<Tally>)
    ensures forall t :: t in r ==> t in ts && t.weight >= minWeight
    ensures forall t :: t in ts && t.weight >= minWeight ==> t in r
  {
    if ts == [] then []
    else
      assert ts == [ts[0]] + ts[1..];
      (if ts[0].weight >= minWeight then [ts[0]] else []) + Kept(ts[1..], minWeight)
  }

  /** Place t before the first entry whose key is not smaller, so that equal keys keep their order. */
  function Insert(t: Tally, ts: seq<Tally>): seq<Tally>
  {
    if ts == [] || t.key <= ts[0].key then [t] + ts else [ts[0]] + Insert(t, ts[1..])
  }

  /** The script's stable sort by key. */
  function SortByKey(ts: seq<Tally>): seq<Tally>
  {
    if ts == [] then [] else Insert(ts[0], SortByKey(ts[1..]))
  }

  lemma {:induction false} InsertPermutes(t: Tally, ts: seq<Tally>)
    ensures multiset(Insert(t, ts)) == multiset(ts) + multiset{t}
  {
    if ts != [] && t.key > ts[0].key {
      InsertPermutes(t, ts[1..]);
      assert ts == [ts[0]] + ts[1..];
    }
  }

  /** Sorting rearranges the entries and neither adds nor drops one. */
  lemma {:induction false} SortByKeyPermutes(ts: seq<Tally>)
    ensures multiset(SortByKey(ts)) == multiset(ts)
  {
    if ts != [] {
      SortByKeyPermutes(ts[1..]);
      InsertPermutes(ts[0], SortByKey(ts[1..]));
      assert ts == [ts[0]] + ts[1..];
    }
  }

  predicate KeysAscending(ts: seq<Tally>)
  {
    forall i, j :: 0 <= i < j < |ts| ==> ts[i].key <= ts[j].key
  }

  /** The entries with one key, in order. */
  function WithKey(ts: seq<Tally>, key: int): seq<Tally>
  {
    if ts == [] then [] else Sel(ts[0], key) + WithKey(ts[1..], key)
  }

  /** The entry itself when it has the key, otherwise nothing. */
  function Sel(t: Tally, key: int): seq<Tally>
  {
    if t.key == key then [t] else []
  }

  lemma {:induction false} InsertSorted(t: Tally, ts: seq<Tally>)
    requires KeysAscending(ts)
    ensures KeysAscending(Insert(t, ts))
  {
    if ts != [] && t.key > ts[0].key {
      InsertSorted(t, ts[1..]);
      var r := Insert(t, ts[1..]);
      InsertPermutes(t, ts[1..]);
      forall j | 0 <= j < |r|
        ensures ts[0].key <= r[j].key
      {
        assert r[j] in multiset(r);
        assert r[j] in multiset(ts[1..]) || r[j] == t;
        if r[j] != t {
          var m :| 0 <= m < |ts[1..]| && ts[1..][m] == r[j];
          assert ts[m + 1] == r[j];
        }
      }
    }
  }

  lemma WithKeyCons(x: Tally, xs: seq<Tally>, key: int)
    ensures WithKey([x] + xs, key) == Sel(x, key) + WithKey(xs, key)
  {
    assert ([x] + xs)[0] == x && ([x] + xs)[1..] == xs;
  }

  lemma AscendingTail(ts: seq<Tally>)
    requires ts != [] && KeysAscending(ts)
    ensures KeysAscending(ts[1..])
  {
    forall i, j | 0 <= i < j < |ts| - 1
      ensures ts[1..][i].key <= ts[1..][j].key
    {
      assert ts[1..][i] == ts[i + 1] && ts[1..][j] == ts[j + 1];
    }
  }

  lemma {:induction false} InsertKeepsKeyOrder(t: Tally, ts: seq<Tally>, key: int)
    requires KeysAscending(ts)
    ensures WithKey(Insert(t, ts), key) == WithKey([t] + ts, key)
  {
    if ts != [] && t.key > ts[0].key {
      var rest := ts[1..];
      AscendingTail(ts);
      InsertKeepsKeyOrder(t, rest, key);
      var r := Insert(t, rest);
      assert Insert(t, ts) == [ts[0]] + r;
      WithKeyCons(ts[0], r, key);
      WithKeyCons(t, rest, key);
      WithKeyCons(t, ts, key);
      assert ts == [ts[0]] + rest;
      WithKeyCons(ts[0], rest, key);
      SwapHeads(Sel(ts[0], key), Sel(t, key), WithKey(rest, key));
    }
  }

  lemma SwapHeads(a: seq<Tally>, b: seq<Tally>, w: seq<Tally>)
    requires a == [] || b == []
    ensures a + (b + w) == b + (a + w)
  {
    if a == [] {
      assert a + (b + w) == b + w == b + (a + w);
    } else {
      assert a + (b + w) == a + w == b + (a + w);
    }
  }

  /** The sorted book is in key order and keeps the order of the entries that share a key. */
  lemma {:induction false} SortByKeyCorrect(ts: seq<Tally>, key: int)
    ensures KeysAscending(SortByKey(ts))
    ensures WithKey(SortByKey(ts), key) == WithKey(ts, key)
  {
    if ts != [] {
      SortByKeyCorrect(ts[1..], key);
      InsertSorted(ts[0], SortByKey(ts[1..]));
      InsertKeepsKeyOrder(ts[0], SortByKey(ts[1..]), key);
      assert ([ts[0]] + SortByKey(ts[1..]))[1..] == SortByKey(ts[1..]);
      assert ([ts[0]] + ts[1..])[1..] == ts[1..];
      assert ts == [ts[0]] + ts[1..];
    }
  }

  /** n bytes spelling v, most significant first. */
  function ToBytes(v: nat, n: nat): (bs: seq<Byte>)
    requires v < Pow256(n)
    ensures |bs| == n
  {
    if n == 0 then []
    else ToBytes(v / 256, n - 1) + [v % 256]
  }

  lemma {:induction false} BytesRoundTrip(v: nat, n: nat)
    requires v < Pow256(n)
    ensures BigEndian(ToBytes(v, n)) == v
  {
    if n > 0 {
      BytesRoundTrip(v / 256, n - 1);
      var bs := ToBytes(v, n);
      assert bs[..n - 1] == ToBytes(v / 256, n - 1);
    }
  }

  function Min(a: int, b: int): int
  {
    if a < b then a else b
  }

  predicate Packable(t: Tally)
  {
    0 <= t.move < 65536 && t.weight >= 0
  }

  /** `struct.pack('>QHHi', key, move, min(weight, 65535), 0)`. */
  function Pack(t: Tally): (bs: seq<Byte>)
    requires Packable(t)
    ensures |bs| == 16
  {
    assert Pow256(8) == KeyLimit;
    ToBytes(t.key, 8) + ToBytes(t.move, 2) + ToBytes(Min(t.weight, 65535), 2) + ToBytes(0, 4)
  }

  lemma TwoBytes(v: nat)
    requires v < 65536
    ensures ToBytes(v, 2)[0] as int * 256 + ToBytes(v, 2)[1] as int == v
  {
    assert ToBytes(v, 2) == ToBytes(v / 256, 1) + [v % 256];
    assert ToBytes(v / 256, 1) == [v / 256];
  }

  /** Reading a packed record gives the tally back, with the weight capped at 65535. */
  lemma PackRoundTrip(t: Tally)
    requires Packable(t)
    ensures DecodeEntry(Pack(t)) == Entry(t.key, t.move, Min(t.weight, 65535), 0)
  {
    assert Pow256(8) == KeyLimit;
    var b := Pack(t);
    assert b[..8] == ToBytes(t.key, 8);
    assert b[8..10] == ToBytes(t.move, 2);
    assert b[10..12] == ToBytes(Min(t.weight, 65535), 2);
    assert b[12..] == ToBytes(0, 4);
    BytesRoundTrip(t.key, 8);
    BytesRoundTrip(0, 4);
    TwoBytes(t.move);
    TwoBytes(Min(t.weight, 65535));
  }

  ghost predicate AllPackable(es: seq<Tally>)
  {
    forall i :: 0 <= i < |es| ==> Packable(es[i])
  }

  /** The records one after the other. */
  function WriteBook(es: seq<Tally>): (file: seq<Byte>)
    requires AllPackable(es)
    ensures |file| == 16 * |es|
  {
    if es == [] then [] else WriteBook(es[..|es| - 1]) + Pack(es[|es| - 1])
  }

  lemma SliceOfFront<T>(a: seq<T>, b: seq<T>, lo: nat, hi: nat)
    requires lo <= hi <= |a|
    ensures (a + b)[lo..hi] == a[lo..hi]
  {
  }

  lemma SliceOfBack<T>(a: seq<T>, b: seq<T>)
    ensures (a + b)[|a|..|a| + |b|] == b
  {
  }

  lemma SixteenthsOf(n: nat)
    ensures 16 * n / 16 == n
  {
  }

  /** The bytes of record i of the written book are the packed tally i. */
  lemma {:induction false} WrittenBytes(es: seq<Tally>, i: int)
    requires AllPackable(es) && 0 <= i < |es|
    ensures WriteBook(es)[16 * i..16 * i + 16] == Pack(es[i])
  {
    var prefix := es[..|es| - 1];
    assert AllPackable(prefix);
    var front := WriteBook(prefix);
    var last := Pack(es[|es| - 1]);
    assert WriteBook(es) == front + last;
    if i == |es| - 1 {
      SliceOfBack(front, last);
    } else {
      WrittenBytes(prefix, i);
      assert prefix[i] == es[i];
      SliceOfFront(front, last, 16 * i, 16 * i + 16);
    }
  }

  /** Record i of the written book is tally i, its weight capped. */
  lemma WrittenRecords(es: seq<Tally>, i: int)
    requires AllPackable(es) && 0 <= i < |es|
    ensures |WriteBook(es)| / 16 == |es|
    ensures Record(WriteBook(es), i) == Entry(es[i].key, es[i].move, Min(es[i].weight, 65535), 0)
  {
    SixteenthsOf(|es|);
    WrittenBytes(es, i);
    PackRoundTrip(es[i]);
  }

  /** A book written in key order is one the engine's binary search can read. */
  lemma WrittenBookSorted(es: seq<Tally>)
    requires AllPackable(es) && KeysAscending(es)
    ensures SortedBook(WriteBook(es))
  {
    var file := WriteBook(es);
    forall i, j | 0 <= i < j < |file| / 16
      ensures Record(file, i).key <= Record(file, j).key
    {
      WrittenRecords(es, i);
      WrittenRecords(es, j);
    }
  }

  lemma {:induction false} GameContributionsPackable(g: Game, n: nat)
    requires n <= |g.plies| && forall p :: p in g.plies ==> ValidPly(p)
    ensures AllPackable(GameContributions(g, n))
  {
    if n > 0 {
      GameContributionsPackable(g, n - 1);
    }
  }

  /** Every credit of valid games can be packed: words fit 16 bits and credits are not negative. */
  lemma {:induction false} ContributionsPackable(games: seq<Game>, maxMoves: int)
    requires ValidGames(games)
    ensures AllPackable(Contributions(games, maxMoves))
  {
    if games != [] {
      var prefix := games[..|games| - 1];
      ContributionsPackable(prefix, maxMoves);
      var g := games[|games| - 1];
      GameContributionsPackable(g, Counted(g, maxMoves));
    }
  }

  lemma {:induction false} GroupPackable(cs: seq<Tally>)
    requires AllPackable(cs)
    ensures AllPackable(Group(cs))
  {
    if cs != [] {
      var prefix, c := cs[..|cs| - 1], cs[|cs| - 1];
      GroupPackable(prefix);
      var ts := Group(prefix);
      assert Group(cs) == AddTo(ts, c);
    }
  }

  lemma PackableMembers(xs: seq<Tally>, ys: seq<Tally>)
    requires AllPackable(xs) && forall t :: t in ys ==> t in xs
    ensures AllPackable(ys)
  {
    forall i | 0 <= i < |ys|
      ensures Packable(ys[i])
    {
      assert ys[i] in xs;
    }
  }

  /**
   * The script's pipeline: tally, keep the pairs of at least `minWeight`,
   * sort by key, write.  The move words are the corrected `PlyWord`s, so
   * the file is the book the script means to write, not the rank-flipped
   * one it does write.
   */
  method BuildBook(games: seq<Game>, maxMoves: int, minWeight: int) returns (file: seq<Byte>)
    requires ValidGames(games)
    ensures AllPackable(Group(Contributions(games, maxMoves)))
    ensures AllPackable(SortByKey(Kept(Group(Contributions(games, maxMoves)), minWeight)))
    ensures file == WriteBook(SortByKey(Kept(Group(Contributions(games, maxMoves)), minWeight)))
    ensures SortedBook(file)
  {
    var tallies := Accumulate(games, maxMoves);
    ContributionsPackable(games, maxMoves);
    GroupPackable(Contributions(games, maxMoves));
    var entries := Kept(tallies, minWeight);
    PackableMembers(tallies, entries);
    var sorted := SortByKey(entries);
    SortByKeyPermutes(entries);
    assert forall t :: t in sorted ==> t in entries by {
      assert forall t :: t in sorted <==> t in multiset(sorted);
    }
    PackableMembers(entries, sorted);
    SortByKeyCorrect(entries, 0);
    file := WriteBook(sorted);
    WrittenBookSorted(sorted);
  }

  /**
   * With the script's minimum weight of 1, a pair that only ever earned 0
   * (a move played only by the losing side) is not in the book.
   */
  lemma LoserOnlyMovesLeftOut(games: seq<Game>, maxMoves: int, key: int, move: int)
    requires ValidGames(games)
    requires SumFor(Contributions(games, maxMoves), key, move) == 0
    ensures forall t :: t in Kept(Group(Contributions(games, maxMoves)), 1) ==> !SamePair(t, key, move)
  {
    var cs := Contributions(games, maxMoves);
    forall t | t in Kept(Group(cs), 1)
      ensures !SamePair(t, key, move)
    {
      var j :| 0 <= j < |Group(cs)| && Group(cs)[j] == t;
      GroupWeight(cs, j);
    }
  }
}
