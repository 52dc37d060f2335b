/**
 * The arithmetic and tokenizing of the two UCI front ends: the C library's
 * `atoi`, the option clamps of `setoption`, the time each `go` allows, the
 * backup engine's `go` tokenizer, and the line clean-up before a command
 * is dispatched.
 */
module Uci {
  import opened CArith
  import opened Limits
  import opened Placement
  import opened Tokens
  import Fen
  import opened Options

  // ---------------------------------------------------------------------
  // atoi
  // ---------------------------------------------------------------------

  /** C's `isspace` in the "C" locale. */
  predicate IsSpace(c: char)
  {
    c == ' ' || c == '\t' || c == '\n' || c == '\r' || c as int == 11 || c as int == 12
  }

  /** The text after the leading white space. */
  function SkipSpaces(t: string): (u: string)
    ensures |u| <= |t| && !IsSpace(Head(u))
    decreases |t|
  {
    if |t| > 0 && IsSpace(t[0]) then SkipSpaces(t[1..]) else t
  }

  /** `atoi`: white space, an optional sign, then the value of the leading digits (0 when there are none). */
  function CAtoi(t: string): int
  {
    var u := SkipSpaces(t);
    if Head(u) == '-' then -Fen.Atoi(Tail(u), 0)
    else if Head(u) == '+' then Fen.Atoi(Tail(u), 0)
    else Fen.Atoi(u, 0)
  }

  /** The decimal digits of n, most significant first. */
  function Decimal(n: nat): (s: string)
    ensures |s| > 0 && forall k :: 0 <= k < |s| ==> IsDigit(s[k])
  {
    var d := ['0' + (n % 10) as char];
    if n < 10 then d else Decimal(n / 10) + d
  }

  /** n as a UCI argument: a minus sign for negatives, then the digits. */
  function Text(n: int): string
  {
    if n < 0 then "-" + Decimal(-n) else Decimal(n)
  }

  lemma {:induction false} DecimalValue(n: nat)
    ensures Fen.Atoi(Decimal(n), 0) == n
  {
    var d := ['0' + (n % 10) as char];
    assert Fen.Atoi(d, 0) == n % 10 by {
      assert d[1..] == [];
    }
    if n >= 10 {
      DecimalValue(n / 10);
      Fen.AtoiAppend(Decimal(n / 10), d, 0);
      assert d[1..] == [];
    }
  }

  /** `atoi` reads back every number written in decimal, whatever non-digit follows. */
  lemma CAtoiReadsText(n: int, rest: string)
    requires !IsDigit(Head(rest))
    ensures CAtoi(Text(n) + rest) == n
  {
    var m := if n < 0 then -n else n;
    DecimalValue(m);
    Fen.AtoiAppend(Decimal(m), rest, 0);
    assert Fen.Atoi(rest, m) == m;
    if n < 0 {
      assert ("-" + Decimal(m) + rest)[1..] == Decimal(m) + rest;
      assert SkipSpaces("-" + Decimal(m) + rest) == "-" + Decimal(m) + rest;
      assert "-" + Decimal(m) + rest == Text(n) + rest;
    } else {
      assert SkipSpaces(Decimal(m) + rest) == Decimal(m) + rest;
    }
  }

  // ---------------------------------------------------------------------
  // Options
  // ---------------------------------------------------------------------

  /** The raise-to-lo, lower-to-hi pair of tests every numeric option goes through. */
  function Clamp(v: int, lo: int, hi: int): (r: int)
    requires lo <= hi
    ensures lo <= r <= hi
    ensures lo <= v <= hi ==> r == v
    ensures r == lo || r == hi || r == v
  {
    if v < lo then lo else if v > hi then hi else v
  }

  /** The engine's scalar options. */
  datatype EngineOptions = EngineOptions(useBook: bool, useNnue: bool, hashMb: int, contempt: int, multiPv: int)

  predicate OptionsOk(o: EngineOptions)
  {
    1 <= o.hashMb <= 4096 && 1 <= o.multiPv <= 10
  }

  /** `atoi(value + 6)` after the first "value" on the line, if any. */
  function ValueAfter(line: string, word: string): Option<int>
  {
    var v := Find(line, word, 0);
    if v == -1 then None else Some(CAtoi(Drop(line, v + |word| + 1)))
  }

  /** The options a `setoption` line names before the NNUEFile test is reached. */
  predicate NamesEarlierOption(line: string)
  {
    Find(line, "OwnBook", 0) != -1 || Find(line, "BookFile", 0) != -1 || Find(line, "UseNNUE", 0) != -1
  }

  /**
   * The engine's `setoption`: the first of OwnBook, BookFile, UseNNUE,
   * NNUEFile, Hash, Contempt and MultiPV found anywhere on the line decides
   * which option changes.  `nnueReady` says whether weights are loaded or
   * `nnue.bin` loads; `fileLoads` says whether `load_nnue` succeeds on the
   * file an NNUEFile line names, which then switches the network on.  The
   * book file only loads a book and changes none of these fields.
   */
  function EngineSetOption(line: string, o: EngineOptions, nnueReady: bool, fileLoads: bool): (r: EngineOptions)
    ensures OptionsOk(o) ==> OptionsOk(r)
    ensures Find(line, "Hash", 0) == -1 ==> r.hashMb == o.hashMb
    ensures Find(line, "MultiPV", 0) == -1 ==> r.multiPv == o.multiPv
    ensures Find(line, "Contempt", 0) == -1 ==> r.contempt == o.contempt
    ensures r.useNnue && !o.useNnue ==>
      (Find(line, "UseNNUE", 0) != -1 && nnueReady) ||
      (Find(line, "NNUEFile", 0) != -1 && Find(line, "value", 0) != -1 && fileLoads)
    ensures !r.useNnue && o.useNnue ==> Find(line, "UseNNUE", 0) != -1
    ensures !NamesEarlierOption(line) && Find(line, "NNUEFile", 0) != -1 ==>
      r.useNnue == (o.useNnue || (Find(line, "value", 0) != -1 && fileLoads))
  {
    if Find(line, "OwnBook", 0) != -1 then o.(useBook := Find(line, "true", 0) != -1)
    else if Find(line, "BookFile", 0) != -1 then o
    else if Find(line, "UseNNUE", 0) != -1 then o.(useNnue := Find(line, "true", 0) != -1 && nnueReady)
    else if Find(line, "NNUEFile", 0) != -1 then
      if Find(line, "value", 0) != -1 && fileLoads then o.(useNnue := true) else o
    else if Find(line, "Hash", 0) != -1 then
      match ValueAfter(line, "value")
      case None => o
      case Some(v) => o.(hashMb := Clamp(v, 1, 4096))
    else if Find(line, "Contempt", 0) != -1 then
      match ValueAfter(line, "value")
      case None => o
      case Some(v) => o.(contempt := v)
    else if Find(line, "MultiPV", 0) != -1 then
      match ValueAfter(line, "value")
      case None => o
      case Some(v) => o.(multiPv := Clamp(v, 1, 10))
    else o
  }

  /** The backup engine's Hash option: `name Hash` with a value, clamped to [1, 8192]. */
  function ModularHashOption(line: string): (r: Option<int>)
    ensures r.Some? ==> 1 <= r.value <= 8192
    ensures r.Some? <==> Find(line, "name ", 0) != -1 && Occurs(line, "Hash", Find(line, "name ", 0) + 5) && Find(line, "value ", 0) != -1
  {
    var name := Find(line, "name ", 0);
    if name == -1 then None
    else if !Occurs(line, "Hash", name + 5) then None
    else
      var value := Find(line, "value ", 0);
      if value == -1 then None else Some(Clamp(CAtoi(Drop(line, value + 6)), 1, 8192))
  }

  /** A number written after the first "value " is read back, clamped. */
  lemma ModularHashReadsValue(line: string, n: int, rest: string)
    requires Find(line, "value ", 0) != -1
    requires Drop(line, Find(line, "value ", 0) + 6) == Text(n) + rest && !IsDigit(Head(rest))
    ensures ModularHashOption(line).Some? ==> ModularHashOption(line).value == Clamp(n, 1, 8192)
  {
    CAtoiReadsText(n, rest);
  }

  // ---------------------------------------------------------------------
  // The engine's `go`
  // ---------------------------------------------------------------------

  /** What the engine's `go` handler reads from its line. */
  datatype EngineGo = EngineGo(depth: int, movestogo: int, movetime: int, time: int, inc: int, infinite: bool)

  /**
   * Each field from `atoi` after the first occurrence of its word anywhere
   * on the line: depth -1, movestogo 30, movetime and time -1 and inc 0
   * when the word is missing; the clock of the side to move; `ponder`
   * counts as `infinite`.
   */
  function ParseEngineGo(line: string, white: bool): (g: EngineGo)
    ensures Find(line, "movestogo", 0) == -1 ==> g.movestogo == 30
    ensures Find(line, "movetime", 0) == -1 ==> g.movetime == -1
    ensures g.infinite <==> Find(line, "infinite", 0) != -1 || Find(line, "ponder", 0) != -1
  {
    var depth := ValueAfter(line, "depth");
    var togo := ValueAfter(line, "movestogo");
    var movetime := ValueAfter(line, "movetime");
    var time := ValueAfter(line, if white then "wtime" else "btime");
    var inc := ValueAfter(line, if white then "winc" else "binc");
    EngineGo(
      if depth.Some? then depth.value else -1,
      if togo.Some? then togo.value else 30,
      if movetime.Some? then movetime.value else -1,
      if time.Some? then time.value else -1,
      if inc.Some? then inc.value else 0,
      Find(line, "infinite", 0) != -1 || Find(line, "ponder", 0) != -1)
  }

  /** The engine's search depth: the given depth, or `MAX_PLY - 1`. */
  function SearchDepth(g: EngineGo): (d: int)
    ensures g.depth == -1 ==> d == MaxPly - 1
    ensures g.depth != -1 ==> d == g.depth
  {
    if g.depth == -1 then MaxPly - 1 else g.depth
  }

  /** The moves the clock must last: movestogo, or 20 plus the phase kept within [15, 50]. */
  function ExpectedMoves(movestogo: int, phase: int): (n: int)
    ensures n > 0
    ensures movestogo > 0 ==> n == movestogo
    ensures movestogo <= 0 ==> 15 <= n <= 50
  {
    if movestogo > 0 then movestogo else Clamp(20 + phase, 15, 50)
  }

  /** The cap on one move: a fifth, sixth, eighth or tenth of the clock as it runs lower. */
  function MaxTime(time: int): (cap: int)
    ensures time >= 0 ==> 0 <= cap <= time / 5
  {
    if time > 60000 then CDiv(time, 5)
    else if time > 10000 then CDiv(time, 6)
    else if time > 3000 then CDiv(time, 8)
    else CDiv(time, 10)
  }

  /** The margin kept back: 30 ms, 10 below 3 s, 5 below 1 s. */
  function Safety(time: int): (m: int)
    ensures m == 5 || m == 10 || m == 30
  {
    if time < 1000 then 5 else if time < 3000 then 10 else 30
  }

  /**
   * The engine's time for one move: movetime less 50 (at least 10) when
   * given; with a clock, its share of the remaining moves plus four fifths
   * of the increment, ten percent more in the middlegame (phase above 16),
   * capped and less the safety margin, at least 10; otherwise -1, search
   * until stopped.
   */
  method EngineTimeForMove(g: EngineGo, phase: int) returns (t: int)
    ensures g.movetime != -1 ==> t == (if g.movetime - 50 < 10 then 10 else g.movetime - 50)
    ensures g.movetime == -1 && g.time != -1 && !g.infinite ==>
              10 <= t && (t == 10 || t <= MaxTime(g.time) - Safety(g.time))
    ensures (g.movetime == -1 && (g.time == -1 || g.infinite)) <==> t == -1
  {
    if g.movetime != -1 {
      t := g.movetime - 50;
      if t < 10 {
        t := 10;
      }
    } else if g.time != -1 && !g.infinite {
      var expected := ExpectedMoves(g.movestogo, phase);
      t := CDiv(g.time, expected);
      if g.inc > 0 {
        t := t + CDiv(g.inc * 4, 5);
      }
      if phase > 16 {
        t := CDiv(t * 11, 10);
      }
      var cap := MaxTime(g.time);
      if t > cap {
        t := cap;
      }
      t := t - Safety(g.time);
      if t < 10 {
        t := 10;
      }
    } else {
      t := -1;
    }
  }

  /** With a clock of at least 50 ms, a move never gets more than a fifth of it. */
  lemma ClockShareBounded(time: int, t: int)
    requires time >= 50
    requires t == 10 || t <= MaxTime(time) - Safety(time)
    ensures t <= time / 5
  {
  }

  // ---------------------------------------------------------------------
  // The backup engine's `go`
  // ---------------------------------------------------------------------

  /** The backup engine's search parameters, zeroed with depth `MAX_PLY` before each `go`. */
  datatype GoParams = GoParams(
    depth: int, wtime: int, btime: int, winc: int, binc: int,
    movestogo: int, movetime: int, infinite: bool, ponder: bool)

  const GoDefaults := GoParams(MaxPly, 0, 0, 0, 0, 0, 0, false, false)

  /** The value after a keyword of length k at i: blanks skipped, then `atoi`. */
  function ArgAfter(s: string, i: nat, k: nat): int
  {
    CAtoi(Drop(s, SkipWs(s, i + k)))
  }

  /**
   * One pass of the tokenizer at i: a keyword matched by `strncmp`
   * consumes itself and the number after it; `infinite` and `ponder` only
   * themselves; anything else is skipped as a token.
   */
  function GoWord(s: string, i: nat, g: GoParams): (r: (nat, GoParams))
    requires i <= |s| && At(s, i) != '\0'
    ensures i < r.0 <= |s|
    ensures !Occurs(s, "depth", i) ==> r.1.depth == g.depth
    ensures !Occurs(s, "wtime", i) ==> r.1.wtime == g.wtime
    ensures !Occurs(s, "btime", i) ==> r.1.btime == g.btime
    ensures !Occurs(s, "winc", i) ==> r.1.winc == g.winc
    ensures !Occurs(s, "binc", i) ==> r.1.binc == g.binc
    ensures !Occurs(s, "movestogo", i) ==> r.1.movestogo == g.movestogo
    ensures !Occurs(s, "movetime", i) ==> r.1.movetime == g.movetime
    ensures !Occurs(s, "infinite", i) ==> r.1.infinite == g.infinite
  {
    var next := NextToken(s, SkipWs(s, i + 5));
    if Occurs(s, "depth", i) then (next, g.(depth := ArgAfter(s, i, 5)))
    else if Occurs(s, "wtime", i) then (next, g.(wtime := ArgAfter(s, i, 5)))
    else if Occurs(s, "btime", i) then (next, g.(btime := ArgAfter(s, i, 5)))
    else if Occurs(s, "winc", i) then (NextToken(s, SkipWs(s, i + 4)), g.(winc := ArgAfter(s, i, 4)))
    else if Occurs(s, "binc", i) then (NextToken(s, SkipWs(s, i + 4)), g.(binc := ArgAfter(s, i, 4)))
    else if Occurs(s, "movestogo", i) then (NextToken(s, SkipWs(s, i + 9)), g.(movestogo := ArgAfter(s, i, 9)))
    else if Occurs(s, "movetime", i) then (NextToken(s, SkipWs(s, i + 8)), g.(movetime := ArgAfter(s, i, 8)))
    else if Occurs(s, "infinite", i) then (SkipWs(s, i + 8), g.(infinite := true))
    else if Occurs(s, "ponder", i) then (SkipWs(s, i + 6), g.(ponder := true))
    else (NextToken(s, i), g)
  }

  /** The tokenizer's loop from i until the NUL. */
  function ParseGoFrom(s: string, i: nat, g: GoParams): GoParams
    requires i <= |s|
    decreases |s| - i
  {
    if At(s, i) == '\0' then g
    else
      var r := GoWord(s, i, g);
      ParseGoFrom(s, r.0, r.1)
  }

  /** `cmd_go` on a line starting with "go": defaults, then the words after "go". */
  function ParseGo(s: string): GoParams
    requires |s| >= 2
  {
    ParseGoFrom(s, SkipWs(s, 2), GoDefaults)
  }

  /** The loop of `cmd_go`. */
  method CmdGo(s: string) returns (g: GoParams)
    requires Occurs(s, "go", 0)
    ensures g == ParseGo(s)
  {
    g := GoDefaults;
    var p := SkipWhitespace(s, 2);
    while At(s, p) != '\0'
      invariant p <= |s|
      invariant ParseGoFrom(s, p, g) == ParseGo(s)
      decreases |s| - p
    {
      var r := GoWord(s, p, g);
      p, g := r.0, r.1;
    }
  }

  /** No clock keyword (`wtime`, `btime`, `winc`, `binc`, `movestogo`, `movetime`) starts at or after i. */
  ghost predicate NoClockWords(s: string, i: nat)
  {
    forall k :: i <= k ==>
      !Occurs(s, "wtime", k) && !Occurs(s, "btime", k) && !Occurs(s, "winc", k) &&
      !Occurs(s, "binc", k) && !Occurs(s, "movestogo", k) && !Occurs(s, "movetime", k)
  }

  /** The clock fields keep their values when the rest of the line names none of them. */
  lemma {:induction false} ClockFieldsKept(s: string, i: nat, g: GoParams)
    requires i <= |s| && NoClockWords(s, i)
    ensures var r := ParseGoFrom(s, i, g);
            r.wtime == g.wtime && r.btime == g.btime && r.winc == g.winc &&
            r.binc == g.binc && r.movestogo == g.movestogo && r.movetime == g.movetime
    decreases |s| - i
  {
    if At(s, i) != '\0' {
      var r := GoWord(s, i, g);
      assert !Occurs(s, "wtime", i) && !Occurs(s, "btime", i) && !Occurs(s, "winc", i);
      assert !Occurs(s, "binc", i) && !Occurs(s, "movestogo", i) && !Occurs(s, "movetime", i);
      ClockFieldsKept(s, r.0, r.1);
    }
  }

  /** The depth keeps its value when the rest of the line never says "depth". */
  lemma {:induction false} DepthKept(s: string, i: nat, g: GoParams)
    requires i <= |s| && forall k :: i <= k ==> !Occurs(s, "depth", k)
    ensures ParseGoFrom(s, i, g).depth == g.depth
    decreases |s| - i
  {
    if At(s, i) != '\0' {
      var r := GoWord(s, i, g);
      assert !Occurs(s, "depth", i);
      DepthKept(s, r.0, r.1);
    }
  }

  /** `calculate_time`: the clock's share of movestogo (40 when 0) plus the increment less 50, within a third of the clock, then within [100, 60000]. */
  function TimeLimit(timeLeft: int, inc: int, movestogo: int): (limit: int)
    ensures 100 <= limit <= 60000
    ensures CQuot(timeLeft, 3) >= 100 ==> limit <= CQuot(timeLeft, 3)
    ensures var share := CQuot(timeLeft, if movestogo == 0 then 40 else movestogo) + inc - 50;
            100 <= share <= CQuot(timeLeft, 3) && share <= 60000 ==> limit == share
  {
    var share := CQuot(timeLeft, if movestogo == 0 then 40 else movestogo) + inc - 50;
    var capped := if share > CQuot(timeLeft, 3) then CQuot(timeLeft, 3) else share;
    Clamp(capped, 100, 60000)
  }

  /** The assignments of `calculate_time`, one at a time. */
  method CalculateTime(timeLeft: int, inc: int, movestogo: int) returns (limit: int)
    ensures limit == TimeLimit(timeLeft, inc, movestogo)
  {
    var togo := movestogo;
    if togo == 0 {
      togo := 40;
    }
    limit := CQuot(timeLeft, togo) + inc - 50;
    if limit > CQuot(timeLeft, 3) {
      limit := CQuot(timeLeft, 3);
    }
    if limit < 100 {
      limit := 100;
    }
    if limit > 60000 {
      limit := 60000;
    }
  }

  /** C division for a divisor of either sign, truncating toward zero. */
  function CQuot(a: int, b: int): (q: int)
    requires b != 0
    ensures b > 0 ==> q == CDiv(a, b)
    ensures b < 0 ==> q == -CDiv(a, -b)
  {
    if b > 0 then CDiv(a, b) else -CDiv(a, -b)
  }

  /** The search thread's time limit: movetime when positive, none (0) for infinite, else `calculate_time` for the side to move. */
  function ModularLimit(g: GoParams, white: bool): (limit: int)
    ensures g.movetime > 0 ==> limit == g.movetime
    ensures g.movetime <= 0 && g.infinite ==> limit == 0
    ensures g.movetime <= 0 && !g.infinite ==> 100 <= limit <= 60000
  {
    if g.movetime > 0 then g.movetime
    else if !g.infinite then TimeLimit(if white then g.wtime else g.btime, if white then g.winc else g.binc, g.movestogo)
    else 0
  }

  /** The same choice made by the search thread's statements. */
  method ModularTimeLimit(g: GoParams, white: bool) returns (limit: int)
    ensures limit == ModularLimit(g, white)
  {
    if g.movetime > 0 {
      limit := g.movetime;
    } else if !g.infinite {
      limit := CalculateTime(if white then g.wtime else g.btime, if white then g.winc else g.binc, g.movestogo);
    } else {
      limit := 0;
    }
  }

  /**
   * As written, a `go` that names no clock keyword and not `infinite`
   * (`go depth 20`, say) is still timed: its zeroed clock gives 100 ms.
   */
  lemma DepthOnlyGoIsTimed(s: string, white: bool)
    requires Occurs(s, "go", 0) && NoClockWords(s, 0)
    requires forall k :: 0 <= k ==> !Occurs(s, "infinite", k)
    ensures ModularLimit(ParseGo(s), white) == 100
  {
    ClockFieldsKept(s, SkipWs(s, 2), GoDefaults);
    InfiniteKept(s, SkipWs(s, 2), GoDefaults);
  }

  /** The infinite flag stays off when the rest of the line never says "infinite". */
  lemma {:induction false} InfiniteKept(s: string, i: nat, g: GoParams)
    requires i <= |s| && forall k :: i <= k ==> !Occurs(s, "infinite", k)
    ensures ParseGoFrom(s, i, g).infinite == g.infinite
    decreases |s| - i
  {
    if At(s, i) != '\0' {
      var r := GoWord(s, i, g);
      assert !Occurs(s, "infinite", i);
      InfiniteKept(s, r.0, r.1);
    }
  }

  /**
   * The limit as the engine treats it: a `go` with neither movetime nor a
   * clock for the side to move searches without a time limit.
   */
  function ModularLimitFixed(g: GoParams, white: bool): (limit: int)
    ensures g.movetime > 0 ==> limit == g.movetime
    ensures g.movetime <= 0 && !g.infinite && (if white then g.wtime else g.btime) != 0 ==> 100 <= limit <= 60000
  {
    var clock := if white then g.wtime else g.btime;
    if g.movetime > 0 then g.movetime
    else if !g.infinite && clock != 0 then TimeLimit(clock, if white then g.winc else g.binc, g.movestogo)
    else 0
  }

  /** With the fix, `go depth 20` and every other `go` without clock words searches untimed. */
  lemma DepthOnlyGoUntimedFixed(s: string, white: bool)
    requires Occurs(s, "go", 0) && NoClockWords(s, 0)
    ensures ModularLimitFixed(ParseGo(s), white) == 0
  {
    ClockFieldsKept(s, SkipWs(s, 2), GoDefaults);
  }

  // ---------------------------------------------------------------------
  // Line clean-up
  // ---------------------------------------------------------------------

  /**
   * `uci_process_command`'s clean-up: with n the string's length, a '\n'
   * at n - 1 is cut, and independently a '\r' at n - 2 is cut together
   * with whatever follows it.
   */
  function StripLine(s: string): (t: string)
  {
    var n := Strlen(s);
    if n > 1 && s[n - 2] == '\r' then s[..n - 2]
    else if n > 0 && s[n - 1] == '\n' then s[..n - 1]
    else s[..n]
  }

  /** A line without NUL, CR or LF comes back unchanged from its CRLF, LF or bare form. */
  lemma StripLineEndings(t: string)
    requires forall k :: 0 <= k < |t| ==> t[k] != '\0' && t[k] != '\r' && t[k] != '\n'
    ensures StripLine(t + "\r\n") == t
    ensures StripLine(t + "\n") == t
    ensures StripLine(t) == t
  {
    StrlenOf(t + "\r\n");
    StrlenOf(t + "\n");
    StrlenOf(t);
    assert (t + "\r\n")[..|t|] == t;
    assert (t + "\n")[..|t|] == t;
  }

  lemma {:induction false} StrlenOf(s: string)
    requires forall k :: 0 <= k < |s| ==> s[k] != '\0'
    ensures Strlen(s) == |s|
  {
    if Strlen(s) < |s| {
      assert s[Strlen(s)] == '\0';
    }
  }

  /** A carriage return next to the end costs the line its last character even without a newline. */
  lemma StripLineCutsAfterCarriageReturn()
    ensures StripLine("ab\rc") == "ab"
  {
    StrlenOf("ab\rc");
  }
}
