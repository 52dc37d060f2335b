/**
 * The backup engine's Polyglot opening-book reader: the position key, the
 * 16-byte big-endian records, the move word, the binary search for a key
 * in a key-sorted book file, and the choice among the entries found.
 * A book file is its bytes; the generated moves a book word is matched
 * against are given by their source, target and promotion fields.
 */
module Polyglot {
  import opened CArith
  import opened Options
  import opened ModularEvaluation
  import opened XorFold

  type Byte = x: int | 0 <= x < 256

  const MaxBooks := 10
  const MaxFound := 256

  // ---------------------------------------------------------------------
  // Records
  // ---------------------------------------------------------------------

  function Pow256(n: nat): (p: nat)
    ensures p >= 1
  {
    if n == 0 then 1 else 256 * Pow256(n - 1)
  }

  /** The number the bytes spell, most significant first. */
  function BigEndian(bs: seq<Byte>): (v: nat)
    ensures v < Pow256(|bs|)
  {
    if |bs| == 0 then 0
    else
      var high := BigEndian(bs[..|bs| - 1]);
      assert high * 256 + bs[|bs| - 1] as int < (high + 1) * 256;
      high * 256 + bs[|bs| - 1] as int
  }

  /** A book entry: 64-bit key, 16-bit move word, 16-bit weight, 32-bit learn field. */
  datatype Entry = Entry(key: nat, move: nat, weight: nat, learn: nat)

  /** The big-endian layout: bytes 0-7 the key, 8-9 the move, 10-11 the weight, 12-15 the learn field. */
  function DecodeEntry(b: seq<Byte>): (e: Entry)
    requires |b| == 16
    ensures e.key < Pow256(8) && e.move < 65536 && e.weight < 65536 && e.learn < Pow256(4)
  {
    Entry(BigEndian(b[..8]), b[8] as int * 256 + b[9], b[10] as int * 256 + b[11], BigEndian(b[12..]))
  }

  /**
   * `read_entry` at byte offset pos: fails when fewer than 16 bytes remain,
   * else shifts the eight key bytes in one by one and assembles the rest.
   */
  method ReadEntry(file: seq<Byte>, pos: nat) returns (ok: bool, e: Entry)
    ensures ok <==> pos + 16 <= |file|
    ensures ok ==> e == DecodeEntry(file[pos..pos + 16])
  {
    if pos + 16 > |file| {
      return false, Entry(0, 0, 0, 0);
    }
    var buf := file[pos..pos + 16];
    var key := 0;
    var i := 0;
    while i < 8
      invariant 0 <= i <= 8 && key == BigEndian(buf[..i])
    {
      assert buf[..i + 1][..i] == buf[..i];
      key := key * 256 + buf[i] as int;
      i := i + 1;
    }
    var learn := buf[12] as int * 16777216 + buf[13] as int * 65536 + buf[14] as int * 256 + buf[15] as int;
    LearnIsBigEndian(buf[12..]);
    e := Entry(key, buf[8] as int * 256 + buf[9] as int, buf[10] as int * 256 + buf[11] as int, learn);
    ok := true;
  }

  lemma LearnIsBigEndian(b: seq<Byte>)
    requires |b| == 4
    ensures BigEndian(b) == b[0] as int * 16777216 + b[1] as int * 65536 + b[2] as int * 256 + b[3] as int
  {
    var b1, b2, b3 := b[..1], b[..2], b[..3];
    assert b3[..2] == b2 && b2[..1] == b1 && b1[..0] == [];
    assert BigEndian(b1) == b[0] as int;
    assert BigEndian(b2) == b[0] as int * 256 + b[1] as int;
    assert BigEndian(b3) == b[0] as int * 65536 + b[1] as int * 256 + b[2] as int;
  }

  /** Record i of a book file; `book_add` counts `size / 16` records. */
  function Record(file: seq<Byte>, i: int): Entry
    requires 0 <= i < |file| / 16
  {
    DecodeEntry(file[16 * i..16 * i + 16])
  }

  /** `fseek` to record i, then `read_entry`: succeeds exactly for the records the file holds. */
  method ReadRecord(file: seq<Byte>, i: nat) returns (ok: bool, e: Entry)
    ensures ok <==> i < |file| / 16
    ensures ok ==> e == Record(file, i)
  {
    ok, e := ReadEntry(file, 16 * i);
    RecordsInFile(|file|, i);
  }

  /** Record i lies wholly inside a file of n bytes exactly when it is one of the `n / 16` records counted. */
  lemma RecordsInFile(n: nat, i: nat)
    ensures 16 * i + 16 <= n <==> i < n / 16
  {
  }

  ghost predicate SortedBook(file: seq<Byte>)
  {
    forall i, j :: 0 <= i < j < |file| / 16 ==> Record(file, i).key <= Record(file, j).key
  }

  // ---------------------------------------------------------------------
  // The move word
  // ---------------------------------------------------------------------

  /** The five 3-bit fields of a move word, lowest first. */
  datatype WordFields = WordFields(toFile: int, toRow: int, fromFile: int, fromRow: int, promo: int)

  function Fields(w: nat): (f: WordFields)
    ensures 0 <= f.toFile < 8 && 0 <= f.toRow < 8 && 0 <= f.fromFile < 8 && 0 <= f.fromRow < 8 && 0 <= f.promo < 8
  {
    WordFields(w % 8, (w / 8) % 8, (w / 64) % 8, (w / 512) % 8, (w / 4096) % 8)
  }

  /** The engine square of a row (0 = the first rank) and file: `(7 - row) * 8 + file`. */
  function EngineSquare(row: int, file: int): (sq: int)
    requires 0 <= row < 8 && 0 <= file < 8
    ensures 0 <= sq < 64 && sq / 8 == 7 - row && sq % 8 == file
  {
    (7 - row) * 8 + file
  }

  /** A generated move, by the fields `polyglot_to_move` compares. */
  datatype Candidate = Candidate(source: int, target: int, promoted: int)

  /** No promotion on either side, or the Polyglot code 1..4 naming the same piece type in either colour. */
  predicate PromotionMatches(promo: int, internal: int)
  {
    (promo == 0 && internal == 0) ||
    (promo == 1 && (internal == 1 || internal == 7)) ||
    (promo == 2 && (internal == 2 || internal == 8)) ||
    (promo == 3 && (internal == 3 || internal == 9)) ||
    (promo == 4 && (internal == 4 || internal == 10))
  }

  predicate MatchesWord(c: Candidate, w: nat)
  {
    var f := Fields(w);
    c.source == EngineSquare(f.fromRow, f.fromFile) && c.target == EngineSquare(f.toRow, f.toFile) && PromotionMatches(f.promo, c.promoted)
  }

  /** `polyglot_to_move`: the first generated move with the word's squares and promotion, or none (the C returns 0). */
  method PolyglotToMove(w: nat, moves: seq<Candidate>) returns (found: Option<nat>)
    ensures found.Some? ==> found.value < |moves| && MatchesWord(moves[found.value], w)
    ensures found.Some? ==> forall j :: 0 <= j < found.value ==> !MatchesWord(moves[j], w)
    ensures found.None? <==> forall j :: 0 <= j < |moves| ==> !MatchesWord(moves[j], w)
  {
    var f := Fields(w);
    var fromSq := EngineSquare(f.fromRow, f.fromFile);
    var toSq := EngineSquare(f.toRow, f.toFile);
    var i := 0;
    while i < |moves|
      invariant 0 <= i <= |moves|
      invariant forall j :: 0 <= j < i ==> !MatchesWord(moves[j], w)
    {
      var m := moves[i];
      if m.source == fromSq && m.target == toSq && PromotionMatches(f.promo, m.promoted) {
        return Some(i);
      }
      i := i + 1;
    }
    return None;
  }

  /**
   * A standard castling word names the rook's corner: white's short castle
   * e1-h1 matches only a move from engine square 60 to 63, and the engine
   * generates that castle as 60 to 62, so such a word never matches it.
   */
  lemma CastleWordNamesRookCorner(c: Candidate)
    ensures MatchesWord(c, 4 * 64 + 7) <==> c.source == 60 && c.target == 63 && c.promoted == 0
    ensures c == Candidate(60, 62, 0) ==> !MatchesWord(c, 4 * 64 + 7)
  {
    assert Fields(4 * 64 + 7) == WordFields(7, 0, 4, 0, 0);
  }

  // ---------------------------------------------------------------------
  // Probing one book
  // ---------------------------------------------------------------------

  /** `(weight * book_weight) / 100` stored back into the 16-bit field, then raised to 1 when it is 0. */
  function ScaledWeight(w: int, bookWeight: int): (s: int)
    ensures 1 <= s < 65536
  {
    var u := CDiv(w * bookWeight, 100) % 65536;
    if u < 1 then 1 else u
  }

  /** A scaled weight that fits the 16-bit field and is not 0 is kept as computed, rounded toward zero. */
  lemma ScaledWeightExact(w: int, bookWeight: int)
    requires 1 <= CDiv(w * bookWeight, 100) < 65536
    ensures ScaledWeight(w, bookWeight) == CDiv(w * bookWeight, 100)
  {
  }

  /** At the default weight of 100 a stored weight passes through, except that 0 becomes 1. */
  lemma DefaultWeightKeepsEntry(w: int)
    requires 0 <= w < 65536
    ensures ScaledWeight(w, 100) == if w == 0 then 1 else w
  {
    assert w * 100 == 100 * w;
  }

  function Scale(e: Entry, bookWeight: int): (s: Entry)
    ensures s.key == e.key && s.move == e.move && s.learn == e.learn && 1 <= s.weight < 65536
  {
    e.(weight := ScaledWeight(e.weight, bookWeight))
  }

  /** An open book file and the weight it was added with. */
  datatype BookFile = BookFile(file: seq<Byte>, weight: int, active: bool, open: bool)

  /** The reference answer: the first `max` records from index i on that carry the key, in file order, scaled. */
  function FirstMatches(file: seq<Byte>, i: nat, key: nat, bookWeight: int, max: int): (r: seq<Entry>)
    ensures |r| <= (if max < 0 then 0 else max)
    ensures forall e :: e in r ==> e.key == key && 1 <= e.weight < 65536
    decreases |file| / 16 - i
  {
    if i >= |file| / 16 || max <= 0 then []
    else if Record(file, i).key == key then [Scale(Record(file, i), bookWeight)] + FirstMatches(file, i + 1, key, bookWeight, max - 1)
    else FirstMatches(file, i + 1, key, bookWeight, max)
  }

  /** The consecutive records from index i on that carry the key, at most `max` of them, scaled. */
  function Run(file: seq<Byte>, i: nat, key: nat, bookWeight: int, max: int): (r: seq<Entry>)
    ensures |r| <= (if max < 0 then 0 else max)
    decreases |file| / 16 - i
  {
    if i >= |file| / 16 || max <= 0 || Record(file, i).key != key then []
    else [Scale(Record(file, i), bookWeight)] + Run(file, i + 1, key, bookWeight, max - 1)
  }

  lemma {:induction false} NoMatchesBeyond(file: seq<Byte>, i: nat, key: nat, bookWeight: int, max: int)
    requires forall j :: i <= j < |file| / 16 ==> Record(file, j).key > key
    ensures FirstMatches(file, i, key, bookWeight, max) == []
    decreases |file| / 16 - i
  {
    if i < |file| / 16 && max > 0 {
      NoMatchesBeyond(file, i + 1, key, bookWeight, max);
    }
  }

  /** In a sorted book the run that starts at a record with the key is everything with the key. */
  lemma {:induction false} RunIsFirstMatches(file: seq<Byte>, lo: nat, i: nat, key: nat, bookWeight: int, max: int)
    requires SortedBook(file) && lo <= i && lo < |file| / 16 && Record(file, lo).key == key
    ensures Run(file, i, key, bookWeight, max) == FirstMatches(file, i, key, bookWeight, max)
    decreases |file| / 16 - i
  {
    if i < |file| / 16 && max > 0 {
      if Record(file, i).key != key {
        assert Record(file, lo).key <= Record(file, i).key;
        forall j | i <= j < |file| / 16
          ensures Record(file, j).key > key
        {
          assert Record(file, i).key <= Record(file, j).key || i == j;
        }
        NoMatchesBeyond(file, i, key, bookWeight, max);
      } else {
        RunIsFirstMatches(file, lo, i + 1, key, bookWeight, max - 1);
      }
    }
  }

  lemma {:induction false} SkipSmaller(file: seq<Byte>, i: nat, lo: nat, key: nat, bookWeight: int, max: int)
    requires i <= lo <= |file| / 16
    requires forall j :: i <= j < lo ==> Record(file, j).key != key
    ensures FirstMatches(file, i, key, bookWeight, max) == FirstMatches(file, lo, key, bookWeight, max)
    decreases lo - i
  {
    if i < lo && max > 0 {
      SkipSmaller(file, i + 1, lo, key, bookWeight, max);
    }
  }

  /** The first half of the found branch of `probe_single_book`: step back while the previous record has the key. */
  method WalkBack(file: seq<Byte>, mid: nat, key: nat) returns (lo: nat)
    requires mid < |file| / 16 && Record(file, mid).key == key
    ensures lo <= mid && Record(file, lo).key == key
    ensures lo > 0 ==> Record(file, lo - 1).key != key
  {
    lo := mid;
    while lo > 0
      invariant 0 <= lo <= mid && Record(file, lo).key == key
    {
      var ok, entry := ReadRecord(file, lo - 1);
      if !ok || entry.key != key {
        break;
      }
      lo := lo - 1;
    }
  }

  lemma RunStop(file: seq<Byte>, i: nat, key: nat, bookWeight: int, max: int)
    requires i >= |file| / 16 || max <= 0 || Record(file, i).key != key
    ensures Run(file, i, key, bookWeight, max) == []
  {
  }

  lemma RunGrows(file: seq<Byte>, i: nat, key: nat, bookWeight: int, room: int, found: seq<Entry>, total: seq<Entry>)
    requires i < |file| / 16 && room > 0 && Record(file, i).key == key
    requires found + Run(file, i, key, bookWeight, room) == total
    ensures (found + [Scale(Record(file, i), bookWeight)]) + Run(file, i + 1, key, bookWeight, room - 1) == total
  {
    var x := Scale(Record(file, i), bookWeight);
    var rest := Run(file, i + 1, key, bookWeight, room - 1);
    assert Run(file, i, key, bookWeight, room) == [x] + rest;
    assert (found + [x]) + rest == found + ([x] + rest);
  }

  /** One record of the forward read: stop at a foreign key or the end of the file, otherwise take the entry scaled. */
  method ReadRunStep(file: seq<Byte>, at: nat, key: nat, bookWeight: int, ghost room: int, found: seq<Entry>,
                     ghost total: seq<Entry>) returns (stop: bool, next: seq<Entry>)
    requires room > 0 && found + Run(file, at, key, bookWeight, room) == total
    ensures stop ==> next == found && Run(file, at, key, bookWeight, room) == []
    ensures !stop ==> next + Run(file, at + 1, key, bookWeight, room - 1) == total
  {
    var ok, entry := ReadRecord(file, at);
    if !ok || entry.key != key {
      RunStop(file, at, key, bookWeight, room);
      return true, found;
    }
    RunGrows(file, at, key, bookWeight, room, found, total);
    return false, found + [Scale(entry, bookWeight)];
  }

  /** The second half: read forward from record lo while the key holds and room is left, scaling each weight. */
  method ReadRun(file: seq<Byte>, lo: nat, key: nat, bookWeight: int, maxEntries: int) returns (found: seq<Entry>)
    ensures found == Run(file, lo, key, bookWeight, maxEntries)
    ensures forall e :: e in found ==> e.key == key && 1 <= e.weight < 65536
  {
    found := [];
    var count := 0;
    var at := lo;
    var stop := false;
    ghost var room, total := maxEntries, Run(file, lo, key, bookWeight, maxEntries);
    assert [] + total == total;
    while count < maxEntries && !stop
      invariant 0 <= count && at == lo + count && room == maxEntries - count
      invariant found + Run(file, at, key, bookWeight, room) == total
      invariant stop ==> Run(file, at, key, bookWeight, room) == []
      decreases maxEntries - count, if stop then 0 else 1
    {
      stop, found := ReadRunStep(file, at, key, bookWeight, room, found, total);
      if !stop {
        count := count + 1;
        at := at + 1;
        room := room - 1;
      }
    }
    RunClosed(file, at, key, bookWeight, room, found, total);
    RunEntries(file, lo, key, bookWeight, maxEntries);
  }

  /** Once the run from `at` is empty or no room is left, what was read is the whole run. */
  lemma RunClosed(file: seq<Byte>, at: nat, key: nat, bookWeight: int, room: int, found: seq<Entry>, total: seq<Entry>)
    requires room <= 0 || Run(file, at, key, bookWeight, room) == []
    requires found + Run(file, at, key, bookWeight, room) == total
    ensures found == total
  {
    assert Run(file, at, key, bookWeight, room) == [];
    assert found + [] == found;
  }

  /** Every entry of a run has the key and a weight in 1 .. 65535. */
  lemma {:induction false} RunEntries(file: seq<Byte>, i: nat, key: nat, bookWeight: int, max: int)
    ensures forall e :: e in Run(file, i, key, bookWeight, max) ==> e.key == key && 1 <= e.weight < 65536
    decreases |file| / 16 - i
  {
    if i < |file| / 16 && max > 0 && Record(file, i).key == key {
      RunEntries(file, i + 1, key, bookWeight, max - 1);
    }
  }

  /** What one book contributes with room for `room` more entries. */
  function Found(b: BookFile, key: nat, room: int): seq<Entry>
  {
    if b.active && b.open then FirstMatches(b.file, 0, key, b.weight, room) else []
  }

  lemma KeysBelow(file: seq<Byte>, mid: int, key: nat)
    requires SortedBook(file) && 0 <= mid < |file| / 16 && Record(file, mid).key < key
    ensures forall j :: 0 <= j <= mid ==> Record(file, j).key < key
  {
    forall j | 0 <= j <= mid
      ensures Record(file, j).key < key
    {
      assert j == mid || Record(file, j).key <= Record(file, mid).key;
    }
  }

  lemma KeysAbove(file: seq<Byte>, mid: int, key: nat)
    requires SortedBook(file) && 0 <= mid < |file| / 16 && Record(file, mid).key > key
    ensures forall j :: mid <= j < |file| / 16 ==> Record(file, j).key > key
  {
    forall j | mid <= j < |file| / 16
      ensures Record(file, j).key > key
    {
      assert j == mid || Record(file, mid).key <= Record(file, j).key;
    }
  }

  /**
   * `probe_single_book`: nothing from an inactive or closed book, else a
   * binary search over the record count; in a key-sorted file the answer
   * is the first `maxEntries` records with the key.
   */
  method ProbeSingleBook(book: BookFile, key: nat, maxEntries: int) returns (found: seq<Entry>)
    ensures forall e :: e in found ==> e.key == key && 1 <= e.weight < 65536
    ensures |found| <= (if maxEntries < 0 then 0 else maxEntries)
    ensures !(book.active && book.open) ==> found == []
    ensures SortedBook(book.file) ==> found == Found(book, key, maxEntries)
  {
    if !book.active || !book.open {
      return [];
    }
    var file := book.file;
    var first, last := 0, |file| / 16 - 1;
    while first <= last
      invariant 0 <= first && last < |file| / 16 && first <= last + 1
      invariant SortedBook(file) ==> forall j :: 0 <= j < first ==> Record(file, j).key < key
      invariant SortedBook(file) ==> forall j :: last < j < |file| / 16 ==> Record(file, j).key > key
      decreases last - first
    {
      var mid := (first + last) / 2;
      var ok, entry := ReadRecord(file, mid);
      if entry.key < key {
        if SortedBook(file) {
          KeysBelow(file, mid, key);
        }
        first := mid + 1;
      } else if entry.key > key {
        if SortedBook(file) {
          KeysAbove(file, mid, key);
        }
        last := mid - 1;
      } else {
        var lo := WalkBack(file, mid, key);
        found := ReadRun(file, lo, key, book.weight, maxEntries);
        if SortedBook(file) {
          FoundRunIsAnswer(file, lo, key, book.weight, maxEntries);
        }
        return;
      }
    }
    if SortedBook(file) {
      SkipSmaller(file, 0, first, key, book.weight, maxEntries);
      NoMatchesBeyond(file, first, key, book.weight, maxEntries);
    }
    return [];
  }

  lemma FoundRunIsAnswer(file: seq<Byte>, lo: nat, key: nat, bookWeight: int, max: int)
    requires SortedBook(file) && lo < |file| / 16 && Record(file, lo).key == key
    requires lo > 0 ==> Record(file, lo - 1).key != key
    ensures Run(file, lo, key, bookWeight, max) == FirstMatches(file, 0, key, bookWeight, max)
  {
    forall j | 0 <= j < lo
      ensures Record(file, j).key != key
    {
      assert Record(file, j).key <= Record(file, lo - 1).key <= Record(file, lo).key;
    }
    SkipSmaller(file, 0, lo, key, bookWeight, max);
    RunIsFirstMatches(file, lo, lo, key, bookWeight, max);
  }

  // ---------------------------------------------------------------------
  // Choosing among the entries
  // ---------------------------------------------------------------------

  /**
   * The answers of books `i` onwards, in order, while fewer than 256
   * entries have been gathered (`room` is what is left of the 256).
   */
  function Collected(books: seq<BookFile>, i: nat, key: nat, room: int): (r: seq<Entry>)
    ensures |r| <= (if room < 0 then 0 else room)
    ensures forall e :: e in r ==> e.key == key && 1 <= e.weight < 65536
    decreases |books| - i
  {
    if i >= |books| || room <= 0 then []
    else
      var f := Found(books[i], key, room);
      f + Collected(books, i + 1, key, room - |f|)
  }

  ghost predicate AllSorted(books: seq<BookFile>)
  {
    forall i :: 0 <= i < |books| ==> SortedBook(books[i].file)
  }

  lemma JoinAssociates(a: seq<Entry>, b: seq<Entry>, c: seq<Entry>)
    ensures (a + b) + c == a + (b + c)
  {
  }

  lemma JoinEmpty(a: seq<Entry>)
    ensures [] + a == a
  {
  }

  lemma CollectedGrows(books: seq<BookFile>, i: nat, key: nat, room: int, all: seq<Entry>, found: seq<Entry>, total: seq<Entry>)
    requires i < |books| && room > 0 && found == Found(books[i], key, room)
    requires all + Collected(books, i, key, room) == total
    ensures (all + found) + Collected(books, i + 1, key, room - |found|) == total
  {
    JoinAssociates(all, found, Collected(books, i + 1, key, room - |found|));
  }

  lemma MatchingJoin(a: seq<Entry>, b: seq<Entry>, key: nat)
    requires forall e :: e in a ==> e.key == key && 1 <= e.weight < 65536
    requires forall e :: e in b ==> e.key == key && 1 <= e.weight < 65536
    ensures forall e :: e in a + b ==> e.key == key && 1 <= e.weight < 65536
  {
  }

  lemma CollectedDone(books: seq<BookFile>, i: nat, key: nat, room: int, all: seq<Entry>, total: seq<Entry>)
    requires i >= |books| || room <= 0
    requires all + Collected(books, i, key, room) == total
    ensures all == total
  {
    assert Collected(books, i, key, room) == [];
    assert all + [] == all;
  }

  /** One pass of the gathering loop: ask book `i` for what room is left. */
  method CollectStep(books: seq<BookFile>, i: nat, key: nat, all: seq<Entry>, ghost sorted: bool, ghost total: seq<Entry>)
    returns (next: seq<Entry>)
    requires i < |books| && |all| < MaxFound
    requires sorted ==> SortedBook(books[i].file)
    requires forall e :: e in all ==> e.key == key && 1 <= e.weight < 65536
    requires sorted ==> all + Collected(books, i, key, MaxFound - |all|) == total
    ensures |next| <= MaxFound
    ensures forall e :: e in next ==> e.key == key && 1 <= e.weight < 65536
    ensures sorted ==> next + Collected(books, i + 1, key, MaxFound - |next|) == total
  {
    var found := ProbeSingleBook(books[i], key, MaxFound - |all|);
    if sorted {
      CollectedGrows(books, i, key, MaxFound - |all|, all, found, total);
    }
    MatchingJoin(all, found, key);
    next := all + found;
  }

  /** The gathering loop of `book_probe`. */
  method CollectEntries(books: seq<BookFile>, key: nat) returns (all: seq<Entry>)
    ensures |all| <= MaxFound
    ensures forall e :: e in all ==> e.key == key && 1 <= e.weight < 65536
    ensures AllSorted(books) ==> all == Collected(books, 0, key, MaxFound)
  {
    all := [];
    var i := 0;
    ghost var sorted, total := AllSorted(books), Collected(books, 0, key, MaxFound);
    JoinEmpty(total);
    while i < |books| && |all| < MaxFound
      invariant 0 <= i <= |books| && |all| <= MaxFound
      invariant forall e :: e in all ==> e.key == key && 1 <= e.weight < 65536
      invariant sorted ==> all + Collected(books, i, key, MaxFound - |all|) == total
    {
      all := CollectStep(books, i, key, all, sorted, total);
      i := i + 1;
    }
    if sorted {
      CollectedDone(books, i, key, MaxFound - |all|, all, total);
    }
  }

  /** The index of the first of the first n entries whose weight none of them exceeds. */
  function FirstHeaviest(all: seq<Entry>, n: nat): (i: nat)
    requires 0 < n <= |all|
    ensures i < n
    ensures forall j :: 0 <= j < n ==> all[j].weight <= all[i].weight
    ensures forall j :: 0 <= j < i ==> all[j].weight < all[i].weight
  {
    if n == 1 then 0
    else
      var i := FirstHeaviest(all, n - 1);
      if all[n - 1].weight > all[i].weight then n - 1 else i
  }

  /** Mode 0: the first entry whose weight no other entry exceeds. */
  method SelectBest(all: seq<Entry>) returns (i: nat)
    requires |all| > 0
    ensures i < |all| && i == FirstHeaviest(all, |all|)
    ensures forall j :: 0 <= j < |all| ==> all[j].weight <= all[i].weight
    ensures forall j :: 0 <= j < i ==> all[j].weight < all[i].weight
  {
    i := 0;
    var k := 1;
    while k < |all|
      invariant 1 <= k <= |all| && i < k
      invariant i == FirstHeaviest(all, k)
      invariant forall j :: 0 <= j < k ==> all[j].weight <= all[i].weight
      invariant forall j :: 0 <= j < i ==> all[j].weight < all[i].weight
    {
      if all[k].weight > all[i].weight {
        i := k;
      }
      k := k + 1;
    }
  }

  /** The weights of the first n entries. */
  function TotalWeight(all: seq<Entry>, n: nat): (t: int)
    requires n <= |all|
    ensures (forall e :: e in all ==> e.weight >= 1) ==> t >= n
  {
    if n == 0 then 0 else TotalWeight(all, n - 1) + all[n - 1].weight
  }

  lemma {:induction false} TotalWeightGrows(all: seq<Entry>, m: nat, n: nat)
    requires m <= n <= |all| && forall e :: e in all ==> e.weight >= 1
    ensures TotalWeight(all, n) >= TotalWeight(all, m) + (n - m)
    decreases n - m
  {
    if m < n {
      assert all[n - 1] in all;
      TotalWeightGrows(all, m, n - 1);
    }
  }

  /** The first entry from k on whose running sum passes r, or entry 0 when none does. */
  function WeightedPick(all: seq<Entry>, r: int, k: nat): (i: nat)
    requires 0 < |all| && k <= |all|
    ensures i < |all|
    decreases |all| - k
  {
    if k == |all| then 0
    else if r < TotalWeight(all, k + 1) then k
    else WeightedPick(all, r, k + 1)
  }

  /** From a running sum at or below r, below the total, the pick is the entry whose span of running sums holds r. */
  lemma {:induction false} WeightedPickBrackets(all: seq<Entry>, r: int, k: nat)
    requires 0 < |all| && k <= |all| && TotalWeight(all, k) <= r < TotalWeight(all, |all|)
    ensures k <= WeightedPick(all, r, k)
    ensures TotalWeight(all, WeightedPick(all, r, k)) <= r < TotalWeight(all, WeightedPick(all, r, k) + 1)
    decreases |all| - k
  {
    if r >= TotalWeight(all, k + 1) {
      WeightedPickBrackets(all, r, k + 1);
    }
  }

  /**
   * Mode 1: draw `rand() % total` and take the first entry whose running
   * sum passes it; the weights are at least 1, so the total is positive.
   */
  method SelectWeighted(all: seq<Entry>, rand: nat) returns (i: int)
    requires |all| > 0 && forall e :: e in all ==> e.weight >= 1
    ensures 0 <= i < |all|
    ensures TotalWeight(all, |all|) > 0
    ensures i == WeightedPick(all, rand % TotalWeight(all, |all|), 0)
    ensures TotalWeight(all, i) <= rand % TotalWeight(all, |all|) < TotalWeight(all, i + 1)
  {
    var total := 0;
    var k := 0;
    while k < |all|
      invariant 0 <= k <= |all| && total == TotalWeight(all, k)
    {
      total := total + all[k].weight;
      k := k + 1;
    }
    TotalWeightGrows(all, 0, |all|);
    var r := rand % total;
    var sum := 0;
    k := 0;
    i := 0;
    var picked := false;
    while k < |all| && !picked
      invariant 0 <= k <= |all| && sum == TotalWeight(all, k)
      invariant !picked ==> sum <= r && WeightedPick(all, r, 0) == WeightedPick(all, r, k)
      invariant picked ==> 0 <= i < |all| && TotalWeight(all, i) <= r < TotalWeight(all, i + 1)
      invariant picked ==> i == WeightedPick(all, r, 0)
    {
      sum := sum + all[k].weight;
      if r < sum {
        i := k;
        picked := true;
      }
      k := k + 1;
    }
    if !picked {
      i := 0;
    }
  }

  /** The key of a position: piece, castling, en-passant and side terms of the 781 random words. */
  const PolyglotPieces: seq<int> := [1, 3, 5, 7, 9, 11, 0, 2, 4, 6, 8, 10]

  /** Polyglot numbers black pieces evenly and white ones oddly: black pawn 0, white pawn 1, .. white king 11. */
  function PolyPiece(piece: int): (p: int)
    requires 0 <= piece < 12
    ensures 0 <= p < 12
    ensures p == (if piece < 6 then 2 * piece + 1 else 2 * (piece - 6))
  {
    PolyPieceTable(piece);
    PolyglotPieces[piece]
  }

  lemma PolyPieceTable(piece: int)
    requires 0 <= piece < 12
    ensures PolyglotPieces[piece] == (if piece < 6 then 2 * piece + 1 else 2 * (piece - 6))
  {
    if piece == 0 {} else if piece == 1 {} else if piece == 2 {} else if piece == 3 {}
    else if piece == 4 {} else if piece == 5 {} else if piece == 6 {} else if piece == 7 {}
    else if piece == 8 {} else if piece == 9 {} else if piece == 10 {} else {}
  }

  /** Every piece on every square has a random word of its own, below the castling words at 768. */
  lemma PieceWordsDistinct(p1: int, s1: int, p2: int, s2: int)
    requires 0 <= p1 < 12 && 0 <= s1 < 64 && 0 <= p2 < 12 && 0 <= s2 < 64
    ensures 64 * PolyPiece(p1) + FlipSq(s1) < 768
    ensures 64 * PolyPiece(p1) + FlipSq(s1) == 64 * PolyPiece(p2) + FlipSq(s2) ==> p1 == p2 && s1 == s2
  {
    var i1, i2 := 64 * PolyPiece(p1) + FlipSq(s1), 64 * PolyPiece(p2) + FlipSq(s2);
    if i1 == i2 {
      assert i1 / 64 == PolyPiece(p1) && i2 / 64 == PolyPiece(p2);
      assert FlipSq(s1) == FlipSq(s2);
      FlipInvolution(s1);
      FlipInvolution(s2);
    }
  }

  /** The piece terms of the first n steps of the piece-major scan: step k looks for piece k / 64 on square k % 64. */
  function PieceWords(board: Mailbox, rnd: seq<bv64>, n: nat): bv64
    requires |rnd| == 781 && n <= 768
  {
    if n == 0 then 0
    else
      var piece, sq := (n - 1) / 64, (n - 1) % 64;
      if board[sq] == piece then Xor(PieceWords(board, rnd, n - 1), rnd[64 * PolyPiece(piece) + FlipSq(sq)])
      else PieceWords(board, rnd, n - 1)
  }

  /** Fold in a word when the condition holds. */
  function XorIf(key: bv64, cond: bool, w: bv64): bv64
  {
    if cond then Xor(key, w) else key
  }

  /** The castling words 768..771 for the rights wk = 1, wq = 2, bk = 4, bq = 8 that are set. */
  function WithCastling(key: bv64, castle: int, rnd: seq<bv64>): bv64
    requires |rnd| == 781 && 0 <= castle < 16
  {
    XorIf(XorIf(XorIf(XorIf(key, castle % 2 == 1, rnd[768]), (castle / 2) % 2 == 1, rnd[769]), (castle / 4) % 2 == 1, rnd[770]), (castle / 8) % 2 == 1, rnd[771])
  }

  /** A pawn of the side to move stands beside the pawn that just made the double step, ready to take en passant. */
  predicate EpCapture(board: Mailbox, ep: int, white: bool)
    requires 0 <= ep < 64
  {
    var file, pawn := ep % 8, if white then 0 else 6;
    var left, right := if white then ep + 7 else ep - 9, if white then ep + 9 else ep - 7;
    (file > 0 && 0 <= left < 64 && board[left] == pawn) || (file < 7 && 0 <= right < 64 && board[right] == pawn)
  }

  /** The en-passant word 772 + file counts only when the square is set (64 is none) and the capture is possible. */
  predicate EpCounts(board: Mailbox, ep: int, white: bool)
    requires 0 <= ep <= 64
  {
    ep != 64 && EpCapture(board, ep, white)
  }

  /** The key of a position: piece, castling, en-passant and side-to-move words of the 781 random words. */
  function PolyglotKeyOf(board: Mailbox, castle: int, ep: int, white: bool, rnd: seq<bv64>): bv64
    requires |rnd| == 781 && 0 <= castle < 16 && 0 <= ep <= 64
  {
    var placed := WithCastling(PieceWords(board, rnd, 768), castle, rnd);
    var passant := XorIf(placed, EpCounts(board, ep, white), rnd[772 + ep % 8]);
    XorIf(passant, white, rnd[780])
  }

  lemma PieceWordsStep(board: Mailbox, rnd: seq<bv64>, piece: int, sq: int)
    requires |rnd| == 781 && 0 <= piece < 12 && 0 <= sq < 64
    ensures board[sq] == piece ==> PieceWords(board, rnd, piece * 64 + sq + 1) == Xor(PieceWords(board, rnd, piece * 64 + sq), rnd[64 * PolyPiece(piece) + FlipSq(sq)])
    ensures board[sq] != piece ==> PieceWords(board, rnd, piece * 64 + sq + 1) == PieceWords(board, rnd, piece * 64 + sq)
  {
    var k := piece * 64 + sq;
    assert k / 64 == piece && k % 64 == sq;
  }

  /** The squares of one piece in ascending order, continuing the running key. */
  method ScanPiece(board: Mailbox, rnd: seq<bv64>, piece: int, key0: bv64) returns (key: bv64)
    requires |rnd| == 781 && 0 <= piece < 12 && key0 == PieceWords(board, rnd, piece * 64)
    ensures key == PieceWords(board, rnd, piece * 64 + 64)
  {
    key := key0;
    var sq := 0;
    while sq < 64
      invariant 0 <= sq <= 64 && key == PieceWords(board, rnd, piece * 64 + sq)
    {
      PieceWordsStep(board, rnd, piece, sq);
      if board[sq] == piece {
        key := Xor(key, rnd[64 * PolyPiece(piece) + FlipSq(sq)]);
      }
      sq := sq + 1;
    }
  }

  /** The en-passant test of `get_polyglot_key`: a pawn of the side to move on either capturing square. */
  method HasEpCapture(board: Mailbox, ep: int, white: bool) returns (capture: bool)
    requires 0 <= ep < 64
    ensures capture == EpCapture(board, ep, white)
  {
    var file := ep % 8;
    var pawn := if white then 0 else 6;
    capture := false;
    if file > 0 {
      var check := if white then ep + 7 else ep - 9;
      if 0 <= check < 64 && board[check] == pawn {
        capture := true;
      }
    }
    if file < 7 {
      var check := if white then ep + 9 else ep - 7;
      if 0 <= check < 64 && board[check] == pawn {
        capture := true;
      }
    }
  }

  /** The piece loop of `get_polyglot_key`: every piece in turn, its squares in ascending order. */
  method ScanPieces(board: Mailbox, rnd: seq<bv64>) returns (key: bv64)
    requires |rnd| == 781
    ensures key == PieceWords(board, rnd, 768)
  {
    key := 0;
    var piece := 0;
    while piece < 12
      invariant 0 <= piece <= 12 && key == PieceWords(board, rnd, piece * 64)
    {
      key := ScanPiece(board, rnd, piece, key);
      piece := piece + 1;
    }
  }

  /** The castling step of `get_polyglot_key`: one word per right that is set. */
  method AddCastling(key0: bv64, castle: int, rnd: seq<bv64>) returns (key: bv64)
    requires |rnd| == 781 && 0 <= castle < 16
    ensures key == WithCastling(key0, castle, rnd)
  {
    key := key0;
    if castle % 2 == 1 { key := Xor(key, rnd[768]); }
    ghost var k1 := key;
    if (castle / 2) % 2 == 1 { key := Xor(key, rnd[769]); }
    assert key == XorIf(k1, (castle / 2) % 2 == 1, rnd[769]);
    ghost var k2 := key;
    if (castle / 4) % 2 == 1 { key := Xor(key, rnd[770]); }
    assert key == XorIf(k2, (castle / 4) % 2 == 1, rnd[770]);
    ghost var k3 := key;
    if (castle / 8) % 2 == 1 { key := Xor(key, rnd[771]); }
    assert key == XorIf(k3, (castle / 8) % 2 == 1, rnd[771]);
  }

  /** `get_polyglot_key`: each piece's squares in ascending order, then the castling, en-passant and side words. */
  method PolyglotKey(board: Mailbox, castle: int, ep: int, white: bool, rnd: seq<bv64>) returns (key: bv64)
    requires |rnd| == 781 && 0 <= castle < 16 && 0 <= ep <= 64
    ensures key == PolyglotKeyOf(board, castle, ep, white, rnd)
  {
    key := ScanPieces(board, rnd);
    key := AddCastling(key, castle, rnd);
    if ep != 64 {
      var capture := HasEpCapture(board, ep, white);
      if capture {
        key := Xor(key, rnd[772 + ep % 8]);
      }
    }
    if white {
      key := Xor(key, rnd[780]);
    }
  }

  /** Folding a word in twice cancels it, so each word toggles the key. */
  lemma XorToggles(key: bv64, w: bv64)
    ensures Xor(Xor(key, w), w) == key
    ensures Xor(key, w) == key <==> w == 0
  {
    XorTwice(key, w);
    XorDef(key, w);
    BitsUnchanged(key, w);
  }

  lemma BitsUnchanged(key: bv64, w: bv64)
    ensures key ^ w == key <==> w == 0
  {
  }

  /**
   * Only the side word tells white to move from black to move when no
   * en-passant word counts for either side; when one does, the words of
   * both sides differ by the side word and the en-passant words that count.
   */
  lemma SideWordToggles(board: Mailbox, castle: int, ep: int, rnd: seq<bv64>)
    requires |rnd| == 781 && 0 <= castle < 16 && 0 <= ep <= 64
    requires !EpCounts(board, ep, true) && !EpCounts(board, ep, false)
    ensures PolyglotKeyOf(board, castle, ep, true, rnd) == Xor(PolyglotKeyOf(board, castle, ep, false, rnd), rnd[780])
    ensures Xor(PolyglotKeyOf(board, castle, ep, true, rnd), rnd[780]) == PolyglotKeyOf(board, castle, ep, false, rnd)
  {
    XorToggles(PolyglotKeyOf(board, castle, ep, false, rnd), rnd[780]);
  }

  lemma XorSwap(a: bv64, b: bv64, c: bv64)
    ensures Xor(Xor(a, b), c) == Xor(Xor(a, c), b)
  {
    XorAssoc(a, b, c);
    XorComm(b, c);
    XorAssoc(a, c, b);
  }

  /** An en-passant square changes the key only when the side to move can take, and then by its file's word. */
  lemma EpWordNeedsCapture(board: Mailbox, castle: int, ep: int, white: bool, rnd: seq<bv64>)
    requires |rnd| == 781 && 0 <= castle < 16 && 0 <= ep < 64
    ensures !EpCapture(board, ep, white) ==> PolyglotKeyOf(board, castle, ep, white, rnd) == PolyglotKeyOf(board, castle, 64, white, rnd)
    ensures EpCapture(board, ep, white) ==> PolyglotKeyOf(board, castle, ep, white, rnd) == Xor(PolyglotKeyOf(board, castle, 64, white, rnd), rnd[772 + ep % 8])
  {
    var placed := WithCastling(PieceWords(board, rnd, 768), castle, rnd);
    XorSwap(placed, rnd[772 + ep % 8], rnd[780]);
  }

  // ---------------------------------------------------------------------
  // The loaded books
  // ---------------------------------------------------------------------

  /** The static `books[]` table with `num_books`, and the enable and variety switches. */
  class BookShelf {
    var books: seq<BookFile>
    var enabled: bool
    var variety: int

    constructor ()
      ensures books == [] && enabled && variety == 1
    {
      books := [];
      enabled := true;
      variety := 1;
    }

    /** The number of records `book_add` reports for a book: the file size over 16. */
    function Entries(i: int): int
      reads this
      requires 0 <= i < |books|
    {
      |books[i].file| / 16
    }

    /** `book_add`: refused once ten books are loaded or when the file cannot be opened (`file` is None). */
    method Add(file: Option<seq<Byte>>, weight: int) returns (ok: bool)
      modifies this
      ensures ok <==> old(|books|) < MaxBooks && file.Some?
      ensures ok ==> books == old(books) + [BookFile(file.value, weight, true, true)]
      ensures !ok ==> books == old(books)
      ensures enabled == old(enabled) && variety == old(variety)
    {
      if |books| >= MaxBooks {
        return false;
      }
      if file.None? {
        return false;
      }
      books := books + [BookFile(file.value, weight, true, true)];
      return true;
    }

    /** `book_clear`: close every book and forget them. */
    method Clear()
      modifies this
      ensures books == [] && enabled == old(enabled) && variety == old(variety)
    {
      books := [];
    }

    method SetVariety(mode: int)
      modifies this
      ensures variety == mode && books == old(books) && enabled == old(enabled)
    {
      variety := mode;
    }

    method SetEnabled(on: bool)
      modifies this
      ensures enabled == on && books == old(books) && variety == old(variety)
    {
      enabled := on;
    }

    /**
     * `book_probe` for a position with the given key: gather up to 256
     * entries from the books in order, choose one by the variety mode
     * (`rand` stands for the one `rand()` the mode draws), and match its
     * word against the generated moves. Modes other than 0, 1 and 2
     * choose nothing.
     */
    method Probe(key: nat, rand: nat, moves: seq<Candidate>) returns (chosen: Option<Entry>, move: Option<nat>)
      ensures !enabled || books == [] ==> chosen.None?
      ensures variety !in {0, 1, 2} ==> chosen.None?
      ensures chosen.Some? ==> chosen.value.key == key && chosen.value.weight >= 1
      ensures chosen.Some? && AllSorted(books) ==> chosen.value in Collected(books, 0, key, MaxFound)
      ensures enabled && books != [] && AllSorted(books) && variety in {0, 1, 2} ==>
        var all := Collected(books, 0, key, MaxFound);
        (all == [] ==> chosen.None?)
        && (all != [] ==>
              chosen.Some?
              && (variety == 0 ==> chosen.value == all[FirstHeaviest(all, |all|)])
              && (variety == 1 ==> chosen.value == all[WeightedPick(all, rand % TotalWeight(all, |all|), 0)])
              && (variety == 2 ==> chosen.value == all[rand % |all|]))
      ensures chosen.None? ==> move.None?
      ensures move.Some? ==> chosen.Some? && move.value < |moves| && MatchesWord(moves[move.value], chosen.value.move)
      ensures move.Some? ==> forall j :: 0 <= j < move.value ==> !MatchesWord(moves[j], chosen.value.move)
      ensures chosen.Some? && move.None? ==> forall j :: 0 <= j < |moves| ==> !MatchesWord(moves[j], chosen.value.move)
    {
      chosen, move := None, None;
      if !enabled || |books| == 0 {
        return;
      }
      var all := CollectEntries(books, key);
      if |all| == 0 {
        return;
      }
      var i: nat;
      if variety == 0 {
        i := SelectBest(all);
      } else if variety == 1 {
        i := SelectWeighted(all, rand);
      } else if variety == 2 {
        i := rand % |all|;
      } else {
        return;
      }
      chosen := Some(all[i]);
      move := PolyglotToMove(all[i].move, moves);
    }
  }
}
