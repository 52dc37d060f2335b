/**
 * The transposition table of the modular engine: entries carry the search
 * generation they were written in, `age_tt` advances the generation modulo
 * 256, a store replaces entries of another generation, and the mate
 * adjustment is bounded by `MATE_IN_MAX`.
 *
 * The key of the current position is a parameter of every operation.  An
 * absent table (the NULL pointer of the C code) is the flag `present`.
 */
module AgedTable {
  import opened Moves
  import opened Limits
  import opened CArith


  const TtExact := 0
  const TtAlpha := 1
  const TtBeta := 2

  const NoHit := -Inf - 1
  const Generations := 256

  /** `sizeof(TTEntry)`: a 64-bit key and five 32-bit ints, padded to 8 bytes. */
  const EntryBytes := 32
  /** The megabytes `init_tt` falls back to when the first allocation fails. */
  const FallbackMb := 16

  datatype Entry = Entry(key: bv64, depth: int, flags: int, value: int, bestMove: Move, age: int)

  const Empty := Entry(0, 0, 0, 0, 0, 0)

  /** The score `store_tt` writes: a mate score made relative to the node. */
  function ToStored(value: int, ply: int): int
  {
    if value > MateInMax then value + ply
    else if value < -MateInMax then value - ply
    else value
  }

  /** The score `probe_tt` reports for a stored score. */
  function FromStored(score: int, ply: int): int
  {
    if score > MateInMax then score - ply
    else if score < -MateInMax then score + ply
    else score
  }

  /** The mate adjustment round-trips between `store_tt` and `probe_tt` at the same ply. */
  lemma MateRoundTrip(value: int, ply: int)
    requires ply >= 0
    ensures FromStored(ToStored(value, ply), ply) == value
  {
  }

  /**
   * The replacement rule of `store_tt`: an empty slot, the same position,
   * an entry of another generation, or one searched no deeper.
   */
  predicate Replaces(e: Entry, key: bv64, depth: int, generation: int)
  {
    e.key == 0 || e.key == key || e.age != generation || e.depth <= depth
  }

  /** The one case in which `store_tt` keeps the old entry. */
  lemma KeepsOnlyDeeperCurrent(e: Entry, key: bv64, depth: int, generation: int)
    ensures !Replaces(e, key, depth, generation) <==>
      e.key != 0 && e.key != key && e.age == generation && e.depth > depth
  {
  }

  /** The entry `store_tt` writes, stamped with the current generation. */
  function Stored(key: bv64, depth: int, value: int, flags: int, move: Move, ply: int, generation: int): Entry
  {
    Entry(key, depth, flags, ToStored(value, ply), move, generation)
  }

  /** The score part of `probe_tt` once the slot's entry e is known. */
  function ProbeScore(e: Entry, key: bv64, alpha: int, beta: int, depth: int, ply: int): (r: int)
    ensures e.key != key || e.depth < depth ==> r == NoHit
    ensures r != NoHit && e.flags == TtAlpha ==> r == alpha && FromStored(e.value, ply) <= alpha
    ensures r != NoHit && e.flags == TtBeta ==> r == beta && FromStored(e.value, ply) >= beta
    ensures r != NoHit ==> e.flags in {TtExact, TtAlpha, TtBeta}
  {
    if e.key == key && e.depth >= depth then
      var score := FromStored(e.value, ply);
      if e.flags == TtExact then score
      else if e.flags == TtAlpha && score <= alpha then alpha
      else if e.flags == TtBeta && score >= beta then beta
      else NoHit
    else NoHit
  }

  /** An exact store is read back unchanged by any probe at its depth or shallower. */
  lemma ExactStoreReads(key: bv64, depth: int, value: int, move: Move, ply: int, generation: int,
                        alpha: int, beta: int, probeDepth: int)
    requires ply >= 0 && probeDepth <= depth
    ensures ProbeScore(Stored(key, depth, value, TtExact, move, ply, generation), key, alpha, beta, probeDepth, ply) == value
  {
    MateRoundTrip(value, ply);
  }

  /**
   * `tt_size` as `init_tt` computes it: `size_mb * 1024 * 1024` is an
   * `int` product, which leaves the 32-bit range from 2048 megabytes on.
   */
  function TableSizeAsWritten(mb: int): int
  {
    CDiv(Wrap32(Wrap32(mb * 1024) * 1024), EntryBytes)
  }

  /** With the 4096 megabytes the Hash option allows, the computed size is 0 entries. */
  lemma OverflowGivesEmptyTable()
    ensures TableSizeAsWritten(4096) == 0
    ensures TableSizeAsWritten(8192) == 0
    ensures TableSizeAsWritten(2048) < 0
  {
    assert Wrap32(4096 * 1024) == 0x40_0000;
    assert Wrap32(0x40_0000 * 1024) == 0;
    assert Wrap32(8192 * 1024) == 0x80_0000;
    assert Wrap32(0x80_0000 * 1024) == 0;
    assert Wrap32(2048 * 1024) == 0x20_0000;
    assert Wrap32(0x20_0000 * 1024) == -0x8000_0000;
  }

  /** `tt_size` computed in 64-bit arithmetic, as the size in megabytes means. */
  function TableSize(mb: int): (n: int)
    requires 1 <= mb <= 8192
    ensures n >= 32768 && n == mb * 32768
  {
    mb * 0x10_0000 / EntryBytes
  }

  class AgedTranspositionTable {
    var entries: array<Entry>
    /** Whether the table pointer is non-NULL. */
    var present: bool
    var generation: int

    /** A present table has entries, and the generation is a byte. */
    ghost predicate Valid()
      reads this
    {
      (present ==> entries.Length > 0) && 0 <= generation < Generations
    }

    function Slot(key: bv64): (i: nat)
      requires entries.Length > 0
      reads this
      ensures i < entries.Length
    {
      key as int % entries.Length
    }

    /**
     * `init_tt` with the size computed in 64-bit arithmetic.  firstOk and
     * fallbackOk say whether the first allocation and the 16-megabyte
     * retry succeed.
     */
    constructor Init(mb: int, firstOk: bool, fallbackOk: bool)
      requires 1 <= mb <= 8192
      ensures Valid() && generation == 0
      ensures present == (firstOk || fallbackOk)
      ensures firstOk ==> entries.Length == TableSize(mb)
      ensures !firstOk && fallbackOk ==> entries.Length == TableSize(FallbackMb)
      ensures forall i :: 0 <= i < entries.Length ==> entries[i] == Empty
    {
      if firstOk {
        entries := new Entry[TableSize(mb)](_ => Empty);
        present := true;
      } else if fallbackOk {
        entries := new Entry[TableSize(FallbackMb)](_ => Empty);
        present := true;
      } else {
        entries := new Entry[0];
        present := false;
      }
      generation := 0;
    }

    /** `clear_tt`: zero all entries of a present table and reset the generation. */
    method Clear()
      requires Valid()
      modifies this, entries
      ensures Valid() && entries == old(entries) && present == old(present)
      ensures present ==> forall i :: 0 <= i < entries.Length ==> entries[i] == Empty
      ensures !present ==> forall i :: 0 <= i < entries.Length ==> entries[i] == old(entries[i])
      ensures generation == 0
    {
      if present {
        forall i | 0 <= i < entries.Length {
          entries[i] := Empty;
        }
      }
      generation := 0;
    }

    /** `age_tt`: the next generation, wrapping from 255 to 0. */
    method Age()
      requires Valid()
      modifies this
      ensures Valid() && entries == old(entries) && present == old(present)
      ensures generation == (old(generation) + 1) % Generations
    {
      generation := generation + 1;
      if generation > 255 {
        generation := 0;
      }
    }

    /**
     * `probe_tt`: the score as ProbeScore decides it, and the stored move
     * whenever the key matches, even when the entry is too shallow.
     * `prior` is what the caller's `*tt_move` held: without a table the C
     * returns before writing it, so it comes back unchanged.
     */
    method Probe(key: bv64, alpha: int, beta: int, depth: int, ply: int, prior: Move) returns (score: int, ttMove: Move)
      requires Valid()
      ensures !present ==> score == NoHit && ttMove == prior
      ensures present ==> score == ProbeScore(entries[Slot(key)], key, alpha, beta, depth, ply)
      ensures present ==> ttMove == (if entries[Slot(key)].key == key then entries[Slot(key)].bestMove else 0)
    {
      if !present {
        return NoHit, prior;
      }
      var e := entries[Slot(key)];
      ttMove := 0;
      if e.key == key {
        ttMove := e.bestMove;
      }
      score := ProbeScore(e, key, alpha, beta, depth, ply);
    }

    /**
     * `store_tt`: only the key's slot can change, it takes the new entry
     * exactly when Replaces allows it, and the new entry carries the
     * current generation.
     */
    method Store(key: bv64, depth: int, value: int, flags: int, move: Move, ply: int)
      requires Valid()
      modifies entries
      ensures present ==>
        entries[Slot(key)] == if Replaces(old(entries[Slot(key)]), key, depth, generation)
                              then Stored(key, depth, value, flags, move, ply, generation)
                              else old(entries[Slot(key)])
      ensures forall i :: 0 <= i < entries.Length && (!present || i != Slot(key)) ==>
        entries[i] == old(entries[i])
    {
      if !present {
        return;
      }
      var slot := Slot(key);
      if Replaces(entries[slot], key, depth, generation) {
        entries[slot] := Stored(key, depth, value, flags, move, ply, generation);
      }
    }

    /** `get_tt_move`. */
    function GetMove(key: bv64): (m: Move)
      requires Valid()
      reads this, entries
      ensures m != 0 ==> present && entries[Slot(key)].key == key
    {
      if present && entries[Slot(key)].key == key then entries[Slot(key)].bestMove else 0
    }

    /**
     * `get_tt_usage`: the permille of used entries among the first
     * min(tt_size, 1000), and 0 without a table.
     */
    method Usage() returns (permille: int)
      requires Valid()
      ensures 0 <= permille <= 1000
      ensures !present ==> permille == 0
      ensures present ==> permille == Used(entries[..], Sample(entries.Length)) * 1000 / Sample(entries.Length)
    {
      if !present {
        return 0;
      }
      var used := 0;
      var sample := Sample(entries.Length);
      for i := 0 to sample
        invariant used == Used(entries[..], i)
      {
        if entries[i].key != 0 {
          used := used + 1;
        }
      }
      UsedBound(entries[..], sample);
      PermilleBound(used, sample);
      permille := used * 1000 / sample;
    }
  }

  /** `tt_size < 1000 ? tt_size : 1000`. */
  function Sample(size: int): int
  {
    if size < 1000 then size else 1000
  }

  /** The number of entries with a non-zero key among the first n. */
  function Used(es: seq<Entry>, n: int): int
    requires 0 <= n <= |es|
  {
    if n == 0 then 0 else Used(es, n - 1) + (if es[n - 1].key != 0 then 1 else 0)
  }

  lemma {:induction false} UsedBound(es: seq<Entry>, n: int)
    requires 0 <= n <= |es|
    ensures 0 <= Used(es, n) <= n
  {
    if n > 0 {
      UsedBound(es, n - 1);
    }
  }

  lemma {:induction false} MulMonotone(a: int, b: int, c: nat)
    requires a <= b
    ensures a * c <= b * c
  {
    if c > 0 {
      MulMonotone(a, b, c - 1);
      assert a * c == a * (c - 1) + a && b * c == b * (c - 1) + b;
    }
  }

  /** A count out of a positive sample, scaled to permille, lies in 0..1000. */
  lemma PermilleBound(used: int, sample: int)
    requires 0 <= used <= sample && sample > 0
    ensures 0 <= used * 1000 / sample <= 1000
  {
    var x := used * 1000;
    MulMonotone(used, sample, 1000);
    MulMonotone(0, used, 1000);
    var q, r := x / sample, x % sample;
    assert x == q * sample + r && 0 <= r < sample;
    if q > 1000 {
      MulMonotone(1001, q, sample);
      assert false;
    } else if q < 0 {
      MulMonotone(q, -1, sample);
      assert false;
    }
  }
}
