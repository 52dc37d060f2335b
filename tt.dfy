/**
 * The transposition table of the main engine: a heap array of fixed-size
 * entries indexed by `hash_key % tt_num_entries`, the depth-preferring
 * replacement rule of `write_tt`, and the mate-score adjustment that makes
 * a mate distance stored at one ply read back correctly at the same ply.
 *
 * The position's key is a parameter of every operation (the engine reads
 * the global `hash_key`).  An empty table stands for the C table that was
 * never allocated.
 */
module TransTable {
  import opened Moves
  import opened Limits

  /** A score beyond this bound in either direction is a mate score. */
  const MateBound := Mate - 100

  const HashExact := 0
  const HashAlpha := 1
  const HashBeta := 2

  /** `-INF - 1`: what a probe returns when it has nothing to offer. */
  const NoHit := -Inf - 1

  /** `sizeof(tt_entry)`: a 64-bit key and four 32-bit ints. */
  const EntryBytes := 24
  const MinEntries := 1024
  /** `TT_DEFAULT_SIZE`, the fallback entry count when allocation fails. */
  const DefaultSize := 0x400000
  const Word := 0x1_0000_0000_0000_0000

  datatype Entry = Entry(key: bv64, depth: int, flags: int, value: int, bestMove: Move)

  /** What `calloc` and `memset` leave behind. */
  const Empty := Entry(0, 0, 0, 0, 0)

  /** The score `write_tt` stores: a mate score is made relative to the node. */
  function ToStored(value: int, ply: int): int
  {
    var s := if value > MateBound then value + ply else value;
    if value < -MateBound then s - ply else s
  }

  /** The score `read_tt` reports: a stored mate score made relative to the root again. */
  function FromStored(score: int, ply: int): int
  {
    var s := if score > MateBound then score - ply else score;
    if s < -MateBound then s + ply else s
  }

  /** Storing and reading back at the same (non-negative) ply gives the value stored. */
  lemma MateRoundTrip(value: int, ply: int)
    requires ply >= 0
    ensures FromStored(ToStored(value, ply), ply) == value
  {
  }

  /** A stored mate score keeps its side of the mate bound, and other scores are stored as they are. */
  lemma StoredKeepsClass(value: int, ply: int)
    requires ply >= 0
    ensures value > MateBound ==> ToStored(value, ply) > MateBound
    ensures value < -MateBound ==> ToStored(value, ply) < -MateBound
    ensures -MateBound <= value <= MateBound ==> ToStored(value, ply) == value
  {
  }

  /**
   * The answer of `read_tt` once it has found the slot's entry e: only an
   * entry with the probe's key and at least the probe's depth answers; an
   * exact entry gives its score, a bound entry gives the window edge it
   * proves.
   */
  function ProbeEntry(e: Entry, key: bv64, alpha: int, beta: int, depth: int, ply: int): (r: int)
    ensures e.key != key || e.depth < depth ==> r == NoHit
    ensures e.key == key && e.depth >= depth && e.flags == HashExact ==> r == FromStored(e.value, ply)
    ensures r != NoHit && e.flags == HashAlpha ==> r == alpha && FromStored(e.value, ply) <= alpha
    ensures r != NoHit && e.flags == HashBeta ==> r == beta && FromStored(e.value, ply) >= beta
    ensures r != NoHit ==> e.flags in {HashExact, HashAlpha, HashBeta}
  {
    if e.key == key && e.depth >= depth then
      var score := FromStored(e.value, ply);
      if e.flags == HashExact then score
      else if e.flags == HashAlpha && score <= alpha then alpha
      else if e.flags == HashBeta && score >= beta then beta
      else NoHit
    else NoHit
  }

  /** The replacement rule of `write_tt`. */
  predicate ShouldReplace(e: Entry, key: bv64, depth: int, flags: int)
  {
    e.key == 0 || e.key == key || depth >= e.depth || (flags == HashExact && e.flags != HashExact)
  }

  /** The entry `write_tt` puts in the slot. */
  function Stored(key: bv64, depth: int, value: int, flags: int, move: Move, ply: int): Entry
  {
    Entry(key, depth, flags, ToStored(value, ply), move)
  }

  /**
   * An exact entry written at some depth answers every probe of the same
   * key and ply at that depth or shallower with the value written.
   */
  lemma ExactWriteReads(key: bv64, depth: int, value: int, move: Move, ply: int,
                        alpha: int, beta: int, probeDepth: int)
    requires ply >= 0 && probeDepth <= depth
    ensures ProbeEntry(Stored(key, depth, value, HashExact, move, ply), key, alpha, beta, probeDepth, ply) == value
  {
    MateRoundTrip(value, ply);
  }

  /**
   * A bound entry written for a fail-low (alpha) answers a probe whose
   * window lies at or above the value, and answers it with alpha.
   */
  lemma AlphaWriteReads(key: bv64, depth: int, value: int, move: Move, ply: int,
                        alpha: int, beta: int, probeDepth: int)
    requires ply >= 0 && probeDepth <= depth && value <= alpha
    ensures ProbeEntry(Stored(key, depth, value, HashAlpha, move, ply), key, alpha, beta, probeDepth, ply) == alpha
  {
    MateRoundTrip(value, ply);
  }

  /** Writing a key already in the slot, or into an empty slot, always replaces it. */
  lemma SameKeyReplaces(e: Entry, key: bv64, depth: int, flags: int)
    requires e.key == key || e.key == 0
    ensures ShouldReplace(e, key, depth, flags)
  {
  }

  /**
   * The entry count `init_tt` asks for: `mb` megabytes in unsigned 64-bit
   * arithmetic, divided by the entry size, and never below 1024.
   */
  function EntryCount(mb: int): (n: int)
    ensures n >= MinEntries
    ensures 1 <= mb <= 4096 ==> n == mb * 0x10_0000 / EntryBytes
  {
    var bytes := (mb * 0x10_0000) % Word;
    if bytes / EntryBytes < MinEntries then MinEntries else bytes / EntryBytes
  }

  class TranspositionTable {
    /** The entries; the array is empty when no table is allocated. */
    var entries: array<Entry>
    var generation: int

    /** `hash_key % tt_num_entries`. */
    function Slot(key: bv64): (i: nat)
      requires entries.Length > 0
      reads this
      ensures i < entries.Length
    {
      key as int % entries.Length
    }

    /**
     * `init_tt`: allocate EntryCount(mb) zeroed entries; allocOk says
     * whether the allocation succeeded, and when it did not, the table gets
     * the default size instead.
     */
    constructor Init(mb: int, allocOk: bool)
      ensures entries.Length == (if allocOk then EntryCount(mb) else DefaultSize)
      ensures entries.Length >= MinEntries
      ensures forall i :: 0 <= i < entries.Length ==> entries[i] == Empty
      ensures generation == 0
    {
      var n := if allocOk then EntryCount(mb) else DefaultSize;
      entries := new Entry[n](_ => Empty);
      generation := 0;
    }

    /** `clear_tt`: zero every entry and reset the generation. */
    method Clear()
      modifies this, entries
      ensures entries == old(entries)
      ensures forall i :: 0 <= i < entries.Length ==> entries[i] == Empty
      ensures generation == 0
    {
      forall i | 0 <= i < entries.Length {
        entries[i] := Empty;
      }
      generation := 0;
    }

    /** `read_tt` for the position with the given key. */
    function Read(key: bv64, alpha: int, beta: int, depth: int, ply: int): (r: int)
      reads this, entries
      ensures entries.Length == 0 ==> r == NoHit
    {
      if entries.Length == 0 then NoHit
      else ProbeEntry(entries[Slot(key)], key, alpha, beta, depth, ply)
    }

    /** `get_tt_move`: the stored move when the slot holds this key, else 0. */
    function GetMove(key: bv64): (m: Move)
      reads this, entries
      ensures m != 0 ==> entries.Length > 0 && entries[Slot(key)].key == key
    {
      if entries.Length > 0 && entries[Slot(key)].key == key then entries[Slot(key)].bestMove else 0
    }

    /**
     * `get_tt_score_raw`: on a key match, the adjusted score, depth and
     * flags regardless of depth; otherwise NoHit with depth and flags 0.
     */
    method ReadRaw(key: bv64, ply: int) returns (score: int, depth: int, flags: int)
      ensures entries.Length > 0 && entries[Slot(key)].key == key ==>
        score == FromStored(entries[Slot(key)].value, ply) &&
        depth == entries[Slot(key)].depth && flags == entries[Slot(key)].flags
      ensures !(entries.Length > 0 && entries[Slot(key)].key == key) ==>
        score == NoHit && depth == 0 && flags == 0
    {
      if entries.Length == 0 {
        return NoHit, 0, 0;
      }
      var e := entries[Slot(key)];
      if e.key == key {
        score, depth, flags := FromStored(e.value, ply), e.depth, e.flags;
      } else {
        score, depth, flags := NoHit, 0, 0;
      }
    }

    /**
     * `write_tt`: only the key's slot can change, and it takes the new
     * entry exactly when the replacement rule allows it.
     */
    method Write(key: bv64, depth: int, value: int, flags: int, move: Move, ply: int)
      modifies entries
      ensures entries.Length > 0 ==>
        entries[Slot(key)] == if ShouldReplace(old(entries[Slot(key)]), key, depth, flags)
                              then Stored(key, depth, value, flags, move, ply)
                              else old(entries[Slot(key)])
      ensures forall i :: 0 <= i < entries.Length && (entries.Length == 0 || i != Slot(key)) ==>
        entries[i] == old(entries[i])
      ensures entries.Length > 0 && flags == HashExact && ply >= 0 &&
              ShouldReplace(old(entries[Slot(key)]), key, depth, flags) ==>
        forall alpha, beta, d :: d <= depth ==> Read(key, alpha, beta, d, ply) == value
    {
      if entries.Length == 0 {
        return;
      }
      var slot := Slot(key);
      if ShouldReplace(entries[slot], key, depth, flags) {
        entries[slot] := Stored(key, depth, value, flags, move, ply);
        if flags == HashExact && ply >= 0 {
          forall alpha, beta, d | d <= depth
            ensures Read(key, alpha, beta, d, ply) == value
          {
            ExactWriteReads(key, depth, value, move, ply, alpha, beta, d);
          }
        }
      }
    }
  }
}
